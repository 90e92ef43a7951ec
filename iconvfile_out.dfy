/**
 * The write node: how one message is turned into a filesystem action, how
 * the long-lived append handle is kept or replaced when the file is rotated,
 * and the queue that processes messages one at a time, in arrival order, and
 * defers the node's close until the queue has drained.
 */
module IconvfileOut {
  import opened Messages

  /** A file's inode number, as `fs.statSync(...).ino` reports it. */
  type Ino = nat

  /** The `flags` a write stream is opened with: 'w' truncates, 'a' appends. */
  datatype Flags = Truncate | AppendOnly

  /** A write stream, told apart from every other stream the node opened by `id`. */
  datatype Stream = Stream(id: nat, path: string, flags: Flags)

  /** The filesystem requests the node makes, in the order it makes them. */
  datatype FsOp =
    | Unlink(path: string)
    | EnsureDir(dir: string)
    | Open(stream: Stream)
    | Write(stream: Stream, data: Bytes)
    | End(stream: Stream, last: Option<Bytes>)

  /**
   * The foreign libraries the node calls: iconv's `encodingExists` and
   * `encode(text, charset)`, `JSON.stringify`, `Number.prototype.toString`,
   * `os.EOL` and `path.dirname`.
   */
  datatype Codec = Codec(
    encodingExists: string -> bool,
    encode: (string, string) -> Bytes,
    stringify: Payload -> string,
    numberToString: real -> string,
    eol: string,
    dirname: string -> string)

  /**
   * The filesystem as one synchronous run of the node observes it: whether
   * `ensureDirSync` succeeds for a directory, and what `statSync` returns for
   * a path (`None` when it throws).
   */
  datatype FsView = FsView(ensureDir: string -> bool, stat: string -> Option<Ino>)

  /**
   * The write node at one moment: its queue, how each message that left the
   * queue left it, the handle, the inode, the next stream identity and the
   * filesystem log.
   */
  datatype Snapshot = Snapshot(queue: seq<Msg>, fates: seq<Fate>, stream: Option<Stream>, ino: Option<Ino>, id: nat, log: seq<FsOp>)

  /** What processing one message leads to: the state afterwards and what the message waits for. */
  datatype Outcome = Outcome(state: Snapshot, wait: Option<Wait>)

  /** What carrying out an action leads to: what the message waits for, the handle, the inode, the next stream identity and the log. */
  datatype Effect = Effect(wait: Option<Wait>, stream: Option<Stream>, ino: Option<Ino>, id: nat, log: seq<FsOp>)

  /**
   * What running the queue leads to: the state afterwards, what the new
   * head waits for, and how many heads finished on the spot first.
   */
  datatype Ran = Ran(state: Snapshot, wait: Option<Wait>, exits: nat)

  /** The node's configuration; `overwriteFile` is "true", "false" or "delete". */
  datatype OutConfig = OutConfig(filename: string, appendNewline: bool, overwriteFile: string, createDir: bool, charset: string)

  /** The message carries a payload: an own `payload` property that is not `undefined`. */
  predicate HasPayload(p: Payload)
  {
    !p.Absent? && !p.Undefined?
  }

  /** The text a non-Buffer payload is written as, before the line terminator and the charset. */
  function TextForm(p: Payload, codec: Codec): (text: string)
    requires HasPayload(p) && !p.Buffer?
  {
    match p
    case Text(s) => s
    case Bool(b) => if b then "true" else "false"
    case Num(x) => codec.numberToString(x)
    case Null => codec.stringify(p)
    case Obj(_) => codec.stringify(p)
  }

  /** The value of the variable `data` while the payload is normalised. */
  datatype Data = Raw(bytes: Bytes) | Str(s: string) | Value(v: Payload)

  /**
   * The chain of reassignments that turns a payload into the bytes written:
   * objects (and `null`) through `JSON.stringify`, booleans and numbers through
   * `toString`, the line terminator on anything that is not a Buffer, then the
   * charset encoding; a Buffer is written as it is.
   */
  function Normalize(p: Payload, appendNewline: bool, charset: string, codec: Codec): (data: Bytes)
    requires HasPayload(p)
    ensures p.Buffer? ==> data == p.bytes
    ensures !p.Buffer? && appendNewline ==> data == codec.encode(TextForm(p, codec) + codec.eol, charset)
    ensures !p.Buffer? && !appendNewline ==> data == codec.encode(TextForm(p, codec), charset)
  {
    var d := if p.Buffer? then Raw(p.bytes) else if p.Text? then Str(p.text) else Value(p);
    var d := if d.Value? && (p.Null? || p.Obj?) then Str(codec.stringify(p)) else d;
    var d := if d.Value? && p.Bool? then Str(if p.flag then "true" else "false") else d;
    var d := if d.Value? && p.Num? then Str(codec.numberToString(p.number)) else d;
    var d := if appendNewline && d.Str? then Str(d.s + codec.eol) else d;
    var d := if d.Str? then Raw(codec.encode(d.s, charset)) else d;
    d.bytes
  }

  /** What `processMsg` does with one message. */
  datatype Action =
    | NoFilename
    | Delete(path: string)
    | NoPayload
    | NoCharset
    | DirFailed(dir: string)
    | Overwrite(path: string, mkdir: Option<string>, data: Bytes)
    | Append(path: string, mkdir: Option<string>, data: Bytes)
  {
    /** Finished on the spot: `done` is called before `processMsg` returns and nothing is sent. */
    predicate EarlyExit()
    {
      NoFilename? || NoPayload? || NoCharset? || DirFailed?
    }
  }

  /**
   * The decision procedure of `processMsg`, in the order the checks are made:
   * a name must resolve; delete mode needs nothing else; otherwise a payload,
   * a known charset and (when asked for) the parent directory are needed.
   */
  function Route(cfg: OutConfig, msg: Msg, codec: Codec, fs: FsView): (a: Action)
    ensures a.NoFilename? <==> ResolveFilename(cfg.filename, msg.filename) == ""
    ensures a.Delete? <==> ResolveFilename(cfg.filename, msg.filename) != "" && cfg.overwriteFile == "delete"
    ensures a.NoPayload? <==>
      ResolveFilename(cfg.filename, msg.filename) != "" && cfg.overwriteFile != "delete" && !HasPayload(msg.payload)
    ensures a.NoCharset? <==>
      ResolveFilename(cfg.filename, msg.filename) != "" && cfg.overwriteFile != "delete" &&
      HasPayload(msg.payload) && !codec.encodingExists(cfg.charset)
    ensures a.DirFailed? <==>
      ResolveFilename(cfg.filename, msg.filename) != "" && cfg.overwriteFile != "delete" &&
      HasPayload(msg.payload) && codec.encodingExists(cfg.charset) &&
      cfg.createDir && !fs.ensureDir(codec.dirname(ResolveFilename(cfg.filename, msg.filename)))
    ensures a.DirFailed? ==> a.dir == codec.dirname(ResolveFilename(cfg.filename, msg.filename))
    ensures a.Overwrite? || a.Append? <==>
      ResolveFilename(cfg.filename, msg.filename) != "" && cfg.overwriteFile != "delete" &&
      HasPayload(msg.payload) && codec.encodingExists(cfg.charset) &&
      (cfg.createDir ==> fs.ensureDir(codec.dirname(ResolveFilename(cfg.filename, msg.filename))))
    ensures a.Overwrite? ==> cfg.overwriteFile == "true"
    ensures a.Append? ==> cfg.overwriteFile != "true"
    ensures a.Delete? || a.Overwrite? || a.Append? ==> a.path == ResolveFilename(cfg.filename, msg.filename)
    ensures a.Overwrite? || a.Append? ==>
      a.data == Normalize(msg.payload, cfg.appendNewline, cfg.charset, codec) &&
      a.mkdir == (if cfg.createDir then Some(codec.dirname(a.path)) else None)
  {
    var filename := ResolveFilename(cfg.filename, msg.filename);
    if filename == "" then NoFilename
    else if cfg.overwriteFile == "delete" then Delete(filename)
    else if !HasPayload(msg.payload) then NoPayload
    else if !codec.encodingExists(cfg.charset) then NoCharset
    else if cfg.createDir && !fs.ensureDir(codec.dirname(filename)) then DirFailed(codec.dirname(filename))
    else
      var dir := if cfg.createDir then Some(codec.dirname(filename)) else None;
      var data := Normalize(msg.payload, cfg.appendNewline, cfg.charset, codec);
      if cfg.overwriteFile == "true" then Overwrite(filename, dir, data) else Append(filename, dir, data)
  }

  /** Append mode: whether the live handle is ended first, and whether a fresh one is opened. */
  datatype Plan = Plan(endOld: bool, recreate: bool)

  /** `node.wstreamIno` is truthy: an inode has been recorded and it is not 0. */
  predicate Recorded(ino: Option<Ino>)
  {
    ino.Some? && ino.value != 0
  }

  /**
   * The append-mode handle rule. The path is stat'ed only when a handle is
   * live and its inode has been recorded; a failed stat or another inode means
   * the file was rotated, and the old handle is ended. A fresh handle is opened
   * when there is none, when the name is per message, or after rotation.
   */
  function AppendPlan(hasStream: bool, recordedIno: Option<Ino>, staticName: bool, current: Option<Ino>): (p: Plan)
    ensures p.endOld <==> hasStream && Recorded(recordedIno) && current != recordedIno
    ensures p.recreate <==> !hasStream || !staticName || p.endOld
  {
    var recreate := !hasStream || !staticName;
    if hasStream && Recorded(recordedIno) then
      match current
      case None => Plan(true, true)
      case Some(ino) => if ino != recordedIno.value then Plan(true, true) else Plan(false, recreate)
    else Plan(false, recreate)
  }

  /** What the message in processing is waiting for. */
  datatype Wait =
    | Deleting
    | Overwriting(stream: Stream, data: Bytes)
    | Appending(staticName: bool)

  /** How a message left the queue: sent on, finished without output, or discarded by a fault. */
  datatype Fate = Forwarded | Silent | Dropped

  /** The fates of `n` messages that finished on the spot. */
  function Silents(n: nat): (fs: seq<Fate>)
    ensures |fs| == n && forall i :: 0 <= i < n ==> fs[i] == Silent
  {
    seq(n, _ => Silent)
  }

  /** One more message that finished on the spot, ahead of `n` others. */
  lemma SilentsCons(fates: seq<Fate>, n: nat)
    ensures fates + [Silent] + Silents(n) == fates + Silents(n + 1)
  {
    assert [Silent] + Silents(n) == Silents(n + 1);
  }

  /** What an early exit logs: only a failed `createDir` leaves a trace, its attempt. */
  function ExitOps(a: Action): (ops: seq<FsOp>)
  {
    if a.DirFailed? then [EnsureDir(a.dir)] else []
  }

  /** What `closeNode` logs: the end of the live handle, if there is one. */
  function Ending(s: Option<Stream>): (ops: seq<FsOp>)
  {
    if s.Some? then [End(s.value, None)] else []
  }

  /** A successful completion drops the handle of a per-message append. */
  predicate Drops(w: Wait, ok: bool)
  {
    w.Appending? && ok && !w.staticName
  }

  /** What a completion logs: an overwrite's end, on success. */
  function Ended(w: Wait, ok: bool): (ops: seq<FsOp>)
  {
    if w.Overwriting? && ok then [End(w.stream, Some(w.data))] else []
  }

  /** The messages sent on, in queue order: those whose fate is `Forwarded`. */
  function Delivered(ms: seq<Msg>, fates: seq<Fate>): (out: seq<Msg>)
    requires |ms| == |fates|
  {
    if ms == [] then []
    else Delivered(ms[..|ms| - 1], fates[..|fates| - 1]) + (if fates[|fates| - 1] == Forwarded then [ms[|ms| - 1]] else [])
  }

  /** The positions whose fate is `Forwarded`, in increasing order. */
  function Positions(fates: seq<Fate>): (ps: seq<nat>)
    ensures forall k :: 0 <= k < |ps| ==> ps[k] < |fates| && fates[ps[k]] == Forwarded
    ensures forall k, l :: 0 <= k < l < |ps| ==> ps[k] < ps[l]
    ensures forall i :: 0 <= i < |fates| && fates[i] == Forwarded ==> i in ps
  {
    if fates == [] then []
    else
      var ps := Positions(fates[..|fates| - 1]);
      if fates[|fates| - 1] == Forwarded then ps + [|fates| - 1] else ps
  }

  /**
   * Results leave in submission order: the k-th message sent on is the
   * message at the k-th forwarded position of the queue.
   */
  lemma {:induction false} DeliveredInOrder(ms: seq<Msg>, fates: seq<Fate>)
    requires |ms| == |fates|
    ensures |Delivered(ms, fates)| == |Positions(fates)|
    ensures forall k :: 0 <= k < |Positions(fates)| ==> Delivered(ms, fates)[k] == ms[Positions(fates)[k]]
    decreases |ms|
  {
    if ms != [] {
      var n := |ms| - 1;
      DeliveredInOrder(ms[..n], fates[..n]);
      var ps := Positions(fates[..n]);
      var d := Delivered(ms[..n], fates[..n]);
      if fates[n] == Forwarded {
        assert Positions(fates) == ps + [n];
        assert Delivered(ms, fates) == d + [ms[n]];
      } else {
        assert Positions(fates) == ps;
        assert Delivered(ms, fates) == d;
      }
      forall k | 0 <= k < |ps|
        ensures Delivered(ms, fates)[k] == ms[Positions(fates)[k]]
      {
        assert Delivered(ms, fates)[k] == d[k] == ms[..n][ps[k]];
      }
    }
  }

  /** One more finished message extends what was sent, and changes nothing before it. */
  lemma DeliveredSnoc(ms: seq<Msg>, fates: seq<Fate>, m: Msg, f: Fate)
    requires |ms| == |fates|
    ensures Delivered(ms + [m], fates + [f]) == Delivered(ms, fates) + (if f == Forwarded then [m] else [])
  {
    assert (ms + [m])[..|ms|] == ms;
    assert (fates + [f])[..|fates|] == fates;
  }

  /**
   * The write node: its message queue, its close state and the one write
   * stream it owns, with the records it has sent, the filesystem requests it
   * has made and the close callbacks it has invoked.
   */
  class Writer {
    const cfg: OutConfig

    var msgQueue: seq<Msg>
    var closing: bool
    var closeCallback: Option<nat>
    var wstream: Option<Stream>
    var wstreamIno: Option<Ino>
    /** Identity of the next stream to open. */
    var nextId: nat
    /** What the head of the queue waits for; `None` when nothing is in processing. */
    var waiting: Option<Wait>

    var sent: seq<Msg>
    var fsLog: seq<FsOp>
    var fired: seq<nat>

    /** Every message received, and how each message that left the queue left it. */
    ghost var submitted: seq<Msg>
    ghost var fates: seq<Fate>
    /** Every close callback stored, in order. */
    ghost var registered: seq<nat>

    /** The bookkeeping that holds at every step, even while the queue is being run. */
    ghost predicate Core()
      reads this
    {
      Queued() && Callbacks() && Owned()
    }

    /**
     * The queue holds the messages that have not left it, in arrival order,
     * and what was sent is what the messages that left were forwarded.
     */
    ghost predicate Queued()
      reads this`msgQueue, this`submitted, this`fates, this`sent
    {
      |fates| <= |submitted| && msgQueue == submitted[|fates|..] &&
      sent == Delivered(submitted[..|fates|], fates)
    }

    /** A stored callback belongs to a pending close, and callbacks fire in the order stored. */
    ghost predicate Callbacks()
      reads this`closing, this`closeCallback, this`fired, this`registered
    {
      (closeCallback.Some? ==> closing) &&
      |fired| <= |registered| && fired == registered[..|fired|] &&
      |registered| == |fired| + (if closeCallback.Some? then 1 else 0) &&
      (closeCallback.Some? ==> closeCallback.value == registered[|fired|])
    }

    /** The live handle is one the node opened. */
    ghost predicate Owned()
      reads this`wstream, this`nextId
    {
      wstream.Some? ==> wstream.value.id < nextId
    }

    /**
     * Between events: the head of the queue, and only the head, is in
     * processing; a pending close means messages are still queued.
     */
    ghost predicate Valid()
      reads this
    {
      Core() &&
      (msgQueue != [] <==> waiting.Some?) &&
      (closing ==> msgQueue != [])
    }

    constructor (cfg: OutConfig)
      ensures Valid() && this.cfg == cfg
      ensures msgQueue == [] && !closing && closeCallback.None? && wstream.None? && wstreamIno.None?
      ensures sent == [] && fsLog == [] && fired == [] && submitted == []
    {
      this.cfg := cfg;
      msgQueue := [];
      closing := false;
      closeCallback := None;
      wstream := None;
      wstreamIno := None;
      nextId := 0;
      waiting := None;
      sent := [];
      fsLog := [];
      fired := [];
      submitted := [];
      fates := [];
      registered := [];
    }

    /** The directory request made before writing, when `createDir` is on. */
    static function DirOps(dir: Option<string>): (ops: seq<FsOp>)
    {
      if dir.Some? then [EnsureDir(dir.value)] else []
    }

    /**
     * The effect of `processMsg` carrying out action `a` from handle
     * `stream0`, inode `ino0`, next stream identity `id0` and log `log0`,
     * with `stat` answering `statSync`.
     */
    ghost function Apply(a: Action, stat: string -> Option<Ino>,
                         stream0: Option<Stream>, ino0: Option<Ino>, id0: nat, log0: seq<FsOp>): (e: Effect)
      ensures e.wait.None? <==> a.EarlyExit()
      ensures a.EarlyExit() ==> e == Effect(None, stream0, ino0, id0, log0 + ExitOps(a))
      ensures e.id >= id0
      ensures (stream0.Some? ==> stream0.value.id < id0) ==> (e.stream.Some? ==> e.stream.value.id < e.id)
    {
      match a
      case NoFilename => Effect(None, stream0, ino0, id0, log0)
      case Delete(path) => Effect(Some(Deleting), stream0, ino0, id0, log0 + [Unlink(path)])
      case NoPayload => Effect(None, stream0, ino0, id0, log0)
      case NoCharset => Effect(None, stream0, ino0, id0, log0)
      case DirFailed(dir) => Effect(None, stream0, ino0, id0, log0 + [EnsureDir(dir)])
      case Overwrite(path, dir, data) =>
        var s := Stream(id0, path, Truncate);
        Effect(Some(Overwriting(s, data)), Some(s), ino0, id0 + 1, log0 + DirOps(dir) + [Open(s)])
      case Append(path, dir, data) =>
        var plan := AppendPlan(stream0.Some?, ino0, cfg.filename != "", stat(path));
        var s := if plan.recreate then Stream(id0, path, AppendOnly) else stream0.value;
        Effect(Some(Appending(cfg.filename != "")), Some(s),
               if plan.endOld then None else ino0,
               if plan.recreate then id0 + 1 else id0,
               log0 + DirOps(dir) +
                 (if plan.endOld then [End(stream0.value, None)] else []) +
                 (if plan.recreate then [Open(s)] else []) +
                 (if cfg.filename != "" then [Write(s, data)] else [End(s, Some(data))]))
    }

    /**
     * The effect of `processMsg` carrying out action `a`, as a relation
     * between the fields before and after: the wait, handle, inode and log
     * are the ones `Apply` gives.
     */
    ghost predicate Processed(a: Action, stat: string -> Option<Ino>,
                              stream0: Option<Stream>, ino0: Option<Ino>, id0: nat, log0: seq<FsOp>,
                              w: Option<Wait>, stream1: Option<Stream>, ino1: Option<Ino>, log1: seq<FsOp>)
    {
      var e := Apply(a, stat, stream0, ino0, id0, log0);
      w == e.wait && stream1 == e.stream && ino1 == e.ino && log1 == e.log
    }

    /** Each of the first `n` heads of `q` finishes on the spot. */
    ghost predicate Exits(q: seq<Msg>, n: nat, codec: Codec, fs: FsView)
      requires n <= |q|
    {
      forall i :: 0 <= i < n ==> Route(cfg, q[i], codec, fs).EarlyExit()
    }

    /** What the first `n` heads of `q`, each finishing on the spot in turn, log. */
    ghost function ExitLog(q: seq<Msg>, n: nat, codec: Codec, fs: FsView): (ops: seq<FsOp>)
      requires n <= |q|
      decreases n
    {
      if n == 0 then [] else ExitOps(Route(cfg, q[0], codec, fs)) + ExitLog(q[1..], n - 1, codec, fs)
    }

    /** The node now. */
    ghost function Now(): (s: Snapshot)
      reads this`msgQueue, this`fates, this`wstream, this`wstreamIno, this`nextId, this`fsLog
    {
      Snapshot(msgQueue, fates, wstream, wstreamIno, nextId, fsLog)
    }

    /**
     * `processMsg` as a function of the state: the action `Route` picks for
     * `msg` carried out from state `s`.
     */
    ghost function Process(msg: Msg, codec: Codec, fs: FsView, s: Snapshot): (o: Outcome)
      ensures o.state.queue == s.queue && o.state.fates == s.fates && o.state.id >= s.id
      ensures o.wait.None? <==> Route(cfg, msg, codec, fs).EarlyExit()
      ensures Route(cfg, msg, codec, fs).EarlyExit() ==> o.state == s.(log := s.log + ExitOps(Route(cfg, msg, codec, fs)))
      ensures (s.stream.Some? ==> s.stream.value.id < s.id) ==> (o.state.stream.Some? ==> o.state.stream.value.id < o.state.id)
    {
      var e := Apply(Route(cfg, msg, codec, fs), fs.stat, s.stream, s.ino, s.id, s.log);
      Outcome(s.(stream := e.stream, ino := e.ino, id := e.id, log := e.log), e.wait)
    }

    /**
     * The loop of `processQ` as a function of the state: heads that finish
     * on the spot are shifted off, without output, until the queue is empty
     * or the head has to wait.
     */
    ghost function Run(codec: Codec, fs: FsView, s: Snapshot): (r: Ran)
      ensures r.wait.None? <==> r.state.queue == []
      decreases |s.queue|
    {
      if s.queue == [] then Ran(s, None, 0)
      else
        var o := Process(s.queue[0], codec, fs, s);
        if o.wait.Some? then Ran(o.state, o.wait, 0)
        else
          var r := Run(codec, fs, o.state.(queue := s.queue[1..], fates := s.fates + [Silent]));
          Ran(r.state, r.wait, r.exits + 1)
    }

    /**
     * The effect of running the queue from state `s0`: the heads that left
     * it each finished on the spot and logged what an early exit logs; if the
     * new head waits, its processing is what `Processed` says, otherwise the
     * queue is empty and the handle untouched.
     */
    ghost predicate Drained(codec: Codec, fs: FsView, s0: Snapshot, r: Ran)
    {
      r.exits <= |s0.queue| && r.state.queue == s0.queue[r.exits..] &&
      Exits(s0.queue, r.exits, codec, fs) &&
      r.state.fates == s0.fates + Silents(r.exits) &&
      Stopped(codec, fs, s0.stream, s0.ino, s0.id, s0.log + ExitLog(s0.queue, r.exits, codec, fs), r.wait, r.state)
    }

    /**
     * How a run that stops in `state` with wait `wait` ends, from handle
     * `stream`, inode `ino` and next id `id`, with `log1` logged by the heads
     * that left: with an empty queue and nothing else changed, or at a head
     * that waits, processed as `Processed` says.
     */
    ghost predicate Stopped(codec: Codec, fs: FsView, stream: Option<Stream>, ino: Option<Ino>, id: nat, log1: seq<FsOp>,
                            wait: Option<Wait>, state: Snapshot)
    {
      if wait.None? then
        state.queue == [] && state.stream == stream && state.ino == ino && state.id == id && state.log == log1
      else
        state.queue != [] && !Route(cfg, state.queue[0], codec, fs).EarlyExit() &&
        Processed(Route(cfg, state.queue[0], codec, fs), fs.stat, stream, ino, id, log1,
                  wait, state.stream, state.ino, state.log)
    }

    /** Running the queue, head by head, has the effect `Drained` describes. */
    lemma {:induction false} RunDrains(codec: Codec, fs: FsView, s: Snapshot)
      ensures Drained(codec, fs, s, Run(codec, fs, s))
      decreases |s.queue|
    {
      var r := Run(codec, fs, s);
      if s.queue == [] {
        assert s.log + ExitLog(s.queue, 0, codec, fs) == s.log;
      } else {
        var o := Process(s.queue[0], codec, fs, s);
        if o.wait.Some? {
          assert s.log + ExitLog(s.queue, 0, codec, fs) == s.log;
        } else {
          var s1 := o.state.(queue := s.queue[1..], fates := s.fates + [Silent]);
          RunDrains(codec, fs, s1);
          ExitFirst(codec, fs, s, Run(codec, fs, s1));
        }
      }
    }

    /** A head that finishes on the spot, followed by a run that has the effect `Drained` describes. */
    lemma ExitFirst(codec: Codec, fs: FsView, s: Snapshot, r: Ran)
      requires s.queue != [] && Route(cfg, s.queue[0], codec, fs).EarlyExit()
      requires Drained(codec, fs, s.(queue := s.queue[1..], fates := s.fates + [Silent],
                                     log := s.log + ExitOps(Route(cfg, s.queue[0], codec, fs))), r)
      ensures Drained(codec, fs, s, Ran(r.state, r.wait, r.exits + 1))
    {
      var s1 := s.(queue := s.queue[1..], fates := s.fates + [Silent], log := s.log + ExitOps(Route(cfg, s.queue[0], codec, fs)));
      var n := r.exits;
      assert ExitLog(s.queue, n + 1, codec, fs) == ExitOps(Route(cfg, s.queue[0], codec, fs)) + ExitLog(s1.queue, n, codec, fs);
      assert s1.log + ExitLog(s1.queue, n, codec, fs) == s.log + ExitLog(s.queue, n + 1, codec, fs);
      SilentsCons(s.fates, n);
      assert s.queue[n + 1..] == s1.queue[n..];
      ExitsCons(s.queue, n, codec, fs);
    }

    /** A head that finishes on the spot in front of `n` more. */
    lemma ExitsCons(q: seq<Msg>, n: nat, codec: Codec, fs: FsView)
      requires n < |q| && Route(cfg, q[0], codec, fs).EarlyExit() && Exits(q[1..], n, codec, fs)
      ensures Exits(q, n + 1, codec, fs)
    {
      forall i | 0 <= i < n + 1
        ensures Route(cfg, q[i], codec, fs).EarlyExit()
      {
        if i > 0 {
          assert q[i] == q[1..][i - 1];
        }
      }
    }


    /**
     * `processMsg`: carries out the action `Route` picks for the message.
     * Returns `None` when `done` was called before returning, otherwise what
     * the message now waits for.
     */
    method ProcessMsg(msg: Msg, codec: Codec, fs: FsView) returns (w: Option<Wait>)
      requires Owned()
      modifies this`wstream, this`wstreamIno, this`nextId, this`fsLog
      ensures Owned()
      ensures w.None? <==> Route(cfg, msg, codec, fs).EarlyExit()
      ensures Processed(Route(cfg, msg, codec, fs), fs.stat, old(wstream), old(wstreamIno), old(nextId), old(fsLog), w, wstream, wstreamIno, fsLog)
      ensures Outcome(Now(), w) == Process(msg, codec, fs, old(Now()))
    {
      var a := Route(cfg, msg, codec, fs);
      ghost var e := Apply(a, fs.stat, wstream, wstreamIno, nextId, fsLog);
      match a
      case NoFilename =>
        w := None;
      case Delete(path) =>
        fsLog := fsLog + [Unlink(path)];
        w := Some(Deleting);
      case NoPayload =>
        w := None;
      case NoCharset =>
        w := None;
      case DirFailed(dir) =>
        fsLog := fsLog + [EnsureDir(dir)];
        w := None;
      case Overwrite(path, dir, data) =>
        var s := Stream(nextId, path, Truncate);
        nextId := nextId + 1;
        fsLog := fsLog + DirOps(dir) + [Open(s)];
        wstream := Some(s);
        w := Some(Overwriting(s, data));
      case Append(path, dir, data) =>
        fsLog := fsLog + DirOps(dir);
        var plan := AppendPlan(wstream.Some?, wstreamIno, cfg.filename != "", fs.stat(path));
        if plan.endOld {
          fsLog := fsLog + [End(wstream.value, None)];
          wstream := None;
          wstreamIno := None;
        }
        if plan.recreate {
          var s := Stream(nextId, path, AppendOnly);
          nextId := nextId + 1;
          fsLog := fsLog + [Open(s)];
          wstream := Some(s);
        }
        if cfg.filename != "" {
          fsLog := fsLog + [Write(wstream.value, data)];
        } else {
          fsLog := fsLog + [End(wstream.value, Some(data))];
        }
        w := Some(Appending(cfg.filename != ""));
    }

    /**
     * `closeNode`: ends the live handle if there is one, clears the stored
     * callback before invoking it, and leaves the closing state.
     */
    method CloseNode()
      requires Core() && msgQueue == []
      modifies this`fsLog, this`closeCallback, this`closing, this`fired
      ensures Core() && !closing && closeCallback.None?
      ensures fsLog == old(fsLog) + Ending(wstream)
      ensures fired == old(fired) + if old(closeCallback).Some? then [old(closeCallback).value] else []
    {
      if wstream.Some? {
        fsLog := fsLog + [End(wstream.value, None)];
      }
      var cb := closeCallback;
      closeCallback := None;
      closing := false;
      if cb.Some? {
        fired := fired + [cb.value];
      }
    }

    /** The head leaves the queue with the given fate; it is sent on when forwarded. */
    method Settle(fate: Fate)
      requires Queued() && msgQueue != []
      modifies this`msgQueue, this`fates, this`sent
      ensures Queued()
      ensures msgQueue == old(msgQueue)[1..] && fates == old(fates) + [fate]
      ensures sent == old(sent) + if fate == Forwarded then [old(msgQueue)[0]] else []
    {
      var head := msgQueue[0];
      DeliveredSnoc(submitted[..|fates|], fates, head, fate);
      assert submitted[..|fates| + 1] == submitted[..|fates|] + [head];
      if fate == Forwarded {
        sent := sent + [head];
      }
      fates := fates + [fate];
      msgQueue := msgQueue[1..];
    }

    /**
     * `processQ`: runs the queue as `Run` says; once the queue is empty a
     * pending close is carried out, ending the handle `Run` left.
     */
    method RunQueue(codec: Codec, fs: FsView)
      requires Core() && msgQueue != [] && waiting.None?
      modifies this
      ensures Valid()
      ensures submitted == old(submitted) && sent == old(sent)
      ensures var r := Run(codec, fs, old(Now()));
        waiting == r.wait &&
        Now() == if r.wait.None? && old(closing) then r.state.(log := r.state.log + Ending(r.state.stream)) else r.state
      ensures |fired| > |old(fired)| ==> msgQueue == [] && |fates| == |submitted|
      ensures old(closing) && msgQueue == [] ==> !closing && fired == old(fired) + if old(closeCallback).Some? then [old(closeCallback).value] else []
      ensures msgQueue != [] ==> closing == old(closing) && closeCallback == old(closeCallback) && fired == old(fired)
      ensures !old(closing) ==> !closing && closeCallback == old(closeCallback) && fired == old(fired)
    {
      var w := Drain(codec, fs);
      assert msgQueue == [] <==> w.None?;
      waiting := w;
      if msgQueue == [] && closing {
        CloseNode();
      }
    }

    /**
     * The loop of `processQ`: heads that finish on the spot are shifted off
     * until the queue is empty or the head has to wait, for what `w` says.
     */
    method Drain(codec: Codec, fs: FsView) returns (w: Option<Wait>)
      requires Queued() && Owned() && msgQueue != []
      modifies this`wstream, this`wstreamIno, this`nextId, this`fsLog, this`msgQueue, this`fates, this`sent
      ensures Queued() && Owned() && sent == old(sent)
      ensures var r := Run(codec, fs, old(Now()));
        Now() == r.state && w == r.wait
    {
      w := None;
      ghost var gone := 0;
      while msgQueue != []
        invariant Queued() && Owned() && sent == old(sent) && w.None?
        invariant var r := Run(codec, fs, Now()); Run(codec, fs, old(Now())) == Ran(r.state, r.wait, r.exits + gone)
        decreases |msgQueue|
      {
        w := Step(codec, fs);
        if w.Some? {
          return;
        }
        gone := gone + 1;
      }
    }

    /**
     * One round of `processQ`'s loop: the head is processed as `Process`
     * says, and shifted off without output when it finished on the spot.
     */
    method Step(codec: Codec, fs: FsView) returns (w: Option<Wait>)
      requires Queued() && Owned() && msgQueue != []
      modifies this`wstream, this`wstreamIno, this`nextId, this`fsLog, this`msgQueue, this`fates, this`sent
      ensures Queued() && Owned() && sent == old(sent)
      ensures var o := Process(old(msgQueue)[0], codec, fs, old(Now()));
        w == o.wait &&
        (w.Some? ==> Now() == o.state) &&
        (w.None? ==> Now() == o.state.(queue := old(msgQueue)[1..], fates := old(fates) + [Silent]))
    {
      w := ProcessMsg(msgQueue[0], codec, fs);
      if w.None? {
        Settle(Silent);
      }
    }

    /**
     * The `input` handler: the message joins the queue; only when the queue
     * was empty does processing start, otherwise the message waits its turn.
     */
    method Input(msg: Msg, codec: Codec, fs: FsView)
      requires Valid()
      modifies this
      ensures Valid()
      ensures submitted == old(submitted) + [msg] && sent == old(sent)
      ensures old(msgQueue) != [] ==>
        msgQueue == old(msgQueue) + [msg] && waiting == old(waiting) && fates == old(fates) &&
        fsLog == old(fsLog) && wstream == old(wstream) && wstreamIno == old(wstreamIno) &&
        closing == old(closing) && closeCallback == old(closeCallback) && fired == old(fired) &&
        nextId == old(nextId)
      ensures old(msgQueue) == [] ==>
        nextId == Apply(Route(cfg, msg, codec, fs), fs.stat, old(wstream), old(wstreamIno), old(nextId), old(fsLog)).id &&
        (msgQueue == [] <==> Route(cfg, msg, codec, fs).EarlyExit()) &&
        (msgQueue == [] ==> fates == old(fates) + [Silent]) &&
        (msgQueue != [] ==> msgQueue == [msg] && fates == old(fates) && waiting.Some?) &&
        fired == old(fired) && !closing && closeCallback == old(closeCallback) &&
        Processed(Route(cfg, msg, codec, fs), fs.stat, old(wstream), old(wstreamIno), old(nextId), old(fsLog),
                  waiting, wstream, wstreamIno, fsLog)
    {
      assert (submitted + [msg])[..|fates|] == submitted[..|fates|];
      submitted := submitted + [msg];
      msgQueue := msgQueue + [msg];
      if |msgQueue| > 1 {
        return;
      }
      assert submitted[|fates|] == msg;
      ghost var s0 := Now();
      ghost var o := Process(msg, codec, fs, s0);
      if o.wait.None? {
        ghost var s1 := o.state.(queue := [], fates := s0.fates + [Silent]);
        assert Run(codec, fs, s1) == Ran(s1, None, 0);
      }
      RunQueue(codec, fs);
    }

    /**
     * The `input` handler when processing the new message throws: the whole
     * queue is discarded and the exception goes on to the host. A throw can
     * only come from the first, synchronous processing, which runs only on an
     * empty queue; no close is pending then, so none is carried out.
     */
    method InputFault(msg: Msg)
      requires Valid() && msgQueue == []
      modifies this`msgQueue, this`submitted, this`fates, this`waiting, this`sent
      ensures Valid() && msgQueue == [] && !closing
      ensures submitted == old(submitted) + [msg] && fates == old(fates) + [Dropped]
      ensures sent == old(sent) && fsLog == old(fsLog) && fired == old(fired) && wstream == old(wstream)
    {
      assert (submitted + [msg])[..|fates|] == submitted[..|fates|];
      submitted := submitted + [msg];
      msgQueue := msgQueue + [msg];
      Settle(Dropped);
      waiting := None;
      assert !closing;
    }

    /**
     * `done` for the message in processing: after a successful delete, write
     * or end it is sent on (a per-message handle is dropped); after a failure
     * nothing is sent. The head is then shifted off and the queue runs on.
     */
    method Complete(ok: bool, codec: Codec, fs: FsView)
      requires Valid() && waiting.Some?
      modifies this
      ensures Valid()
      ensures submitted == old(submitted)
      ensures sent == old(sent) + if ok then [old(msgQueue)[0]] else []
      ensures var dropped := Drops(old(waiting).value, ok);
        var r := Run(codec, fs, Snapshot(old(msgQueue)[1..], old(fates) + [if ok then Forwarded else Silent],
                                         if dropped then None else old(wstream),
                                         if dropped then None else old(wstreamIno), old(nextId),
                                         old(fsLog) + Ended(old(waiting).value, ok)));
        waiting == r.wait &&
        Now() == if r.wait.None? && old(closing) then r.state.(log := r.state.log + Ending(r.state.stream)) else r.state
      ensures |fired| > |old(fired)| ==> msgQueue == [] && |fates| == |submitted|
      ensures old(closing) && msgQueue == [] ==> !closing && fired == old(fired) + if old(closeCallback).Some? then [old(closeCallback).value] else []
      ensures msgQueue != [] ==> closing == old(closing) && closeCallback == old(closeCallback) && fired == old(fired)
      ensures !old(closing) ==> !closing && closeCallback == old(closeCallback) && fired == old(fired)
    {
      Finish(ok);
      RunOn(codec, fs);
    }

    /** The completion callbacks of the message in processing, up to `done`'s shift. */
    method Finish(ok: bool)
      requires Valid() && waiting.Some?
      modifies this`fsLog, this`wstream, this`wstreamIno, this`msgQueue, this`fates, this`sent, this`waiting
      ensures Core() && waiting.None? && submitted == old(submitted)
      ensures closing == old(closing) && closeCallback == old(closeCallback) && fired == old(fired)
      ensures msgQueue == old(msgQueue)[1..] && fates == old(fates) + [if ok then Forwarded else Silent]
      ensures sent == old(sent) + if ok then [old(msgQueue)[0]] else []
      ensures fsLog == old(fsLog) + Ended(old(waiting).value, ok)
      ensures Drops(old(waiting).value, ok) ==> wstream.None? && wstreamIno.None?
      ensures !Drops(old(waiting).value, ok) ==> wstream == old(wstream) && wstreamIno == old(wstreamIno)
    {
      Release(waiting.value, ok);
      Settle(if ok then Forwarded else Silent);
      waiting := None;
    }

    /**
     * What a completion does to the handle: an overwrite's end is issued on
     * success; a per-message append handle and its inode are dropped on
     * success; a delete touches nothing.
     */
    method Release(w: Wait, ok: bool)
      requires Owned()
      modifies this`fsLog, this`wstream, this`wstreamIno
      ensures Owned()
      ensures w.Overwriting? && ok ==> fsLog == old(fsLog) + [End(w.stream, Some(w.data))]
      ensures !(w.Overwriting? && ok) ==> fsLog == old(fsLog)
      ensures w.Appending? && ok && !w.staticName ==> wstream.None? && wstreamIno.None?
      ensures !(w.Appending? && ok && !w.staticName) ==> wstream == old(wstream) && wstreamIno == old(wstreamIno)
    {
      match w {
        case Deleting =>
        case Overwriting(s, data) =>
          if ok {
            fsLog := fsLog + [End(s, Some(data))];
          }
        case Appending(staticName) =>
          if ok && !staticName {
            wstream := None;
            wstreamIno := None;
          }
      }
    }

    /** The rest of `done`: the next message is processed, or a pending close is carried out. */
    method RunOn(codec: Codec, fs: FsView)
      requires Core() && waiting.None?
      modifies this
      ensures Valid()
      ensures submitted == old(submitted) && sent == old(sent)
      ensures var r := Run(codec, fs, old(Now()));
        waiting == r.wait &&
        Now() == if r.wait.None? && old(closing) then r.state.(log := r.state.log + Ending(r.state.stream)) else r.state
      ensures |fired| > |old(fired)| ==> msgQueue == [] && |fates| == |submitted|
      ensures old(closing) && msgQueue == [] ==> !closing && fired == old(fired) + if old(closeCallback).Some? then [old(closeCallback).value] else []
      ensures msgQueue != [] ==> closing == old(closing) && closeCallback == old(closeCallback) && fired == old(fired)
      ensures !old(closing) ==> !closing && closeCallback == old(closeCallback) && fired == old(fired)
    {
      if msgQueue != [] {
        RunQueue(codec, fs);
      } else if closing {
        CloseNode();
      }
    }

    /** The append stream's `open` event: the inode of its path is recorded when `statSync` succeeds. */
    method StreamOpened(s: Stream, ino: Option<Ino>)
      requires Valid() && s.flags == AppendOnly && s.id < nextId
      modifies this`wstreamIno
      ensures Valid()
      ensures wstreamIno == if ino.Some? then ino else old(wstreamIno)
    {
      if ino.Some? {
        wstreamIno := ino;
      }
    }

    /**
     * The `close` handler: ignored while already closing; otherwise the
     * callback is stored and the node closes now if the queue is empty, or
     * after the last queued message otherwise.
     */
    method Close(cb: Option<nat>)
      requires Valid()
      modifies this`closing, this`closeCallback, this`registered, this`fsLog, this`fired
      ensures Valid()
      ensures old(closing) ==> closeCallback == old(closeCallback) && fired == old(fired) && fsLog == old(fsLog) && closing
      ensures !old(closing) && old(msgQueue) != [] ==>
        closing && closeCallback == cb && fired == old(fired) && fsLog == old(fsLog)
      ensures !old(closing) && old(msgQueue) == [] ==>
        !closing && closeCallback.None? &&
        fired == old(fired) + (if cb.Some? then [cb.value] else []) &&
        fsLog == old(fsLog) + Ending(old(wstream))
    {
      if closing {
        return;
      }
      closing := true;
      if cb.Some? {
        closeCallback := cb;
        registered := registered + [cb.value];
      }
      if msgQueue != [] {
        return;
      }
      CloseNode();
    }
  }
}
