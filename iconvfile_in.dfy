/**
 * The read node: its configuration defaults, the gate that decides whether a
 * read starts, and one read session, which turns the chunks of a byte stream
 * into records in whole, lines or stream framing.
 */
module IconvfileIn {
  import opened Messages
  import opened Lines

  /** The node's configuration as the editor stores it; `sendError` may be unset. */
  datatype InConfig = InConfig(filename: string, format: string, charset: string, sendError: Option<bool>)

  /** The node after construction. */
  datatype InNode = InNode(filename: string, format: string, chunk: bool, charset: string, sendError: bool)

  /** Builds the node: chunked framing for "lines" and "stream", `utf8` for an empty charset, errors sent unless switched off. */
  function NewInNode(n: InConfig): (node: InNode)
    ensures node.filename == n.filename && node.format == n.format
    ensures node.chunk <==> n.format == "lines" || n.format == "stream"
    ensures node.charset != "" && (n.charset != "" ==> node.charset == n.charset)
    ensures n.charset == "" ==> node.charset == "utf8"
    ensures node.sendError <==> n.sendError != Some(false)
  {
    var chunk := false;
    var chunk := if n.format == "lines" then true else chunk;
    var chunk := if n.format == "stream" then true else chunk;
    var sendError := if n.sendError.None? then true else n.sendError.value;
    InNode(n.filename, n.format, chunk, if n.charset == "" then "utf8" else n.charset, sendError)
  }

  datatype Refusal = NoFilename | NoCharset(charset: string)

  /** Whether an input message starts a read, and of which file. */
  datatype Admission = Admitted(filename: string) | Refused(why: Refusal)

  /**
   * The checks made before the file is opened: a name must resolve and the
   * charset must be known to the codec; otherwise nothing is read or sent.
   */
  function Admit(node: InNode, msg: Msg, encodingExists: string -> bool): (a: Admission)
    ensures a.Admitted? <==> ResolveFilename(node.filename, msg.filename) != "" && encodingExists(node.charset)
    ensures a.Admitted? ==> a.filename == ResolveFilename(node.filename, msg.filename) && a.filename != ""
    ensures a == Refused(NoFilename) <==> ResolveFilename(node.filename, msg.filename) == ""
    ensures a == Refused(NoCharset(node.charset)) <==> ResolveFilename(node.filename, msg.filename) != "" && !encodingExists(node.charset)
  {
    var filename := ResolveFilename(node.filename, msg.filename);
    if filename == "" then Refused(NoFilename)
    else if !encodingExists(node.charset) then Refused(NoCharset(node.charset))
    else Admitted(filename)
  }

  /** Extending a sequence that extends `a` still extends `a`. */
  lemma Extends<T>(a: seq<T>, b: seq<T>, c: seq<T>)
    requires |b| >= |a| && b[..|a|] == a && |c| >= |b| && c[..|b|] == b
    ensures c[..|a|] == a
  {
    assert c[..|a|] == c[..|b|][..|a|];
  }

  /** Taking one more element of a sequence appends that element. */
  lemma TakeOneMore<T>(s: seq<T>, k: nat)
    requires k < |s|
    ensures s[..k + 1] == s[..k] + [s[k]]
  {
  }

  /** The chunks read so far, concatenated (`Buffer.concat`). */
  function Concat(chunks: seq<Bytes>): (all: Bytes)
  {
    if chunks == [] then [] else Concat(chunks[..|chunks| - 1]) + chunks[|chunks| - 1]
  }

  /** Each chunk decoded on its own, the texts concatenated. */
  function DecodeAll(decode: Bytes -> string, chunks: seq<Bytes>): (text: string)
  {
    if chunks == [] then "" else DecodeAll(decode, chunks[..|chunks| - 1]) + decode(chunks[|chunks| - 1])
  }

  /**
   * The lines-mode invariant survives a chunk: if the pending lines and the
   * remainder join to the text decoded so far, then after splitting the
   * remainder plus the new text, they join to the longer text.
   */
  lemma {:induction false} LinesStep(texts: seq<string>, spare: string, decoded: string, more: string)
    requires NoSep(texts + [spare], '\n') && Join(texts + [spare], '\n') == decoded
    ensures NoSep(texts + Split(spare + more, '\n'), '\n')
    ensures Join(texts + Split(spare + more, '\n'), '\n') == decoded + more
  {
    var bits := Split(spare + more, '\n');
    SplitJoin(spare + more, '\n');
    forall j | 0 <= j < |texts + bits| ensures '\n' !in (texts + bits)[j] {
      if j < |texts| {
        assert (texts + bits)[j] == (texts + [spare])[j];
      } else {
        assert (texts + bits)[j] == bits[j - |texts|];
      }
    }
    if texts != [] {
      JoinAppend(texts, bits, '\n');
      JoinAppend(texts, [spare], '\n');
    } else {
      assert texts + bits == bits;
      assert texts + [spare] == [spare];
    }
  }

  /**
   * One read session: the closure state of the input handler for one
   * message, with the records it has sent so far.
   */
  class ReadSession {
    const node: InNode
    /** The triggering message, its `filename` set to the resolved name. */
    const msg: Msg
    /** The codec's decoder for `node.charset`. */
    const decode: Bytes -> string
    const ch: string
    const kind: PartType

    var lines: Bytes
    var spare: string
    var count: nat
    var getout: bool
    /** The records handed to `node.send`, in order. */
    var sent: seq<Msg>
    /** Set once the stream has ended or failed; it delivers nothing after that. */
    var finished: bool

    /** Every chunk read so far. */
    ghost var chunks: seq<Bytes>
    /** In lines mode, the payload of each sent record. */
    ghost var texts: seq<string>

    /** A record of the split sequence, as the `readable` handler builds it. */
    function Piece(payload: Payload, index: nat, total: Option<nat>): (m: Msg)
    {
      Msg(None, msg.topic, msg.filename, payload, Some(Parts(index, total, ch, kind, msg.msgid)), None)
    }

    /** A terminal record, as the `end` handler builds it: no topic and no filename. */
    function Terminal(payload: Payload, index: nat, total: nat): (m: Msg)
    {
      Msg(None, None, None, payload, Some(Parts(index, Some(total), ch, kind, msg.msgid)), None)
    }

    /** The records the `readable` handler sends for complete lines `ts`, indexed from 0. */
    function LineRecords(ts: seq<string>): (rs: seq<Msg>)
    {
      if ts == [] then [] else LineRecords(ts[..|ts| - 1]) + [Piece(Text(ts[|ts| - 1]), |ts| - 1, None)]
    }

    /** The i-th line record carries the i-th line, index i and no count. */
    lemma {:induction false} LineRecordsAt(ts: seq<string>, i: nat)
      requires i < |ts|
      ensures |LineRecords(ts)| == |ts|
      ensures LineRecords(ts)[i] == Piece(Text(ts[i]), i, None)
      decreases |ts|
    {
      var n := |ts| - 1;
      if i < n {
        LineRecordsAt(ts[..n], i);
      } else {
        LineRecordsLength(ts[..n]);
      }
    }

    /**
     * The records the `readable` handler sends in stream framing for the
     * chunks `batch`, numbered on from `c0`; a chunk shorter than `hwm` is
     * stamped with the count.
     */
    function StreamRecords(batch: seq<Bytes>, c0: nat, hwm: nat): (rs: seq<Msg>)
    {
      if batch == [] then []
      else
        var n := |batch| - 1;
        StreamRecords(batch[..n], c0, hwm) + [Piece(Buffer(batch[n]), c0 + n, if |batch[n]| < hwm then Some(c0 + n + 1) else None)]
    }

    /** The k-th stream record carries the k-th chunk, index `c0 + k`, and a count exactly when the chunk is short. */
    lemma {:induction false} StreamRecordsAt(batch: seq<Bytes>, c0: nat, hwm: nat, k: nat)
      requires k < |batch|
      ensures |StreamRecords(batch, c0, hwm)| == |batch|
      ensures StreamRecords(batch, c0, hwm)[k] ==
        Piece(Buffer(batch[k]), c0 + k, if |batch[k]| < hwm then Some(c0 + k + 1) else None)
      decreases |batch|
    {
      var n := |batch| - 1;
      if k < n {
        StreamRecordsAt(batch[..n], c0, hwm, k);
      } else if n > 0 {
        StreamRecordsAt(batch[..n], c0, hwm, n - 1);
      }
    }

    lemma {:induction false} LineRecordsLength(ts: seq<string>)
      ensures |LineRecords(ts)| == |ts|
      decreases |ts|
    {
      if ts != [] {
        LineRecordsLength(ts[..|ts| - 1]);
      }
    }

    /** A stream-mode record for a chunk, stamped with a count or not. */
    ghost predicate StreamRecord(m: Msg, chunk: Bytes, i: nat)
    {
      m == Piece(Buffer(chunk), i, None) || m == Piece(Buffer(chunk), i, Some(i + 1))
    }

    ghost predicate Valid()
      reads this
    {
      ch == (if node.format == "lines" then "\n" else "") &&
      kind == (if node.format == "lines" then StringParts else BufferParts) &&
      (!finished ==> Reading())
    }

    /** What holds between chunks, per framing. */
    ghost predicate Reading()
      reads this
    {
      if !node.chunk then WholeReading()
      else if node.format == "lines" then LinesReading()
      else StreamReading()
    }

    /** Whole framing: the chunks accumulate in `lines` and nothing is sent. */
    ghost predicate WholeReading()
      reads this`lines, this`chunks, this`sent, this`count, this`getout
    {
      lines == Concat(chunks) && sent == [] && count == 0 && !getout
    }

    /**
     * Lines framing: the records sent so far are the complete lines, indexed
     * from 0; they and `spare` are free of "\n" and join to the text decoded so far.
     */
    ghost predicate LinesReading()
      reads this`count, this`sent, this`texts, this`spare, this`chunks
    {
      count == |texts| && sent == LineRecords(texts) &&
      NoSep(texts + [spare], '\n') &&
      Join(texts + [spare], '\n') == DecodeAll(decode, chunks)
    }

    /**
     * Stream framing: one record per chunk, indexed from 0; `getout` is set
     * exactly when the last record carries no count.
     */
    ghost predicate StreamReading()
      reads this`count, this`sent, this`chunks, this`getout
    {
      count == |sent| == |chunks| &&
      (forall i :: 0 <= i < |sent| ==> StreamRecord(sent[i], chunks[i], i)) &&
      (getout <==> |sent| > 0 && sent[|sent| - 1] == Piece(Buffer(chunks[|sent| - 1]), |sent| - 1, None))
    }

    /** The input handler once the message is admitted: the session's initial state. */
    constructor (node: InNode, msg: Msg, filename: string, decode: Bytes -> string)
      requires filename != "" && filename == ResolveFilename(node.filename, msg.filename)
      requires node.chunk <==> node.format == "lines" || node.format == "stream"
      ensures Valid() && !finished
      ensures this.node == node && this.msg == msg.(filename := Some(filename)) && this.decode == decode
      ensures lines == [] && spare == "" && count == 0 && !getout
      ensures sent == [] && chunks == [] && texts == []
    {
      this.node := node;
      this.msg := msg.(filename := Some(filename));
      this.decode := decode;
      ch := if node.format == "lines" then "\n" else "";
      kind := if node.format == "lines" then StringParts else BufferParts;
      lines := [];
      spare := "";
      count := 0;
      getout := false;
      sent := [];
      finished := false;
      chunks := [];
      texts := [];
    }

    /** Lines framing of one chunk: decode, append to `spare`, send every complete line. */
    method SplitChunk(chunk: Bytes)
      requires Valid() && !finished && node.chunk && node.format == "lines"
      modifies this`spare, this`count, this`sent, this`texts, this`chunks, this`getout
      ensures Valid() && chunks == old(chunks) + [chunk]
      ensures texts + [spare] == old(texts) + Split(old(spare) + decode(chunk), '\n')
      ensures |sent| >= |old(sent)| && sent[..|old(sent)|] == old(sent)
    {
      ghost var d := DecodeAll(decode, chunks);
      DecodeAllSnoc(chunks, chunk);
      LinesStep(texts, spare, d, decode(chunk));
      getout := true;
      spare := spare + decode(chunk);
      var bits := Split(spare, '\n');
      ghost var ts;
      sent, count, ts := EmitLines(bits, sent, texts);
      texts, spare := ts, bits[|bits| - 1];
      chunks := chunks + [chunk];
    }

    lemma {:induction false} DecodeAllSnoc(chunks: seq<Bytes>, chunk: Bytes)
      ensures DecodeAll(decode, chunks + [chunk]) == DecodeAll(decode, chunks) + decode(chunk)
    {
      assert (chunks + [chunk])[..|chunks|] == chunks;
    }

    /**
     * The loop of the `readable` handler over the pieces of `spare`: every
     * piece but the last is sent as a line record, numbered on from `out0`.
     */
    method EmitLines(bits: seq<string>, out0: seq<Msg>, ghost ts0: seq<string>) returns (out: seq<Msg>, n: nat, ghost ts: seq<string>)
      requires |bits| >= 1 && out0 == LineRecords(ts0)
      ensures ts + [bits[|bits| - 1]] == ts0 + bits
      ensures n == |ts| && out == LineRecords(ts)
      ensures |out| >= |out0| && out[..|out0|] == out0
    {
      LineRecordsLength(ts0);
      out, n, ts := out0, |out0|, ts0;
      var i := 0;
      while i < |bits| - 1
        invariant 0 <= i <= |bits| - 1
        invariant n == |ts| && out == LineRecords(ts)
        invariant ts == ts0 + bits[..i]
        invariant |out| >= |out0| && out[..|out0|] == out0
      {
        assert (ts + [bits[i]])[..|ts|] == ts;
        out := out + [Piece(Text(bits[i]), n, None)];
        n := n + 1;
        ts := ts + [bits[i]];
        assert bits[..i + 1] == bits[..i] + [bits[i]];
        i := i + 1;
      }
      assert bits[..i] + [bits[i]] == bits;
    }

    /** Stream framing of one chunk: send it as it is; a chunk shorter than `hwm` is taken as the last. */
    method PassChunk(chunk: Bytes, hwm: nat)
      requires Valid() && !finished && node.chunk && node.format != "lines"
      modifies this`count, this`sent, this`getout, this`chunks
      ensures Valid() && chunks == old(chunks) + [chunk]
      ensures sent == old(sent) + [Piece(Buffer(chunk), old(count), if |chunk| < hwm then Some(old(count) + 1) else None)]
      ensures count == old(count) + 1 && (getout <==> |chunk| >= hwm)
    {
      getout := true;
      var m := Piece(Buffer(chunk), count, None);
      count := count + 1;
      if |chunk| < hwm {
        getout := false;
        m := m.(parts := Some(m.parts.value.(count := Some(count))));
      }
      sent := sent + [m];
      chunks := chunks + [chunk];
    }

    /** One chunk returned by `rs.read()`, framed as the node's format says. */
    method OnChunk(chunk: Bytes, hwm: nat)
      requires Valid() && !finished
      modifies this
      ensures Valid() && !finished && chunks == old(chunks) + [chunk]
      ensures |sent| >= |old(sent)| && sent[..|old(sent)|] == old(sent)
      ensures !node.chunk ==> lines == old(lines) + chunk && sent == old(sent)
      ensures node.chunk && node.format == "lines" ==>
        texts + [spare] == old(texts) + Split(old(spare) + decode(chunk), '\n')
      ensures node.chunk && node.format != "lines" ==>
        sent == old(sent) + [Piece(Buffer(chunk), old(count), if |chunk| < hwm then Some(old(count) + 1) else None)] &&
        count == old(count) + 1 && (getout <==> |chunk| >= hwm)
    {
      if node.chunk {
        if node.format == "lines" {
          SplitChunk(chunk);
        } else {
          PassChunk(chunk, hwm);
        }
      } else {
        lines := lines + chunk;
        chunks := chunks + [chunk];
        assert (chunks)[..|chunks| - 1] == old(chunks);
      }
    }

    /** A `readable` event: every chunk `rs.read()` returns before it gives `null`. */
    method OnReadable(batch: seq<Bytes>, hwm: nat)
      requires Valid() && !finished
      modifies this
      ensures Valid() && !finished && chunks == old(chunks) + batch
      ensures |sent| >= |old(sent)| && sent[..|old(sent)|] == old(sent)
      ensures !node.chunk ==> sent == old(sent)
      ensures node.chunk && node.format != "lines" ==>
        sent == old(sent) + StreamRecords(batch, old(count), hwm) &&
        (batch != [] ==> (getout <==> |batch[|batch| - 1]| >= hwm))
    {
      var k := 0;
      assert batch[..0] == [];
      while k < |batch|
        invariant 0 <= k <= |batch|
        invariant Valid() && !finished && Progress(old(sent), old(chunks), old(count), batch, k, hwm)
      {
        ReadOne(batch, k, hwm, old(sent), old(chunks), old(count));
        k := k + 1;
      }
      assert batch[..k] == batch;
    }

    /**
     * The first `k` chunks of `batch` have been handled since the state
     * `sent0`, `chunks0`, `count0`: what was sent before is kept, whole
     * framing sends nothing, stream framing sends one record per chunk.
     */
    ghost predicate Progress(sent0: seq<Msg>, chunks0: seq<Bytes>, count0: nat, batch: seq<Bytes>, k: nat, hwm: nat)
      reads this`sent, this`chunks, this`count, this`getout
    {
      k <= |batch| && chunks == chunks0 + batch[..k] &&
      |sent| >= |sent0| && sent[..|sent0|] == sent0 &&
      (!node.chunk ==> sent == sent0) &&
      (node.chunk && node.format != "lines" ==> Streamed(sent0, count0, batch, k, hwm, sent, count, getout))
    }

    /**
     * Stream framing after the first `k` chunks of `batch`: one record each
     * has been added to `sent0`, the count has moved on by `k`, and `getout`
     * says whether the last chunk was a full one.
     */
    ghost predicate Streamed(sent0: seq<Msg>, count0: nat, batch: seq<Bytes>, k: nat, hwm: nat, sent: seq<Msg>, count: nat, getout: bool)
      requires k <= |batch|
    {
      count == count0 + k && sent == sent0 + StreamRecords(batch[..k], count0, hwm) &&
      (k > 0 ==> (getout <==> |batch[k - 1]| >= hwm))
    }

    /** Passing on one more chunk of the batch keeps `Streamed`. */
    lemma StreamedStep(sent0: seq<Msg>, count0: nat, batch: seq<Bytes>, k: nat, hwm: nat, sent: seq<Msg>, count: nat, getout: bool)
      requires k < |batch| && Streamed(sent0, count0, batch, k, hwm, sent, count, getout)
      ensures Streamed(sent0, count0, batch, k + 1, hwm,
                       sent + [Piece(Buffer(batch[k]), count, if |batch[k]| < hwm then Some(count + 1) else None)],
                       count + 1, |batch[k]| >= hwm)
    {
      assert batch[..k + 1][..k] == batch[..k];
    }

    /** One round of the `readable` loop: the k-th chunk of the batch. */
    method ReadOne(batch: seq<Bytes>, k: nat, hwm: nat, ghost sent0: seq<Msg>, ghost chunks0: seq<Bytes>, ghost count0: nat)
      requires k < |batch| && Valid() && !finished && Progress(sent0, chunks0, count0, batch, k, hwm)
      modifies this
      ensures Valid() && !finished && Progress(sent0, chunks0, count0, batch, k + 1, hwm)
    {
      ghost var before, c, g := sent, count, getout;
      OnChunk(batch[k], hwm);
      TakeOneMore(batch, k);
      Extends(sent0, before, sent);
      if node.chunk && node.format != "lines" {
        StreamedStep(sent0, count0, batch, k, hwm, before, c, g);
      }
    }

    /** The `end` event: the one whole-file message, the last line, or the empty stream marker. */
    method OnEnd()
      requires Valid() && !finished
      modifies this
      ensures finished && chunks == old(chunks)
      ensures !node.chunk ==>
        sent == [msg.(payload := if node.format == "string" then Text(decode(Concat(chunks))) else Buffer(Concat(chunks)))]
      ensures node.chunk && node.format == "lines" ==> LinesEnded(old(sent), old(spare))
      ensures node.chunk && node.format != "lines" ==> StreamEnded(old(sent), old(getout))
    {
      if !node.chunk {
        var payload := if node.format == "string" then Text(decode(lines)) else Buffer(lines);
        sent := sent + [msg.(payload := payload)];
      } else if node.format == "lines" {
        EndLines();
      } else if getout {
        var m := Terminal(Absent, count, count);
        sent := sent + [m];
      }
      finished := true;
    }

    /**
     * After `end` in lines mode: the terminal record carries `spare` with
     * `index = count` and `count = count + 1`; the payloads are exactly the
     * decoded text split on "\n" and join back to it; indices run from 0 and
     * only the last record carries a count, the number of records.
     */
    ghost predicate LinesEnded(before: seq<Msg>, lastLine: string)
      reads this`sent, this`texts, this`chunks
    {
      sent == before + [Terminal(Text(lastLine), |before|, |before| + 1)] &&
      texts == Split(DecodeAll(decode, chunks), '\n') &&
      Numbered(sent, texts, DecodeAll(decode, chunks))
    }

    /**
     * The records `rs` of a finished lines read of `text`: one per piece
     * `ts`, the pieces free of "\n" and joining to `text`; record i carries
     * piece i and index i, and only the last carries a count, the number of records.
     */
    ghost predicate Numbered(rs: seq<Msg>, ts: seq<string>, text: string)
    {
      |ts| == |rs| &&
      NoSep(ts, '\n') && Join(ts, '\n') == text &&
      (forall i :: 0 <= i < |rs| ==> rs[i].payload == Text(ts[i])) &&
      (forall i :: 0 <= i < |rs| ==> rs[i].parts.Some? && rs[i].parts.value.index == i) &&
      (forall i :: 0 <= i < |rs| ==> rs[i].parts.Some? && rs[i].parts.value.count == if i == |rs| - 1 then Some(|rs|) else None)
    }

    /**
     * After `end` in stream mode: an empty marker with `index = count =` the
     * number of chunks is added exactly when `getout` was set, that is when
     * the last chunk's record carries no count; an empty file sends nothing.
     */
    ghost predicate StreamEnded(before: seq<Msg>, wasOut: bool)
      reads this`sent, this`chunks
    {
      |before| == |chunks| &&
      sent == before + (if wasOut then [Terminal(Absent, |chunks|, |chunks|)] else []) &&
      (wasOut <==> chunks != [] && before[|chunks| - 1] == Piece(Buffer(chunks[|chunks| - 1]), |chunks| - 1, None)) &&
      (chunks == [] ==> sent == [])
    }

    /** The lines-mode part of `end`: `spare` goes out as the last record. */
    method EndLines()
      requires Valid() && !finished && node.chunk && node.format == "lines"
      modifies this`sent, this`texts
      ensures LinesEnded(old(sent), old(spare))
    {
      LastLine(texts, spare, DecodeAll(decode, chunks));
      sent := sent + [Terminal(Text(spare), count, count + 1)];
      texts := texts + [spare];
    }

    /** Sending the remainder as the terminal record completes a numbered split of the text. */
    lemma {:induction false} LastLine(ts: seq<string>, last: string, text: string)
      requires NoSep(ts + [last], '\n') && Join(ts + [last], '\n') == text
      ensures ts + [last] == Split(text, '\n')
      ensures Numbered(LineRecords(ts) + [Terminal(Text(last), |ts|, |ts| + 1)], ts + [last], text)
    {
      JoinSplit(ts + [last], '\n');
      LineRecordsLength(ts);
      var rs := LineRecords(ts) + [Terminal(Text(last), |ts|, |ts| + 1)];
      forall i | 0 <= i < |ts|
        ensures rs[i] == Piece(Text((ts + [last])[i]), i, None)
      {
        LineRecordsAt(ts, i);
      }
    }

    /** The `error` event: the failure is reported; a copy of the message without payload is sent when `sendError` is on. */
    method OnError(err: string)
      requires Valid() && !finished
      modifies this
      ensures finished && chunks == old(chunks)
      ensures sent == old(sent) + if node.sendError then [msg.(payload := Absent, error := Some(err))] else []
    {
      if node.sendError {
        var m := msg.(payload := Absent, error := Some(err));
        sent := sent + [m];
      }
      finished := true;
    }
  }
}
