# iconvfile: read splitter and ordered write serializer

A Dafny model of the two Node-RED nodes of `node-red-contrib-iconvfile`.

- **Read node** (`iconvfile-in.js`). It reads a file and delivers it in one of three framings:
  - the whole file as one message, either decoded text or raw bytes;
  - one message per line, split on `"\n"` after charset decoding;
  - one message per raw chunk.

  The `parts` descriptor (`index`, `count`, `ch`, `type`, `id`) lets a downstream node put the records back together.
- **Write node** (`iconvfile-out.js`). It writes, appends or deletes files:
  - messages go through a FIFO queue, one at a time;
  - payloads are normalised to bytes through the charset codec;
  - in append mode, one long-lived stream is kept for a configured file name;
  - that stream is replaced when the file's inode changes (log rotation);
  - the node's close is deferred until the queue has drained.

Files:

- `messages.dfy` (module `Messages`): bytes, the message and its `parts`, the payload union, and filename resolution.
- `lines.dfy` (module `Lines`): JavaScript's one-character `split` and `join`, proved inverse in both directions.
- `iconvfile_in.dfy` (module `IconvfileIn`): the read node's configuration defaults and its admission check.
  - The class `ReadSession` holds the input handler's closure state: `lines`, `spare`, `count`, `getout`.
  - Its methods handle the `readable`, `end` and `error` events.
  - `sent` is the sequence of records handed to `node.send`.
- `iconvfile_out.dfy` (module `IconvfileOut`):
  - payload normalisation (`Normalize`);
  - the `processMsg` decision procedure (`Route`);
  - the append-handle rotation rule (`AppendPlan`);
  - the class `Writer` with `msgQueue`, `closing`, `closeCallback`, `wstream` and `wstreamIno`. Its methods are the `input` and `close` handlers, the `done` callback (`Complete`), the append stream's `open` event (`StreamOpened`), `processMsg`, `processQ` and `closeNode`.

The outside world enters as parameters:

- **Codec.** The charset codec (`encodingExists`, `encode`, and `decode` for one charset) is passed in as functions. So are `JSON.stringify`, `Number.prototype.toString`, `os.EOL` and `path.dirname`.
- **Read stream.** It is a sequence of `readable` events. Each event carries the batch of chunks `rs.read()` returns and the stream's high-water mark. The stream ends with one `end` or `error` event.
- **Write side.** The filesystem is seen through `FsView`: the outcome of `ensureDirSync` and the result of `statSync` (`None` when it throws), both by path, as observed during one synchronous run of the node.
  - The completion of an asynchronous unlink, write or end is one `Complete(ok)` event per message.
  - The open of an append stream is `StreamOpened(stream, inode)`.
  - The requests that change the filesystem (unlink, directory creation, stream open, write and end) are logged in `fsLog`, in order. An overwrite's `end(data)` is logged when it completes (see Left out). `statSync` is answered by `FsView` and is not logged.
  - Close callbacks the node invokes are logged in `fired`.

Main results:

- **Lines mode.** After every chunk, the sent line payloads followed by `spare` join with `"\n"` to the concatenation of the decoded chunks. No piece contains `"\n"`. At `end`, the record payloads are exactly `Split(decoded text, "\n")`, whatever the chunk boundaries. Indices run contiguously from 0. Only the terminal record carries `count`, and that count equals the number of records.
- **Stream mode.** Every chunk is sent unchanged with the next index. A chunk shorter than the high-water mark is stamped `count = index + 1` and clears `getout`. At `end`, an empty marker with `index = count =` number of chunks is sent exactly when `getout` is still set. An empty file sends nothing.
- **Write queue.** The head of the queue, and only the head, is in processing. A pending close implies a non-empty queue. A close callback, once stored, fires at most once, in the order stored.
- **Write order.** The records sent are the submitted messages whose processing succeeded, unchanged and in submission order (`Delivered`, `DeliveredInOrder`). A close callback fires only once every submitted message has left the queue.

## Model

| member | source | states |
|---|---|---|
| Messages.ResolveFilename | iconvfile-in.js:32 | The file name is empty exactly when neither the node nor the message supplies a non-empty one. Otherwise the configured name wins. If the result is not the configured name, it is the message's. |
| Lines.Split | iconvfile-in.js:68 | `spare.split("\n")` always yields at least one piece. |
| Lines.SplitJoin | iconvfile-in.js:68-84 | Joining the split pieces with the separator gives back the text. No piece contains the separator. |
| Lines.JoinSplit | iconvfile-in.js:68-84 | Separator-free pieces, joined and split again, come back unchanged. This is the converse of SplitJoin. |
| Lines.JoinAppend | iconvfile-in.js:68-84 | Joining a concatenation of two non-empty lists places exactly one separator between the two joins. |
| IconvfileIn.NewInNode | iconvfile-in.js:10-28 | Chunked framing is on exactly for format "lines" or "stream". An empty charset becomes "utf8", and any other charset is kept. `sendError` is on unless it is explicitly false. |
| IconvfileIn.Admit | iconvfile-in.js:32-46 | A read starts exactly when the name resolves non-empty and the charset is known. The file read is the resolved name. An empty name is refused as NoFilename, and an unknown charset as NoCharset. |
| IconvfileIn.LinesStep | iconvfile-in.js:66-85 | Suppose the sent lines plus `spare` join to the text decoded so far. After splitting `spare` plus the new chunk's text, the lines plus the new pieces join to the longer text and stay free of `"\n"`. |
| IconvfileIn.ReadSession.constructor | iconvfile-in.js:32-57 | A session is built only for the non-empty name `node.filename \|\| msg.filename` resolves to, as the handler opens it. It starts with `msg.filename` set to that name, an empty buffer and an empty `spare`. `count` is 0, `getout` is false and nothing has been sent. |
| IconvfileIn.ReadSession.SplitChunk | iconvfile-in.js:66-85 | Lines framing of one chunk keeps the join invariant. The new records extend `sent` with contiguous indices. The lines plus the new `spare` are the old lines followed by the split of the old `spare` plus the decoded chunk. |
| IconvfileIn.ReadSession.EmitLines | iconvfile-in.js:68-84 | Every piece but the last becomes a line record, numbered on from the records already sent. The records so far stay the line records of the lines so far, and the pieces not sent are exactly the last one. |
| IconvfileIn.ReadSession.LineRecordsAt | iconvfile-in.js:69-82 | The i-th line record carries the i-th line as payload, index i, no count, and the message's topic, filename and id. |
| IconvfileIn.ReadSession.PassChunk | iconvfile-in.js:86-104 | Stream framing sends the chunk unchanged with index `count`. It is stamped `count + 1` exactly when it is shorter than the high-water mark. `getout` stays set exactly when the chunk was full-sized. |
| IconvfileIn.ReadSession.OnChunk | iconvfile-in.js:63-108 | In whole mode the chunk is appended to `lines` and nothing is sent. In lines and stream modes it is framed as SplitChunk and PassChunk state. |
| IconvfileIn.ReadSession.OnReadable | iconvfile-in.js:60-109 | A `readable` event consumes its chunks in order. It keeps the session invariant and only ever appends to `sent`. Whole mode sends nothing. Stream mode sends exactly `StreamRecords` of the batch: chunk k unchanged with index `count + k`, stamped `count + k + 1` exactly when it is shorter than the high-water mark. After a non-empty batch, `getout` is set exactly when its last chunk was full-sized. |
| IconvfileIn.ReadSession.ReadOne | iconvfile-in.js:63-108 | One round of the `while (rs.read())` loop: after the k-th chunk of the batch, the chunks so far are the old ones plus the first k + 1 of the batch. Earlier records are kept. Stream mode has added exactly one record per chunk, and the count has moved on by one per chunk. |
| IconvfileIn.ReadSession.StreamRecordsAt | iconvfile-in.js:86-104 | The stream records of a batch are one per chunk. Record k carries chunk k as a Buffer, index `count + k`, and the count `count + k + 1` exactly when the chunk is shorter than the high-water mark. |
| IconvfileIn.ReadSession.OnEnd | iconvfile-in.js:119-151 | **Whole mode** sends one message: the decoded concatenation for format "string", the raw concatenation otherwise. **Lines mode** sends the terminal `spare` record with `index = count` and `count = count + 1`. The payloads are then exactly the split of the decoded text, and they join back to it. Indices are contiguous, and only the last record carries `count = \|sent\|`. **Stream mode** sends an empty marker with `index = count =` number of chunks exactly when `getout` is set. An empty file sends nothing. |
| IconvfileIn.ReadSession.EndLines | iconvfile-in.js:127-138 | In lines mode `spare` is sent last with `index = count` and `count = count + 1`. The records are then a numbered split of the decoded text. |
| IconvfileIn.ReadSession.LastLine | iconvfile-in.js:127-138 | If the lines plus `spare` are free of `"\n"` and join to the text, they are exactly the split of the text. The line records plus the terminal record carry those pieces, indices 0 to n-1, and a count only on the last, equal to n. |
| IconvfileIn.ReadSession.OnError | iconvfile-in.js:110-118 | A read error ends the session. A copy of the message without payload and with `error` set is sent exactly when `sendError` is on. |
| IconvfileOut.Normalize | iconvfile-out.js:72-87 | A Buffer is written unchanged. Any other payload becomes its text form: the text itself, "true" or "false", the number's `toString`, or `JSON.stringify` for objects and null. The EOL is appended when `appendNewline` is on, and the result is charset-encoded. |
| IconvfileOut.Route | iconvfile-out.js:22-88 | An empty resolved name exits. In delete mode the resolved path is unlinked. Otherwise a missing or undefined payload exits, then an unknown charset, then a failed `createDir`. Each of these outcomes is stated as an if-and-only-if over the earlier checks, so the order is fixed. A failed `createDir` names the directory of the resolved path. Only past all of these is the payload written: a truncating stream for "true", an append stream for anything else. |
| IconvfileOut.AppendPlan | iconvfile-out.js:110-133 | The old handle is ended exactly when one is live, an inode is recorded (truthy), and the current stat fails or differs. A fresh handle is opened exactly when there is none, the name is per message, or the handle was ended. |
| IconvfileOut.Positions | iconvfile-out.js:174-184 | Lists, in strictly increasing order, every queue position whose message was sent on, and only those. |
| IconvfileOut.DeliveredInOrder | iconvfile-out.js:174-193 | The k-th record sent is the message at the k-th forwarded queue position. Results leave in submission order. |
| IconvfileOut.Writer.constructor | iconvfile-out.js:15-19 | The node starts with no stream, an empty queue, not closing, no callback and nothing sent. |
| IconvfileOut.Writer.ProcessMsg | iconvfile-out.js:21-172 | Carries out `Route`'s action. **Early exits** finish on the spot with no stream change; only a failed `createDir` logs its attempt. **Delete** unlinks and waits. **Overwrite** opens a fresh truncating stream, stores it as `wstream` and waits. **Append** follows AppendPlan: the old handle is ended and `wstream`/`wstreamIno` are cleared before reopening. Data is then written to a static name's stream, or ended into a per-message one. The new wait, handle, inode and log are the ones `Apply` gives for the action (`Processed`), and the new state and wait are exactly what `Process` gives for the old state. |
| IconvfileOut.Writer.Apply | iconvfile-out.js:34-171 | The effect of carrying out one action from a given handle, inode, next id and log. The message waits exactly when the action is not an early exit. An early exit changes nothing but the log, which gets only the failed `createDir` attempt if that was the exit. The next stream id never goes back. If the live handle's id was below the next id before, it still is afterwards. |
| IconvfileOut.Writer.Process | iconvfile-out.js:21-172 | `processMsg` as a function of the node's state: the action `Route` picks, carried out as `Apply` says. It never touches the queue or the fates, and the next stream id never goes back. It waits exactly when the action is not an early exit. An early exit changes nothing but the log, which gets the early exit's own request. If the live handle's id was below the next id before, it still is afterwards. |
| IconvfileOut.Writer.CloseNode | iconvfile-out.js:203-217 | Ends the live handle if there is one. Clears the stored callback before invoking it, so it fires at most once. Leaves the closing state. |
| IconvfileOut.Writer.Run | iconvfile-out.js:174-184 | `processQ` as a function of the state: heads are processed in turn until the queue is empty or the head waits. The run stops waiting exactly when it emptied the queue. |
| IconvfileOut.Writer.RunDrains | iconvfile-out.js:174-184 | A run shifts off a prefix of the queue. Every head in it was an early exit, logged exactly its early-exit request and got a silent fate. If the queue emptied, nothing else changed. Otherwise the new head is not an early exit, and its processing from the unchanged handle has the effect `Processed` states. |
| IconvfileOut.Writer.ExitFirst | iconvfile-out.js:176-179 | The inductive step of RunDrains: an early-exit head in front of a run with that effect gives the same effect, with one more head shifted off. |
| IconvfileOut.Writer.RunQueue | iconvfile-out.js:174-184 | The node's new state and wait are exactly what `Run` gives for the old state, so RunDrains applies. When the queue empties under a pending close, the handle `Run` left is ended and the stored callback fires. Nothing is sent. |
| IconvfileOut.Writer.Drain | iconvfile-out.js:174-184 | The loop leaves the node in exactly the state, and with exactly the wait, that `Run` gives for the old state. RunDrains gives their effect. Nothing is sent. |
| IconvfileOut.Writer.Step | iconvfile-out.js:174-177 | The head is processed exactly as `Process` says, with the wait it returns. The head leaves the queue with a silent fate exactly when it was an early exit. Otherwise the queue and fates are unchanged. |
| IconvfileOut.Writer.Input | iconvfile-out.js:186-193 | The message is appended to the queue. If the queue was non-empty, nothing else changes, the next stream id included. Otherwise it is processed at once, with the effect `Processed` states and the next stream id `Apply` gives, and no close runs. It leaves the queue silently exactly when it is an early exit. Otherwise it stays as the only message, waiting, and the fates are unchanged. |
| IconvfileOut.Writer.InputFault | iconvfile-out.js:192-200 | A throw from the first processing discards the queue. Only the queue, its bookkeeping and the wait can change: the handle, inode, next id, log and close state are untouched. No close is pending at that point, so none runs. Nothing is sent. |
| IconvfileOut.Writer.Settle | iconvfile-out.js:153-177 | The head leaves the queue with the given fate (`queue.shift()`). It is appended to the records sent exactly when the fate is `Forwarded` (`node.send(msg)`). The queue invariant is kept: what was sent is still the forwarded messages among those that left, in order. |
| IconvfileOut.Writer.Finish | iconvfile-out.js:38-165 | The head leaves the queue and is sent on exactly when its delete, write or end succeeded. The log gains exactly `Ended`: an overwrite's end on success, nothing otherwise. A per-message append handle and its inode are cleared on success, and in every other case the handle and inode are kept. |
| IconvfileOut.Writer.Release | iconvfile-out.js:95-165 | On success an overwrite stream is ended with its data, and a per-message append handle and its inode are dropped. A failure, a delete and a static-name append leave the handle and the log as they were. |
| IconvfileOut.Writer.RunOn | iconvfile-out.js:176-183 | After the shift, the new state and wait are exactly what `Run` gives. If the queue is empty, `Run` changes nothing, and a pending close ends the live handle and fires the callback. While messages remain queued, a pending close stays pending with its callback, and nothing fires. With no close pending, none starts and nothing fires. |
| IconvfileOut.Writer.Complete | iconvfile-out.js:153-183 | The head gets its fate and is sent on exactly when `ok`. The completion's own request and handle drop are applied as in Finish. The rest of the queue then runs exactly as `Run` says from that state, so later early exits are silent. A close callback fires only when every submitted message has left the queue. While messages remain queued, a pending close stays pending with its callback, and nothing fires. With no close pending, none starts and nothing fires. |
| IconvfileOut.Writer.StreamOpened | iconvfile-out.js:140-145 | When the append stream opens, the stat'ed inode is recorded, if the stat succeeds. Nothing else changes. |
| IconvfileOut.Writer.Close | iconvfile-out.js:219-234 | Only the closing flag, the callback, the log and the fired callbacks can change. A second close changes none of them. With a non-empty queue the callback is stored and nothing else happens. With an empty queue `closeNode` runs at once: the handle live before the call is ended and the callback fires. |

## Left out

- Node-RED registration, `node.status`, the 333 ms status debounce, `RED._` message strings, `node.warn`/`node.error` and logging: host plumbing with no effect on records, files or ordering.
- The read node's `close` handler: it only clears the status.
- `fs-extra` is not executed:
  - `createReadStream`, `createWriteStream`, `statSync`, `unlink` and `ensureDirSync` are event parameters and `FsView` answers;
  - `FsView` is one snapshot per synchronous run, so a directory created by an earlier message of the same run is not reflected in later answers.
- iconv-lite, `JSON.stringify`, `Number.prototype.toString`, `os.EOL` and `path.dirname` are uninterpreted parameters:
  - no byte-level round trip is claimed;
  - `decode` is applied per chunk, as the source does, so a multibyte character split across chunks is outside the model.
- Payload kinds other than absent, `undefined`, `null`, string, Buffer, boolean, number and object are not modelled: functions, symbols, and `JSON.stringify` returning `undefined`. Numbers are opaque reals; floating-point formatting is left to the `toString` parameter.
- Real asynchrony:
  - each message waiting on I/O completes through one `Complete(ok)` event;
  - a stream's `error` and its completion callback firing for the same message (which can call `done` twice) are not modelled.
- Writer.InputFault: models only a throw from the first synchronous processing, before any effect. Partial effects before the throw are not modelled. Exceptions thrown from later callbacks escape the handler and are not modelled.
- Writer.Release: the overwrite's `end(data)` is issued when the stream opens (iconvfile-out.js:101-102). The model logs it only when it completes successfully. An overwrite whose stream opened but whose write then failed has this request missing from `fsLog`.
- The rotation race (stat, then write) is modelled as written: the inode is compared once, before the write.
- Node-RED assigns a fresh `_msgid` to records built by the read node. The model leaves their `msgid` as `None`. Message properties other than `_msgid`, `topic`, `filename`, `payload`, `parts` and `error` are not modelled.

In these places the model follows the code as written:

- **Stream-mode terminal marker.** It carries `index = count =` the number of data records, so its `count` does not include the marker itself (iconvfile-in.js:139-149).
- **Empty charset on the write node.** It is not defaulted to `utf8`, unlike the read node (iconvfile-out.js:19, 54). An empty charset therefore fails whenever the codec does not know `""`.
- **Overwrite mode.** It always opens a fresh truncating stream and never reuses one. The previous `wstream` is replaced without being ended (iconvfile-out.js:88-94).
- **`closeNode`.** It ends `wstream` but does not clear it (iconvfile-out.js:203-206). An overwrite stream already ended by its own write is therefore ended again at close.
