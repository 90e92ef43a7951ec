/** Values that travel between nodes: the message object and its parts descriptor. */
module Messages {

  newtype Byte = x: int | 0 <= x < 256

  type Bytes = seq<Byte>

  datatype Option<T> = None | Some(value: T)

  /** `parts.type`: "string" for line splitting, "buffer" otherwise. */
  datatype PartType = StringParts | BufferParts

  /** The `parts` descriptor of a record in a split sequence. */
  datatype Parts = Parts(index: nat, count: Option<nat>, ch: string, kind: PartType, id: Option<string>)

  /**
   * What `msg.payload` can hold, as the write node tells them apart: absent
   * (no own property), `undefined`, `null`, a string, a Buffer, a boolean,
   * a number, or any other object (identified only by an opaque handle).
   */
  datatype Payload =
    | Absent
    | Undefined
    | Null
    | Text(text: string)
    | Buffer(bytes: Bytes)
    | Bool(flag: bool)
    | Num(number: real)
    | Obj(handle: nat)

  /** A message: `_msgid`, `topic`, `filename`, `payload`, `parts` and `error`. */
  datatype Msg = Msg(
    msgid: Option<string>,
    topic: Option<string>,
    filename: Option<string>,
    payload: Payload,
    parts: Option<Parts>,
    error: Option<string>)

  /**
   * `node.filename || msg.filename || ""`: the configured name when it is
   * non-empty, otherwise the message's, otherwise the empty string.
   */
  function ResolveFilename(configured: string, requested: Option<string>): (f: string)
    ensures f == "" <==> configured == "" && (requested.None? || requested.value == "")
    ensures configured != "" ==> f == configured
    ensures f != configured ==> requested == Some(f)
  {
    if configured != "" then configured
    else if requested.Some? && requested.value != "" then requested.value
    else ""
  }
}
