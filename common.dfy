/** Values shared by every part of the model. */
module Common {

  /** An optional value: the model's stand-in for Python's None. */
  datatype Option<T> = None | Some(value: T)

  /** The JSON values the monitors store in their snapshots and the display reads back.
      The scripts only ever store integers and strings; other JSON kinds are not modelled. */
  datatype JsonValue = JNull | JInt(i: int) | JStr(s: string)

  /** One result of a serial read: the driver's byte count and the text it decoded to. */
  datatype Chunk = Chunk(count: nat, text: string)

  /** The texts of a run of reads, joined in order, leaving out the zero-count reads. */
  function JoinedTexts(cs: seq<Chunk>): string
  {
    if cs == [] then ""
    else (if cs[0].count == 0 then "" else cs[0].text) + JoinedTexts(cs[1..])
  }
}
