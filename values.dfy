/**
 * The dynamically typed values (`interface{}`) that travel through the builder:
 * filter values, statement arguments and the values a database driver hands back
 * for one column (`string`, `[]byte`, the integer kinds, `bool`, or `nil`).
 */
module Values {
  import opened Text

  datatype Value =
    | VNil
    | VStr(s: string)
    | VBytes(bytes: seq<Byte>)
    | VInt(i: int)
    | VUint(u: nat)
    | VBool(b: bool)

  /** `string(b)`: each byte becomes the character with that code. */
  function BytesToString(b: seq<Byte>): string
  {
    seq(|b|, i requires 0 <= i < |b| => b[i] as char)
  }

  /** `[]byte(s)` for strings whose characters are single bytes; wider characters keep their low byte. */
  function StringToBytes(s: string): seq<Byte>
  {
    seq(|s|, i requires 0 <= i < |s| => (s[i] as int % 256) as Byte)
  }

  predicate IsByteString(s: string)
  {
    forall i :: 0 <= i < |s| ==> s[i] as int < 256
  }

  /** A string of single-byte characters survives the trip to bytes and back. */
  lemma BytesRoundTrip(s: string)
    requires IsByteString(s)
    ensures BytesToString(StringToBytes(s)) == s
  {
  }
}
