/** The documents `encoding/json` produces for the ledger's values, as trees.
    A tree fixes every key, every key's position and every value; the text
    and bytes `json.Marshal` writes for a tree are not modelled. */
module Serialization {
  import opened GoValues

  datatype Json =
    | JNull
    | JInt(i: int)
    | JFloat32(bits: Float32)
    | JString(s: string)
    | JArray(elems: seq<Json>)
    | JObject(members: seq<(string, Json)>)

  /** `json.Marshal` refuses a NaN or an infinite float with an
      `UnsupportedValueError`. */
  datatype MarshalError = UnsupportedValue(bits: Float32)

  datatype Result<T> = Ok(value: T) | Err(error: MarshalError)

  /** The keys of an object, in the order they are written. */
  function Keys(members: seq<(string, Json)>): (ks: seq<string>)
    ensures |ks| == |members|
    ensures forall i :: 0 <= i < |members| ==> ks[i] == members[i].0
  {
    if members == [] then [] else [members[0].0] + Keys(members[1..])
  }

  /** A Go byte array (not a slice) is written as an array of numbers. */
  function ByteArray(bytes: seq<byte>): (j: Json)
    ensures j.JArray? && |j.elems| == |bytes|
    ensures forall i :: 0 <= i < |bytes| ==> j.elems[i] == JInt(bytes[i] as int)
  {
    JArray(seq(|bytes|, i requires 0 <= i < |bytes| => JInt(bytes[i] as int)))
  }

  /** Distinct byte arrays are written as distinct documents. */
  lemma ByteArrayInjective(a: seq<byte>, b: seq<byte>)
    requires ByteArray(a) == ByteArray(b)
    ensures a == b
  {
  }
}
