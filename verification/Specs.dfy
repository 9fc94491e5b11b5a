/** Protocol descriptions: SMethod, IProtocolObjectSpec, IProtocolSpec. */
module Specs {
  import opened Bytes

  datatype Method = Method(idx: u32, params: seq<byte>, returnsType: Text, since: nat, isDestructor: bool)
  {
    predicate Returns() { returnsType != [] }

    /** The type codes `called` expects: the new object's sequence number first. */
    function Expected(): seq<byte> {
      (if Returns() then [SEQ] else []) + params
    }
  }

  datatype ObjectSpec = ObjectSpec(name: Text, c2s: seq<Method>, s2c: seq<Method>)
  datatype ProtocolSpec = ProtocolSpec(name: Text, version: u32, objects: seq<ObjectSpec>)

  /** From position i on, no code is END and each ARRAY is followed by its element code. */
  predicate ProperFrom(params: seq<byte>, i: nat)
    decreases |params| - i
  {
    i >= |params| ||
    (params[i] != END &&
     if params[i] == ARRAY then i + 1 < |params| && ProperFrom(params, i + 2) else ProperFrom(params, i + 1))
  }

  predicate Proper(params: seq<byte>) { ProperFrom(params, 0) }
}
