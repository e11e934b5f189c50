/** The batched byte search of the scanners (`search.rs`). */
module Search {
  type Byte = n: nat | n < 256

  const SCALAR_PREFIX := 8
  const SEARCH_BATCH_SIZE := 32

  /** The offset of the first byte the table marks, or the length: batches skip no match. */
  method FindMatch(bytes: seq<Byte>, table: seq<bool>) returns (offset: nat)
    requires |table| == 256
    ensures offset <= |bytes|
    ensures forall i :: 0 <= i < offset ==> !table[bytes[i]]
    ensures offset < |bytes| ==> table[bytes[offset]]
  {
    offset := 0;
    var prefixEnd := if |bytes| < SCALAR_PREFIX then |bytes| else SCALAR_PREFIX;
    while offset < prefixEnd
      invariant offset <= prefixEnd && forall i :: 0 <= i < offset ==> !table[bytes[i]]
    {
      if table[bytes[offset]] {
        return;
      }
      offset := offset + 1;
    }
    while offset + SEARCH_BATCH_SIZE <= |bytes|
      invariant offset <= |bytes| && forall i :: 0 <= i < offset ==> !table[bytes[i]]
    {
      var anyMatch := false;
      for i := offset to offset + SEARCH_BATCH_SIZE
        invariant !anyMatch ==> forall j :: offset <= j < i ==> !table[bytes[j]]
      {
        anyMatch := anyMatch || table[bytes[i]];
      }
      if anyMatch {
        break;
      }
      offset := offset + SEARCH_BATCH_SIZE;
    }
    while offset < |bytes| && !table[bytes[offset]]
      invariant offset <= |bytes| && forall i :: 0 <= i < offset ==> !table[bytes[i]]
    {
      offset := offset + 1;
    }
  }
}
