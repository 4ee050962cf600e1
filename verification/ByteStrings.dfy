/** Byte strings and 16-bit big-endian numbers, shared by the formats. */
module ByteStrings {
  import opened Prelude

  type Bytes = seq<U8>

  predicate AllBytes(bs: Bytes) { forall i :: 0 <= i < |bs| ==> 0 <= bs[i] <= 0xFF }

  function Concat(parts: seq<Bytes>): Bytes {
    if parts == [] then [] else Concat(parts[..|parts| - 1]) + parts[|parts| - 1]
  }

  lemma ConcatSnoc(parts: seq<Bytes>, part: Bytes)
    ensures Concat(parts + [part]) == Concat(parts) + part
  {
    assert (parts + [part])[..|parts|] == parts;
  }

  function BE16(n: U16): Bytes { [n / 0x100 % 0x100, n % 0x100] }

  function Read16(bs: Bytes): U16
    requires |bs| >= 2
  {
    bs[0] * 0x100 + bs[1]
  }

  lemma Read16BE16(n: U16, rest: Bytes)
    requires 0 <= n <= MAX_UINT16
    ensures Read16(BE16(n) + rest) == n
  {}

  lemma BE16Read16(hi: U8, lo: U8)
    requires 0 <= hi <= 0xFF && 0 <= lo <= 0xFF
    ensures BE16(hi * 0x100 + lo) == [hi, lo] && 0 <= hi * 0x100 + lo <= MAX_UINT16
  {}
}
