/**
 The key-value list that opens a QUIC connection (transport/quic/negotiation.go). Strings are byte
 sequences; whether bytes are valid UTF-8 is an abstract predicate.
 */
module QuicNegotiation {
  import opened ByteStrings
  import opened Prelude

  type KeyValues = map<Bytes, Bytes>
  datatype Pair = Pair(key: Bytes, val: Bytes)

  datatype Result = Parsed(keyvals: KeyValues) | Failed

  /** A string behind the low 16 bits of its length. */
  function Field(s: Bytes): Bytes { BE16(|s| % 0x1_0000) + s }

  function EncodePairs(ps: seq<Pair>): Bytes {
    if ps == [] then [] else Field(ps[0].key) + Field(ps[0].val) + EncodePairs(ps[1..])
  }

  function PairsIn(order: seq<Bytes>, kvs: KeyValues): seq<Pair>
    requires forall k :: k in order ==> k in kvs
  {
    seq(|order|, i requires 0 <= i < |order| => var k := order[i]; assert k in order; Pair(k, kvs[k]))
  }

  // ---- parsing ----

  /** One field from the front: its content and the rest, unless the input ends inside it. */
  function TakeField(bs: Bytes): Option<(Bytes, Bytes)>
    requires AllBytes(bs)
  {
    if |bs| < 2 || |bs| < 2 + Read16(bs) then None
    else Some((bs[2..2 + Read16(bs)], bs[2 + Read16(bs)..]))
  }

  /** What readKeyValues makes of the rest of its input, having read `acc`. */
  function Parse(bs: Bytes, acc: KeyValues, utf8: Bytes -> bool): Result
    requires AllBytes(bs)
    decreases |bs|
  {
    if bs == [] then Parsed(acc)
    else match TakeField(bs)
      case None => Failed
      case Some((key, rest)) =>
        if key == [] || !utf8(key) then Failed
        else match TakeField(rest)
          case None => Failed
          case Some((val, rest')) =>
            if !utf8(val) || key in acc then Failed
            else Parse(rest', acc[key := val], utf8)
  }

  // ---- exactly the encodings are accepted ----

  predicate Sendable(p: Pair, utf8: Bytes -> bool) {
    && p.key != [] && |p.key| <= MAX_UINT16 && |p.val| <= MAX_UINT16
    && AllBytes(p.key) && AllBytes(p.val) && utf8(p.key) && utf8(p.val)
  }

  /** Pairs that extend `acc` without repeating a key. */
  ghost predicate Extends(ps: seq<Pair>, acc: KeyValues, utf8: Bytes -> bool) {
    && (forall i :: 0 <= i < |ps| ==> Sendable(ps[i], utf8) && ps[i].key !in acc)
    && (forall i, j :: 0 <= i < j < |ps| ==> ps[i].key != ps[j].key)
  }

  function Added(acc: KeyValues, ps: seq<Pair>): KeyValues
    decreases |ps|
  {
    if ps == [] then acc else Added(acc[ps[0].key := ps[0].val], ps[1..])
  }

  lemma FieldBytes(s: Bytes)
    requires AllBytes(s)
    ensures AllBytes(Field(s))
  {}

  lemma {:induction false} EncodedBytes(ps: seq<Pair>, acc: KeyValues, utf8: Bytes -> bool)
    requires Extends(ps, acc, utf8)
    ensures AllBytes(EncodePairs(ps))
  {
    if ps != [] {
      assert Sendable(ps[0], utf8);
      FieldBytes(ps[0].key);
      FieldBytes(ps[0].val);
      EncodedBytes(ps[1..], acc, utf8);
    }
  }

  lemma TakeFieldOfField(s: Bytes, rest: Bytes)
    requires AllBytes(s) && AllBytes(rest) && |s| <= MAX_UINT16
    ensures AllBytes(Field(s) + rest) && TakeField(Field(s) + rest) == Some((s, rest))
  {
    var bs := Field(s) + rest;
    assert Read16(bs) == |s|;
    assert bs[2..2 + |s|] == s && bs[2 + |s|..] == rest;
  }

  lemma FieldOfLength(s: Bytes, hi: U8, lo: U8)
    requires 0 <= hi <= 0xFF && 0 <= lo <= 0xFF && |s| == hi * 0x100 + lo
    ensures Field(s) == [hi, lo] + s && |s| <= MAX_UINT16
  {
    BE16Read16(hi, lo);
  }

  lemma SplitAt(bs: Bytes, n: nat)
    requires 2 + n <= |bs|
    ensures bs == [bs[0], bs[1]] + bs[2..2 + n] + bs[2 + n..]
  {}

  lemma FieldOfTakeField(bs: Bytes)
    requires AllBytes(bs) && TakeField(bs).Some?
    ensures var (s, rest) := TakeField(bs).value;
      bs == Field(s) + rest && AllBytes(s) && AllBytes(rest) && |s| <= MAX_UINT16 && |rest| < |bs|
  {
    var n := Read16(bs);
    SplitAt(bs, n);
    FieldOfLength(bs[2..2 + n], bs[0], bs[1]);
  }

  /** One pair at the front of the input. */
  lemma ParseOne(p: Pair, rest: Bytes, acc: KeyValues, utf8: Bytes -> bool)
    requires Sendable(p, utf8) && p.key !in acc && AllBytes(rest)
    ensures var bs := Field(p.key) + (Field(p.val) + rest);
      AllBytes(bs) && Parse(bs, acc, utf8) == Parse(rest, acc[p.key := p.val], utf8)
  {
    TakeFieldOfField(p.val, rest);
    TakeFieldOfField(p.key, Field(p.val) + rest);
  }

  lemma ParsedStarts(bs: Bytes, acc: KeyValues, utf8: Bytes -> bool) returns (p: Pair, rest: Bytes)
    requires AllBytes(bs) && bs != [] && Parse(bs, acc, utf8).Parsed?
    ensures bs == Field(p.key) + (Field(p.val) + rest) && AllBytes(rest) && |rest| < |bs|
    ensures Sendable(p, utf8) && p.key !in acc
    ensures Parse(bs, acc, utf8) == Parse(rest, acc[p.key := p.val], utf8)
  {
    FieldOfTakeField(bs);
    var (key, rest0) := TakeField(bs).value;
    FieldOfTakeField(rest0);
    p := Pair(key, TakeField(rest0).value.0);
    rest := TakeField(rest0).value.1;
  }

  lemma ExtendsTail(ps: seq<Pair>, acc: KeyValues, utf8: Bytes -> bool)
    requires ps != [] && Extends(ps, acc, utf8)
    ensures Extends(ps[1..], acc[ps[0].key := ps[0].val], utf8)
  {}

  lemma ExtendsCons(p: Pair, ps: seq<Pair>, acc: KeyValues, utf8: Bytes -> bool)
    requires Sendable(p, utf8) && p.key !in acc && Extends(ps, acc[p.key := p.val], utf8)
    ensures Extends([p] + ps, acc, utf8)
  {}

  lemma EncodeCons(p: Pair, ps: seq<Pair>)
    ensures EncodePairs([p] + ps) == Field(p.key) + (Field(p.val) + EncodePairs(ps))
  {
    assert ([p] + ps)[1..] == ps;
  }

  /** Every encoding is read back. */
  lemma {:induction false} EncodingsParse(ps: seq<Pair>, acc: KeyValues, utf8: Bytes -> bool)
    requires Extends(ps, acc, utf8)
    ensures AllBytes(EncodePairs(ps)) && Parse(EncodePairs(ps), acc, utf8) == Parsed(Added(acc, ps))
    decreases |ps|
  {
    EncodedBytes(ps, acc, utf8);
    if ps != [] {
      var p := ps[0];
      assert Sendable(p, utf8);
      ExtendsTail(ps, acc, utf8);
      EncodingsParse(ps[1..], acc[p.key := p.val], utf8);
      ParseOne(p, EncodePairs(ps[1..]), acc, utf8);
      EncodeCons(p, ps[1..]);
      assert ps == [p] + ps[1..];
    }
  }

  /** Nothing else is accepted. */
  lemma {:induction false} ParsedIsEncoding(bs: Bytes, acc: KeyValues, utf8: Bytes -> bool) returns (ps: seq<Pair>)
    requires AllBytes(bs) && Parse(bs, acc, utf8).Parsed?
    ensures Extends(ps, acc, utf8) && bs == EncodePairs(ps)
    ensures Parse(bs, acc, utf8) == Parsed(Added(acc, ps))
    decreases |bs|
  {
    ps := [];
    if bs != [] {
      var p, rest := ParsedStarts(bs, acc, utf8);
      var tail := ParsedIsEncoding(rest, acc[p.key := p.val], utf8);
      ps := [p] + tail;
      ExtendsCons(p, tail, acc, utf8);
      EncodeCons(p, tail);
      assert ps[1..] == tail;
    }
  }

  // ---- in terms of maps ----

  ghost predicate Encodable(kvs: KeyValues, utf8: Bytes -> bool) {
    forall k :: k in kvs ==> Sendable(Pair(k, kvs[k]), utf8)
  }

  /** The bytes Marshal makes of the map in the iteration order `order`. */
  ghost predicate IsEncodingOf(bs: Bytes, kvs: KeyValues, order: seq<Bytes>) {
    Enumerates(order, kvs.Keys) && bs == EncodePairs(PairsIn(order, kvs))
  }

  ghost predicate HasKey(ps: seq<Pair>, k: Bytes) {
    exists i :: 0 <= i < |ps| && ps[i].key == k
  }

  lemma HasKeyCons(ps: seq<Pair>, k: Bytes)
    requires ps != []
    ensures HasKey(ps, k) <==> ps[0].key == k || HasKey(ps[1..], k)
  {
    if HasKey(ps, k) {
      var i :| 0 <= i < |ps| && ps[i].key == k;
      assert i > 0 ==> ps[1..][i - 1].key == k;
    }
    if HasKey(ps[1..], k) {
      var i :| 0 <= i < |ps[1..]| && ps[1..][i].key == k;
      assert ps[i + 1].key == k;
    }
  }

  lemma {:induction false} AddedMeans(acc: KeyValues, ps: seq<Pair>, utf8: Bytes -> bool)
    requires Extends(ps, acc, utf8)
    ensures forall k :: k in Added(acc, ps) <==> k in acc || HasKey(ps, k)
    ensures forall k :: k in acc ==> Added(acc, ps)[k] == acc[k]
    ensures forall i :: 0 <= i < |ps| ==> ps[i].key in Added(acc, ps) && Added(acc, ps)[ps[i].key] == ps[i].val
    decreases |ps|
  {
    if ps != [] {
      var acc' := acc[ps[0].key := ps[0].val];
      ExtendsTail(ps, acc, utf8);
      AddedMeans(acc', ps[1..], utf8);
      forall k ensures k in Added(acc, ps) <==> k in acc || HasKey(ps, k) { HasKeyCons(ps, k); }
      forall i | 0 <= i < |ps| ensures ps[i].key in Added(acc, ps) && Added(acc, ps)[ps[i].key] == ps[i].val {
        assert ps[0].key in acc';
        if i > 0 { assert ps[1..][i - 1] == ps[i]; }
      }
    }
  }

  lemma PairsExtend(kvs: KeyValues, order: seq<Bytes>, utf8: Bytes -> bool)
    requires Encodable(kvs, utf8) && Enumerates(order, kvs.Keys)
    ensures Extends(PairsIn(order, kvs), map[], utf8)
  {
    var ps := PairsIn(order, kvs);
    forall i | 0 <= i < |ps| ensures Sendable(ps[i], utf8) && ps[i].key == order[i] { assert order[i] in kvs; }
  }

  lemma PairsKeys(kvs: KeyValues, order: seq<Bytes>, k: Bytes)
    requires Enumerates(order, kvs.Keys)
    ensures HasKey(PairsIn(order, kvs), k) <==> k in kvs
  {
    var ps := PairsIn(order, kvs);
    if k in kvs { var i :| 0 <= i < |order| && order[i] == k; assert ps[i].key == k; }
    if HasKey(ps, k) { var i :| 0 <= i < |ps| && ps[i].key == k; assert order[i] == k && k in order; }
  }

  lemma PairOfKey(kvs: KeyValues, order: seq<Bytes>, k: Bytes) returns (i: nat)
    requires Enumerates(order, kvs.Keys) && k in kvs
    ensures i < |PairsIn(order, kvs)| && PairsIn(order, kvs)[i] == Pair(k, kvs[k])
  {
    i :| 0 <= i < |order| && order[i] == k;
  }

  /** The pairs of a map add up to the map. */
  lemma PairsAddUp(kvs: KeyValues, order: seq<Bytes>, utf8: Bytes -> bool)
    requires Encodable(kvs, utf8) && Enumerates(order, kvs.Keys)
    ensures Extends(PairsIn(order, kvs), map[], utf8) && Added(map[], PairsIn(order, kvs)) == kvs
  {
    var ps := PairsIn(order, kvs);
    PairsExtend(kvs, order, utf8);
    AddedMeans(map[], ps, utf8);
    var added := Added(map[], ps);
    forall k ensures k in added <==> k in kvs { PairsKeys(kvs, order, k); }
    forall k | k in kvs ensures added[k] == kvs[k] { var i := PairOfKey(kvs, order, k); }
  }

  function Keys(ps: seq<Pair>): seq<Bytes> {
    seq(|ps|, i requires 0 <= i < |ps| => ps[i].key)
  }

  lemma ExtendsEncodes(ps: seq<Pair>, utf8: Bytes -> bool)
    requires Extends(ps, map[], utf8)
    ensures Encodable(Added(map[], ps), utf8)
    ensures IsEncodingOf(EncodePairs(ps), Added(map[], ps), Keys(ps))
  {
    var kvs := Added(map[], ps);
    AddedMeans(map[], ps, utf8);
    forall k | k in kvs ensures Sendable(Pair(k, kvs[k]), utf8) && k in Keys(ps) {
      assert HasKey(ps, k);
      var i :| 0 <= i < |ps| && ps[i].key == k;
      assert ps[i] == Pair(k, kvs[k]) && Keys(ps)[i] == k;
    }
    assert PairsIn(Keys(ps), kvs) == ps;
  }

  /** readKeyValues returns a map exactly for the encodings of that map, and only for maps whose keys
      are not empty and whose strings are UTF-8 of at most 65535 bytes: truncated input, trailing
      bytes, empty keys and repeated keys are all refused. */
  lemma AcceptsExactlyEncodings(bs: Bytes, kvs: KeyValues, utf8: Bytes -> bool)
    requires AllBytes(bs)
    ensures Parse(bs, map[], utf8) == Parsed(kvs) <==>
      Encodable(kvs, utf8) && exists order :: IsEncodingOf(bs, kvs, order)
  {
    if Parse(bs, map[], utf8) == Parsed(kvs) {
      var ps := ParsedIsEncoding(bs, map[], utf8);
      ExtendsEncodes(ps, utf8);
    }
    if Encodable(kvs, utf8) && exists order :: IsEncodingOf(bs, kvs, order) {
      var order :| IsEncodingOf(bs, kvs, order);
      PairsAddUp(kvs, order, utf8);
      EncodingsParse(PairsIn(order, kvs), map[], utf8);
    }
  }

  /** Marshalling a map and reading it back gives the map, in whatever order it was walked, exactly
      when the map is encodable; a longer string is cut to 16 bits of length and not read back. */
  lemma RoundTripIff(kvs: KeyValues, order: seq<Bytes>, utf8: Bytes -> bool)
    requires Enumerates(order, kvs.Keys) && AllBytes(EncodePairs(PairsIn(order, kvs)))
    ensures Parse(EncodePairs(PairsIn(order, kvs)), map[], utf8) == Parsed(kvs) <==> Encodable(kvs, utf8)
  {
    var bs := EncodePairs(PairsIn(order, kvs));
    AcceptsExactlyEncodings(bs, kvs, utf8);
    assert IsEncodingOf(bs, kvs, order);
  }

  /** On the wire: two bytes of length, the most significant first, and the key; then the same for the
      value; then the remaining pairs. */
  lemma EncodingFormat(p: Pair, rest: seq<Pair>)
    requires |p.key| <= MAX_UINT16 && |p.val| <= MAX_UINT16
    ensures EncodePairs([]) == []
    ensures EncodePairs([p] + rest) ==
      [|p.key| / 0x100, |p.key| % 0x100] + p.key + ([|p.val| / 0x100, |p.val| % 0x100] + p.val) + EncodePairs(rest)
  {
    EncodeCons(p, rest);
  }

  // ---- the two loops ----

  lemma {:induction false} EncodeSnoc(ps: seq<Pair>, p: Pair)
    ensures EncodePairs(ps + [p]) == EncodePairs(ps) + (Field(p.key) + Field(p.val))
  {
    if ps == [] {
      EncodeCons(p, []);
      assert ps + [p] == [p] + [];
    } else {
      EncodeSnoc(ps[1..], p);
      assert (ps + [p])[1..] == ps[1..] + [p];
    }
  }

  /** The loop of Marshal; `order` is the order in which Go walks the map. */
  method Marshal(kvs: KeyValues, order: seq<Bytes>) returns (res: Bytes)
    requires Enumerates(order, kvs.Keys)
    ensures res == EncodePairs(PairsIn(order, kvs))
  {
    res := [];
    ghost var ps := PairsIn(order, kvs);
    for i := 0 to |order|
      invariant res == EncodePairs(ps[..i])
    {
      var k := order[i];
      assert k in order && ps[i] == Pair(k, kvs[k]);
      EncodeSnoc(ps[..i], ps[i]);
      assert ps[..i + 1] == ps[..i] + [ps[i]];
      res := res + (Field(k) + Field(kvs[k]));
    }
    assert ps[..|order|] == ps;
  }

  /** The reader readKeyValues consumes. */
  class Reader {
    var rest: Bytes

    constructor (bs: Bytes)
      ensures rest == bs
    {
      rest := bs;
    }

    /** io.ReadFull for a field: two bytes of length, then the content. */
    method ReadField() returns (field: Option<Bytes>)
      requires AllBytes(rest)
      modifies this
      ensures AllBytes(rest)
      ensures match TakeField(old(rest))
        case None => field == None
        case Some((s, after)) => field == Some(s) && rest == after && |rest| < |old(rest)|
    {
      if |rest| < 2 { return None; }
      var n := Read16(rest);
      if |rest| < 2 + n { return None; }
      field := Some(rest[2..2 + n]);
      rest := rest[2 + n..];
    }

    method ReadKeyValues(utf8: Bytes -> bool) returns (res: Result)
      requires AllBytes(rest)
      modifies this
      ensures res == Parse(old(rest), map[], utf8)
    {
      var keyvals: KeyValues := map[];
      while |rest| > 0
        invariant AllBytes(rest)
        invariant Parse(rest, keyvals, utf8) == Parse(old(rest), map[], utf8)
        decreases |rest|
      {
        var key := ReadField();
        if key.None? || |key.value| == 0 || !utf8(key.value) { return Failed; }
        var val := ReadField();
        if val.None? || !utf8(val.value) || key.value in keyvals { return Failed; }
        keyvals := keyvals[key.value := val.value];
      }
      return Parsed(keyvals);
    }
  }
}
