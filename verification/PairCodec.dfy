/** Prefix coding of key/data pairs inside one chunk of a compressed B-tree. */
module PairCodec {
  import opened ByteStrings
  import opened IntCodec

  datatype Pair = Pair(key: Item, data: Item)

  datatype Decoded = Decoded(pair: Pair, used: nat) | Invalid

  /** Length of the longest common prefix. */
  function Lcp(a: Bytes, b: Bytes): (n: nat)
    ensures n <= |a| && n <= |b|
    ensures forall i :: 0 <= i < n ==> a[i] == b[i]
    ensures n < |a| && n < |b| ==> a[n] != b[n]
  {
    if a == [] || b == [] || a[0] != b[0] then 0 else 1 + Lcp(a[1..], b[1..])
  }

  /** A common prefix that cannot be extended is the longest one. */
  lemma LcpUnique(a: Bytes, b: Bytes, n: nat)
    requires n <= |a| && n <= |b|
    requires forall i :: 0 <= i < n ==> a[i] == b[i]
    requires n == |a| || n == |b| || a[n] != b[n]
    ensures n == Lcp(a, b)
  {}

  /** Sharing prefixes is ultrametric. */
  lemma LcpUltrametric(x: Bytes, y: Bytes, z: Bytes)
    ensures Lcp(x, z) >= Lcp(x, y) || Lcp(x, z) >= Lcp(y, z)
  {}

  // ---------- encoding ----------

  /** The duplicate form: same key, so only the data is prefix-coded. */
  function EncodeDup(prev: Item, data: Item): (s: Bytes)
    ensures |s| == 1 + SharedSize(prev, data) && s[0] == SPARE_VAL
  {
    var prefix := Lcp(data, prev);
    var suffix := |data| - prefix;
    [SPARE_VAL] + CompressInt(prefix) + CompressInt(suffix) + data[prefix..]
  }

  /** The new-key form. */
  function EncodeNew(prevKey: Item, q: Pair): (s: Bytes)
    ensures |s| == SharedSize(prevKey, q.key) + CountInt(|q.data|) + |q.data|
    ensures s[0] < SPARE_VAL
  {
    var prefix := Lcp(q.key, prevKey);
    var suffix := |q.key| - prefix;
    CompressInt(prefix) + CompressInt(suffix) + CompressInt(|q.data|) + q.key[prefix..] + q.data
  }

  function Encode(prev: Pair, q: Pair): (s: Bytes)
    ensures |s| >= 3
  {
    if prev.key == q.key then EncodeDup(prev.data, q.data) else EncodeNew(prev.key, q)
  }

  /** Bytes spent on `b` as a prefix of `a` and a suffix: both lengths and the suffix. */
  function SharedSize(a: Bytes, b: Bytes): nat {
    CountInt(Lcp(b, a)) + CountInt(|b| - Lcp(b, a)) + (|b| - Lcp(b, a))
  }

  /** The comparison loop that the compressor runs over keys and over data. */
  method MatchLength(a: Bytes, b: Bytes) returns (n: nat)
    ensures n == Lcp(a, b)
  {
    n := 0;
    var len := if |a| > |b| then |b| else |a|;
    while n < len && a[n] == b[n]
      invariant n <= len
      invariant forall i :: 0 <= i < n ==> a[i] == b[i]
    {
      n := n + 1;
    }
    LcpUnique(a, b, n);
  }

  datatype Written = Wrote(bytes: Bytes) | NoRoom

  /** Default compression routine: writes one pair into `room` bytes or reports
      that the buffer is too small. */
  method Compress(prev: Pair, q: Pair, room: nat) returns (r: Written)
    ensures r == if |Encode(prev, q)| <= room then Wrote(Encode(prev, q)) else NoRoom
  {
    hide CompressInt, CountInt;
    var prefix := MatchLength(q.key, prev.key);
    var suffix := |q.key| - prefix;
    if prefix == |prev.key| && suffix == 0 {
      var k := MatchLength(q.data, prev.data);
      var rest := |q.data| - k;
      if 1 + CountInt(k) + CountInt(rest) + rest > room {
        return NoRoom;
      }
      return Wrote([SPARE_VAL] + CompressInt(k) + CompressInt(rest) + q.data[k..]);
    }
    if CountInt(prefix) + CountInt(suffix) + CountInt(|q.data|) + suffix + |q.data| > room {
      return NoRoom;
    }
    return Wrote(CompressInt(prefix) + CompressInt(suffix) + CompressInt(|q.data|)
                 + q.key[prefix..] + q.data);
  }

  /** The bytes of two entries, one of each form: "abd" after "abc", and the data
      "wx" after "wyz" under one key. */
  lemma {:induction false} EntryBytes()
    ensures Encode(Pair([0x61, 0x62, 0x63], [0x77]), Pair([0x61, 0x62, 0x64], [0x78, 0x79]))
         == [2] + [1] + [2] + [0x64] + [0x78, 0x79]
    ensures Encode(Pair([0x61], [0x77, 0x79, 0x7A]), Pair([0x61], [0x77, 0x78]))
         == [SPARE_VAL] + [1] + [1] + [0x78]
  {
    var p: Item, q: Item := [0x61, 0x62, 0x63], [0x61, 0x62, 0x64];
    LcpUnique(q, p, 2);
    assert q[2..] == [0x64];
    var c: Item, d: Item := [0x77, 0x79, 0x7A], [0x77, 0x78];
    LcpUnique(d, c, 1);
    assert d[1..] == [0x78];
    assert p != q;
  }

  // ---------- decoding ----------

  datatype ReadInt = Got(value: u32, next: nat) | Short

  /** Reads one length at offset `at`, refusing one that runs past the end. */
  function ReadLength(s: Bytes, at: nat): (r: ReadInt)
    ensures r.Got? ==> at < r.next <= |s|
  {
    if at >= |s| then Short
    else
      var n := DecompressCount(s[at]);
      if at + n > |s| then Short else Got(DecompressInt32(s[at..]), at + n)
  }

  function DecodeDup(prev: Pair, s: Bytes): (r: Decoded)
    requires s != []
    ensures r.Decoded? ==> 0 < r.used <= |s|
  {
    var a := ReadLength(s, 1);
    if a.Short? then Invalid else
    var b := ReadLength(s, a.next);
    if b.Short? then Invalid else
    var prefix, suffix, at := a.value, b.value, b.next;
    if prefix > |prev.data| || at + suffix > |s| || prefix + suffix >= 0x1_0000_0000 then Invalid
    else Decoded(Pair(prev.key, prev.data[..prefix] + s[at..at + suffix]), at + suffix)
  }

  function DecodeNew(prev: Pair, s: Bytes): (r: Decoded)
    ensures r.Decoded? ==> 0 < r.used <= |s|
  {
    var a := ReadLength(s, 0);
    if a.Short? then Invalid else
    var b := ReadLength(s, a.next);
    if b.Short? then Invalid else
    var c := ReadLength(s, b.next);
    if c.Short? then Invalid else
    var prefix, suffix, size, at := a.value, b.value, c.value, c.next;
    if prefix > |prev.key| || at + suffix + size > |s| || prefix + suffix >= 0x1_0000_0000 then Invalid
    else
      Decoded(Pair(prev.key[..prefix] + s[at..at + suffix], s[at + suffix..at + suffix + size]),
              at + suffix + size)
  }

  /** Default decompression routine. */
  function Decode(prev: Pair, s: Bytes): (r: Decoded)
    ensures r.Decoded? ==> 0 < r.used <= |s|
  {
    if s == [] then Invalid
    else if s[0] == SPARE_VAL then DecodeDup(prev, s)
    else DecodeNew(prev, s)
  }

  // ---------- round trip of one pair ----------

  /** A length in the middle of a buffer. */
  lemma {:induction false} ReadsLength(s: Bytes, at: nat, i: u32, after: Bytes)
    requires at <= |s| && s[at..] == CompressInt(i) + after
    ensures ReadLength(s, at) == Got(i, at + CountInt(i))
    ensures at + CountInt(i) <= |s| && s[at + CountInt(i)..] == after
  {
    IntRoundTrip(i, after);
    assert s[at] == s[at..][0];
    assert s[at..][CountInt(i)..] == after;
  }

  lemma {:induction false} DupRoundTrip(prev: Pair, q: Pair, rest: Bytes)
    requires prev.key == q.key
    ensures Decode(prev, EncodeDup(prev.data, q.data) + rest)
         == Decoded(q, |EncodeDup(prev.data, q.data)|)
  {
    hide CompressInt, CountInt, DecompressCount, DecompressInt32, ReadLength, Lcp;
    var p := Lcp(q.data, prev.data);
    var f := |q.data| - p;
    var tail := q.data[p..] + rest;
    var s := EncodeDup(prev.data, q.data) + rest;
    assert s[1..] == CompressInt(p) + (CompressInt(f) + tail);
    assert s[0] == SPARE_VAL;
    hide EncodeDup, DecodeDup;
    ReadsLength(s, 1, p, CompressInt(f) + tail);
    ReadsLength(s, 1 + CountInt(p), f, tail);
    DupFields(prev, q, s, 1 + CountInt(p), 1 + CountInt(p) + CountInt(f), rest);
  }

  /** The suffix that follows the two lengths. */
  lemma {:induction false} DupFields(prev: Pair, q: Pair, s: Bytes, a: nat, at: nat, rest: Bytes)
    requires at <= |s| && s != [] && prev.key == q.key
    requires s[at..] == q.data[Lcp(q.data, prev.data)..] + rest
    requires ReadLength(s, 1) == Got(Lcp(q.data, prev.data), a)
    requires ReadLength(s, a) == Got(|q.data| - Lcp(q.data, prev.data), at)
    ensures DecodeDup(prev, s) == Decoded(q, at + |q.data| - Lcp(q.data, prev.data))
  {
    hide ReadLength, Lcp;
    var p := Lcp(q.data, prev.data);
    var f := |q.data| - p;
    assert s[at..at + f] == s[at..][..f] == q.data[p..];
    assert prev.data[..p] + q.data[p..] == q.data;
  }

  lemma {:induction false} NewLayout(prevKey: Item, q: Pair, rest: Bytes)
    ensures var p := Lcp(q.key, prevKey);
      EncodeNew(prevKey, q) + rest
      == CompressInt(p) + (CompressInt(|q.key| - p) + (CompressInt(|q.data|)
           + (q.key[p..] + q.data + rest)))
  {
    hide CompressInt, CountInt, Lcp;
  }

  lemma {:induction false} NewRoundTrip(prev: Pair, q: Pair, rest: Bytes)
    ensures Decode(prev, EncodeNew(prev.key, q) + rest) == Decoded(q, |EncodeNew(prev.key, q)|)
  {
    hide CompressInt, CountInt, DecompressCount, DecompressInt32, ReadLength, Lcp, DecodeDup;
    var p := Lcp(q.key, prev.key);
    var f := |q.key| - p;
    var n := |q.data|;
    var body := q.key[p..];
    var s := EncodeNew(prev.key, q) + rest;
    var tail := body + q.data + rest;
    NewLayout(prev.key, q, rest);
    hide EncodeNew, DecodeNew;
    assert s[0..] == s;
    ReadsLength(s, 0, p, CompressInt(f) + (CompressInt(n) + tail));
    ReadsLength(s, CountInt(p), f, CompressInt(n) + tail);
    ReadsLength(s, CountInt(p) + CountInt(f), n, tail);
    NewFields(prev, q, s, CountInt(p), CountInt(p) + CountInt(f),
              CountInt(p) + CountInt(f) + CountInt(n), rest);
  }

  /** The fields that follow the three lengths. */
  lemma {:induction false} NewFields(prev: Pair, q: Pair, s: Bytes, a: nat, b: nat, at: nat, rest: Bytes)
    requires at <= |s|
    requires s[at..] == q.key[Lcp(q.key, prev.key)..] + q.data + rest
    requires ReadLength(s, 0) == Got(Lcp(q.key, prev.key), a)
    requires ReadLength(s, a) == Got(|q.key| - Lcp(q.key, prev.key), b)
    requires ReadLength(s, b) == Got(|q.data|, at)
    ensures DecodeNew(prev, s) == Decoded(q, at + |q.key| - Lcp(q.key, prev.key) + |q.data|)
  {
    hide ReadLength, Lcp;
    var p := Lcp(q.key, prev.key);
    var f := |q.key| - p;
    assert s[at..at + f] == s[at..][..f] == q.key[p..];
    assert s[at + f..at + f + |q.data|] == s[at..][f..f + |q.data|] == q.data;
    assert prev.key[..p] + q.key[p..] == q.key;
  }

  /** Decoding reads back the pair and consumes exactly the bytes written for
      it, whatever follows, in both forms. */
  lemma {:induction false} PairRoundTrip(prev: Pair, q: Pair, rest: Bytes)
    ensures Decode(prev, Encode(prev, q) + rest) == Decoded(q, |Encode(prev, q)|)
  {
    if prev.key == q.key { DupRoundTrip(prev, q, rest); } else { NewRoundTrip(prev, q, rest); }
  }

  // ---------- chunks ----------

  type Run = r: seq<Pair> | r != [] witness [Pair([], [])]

  /** What the underlying B-tree stores for one run: the first key, and a
      buffer with the first data and the prefix-coded rest. */
  datatype Chunk = Chunk(key: Item, buf: Bytes)

  function Marshal(data: Item): (s: Bytes)
    ensures |s| == CountInt(|data|) + |data|
  {
    CompressInt(|data|) + data
  }

  function EncodeRun(run: Run): (s: Bytes)
    ensures |s| > 0
    decreases |run|
  {
    var n := |run|;
    if n == 1 then Marshal(run[0].data)
    else EncodeRun(run[..n - 1]) + Encode(run[n - 2], run[n - 1])
  }

  function ChunkOf(run: Run): Chunk {
    Chunk(run[0].key, EncodeRun(run))
  }

  /** Reads the data that opens a chunk's buffer. */
  function Unmarshal(s: Bytes): (r: Decoded)
    ensures r.Decoded? ==> 0 < r.used <= |s|
  {
    var a := ReadLength(s, 0);
    if a.Short? || a.next + a.value > |s| then Invalid
    else Decoded(Pair([], s[a.next..a.next + a.value]), a.next + a.value)
  }

  lemma {:induction false} UnmarshalMarshal(data: Item, rest: Bytes)
    ensures Unmarshal(Marshal(data) + rest) == Decoded(Pair([], data), |Marshal(data)|)
  {
    var s := Marshal(data) + rest;
    assert s[0..] == CompressInt(|data|) + (data + rest);
    ReadsLength(s, 0, |data|, data + rest);
  }

  /** All pairs coded in `s` after `prev`; None when some entry is malformed. */
  datatype Decoding = Pairs(pairs: seq<Pair>) | Malformed

  function DecodeRest(prev: Pair, s: Bytes): Decoding
    decreases |s|
  {
    if s == [] then Pairs([])
    else
      var r := Decode(prev, s);
      if r.Invalid? then Malformed
      else
        var t := DecodeRest(r.pair, s[r.used..]);
        if t.Malformed? then Malformed else Pairs([r.pair] + t.pairs)
  }

  function DecodeChunk(c: Chunk): Decoding {
    var r := Unmarshal(c.buf);
    if r.Invalid? then Malformed
    else
      var first := Pair(c.key, r.pair.data);
      var t := DecodeRest(first, c.buf[r.used..]);
      if t.Malformed? then Malformed else Pairs([first] + t.pairs)
  }

  /** The encodings of `run[i..]`, each against its predecessor. */
  function EncodeFrom(run: Run, i: nat): Bytes
    requires 1 <= i <= |run|
    decreases |run| - i
  {
    if i == |run| then [] else Encode(run[i - 1], run[i]) + EncodeFrom(run, i + 1)
  }

  /** Every buffer splits at every entry boundary. */
  lemma {:induction false} EncodeRunSplit(run: Run, i: nat)
    requires 1 <= i <= |run|
    ensures EncodeRun(run) == EncodeRun(run[..i]) + EncodeFrom(run, i)
    decreases |run| - i
  {
    hide Encode, Marshal;
    if i == |run| {
      assert run[..i] == run;
    } else {
      EncodeRunSplit(run, i + 1);
      assert run[..i + 1][..i] == run[..i];
      calc {
        EncodeRun(run);
        EncodeRun(run[..i + 1]) + EncodeFrom(run, i + 1);
        (EncodeRun(run[..i]) + Encode(run[i - 1], run[i])) + EncodeFrom(run, i + 1);
        EncodeRun(run[..i]) + (Encode(run[i - 1], run[i]) + EncodeFrom(run, i + 1));
        EncodeRun(run[..i]) + EncodeFrom(run, i);
      }
    }
  }

  lemma {:induction false} DecodeRestRoundTrip(run: Run, i: nat)
    requires 1 <= i <= |run|
    ensures DecodeRest(run[i - 1], EncodeFrom(run, i)) == Pairs(run[i..])
    decreases |run| - i
  {
    hide Encode, Decode;
    if i < |run| {
      var s := EncodeFrom(run, i);
      PairRoundTrip(run[i - 1], run[i], EncodeFrom(run, i + 1));
      assert s[|Encode(run[i - 1], run[i])|..] == EncodeFrom(run, i + 1);
      DecodeRestRoundTrip(run, i + 1);
      assert run[i..] == [run[i]] + run[i + 1..];
    }
  }

  /** A stored run decompresses to the same run. */
  lemma {:induction false} ChunkRoundTrip(run: Run)
    ensures DecodeChunk(ChunkOf(run)) == Pairs(run)
  {
    hide Encode, Marshal, CompressInt, CountInt, Unmarshal, DecodeRest;
    EncodeRunSplit(run, 1);
    var m := Marshal(run[0].data);
    assert EncodeRun(run[..1]) == m;
    UnmarshalMarshal(run[0].data, EncodeFrom(run, 1));
    assert EncodeRun(run)[|m|..] == EncodeFrom(run, 1);
    DecodeRestRoundTrip(run, 1);
    assert run == [run[0]] + run[1..];
  }

  /** Two runs never share a chunk. */
  lemma {:induction false} ChunkInjective(a: Run, b: Run)
    requires ChunkOf(a) == ChunkOf(b)
    ensures a == b
  {
    ChunkRoundTrip(a);
    ChunkRoundTrip(b);
  }

  // ---------- deleting entries never lengthens a chunk ----------

  /** Coding `z` against a farther predecessor costs at most the entry skipped. */
  lemma {:induction false} SharedTriangle(x: Bytes, y: Bytes, z: Bytes)
    ensures SharedSize(x, z) <= SharedSize(x, y) + SharedSize(y, z)
    ensures SharedSize(x, z) + 1 <= SharedSize(x, y) + SharedSize(y, z)
  {
    hide CountInt, Lcp;
    var xz, yz, xy := Lcp(z, x), Lcp(z, y), Lcp(y, x);
    LcpUltrametric(z, y, x);
    if xz >= yz {
      CountGrowth(yz, xz - yz);
      CountMonotone(|z| - xz, |z| - yz);
    } else {
      CountMonotone(xz, yz);
      CountMonotone(yz - xz, |y| - xy);
      CountSubadditive(|z| - yz, yz - xz);
    }
  }

  /** Storing `z` whole instead of against `y` costs at most storing `y` whole. */
  lemma {:induction false} WholeBound(y: Bytes, z: Bytes)
    ensures CountInt(|z|) + |z| <= CountInt(|y|) + |y| + SharedSize(y, z)
  {
    var p := Lcp(z, y);
    CountSubadditive(p, |z| - p);
    CountMonotone(p, |y|);
    if p > 0 { CountMonotone(p, |y|); }
  }

  /** Prefix-coding `z` costs at most two bytes over storing it whole. */
  lemma {:induction false} SharedBound(y: Bytes, z: Bytes)
    ensures SharedSize(y, z) <= 1 + CountInt(|z|) + |z|
  {
    var p := Lcp(z, y);
    CountMonotone(|z| - p, |z|);
  }

  lemma {:induction false} EncodeTriangle(x: Pair, y: Pair, z: Pair)
    ensures |Encode(x, z)| <= |Encode(x, y)| + |Encode(y, z)|
  {
    hide CountInt, Lcp, SharedSize, EncodeDup, EncodeNew;
    if x.key == y.key == z.key {
      SharedTriangle(x.data, y.data, z.data);
    } else if x.key == z.key {
      SharedBound(x.data, z.data);
    } else if y.key == z.key {
      WholeBound(y.data, z.data);
    } else if x.key != y.key {
      SharedTriangle(x.key, y.key, z.key);
    }
  }

  function Gap(x: Pair, y: Pair): nat {
    if x == y then 0 else |Encode(x, y)|
  }

  /** `sub` is `run` with some entries deleted. */
  predicate Subsequence(sub: seq<Pair>, run: seq<Pair>)
    decreases |run|
  {
    sub == [] ||
    (run != [] &&
     var init := run[..|run| - 1];
     || (sub[|sub| - 1] == run[|run| - 1] && Subsequence(sub[..|sub| - 1], init))
     || Subsequence(sub, init))
  }

  lemma {:induction false} LastWholeBound(run: Run)
    ensures |Marshal(run[|run| - 1].data)| <= |EncodeRun(run)|
    decreases |run|
  {
    hide CountInt, Lcp, SharedSize, Marshal, EncodeDup, EncodeNew;
    var n := |run|;
    if n > 1 {
      LastWholeBound(run[..n - 1]);
      var y, z := run[n - 2], run[n - 1];
      if y.key == z.key { WholeBound(y.data, z.data); }
    }
  }

  lemma {:induction false} DeletionGap(sub: Run, run: Run)
    requires Subsequence(sub, run)
    ensures |EncodeRun(sub)| + Gap(sub[|sub| - 1], run[|run| - 1]) <= |EncodeRun(run)|
    decreases |run|
  {
    hide Marshal, Encode;
    var n, m := |run|, |sub|;
    var init := run[..n - 1];
    var z := run[n - 1];
    if sub[m - 1] == z && Subsequence(sub[..m - 1], init) {
      LastWholeBound(run);
      if m > 1 {
        DeletionGap(sub[..m - 1], init);
        EncodeTriangle(sub[m - 2], run[n - 2], z);
      }
    } else {
      DeletionGap(sub, init);
      EncodeTriangle(sub[m - 1], run[n - 2], z);
    }
  }

  /** Deleting any entries of a chunk never makes its buffer longer: no order
      of the entries is assumed. */
  lemma {:induction false} DeletionNeverGrows(sub: Run, run: Run)
    requires Subsequence(sub, run)
    ensures |EncodeRun(sub)| <= |EncodeRun(run)|
  {
    DeletionGap(sub, run);
  }
}
