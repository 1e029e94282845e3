/** What looking up a key or a pair in a compressed B-tree means. */
module BtreeSearch {
  import opened ByteStrings
  import opened IntCodec
  import opened PairCodec
  import opened SortedPairs
  import opened BtreeSteps

  /** What is looked for, as the comparison functions of the table see it: each compares
      a key or its data with what is looked for. Data may be missing, and a table without
      sorted duplicates does not compare it. */
  datatype Sought = Sought(keyCmp: Item -> int, dataCmp: Item -> int, dupsort: bool, hasData: bool, data: Item)

  datatype GetMethod = Set | SetRange | GetBoth | GetBothRange

  function CompareKey(s: Sought, key: Item): int {
    s.keyCmp(key)
  }

  /** Data comes after missing data. */
  function CompareBoth(s: Sought, p: Pair): int {
    var k := CompareKey(s, p.key);
    if k != 0 then k else if !s.dupsort then 0 else if !s.hasData then 1 else s.dataCmp(p.data)
  }

  /** The look-up goes by key alone in a table that has duplicates. */
  predicate ByKey(s: Sought) {
    s.dupsort && !s.hasData
  }

  /** What the seek in the underlying B-tree compares with. */
  function SeekCompare(s: Sought, p: Pair): int {
    if ByKey(s) then CompareKey(s, p.key) else CompareBoth(s, p)
  }

  /** The comparisons agree with the order of the table. */
  ghost predicate Agrees(ord: Order, s: Sought) {
    && (forall p, q :: Rank(ord, p) <= Rank(ord, q) && CompareKey(s, q.key) <= 0 ==> CompareKey(s, p.key) <= 0)
    && (forall p, q :: Rank(ord, p) < Rank(ord, q) && CompareBoth(s, q) <= 0 ==> CompareBoth(s, p) < 0)
  }

  /** The first entry that is not before what is looked for. */
  function LowerBound(s: Sought, t: seq<Pair>): (f: nat)
    ensures f <= |t| && forall i :: 0 <= i < f ==> CompareBoth(s, t[i]) < 0
    ensures f < |t| ==> CompareBoth(s, t[f]) >= 0
  {
    if t == [] || CompareBoth(s, t[0]) >= 0 then 0 else 1 + LowerBound(s, t[1..])
  }

  lemma {:induction false} LowerBoundUnique(s: Sought, t: seq<Pair>, f: nat)
    requires f <= |t| && forall i :: 0 <= i < f ==> CompareBoth(s, t[i]) < 0
    requires f < |t| ==> CompareBoth(s, t[f]) >= 0
    ensures LowerBound(s, t) == f
  {
    hide CompareBoth;
  }

  /** Whether the entry found is what the method asks for. */
  predicate Accepts(m: GetMethod, s: Sought, p: Pair) {
    match m
    case Set => CompareKey(s, p.key) == 0
    case GetBothRange => CompareKey(s, p.key) == 0
    case GetBoth => CompareBoth(s, p) == 0 && (s.dupsort || p.data == s.data)
    case SetRange => true
  }

  /** What a look-up reports, and the entry it finds. */
  function LookUp(m: GetMethod, s: Sought, t: seq<Pair>): (r: Place)
    ensures r.On? ==> r.i < |t|
  {
    var f := LowerBound(s, t);
    if f < |t| && Accepts(m, s, t[f]) then On(f) else Fresh
  }

  /** A look-up succeeds if and only if the table holds an entry, not before what is
      looked for, that the method asks for; and it then finds the first of them. */
  lemma {:induction false} LookUpMeans(ord: Order, m: GetMethod, s: Sought, t: seq<Pair>)
    requires Agrees(ord, s) && Sorted(ord, t)
    ensures LookUp(m, s, t).On? <==> exists i :: 0 <= i < |t| && CompareBoth(s, t[i]) >= 0 && Accepts(m, s, t[i])
    ensures LookUp(m, s, t).On? ==>
      var f := LookUp(m, s, t).i;
      && f < |t| && CompareBoth(s, t[f]) >= 0 && Accepts(m, s, t[f])
      && forall i :: 0 <= i < f ==> CompareBoth(s, t[i]) < 0
  {
    var f := LowerBound(s, t);
    forall i | 0 <= i < |t| && CompareBoth(s, t[i]) >= 0 && Accepts(m, s, t[i])
      ensures f <= i && Accepts(m, s, t[f])
    {
      if f < i { AcceptsEarlier(ord, m, s, t[f], t[i]); }
    }
  }

  lemma {:induction false} AcceptsEarlier(ord: Order, m: GetMethod, s: Sought, p: Pair, q: Pair)
    requires Agrees(ord, s) && Rank(ord, p) < Rank(ord, q)
    requires CompareBoth(s, p) >= 0 && CompareBoth(s, q) >= 0 && Accepts(m, s, q)
    ensures Accepts(m, s, p)
  {
    assert CompareBoth(s, q) > 0;
  }

  /** DB_SET drops the data of what is looked for, and so does DB_SET_RANGE. */
  function Seeking(m: GetMethod, s: Sought): Sought {
    s.(hasData := m.GetBoth? || m.GetBothRange?)
  }

  /** By key alone, no entry with the key is before what is looked for. */
  lemma KeyAlone(s: Sought, p: Pair)
    requires !s.hasData
    ensures CompareBoth(s, p) < 0 <==> s.keyCmp(p.key) < 0
  {}

  /** DB_SET finds the first entry with the key, if there is any. */
  lemma {:induction false} SetFinds(ord: Order, s: Sought, t: seq<Pair>)
    requires Agrees(ord, s.(hasData := false)) && Sorted(ord, t)
    ensures var r := LookUp(Set, Seeking(Set, s), t);
      && (r.On? <==> exists i :: 0 <= i < |t| && s.keyCmp(t[i].key) == 0)
      && (r.On? ==> r.i < |t| && s.keyCmp(t[r.i].key) == 0 && forall i :: 0 <= i < r.i ==> s.keyCmp(t[i].key) != 0)
  {
    LookUpMeans(ord, Set, Seeking(Set, s), t);
  }

  /** DB_SET_RANGE finds the first entry whose key is not before the one looked for. */
  lemma {:induction false} SetRangeFinds(ord: Order, s: Sought, t: seq<Pair>)
    requires Agrees(ord, s.(hasData := false)) && Sorted(ord, t)
    ensures var r := LookUp(SetRange, Seeking(SetRange, s), t);
      && (r.On? <==> exists i :: 0 <= i < |t| && s.keyCmp(t[i].key) >= 0)
      && (r.On? ==> r.i < |t| && s.keyCmp(t[r.i].key) >= 0 && forall i :: 0 <= i < r.i ==> s.keyCmp(t[i].key) < 0)
  {
    LookUpMeans(ord, SetRange, Seeking(SetRange, s), t);
    forall i | 0 <= i < |t| { KeyAlone(Seeking(SetRange, s), t[i]); }
    hide CompareBoth, Agrees, Sorted, LookUp;
  }

  /** DB_GET_BOTH finds the entry that is the pair, where a table without sorted
      duplicates asks for the very bytes of the data. */
  lemma {:induction false} GetBothFinds(ord: Order, s: Sought, t: seq<Pair>)
    requires Agrees(ord, s.(hasData := true)) && Sorted(ord, t)
    ensures var r := LookUp(GetBoth, Seeking(GetBoth, s), t);
      && (r.On? <==> exists i :: 0 <= i < |t| && s.keyCmp(t[i].key) == 0
                                 && if s.dupsort then s.dataCmp(t[i].data) == 0 else t[i].data == s.data)
      && (r.On? ==> r.i < |t| && s.keyCmp(t[r.i].key) == 0
                    && if s.dupsort then s.dataCmp(t[r.i].data) == 0 else t[r.i].data == s.data)
  {
    LookUpMeans(ord, GetBoth, Seeking(GetBoth, s), t);
  }

  /** DB_GET_BOTH_RANGE finds the first entry with the key whose data is not before the
      data looked for, where only a table with sorted duplicates compares data. */
  lemma {:induction false} GetBothRangeFinds(ord: Order, s: Sought, t: seq<Pair>)
    requires Agrees(ord, s.(hasData := true)) && Sorted(ord, t)
    ensures var r := LookUp(GetBothRange, Seeking(GetBothRange, s), t);
      && (r.On? <==> exists i :: 0 <= i < |t| && s.keyCmp(t[i].key) == 0 && (s.dupsort ==> s.dataCmp(t[i].data) >= 0))
      && (r.On? ==> r.i < |t| && s.keyCmp(t[r.i].key) == 0 && (s.dupsort ==> s.dataCmp(t[r.i].data) >= 0)
                    && forall i :: 0 <= i < r.i ==>
                         !(s.keyCmp(t[i].key) == 0 && (s.dupsort ==> s.dataCmp(t[i].data) >= 0)))
  {
    LookUpMeans(ord, GetBothRange, Seeking(GetBothRange, s), t);
  }

  // ---------- the seek ----------

  /** The first of the chunks that is not before what is looked for. */
  function FirstNotBefore(s: Sought, firsts: seq<Pair>): (k: nat)
    ensures k <= |firsts| && forall i :: 0 <= i < k ==> SeekCompare(s, firsts[i]) < 0
    ensures k < |firsts| ==> SeekCompare(s, firsts[k]) >= 0
  {
    if firsts == [] || SeekCompare(s, firsts[0]) >= 0 then 0 else 1 + FirstNotBefore(s, firsts[1..])
  }

  /** Where the underlying B-tree's seek ends: on the first chunk that compares equal, or
      else on the last one before; -1 when there is none. */
  function LandsOn(s: Sought, firsts: seq<Pair>): (j: int)
    ensures -1 <= j < |firsts|
  {
    var k := FirstNotBefore(s, firsts);
    if k < |firsts| && SeekCompare(s, firsts[k]) == 0 then k else k - 1
  }

  /** Where the search starts: one chunk earlier when the chunk found starts with the
      key looked for, because the one before may end with it. */
  function StartsAt(s: Sought, firsts: seq<Pair>): (j: int)
    ensures firsts != [] ==> 0 <= j < |firsts|
  {
    var j := LandsOn(s, firsts);
    if j <= 0 then 0 else if ByKey(s) && CompareKey(s, firsts[j].key) == 0 then j - 1 else j
  }

  /** Nothing before the chunk where the search starts is what is looked for. */
  lemma {:induction false} StartSkips(ord: Order, chunks: seq<Chunk>, runs: seq<Run>, limit: nat, s: Sought)
    requires StoredAs(chunks, runs, limit) && Sorted(ord, Flatten(runs)) && Agrees(ord, s) && runs != []
    ensures var l := |Flatten(runs[..StartsAt(s, Firsts(chunks))])|;
      l < |Flatten(runs)| && forall i :: 0 <= i < l ==> CompareBoth(s, Flatten(runs)[i]) < 0
  {
    hide Rank, EncodeRun, Unmarshal, FirstOf;
    var j := StartsAt(s, Firsts(chunks));
    FirstOfChunk(runs[j]);
    PlaceInRuns(runs, j, 0);
    var l := |Flatten(runs[..j])|;
    if j == 0 {
      assert l == 0;
    } else {
      StartNotAfter(s, Firsts(chunks));
      forall i | 0 <= i < l ensures CompareBoth(s, Flatten(runs)[i]) < 0 {
        assert Rank(ord, Flatten(runs)[i]) < Rank(ord, Flatten(runs)[l]);
      }
    }
  }

  lemma {:induction false} StartNotAfter(s: Sought, firsts: seq<Pair>)
    requires StartsAt(s, firsts) > 0
    ensures CompareBoth(s, firsts[StartsAt(s, firsts)]) <= 0
  {}

  /** By key alone, the search starts one chunk before the first that starts with the key
      or after it, if there is one before it. */
  lemma {:induction false} StartsBefore(s: Sought, firsts: seq<Pair>, k: nat)
    requires s.dupsort && !s.hasData && 0 < k <= |firsts|
    requires forall i :: 0 <= i < k ==> s.keyCmp(firsts[i].key) < 0
    requires k < |firsts| ==> s.keyCmp(firsts[k].key) >= 0
    ensures StartsAt(s, firsts) == k - 1
  {
    FirstNotBeforeUnique(s, firsts, k);
  }

  lemma {:induction false} FirstNotBeforeUnique(s: Sought, firsts: seq<Pair>, k: nat)
    requires k <= |firsts| && forall i :: 0 <= i < k ==> SeekCompare(s, firsts[i]) < 0
    requires k < |firsts| ==> SeekCompare(s, firsts[k]) >= 0
    ensures FirstNotBefore(s, firsts) == k
  {
    hide SeekCompare;
  }

  /** For a whole pair, the seek ends where the merges' seek does, and the search starts
      there. */
  lemma {:induction false} LandsLte(ord: Order, s: Sought, firsts: seq<Pair>, e: Pair)
    requires (s.hasData || !s.dupsort) && Sorted(ord, firsts)
    requires forall p :: CompareBoth(s, p) <= 0 <==> Rank(ord, p) <= Rank(ord, e)
    requires forall p :: CompareBoth(s, p) < 0 <==> Rank(ord, p) < Rank(ord, e)
    ensures var j := SeekLte(ord, firsts, e, |firsts|);
      LandsOn(s, firsts) == j && StartsAt(s, firsts) == if j < 0 then 0 else j
  {
    hide CompareBoth, Rank;
    var k, j := FirstNotBefore(s, firsts), SeekLte(ord, firsts, e, |firsts|);
    if k < |firsts| {
      assert SeekCompare(s, firsts[k]) == 0 <==> Rank(ord, firsts[k]) == Rank(ord, e);
      assert j >= 0 ==> Rank(ord, firsts[j]) <= Rank(ord, e);
    }
    if k > 0 { assert SeekCompare(s, firsts[k - 1]) < 0; }
  }
}
