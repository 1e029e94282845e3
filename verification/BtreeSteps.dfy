/** What the compressed B-tree is made of, and what single steps of its merges and
    walks do to sequences of pairs. */
module BtreeSteps {
  import opened ByteStrings
  import opened IntCodec
  import opened PairCodec
  import opened SortedPairs

  datatype Status = Ok | NotFound | KeyExist | BufferSmall | Corrupt

  /** The buffers a pair pointer can name: the cursor's two decompression slots,
      the two input slots of a merge, and the delete merge's private copy. */
  datatype Dbt = Null | Key1 | Key2 | Ikey1 | Ikey2 | Pdest

  /** The entry that follows the chunk being merged. */
  datatype Next = NoNext | NextAt(first: Pair)

  ghost predicate IsNext(next: Next, ahead: seq<Pair>) {
    if ahead == [] then next == NoNext else next == NextAt(ahead[0])
  }

  // ---------- the underlying B-tree: chunks ordered by first entry ----------

  function FirstOf(c: Chunk): Pair {
    var r := Unmarshal(c.buf);
    Pair(c.key, if r.Invalid? then [] else r.pair.data)
  }

  lemma {:induction false} FirstOfChunk(run: Run)
    ensures FirstOf(ChunkOf(run)) == run[0]
  {
    hide Marshal, Unmarshal;
    EncodeRunSplit(run, 1);
    assert EncodeRun(run[..1]) == Marshal(run[0].data);
    UnmarshalMarshal(run[0].data, EncodeFrom(run, 1));
  }

  function Firsts(chunks: seq<Chunk>): (s: seq<Pair>)
    ensures |s| == |chunks|
  {
    seq(|chunks|, i requires 0 <= i < |chunks| => FirstOf(chunks[i]))
  }

  /** The last of the first `n` entries that is at or before `e`, or -1. */
  function SeekLte(ord: Order, firsts: seq<Pair>, e: Pair, n: nat): (j: int)
    requires n <= |firsts|
    ensures -1 <= j < n
    ensures j >= 0 ==> Rank(ord, firsts[j]) <= Rank(ord, e)
    ensures forall k :: j < k < n ==> Rank(ord, e) < Rank(ord, firsts[k])
  {
    if n == 0 then -1
    else if Rank(ord, firsts[n - 1]) <= Rank(ord, e) then n - 1
    else SeekLte(ord, firsts, e, n - 1)
  }

  /** The first entry from `n` on that is not before `e`. */
  function Position(ord: Order, firsts: seq<Pair>, e: Pair, n: nat): (k: nat)
    requires n <= |firsts|
    ensures n <= k <= |firsts|
    ensures forall i :: n <= i < k ==> Rank(ord, firsts[i]) < Rank(ord, e)
    ensures k < |firsts| ==> Rank(ord, e) <= Rank(ord, firsts[k])
    decreases |firsts| - n
  {
    if n == |firsts| || Rank(ord, e) <= Rank(ord, firsts[n]) then n
    else Position(ord, firsts, e, n + 1)
  }

  /** The B-tree's own put: in order, over an entry that compares equal. */
  function PutChunk(ord: Order, chunks: seq<Chunk>, c: Chunk): seq<Chunk> {
    var k := Position(ord, Firsts(chunks), FirstOf(c), 0);
    if k < |chunks| && Rank(ord, Firsts(chunks)[k]) == Rank(ord, FirstOf(c)) then chunks[k := c]
    else chunks[..k] + [c] + chunks[k..]
  }

  // ---------- run arithmetic ----------

  /** Offset at which the encoding of `run[i]` ends in its chunk's buffer. */
  ghost function EndOf(run: Run, i: nat): (n: nat)
    requires i < |run|
    ensures n > 0
  {
    |EncodeRun(run[..i + 1])|
  }

  /** Offset at which it starts; 0 stands for the chunk's opening entry. */
  ghost function StartOf(run: Run, i: nat): nat
    requires i < |run|
  {
    if i == 0 then 0 else EndOf(run, i - 1)
  }

  /** What is left of the buffer after an entry. */
  lemma {:induction false} EntryAt(run: Run, i: nat)
    requires i < |run|
    ensures EndOf(run, i) <= |EncodeRun(run)|
    ensures EncodeRun(run)[EndOf(run, i)..] == EncodeFrom(run, i + 1)
    ensures i + 1 < |run| ==> EndOf(run, i + 1) == EndOf(run, i) + |Encode(run[i], run[i + 1])|
    ensures i + 1 < |run| ==> EndOf(run, i) < |EncodeRun(run)|
  {
    hide Rank, Encode, Marshal;
    EncodeRunSplit(run, i + 1);
    if i + 1 < |run| { assert run[..i + 2][..i + 1] == run[..i + 1]; }
  }

  /** Storing one more pair appends its encoding. */
  lemma {:induction false} EncodeRunStep(s: seq<Pair>, x: Pair)
    ensures s == [] ==> s + [x] == [x] && EncodeRun(s + [x]) == Marshal(x.data)
    ensures s != [] ==> EncodeRun(s + [x]) == EncodeRun(s) + Encode(s[|s| - 1], x)
  {
    hide Rank, Encode, Marshal;
    var d := s + [x];
    assert d[..|d| - 1] == s;
  }

  ghost predicate Fits(run: Run, limit: nat) {
    |EncodeRun(run)| <= limit || |run| == 1
  }

  ghost predicate StoredAs(chunks: seq<Chunk>, runs: seq<Run>, limit: nat) {
    |chunks| == |runs| &&
    forall i :: 0 <= i < |runs| ==> chunks[i] == ChunkOf(runs[i]) && Fits(runs[i], limit)
  }

  lemma {:induction false} StoredInserted(chunks: seq<Chunk>, runs: seq<Run>, limit: nat, lo: nat, d: Run)
    requires StoredAs(chunks, runs, limit) && lo <= |runs| && Fits(d, limit)
    ensures StoredAs(chunks[..lo] + [ChunkOf(d)] + chunks[lo..], runs[..lo] + [d] + runs[lo..], limit)
  {
    hide Fits, ChunkOf;
  }

  /** A chunk that belongs between two others is put there. */
  lemma {:induction false} PutBetween(ord: Order, chunks: seq<Chunk>, c: Chunk, lo: nat)
    requires lo <= |chunks|
    requires forall k :: 0 <= k < |chunks| ==>
      if k < lo then Rank(ord, Firsts(chunks)[k]) < Rank(ord, FirstOf(c))
      else Rank(ord, FirstOf(c)) < Rank(ord, Firsts(chunks)[k])
    ensures PutChunk(ord, chunks, c) == chunks[..lo] + [c] + chunks[lo..]
  {
    hide Rank, FirstOf, Firsts, Position;
    PositionIs(ord, Firsts(chunks), FirstOf(c), 0, lo);
  }

  lemma {:induction false} PositionIs(ord: Order, firsts: seq<Pair>, e: Pair, n: nat, lo: nat)
    requires n <= lo <= |firsts|
    requires forall k :: 0 <= k < |firsts| ==>
      if k < lo then Rank(ord, firsts[k]) < Rank(ord, e) else Rank(ord, e) < Rank(ord, firsts[k])
    ensures Position(ord, firsts, e, n) == lo
    decreases lo - n
  {
    hide Rank;
    if n < lo { PositionIs(ord, firsts, e, n + 1, lo); }
  }

  lemma {:induction false} StoredFirst(chunks: seq<Chunk>, runs: seq<Run>, limit: nat, k: nat)
    requires StoredAs(chunks, runs, limit) && k < |runs|
    ensures k < |chunks| && Firsts(chunks)[k] == runs[k][0]
  {
    hide FirstOf, ChunkOf, Fits;
    FirstOfChunk(runs[k]);
  }

  /** The stored runs start before or after one that belongs between them. */
  lemma {:induction false} FirstsAround(ord: Order, runs: seq<Run>, lo: nat, d: Run, x: seq<Pair>, k: nat)
    requires lo <= |runs| && k < |runs|
    requires Sorted(ord, Flatten(runs[..lo]) + d + x + Flatten(runs[lo..]))
    ensures if k < lo then Rank(ord, runs[k][0]) < Rank(ord, d[0]) else Rank(ord, d[0]) < Rank(ord, runs[k][0])
  {
    hide Rank, Flatten;
    var l, t := Flatten(runs[..lo]), Flatten(runs[lo..]);
    var all := l + d + x + t;
    assert all[|l|] == d[0];
    if k < lo {
      FirstsInFlatten(runs[..lo], k);
      var i :| 0 <= i < |l| && l[i] == runs[k][0];
      assert all[i] == l[i];
    } else {
      FirstsInFlatten(runs[lo..], k - lo);
      var i :| 0 <= i < |t| && t[i] == runs[k][0];
      assert all[|l| + |d| + |x| + i] == t[i];
    }
  }

  /** A pending run has one place among the stored ones. */
  lemma {:induction false} PlaceOf(ord: Order, chunks: seq<Chunk>, runs: seq<Run>, limit: nat, lo: nat,
                d: Run, x: seq<Pair>)
    requires StoredAs(chunks, runs, limit) && lo <= |runs| && Fits(d, limit)
    requires Sorted(ord, Flatten(runs[..lo]) + d + x + Flatten(runs[lo..]))
    ensures |chunks| == |runs| && PutChunk(ord, chunks, ChunkOf(d)) == chunks[..lo] + [ChunkOf(d)] + chunks[lo..]
    ensures StoredAs(chunks[..lo] + [ChunkOf(d)] + chunks[lo..], runs[..lo] + [d] + runs[lo..], limit)
  {
    StoredInserted(chunks, runs, limit, lo, d);
    FirstOfChunk(d);
    assert |chunks| == |runs|;
    hide *;
    forall k | 0 <= k < |runs|
      ensures k < |chunks| && Firsts(chunks)[k] == runs[k][0]
      ensures if k < lo then Rank(ord, runs[k][0]) < Rank(ord, d[0]) else Rank(ord, d[0]) < Rank(ord, runs[k][0])
    {
      StoredFirst(chunks, runs, limit, k);
      FirstsAround(ord, runs, lo, d, x, k);
    }
    PutBetween(ord, chunks, ChunkOf(d), lo);
  }

  /** Run `j` may hold `e`: it starts at or before it, and the runs around it cannot. */
  ghost predicate SplitAt(ord: Order, runs: seq<Run>, j: nat, e: Pair) {
    && j < |runs| && Rank(ord, runs[j][0]) <= Rank(ord, e)
    && Below(ord, Flatten(runs[..j]), e) && Above(ord, Flatten(runs[j + 1..]), e)
    && Flatten(runs) == Flatten(runs[..j]) + runs[j] + Flatten(runs[j + 1..])
  }

  /** Seeking splits the contents around the chunk that may hold `e`. */
  lemma {:induction false} SeekSplits(ord: Order, chunks: seq<Chunk>, runs: seq<Run>, limit: nat, e: Pair, j: int)
    requires StoredAs(chunks, runs, limit) && Sorted(ord, Flatten(runs))
    requires j == SeekLte(ord, Firsts(chunks), e, |chunks|)
    ensures if j >= 0 then SplitAt(ord, runs, j, e) else Above(ord, Flatten(runs[0..]), e)
  {
    hide Rank, EncodeRun, Unmarshal, FirstOf;
    forall k | 0 <= k < |runs| ensures Firsts(chunks)[k] == runs[k][0] { FirstOfChunk(runs[k]); }
    AboveAfter(ord, runs, j + 1, e);
    if j >= 0 {
      FlattenAround(runs, j);
      var b := Flatten(runs[..j]);
      forall i | 0 <= i < |b| ensures Rank(ord, b[i]) < Rank(ord, e) {
        assert Flatten(runs)[i] == b[i] && Flatten(runs)[|b|] == runs[j][0];
      }
    }
  }

  /** A place in the flattened contents: nowhere yet, on an entry, or in the gap
      before entry `i` left by a deletion. */
  datatype Place = Fresh | On(i: nat) | Gap(i: nat)

  function NextPlace(n: nat, p: Place): (Place, Status) {
    match p
    case Fresh => if n > 0 then (On(0), Ok) else (Fresh, NotFound)
    case On(i) => if i + 1 < n then (On(i + 1), Ok) else (Fresh, NotFound)
    case Gap(i) => if i < n then (On(i), Ok) else (p, NotFound)
  }

  function PrevPlace(n: nat, p: Place): (Place, Status) {
    match p
    case Fresh => if n > 0 then (On(n - 1), Ok) else (Fresh, NotFound)
    case On(i) => if i > 0 then (On(i - 1), Ok) else (p, NotFound)
    case Gap(i) =>
      if i > 0 then (On(i - 1), Ok) else if n > 0 then (On(0), NotFound) else (Fresh, NotFound)
  }

  datatype Step = Next | Prev

  function OneStep(n: nat, p: Place, step: Step): (Place, Status) {
    if step == Next then NextPlace(n, p) else PrevPlace(n, p)
  }

  /** The index semantics of a sequence of steps. */
  function WalkPlaces(n: nat, p: Place, steps: seq<Step>): (r: (Place, seq<Status>))
    ensures |r.1| == |steps|
  {
    if steps == [] then (p, [])
    else
      var last := |steps| - 1;
      var (q, rets) := WalkPlaces(n, p, steps[..last]);
      var (r, ret) := OneStep(n, q, steps[last]);
      (r, rets + [ret])
  }

  function Repeat(step: Step, k: nat): (s: seq<Step>)
    ensures |s| == k
  {
    if k == 0 then [] else Repeat(step, k - 1) + [step]
  }

  /** One step more of the same kind. */
  lemma {:induction false} WalkMore(n: nat, p: Place, step: Step, k: nat)
    ensures var (q, rets) := WalkPlaces(n, p, Repeat(step, k));
      var (r, ret) := OneStep(n, q, step);
      WalkPlaces(n, p, Repeat(step, k + 1)) == (r, rets + [ret])
    ensures WalkPlaces(n, p, Repeat(step, 0)) == (p, [])
  {
    assert Repeat(step, k + 1)[..k] == Repeat(step, k);
    hide NextPlace, PrevPlace;
  }

  /** A scan from nowhere visits every entry in order, then reports the end. */
  lemma {:induction false} FullScan(n: nat, k: nat)
    ensures var (p, rets) := WalkPlaces(n, Fresh, Repeat(Next, k));
      && (k <= n ==> p == (if k == 0 then Fresh else On(k - 1)) && forall i :: 0 <= i < k ==> rets[i] == Ok)
      && (k == n + 1 ==> p == Fresh && rets[n] == NotFound)
  {
    hide WalkPlaces, Repeat;
    if k == 0 {
      WalkMore(n, Fresh, Next, 0);
    } else {
      FullScan(n, k - 1);
      WalkMore(n, Fresh, Next, k - 1);
    }
  }

  /** A scan back from nowhere visits every entry from the last to the first, and then
      reports the end and stays. */
  lemma {:induction false} BackScan(n: nat, k: nat)
    ensures var (p, rets) := WalkPlaces(n, Fresh, Repeat(Prev, k));
      && (k <= n ==> p == (if k == 0 then Fresh else On(n - k)) && forall i :: 0 <= i < k ==> rets[i] == Ok)
      && (k == n + 1 ==> p == (if n == 0 then Fresh else On(0)) && rets[n] == NotFound)
  {
    hide WalkPlaces, Repeat;
    if k == 0 {
      WalkMore(n, Fresh, Prev, 0);
    } else {
      BackScan(n, k - 1);
      WalkMore(n, Fresh, Prev, k - 1);
    }
  }

  /** From the gap that a deletion leaves, a step either way leads where it would have
      led from the entry that was deleted: there is one entry less behind it now. */
  lemma GapIsDeleted(n: nat, i: nat)
    requires i <= n
    ensures var (p, ret) := NextPlace(n + 1, On(i));
      NextPlace(n, Gap(i)).1 == ret && (ret == Ok ==> p.i > 0 && NextPlace(n, Gap(i)).0 == On(p.i - 1))
    ensures var (p, ret) := PrevPlace(n + 1, On(i));
      PrevPlace(n, Gap(i)).1 == ret && (ret == Ok ==> PrevPlace(n, Gap(i)).0 == p)
  {}

  /** Steps forward are undone by as many steps back. */
  lemma {:induction false} Retrace(n: nat, i: nat, k: nat)
    requires i + k < n
    ensures WalkPlaces(n, On(i), Repeat(Next, k)).0 == On(i + k)
    ensures WalkPlaces(n, On(i + k), Repeat(Prev, k)).0 == On(i)
    decreases k
  {
    hide WalkPlaces, Repeat;
    if k == 0 {
      WalkMore(n, On(i), Next, 0);
      WalkMore(n, On(i), Prev, 0);
    } else {
      Retrace(n, i, k - 1);
      Retrace(n, i + 1, k - 1);
      WalkMore(n, On(i), Next, k - 1);
      WalkMore(n, On(i + k), Prev, k - 1);
    }
  }

  /** Where decompression stops when looking for an entry: the end of the chunk, or
      the byte offset where the entry ends. */
  datatype Target = End | Offset(offset: nat)

  lemma {:induction false} EndMonotone(run: Run, i: nat, j: nat)
    requires i < j < |run|
    ensures EndOf(run, i) < EndOf(run, j)
    decreases j
  {
    hide EncodeRun, Encode, EndOf;
    if i < j - 1 { EndMonotone(run, i, j - 1); }
    EntryAt(run, j - 1);
  }

  /** The contents are empty only when there are no chunks. */
  lemma {:induction false} FlattenSize(runs: seq<Run>)
    ensures runs == [] <==> Flatten(runs) == []
    ensures runs != [] ==> |Flatten(runs[..|runs| - 1])| + |runs[|runs| - 1]| == |Flatten(runs)|
  {
    if runs != [] {
      var d := |runs| - 1;
      PlaceInRuns(runs, d, 0);
    }
  }

  /** An entry of a run is the entry of the flattened sequence at the run's offset. */
  lemma {:induction false} PlaceInRuns(runs: seq<Run>, d: nat, a: nat)
    requires d < |runs| && a < |runs[d]|
    ensures var l := |Flatten(runs[..d])|;
      && l + a < |Flatten(runs)| && Flatten(runs)[l + a] == runs[d][a]
      && |Flatten(runs[..d + 1])| == l + |runs[d]|
      && (d + 1 == |runs| ==> |Flatten(runs)| == l + |runs[d]|)
      && (d == 0 ==> l == 0) && (d > 0 ==> |Flatten(runs[..d - 1])| + |runs[d - 1]| == l)
  {
    FlattenAround(runs, d);
    FlattenAround(runs[..d + 1], d);
    assert runs[..d + 1][..d] == runs[..d] && runs[..d + 1][d + 1..] == [];
    assert runs[..|runs|] == runs;
    if d > 0 {
      FlattenAround(runs[..d], d - 1);
      assert runs[..d][..d - 1] == runs[..d - 1] && runs[..d][d..] == [];
    }
  }

  ghost predicate MeetsDelete(ord: Order, goal: Fed, ret: Status, all: seq<Pair>, rest: seq<Pair>) {
    if ret == NotFound then rest == [] && goal == Fed(all, true)
    else ret == Ok && goal == RemoveAll(ord, all, rest)
  }

  lemma RemoveNothing(ord: Order, s: seq<Pair>)
    ensures RemoveAll(ord, s, []) == Fed(s, false)
  {}

  lemma SubsequenceNothing(run: seq<Pair>)
    ensures Subsequence([], run)
  {}

  /** Skipping an entry of the chunk leaves what was kept a part of it. */
  lemma {:induction false} SubsequenceGrows(sub: seq<Pair>, run: Run, at: nat)
    requires at < |run| && Subsequence(sub, run[..at])
    ensures Subsequence(sub, run[..at + 1])
  {
    assert run[..at + 1][..at] == run[..at];
  }

  /** Keeping one more entry of a chunk that fits gives a chunk that fits. */
  lemma {:induction false} KeptFits(pending: seq<Pair>, run: Run, at: nat, limit: nat)
    requires at < |run| && Fits(run, limit) && Subsequence(pending, run[..at])
    ensures Subsequence(pending + [run[at]], run[..at + 1])
    ensures pending == [] || |EncodeRun(pending + [run[at]])| <= limit
  {
    hide Rank, EncodeRun;
    var d, r := pending + [run[at]], run[..at + 1];
    assert d[..|d| - 1] == pending && r[..|r| - 1] == run[..at];
    DeletionNeverGrows(d, r);
    EntryAt(run, at);
    if |run| == 1 { assert run[..at] == []; }
  }

  lemma {:induction false} DeleteKept(ord: Order, goal: Fed, ret: Status, l: seq<Pair>, run: Run, at: nat,
                                      t: seq<Pair>, rest: seq<Pair>)
    requires at < |run| && MeetsDelete(ord, goal, ret, l + run[at..] + t, rest)
    requires Sorted(ord, l + run[at..] + t)
    ensures Sorted(ord, (l + [run[at]]) + run[at + 1..] + t)
    ensures MeetsDelete(ord, goal, ret, (l + [run[at]]) + run[at + 1..] + t, rest)
  {
    SplitEntry(l, run, at, t);
  }

  lemma {:induction false} DeleteFound(ord: Order, goal: Fed, l: seq<Pair>, left: seq<Pair>, t: seq<Pair>,
                                       rest: seq<Pair>)
    requires MeetsDelete(ord, goal, Ok, l + left + t, rest)
    requires rest != [] && left != [] && Sorted(ord, l + left + t)
    requires Below(ord, l, rest[0]) && Rank(ord, left[0]) == Rank(ord, rest[0])
    ensures Sorted(ord, l + left[1..] + t)
    ensures MeetsDelete(ord, goal, Ok, l + left[1..] + t, rest[1..])
  {
    hide RemoveAll;
    var u := left[1..] + t;
    assert l + left + t == l + [left[0]] + u && l + left[1..] + t == l + u;
    StepRemove(ord, l, left[0], u, rest);
  }

  lemma {:induction false} DeleteMissing(ord: Order, goal: Fed, l: seq<Pair>, left: seq<Pair>, t: seq<Pair>,
                                         rest: seq<Pair>)
    requires MeetsDelete(ord, goal, Ok, l + left + t, rest)
    requires rest != [] && Sorted(ord, l + left + t) && Between(ord, l, rest[0], t)
    requires left != [] ==> Rank(ord, rest[0]) < Rank(ord, left[0])
    ensures MeetsDelete(ord, goal, NotFound, l + left + t, [])
  {
    assert l + left + t == l + (left + t);
    SortedTail(ord, l, left + t);
    AboveConcat(ord, left, t, rest[0]);
    StepMissing(ord, l, left + t, rest);
  }

  lemma {:induction false} MissingAll(ord: Order, all: seq<Pair>, l: seq<Pair>, left: seq<Pair>, t: seq<Pair>,
                                      rest: seq<Pair>)
    requires rest != [] && all == l + left + t && left == [] && Between(ord, l, rest[0], t)
    ensures RemoveAll(ord, all, rest) == Fed(all, true)
  {
    assert all == l + t;
    StepMissing(ord, l, t, rest);
  }

  /** Passing a chunk entry on changes nothing, and a stop is recorded as one. */
  lemma {:induction false} KeepStep(ord: Order, goal: Fed, ret: Status, l: seq<Pair>, run: Run, at: nat,
                                    t: seq<Pair>, rest: seq<Pair>, unique: bool, stop: bool)
    requires at < |run| && Meets(ord, goal, ret, l + run[at..] + t, rest, unique)
    requires Sorted(ord, l + run[at..] + t)
    requires stop ==> unique && ret == Ok && rest != [] && Rank(ord, run[at]) == Rank(ord, rest[0])
    ensures Sorted(ord, (l + [run[at]]) + run[at + 1..] + t)
    ensures Meets(ord, goal, if stop then KeyExist else ret, (l + [run[at]]) + run[at + 1..] + t,
                  if stop then [] else rest, unique)
  {
    hide InsertAll, Sorted;
    SplitEntry(l, run, at, t);
    if stop { StepStop(ord, l, run[at], run[at + 1..] + t, rest); }
  }

  /** Taking the stream's next pair, over an equal entry or before a larger one. */
  lemma {:induction false} TakeStep(ord: Order, goal: Fed, l: seq<Pair>, left: seq<Pair>, t: seq<Pair>,
                                    rest: seq<Pair>, unique: bool, over: bool)
    requires Meets(ord, goal, Ok, l + left + t, rest, unique)
    requires rest != [] && Sorted(ord, l + left + t) && Between(ord, l, rest[0], t)
    requires if over then left != [] && !unique && Rank(ord, left[0]) == Rank(ord, rest[0])
             else left != [] ==> Rank(ord, rest[0]) < Rank(ord, left[0])
    ensures var left' := if over then left[1..] else left;
      var all := (l + [rest[0]]) + left' + t;
      Sorted(ord, all) && Meets(ord, goal, Ok, all, SkipEqual(ord, rest[0], rest[1..]), unique)
  {
    hide InsertAll, SkipEqual;
    var e := rest[0];
    if over {
      var x, u := left[0], left[1..] + t;
      assert l + left + t == l + [x] + u;
      assert (l + [e]) + left[1..] + t == l + [e] + u;
      StepReplace(ord, l, x, u, rest);
    } else {
      assert l + left + t == l + (left + t);
      assert (l + [e]) + left + t == l + [e] + (left + t);
      SortedTail(ord, l, left + t);
      AboveConcat(ord, left, t, e);
      StepInsert(ord, l, left + t, rest, unique);
    }
  }

  lemma {:induction false} NextRest(ord: Order, stream: seq<Pair>, pos: nat, rest: seq<Pair>)
    requires 1 <= pos <= |stream| && rest == stream[pos - 1..] && Ascending(ord, rest)
    ensures rest[1..] == stream[pos..]
    ensures var r := SkipEqual(ord, rest[0], rest[1..]);
      Ascending(ord, r) && (r != [] ==> Rank(ord, rest[0]) < Rank(ord, r[0]))
  {
    assert [rest[0]] + rest[1..] == rest;
    SkipEqualAscends(ord, rest[0], rest[1..]);
  }

  lemma NextBetween(ord: Order, l: seq<Pair>, e: Pair, f: Pair, t: seq<Pair>)
    requires Below(ord, l, e) && Rank(ord, e) < Rank(ord, f)
    requires Sorted(ord, t) && (t != [] ==> Rank(ord, f) < Rank(ord, t[0]))
    ensures Between(ord, l + [e], f, t)
  {}

  lemma AppendAssociates(a: seq<Pair>, b: seq<Pair>, x: Pair)
    ensures (a + b) + [x] == a + (b + [x])
  {}

  lemma AscendingNothing(ord: Order)
    ensures Ascending(ord, [])
  {}

  lemma BelowAppend(ord: Order, l: seq<Pair>, x: Pair, e: Pair)
    requires Below(ord, l, e)
    ensures Rank(ord, x) < Rank(ord, e) ==> Below(ord, l + [x], e)
  {}

  lemma AboveHead(ord: Order, t: seq<Pair>, e: Pair)
    requires Sorted(ord, t) && (t != [] ==> Rank(ord, e) < Rank(ord, t[0]))
    ensures Above(ord, t, e)
  {}

  lemma AscendingTail(ord: Order, s: seq<Pair>, l: seq<Pair>)
    requires s != [] && Ascending(ord, s) && Below(ord, l, s[0])
    ensures Ascending(ord, s[1..])
    ensures |s| > 1 ==> Below(ord, l, s[1])
  {}

  lemma Reassembled(l: seq<Pair>, left: seq<Pair>, t: seq<Pair>)
    ensures l + [] == l && (l + []) + left + t == l + left + t
    ensures l == left == [] ==> l + left + t == t
  {}

  lemma InsertNothing(ord: Order, s: seq<Pair>, unique: bool)
    ensures InsertAll(ord, s, [], unique) == Fed(s, false)
  {}

  lemma {:induction false} SortedTail(ord: Order, l: seq<Pair>, t: seq<Pair>)
    requires Sorted(ord, l + t)
    ensures Sorted(ord, t)
  {
    forall i, j | 0 <= i < j < |t| ensures Rank(ord, t[i]) < Rank(ord, t[j]) {
      assert (l + t)[|l| + i] == t[i] && (l + t)[|l| + j] == t[j];
    }
  }

  ghost predicate Meets(ord: Order, goal: Fed, ret: Status, all: seq<Pair>, rest: seq<Pair>, unique: bool) {
    if ret == KeyExist then rest == [] && goal == Fed(all, true)
    else ret == Ok && goal == InsertAll(ord, all, rest, unique)
  }

  ghost predicate Between(ord: Order, l: seq<Pair>, e: Pair, t: seq<Pair>) {
    Below(ord, l, e) && Above(ord, t, e)
  }

  lemma {:induction false} SplitEntry(l: seq<Pair>, run: Run, at: nat, t: seq<Pair>)
    requires at < |run|
    ensures l + run[at..] + t == l + [run[at]] + (run[at + 1..] + t)
    ensures l + run[at..] + t == (l + [run[at]]) + run[at + 1..] + t
  {
    assert run[at..] == [run[at]] + run[at + 1..];
  }

  /** The variables of a merge: the input slot in use, the stream position, and the
      flags of its two loops. */
  datatype Locals = Locals(ikey: Dbt, pos: nat, moreStream: bool, iSmallEnough: bool,
                           moreCompressed: bool, next: Next, ret: Status)

  function OtherKey(d: Dbt): Dbt {
    if d == Key1 then Key2 else Key1
  }

  function OtherInput(d: Dbt): Dbt {
    if d == Ikey1 then Ikey2 else Ikey1
  }

  function Compare(ord: Order, a: Pair, b: Pair): int {
    if Rank(ord, a) < Rank(ord, b) then -1 else if Rank(ord, a) == Rank(ord, b) then 0 else 1
  }

  lemma {:induction false} RunRemoved(chunks: seq<Chunk>, runs: seq<Run>, limit: nat, j: nat)
    requires StoredAs(chunks, runs, limit) && j < |runs|
    ensures |chunks| == |runs| && chunks[j] == ChunkOf(runs[j]) && Fits(runs[j], limit)
    ensures StoredAs(chunks[..j] + chunks[j + 1..], runs[..j] + runs[j + 1..], limit)
    ensures (runs[..j] + runs[j + 1..])[..j] == runs[..j]
    ensures (runs[..j] + runs[j + 1..])[j..] == runs[j + 1..]
  {
    hide EncodeRun;
  }

  lemma {:induction false} RunInserted(runs: seq<Run>, lo: nat, d: Run)
    requires lo <= |runs|
    ensures var all := runs[..lo] + [d] + runs[lo..];
      Flatten(all[..lo + 1]) == Flatten(runs[..lo]) + d && all[lo + 1..] == runs[lo..]
  {
    var all := runs[..lo] + [d] + runs[lo..];
    assert all[..lo + 1] == runs[..lo] + [d];
    FlattenConcat(runs[..lo], [d]);
    assert Flatten([d]) == d + Flatten([d][1..]);
  }

  lemma {:induction false} NextEntry(run: Run, at: nat)
    requires at < |run| && EndOf(run, at) < |EncodeRun(run)|
    ensures at + 1 < |run|
    ensures EndOf(run, at) <= |EncodeRun(run)|
    ensures Decode(run[at], EncodeRun(run)[EndOf(run, at)..])
         == Decoded(run[at + 1], |Encode(run[at], run[at + 1])|)
  {
    hide Rank, Encode, EncodeRun, Decode;
    EntryAt(run, at);
    assert run[..|run|] == run;
    PairRoundTrip(run[at], run[at + 1], EncodeFrom(run, at + 2));
  }
}
