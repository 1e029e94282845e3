/** Sorted sequences of pairs: what a compressed B-tree means. */
module SortedPairs {
  import opened PairCodec

  /** A comparison function on byte-string pairs is a total preorder on a countable
      set, so it is given by a rank in the reals: `a` sorts before `b` when its rank
      is smaller, and the two compare equal when their ranks are equal. */
  datatype Order = Order(rank: Pair -> real)

  function Rank(ord: Order, p: Pair): real {
    ord.rank(p)
  }

  ghost predicate Sorted(ord: Order, s: seq<Pair>) {
    forall i, j :: 0 <= i < j < |s| ==> Rank(ord, s[i]) < Rank(ord, s[j])
  }

  /** An input stream may repeat a pair. */
  ghost predicate Ascending(ord: Order, s: seq<Pair>) {
    forall i, j :: 0 <= i < j < |s| ==> Rank(ord, s[i]) <= Rank(ord, s[j])
  }

  ghost predicate Below(ord: Order, s: seq<Pair>, e: Pair) {
    forall i :: 0 <= i < |s| ==> Rank(ord, s[i]) < Rank(ord, e)
  }

  ghost predicate Above(ord: Order, s: seq<Pair>, e: Pair) {
    forall i :: 0 <= i < |s| ==> Rank(ord, e) < Rank(ord, s[i])
  }

  ghost predicate Holds(ord: Order, s: seq<Pair>, e: Pair) {
    exists i :: 0 <= i < |s| && Rank(ord, s[i]) == Rank(ord, e)
  }

  /** Puts `e` in its place, over the pair that compares equal to it if there is one. */
  ghost function Insert(ord: Order, s: seq<Pair>, e: Pair): seq<Pair> {
    if s == [] then [e]
    else if Rank(ord, s[0]) < Rank(ord, e) then [s[0]] + Insert(ord, s[1..], e)
    else if Rank(ord, s[0]) == Rank(ord, e) then [e] + s[1..]
    else [e] + s
  }

  ghost function Remove(ord: Order, s: seq<Pair>, e: Pair): seq<Pair> {
    if s == [] then []
    else if Rank(ord, s[0]) == Rank(ord, e) then s[1..]
    else [s[0]] + Remove(ord, s[1..], e)
  }

  /** Drops the leading pairs of a stream that compare equal to `e`. */
  ghost function SkipEqual(ord: Order, e: Pair, s: seq<Pair>): (t: seq<Pair>)
    ensures |t| <= |s|
  {
    if s != [] && Rank(ord, s[0]) == Rank(ord, e) then SkipEqual(ord, e, s[1..]) else s
  }

  /** Result of feeding a stream: the contents, and whether it stopped early. */
  datatype Fed = Fed(pairs: seq<Pair>, stopped: bool)

  /** Insertion of a whole stream. A pair repeated in the stream counts once, its
      first copy winning; with `unique` set, a pair already held stops the run. */
  ghost function InsertAll(ord: Order, s: seq<Pair>, input: seq<Pair>, unique: bool): Fed
    decreases |input|
  {
    if input == [] then Fed(s, false)
    else if unique && Holds(ord, s, input[0]) then Fed(s, true)
    else InsertAll(ord, Insert(ord, s, input[0]), SkipEqual(ord, input[0], input[1..]), unique)
  }

  /** Deletion of a whole stream, stopped by the first pair that is not held. */
  ghost function RemoveAll(ord: Order, s: seq<Pair>, input: seq<Pair>): Fed
    decreases |input|
  {
    if input == [] then Fed(s, false)
    else if !Holds(ord, s, input[0]) then Fed(s, true)
    else RemoveAll(ord, Remove(ord, s, input[0]), input[1..])
  }

  // ---------- one step ----------

  lemma {:induction false} InsertBetween(ord: Order, l: seq<Pair>, e: Pair, t: seq<Pair>)
    requires Below(ord, l, e) && Above(ord, t, e)
    ensures Insert(ord, l + t, e) == l + [e] + t
  {
    if l == [] {
      assert l + t == t;
    } else {
      InsertBetween(ord, l[1..], e, t);
      assert (l + t)[1..] == l[1..] + t;
      assert l + [e] + t == [l[0]] + (l[1..] + [e] + t);
    }
  }

  lemma {:induction false} InsertOver(ord: Order, l: seq<Pair>, x: Pair, t: seq<Pair>, e: Pair)
    requires Below(ord, l, e) && Rank(ord, x) == Rank(ord, e)
    ensures Insert(ord, l + [x] + t, e) == l + [e] + t
  {
    if l == [] {
      assert (l + [x] + t)[1..] == t;
    } else {
      InsertOver(ord, l[1..], x, t, e);
      assert (l + [x] + t)[1..] == l[1..] + [x] + t;
      assert l + [e] + t == [l[0]] + (l[1..] + [e] + t);
    }
  }

  lemma {:induction false} RemoveAt(ord: Order, l: seq<Pair>, x: Pair, t: seq<Pair>, e: Pair)
    requires Below(ord, l, e) && Rank(ord, x) == Rank(ord, e)
    ensures Remove(ord, l + [x] + t, e) == l + t
  {
    if l == [] {
      assert (l + [x] + t)[1..] == t == l + t;
    } else {
      RemoveAt(ord, l[1..], x, t, e);
      assert (l + [x] + t)[1..] == l[1..] + [x] + t;
      assert l + t == [l[0]] + (l[1..] + t);
    }
  }

  lemma {:induction false} StepInsert(ord: Order, l: seq<Pair>, t: seq<Pair>, input: seq<Pair>, unique: bool)
    requires input != [] && Sorted(ord, l + t)
    requires Below(ord, l, input[0]) && Above(ord, t, input[0])
    ensures Sorted(ord, l + [input[0]] + t)
    ensures InsertAll(ord, l + t, input, unique)
         == InsertAll(ord, l + [input[0]] + t, SkipEqual(ord, input[0], input[1..]), unique)
  {
    InsertBetween(ord, l, input[0], t);
    SortedAround(ord, l, t, input[0]);
    forall i | 0 <= i < |l + t| ensures Rank(ord, (l + t)[i]) != Rank(ord, input[0]) {}
  }

  lemma {:induction false} StepReplace(ord: Order, l: seq<Pair>, x: Pair, t: seq<Pair>, input: seq<Pair>)
    requires input != [] && Sorted(ord, l + [x] + t)
    requires Below(ord, l, input[0]) && Rank(ord, x) == Rank(ord, input[0])
    ensures Sorted(ord, l + [input[0]] + t)
    ensures InsertAll(ord, l + [x] + t, input, false)
         == InsertAll(ord, l + [input[0]] + t, SkipEqual(ord, input[0], input[1..]), false)
  {
    InsertOver(ord, l, x, t, input[0]);
    var a, b := l + [x] + t, l + [input[0]] + t;
    forall i | 0 <= i < |b| ensures Rank(ord, b[i]) == Rank(ord, a[i]) {}
  }

  lemma {:induction false} StepStop(ord: Order, l: seq<Pair>, x: Pair, t: seq<Pair>, input: seq<Pair>)
    requires input != [] && Rank(ord, x) == Rank(ord, input[0])
    ensures InsertAll(ord, l + [x] + t, input, true) == Fed(l + [x] + t, true)
  {
    assert (l + [x] + t)[|l|] == x;
  }

  lemma {:induction false} StepRemove(ord: Order, l: seq<Pair>, x: Pair, t: seq<Pair>, input: seq<Pair>)
    requires input != [] && Sorted(ord, l + [x] + t)
    requires Below(ord, l, input[0]) && Rank(ord, x) == Rank(ord, input[0])
    ensures Sorted(ord, l + t)
    ensures RemoveAll(ord, l + [x] + t, input) == RemoveAll(ord, l + t, input[1..])
  {
    RemoveAt(ord, l, x, t, input[0]);
    var a, b := l + [x] + t, l + t;
    assert a[|l|] == x;
    forall i, j | 0 <= i < j < |b| ensures Rank(ord, b[i]) < Rank(ord, b[j]) {
      var i', j' := if i < |l| then i else i + 1, if j < |l| then j else j + 1;
      assert b[i] == a[i'] && b[j] == a[j'];
    }
  }

  lemma {:induction false} StepMissing(ord: Order, l: seq<Pair>, t: seq<Pair>, input: seq<Pair>)
    requires input != [] && Below(ord, l, input[0]) && Above(ord, t, input[0])
    ensures RemoveAll(ord, l + t, input) == Fed(l + t, true)
  {
    forall i | 0 <= i < |l + t| ensures Rank(ord, (l + t)[i]) != Rank(ord, input[0]) {}
  }

  /** A sorted sequence whose first part starts above `e` lies above `e`. */
  lemma {:induction false} AboveConcat(ord: Order, a: seq<Pair>, t: seq<Pair>, e: Pair)
    requires Sorted(ord, a + t) && Above(ord, t, e)
    requires a != [] ==> Rank(ord, e) < Rank(ord, a[0])
    ensures Above(ord, a + t, e)
  {
    forall i | 0 <= i < |a + t| ensures Rank(ord, e) < Rank(ord, (a + t)[i]) {
      if a != [] { assert (a + t)[0] == a[0]; }
    }
  }

  lemma {:induction false} SortedAround(ord: Order, l: seq<Pair>, t: seq<Pair>, e: Pair)
    requires Sorted(ord, l + t) && Below(ord, l, e) && Above(ord, t, e)
    ensures Sorted(ord, l + [e] + t)
  {
    var a, b := l + t, l + [e] + t;
    forall i, j | 0 <= i < j < |b| ensures Rank(ord, b[i]) < Rank(ord, b[j]) {
      var i', j' := if i < |l| then i else i - 1, if j < |l| then j else j - 1;
      if i != |l| { assert b[i] == a[i']; }
      if j != |l| { assert b[j] == a[j']; }
    }
  }

  // ---------- what a whole merge means ----------

  lemma {:induction false} InsertMeans(ord: Order, s: seq<Pair>, e: Pair, q: Pair)
    requires Sorted(ord, s)
    ensures Sorted(ord, Insert(ord, s, e))
    ensures q in Insert(ord, s, e) <==> q == e || (q in s && Rank(ord, q) != Rank(ord, e))
  {
    if s == [] {
    } else if Rank(ord, s[0]) < Rank(ord, e) {
      InsertMeans(ord, s[1..], e, q);
      forall x | x in Insert(ord, s[1..], e) ensures Rank(ord, s[0]) < Rank(ord, x) {
        InsertMeans(ord, s[1..], e, x);
      }
      SortedCons(ord, s[0], Insert(ord, s[1..], e));
      assert s == [s[0]] + s[1..];
    } else if Rank(ord, s[0]) == Rank(ord, e) {
      SortedCons(ord, e, s[1..]);
      assert s == [s[0]] + s[1..];
    } else {
      SortedCons(ord, e, s);
    }
  }

  lemma SortedCons(ord: Order, e: Pair, s: seq<Pair>)
    requires Sorted(ord, s) && forall x :: x in s ==> Rank(ord, e) < Rank(ord, x)
    ensures Sorted(ord, [e] + s)
  {}

  /** The first copy of `q` among the pairs of `input` that compare equal to it. */
  ghost predicate FirstCopy(ord: Order, input: seq<Pair>, q: Pair) {
    exists i :: 0 <= i < |input| && input[i] == q
      && forall j :: 0 <= j < i ==> Rank(ord, input[j]) != Rank(ord, q)
  }

  lemma {:induction false} SkipEqualMeans(ord: Order, e: Pair, s: seq<Pair>, q: Pair)
    requires Ascending(ord, s)
    ensures Ascending(ord, SkipEqual(ord, e, s))
    ensures Rank(ord, q) != Rank(ord, e) ==>
      (FirstCopy(ord, SkipEqual(ord, e, s), q) <==> FirstCopy(ord, s, q))
      && (Holds(ord, SkipEqual(ord, e, s), q) <==> Holds(ord, s, q))
    ensures (forall i :: 0 <= i < |s| ==> Rank(ord, e) <= Rank(ord, s[i])) && Rank(ord, q) == Rank(ord, e) ==>
      !Holds(ord, SkipEqual(ord, e, s), q)
  {
    if s != [] && Rank(ord, s[0]) == Rank(ord, e) {
      SkipEqualMeans(ord, e, s[1..], q);
      if Rank(ord, q) != Rank(ord, e) { FirstCopyTail(ord, s, q); }
    }
  }

  /** After skipping, the stream goes on strictly above `e`. */
  lemma {:induction false} SkipEqualAscends(ord: Order, e: Pair, s: seq<Pair>)
    requires Ascending(ord, [e] + s)
    ensures var t := SkipEqual(ord, e, s);
      Ascending(ord, t) && (t != [] ==> Rank(ord, e) < Rank(ord, t[0]))
  {
    forall i | 0 <= i < |s| ensures Rank(ord, e) <= Rank(ord, s[i]) {
      assert ([e] + s)[0] == e && ([e] + s)[i + 1] == s[i];
    }
    forall i, j | 0 <= i < j < |s| ensures Rank(ord, s[i]) <= Rank(ord, s[j]) {
      assert ([e] + s)[i + 1] == s[i] && ([e] + s)[j + 1] == s[j];
    }
    if s != [] && Rank(ord, s[0]) == Rank(ord, e) {
      SkipEqualAscends(ord, e, s[1..]);
    }
  }

  lemma {:induction false} FirstCopyTail(ord: Order, s: seq<Pair>, q: Pair)
    requires s != [] && Rank(ord, s[0]) != Rank(ord, q)
    ensures FirstCopy(ord, s, q) <==> FirstCopy(ord, s[1..], q)
    ensures Holds(ord, s, q) <==> Holds(ord, s[1..], q)
  {
    if FirstCopy(ord, s, q) {
      var i :| 0 <= i < |s| && s[i] == q && forall j :: 0 <= j < i ==> Rank(ord, s[j]) != Rank(ord, q);
      assert s[1..][i - 1] == q;
      assert forall j :: 0 <= j < i - 1 ==> s[1..][j] == s[j + 1];
    }
    if FirstCopy(ord, s[1..], q) {
      var i :| 0 <= i < |s[1..]| && s[1..][i] == q
        && forall j :: 0 <= j < i ==> Rank(ord, s[1..][j]) != Rank(ord, q);
      assert s[i + 1] == q;
      forall j | 0 <= j < i + 1 ensures Rank(ord, s[j]) != Rank(ord, q) {
        if j > 0 { assert s[j] == s[1..][j - 1]; }
      }
    }
    if Holds(ord, s, q) {
      var i :| 0 <= i < |s| && Rank(ord, s[i]) == Rank(ord, q);
      assert s[1..][i - 1] == s[i];
    }
    if Holds(ord, s[1..], q) {
      var i :| 0 <= i < |s[1..]| && Rank(ord, s[1..][i]) == Rank(ord, q);
      assert s[i + 1] == s[1..][i];
    }
  }

  /** Overwriting merge, told by membership: the result is sorted, and holds the
      first copy of each pair of the stream and every old pair that none of the
      stream's pairs compares equal to. */
  lemma {:induction false} InsertAllMeans(ord: Order, s: seq<Pair>, input: seq<Pair>, q: Pair)
    requires Sorted(ord, s) && Ascending(ord, input)
    ensures var r := InsertAll(ord, s, input, false);
      && !r.stopped && Sorted(ord, r.pairs)
      && (q in r.pairs <==>
           FirstCopy(ord, input, q) || (q in s && !Holds(ord, input, q)))
    decreases |input|
  {
    if input != [] {
      var e, rest := input[0], input[1..];
      InsertMeans(ord, s, e, q);
      SkipEqualMeans(ord, e, rest, q);
      InsertAllMeans(ord, Insert(ord, s, e), SkipEqual(ord, e, rest), q);
      if Rank(ord, q) == Rank(ord, e) {
        assert Holds(ord, input, q);
        assert FirstCopy(ord, input, q) <==> q == e;
        assert FirstCopy(ord, SkipEqual(ord, e, rest), q) ==> Holds(ord, SkipEqual(ord, e, rest), q);
      } else {
        FirstCopyTail(ord, input, q);
      }
    }
  }

  /** The first `n` pairs of the stream do not compare equal to one held, and the next
      one, if there is one, does. */
  ghost predicate FirstClash(ord: Order, s: seq<Pair>, input: seq<Pair>, n: nat) {
    && n <= |input| && (forall i :: 0 <= i < n ==> !Holds(ord, s, input[i]))
    && (n < |input| ==> Holds(ord, s, input[n]))
  }

  /** Every stream has a first clash, or ends without one. */
  ghost function ClashFrom(ord: Order, s: seq<Pair>, input: seq<Pair>, k: nat): (n: nat)
    requires k <= |input| && forall i :: 0 <= i < k ==> !Holds(ord, s, input[i])
    ensures FirstClash(ord, s, input, n)
    decreases |input| - k
  {
    if k == |input| || Holds(ord, s, input[k]) then k else ClashFrom(ord, s, input, k + 1)
  }

  /** Skipping pairs that are not held moves the first clash forward by as many. */
  lemma {:induction false} ClashSkip(ord: Order, s: seq<Pair>, e: Pair, input: seq<Pair>, n: nat, q: Pair)
    requires Ascending(ord, [e] + input) && FirstClash(ord, s, input, n) && !Holds(ord, s, e)
    ensures var t := SkipEqual(ord, e, input);
      var k := |input| - |t|;
      && k <= n <= |input| && FirstClash(ord, s, t, n - k)
      && (Rank(ord, q) != Rank(ord, e) ==> (FirstCopy(ord, t[..n - k], q) <==> FirstCopy(ord, input[..n], q)))
    decreases |input|
  {
    hide FirstCopy;
    if input != [] && Rank(ord, input[0]) == Rank(ord, e) {
      SameRankHolds(ord, s, e, input[0]);
      var rest := input[1..];
      AscendingSkip(ord, e, input);
      ClashTail(ord, s, input, n);
      ClashSkip(ord, s, e, rest, n - 1, q);
      assert input[..n][1..] == rest[..n - 1];
      if Rank(ord, q) != Rank(ord, e) { FirstCopyTail(ord, input[..n], q); }
    }
  }

  lemma {:induction false} AscendingSkip(ord: Order, e: Pair, input: seq<Pair>)
    requires Ascending(ord, [e] + input) && input != []
    ensures Ascending(ord, [e] + input[1..])
  {
    var a, b := [e] + input, [e] + input[1..];
    forall i, j | 0 <= i < j < |b| ensures Rank(ord, b[i]) <= Rank(ord, b[j]) {
      assert b[j] == a[j + 1] && (i > 0 ==> b[i] == a[i + 1]);
      assert a[0] == e;
    }
  }

  lemma SameRankHolds(ord: Order, s: seq<Pair>, a: Pair, b: Pair)
    requires Rank(ord, a) == Rank(ord, b)
    ensures Holds(ord, s, a) <==> Holds(ord, s, b)
  {}

  lemma {:induction false} ClashTail(ord: Order, s: seq<Pair>, input: seq<Pair>, n: nat)
    requires FirstClash(ord, s, input, n) && input != [] && !Holds(ord, s, input[0])
    ensures 0 < n <= |input| && FirstClash(ord, s, input[1..], n - 1)
  {
    hide Holds;
  }

  lemma {:induction false} InsertHolds(ord: Order, s: seq<Pair>, e: Pair, q: Pair)
    requires Sorted(ord, s)
    ensures Holds(ord, Insert(ord, s, e), q) <==> Holds(ord, s, q) || Rank(ord, q) == Rank(ord, e)
  {
    var t := Insert(ord, s, e);
    InsertMeans(ord, s, e, e);
    if Holds(ord, t, q) {
      var i :| 0 <= i < |t| && Rank(ord, t[i]) == Rank(ord, q);
      InsertMeans(ord, s, e, t[i]);
    }
    if Holds(ord, s, q) {
      var i :| 0 <= i < |s| && Rank(ord, s[i]) == Rank(ord, q);
      InsertMeans(ord, s, e, s[i]);
    }
  }

  /** Inserting a smaller pair that was not held moves no clash of a later stream. */
  lemma {:induction false} ClashInsert(ord: Order, s: seq<Pair>, e: Pair, t: seq<Pair>, n: nat)
    requires Sorted(ord, s) && Ascending(ord, t) && (t != [] ==> Rank(ord, e) < Rank(ord, t[0]))
    requires FirstClash(ord, s, t, n)
    ensures FirstClash(ord, Insert(ord, s, e), t, n)
  {
    hide Holds, Insert;
    forall i | 0 <= i < |t| ensures Holds(ord, Insert(ord, s, e), t[i]) <==> Holds(ord, s, t[i]) {
      InsertHolds(ord, s, e, t[i]);
    }
  }

  /** The merge that does not overwrite, told by membership: it stops if and only if a
      pair of the stream compares equal to one held, and then all pairs before the
      first such one have been put in, and no others. */
  lemma {:induction false} InsertUniqueMeans(ord: Order, s: seq<Pair>, input: seq<Pair>, n: nat, q: Pair)
    requires Sorted(ord, s) && Ascending(ord, input) && FirstClash(ord, s, input, n)
    ensures var r := InsertAll(ord, s, input, true);
      && Sorted(ord, r.pairs) && (r.stopped <==> n < |input|)
      && (q in r.pairs <==> q in s || FirstCopy(ord, input[..n], q))
    decreases |input|
  {
    hide Holds, Insert, FirstCopy, SkipEqual, FirstClash;
    if input == [] || Holds(ord, s, input[0]) {
      ClashNow(ord, s, input, n, q);
    } else {
      var e, rest := input[0], input[1..];
      assert [e] + rest == input;
      var t := SkipEqual(ord, e, rest);
      ClashTail(ord, s, input, n);
      SkipEqualAscends(ord, e, rest);
      ClashSkip(ord, s, e, rest, n - 1, q);
      var m := n - 1 - (|rest| - |t|);
      ClashInsert(ord, s, e, t, m);
      InsertMeans(ord, s, e, q);
      InsertUniqueMeans(ord, Insert(ord, s, e), t, m, q);
      assert input[..n][1..] == rest[..n - 1];
      ClashFirst(ord, s, input, n, t[..m], q);
    }
  }

  lemma {:induction false} ClashNow(ord: Order, s: seq<Pair>, input: seq<Pair>, n: nat, q: Pair)
    requires FirstClash(ord, s, input, n) && (input == [] || Holds(ord, s, input[0]))
    ensures n == 0 && !FirstCopy(ord, input[..n], q)
  {
    hide Holds;
  }

  /** The first pair of the stream is the first copy of its kind. */
  lemma {:induction false} ClashFirst(ord: Order, s: seq<Pair>, input: seq<Pair>, n: nat, later: seq<Pair>, q: Pair)
    requires 0 < n <= |input| && !Holds(ord, s, input[0])
    requires forall i :: 0 <= i < |later| ==> Rank(ord, input[0]) < Rank(ord, later[i])
    requires Rank(ord, q) != Rank(ord, input[0]) ==> (FirstCopy(ord, later, q) <==> FirstCopy(ord, input[..n][1..], q))
    ensures q == input[0] || (q in s && Rank(ord, q) != Rank(ord, input[0])) || FirstCopy(ord, later, q)
      <==> q in s || FirstCopy(ord, input[..n], q)
  {
    var u := input[..n];
    if Rank(ord, q) != Rank(ord, input[0]) {
      FirstCopyTail(ord, u, q);
    } else {
      assert FirstCopy(ord, u, q) <==> q == u[0];
      assert !FirstCopy(ord, later, q);
      assert q in s ==> Holds(ord, s, input[0]);
    }
  }

  lemma {:induction false} RemoveMeans(ord: Order, s: seq<Pair>, e: Pair, q: Pair)
    requires Sorted(ord, s)
    ensures Sorted(ord, Remove(ord, s, e))
    ensures q in Remove(ord, s, e) <==> q in s && Rank(ord, q) != Rank(ord, e)
  {
    if s != [] {
      assert s == [s[0]] + s[1..];
      if Rank(ord, s[0]) != Rank(ord, e) {
        RemoveMeans(ord, s[1..], e, q);
        forall x | x in Remove(ord, s[1..], e) ensures Rank(ord, s[0]) < Rank(ord, x) {
          RemoveMeans(ord, s[1..], e, x);
        }
        SortedCons(ord, s[0], Remove(ord, s[1..], e));
      }
    }
  }

  lemma {:induction false} RemoveHolds(ord: Order, s: seq<Pair>, e: Pair, q: Pair)
    requires Sorted(ord, s)
    ensures Holds(ord, Remove(ord, s, e), q) <==> Holds(ord, s, q) && Rank(ord, q) != Rank(ord, e)
  {
    var t := Remove(ord, s, e);
    if Holds(ord, t, q) {
      var i :| 0 <= i < |t| && Rank(ord, t[i]) == Rank(ord, q);
      RemoveMeans(ord, s, e, t[i]);
    }
    if Holds(ord, s, q) && Rank(ord, q) != Rank(ord, e) {
      var i :| 0 <= i < |s| && Rank(ord, s[i]) == Rank(ord, q);
      RemoveMeans(ord, s, e, s[i]);
    }
  }

  /** A deletion runs to its end exactly when its stream names distinct pairs that
      are all held, and then takes out those and nothing else. */
  lemma {:induction false} RemoveAllMeans(ord: Order, s: seq<Pair>, input: seq<Pair>, q: Pair)
    requires Sorted(ord, s) && Ascending(ord, input)
    ensures var r := RemoveAll(ord, s, input);
      && Sorted(ord, r.pairs)
      && (!r.stopped <==> Sorted(ord, input) && forall i :: 0 <= i < |input| ==> Holds(ord, s, input[i]))
      && (!r.stopped ==> (q in r.pairs <==> q in s && !Holds(ord, input, q)))
    decreases |input|
  {
    if input != [] && Holds(ord, s, input[0]) {
      var e, rest, t := input[0], input[1..], Remove(ord, s, input[0]);
      RemoveMeans(ord, s, e, q);
      RemoveAllMeans(ord, t, rest, q);
      assert Holds(ord, input, q) <==> Rank(ord, q) == Rank(ord, e) || Holds(ord, rest, q) by {
        assert input == [e] + rest;
        if Holds(ord, rest, q) {
          var i :| 0 <= i < |rest| && Rank(ord, rest[i]) == Rank(ord, q);
          assert input[i + 1] == rest[i];
        }
        if Holds(ord, input, q) {
          var i :| 0 <= i < |input| && Rank(ord, input[i]) == Rank(ord, q);
          assert i > 0 ==> rest[i - 1] == input[i];
        }
      }
      AllHeldStep(ord, s, input);
    }
  }

  lemma {:induction false} AllHeldStep(ord: Order, s: seq<Pair>, input: seq<Pair>)
    requires Sorted(ord, s) && Ascending(ord, input) && input != [] && Holds(ord, s, input[0])
    ensures (Sorted(ord, input) && forall i :: 0 <= i < |input| ==> Holds(ord, s, input[i]))
       <==> (Sorted(ord, input[1..])
             && forall i :: 0 <= i < |input[1..]| ==> Holds(ord, Remove(ord, s, input[0]), input[1..][i]))
  {
    hide Holds, Remove;
    var e, rest := input[0], input[1..];
    forall i | 0 <= i < |rest|
      ensures Holds(ord, Remove(ord, s, e), rest[i])
        <==> Holds(ord, s, input[i + 1]) && Rank(ord, e) < Rank(ord, input[i + 1])
    {
      RemoveHolds(ord, s, e, rest[i]);
    }
    if Sorted(ord, rest) && forall i :: 0 <= i < |rest| ==> Holds(ord, Remove(ord, s, e), rest[i]) {
      forall i, j | 0 <= i < j < |input| ensures Rank(ord, input[i]) < Rank(ord, input[j]) {
        assert input[j] == rest[j - 1];
        if i > 0 { assert input[i] == rest[i - 1]; }
      }
      forall i | 0 <= i < |input| ensures Holds(ord, s, input[i]) {
        if i > 0 { assert input[i] == rest[i - 1]; }
      }
    }
  }

  /** Deletion cannot go on at pair `i` of the stream: it is not held, or the pair before
      it compared equal and has taken it away. */
  ghost predicate Misses(ord: Order, s: seq<Pair>, input: seq<Pair>, i: nat)
    requires i < |input|
  {
    !Holds(ord, s, input[i]) || (i > 0 && Rank(ord, input[i - 1]) == Rank(ord, input[i]))
  }

  ghost predicate FirstMiss(ord: Order, s: seq<Pair>, input: seq<Pair>, n: nat) {
    && n <= |input| && (forall i :: 0 <= i < n ==> !Misses(ord, s, input, i))
    && (n < |input| ==> Misses(ord, s, input, n))
  }

  ghost function MissFrom(ord: Order, s: seq<Pair>, input: seq<Pair>, k: nat): (n: nat)
    requires k <= |input| && forall i :: 0 <= i < k ==> !Misses(ord, s, input, i)
    ensures FirstMiss(ord, s, input, n)
    decreases |input| - k
  {
    if k == |input| || Misses(ord, s, input, k) then k else MissFrom(ord, s, input, k + 1)
  }

  lemma {:induction false} MissTail(ord: Order, s: seq<Pair>, input: seq<Pair>, n: nat)
    requires Sorted(ord, s) && Ascending(ord, input) && FirstMiss(ord, s, input, n)
    requires input != [] && Holds(ord, s, input[0])
    ensures 0 < n <= |input| && FirstMiss(ord, Remove(ord, s, input[0]), input[1..], n - 1)
  {
    hide Holds, Remove;
    var t, rest := Remove(ord, s, input[0]), input[1..];
    assert !Misses(ord, s, input, 0);
    forall i | 0 <= i < |rest|
      ensures Misses(ord, t, rest, i) <==>
        Misses(ord, s, input, i + 1) || Rank(ord, input[i + 1]) == Rank(ord, input[0])
    {
      RemoveHolds(ord, s, input[0], rest[i]);
    }
    forall i | 0 <= i < n - 1 ensures !Misses(ord, t, rest, i) {
      assert !Misses(ord, s, input, i + 1) && !Misses(ord, s, input, 1);
    }
  }

  /** Deletion told by membership, however it ends: the pairs of the stream before the
      first that is missing are gone, and no others. */
  lemma {:induction false} RemoveUntilMeans(ord: Order, s: seq<Pair>, input: seq<Pair>, n: nat, q: Pair)
    requires Sorted(ord, s) && Ascending(ord, input) && FirstMiss(ord, s, input, n)
    ensures var r := RemoveAll(ord, s, input);
      && Sorted(ord, r.pairs) && (r.stopped <==> n < |input|)
      && (q in r.pairs <==> q in s && !Holds(ord, input[..n], q))
    decreases |input|
  {
    hide Remove, FirstMiss;
    if input == [] || !Holds(ord, s, input[0]) {
      MissNow(ord, s, input, n);
    } else {
      var e, rest := input[0], input[1..];
      MissTail(ord, s, input, n);
      RemoveMeans(ord, s, e, q);
      RemoveUntilMeans(ord, Remove(ord, s, e), rest, n - 1, q);
      assert input[..n] == [e] + rest[..n - 1];
      HoldsCons(ord, e, rest[..n - 1], q);
    }
  }

  lemma {:induction false} MissNow(ord: Order, s: seq<Pair>, input: seq<Pair>, n: nat)
    requires FirstMiss(ord, s, input, n) && (input == [] || !Holds(ord, s, input[0]))
    ensures n == 0 && input[..0] == []
  {
    hide Holds;
    assert input != [] ==> Misses(ord, s, input, 0);
  }

  lemma {:induction false} HoldsCons(ord: Order, e: Pair, s: seq<Pair>, q: Pair)
    ensures Holds(ord, [e] + s, q) <==> Rank(ord, q) == Rank(ord, e) || Holds(ord, s, q)
  {
    var t := [e] + s;
    if Holds(ord, s, q) {
      var i :| 0 <= i < |s| && Rank(ord, s[i]) == Rank(ord, q);
      assert t[i + 1] == s[i];
    }
    assert t[0] == e;
  }

  // ---------- runs ----------

  ghost function Flatten(runs: seq<Run>): seq<Pair> {
    if runs == [] then [] else runs[0] + Flatten(runs[1..])
  }

  lemma Associates(a: seq<Pair>, b: seq<Pair>, c: seq<Pair>)
    ensures (a + b) + c == a + (b + c)
  {}

  lemma {:induction false} FlattenConcat(a: seq<Run>, b: seq<Run>)
    ensures Flatten(a + b) == Flatten(a) + Flatten(b)
  {
    if a == [] {
      assert a + b == b;
    } else {
      FlattenConcat(a[1..], b);
      assert (a + b)[1..] == a[1..] + b;
      Associates(a[0], Flatten(a[1..]), Flatten(b));
    }
  }

  lemma {:induction false} FlattenSplit(runs: seq<Run>, k: nat)
    requires k <= |runs|
    ensures Flatten(runs) == Flatten(runs[..k]) + Flatten(runs[k..])
  {
    FlattenConcat(runs[..k], runs[k..]);
    assert runs == runs[..k] + runs[k..];
  }

  lemma {:induction false} FlattenAround(runs: seq<Run>, j: nat)
    requires j < |runs|
    ensures Flatten(runs) == Flatten(runs[..j]) + runs[j] + Flatten(runs[j + 1..])
  {
    FlattenSplit(runs, j);
    assert runs[j..][1..] == runs[j + 1..];
  }

  /** Runs from `k` on lie above `e` when the first of them starts above it. */
  lemma {:induction false} AboveAfter(ord: Order, runs: seq<Run>, k: nat, e: Pair)
    requires k <= |runs| && Sorted(ord, Flatten(runs))
    requires k < |runs| ==> Rank(ord, e) < Rank(ord, runs[k][0])
    ensures Above(ord, Flatten(runs[k..]), e)
  {
    FlattenSplit(runs, k);
    var l, t := Flatten(runs[..k]), Flatten(runs[k..]);
    forall i | 0 <= i < |t| ensures Rank(ord, e) < Rank(ord, t[i]) {
      assert Flatten(runs)[|l|] == t[0] == runs[k][0] && Flatten(runs)[|l| + i] == t[i];
    }
  }

  /** The first pair of every run occurs in the flattened sequence. */
  lemma {:induction false} FirstsInFlatten(runs: seq<Run>, k: nat)
    requires k < |runs|
    ensures exists i :: 0 <= i < |Flatten(runs)| && Flatten(runs)[i] == runs[k][0]
  {
    FlattenSplit(runs, k);
    assert Flatten(runs[k..])[0] == runs[k][0];
    assert Flatten(runs)[|Flatten(runs[..k])|] == runs[k][0];
  }
}
