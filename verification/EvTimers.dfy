/** Timers of an event loop: a 4-ary heap of deadlines whose entries point to the
    timers and whose timers know their slots. */
module EvTimers {
  import opened Wrappers
  import opened EvPending

  /** A heap entry: a timer and a copy of its deadline. */
  datatype Anhe = Anhe(at: real, w: Watcher)

  const DHEAP: nat := 4
  // Slots are numbered from here, so that no active timer has number 0.
  const HEAP0: nat := DHEAP - 1

  const EV_TIMER: Events := 0x0000_0100

  /** Division in C truncates toward zero. */
  function TruncDiv(a: int, b: int): int
    requires b > 0
  {
    if a >= 0 then a / b else -((-a) / b)
  }

  /** The slot number of the parent of slot `k`. */
  function HParent(k: int): int {
    TruncDiv(k - HEAP0 - 1, DHEAP) + HEAP0
  }

  /** Position of the parent, with positions counted from the root. */
  function Parent(i: nat): nat
    requires i > 0
  {
    (i - 1) / DHEAP
  }

  /** The root is its own parent because division truncates; rounding down would give
      the slot before it. */
  lemma ParentSlots(i: nat)
    ensures HParent(i + HEAP0) == (if i == 0 then HEAP0 else Parent(i) + HEAP0)
    ensures (HEAP0 - HEAP0 - 1) / DHEAP + HEAP0 == HEAP0 - 1
  {}

  // ---------- heap order ----------

  ghost predicate Ordered(h: seq<Anhe>, n: nat) {
    n <= |h| && forall i :: 0 < i < n ==> h[Parent(i)].at <= h[i].at
  }

  /** In order but for the edges around `k`; `k`'s parent is in order with its children. */
  ghost predicate OrderedBut(h: seq<Anhe>, n: nat, k: nat) {
    && k < n <= |h|
    && (forall i :: 0 < i < n && i != k && Parent(i) != k ==> h[Parent(i)].at <= h[i].at)
    && (k > 0 ==> forall i :: 0 < i < n && Parent(i) == k ==> h[Parent(k)].at <= h[i].at)
  }

  ghost predicate ChildrenOk(h: seq<Anhe>, n: nat, k: nat) {
    n <= |h| && k < n && forall i :: 0 < i < n && Parent(i) == k ==> h[k].at <= h[i].at
  }

  ghost predicate ParentOk(h: seq<Anhe>, k: nat) {
    k < |h| && (k > 0 ==> h[Parent(k)].at <= h[k].at)
  }

  lemma {:induction false} RootIsLeast(h: seq<Anhe>, n: nat, i: nat)
    requires Ordered(h, n) && i < n
    ensures h[0].at <= h[i].at
  {
    if i > 0 { RootIsLeast(h, n, Parent(i)); }
  }

  function Swap(h: seq<Anhe>, i: nat, j: nat): (s: seq<Anhe>)
    requires i < |h| && j < |h|
    ensures |s| == |h|
  {
    h[i := h[j]][j := h[i]]
  }

  /** One step of an entry that is smaller than its parent. */
  lemma UpStep(h: seq<Anhe>, n: nat, k: nat)
    requires OrderedBut(h, n, k) && ChildrenOk(h, n, k) && k > 0 && h[Parent(k)].at > h[k].at
    ensures OrderedBut(Swap(h, k, Parent(k)), n, Parent(k)) && ChildrenOk(Swap(h, k, Parent(k)), n, Parent(k))
  {}

  /** One step of an entry that is larger than its smallest child. */
  lemma DownStep(h: seq<Anhe>, n: nat, k: nat, m: nat)
    requires OrderedBut(h, n, k) && ParentOk(h, k) && 0 < m < n && Parent(m) == k && h[k].at > h[m].at
    requires forall i :: 0 < i < n && Parent(i) == k ==> h[m].at <= h[i].at
    ensures OrderedBut(Swap(h, k, m), n, m) && ParentOk(Swap(h, k, m), m)
  {}

  lemma Settled(h: seq<Anhe>, n: nat, k: nat)
    requires OrderedBut(h, n, k) && ParentOk(h, k) && ChildrenOk(h, n, k)
    ensures Ordered(h, n)
  {}

  // ---------- slots ----------

  ghost function Watchers(h: seq<Anhe>): set<Watcher> {
    set e | e in h :: e.w
  }

  ghost predicate Distinct(h: seq<Anhe>) {
    forall i, j :: 0 <= i < j < |h| ==> h[i].w != h[j].w
  }

  /** The same entries, in another order. */
  ghost predicate Same(a: seq<Anhe>, b: seq<Anhe>) {
    |a| == |b| && multiset(a) == multiset(b) && Watchers(a) == Watchers(b)
  }

  lemma SameRefl(h: seq<Anhe>)
    ensures Same(h, h)
  {}

  lemma {:induction false} SwapSame(h: seq<Anhe>, i: nat, j: nat, was: seq<Anhe>, n: nat)
    requires i < n <= |h| && j < n && Distinct(h) && Same(h, was) && h[n..] == was[n..]
    ensures var s := Swap(h, i, j);
      Distinct(s) && Same(s, was) && s[n..] == was[n..] && s[j] == h[i] && h[j].w in Watchers(was)
  {
    SwapPermutes(h, i, j);
    var s := Swap(h, i, j);
    assert s[n..] == h[n..];
    hide Watchers;
    Member(h, j);
    forall a, b | 0 <= a < b < |s| ensures s[a].w != s[b].w {
      var a' := if a == i then j else if a == j then i else a;
      var b' := if b == i then j else if b == j then i else b;
      assert s[a] == h[a'] && s[b] == h[b'];
    }
  }

  lemma {:induction false} SwapPermutes(h: seq<Anhe>, i: nat, j: nat)
    requires i < |h| && j < |h|
    ensures multiset(Swap(h, i, j)) == multiset(h) && Watchers(Swap(h, i, j)) == Watchers(h)
  {
    var s := Swap(h, i, j);
    assert multiset(s) == multiset(h);
    SameWatchers(s, h);
  }

  lemma {:induction false} SameWatchers(a: seq<Anhe>, b: seq<Anhe>)
    requires multiset(a) == multiset(b)
    ensures Watchers(a) == Watchers(b)
  {
    assert forall e :: e in a <==> e in multiset(a);
    assert forall e :: e in b <==> e in multiset(b);
  }

  lemma Member(h: seq<Anhe>, i: nat)
    requires i < |h|
    ensures h[i].w in Watchers(h)
  {}

  datatype Op = Start(w: Watcher) | Stop(w: Watcher) | Again(w: Watcher) | Reify(now: real)

  /** How long `n` periods are. */
  function Periods(n: nat, repeat: real): real {
    if n == 0 then 0.0 else Periods(n - 1, repeat) + repeat
  }

  lemma {:induction false} PeriodsIs(n: nat, repeat: real)
    ensures Periods(n, repeat) == n as real * repeat
  {
    if n > 0 {
      PeriodsIs(n - 1, repeat);
      var m := (n - 1) as real;
      assert n as real == m + 1.0;
      assert (m + 1.0) * repeat == m * repeat + repeat;
    }
  }

  lemma PeriodsStep(n: nat, repeat: real)
    ensures Periods(n + 1, repeat) == Periods(n, repeat) + repeat && Periods(0, repeat) == 0.0
  {}

  // ---------- what the heap operations do to the order ----------

  lemma {:induction false} ReplacedOrder(h: seq<Anhe>, k: nat, e: Anhe)
    requires Ordered(h, |h|) && k < |h|
    ensures OrderedBut(h[k := e], |h|, k)
  {
    var s := h[k := e];
    forall i | 0 < i < |h| && i != k && Parent(i) != k ensures s[Parent(i)].at <= s[i].at {}
  }

  lemma AppendedOrder(h: seq<Anhe>, e: Anhe)
    requires Ordered(h, |h|)
    ensures OrderedBut(h + [e], |h| + 1, |h|) && ChildrenOk(h + [e], |h| + 1, |h|)
  {}

  lemma ShortenedOrder(h: seq<Anhe>, n: nat)
    requires Ordered(h, |h|) && n <= |h|
    ensures Ordered(h[..n], n)
  {}

  /** An entry no larger than its parent is no larger than its children. */
  lemma BelowChildren(h: seq<Anhe>, n: nat, k: nat)
    requires OrderedBut(h, n, k) && k > 0 && h[k].at <= h[Parent(k)].at
    ensures ChildrenOk(h, n, k)
  {}

  lemma PrefixOrder(h: seq<Anhe>, i: nat)
    requires Ordered(h, i) && i < |h|
    ensures OrderedBut(h, i + 1, i) && ChildrenOk(h, i + 1, i)
  {}

  /** The heap after the last entry has been copied over entry `k` and dropped. */
  function Dropped(h: seq<Anhe>, k: nat): (s: seq<Anhe>)
    requires k < |h|
    ensures |s| == |h| - 1
    ensures forall i :: 0 <= i < |s| ==> s[i] == if i == k then h[|h| - 1] else h[i]
  {
    var last := |h| - 1;
    if k < last then h[..last][k := h[last]] else h[..last]
  }

  lemma {:induction false} DroppedEntries(h: seq<Anhe>, k: nat)
    requires k < |h| && Distinct(h)
    ensures multiset(Dropped(h, k)) == multiset(h) - multiset{h[k]} && Distinct(Dropped(h, k))
    ensures Watchers(Dropped(h, k)) == Watchers(h) - {h[k].w}
  {
    var last := |h| - 1;
    assert h == h[..last] + [h[last]];
    assert multiset(h) == multiset(h[..last]) + multiset{h[last]};
    DroppedWatchers(h, k);
  }

  lemma {:induction false} DroppedWatchers(h: seq<Anhe>, k: nat)
    requires k < |h| && Distinct(h)
    ensures Watchers(Dropped(h, k)) == Watchers(h) - {h[k].w}
  {
    var s := Dropped(h, k);
    hide Dropped;
    forall w | w in Watchers(h) - {h[k].w} ensures w in Watchers(s) {
      var i :| 0 <= i < |h| && h[i].w == w;
      Member(s, if i == |h| - 1 then k else i);
    }
    forall w | w in Watchers(s) ensures w in Watchers(h) - {h[k].w} {
      var i :| 0 <= i < |s| && s[i].w == w;
      Member(h, if i == k then |h| - 1 else i);
    }
  }

  lemma {:induction false} AddedEntries(h: seq<Anhe>, e: Anhe)
    requires Distinct(h) && e.w !in Watchers(h)
    ensures multiset(h + [e]) == multiset(h) + multiset{e} && Distinct(h + [e])
    ensures Watchers(h + [e]) == Watchers(h) + {e.w}
  {
    forall i | 0 <= i < |h| ensures h[i].w != e.w { Member(h, i); }
    forall w ensures w in Watchers(h + [e]) <==> w in Watchers(h) + {e.w} {
      if w in Watchers(h) {
        var i :| 0 <= i < |h| && h[i].w == w;
        assert (h + [e])[i] == h[i];
      }
      assert (h + [e])[|h|] == e;
    }
  }

  lemma {:induction false} SameParts(a: seq<Anhe>, b: seq<Anhe>)
    requires Same(a, b)
    ensures multiset(a) == multiset(b) && Watchers(a) == Watchers(b)
  {
    hide Watchers;
  }

  /** An entry that was taken out took nothing else with it. */
  lemma {:induction false} TakenEntries(h: seq<Anhe>, k: nat, s: seq<Anhe>)
    requires k < |h| && multiset(s) == multiset(h) - multiset{h[k]} && Watchers(s) == Watchers(h) - {h[k].w}
    ensures forall x :: x in s ==> x in h && x.w != h[k].w
  {
    MultisetMembers(h);
    MultisetMembers(s);
    hide Watchers;
    forall x | x in s ensures x in h && x.w != h[k].w { MemberOf(s, x); }
  }

  lemma MultisetMembers(h: seq<Anhe>)
    ensures forall x :: x in h <==> x in multiset(h)
  {}

  lemma MemberOf(h: seq<Anhe>, x: Anhe)
    requires x in h
    ensures x.w in Watchers(h)
  {}

  lemma {:induction false} ReplacedEntries(h: seq<Anhe>, k: nat, e: Anhe)
    requires k < |h| && Distinct(h) && e.w == h[k].w
    ensures multiset(h[k := e]) == multiset(h) - multiset{h[k]} + multiset{e} && Distinct(h[k := e])
    ensures Watchers(h[k := e]) == Watchers(h)
  {
    var s := h[k := e];
    forall w ensures w in Watchers(s) <==> w in Watchers(h) {
      if w in Watchers(h) {
        var i :| 0 <= i < |h| && h[i].w == w;
        assert s[i].w == w;
      }
      if w in Watchers(s) {
        var i :| 0 <= i < |s| && s[i].w == w;
        assert h[i].w == w;
      }
    }
  }

  /** The hole at `k` does not hide any of its children. */
  lemma MinChildOf(s: seq<Anhe>, h: seq<Anhe>, n: nat, k: nat, m: nat)
    requires k < n <= |s| == |h| && h == s[k := h[k]] && 0 < m < n && Parent(m) == k
    requires forall i :: 0 < i < n && Parent(i) == k ==> s[m].at <= s[i].at
    ensures m > k && s[m] == h[m] && forall i :: 0 < i < n && Parent(i) == k ==> h[m].at <= h[i].at
    ensures h[k].at <= h[m].at ==> ChildrenOk(h, n, k)
  {}

  class Timers {
    const queue: PendingQueue
    ghost const members: set<Watcher>

    var timers: seq<Anhe>
    var now: real

    constructor (queue: PendingQueue, ghost members: set<Watcher>)
      requires queue.Valid() && members <= queue.watchers
      requires forall w :: w in members ==> w.active == 0 && w.repeat >= 0.0
      ensures Valid() && this.queue == queue && this.members == members && timers == []
    {
      this.queue, this.members := queue, members;
      timers, now := [], 0.0;
    }

    /** The first `n` entries have their slots recorded in their timers. */
    ghost predicate Placed(n: nat)
      reads this`timers, Watchers(timers)`active
    {
      n <= |timers| && forall i :: 0 <= i < n ==> timers[i].w.active == i + HEAP0
    }

    /** Writes an entry and tells its timer where it is. */
    method Put(k: nat, he: Anhe)
      requires k < |timers|
      modifies this`timers, he.w`active
      ensures timers == old(timers)[k := he] && he.w.active == k + HEAP0
    {
      timers := timers[k := he];
      he.w.active := k + HEAP0;
    }

    /** `h` is the heap with the entry being moved back in the hole at `k`. */
    ghost predicate Hole(h: seq<Anhe>, n: nat, k: nat)
      reads this`timers, Watchers(timers)`active
    {
      && k < n <= |timers| == |h| && h == timers[k := h[k]] && Distinct(h)
      && (forall i :: 0 <= i < n && i != k ==> timers[i].w.active == i + HEAP0)
    }

    /** Fills the hole from `p`, which becomes the hole. */
    method MoveInto(k: nat, p: nat, ghost h: seq<Anhe>, ghost n: nat)
      requires Hole(h, n, k) && p < n && p != k
      modifies this`timers, timers[p].w`active
      ensures Hole(Swap(h, k, p), n, p)
      ensures timers == old(timers)[k := old(timers)[p]]
    {
      Put(k, timers[p]);
    }

    /** Puts the moved entry into the hole. */
    method Fill(k: nat, he: Anhe, ghost h: seq<Anhe>, ghost n: nat)
      requires Hole(h, n, k) && h[k] == he
      modifies this`timers, he.w`active
      ensures timers == h && Placed(n)
    {
      Put(k, he);
    }

    /** Moves the entry at `k` toward the root. */
    method Upheap(k: nat, ghost n: nat)
      requires k < n <= |timers| && Hole(timers, n, k)
      requires OrderedBut(timers, n, k) && ChildrenOk(timers, n, k)
      modifies this`timers, Watchers(timers)`active
      ensures Ordered(timers, n) && Distinct(timers) && Placed(n)
      ensures Same(timers, old(timers)) && timers[n..] == old(timers)[n..]
    {
      hide OrderedBut, ChildrenOk, Ordered, Watchers, Swap, Same, Placed;
      var he := timers[k];
      var j := k;
      ghost var h := timers;
      SameRefl(h);
      Member(h, k);
      while true
        invariant Hole(h, n, j) && h[j] == he && OrderedBut(h, n, j) && ChildrenOk(h, n, j)
        invariant Same(h, old(timers)) && h[n..] == old(timers)[n..]
        decreases j
      {
        ParentSlots(j);
        var p := HParent(j + HEAP0) - HEAP0;
        if p == j || timers[p].at <= he.at {
          break;
        }
        Member(h, p);
        UpStep(h, n, j);
        SwapSame(h, j, p, old(timers), n);
        MoveInto(j, p, h, n);
        h := Swap(h, j, p);
        j := p;
      }
      Fill(j, he, h, n);
      Settled(h, n, j);
    }

    /** The smallest child of `k` among the first `n` entries. */
    method MinChild(k: nat, n: nat) returns (m: nat)
      requires n <= |timers| && DHEAP * k + 1 < n
      ensures 0 < m < n && Parent(m) == k
      ensures forall i :: 0 < i < n && Parent(i) == k ==> timers[m].at <= timers[i].at
    {
      var pos := DHEAP * k + 1;
      m := pos;
      if pos + DHEAP - 1 < n {
        if timers[m].at > timers[pos + 1].at { m := pos + 1; }
        if timers[m].at > timers[pos + 2].at { m := pos + 2; }
        if timers[m].at > timers[pos + 3].at { m := pos + 3; }
      } else {
        if pos + 1 < n && timers[m].at > timers[pos + 1].at { m := pos + 1; }
        if pos + 2 < n && timers[m].at > timers[pos + 2].at { m := pos + 2; }
        // The test for a fourth child never succeeds here.
      }
      forall i | 0 < i < n && Parent(i) == k ensures timers[m].at <= timers[i].at {
        assert i == pos || i == pos + 1 || i == pos + 2 || i == pos + 3;
      }
    }

    /** Moves the entry at `k` away from the root. */
    method Downheap(n: nat, k: nat)
      requires k < n <= |timers| && Hole(timers, n, k)
      requires OrderedBut(timers, n, k) && ParentOk(timers, k)
      modifies this`timers, Watchers(timers)`active
      ensures Ordered(timers, n) && Distinct(timers) && Placed(n)
      ensures Same(timers, old(timers)) && timers[n..] == old(timers)[n..]
    {
      hide OrderedBut, ParentOk, Ordered, Watchers, Swap, Same, Placed;
      var he := timers[k];
      var j := k;
      ghost var h := timers;
      SameRefl(h);
      Member(h, k);
      while DHEAP * j + 1 < n
        invariant Hole(h, n, j) && h[j] == he && OrderedBut(h, n, j) && ParentOk(h, j)
        invariant Same(h, old(timers)) && h[n..] == old(timers)[n..]
        invariant DHEAP * j + 1 >= n ==> ChildrenOk(h, n, j)
        decreases n - j
      {
        var m := MinChild(j, n);
        MinChildOf(timers, h, n, j, m);
        if he.at <= timers[m].at {
          break;
        }
        DownStep(h, n, j, m);
        SwapSame(h, j, m, old(timers), n);
        MoveInto(j, m, h, n);
        h := Swap(h, j, m);
        j := m;
      }
      Fill(j, he, h, n);
      Settled(h, n, j);
    }

    /** Moves the entry at `k`, just changed, to where it belongs. */
    method AdjustHeap(n: nat, k: nat)
      requires k < n <= |timers| && Hole(timers, n, k) && OrderedBut(timers, n, k)
      modifies this`timers, Watchers(timers)`active
      ensures Ordered(timers, n) && Distinct(timers) && Placed(n)
      ensures Same(timers, old(timers)) && timers[n..] == old(timers)[n..]
    {
      hide OrderedBut, Ordered, Same, Hole, Watchers;
      ParentSlots(k);
      if k > 0 && timers[k].at <= timers[HParent(k + HEAP0) - HEAP0].at {
        BelowChildren(timers, n, k);
        Upheap(k, n);
      } else {
        Downheap(n, k);
      }
    }

    /** Makes a heap of an arbitrary array. */
    method Reheap()
      requires Distinct(timers)
      modifies this`timers, Watchers(timers)`active
      ensures HeapOk() && Same(timers, old(timers))
    {
      hide OrderedBut, ChildrenOk, Watchers;
      for i := 0 to |timers|
        invariant |timers| == |old(timers)| && Ordered(timers, i) && Distinct(timers) && Placed(i)
        invariant Same(timers, old(timers))
      {
        PrefixOrder(timers, i);
        Upheap(i, i + 1);
      }
    }

    // ---------- the heap as a collection of deadlines ----------

    ghost predicate HeapOk()
      reads this`timers, Watchers(timers)`active
    {
      Ordered(timers, |timers|) && Distinct(timers) && Placed(|timers|)
    }

    ghost predicate AllActive()
      reads this`timers, Watchers(timers)`active
    {
      forall w :: w in Watchers(timers) ==> w.active != 0
    }

    lemma {:induction false} PlacedActive()
      requires HeapOk()
      ensures AllActive()
    {
      forall w | w in Watchers(timers) ensures w.active != 0 {
        var i :| 0 <= i < |timers| && timers[i].w == w;
      }
    }

    method InsertEntry(e: Anhe)
      requires HeapOk() && e.w !in Watchers(timers)
      modifies this`timers, Watchers(timers)`active, e.w`active
      ensures HeapOk() && AllActive() && multiset(timers) == old(multiset(timers)) + multiset{e}
      ensures Watchers(timers) == old(Watchers(timers)) + {e.w}
      ensures forall x :: x in timers <==> x in old(timers) || x == e
    {
      MultisetMembers(timers);
      hide OrderedBut, Ordered, ChildrenOk, Watchers;
      AppendedOrder(timers, e);
      AddedEntries(timers, e);
      timers := timers + [e];
      e.w.active := |timers| - 1 + HEAP0;
      Upheap(|timers| - 1, |timers|);
      MultisetMembers(timers);
      PlacedActive();
    }

    method RemoveEntry(k: nat)
      requires HeapOk() && k < |timers|
      modifies this`timers, Watchers(timers)`active
      ensures HeapOk() && AllActive()
      ensures multiset(timers) == old(multiset(timers)) - multiset{old(timers)[k]}
      ensures Watchers(timers) == old(Watchers(timers)) - {old(timers)[k].w}
      ensures forall x :: x in timers ==> x in old(timers) && x.w != old(timers)[k].w
    {
      hide OrderedBut, Ordered, Watchers, Same;
      DroppedEntries(timers, k);
      ghost var was, dropped := timers, Dropped(timers, k);
      var n := |timers| - 1;
      var last := timers[n];
      ShortenedOrder(timers, n);
      timers := timers[..n];
      SameRefl(dropped);
      if k < n {
        ReplacedOrder(timers, k, last);
        timers := timers[k := last];
        assert timers == dropped;
        AdjustHeap(n, k);
      }
      SameParts(timers, dropped);
      TakenEntries(was, k, timers);
      PlacedActive();
    }

    /** Gives the timer at `k` a new deadline. */
    method ReplaceEntry(k: nat, e: Anhe)
      requires HeapOk() && k < |timers| && e.w == timers[k].w
      modifies this`timers, Watchers(timers)`active
      ensures HeapOk() && AllActive()
      ensures multiset(timers) == old(multiset(timers)) - multiset{old(timers)[k]} + multiset{e}
      ensures Watchers(timers) == old(Watchers(timers))
      ensures forall x :: x in timers ==> x == e || (x in old(timers) && x.w != e.w)
    {
      hide OrderedBut, Ordered, Watchers;
      ReplacedOrder(timers, k, e);
      ReplacedEntries(timers, k, e);
      timers := timers[k := e];
      ghost var replaced := timers;
      AdjustHeap(|timers|, k);
      MultisetMembers(timers);
      MultisetMembers(replaced);
      PlacedActive();
    }

    /** Gives the timer at the root a later deadline. */
    method ReplaceRoot(e: Anhe)
      requires HeapOk() && timers != [] && e.w == timers[0].w
      modifies this`timers, Watchers(timers)`active
      ensures HeapOk() && AllActive()
      ensures multiset(timers) == old(multiset(timers)) - multiset{old(timers)[0]} + multiset{e}
      ensures Watchers(timers) == old(Watchers(timers))
      ensures forall x :: x in timers ==> x == e || (x in old(timers) && x.w != e.w)
    {
      hide OrderedBut, Ordered, Watchers;
      ReplacedOrder(timers, 0, e);
      ReplacedEntries(timers, 0, e);
      timers := timers[0 := e];
      ghost var replaced := timers;
      Downheap(|timers|, 0);
      MultisetMembers(timers);
      MultisetMembers(replaced);
      PlacedActive();
    }

    // ---------- timers ----------

    /** Entries repeat their timers' deadlines, and the timers in the heap are exactly
        the active ones. */
    ghost predicate Tracked()
      reads this`timers, Watchers(timers)`active, Watchers(timers)`at, members`active, members`repeat
    {
      && Watchers(timers) <= members
      && (forall e :: e in timers ==> e.at == e.w.at)
      && (forall w :: w in members ==> w.repeat >= 0.0 && (w.active != 0 <==> w in Watchers(timers)))
    }

    /** What holds of the timers whatever is pending. */
    ghost predicate Own()
      reads this`timers, Watchers(timers)`active, Watchers(timers)`at, members`active, members`repeat
    {
      HeapOk() && Tracked() && members <= queue.watchers
    }

    ghost predicate Valid()
      reads this`timers, Watchers(timers)`active, Watchers(timers)`at, members`active, members`repeat,
        queue`pendings, queue`trace, queue.watchers`pending
    {
      Own() && queue.Valid()
    }

    /** An active timer's slot number leads to its entry. */
    lemma EntryOf(w: Watcher)
      requires HeapOk() && Tracked() && w in members && w.active != 0
      ensures HEAP0 <= w.active < |timers| + HEAP0 && timers[w.active - HEAP0] == Anhe(w.at, w)
    {}

    method TimerStart(w: Watcher)
      requires Valid() && w in members
      modifies this`timers, members`active, w`at
      ensures Valid() && w.active != 0
      ensures old(w.active) != 0 ==> timers == old(timers) && w.at == old(w.at)
      ensures old(w.active) == 0 ==>
        w.at == old(w.at) + now && multiset(timers) == old(multiset(timers)) + multiset{Anhe(w.at, w)}
    {
      hide HeapOk, Watchers;
      if w.active != 0 {
        return;
      }
      forall e | e in timers ensures e.w != w { MemberOf(timers, e); }
      w.at := w.at + now;
      InsertEntry(Anhe(w.at, w));
    }

    method TimerStop(w: Watcher)
      requires Valid() && w in members
      modifies this`timers, members`active, w`at, queue`pendings, queue`trace, w`pending
      ensures Valid() && w.active == 0 && w.pending == 0 && queue.trace == old(queue.trace) + [Cleared(w)]
      ensures SameSizes(queue.pendings, old(queue.pendings))
      ensures old(w.pending) == 0 ==> queue.pendings == old(queue.pendings)
      ensures old(w.active) == 0 ==> timers == old(timers) && w.at == old(w.at)
      ensures old(w.active) != 0 ==>
        w.at == old(w.at) - now && multiset(timers) == old(multiset(timers)) - multiset{Anhe(old(w.at), w)}
      ensures old(w.active) != 0 ==> Watchers(timers) == old(Watchers(timers)) - {w}
    {
      hide *;
      ClearFirst(w);
      if w.active == 0 {
        return;
      }
      TakeOut(w);
    }

    /** Takes an active timer out of the heap. */
    method TakeOut(w: Watcher)
      requires Valid() && w in members && w.active != 0
      modifies this`timers, members`active, w`at
      ensures Valid() && w.active == 0 && w.at == old(w.at) - now
      ensures multiset(timers) == old(multiset(timers)) - multiset{Anhe(old(w.at), w)}
      ensures Watchers(timers) == old(Watchers(timers)) - {w}
    {
      hide HeapOk, Watchers, PendingQueue.Valid;
      EntryOf(w);
      RemoveEntry(w.active - HEAP0);
      w.at := w.at - now;
      w.active := 0;
    }

    method TimerAgain(w: Watcher)
      requires Valid() && w in members
      modifies this`timers, members`active, w`at, queue`pendings, queue`trace, w`pending
      ensures Valid() && w.pending == 0 && SameSizes(queue.pendings, old(queue.pendings))
      ensures var twice := old(w.active) != 0 && w.repeat == 0.0;
        queue.trace == old(queue.trace) + [Cleared(w)] + if twice then [Cleared(w)] else []
      ensures w.active != 0 <==> w.repeat != 0.0
      ensures w.active != 0 ==> w.at == now + w.repeat
      ensures multiset(timers) ==
        (if old(w.active) != 0 then old(multiset(timers)) - multiset{Anhe(old(w.at), w)} else old(multiset(timers)))
        + (if w.active != 0 then multiset{Anhe(w.at, w)} else multiset{})
    {
      hide HeapOk, Watchers, Valid;
      ClearFirst(w);
      if w.active != 0 {
        if w.repeat != 0.0 {
          Reschedule(w, now + w.repeat);
        } else {
          TimerStop(w);
        }
      } else if w.repeat != 0.0 {
        Unlisted(w);
        w.at := w.repeat;
        TimerStart(w);
      }
    }

    lemma {:induction false} Unlisted(w: Watcher)
      requires Valid() && w in members && w.active == 0
      ensures w !in Watchers(timers)
    {
      hide HeapOk, Watchers;
    }

    method ClearFirst(w: Watcher)
      requires Valid() && w in members
      modifies queue`pendings, queue`trace, w`pending
      ensures Valid() && w.pending == 0 && queue.trace == old(queue.trace) + [Cleared(w)]
      ensures SameSizes(queue.pendings, old(queue.pendings))
      ensures old(w.pending) == 0 ==> queue.pendings == old(queue.pendings)
    {
      hide HeapOk, Watchers;
      var _ := queue.ClearPending(w);
    }

    /** Gives an active timer a new deadline. */
    method Reschedule(w: Watcher, at: real)
      requires Valid() && w in members && w.active != 0
      modifies this`timers, members`active, w`at
      ensures Valid() && w.active != 0 && w.at == at
      ensures multiset(timers) == old(multiset(timers)) - multiset{Anhe(old(w.at), w)} + multiset{Anhe(at, w)}
    {
      hide HeapOk, Watchers;
      EntryOf(w);
      w.at := at;
      ReplaceEntry(w.active - HEAP0, Anhe(at, w));
    }

    // ---------- expiry ----------

    /** The deadline of a timer that expired at `at`, started again. */
    function Next(at: real, repeat: real): real
      reads this`now
    {
      if at + repeat < now then now else at + repeat
    }

    /** A timer after its expiry at `at` has been dealt with. */
    ghost predicate Handled(w: Watcher, at: real)
      reads this`now, w`at, w`active, w`repeat
    {
      && (w.repeat != 0.0 ==> w.active != 0 && w.at == Next(at, w.repeat))
      && (w.repeat == 0.0 ==> w.active == 0 && w.at == at - now)
    }

    /** Gives the repeating timer at the root its next deadline. */
    method RestartRoot(w: Watcher)
      requires Valid() && timers != [] && w == timers[0].w && w in members && w.repeat != 0.0
      modifies this`timers, members`active, w`at
      ensures Valid() && w.at == Next(old(w.at), w.repeat) && w.at >= now
      ensures forall v :: v in members ==> (v.active != 0 <==> old(v.active) != 0)
      ensures forall e :: e in timers ==> e in old(timers) || e.at == w.at
    {
      hide HeapOk, Watchers;
      w.at := Next(w.at, w.repeat);
      ReplaceRoot(Anhe(w.at, w));
    }

    /** Stops the timer at the root. */
    method StopRoot(w: Watcher)
      requires Valid() && timers != [] && w == timers[0].w && w in members
      modifies this`timers, members`active, w`at, queue`pendings, queue`trace, w`pending
      ensures Valid() && w.active == 0 && w.at == old(w.at) - now && w.pending == 0
      ensures forall v :: v in members && v != w ==> (v.active != 0 <==> old(v.active) != 0)
      ensures old(w.pending) == 0 ==> queue.pendings == old(queue.pendings)
      ensures queue.trace == old(queue.trace) + [Cleared(w)]
      ensures forall e :: e in timers ==> e in old(timers)
    {
      hide HeapOk, Watchers;
      Member(timers, 0);
      MultisetMembers(timers);
      TimerStop(w);
      MultisetMembers(timers);
    }

    /** The timer at the root is an active one with the deadline of its entry. */
    lemma {:induction false} RootTimer()
      requires Valid() && timers != []
      ensures timers[0].w in members && timers[0].w.active != 0 && timers[0].w.at == timers[0].at
    {
      hide HeapOk, Watchers;
      Member(timers, 0);
    }

    /** Reschedules or stops the timer at the root, which has expired. */
    method ExpireRoot() returns (w: Watcher)
      requires Valid() && timers != [] && timers[0].at < now
      modifies this`timers, members`active, members`at, queue`pendings, queue`trace, members`pending
      ensures Valid() && w == old(timers)[0].w && Handled(w, old(w.at)) && old(w.at) == old(timers)[0].at
      ensures w in members && old(w.active) != 0
      ensures w.repeat != 0.0 ==>
        w.active != 0 && w.at == if old(w.at) + w.repeat >= now then old(w.at) + w.repeat else now
      ensures w.repeat == 0.0 ==> w.active == 0 && w.at == old(w.at) - now
      ensures forall v :: v in members && v != w ==>
        v.at == old(v.at) && v.pending == old(v.pending) && (v.active != 0 <==> old(v.active) != 0)
      ensures old(w.pending) == 0 ==> w.pending == 0 && queue.pendings == old(queue.pendings)
      ensures queue.trace == old(queue.trace) + if w.repeat != 0.0 then [] else [Cleared(w)]
      ensures forall e :: e in timers ==> e in old(timers) || e.at >= now
    {
      RootTimer();
      hide Valid;
      w := timers[0].w;
      if w.repeat != 0.0 {
        RestartRoot(w);
      } else {
        StopRoot(w);
      }
    }

    /** Reversed, the timers of one priority as their events are put on its stack. */
    ghost function StackOf(rfeeds: seq<Watcher>, p: nat): seq<Anpending> {
      if rfeeds == [] then []
      else StackOf(rfeeds[1..], p) + if rfeeds[0].priority == p then [Anpending(rfeeds[0], EV_TIMER)] else []
    }

    /** Deadlines and activity before the expired timers are dealt with. */
    ghost function Snapshot(): map<Watcher, (real, bool)>
      reads members`at, members`active
    {
      map w | w in members :: (w.at, w.active != 0)
    }

    /** The timers in `done`, in the order of the deadlines they expired at, have been
        dealt with, and no others have changed. */
    ghost predicate Outcome(was: map<Watcher, (real, bool)>, done: seq<Watcher>)
      reads this`now, members`at, members`active, members`repeat
    {
      && was.Keys == members
      && (forall w :: w in done ==> w in members && was[w].1 && was[w].0 < now && Handled(w, was[w].0))
      && (forall w :: w in members && w !in done ==> w.at == was[w].0 && (w.active != 0 <==> was[w].1))
      && (forall i, j :: 0 <= i < j < |done| ==> done[i] != done[j] && was[done[i]].0 <= was[done[j]].0)
    }

    /** No entry left in the heap is due before a timer that has been dealt with. */
    ghost predicate Progress(was: map<Watcher, (real, bool)>, done: seq<Watcher>)
      reads this`timers, this`now, members`at, members`active, members`repeat
    {
      Outcome(was, done) && forall w, e :: w in done && e in timers ==> was[w].0 <= e.at
    }

    ghost predicate NonePending()
      reads members`pending
    {
      forall w :: w in members ==> w.pending == 0
    }

    /** Deals with one expired timer. */
    method ExpireNext(ghost was: map<Watcher, (real, bool)>, rfeeds: seq<Watcher>) returns (w: Watcher)
      requires Valid() && timers != [] && timers[0].at < now && Progress(was, rfeeds)
      modifies this`timers, members`active, members`at, queue`pendings, queue`trace, members`pending
      ensures Valid() && Progress(was, rfeeds + [w]) && w in members && w !in rfeeds
      ensures queue.trace == old(queue.trace) + if w.repeat != 0.0 then [] else [Cleared(w)]
      ensures old(NonePending()) ==> NonePending() && queue.pendings == old(queue.pendings)
    {
      hide Watchers, Valid;
      RootLeast();
      NotYet(was, rfeeds);
      w := ExpireRoot();
      assert Outcome(was, rfeeds + [w]) by {
        forall v | v in rfeeds ensures Handled(v, was[v].0) { assert v.at == old(v.at); }
        hide Handled;
      }
      hide Outcome;
    }

    lemma {:induction false} RootLeast()
      requires Valid() && timers != []
      ensures forall e :: e in timers ==> timers[0].at <= e.at
    {
      hide Tracked;
      forall e | e in timers ensures timers[0].at <= e.at {
        var i :| 0 <= i < |timers| && timers[i] == e;
        RootIsLeast(timers, |timers|, i);
      }
    }

    /** An expired timer has not been dealt with: that would have moved its deadline. */
    lemma {:induction false} NotYet(was: map<Watcher, (real, bool)>, rfeeds: seq<Watcher>)
      requires Valid() && timers != [] && timers[0].at < now && Progress(was, rfeeds)
      ensures timers[0].w !in rfeeds && timers[0].w in members && timers[0].at == was[timers[0].w].0
      ensures was[timers[0].w].1
    {
      Member(timers, 0);
    }

    /** The feeds of the collected timers, last one first. */
    ghost function FeedsOf(rfeeds: seq<Watcher>): seq<Happening> {
      if rfeeds == [] then [] else FeedsOf(rfeeds[1..]) + [Fed(rfeeds[0], EV_TIMER)]
    }

    /** The clears of the collected timers that do not repeat, which are stopped. */
    ghost function ClearsOf(rfeeds: seq<Watcher>): seq<Happening>
      reads rfeeds`repeat
    {
      if rfeeds == [] then []
      else
        var k := |rfeeds| - 1;
        ClearsOf(rfeeds[..k]) + if rfeeds[k].repeat != 0.0 then [] else [Cleared(rfeeds[k])]
    }

    lemma {:induction false} ClearsStep(rfeeds: seq<Watcher>, w: Watcher)
      ensures ClearsOf(rfeeds + [w]) == ClearsOf(rfeeds) + if w.repeat != 0.0 then [] else [Cleared(w)]
    {
      assert (rfeeds + [w])[..|rfeeds|] == rfeeds;
    }

    lemma {:induction false} ClearsNext(trace: seq<Happening>, rfeeds: seq<Watcher>, w: Watcher)
      ensures (trace + ClearsOf(rfeeds)) + (if w.repeat != 0.0 then [] else [Cleared(w)])
           == trace + ClearsOf(rfeeds + [w])
    {
      ClearsStep(rfeeds, w);
      hide ClearsOf;
    }

    lemma ClearsNone()
      ensures ClearsOf([]) == []
    {}

    method FeedTimer(w: Watcher)
      requires Valid() && w in members
      modifies queue`pendings, queue`pendingpri, queue`trace, w`pending
      ensures Valid() && queue.trace == old(queue.trace) + [Fed(w, EV_TIMER)]
      ensures |queue.pendings| == |old(queue.pendings)| == NUMPRI && w.priority < NUMPRI
      ensures old(w.pending) == 0 ==>
        queue.pendings == old(queue.pendings)[w.priority := old(queue.pendings)[w.priority] + [Anpending(w, EV_TIMER)]]
    {
      hide HeapOk, Watchers;
      queue.StacksThere();
      queue.FeedEvent(w, EV_TIMER);
    }

    lemma {:induction false} Stacks()
      requires Valid()
      ensures |queue.pendings| == NUMPRI
    {
      hide HeapOk, Tracked;
    }

    /** Feeds the collected timers, last one first. */
    method FeedReverseDone(rfeeds: seq<Watcher>)
      requires Valid() && forall w :: w in rfeeds ==> w in members
      requires forall i, j :: 0 <= i < j < |rfeeds| ==> rfeeds[i] != rfeeds[j]
      modifies queue`pendings, queue`pendingpri, queue`trace, members`pending
      ensures Valid() && |queue.pendings| == |old(queue.pendings)| == NUMPRI
      ensures queue.trace == old(queue.trace) + FeedsOf(rfeeds)
      ensures old(NonePending()) ==>
        forall p :: 0 <= p < NUMPRI ==> queue.pendings[p] == old(queue.pendings)[p] + StackOf(rfeeds, p)
    {
      hide StackOf, FeedsOf, Valid;
      Stacks();
      var rfeedcnt: nat := |rfeeds|;
      StackNone(rfeeds);
      while rfeedcnt > 0
        invariant rfeedcnt <= |rfeeds| && Valid() && |queue.pendings| == |old(queue.pendings)| == NUMPRI
        invariant queue.trace == old(queue.trace) + FeedsOf(rfeeds[rfeedcnt..])
        invariant old(NonePending()) ==> forall i :: 0 <= i < rfeedcnt ==> rfeeds[i].pending == 0
        invariant old(NonePending()) ==> forall p :: 0 <= p < NUMPRI ==>
          queue.pendings[p] == old(queue.pendings)[p] + StackOf(rfeeds[rfeedcnt..], p)
      {
        rfeedcnt := rfeedcnt - 1;
        StackStep(rfeeds, rfeedcnt, 0);
        forall p | 0 <= p < NUMPRI { StackStep(rfeeds, rfeedcnt, p); }
        FeedTimer(rfeeds[rfeedcnt]);
      }
      assert rfeeds[0..] == rfeeds;
    }

    lemma StackNone(rfeeds: seq<Watcher>)
      ensures FeedsOf(rfeeds[|rfeeds|..]) == [] && forall p: nat :: StackOf(rfeeds[|rfeeds|..], p) == []
    {}

    lemma {:induction false} StackStep(rfeeds: seq<Watcher>, k: nat, p: nat)
      requires k < |rfeeds|
      ensures FeedsOf(rfeeds[k..]) == FeedsOf(rfeeds[k + 1..]) + [Fed(rfeeds[k], EV_TIMER)]
      ensures StackOf(rfeeds[k..], p) == StackOf(rfeeds[k + 1..], p)
        + if rfeeds[k].priority == p then [Anpending(rfeeds[k], EV_TIMER)] else []
    {
      assert rfeeds[k..][1..] == rfeeds[k + 1..];
    }

    /** The timers that have not been dealt with. */
    ghost predicate Remaining(left: set<Watcher>, done: seq<Watcher>) {
      left == set w | w in members && w !in done
    }

    lemma RemainingStart()
      ensures Remaining(members, [])
    {}

    lemma RemainingLess(left: set<Watcher>, done: seq<Watcher>, w: Watcher)
      requires Remaining(left, done) && w in members && w !in done
      ensures w in left && Remaining(left - {w}, done + [w])
    {}

    lemma ProgressStart(was: map<Watcher, (real, bool)>)
      requires was == Snapshot()
      ensures Progress(was, [])
    {}

    lemma {:induction false} ProgressOutcome(was: map<Watcher, (real, bool)>, done: seq<Watcher>)
      requires Progress(was, done)
      ensures Outcome(was, done)
    {
      hide Outcome;
    }

    /** Reschedules or stops every timer that has expired. */
    method ExpireAll(ghost was: map<Watcher, (real, bool)>)
      returns (rfeeds: seq<Watcher>)
      requires Valid() && was == Snapshot()
      modifies this`timers, members`active, members`at, queue`pendings, queue`trace, members`pending
      ensures Valid() && Progress(was, rfeeds) && Outcome(was, rfeeds) && (timers == [] || timers[0].at >= now)
      ensures queue.trace == old(queue.trace) + ClearsOf(rfeeds)
      ensures old(NonePending()) ==> NonePending() && queue.pendings == old(queue.pendings)
    {
      hide Valid, Progress, Outcome, ClearsOf, NonePending, Remaining, Snapshot;
      ProgressStart(was);
      RemainingStart();
      ghost var left := members;
      rfeeds := [];
      ClearsNone();
      while timers != [] && timers[0].at < now
        invariant Valid() && Progress(was, rfeeds)
        invariant queue.trace == old(queue.trace) + ClearsOf(rfeeds)
        invariant old(NonePending()) ==> NonePending() && queue.pendings == old(queue.pendings)
        invariant Remaining(left, rfeeds)
        decreases left
      {
        var w := ExpireNext(was, rfeeds);
        ClearsNext(old(queue.trace), rfeeds, w);
        RemainingLess(left, rfeeds, w);
        rfeeds := rfeeds + [w];
        left := left - {w};
      }
      ProgressOutcome(was, rfeeds);
    }

    /** Reschedules or stops every timer that has expired, and queues one event for
        each. With no timer pending before, each stack gets its expired timers on top,
        the one with the earliest deadline last. */
    method TimersReify() returns (ghost expired: seq<Watcher>)
      requires Valid()
      modifies this`timers, members`active, members`at, queue`pendings, queue`pendingpri, queue`trace,
        members`pending
      ensures Valid() && forall e :: e in timers ==> e.at >= now
      ensures var was := old(Snapshot());
        Outcome(was, expired) && forall w :: w in members && was[w].1 && was[w].0 < now ==> w in expired
      ensures forall w :: w in members ==> (w in expired <==> old(w.active) != 0 && old(w.at) < now)
      ensures forall w :: w in expired && w.repeat != 0.0 ==>
        w.active != 0 && w.at == if old(w.at) + w.repeat >= now then old(w.at) + w.repeat else now
      ensures forall w :: w in expired && w.repeat == 0.0 ==> w.active == 0
      ensures forall w :: w in members && w !in expired ==> w.at == old(w.at) && (w.active != 0 <==> old(w.active) != 0)
      ensures queue.trace == old(queue.trace) + ClearsOf(expired) + FeedsOf(expired)
      ensures old(NonePending()) ==>
        && |queue.pendings| == |old(queue.pendings)| == NUMPRI
        && forall p :: 0 <= p < NUMPRI ==> queue.pendings[p] == old(queue.pendings)[p] + StackOf(expired, p)
    {
      hide *;
      ghost var was := Snapshot();
      SnapshotIs();
      var rfeeds := ExpireAll(was);
      AllHandled(was, rfeeds);
      OutcomeDistinct(was, rfeeds);
      HandledInTime(was, rfeeds);
      FeedReverseDone(rfeeds);
      expired := rfeeds;
    }

    lemma OutcomeDistinct(was: map<Watcher, (real, bool)>, done: seq<Watcher>)
      requires Outcome(was, done)
      ensures forall w :: w in done ==> w in members
      ensures forall i, j :: 0 <= i < j < |done| ==> done[i] != done[j]
    {}

    /** Any sequence of operations, with the clock set before each expiry. */
    method Perform(ops: seq<Op>)
      requires Valid() && forall op :: op in ops && !op.Reify? ==> op.w in members
      modifies this`timers, this`now, members`active, members`at, queue`pendings, queue`pendingpri, queue`trace,
        members`pending
      ensures Valid()
    {
      hide *;
      for i := 0 to |ops|
        invariant Valid()
      {
        match ops[i]
        case Start(w) => TimerStart(w);
        case Stop(w) => TimerStop(w);
        case Again(w) => TimerAgain(w);
        case Reify(t) =>
          now := t;
          var _ := TimersReify();
      }
    }

    /** Expiries that are each dealt with in the period after them let no drift add up:
        the deadline stays a whole number of periods after the first one. */
    method ExpireInTime(w: Watcher, clocks: seq<real>)
      requires Valid() && w in members && w.active != 0 && w.repeat > 0.0
      requires forall i :: 0 <= i < |clocks| ==>
        w.at + Periods(i, w.repeat) < clocks[i] <= w.at + Periods(i + 1, w.repeat)
      modifies this`timers, this`now, members`active, members`at, queue`pendings, queue`pendingpri, queue`trace,
        members`pending
      ensures Valid() && w.active != 0 && w.at == old(w.at) + |clocks| as real * w.repeat
    {
      hide *;
      PeriodsStep(0, w.repeat);
      ghost var start, repeat := w.at, w.repeat;
      for i := 0 to |clocks|
        invariant Valid() && w.active != 0 && w.at == start + Periods(i, repeat)
      {
        PeriodsStep(i, repeat);
        ExpireOnce(w, clocks[i]);
      }
      PeriodsIs(|clocks|, repeat);
    }

    /** A timer that expired less than a period ago is due one period after its deadline. */
    method ExpireOnce(w: Watcher, t: real)
      requires Valid() && w in members && w.active != 0 && w.at < t <= w.at + w.repeat
      modifies this`timers, this`now, members`active, members`at, queue`pendings, queue`pendingpri, queue`trace,
        members`pending
      ensures Valid() && w.active != 0 && w.at == old(w.at) + w.repeat
    {
      hide *;
      now := t;
      var _ := TimersReify();
    }

    /** Popped from the top, a stack gives its timers in the order of their deadlines. */
    lemma {:induction false} PopsInOrder(was: map<Watcher, (real, bool)>, done: seq<Watcher>, p: nat, i: nat, j: nat)
      requires Outcome(was, done) && i < j < |StackOf(done, p)|
      ensures var s := StackOf(done, p);
        s[i].w in was && s[j].w in was && was[s[j].w].0 <= was[s[i].w].0
    {
      StackSorted(was, done, p, i, j);
    }

    lemma {:induction false} StackSorted(was: map<Watcher, (real, bool)>, done: seq<Watcher>, p: nat, i: nat, j: nat)
      requires forall w :: w in done ==> w in was
      requires forall i, j :: 0 <= i < j < |done| ==> was[done[i]].0 <= was[done[j]].0
      requires i < j < |StackOf(done, p)|
      ensures var s := StackOf(done, p);
        s[i].w in was && s[j].w in was && was[s[j].w].0 <= was[s[i].w].0
    {
      var t := StackOf(done[1..], p);
      StackHolds(done[1..], p, i);
      if j < |t| {
        StackSorted(was, done[1..], p, i, j);
      }
    }

    lemma {:induction false} StackHolds(done: seq<Watcher>, p: nat, i: nat)
      ensures i < |StackOf(done, p)| ==> StackOf(done, p)[i].w in done && StackOf(done, p)[i].w.priority == p
      ensures forall w :: w in done && w.priority == p ==> Anpending(w, EV_TIMER) in StackOf(done, p)
    {
      if done != [] {
        StackHolds(done[1..], p, i);
        assert done == [done[0]] + done[1..];
      }
    }

    lemma {:induction false} SnapshotIs()
      ensures Snapshot().Keys == members
      ensures forall w :: w in members ==> Snapshot()[w].0 == w.at && (Snapshot()[w].1 <==> w.active != 0)
    {}

    /** A timer that has been dealt with is due one period after the deadline it expired
        at, or now if that has passed too. */
    lemma {:induction false} HandledInTime(was: map<Watcher, (real, bool)>, done: seq<Watcher>)
      requires Outcome(was, done)
      requires forall w :: w in members && was[w].1 && was[w].0 < now ==> w in done
      ensures was.Keys == members && forall w :: w in members ==> (w in done <==> was[w].1 && was[w].0 < now)
      ensures forall w :: w in done && w.repeat != 0.0 ==>
        w.active != 0 && w.at == if was[w].0 + w.repeat >= now then was[w].0 + w.repeat else now
      ensures forall w :: w in done && w.repeat == 0.0 ==> w.active == 0
      ensures forall w :: w in members && w !in done ==> w.at == was[w].0 && (w.active != 0 <==> was[w].1)
    {}

    lemma {:induction false} AllHandled(was: map<Watcher, (real, bool)>, done: seq<Watcher>)
      requires Valid() && Progress(was, done) && (timers == [] || timers[0].at >= now)
      ensures forall e :: e in timers ==> e.at >= now
      ensures forall w :: w in members && was[w].1 && was[w].0 < now ==> w in done
    {
      hide HeapOk;
      if timers != [] { RootLeast(); }
      forall w | w in members && was[w].1 && w !in done ensures was[w].0 >= now { EntryOf(w); }
    }
  }
}
