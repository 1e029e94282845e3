/** The ledger of a proof-of-work node: a tree of blocks with a first-seen
    longest-chain tip. */
module BlockTree {
  import opened Arithmetic
  import opened Wrappers

  /** A block hash. Two blocks never share one. */
  type Hash = nat

  /** What the ledger needs of a block: its own hash, its parent's and its index. */
  datatype Block = Block(hash: Hash, prev: Hash, idx: nat)

  /** A ledger entry. The genesis block has no parent. */
  datatype Entry = Entry(prev: Option<Hash>, idx: nat)

  type Ledger = map<Hash, Entry>

  datatype Tree = Tree(ledger: Ledger, last: Hash, height: nat, genesis: Hash)

  /** Every block but genesis hangs under its parent, one index below it. */
  ghost predicate Linked(ledger: Ledger, genesis: Hash) {
    && genesis in ledger && ledger[genesis] == Entry(None, 0)
    && forall h :: h in ledger && h != genesis ==>
         && ledger[h].prev.Some? && ledger[h].prev.value in ledger
         && ledger[h].idx == ledger[ledger[h].prev.value].idx + 1
  }

  /** The tip is a deepest block and the height counts the blocks down to it. */
  ghost predicate Rooted(t: Tree) {
    && Linked(t.ledger, t.genesis)
    && t.last in t.ledger && t.height == t.ledger[t.last].idx + 1
    && forall h :: h in t.ledger ==> t.ledger[h].idx < t.height
  }

  function Genesis(g: Hash): (t: Tree)
    ensures Rooted(t)
  {
    Tree(map[g := Entry(None, 0)], g, 1, g)
  }

  // ---------- appending ----------

  /** The new tree after a block arrives: an orphan is dropped, a held block is not
      overwritten, and the tip moves only for its own child or for a deeper block. */
  function Append(t: Tree, b: Block): Tree {
    if b.prev !in t.ledger then t
    else
      var ledger := if b.hash in t.ledger then t.ledger else t.ledger[b.hash := Entry(Some(b.prev), b.idx)];
      if t.last == b.prev then Tree(ledger, b.hash, t.height + 1, t.genesis)
      else if t.height <= b.idx then Tree(ledger, b.hash, b.idx + 1, t.genesis)
      else t.(ledger := ledger)
  }

  /** A block made from a ledger sits one index below its parent there, and has the
      parent and the index that the ledger already knows for its hash. */
  ghost predicate Consistent(ledger: Ledger, b: Block) {
    && (b.prev in ledger ==> b.idx == ledger[b.prev].idx + 1)
    && (b.hash in ledger ==> ledger[b.hash] == Entry(Some(b.prev), b.idx))
  }

  /** The block that a node mines on is consistent with its ledger, and stays so. */
  lemma CandidateConsistent(t: Tree, hash: Hash)
    requires Rooted(t) && hash !in t.ledger
    ensures Consistent(t.ledger, Block(hash, t.last, t.height))
  {}

  ghost predicate Submap(a: Ledger, b: Ledger) {
    forall h :: h in a ==> h in b && b[h] == a[h]
  }

  /** A new block below a held one keeps the ledger linked. */
  lemma LinkedMore(ledger: Ledger, genesis: Hash, b: Block)
    requires Linked(ledger, genesis) && b.hash !in ledger && b.prev in ledger && b.idx == ledger[b.prev].idx + 1
    ensures Linked(ledger[b.hash := Entry(Some(b.prev), b.idx)], genesis)
  {}

  /** Appending keeps the tree rooted. */
  lemma {:induction false} AppendRooted(t: Tree, b: Block)
    requires Rooted(t) && Consistent(t.ledger, b)
    ensures Rooted(Append(t, b)) && Append(t, b).genesis == t.genesis
  {
    hide Linked;
    if b.prev in t.ledger && b.hash !in t.ledger { LinkedMore(t.ledger, t.genesis, b); }
  }

  /** Appending adds the block if its parent is held, and nothing else; the tip moves
      only to a strictly deeper block. */
  lemma AppendGrows(t: Tree, b: Block)
    requires Rooted(t) && Consistent(t.ledger, b)
    ensures var t' := Append(t, b);
      && Submap(t.ledger, t'.ledger)
      && t'.ledger.Keys == (if b.prev in t.ledger then t.ledger.Keys + {b.hash} else t.ledger.Keys)
      && (b.prev in t.ledger ==> t'.ledger[b.hash] == Entry(Some(b.prev), b.idx) && t'.height >= b.idx + 1)
      && t'.height >= t.height
      && (t'.last != t.last ==>
           t'.last == b.hash && t'.last in t'.ledger && t'.ledger[t'.last].idx > t.ledger[t.last].idx)
  {}

  lemma AppendHeld(t: Tree, b: Block)
    requires Rooted(t) && Consistent(t.ledger, b) && b.hash in t.ledger
    ensures Append(t, b) == t
  {}

  // ---------- chains ----------

  /** The blocks from `h` down to genesis. */
  function Chain(ledger: Ledger, genesis: Hash, h: Hash): (c: seq<Hash>)
    requires Linked(ledger, genesis) && h in ledger
    ensures |c| == ledger[h].idx + 1 && c[0] == h && c[|c| - 1] == genesis
    ensures forall i :: 0 <= i < |c| ==> c[i] in ledger && ledger[c[i]].idx == |c| - 1 - i
    ensures forall i :: 0 <= i < |c| - 1 ==> ledger[c[i]].prev == Some(c[i + 1])
    decreases ledger[h].idx
  {
    if h == genesis then [h] else [h] + Chain(ledger, genesis, ledger[h].prev.value)
  }

  /** A walk down parent links that reaches genesis is the chain. */
  lemma {:induction false} ChainUnique(ledger: Ledger, genesis: Hash, c: seq<Hash>)
    requires Linked(ledger, genesis) && c != []
    requires forall i :: 0 <= i < |c| ==> c[i] in ledger
    requires forall i :: 0 <= i < |c| - 1 ==> ledger[c[i]].prev == Some(c[i + 1])
    requires c[|c| - 1] == genesis
    ensures c == Chain(ledger, genesis, c[0])
  {
    if |c| > 1 {
      ChainUnique(ledger, genesis, c[1..]);
      assert c == [c[0]] + c[1..];
    }
  }

  function MainChain(t: Tree): (c: seq<Hash>)
    requires Rooted(t)
    ensures |c| == t.height && c[0] == t.last && c[|c| - 1] == t.genesis
    ensures forall i :: 0 <= i < |c| ==> c[i] in t.ledger
    ensures forall i :: 0 <= i < |c| - 1 ==> t.ledger[c[i]].prev == Some(c[i + 1])
  {
    Chain(t.ledger, t.genesis, t.last)
  }

  /** A chain of a part of a ledger is the chain of the whole. */
  lemma {:induction false} ChainSubmap(a: Ledger, b: Ledger, genesis: Hash, h: Hash)
    requires Linked(a, genesis) && Linked(b, genesis) && Submap(a, b) && h in a
    ensures Chain(a, genesis, h) == Chain(b, genesis, h)
  {
    ChainUnique(b, genesis, Chain(a, genesis, h));
  }

  /** Blocks of a chain are distinct. */
  lemma {:induction false} ChainDistinct(t: Tree, i: nat, j: nat)
    requires Rooted(t) && i < |MainChain(t)| && j < |MainChain(t)|
    ensures MainChain(t)[i] == MainChain(t)[j] ==> i == j
  {
    var c := Chain(t.ledger, t.genesis, t.last);
    assert t.ledger[c[i]].idx == |c| - 1 - i && t.ledger[c[j]].idx == |c| - 1 - j;
  }

  // ---------- locators ----------

  const LOCATOR_SIZE: nat := 10

  /** Depth below the tip of the `k`-th locator entry: five in a row, then steps of
      2, 4, 8, 16 and 32. */
  function Depth(k: nat): nat {
    if k < 5 then k else if k == 5 then 6 else if k == 6 then 10 else if k == 7 then 18
    else if k == 8 then 34 else 66
  }

  /** The entries at the listed depths from the `k`-th on, as far as the chain goes,
      and then genesis. */
  function LocatorFrom(chain: seq<Hash>, k: nat): (l: seq<Hash>)
    requires chain != []
    decreases LOCATOR_SIZE - k
  {
    if k >= LOCATOR_SIZE || Depth(k) >= |chain| then [chain[|chain| - 1]]
    else [chain[Depth(k)]] + LocatorFrom(chain, k + 1)
  }

  function Locator(chain: seq<Hash>): (l: seq<Hash>)
    requires chain != []
  {
    if |chain| == 1 then chain else LocatorFrom(chain, 0)
  }

  lemma {:induction false} LocatorFromShape(chain: seq<Hash>, k: nat)
    requires chain != [] && k <= LOCATOR_SIZE
    ensures var l := LocatorFrom(chain, k);
      1 <= |l| <= LOCATOR_SIZE - k + 1 && l[|l| - 1] == chain[|chain| - 1]
    decreases LOCATOR_SIZE - k
  {
    hide Depth;
    if k < LOCATOR_SIZE && Depth(k) < |chain| { LocatorFromShape(chain, k + 1); }
  }

  /** A locator has at most eleven entries, all on the chain, and ends in genesis. */
  lemma {:induction false} LocatorShape(t: Tree)
    requires Rooted(t)
    ensures var l := Locator(MainChain(t));
      && 1 <= |l| <= 11 && l[0] == t.last && l[|l| - 1] == t.genesis
      && forall h :: h in l ==> h in MainChain(t)
  {
    hide MainChain, LocatorFrom;
    var p := MainChain(t);
    LocatorFromShape(p, 0);
    LocatorStep(p, 0);
    forall h | h in Locator(p) ensures h in p {
      if |p| > 1 { EntryOfChain(p, 0, h); }
    }
  }

  lemma {:induction false} EntryOfChain(chain: seq<Hash>, k: nat, h: Hash)
    requires chain != [] && k <= LOCATOR_SIZE && h in LocatorFrom(chain, k)
    ensures h in chain
    decreases LOCATOR_SIZE - k
  {
    hide Depth;
    if k < LOCATOR_SIZE && Depth(k) < |chain| && h != chain[Depth(k)] { EntryOfChain(chain, k + 1, h); }
  }

  lemma {:induction false} LocatorStep(chain: seq<Hash>, k: nat)
    requires chain != [] && k < LOCATOR_SIZE
    ensures Depth(k) < |chain| ==> LocatorFrom(chain, k) == [chain[Depth(k)]] + LocatorFrom(chain, k + 1)
    ensures Depth(k) >= |chain| ==> LocatorFrom(chain, k) == [chain[|chain| - 1]]
    ensures k + 1 == LOCATOR_SIZE ==> LocatorFrom(chain, k + 1) == [chain[|chain| - 1]]
  {
    hide Depth;
  }

  lemma {:induction false} MainChainEnds(t: Tree)
    requires Rooted(t)
    ensures |MainChain(t)| == t.height && MainChain(t)[0] == t.last && MainChain(t)[t.height - 1] == t.genesis
    ensures t.height > 0 && t.last in t.ledger
  {
    hide MainChain;
  }

  lemma {:induction false} ShortLocator(t: Tree)
    requires Rooted(t)
    ensures t.height == 1 ==> Locator(MainChain(t)) == [t.last]
  {
    hide MainChain, LocatorFrom;
  }

  /** A locator in the making. */
  ghost predicate Building(chain: seq<Hash>, locator: seq<Hash>) {
    chain != [] && locator + LocatorFrom(chain, |locator|) == LocatorFrom(chain, 0)
  }

  lemma {:induction false} BuildStep(chain: seq<Hash>, locator: seq<Hash>)
    requires Building(chain, locator) && |locator| < LOCATOR_SIZE && Depth(|locator|) < |chain| && |chain| > 1
    ensures var l := locator + [chain[Depth(|locator|)]];
      && Building(chain, l)
      && (|l| == LOCATOR_SIZE || Depth(|l|) >= |chain| ==> l + [chain[|chain| - 1]] == Locator(chain))
  {
    hide LocatorFrom, Depth;
    LocatorStep(chain, |locator|);
    if |locator| + 1 < LOCATOR_SIZE { LocatorStep(chain, |locator| + 1); }
  }

  lemma BuildStart(chain: seq<Hash>)
    requires chain != []
    ensures Building(chain, []) && Depth(0) == 0
  {}

  /** An entry of a locator is a chain block at a listed depth, or genesis. */
  lemma {:induction false} LocatorHas(chain: seq<Hash>, k: nat, i: nat)
    requires chain != [] && k <= LOCATOR_SIZE && i < |chain|
    requires forall i, j :: 0 <= i < j < |chain| ==> chain[i] != chain[j]
    ensures chain[i] in LocatorFrom(chain, k)
       <==> i == |chain| - 1 || exists e :: k <= e < LOCATOR_SIZE && Depth(e) == i
    decreases LOCATOR_SIZE - k
  {
    if k < LOCATOR_SIZE {
      if Depth(k) < |chain| {
        LocatorHas(chain, k + 1, i);
        hide Depth;
        LocatorStep(chain, k);
        assert chain[i] in LocatorFrom(chain, k)
          <==> chain[i] == chain[Depth(k)] || chain[i] in LocatorFrom(chain, k + 1);
      } else {
        forall e | k <= e < LOCATOR_SIZE ensures Depth(e) >= |chain| {}
      }
    }
  }

  // ---------- the common block ----------

  /** The first block of `chain` that the locator lists. */
  function FirstListed(chain: seq<Hash>, locator: seq<Hash>): (r: Option<Hash>)
    ensures r.Some? ==> r.value in chain && r.value in locator
    ensures r.None? <==> forall h :: h in chain ==> h !in locator
  {
    if chain == [] then None
    else if chain[0] in locator then Some(chain[0])
    else FirstListed(chain[1..], locator)
  }

  /** The first block a list names is the one nothing listed precedes. */
  lemma {:induction false} FirstListedAt(chain: seq<Hash>, locator: seq<Hash>, i: nat)
    requires i < |chain| && chain[i] in locator
    requires forall j :: 0 <= j < i ==> chain[j] !in locator
    ensures FirstListed(chain, locator) == Some(chain[i])
  {
    if i > 0 { FirstListedAt(chain[1..], locator, i - 1); }
  }

  /** Where the main chain of `a` leaves that of `b`: the depth of the first block of
      `a` that `b` also has on its main chain. */
  ghost predicate ForkAt(a: seq<Hash>, b: seq<Hash>, d: nat, e: nat) {
    && d < |a| && e < |b| && a[d..] == b[e..]
    && (forall i :: 0 <= i < d ==> a[i] !in b)
    && (forall i :: 0 <= i < e ==> b[i] !in a)
  }

  /** Two ledgers that agree on the blocks they share. */
  ghost predicate Agree(a: Ledger, b: Ledger) {
    forall h :: h in a && h in b ==> a[h] == b[h]
  }

  /** Two chains to one genesis share a tail and nothing before it. */
  lemma {:induction false} ForkExists(a: Tree, b: Tree) returns (d: nat, e: nat)
    requires Rooted(a) && Rooted(b) && a.genesis == b.genesis && Agree(a.ledger, b.ledger)
    ensures ForkAt(MainChain(a), MainChain(b), d, e)
  {
    hide MainChain, Rooted, Agree;
    var p, q := MainChain(a), MainChain(b);
    MainChainEnds(a);
    MainChainEnds(b);
    d := 0;
    while p[d] !in q
      invariant d < |p| && forall i :: 0 <= i < d ==> p[i] !in q
      decreases |p| - d
    {
      d := d + 1;
    }
    e :| 0 <= e < |q| && q[e] == p[d];
    SharedTail(a, b, d, e);
    forall i | 0 <= i < e ensures q[i] !in p { OnlyAfterFork(b, p, d, e, i); }
  }

  lemma {:induction false} OnlyAfterFork(b: Tree, p: seq<Hash>, d: nat, e: nat, i: nat)
    requires Rooted(b) && d <= |p| && i < e <= |MainChain(b)| && p[d..] == MainChain(b)[e..]
    requires forall k :: 0 <= k < d ==> p[k] !in MainChain(b)
    ensures MainChain(b)[i] !in p
  {
    hide MainChain, Rooted;
    var q := MainChain(b);
    if q[i] in p {
      var k :| 0 <= k < |p| && p[k] == q[i];
      assert k >= d;
      assert p[d..][k - d] == q[e..][k - d];
      ChainDistinct(b, i, e + (k - d));
    }
  }

  lemma TailFrom(s: seq<Hash>, k: nat)
    requires k < |s|
    ensures s[k..] == [s[k]] + s[k + 1..] && (k + 1 == |s| ==> s[k..] == [s[k]])
  {}

  /** From a shared block on, two main chains run together down to genesis. */
  lemma {:induction false} SharedTail(a: Tree, b: Tree, d: nat, e: nat)
    requires Rooted(a) && Rooted(b) && a.genesis == b.genesis && Agree(a.ledger, b.ledger)
    requires d < |MainChain(a)| && e < |MainChain(b)| && MainChain(a)[d] == MainChain(b)[e]
    ensures MainChain(a)[d..] == MainChain(b)[e..]
    decreases |MainChain(a)| - d
  {
    hide MainChain;
    var p, q := MainChain(a), MainChain(b);
    hide Rooted;
    ParentOf(a, d);
    ParentOf(b, e);
    assert a.ledger[p[d]] == b.ledger[q[e]];
    if d == |p| - 1 {
      TailFrom(p, d);
      TailFrom(q, e);
    } else {
      SharedTail(a, b, d + 1, e + 1);
      TailFrom(p, d);
      TailFrom(q, e);
    }
  }

  /** The listed depth at or below which a fork at depth `d` is found. */
  function Found(d: nat): nat {
    if d <= 4 then d else if d <= 6 then 6 else if d <= 10 then 10
    else if d <= 18 then 18 else if d <= 34 then 34 else 66
  }

  lemma {:induction false} FoundIsListed(d: nat, i: nat)
    requires d <= i
    ensures d <= 66 ==> exists e :: 0 <= e < LOCATOR_SIZE && Depth(e) == Found(d)
    ensures (exists e :: 0 <= e < LOCATOR_SIZE && Depth(e) == i) ==> d <= 66 && Found(d) <= i
    ensures d <= 66 ==> d <= Found(d) && (d >= 5 ==> Found(d) < 2 * d)
  {
    var e := if d <= 4 then d else if d <= 6 then 5 else if d <= 10 then 6
             else if d <= 18 then 7 else if d <= 34 then 8 else 9;
    assert d <= 66 ==> Depth(e) == Found(d);
  }

  /** The answer to a peer's locator: with the fork `d` blocks below the peer's tip,
      it is the fork itself for `d` up to 4, less than `2 * d` blocks below the tip for
      `d` up to 66, and genesis at the worst; it is on both main chains. */
  lemma {:induction false} CommonBlockNearFork(own: Tree, peer: Tree, d: nat, e: nat)
    requires Rooted(own) && Rooted(peer) && own.genesis == peer.genesis
    requires ForkAt(MainChain(peer), MainChain(own), d, e)
    ensures var p := MainChain(peer);
      var r := FirstListed(MainChain(own), Locator(p));
      var c := if d <= 66 && Found(d) < |p| then Found(d) else |p| - 1;
      && r == Some(p[c]) && d <= c < |p| && r.value in MainChain(own)
      && (d <= 4 ==> c == d) && (5 <= d <= 66 ==> c < 2 * d)
  {
    hide MainChain, Depth, LocatorFrom, FirstListed, Locator;
    var p, q := MainChain(peer), MainChain(own);
    var c := if d <= 66 && Found(d) < |p| then Found(d) else |p| - 1;
    FoundIsListed(d, d);
    var at := e + (c - d);
    assert p[d..][c - d] == q[e..][c - d];
    assert q[at] == p[c];
    ListedAt(peer, c);
    LocatorShape(peer);
    forall j | 0 <= j < at ensures q[j] !in Locator(p) {
      if j < e {
        assert q[j] !in p;
      } else {
        var i := d + (j - e);
        assert p[d..][i - d] == q[e..][i - d];
        assert q[j] == p[i];
        FoundIsListed(d, i);
        ListedAt(peer, i);
      }
    }
    FirstListedAt(q, Locator(p), at);
  }

  lemma {:induction false} ListedAt(t: Tree, i: nat)
    requires Rooted(t) && i < |MainChain(t)|
    ensures MainChain(t)[i] in Locator(MainChain(t))
       <==> i == |MainChain(t)| - 1 || exists e :: 0 <= e < LOCATOR_SIZE && Depth(e) == i
  {
    hide MainChain, LocatorFrom;
    var p := MainChain(t);
    forall i, j | 0 <= i < j < |p| ensures p[i] != p[j] { ChainDistinct(t, i, j); }
    LocatorHas(p, 0, i);
  }

  /** Whatever locator ends in the shared genesis, the search finds a block. */
  lemma {:induction false} CommonBlockExists(own: Tree, locator: seq<Hash>)
    requires Rooted(own) && own.genesis in locator
    ensures FirstListed(MainChain(own), locator).Some?
  {
    hide MainChain;
    assert MainChain(own)[|MainChain(own)| - 1] in locator;
  }

  /** The chain from the tip down to `start`. */
  function DownTo(chain: seq<Hash>, start: Hash): (r: Option<seq<Hash>>)
    ensures r.Some? ==> r.value != [] && r.value <= chain && r.value[|r.value| - 1] == start
    ensures r.None? <==> start !in chain
  {
    if chain == [] then None
    else if chain[0] == start then Some([start])
    else
      var rest := DownTo(chain[1..], start);
      if rest.None? then None else Some([chain[0]] + rest.value)
  }

  lemma {:induction false} DownToAt(chain: seq<Hash>, k: nat, start: Hash)
    requires k < |chain| && chain[k] == start && forall j :: 0 <= j < k ==> chain[j] != start
    ensures DownTo(chain, start) == Some(chain[..k + 1])
  {
    if k == 0 {
      assert chain[..1] == [start];
    } else {
      DownToAt(chain[1..], k - 1, start);
      assert chain[..k + 1] == [chain[0]] + chain[1..][..k];
    }
  }

  /** What has been collected going down the chain. */
  ghost predicate Walked(main: seq<Hash>, chain: seq<Hash>) {
    |chain| <= |main| && chain == main[..|chain|]
  }

  lemma WalkedNothing(main: seq<Hash>)
    ensures Walked(main, [])
  {}

  lemma Extended(main: seq<Hash>, chain: seq<Hash>)
    requires Walked(main, chain) && |chain| < |main|
    ensures Walked(main, chain + [main[|chain|]])
  {}

  lemma {:induction false} DownToFound(main: seq<Hash>, chain: seq<Hash>, start: Hash)
    requires chain != [] && Walked(main, chain) && chain[|chain| - 1] == start && start !in chain[..|chain| - 1]
    ensures DownTo(main, start) == Some(chain)
  {
    var k := |chain| - 1;
    forall j | 0 <= j < k ensures main[j] != start { assert chain[..k][j] == main[j]; }
    DownToAt(main, k, start);
  }

  lemma {:induction false} DownToNothing(main: seq<Hash>, chain: seq<Hash>, start: Hash)
    requires Walked(main, chain) && |chain| == |main| && start !in chain
    ensures DownTo(main, start) == None
  {
    assert chain == main;
  }

  // ---------- the mutable tree ----------

  /** Steps between the listed depths. */
  lemma {:induction false} DepthStep(k: nat)
    requires 0 < k < LOCATOR_SIZE
    ensures Depth(k) == if k < 5 then Depth(k - 1) + 1 else Depth(k - 1) + Pow2(k - 4)
  {
    assert Pow2(2) == 2 * Pow2(1);
    assert Pow2(3) == 2 * Pow2(2);
    assert Pow2(4) == 2 * Pow2(3);
    assert Pow2(5) == 2 * Pow2(4);
  }

  lemma Pow2Next(n: nat)
    ensures Pow2(n + 1) == Pow2(n) * 2
  {}

  /** The parent of a main-chain block is the next one; only genesis has none. */
  lemma {:induction false} ParentOf(t: Tree, d: nat)
    requires Rooted(t) && d < |MainChain(t)|
    ensures var c := MainChain(t);
      && c[d] in t.ledger
      && t.ledger[c[d]].prev == if d == |c| - 1 then None else Some(c[d + 1])
  {
    hide MainChain;
    var c := MainChain(t);
    if d < |c| - 1 { assert t.ledger[c[d]].prev == Some(c[d + 1]); }
  }

  class BlockTree {
    var ledger: Ledger
    var height: nat
    var last: Hash
    var genesis: Hash

    /** Starts from a genesis block. */
    constructor (g: Hash)
      ensures State() == Genesis(g)
    {
      ledger := map[g := Entry(None, 0)];
      last := g;
      genesis := g;
      height := 1;
    }

    function State(): Tree
      reads this
    {
      Tree(ledger, last, height, genesis)
    }

    method AppendBlock(b: Block)
      modifies this
      ensures State() == Append(old(State()), b)
    {
      if b.prev in ledger {
        if b.hash !in ledger {
          ledger := ledger[b.hash := Entry(Some(b.prev), b.idx)];
        }
        if last == b.prev {
          last := b.hash;
          height := height + 1;
        } else if height <= b.idx {
          last := b.hash;
          height := b.idx + 1;
        }
      }
    }

    /** Block hashes that thin out going down from the tip. */
    method GetBlockLocator() returns (locator: seq<Hash>)
      requires Rooted(State())
      ensures locator == Locator(MainChain(State()))
    {
      ghost var chain := MainChain(State());
      hide MainChain, LocatorFrom, Pow2, Building, Depth, Rooted, Locator;
      MainChainEnds(State());
      ShortLocator(State());
      if height == 1 {
        return [last];
      }
      locator := [];
      BuildStart(chain);
      var at := last;
      while true
        invariant |locator| < LOCATOR_SIZE && Depth(|locator|) < |chain| && at == chain[Depth(|locator|)]
        invariant Building(chain, locator)
        decreases LOCATOR_SIZE - |locator|
      {
        BuildStep(chain, locator);
        locator := locator + [at];
        if |locator| >= 10 {
          break;
        }
        var more;
        more, at := StepUp(at, |locator|);
        if !more { return locator + [genesis]; }
      }
      return locator + [genesis];
    }

    /** Goes from a locator entry to the next one, `size` entries being listed; false
        when the chain ends before it. */
    method StepUp(start: Hash, size: nat) returns (more: bool, at: Hash)
      requires Rooted(State()) && 0 < size < LOCATOR_SIZE
      requires Depth(size - 1) < |MainChain(State())| && start == MainChain(State())[Depth(size - 1)]
      ensures more == (Depth(size) < |MainChain(State())|) && (more ==> at == MainChain(State())[Depth(size)])
    {
      DepthStep(size);
      if size < 5 {
        ParentOf(State(), size - 1);
        if ledger[start].prev.None? {
          return false, start;
        }
        return true, ledger[start].prev.value;
      }
      more, at := WalkUp(start, size, Depth(size - 1));
    }

    /** Follows parent links for the doubling number of steps that `size` entries call
        for; stops short of it at genesis. */
    method WalkUp(start: Hash, size: nat, ghost d: nat) returns (more: bool, at: Hash)
      requires Rooted(State()) && size >= 5
      requires d < |MainChain(State())| && start == MainChain(State())[d]
      ensures var to := d + Pow2(size - 4);
        more == (to < |MainChain(State())|) && (more ==> at == MainChain(State())[to])
    {
      Pow2One();
      hide MainChain, Pow2, Rooted;
      var step := 2;
      for i := 0 to size - 5
        invariant step == Pow2(i + 1)
      {
        Pow2Next(i + 1);
        step := step * 2;
      }
      more, at := Climb(start, step, d);
    }

    /** Follows `step` parent links, unless genesis comes before that. */
    method Climb(start: Hash, step: nat, ghost d: nat) returns (more: bool, at: Hash)
      requires Rooted(State())
      requires d < |MainChain(State())| && start == MainChain(State())[d]
      ensures more == (d + step < |MainChain(State())|) && (more ==> at == MainChain(State())[d + step])
    {
      ghost var chain := MainChain(State());
      hide MainChain, Rooted;
      at := start;
      for i := 0 to step
        invariant d + i < |chain| && at == chain[d + i]
      {
        ParentOf(State(), d + i);
        if ledger[at].prev.None? {
          return false, at;
        }
        at := ledger[at].prev.value;
      }
      return true, at;
    }

    /** The first block, going down from the tip, that the locator lists. None is the
        failed assertion of a walk that passes genesis. */
    method FindCommonBlock(locator: seq<Hash>) returns (r: Option<Hash>)
      requires Rooted(State())
      ensures r == FirstListed(MainChain(State()), locator)
    {
      ghost var chain := MainChain(State());
      hide MainChain;
      var at := last;
      ghost var d: nat := 0;
      while true
        invariant d < |chain| && at == chain[d]
        invariant FirstListed(chain[d..], locator) == FirstListed(chain, locator)
        decreases |chain| - d
      {
        if at in locator {
          return Some(at);
        }
        assert chain[d..][1..] == chain[d + 1..];
        ParentOf(State(), d);
        if ledger[at].prev.None? {
          return None;
        }
        at := ledger[at].prev.value;
        d := d + 1;
      }
    }

    /** The chain from the tip down to `start`, both included. */
    method GetChainFromBlock(start: Hash) returns (r: Option<seq<Hash>>)
      requires Rooted(State())
      ensures r == DownTo(MainChain(State()), start)
    {
      MainChainEnds(State());
      ghost var main := MainChain(State());
      hide MainChain, DownTo, Rooted, Walked;
      var at := last;
      var chain := [];
      WalkedNothing(main);
      while true
        invariant |chain| < |main| && at == main[|chain|] && Walked(main, chain) && start !in chain
        decreases |main| - |chain|
      {
        Extended(main, chain);
        chain := chain + [at];
        if at == start {
          DownToFound(main, chain, start);
          return Some(chain);
        }
        ParentOf(State(), |chain| - 1);
        if ledger[at].prev.None? {
          DownToNothing(main, chain, start);
          return None;
        }
        at := ledger[at].prev.value;
      }
    }
  }
}
