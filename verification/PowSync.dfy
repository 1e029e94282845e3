/** What the handlers of the protocol do, and what a session brings the node that runs it. */
module PowSync {
  import opened Wrappers
  import opened BlockTree
  import opened PowProtocol

  // ---------- the answer to a locator ----------

  /** Where the first listed block of a chain is. */
  lemma {:induction false} FirstIndex(chain: seq<Hash>, locator: seq<Hash>) returns (k: nat)
    requires exists h :: h in chain && h in locator
    ensures k < |chain| && chain[k] in locator && forall j :: 0 <= j < k ==> chain[j] !in locator
    ensures FirstListed(chain, locator) == Some(chain[k])
  {
    k := 0;
    while chain[k] !in locator
      invariant k < |chain| && forall j :: 0 <= j < k ==> chain[j] !in locator
      decreases |chain| - k
    {
      assert exists j :: k < j < |chain| && chain[j] in locator by {
        var h :| h in chain && h in locator;
        var j :| 0 <= j < |chain| && chain[j] == h;
      }
      k := k + 1;
    }
    FirstListedAt(chain, locator, k);
  }

  /** A list of blocks that starts at one the locator lists and ends in the tip, each the
      parent of the next, and with no listed block after the first. */
  ghost predicate Extends(t: Tree, locator: seq<Hash>, inv: seq<Hash>) {
    && inv != [] && inv[0] in locator && inv[|inv| - 1] == t.last
    && (forall i :: 0 <= i < |inv| ==> inv[i] in t.ledger)
    && (forall i, j :: 0 <= i && j == i + 1 < |inv| ==> t.ledger[inv[j]].prev == Some(inv[i]))
    && (forall i :: 0 < i < |inv| ==> inv[i] !in locator)
  }

  /** A locator with genesis in it is answered with one inventory: the main chain from
      the last block that the locator lists up to the tip. */
  lemma {:induction false} AnswerMeans(n: Node, me: Id, src: Id, locator: seq<Hash>)
    requires Rooted(n.tree) && n.tree.genesis in locator
    ensures var r := OnGetBlocks(n, me, src, locator);
      && r.Reaction? && r.node == n && |r.out| == 1 && r.out[0].Inv? && r.out[0].src == me && r.out[0].dst == src
      && Extends(n.tree, locator, r.out[0].hashes)
  {
    hide MainChain, FirstListed, DownTo, Rooted, Reverse;
    var t, main := n.tree, MainChain(n.tree);
    MainChainEnds(t);
    assert main[|main| - 1] in main;
    var k := FirstIndex(main, locator);
    forall j | 0 <= j < k ensures main[j] != main[k] {}
    DownToAt(main, k, main[k]);
    AnswerChain(t, k, locator);
  }

  lemma {:induction false} AnswerChain(t: Tree, k: nat, locator: seq<Hash>)
    requires Rooted(t) && k < |MainChain(t)| && MainChain(t)[k] in locator
    requires forall j :: 0 <= j < k ==> MainChain(t)[j] !in locator
    ensures Extends(t, locator, Reverse(MainChain(t)[..k + 1]))
  {
    hide MainChain, Rooted;
    var main := MainChain(t);
    var inv := Reverse(main[..k + 1]);
    MainChainEnds(t);
    forall i | 0 <= i < |inv| ensures inv[i] in t.ledger && inv[i] == main[k - i] { ParentOf(t, k - i); }
    forall i, j | 0 <= i && j == i + 1 < |inv| ensures t.ledger[inv[j]].prev == Some(inv[i]) { ParentOf(t, k - j); }
  }

  /** No other list of blocks is such an answer: nothing is left out of it. */
  lemma {:induction false} AnswerUnique(t: Tree, locator: seq<Hash>, a: seq<Hash>, b: seq<Hash>)
    requires Extends(t, locator, a) && Extends(t, locator, b)
    ensures a == b
  {
    if |a| < |b| { SameFromTop(t, locator, a, b, |a| - 1); }
    if |b| < |a| { SameFromTop(t, locator, a, b, |b| - 1); }
    forall i | 0 <= i < |a| ensures a[i] == b[i] { SameFromTop(t, locator, a, b, |a| - 1 - i); }
  }

  lemma {:induction false} SameFromTop(t: Tree, locator: seq<Hash>, a: seq<Hash>, b: seq<Hash>, d: nat)
    requires Extends(t, locator, a) && Extends(t, locator, b) && d < |a| && d < |b|
    ensures a[|a| - 1 - d] == b[|b| - 1 - d]
  {
    if d > 0 {
      SameFromTop(t, locator, a, b, d - 1);
      var x, y := a[|a| - d], b[|b| - d];
      assert t.ledger[x].prev == Some(a[|a| - d - 1]) && t.ledger[y].prev == Some(b[|b| - d - 1]);
    }
  }

  // ---------- what a handler does ----------

  /** How deep below the tip a locator lists blocks. */
  ghost predicate ListedDepth(d: nat) {
    d in {0, 1, 2, 3, 4, 6, 10, 18, 34, 66}
  }

  /** A locator of a node: blocks of its main chain, from the tip down, at those depths
      and genesis. */
  ghost predicate LocatorOf(t: Tree, locator: seq<Hash>)
    requires Rooted(t)
  {
    var main := MainChain(t);
    && 1 <= |locator| <= 11 && locator[0] == t.last && locator[|locator| - 1] == t.genesis
    && (forall h :: h in locator ==> h in main)
    && (forall d :: 0 <= d < |main| ==> (main[d] in locator <==> ListedDepth(d) || d == |main| - 1))
  }

  lemma {:induction false} LocatorIs(t: Tree)
    requires Rooted(t)
    ensures LocatorOf(t, Locator(MainChain(t)))
  {
    hide MainChain, Rooted, Locator;
    LocatorShape(t);
    var main := MainChain(t);
    forall d | 0 <= d < |main| ensures main[d] in Locator(main) <==> ListedDepth(d) || d == |main| - 1 {
      ListedAt(t, d);
      DepthsAre(d);
    }
  }

  lemma {:induction false} DepthsAre(d: nat)
    ensures ListedDepth(d) <==> exists k :: 0 <= k < LOCATOR_SIZE && Depth(k) == d
  {
    assert Depth(0) == 0 && Depth(1) == 1 && Depth(2) == 2 && Depth(3) == 3 && Depth(4) == 4;
    assert Depth(5) == 6 && Depth(6) == 10 && Depth(7) == 18 && Depth(8) == 34 && Depth(9) == 66;
  }

  /** What a node does with an inventory. One that is processing another ignores it. One
      that does not hold its first block asks the sender, with its own locator. Otherwise
      it keeps the inventory, and asks the sender for the first block of it that it
      lacks; lacking none, it is done at once. */
  lemma {:induction false} InvMeans(n: Node, me: Id, src: Id, hashes: seq<Hash>)
    requires Rooted(n.tree) && hashes != []
    ensures var r := OnInv(n, me, src, hashes);
      && r.Reaction? && r.node.tree == n.tree
      && (n.processing ==> r == Reaction(n, []))
      && (!n.processing && hashes[0] !in n.tree.ledger ==>
            && r.node == n && |r.out| == 1 && r.out[0].GetBlocks? && r.out[0].src == me && r.out[0].dst == src
            && LocatorOf(n.tree, r.out[0].locator))
      && (!n.processing && hashes[0] in n.tree.ledger ==>
            && r.node.inv == hashes
            && ((forall h :: h in hashes ==> h in n.tree.ledger) ==> !r.node.processing && r.out == [])
            && ((exists h :: h in hashes && h !in n.tree.ledger) ==>
                  r.node.processing && AsksFirst(r.out, me, src, n.tree.ledger, hashes)))
  {
    hide MainChain, Rooted, Locator, LocatorOf;
    LocatorIs(n.tree);
  }

  /** The one message is a request for the first block of the list that is not held. */
  ghost predicate AsksFirst(out: seq<Msg>, me: Id, src: Id, ledger: Ledger, inv: seq<Hash>) {
    exists i :: 0 <= i < |inv| && out == [GetData(me, src, inv[i])] && inv[i] !in ledger
                && forall j :: 0 <= j < i ==> inv[j] in ledger
  }

  /** What a node does with a request: it fails without the block, and sends it otherwise. */
  lemma {:induction false} DataMeans(n: Node, me: Id, src: Id, hash: Hash)
    ensures var r := OnGetData(n, me, src, hash);
      if hash !in n.tree.ledger then r.AssertionFailed?
      else
        && r.Reaction? && r.node == n && |r.out| == 1 && r.out[0].Blk? && r.out[0].src == me && r.out[0].dst == src
        && var b := r.out[0].block;
           && b.hash == hash && b.idx == n.tree.ledger[hash].idx
           && (n.tree.ledger[hash].prev.Some? ==> n.tree.ledger[hash].prev == Some(b.prev))
  {}

  /** One inventory `inv` goes to each of `to`, as often as it is there, but none to
      `except`, and nothing else is sent. */
  ghost predicate Announces(out: seq<Msg>, me: Id, inv: seq<Hash>, to: seq<Id>, except: Option<Id>) {
    && (forall m :: m in out ==> m.Inv? && m.src == me && m.hashes == inv)
    && forall p: Id :: multiset(out)[Inv(me, p, inv)] == if Some(p) == except then 0 else multiset(to)[p]
  }

  lemma {:induction false} RelayAnnounces(me: Id, inv: seq<Hash>, to: seq<Id>, except: Option<Id>)
    ensures Announces(Relay(me, inv, to, except), me, inv, to, except)
  {
    if to != [] {
      var k := |to| - 1;
      RelayAnnounces(me, inv, to[..k], except);
      assert to == to[..k] + [to[k]];
    }
  }

  /** What a node does with a block: it appends one that it does not hold. If it is
      processing an inventory, it asks the sender for the first block still missing from
      it; once none is, it announces the inventory to all neighbours but the sender. */
  lemma {:induction false} BlkMeans(n: Node, me: Id, src: Id, block: Block, to: seq<Id>)
    ensures var r := OnBlk(n, me, src, block, to);
      var tree := if block.hash in n.tree.ledger then n.tree else Append(n.tree, block);
      && r.Reaction? && r.node.tree == tree && r.node.inv == n.inv
      && (!n.processing ==> !r.node.processing && r.out == [])
      && (n.processing && (exists h :: h in n.inv && h !in tree.ledger) ==>
            r.node.processing && AsksFirst(r.out, me, src, tree.ledger, n.inv))
      && (n.processing && (forall h :: h in n.inv ==> h in tree.ledger) ==>
            !r.node.processing && Announces(r.out, me, n.inv, to, Some(src)))
  {
    hide Append, Relay;
    RelayAnnounces(me, n.inv, to, Some(src));
  }

  /** What a node does with a block it has mined: it appends it and announces it to all
      neighbours. */
  lemma {:induction false} MinedMeans(n: Node, me: Id, block: Block, to: seq<Id>)
    ensures var r := OnMined(n, me, block, to);
      r.Reaction? && r.node == n.(tree := Append(n.tree, block)) && Announces(r.out, me, [block.hash], to, None)
  {
    hide Append, Relay;
    RelayAnnounces(me, [block.hash], to, None);
  }

  /** A candidate is made on the tip, one index above it. */
  lemma {:induction false} CandidateMeans(net: Net, n: Id)
    requires Safe(net) && n in net.nodes
    ensures var net', t := Apply(net, MakeCandidate(n)), net.nodes[n].tree;
      && t.last in t.ledger
      && net' == net.(candidates := net.candidates + {Candidate(n, t.last, t.ledger[t.last].idx + 1)})
  {
    hide Safe, Single, FirstMissing;
    SafeNode(net, n);
  }

  // ---------- what a session brings ----------

  /** What a message does to a node that is processing an inventory. */
  lemma {:induction false} ReactSession(v: Node, m: Msg, to: seq<Id>)
    requires v.processing && Rooted(v.tree)
    ensures var r := React(v, m, to);
      r.Reaction? ==> (r.node.processing && r.node.inv == v.inv) || forall h :: h in v.inv ==> h in r.node.tree.ledger
  {
    hide Append, Relay, MainChain, Rooted, FirstListed, DownTo, Locator;
    if m.Blk? { BlkMeans(v, m.dst, m.src, m.block, to); }
  }

  /** A node that processes an inventory goes on with it until it holds all of it. */
  lemma {:induction false} SessionStep(net: Net, s: Step, n: Id)
    requires Safe(net) && Enabled(net, s) && n in net.nodes && net.nodes[n].processing
    ensures var net' := Apply(net, s);
      && n in net'.nodes
      && var v, v' := net.nodes[n], net'.nodes[n];
         (v'.processing && v'.inv == v.inv) || forall h :: h in v.inv ==> h in v'.tree.ledger
  {
    hide Safe, Append, Relay, React, Rooted;
    RunNode(net, n);
    if s.Deliver? { ReactSession(net.nodes[n], s.m, s.to); }
  }

  lemma {:induction false} RunNode(net: Net, n: Id)
    requires Safe(net) && n in net.nodes
    ensures Rooted(net.nodes[n].tree)
  {
    hide Safe, Rooted, FirstMissing;
    SafeNode(net, n);
  }

  /** A node that takes up an inventory goes on with it, or holds all of it. */
  lemma {:induction false} SessionStarts(net: Net, s: Step)
    requires Safe(net) && Enabled(net, s) && s.Deliver? && Starts(net.nodes[s.m.dst], s.m)
    ensures var net', n := Apply(net, s), s.m.dst;
      && n in net'.nodes
      && var v' := net'.nodes[n];
         (v'.processing && v'.inv == s.m.hashes) || forall h :: h in s.m.hashes ==> h in v'.tree.ledger
  {
    hide Safe, MainChain, Rooted, Locator;
    RunNode(net, s.m.dst);
  }

  /** Node `n` goes on with the inventory `inv`, or holds all of it. */
  ghost predicate Fetching(net: Net, n: Id, inv: seq<Hash>) {
    && n in net.nodes
    && var v := net.nodes[n];
       (v.processing && v.inv == inv) || forall h :: h in inv ==> h in v.tree.ledger
  }

  lemma {:induction false} FetchingStep(net: Net, s: Step, n: Id, inv: seq<Hash>)
    requires Safe(net) && Enabled(net, s) && Fetching(net, n, inv)
    ensures Fetching(Apply(net, s), n, inv)
  {
    hide Safe, Apply, Enabled;
    TipDeepens(net, s, n);
    if net.nodes[n].processing { SessionStep(net, s, n); }
  }

  lemma {:induction false} FetchingRun(states: seq<Net>, steps: seq<Step>, n: Id, inv: seq<Hash>, b: nat, c: nat)
    requires Run(states, steps) && b <= c < |states| && Fetching(states[b], n, inv)
    ensures Fetching(states[c], n, inv)
  {
    hide Safe, Apply, Enabled, Fetching;
    if b < c {
      FetchingRun(states, steps, n, inv, b, c - 1);
      RunSafe(states, steps, c - 1);
      FetchingStep(states[c - 1], steps[c - 1], n, inv);
    }
  }

  /** What a node holds it goes on holding, at the same index. */
  lemma {:induction false} HoldsOn(states: seq<Net>, steps: seq<Step>, n: Id, h: Hash, b: nat, c: nat)
    requires Run(states, steps) && b <= c < |states| && n in states[b].nodes && h in states[b].nodes[n].tree.ledger
    ensures n in states[c].nodes && h in states[c].nodes[n].tree.ledger
    ensures states[c].nodes[n].tree.ledger[h] == states[b].nodes[n].tree.ledger[h]
  {
    hide Safe, Apply, Enabled;
    if b < c {
      HoldsOn(states, steps, n, h, b, c - 1);
      RunSafe(states, steps, c - 1);
      TipDeepens(states[c - 1], steps[c - 1], n);
    }
  }

  /** The same block has the same index on every node that holds it. */
  lemma {:induction false} SameIndex(net: Net, n: Id, q: Id, h: Hash)
    requires Safe(net) && n in net.nodes && q in net.nodes
    requires h in net.nodes[n].tree.ledger && h in net.nodes[q].tree.ledger
    ensures net.nodes[n].tree.ledger[h].idx == net.nodes[q].tree.ledger[h].idx
  {
    hide Safe, FirstMissing, Held;
    SafeNode(net, n);
    SafeNode(net, q);
  }

  lemma {:induction false} RunSame(states: seq<Net>, steps: seq<Step>, n: Id, b: nat, c: nat)
    requires Run(states, steps) && b <= c < |states| && n in states[b].nodes
    ensures n in states[c].nodes && states[c].genesis == states[b].genesis
    ensures states[c].nodes[n].tree.height >= states[b].nodes[n].tree.height
  {
    hide Safe, Apply, Enabled;
    if b < c {
      RunSame(states, steps, n, b, c - 1);
      RunSafe(states, steps, c - 1);
      TipDeepens(states[c - 1], steps[c - 1], n);
      StepGenesis(states[c - 1], steps[c - 1]);
    }
  }

  /** The answer that a locator gets in step `a` of a run. */
  ghost predicate Answered(states: seq<Net>, steps: seq<Step>, a: nat, answer: Msg)
    requires |states| == |steps| + 1 && a < |steps|
  {
    && steps[a].Deliver? && steps[a].m.GetBlocks? && steps[a].m.dst in states[a].nodes
    && React(states[a].nodes[steps[a].m.dst], steps[a].m, steps[a].to).Reaction?
    && React(states[a].nodes[steps[a].m.dst], steps[a].m, steps[a].to).out == [answer]
  }

  /** The answer starts at a block that the node that asked holds, so it takes the answer
      up whenever it is idle. */
  lemma {:induction false} AnswerStarts(states: seq<Net>, steps: seq<Step>, a: nat, answer: Msg, b: nat)
    requires Run(states, steps) && a < b < |steps| && Answered(states, steps, a, answer)
    ensures var q := steps[a].m.src;
      && answer.Inv? && answer.dst == q && answer.src == steps[a].m.dst && q in states[b].nodes
      && Extends(states[a].nodes[answer.src].tree, steps[a].m.locator, answer.hashes)
      && (!states[b].nodes[q].processing ==> Starts(states[b].nodes[q], answer))
  {
    hide Safe, Apply, OnGetBlocks, Rooted, Extends;
    var m := steps[a].m;
    RunSafe(states, steps, a);
    RunNode(states[a], m.dst);
    LocatorHeld(states[a], m);
    AnswerMeans(states[a].nodes[m.dst], m.dst, m.src, m.locator);
    ExtendsFirst(states[a].nodes[m.dst].tree, m.locator, answer.hashes);
    HoldsOn(states, steps, m.src, answer.hashes[0], a, b);
  }

  lemma {:induction false} LocatorHeld(net: Net, m: Msg)
    requires Safe(net) && m in net.bag && m.GetBlocks?
    ensures m.src in net.nodes && m.dst in net.nodes && net.nodes[m.dst].tree.genesis in m.locator
    ensures forall h :: h in m.locator ==> h in net.nodes[m.src].tree.ledger
  {
    hide Safe, FirstMissing, Rooted;
    SafeMsg(net, m);
    SafeNode(net, m.dst);
  }

  lemma ExtendsFirst(t: Tree, locator: seq<Hash>, inv: seq<Hash>)
    requires Extends(t, locator, inv)
    ensures inv != [] && inv[0] in locator && t.last in inv && t.last in t.ledger
  {}

  /** When the session that an answer starts is over, the node that asked holds the tip
      that the other had when it answered, and its chain is at least as long. */
  lemma {:induction false} SessionBrings(states: seq<Net>, steps: seq<Step>, a: nat, answer: Msg, b: nat, c: nat)
    requires Run(states, steps) && a < b < c < |states| && Answered(states, steps, a, answer)
    requires steps[b].Deliver? && steps[b].m == answer && !states[b].nodes[steps[a].m.src].processing
    requires steps[a].m.src in states[c].nodes && !states[c].nodes[steps[a].m.src].processing
    ensures var q := steps[a].m.src;
      var theirs, mine := states[a].nodes[steps[a].m.dst].tree, states[c].nodes[q].tree;
      && theirs.last in mine.ledger && mine.height >= theirs.height
      && forall h :: h in answer.hashes ==> h in mine.ledger
  {
    hide Safe, Apply, Rooted, Extends, React;
    var q, p := steps[a].m.src, steps[a].m.dst;
    AnswerStarts(states, steps, a, answer, b);
    RunSafe(states, steps, b);
    SessionStarts(states[b], steps[b]);
    FetchingRun(states, steps, q, answer.hashes, b + 1, c);
    ExtendsFirst(states[a].nodes[p].tree, steps[a].m.locator, answer.hashes);
    var tip := states[a].nodes[p].tree.last;
    HoldsOn(states, steps, p, tip, a, c);
    RunSafe(states, steps, c);
    SameIndex(states[c], p, q, tip);
    RunSafe(states, steps, a);
    TallEnough(states[a], p, tip);
    TallEnough(states[c], q, tip);
  }

  /** A node's height is one more than its tip's index, and than no held block's less. */
  lemma {:induction false} TallEnough(net: Net, n: Id, h: Hash)
    requires Safe(net) && n in net.nodes && h in net.nodes[n].tree.ledger
    ensures var t := net.nodes[n].tree;
      t.height >= t.ledger[h].idx + 1 && (h == t.last ==> t.height == t.ledger[h].idx + 1)
  {
    hide Safe, FirstMissing;
    SafeNode(net, n);
  }
}
