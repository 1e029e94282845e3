/** Block synchronisation between proof-of-work nodes, as a network state machine. */
module PowProtocol {
  import opened Wrappers
  import opened BlockTree

  type Id = nat

  datatype Msg =
    | Inv(src: Id, dst: Id, hashes: seq<Hash>)
    | GetBlocks(src: Id, dst: Id, locator: seq<Hash>)
    | GetData(src: Id, dst: Id, hash: Hash)
    | Blk(src: Id, dst: Id, block: Block)

  /** A node: its tree, and the inventory it is processing. */
  datatype Node = Node(tree: Tree, processing: bool, inv: seq<Hash>)

  /** What a handler does: a new state and the messages it sends, or a failed
      run-time assertion. */
  datatype Reaction = Reaction(node: Node, out: seq<Msg>) | AssertionFailed

  // ---------- handlers ----------

  /** The first hash of `inv` whose block is not held. */
  function FirstMissing(ledger: Ledger, inv: seq<Hash>): (r: Option<Hash>)
    ensures r.None? <==> forall h :: h in inv ==> h in ledger
    ensures r.Some? ==> r.value !in ledger && r.value in inv
    ensures r.Some? ==> exists i :: 0 <= i < |inv| && inv[i] == r.value && forall j :: 0 <= j < i ==> inv[j] in ledger
  {
    if inv == [] then None
    else if inv[0] !in ledger then Some(inv[0])
    else
      var r := FirstMissing(ledger, inv[1..]);
      assert r.Some? ==>
        var i :| 0 <= i < |inv[1..]| && inv[1..][i] == r.value && forall j :: 0 <= j < i ==> inv[1..][j] in ledger;
        inv[i + 1] == r.value && forall j :: 0 <= j < i + 1 ==> j == 0 || inv[j] == inv[1..][j - 1];
      r
  }

  function Reverse(s: seq<Hash>): (r: seq<Hash>)
    ensures |r| == |s| && forall i :: 0 <= i < |s| ==> r[i] == s[|s| - 1 - i]
  {
    if s == [] then [] else Reverse(s[1..]) + [s[0]]
  }

  /** One inventory message to each peer in `to` other than `except`. */
  function Relay(me: Id, inv: seq<Hash>, to: seq<Id>, except: Option<Id>): (out: seq<Msg>)
    ensures forall m :: m in out <==> m.Inv? && m.src == me && m.dst in to && m.hashes == inv && Some(m.dst) != except
  {
    if to == [] then []
    else
      var k := |to| - 1;
      Relay(me, inv, to[..k], except) + if Some(to[k]) == except then [] else [Inv(me, to[k], inv)]
  }

  lemma RelayNone(me: Id, inv: seq<Hash>, to: seq<Id>, except: Option<Id>)
    ensures Relay(me, inv, to[..0], except) == []
  {}

  lemma {:induction false} RelayStep(me: Id, inv: seq<Hash>, to: seq<Id>, i: nat, except: Option<Id>)
    requires i < |to|
    ensures Relay(me, inv, to[..i + 1], except)
         == Relay(me, inv, to[..i], except) + if Some(to[i]) == except then [] else [Inv(me, to[i], inv)]
  {
    assert to[..i + 1][..i] == to[..i];
  }

  function BlockOf(ledger: Ledger, h: Hash): Block
    requires h in ledger
  {
    Block(h, if ledger[h].prev.Some? then ledger[h].prev.value else 0, ledger[h].idx)
  }

  ghost function OnInv(n: Node, me: Id, src: Id, hashes: seq<Hash>): Reaction
    requires Rooted(n.tree)
  {
    if n.processing then Reaction(n, [])
    else if hashes == [] then AssertionFailed
    else if hashes[0] !in n.tree.ledger then
      Reaction(n, [GetBlocks(me, src, Locator(MainChain(n.tree)))])
    else
      var missing := FirstMissing(n.tree.ledger, hashes);
      Reaction(Node(n.tree, missing.Some?, hashes),
               if missing.Some? then [GetData(me, src, missing.value)] else [])
  }

  ghost function OnGetBlocks(n: Node, me: Id, src: Id, locator: seq<Hash>): Reaction
    requires Rooted(n.tree)
  {
    var common := FirstListed(MainChain(n.tree), locator);
    if common.None? then AssertionFailed
    else
      var chain := DownTo(MainChain(n.tree), common.value);
      if chain.None? then AssertionFailed
      else Reaction(n, [Inv(me, src, Reverse(chain.value))])
  }

  function OnGetData(n: Node, me: Id, src: Id, hash: Hash): Reaction {
    if hash !in n.tree.ledger then AssertionFailed
    else Reaction(n, [Blk(me, src, BlockOf(n.tree.ledger, hash))])
  }

  function OnBlk(n: Node, me: Id, src: Id, block: Block, to: seq<Id>): Reaction {
    var tree := if block.hash in n.tree.ledger then n.tree else Append(n.tree, block);
    if !n.processing then Reaction(n.(tree := tree), [])
    else
      var missing := FirstMissing(tree.ledger, n.inv);
      if missing.Some? then Reaction(n.(tree := tree), [GetData(me, src, missing.value)])
      else Reaction(Node(tree, false, n.inv), Relay(me, n.inv, to, Some(src)))
  }

  function OnMined(n: Node, me: Id, block: Block, to: seq<Id>): Reaction {
    Reaction(n.(tree := Append(n.tree, block)), Relay(me, [block.hash], to, None))
  }

  // ---------- the node, as the program keeps it ----------

  class ProtocolLayerPoW {
    const me: Id
    const blocktree: BlockTree
    var processing: bool
    var processingInv: seq<Hash>

    constructor (me: Id, genesis: Hash)
      ensures this.me == me && fresh(blocktree)
      ensures Value() == Node(Genesis(genesis), false, [])
    {
      this.me := me;
      blocktree := new BlockTree(genesis);
      processing := false;
      processingInv := [];
    }

    function Value(): Node
      reads this, blocktree
    {
      Node(blocktree.State(), processing, processingInv)
    }

    /** Asks `source` for the first block of the inventory that is not held. */
    method RequestMissing(source: Id) returns (out: seq<Msg>)
      ensures var missing := FirstMissing(blocktree.ledger, processingInv);
        out == if missing.Some? then [GetData(me, source, missing.value)] else []
    {
      assert processingInv[0..] == processingInv;
      for i := 0 to |processingInv|
        invariant FirstMissing(blocktree.ledger, processingInv[i..]) == FirstMissing(blocktree.ledger, processingInv)
      {
        if processingInv[i] !in blocktree.ledger {
          return [GetData(me, source, processingInv[i])];
        }
        assert processingInv[i..][1..] == processingInv[i + 1..];
      }
      return [];
    }

    /** False for `ok` is a read of the first hash of an empty inventory. */
    method RecvInv(source: Id, hashes: seq<Hash>) returns (ok: bool, out: seq<Msg>)
      requires Rooted(blocktree.State())
      modifies this
      ensures OnInv(old(Value()), me, source, hashes) == if ok then Reaction(Value(), out) else AssertionFailed
    {
      hide MainChain, Locator, FirstMissing, Rooted;
      ok, out := true, [];
      if processing {
        return;
      }
      if hashes == [] {
        return false, [];
      }
      if hashes[0] !in blocktree.ledger {
        var locator := blocktree.GetBlockLocator();
        return true, [GetBlocks(me, source, locator)];
      }
      processingInv := hashes;
      processing := true;
      out := RequestMissing(source);
      if out == [] {
        processing := false;
      }
    }

    /** False for `ok` is a failed assertion. */
    method RecvGetBlocks(source: Id, locator: seq<Hash>) returns (ok: bool, out: seq<Msg>)
      requires Rooted(blocktree.State())
      ensures OnGetBlocks(Value(), me, source, locator) == if ok then Reaction(Value(), out) else AssertionFailed
    {
      hide MainChain, FirstListed, DownTo, Rooted;
      var common := blocktree.FindCommonBlock(locator);
      if common.None? { return false, []; }
      var chain := blocktree.GetChainFromBlock(common.value);
      if chain.None? { return false, []; }
      return true, [Inv(me, source, Reverse(chain.value))];
    }

    method RecvGetData(source: Id, hash: Hash) returns (ok: bool, out: seq<Msg>)
      ensures OnGetData(Value(), me, source, hash) == if ok then Reaction(Value(), out) else AssertionFailed
    {
      if hash !in blocktree.ledger { return false, []; }
      return true, [Blk(me, source, BlockOf(blocktree.ledger, hash))];
    }

    method RecvBlk(source: Id, block: Block, neighbors: seq<Id>) returns (out: seq<Msg>)
      modifies this, blocktree
      ensures Reaction(Value(), out) == OnBlk(old(Value()), me, source, block, neighbors)
    {
      hide FirstMissing, Append, Relay;
      if block.hash !in blocktree.ledger {
        blocktree.AppendBlock(block);
      }
      if !processing { return []; }
      out := RequestMissing(source);
      if out == [] {
        processing := false;
        out := Broadcast(processingInv, neighbors, Some(source));
      }
    }

    method MiningComplete(block: Block, neighbors: seq<Id>) returns (out: seq<Msg>)
      modifies this, blocktree
      ensures Reaction(Value(), out) == OnMined(old(Value()), me, block, neighbors)
    {
      blocktree.AppendBlock(block);
      out := Broadcast([block.hash], neighbors, None);
    }

    method Broadcast(inv: seq<Hash>, neighbors: seq<Id>, except: Option<Id>) returns (out: seq<Msg>)
      ensures out == Relay(me, inv, neighbors, except)
    {
      RelayNone(me, inv, neighbors, except);
      hide Relay;
      out := [];
      for i := 0 to |neighbors|
        invariant out == Relay(me, inv, neighbors[..i], except)
      {
        RelayStep(me, inv, neighbors, i, except);
        if Some(neighbors[i]) != except {
          out := out + [Inv(me, neighbors[i], inv)];
        }
      }
      assert neighbors[..|neighbors|] == neighbors;
    }
  }

  // ---------- the network ----------

  /** A block some node is mining on: its parent and index are fixed when it is made. */
  datatype Candidate = Candidate(owner: Id, prev: Hash, idx: nat)

  /** All nodes, every block that exists, and the messages in flight. `peers` records
      with whom a node is processing its inventory; no node reads it. */
  datatype Net = Net(genesis: Hash, blocks: map<Hash, Block>, nodes: map<Id, Node>, candidates: set<Candidate>,
                     bag: multiset<Msg>, peers: map<Id, Id>, failed: bool)

  datatype Step =
    | MakeCandidate(n: Id)
    | Mine(c: Candidate, hash: Hash, to: seq<Id>)
    | Deliver(m: Msg, to: seq<Id>)
    | Lose(m: Msg)

  ghost predicate Enabled(net: Net, s: Step) {
    match s
    case MakeCandidate(n) => n in net.nodes
    case Mine(c, hash, to) =>
      && c in net.candidates && c.owner in net.nodes && hash !in net.blocks && hash != net.genesis
      && forall p :: p in to ==> p in net.nodes
    case Deliver(m, to) => m in net.bag && m.dst in net.nodes && forall p :: p in to ==> p in net.nodes
    case Lose(m) => m in net.bag
  }

  ghost function React(n: Node, m: Msg, to: seq<Id>): Reaction {
    if !Rooted(n.tree) then AssertionFailed
    else match m
      case Inv(src, dst, hashes) => OnInv(n, dst, src, hashes)
      case GetBlocks(src, dst, locator) => OnGetBlocks(n, dst, src, locator)
      case GetData(src, dst, hash) => OnGetData(n, dst, src, hash)
      case Blk(src, dst, block) => OnBlk(n, dst, src, block, to)
  }

  /** The node `n` has reacted: what is left of the bag and what it sends are in
      flight, and an inventory it starts on is the one that `peer` sent. */
  ghost function Reacted(net: Net, n: Id, r: Reaction, rest: multiset<Msg>, peer: Option<Id>): Net {
    if r.AssertionFailed? then net.(failed := true, bag := rest)
    else net.(nodes := net.nodes[n := r.node], bag := rest + multiset(r.out),
              peers := if peer.Some? then net.peers[n := peer.value] else net.peers)
  }

  /** A message that starts a session, if its receiver takes it up. */
  ghost predicate Starts(n: Node, m: Msg) {
    m.Inv? && !n.processing && m.hashes != [] && m.hashes[0] in n.tree.ledger
  }

  ghost function Apply(net: Net, s: Step): Net
    requires Enabled(net, s)
  {
    match s
    case MakeCandidate(n) =>
      var t := net.nodes[n].tree;
      net.(candidates := net.candidates + {Candidate(n, t.last, t.height)})
    case Mine(c, hash, to) =>
      var block := Block(hash, c.prev, c.idx);
      var mined := net.(blocks := net.blocks[hash := block], candidates := net.candidates - {c});
      Reacted(mined, c.owner, OnMined(net.nodes[c.owner], c.owner, block, to), net.bag, None)
    case Deliver(m, to) =>
      var n := net.nodes[m.dst];
      Reacted(net, m.dst, React(n, m, to), net.bag - multiset{m}, if Starts(n, m) then Some(m.src) else None)
    case Lose(m) => net.(bag := net.bag - multiset{m})
  }

  /** Every node starts from the same genesis block; nothing is in flight. */
  ghost predicate Init(net: Net) {
    && net.blocks == map[] && net.candidates == {} && net.bag == multiset{} && !net.failed
    && forall n :: n in net.nodes ==> net.nodes[n] == Node(Genesis(net.genesis), false, [])
  }

  ghost predicate Run(states: seq<Net>, steps: seq<Step>) {
    && |states| == |steps| + 1 && Init(states[0])
    && forall i :: 0 <= i < |steps| ==> Enabled(states[i], steps[i]) && states[i + 1] == Apply(states[i], steps[i])
  }

  // ---------- what every step keeps ----------

  /** The blocks that a ledger holds are the ones that exist under their hashes. */
  ghost predicate Known(net: Net, ledger: Ledger) {
    forall h :: h in ledger && h != net.genesis ==>
      h in net.blocks && ledger[h] == Entry(Some(net.blocks[h].prev), net.blocks[h].idx)
  }

  /** A contiguous parent chain, oldest block first, all held. */
  ghost predicate Held(ledger: Ledger, inv: seq<Hash>) {
    && inv != []
    && (forall i :: 0 <= i < |inv| ==> inv[i] in ledger)
    && (forall i, j :: 0 <= i && j == i + 1 < |inv| ==> ledger[inv[j]].prev == Some(inv[i]))
  }

  /** A node that processes an inventory holds its first block, lacks another, and the
      peer that sent it holds it all. */
  ghost predicate Session(net: Net, n: Id)
    requires n in net.nodes
  {
    var v := net.nodes[n];
    && n in net.peers && net.peers[n] in net.nodes && Held(net.nodes[net.peers[n]].tree.ledger, v.inv)
    && v.inv[0] in v.tree.ledger && FirstMissing(v.tree.ledger, v.inv).Some?
  }

  ghost predicate NodeOk(net: Net, n: Id)
    requires n in net.nodes
  {
    var v := net.nodes[n];
    && Rooted(v.tree) && v.tree.genesis == net.genesis && Known(net, v.tree.ledger)
    && (v.processing ==> Session(net, n))
  }

  /** Node `n` waits for block `h` from `p`. */
  ghost predicate Waiting(net: Net, n: Id, p: Id, h: Hash) {
    && n in net.nodes && net.nodes[n].processing && n in net.peers && net.peers[n] == p
    && FirstMissing(net.nodes[n].tree.ledger, net.nodes[n].inv) == Some(h)
  }

  ghost predicate MsgOk(net: Net, m: Msg) {
    && m.src in net.nodes && m.dst in net.nodes
    && match m
       case Inv(src, dst, hashes) => Held(net.nodes[src].tree.ledger, hashes)
       case GetBlocks(src, dst, locator) =>
         net.genesis in locator && forall h :: h in locator ==> h in net.nodes[src].tree.ledger
       case GetData(src, dst, hash) => Waiting(net, src, dst, hash)
       case Blk(src, dst, block) =>
         Waiting(net, dst, src, block.hash) && block.hash in net.blocks && net.blocks[block.hash] == block
  }

  /** The node whose session a message belongs to. */
  function Requester(m: Msg): Option<Id> {
    match m
    case GetData(src, dst, hash) => Some(src)
    case Blk(src, dst, block) => Some(dst)
    case _ => None
  }

  /** At most one request or answer is outstanding for each node. */
  ghost predicate Single(bag: multiset<Msg>) {
    && (forall m, m' :: m in bag && m' in bag && Requester(m).Some? && Requester(m) == Requester(m') ==> m == m')
    && (forall m :: m in bag && Requester(m).Some? ==> bag[m] == 1)
  }

  ghost predicate BlocksOk(net: Net) {
    forall h :: h in net.blocks ==> h != net.genesis && net.blocks[h].hash == h
  }

  ghost predicate CandidatesOk(net: Net) {
    forall c :: c in net.candidates ==>
      && c.owner in net.nodes && c.prev in net.nodes[c.owner].tree.ledger
      && c.idx == net.nodes[c.owner].tree.ledger[c.prev].idx + 1
  }

  ghost predicate Safe(net: Net) {
    && !net.failed && BlocksOk(net) && CandidatesOk(net) && Single(net.bag)
    && (forall n :: n in net.nodes ==> NodeOk(net, n))
    && (forall m :: m in net.bag ==> MsgOk(net, m))
  }

  // ---------- lemmas on parts ----------

  lemma HeldSubmap(a: Ledger, b: Ledger, inv: seq<Hash>)
    requires Held(a, inv) && Submap(a, b)
    ensures Held(b, inv)
  {}

  /** Blocks that are not on the list do not change what is missing from it. */
  lemma {:induction false} MissingSame(a: Ledger, b: Ledger, inv: seq<Hash>)
    requires forall h :: h in inv ==> (h in a <==> h in b)
    ensures FirstMissing(a, inv) == FirstMissing(b, inv)
  {
    if inv != [] { MissingSame(a, b, inv[1..]); }
  }

  /** The number of listed blocks that are not held. */
  function Missing(ledger: Ledger, inv: seq<Hash>): nat {
    if inv == [] then 0 else (if inv[0] in ledger then 0 else 1) + Missing(ledger, inv[1..])
  }

  lemma {:induction false} MissingFalls(a: Ledger, b: Ledger, inv: seq<Hash>, h: Hash)
    requires Submap(a, b)
    ensures Missing(b, inv) <= Missing(a, inv)
    ensures h in inv && h !in a && h in b ==> Missing(b, inv) < Missing(a, inv)
  {
    if inv != [] { MissingFalls(a, b, inv[1..], h); }
  }

  /** The parent of the first missing block is the listed block before it, which is
      held; this is the block that the append needs. */
  lemma {:induction false} ParentHeld(net: Net, n: Id, h: Hash)
    requires n in net.nodes && n in net.peers && net.peers[n] in net.nodes
    requires NodeOk(net, n) && NodeOk(net, net.peers[n]) && net.nodes[n].processing
    requires FirstMissing(net.nodes[n].tree.ledger, net.nodes[n].inv) == Some(h)
    ensures h in net.nodes[net.peers[n]].tree.ledger && h != net.genesis
    ensures h in net.blocks && net.blocks[h].prev in net.nodes[n].tree.ledger
  {
    var v, p := net.nodes[n], net.nodes[net.peers[n]];
    var i :| 0 <= i < |v.inv| && v.inv[i] == h && forall j :: 0 <= j < i ==> v.inv[j] in v.tree.ledger;
    assert i > 0 && v.inv[i - 1] in v.tree.ledger;
    assert p.tree.ledger[v.inv[i]].prev == Some(v.inv[i - 1]);
  }

  /** A block that exists fits every ledger. */
  lemma BlockConsistent(net: Net, ledger: Ledger, h: Hash)
    requires Known(net, ledger) && Linked(ledger, net.genesis) && BlocksOk(net) && h in net.blocks
    requires net.blocks[h].prev in ledger ==> net.blocks[h].idx == ledger[net.blocks[h].prev].idx + 1
    ensures Consistent(ledger, net.blocks[h])
  {}

  lemma {:induction false} ReversedHeld(t: Tree, start: Hash)
    requires Rooted(t) && DownTo(MainChain(t), start).Some?
    ensures Held(t.ledger, Reverse(DownTo(MainChain(t), start).value))
  {
    hide MainChain, DownTo, Rooted;
    var c, main := DownTo(MainChain(t), start).value, MainChain(t);
    var r := Reverse(c);
    forall i | 0 <= i < |r| ensures r[i] in t.ledger { ParentOf(t, |c| - 1 - i); }
    forall i, j | 0 <= i && j == i + 1 < |r| ensures t.ledger[r[j]].prev == Some(r[i]) {
      ParentOf(t, |c| - 1 - j);
    }
  }

  // ---------- preservation ----------

  ghost predicate Growth(net: Net, net': Net) {
    && net'.genesis == net.genesis && net'.nodes.Keys == net.nodes.Keys
    && (forall h :: h in net.blocks ==> h in net'.blocks && net'.blocks[h] == net.blocks[h])
    && (forall n :: n in net.nodes ==> Submap(net.nodes[n].tree.ledger, net'.nodes[n].tree.ledger))
  }

  /** Only node `n` has acted. */
  ghost predicate OnlyActs(net: Net, net': Net, n: Id) {
    && n in net.nodes && Growth(net, net')
    && (forall q :: q in net.nodes && q != n ==> net'.nodes[q] == net.nodes[q])
    && (forall q :: q in net.peers && q != n ==> q in net'.peers && net'.peers[q] == net.peers[q])
  }

  ghost predicate SameSession(net: Net, net': Net, n: Id)
    requires n in net.nodes && n in net'.nodes
  {
    var v, v' := net.nodes[n], net'.nodes[n];
    v.processing ==>
      && v'.processing && v'.inv == v.inv
      && (n in net.peers ==> n in net'.peers && net'.peers[n] == net.peers[n])
      && FirstMissing(v'.tree.ledger, v'.inv) == FirstMissing(v.tree.ledger, v.inv)
  }

  /** No message of the session of `r`. */
  ghost predicate NoneOf(bag: multiset<Msg>, r: Option<Id>) {
    forall m :: m in bag && Requester(m).Some? ==> Requester(m) != r
  }

  /** What a step sends: sound messages, at most one of which belongs to a session,
      that of `r`. */
  ghost predicate OutOk(net: Net, out: seq<Msg>, r: Option<Id>) {
    forall m :: m in out ==> MsgOk(net, m) && (Requester(m).Some? ==> Requester(m) == r && |out| == 1)
  }

  lemma SafeParts(net: Net)
    requires Safe(net)
    ensures !net.failed && BlocksOk(net) && CandidatesOk(net) && Single(net.bag)
  {}

  lemma SafeNode(net: Net, n: Id)
    requires Safe(net) && n in net.nodes
    ensures NodeOk(net, n)
  {}

  lemma SafeMsg(net: Net, m: Msg)
    requires Safe(net) && m in net.bag
    ensures MsgOk(net, m) && (Requester(m).Some? ==> Requester(m).value in net.nodes)
  {}

  /** A node that did not act stays as it should be while others grow. */
  lemma {:induction false} BystanderOk(net: Net, net': Net, n: Id)
    requires n in net.nodes && NodeOk(net, n) && Growth(net, net')
    requires net'.nodes[n] == net.nodes[n] && (n in net.peers ==> n in net'.peers && net'.peers[n] == net.peers[n])
    ensures NodeOk(net', n) && SameSession(net, net', n)
  {
    hide FirstMissing, Rooted, Held;
    var v := net.nodes[n];
    if v.processing {
      HeldSubmap(net.nodes[net.peers[n]].tree.ledger, net'.nodes[net.peers[n]].tree.ledger, v.inv);
    }
  }

  lemma {:induction false} MsgKept(net: Net, net': Net, m: Msg)
    requires MsgOk(net, m) && Growth(net, net')
    requires Requester(m).Some? && Requester(m).value in net.nodes ==> SameSession(net, net', Requester(m).value)
    ensures MsgOk(net', m)
  {
    hide FirstMissing, Held;
    if m.Inv? { HeldSubmap(net.nodes[m.src].tree.ledger, net'.nodes[m.src].tree.ledger, m.hashes); }
  }

  lemma CandidatesKept(net: Net, net': Net)
    requires CandidatesOk(net) && Growth(net, net') && net'.candidates <= net.candidates
    ensures CandidatesOk(net')
  {}

  /** What a step has to show: the acting node and its messages are as they should be,
      and only one session, that of `r`, may have moved on. */
  lemma {:induction false} Preserved(net: Net, net': Net, n: Id, rest: multiset<Msg>, out: seq<Msg>, r: Option<Id>)
    requires Safe(net) && OnlyActs(net, net', n) && !net'.failed && BlocksOk(net')
    requires net'.candidates <= net.candidates
    requires rest <= net.bag && net'.bag == rest + multiset(out)
    requires NodeOk(net', n) && (Some(n) != r ==> SameSession(net, net', n))
    requires NoneOf(rest, r) && OutOk(net', out, r)
    ensures Safe(net')
  {
    hide NodeOk, MsgOk, SameSession, Growth, BlocksOk, CandidatesOk, Single, FirstMissing, Safe, OnlyActs;
    SafeParts(net);
    ActsGrow(net, net', n);
    CandidatesKept(net, net');
    forall q | q in net.nodes && q != n ensures q in net'.nodes && NodeOk(net', q) && SameSession(net, net', q) {
      Unmoved(net, net', n, q);
    }
    forall m | m in net'.bag ensures MsgOk(net', m) {
      if m !in out {
        assert m in rest && m in net.bag;
        SafeMsg(net, m);
        MsgKept(net, net', m);
      }
    }
    SingleKept(net.bag, rest, out, r);
    AllSafe(net, net');
  }

  lemma ActsGrow(net: Net, net': Net, n: Id)
    requires OnlyActs(net, net', n)
    ensures Growth(net, net') && net'.nodes.Keys == net.nodes.Keys
  {}

  lemma ActsOnly(net: Net, net': Net, n: Id)
    requires n in net.nodes && net'.genesis == net.genesis && n in net'.nodes
    requires net'.nodes == net.nodes[n := net'.nodes[n]]
    requires Submap(net.nodes[n].tree.ledger, net'.nodes[n].tree.ledger)
    requires net'.blocks == net.blocks ||
      exists h :: h !in net.blocks && h in net'.blocks && net'.blocks == net.blocks[h := net'.blocks[h]]
    requires net'.peers == net.peers || (n in net'.peers && net'.peers == net.peers[n := net'.peers[n]])
    ensures OnlyActs(net, net', n)
  {}

  lemma {:induction false} Unmoved(net: Net, net': Net, n: Id, q: Id)
    requires Safe(net) && OnlyActs(net, net', n) && q in net.nodes && q != n
    ensures q in net'.nodes && NodeOk(net', q) && SameSession(net, net', q)
  {
    SafeNode(net, q);
    hide NodeOk, Safe, SameSession;
    BystanderOk(net, net', q);
  }

  lemma AllSafe(net: Net, net': Net)
    requires net'.nodes.Keys == net.nodes.Keys
    requires !net'.failed && BlocksOk(net') && CandidatesOk(net') && Single(net'.bag)
    requires forall n :: n in net.nodes ==> NodeOk(net', n)
    requires forall m :: m in net'.bag ==> MsgOk(net', m)
    ensures Safe(net')
  {}

  lemma {:induction false} SingleKept(bag: multiset<Msg>, rest: multiset<Msg>, out: seq<Msg>, r: Option<Id>)
    requires Single(bag) && rest <= bag && NoneOf(rest, r)
    requires forall m :: m in out && Requester(m).Some? ==> Requester(m) == r && |out| == 1
    ensures Single(rest + multiset(out))
  {
    var all := rest + multiset(out);
    forall m | m in all && Requester(m).Some? ensures all[m] == 1 && (m in rest <==> m !in out) {
      if m in out {
        assert out == [m] && multiset(out)[m] == 1;
      } else {
        assert rest[m] <= bag[m];
      }
    }
    forall m, m' | m in all && m' in all && Requester(m).Some? && Requester(m) == Requester(m') ensures m == m' {
      if m in out { assert out == [m]; }
      if m' in out { assert out == [m']; }
    }
  }

  /** Taking the one message of a session out of the bag leaves none of that session. */
  lemma SessionTaken(bag: multiset<Msg>, m: Msg)
    requires Single(bag) && m in bag && Requester(m).Some?
    ensures NoneOf(bag - multiset{m}, Requester(m))
  {}

  // ---------- the steps ----------

  lemma {:induction false} MakeCandidateSafe(net: Net, n: Id)
    requires Safe(net) && n in net.nodes
    ensures Safe(Apply(net, MakeCandidate(n)))
  {
    hide FirstMissing, Single, Safe, Rooted;
    var net' := Apply(net, MakeCandidate(n));
    SafeParts(net);
    SafeNode(net, n);
    CandidateFits(net, n);
    assert Growth(net, net');
    hide NodeOk, MsgOk, Growth, SameSession, CandidatesOk, Apply;
    forall q | q in net.nodes ensures NodeOk(net', q) && SameSession(net, net', q) {
      SafeNode(net, q);
      BystanderOk(net, net', q);
    }
    forall m | m in net.bag ensures MsgOk(net', m) {
      SafeMsg(net, m);
      MsgKept(net, net', m);
    }
    AllSafe(net, net');
  }

  /** A node mines on top of its tip, one index above it. */
  lemma {:induction false} CandidateFits(net: Net, n: Id)
    requires CandidatesOk(net) && n in net.nodes && NodeOk(net, n)
    ensures CandidatesOk(Apply(net, MakeCandidate(n)))
  {
    hide FirstMissing;
  }

  lemma {:induction false} LoseSafe(net: Net, m: Msg)
    requires Safe(net) && m in net.bag
    ensures Safe(Apply(net, Lose(m)))
  {
    hide Safe, Held, FirstMissing;
    SafeMsg(net, m);
    var rest := net.bag - multiset{m};
    assert rest + multiset([]) == rest;
    IdleSafe(net, m.src, rest, [], None, Apply(net, Lose(m)));
  }

  /** No node changes. */
  lemma {:induction false} IdleSafe(net: Net, n: Id, rest: multiset<Msg>, out: seq<Msg>, r: Option<Id>, net': Net)
    requires Safe(net) && n in net.nodes && rest <= net.bag
    requires net' == net.(bag := rest + multiset(out))
    requires NoneOf(rest, r) && OutOk(net', out, r)
    ensures Safe(net')
  {
    hide FirstMissing, Single, Safe, OutOk, NoneOf;
    SafeParts(net);
    SafeNode(net, n);
    assert OnlyActs(net, net', n);
    hide NodeOk, OnlyActs, SameSession;
    BystanderOk(net, net', n);
    Preserved(net, net', n, rest, out, r);
  }

  /** A delivery, field by field. */
  lemma {:induction false} Delivery(net: Net, m: Msg, to: seq<Id>, v: Node, out: seq<Msg>)
    requires Enabled(net, Deliver(m, to)) && React(net.nodes[m.dst], m, to) == Reaction(v, out)
    ensures Apply(net, Deliver(m, to))
         == net.(nodes := net.nodes[m.dst := v], bag := net.bag - multiset{m} + multiset(out),
                 peers := if Starts(net.nodes[m.dst], m) then net.peers[m.dst := m.src] else net.peers)
  {
    hide React, Starts;
  }

  lemma {:induction false} ReactsIdle(net: Net, m: Msg, to: seq<Id>, out: seq<Msg>)
    requires Enabled(net, Deliver(m, to)) && !Starts(net.nodes[m.dst], m)
    requires React(net.nodes[m.dst], m, to) == Reaction(net.nodes[m.dst], out)
    ensures Apply(net, Deliver(m, to)) == net.(bag := net.bag - multiset{m} + multiset(out))
  {
    DeliverEnabled(net, m, to);
    hide *;
    Delivery(net, m, to, net.nodes[m.dst], out);
    assert net.nodes[m.dst := net.nodes[m.dst]] == net.nodes;
  }

  /** An inventory that is not taken up: nothing is sent, or a locator that ends in
      genesis. */
  lemma {:induction false} InvIdle(net: Net, m: Msg, to: seq<Id>) returns (out: seq<Msg>)
    requires m.Inv? && m.dst in net.nodes && NodeOk(net, m.dst) && m.hashes != [] && !Starts(net.nodes[m.dst], m)
    requires m.src in net.nodes
    ensures React(net.nodes[m.dst], m, to) == Reaction(net.nodes[m.dst], out)
    ensures forall bag: multiset<Msg> :: OutOk(net.(bag := bag), out, None)
  {
    hide FirstMissing, Known, Session;
    var v := net.nodes[m.dst];
    out := OnInv(v, m.dst, m.src, m.hashes).out;
    if !v.processing { LocatorShape(v.tree); }
    hide Locator, MainChain, Rooted;
    assert forall x :: x in out ==> x.GetBlocks? && x.src == m.dst && x.dst == m.src && net.genesis in x.locator;
    assert forall x, h :: x in out && h in x.locator ==> h in v.tree.ledger;
  }

  lemma InvHeld(net: Net, m: Msg)
    requires MsgOk(net, m) && m.Inv?
    ensures m.hashes != [] && m.src in net.nodes && m.dst in net.nodes && Held(net.nodes[m.src].tree.ledger, m.hashes)
  {}

  lemma {:induction false} InvSafe(net: Net, m: Msg, to: seq<Id>)
    requires Safe(net) && Enabled(net, Deliver(m, to)) && m.Inv?
    ensures Safe(Apply(net, Deliver(m, to)))
  {
    DeliverEnabled(net, m, to);
    hide *;
    SafeNode(net, m.dst);
    SafeMsg(net, m);
    InvHeld(net, m);
    if Starts(net.nodes[m.dst], m) {
      InvStarts(net, m, to);
    } else {
      var rest := net.bag - multiset{m};
      var out := InvIdle(net, m, to);
      ReactsIdle(net, m, to, out);
      NoneOfNone(rest);
      IdleSafe(net, m.dst, rest, out, None, net.(bag := rest + multiset(out)));
    }
  }

  lemma NoneOfNone(bag: multiset<Msg>)
    ensures NoneOf(bag, None)
  {}

  /** What a node does that takes up an inventory. */
  lemma {:induction false} InvTaken(v: Node, me: Id, src: Id, hashes: seq<Hash>)
    requires Rooted(v.tree) && Starts(v, Inv(src, me, hashes))
    ensures var missing := FirstMissing(v.tree.ledger, hashes);
      OnInv(v, me, src, hashes)
        == Reaction(Node(v.tree, missing.Some?, hashes),
                    if missing.Some? then [GetData(me, src, missing.value)] else [])
  {
    hide FirstMissing, Rooted;
  }

  /** A node that has taken up an inventory is as it should be. */
  lemma {:induction false} TakenOk(net: Net, net': Net, m: Msg)
    requires m.Inv? && m.dst in net.nodes && m.src in net.nodes && NodeOk(net, m.dst) && Starts(net.nodes[m.dst], m)
    requires Held(net.nodes[m.src].tree.ledger, m.hashes)
    requires var v := net.nodes[m.dst];
      net'.genesis == net.genesis && net'.blocks == net.blocks && net'.peers == net.peers[m.dst := m.src]
      && net'.nodes == net.nodes[m.dst := Node(v.tree, FirstMissing(v.tree.ledger, m.hashes).Some?, m.hashes)]
    ensures NodeOk(net', m.dst)
    ensures var missing := FirstMissing(net.nodes[m.dst].tree.ledger, m.hashes);
      missing.Some? ==> Waiting(net', m.dst, m.src, missing.value)
  {
    hide FirstMissing, Rooted, Held;
    KnownSame(net, net', net.nodes[m.dst].tree.ledger);
    hide Known;
  }

  lemma NothingOk(net: Net, r: Option<Id>)
    ensures OutOk(net, [], r)
  {}

  lemma NodeRooted(net: Net, n: Id)
    requires n in net.nodes && NodeOk(net, n)
    ensures Rooted(net.nodes[n].tree) && net.nodes[n].tree.genesis == net.genesis
  {}

  lemma NotProcessing(v: Node, m: Msg)
    requires Starts(v, m)
    ensures !v.processing && m.Inv?
  {}

  /** A node takes up an inventory. */
  lemma {:induction false} InvStarts(net: Net, m: Msg, to: seq<Id>)
    requires Safe(net) && Enabled(net, Deliver(m, to)) && m.Inv? && Starts(net.nodes[m.dst], m)
    ensures Safe(Apply(net, Deliver(m, to)))
  {
    DeliverEnabled(net, m, to);
    hide *;
    var n, v, rest := m.dst, net.nodes[m.dst], net.bag - multiset{m};
    var net' := Apply(net, Deliver(m, to));
    SafeParts(net);
    SafeNode(net, n);
    SafeMsg(net, m);
    InvHeld(net, m);
    NodeRooted(net, n);
    NotProcessing(v, m);
    InvTaken(v, n, m.src, m.hashes);
    var missing := FirstMissing(v.tree.ledger, m.hashes);
    var out := if missing.Some? then [GetData(n, m.src, missing.value)] else [];
    ReactInv(v, m, to);
    Delivery(net, m, to, Node(v.tree, missing.Some?, m.hashes), out);
    SubmapRefl(v.tree.ledger);
    ActsOnly(net, net', n);
    BlocksSame(net, net');
    TakenOk(net, net', m);
    if missing.Some? { RequestOk(net', n, m.src, missing.value); } else { NothingOk(net', Some(n)); }
    NoSession(net, n);
    NoneOfLess(net.bag, rest, Some(n));
    Preserved(net, net', n, rest, out, Some(n));
  }

  lemma {:induction false} ReactInv(v: Node, m: Msg, to: seq<Id>)
    requires m.Inv? && Rooted(v.tree)
    ensures React(v, m, to) == OnInv(v, m.dst, m.src, m.hashes)
  {
    hide OnInv;
  }

  lemma SubmapRefl(a: Ledger)
    ensures Submap(a, a)
  {}

  lemma {:induction false} NoneOfLess(bag: multiset<Msg>, rest: multiset<Msg>, r: Option<Id>)
    requires NoneOf(bag, r) && rest <= bag
    ensures NoneOf(rest, r)
  {
    assert forall m :: m in rest ==> m in bag;
  }

  lemma BlocksSame(net: Net, net': Net)
    requires BlocksOk(net) && net'.blocks == net.blocks && net'.genesis == net.genesis
    ensures BlocksOk(net')
  {}

  lemma KnownSame(net: Net, net': Net, ledger: Ledger)
    requires Known(net, ledger) && net'.blocks == net.blocks && net'.genesis == net.genesis
    ensures Known(net', ledger)
  {}

  /** A node that is not processing has no session message in flight. */
  lemma {:induction false} NoSession(net: Net, n: Id)
    requires Safe(net) && n in net.nodes && !net.nodes[n].processing
    ensures NoneOf(net.bag, Some(n))
  {
    hide Safe, FirstMissing;
    forall x | x in net.bag && Requester(x).Some? ensures Requester(x) != Some(n) { SafeMsg(net, x); }
  }

  /** The answer to a locator that has genesis in it. */
  lemma {:induction false} GetBlocksOut(net: Net, m: Msg, to: seq<Id>) returns (inv: seq<Hash>)
    requires m.GetBlocks? && MsgOk(net, m) && m.dst in net.nodes && NodeOk(net, m.dst)
    ensures m.src in net.nodes && Held(net.nodes[m.dst].tree.ledger, inv)
    ensures React(net.nodes[m.dst], m, to) == Reaction(net.nodes[m.dst], [Inv(m.dst, m.src, inv)])
  {
    hide FirstMissing, MainChain, Held, DownTo, FirstListed, Known, Rooted, Session;
    var v := net.nodes[m.dst];
    CommonBlockExists(v.tree, m.locator);
    var common := FirstListed(MainChain(v.tree), m.locator).value;
    ReversedHeld(v.tree, common);
    inv := Reverse(DownTo(MainChain(v.tree), common).value);
  }

  lemma {:induction false} InvOk(net: Net, src: Id, dst: Id, inv: seq<Hash>)
    requires src in net.nodes && dst in net.nodes && Held(net.nodes[src].tree.ledger, inv)
    ensures OutOk(net, [Inv(src, dst, inv)], None)
  {
    hide Held;
  }

  lemma {:induction false} GetBlocksSafe(net: Net, m: Msg, to: seq<Id>)
    requires Safe(net) && Enabled(net, Deliver(m, to)) && m.GetBlocks?
    ensures Safe(Apply(net, Deliver(m, to)))
  {
    DeliverEnabled(net, m, to);
    hide *;
    var n, rest := m.dst, net.bag - multiset{m};
    SafeNode(net, n);
    SafeMsg(net, m);
    var inv := GetBlocksOut(net, m, to);
    var out := [Inv(n, m.src, inv)];
    NoStart(net.nodes[n], m);
    ReactsIdle(net, m, to, out);
    var net' := net.(bag := rest + multiset(out));
    InvOk(net', n, m.src, inv);
    NoneOfNone(rest);
    IdleSafe(net, n, rest, out, None, net');
  }

  /** The receiver of a request holds the block: the two assertions cannot fire. */
  lemma {:induction false} RequestedHeld(net: Net, m: Msg)
    requires Safe(net) && m in net.bag && m.GetData?
    ensures m.dst in net.nodes && m.hash in net.nodes[m.dst].tree.ledger && m.hash in net.blocks
    ensures BlockOf(net.nodes[m.dst].tree.ledger, m.hash) == net.blocks[m.hash] && net.blocks[m.hash].hash == m.hash
  {
    hide Safe, FirstMissing, Held, Rooted;
    SafeMsg(net, m);
    SafeParts(net);
    SafeNode(net, m.src);
    SafeNode(net, m.dst);
    ParentHeld(net, m.src, m.hash);
  }

  lemma {:induction false} GetDataSafe(net: Net, m: Msg, to: seq<Id>)
    requires Safe(net) && Enabled(net, Deliver(m, to)) && m.GetData?
    ensures Safe(Apply(net, Deliver(m, to)))
  {
    hide FirstMissing, Single, Safe, Apply, Rooted, Known;
    var rest, ledger := net.bag - multiset{m}, net.nodes[m.dst].tree.ledger;
    RequestedHeld(net, m);
    SafeParts(net);
    SafeNode(net, m.dst);
    SafeMsg(net, m);
    SessionTaken(net.bag, m);
    var out := [Blk(m.dst, m.src, BlockOf(ledger, m.hash))];
    ReactsIdle(net, m, to, out);
    IdleSafe(net, m.dst, rest, out, Some(m.src), net.(bag := rest + multiset(out)));
  }

  /** The block in an answer can be appended: its parent is held. */
  lemma {:induction false} AnswerFits(net: Net, m: Msg)
    requires Safe(net) && m in net.bag && m.Blk?
    ensures m.dst in net.nodes && m.block.hash !in net.nodes[m.dst].tree.ledger
    ensures m.block.prev in net.nodes[m.dst].tree.ledger
    ensures Consistent(net.nodes[m.dst].tree.ledger, m.block)
  {
    hide FirstMissing, Single, Safe;
    var h := m.block.hash;
    SafeParts(net);
    SafeMsg(net, m);
    SafeNode(net, m.dst);
    SafeNode(net, m.src);
    ParentHeld(net, m.dst, h);
    var mine, theirs := net.nodes[m.dst].tree.ledger, net.nodes[m.src].tree.ledger;
    assert theirs[h].idx == theirs[theirs[h].prev.value].idx + 1;
    BlockConsistent(net, mine, h);
  }

  /** A list held by one node as a parent chain is one for every node that has all of it. */
  lemma HeldAcross(net: Net, a: Ledger, b: Ledger, inv: seq<Hash>)
    requires Held(a, inv) && forall h :: h in inv ==> h in b
    requires Known(net, a) && Known(net, b) && Linked(a, net.genesis)
    ensures Held(b, inv)
  {}

  /** The receiver of a block, its tree grown by it. */
  ghost predicate Grown(net: Net, net': Net, m: Msg, tree: Tree)
    requires m.Blk? && m.dst in net.nodes
  {
    var v := net.nodes[m.dst];
    && OnlyActs(net, net', m.dst) && net'.blocks == net.blocks && net'.peers == net.peers
    && net'.nodes[m.dst] == Node(tree, FirstMissing(tree.ledger, v.inv).Some?, v.inv)
    && Rooted(tree) && tree.genesis == net.genesis && tree.ledger.Keys == v.tree.ledger.Keys + {m.block.hash}
    && tree.ledger[m.block.hash] == Entry(Some(m.block.prev), m.block.idx)
  }

  lemma {:induction false} ReactBlk(v: Node, m: Msg, to: seq<Id>)
    requires m.Blk? && Rooted(v.tree)
    ensures React(v, m, to) == OnBlk(v, m.dst, m.src, m.block, to)
  {
    hide OnBlk;
  }

  lemma NoStart(v: Node, m: Msg)
    requires !m.Inv?
    ensures !Starts(v, m)
  {}

  /** The receiver's new state. */
  lemma {:induction false} BlkNode(v: Node, me: Id, src: Id, block: Block, to: seq<Id>)
    requires v.processing && block.hash !in v.tree.ledger
    ensures var tree := Append(v.tree, block);
      var r := OnBlk(v, me, src, block, to);
      r.Reaction? && r.node == Node(tree, FirstMissing(tree.ledger, v.inv).Some?, v.inv)
  {
    hide FirstMissing, Append, Relay;
  }

  lemma {:induction false} BlkWaited(net: Net, m: Msg)
    requires m.Blk? && MsgOk(net, m)
    ensures m.src in net.nodes && m.dst in net.nodes && net.nodes[m.dst].processing
    ensures m.block.hash !in net.nodes[m.dst].tree.ledger
  {
    hide FirstMissing;
  }

  lemma {:induction false} BlkGrows(net: Net, m: Msg, to: seq<Id>)
    requires Safe(net) && Enabled(net, Deliver(m, to)) && m.Blk?
    ensures var v := net.nodes[m.dst];
      var net' := Apply(net, Deliver(m, to));
      var r := OnBlk(v, m.dst, m.src, m.block, to);
      && OnlyActs(net, net', m.dst) && m.dst in net'.nodes && Grown(net, net', m, Append(v.tree, m.block))
      && v.processing && m.block.hash !in v.tree.ledger
      && r.Reaction?
      && net' == net.(nodes := net.nodes[m.dst := r.node], bag := net.bag - multiset{m} + multiset(r.out))
  {
    DeliverEnabled(net, m, to);
    hide *;
    var v, tree := net.nodes[m.dst], Append(net.nodes[m.dst].tree, m.block);
    AnswerFits(net, m);
    SafeNode(net, m.dst);
    SafeMsg(net, m);
    BlkWaited(net, m);
    NodeRooted(net, m.dst);
    AppendRooted(v.tree, m.block);
    AppendGrows(v.tree, m.block);
    BlkNode(v, m.dst, m.src, m.block, to);
    ReactBlk(v, m, to);
    NoStart(v, m);
    var r := OnBlk(v, m.dst, m.src, m.block, to);
    Delivery(net, m, to, r.node, r.out);
    var net' := Apply(net, Deliver(m, to));
    ActsOnly(net, net', m.dst);
    GrownIs(net, net', m, tree);
  }

  lemma {:induction false} GrownIs(net: Net, net': Net, m: Msg, tree: Tree)
    requires m.Blk? && m.dst in net.nodes && OnlyActs(net, net', m.dst)
    requires net'.blocks == net.blocks && net'.peers == net.peers && m.dst in net'.nodes
    requires var v := net.nodes[m.dst]; net'.nodes[m.dst] == Node(tree, FirstMissing(tree.ledger, v.inv).Some?, v.inv)
    requires Rooted(tree) && tree.genesis == net.genesis
    requires tree.ledger.Keys == net.nodes[m.dst].tree.ledger.Keys + {m.block.hash}
    requires tree.ledger[m.block.hash] == Entry(Some(m.block.prev), m.block.idx)
    ensures Grown(net, net', m, tree)
  {
    hide Rooted, FirstMissing, OnlyActs;
  }

  lemma {:induction false} BlkNodeOk(net: Net, net': Net, m: Msg, tree: Tree)
    requires Safe(net) && m in net.bag && m.Blk? && m.dst in net.nodes && Grown(net, net', m, tree)
    ensures NodeOk(net', m.dst)
    ensures var inv := net.nodes[m.dst].inv;
      FirstMissing(tree.ledger, inv).None? ==> Held(tree.ledger, inv)
  {
    hide FirstMissing, Single, Held, Rooted, Safe;
    var n, v := m.dst, net.nodes[m.dst];
    SafeNode(net, n);
    SafeMsg(net, m);
    SafeNode(net, m.src);
    var theirs := net'.nodes[m.src].tree.ledger;
    HeldSubmap(net.nodes[m.src].tree.ledger, theirs, v.inv);
    if FirstMissing(tree.ledger, v.inv).None? {
      RootedLinked(net.nodes[m.src].tree);
      HeldAcross(net, net.nodes[m.src].tree.ledger, tree.ledger, v.inv);
    }
  }

  lemma RootedLinked(t: Tree)
    requires Rooted(t)
    ensures Linked(t.ledger, t.genesis)
  {}

  lemma {:induction false} RelayOk(net: Net, n: Id, inv: seq<Hash>, to: seq<Id>, except: Option<Id>, r: Option<Id>)
    requires n in net.nodes && Held(net.nodes[n].tree.ledger, inv) && forall p :: p in to ==> p in net.nodes
    ensures OutOk(net, Relay(n, inv, to, except), r)
  {
    hide Held, Relay;
  }

  /** What a node sends when a block arrives that it waits for. */
  lemma {:induction false} BlkOut(v: Node, me: Id, src: Id, block: Block, to: seq<Id>, tree: Tree)
    requires v.processing && block.hash !in v.tree.ledger && tree == Append(v.tree, block)
    ensures var missing := FirstMissing(tree.ledger, v.inv);
      OnBlk(v, me, src, block, to).Reaction?
      && OnBlk(v, me, src, block, to).out ==
         if missing.Some? then [GetData(me, src, missing.value)] else Relay(me, v.inv, to, Some(src))
  {
    hide FirstMissing, Append, Relay;
  }

  /** A node that still lacks a listed block waits for it from the same peer. */
  lemma {:induction false} StillWaiting(net: Net, net': Net, m: Msg, tree: Tree, h: Hash)
    requires m.Blk? && MsgOk(net, m) && m.dst in net.nodes && Grown(net, net', m, tree)
    requires FirstMissing(tree.ledger, net.nodes[m.dst].inv) == Some(h)
    ensures Waiting(net', m.dst, m.src, h) && m.src in net'.nodes
  {
    hide FirstMissing, Rooted, Submap;
  }

  lemma {:induction false} GrownTree(net: Net, net': Net, m: Msg, tree: Tree)
    requires m.Blk? && m.dst in net.nodes && Grown(net, net', m, tree)
    ensures m.dst in net'.nodes && net'.nodes[m.dst].tree == tree && net'.nodes.Keys == net.nodes.Keys
  {
    hide FirstMissing, Rooted;
  }

  lemma {:induction false} BlkOutOk(net: Net, net': Net, m: Msg, tree: Tree, to: seq<Id>, r: Reaction)
    requires Safe(net) && Enabled(net, Deliver(m, to)) && m.Blk? && m.dst in net'.nodes
    requires Grown(net, net', m, tree) && tree == Append(net.nodes[m.dst].tree, m.block)
    requires net.nodes[m.dst].processing && m.block.hash !in net.nodes[m.dst].tree.ledger
    requires r == OnBlk(net.nodes[m.dst], m.dst, m.src, m.block, to) && r.Reaction?
    ensures OutOk(net', r.out, Some(m.dst))
  {
    DeliverEnabled(net, m, to);
    hide *;
    SafeMsg(net, m);
    BlkNodeOk(net, net', m, tree);
    GrownTree(net, net', m, tree);
    var v := net.nodes[m.dst];
    BlkOut(v, m.dst, m.src, m.block, to, tree);
    var missing := FirstMissing(tree.ledger, v.inv);
    if missing.None? {
      RelayOk(net', m.dst, v.inv, to, Some(m.src), Some(m.dst));
    } else {
      StillWaiting(net, net', m, tree, missing.value);
      RequestOk(net', m.dst, m.src, missing.value);
    }
  }

  lemma DeliverEnabled(net: Net, m: Msg, to: seq<Id>)
    requires Enabled(net, Deliver(m, to))
    ensures m in net.bag && m.dst in net.nodes && forall p :: p in to ==> p in net.nodes
  {}

  lemma RequestOk(net: Net, n: Id, p: Id, h: Hash)
    requires Waiting(net, n, p, h) && p in net.nodes
    ensures OutOk(net, [GetData(n, p, h)], Some(n))
  {}

  lemma {:induction false} BlkSafe(net: Net, m: Msg, to: seq<Id>)
    requires Safe(net) && Enabled(net, Deliver(m, to)) && m.Blk?
    ensures Safe(Apply(net, Deliver(m, to)))
  {
    hide Append, Apply, OnBlk, FirstMissing, Single, Held, Safe, NodeOk, MsgOk, OutOk, Rooted, OnlyActs, NoneOf;
    var n, v := m.dst, net.nodes[m.dst];
    var net', tree, r := Apply(net, Deliver(m, to)), Append(v.tree, m.block), OnBlk(v, n, m.src, m.block, to);
    BlkGrows(net, m, to);
    BlkNodeOk(net, net', m, tree);
    BlkOutOk(net, net', m, tree, to, r);
    SafeParts(net);
    BlocksSame(net, net');
    SessionTaken(net.bag, m);
    hide Grown, BlocksOk, CandidatesOk;
    Preserved(net, net', n, net.bag - multiset{m}, r.out, Some(n));
  }

  /** Mining, field by field. */
  lemma {:induction false} Mining(net: Net, c: Candidate, hash: Hash, to: seq<Id>)
    requires Enabled(net, Mine(c, hash, to))
    ensures c in net.candidates && c.owner in net.nodes && hash !in net.blocks && hash != net.genesis
    ensures forall p :: p in to ==> p in net.nodes
    ensures var block := Block(hash, c.prev, c.idx);
      var v := net.nodes[c.owner];
      Apply(net, Mine(c, hash, to))
        == net.(blocks := net.blocks[hash := block], candidates := net.candidates - {c},
                nodes := net.nodes[c.owner := v.(tree := Append(v.tree, block))],
                bag := net.bag + multiset(Relay(c.owner, [hash], to, None)))
  {
    hide Append, Relay;
  }

  lemma BlocksMore(net: Net, net': Net, hash: Hash, block: Block)
    requires BlocksOk(net) && hash != net.genesis && block.hash == hash
    requires net'.genesis == net.genesis && net'.blocks == net.blocks[hash := block]
    ensures BlocksOk(net')
  {}

  lemma {:induction false} MineSafe(net: Net, c: Candidate, hash: Hash, to: seq<Id>)
    requires Safe(net) && Enabled(net, Mine(c, hash, to))
    ensures Safe(Apply(net, Mine(c, hash, to)))
  {
    hide *;
    Mining(net, c, hash, to);
    var n, v := c.owner, net.nodes[c.owner];
    var block := Block(hash, c.prev, c.idx);
    var net', out := Apply(net, Mine(c, hash, to)), Relay(n, [hash], to, None);
    SafeParts(net);
    SafeNode(net, n);
    NodeRooted(net, n);
    MinedFits(net, c, hash);
    AppendRooted(v.tree, block);
    AppendGrows(v.tree, block);
    ActsOnly(net, net', n);
    ActsGrow(net, net', n);
    MinedSession(net, net', n, hash);
    BlocksMore(net, net', hash, block);
    OneHeld(net'.nodes[n].tree.ledger, hash);
    RelayOk(net', n, [hash], to, None, None);
    NoneOfNone(net.bag);
    Preserved(net, net', n, net.bag, out, None);
  }

  lemma {:induction false} MinedFits(net: Net, c: Candidate, hash: Hash)
    requires CandidatesOk(net) && c in net.candidates && c.owner in net.nodes && NodeOk(net, c.owner)
    requires hash !in net.blocks && hash != net.genesis
    ensures c.prev in net.nodes[c.owner].tree.ledger
    ensures Consistent(net.nodes[c.owner].tree.ledger, Block(hash, c.prev, c.idx))
    ensures hash !in net.nodes[c.owner].tree.ledger
  {
    hide FirstMissing, Rooted;
  }

  lemma OneHeld(ledger: Ledger, h: Hash)
    requires h in ledger
    ensures Held(ledger, [h])
  {}

  /** Mining a fresh block does not touch the inventory being processed. */
  lemma {:induction false} MinedSession(net: Net, net': Net, n: Id, hash: Hash)
    requires Safe(net) && n in net.nodes && Growth(net, net') && net'.peers == net.peers
    requires hash !in net.blocks && hash != net.genesis && hash in net'.blocks
    requires var v, v' := net.nodes[n], net'.nodes[n];
      && v'.processing == v.processing && v'.inv == v.inv && Rooted(v'.tree) && v'.tree.genesis == net.genesis
      && v'.tree.ledger.Keys == v.tree.ledger.Keys + {hash}
      && v'.tree.ledger[hash] == Entry(Some(net'.blocks[hash].prev), net'.blocks[hash].idx)
    ensures NodeOk(net', n) && SameSession(net, net', n)
  {
    hide Rooted, FirstMissing, Single, Safe;
    var v, v' := net.nodes[n], net'.nodes[n];
    SafeNode(net, n);
    if v.processing {
      var p := net.peers[n];
      SafeNode(net, p);
      forall h | h in v.inv ensures h in v.tree.ledger <==> h in v'.tree.ledger {
        var i :| 0 <= i < |v.inv| && v.inv[i] == h;
        assert v.inv[i] in net.nodes[p].tree.ledger;
      }
      MissingSame(v.tree.ledger, v'.tree.ledger, v.inv);
      HeldSubmap(net.nodes[p].tree.ledger, net'.nodes[p].tree.ledger, v.inv);
    }
  }

  lemma {:induction false} StepSafe(net: Net, s: Step)
    requires Safe(net) && Enabled(net, s)
    ensures Safe(Apply(net, s))
  {
    hide Safe;
    match s
    case MakeCandidate(n) => MakeCandidateSafe(net, n);
    case Mine(c, hash, to) => MineSafe(net, c, hash, to);
    case Lose(m) => LoseSafe(net, m);
    case Deliver(m, to) =>
      match m
      case Inv(_, _, _) => InvSafe(net, m, to);
      case GetBlocks(_, _, _) => GetBlocksSafe(net, m, to);
      case GetData(_, _, _) => GetDataSafe(net, m, to);
      case Blk(_, _, _) => BlkSafe(net, m, to);
  }

  /** Every state of every run is safe: no assertion fires, trees are rooted, and each
      node has at most one exchange outstanding. */
  lemma {:induction false} RunSafe(states: seq<Net>, steps: seq<Step>, i: nat)
    requires Run(states, steps) && i < |states|
    ensures Safe(states[i])
  {
    hide Safe, Apply, Enabled;
    if i == 0 {
      InitSafe(states[0]);
    } else {
      RunSafe(states, steps, i - 1);
      StepSafe(states[i - 1], steps[i - 1]);
    }
  }

  lemma InitSafe(net: Net)
    requires Init(net)
    ensures Safe(net)
  {}

  // ---------- what a run shows ----------

  /** A request or an answer in flight belongs to a node that is processing an
      inventory, goes to or comes from the peer that sent it, is the only one for that
      node, and names a block that the peer holds and the node lacks. */
  lemma {:induction false} RunExchanges(states: seq<Net>, steps: seq<Step>, i: nat, m: Msg)
    requires Run(states, steps) && i < |states| && m in states[i].bag && Requester(m).Some?
    ensures var net := states[i];
      var n := Requester(m).value;
      var (p, h) := if m.GetData? then (m.dst, m.hash) else (m.src, m.block.hash);
      && n in net.nodes && net.nodes[n].processing && n in net.peers && net.peers[n] == p && p in net.nodes
      && h in net.nodes[p].tree.ledger && h !in net.nodes[n].tree.ledger
      && net.bag[m] == 1 && forall x :: x in net.bag && Requester(x) == Some(n) ==> x == m
  {
    hide FirstMissing, Held, Safe, Run, Rooted, Known;
    var net, n := states[i], Requester(m).value;
    RunSafe(states, steps, i);
    SafeParts(net);
    SafeMsg(net, m);
    SafeNode(net, n);
    SafeNode(net, net.peers[n]);
    ParentHeld(net, n, if m.GetData? then m.hash else m.block.hash);
  }

  /** An inventory in flight is not empty, and its sender holds it as one chain, each
      block the parent of the next. */
  lemma {:induction false} RunInventories(states: seq<Net>, steps: seq<Step>, i: nat, m: Msg)
    requires Run(states, steps) && i < |states| && m in states[i].bag && m.Inv?
    ensures m.src in states[i].nodes && m.hashes != []
    ensures var ledger := states[i].nodes[m.src].tree.ledger;
      && (forall k :: 0 <= k < |m.hashes| ==> m.hashes[k] in ledger)
      && (forall k, l :: 0 <= k && l == k + 1 < |m.hashes| ==> ledger[m.hashes[l]].prev == Some(m.hashes[k]))
  {
    hide FirstMissing, Safe, Run, Rooted, Known;
    RunSafe(states, steps, i);
    SafeMsg(states[i], m);
  }

  /** No step of a run fires an assertion, and every tree stays rooted: each index is a
      depth and the height bounds them all. */
  lemma {:induction false} RunNeverFails(states: seq<Net>, steps: seq<Step>, i: nat, n: Id)
    requires Run(states, steps) && i < |states| && n in states[i].nodes
    ensures !states[i].failed && Rooted(states[i].nodes[n].tree)
    ensures states[i].nodes[n].tree.genesis == states[i].genesis
  {
    hide Safe, Rooted, Run;
    RunSafe(states, steps, i);
    SafeParts(states[i]);
    SafeNode(states[i], n);
  }

  /** What a delivered block does to a node: it is appended, fewer blocks of the
      inventory are missing, and when none is left the node's chain is at least as long
      as the one the inventory ends. */
  ghost predicate Progressed(v: Node, v': Node, block: Block) {
    && block.prev in v.tree.ledger && block.hash in v'.tree.ledger
    && v'.inv == v.inv && Missing(v'.tree.ledger, v.inv) < Missing(v.tree.ledger, v.inv)
    && (v'.processing <==> Missing(v'.tree.ledger, v.inv) > 0)
    && (!v'.processing ==>
          && v.inv != [] && v.inv[|v.inv| - 1] in v'.tree.ledger
          && v'.tree.height >= v'.tree.ledger[v.inv[|v.inv| - 1]].idx + 1)
  }

  /** A delivered block is always appended, and the number of blocks still missing from
      the inventory falls; when none is left the node's chain is at least as long as
      the one the inventory ends. */
  lemma {:induction false} BlkProgress(net: Net, m: Msg, to: seq<Id>)
    requires Safe(net) && Enabled(net, Deliver(m, to)) && m.Blk?
    ensures m.dst in net.nodes && OnBlk(net.nodes[m.dst], m.dst, m.src, m.block, to).Reaction?
    ensures var v := net.nodes[m.dst];
      var v' := OnBlk(v, m.dst, m.src, m.block, to).node;
      Apply(net, Deliver(m, to)).nodes == net.nodes[m.dst := v'] && Progressed(v, v', m.block)
  {
    DeliverEnabled(net, m, to);
    hide *;
    var v := net.nodes[m.dst];
    var tree := Append(v.tree, m.block);
    BlkGrows(net, m, to);
    BlkNode(v, m.dst, m.src, m.block, to);
    AnswerFits(net, m);
    SafeMsg(net, m);
    SafeNode(net, m.dst);
    NodeRooted(net, m.dst);
    AppendRooted(v.tree, m.block);
    AppendGrows(v.tree, m.block);
    MissingFalls(v.tree.ledger, tree.ledger, v.inv, m.block.hash);
    MissingNone(tree.ledger, v.inv);
    BlkListed(net, m);
    ProgressIs(v, Node(tree, FirstMissing(tree.ledger, v.inv).Some?, v.inv), m.block);
  }

  /** The block in an answer is on the list that is being processed. */
  lemma {:induction false} BlkListed(net: Net, m: Msg)
    requires m.Blk? && MsgOk(net, m)
    ensures m.dst in net.nodes && m.block.hash in net.nodes[m.dst].inv
  {
    hide FirstMissing;
  }

  lemma {:induction false} ProgressIs(v: Node, v': Node, block: Block)
    requires Rooted(v'.tree) && v'.inv == v.inv && block.hash in v.inv
    requires block.prev in v.tree.ledger && block.hash in v'.tree.ledger
    requires Missing(v'.tree.ledger, v.inv) < Missing(v.tree.ledger, v.inv)
    requires v'.processing == FirstMissing(v'.tree.ledger, v.inv).Some?
    requires Missing(v'.tree.ledger, v.inv) == 0 <==> FirstMissing(v'.tree.ledger, v.inv).None?
    ensures Progressed(v, v', block)
  {
    hide FirstMissing, Missing, Linked;
  }

  lemma {:induction false} MissingNone(ledger: Ledger, inv: seq<Hash>)
    ensures Missing(ledger, inv) == 0 <==> FirstMissing(ledger, inv).None?
  {
    if inv != [] { MissingNone(ledger, inv[1..]); }
  }

  /** Over any step a ledger only grows, the height never falls, and the tip changes
      only to a strictly deeper block. */
  lemma {:induction false} TipDeepens(net: Net, s: Step, n: Id)
    requires Safe(net) && Enabled(net, s) && n in net.nodes
    ensures var net' := Apply(net, s);
      && n in net'.nodes
      && var t, t' := net.nodes[n].tree, net'.nodes[n].tree;
      && Submap(t.ledger, t'.ledger) && t'.height >= t.height
      && (t'.last != t.last ==>
           t.last in t.ledger && t'.last in t'.ledger && t'.ledger[t'.last].idx > t.ledger[t.last].idx)
  {
    hide Apply, Append, Safe, Enabled, Consistent;
    SafeNode(net, n);
    var b := StepTree(net, s, n);
    if b.Some? { AppendGrows(net.nodes[n].tree, b.value); }
  }

  /** No step changes the chain below a block that is held. */
  lemma {:induction false} ChainsKept(net: Net, s: Step, n: Id, h: Hash)
    requires Safe(net) && Enabled(net, s) && n in net.nodes
    ensures var net' := Apply(net, s);
      && n in net'.nodes
      && var t, t' := net.nodes[n].tree, net'.nodes[n].tree;
      && Linked(t.ledger, net.genesis) && Linked(t'.ledger, net.genesis)
      && (h in t.ledger ==>
            h in t'.ledger && Chain(t'.ledger, net.genesis, h) == Chain(t.ledger, net.genesis, h))
  {
    hide Safe, Apply, Enabled, Chain, Linked, Rooted;
    StepSafe(net, s);
    TipDeepens(net, s, n);
    var net' := Apply(net, s);
    SafeNode(net, n);
    SafeNode(net', n);
    RootedLinked(net.nodes[n].tree);
    RootedLinked(net'.nodes[n].tree);
    StepGenesis(net, s);
    if h in net.nodes[n].tree.ledger {
      ChainSubmap(net.nodes[n].tree.ledger, net'.nodes[n].tree.ledger, net.genesis, h);
    }
  }

  lemma {:induction false} StepGenesis(net: Net, s: Step)
    requires Enabled(net, s)
    ensures Apply(net, s).genesis == net.genesis
  {
    hide React, OnMined;
  }

  /** A step leaves a node's tree alone or appends a fitting block to it. */
  lemma {:induction false} StepTree(net: Net, s: Step, n: Id) returns (b: Option<Block>)
    requires Safe(net) && Enabled(net, s) && n in net.nodes
    ensures var net' := Apply(net, s);
      && n in net'.nodes
      && var t, t' := net.nodes[n].tree, net'.nodes[n].tree;
         if b.None? then t' == t else Consistent(t.ledger, b.value) && t' == Append(t, b.value)
  {
    hide Relay, Safe, Append, React, Consistent;
    b := None;
    SafeParts(net);
    SafeNode(net, n);
    assert Rooted(net.nodes[n].tree);
    hide Rooted;
    match s
    case Mine(c, hash, to) =>
      if c.owner == n {
        MinedFits(net, c, hash);
        b := Some(Block(hash, c.prev, c.idx));
      }
    case Deliver(m, to) =>
      if m.dst == n {
        ReactTree(net.nodes[n], m, to);
        if m.Blk? {
          AnswerFits(net, m);
          b := Some(m.block);
        }
      }
    case _ =>
  }

  lemma {:induction false} ReactTree(n: Node, m: Msg, to: seq<Id>)
    ensures var r := React(n, m, to);
      && (m.Blk? && Rooted(n.tree) ==> r.Reaction?)
      && (r.Reaction? ==>
           r.node.tree == if !m.Blk? || m.block.hash in n.tree.ledger then n.tree else Append(n.tree, m.block))
  {
    hide Rooted, FirstMissing, Relay, Append, FirstListed, DownTo, Locator, MainChain;
  }
}
