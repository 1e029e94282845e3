/** Pending events of an event loop: one stack per priority, with cancellation in
    place. */
module EvPending {
  import opened Wrappers

  const NUMPRI: nat := 5

  /** Event bits. */
  type Events = bv32

  function Or(a: Events, b: Events): Events {
    a | b
  }

  /** A watcher of any kind. `active` is 0 when stopped, otherwise what its kind needs
      to find it again; `pending` is 0 or one more than its slot on the pending stack
      of its priority. */
  class Watcher {
    const priority: nat
    var active: nat
    var pending: nat
    var at: real
    var repeat: real

    constructor (priority: nat, at: real, repeat: real)
      ensures this.priority == priority && this.at == at && this.repeat == repeat
      ensures active == 0 && pending == 0
    {
      this.priority := priority;
      this.at, this.repeat, active, pending := at, repeat, 0, 0;
    }
  }

  datatype Anpending = Anpending(w: Watcher, events: Events)

  /** What has happened to watchers, in order. */
  datatype Happening =
    | Fed(w: Watcher, events: Events)
    | Cleared(w: Watcher)
    | Invoked(w: Watcher, events: Events)

  /** The events fed to `w` since it last became pending; None when it is not. */
  ghost function PendingFor(trace: seq<Happening>, w: Watcher): Option<Events> {
    if trace == [] then None
    else
      var last := trace[|trace| - 1];
      var before := PendingFor(trace[..|trace| - 1], w);
      if last.w != w then before
      else match last
        case Fed(_, e) => Some(if before.Some? then Or(before.value, e) else e)
        case _ => None
  }

  /** A feed of `w` after which it has not been cleared or invoked. */
  ghost predicate FedSince(trace: seq<Happening>, w: Watcher, i: nat) {
    i < |trace| && trace[i].Fed? && trace[i].w == w && forall j :: i < j < |trace| && trace[j].w == w ==> trace[j].Fed?
  }

  predicate Touches(events: Events, mask: Events) {
    events & mask != 0
  }

  /** A watcher is pending if and only if it has been fed since, and what is pending is
      all of what it has been fed since, bit by bit, and no more. */
  lemma {:induction false} PendingBits(trace: seq<Happening>, w: Watcher, mask: Events)
    ensures PendingFor(trace, w).Some? <==> exists i: nat :: FedSince(trace, w, i)
    ensures PendingFor(trace, w).Some? ==>
      (Touches(PendingFor(trace, w).value, mask)
       <==> exists i: nat :: FedSince(trace, w, i) && Touches(trace[i].events, mask))
  {
    if trace != [] {
      var k := |trace| - 1;
      var t, h := trace[..k], trace[k];
      PendingBits(t, w, mask);
      PendingStep(t, h, w);
      assert t + [h] == trace;
      var fed := h.Fed? && h.w == w;
      if fed && PendingFor(t, w).Some? { OrBits(PendingFor(t, w).value, h.events, mask); }
      hide Or, FedSince, PendingFor, Touches;
      forall i: nat
        ensures FedSince(trace, w, i) ==> (i < k && t[i] == trace[i] && FedSince(t, w, i)) || (i == k && fed)
      {
        FedSinceStep(trace, w, i);
      }
      forall i: nat ensures FedSince(t, w, i) && (h.w == w ==> fed) ==> i < k && FedSince(trace, w, i) {
        FedSinceStep(trace, w, i);
      }
      if fed { FedSinceStep(trace, w, k); }
    }
  }

  lemma {:induction false} FedSinceStep(trace: seq<Happening>, w: Watcher, i: nat)
    requires trace != []
    ensures var k := |trace| - 1;
      && (FedSince(trace, w, i) <==>
            && (i < k ==> FedSince(trace[..k], w, i) && (trace[k].w == w ==> trace[k].Fed?))
            && (i >= k ==> i == k && trace[k].Fed? && trace[k].w == w))
      && (FedSince(trace[..k], w, i) ==> i < k)
  {
    var k := |trace| - 1;
    assert forall j :: 0 <= j < k ==> trace[..k][j] == trace[j];
  }

  lemma OrSpreads(a: Events, b: Events, mask: Events)
    ensures Or(a, b) & mask == Or(a & mask, b & mask)
  {}

  lemma OrZero(a: Events, b: Events)
    ensures Or(a, b) == 0 <==> a == 0 && b == 0
  {}

  lemma {:induction false} OrBits(a: Events, b: Events, mask: Events)
    ensures Touches(Or(a, b), mask) <==> Touches(a, mask) || Touches(b, mask)
  {
    OrSpreads(a, b, mask);
    OrZero(a & mask, b & mask);
    hide Or;
  }

  /** From position `from` on, every invocation was of a watcher with the highest
      priority then pending, and it got all events fed to it since it became so. */
  ghost predicate Honest(trace: seq<Happening>, from: nat, watchers: set<Watcher>) {
    forall k :: from <= k < |trace| && trace[k].Invoked? ==>
      && trace[k].w in watchers && PendingFor(trace[..k], trace[k].w) == Some(trace[k].events)
      && forall v :: v in watchers && PendingFor(trace[..k], v).Some? ==> v.priority <= trace[k].w.priority
  }

  /** A watcher that was cleared or invoked is not invoked again until it is fed. */
  lemma {:induction false} FedAgain(trace: seq<Happening>, from: nat, watchers: set<Watcher>, i: nat, k: nat)
    requires Honest(trace, from, watchers) && i < k < |trace| && from <= k
    requires !trace[i].Fed? && trace[k].Invoked? && trace[k].w == trace[i].w
    ensures exists j :: i < j < k && trace[j].Fed? && trace[j].w == trace[i].w
  {
    var w := trace[i].w;
    if forall j :: i < j < k ==> !(trace[j].Fed? && trace[j].w == w) {
      NotPendingAfter(trace, w, i, k);
    }
  }

  lemma {:induction false} NotPendingAfter(trace: seq<Happening>, w: Watcher, i: nat, k: nat)
    requires i < k <= |trace| && trace[i].w == w && !trace[i].Fed?
    requires forall j :: i < j < k ==> !(trace[j].Fed? && trace[j].w == w)
    ensures PendingFor(trace[..k], w).None?
    decreases k
  {
    assert trace[..k][..k - 1] == trace[..k - 1];
    if i < k - 1 { NotPendingAfter(trace, w, i, k - 1); }
  }

  lemma {:induction false} PendingStep(trace: seq<Happening>, h: Happening, w: Watcher)
    ensures var before := PendingFor(trace, w);
      PendingFor(trace + [h], w) ==
        if h.w != w then before
        else if h.Fed? then Some(if before.Some? then Or(before.value, h.events) else h.events)
        else None
  {
    hide Or;
    assert (trace + [h])[..|trace|] == trace;
  }

  lemma {:induction false} HonestStep(trace: seq<Happening>, from: nat, watchers: set<Watcher>, h: Happening)
    requires Honest(trace, from, watchers)
    requires h.Invoked? ==>
      && h.w in watchers && PendingFor(trace, h.w) == Some(h.events)
      && forall v :: v in watchers && PendingFor(trace, v).Some? ==> v.priority <= h.w.priority
    ensures Honest(trace + [h], from, watchers)
  {
    var t := trace + [h];
    forall k | 0 <= k < |t| ensures k < |trace| ==> t[..k] == trace[..k] {}
    assert t[..|trace|] == trace;
  }

  function Total(s: seq<seq<Anpending>>): nat
    requires |s| == NUMPRI
  {
    |s[0]| + |s[1]| + |s[2]| + |s[3]| + |s[4]|
  }

  lemma TotalFalls(s: seq<seq<Anpending>>, p: nat, t: seq<Anpending>)
    requires |s| == NUMPRI && p < NUMPRI && |t| < |s[p]|
    ensures Total(s[p := t]) < Total(s)
  {}

  predicate SameSizes(a: seq<seq<Anpending>>, b: seq<seq<Anpending>>) {
    |a| == |b| && forall p :: 0 <= p < |a| ==> |a[p]| == |b[p]|
  }

  class PendingQueue {
    // Takes the place of a cancelled watcher in its slot.
    const pendingW: Watcher
    ghost const watchers: set<Watcher>

    var pendings: seq<seq<Anpending>>
    var pendingpri: nat
    ghost var trace: seq<Happening>

    constructor (ghost watchers: set<Watcher>)
      requires forall w :: w in watchers ==> w.pending == 0 && w.priority < NUMPRI
      ensures this.watchers == watchers && Valid() && trace == []
    {
      pendingW := new Watcher(0, 0.0, 0.0);
      this.watchers := watchers;
      pendings := [[], [], [], [], []];
      pendingpri := 0;
      trace := [];
    }

    /** A watcher knows the slot that holds it, and the slot has its events. */
    ghost predicate WatcherOk(w: Watcher)
      reads this`pendings, this`trace, w`pending
    {
      && w.priority < NUMPRI == |pendings| && w.pending <= |pendings[w.priority]|
      && (w.pending > 0 ==> pendings[w.priority][w.pending - 1].w == w)
      && PendingFor(trace, w) ==
           if w.pending == 0 then None else Some(pendings[w.priority][w.pending - 1].events)
    }

    /** Every slot holds the stand-in, or a watcher of the stack's priority that knows
        the slot: so no watcher has two. */
    ghost predicate Valid()
      reads this`pendings, this`trace, watchers`pending
    {
      && pendingW !in watchers && |pendings| == NUMPRI
      && (forall p, i :: 0 <= p < NUMPRI && 0 <= i < |pendings[p]| ==>
            var w := pendings[p][i].w;
            w == pendingW || (w in watchers && w.priority == p && w.pending == i + 1))
      && (forall w :: w in watchers ==> WatcherOk(w))
    }

    method FeedEvent(w: Watcher, revents: Events)
      requires Valid() && w in watchers
      modifies this`pendings, this`pendingpri, this`trace, w`pending
      ensures Valid() && trace == old(trace) + [Fed(w, revents)] && pendingpri == NUMPRI - 1 && |pendings| == NUMPRI
      ensures old(w.pending) == 0 ==>
        pendings == old(pendings)[w.priority := old(pendings)[w.priority] + [Anpending(w, revents)]]
      ensures old(w.pending) != 0 ==> w.pending == old(w.pending)
    {
      hide PendingFor, Or;
      if w.pending != 0 {
        MergeEvents(w, revents);
      } else {
        PushSlot(w, revents);
      }
      pendingpri := NUMPRI - 1;
    }

    method MergeEvents(w: Watcher, revents: Events)
      requires Valid() && w in watchers && w.pending != 0
      modifies this`pendings, this`trace
      ensures Valid() && trace == old(trace) + [Fed(w, revents)]
    {
      hide PendingFor, Or;
      forall v | v in watchers { PendingStep(trace, Fed(w, revents), v); }
      var pri := w.priority;
      var slot := pendings[pri][w.pending - 1];
      pendings := pendings[pri := pendings[pri][w.pending - 1 := slot.(events := Or(slot.events, revents))]];
      trace := trace + [Fed(w, revents)];
    }

    method PushSlot(w: Watcher, revents: Events)
      requires Valid() && w in watchers && w.pending == 0
      modifies this`pendings, this`trace, w`pending
      ensures Valid() && trace == old(trace) + [Fed(w, revents)]
      ensures pendings == old(pendings)[w.priority := old(pendings)[w.priority] + [Anpending(w, revents)]]
    {
      hide PendingFor, Or;
      forall v | v in watchers { PendingStep(trace, Fed(w, revents), v); }
      var pri := w.priority;
      w.pending := |pendings[pri]| + 1;
      pendings := pendings[pri := pendings[pri] + [Anpending(w, revents)]];
      trace := trace + [Fed(w, revents)];
    }

    /** Takes `w` out of its slot; returns the events it was waiting with, or 0. */
    method ClearPending(w: Watcher) returns (events: Events)
      requires Valid() && w in watchers
      modifies this`pendings, this`trace, w`pending
      ensures Valid() && trace == old(trace) + [Cleared(w)] && w.pending == 0
      ensures var was := PendingFor(old(trace), w); events == if was.Some? then was.value else 0
      ensures old(w.pending) == 0 ==> pendings == old(pendings)
      ensures |pendings| == NUMPRI && SameSizes(pendings, old(pendings))
    {
      hide PendingFor, Or;
      forall v | v in watchers { PendingStep(trace, Cleared(w), v); }
      events := 0;
      if w.pending != 0 {
        var slot := pendings[w.priority][w.pending - 1];
        events := slot.events;
        pendings := pendings[w.priority := pendings[w.priority][w.pending - 1 := slot.(w := pendingW)]];
        w.pending := 0;
      }
      trace := trace + [Cleared(w)];
    }

    function Size(): nat
      requires |pendings| == NUMPRI
      reads this`pendings
    {
      Total(pendings)
    }

    /** Nothing is pending above the level that the invocation loop works on. */
    ghost predicate ClearAbove(pri: int)
      reads this`pendings
    {
      |pendings| == NUMPRI && forall p :: 0 <= p < NUMPRI && pri < p ==> pendings[p] == []
    }

    /** Takes a cancelled watcher's slot off a stack. */
    method DropTop(pri: nat)
      requires Valid() && pri < NUMPRI && pendings[pri] != [] && pendings[pri][|pendings[pri]| - 1].w == pendingW
      modifies this`pendings, pendingW`pending
      ensures Valid() && pendings == old(pendings)[pri := old(pendings)[pri][..|old(pendings)[pri]| - 1]]
    {
      hide PendingFor, Or;
      pendings := pendings[pri := pendings[pri][..|pendings[pri]| - 1]];
      pendingW.pending := 0;
    }

    /** Takes a live watcher's slot off a stack. */
    method PopTop(pri: nat, p: Anpending)
      requires Valid() && pri < NUMPRI && pendings[pri] != []
      requires pendings[pri][|pendings[pri]| - 1] == p && p.w != pendingW
      modifies this`pendings, this`trace, p.w`pending
      ensures Valid() && pendings == old(pendings)[pri := old(pendings)[pri][..|old(pendings)[pri]| - 1]]
      ensures trace == old(trace) + [Invoked(p.w, p.events)]
    {
      hide PendingFor, Or;
      forall v | v in watchers { PendingStep(trace, Invoked(p.w, p.events), v); }
      pendings := pendings[pri := pendings[pri][..|pendings[pri]| - 1]];
      p.w.pending := 0;
      trace := trace + [Invoked(p.w, p.events)];
    }

    /** Takes the top slot of the current stack; `live` is false for the stand-in. */
    method TakeTop(ghost from: nat) returns (live: bool, ghost call: Happening)
      requires Valid() && Honest(trace, from, watchers)
      requires pendingpri < NUMPRI && ClearAbove(pendingpri) && pendings[pendingpri] != []
      modifies this`pendings, this`trace, watchers`pending, pendingW`pending
      ensures Valid() && Honest(trace, from, watchers) && ClearAbove(pendingpri) && Size() < old(Size())
      ensures call.Invoked? && trace == old(trace) + if live then [call] else []
    {
      hide PendingFor, Honest, Or, Valid, Total;
      var pri := pendingpri;
      var p := pendings[pri][|pendings[pri]| - 1];
      TotalFalls(pendings, pri, pendings[pri][..|pendings[pri]| - 1]);
      TopIsHighest();
      live, call := p.w != pendingW, Invoked(p.w, p.events);
      if live {
        HonestStep(trace, from, watchers, Invoked(p.w, p.events));
        PopTop(pri, p);
      } else {
        DropTop(pri);
      }
    }

    /** A watcher on the top of the current stack has the highest priority pending. */
    lemma {:induction false} TopIsHighest()
      requires Valid() && pendingpri < NUMPRI && pendings[pendingpri] != [] && ClearAbove(pendingpri)
      ensures var top := pendings[pendingpri][|pendings[pendingpri]| - 1];
        top.w != pendingW ==>
          && top.w in watchers && PendingFor(trace, top.w) == Some(top.events)
          && forall v :: v in watchers && PendingFor(trace, v).Some? ==> v.priority <= top.w.priority
    {
      hide PendingFor, Or;
    }

    lemma {:induction false} StacksThere()
      requires Valid()
      ensures |pendings| == NUMPRI
    {
      hide PendingFor, Or;
    }

    /** With all stacks empty nothing is pending. */
    lemma {:induction false} NonePending()
      requires Valid() && ClearAbove(-1)
      ensures forall w :: w in watchers ==> w.pending == 0
    {
      hide PendingFor;
    }
  }

  lemma HonestStart(trace: seq<Happening>, watchers: set<Watcher>)
    ensures Honest(trace, |trace|, watchers)
  {}
}
