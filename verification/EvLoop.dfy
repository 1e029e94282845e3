/** The event loop as a whole: one turn of it, with callbacks that start and stop watchers
    of all kinds. */
module EvLoop {
  import opened Wrappers
  import opened EvPending
  import opened EvTimers
  import opened EvFd

  /** What a callback may do. */
  datatype Action =
    | Feed(w: Watcher, events: Events)
    | Clear(w: Watcher)
    | StartTimer(w: Watcher)
    | StopTimer(w: Watcher)
    | AgainTimer(w: Watcher)
    | StartIo(io: Io)
    | StopIo(io: Io)

  /** The action feeds `w`. */
  predicate Feeds(a: Action, w: Watcher) {
    a.Feed? && a.w == w
  }

  /** The action takes away what is pending for `w`. */
  predicate Clears(a: Action, w: Watcher) {
    match a
    case Clear(v) => v == w
    case StopTimer(v) => v == w
    case AgainTimer(v) => v == w
    case StopIo(io) => io.base == w
    case _ => false
  }

  /** The action may have left `h` in the trace. */
  predicate Causes(a: Action, h: Happening) {
    match h
    case Fed(w, _) => Feeds(a, w)
    case Cleared(w) => Clears(a, w)
    case Invoked(_, _) => false
  }

  /** What the action leaves in the trace. */
  ghost predicate Adds(a: Action, t: seq<Happening>) {
    match a
    case Feed(w, e) => t == [Fed(w, e)]
    case Clear(w) => t == [Cleared(w)]
    case StartTimer(_) => t == []
    case StopTimer(w) => t == [Cleared(w)]
    case AgainTimer(w) => t == [Cleared(w)] || t == [Cleared(w), Cleared(w)]
    case StartIo(_) => t == []
    case StopIo(io) => t == [Cleared(io.base)]
  }

  /** What the actions of one callback leave in the trace, one after the other. */
  ghost predicate AllAdd(actions: seq<Action>, t: seq<Happening>) {
    if actions == [] then t == []
    else
      var k := |actions| - 1;
      exists i :: 0 <= i <= |t| && AllAdd(actions[..k], t[..i]) && Adds(actions[k], t[i..])
  }

  lemma {:induction false} AllAddStep(actions: seq<Action>, t: seq<Happening>, a: Action, more: seq<Happening>)
    requires AllAdd(actions, t) && Adds(a, more)
    ensures AllAdd(actions + [a], t + more)
  {
    hide Adds;
    var all := t + more;
    assert (actions + [a])[..|actions|] == actions && all[..|t|] == t && all[|t|..] == more;
  }

  lemma NoneAdd()
    ensures AllAdd([], [])
  {}

  lemma {:induction false} AllCaused(actions: seq<Action>, t: seq<Happening>, h: Happening)
    requires AllAdd(actions, t) && h in t
    ensures exists a :: a in actions && Causes(a, h)
  {
    hide Adds, Causes;
    var k := |actions| - 1;
    var i :| 0 <= i <= |t| && AllAdd(actions[..k], t[..i]) && Adds(actions[k], t[i..]);
    assert t == t[..i] + t[i..];
    if h in t[..i] {
      AllCaused(actions[..k], t[..i], h);
    } else {
      AddsCaused(actions[k], t[i..], h);
    }
  }

  /** An action clears `w` if and only if a clear of `w` can be what it leaves behind; so
      with feeding. */
  lemma {:induction false} ClearsIff(a: Action, w: Watcher)
    ensures Clears(a, w) <==> exists t :: Adds(a, t) && Cleared(w) in t
    ensures Feeds(a, w) <==> exists t, e :: Adds(a, t) && Fed(w, e) in t
  {
    match a
    case Feed(v, e) => assert Adds(a, [Fed(v, e)]) && Fed(v, e) in [Fed(v, e)];
    case Clear(v) => assert Adds(a, [Cleared(v)]) && Cleared(v) in [Cleared(v)];
    case StopTimer(v) => assert Adds(a, [Cleared(v)]) && Cleared(v) in [Cleared(v)];
    case AgainTimer(v) => assert Adds(a, [Cleared(v)]) && Cleared(v) in [Cleared(v)];
    case StopIo(io) => assert Adds(a, [Cleared(io.base)]) && Cleared(io.base) in [Cleared(io.base)];
    case _ =>
  }

  lemma AddsCaused(a: Action, t: seq<Happening>, h: Happening)
    requires Adds(a, t) && h in t
    ensures Causes(a, h)
  {}

  /** The script's actions for the `k`-th callback; beyond its end, none. */
  function Scripted(script: seq<seq<Action>>, k: nat): seq<Action> {
    if k < |script| then script[k] else []
  }

  /** No callback takes away what is pending for `w`. */
  ghost predicate NeverClears(script: seq<seq<Action>>, w: Watcher) {
    forall s, a :: s in script && a in s ==> !Clears(a, w)
  }

  ghost predicate NeverFeeds(script: seq<seq<Action>>, w: Watcher) {
    forall s, a :: s in script && a in s ==> !Feeds(a, w)
  }

  /** The watcher is not pending, and no callback feeds it. */
  ghost predicate Quiet(was: seq<Happening>, script: seq<seq<Action>>, w: Watcher) {
    PendingFor(was, w).None? && NeverFeeds(script, w)
  }

  /** A callback, and what it left in the trace. */
  datatype Call = Call(w: Watcher, events: Events, after: seq<Happening>)

  /** Each callback did what the script says. */
  ghost predicate Follows(script: seq<seq<Action>>, calls: seq<Call>) {
    forall k :: 0 <= k < |calls| ==> AllAdd(Scripted(script, k), calls[k].after)
  }

  lemma {:induction false} AfterCaused(script: seq<seq<Action>>, calls: seq<Call>, w: Watcher)
    requires Follows(script, calls)
    ensures NeverClears(script, w) ==> forall c, h :: c in calls && h in c.after && h.w == w ==> h.Fed?
    ensures NeverFeeds(script, w) ==> forall c, h :: c in calls && h in c.after && h.w == w ==> !h.Fed?
    ensures forall c, h :: c in calls && h in c.after ==> !h.Invoked?
  {
    hide AllAdd;
    forall c, h | c in calls && h in c.after
      ensures exists s, a :: s in script && a in s && Causes(a, h)
    {
      var k :| 0 <= k < |calls| && calls[k] == c;
      AllCaused(Scripted(script, k), c.after, h);
    }
  }

  /** The trace of callbacks. */
  ghost function Played(calls: seq<Call>): seq<Happening> {
    if calls == [] then []
    else
      var k := |calls| - 1;
      Played(calls[..k]) + ([Invoked(calls[k].w, calls[k].events)] + calls[k].after)
  }

  lemma {:induction false} PlayedStep(calls: seq<Call>, c: Call)
    ensures Played(calls + [c]) == Played(calls) + ([Invoked(c.w, c.events)] + c.after)
    ensures Played([]) == []
  {
    assert (calls + [c])[..|calls|] == calls;
  }

  /** All of `e` is among the events `a`. */
  predicate Includes(a: Events, e: Events) {
    a & e == e
  }

  /** All of `e` is pending for `w`. */
  ghost predicate Awaits(trace: seq<Happening>, w: Watcher, e: Events) {
    var p := PendingFor(trace, w);
    p.Some? && Includes(p.value, e)
  }

  lemma OrKeeps(a: Events, b: Events, e: Events)
    requires Includes(a, e)
    ensures Includes(Or(a, b), e)
  {}

  lemma OrAdds(a: Events, e: Events)
    ensures Includes(Or(a, e), e)
  {}

  lemma IncludesItself(e: Events)
    ensures Includes(e, e)
  {}

  lemma {:induction false} AwaitsStep(trace: seq<Happening>, h: Happening, w: Watcher, e: Events)
    ensures h == Fed(w, e) ==> Awaits(trace + [h], w, e)
    ensures Awaits(trace, w, e) && (h.w == w ==> h.Fed?) ==> Awaits(trace + [h], w, e)
  {
    hide PendingFor, Or, Includes;
    PendingStep(trace, h, w);
    IncludesItself(e);
    if PendingFor(trace, w).Some? {
      var p := PendingFor(trace, w).value;
      OrAdds(p, e);
      if h.Fed? && Includes(p, e) { OrKeeps(p, h.events, e); }
    }
  }

  /** A watcher that is fed only keeps the events it is waiting with. */
  lemma {:induction false} StillAwaits(trace: seq<Happening>, more: seq<Happening>, w: Watcher, e: Events)
    requires Awaits(trace, w, e) && forall h :: h in more && h.w == w ==> h.Fed?
    ensures Awaits(trace + more, w, e)
  {
    hide Awaits;
    if more == [] {
      assert trace + more == trace;
    } else {
      var k := |more| - 1;
      StillAwaits(trace, more[..k], w, e);
      AwaitsStep(trace + more[..k], more[k], w, e);
      assert trace + more == trace + more[..k] + [more[k]];
    }
  }

  /** A watcher that is fed waits with what it is fed, if nothing takes it away. */
  lemma {:induction false} FedAwaits(trace: seq<Happening>, more: seq<Happening>, w: Watcher, e: Events)
    requires Fed(w, e) in more && forall h :: h in more && h.w == w ==> h.Fed?
    ensures Awaits(trace + more, w, e)
  {
    hide Awaits;
    var i :| 0 <= i < |more| && more[i] == Fed(w, e);
    AwaitsStep(trace + more[..i], more[i], w, e);
    StillAwaits(trace + more[..i] + [more[i]], more[i + 1..], w, e);
    assert trace + more == trace + more[..i] + [more[i]] + more[i + 1..];
  }

  /** A watcher that is not fed does not become pending. */
  lemma {:induction false} StillNotPending(trace: seq<Happening>, more: seq<Happening>, w: Watcher)
    requires PendingFor(trace, w).None? && forall h :: h in more && h.w == w ==> !h.Fed?
    ensures PendingFor(trace + more, w).None?
  {
    if more == [] {
      assert trace + more == trace;
    } else {
      var k := |more| - 1;
      StillNotPending(trace, more[..k], w);
      PendingStep(trace + more[..k], more[k], w);
      hide PendingFor;
      assert trace + more == trace + more[..k] + [more[k]];
    }
  }

  lemma {:induction false} HonestMore(trace: seq<Happening>, from: nat, watchers: set<Watcher>, more: seq<Happening>)
    requires Honest(trace, from, watchers) && forall h :: h in more ==> !h.Invoked?
    ensures Honest(trace + more, from, watchers)
  {
    hide Honest, PendingFor;
    if more == [] {
      assert trace + more == trace;
    } else {
      var k := |more| - 1;
      HonestMore(trace, from, watchers, more[..k]);
      HonestStep(trace + more[..k], from, watchers, more[k]);
      assert trace + more == trace + more[..k] + [more[k]];
    }
  }

  lemma {:induction false} HonestEarlier(trace: seq<Happening>, was: seq<Happening>, fed: seq<Happening>,
                                         more: seq<Happening>, watchers: set<Watcher>)
    requires trace == was + fed + more && Honest(trace, |was + fed|, watchers)
    requires forall h :: h in fed ==> !h.Invoked?
    ensures Honest(trace, |was|, watchers)
  {
    hide PendingFor;
    forall k | |was| <= k < |was + fed| ensures !trace[k].Invoked? { assert trace[k] == fed[k - |was|]; }
  }

  lemma {:induction false} HonestJoin(trace: seq<Happening>, from: nat, longer: seq<Happening>, watchers: set<Watcher>)
    requires trace <= longer && Honest(trace, from, watchers) && Honest(longer, |trace|, watchers)
    ensures Honest(longer, from, watchers)
  {
    hide PendingFor;
    forall k | 0 <= k < |trace| ensures longer[..k] == trace[..k] {}
  }

  lemma {:induction false} AddsHonest(trace: seq<Happening>, from: nat, watchers: set<Watcher>, a: Action,
                                      t: seq<Happening>)
    requires Honest(trace, from, watchers) && Adds(a, t)
    ensures Honest(trace + t, from, watchers)
  {
    hide Honest, Adds, Causes;
    forall h | h in t ensures !h.Invoked? { AddsCaused(a, t, h); NotCausing(a, h); }
    HonestMore(trace, from, watchers, t);
  }

  lemma NotCausing(a: Action, h: Happening)
    requires Causes(a, h)
    ensures !h.Invoked?
  {}

  /** At the `k`-th callback, what had happened and that it was the right one. */
  lemma {:induction false} CallHonest(trace: seq<Happening>, calls: seq<Call>, k: nat, watchers: set<Watcher>)
    requires Honest(trace + Played(calls), |trace|, watchers) && k < |calls|
    ensures calls[k].w in watchers
    ensures PendingFor(trace + Played(calls[..k]), calls[k].w) == Some(calls[k].events)
  {
    PlayedPrefix(trace, calls, k);
    hide PendingFor, Played;
    var all, before := trace + Played(calls), trace + Played(calls[..k]);
    assert all[..|before|] == before;
  }

  lemma {:induction false} PlayedPrefix(trace: seq<Happening>, calls: seq<Call>, k: nat)
    requires k < |calls|
    ensures var all, before := trace + Played(calls), trace + Played(calls[..k]);
      |before| < |all| && all[|before|] == Invoked(calls[k].w, calls[k].events) && all[..|before|] == before
    decreases |calls|
  {
    var n := |calls| - 1;
    PlayedStep(calls[..n], calls[n]);
    assert calls == calls[..n] + [calls[n]];
    if k < n {
      PlayedPrefix(trace, calls[..n], k);
      assert calls[..n][..k] == calls[..k];
    }
  }

  /** A callback of `w` got all of `e`. */
  ghost predicate Gets(calls: seq<Call>, w: Watcher, e: Events) {
    exists c :: c in calls && c.w == w && Includes(c.events, e)
  }

  lemma {:induction false} GetsAt(trace: seq<Happening>, calls: seq<Call>, k: nat, e: Events)
    requires k < |calls| && PendingFor(trace, calls[k].w) == Some(calls[k].events) && Awaits(trace, calls[k].w, e)
    ensures Gets(calls, calls[k].w, e)
  {
    assert calls[k] in calls;
  }

  /** What is pending before a round of callbacks, and no longer after it, was passed to
      one of them, unless a callback took it away. */
  lemma {:induction false} PendingIsInvoked(trace: seq<Happening>, calls: seq<Call>, w: Watcher, e: Events,
                                            watchers: set<Watcher>)
    requires Awaits(trace, w, e) && PendingFor(trace + Played(calls), w).None?
    requires Honest(trace + Played(calls), |trace|, watchers)
    requires forall c, h :: c in calls && h in c.after && h.w == w ==> h.Fed?
    ensures Gets(calls, w, e)
  {
    InvokedOrAwaits(trace, calls, |calls|, w, e, watchers);
    assert calls[..|calls|] == calls;
  }

  /** What `k` callbacks have left, one more callback adds to. */
  lemma {:induction false} PlayedNext(trace: seq<Happening>, calls: seq<Call>, k: nat)
    requires k < |calls|
    ensures trace + Played(calls[..k + 1])
         == trace + Played(calls[..k]) + ([Invoked(calls[k].w, calls[k].events)] + calls[k].after)
    ensures trace + Played(calls[..0]) == trace
  {
    PlayedStep(calls[..k], calls[k]);
    assert calls[..k + 1] == calls[..k] + [calls[k]];
  }

  lemma {:induction false} InvokedOrAwaits(trace: seq<Happening>, calls: seq<Call>, k: nat, w: Watcher, e: Events,
                                           watchers: set<Watcher>)
    requires Awaits(trace, w, e) && k <= |calls|
    requires Honest(trace + Played(calls), |trace|, watchers)
    requires forall c, h :: c in calls && h in c.after && h.w == w ==> h.Fed?
    ensures Gets(calls, w, e) || Awaits(trace + Played(calls[..k]), w, e)
  {
    if k == 0 {
      assert trace + Played(calls[..0]) == trace;
    } else {
      hide Honest, Played, PendingFor, Gets, Awaits;
      InvokedOrAwaits(trace, calls, k - 1, w, e, watchers);
      CallHonest(trace, calls, k - 1, watchers);
      PlayedNext(trace, calls, k - 1);
      var c, before := calls[k - 1], trace + Played(calls[..k - 1]);
      if Awaits(before, w, e) {
        if c.w == w {
          GetsAt(before, calls, k - 1, e);
        } else {
          StillAwaits(before, [Invoked(c.w, c.events)] + c.after, w, e);
        }
      }
    }
  }

  /** A watcher that is not pending and that no callback feeds is not called. */
  lemma {:induction false} NotFedNotInvoked(trace: seq<Happening>, calls: seq<Call>, w: Watcher, watchers: set<Watcher>)
    requires PendingFor(trace, w).None? && Honest(trace + Played(calls), |trace|, watchers)
    requires forall c, h :: c in calls && h in c.after && h.w == w ==> !h.Fed?
    ensures forall c :: c in calls ==> c.w != w
  {
    forall k | 0 <= k < |calls| ensures calls[k].w != w { StaysOut(trace, calls, k + 1, w, watchers); }
  }

  lemma {:induction false} StaysOut(trace: seq<Happening>, calls: seq<Call>, k: nat, w: Watcher, watchers: set<Watcher>)
    requires PendingFor(trace, w).None? && Honest(trace + Played(calls), |trace|, watchers) && k <= |calls|
    requires forall c, h :: c in calls && h in c.after && h.w == w ==> !h.Fed?
    ensures PendingFor(trace + Played(calls[..k]), w).None? && (k > 0 ==> calls[k - 1].w != w)
  {
    if k == 0 {
      assert trace + Played(calls[..0]) == trace;
    } else {
      hide Honest, Played, PendingFor;
      StaysOut(trace, calls, k - 1, w, watchers);
      CallHonest(trace, calls, k - 1, watchers);
      PlayedNext(trace, calls, k - 1);
      NotCalled(trace + Played(calls[..k - 1]), calls[k - 1], w);
    }
  }

  lemma {:induction false} NotCalled(before: seq<Happening>, c: Call, w: Watcher)
    requires PendingFor(before, w).None? && PendingFor(before, c.w).Some?
    requires forall h :: h in c.after && h.w == w ==> !h.Fed?
    ensures PendingFor(before + ([Invoked(c.w, c.events)] + c.after), w).None? && c.w != w
  {
    StillNotPending(before, [Invoked(c.w, c.events)] + c.after, w);
  }

  ghost predicate NotCalledAt(calls: seq<Call>, w: Watcher) {
    forall c :: c in calls ==> c.w != w
  }

  /** Every callback of `w` got `e` and nothing else. */
  ghost predicate OnlyWith(calls: seq<Call>, w: Watcher, e: Events) {
    forall c :: c in calls && c.w == w ==> c.events == e
  }

  /** Nothing but `e`, if anything, is pending for `w`. */
  ghost predicate AtMost(trace: seq<Happening>, w: Watcher, e: Events) {
    PendingFor(trace, w).Some? ==> PendingFor(trace, w).value == e
  }

  lemma OrSame(e: Events)
    ensures Or(e, e) == e
  {}

  lemma {:induction false} AtMostMore(trace: seq<Happening>, more: seq<Happening>, w: Watcher, e: Events)
    requires AtMost(trace, w, e) && forall h :: h in more && h.w == w && h.Fed? ==> h.events == e
    ensures AtMost(trace + more, w, e)
  {
    if more == [] {
      assert trace + more == trace;
    } else {
      var k := |more| - 1;
      AtMostMore(trace, more[..k], w, e);
      PendingStep(trace + more[..k], more[k], w);
      OrSame(e);
      hide PendingFor, Or;
      assert trace + more == trace + more[..k] + [more[k]];
    }
  }

  /** A watcher that was fed nothing but `e` is called with nothing else, unless a
      callback feeds it. */
  lemma {:induction false} CalledWith(trace: seq<Happening>, calls: seq<Call>, k: nat, w: Watcher, e: Events,
                                      watchers: set<Watcher>)
    requires AtMost(trace, w, e) && Honest(trace + Played(calls), |trace|, watchers) && k <= |calls|
    requires forall c, h :: c in calls && h in c.after && h.w == w ==> !h.Fed?
    ensures AtMost(trace + Played(calls[..k]), w, e) && (k > 0 && calls[k - 1].w == w ==> calls[k - 1].events == e)
  {
    if k == 0 {
      assert trace + Played(calls[..0]) == trace;
    } else {
      hide Honest, Played, PendingFor;
      CalledWith(trace, calls, k - 1, w, e, watchers);
      CallHonest(trace, calls, k - 1, watchers);
      PlayedNext(trace, calls, k - 1);
      var c := calls[k - 1];
      assert c in calls;
      AtMostMore(trace + Played(calls[..k - 1]), [Invoked(c.w, c.events)] + c.after, w, e);
    }
  }

  /** One turn: what the kernel reports, the time, and what the callbacks do. */
  datatype Turn = Turn(report: map<nat, Mask>, now: real, script: seq<seq<Action>>)

  /** What one turn of the loop leaves in the trace: feeds, and then the callbacks that
      follow a script, after which nothing is pending. */
  ghost predicate Turned(was: seq<Happening>, fed: seq<Happening>, script: seq<seq<Action>>, calls: seq<Call>,
                         watchers: set<Watcher>) {
    && Follows(script, calls) && Honest(was + fed + Played(calls), |was + fed|, watchers)
    && forall w :: w in watchers ==> PendingFor(was + fed + Played(calls), w).None?
  }

  /** A watcher fed in this turn is called in it, unless a callback takes that away. */
  lemma {:induction false} FedIsCalled(was: seq<Happening>, before: seq<Happening>, more: seq<Happening>,
                                       script: seq<seq<Action>>, calls: seq<Call>, w: Watcher, e: Events,
                                       watchers: set<Watcher>)
    requires Turned(was, before + more, script, calls, watchers) && w in watchers && NeverClears(script, w)
    requires Fed(w, e) in more && forall h :: h in more && h.w == w ==> h.Fed?
    ensures Gets(calls, w, e)
  {
    hide Honest, PendingFor, Awaits, Follows, NeverClears, Includes;
    FedAwaits(was + before, more, w, e);
    assert was + before + more == was + (before + more);
    AfterCaused(script, calls, w);
    PendingIsInvoked(was + (before + more), calls, w, e, watchers);
  }

  /** A watcher that is not pending and not fed in this turn is not called in it, unless
      a callback feeds it. */
  lemma {:induction false} NotFedNotCalled(was: seq<Happening>, fed: seq<Happening>, script: seq<seq<Action>>,
                                           calls: seq<Call>, w: Watcher, watchers: set<Watcher>)
    requires Turned(was, fed, script, calls, watchers) && Quiet(was, script, w)
    requires forall h :: h in fed && h.w == w ==> !h.Fed?
    ensures NotCalledAt(calls, w)
  {
    hide Honest, PendingFor, Follows, NeverFeeds;
    StillNotPending(was, fed, w);
    AfterCaused(script, calls, w);
    NotFedNotInvoked(was + fed, calls, w, watchers);
  }

  /** A watcher that is not pending and that is fed nothing but `e` in this turn is
      called with nothing else in it, unless a callback feeds it. */
  lemma {:induction false} FedOnlyWith(was: seq<Happening>, fed: seq<Happening>, script: seq<seq<Action>>,
                                       calls: seq<Call>, w: Watcher, e: Events, watchers: set<Watcher>)
    requires Turned(was, fed, script, calls, watchers) && Quiet(was, script, w)
    requires forall h :: h in fed && h.w == w && h.Fed? ==> h.events == e
    ensures OnlyWith(calls, w, e)
  {
    hide Honest, PendingFor, Follows, NeverFeeds;
    AtMostMore(was, fed, w, e);
    AfterCaused(script, calls, w);
    forall k | 0 <= k < |calls| && calls[k].w == w ensures calls[k].events == e {
      CalledWith(was + fed, calls, k + 1, w, e, watchers);
    }
  }

  class Loop {
    const queue: PendingQueue
    const timers: Timers
    const fds: Fds

    constructor (queue: PendingQueue, timers: Timers, fds: Fds)
      requires timers.Valid() && fds.Valid() && timers.queue == queue && fds.queue == queue
      requires fds.AllProper() && forall io :: io in fds.members ==> io.base !in timers.members
      ensures Valid() && this.queue == queue && this.timers == timers && this.fds == fds
    {
      this.queue, this.timers, this.fds := queue, timers, fds;
    }

    /** Timers and descriptors are each in order, share one queue, and have no watcher in
        common. */
    ghost predicate Valid()
      reads timers`timers, Watchers(timers.timers), timers.members, fds, fds.members, fds.poll, queue`pendings,
        queue`trace, queue.watchers, set io | io in fds.members :: io.base
    {
      && timers.queue == queue && fds.queue == queue
      && timers.Own() && fds.Own() && queue.Valid()
      && Apart() && fds.AllProper()
    }

    ghost predicate Apart() {
      forall io :: io in fds.members ==> io.base !in timers.members
    }

    /** The action is about watchers of this loop. */
    ghost predicate Known(a: Action) {
      match a
      case Feed(w, _) => w in queue.watchers
      case Clear(w) => w in queue.watchers
      case StartTimer(w) => w in timers.members
      case StopTimer(w) => w in timers.members
      case AgainTimer(w) => w in timers.members
      case StartIo(io) => io in fds.members
      case StopIo(io) => io in fds.members
    }

    /** The invocation loop has passed the levels that are empty. */
    ghost predicate Level()
      reads queue`pendings, queue`pendingpri
    {
      queue.pendingpri < NUMPRI && queue.ClearAbove(queue.pendingpri)
    }

    lemma {:induction false} Parts()
      requires Valid()
      ensures timers.queue == queue && fds.queue == queue && timers.Valid() && fds.Valid() && queue.Valid()
      ensures timers.members <= queue.watchers && Watchers(timers.timers) <= timers.members
      ensures forall io :: io in fds.members ==> io.base in queue.watchers && io.base !in timers.members
      ensures |queue.pendings| == NUMPRI && fds.AllProper()
    {
      queue.StacksThere();
      hide Timers.HeapOk, Fds.Lists, Fds.Current, Listed, Sync, PendingQueue.Valid, Fds.AllProper;
    }

    lemma {:induction false} Whole()
      requires timers.queue == queue && fds.queue == queue && timers.Own() && fds.Own() && queue.Valid()
      requires fds.AllProper() && forall io :: io in fds.members ==> io.base !in timers.members
      ensures Valid()
    {
      hide Timers.Own, Fds.Own, PendingQueue.Valid, Fds.AllProper;
    }

    /** Stacks that keep their sizes stay empty. */
    lemma StillClear(was: seq<seq<Anpending>>)
      requires |was| == NUMPRI && SameSizes(queue.pendings, was)
      requires forall p :: 0 <= p < NUMPRI && queue.pendingpri < p ==> was[p] == []
      requires queue.pendingpri < NUMPRI
      ensures Level()
    {}

    method FeedOne(w: Watcher, e: Events)
      requires Valid() && Level() && w in queue.watchers
      modifies queue`pendings, queue`pendingpri, queue`trace, queue.watchers`pending
      ensures Valid() && Level() && queue.trace == old(queue.trace) + [Fed(w, e)]
    {
      hide Valid, Timers.Own, Fds.Own, PendingQueue.Valid, Fds.AllProper, Proper, Watchers;
      Parts();
      queue.FeedEvent(w, e);
      Whole();
    }

    method ClearOne(w: Watcher)
      requires Valid() && Level() && w in queue.watchers
      modifies queue`pendings, queue`trace, queue.watchers`pending
      ensures Valid() && Level() && queue.trace == old(queue.trace) + [Cleared(w)]
    {
      hide Valid, Timers.Own, Fds.Own, PendingQueue.Valid, Fds.AllProper, Proper, Watchers;
      Parts();
      var _ := queue.ClearPending(w);
      Whole();
      StillClear(old(queue.pendings));
    }

    method StartOneTimer(w: Watcher)
      requires Valid() && Level() && w in timers.members
      modifies timers`timers, queue.watchers`active, queue.watchers`at
      ensures Valid() && Level() && queue.trace == old(queue.trace)
    {
      hide Valid, Timers.Own, Fds.Own, PendingQueue.Valid, Fds.AllProper, Proper, Watchers;
      Parts();
      timers.TimerStart(w);
      Whole();
    }

    method StopOneTimer(w: Watcher)
      requires Valid() && Level() && w in timers.members
      modifies timers`timers, queue`pendings, queue`trace, queue.watchers`active, queue.watchers`at,
        queue.watchers`pending
      ensures Valid() && Level() && queue.trace == old(queue.trace) + [Cleared(w)]
    {
      hide Valid, Timers.Own, Fds.Own, PendingQueue.Valid, Fds.AllProper, Proper, Watchers;
      Parts();
      timers.TimerStop(w);
      Whole();
      StillClear(old(queue.pendings));
    }

    method RepeatOneTimer(w: Watcher) returns (ghost t: seq<Happening>)
      requires Valid() && Level() && w in timers.members
      modifies timers`timers, queue`pendings, queue`trace, queue.watchers`active, queue.watchers`at,
        queue.watchers`pending
      ensures Valid() && Level() && (t == [Cleared(w)] || t == [Cleared(w), Cleared(w)])
      ensures queue.trace == old(queue.trace) + t
    {
      hide Valid, Timers.Own, Fds.Own, PendingQueue.Valid, Fds.AllProper, Proper, Watchers;
      Parts();
      ghost var twice := w.active != 0 && w.repeat == 0.0;
      timers.TimerAgain(w);
      t := if twice then [Cleared(w), Cleared(w)] else [Cleared(w)];
      assert [Cleared(w)] + (if twice then [Cleared(w)] else []) == t;
      Whole();
      StillClear(old(queue.pendings));
    }

    lemma {:induction false} IsProper(io: Io)
      requires fds.AllProper() && io in fds.members
      ensures Proper(io.events)
    {
      hide Proper;
    }

    method StartOneIo(io: Io)
      requires Valid() && Level() && io in fds.members
      modifies fds`anfds, fds`fdchanges, fds.members`events, queue.watchers`active
      ensures Valid() && Level() && queue.trace == old(queue.trace)
    {
      hide Valid, Timers.Own, Fds.Own, PendingQueue.Valid, Fds.AllProper, Proper, Watchers;
      Parts();
      IsProper(io);
      fds.IoStart(io);
      Whole();
    }

    method StopOneIo(io: Io)
      requires Valid() && Level() && io in fds.members
      modifies fds`anfds, fds`fdchanges, queue`pendings, queue`trace, queue.watchers`active, queue.watchers`pending
      ensures Valid() && Level() && queue.trace == old(queue.trace) + [Cleared(io.base)]
    {
      hide Valid, Timers.Own, Fds.Own, PendingQueue.Valid, Fds.AllProper, Proper, Watchers;
      Parts();
      fds.IoStop(io);
      Whole();
      StillClear(old(queue.pendings));
    }

    /** One action of a callback. */
    method Act(a: Action) returns (ghost t: seq<Happening>)
      requires Valid() && Known(a) && Level()
      modifies timers`timers, fds`anfds, fds`fdchanges, fds.members`events, queue`pendings, queue`pendingpri,
        queue`trace, queue.watchers`active, queue.watchers`at, queue.watchers`pending
      ensures Valid() && Level() && Adds(a, t) && queue.trace == old(queue.trace) + t
    {
      hide Valid, Level;
      t := [];
      match a
      case Feed(w, e) =>
        FeedOne(w, e);
        t := [Fed(w, e)];
      case Clear(w) =>
        ClearOne(w);
        t := [Cleared(w)];
      case StartTimer(w) => StartOneTimer(w);
      case StopTimer(w) =>
        StopOneTimer(w);
        t := [Cleared(w)];
      case AgainTimer(w) => t := RepeatOneTimer(w);
      case StartIo(io) => StartOneIo(io);
      case StopIo(io) =>
        StopOneIo(io);
        t := [Cleared(io.base)];
    }

    /** Runs one callback. */
    method Callback(actions: seq<Action>, ghost from: nat) returns (ghost t: seq<Happening>)
      requires Valid() && Level() && forall a :: a in actions ==> Known(a)
      requires Honest(queue.trace, from, queue.watchers)
      modifies timers`timers, fds`anfds, fds`fdchanges, fds.members`events, queue`pendings, queue`pendingpri,
        queue`trace, queue.watchers`active, queue.watchers`at, queue.watchers`pending
      ensures Valid() && Level() && AllAdd(actions, t) && queue.trace == old(queue.trace) + t
      ensures Honest(queue.trace, from, queue.watchers)
      ensures actions == [] ==> queue.pendings == old(queue.pendings) && queue.pendingpri == old(queue.pendingpri)
    {
      hide Valid, Level, AllAdd, Adds, Honest, Known;
      t := [];
      NoneAdd();
      for i := 0 to |actions|
        invariant Valid() && Level() && AllAdd(actions[..i], t) && queue.trace == old(queue.trace) + t
        invariant Honest(queue.trace, from, queue.watchers)
        invariant i == 0 ==> queue.pendings == old(queue.pendings) && queue.pendingpri == old(queue.pendingpri)
      {
        ghost var before := queue.trace;
        ghost var more := Act(actions[i]);
        AddsHonest(before, from, queue.watchers, actions[i], more);
        AllAddStep(actions[..i], t, actions[i], more);
        assert actions[..i + 1] == actions[..i] + [actions[i]];
        t := t + more;
      }
      assert actions[..|actions|] == actions;
    }

    /** Takes the top slot and runs its watcher's callback; that of the stand-in does
        nothing. */
    method InvokeTop(actions: seq<Action>, ghost from: nat) returns (live: bool, ghost call: Call)
      requires Valid() && Level() && forall a :: a in actions ==> Known(a)
      requires Honest(queue.trace, from, queue.watchers) && queue.pendings[queue.pendingpri] != []
      modifies timers`timers, fds`anfds, fds`fdchanges, fds.members`events, queue`pendings, queue`pendingpri,
        queue`trace, queue.watchers`active, queue.watchers`at, queue.watchers`pending, queue.pendingW`pending
      ensures Valid() && Level() && Honest(queue.trace, from, queue.watchers) && (live ==> AllAdd(actions, call.after))
      ensures queue.trace == old(queue.trace) + if live then [Invoked(call.w, call.events)] + call.after else []
      ensures !live || actions == [] ==>
        queue.pendingpri == old(queue.pendingpri) && queue.Size() < old(queue.Size())
    {
      hide Valid, Level, AllAdd, Honest, Known, Total;
      Levelled();
      ghost var invoked;
      live, invoked := TakeOne(from);
      ghost var after := [];
      if live { after := Callback(actions, from); }
      call := Call(invoked.w, invoked.events, after);
    }

    lemma Levelled()
      requires Level()
      ensures queue.pendingpri < NUMPRI == |queue.pendings|
    {}

    /** Takes the top slot of the current stack; `live` is false for the stand-in. */
    method TakeOne(ghost from: nat) returns (live: bool, ghost call: Happening)
      requires Valid() && Level() && queue.pendings[queue.pendingpri] != []
      requires Honest(queue.trace, from, queue.watchers)
      modifies queue`pendings, queue`trace, queue.watchers`pending, queue.pendingW`pending
      ensures Valid() && Level() && Honest(queue.trace, from, queue.watchers) && queue.Size() < old(queue.Size())
      ensures call.Invoked? && queue.trace == old(queue.trace) + if live then [call] else []
    {
      hide Valid, Timers.Own, Fds.Own, PendingQueue.Valid, Fds.AllProper, Proper, Watchers, Honest, Total;
      Parts();
      live, call := queue.TakeTop(from);
      Whole();
    }

    /** The script is about watchers of this loop. */
    ghost predicate AllKnown(script: seq<seq<Action>>) {
      forall s, a :: s in script && a in s ==> Known(a)
    }

    lemma {:induction false} ScriptKnown(script: seq<seq<Action>>, k: nat)
      requires AllKnown(script)
      ensures forall a :: a in Scripted(script, k) ==> Known(a)
    {
      hide Known;
    }

    /** What holds whenever no callback runs: what has been invoked since `was`. */
    ghost predicate Invoking(was: seq<Happening>, script: seq<seq<Action>>, calls: seq<Call>)
      reads timers`timers, Watchers(timers.timers), timers.members, fds, fds.members, fds.poll, queue`pendings,
        queue`trace, queue.watchers, set io | io in fds.members :: io.base
    {
      && Valid() && Honest(queue.trace, |was|, queue.watchers)
      && queue.trace == was + Played(calls) && Follows(script, calls)
    }

    lemma {:induction false} InvokingStart(script: seq<seq<Action>>)
      requires Valid()
      ensures Invoking(queue.trace, script, [])
    {
      hide Valid;
      HonestStart(queue.trace, queue.watchers);
      assert queue.trace + [] == queue.trace;
    }

    lemma {:induction false} FollowsStep(script: seq<seq<Action>>, calls: seq<Call>, c: Call)
      requires Follows(script, calls) && AllAdd(Scripted(script, |calls|), c.after)
      ensures Follows(script, calls + [c])
    {
      hide AllAdd, Scripted;
    }

    /** One turn of the inner loop of the invocation. */
    method InvokeNext(ghost was: seq<Happening>, script: seq<seq<Action>>, ghost calls: seq<Call>, done: nat)
      returns (live: bool, ghost calls': seq<Call>)
      requires Invoking(was, script, calls) && Level() && AllKnown(script)
      requires Scripted(script, done) == Scripted(script, |calls|) && queue.pendings[queue.pendingpri] != []
      modifies timers`timers, fds`anfds, fds`fdchanges, fds.members`events, queue`pendings, queue`pendingpri,
        queue`trace, queue.watchers`active, queue.watchers`at, queue.watchers`pending, queue.pendingW`pending
      ensures Invoking(was, script, calls') && Level() && |calls'| == |calls| + if live then 1 else 0
      ensures !live || done >= |script| ==>
        queue.pendingpri == old(queue.pendingpri) && queue.Size() < old(queue.Size())
    {
      hide Valid, Level, Honest, Played, Follows, AllAdd, AllKnown, Known, Total;
      ScriptKnown(script, done);
      ghost var call;
      live, call := InvokeTop(Scripted(script, done), |was|);
      calls' := calls;
      if live {
        PlayedStep(calls, call);
        FollowsStep(script, calls, call);
        calls' := calls + [call];
      }
    }

    /** How far the script has been followed: `done` of its callbacks have run. */
    static ghost predicate Counted(script: seq<seq<Action>>, n: nat, done: nat) {
      done <= |script| && (done == n || done == |script| <= n)
    }

    /** Invokes what is pending on one level, and on those above it that callbacks fill
        again. */
    method InvokeLevel(ghost was: seq<Happening>, script: seq<seq<Action>>, ghost calls: seq<Call>, done: nat)
      returns (ghost calls': seq<Call>, done': nat)
      requires Invoking(was, script, calls) && Level() && AllKnown(script) && Counted(script, |calls|, done)
      modifies timers`timers, fds`anfds, fds`fdchanges, fds.members`events, queue`pendings, queue`pendingpri,
        queue`trace, queue.watchers`active, queue.watchers`at, queue.watchers`pending, queue.pendingW`pending
      ensures Invoking(was, script, calls') && Level() && Counted(script, |calls'|, done')
      ensures queue.pendings[queue.pendingpri] == []
      ensures done' > done
           || (done' == done && (queue.Size() < old(queue.Size())
                                 || (queue.Size() == old(queue.Size()) && queue.pendingpri == old(queue.pendingpri))))
    {
      hide AllKnown, Total, Invoking;
      calls', done' := calls, done;
      while |queue.pendings[queue.pendingpri]| > 0
        invariant Invoking(was, script, calls') && Level() && Counted(script, |calls'|, done')
        invariant done' > done
               || (done' == done && (queue.Size() < old(queue.Size())
                                     || (queue.Size() == old(queue.Size())
                                         && queue.pendingpri == old(queue.pendingpri))))
        decreases |script| - done', queue.Size()
      {
        var live;
        live, calls' := InvokeNext(was, script, calls', done');
        if live && done' < |script| { done' := done' + 1; }
      }
    }

    /** Invokes everything pending, highest priority first; the callbacks, run in this
        order, do what `script` says. */
    method InvokePending(script: seq<seq<Action>>) returns (ghost calls: seq<Call>)
      requires Valid() && AllKnown(script)
      modifies timers`timers, fds`anfds, fds`fdchanges, fds.members`events, queue`pendings, queue`pendingpri,
        queue`trace, queue.watchers`active, queue.watchers`at, queue.watchers`pending, queue.pendingW`pending
      ensures Valid() && forall w :: w in queue.watchers ==> w.pending == 0
      ensures queue.trace == old(queue.trace) + Played(calls) && Follows(script, calls)
      ensures Honest(queue.trace, |old(queue.trace)|, queue.watchers)
    {
      ghost var was := queue.trace;
      InvokingStart(script);
      hide Valid, Honest, Played, Follows, AllKnown, Total, Invoking, PendingQueue.ClearAbove, Level;
      Parts();
      Unlevelled();
      var done := 0;
      calls := [];
      queue.pendingpri := NUMPRI;
      while true
        invariant Invoking(was, script, calls) && queue.ClearAbove(queue.pendingpri - 1)
        invariant |queue.pendings| == NUMPRI
        invariant 0 < queue.pendingpri <= NUMPRI && Counted(script, |calls|, done)
        decreases |script| - done, queue.Size(), queue.pendingpri
      {
        queue.pendingpri := queue.pendingpri - 1;
        AtLevel();
        calls, done := InvokeLevel(was, script, calls, done);
        LevelDone();
        if queue.pendingpri == 0 { break; }
      }
      AllInvoked(was, script, calls);
    }

    lemma Unlevelled()
      requires |queue.pendings| == NUMPRI
      ensures queue.ClearAbove(NUMPRI - 1)
    {}

    lemma AtLevel()
      requires queue.pendingpri < NUMPRI && queue.ClearAbove(queue.pendingpri)
      ensures Level()
    {}

    lemma LevelDone()
      requires Level() && queue.pendings[queue.pendingpri] == []
      ensures queue.pendingpri < NUMPRI == |queue.pendings| && queue.ClearAbove(queue.pendingpri - 1)
    {}

    lemma {:induction false} AllInvoked(was: seq<Happening>, script: seq<seq<Action>>, calls: seq<Call>)
      requires Invoking(was, script, calls) && queue.ClearAbove(-1)
      ensures Valid() && forall w :: w in queue.watchers ==> w.pending == 0
      ensures queue.trace == was + Played(calls) && Follows(script, calls)
      ensures Honest(queue.trace, |was|, queue.watchers)
    {
      hide Valid, PendingQueue.Valid;
      Parts();
      queue.NonePending();
    }

    // ---------- one turn ----------

    /** What the kernel has to report about a descriptor; nothing, unless told otherwise. */
    static function Report(report: map<nat, Mask>, fd: nat): Mask {
      if fd in report then report[fd] else 0
    }

    /** The events `io` gets when the kernel answers `report`. */
    static function IoEvents(io: Io, report: map<nat, Mask>): Mask
      reads io`events
    {
      Common(io.events, Reported(Report(report, io.fd)))
    }

    /** The watcher is active and something it waits for has happened. */
    static predicate Ready(io: Io, report: map<nat, Mask>)
      reads io`events, io.base`active
    {
      io.base.active != 0 && IoEvents(io, report) != 0
    }

    /** The timer is active and its deadline has passed at `t`. */
    static predicate Due(w: Watcher, t: real)
      reads w`active, w`at
    {
      w.active != 0 && w.at < t
    }

    /** Exactly the ready watchers of descriptors are fed what they wait for. */
    lemma {:induction false} FedIfReady(report: map<nat, Mask>, revents: seq<Mask>, io: Io, e: Events)
      requires Valid() && fds.fdchanges == [] && io in fds.members && |revents| == |fds.poll.polls|
      requires forall i :: 0 <= i < |revents| ==> revents[i] == Report(report, fds.poll.polls[i].fd)
      ensures Fed(io.base, e) in PollFeeds(fds.poll.polls, fds.anfds, fds.Masked(), revents)
         <==> Ready(io, report) && e == AsEvents(IoEvents(io, report))
    {
      hide Valid, Fds.Own, PollFeeds, Fds.Masked, Fds.AllProper, Report, Common, Reported, AsEvents;
      Parts();
      fds.ReadyIsFed(revents, io, e);
      if Ready(io, report) {
        NoEvents(io.events, Reported(Report(report, io.fd)));
        fds.HasEntry(io);
      }
    }

    static lemma NoEvents(a: Mask, b: Mask)
      ensures Common(a, b) != 0 ==> a != 0
    {}

    /** What the kernel has to report about every entry of the poll array. */
    static function Reports(polls: seq<Pollfd>, report: map<nat, Mask>): seq<Mask> {
      seq(|polls|, i requires 0 <= i < |polls| => Report(report, polls[i].fd))
    }

    /** The ready watchers, and what each gets. */
    ghost function ReadyNow(report: map<nat, Mask>): map<Io, Events>
      reads fds.members`events, set io | io in fds.members :: io.base`active
    {
      map io | io in fds.members && Ready(io, report) :: AsEvents(IoEvents(io, report))
    }

    /** Exactly the ready watchers are fed in `t`, each with what it gets. */
    ghost predicate Answers(ready: map<Io, Events>, t: seq<Happening>) {
      && (forall io, e :: io in fds.members ==> (Fed(io.base, e) in t <==> io in ready && e == ready[io]))
      && (forall h :: h in t ==> h.Fed? && exists io :: io in fds.members && io.base == h.w)
    }

    lemma {:induction false} FeedsAnswer(report: map<nat, Mask>, revents: seq<Mask>)
      requires Valid() && fds.fdchanges == [] && revents == Reports(fds.poll.polls, report)
      ensures |revents| == |fds.poll.polls|
      ensures Answers(ReadyNow(report), PollFeeds(fds.poll.polls, fds.anfds, fds.Masked(), revents))
    {
      hide Valid, Fds.Own, PollFeeds, Fds.Masked, Fds.AllProper, Report, Ready, AsEvents, IoEvents;
      Parts();
      var ready, t := ReadyNow(report), PollFeeds(fds.poll.polls, fds.anfds, fds.Masked(), revents);
      forall io, e | io in fds.members ensures Fed(io.base, e) in t <==> io in ready && e == ready[io] {
        FedIfReady(report, revents, io, e);
      }
      forall h | h in t ensures h.Fed? && exists io :: io in fds.members && io.base == h.w {
        fds.OnlyMembersFed(revents, h);
      }
    }

    /** Passes on what has changed. */
    method PassOn()
      requires Valid()
      modifies fds`anfds, fds`fdchanges, fds.poll
      ensures Valid() && fds.fdchanges == []
    {
      hide Valid, Timers.Own, Fds.Own, PendingQueue.Valid, Fds.AllProper, Watchers, Head;
      Parts();
      fds.FdReify();
      Whole();
    }

    /** Feeds what the kernel answers. */
    method Tell(revents: seq<Mask>)
      requires Valid() && |revents| == |fds.poll.polls|
      modifies queue`pendings, queue`pendingpri, queue`trace, queue.watchers`pending
      ensures Valid()
      ensures queue.trace == old(queue.trace) + PollFeeds(fds.poll.polls, fds.anfds, fds.Masked(), revents)
    {
      hide Valid, Timers.Own, Fds.Own, PendingQueue.Valid, Fds.AllProper, Watchers, PollFeeds, Fds.Masked;
      Parts();
      fds.PollPoll(revents);
      Whole();
    }

    /** Passes on what has changed, asks the kernel, and feeds what it answers: exactly
        the ready watchers. */
    method Poll(report: map<nat, Mask>) returns (ghost t: seq<Happening>)
      requires Valid()
      modifies fds`anfds, fds`fdchanges, fds.poll, queue`pendings, queue`pendingpri, queue`trace,
        queue.watchers`pending
      ensures Valid() && queue.trace == old(queue.trace) + t && Answers(old(ReadyNow(report)), t)
    {
      hide Valid, PollFeeds, Fds.Masked, Answers, Reports, ReadyNow;
      PassOn();
      var revents := Reports(fds.poll.polls, report);
      FeedsAnswer(report, revents);
      t := PollFeeds(fds.poll.polls, fds.anfds, fds.Masked(), revents);
      Tell(revents);
    }

    /** The timers that are due. */
    ghost function DueNow(t: real): set<Watcher>
      reads timers.members`active, timers.members`at
    {
      set w | w in timers.members && Due(w, t)
    }

    /** Exactly the due timers are fed, after some of them were cleared. */
    static ghost predicate Expires(due: set<Watcher>, clears: seq<Happening>, feeds: seq<Happening>) {
      && (forall h :: h in clears ==> h.Cleared? && h.w in due)
      && (forall h :: h in feeds ==> h.Fed? && h.w in due && h.events == EV_TIMER)
      && (forall w :: w in due ==> Fed(w, EV_TIMER) in feeds)
    }

    static ghost function WasDue(was: map<Watcher, (real, bool)>, t: real): set<Watcher> {
      set w | w in was && was[w].1 && was[w].0 < t
    }

    lemma {:induction false} ExpiredFeeds(expired: seq<Watcher>, h: Happening)
      ensures h in timers.FeedsOf(expired) <==> h.Fed? && h.events == EV_TIMER && h.w in expired
    {
      if expired != [] {
        ExpiredFeeds(expired[1..], h);
        assert expired == [expired[0]] + expired[1..];
      }
    }

    lemma {:induction false} ExpiredClears(expired: seq<Watcher>, h: Happening)
      requires h in timers.ClearsOf(expired)
      ensures h.Cleared? && h.w in expired
    {
      var k := |expired| - 1;
      if h in timers.ClearsOf(expired[..k]) { ExpiredClears(expired[..k], h); }
    }

    lemma {:induction false} OutcomeExpires(was: map<Watcher, (real, bool)>, due: set<Watcher>, expired: seq<Watcher>)
      requires timers.Outcome(was, expired) && due == WasDue(was, timers.now)
      requires forall w :: w in due ==> w in expired
      ensures Expires(due, timers.ClearsOf(expired), timers.FeedsOf(expired))
    {
      hide Timers.FeedsOf, Timers.ClearsOf;
      var clears, feeds := timers.ClearsOf(expired), timers.FeedsOf(expired);
      forall h | h in clears ensures h.Cleared? && h.w in due { ExpiredClears(expired, h); }
      forall h | h in feeds ensures h.Fed? && h.w in due && h.events == EV_TIMER { ExpiredFeeds(expired, h); }
      forall w | w in due ensures Fed(w, EV_TIMER) in feeds { ExpiredFeeds(expired, Fed(w, EV_TIMER)); }
    }

    method SetNow(t: real)
      requires Valid()
      modifies timers`now
      ensures Valid() && timers.now == t
    {
      hide Timers.Own, Fds.Own, PendingQueue.Valid;
      Parts();
      timers.now := t;
    }

    /** Deals with every timer whose deadline has passed. */
    method Reify() returns (ghost expired: seq<Watcher>)
      requires Valid()
      modifies timers`timers, queue`pendings, queue`pendingpri, queue`trace, queue.watchers`active,
        queue.watchers`at, queue.watchers`pending
      ensures Valid() && timers.Outcome(old(timers.Snapshot()), expired)
      ensures forall w :: w in WasDue(old(timers.Snapshot()), timers.now) ==> w in expired
      ensures queue.trace == old(queue.trace) + timers.ClearsOf(expired) + timers.FeedsOf(expired)
    {
      hide Timers.Own, Fds.Own, PendingQueue.Valid, Fds.AllProper, Watchers;
      Parts();
      hide *;
      expired := timers.TimersReify();
      AllDue(old(timers.Snapshot()), expired);
      Whole();
    }

    lemma AllDue(was: map<Watcher, (real, bool)>, expired: seq<Watcher>)
      requires timers.Outcome(was, expired)
      requires forall w :: w in timers.members && was[w].1 && was[w].0 < timers.now ==> w in expired
      ensures forall w :: w in WasDue(was, timers.now) ==> w in expired
    {}

    lemma DueWas(t: real)
      ensures WasDue(timers.Snapshot(), t) == DueNow(t)
    {}

    /** Deals with every timer due at `t` and feeds it. */
    method Expire(t: real) returns (ghost clears: seq<Happening>, ghost feeds: seq<Happening>)
      requires Valid()
      modifies timers`timers, timers`now, queue`pendings, queue`pendingpri, queue`trace, queue.watchers`active,
        queue.watchers`at, queue.watchers`pending
      ensures Valid() && queue.trace == old(queue.trace) + (clears + feeds) && Expires(old(DueNow(t)), clears, feeds)
    {
      hide Valid, Timers.Outcome, Timers.FeedsOf, Timers.ClearsOf, Timers.Snapshot, DueNow, Expires, WasDue;
      ghost var was, due := timers.Snapshot(), DueNow(t);
      DueWas(t);
      SetNow(t);
      ghost var expired := Reify();
      clears, feeds := timers.ClearsOf(expired), timers.FeedsOf(expired);
      OutcomeExpires(was, due, expired);
    }

    /** What the callbacks of a descriptor's watcher were in a turn, by what it was at the
        start and what the kernel reported: with reading when it was active, waits for
        that, and there was data, an error or a hang-up; with writing likewise; and, if
        nothing was pending and no callback feeds it, with nothing else. */
    static ghost predicate IoCalled(was: seq<Happening>, script: seq<seq<Action>>, calls: seq<Call>, w: Watcher,
                                    active: bool, events: Mask, r: Mask)
    {
      var readable := active && events & EV_READ != 0 && r & (POLLIN | POLLERR | POLLHUP) != 0;
      var writable := active && events & EV_WRITE != 0 && r & (POLLOUT | POLLERR | POLLHUP) != 0;
      && (readable && NeverClears(script, w) ==> exists c :: c in calls && c.w == w && c.events & 0x01 != 0)
      && (writable && NeverClears(script, w) ==> exists c :: c in calls && c.w == w && c.events & 0x02 != 0)
      && (Quiet(was, script, w) ==> forall c :: c in calls && c.w == w ==>
            (readable || writable) && c.events == (if readable then 0x01 else 0) | (if writable then 0x02 else 0))
    }

    /** What the callbacks of a timer were in a turn. */
    static ghost predicate TimerCalled(was: seq<Happening>, script: seq<seq<Action>>, calls: seq<Call>, w: Watcher,
                                       due: bool)
    {
      && (due && NeverClears(script, w) ==> exists c :: c in calls && c.w == w && c.events & EV_TIMER != 0)
      && (Quiet(was, script, w) ==> forall c :: c in calls && c.w == w ==> due && c.events == EV_TIMER)
    }

    static lemma IncludesBits(a: Events, e: Events)
      requires Includes(a, e)
      ensures e & 0x01 != 0 ==> a & 0x01 != 0
      ensures e & 0x02 != 0 ==> a & 0x02 != 0
      ensures e & EV_TIMER != 0 ==> a & EV_TIMER != 0
    {}

    static lemma TwoBits(readable: bool, writable: bool)
      ensures var e: Events := (if readable then 0x01 else 0) | (if writable then 0x02 else 0);
        (e & 0x01 != 0 <==> readable) && (e & 0x02 != 0 <==> writable)
      ensures EV_TIMER & EV_TIMER != 0
    {}

    /** Which watchers are ready, and what they get, in bits. */
    lemma {:induction false} ReadyBits(report: map<nat, Mask>, io: Io)
      requires io in fds.members
      ensures var r := if io.fd in report then report[io.fd] else 0;
        var readable := io.base.active != 0 && io.events & EV_READ != 0 && r & (POLLIN | POLLERR | POLLHUP) != 0;
        var writable := io.base.active != 0 && io.events & EV_WRITE != 0 && r & (POLLOUT | POLLERR | POLLHUP) != 0;
        && (io in ReadyNow(report) <==> readable || writable)
        && (io in ReadyNow(report) ==>
              ReadyNow(report)[io] == (if readable then 0x01 else 0) | (if writable then 0x02 else 0))
    {
      hide Common, Reported, AsEvents;
      EventBits(io.events, Report(report, io.fd));
    }

    lemma {:induction false} IoIsCalled(was: seq<Happening>, ready: map<Io, Events>, due: set<Watcher>,
                                        script: seq<seq<Action>>, calls: seq<Call>, io: Io, active: bool, events: Mask,
                                        r: Mask)
      requires Right(was, ready, due, script, calls) && io in fds.members
      requires var readable := active && events & EV_READ != 0 && r & (POLLIN | POLLERR | POLLHUP) != 0;
        var writable := active && events & EV_WRITE != 0 && r & (POLLOUT | POLLERR | POLLHUP) != 0;
        && (io in ready <==> readable || writable)
        && (io in ready ==> ready[io] == (if readable then 0x01 else 0) | (if writable then 0x02 else 0))
      ensures IoCalled(was, script, calls, io.base, active, events, r)
    {
      hide NeverClears, Quiet, Includes;
      var readable := active && events & EV_READ != 0 && r & (POLLIN | POLLERR | POLLHUP) != 0;
      var writable := active && events & EV_WRITE != 0 && r & (POLLOUT | POLLERR | POLLHUP) != 0;
      TwoBits(readable, writable);
      if io in ready && NeverClears(script, io.base) {
        var c :| c in calls && c.w == io.base && Includes(c.events, ready[io]);
        IncludesBits(c.events, ready[io]);
      }
    }

    lemma {:induction false} TimerIsCalled(was: seq<Happening>, ready: map<Io, Events>, due: set<Watcher>,
                                           script: seq<seq<Action>>, calls: seq<Call>, w: Watcher)
      requires Right(was, ready, due, script, calls) && w in timers.members
      ensures TimerCalled(was, script, calls, w, w in due)
    {
      hide NeverClears, Quiet, Includes;
      TwoBits(false, false);
      if w in due && NeverClears(script, w) {
        var c :| c in calls && c.w == w && Includes(c.events, EV_TIMER);
        IncludesBits(c.events, EV_TIMER);
      }
    }

    /** What the callbacks of one turn were: those of the watchers and timers it found
        ready or due. */
    ghost predicate Right(was: seq<Happening>, ready: map<Io, Events>, due: set<Watcher>, script: seq<seq<Action>>,
                          calls: seq<Call>) {
      && (forall io :: io in fds.members && io in ready && NeverClears(script, io.base) ==>
            Gets(calls, io.base, ready[io]))
      && (forall w :: w in timers.members && w in due && NeverClears(script, w) ==> Gets(calls, w, EV_TIMER))
      && (forall io :: io in fds.members && io !in ready && Quiet(was, script, io.base) ==> NotCalledAt(calls, io.base))
      && (forall w :: w in timers.members && w !in due && Quiet(was, script, w) ==> NotCalledAt(calls, w))
      && (forall io :: io in fds.members && io in ready && Quiet(was, script, io.base) ==>
            OnlyWith(calls, io.base, ready[io]))
      && (forall w :: w in timers.members && w in due && Quiet(was, script, w) ==> OnlyWith(calls, w, EV_TIMER))
    }

    lemma {:induction false} ReadyIsCalled(was: seq<Happening>, ready: map<Io, Events>, due: set<Watcher>,
                                           t: seq<Happening>, clears: seq<Happening>, feeds: seq<Happening>,
                                           script: seq<seq<Action>>, calls: seq<Call>, io: Io)
      requires Apart() && Answers(ready, t) && Expires(due, clears, feeds) && due <= timers.members
      requires Turned(was, t + (clears + feeds), script, calls, queue.watchers)
      requires io in fds.members && io.base in queue.watchers
      ensures io in ready && NeverClears(script, io.base) ==> Gets(calls, io.base, ready[io])
      ensures io !in ready && Quiet(was, script, io.base) ==> NotCalledAt(calls, io.base)
      ensures io in ready && Quiet(was, script, io.base) ==> OnlyWith(calls, io.base, ready[io])
    {
      hide Turned, Gets, NotCalledAt, OnlyWith, NeverClears, Quiet;
      var fed, w := t + (clears + feeds), io.base;
      forall h | h in fed && h.w == w ensures h in t && h.Fed? && io in ready && h == Fed(w, ready[io]) {
        assert h == Fed(w, h.events);
      }
      if io in ready && NeverClears(script, w) {
        assert Fed(w, ready[io]) in t;
        assert [] + fed == fed;
        FedIsCalled(was, [], fed, script, calls, w, ready[io], queue.watchers);
      }
      if io in ready && Quiet(was, script, w) {
        FedOnlyWith(was, fed, script, calls, w, ready[io], queue.watchers);
      }
      if io !in ready && Quiet(was, script, w) {
        NotFedNotCalled(was, fed, script, calls, w, queue.watchers);
      }
    }

    lemma {:induction false} DueIsCalled(was: seq<Happening>, ready: map<Io, Events>, due: set<Watcher>,
                                         t: seq<Happening>, clears: seq<Happening>, feeds: seq<Happening>,
                                         script: seq<seq<Action>>, calls: seq<Call>, w: Watcher)
      requires Apart() && Answers(ready, t) && Expires(due, clears, feeds) && due <= timers.members
      requires Turned(was, t + (clears + feeds), script, calls, queue.watchers)
      requires w in timers.members && w in queue.watchers
      ensures w in due && NeverClears(script, w) ==> Gets(calls, w, EV_TIMER)
      ensures w !in due && Quiet(was, script, w) ==> NotCalledAt(calls, w)
      ensures w in due && Quiet(was, script, w) ==> OnlyWith(calls, w, EV_TIMER)
    {
      hide Turned, Gets, NotCalledAt, OnlyWith, NeverClears, Quiet;
      var fed := t + (clears + feeds);
      forall h | h in t ensures h.w != w {}
      if w in due && NeverClears(script, w) {
        assert t + clears + feeds == fed;
        FedIsCalled(was, t + clears, feeds, script, calls, w, EV_TIMER, queue.watchers);
      }
      if w in due && Quiet(was, script, w) {
        FedOnlyWith(was, fed, script, calls, w, EV_TIMER, queue.watchers);
      }
      if w !in due && Quiet(was, script, w) {
        NotFedNotCalled(was, fed, script, calls, w, queue.watchers);
      }
    }

    lemma {:induction false} TurnIsRight(was: seq<Happening>, ready: map<Io, Events>, due: set<Watcher>,
                                         t: seq<Happening>, clears: seq<Happening>, feeds: seq<Happening>,
                                         script: seq<seq<Action>>, calls: seq<Call>)
      requires Apart() && Answers(ready, t) && Expires(due, clears, feeds) && due <= timers.members
      requires Turned(was, t + (clears + feeds), script, calls, queue.watchers)
      requires timers.members <= queue.watchers && forall io :: io in fds.members ==> io.base in queue.watchers
      ensures Right(was, ready, due, script, calls)
    {
      hide Apart, Answers, Expires, Turned, Gets, NotCalledAt, OnlyWith, NeverClears, Quiet;
      forall io | io in fds.members
        ensures io in ready && NeverClears(script, io.base) ==> Gets(calls, io.base, ready[io])
        ensures io !in ready && Quiet(was, script, io.base) ==> NotCalledAt(calls, io.base)
        ensures io in ready && Quiet(was, script, io.base) ==> OnlyWith(calls, io.base, ready[io])
      {
        ReadyIsCalled(was, ready, due, t, clears, feeds, script, calls, io);
      }
      forall w | w in timers.members
        ensures w in due && NeverClears(script, w) ==> Gets(calls, w, EV_TIMER)
        ensures w !in due && Quiet(was, script, w) ==> NotCalledAt(calls, w)
        ensures w in due && Quiet(was, script, w) ==> OnlyWith(calls, w, EV_TIMER)
      {
        DueIsCalled(was, ready, due, t, clears, feeds, script, calls, w);
      }
    }

    lemma {:induction false} NothingAwaits()
      requires Valid() && forall w :: w in queue.watchers ==> w.pending == 0
      ensures forall w :: w in queue.watchers ==> PendingFor(queue.trace, w).None?
    {
      hide Timers.Own, Fds.Own, PendingFor;
    }

    lemma OnlyFedOrCleared(ready: map<Io, Events>, due: set<Watcher>, t: seq<Happening>,
                                              clears: seq<Happening>, feeds: seq<Happening>)
      requires Answers(ready, t) && Expires(due, clears, feeds)
      ensures forall h :: h in t + (clears + feeds) ==> !h.Invoked?
    {}

    lemma {:induction false} TurnDone(was: seq<Happening>, ready: map<Io, Events>, due: set<Watcher>,
                                      t: seq<Happening>, clears: seq<Happening>, feeds: seq<Happening>,
                                      script: seq<seq<Action>>, calls: seq<Call>)
      requires Valid() && Answers(ready, t) && Expires(due, clears, feeds) && due <= timers.members
      requires queue.trace == was + t + (clears + feeds) + Played(calls) && Follows(script, calls)
      requires Honest(queue.trace, |was + t + (clears + feeds)|, queue.watchers)
      requires forall w :: w in queue.watchers ==> w.pending == 0
      ensures Right(was, ready, due, script, calls) && Honest(queue.trace, |was|, queue.watchers)
    {
      Parts();
      NothingAwaits();
      OnlyFedOrCleared(ready, due, t, clears, feeds);
      assert was + t + (clears + feeds) == was + (t + (clears + feeds));
      HonestEarlier(queue.trace, was, t + (clears + feeds), Played(calls), queue.watchers);
      hide Right, Answers, Expires, Follows, Honest, Played, PendingFor, Valid;
      TurnIsRight(was, ready, due, t, clears, feeds, script, calls);
    }

    lemma DueAreMembers(t: real)
      ensures DueNow(t) <= timers.members
      ensures forall w :: w in timers.members ==> (w in DueNow(t) <==> w.active != 0 && w.at < t)
    {}

    /** One turn of the loop: changes are passed on, the kernel is asked, the clock is
        read, due timers are dealt with, and everything pending is invoked. Exactly what
        was ready or due at the start of the turn is invoked, whatever the callbacks of
        others do. */
    method RunOnce(report: map<nat, Mask>, now: real, script: seq<seq<Action>>) returns (ghost calls: seq<Call>)
      requires Valid() && AllKnown(script)
      modifies timers`timers, timers`now, fds`anfds, fds`fdchanges, fds.members`events, fds.poll, queue`pendings,
        queue`pendingpri, queue`trace, queue.watchers`active, queue.watchers`at, queue.watchers`pending,
        queue.pendingW`pending
      ensures Valid() && forall w :: w in queue.watchers ==> w.pending == 0
      ensures Right(old(queue.trace), old(ReadyNow(report)), old(DueNow(now)), script, calls)
      ensures forall io :: io in fds.members ==>
        IoCalled(old(queue.trace), script, calls, io.base, old(io.base.active) != 0, old(io.events),
                 if io.fd in report then report[io.fd] else 0)
      ensures forall w :: w in timers.members ==>
        TimerCalled(old(queue.trace), script, calls, w, old(w.active) != 0 && old(w.at) < now)
      ensures Follows(script, calls) && Honest(queue.trace, |old(queue.trace)|, queue.watchers)
      ensures old(queue.trace) <= queue.trace
    {
      hide Valid, Right, Answers, Expires, Follows, Honest, Played, ReadyNow, DueNow, AllKnown, IoCalled, TimerCalled;
      DueAreMembers(now);
      forall io | io in fds.members { ReadyBits(report, io); }
      ghost var was, ready, due := queue.trace, ReadyNow(report), DueNow(now);
      ghost var t := Poll(report);
      ghost var clears, feeds := Expire(now);
      calls := InvokePending(script);
      TurnDone(was, ready, due, t, clears, feeds, script, calls);
      forall io | io in fds.members
        ensures IoCalled(was, script, calls, io.base, old(io.base.active) != 0, old(io.events),
                         if io.fd in report then report[io.fd] else 0)
      {
        IoIsCalled(was, ready, due, script, calls, io, old(io.base.active) != 0, old(io.events),
                   if io.fd in report then report[io.fd] else 0);
      }
      forall w | w in timers.members
        ensures TimerCalled(was, script, calls, w, old(w.active) != 0 && old(w.at) < now)
      {
        TimerIsCalled(was, ready, due, script, calls, w);
      }
    }

    /** A run of the loop: what was pending before it is invoked first, and then turn
        follows turn. In all of it, every invocation is of a watcher with the highest
        priority pending, with all events it was waiting with. */
    method Run(first: seq<seq<Action>>, turns: seq<Turn>)
      requires Valid() && AllKnown(first) && forall turn :: turn in turns ==> AllKnown(turn.script)
      modifies timers`timers, timers`now, fds`anfds, fds`fdchanges, fds.members`events, fds.poll, queue`pendings,
        queue`pendingpri, queue`trace, queue.watchers`active, queue.watchers`at, queue.watchers`pending,
        queue.pendingW`pending
      ensures Valid() && forall w :: w in queue.watchers ==> w.pending == 0
      ensures Honest(queue.trace, |old(queue.trace)|, queue.watchers)
    {
      hide *;
      ghost var _ := InvokePending(first);
      for i := 0 to |turns|
        invariant Valid() && forall w :: w in queue.watchers ==> w.pending == 0
        invariant Honest(queue.trace, |old(queue.trace)|, queue.watchers)
      {
        ghost var before := queue.trace;
        ghost var _ := RunOnce(turns[i].report, turns[i].now, turns[i].script);
        HonestJoin(before, |old(queue.trace)|, queue.trace, queue.watchers);
      }
    }
  }
}
