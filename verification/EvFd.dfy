/** File-descriptor watchers of an event loop: changes are collected and later passed
    on to the poll array. */
module EvFd {
  import opened Wrappers
  import opened EvPending

  /** Event masks and flags of one byte. */
  type Mask = bv8

  const EV_READ: Mask := 0x01
  const EV_WRITE: Mask := 0x02
  const EV__IOFDSET: Mask := 0x80
  const EV_ANFD_REIFY: Mask := 0x01

  const POLLIN: Mask := 0x01
  const POLLOUT: Mask := 0x04
  const POLLERR: Mask := 0x08
  const POLLHUP: Mask := 0x10

  function Union(a: Mask, b: Mask): Mask {
    a | b
  }

  /** The flags that a start passes on: always one, and another for a new descriptor. */
  function StartFlags(events: Mask): Mask {
    (events & EV__IOFDSET) | EV_ANFD_REIFY
  }

  function WithoutFlag(events: Mask): Mask {
    events & !EV__IOFDSET
  }

  /** Events that a watcher of a descriptor may be started with. */
  predicate Proper(events: Mask) {
    events & !(EV__IOFDSET | EV_READ | EV_WRITE) == 0
  }

  /** Besides reading and writing only the flag of a new descriptor may be set, and a
      start passes that flag on. */
  lemma FlagsMean(events: Mask)
    ensures Proper(events) <==> events & 0x7C == 0
    ensures StartFlags(events) & EV__IOFDSET != 0 <==> events & EV__IOFDSET != 0
    ensures StartFlags(events) & EV_ANFD_REIFY != 0
    ensures WithoutFlag(events) & EV__IOFDSET == 0 && WithoutFlag(events) & 0x7F == events & 0x7F
  {}

  lemma StaysProper(events: Mask)
    requires Proper(events)
    ensures Proper(WithoutFlag(events))
  {}

  lemma FlagsSet(a: Mask, events: Mask)
    ensures Union(a, StartFlags(events)) != 0 && Union(a, EV_ANFD_REIFY) != 0
  {}

  /** A watcher of a descriptor, built on a watcher of the loop. */
  class Io {
    const base: Watcher
    const fd: nat
    var events: Mask

    constructor (base: Watcher, fd: nat, events: Mask)
      ensures this.base == base && this.fd == fd && this.events == Union(events, EV__IOFDSET)
    {
      this.base, this.fd, this.events := base, fd, Union(events, EV__IOFDSET);
    }
  }

  /** What the loop knows of a descriptor: its active watchers, newest first, the mask
      the poll array has, and why it has to be looked at again. */
  datatype Anfd = Anfd(head: seq<Io>, events: Mask, reify: Mask)

  /** The events that the watchers on a list wait for. */
  function Wanted(head: seq<Io>): Mask
    reads head`events
  {
    if head == [] then 0 else Union(head[0].events, Wanted(head[1..]))
  }

  // ---------- the poll array ----------

  datatype Pollfd = Pollfd(fd: nat, events: Mask)

  function PollBits(ev: Mask): Mask {
    Union(if ev & EV_READ != 0 then POLLIN else 0, if ev & EV_WRITE != 0 then POLLOUT else 0)
  }

  /** The poll array has exactly one entry for each descriptor with a mask, and the
      index table knows where it is. */
  ghost predicate Sync(polls: seq<Pollfd>, idxs: seq<int>, evs: seq<Mask>) {
    && (forall fd :: 0 <= fd < |evs| && evs[fd] != 0 ==> fd < |idxs| && idxs[fd] >= 0)
    && (forall fd :: 0 <= fd < |idxs| && idxs[fd] >= 0 ==>
          && fd < |evs| && evs[fd] != 0
          && idxs[fd] < |polls| && polls[idxs[fd]] == Pollfd(fd, PollBits(evs[fd])))
    && (forall i :: 0 <= i < |polls| ==> polls[i].fd < |idxs| && idxs[polls[i].fd] == i)
  }

  /** Descriptor `fd` has the entry at `idx`, whatever events that entry names; the
      others are in step. */
  ghost predicate Reserved(polls: seq<Pollfd>, idxs: seq<int>, evs: seq<Mask>, fd: nat, idx: nat) {
    && fd < |evs| && fd < |idxs| && idxs[fd] == idx && idx < |polls| && polls[idx].fd == fd
    && (forall f :: 0 <= f < |evs| && f != fd && evs[f] != 0 ==> f < |idxs| && idxs[f] >= 0)
    && (forall f :: 0 <= f < |idxs| && f != fd && idxs[f] >= 0 ==>
          && f < |evs| && evs[f] != 0
          && idxs[f] < |polls| && polls[idxs[f]] == Pollfd(f, PollBits(evs[f])))
    && (forall i :: 0 <= i < |polls| ==> polls[i].fd < |idxs| && idxs[polls[i].fd] == i)
  }

  class Poll {
    var polls: seq<Pollfd>
    var pollidxs: seq<int>

    constructor ()
      ensures polls == [] && pollidxs == []
    {
      polls, pollidxs := [], [];
    }

    /** Makes room for descriptor `fd` in the index table. */
    method NeedIndex(fd: nat, ghost evs: seq<Mask>)
      requires Sync(polls, pollidxs, evs)
      modifies this`pollidxs
      ensures Sync(polls, pollidxs, evs) && fd < |pollidxs|
    {
      while |pollidxs| <= fd
        invariant Sync(polls, pollidxs, evs)
      {
        pollidxs := pollidxs + [-1];
      }
    }

    /** Finds or makes the entry of a descriptor; its events are still to be set. */
    method Reserve(fd: nat, ghost evs: seq<Mask>) returns (idx: nat)
      requires Sync(polls, pollidxs, evs) && fd < |evs|
      modifies this
      ensures Reserved(polls, pollidxs, evs, fd, idx)
    {
      hide PollBits;
      NeedIndex(fd, evs);
      if pollidxs[fd] < 0 {
        pollidxs := pollidxs[fd := |polls|];
        polls := polls + [Pollfd(fd, 0)];
      }
      return pollidxs[fd];
    }

    /** Takes an entry out; the last one moves into its place. */
    method Drop(fd: nat, idx: nat, ghost evs: seq<Mask>)
      requires Reserved(polls, pollidxs, evs, fd, idx)
      modifies this
      ensures Sync(polls, pollidxs, evs[fd := 0])
    {
      hide PollBits;
      pollidxs := pollidxs[fd := -1];
      var pollcnt := |polls| - 1;
      if idx < pollcnt {
        polls := polls[idx := polls[pollcnt]];
        pollidxs := pollidxs[polls[idx].fd := idx];
      }
      polls := polls[..pollcnt];
    }

    method Modify(fd: nat, oev: Mask, nev: Mask, ghost evs: seq<Mask>)
      requires Sync(polls, pollidxs, evs) && fd < |evs| && evs[fd] == oev
      modifies this
      ensures Sync(polls, pollidxs, evs[fd := nev])
    {
      hide PollBits;
      if oev == nev {
        return;
      }
      var idx := Reserve(fd, evs);
      assert polls[idx].fd == fd;
      if nev != 0 {
        polls := polls[idx := Pollfd(fd, PollBits(nev))];
      } else {
        Drop(fd, idx, evs);
      }
    }
  }

  /** What the kernel reports about a descriptor, in the terms of watchers: an error is
      passed to readers and writers alike. */
  function Reported(revents: Mask): Mask {
    Union(if revents & (POLLOUT | POLLERR | POLLHUP) != 0 then EV_WRITE else 0,
          if revents & (POLLIN | POLLERR | POLLHUP) != 0 then EV_READ else 0)
  }

  lemma ReportedBits(r: Mask)
    ensures Reported(r) & EV_READ != 0 <==> r & (POLLIN | POLLERR | POLLHUP) != 0
    ensures Reported(r) & EV_WRITE != 0 <==> r & (POLLOUT | POLLERR | POLLHUP) != 0
    ensures Reported(r) & !(EV_READ | EV_WRITE) == 0
  {}

  lemma PollBitsMean(ev: Mask)
    ensures PollBits(ev) & POLLIN != 0 <==> ev & EV_READ != 0
    ensures PollBits(ev) & POLLOUT != 0 <==> ev & EV_WRITE != 0
    ensures PollBits(ev) & !(POLLIN | POLLOUT) == 0
  {}

  function Common(a: Mask, b: Mask): Mask {
    a & b
  }

  function AsEvents(m: Mask): Events {
    m as Events
  }

  lemma CommonBits(a: Mask, b: Mask)
    ensures Common(a, b) & EV_READ != 0 <==> a & EV_READ != 0 && b & EV_READ != 0
    ensures Common(a, b) & EV_WRITE != 0 <==> a & EV_WRITE != 0 && b & EV_WRITE != 0
    ensures b & !(EV_READ | EV_WRITE) == 0 ==> Common(a, b) & !(EV_READ | EV_WRITE) == 0
  {}

  lemma AsEventsBits(m: Mask)
    requires m & !(EV_READ | EV_WRITE) == 0
    ensures AsEvents(m) == (if m & EV_READ != 0 then 0x01 else 0) | (if m & EV_WRITE != 0 then 0x02 else 0)
    ensures m != 0 <==> m & EV_READ != 0 || m & EV_WRITE != 0
  {}

  /** What a watcher of `events` gets when the kernel reports `r`: the two bits, and no
      others. */
  lemma {:induction false} EventBits(events: Mask, r: Mask)
    ensures var e := Common(events, Reported(r));
      var readable := events & EV_READ != 0 && r & (POLLIN | POLLERR | POLLHUP) != 0;
      var writable := events & EV_WRITE != 0 && r & (POLLOUT | POLLERR | POLLHUP) != 0;
      && (e != 0 <==> readable || writable)
      && AsEvents(e) == (if readable then 0x01 else 0) | (if writable then 0x02 else 0)
  {
    ReportedBits(r);
    hide Reported, Common, AsEvents;
    CommonBits(events, Reported(r));
    AsEventsBits(Common(events, Reported(r)));
  }

  /** How many entries the kernel has reported something about. */
  function Count(revents: seq<Mask>): nat {
    if revents == [] then 0 else (if revents[0] != 0 then 1 else 0) + Count(revents[1..])
  }

  // ---------- descriptors ----------

  function Masks(anfds: seq<Anfd>): (evs: seq<Mask>)
    ensures |evs| == |anfds| && forall i :: 0 <= i < |anfds| ==> evs[i] == anfds[i].events
  {
    seq(|anfds|, i requires 0 <= i < |anfds| => anfds[i].events)
  }

  function Head(anfds: seq<Anfd>, fd: nat): seq<Io> {
    if fd < |anfds| then anfds[fd].head else []
  }

  predicate Distinct(head: seq<Io>) {
    forall i, j :: 0 <= i < j < |head| ==> head[i] != head[j]
  }

  /** Unlinks the first occurrence of `io`. */
  function Without(head: seq<Io>, io: Io): seq<Io> {
    if head == [] then [] else if head[0] == io then head[1..] else [head[0]] + Without(head[1..], io)
  }

  lemma {:induction false} WithoutMeans(head: seq<Io>, io: Io)
    requires Distinct(head)
    ensures Distinct(Without(head, io)) && forall x :: x in Without(head, io) <==> x in head && x != io
  {
    if head != [] {
      assert head == [head[0]] + head[1..];
      WithoutMeans(head[1..], io);
      if head[0] != io { DistinctCons(head[0], Without(head[1..], io)); }
    }
  }

  lemma DistinctCons(x: Io, head: seq<Io>)
    requires Distinct(head) && x !in head
    ensures Distinct([x] + head)
  {}

  /** The change list names each descriptor to be looked at again, once. */
  ghost predicate Listed(anfds: seq<Anfd>, fdchanges: seq<nat>) {
    && (forall fd :: fd in fdchanges <==> 0 <= fd < |anfds| && anfds[fd].reify != 0)
    && (forall i, j :: 0 <= i < j < |fdchanges| ==> fdchanges[i] != fdchanges[j])
  }

  ghost predicate Attached(a: seq<Anfd>, b: seq<Anfd>, io: Io) {
    |a| == |b| && forall fd :: 0 <= fd < |a| ==> b[fd].head == if fd == io.fd then [io] + a[fd].head else a[fd].head
  }

  lemma HeadsAttached(a: seq<Anfd>, b: seq<Anfd>, io: Io)
    requires Attached(a, b, io) && io.fd < |a|
    ensures forall fd: nat :: Head(b, fd) == (if fd == io.fd then [io] else []) + Head(a, fd)
  {}

  lemma SameMasks(a: seq<Anfd>, b: seq<Anfd>)
    requires |a| == |b| && forall i :: 0 <= i < |a| ==> a[i].events == b[i].events
    ensures Masks(a) == Masks(b)
  {}

  lemma GrowMasks(a: seq<Anfd>)
    ensures Masks(a + [Anfd([], 0, 0)]) == Masks(a) + [0]
  {}

  lemma GrowSync(polls: seq<Pollfd>, idxs: seq<int>, evs: seq<Mask>)
    requires Sync(polls, idxs, evs)
    ensures Sync(polls, idxs, evs + [0])
  {}

  lemma NoneDistinct()
    ensures Distinct([])
  {}

  lemma {:induction false} WithoutAbsent(head: seq<Io>, io: Io)
    requires io !in head
    ensures Without(head, io) == head
  {
    if head != [] { WithoutAbsent(head[1..], io); }
  }

  lemma {:induction false} WithoutStep(head: seq<Io>, k: nat, io: Io)
    requires k <= |head|
    ensures Without(head[k..], io) ==
      if k == |head| then [] else if head[k] == io then head[k + 1..] else [head[k]] + Without(head[k + 1..], io)
    ensures k < |head| ==> head[..k + 1] == head[..k] + [head[k]]
    ensures head[..0] == [] && head[0..] == head
  {
    if k < |head| { assert head[k..][1..] == head[k + 1..]; }
  }

  lemma {:induction false} WantedNone(head: seq<Io>)
    ensures Union(0, Wanted(head)) == Wanted(head) && head[0..] == head
  {
    hide Wanted;
  }

  lemma {:induction false} WantedStep(head: seq<Io>, i: nat, events: Mask)
    requires i < |head|
    ensures Union(events, Wanted(head[i..])) == Union(Union(events, head[i].events), Wanted(head[i + 1..]))
  {
    assert head[i..][1..] == head[i + 1..];
    assert Wanted(head[i..]) == Union(head[i].events, Wanted(head[i + 1..]));
    hide Wanted;
  }

  lemma WantedEnd(head: seq<Io>, events: Mask)
    ensures Union(events, Wanted(head[|head|..])) == events
  {}

  lemma SetMask(a: seq<Anfd>, fd: nat, x: Anfd)
    requires fd < |a|
    ensures Masks(a[fd := x]) == Masks(a)[fd := x.events]
    ensures x.events == a[fd].events ==> Masks(a[fd := x]) == Masks(a)
  {}

  lemma {:induction false} ListedThere(a: seq<Anfd>, left: seq<nat>)
    requires left != [] && Listed(a, left)
    ensures left[0] < |a|
  {
    assert left[0] in left;
  }

  /** A descriptor that has been looked at goes off the list. */
  lemma {:induction false} NextListed(a: seq<Anfd>, b: seq<Anfd>, left: seq<nat>)
    requires left != [] && Listed(a, left) && left[0] < |a|
    requires |b| == |a| && b == a[left[0] := b[left[0]]] && b[left[0]].reify == 0
    ensures Listed(b, left[1..])
  {
    forall fd ensures fd in left[1..] <==> fd in left && fd != left[0] {
      if fd in left && fd != left[0] {
        var i :| 0 <= i < |left| && left[i] == fd;
        assert left[1..][i - 1] == fd;
      }
    }
  }

  lemma SameListed(a: seq<Anfd>, b: seq<Anfd>, fdchanges: seq<nat>)
    requires |a| == |b| && forall i :: 0 <= i < |a| ==> a[i].reify == b[i].reify
    requires Listed(a, fdchanges)
    ensures Listed(b, fdchanges)
  {}

  predicate Has(m: Mask, bit: Mask) {
    m & bit != 0
  }

  /** A list wants the events of each of its watchers and no others. */
  lemma {:induction false} WantedMeans(head: seq<Io>, bit: Mask)
    ensures Has(Wanted(head), bit) <==> exists io :: io in head && Has(io.events, bit)
  {
    if head == [] {
      assert !Has(0, bit);
    } else {
      WantedMeans(head[1..], bit);
      UnionBit(head[0].events, Wanted(head[1..]), bit);
      hide Has, Union;
      assert head == [head[0]] + head[1..];
    }
  }

  lemma UnionBit(a: Mask, b: Mask, bit: Mask)
    ensures Has(Union(a, b), bit) <==> Has(a, bit) || Has(b, bit)
  {}

  // ---------- events ----------

  /** What each watcher waits for. */
  type Waits = map<Io, Mask>

  /** What a watcher is fed when `ev` has happened on its descriptor. */
  ghost function IoFeed(io: Io, waits: Waits, ev: Mask): seq<Happening> {
    var e := if io in waits then Common(waits[io], ev) else 0;
    if e == 0 then [] else [Fed(io.base, AsEvents(e))]
  }

  /** The feeds of a list of watchers when `ev` has happened on their descriptor. */
  ghost function HeadFeeds(head: seq<Io>, waits: Waits, ev: Mask): seq<Happening> {
    if head == [] then [] else IoFeed(head[0], waits, ev) + HeadFeeds(head[1..], waits, ev)
  }

  /** The watchers to be told: none, if the descriptor has changed since the kernel was
      asked. */
  function Told(anfds: seq<Anfd>, fd: nat): seq<Io> {
    if fd < |anfds| && anfds[fd].reify == 0 then anfds[fd].head else []
  }

  ghost function EntryFeeds(p: Pollfd, anfds: seq<Anfd>, waits: Waits, revents: Mask): seq<Happening> {
    if revents == 0 then [] else HeadFeeds(Told(anfds, p.fd), waits, Reported(revents))
  }

  /** All feeds that follow from what the kernel reports about the poll entries. */
  ghost function PollFeeds(polls: seq<Pollfd>, anfds: seq<Anfd>, waits: Waits, revents: seq<Mask>): seq<Happening>
    requires |revents| == |polls|
  {
    if polls == [] then []
    else EntryFeeds(polls[0], anfds, waits, revents[0]) + PollFeeds(polls[1..], anfds, waits, revents[1..])
  }

  lemma {:induction false} HeadFeedsMeans(head: seq<Io>, waits: Waits, ev: Mask, h: Happening)
    ensures h in HeadFeeds(head, waits, ev) <==> exists io :: io in head && h in IoFeed(io, waits, ev)
  {
    hide IoFeed;
    if head != [] {
      HeadFeedsMeans(head[1..], waits, ev, h);
      assert head == [head[0]] + head[1..];
    }
  }

  lemma {:induction false} PollFeedsMeans(polls: seq<Pollfd>, anfds: seq<Anfd>, waits: Waits, revents: seq<Mask>,
                                          h: Happening)
    requires |revents| == |polls|
    ensures h in PollFeeds(polls, anfds, waits, revents) <==>
      exists i :: 0 <= i < |polls| && h in EntryFeeds(polls[i], anfds, waits, revents[i])
  {
    hide EntryFeeds;
    if polls != [] {
      PollFeedsMeans(polls[1..], anfds, waits, revents[1..], h);
      if i :| 0 <= i < |polls| && h in EntryFeeds(polls[i], anfds, waits, revents[i]) {
        if i > 0 { assert polls[1..][i - 1] == polls[i] && revents[1..][i - 1] == revents[i]; }
      }
    }
  }

  lemma {:induction false} NoneReported(polls: seq<Pollfd>, anfds: seq<Anfd>, waits: Waits, revents: seq<Mask>)
    requires |revents| == |polls| && Count(revents) == 0
    ensures PollFeeds(polls, anfds, waits, revents) == []
  {
    if polls != [] { NoneReported(polls[1..], anfds, waits, revents[1..]); }
  }

  lemma {:induction false} FeedsBegin(trace: seq<Happening>, head: seq<Io>, waits: Waits, ev: Mask)
    ensures trace + HeadFeeds(head[0..], waits, ev) == trace + HeadFeeds(head, waits, ev)
  {
    assert head[0..] == head;
  }

  lemma {:induction false} FeedsStep(trace: seq<Happening>, head: seq<Io>, k: nat, waits: Waits, ev: Mask)
    requires k < |head|
    ensures trace + HeadFeeds(head[k..], waits, ev)
         == trace + IoFeed(head[k], waits, ev) + HeadFeeds(head[k + 1..], waits, ev)
  {
    assert head[k..][1..] == head[k + 1..];
  }

  lemma FeedsEnd(trace: seq<Happening>, head: seq<Io>, waits: Waits, ev: Mask)
    ensures trace + HeadFeeds(head[|head|..], waits, ev) == trace
  {}

  lemma {:induction false} EntryNext(trace: seq<Happening>, polls: seq<Pollfd>, p: nat, anfds: seq<Anfd>,
                                     waits: Waits, revents: seq<Mask>)
    requires p <= |polls| == |revents| && Count(revents[p..]) > 0
    ensures p < |polls|
    ensures Count(revents[p..]) == (if revents[p] != 0 then 1 else 0) + Count(revents[p + 1..])
    ensures trace + PollFeeds(polls[p..], anfds, waits, revents[p..])
         == trace + EntryFeeds(polls[p], anfds, waits, revents[p])
            + PollFeeds(polls[p + 1..], anfds, waits, revents[p + 1..])
  {
    hide EntryFeeds;
    assert polls[p..][1..] == polls[p + 1..] && revents[p..][1..] == revents[p + 1..];
  }

  class Fds {
    const queue: PendingQueue
    const poll: Poll
    ghost const members: set<Io>

    var anfds: seq<Anfd>
    var fdchanges: seq<nat>

    constructor (queue: PendingQueue, ghost members: set<Io>)
      requires queue.Valid() && forall io :: io in members ==> io.base in queue.watchers && io.base.active == 0
      requires forall a, b :: a in members && b in members && a.base == b.base ==> a == b
      ensures Valid() && fresh(poll) && this.queue == queue && this.members == members && anfds == []
    {
      this.queue, this.members := queue, members;
      poll := new Poll();
      anfds, fdchanges := [], [];
    }

    /** Each list holds, once each, active watchers of its descriptor. */
    ghost predicate ListOk(head: seq<Io>, fd: nat)
      reads set io | io in members :: io.base`active
    {
      && (forall io :: io in head ==> io in members && io.fd == fd && io.base.active == 1)
      && Distinct(head)
    }

    ghost predicate HeadsOk(a: seq<Anfd>)
      reads set io | io in members :: io.base`active
    {
      forall fd :: 0 <= fd < |a| ==> ListOk(a[fd].head, fd)
    }

    /** The lists hold exactly the active watchers. */
    ghost predicate Lists(a: seq<Anfd>)
      reads set io | io in members :: io.base`active
    {
      HeadsOk(a) && forall io :: io in members && io.base.active != 0 ==> io in Head(a, io.fd)
    }

    /** A descriptor that is not on the change list has the mask its watchers want. */
    ghost predicate Current(a: seq<Anfd>)
      reads members`events
    {
      forall fd :: 0 <= fd < |a| && a[fd].reify == 0 ==>
        (forall io :: io in a[fd].head ==> io in members) && a[fd].events == Wanted(a[fd].head)
    }

    /** What holds of the descriptors whatever is pending. */
    ghost predicate Own()
      reads this`anfds, this`fdchanges, members`events, set io | io in members :: io.base`active, poll
    {
      && Lists(anfds) && Current(anfds) && Listed(anfds, fdchanges) && Sync(poll.polls, poll.pollidxs, Masks(anfds))
      && (forall io :: io in members ==> io.base in queue.watchers)
      && (forall a, b :: a in members && b in members && a.base == b.base ==> a == b)
    }

    ghost predicate Valid()
      reads this`anfds, this`fdchanges, members`events, set io | io in members :: io.base`active, poll,
        queue`pendings, queue`trace, queue.watchers`pending
    {
      Own() && queue.Valid()
    }

    ghost predicate AllProper()
      reads members`events
    {
      forall io :: io in members ==> Proper(io.events)
    }

    /** Makes room for descriptor `fd`. */
    method NeedAnfd(fd: nat)
      requires Valid()
      modifies this`anfds
      ensures Valid() && fd < |anfds|
      ensures forall i: nat :: Head(anfds, i) == Head(old(anfds), i)
    {
      hide Valid;
      while |anfds| <= fd
        invariant Valid()
        invariant forall i: nat :: Head(anfds, i) == Head(old(anfds), i)
      {
        Grow();
      }
    }

    method Grow()
      requires Valid()
      modifies this`anfds
      ensures Valid() && anfds == old(anfds) + [Anfd([], 0, 0)]
    {
      hide Distinct, Masks;
      GrowMasks(anfds);
      GrowSync(poll.polls, poll.pollidxs, Masks(anfds));
      hide Sync;
      anfds := anfds + [Anfd([], 0, 0)];
      NoneDistinct();
    }

    /** Puts a descriptor on the change list. */
    method FdChange(fd: nat, flags: Mask)
      requires Listed(anfds, fdchanges) && fd < |anfds| && Union(anfds[fd].reify, flags) != 0
      modifies this`anfds, this`fdchanges
      ensures Listed(anfds, fdchanges)
      ensures anfds == old(anfds)[fd := old(anfds)[fd].(reify := Union(old(anfds)[fd].reify, flags))]
    {
      hide Union;
      var reify := anfds[fd].reify;
      anfds := anfds[fd := anfds[fd].(reify := Union(reify, flags))];
      if reify == 0 {
        fdchanges := fdchanges + [fd];
      }
    }

    method IoStart(io: Io)
      requires Valid() && io in members && Proper(io.events)
      modifies this`anfds, this`fdchanges, io`events, io.base`active
      ensures Valid() && io.base.active != 0 && (old(AllProper()) ==> AllProper())
      ensures old(io.base.active) != 0 ==> anfds == old(anfds) && io.events == old(io.events)
      ensures old(io.base.active) == 0 ==>
        && io.events == WithoutFlag(old(io.events))
        && forall fd: nat :: Head(anfds, fd) == (if fd == io.fd then [io] else []) + Head(old(anfds), fd)
    {
      hide Proper, AllProper;
      if io.base.active != 0 {
        return;
      }
      NeedAnfd(io.fd);
      AddFirst(io);
    }

    method AddFirst(io: Io)
      requires Valid() && io in members && io.base.active == 0 && io.fd < |anfds| && Proper(io.events)
      modifies this`anfds, this`fdchanges, io`events, io.base`active
      ensures old(AllProper()) ==> AllProper()
      ensures Valid() && io.base.active != 0 && io.events == WithoutFlag(old(io.events))
      ensures forall fd: nat :: Head(anfds, fd) == (if fd == io.fd then [io] else []) + Head(old(anfds), fd)
    {
      hide WithoutFlag, Wanted, Sync, Masks, Listed, Current, Lists, ListsBut, Head, PendingQueue.Valid, AllProper,
        Proper;
      Prepend(io);
      Activate(io);
    }

    method Prepend(io: Io)
      requires Lists(anfds) && Current(anfds) && Listed(anfds, fdchanges)
      requires io in members && io.base.active == 0 && io.fd < |anfds|
      modifies this`anfds, this`fdchanges
      ensures ListsBut(io) && Current(anfds) && Listed(anfds, fdchanges) && Masks(anfds) == Masks(old(anfds))
      ensures io.fd < |anfds| && anfds[io.fd].reify != 0
      ensures forall fd: nat :: Head(anfds, fd) == (if fd == io.fd then [io] else []) + Head(old(anfds), fd)
    {
      ghost var was := anfds;
      NotListed(io);
      hide Masks, Distinct, Listed, Lists, Current, ListsBut, Attached, Head;
      Attach(io);
      AttachedLists(was, io);
      SameMasks(was, anfds);
      HeadsAttached(was, anfds, io);
    }

    /** The lists when `io`, still inactive, has been put on one. */
    ghost predicate ListsBut(io: Io)
      reads this`anfds, set x | x in members :: x.base`active
    {
      && io in Head(anfds, io.fd)
      && (forall fd :: 0 <= fd < |anfds| ==>
            && Distinct(anfds[fd].head)
            && forall x :: x in anfds[fd].head ==> x in members && x.fd == fd && (x == io || x.base.active == 1))
      && (forall x :: x in members && x.base.active != 0 ==> x in Head(anfds, x.fd))
    }

    lemma {:induction false} AttachedLists(was: seq<Anfd>, io: Io)
      requires Lists(was) && Attached(was, anfds, io) && io in members && io.fd < |was|
      requires io !in was[io.fd].head
      ensures ListsBut(io)
    {
      hide Distinct;
      forall fd | 0 <= fd < |anfds| ensures Distinct(anfds[fd].head) {
        assert ListOk(was[fd].head, fd);
        if fd == io.fd { DistinctCons(io, was[fd].head); }
      }
      forall x | x in members && x.base.active != 0 ensures x in Head(anfds, x.fd) {
        assert x in Head(was, x.fd);
      }
    }

    /** Makes a watcher active that has been put on its list. */
    method Activate(io: Io)
      requires ListsBut(io) && Current(anfds) && io in members && io.fd < |anfds| && anfds[io.fd].reify != 0
      requires forall a, b :: a in members && b in members && a.base == b.base ==> a == b
      requires Proper(io.events)
      modifies io`events, io.base`active
      ensures old(AllProper()) ==> AllProper()
      ensures Lists(anfds) && Current(anfds) && io.base.active == 1 && io.events == WithoutFlag(old(io.events))
    {
      StaysProper(io.events);
      hide WithoutFlag, Wanted, Distinct, Proper;
      io.base.active := 1;
      io.events := WithoutFlag(io.events);
    }

    /** Puts a watcher at the front of its descriptor's list, which has to be looked at
        again. */
    method Attach(io: Io)
      requires Current(anfds) && Listed(anfds, fdchanges) && io.fd < |anfds|
      requires forall fd :: 0 <= fd < |anfds| ==> io !in anfds[fd].head
      modifies this`anfds, this`fdchanges
      ensures Current(anfds) && Listed(anfds, fdchanges) && |anfds| == |old(anfds)|
      ensures forall fd :: 0 <= fd < |anfds| ==> anfds[fd].events == old(anfds)[fd].events
      ensures Attached(old(anfds), anfds, io) && anfds[io.fd].reify != 0
    {
      hide StartFlags, Union, Wanted;
      FlagsSet(anfds[io.fd].reify, io.events);
      FdChange(io.fd, StartFlags(io.events));
      ghost var mid := anfds;
      anfds := anfds[io.fd := anfds[io.fd].(head := [io] + anfds[io.fd].head)];
      SameListed(mid, anfds, fdchanges);
    }

    method IoStop(io: Io)
      requires Valid() && io in members
      modifies this`anfds, this`fdchanges, io.base`active, io.base`pending, queue`pendings, queue`trace
      ensures Valid() && io.base.active == 0 && io.base.pending == 0
      ensures queue.trace == old(queue.trace) + [Cleared(io.base)]
      ensures SameSizes(queue.pendings, old(queue.pendings))
      ensures forall fd: nat :: Head(anfds, fd) == Without(Head(old(anfds), fd), io)
    {
      hide Lists, Current, Sync, Masks;
      var _ := queue.ClearPending(io.base);
      NotOnOthers(io);
      if io.base.active == 0 {
        return;
      }
      Remove(io);
    }

    /** A watcher is on no list but that of its descriptor, and there only if active. */
    lemma {:induction false} NotOnOthers(io: Io)
      requires Lists(anfds) && io in members
      ensures io.base.active != 0 ==> io.fd < |anfds|
      ensures forall fd: nat :: fd != io.fd || io.base.active == 0 ==> Without(Head(anfds, fd), io) == Head(anfds, fd)
    {
      hide Distinct, Without;
      forall fd: nat | fd != io.fd || io.base.active == 0 ensures Without(Head(anfds, fd), io) == Head(anfds, fd) {
        WithoutAbsent(Head(anfds, fd), io);
      }
    }

    method Remove(io: Io)
      requires Valid() && io in members && io.base.active != 0 && io.fd < |anfds|
      modifies this`anfds, this`fdchanges, io.base`active
      ensures Valid() && io.base.active == 0
      ensures |anfds| == |old(anfds)| && Head(anfds, io.fd) == Without(Head(old(anfds), io.fd), io)
      ensures forall fd: nat :: fd != io.fd ==> Head(anfds, fd) == Head(old(anfds), fd)
    {
      hide Wanted, Sync, Masks, Distinct, Without, Listed, PendingQueue.Valid;
      ghost var was := anfds;
      Detach(io);
      SameMasks(was, anfds);
      hide Head, Current;
      Deactivate(io);
    }

    /** Makes a watcher inactive that is on no list any more. */
    method Deactivate(io: Io)
      requires HeadsOk(anfds) && Current(anfds) && io in members
      requires forall fd :: 0 <= fd < |anfds| ==> io !in anfds[fd].head
      requires forall x :: x in members && x != io && x.base.active != 0 ==> x in Head(anfds, x.fd)
      requires forall a, b :: a in members && b in members && a.base == b.base ==> a == b
      modifies io.base`active
      ensures Lists(anfds) && Current(anfds) && io.base.active == 0
    {
      hide Wanted, Distinct, Head;
      io.base.active := 0;
      forall fd | 0 <= fd < |anfds| ensures ListOk(anfds[fd].head, fd) { assert io !in anfds[fd].head; }
    }

    /** Takes a watcher off its descriptor's list, which has to be looked at again. */
    method Detach(io: Io)
      requires HeadsOk(anfds) && Current(anfds) && Listed(anfds, fdchanges) && io in members && io.fd < |anfds|
      modifies this`anfds, this`fdchanges
      ensures HeadsOk(anfds) && Current(anfds) && Listed(anfds, fdchanges) && |anfds| == |old(anfds)|
      ensures forall fd :: 0 <= fd < |anfds| ==> io !in anfds[fd].head && anfds[fd].events == old(anfds)[fd].events
      ensures Head(anfds, io.fd) == Without(Head(old(anfds), io.fd), io)
      ensures forall fd: nat :: fd != io.fd ==> Head(anfds, fd) == Head(old(anfds), fd)
      ensures forall x :: x in Head(anfds, io.fd) <==> x in Head(old(anfds), io.fd) && x != io
    {
      hide Union, Wanted, Without;
      assert ListOk(anfds[io.fd].head, io.fd);
      WithoutMeans(anfds[io.fd].head, io);
      ghost var rest := Without(anfds[io.fd].head, io);
      assert Distinct(rest);
      FlagsSet(anfds[io.fd].reify, 0);
      FdChange(io.fd, EV_ANFD_REIFY);
      ghost var mid := anfds;
      var head := Unlink(anfds[io.fd].head, io);
      anfds := anfds[io.fd := anfds[io.fd].(head := head)];
      SameListed(mid, anfds, fdchanges);
      assert head == rest;
      assert ListOk(head, io.fd);
      forall fd | 0 <= fd < |anfds| ensures ListOk(anfds[fd].head, fd) {
        assert ListOk(old(anfds)[fd].head, fd);
      }
    }

    /** Follows the list to `io` and unlinks it. */
    method Unlink(head: seq<Io>, io: Io) returns (r: seq<Io>)
      ensures r == Without(head, io)
    {
      hide Without;
      var k := 0;
      while k < |head|
        invariant k <= |head| && Without(head, io) == head[..k] + Without(head[k..], io)
      {
        WithoutStep(head, k, io);
        if head[k] == io {
          return head[..k] + head[k + 1..];
        }
        k := k + 1;
      }
      WithoutStep(head, k, io);
      return head;
    }

    // ---------- passing changes on ----------

    /** All events that the watchers on a list wait for. */
    method Collect(head: seq<Io>) returns (events: Mask)
      ensures events == Wanted(head)
    {
      hide Union, Wanted;
      events := 0;
      WantedNone(head);
      for i := 0 to |head|
        invariant Union(events, Wanted(head[i..])) == Wanted(head)
      {
        WantedStep(head, i, events);
        events := Union(events, head[i].events);
      }
      WantedEnd(head, events);
    }

    /** What holds between two descriptors of a pass over the change list. */
    ghost predicate Passing(left: seq<nat>)
      reads this`anfds, members`events, set io | io in members :: io.base`active, poll
    {
      Lists(anfds) && Current(anfds) && Listed(anfds, left) && Sync(poll.polls, poll.pollidxs, Masks(anfds))
    }

    /** Bringing a descriptor up to date does not touch its list. */
    lemma {:induction false} SameHeads(was: seq<Anfd>, a: seq<Anfd>, fd: nat, events: Mask)
      requires Lists(was) && Current(was) && fd < |was|
      requires a == was[fd := Anfd(was[fd].head, events, 0)] && events == Wanted(was[fd].head)
      ensures Lists(a) && Current(a) && forall i: nat :: Head(a, i) == Head(was, i)
    {
      hide Wanted, Distinct;
      assert ListOk(was[fd].head, fd);
      assert forall i :: 0 <= i < |a| ==> a[i].head == was[i].head;
    }

    /** Brings one changed descriptor up to date. */
    method ReifyOne(fd: nat, ghost left: seq<nat>)
      requires left != [] && left[0] == fd && Passing(left)
      modifies this`anfds, poll
      ensures Passing(left[1..]) && forall i: nat :: Head(anfds, i) == Head(old(anfds), i)
    {
      hide Wanted, Sync, Masks, Distinct, Union, Lists, Current, Listed, Head;
      ghost var was := anfds;
      ListedThere(anfds, left);
      var anfd := anfds[fd];
      var oevents, oreify := anfd.events, anfd.reify;
      var events := Collect(anfd.head);
      anfds := anfds[fd := Anfd(anfd.head, events, 0)];
      if oevents != events {
        oreify := EV__IOFDSET;
      }
      if oreify & EV__IOFDSET != 0 {
        poll.Modify(fd, oevents, events, Masks(was));
      }
      SameHeads(was, anfds, fd, events);
      SetMask(was, fd, anfds[fd]);
      NextListed(was, anfds, left);
    }

    /** Passes every change on to the poll array. */
    method FdReify()
      requires Valid()
      modifies this`anfds, this`fdchanges, poll
      ensures Valid() && fdchanges == []
      ensures forall fd: nat :: Head(anfds, fd) == Head(old(anfds), fd)
    {
      hide Lists, Current, Listed, Sync, Masks;
      for i := 0 to |fdchanges|
        invariant fdchanges == old(fdchanges) && Passing(fdchanges[i..])
        invariant forall fd: nat :: Head(anfds, fd) == Head(old(anfds), fd)
      {
        ReifyOne(fdchanges[i], fdchanges[i..]);
        assert fdchanges[i..][1..] == fdchanges[i + 1..];
      }
      fdchanges := [];
    }

    ghost function Masked(): Waits
      reads members`events
    {
      map io | io in members :: io.events
    }

    /** Tells the watchers of a descriptor what has happened. */
    method FdEvent(fd: nat, revents: Mask)
      requires Valid()
      modifies queue`pendings, queue`pendingpri, queue`trace, queue.watchers`pending
      ensures Valid() && queue.trace == old(queue.trace) + HeadFeeds(Told(anfds, fd), Masked(), revents)
    {
      hide HeadFeeds, IoFeed, Valid, Masked;
      var head := Told(anfds, fd);
      ghost var waits := Masked();
      FeedsBegin(queue.trace, head, waits, revents);
      for k := 0 to |head|
        invariant Valid()
        invariant queue.trace + HeadFeeds(head[k..], waits, revents)
               == old(queue.trace) + HeadFeeds(head, waits, revents)
      {
        FeedsStep(queue.trace, head, k, waits, revents);
        FeedOne(fd, k, revents);
      }
      FeedsEnd(queue.trace, head, waits, revents);
    }

    /** Tells one watcher on the list of a descriptor. */
    method FeedOne(fd: nat, k: nat, revents: Mask)
      requires Valid() && k < |Told(anfds, fd)|
      modifies queue`pendings, queue`pendingpri, queue`trace, queue.watchers`pending
      ensures Valid() && queue.trace == old(queue.trace) + IoFeed(Told(anfds, fd)[k], Masked(), revents)
    {
      hide Current, Listed, Sync, Masks, Common, AsEvents, Distinct;
      var io := Told(anfds, fd)[k];
      assert ListOk(anfds[fd].head, fd);
      var ev := Common(io.events, revents);
      if ev != 0 {
        queue.FeedEvent(io.base, AsEvents(ev));
      }
    }

    /** Feeds the watchers what the kernel reports about the entries of the poll array. */
    method PollPoll(revents: seq<Mask>)
      requires Valid() && |revents| == |poll.polls|
      modifies queue`pendings, queue`pendingpri, queue`trace, queue.watchers`pending
      ensures Valid() && queue.trace == old(queue.trace) + PollFeeds(poll.polls, anfds, Masked(), revents)
    {
      hide Valid, PollFeeds, HeadFeeds, Count, Masked;
      var polls := poll.polls;
      ghost var waits := Masked();
      var res, p := Count(revents), 0;
      assert polls[0..] == polls && revents[0..] == revents;
      while res > 0
        invariant Valid() && p <= |polls| && res == Count(revents[p..])
        invariant queue.trace + PollFeeds(polls[p..], anfds, waits, revents[p..])
               == old(queue.trace) + PollFeeds(polls, anfds, waits, revents)
        decreases |polls| - p
      {
        EntryNext(queue.trace, polls, p, anfds, waits, revents);
        if revents[p] != 0 {
          res := res - 1;
          FdEvent(polls[p].fd, Reported(revents[p]));
        }
        p := p + 1;
      }
      NoneReported(polls[p..], anfds, waits, revents[p..]);
    }

    /** The watcher waits for something that `revents` reports, and that is `e`. */
    ghost predicate Gets(io: Io, revents: Mask, e: Events)
      reads io`events
    {
      Common(io.events, Reported(revents)) != 0 && e == AsEvents(Common(io.events, Reported(revents)))
    }

    /** With all changes passed on, exactly the active watchers that wait for something
        the kernel reports about their descriptor are fed, each with just those events. */
    lemma {:induction false} ReadyIsFed(revents: seq<Mask>, io: Io, e: Events)
      requires Own() && fdchanges == [] && io in members && |revents| == |poll.polls|
      ensures Fed(io.base, e) in PollFeeds(poll.polls, anfds, Masked(), revents) <==>
        && io.base.active != 0
        && exists i :: 0 <= i < |poll.polls| && poll.polls[i].fd == io.fd && Gets(io, revents[i], e)
    {
      hide PollFeeds, EntryFeeds, Own, Gets;
      var h := Fed(io.base, e);
      PollFeedsMeans(poll.polls, anfds, Masked(), revents, h);
      forall i | 0 <= i < |poll.polls|
        ensures h in EntryFeeds(poll.polls[i], anfds, Masked(), revents[i]) <==>
          io.base.active != 0 && poll.polls[i].fd == io.fd && Gets(io, revents[i], e)
      {
        FeedsOfEntry(poll.polls[i], revents[i], io, e);
      }
    }

    /** In bits: reading is what the kernel reports as data, an error or a hang-up,
        writing what it reports as room, an error or a hang-up; a watcher that waits for
        what happened is fed, with that and nothing else. */
    lemma {:induction false} FedByBits(revents: seq<Mask>, io: Io, i: nat, e: Events)
      requires Own() && fdchanges == [] && io in members && |revents| == |poll.polls|
      requires i < |poll.polls| && poll.polls[i].fd == io.fd
      ensures var readable := io.events & EV_READ != 0 && revents[i] & (POLLIN | POLLERR | POLLHUP) != 0;
        var writable := io.events & EV_WRITE != 0 && revents[i] & (POLLOUT | POLLERR | POLLHUP) != 0;
        Fed(io.base, e) in PollFeeds(poll.polls, anfds, Masked(), revents) <==>
          && io.base.active != 0 && (readable || writable)
          && e == (if readable then 0x01 else 0) | (if writable then 0x02 else 0)
    {
      ReadyIsFed(revents, io, e);
      EventBits(io.events, revents[i]);
      PollExact();
      hide Own, PollFeeds, Masked, Common, Reported, AsEvents;
      forall k | 0 <= k < |poll.polls| && poll.polls[k].fd == io.fd ensures k == i {}
    }

    /** Nothing but feeds of the watchers of this loop follows from what is reported. */
    lemma {:induction false} OnlyMembersFed(revents: seq<Mask>, h: Happening)
      requires Own() && |revents| == |poll.polls| && h in PollFeeds(poll.polls, anfds, Masked(), revents)
      ensures h.Fed? && exists io :: io in members && io.base == h.w
    {
      hide PollFeeds, HeadFeeds, Current, Listed, Sync, Masks, Common, AsEvents, Distinct, Reported;
      PollFeedsMeans(poll.polls, anfds, Masked(), revents, h);
      var i :| 0 <= i < |poll.polls| && h in EntryFeeds(poll.polls[i], anfds, Masked(), revents[i]);
      var fd := poll.polls[i].fd;
      HeadFeedsMeans(Told(anfds, fd), Masked(), Reported(revents[i]), h);
      if fd < |anfds| { assert ListOk(anfds[fd].head, fd); }
    }

    /** An active watcher that waits for anything has an entry in the poll array. */
    lemma {:induction false} HasEntry(io: Io)
      requires Own() && fdchanges == [] && io in members && io.base.active != 0 && io.events != 0
      ensures exists i :: 0 <= i < |poll.polls| && poll.polls[i].fd == io.fd
    {
      PollExact();
      hide Own, Wanted, Union;
      WantedMeans(anfds[io.fd].head, io.events);
      NonZero(io.events, Wanted(anfds[io.fd].head));
    }

    lemma NonZero(a: Mask, b: Mask)
      ensures a != 0 ==> Has(a, a)
      ensures Has(b, a) ==> b != 0
    {}

    lemma {:induction false} FeedsOfEntry(p: Pollfd, revents: Mask, io: Io, e: Events)
      requires Own() && fdchanges == [] && io in members
      ensures Fed(io.base, e) in EntryFeeds(p, anfds, Masked(), revents) <==>
        io.base.active != 0 && p.fd == io.fd && Gets(io, revents, e)
    {
      hide Current, Sync, Masks, Common, AsEvents, Distinct, HeadFeeds, Reported;
      NothingGets(io, e);
      HeadFeedsMeans(Told(anfds, p.fd), Masked(), Reported(revents), Fed(io.base, e));
      if p.fd < |anfds| {
        assert ListOk(anfds[p.fd].head, p.fd);
        assert p.fd !in fdchanges;
      }
    }

    lemma NothingGets(io: Io, e: Events)
      ensures !Gets(io, 0, e)
    {}

    /** Once changes are passed on, the poll array holds exactly one entry for each
        descriptor that its active watchers want events of, with all those events. */
    lemma {:induction false} PollExact()
      requires Own() && fdchanges == []
      ensures forall i, j :: 0 <= i < j < |poll.polls| ==> poll.polls[i].fd != poll.polls[j].fd
      ensures forall i :: 0 <= i < |poll.polls| ==>
        var fd := poll.polls[i].fd;
        fd < |anfds| && Wanted(anfds[fd].head) != 0 && poll.polls[i].events == PollBits(Wanted(anfds[fd].head))
      ensures forall fd :: 0 <= fd < |anfds| && Wanted(anfds[fd].head) != 0 ==>
        exists i :: 0 <= i < |poll.polls| && poll.polls[i].fd == fd
      ensures forall io :: io in members && io.base.active != 0 ==> io.fd < |anfds| && io in anfds[io.fd].head
    {
      hide Wanted, PollBits;
      forall fd | 0 <= fd < |anfds| && Wanted(anfds[fd].head) != 0
        ensures exists i :: 0 <= i < |poll.polls| && poll.polls[i].fd == fd
      {
        assert poll.polls[poll.pollidxs[fd]].fd == fd;
      }
    }

    /** In bits: the kernel is asked for data if and only if some active watcher of the
        descriptor reads, for room if and only if one writes, and for nothing else. */
    lemma {:induction false} PollsWanted(i: nat)
      requires Own() && fdchanges == [] && i < |poll.polls|
      ensures var p := poll.polls[i];
        && (p.events & POLLIN != 0 <==>
              exists io :: io in members && io.fd == p.fd && io.base.active != 0 && io.events & EV_READ != 0)
        && (p.events & POLLOUT != 0 <==>
              exists io :: io in members && io.fd == p.fd && io.base.active != 0 && io.events & EV_WRITE != 0)
        && p.events & !(POLLIN | POLLOUT) == 0
    {
      PollExact();
      var fd := poll.polls[i].fd;
      var head := anfds[fd].head;
      assert ListOk(head, fd);
      WantedMeans(head, EV_READ);
      WantedMeans(head, EV_WRITE);
      PollBitsMean(Wanted(head));
      hide Wanted, PollBits, Sync, Masks, Distinct, Listed, Current;
    }

    /** An inactive watcher is on no list. */
    lemma NotListed(io: Io)
      requires Lists(anfds) && io in members && io.base.active == 0
      ensures forall fd :: 0 <= fd < |anfds| ==> io !in anfds[fd].head
    {}
  }
}
