/** Both ends of a connection: a send queue with partial writes, and a receive buffer
    with its parser. */
module Channel {
  import opened Wrappers
  import opened ByteStrings
  import opened Framing

  // ---------- sending ----------

  function Min(a: nat, b: nat): (m: nat)
    ensures m <= a && m <= b && (m == a || m == b)
  {
    if a < b then a else b
  }

  /** Bytes to be written, and how many of them have been. */
  class WriteMsg {
    const data: Bytes
    var pos: nat

    constructor (data: Bytes)
      ensures this.data == data && pos == 0
    {
      this.data, pos := data, 0;
    }

    function Left(): Bytes
      reads this
    {
      if pos <= |data| then data[pos..] else []
    }

    /** Hands over as many of the bytes left as the network accepts. */
    method Write(accept: nat) returns (bytes: Bytes)
      requires pos <= |data|
      modifies this`pos
      ensures pos <= |data| && old(Left()) == bytes + Left() && |bytes| == Min(accept, |old(Left())|)
      ensures pos == |data| <==> Left() == []
    {
      var numbytes := Min(accept, |data| - pos);
      bytes := data[pos..pos + numbytes];
      pos := pos + numbytes;
    }
  }

  /** What the `call`-th call to the network answers: how many bytes it takes at most, or
      a negative number when it reports an error. After those listed, an error. */
  function Accepted(accepts: seq<int>, call: nat): int {
    if call < |accepts| then accepts[call] else -1
  }

  /** How many bytes go out from messages with so much left: each call takes what it
      can of the first one, and the next one has its turn when that is used up. */
  function Moved(lefts: seq<nat>, accepts: seq<int>, call: nat): nat
    decreases |lefts|
  {
    if lefts == [] || Accepted(accepts, call) < 0 then 0
    else if Accepted(accepts, call) < lefts[0] then Accepted(accepts, call)
    else lefts[0] + Moved(lefts[1..], accepts, call + 1)
  }

  /** Whether a call reports an error, which ends the process. */
  predicate Exits(lefts: seq<nat>, accepts: seq<int>, call: nat)
    decreases |lefts|
  {
    lefts != [] && (Accepted(accepts, call) < 0
                    || (Accepted(accepts, call) >= lefts[0] && Exits(lefts[1..], accepts, call + 1)))
  }

  /** Everything queued before the `k`-th message went out at once, and the call for that
      one reports an error. */
  ghost predicate RefusedAt(lefts: seq<nat>, accepts: seq<int>, call: nat, k: nat) {
    && k < |lefts| && Accepted(accepts, call + k) < 0
    && forall i :: 0 <= i < k ==> Accepted(accepts, call + i) >= lefts[i]
  }

  /** The process ends if and only if a call for one of the queued messages reports an
      error after all calls before it took their whole messages. */
  lemma {:induction false} ExitsIff(lefts: seq<nat>, accepts: seq<int>, call: nat)
    ensures Exits(lefts, accepts, call) <==> exists k: nat :: RefusedAt(lefts, accepts, call, k)
    decreases |lefts|
  {
    hide Accepted;
    if lefts != [] {
      var rest, next := lefts[1..], call + 1;
      ExitsIff(rest, accepts, next);
      RefusedFirst(lefts, accepts, call);
      if k: nat :| RefusedAt(rest, accepts, next, k) { RefusedLater(lefts, accepts, call, k); }
      if k: nat :| RefusedAt(lefts, accepts, call, k) {
        if k > 0 { RefusedLater(lefts, accepts, call, k - 1); }
      }
    }
  }

  lemma RefusedFirst(lefts: seq<nat>, accepts: seq<int>, call: nat)
    requires lefts != []
    ensures RefusedAt(lefts, accepts, call, 0) <==> Accepted(accepts, call) < 0
  {}

  lemma {:induction false} RefusedLater(lefts: seq<nat>, accepts: seq<int>, call: nat, k: nat)
    requires lefts != []
    ensures RefusedAt(lefts, accepts, call, k + 1)
       <==> Accepted(accepts, call) >= lefts[0] && RefusedAt(lefts[1..], accepts, call + 1, k)
  {
    hide Accepted;
    var rest := lefts[1..];
    if RefusedAt(lefts, accepts, call, k + 1) {
      forall i | 0 <= i < k ensures Accepted(accepts, call + 1 + i) >= rest[i] {
        assert Accepted(accepts, call + (i + 1)) >= lefts[i + 1];
      }
      assert Accepted(accepts, call + 0) >= lefts[0];
    }
    if Accepted(accepts, call) >= lefts[0] && RefusedAt(rest, accepts, call + 1, k) {
      forall i | 0 <= i < k + 1 ensures Accepted(accepts, call + i) >= lefts[i] {
        if i > 0 { assert Accepted(accepts, call + 1 + (i - 1)) >= rest[i - 1]; }
      }
    }
  }

  lemma MovedStep(lefts: seq<nat>, accepts: seq<int>, call: nat)
    requires lefts != [] && Accepted(accepts, call) >= 0
    ensures var a, rest := Accepted(accepts, call), lefts[1..];
      && Moved(lefts, accepts, call) == (if a < lefts[0] then a else lefts[0] + Moved(rest, accepts, call + 1))
      && Exits(lefts, accepts, call) == (a >= lefts[0] && Exits(rest, accepts, call + 1))
  {}

  lemma MovedRefused(lefts: seq<nat>, accepts: seq<int>, call: nat)
    requires lefts != [] && Accepted(accepts, call) < 0
    ensures Moved(lefts, accepts, call) == 0 && Exits(lefts, accepts, call)
  {}

  lemma MovedNone(accepts: seq<int>, call: nat)
    ensures Moved([], accepts, call) == 0 && !Exits([], accepts, call)
  {}

  class DataSocket {
    var sendBuff: seq<WriteMsg>
    var writable: bool

    constructor ()
      ensures Valid() && sendBuff == [] && Pending(sendBuff) == []
    {
      sendBuff, writable := [], false;
    }

    /** No message is queued twice, and while any is queued the socket is watched for
        room to write. */
    ghost predicate Valid()
      reads this, sendBuff
    {
      && (forall i, j :: 0 <= i < j < |sendBuff| ==> sendBuff[i] != sendBuff[j])
      && (forall i :: 0 <= i < |sendBuff| ==> sendBuff[i].pos <= |sendBuff[i].data|)
      && (sendBuff != [] ==> writable)
    }

    /** All bytes still to be written, in order. */
    static ghost function Pending(queue: seq<WriteMsg>): Bytes
      reads queue
    {
      if queue == [] then [] else queue[0].Left() + Pending(queue[1..])
    }

    /** How many bytes each queued message has left. */
    static ghost function Lefts(queue: seq<WriteMsg>): (l: seq<nat>)
      reads queue
      ensures |l| == |queue|
    {
      if queue == [] then [] else [|queue[0].Left()|] + Lefts(queue[1..])
    }

    static lemma LeftsFirst(queue: seq<WriteMsg>)
      requires queue != []
      ensures Lefts(queue)[0] == |queue[0].Left()| && Lefts(queue)[1..] == Lefts(queue[1..])
    {}

    static lemma {:induction false} PendingLast(queue: seq<WriteMsg>, w: WriteMsg)
      ensures Pending(queue + [w]) == Pending(queue) + w.Left()
    {
      if queue == [] {
        assert queue + [w] == [w];
        assert [w][1..] == [];
      } else {
        assert (queue + [w])[1..] == queue[1..] + [w];
        PendingLast(queue[1..], w);
      }
    }

    method AppendToSendBuff(buf: Bytes)
      requires Valid()
      modifies this
      ensures Valid() && Pending(sendBuff) == old(Pending(sendBuff)) + buf
      ensures forall w :: w in sendBuff ==> w in old(sendBuff) || fresh(w)
    {
      hide Pending;
      var w := new WriteMsg(buf);
      PendingLast(sendBuff, w);
      sendBuff := sendBuff + [w];
      writable := true;
    }

    /** Hands bytes to the network until it takes less than is offered or none are left;
        an error it reports ends the process. The socket is watched for room to write
        afterwards exactly when bytes are left. */
    method DoSend(accepts: seq<int>) returns (exited: bool, sent: Bytes)
      requires Valid()
      modifies this, sendBuff
      ensures Valid() && sent + Pending(sendBuff) == old(Pending(sendBuff))
      ensures var lefts := old(Lefts(sendBuff));
        |sent| == Moved(lefts, accepts, 0) && exited == Exits(lefts, accepts, 0)
      ensures writable <==> sendBuff != []
      ensures forall w :: w in sendBuff ==> w in old(sendBuff)
    {
      hide Pending, Lefts, Moved, Exits, Accepted;
      exited, sent := false, [];
      if sendBuff == [] {
        writable := false;
      }
      var call := 0;
      while sendBuff != []
        invariant Valid() && sent + Pending(sendBuff) == old(Pending(sendBuff)) && !exited
        invariant |sent| + Moved(Lefts(sendBuff), accepts, call) == Moved(old(Lefts(sendBuff)), accepts, 0)
        invariant Exits(Lefts(sendBuff), accepts, call) == Exits(old(Lefts(sendBuff)), accepts, 0)
        invariant writable <==> sendBuff != []
        invariant forall w :: w in sendBuff ==> w in old(sendBuff)
        decreases |sendBuff|
      {
        assert sendBuff[0] in old(sendBuff);
        var numbytes := Accepted(accepts, call);
        if numbytes < 0 {
          MovedRefused(Lefts(sendBuff), accepts, call);
          return true, sent;
        }
        MovedStep(Lefts(sendBuff), accepts, call);
        MovedNone(accepts, call + 1);
        var bytes, done := SendFront(numbytes);
        call := call + 1;
        Regroup(sent, bytes, Pending(sendBuff));
        sent := sent + bytes;
        if done {
          return;
        }
      }
      MovedNone(accepts, call);
    }

    static lemma PendingFirst(queue: seq<WriteMsg>)
      requires queue != []
      ensures Pending(queue) == queue[0].Left() + Pending(queue[1..])
    {}

    /** Writes what the network takes of the first message; `done` unless it took all
        of it and another message waits. */
    method SendFront(accept: nat) returns (bytes: Bytes, done: bool)
      requires Valid() && sendBuff != []
      modifies this, sendBuff[0]
      ensures Valid() && bytes + Pending(sendBuff) == old(Pending(sendBuff))
      ensures var left := old(Lefts(sendBuff));
        && |bytes| == Min(accept, left[0])
        && if accept < left[0] then done && sendBuff == old(sendBuff)
           else sendBuff == old(sendBuff)[1..] && Lefts(sendBuff) == left[1..] && done == (sendBuff == [])
      ensures old(writable) ==> (writable <==> sendBuff != [])
    {
      hide Pending, Lefts, WriteMsg.Left;
      LeftsFirst(sendBuff);
      var msg := sendBuff[0];
      ghost var queue := sendBuff[1..];
      PendingFirst(sendBuff);
      assert msg !in queue;
      bytes := msg.Write(accept);
      PendingFirst(sendBuff);
      Regroup(bytes, msg.Left(), Pending(queue));
      assert Pending(queue) == old(Pending(sendBuff[1..])) && Lefts(queue) == old(Lefts(sendBuff[1..]));
      done := true;
      if msg.pos == |msg.data| {
        sendBuff := sendBuff[1..];
        if sendBuff == [] {
          writable := false;
        } else {
          done := false;
        }
      }
    }

    /** Queues a message as three pieces: magic, length and payload. */
    method SendMsg(m: Payload)
      requires Valid()
      modifies this
      ensures Valid() && Pending(sendBuff) == old(Pending(sendBuff)) + Frame(m)
      ensures forall w :: w in sendBuff ==> w in old(sendBuff) || fresh(w)
    {
      hide Pending, Valid, ToLittle;
      ghost var before := Pending(sendBuff);
      AppendToSendBuff(BLEEP_MAGIC);
      AppendToSendBuff(ToLittle(|m|));
      AppendToSendBuff(m);
      assert before + BLEEP_MAGIC + ToLittle(|m|) + m == before + Frame(m);
    }
  }

  // ---------- receiving ----------

  /** The receive buffers, one for each descriptor that has data. */
  class RecvBufferManager {
    var buffers: map<nat, Bytes>

    constructor ()
      ensures buffers == map[]
    {
      buffers := map[];
    }

    /** What has been received on `fd` and not been taken; empty when there is no
        buffer. */
    function Buffer(fd: nat): Bytes
      reads this
    {
      if fd in buffers then buffers[fd] else []
    }

    method AppendToBuffer(fd: nat, buf: Bytes)
      modifies this
      ensures Buffer(fd) == old(Buffer(fd)) + buf
      ensures fd in buffers && forall f :: f != fd ==> Buffer(f) == old(Buffer(f))
    {
      if fd !in buffers {
        buffers := buffers[fd := buf];
      } else {
        buffers := buffers[fd := buffers[fd] + buf];
      }
    }
  }

  /** The receiving side of one kind of connection. */
  class SocketLayer {
    const protocol: Protocol
    const recvBuffManager: RecvBufferManager

    constructor (protocol: Protocol)
      ensures this.protocol == protocol && fresh(recvBuffManager) && recvBuffManager.buffers == map[]
    {
      this.protocol := protocol;
      recvBuffManager := new RecvBufferManager();
    }

    /** Appends what successive reads return, then takes every whole frame off the
        front of the buffer. False for `ok` is a read outside it. */
    method RecvHandler(fd: nat, pieces: seq<Bytes>) returns (ok: bool, events: seq<Event>)
      modifies recvBuffManager
      ensures var r := Parse(protocol, old(recvBuffManager.Buffer(fd)) + Concat(pieces));
        events == r.events && ok == r.Parsed? && (ok ==> recvBuffManager.Buffer(fd) == r.rest)
      ensures forall f :: f != fd ==> recvBuffManager.Buffer(f) == old(recvBuffManager.Buffer(f))
    {
      var m := recvBuffManager;
      hide Parse, Take, Before;
      for i := 0 to |pieces|
        invariant m.Buffer(fd) == old(m.Buffer(fd)) + Concat(pieces[..i])
        invariant forall f :: f != fd ==> m.Buffer(f) == old(m.Buffer(f))
      {
        assert pieces[..i + 1][..i] == pieces[..i];
        m.AppendToBuffer(fd, pieces[i]);
      }
      assert pieces[..|pieces|] == pieces;
      ghost var all := m.Buffer(fd);
      ok, events := true, [];
      if fd !in m.buffers {
        NothingParsed(protocol);
        return;
      }
      BeforeBefore([], [], Parse(protocol, all));
      while true
        invariant fd in m.buffers && ok
        invariant Parse(protocol, all) == Before(events, Parse(protocol, m.buffers[fd]))
        invariant forall f :: f != fd ==> m.Buffer(f) == old(m.Buffer(f))
        decreases |m.buffers[fd]|
      {
        var t := Take(protocol, m.buffers[fd]);
        ParseStep(protocol, m.buffers[fd], events);
        if t.Nothing? {
          break;
        } else if t.OutOfBounds? {
          ok := false;
          break;
        }
        events := events + [t.event];
        m.buffers := m.buffers[fd := m.buffers[fd][t.used..]];
      }
    }
  }

  lemma NothingParsed(p: Protocol)
    ensures Parse(p, []) == Parsed([], [])
  {}

  lemma {:induction false} ParseStep(p: Protocol, s: Bytes, e: seq<Event>)
    ensures Before(e, Parse(p, s)) ==
      match Take(p, s)
      case Nothing => Parsed(e, s)
      case OutOfBounds => Broken(e)
      case Taken(event, used) => Before(e + [event], Parse(p, s[used..]))
  {
    hide Take;
    var t := Take(p, s);
    if t.Taken? { BeforeBefore(e, [t.event], Parse(p, s[t.used..])); }
  }

  // ---------- a whole connection ----------

  /** What can happen on an open connection: a message is queued, the sender writes as
      much as the network takes, or the next bytes arrive, cut into reads. A sender whose
      process has ended does nothing more. */
  datatype Op = Send(m: Payload) | Write(accepts: seq<int>) | Arrive(pieces: seq<nat>)

  function Sum(s: seq<nat>): nat {
    if s == [] then 0 else Sum(s[..|s| - 1]) + s[|s| - 1]
  }

  class Connection {
    const sender: DataSocket
    const receiver: SocketLayer
    var wire: Bytes
    var events: seq<Event>
    var ended: bool
    ghost var msgs: seq<Payload>
    ghost var received: Bytes

    constructor ()
      ensures Valid() && msgs == [] && events == []
    {
      sender := new DataSocket();
      receiver := new SocketLayer(Bleep);
      wire, events, ended, msgs, received := [], [], false, [], [];
      new;
      NothingParsed(Bleep);
    }

    ghost predicate Valid()
      reads this, sender, sender.sendBuff, receiver.recvBuffManager
    {
      && sender.Valid() && receiver.protocol == Bleep
      && received + wire + DataSocket.Pending(sender.sendBuff) == Stream(msgs)
      && Parse(Bleep, received) == Parsed(events, receiver.recvBuffManager.Buffer(0))
    }

    /** What the receiver has at any time: the first messages sent, in order, up to the
        first empty one. With nothing queued or under way it has all if and only if none
        is empty. */
    lemma {:induction false} Delivered()
      requires Valid()
      ensures |received| <= |Stream(msgs)|
      ensures var j := Whole(msgs, |received|);
        events == Events(msgs[..j]) && LeftOver(msgs, |received|, j, receiver.recvBuffManager.Buffer(0))
      ensures wire == [] && sender.sendBuff == [] ==> (events == Events(msgs) <==> NoneEmpty(msgs))
    {
      hide Parse, Whole, Stream, Frame, LeftOver, NoneEmpty;
      ReceivedPrefix(msgs, |received|);
      assert received == Stream(msgs)[..|received|];
      assert msgs[..|msgs|] == msgs;
      if wire == [] && sender.sendBuff == [] {
        assert |DataSocket.Pending([])| == 0;
        WholeAll(msgs, |received|);
        assert |Events(msgs)| == |msgs|;
      }
    }

    method SendMessage(m: Payload)
      requires Valid()
      modifies this`msgs, sender
      ensures Valid() && msgs == old(msgs) + [m]
      ensures forall w :: w in sender.sendBuff ==> w in old(sender.sendBuff) || fresh(w)
    {
      hide Parse, Stream, Frame, DataSocket.Pending;
      sender.SendMsg(m);
      StreamAppend(msgs, m);
      Regroup(received + wire, old(DataSocket.Pending(sender.sendBuff)), Frame(m));
      msgs := msgs + [m];
    }

    method WriteOut(accepts: seq<int>)
      requires Valid()
      modifies this`wire, this`ended, sender, sender.sendBuff
      ensures Valid() && |wire| == |old(wire)| + Moved(old(DataSocket.Lefts(sender.sendBuff)), accepts, 0)
      ensures ended == (old(ended) || Exits(old(DataSocket.Lefts(sender.sendBuff)), accepts, 0))
      ensures forall w :: w in sender.sendBuff ==> w in old(sender.sendBuff)
    {
      hide Parse, Stream, DataSocket.Pending;
      var exited, sent := sender.DoSend(accepts);
      Regroup(received + wire, sent, DataSocket.Pending(sender.sendBuff));
      Regroup(received, wire, sent);
      wire := wire + sent;
      ended := ended || exited;
    }

    /** The next bytes off the wire, as reads of the given sizes. */
    method Take(pieces: seq<nat>) returns (chunks: seq<Bytes>)
      modifies this`wire
      ensures old(wire) == Concat(chunks) + wire && |Concat(chunks)| == Min(Sum(pieces), |old(wire)|)
    {
      chunks := [];
      for i := 0 to |pieces|
        invariant old(wire) == Concat(chunks) + wire && |Concat(chunks)| == Min(Sum(pieces[..i]), |old(wire)|)
      {
        assert pieces[..i + 1][..i] == pieces[..i];
        var n := Min(pieces[i], |wire|);
        assert (chunks + [wire[..n]])[..|chunks|] == chunks;
        Regroup(Concat(chunks), wire[..n], wire[n..]);
        assert wire == wire[..n] + wire[n..];
        chunks := chunks + [wire[..n]];
        wire := wire[n..];
      }
      assert pieces[..|pieces|] == pieces;
    }

    method Receive(pieces: seq<nat>)
      requires Valid()
      modifies this`wire, this`events, this`received, receiver.recvBuffManager
      ensures Valid() && |received| == |old(received)| + Min(Sum(pieces), |old(wire)|)
    {
      hide Parse, Stream, Concat, DataSocket.Pending;
      var chunks := Take(pieces);
      var bytes := Concat(chunks);
      ParseMore(Bleep, received, bytes);
      Regroup(received, bytes, wire);
      NeverBroken(msgs, received + bytes, wire + DataSocket.Pending(sender.sendBuff));
      var _, e := receiver.RecvHandler(0, chunks);
      received := received + bytes;
      events := events + e;
    }

    /** Any run of the connection: at every moment the messages received are the first
        ones sent, in order. */
    method Perform(ops: seq<Op>)
      requires Valid()
      modifies this, sender, sender.sendBuff, receiver.recvBuffManager
      ensures Valid()
    {
      hide *;
      for i := 0 to |ops|
        invariant Valid()
        invariant forall w :: w in sender.sendBuff ==> w in old(sender.sendBuff) || fresh(w)
      {
        match ops[i]
        case Send(m) =>
          if !ended { SendMessage(m); }
        case Write(accepts) =>
          ghost var queue := sender.sendBuff;
          assert forall i :: 0 <= i < |queue| ==> queue[i] in old(sender.sendBuff) || fresh(queue[i]);
          if !ended { WriteOut(accepts); }
        case Arrive(pieces) => Receive(pieces);
      }
    }
  }

  /** What came out of a sender never makes the parser read outside its buffer. */
  lemma {:induction false} NeverBroken(msgs: seq<Payload>, received: Bytes, ahead: Bytes)
    requires received + ahead == Stream(msgs)
    ensures Parse(Bleep, received).Parsed?
  {
    hide Parse, Stream;
    assert received == Stream(msgs)[..|received|];
    ReceivedPrefix(msgs, |received|);
  }

  lemma {:induction false} StreamAppend(msgs: seq<Payload>, m: Payload)
    ensures Stream(msgs + [m]) == Stream(msgs) + Frame(m)
  {
    hide Frame;
    if msgs == [] {
      assert (msgs + [m])[1..] == [];
    } else {
      StreamAppend(msgs[1..], m);
      assert (msgs + [m])[1..] == msgs[1..] + [m];
    }
  }

  lemma Regroup(a: Bytes, b: Bytes, c: Bytes)
    ensures (a + b) + c == a + (b + c)
  {}
}
