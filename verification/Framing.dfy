/** Frames on a byte stream: what a receiver makes of the bytes it has so far. */
module Framing {
  import opened Wrappers
  import opened ByteStrings

  datatype Protocol = Bleep | Bitcoin

  /** "BLEEPmsg", and the four bytes that open a Bitcoin frame. */
  const BLEEP_MAGIC: Bytes := [0x42, 0x4C, 0x45, 0x45, 0x50, 0x6D, 0x73, 0x67]
  const BITCOIN_MAGIC: Bytes := [0xF9, 0xBE, 0xB4, 0xD9]

  const BLEEP_HEADER: nat := 12
  const BITCOIN_HEADER: nat := 24

  datatype Event = BleepMsg(payload: Bytes) | BitcoinMsg(command: Bytes, checksum: u32, payload: Bytes)

  /** What the parser does at the front of a buffer: it takes a frame of so many bytes,
      it waits, or it reads outside the buffer. */
  datatype Taking = Taken(event: Event, used: nat) | Nothing | OutOfBounds

  // ---------- little-endian words ----------

  function ToLittle(v: u32): (s: Bytes)
    ensures |s| == 4
  {
    [v % 0x100, v / 0x100 % 0x100, v / 0x1_0000 % 0x100, v / 0x100_0000]
  }

  function FromLittle(s: Bytes): u32
    requires |s| == 4
  {
    var a: int, b: int, c: int, d: int := s[0], s[1], s[2], s[3];
    a + b * 0x100 + c * 0x1_0000 + d * 0x100_0000
  }

  /** A 32-bit word as a signed number. */
  function Signed(v: u32): int {
    if v < 0x8000_0000 then v else v - 0x1_0000_0000
  }

  lemma {:induction false} LittleRoundTrip(v: u32)
    ensures FromLittle(ToLittle(v)) == v
  {
    var w := v / 0x100;
    var x := w / 0x100;
    assert v == w * 0x100 + v % 0x100 && w == x * 0x100 + w % 0x100;
    assert x == v / 0x1_0000 && x / 0x100 == v / 0x100_0000 && x == x / 0x100 * 0x100 + x % 0x100;
    assert ToLittle(v) == [v % 0x100, w % 0x100, x % 0x100, x / 0x100];
  }

  // ---------- one frame ----------

  predicate StartsWith(s: Bytes, magic: Bytes) {
    |s| >= |magic| && s[..|magic|] == magic
  }

  /** Bytes that a frame with length field `size` is taken to need, in unsigned 64-bit
      arithmetic. */
  function Needed(size: int): nat {
    (BLEEP_HEADER + size) % 0x1_0000_0000_0000_0000
  }

  /** A message frame: magic, signed length, payload. An empty payload is never taken;
      a negative length passes the test when the sum wraps to no more than is there. */
  function TakeBleep(s: Bytes): (r: Taking)
    ensures r.Taken? ==> BLEEP_HEADER < r.used <= |s|
  {
    if !StartsWith(s, BLEEP_MAGIC) || |s| < BLEEP_HEADER then Nothing
    else
      var size := Signed(FromLittle(s[8..12]));
      if size == 0 || |s| < Needed(size) then Nothing
      else if size < 0 then OutOfBounds
      else Taken(BleepMsg(s[BLEEP_HEADER..BLEEP_HEADER + size]), BLEEP_HEADER + size)
  }

  /** A Bitcoin frame: magic, command, payload length, checksum, payload. */
  function TakeBitcoin(s: Bytes): (r: Taking)
    ensures !r.OutOfBounds? && (r.Taken? ==> BITCOIN_HEADER <= r.used <= |s|)
  {
    if !StartsWith(s, BITCOIN_MAGIC) || |s| < 20 then Nothing
    else
      var size := FromLittle(s[16..20]);
      if size != 0 && |s| >= BITCOIN_HEADER + size then
        Taken(BitcoinMsg(s[4..16], FromLittle(s[20..24]), s[BITCOIN_HEADER..BITCOIN_HEADER + size]),
              BITCOIN_HEADER + size)
      else if size == 0 && |s| >= BITCOIN_HEADER then
        Taken(BitcoinMsg(s[4..16], FromLittle(s[20..24]), []), BITCOIN_HEADER)
      else Nothing
  }

  function Take(p: Protocol, s: Bytes): (r: Taking)
    ensures r.Taken? ==> 0 < r.used <= |s|
    ensures p.Bitcoin? ==> !r.OutOfBounds?
  {
    if p.Bleep? then TakeBleep(s) else TakeBitcoin(s)
  }

  /** The number that bytes spell, least significant first. */
  function LittleNumber(s: Bytes): nat {
    if s == [] then 0 else s[0] as int + 0x100 * LittleNumber(s[1..])
  }

  lemma {:induction false} LittleIs(s: Bytes)
    requires |s| == 4
    ensures FromLittle(s) == LittleNumber(s)
  {
    assert LittleNumber(s[3..]) == s[3] as int + 0x100 * LittleNumber(s[3..][1..]);
    assert LittleNumber(s[2..]) == s[2] as int + 0x100 * LittleNumber(s[2..][1..]) && s[2..][1..] == s[3..];
    assert LittleNumber(s[1..]) == s[1] as int + 0x100 * LittleNumber(s[1..][1..]) && s[1..][1..] == s[2..];
  }

  /** A message frame is taken if and only if the buffer starts with the magic and a
      length from 1 to 2^31 - 1, and the payload is there; then the event has it. */
  lemma {:induction false} TakeBleepMeans(s: Bytes)
    ensures var n := if |s| < 12 then 0 else LittleNumber(s[8..12]);
      if |s| >= 12 && s[..8] == BLEEP_MAGIC && 0 < n < 0x8000_0000 && |s| >= 12 + n
      then Take(Bleep, s) == Taken(BleepMsg(s[12..12 + n]), 12 + n)
      else !Take(Bleep, s).Taken?
  {
    if |s| >= 12 { LittleIs(s[8..12]); }
    hide FromLittle, LittleNumber;
  }

  /** A Bitcoin frame is taken if and only if the buffer starts with the magic and has
      the whole header and the payload, of any length. */
  lemma {:induction false} TakeBitcoinMeans(s: Bytes)
    ensures var n := if |s| < 24 then 0 else LittleNumber(s[16..20]);
      if |s| >= 24 + n && s[..4] == BITCOIN_MAGIC
      then LittleNumber(s[20..24]) < 0x1_0000_0000
        && Take(Bitcoin, s) == Taken(BitcoinMsg(s[4..16], LittleNumber(s[20..24]), s[24..24 + n]), 24 + n)
      else Take(Bitcoin, s) == Nothing
  {
    if |s| >= 24 {
      LittleIs(s[16..20]);
      LittleIs(s[20..24]);
      hide FromLittle, LittleNumber;
      assert LittleNumber(s[16..20]) == 0 ==> s[24..24] == [];
    }
  }

  /** More bytes behind a front that the parser acts on do not change what it does. */
  lemma {:induction false} TakeStable(p: Protocol, s: Bytes, more: Bytes)
    requires !Take(p, s).Nothing?
    ensures Take(p, s + more) == Take(p, s)
  {
    var t := s + more;
    assert forall i, j :: 0 <= i <= j <= |s| ==> t[i..j] == s[i..j];
    hide FromLittle;
  }

  // ---------- the whole buffer ----------

  /** The events in a buffer, and the bytes left over; or the events before the parser
      read outside the buffer. */
  datatype Parsed = Parsed(events: seq<Event>, rest: Bytes) | Broken(events: seq<Event>)

  function Before(e: seq<Event>, r: Parsed): Parsed {
    if r.Broken? then Broken(e + r.events) else Parsed(e + r.events, r.rest)
  }

  function Parse(p: Protocol, s: Bytes): Parsed
    decreases |s|
  {
    match Take(p, s)
    case Nothing => Parsed([], s)
    case OutOfBounds => Broken([])
    case Taken(event, used) => Before([event], Parse(p, s[used..]))
  }

  /** What one more chunk does: it is put behind the left-over bytes. */
  function Feed(p: Protocol, before: Parsed, chunk: Bytes): Parsed {
    if before.Broken? then before else Before(before.events, Parse(p, before.rest + chunk))
  }

  function FeedAll(p: Protocol, chunks: seq<Bytes>): Parsed {
    if chunks == [] then Parsed([], [])
    else Feed(p, FeedAll(p, chunks[..|chunks| - 1]), chunks[|chunks| - 1])
  }

  lemma {:induction false} BeforeBefore(a: seq<Event>, b: seq<Event>, r: Parsed)
    ensures Before(a, Before(b, r)) == Before(a + b, r)
    ensures Before([], r) == r
  {
    assert a + (b + r.events) == (a + b) + r.events;
    assert [] + r.events == r.events;
  }

  lemma {:induction false} ParseMore(p: Protocol, s: Bytes, more: Bytes)
    ensures Parse(p, s + more) == Feed(p, Parse(p, s), more)
    decreases |s|
  {
    hide Take, Before;
    var t := Take(p, s);
    if t.Taken? {
      var tail := s[t.used..];
      TakeStable(p, s, more);
      assert (s + more)[t.used..] == tail + more;
      ParseMore(p, tail, more);
      FeedBefore(p, [t.event], Parse(p, tail), more);
    } else if t.OutOfBounds? {
      TakeStable(p, s, more);
    } else {
      BeforeBefore([], [], Parse(p, s + more));
    }
  }

  lemma {:induction false} FeedBefore(p: Protocol, e: seq<Event>, r: Parsed, more: Bytes)
    ensures Feed(p, Before(e, r), more) == Before(e, Feed(p, r, more))
  {
    hide Parse;
    if r.Parsed? { BeforeBefore(e, r.events, Parse(p, r.rest + more)); }
  }

  /** However a stream is cut into chunks, parsing it as it comes is parsing it whole. */
  lemma {:induction false} IncrementalIsBatch(p: Protocol, chunks: seq<Bytes>)
    ensures FeedAll(p, chunks) == Parse(p, Concat(chunks))
  {
    hide Take;
    if chunks == [] {
      NothingTaken(p);
    } else {
      var init := chunks[..|chunks| - 1];
      IncrementalIsBatch(p, init);
      ParseMore(p, Concat(init), chunks[|chunks| - 1]);
    }
  }

  lemma NothingTaken(p: Protocol)
    ensures Take(p, []).Nothing?
  {}

  /** The left-over bytes never start with a whole frame, and nothing is lost: they are
      the end of the stream. */
  lemma {:induction false} RestIsOpen(p: Protocol, s: Bytes)
    requires Parse(p, s).Parsed?
    ensures var r := Parse(p, s).rest; Take(p, r).Nothing? && |r| <= |s| && s[|s| - |r|..] == r
    decreases |s|
  {
    hide Take;
    var t := Take(p, s);
    if t.Taken? {
      RestIsOpen(p, s[t.used..]);
    }
  }

  // ---------- reading outside the buffer ----------

  /** A whole message header whose length is negative, but not below what the header's
      own length makes up for. */
  predicate BadFront(s: Bytes) {
    StartsWith(s, BLEEP_MAGIC) && |s| >= BLEEP_HEADER && -12 <= Signed(FromLittle(s[8..12])) <= -1
  }

  /** A string of the program: its size is a signed 64-bit number. */
  type Buffer = s: Bytes | |s| < 0x8000_0000_0000_0000

  lemma {:induction false} OutOfBoundsIff(p: Protocol, s: Buffer)
    ensures Take(p, s).OutOfBounds? <==> p.Bleep? && BadFront(s)
  {
    hide FromLittle;
  }

  /** The offsets at which the parser looks for a frame. */
  predicate Reaches(p: Protocol, s: Bytes, k: nat)
    decreases |s|
  {
    k == 0 || (var t := Take(p, s); t.Taken? && k >= t.used && Reaches(p, s[t.used..], k - t.used))
  }

  /** The parser comes to offset `k` and finds such a header there. */
  ghost predicate BadAt(p: Protocol, s: Bytes, k: nat) {
    k <= |s| && Reaches(p, s, k) && BadFront(s[k..])
  }

  lemma {:induction false} BadBehind(p: Protocol, s: Bytes, k: nat)
    requires Take(p, s).Taken?
    ensures var used := Take(p, s).used;
      (k > 0 && BadAt(p, s, k)) <==> (k >= used && BadAt(p, s[used..], k - used))
  {
    hide Take, BadFront;
    var used := Take(p, s).used;
    if k >= used {
      assert k <= |s| ==> s[k..] == s[used..][k - used..];
    }
  }

  /** The parser reads outside the buffer if and only if one of the fronts it reaches is
      a message header with a length from -12 to -1. */
  lemma {:induction false} BrokenIff(p: Protocol, s: Buffer)
    ensures Parse(p, s).Broken? <==> p.Bleep? && exists k: nat :: BadAt(p, s, k)
    decreases |s|
  {
    hide Take, BadFront, BadAt;
    OutOfBoundsIff(p, s);
    FrontBad(p, s);
    var t := Take(p, s);
    if t.Taken? {
      BrokenIff(p, s[t.used..]);
      forall k: nat { BadBehind(p, s, k); }
      if k: nat :| BadAt(p, s[t.used..], k) {
        BadBehind(p, s, k + t.used);
      }
    } else {
      forall k: nat | BadAt(p, s, k) ensures k == 0 { OnlyFront(p, s, k); }
    }
  }

  lemma {:induction false} FrontBad(p: Protocol, s: Bytes)
    ensures BadAt(p, s, 0) <==> BadFront(s)
  {
    hide Take, BadFront;
    assert s[0..] == s;
  }

  lemma {:induction false} OnlyFront(p: Protocol, s: Bytes, k: nat)
    requires BadAt(p, s, k) && !Take(p, s).Taken?
    ensures k == 0
  {
    hide Take, BadFront;
  }

  /** Twelve bytes that do it: the magic and the length -1. */
  lemma {:induction false} MinusOneBreaks()
    ensures Parse(Bleep, BLEEP_MAGIC + [0xFF, 0xFF, 0xFF, 0xFF]).Broken?
  {
    var s := BLEEP_MAGIC + [0xFF, 0xFF, 0xFF, 0xFF];
    assert s[8..12] == [0xFF, 0xFF, 0xFF, 0xFF] && s[..8] == BLEEP_MAGIC;
    assert Signed(FromLittle(s[8..12])) == -1;
  }

  // ---------- a stream of sent messages ----------

  /** A message whose length the sender can write as a signed 32-bit number. */
  type Payload = m: Bytes | |m| < 0x8000_0000

  function Frame(m: Payload): (s: Bytes)
    ensures |s| == BLEEP_HEADER + |m|
  {
    BLEEP_MAGIC + ToLittle(|m|) + m
  }

  function Stream(msgs: seq<Payload>): Bytes {
    if msgs == [] then [] else Frame(msgs[0]) + Stream(msgs[1..])
  }

  function Events(msgs: seq<Payload>): (e: seq<Event>)
    ensures |e| == |msgs| && forall i :: 0 <= i < |msgs| ==> e[i] == BleepMsg(msgs[i])
  {
    seq(|msgs|, i requires 0 <= i < |msgs| => BleepMsg(msgs[i]))
  }

  /** A frame that the sender wrote is taken whole, but for an empty one, which is never
      taken. */
  lemma {:induction false} TakeFrame(m: Payload, more: Bytes)
    ensures Take(Bleep, Frame(m) + more) == if m == [] then Nothing else Taken(BleepMsg(m), |Frame(m)|)
  {
    var s := Frame(m) + more;
    assert s[..8] == BLEEP_MAGIC;
    assert s[8..12] == ToLittle(|m|);
    LittleRoundTrip(|m|);
    hide FromLittle, ToLittle;
    assert s[BLEEP_HEADER..BLEEP_HEADER + |m|] == m;
  }

  /** A frame that has not arrived whole is not taken. */
  lemma {:induction false} TakePartial(m: Payload, k: nat)
    requires k < |Frame(m)|
    ensures Take(Bleep, Frame(m)[..k]).Nothing?
  {
    var s := Frame(m)[..k];
    if |s| >= BLEEP_HEADER {
      assert s[8..12] == Frame(m)[8..12] == ToLittle(|m|);
      LittleRoundTrip(|m|);
    }
    hide FromLittle, ToLittle;
  }

  /** How many messages the first `k` bytes of a stream hold whole, up to the first
      empty one. */
  function Whole(msgs: seq<Payload>, k: nat): (j: nat)
    requires k <= |Stream(msgs)|
    ensures j <= |msgs|
  {
    if msgs == [] || msgs[0] == [] || k < |Frame(msgs[0])| then 0
    else 1 + Whole(msgs[1..], k - |Frame(msgs[0])|)
  }

  /** What is left over of the first `k` bytes when `j` messages have been taken. */
  ghost predicate LeftOver(msgs: seq<Payload>, k: nat, j: nat, rest: Bytes)
    requires j <= |msgs|
  {
    if j == |msgs| then rest == []
    else if msgs[j] != [] then rest < Frame(msgs[j])
    else |Stream(msgs[..j])| <= k <= |Stream(msgs)| && rest == Stream(msgs)[|Stream(msgs[..j])|..k]
  }

  lemma {:induction false} StreamCons(m: Payload, msgs: seq<Payload>)
    ensures Stream([m] + msgs) == Frame(m) + Stream(msgs)
  {
    hide Frame;
    assert ([m] + msgs)[1..] == msgs;
  }

  /** From the first `k` bytes of what was sent the receiver has exactly the messages
      that are whole, in order, up to the first empty one; what is left over is a
      proper prefix of the next message's frame, or all that came since the empty one. */
  lemma {:induction false} ReceivedPrefix(msgs: seq<Payload>, k: nat)
    requires k <= |Stream(msgs)|
    ensures var r := Parse(Bleep, Stream(msgs)[..k]);
      var j := Whole(msgs, k);
      r.Parsed? && r.events == Events(msgs[..j]) && LeftOver(msgs, k, j, r.rest)
  {
    hide Take, Frame, LeftOver;
    if msgs == [] {
      NothingTaken(Bleep);
      assert Stream(msgs)[..k] == [];
      LeftOverNow(msgs, k);
    } else {
      var m, s := msgs[0], Stream(msgs)[..k];
      var n := |Frame(m)|;
      assert msgs[..0] == [];
      if k < n {
        assert s == Frame(m)[..k];
        TakePartial(m, k);
        LeftOverNow(msgs, k);
      } else {
        var more := Stream(msgs[1..])[..k - n];
        assert s == Frame(m) + more;
        TakeFrame(m, more);
        if m == [] {
          LeftOverNow(msgs, k);
        } else {
          assert s[n..] == more;
          ReceivedPrefix(msgs[1..], k - n);
          var j := Whole(msgs[1..], k - n);
          assert Events(msgs[..j + 1]) == [BleepMsg(m)] + Events(msgs[1..][..j]);
          LeftOverNext(msgs, k, j, Parse(Bleep, more).rest);
        }
      }
    }
  }

  lemma {:induction false} LeftOverNow(msgs: seq<Payload>, k: nat)
    requires k <= |Stream(msgs)| && (msgs != [] && msgs[0] != [] ==> k < |Frame(msgs[0])|)
    ensures LeftOver(msgs, k, 0, Stream(msgs)[..k])
  {
    hide Frame;
    assert msgs[..0] == [];
    if msgs != [] && msgs[0] != [] { assert Stream(msgs)[..k] == Frame(msgs[0])[..k]; }
  }

  lemma {:induction false} LeftOverNext(msgs: seq<Payload>, k: nat, j: nat, rest: Bytes)
    requires msgs != [] && |Frame(msgs[0])| <= k && j < |msgs|
    requires LeftOver(msgs[1..], k - |Frame(msgs[0])|, j, rest)
    ensures LeftOver(msgs, k, j + 1, rest)
  {
    hide Frame;
    var n := |Frame(msgs[0])|;
    assert msgs[..j + 1] == [msgs[0]] + msgs[1..][..j];
    StreamCons(msgs[0], msgs[1..][..j]);
    hide Stream;
    if j + 1 < |msgs| && msgs[j + 1] == [] {
      StreamCons(msgs[0], msgs[1..]);
      assert msgs == [msgs[0]] + msgs[1..];
      var l := |Stream(msgs[1..][..j])|;
      assert (Frame(msgs[0]) + Stream(msgs[1..]))[n + l..k] == Stream(msgs[1..])[l..k - n];
    }
  }

  ghost predicate NoneEmpty(msgs: seq<Payload>) {
    forall m :: m in msgs ==> m != []
  }

  /** All messages are taken exactly when all bytes are there and none is empty. */
  lemma {:induction false} WholeAll(msgs: seq<Payload>, k: nat)
    requires k <= |Stream(msgs)|
    ensures Whole(msgs, k) == |msgs| <==> k == |Stream(msgs)| && NoneEmpty(msgs)
  {
    hide Frame;
    if msgs != [] && msgs[0] != [] && k >= |Frame(msgs[0])| {
      WholeAll(msgs[1..], k - |Frame(msgs[0])|);
      forall m ensures m in msgs <==> m == msgs[0] || m in msgs[1..] { assert msgs == [msgs[0]] + msgs[1..]; }
    } else if msgs != [] {
      assert msgs[0] in msgs;
    }
  }

  /** The same for any chunks whose bytes are the first `k` of the stream: in the end all
      messages are there if and only if none was empty. */
  lemma {:induction false} ChannelDelivers(msgs: seq<Payload>, k: nat, chunks: seq<Bytes>)
    requires k <= |Stream(msgs)| && Concat(chunks) == Stream(msgs)[..k]
    ensures var r := FeedAll(Bleep, chunks);
      var j := Whole(msgs, k);
      && r.Parsed? && r.events == Events(msgs[..j]) && LeftOver(msgs, k, j, r.rest)
      && (k == |Stream(msgs)| ==> (r.events == Events(msgs) <==> NoneEmpty(msgs)))
  {
    hide FeedAll, Parse, Whole, Stream, Concat, Frame, LeftOver, NoneEmpty;
    IncrementalIsBatch(Bleep, chunks);
    ReceivedPrefix(msgs, k);
    WholeAll(msgs, k);
    assert msgs[..|msgs|] == msgs;
    assert |Events(msgs)| == |msgs|;
  }

  // ---------- a stream of Bitcoin frames ----------

  datatype BitcoinFrame = BitcoinFrame(command: Bytes, checksum: u32, payload: Bytes)

  /** A command of twelve bytes, and a payload whose length fits its field. */
  type Sendable = f: BitcoinFrame | |f.command| == 12 && |f.payload| < 0x1_0000_0000
    ghost witness BitcoinFrame(seq(12, i => 0), 0, [])

  function BitcoinBytes(f: Sendable): (s: Bytes)
    ensures |s| == BITCOIN_HEADER + |f.payload|
  {
    BITCOIN_MAGIC + f.command + ToLittle(|f.payload|) + ToLittle(f.checksum) + f.payload
  }

  function BitcoinStream(frames: seq<Sendable>): Bytes {
    if frames == [] then [] else BitcoinBytes(frames[0]) + BitcoinStream(frames[1..])
  }

  function BitcoinEvent(f: Sendable): Event {
    BitcoinMsg(f.command, f.checksum, f.payload)
  }

  function BitcoinEvents(frames: seq<Sendable>): (e: seq<Event>)
    ensures |e| == |frames| && forall i :: 0 <= i < |frames| ==> e[i] == BitcoinEvent(frames[i])
  {
    seq(|frames|, i requires 0 <= i < |frames| => BitcoinEvent(frames[i]))
  }

  /** The fields of a frame are where the receiver looks for them. */
  lemma {:induction false} BitcoinFields(f: Sendable, more: Bytes)
    ensures var s := BitcoinBytes(f) + more;
      && s[..4] == BITCOIN_MAGIC && s[4..16] == f.command && FromLittle(s[16..20]) == |f.payload|
      && FromLittle(s[20..24]) == f.checksum && s[24..24 + |f.payload|] == f.payload
  {
    var s := BitcoinBytes(f) + more;
    LittleRoundTrip(|f.payload|);
    LittleRoundTrip(f.checksum);
    hide FromLittle, ToLittle;
    assert s[16..20] == ToLittle(|f.payload|) && s[20..24] == ToLittle(f.checksum);
  }

  /** A frame is taken whole, whatever follows, an empty payload included. */
  lemma {:induction false} TakeBitcoinFrame(f: Sendable, more: Bytes)
    ensures Take(Bitcoin, BitcoinBytes(f) + more)
         == Taken(BitcoinMsg(f.command, f.checksum, f.payload), 24 + |f.payload|)
  {
    BitcoinFields(f, more);
    hide FromLittle, BitcoinBytes;
  }

  /** A frame that has not arrived whole is not taken. */
  lemma {:induction false} TakeBitcoinPartial(f: Sendable, k: nat)
    requires k < |BitcoinBytes(f)|
    ensures Take(Bitcoin, BitcoinBytes(f)[..k]) == Nothing
  {
    BitcoinFields(f, []);
    assert BitcoinBytes(f) + [] == BitcoinBytes(f);
    if k >= 20 { assert BitcoinBytes(f)[..k][16..20] == BitcoinBytes(f)[16..20]; }
    hide FromLittle, BitcoinBytes;
  }

  /** How many frames the first `k` bytes of a stream hold whole. */
  function WholeFrames(frames: seq<Sendable>, k: nat): (j: nat)
    ensures j <= |frames|
  {
    if frames == [] || k < |BitcoinBytes(frames[0])| then 0
    else 1 + WholeFrames(frames[1..], k - |BitcoinBytes(frames[0])|)
  }

  /** From the first `k` bytes of a stream of frames the receiver has exactly the whole
      ones, in order, and a proper prefix of the next. */
  lemma {:induction false} ReceivedFrames(frames: seq<Sendable>, k: nat)
    requires k <= |BitcoinStream(frames)|
    ensures var r, j := Parse(Bitcoin, BitcoinStream(frames)[..k]), WholeFrames(frames, k);
      && r.Parsed? && r.events == BitcoinEvents(frames[..j])
      && BitcoinStream(frames[..j]) + r.rest == BitcoinStream(frames)[..k]
      && if j == |frames| then r.rest == [] else r.rest < BitcoinBytes(frames[j])
  {
    hide Take, BitcoinBytes, BitcoinEvents;
    var s := BitcoinStream(frames)[..k];
    if frames == [] || k < |BitcoinBytes(frames[0])| {
      assert frames[..0] == [] && BitcoinStream([]) == [] && BitcoinEvents([]) == [];
      if frames == [] {
        NothingTaken(Bitcoin);
      } else {
        assert s == BitcoinBytes(frames[0])[..k];
        TakeBitcoinPartial(frames[0], k);
      }
    } else {
      var f, rest, n := frames[0], frames[1..], |BitcoinBytes(frames[0])|;
      var more := BitcoinStream(rest)[..k - n];
      assert s == BitcoinBytes(f) + more;
      ParseFrame(f, more);
      ReceivedFrames(rest, k - n);
      FramesNext(f, rest, WholeFrames(rest, k - n));
      assert frames == [f] + rest;
      hide Parse, BitcoinStream;
      Regrouped(BitcoinBytes(f), BitcoinStream(rest[..WholeFrames(rest, k - n)]), Parse(Bitcoin, more).rest);
    }
  }

  lemma {:induction false} ParseFrame(f: Sendable, more: Bytes)
    ensures Parse(Bitcoin, BitcoinBytes(f) + more) == Before([BitcoinEvent(f)], Parse(Bitcoin, more))
  {
    hide Take, BitcoinBytes;
    TakeBitcoinFrame(f, more);
    assert (BitcoinBytes(f) + more)[24 + |f.payload|..] == more;
  }

  lemma {:induction false} FramesNext(f: Sendable, rest: seq<Sendable>, j: nat)
    requires j <= |rest|
    ensures var frames := [f] + rest;
      && BitcoinEvents(frames[..j + 1]) == [BitcoinEvent(f)] + BitcoinEvents(rest[..j])
      && BitcoinStream(frames[..j + 1]) == BitcoinBytes(f) + BitcoinStream(rest[..j])
      && frames[1..] == rest
  {
    hide BitcoinBytes;
    var frames := [f] + rest;
    assert frames[..j + 1] == [f] + rest[..j] && frames[..j + 1][1..] == rest[..j];
  }

  lemma Regrouped(a: Bytes, b: Bytes, c: Bytes)
    ensures a + b + c == a + (b + c)
  {}

  /** The same for every chunking; with all bytes there, all frames are. */
  lemma {:induction false} FramesDelivered(frames: seq<Sendable>, k: nat, chunks: seq<Bytes>)
    requires k <= |BitcoinStream(frames)| && Concat(chunks) == BitcoinStream(frames)[..k]
    ensures var r, j := FeedAll(Bitcoin, chunks), WholeFrames(frames, k);
      && r.Parsed? && r.events == BitcoinEvents(frames[..j])
      && BitcoinStream(frames[..j]) + r.rest == BitcoinStream(frames)[..k]
      && (if j == |frames| then r.rest == [] else r.rest < BitcoinBytes(frames[j]))
      && (k == |BitcoinStream(frames)| ==> r.events == BitcoinEvents(frames))
  {
    hide FeedAll, Parse, BitcoinStream, Concat, BitcoinBytes, WholeFrames;
    IncrementalIsBatch(Bitcoin, chunks);
    ReceivedFrames(frames, k);
    if k == |BitcoinStream(frames)| { AllFrames(frames, k); }
    assert frames[..|frames|] == frames;
  }

  lemma {:induction false} AllFrames(frames: seq<Sendable>, k: nat)
    requires k == |BitcoinStream(frames)|
    ensures WholeFrames(frames, k) == |frames|
  {
    hide BitcoinBytes;
    if frames != [] { AllFrames(frames[1..], k - |BitcoinBytes(frames[0])|); }
  }

  /** The bytes of a message frame. */
  lemma {:induction false} FrameBytes()
    ensures Frame([0x68, 0x69])
         == [0x42, 0x4C, 0x45, 0x45, 0x50, 0x6D, 0x73, 0x67] + [0x02, 0x00, 0x00, 0x00] + [0x68, 0x69]
  {
    assert ToLittle(2) == [0x02, 0x00, 0x00, 0x00];
  }

  /** The bytes of a Bitcoin frame. */
  lemma {:induction false} BitcoinFrameBytes()
    ensures BitcoinBytes(BitcoinFrame([0x70, 0x69, 0x6E, 0x67, 0, 0, 0, 0, 0, 0, 0, 0], 0x0403_0201, [0x07, 0x09]))
         == [0xF9, 0xBE, 0xB4, 0xD9] + [0x70, 0x69, 0x6E, 0x67, 0, 0, 0, 0, 0, 0, 0, 0]
            + [0x02, 0x00, 0x00, 0x00] + [0x01, 0x02, 0x03, 0x04] + [0x07, 0x09]
  {
    assert ToLittle(2) == [0x02, 0x00, 0x00, 0x00];
    assert ToLittle(0x0403_0201) == [0x01, 0x02, 0x03, 0x04];
  }
}
