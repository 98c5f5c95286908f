/**
  The radio frame codec. A frame is a two-byte start mark, version, type, a four-byte
  sequence, a two-byte payload length, the payload and a checksum of everything between
  the mark and itself. `Scan` says byte by byte what a stream contains; `Reader` is the
  program's buffer-slicing loop, proved to find exactly that.
*/
module LoraFrames {
  import opened LoraCrc
  import opened LoraNumbers
  import opened Options

  const MARK_HIGH: Byte := 0xAA
  const MARK_LOW: Byte := 0x55
  const HEADER: nat := 10
  const MAX_PAYLOAD: nat := 200

  // ---------------------------------------------------------------- the checksum field

  function Word(high: Byte, low: Byte): Register {
    ((high as bv16) << 8) | (low as bv16)
  }

  function WordBytes(c: Register): (bytes: Bytes)
    ensures |bytes| == 2
  {
    [(c >> 8) as Byte, (c & 0xFF) as Byte]
  }

  lemma WordBytesTell(c: Register)
    ensures Word(WordBytes(c)[0], WordBytes(c)[1]) == c
  {
  }

  // ---------------------------------------------------------------- building

  predicate KnownHeader(version: Byte, kind: Byte, length: nat) {
    (version == 1 || version == 2) && (kind == 1 || kind == 2 || kind == 3) && 0 < length <= MAX_PAYLOAD
  }

  function Body(version: Byte, kind: Byte, sequence: nat, payload: Bytes): Bytes {
    [version, kind] + Digits(sequence, 4) + Digits(|payload|, 2) + payload
  }

  function Sealed(body: Bytes): Bytes {
    [MARK_HIGH, MARK_LOW] + body + WordBytes(Crc(body))
  }

  // A number that does not fit its field raises an exception.
  function BuildFrame(kind: Byte, sequence: nat, payload: Bytes, version: Byte): Option<Bytes> {
    if sequence >= Power(4) || |payload| >= Power(2) then None else Some(Sealed(Body(version, kind, sequence, payload)))
  }

  // ---------------------------------------------------------------- what a stream contains

  datatype Event =
    | Received(version: Byte, kind: Byte, sequence: nat, payload: Bytes)
    | BadChecksum(version: Byte, sequence: nat, length: nat)

  function Consumed(event: Event): nat {
    match event
    case Received(_, _, _, payload) => HEADER + |payload| + 2
    case BadChecksum(_, _, length) => length
  }

  function TotalConsumed(events: seq<Event>): nat {
    if events == [] then 0 else Consumed(events[0]) + TotalConsumed(events[1..])
  }

  datatype Scanned = Scanned(events: seq<Event>, junk: nat, rest: Bytes)

  predicate Marked(buffer: Bytes) {
    |buffer| >= 2 && buffer[0] == MARK_HIGH && buffer[1] == MARK_LOW
  }

  function PayloadLength(buffer: Bytes): nat
    requires |buffer| >= 12
  {
    Number(buffer[8..10])
  }

  predicate GoodHeader(buffer: Bytes)
    requires |buffer| >= 12
  {
    KnownHeader(buffer[2], buffer[3], PayloadLength(buffer))
  }

  function FrameLength(buffer: Bytes): nat
    requires |buffer| >= 12
  {
    HEADER + PayloadLength(buffer) + 2
  }

  function EventOf(frame: Bytes): Event
    requires |frame| >= 12
  {
    var n := |frame|;
    var sequence := Number(frame[4..8]);
    if Word(frame[n - 2], frame[n - 1]) != Crc(frame[2..n - 2]) then BadChecksum(frame[2], sequence, n)
    else Received(frame[2], frame[3], sequence, frame[HEADER..n - 2])
  }

  function Skipped(n: nat, s: Scanned): Scanned {
    s.(junk := n + s.junk)
  }

  function Told(event: Event, s: Scanned): Scanned {
    s.(events := [event] + s.events)
  }

  datatype Move = Wait | Drop(count: nat) | Take(count: nat)

  // One decision: drop a byte, drop a mark whose header is impossible, take a frame, or wait for more.
  function NextMove(buffer: Bytes): (move: Move)
    ensures move.Drop? ==> 0 < move.count <= |buffer|
    ensures move.Take? ==> 12 < move.count <= |buffer|
  {
    if |buffer| < 2 then Wait
    else if !Marked(buffer) then Drop(1)
    else if |buffer| < 12 then Wait
    else if !GoodHeader(buffer) then Drop(2)
    else if |buffer| < FrameLength(buffer) then Wait
    else Take(FrameLength(buffer))
  }

  function Scan(buffer: Bytes): Scanned
    decreases |buffer|
  {
    match NextMove(buffer)
    case Wait => Scanned([], 0, buffer)
    case Drop(n) => Skipped(n, Scan(buffer[n..]))
    case Take(n) => Told(EventOf(buffer[..n]), Scan(buffer[n..]))
  }

  // ---------------------------------------------------------------- the stream may be cut anywhere

  // What is known after scanning, once more bytes have arrived behind the rest.
  function Receive(s: Scanned, d: Bytes): Scanned {
    var more := Scan(s.rest + d);
    Scanned(s.events + more.events, s.junk + more.junk, more.rest)
  }

  function Flatten(chunks: seq<Bytes>): Bytes {
    if chunks == [] then [] else Flatten(chunks[..|chunks| - 1]) + chunks[|chunks| - 1]
  }

  function ReceiveAll(chunks: seq<Bytes>): Scanned {
    if chunks == [] then Scanned([], 0, []) else Receive(ReceiveAll(chunks[..|chunks| - 1]), chunks[|chunks| - 1])
  }

  lemma MoveStands(buffer: Bytes, d: Bytes)
    ensures NextMove(buffer).Wait? || NextMove(buffer + d) == NextMove(buffer)
  {
    hide Number;
    if |buffer| >= 12 { assert (buffer + d)[8..10] == buffer[8..10]; }
  }

  lemma SkippedReceives(n: nat, s: Scanned, d: Bytes)
    ensures Receive(Skipped(n, s), d) == Skipped(n, Receive(s, d))
  {
    hide Scan;
  }

  lemma ToldReceives(event: Event, s: Scanned, d: Bytes)
    ensures Receive(Told(event, s), d) == Told(event, Receive(s, d))
  {
    hide Scan;
    assert [event] + s.events + Scan(s.rest + d).events == [event] + (s.events + Scan(s.rest + d).events);
  }

  lemma {:induction false} ScanResumes(buffer: Bytes, d: Bytes)
    ensures Scan(buffer + d) == Receive(Scan(buffer), d)
    decreases |buffer|
  {
    hide NextMove, Receive, Skipped, Told, EventOf;
    MoveStands(buffer, d);
    var move := NextMove(buffer);
    if move.Wait? {
      assert Receive(Scan(buffer), d) == Scan(buffer + d) by { ReceiveWaiting(buffer, d); }
    } else {
      var n := move.count;
      ScanResumes(buffer[n..], d);
      assert (buffer + d)[n..] == buffer[n..] + d && (buffer + d)[..n] == buffer[..n];
      if move.Drop? {
        SkippedReceives(n, Scan(buffer[n..]), d);
      } else { ToldReceives(EventOf(buffer[..n]), Scan(buffer[n..]), d);
      }
    }
  }

  lemma ReceiveWaiting(buffer: Bytes, d: Bytes)
    ensures Receive(Scanned([], 0, buffer), d) == Scan(buffer + d)
  {
    hide Scan;
  }

  /** However a stream is cut into chunks, the events, the junk count and the rest are those of the whole stream. */
  lemma {:induction false} ChunksDoNotMatter(chunks: seq<Bytes>)
    ensures ReceiveAll(chunks) == Scan(Flatten(chunks))
  {
    hide Scan;
    if chunks == [] {
      assert Scan([]) == Scanned([], 0, []) by { ScanNothing(); }
    } else {
      ChunksDoNotMatter(chunks[..|chunks| - 1]);
      ScanResumes(Flatten(chunks[..|chunks| - 1]), chunks[|chunks| - 1]);
    }
  }

  lemma ScanNothing()
    ensures Scan([]) == Scanned([], 0, [])
  {
  }

  /** Every received byte is junk, part of a frame, or still in the buffer. */
  lemma {:induction false} EveryByteIsAccounted(stream: Bytes)
    ensures var s := Scan(stream); |stream| == s.junk + TotalConsumed(s.events) + |s.rest|
    decreases |stream|
  {
    hide NextMove, EventOf;
    var move := NextMove(stream);
    if !move.Wait? { EveryByteIsAccounted(stream[move.count..]); }
    if move.Take? {
      var n, tail := move.count, Scan(stream[move.count..]);
      EventConsumes(stream[..n]);
      assert ([EventOf(stream[..n])] + tail.events)[1..] == tail.events;
    }
  }

  lemma EventConsumes(frame: Bytes)
    requires |frame| >= 12
    ensures Consumed(EventOf(frame)) == |frame|
  {
    hide Crc, Word, Number;
  }

  // ---------------------------------------------------------------- built frames come back

  datatype Message = Message(kind: Byte, sequence: nat, payload: Bytes, version: Byte)

  // What the receiver recognizes: a known version and type, a payload of 1 to 200 bytes, a 32-bit sequence.
  predicate Sendable(m: Message) {
    KnownHeader(m.version, m.kind, |m.payload|) && m.sequence < Power(4)
  }

  function Encoded(m: Message): Bytes {
    Sealed(Body(m.version, m.kind, m.sequence, m.payload))
  }

  function Decoded(m: Message): Event {
    Received(m.version, m.kind, m.sequence, m.payload)
  }

  function EncodedAll(messages: seq<Message>): Bytes {
    if messages == [] then [] else Encoded(messages[0]) + EncodedAll(messages[1..])
  }

  function DecodedAll(messages: seq<Message>): seq<Event> {
    if messages == [] then [] else [Decoded(messages[0])] + DecodedAll(messages[1..])
  }

  function Build(m: Message): Option<Bytes> {
    BuildFrame(m.kind, m.sequence, m.payload, m.version)
  }

  // A stream of frames, as the program builds them one after the other.
  function BuildAll(messages: seq<Message>): Option<Bytes> {
    if messages == [] then Some([])
    else
      match (Build(messages[0]), BuildAll(messages[1..]))
      case (Some(frame), Some(rest)) => Some(frame + rest)
      case _ => None
  }

  lemma {:induction false} SendableIsBuilt(messages: seq<Message>)
    requires forall i :: 0 <= i < |messages| ==> Sendable(messages[i])
    ensures BuildAll(messages) == Some(EncodedAll(messages))
  {
    if messages != [] {
      SendableIsBuilt(messages[1..]);
      assert Sendable(messages[0]) && Power(2) == 65536;
    }
  }

  // Where the fields of a frame lie.
  lemma FrameLayout(m: Message)
    ensures var f := Encoded(m);
            |f| == HEADER + |m.payload| + 2 && Marked(f) && f[2] == m.version && f[3] == m.kind &&
            f[4..8] == Digits(m.sequence, 4) && f[8..10] == Digits(|m.payload|, 2) &&
            f[HEADER..|f| - 2] == m.payload && f[2..|f| - 2] == Body(m.version, m.kind, m.sequence, m.payload) &&
            f[|f| - 2..] == WordBytes(Crc(f[2..|f| - 2]))
  {
    hide Digits, Crc, WordBytes;
    var body := Body(m.version, m.kind, m.sequence, m.payload);
    var f := Encoded(m);
    assert f[2..|f| - 2] == body;
  }

  lemma FourBytes(bytes: Bytes)
    requires |bytes| == 4
    ensures Number(bytes) ==
            0x100_0000 * bytes[0] as nat + 0x1_0000 * bytes[1] as nat + 0x100 * bytes[2] as nat + bytes[3] as nat
  {
    assert bytes[..3] == [bytes[0], bytes[1], bytes[2]];
    HighByteFirst(bytes[..2]);
    assert bytes[..3][..2] == bytes[..2];
  }

  lemma HighByteFirst(bytes: Bytes)
    requires |bytes| == 2
    ensures Number(bytes) == 0x100 * bytes[0] as nat + bytes[1] as nat
  {
    var high := bytes[..1];
    assert |high| == 1 && high[0] == bytes[0] && high[..0] == [];
    assert Number(high) == 256 * Number(high[..0]) + high[0] as nat;
    assert Number(bytes) == 256 * Number(high) + bytes[1] as nat;
  }

  /**
    A built frame byte by byte: AA 55, version, type, the sequence and the payload length with the
    high byte first, the payload, and the checksum of what lies in between, high byte first.
  */
  lemma FrameIsLaidOut(m: Message, frame: Bytes)
    requires Build(m) == Some(frame)
    ensures var n := |frame|;
            n == 10 + |m.payload| + 2 && frame[0] == 0xAA && frame[1] == 0x55 &&
            frame[2] == m.version && frame[3] == m.kind &&
            m.sequence == 0x100_0000 * frame[4] as nat + 0x1_0000 * frame[5] as nat + 0x100 * frame[6] as nat
                          + frame[7] as nat &&
            |m.payload| == 0x100 * frame[8] as nat + frame[9] as nat && frame[10..n - 2] == m.payload &&
            frame[n - 2] == (Crc(frame[2..n - 2]) >> 8) as Byte && frame[n - 1] == (Crc(frame[2..n - 2]) & 0xFF) as Byte
  {
    assert frame == Encoded(m) && Power(4) == 0x1_0000_0000 && Power(2) == 0x1_0000;
    FrameLayout(m);
    hide Encoded, Build, Crc, Digits, Number, Power;
    DigitsTellNumber(m.sequence, 4);
    DigitsTellNumber(|m.payload|, 2);
    FourBytes(frame[4..8]);
    HighByteFirst(frame[8..10]);
    assert frame[|frame| - 2..][0] == frame[|frame| - 2] && frame[|frame| - 2..][1] == frame[|frame| - 1];
  }

  /** It does not build exactly when a number does not fit its field. */
  lemma UnbuildableExactly(m: Message)
    ensures Build(m) == None <==> m.sequence >= 0x1_0000_0000 || |m.payload| >= 0x1_0000
  {
    assert Power(4) == 0x1_0000_0000 && Power(2) == 0x1_0000;
  }

  lemma SealHolds(frame: Bytes)
    requires |frame| >= 12 && frame[|frame| - 2..] == WordBytes(Crc(frame[2..|frame| - 2]))
    ensures Word(frame[|frame| - 2], frame[|frame| - 1]) == Crc(frame[2..|frame| - 2])
  {
    hide Crc, Word, WordBytes;
    var n := |frame|;
    assert frame[n - 2..][0] == frame[n - 2] && frame[n - 2..][1] == frame[n - 1];
    WordBytesTell(Crc(frame[2..n - 2]));
  }

  lemma EncodedEvent(m: Message)
    requires Sendable(m)
    ensures |Encoded(m)| > 12 && EventOf(Encoded(m)) == Decoded(m)
  {
    hide Crc, Word, WordBytes, Digits, Number, Encoded;
    FrameLayout(m);
    SealHolds(Encoded(m));
    DigitsTellNumber(m.sequence, 4);
  }

  // A whole frame with a possible header is taken, whatever follows it.
  lemma FrameIsTaken(frame: Bytes, tail: Bytes, length: nat)
    requires length <= MAX_PAYLOAD && |frame| == HEADER + length + 2 && Marked(frame)
    requires frame[8..10] == Digits(length, 2) && KnownHeader(frame[2], frame[3], length)
    ensures Scan(frame + tail) == Told(EventOf(frame), Scan(tail))
  {
    hide EventOf, Digits, Number, KnownHeader;
    var buffer := frame + tail;
    assert buffer[8..10] == frame[8..10] && buffer[..|frame|] == frame && buffer[|frame|..] == tail;
    assert length < Power(2) by { assert Power(2) == 65536; }
    DigitsTellNumber(length, 2);
    assert NextMove(buffer) == Take(|frame|);
  }

  lemma EncodedIsTaken(m: Message, tail: Bytes)
    requires Sendable(m)
    ensures Scan(Encoded(m) + tail) == Told(Decoded(m), Scan(tail))
  {
    hide Scan, EventOf, Digits, Encoded, Crc, WordBytes;
    FrameLayout(m);
    FrameIsTaken(Encoded(m), tail, |m.payload|);
    EncodedEvent(m);
  }

  /** A stream of built frames decodes to exactly their messages, without junk, and then goes on with what follows. */
  lemma {:induction false} FramesComeBack(messages: seq<Message>, tail: Bytes)
    requires forall i :: 0 <= i < |messages| ==> Sendable(messages[i])
    ensures var s := Scan(tail);
            Scan(EncodedAll(messages) + tail) == Scanned(DecodedAll(messages) + s.events, s.junk, s.rest)
  {
    hide Scan, Sendable;
    if messages == [] {
      assert [] + tail == tail;
      assert DecodedAll(messages) + Scan(tail).events == Scan(tail).events;
    } else {
      var first, others := Encoded(messages[0]), EncodedAll(messages[1..]);
      FramesComeBack(messages[1..], tail);
      EncodedIsTaken(messages[0], others + tail);
      assert EncodedAll(messages) + tail == first + (others + tail);
      assert DecodedAll(messages) + Scan(tail).events
          == [Decoded(messages[0])] + (DecodedAll(messages[1..]) + Scan(tail).events);
    }
  }

  /** Sendable messages can be built, and the stream of their frames decodes to exactly them and leaves nothing. */
  lemma {:induction false} RoundTrip(messages: seq<Message>)
    requires forall i :: 0 <= i < |messages| ==> Sendable(messages[i])
    ensures BuildAll(messages) == Some(EncodedAll(messages))
    ensures Scan(BuildAll(messages).value) == Scanned(DecodedAll(messages), 0, [])
  {
    hide Scan, BuildAll;
    SendableIsBuilt(messages);
    FramesComeBack(messages, []);
    ScanNothing();
    assert EncodedAll(messages) + [] == EncodedAll(messages);
    assert DecodedAll(messages) + [] == DecodedAll(messages);
  }

  lemma UnknownHeaderIsDropped(m: Message, tail: Bytes)
    requires |m.payload| < Power(2) && !KnownHeader(m.version, m.kind, |m.payload|)
    ensures Scan(Encoded(m) + tail) == Skipped(2, Scan((Encoded(m) + tail)[2..]))
  {
    hide EventOf, Digits, Number, KnownHeader, Encoded, Crc, WordBytes;
    FrameLayout(m);
    var buffer := Encoded(m) + tail;
    assert buffer[8..10] == Encoded(m)[8..10];
    DigitsTellNumber(|m.payload|, 2);
    assert NextMove(buffer) == Drop(2);
  }

  // What is received always has a known header.
  predicate KnownEvent(event: Event) {
    event.Received? ==> KnownHeader(event.version, event.kind, |event.payload|)
  }

  lemma TakenIsKnown(buffer: Bytes)
    requires NextMove(buffer).Take?
    ensures KnownEvent(EventOf(buffer[..NextMove(buffer).count]))
  {
    hide Crc, Word, Number;
    var f := buffer[..NextMove(buffer).count];
    assert f[2] == buffer[2] && f[3] == buffer[3];
  }

  lemma {:induction false} ReceivedIsKnown(stream: Bytes)
    ensures forall event :: event in Scan(stream).events ==> KnownEvent(event)
    decreases |stream|
  {
    hide NextMove, EventOf, KnownEvent;
    var move := NextMove(stream);
    if !move.Wait? { ReceivedIsKnown(stream[move.count..]); }
    if move.Take? { TakenIsKnown(stream); }
  }

  /**
    A frame that was built comes back as its message, with everything behind it read as if it
    came first, exactly when its header is known; otherwise the message is never received, from
    whatever stream.
  */
  lemma {:induction false} BuiltFrameIsReceivedIff(m: Message, frame: Bytes, tail: Bytes)
    requires Build(m) == Some(frame)
    ensures Scan(frame + tail) == Told(Decoded(m), Scan(tail)) <==>
            (m.version == 1 || m.version == 2) && (m.kind == 1 || m.kind == 2 || m.kind == 3) && 0 < |m.payload| <= 200
    ensures !KnownHeader(m.version, m.kind, |m.payload|) ==> forall stream :: Decoded(m) !in Scan(stream).events
  {
    assert frame == Encoded(m) && m.sequence < Power(4) && |m.payload| < Power(2);
    assert KnownHeader(m.version, m.kind, |m.payload|) <==>
           (m.version == 1 || m.version == 2) && (m.kind == 1 || m.kind == 2 || m.kind == 3) && 0 < |m.payload| <= 200;
    hide Scan, Encoded, Power, KnownHeader, Build;
    if KnownHeader(m.version, m.kind, |m.payload|) {
      EncodedIsTaken(m, tail);
    } else {
      forall stream ensures Decoded(m) !in Scan(stream).events { ReceivedIsKnown(stream); }
      assert Decoded(m) in Told(Decoded(m), Scan(tail)).events;
    }
  }

  /**
    The two bytes of the mark of such a frame are junk; so is all of it, up to a last byte that
    may begin the next mark, when no later position in it holds a mark.
  */
  lemma {:induction false} UnknownHeaderIsJunk(m: Message, frame: Bytes, tail: Bytes)
    requires Build(m) == Some(frame) && !KnownHeader(m.version, m.kind, |m.payload|)
    ensures Scan(frame + tail) == Skipped(2, Scan((frame + tail)[2..]))
    ensures (forall k :: 2 <= k < |frame| ==> !MarkedAt(frame + tail, k)) ==>
      var n := if tail == [] then |frame| - 1 else |frame|;
      Scan(frame + tail) == Skipped(n, Scan((frame + tail)[n..]))
  {
    assert frame == Encoded(m) && |m.payload| < Power(2);
    hide Scan, Encoded, Power, KnownHeader, Build, MarkedAt;
    UnknownHeaderIsDropped(m, tail);
    assert |frame| >= 12 by { FrameLayout(m); }
    if forall k :: 2 <= k < |frame| ==> !MarkedAt(frame + tail, k) {
      RestIsJunk(frame + tail, if tail == [] then |frame| - 1 else |frame|);
    }
  }

  lemma MarkBehind(buffer: Bytes, n: nat, k: nat)
    requires n <= |buffer|
    ensures MarkedAt(buffer[n..], k) <==> MarkedAt(buffer, n + k)
  {
  }

  lemma RestIsJunk(buffer: Bytes, n: nat)
    requires 2 <= n < |buffer| && Scan(buffer) == Skipped(2, Scan(buffer[2..]))
    requires forall k :: 2 <= k < n ==> !MarkedAt(buffer, k)
    ensures Scan(buffer) == Skipped(n, Scan(buffer[n..]))
  {
    hide Scan, MarkedAt;
    forall k | 0 <= k < n - 2 ensures !MarkedAt(buffer[2..], k) { MarkBehind(buffer, 2, k); }
    JunkIsDropped(buffer[2..], n - 2);
    assert buffer[2..][n - 2..] == buffer[n..];
  }

  // ---------------------------------------------------------------- a damaged frame is lost alone

  // Damage within one byte or two adjacent ones that leaves the mark, version, type and length alone.
  predicate Damaged(frame: Bytes, damaged: Bytes, at: nat) {
    DiffersAt(frame, damaged, at) && |frame| >= 12 && damaged[..4] == frame[..4] && damaged[8..10] == frame[8..10]
  }

  lemma WordIsSum(high: Byte, low: Byte)
    ensures Word(high, low) == ((high as bv16) << 8) ^ (low as bv16)
  {
  }

  lemma SumOfItself(a: Register, b: Register)
    ensures ((a ^ b) ^ a) ^ b == 0
  {
  }

  lemma {:induction false} ShiftsOfZero(n: nat)
    ensures Shifts(0, n) == 0
  {
    if n > 0 { ShiftsOfZero(n - 1); }
  }

  lemma MatchingWord(c: Register, high: Byte, low: Byte)
    requires c == Word(high, low)
    ensures Feed(Feed(c, high), low) == 0
  {
    hide Word, Feed, Shifts;
    WordIsSum(high, low);
    SumOfItself((high as bv16) << 8, low as bv16);
    TwoBytes(c, high, low);
    ShiftsOfZero(16);
  }

  lemma ZeroMatches(c: Register, high: Byte, low: Byte)
    requires Feed(Feed(c, high), low) == 0
    ensures c == Word(high, low)
  {
    hide Word, Feed, WordBytes;
    var own := WordBytes(c);
    WordBytesTell(c);
    MatchingWord(c, own[0], own[1]);
    if own[0] != high || own[1] != low { PairIsDetected(c, own[0], own[1], high, low); }
  }

  // The checksum of a frame matches exactly when the checksum over everything behind the mark is zero.
  lemma SealIsResidue(frame: Bytes)
    requires |frame| >= 12
    ensures Word(frame[|frame| - 2], frame[|frame| - 1]) == Crc(frame[2..|frame| - 2]) <==> Crc(frame[2..]) == 0
  {
    hide Word, Feed;
    var n := |frame|;
    var c, high, low := Crc(frame[2..n - 2]), frame[n - 2], frame[n - 1];
    assert frame[2..] == frame[2..n - 2] + frame[n - 2..];
    CrcSplit(INITIAL, frame[2..n - 2], frame[n - 2..]);
    CrcOfTwo(c, frame[n - 2..]);
    if c == Word(high, low) { MatchingWord(c, high, low); }
    if Feed(Feed(c, high), low) == 0 { ZeroMatches(c, high, low); }
  }

  lemma DamageIsNoticed(frame: Bytes, damaged: Bytes, at: nat)
    requires Damaged(frame, damaged, at)
    requires Word(frame[|frame| - 2], frame[|frame| - 1]) == Crc(frame[2..|frame| - 2])
    ensures Word(damaged[|frame| - 2], damaged[|frame| - 1]) != Crc(damaged[2..|frame| - 2])
  {
    hide Crc, Word;
    SealIsResidue(frame);
    SealIsResidue(damaged);
    assert damaged[..4][..2] == frame[..4][..2];
    assert frame[..2] + frame[2..] == frame && damaged[..2] + damaged[2..] == damaged;
    assert at > 1 || at == 1 by { FirstByteStays(frame, damaged, at); }
    BurstIsDetected(frame[2..], damaged[2..], if at >= 2 then at - 2 else 0);
  }

  lemma FirstByteStays(frame: Bytes, damaged: Bytes, at: nat)
    requires Damaged(frame, damaged, at)
    ensures at > 0
  {
  }

  /**
    Damage to one byte, or two adjacent ones, of the sequence, the payload or the checksum of
    one frame in a stream of built frames loses exactly that frame: it is reported as a bad
    checksum, and every other frame comes back.
  */
  lemma {:induction false} DamageLosesOneFrame(before: seq<Message>, m: Message, after: seq<Message>,
                                                   damaged: Bytes, at: nat)
    requires forall i :: 0 <= i < |before| ==> Sendable(before[i])
    requires forall i :: 0 <= i < |after| ==> Sendable(after[i])
    requires Sendable(m) && Damaged(Encoded(m), damaged, at)
    ensures var lost := BadChecksum(m.version, Number(damaged[4..8]), |Encoded(m)|);
            Scan(EncodedAll(before) + damaged + EncodedAll(after)) ==
              Scanned(DecodedAll(before) + [lost] + DecodedAll(after), 0, [])
  {
    hide Scan, Sendable, Encoded, Decoded, Damaged, EncodedAll, DecodedAll, EventOf, Number;
    DamagedEvent(m, damaged, at);
    var rest := EncodedAll(after);
    assert Scan(rest) == Scanned(DecodedAll(after), 0, []) by { RoundTrip(after); }
    DamagedIsTaken(m, damaged, at, rest);
    FramesComeBack(before, damaged + rest);
    assert EncodedAll(before) + damaged + rest == EncodedAll(before) + (damaged + rest);
    var lost := BadChecksum(m.version, Number(damaged[4..8]), |Encoded(m)|);
    assert DecodedAll(before) + ([lost] + DecodedAll(after)) == DecodedAll(before) + [lost] + DecodedAll(after);
  }

  lemma DamagedIsTaken(m: Message, damaged: Bytes, at: nat, tail: Bytes)
    requires Sendable(m) && Damaged(Encoded(m), damaged, at)
    ensures |damaged| >= 12 && Scan(damaged + tail) == Told(EventOf(damaged), Scan(tail))
  {
    hide Scan, EventOf, Digits, Encoded, Crc, WordBytes, KnownHeader;
    FrameLayout(m);
    var f := Encoded(m);
    assert damaged[0] == damaged[..4][0] && damaged[1] == damaged[..4][1] && damaged[2] == damaged[..4][2]
        && damaged[3] == damaged[..4][3];
    assert f[0] == f[..4][0] && f[1] == f[..4][1] && f[2] == f[..4][2] && f[3] == f[..4][3];
    assert KnownHeader(m.version, m.kind, |m.payload|) && |m.payload| <= MAX_PAYLOAD by { PayloadFits(m); }
    FrameIsTaken(damaged, tail, |m.payload|);
  }

  lemma PayloadFits(m: Message)
    requires Sendable(m)
    ensures KnownHeader(m.version, m.kind, |m.payload|) && |m.payload| <= MAX_PAYLOAD
  {
  }

  lemma DamagedEvent(m: Message, damaged: Bytes, at: nat)
    requires Damaged(Encoded(m), damaged, at)
    ensures |damaged| >= 12 && EventOf(damaged) == BadChecksum(m.version, Number(damaged[4..8]), |Encoded(m)|)
  {
    hide Digits, Encoded, Crc, WordBytes, Word, Number;
    FrameLayout(m);
    SealHolds(Encoded(m));
    DamageIsNoticed(Encoded(m), damaged, at);
    assert damaged[2] == damaged[..4][2] && Encoded(m)[2] == Encoded(m)[..4][2];
  }

  // ---------------------------------------------------------------- the receive loop

  function CountGood(events: seq<Event>): nat {
    if events == [] then 0 else CountGood(events[..|events| - 1]) + if events[|events| - 1].Received? then 1 else 0
  }

  predicate MarkedAt(buffer: Bytes, i: nat) {
    i + 1 < |buffer| && buffer[i] == MARK_HIGH && buffer[i + 1] == MARK_LOW
  }

  // Bytes that start no mark are dropped one by one; the loop drops them all at once.
  lemma {:induction false} JunkIsDropped(buffer: Bytes, i: nat)
    requires i < |buffer| && forall k :: 0 <= k < i ==> !MarkedAt(buffer, k)
    ensures Scan(buffer) == Skipped(i, Scan(buffer[i..]))
    decreases i
  {
    if i > 0 {
      assert !MarkedAt(buffer, 0);
      forall k | 0 <= k < i - 1 ensures !MarkedAt(buffer[1..], k) { MarkBehind(buffer, 1, k); }
      JunkIsDropped(buffer[1..], i - 1);
      assert buffer[1..][i - 1..] == buffer[i..];
      FirstIsDropped(buffer);
    } else {
      assert buffer[0..] == buffer;
    }
  }

  lemma FirstIsDropped(buffer: Bytes)
    requires |buffer| > 1 && !MarkedAt(buffer, 0)
    ensures Scan(buffer) == Skipped(1, Scan(buffer[1..]))
  {
  }

  class Reader {
    var buffer: Bytes
    var log: seq<Event>
    var received: nat
    var junk: nat
    var badChecksums: nat
    var frames: nat

    // Nothing in the buffer can be decided yet, and the counters agree with the log.
    ghost predicate Valid()
      reads this
    {
      Scan(buffer) == Scanned([], 0, buffer) && Counted()
    }

    ghost predicate Counted()
      reads this
    {
      frames == CountGood(log) && badChecksums + frames == |log|
    }

    function State(): Scanned
      reads this
    {
      Scanned(log, junk, buffer)
    }

    constructor ()
      ensures Valid() && State() == Scanned([], 0, []) && received == 0
    {
      buffer, log := [], [];
      received, junk, badChecksums, frames := 0, 0, 0, 0;
    }

    method Find() returns (i: Option<nat>)
      ensures i.Some? ==> MarkedAt(buffer, i.value) && forall k :: 0 <= k < i.value ==> !MarkedAt(buffer, k)
      ensures i.None? ==> forall k :: 0 <= k < |buffer| ==> !MarkedAt(buffer, k)
    {
      var at := 0;
      while at < |buffer|
        invariant forall k :: 0 <= k < at ==> !MarkedAt(buffer, k)
      {
        if MarkedAt(buffer, at) {
          return Some(at);
        }
        at := at + 1;
      }
      i := None;
    }

    // Drops what lies before the first mark; tells whether there is one.
    method Align() returns (found: bool)
      modifies `buffer, `junk
      ensures Receive(Scanned(log, old(junk), []), old(buffer)) == Receive(Scanned(log, junk, []), buffer)
      ensures |buffer| <= |old(buffer)|
      ensures found ==> Marked(buffer)
      ensures !found ==> Scan(buffer) == Scanned([], 0, buffer)
    {
      hide Scan, Receive;
      var i := Find();
      var n := if i.Some? then i.value else if |buffer| > 1 then |buffer| - 1 else 0;
      if n > 0 {
        JunkIsDropped(buffer, n);
        DroppedLater(Scanned(log, junk, []), n, buffer);
        junk := junk + n;
        buffer := buffer[n..];
      }
      found := i.Some?;
      if !found { ShortWaits(buffer); }
    }

    // Takes the frame at the front of the buffer into the log.
    method TakeFrame(total: nat)
      requires 12 <= total <= |buffer| && Counted()
      modifies `buffer, `log, `badChecksums, `frames
      ensures buffer == old(buffer)[total..] && log == old(log) + [EventOf(old(buffer)[..total])] && Counted()
    {
      hide Crc, Word, Number;
      var f := buffer[..total];
      buffer := buffer[total..];
      var sequence := Number(f[4..8]);
      var want := Word(f[total - 2], f[total - 1]);
      var got := Crc16(f[2..total - 2]);
      var event;
      if want != got {
        badChecksums := badChecksums + 1;
        event := BadChecksum(f[2], sequence, total);
      } else {
        frames := frames + 1;
        event := Received(f[2], f[3], sequence, f[HEADER..total - 2]);
      }
      log := log + [event];
      assert log[..|log| - 1] == old(log);
    }

    /** One read: appends the bytes and decides everything that can be decided. */
    method ReceiveBytes(d: Bytes)
      requires Valid()
      modifies this
      ensures Valid() && State() == Receive(old(State()), d) && received == old(received) + |d|
    {
      hide Scan, EventOf, KnownHeader, Number;
      received := received + |d|;
      buffer := buffer + d;
      assert [] + buffer == old(buffer) + d;
      while true
        invariant Counted() && received == old(received) + |d|
        invariant Receive(Scanned(log, junk, []), buffer) == Receive(old(State()), d)
        decreases |buffer|
      {
        var found := Align();
        if !found || |buffer| < 12 {
          if found { assert Scan(buffer) == Scanned([], 0, buffer) by { WaitsFor(buffer); } }
          break;
        }
        var length := PayloadLength(buffer);
        if !KnownHeader(buffer[2], buffer[3], length) {
          HeaderIsDropped(buffer);
          DroppedLater(Scanned(log, junk, []), 2, buffer);
          junk := junk + 2;
          buffer := buffer[2..];
          continue;
        }
        var total := 12 + length;
        if |buffer| < total {
          assert Scan(buffer) == Scanned([], 0, buffer) by { WaitsFor(buffer); }
          break;
        }
        FrontIsTaken(buffer);
        TakenLater(Scanned(log, junk, []), total, buffer);
        TakeFrame(total);
      }
      NothingLeft(Scanned(log, junk, []), buffer);
    }
  }

  lemma ShortWaits(buffer: Bytes)
    requires |buffer| < 2
    ensures Scan(buffer) == Scanned([], 0, buffer)
  {
  }

  lemma WaitsFor(buffer: Bytes)
    requires Marked(buffer) && (|buffer| < 12 || (GoodHeader(buffer) && |buffer| < FrameLength(buffer)))
    ensures Scan(buffer) == Scanned([], 0, buffer)
  {
  }

  lemma HeaderIsDropped(buffer: Bytes)
    requires Marked(buffer) && |buffer| >= 12 && !GoodHeader(buffer)
    ensures Scan(buffer) == Skipped(2, Scan(buffer[2..]))
  {
  }

  lemma FrontIsTaken(buffer: Bytes)
    requires Marked(buffer) && |buffer| >= 12 && GoodHeader(buffer) && |buffer| >= FrameLength(buffer)
    ensures var n := FrameLength(buffer); Scan(buffer) == Told(EventOf(buffer[..n]), Scan(buffer[n..]))
  {
  }

  lemma ReceiveFrom(s: Scanned, buffer: Bytes)
    requires s.rest == []
    ensures var more := Scan(buffer);
            Receive(s, buffer) == Scanned(s.events + more.events, s.junk + more.junk, more.rest)
  {
    hide Scan;
    assert s.rest + buffer == buffer;
  }

  lemma Appended(events: seq<Event>, event: Event, more: seq<Event>)
    ensures events + ([event] + more) == events + [event] + more
  {
  }

  lemma DroppedLater(s: Scanned, n: nat, buffer: Bytes)
    requires s.rest == [] && n <= |buffer| && Scan(buffer) == Skipped(n, Scan(buffer[n..]))
    ensures Receive(s, buffer) == Receive(s.(junk := s.junk + n), buffer[n..])
  {
    hide Scan, Receive;
    ReceiveFrom(s, buffer);
    ReceiveFrom(s.(junk := s.junk + n), buffer[n..]);
  }

  lemma TakenLater(s: Scanned, n: nat, buffer: Bytes)
    requires s.rest == [] && 12 <= n <= |buffer| && Scan(buffer) == Told(EventOf(buffer[..n]), Scan(buffer[n..]))
    ensures Receive(s, buffer) == Receive(s.(events := s.events + [EventOf(buffer[..n])]), buffer[n..])
  {
    hide Scan, EventOf, Receive;
    var event := EventOf(buffer[..n]);
    ReceiveFrom(s, buffer);
    ReceiveFrom(s.(events := s.events + [event]), buffer[n..]);
    Appended(s.events, event, Scan(buffer[n..]).events);
  }

  lemma NothingLeft(s: Scanned, buffer: Bytes)
    requires s.rest == [] && Scan(buffer) == Scanned([], 0, buffer)
    ensures Receive(s, buffer) == s.(rest := buffer)
  {
    hide Scan;
    assert s.rest + buffer == buffer;
  }
}
