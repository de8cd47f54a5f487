/**
 The counter publisher and subscriber built on the XOR code: decimal payloads in blocks of four,
 each wrapped with its block number, sequence number and parity flag.
 */
module CounterFec {
  import opened Bytes
  import opened XorAlgebra
  import opened XorFec
  import XorDecoder

  const UINT64_SIZE: nat := 0x1_0000_0000_0000_0000
  const INT32_MAX: int := 0x7fff_ffff

  // ---------------------------------------------------------------- decimal text

  /** strconv.FormatUint(n, 10). */
  function Decimal(n: nat): (r: ByteSeq)
    ensures |r| >= 1
  {
    if n < 10 then [48 + n] else Decimal(n / 10) + [48 + n % 10]
  }

  function DigitsValue(s: ByteSeq): Option<nat> {
    if s == [] then Some(0)
    else
      var k := |s| - 1;
      var v := DigitsValue(s[..k]);
      if v.None? || s[k] < 48 || s[k] > 57 then None else Some(10 * v.value + (s[k] - 48))
  }

  /** parseCounterValue: strconv.ParseUint(s, 10, 64) on a non-empty payload. */
  function ParseCounter(s: ByteSeq): Option<nat> {
    if s == [] then None
    else
      var v := DigitsValue(s);
      if v.Some? && v.value < UINT64_SIZE then v else None
  }

  /** Digits are written in ASCII, the most significant first. */
  lemma DecimalSample()
    ensures Decimal(1207) == [0x31, 0x32, 0x30, 0x37]
  {
    assert Decimal(1) == [0x31];
    assert Decimal(12) == [0x31, 0x32];
    assert Decimal(120) == [0x31, 0x32, 0x30];
  }

  /** Exactly texts of digits have a value. */
  lemma {:induction false} OnlyDigitsParse(s: ByteSeq)
    ensures DigitsValue(s).Some? <==> forall i :: 0 <= i < |s| ==> 0x30 <= s[i] <= 0x39
    ensures ParseCounter(s).Some? ==> s != [] && DigitsValue(s) == ParseCounter(s)
  {
    if s != [] {
      OnlyDigitsParse(s[..|s| - 1]);
    }
  }

  lemma {:induction false} LeadingZero(s: ByteSeq)
    ensures DigitsValue([0x30] + s) == DigitsValue(s)
  {
    if s == [] {
      assert ([0x30] + s)[..0] == [];
    } else {
      var k := |s| - 1;
      LeadingZero(s[..k]);
      assert ([0x30] + s)[..|s|] == [0x30] + s[..k];
    }
  }

  lemma {:induction false} DecimalDigits(n: nat)
    ensures DigitsValue(Decimal(n)) == Some(n)
  {
    if n < 10 {
      assert DigitsValue([48 + n][..0]) == Some(0);
    } else {
      var d := Decimal(n);
      assert d[..|d| - 1] == Decimal(n / 10);
      DecimalDigits(n / 10);
    }
  }

  /** A counter survives formatting and parsing as long as it fits the counter's 64 bits. */
  lemma DecimalParses(n: nat)
    ensures ParseCounter(Decimal(n)) == if n < UINT64_SIZE then Some(n) else None
  {
    DecimalDigits(n);
  }

  function Pow10(k: nat): nat {
    if k == 0 then 1 else 10 * Pow10(k - 1)
  }

  lemma {:induction false} DecimalLength(n: nat)
    ensures n < Pow10(|Decimal(n)|)
    ensures |Decimal(n)| > 1 ==> Pow10(|Decimal(n)| - 1) <= n
  {
    if n < 10 {
      assert Pow10(1) == 10;
    } else {
      DecimalLength(n / 10);
      var d := |Decimal(n / 10)|;
      assert Pow10(d + 1) == 10 * Pow10(d);
      assert Pow10(d) == 10 * Pow10(d - 1);
      assert Pow10(0) == 1;
    }
  }

  lemma {:induction false} Pow10Grows(a: nat, b: nat)
    requires a <= b
    ensures Pow10(a) <= Pow10(b)
    decreases b
  {
    if a < b {
      Pow10Grows(a, b - 1);
    }
  }

  /** The two length bounds pin the length down. */
  lemma LengthBetween(n: nat, d: nat)
    requires d >= 1 && n < Pow10(d) && (d > 1 ==> Pow10(d - 1) <= n)
    ensures |Decimal(n)| == d
  {
    DecimalLength(n);
    var e := |Decimal(n)|;
    if e < d {
      Pow10Grows(e, d - 1);
      assert false;
    } else if e > d {
      Pow10Grows(d, e - 1);
      assert false;
    }
  }

  /** Four divides every power of ten from one hundred on. */
  lemma {:induction false} FourDivides(d: nat)
    requires d >= 2
    ensures Pow10(d) % 4 == 0
  {
  }

  lemma RoomForThree(b: nat, p: nat)
    requires 4 * b < p && p % 4 == 0
    ensures 4 * b + 3 < p
  {
  }

  /** Four consecutive counters starting at a multiple of four have equally long decimals, except 8 to 11. */
  lemma EqualLengths(b: nat, i: nat)
    requires i < 4 && b != 2
    ensures |Decimal(4 * b + i)| == |Decimal(4 * b)|
  {
    DecimalLength(4 * b);
    var d := |Decimal(4 * b)|;
    if d >= 2 {
      FourDivides(d);
      RoomForThree(b, Pow10(d));
    } else {
      assert Pow10(1) == 10;
    }
    LengthBetween(4 * b + i, d);
  }

  // ---------------------------------------------------------------- what a lost counter becomes

  function Counters(count: nat): (r: seq<ByteSeq>)
    ensures |r| == count
  {
    seq(count, i requires 0 <= i < count => Decimal(i))
  }

  /** Packet `s` of block `b`, as recovery would rebuild it from the other three and the parity. */
  function Rebuilt(count: nat, b: nat, s: int): ByteSeq
    requires b * 4 + 4 <= count && 1 <= s <= 4
  {
    var ps := BlockOf(Counters(count), 4, b);
    PadTo(ps[s - 1], MaxLen(ps))
  }

  /** A rebuilt counter is its own decimal text unless it is 8 or 9, which are followed by a NUL. */
  lemma RebuiltCounter(count: nat, b: nat, s: int)
    requires b * 4 + 4 <= count && 1 <= s <= 4
    ensures Rebuilt(count, b, s) == Decimal(4 * b + s - 1) + (if b == 2 && s <= 2 then [0] else [])
  {
    var ps := BlockOf(Counters(count), 4, b);
    assert forall i :: 0 <= i < 4 ==> ps[i] == Decimal(4 * b + i);
    if b != 2 {
      forall i | 0 <= i < 4
        ensures |ps[i]| == |Decimal(4 * b)|
      {
        EqualLengths(b, i);
      }
      assert MaxLen(ps) == |Decimal(4 * b)|;
    } else {
      forall i | 0 <= i < 4
        ensures |ps[i]| == if i < 2 then 1 else 2
      {
        assert Pow10(0) == 1 && Pow10(1) == 10 && Pow10(2) == 100;
        LengthBetween(8 + i, if i < 2 then 1 else 2);
      }
      assert MaxLen(ps) == 2 by {
        assert |ps[2]| == 2;
      }
    }
  }

  lemma NulDoesNotParse(s: ByteSeq)
    ensures ParseCounter(s + [0]) == None
  {
  }

  /** The exact condition under which a lost counter comes back readable, and then with its own value. */
  lemma RebuiltParses(count: nat, b: nat, s: int)
    requires b * 4 + 4 <= count && 1 <= s <= 4 && count <= UINT64_SIZE
    ensures ParseCounter(Rebuilt(count, b, s)) == if b == 2 && s <= 2 then None else Some(4 * b + s - 1)
  {
    RebuiltCounter(count, b, s);
    DecimalParses(4 * b + s - 1);
    var d := Decimal(4 * b + s - 1);
    NulDoesNotParse(d);
    assert d + [] == d;
  }

  /**
   Over every delivery run of the counter stream: a payload reported as recovered parses exactly
   when the lost counter is neither 8 nor 9, and then it parses to the lost counter.
   */
  lemma LostCounterRecovered(count: nat, events: seq<Event>, k: nat)
    requires count <= UINT64_SIZE && AllEmitted(Counters(count), 4, events)
    requires k < |events| && events[k].Deliver? && OutputAt(4, events, k).recovered
    ensures exists s ::
              LostCounter(events[k].packet.block, HeldAt(4, events, k), s, OutputAt(4, events, k).payload)
  {
    var b, held, out := events[k].packet.block, HeldAt(4, events, k), OutputAt(4, events, k).payload;
    RecoveredIsOriginal(Counters(count), 4, events, k);
    var s :| RecoversPacket(Counters(count), 4, b, held, s, out);
    RebuiltParses(count, b, s);
    assert out == Some(Rebuilt(count, b, s));
    assert LostCounter(b, held, s, out);
  }

  /** `payload` stands for the one counter of block `b` whose sequence number `s` is not held. */
  predicate LostCounter(b: int, held: set<int>, s: int, payload: Option<ByteSeq>) {
    && s in Slots(4) && held == Slots(4) - {s}
    && b >= 0 && payload.Some?
    && ParseCounter(payload.value) == if b == 2 && s <= 2 then None else Some(4 * b + s - 1)
  }

  // ---------------------------------------------------------------- metadata header

  /** byte(n >> k) for an arithmetic shift by `k` bits, `size` being two to the `k`. */
  function Shifted(n: int, size: nat): Byte
    requires size > 0
  {
    (n / size) % 256
  }

  function Word(n: int): ByteSeq {
    [Shifted(n, 0x100_0000), Shifted(n, 0x1_0000), Shifted(n, 0x100), Shifted(n, 1)]
  }

  function UnsignedWord(w: ByteSeq): int
    requires |w| == 4
  {
    0x100_0000 * (w[0] as int) + 0x1_0000 * (w[1] as int) + 0x100 * (w[2] as int) + (w[3] as int)
  }

  /** The signed 32-bit number spelled by four octets, most significant first. */
  function SignedWord(w: ByteSeq): int
    requires |w| == 4
  {
    var v := UnsignedWord(w);
    if v > INT32_MAX then v - 0x1_0000_0000 else v
  }

  method WrapWithMetadata(payload: ByteSeq, blockID: int, seqInBlock: int, isParity: bool) returns (r: ByteSeq)
    ensures r == Word(blockID) + Word(seqInBlock) + [if isParity then 1 else 0] + payload
  {
    hide Word, Shifted;
    var metadata := new Byte[9 + |payload|](_ => 0);
    WriteWord(metadata, 0, blockID);
    WriteWord(metadata, 4, seqInBlock);
    assert metadata[..4] == Word(blockID);
    if isParity {
      metadata[8] := 1;
    } else {
      metadata[8] := 0;
    }
    ghost var head := metadata[..9];
    assert head == Word(blockID) + Word(seqInBlock) + [if isParity then 1 else 0];
    for i := 0 to |payload|
      invariant metadata[..9] == head
      invariant metadata[9..9 + i] == payload[..i]
    {
      metadata[9 + i] := payload[i];
    }
    r := metadata[..];
    assert r == metadata[..9] + metadata[9..9 + |payload|];
  }

  method WriteWord(buf: array<Byte>, at: nat, n: int)
    requires at + 4 <= buf.Length
    modifies buf
    ensures buf[at..at + 4] == Word(n)
    ensures forall k :: 0 <= k < buf.Length && !(at <= k < at + 4) ==> buf[k] == old(buf[k])
  {
    buf[at] := Shifted(n, 0x100_0000);
    buf[at + 1] := Shifted(n, 0x1_0000);
    buf[at + 2] := Shifted(n, 0x100);
    buf[at + 3] := Shifted(n, 1);
  }

  function UnwrapMetadata(w: ByteSeq): Option<Packet> {
    if |w| < 9 then None
    else Some(Packet(SignedWord(w[..4]), SignedWord(w[4..8]), w[9..], w[8] == 1))
  }

  predicate Fits32(n: int) {
    -INT32_MAX - 1 <= n <= INT32_MAX
  }

  /** Words are written most significant octet first, in two's complement. */
  lemma WordSamples()
    ensures Word(0x0102_0304) == [0x01, 0x02, 0x03, 0x04]
    ensures Word(-1) == [0xff, 0xff, 0xff, 0xff]
  {
  }

  /** Only an octet 1 marks a parity packet, and nine octets are needed. */
  lemma ParityFlag(b: int, s: int, flag: Byte, payload: ByteSeq, short: ByteSeq)
    requires |short| < 9
    ensures
      var p := UnwrapMetadata(Word(b) + Word(s) + [flag] + payload);
      p.Some? && (p.value.isParity <==> flag == 0x01) && p.value.payload == payload
    ensures UnwrapMetadata(short) == None
  {
    var w := Word(b) + Word(s) + [flag] + payload;
    assert |Word(b)| == 4 && |Word(s)| == 4;
    hide Word;
    assert w[8] == flag && w[9..] == payload;
  }

  lemma WordRoundTrip(n: int)
    ensures SignedWord(Word(n)) == n <==> Fits32(n)
  {
    WordValue(n);
  }

  lemma WordValue(n: int)
    ensures UnsignedWord(Word(n)) == n % 0x1_0000_0000
  {
    var a := n / 0x100;
    var b := a / 0x100;
    var c := b / 0x100;
    assert n / 0x1_0000 == b && n / 0x100_0000 == c;
    assert n == 0x100 * (0x100 * (0x100 * c + b % 0x100) + a % 0x100) + n % 0x100;
    assert n % 0x1_0000_0000 == 0x100_0000 * (c % 0x100) + 0x1_0000 * (b % 0x100) + 0x100 * (a % 0x100) + n % 0x100;
  }

  /** The header gives a packet back exactly when both numbers fit 32 bits. */
  lemma MetadataRoundTrip(p: Packet)
    ensures
      var w := Word(p.block) + Word(p.seqNo) + [if p.isParity then 1 else 0] + p.payload;
      UnwrapMetadata(w) == Some(p) <==> Fits32(p.block) && Fits32(p.seqNo)
  {
    var w := Word(p.block) + Word(p.seqNo) + [if p.isParity then 1 else 0] + p.payload;
    assert w[..4] == Word(p.block) && w[4..8] == Word(p.seqNo) && w[9..] == p.payload;
    WordRoundTrip(p.block);
    WordRoundTrip(p.seqNo);
  }

  // ---------------------------------------------------------------- publisher and subscriber

  /** A datagram payload that unwraps to a packet of the counter stream. */
  predicate CarriesEmitted(w: ByteSeq, count: nat, isParity: bool) {
    var p := UnwrapMetadata(w);
    p.Some? && p.value.isParity == isParity && Emitted(Counters(count), 4, p.value)
  }

  class CounterPublisher {
    const encoder: Encoder
    var counter: nat
    var groupID: nat

    ghost predicate Valid()
      reads this, encoder
    {
      encoder.Valid() && encoder.blockSize == 4 && encoder.sent == Counters(counter) && groupID == counter
    }

    constructor ()
      ensures Valid() && counter == 0 && fresh(encoder)
    {
      encoder := new Encoder(4);
      counter, groupID := 0, 0;
    }

    /** Publishes the next counter, and the parity after every fourth one, as datagrams with their groups. */
    method PublishNext() returns (objects: seq<(nat, ByteSeq)>)
      requires Valid()
      modifies this, encoder
      ensures Valid() && counter == old(counter) + 1
      ensures |objects| == (if counter % 4 == 0 then 2 else 1)
      ensures objects[0].0 == old(counter) && (|objects| == 2 ==> objects[1].0 == old(counter) + 1000)
      ensures old(counter) / 4 <= INT32_MAX ==>
                UnwrapMetadata(objects[0].1) ==
                Some(Packet(old(counter) / 4, old(counter) % 4 + 1, Decimal(old(counter)), false))
      ensures old(counter) / 4 <= INT32_MAX && |objects| == 2 ==>
                UnwrapMetadata(objects[1].1) ==
                Some(Packet(old(counter) / 4, -1, ParityOf(BlockOf(Counters(counter), 4, old(counter) / 4)), true))
      ensures old(counter) / 4 <= INT32_MAX ==>
                forall i :: 0 <= i < |objects| ==> CarriesEmitted(objects[i].1, counter, i == 1)
    {
      hide UnwrapMetadata, Word, Counters, Decimal;
      var currentCounter, currentGroupID := counter, groupID;
      counter := counter + 1;
      groupID := groupID + 1;
      var payload := Decimal(currentCounter);
      var parity, blockID, seqID := encoder.TryEncode(payload);
      CountersGrow(currentCounter);
      EndsBlock(blockID, seqID, currentCounter);
      var data := WrapEmitted(Packet(blockID, seqID, payload, false), counter);
      objects := [(currentGroupID, data)];
      if parity.Some? {
        var wrapped := WrapEmitted(Packet(blockID, -1, parity.value, true), counter);
        objects := [(currentGroupID, data), (currentGroupID + 1000, wrapped)];
      }
    }
  }

  lemma EndsBlock(block: nat, seqNo: nat, count: nat)
    requires block * 4 + seqNo == count + 1 && 1 <= seqNo <= 4
    ensures block == count / 4 && seqNo == count % 4 + 1
    ensures (count + 1) % 4 == 0 <==> seqNo == 4
  {
  }

  lemma CountersGrow(n: nat)
    ensures Counters(n) + [Decimal(n)] == Counters(n + 1)
  {
  }

  method WrapEmitted(p: Packet, ghost count: nat) returns (w: ByteSeq)
    requires Emitted(Counters(count), 4, p)
    ensures Fits32(p.block) && Fits32(p.seqNo) ==> UnwrapMetadata(w) == Some(p) && CarriesEmitted(w, count, p.isParity)
  {
    w := WrapWithMetadata(p.payload, p.block, p.seqNo, p.isParity);
    MetadataRoundTrip(p);
  }

  /** A reported counter is the one delivered, or the single lost one of its block. */
  ghost predicate TrueCounter(events: seq<Event>, k: nat, v: nat)
    requires k < |events| && events[k].Deliver?
  {
    var b := events[k].packet.block;
    if OutputAt(4, events, k).recovered then
      exists s ::
        LostCounter(b, HeldAt(4, events, k), s, OutputAt(4, events, k).payload) && v == 4 * b + s - 1
    else v == 4 * b + events[k].packet.seqNo - 1
  }

  /** The delivery makes the decoder rebuild the first or second counter of block 2. */
  ghost predicate RecoversEightOrNine(events: seq<Event>, k: nat)
    requires k < |events| && events[k].Deliver?
  {
    && OutputAt(4, events, k).recovered && events[k].packet.block == 2
    && (HeldAt(4, events, k) == Slots(4) - {1} || HeldAt(4, events, k) == Slots(4) - {2})
  }

  class CounterSubscriber {
    const decoder: XorDecoder.Decoder
    var lastReceived: nat
    var totalReceived: nat
    var recoveredCount: nat

    ghost predicate Valid()
      reads this, decoder
    {
      decoder.Valid() && decoder.blockSize == 4
    }

    constructor ()
      ensures Valid() && fresh(decoder) && decoder.history == []
      ensures totalReceived == recoveredCount == 0
    {
      decoder := new XorDecoder.Decoder(4);
      lastReceived, totalReceived, recoveredCount := 0, 0, 0;
    }

    /**
     Feeds one datagram payload to the decoder. When everything delivered so far came from the
     publisher, a counter is recorded only if it is true, and the call fails exactly for a lost 8 or 9.
     */
    method ProcessObject(wrapped: ByteSeq, ghost count: nat) returns (ok: bool)
      requires Valid()
      modifies this, decoder
      ensures Valid()
      ensures UnwrapMetadata(wrapped).None? ==>
                !ok && decoder.history == old(decoder.history) && totalReceived == old(totalReceived)
      ensures UnwrapMetadata(wrapped).Some? ==>
                var k := |old(decoder.history)|;
                && k < |decoder.history|
                && decoder.history[..k + 1] == old(decoder.history) + [Deliver(UnwrapMetadata(wrapped).value)]
                && decoder.history[k + 1..] ==
                   (if totalReceived > old(totalReceived) && totalReceived % 10 == 0
                    then [Cleanup(UnwrapMetadata(wrapped).value.block)] else [])
                && totalReceived == old(totalReceived) +
                                    (if ok && OutputAt(4, decoder.history[..k + 1], k).payload.Some? then 1 else 0)
                && recoveredCount == old(recoveredCount) +
                                     (if ok && OutputAt(4, decoder.history[..k + 1], k).recovered then 1 else 0)
                && (count <= UINT64_SIZE && AllEmitted(Counters(count), 4, decoder.history[..k + 1]) ==>
                      && (totalReceived > old(totalReceived) ==> TrueCounter(decoder.history[..k + 1], k, lastReceived))
                      && (!ok <==> RecoversEightOrNine(decoder.history[..k + 1], k)))
    {
      hide OutputAt, TrueCounter, AllEmitted, ParseCounter, UnwrapMetadata, HeldAt;
      var p := UnwrapMetadata(wrapped);
      if p.None? {
        return false;
      }
      var packet := p.value;
      ghost var k := |decoder.history|;
      var decoded, wasRecovered := decoder.TryDecode(packet.block, packet.seqNo, packet.payload, packet.isParity);
      ghost var events := decoder.history;
      assert events[..k + 1] == events;
      UnrecoveredIsDelivered(4, events, k);
      if packet.isParity && decoded.None? {
        return true;
      }
      if decoded.Some? {
        var value := ParseCounter(decoded.value);
        ReportedCounter(events, k, count);
        if value.None? {
          return false;
        }
        lastReceived := value.value;
        totalReceived := totalReceived + 1;
        if wasRecovered {
          recoveredCount := recoveredCount + 1;
        }
        if totalReceived % 10 == 0 {
          decoder.CleanupOldBlocks(packet.block);
          assert decoder.history[..k + 1] == events;
        }
      }
      return true;
    }
  }

  lemma ReportedCounter(events: seq<Event>, k: nat, count: nat)
    requires k < |events| && events[k].Deliver? && OutputAt(4, events, k).payload.Some?
    ensures
      var v := ParseCounter(OutputAt(4, events, k).payload.value);
      count <= UINT64_SIZE && AllEmitted(Counters(count), 4, events) ==>
        && (v.Some? ==> TrueCounter(events, k, v.value))
        && (v.None? <==> RecoversEightOrNine(events, k))
  {
    if count <= UINT64_SIZE && AllEmitted(Counters(count), 4, events) {
      if OutputAt(4, events, k).recovered {
        LostCounterRecovered(count, events, k);
      } else {
        UnrecoveredIsDelivered(4, events, k);
        var p := events[k].packet;
        DecimalParses(p.block * 4 + p.seqNo - 1);
      }
    }
  }
}
