/**
 Forward error correction with one parity packet per block: the encoder that cuts a payload
 stream into blocks, and the value semantics of the decoder over arbitrary delivery runs.
 */
module XorFec {
  import opened Bytes
  import opened XorAlgebra

  datatype Block = Block(data: map<int, ByteSeq>, parity: ByteSeq, received: int, hasParity: bool, size: int)

  datatype Packet = Packet(block: int, seqNo: int, payload: ByteSeq, isParity: bool)

  datatype Event = Deliver(packet: Packet) | Cleanup(current: int)

  /** What TryDecode returns: a payload or nil, and whether it was recovered. */
  datatype Output = Output(payload: Option<ByteSeq>, recovered: bool)

  // ---------------------------------------------------------------- emitted packets

  /** The payloads of block `b` of a stream cut into blocks of `n`. */
  function BlockOf(stream: seq<ByteSeq>, n: nat, b: nat): (r: seq<ByteSeq>)
    requires b * n + n <= |stream|
    ensures |r| == n
  {
    assert 0 <= b * n;
    stream[b * n..b * n + n]
  }

  /** The packet is one that an encoder fed with `stream` (or a prefix of it) has produced. */
  predicate Emitted(stream: seq<ByteSeq>, n: nat, p: Packet) {
    && p.block >= 0
    && if p.isParity then
         p.block * n + n <= |stream| && p.payload == ParityOf(BlockOf(stream, n, p.block))
       else
         1 <= p.seqNo <= n && 0 <= p.block * n + p.seqNo - 1 < |stream| &&
         p.payload == stream[p.block * n + p.seqNo - 1]
  }

  /** Packets stay valid while the stream grows. */
  lemma EmittedMonotone(stream: seq<ByteSeq>, more: seq<ByteSeq>, n: nat, p: Packet)
    requires Emitted(stream, n, p)
    ensures Emitted(stream + more, n, p)
  {
    if p.isParity {
      assert BlockOf(stream + more, n, p.block) == BlockOf(stream, n, p.block);
    }
  }

  class Encoder {
    const blockSize: nat
    var blockID: nat
    var seqID: nat
    var buffer: seq<ByteSeq>
    ghost var sent: seq<ByteSeq>

    ghost predicate Valid()
      reads this
    {
      && blockSize >= 1
      && seqID < blockSize
      && |sent| == blockID * blockSize + seqID
      && 0 <= blockID * blockSize
      && buffer == sent[blockID * blockSize..]
    }

    constructor (blockSize: nat)
      requires blockSize >= 1
      ensures Valid() && sent == [] && this.blockSize == blockSize
    {
      this.blockSize := blockSize;
      blockID, seqID, buffer, sent := 0, 0, [], [];
    }

    /** Numbers the payload inside its block; the payload that fills a block also yields the parity. */
    method TryEncode(payload: ByteSeq) returns (parity: Option<ByteSeq>, block: nat, seqNo: nat)
      requires Valid()
      modifies this
      ensures Valid() && sent == old(sent) + [payload]
      ensures block * blockSize + seqNo == |sent| && 1 <= seqNo <= blockSize
      ensures Emitted(sent, blockSize, Packet(block, seqNo, payload, false))
      ensures parity.Some? <==> seqNo == blockSize
      ensures parity.Some? ==> Emitted(sent, blockSize, Packet(block, -1, parity.value, true))
    {
      buffer := buffer + [payload];
      seqID := seqID + 1;
      sent := sent + [payload];
      block, seqNo := blockID, seqID;
      assert buffer == sent[block * blockSize..];
      if seqID < blockSize {
        return None, block, seqNo;
      }
      parity := GenerateParity(buffer);
      assert buffer == BlockOf(sent, blockSize, block);
      Flush();
    }

    method Flush()
      requires blockSize >= 1 && seqID == blockSize && |sent| == blockID * blockSize + blockSize
      modifies this
      ensures Valid() && sent == old(sent)
    {
      NextBlock(blockID, blockSize);
      buffer := [];
      blockID := blockID + 1;
      seqID := 0;
    }
  }

  lemma NextBlock(b: nat, n: nat)
    ensures b * n + n == (b + 1) * n && 0 <= (b + 1) * n
  {
  }

  method GenerateParity(packets: seq<ByteSeq>) returns (parity: Option<ByteSeq>)
    ensures packets == [] ==> parity == None
    ensures packets != [] ==> parity == Some(ParityOf(packets))
  {
    if |packets| == 0 {
      return None;
    }
    var maxLen := 0;
    for j := 0 to |packets|
      invariant forall k :: 0 <= k < j ==> |packets[k]| <= maxLen
      invariant maxLen == MaxLen(packets[..j])
    {
      assert packets[..j + 1][..j] == packets[..j];
      if |packets[j]| > maxLen {
        maxLen := |packets[j]|;
      }
    }
    assert packets[..|packets|] == packets;
    var acc := new Byte[maxLen](_ => 0);
    for j := 0 to |packets|
      invariant forall i :: 0 <= i < maxLen ==> acc[i] == XorSeq(packets[..j], i)
    {
      ghost var before := acc[..];
      XorIntoPrefix(acc, packets[j], |packets[j]|);
      forall i | 0 <= i < maxLen
        ensures acc[i] == XorSeq(packets[..j + 1], i)
      {
        XorSeqNext(packets, j, i);
        assert before[i] == XorSeq(packets[..j], i);
      }
    }
    assert packets[..|packets|] == packets;
    assert acc[..] == ParityOf(packets);
    parity := Some(acc[..]);
  }

  lemma XorSeqNext(packets: seq<ByteSeq>, j: nat, i: nat)
    requires j < |packets|
    ensures XorSeq(packets[..j + 1], i) ==
            if i < |packets[j]| then Xor(XorSeq(packets[..j], i), packets[j][i]) else XorSeq(packets[..j], i)
  {
    assert packets[..j + 1][..j] == packets[..j];
    XorGroup(XorSeq(packets[..j], i), 0, 0);
  }

  /** The inner loop of both directions: octets below `n` of the accumulator are XORed in place. */
  method XorIntoPrefix(acc: array<Byte>, packet: ByteSeq, n: nat)
    requires n <= |packet| && n <= acc.Length
    modifies acc
    ensures forall i :: 0 <= i < n ==> acc[i] == Xor(old(acc[i]), packet[i])
    ensures forall i :: n <= i < acc.Length ==> acc[i] == old(acc[i])
  {
    for i := 0 to n
      invariant forall k :: 0 <= k < i ==> acc[k] == Xor(old(acc[k]), packet[k])
      invariant forall k :: i <= k < acc.Length ==> acc[k] == old(acc[k])
    {
      acc[i] := Xor(acc[i], packet[i]);
    }
  }

  // ---------------------------------------------------------------- decoder semantics

  function NewBlock(n: int): Block {
    Block(map[], [], 0, false, n)
  }

  function Store(b: Block, p: Packet): Block {
    if p.isParity then b.(parity := p.payload, hasParity := true)
    else if p.seqNo in b.data then b
    else b.(data := b.data[p.seqNo := p.payload], received := b.received + 1)
  }

  /** The first slot from `i` on, below `size`, that holds no packet; -1 when there is none. */
  function MissingSlot(data: map<int, ByteSeq>, i: nat, size: int): int
    decreases size - i
  {
    if i >= size then -1 else if i !in data then i else MissingSlot(data, i + 1, size)
  }

  ghost function Recovery(b: Block): ByteSeq {
    seq(|b.parity|, i requires 0 <= i < |b.parity| => Xor(b.parity[i], XorMap(b.data, i)))
  }

  /** recoverMissingPacket: nil unless parity and all but one packet are held and a slot is free. */
  ghost function Recover(b: Block): Option<ByteSeq> {
    if !b.hasParity || b.received != b.size - 1 || MissingSlot(b.data, 0, b.size) == -1 then None
    else Some(Recovery(b))
  }

  /** One TryDecode call seen from the block it addresses: the entry kept and the returned values. */
  ghost function EntryStep(n: int, entry: Option<Block>, p: Packet): (Option<Block>, Output) {
    var b := Store(if entry.Some? then entry.value else NewBlock(n), p);
    if b.received == b.size then (None, Output(Some(p.payload), false))
    else if b.hasParity && b.received == b.size - 1 && Recover(b).Some? then
      (None, Output(Recover(b), true))
    else (Some(b), Output(if p.isParity then None else Some(p.payload), false))
  }

  function Entry(blocks: map<int, Block>, b: int): Option<Block> {
    if b in blocks then Some(blocks[b]) else None
  }

  function WithEntry(blocks: map<int, Block>, b: int, e: Option<Block>): map<int, Block> {
    if e.Some? then blocks[b := e.value] else blocks - {b}
  }

  function Kept(blocks: map<int, Block>, current: int): map<int, Block> {
    map b | b in blocks && b >= current - 10 :: blocks[b]
  }

  ghost function Step(n: int, blocks: map<int, Block>, e: Event): map<int, Block> {
    match e
    case Deliver(p) => WithEntry(blocks, p.block, EntryStep(n, Entry(blocks, p.block), p).0)
    case Cleanup(c) => Kept(blocks, c)
  }

  /** The decoder's block table after a run from an empty table. */
  ghost function Run(n: int, events: seq<Event>): map<int, Block> {
    if events == [] then map[]
    else Step(n, Run(n, events[..|events| - 1]), events[|events| - 1])
  }

  /** What the `k`-th event of a run, a delivery, returns. */
  ghost function OutputAt(n: int, events: seq<Event>, k: nat): Output
    requires k < |events| && events[k].Deliver?
  {
    var p := events[k].packet;
    EntryStep(n, Entry(Run(n, events[..k]), p.block), p).1
  }

  /** The sequence numbers held for the addressed block once the `k`-th event has been stored. */
  ghost function HeldAt(n: int, events: seq<Event>, k: nat): set<int>
    requires k < |events| && events[k].Deliver?
  {
    var p := events[k].packet;
    var e := Entry(Run(n, events[..k]), p.block);
    Store(if e.Some? then e.value else NewBlock(n), p).data.Keys
  }

  // ---------------------------------------------------------------- shape of every reachable table

  predicate Counted(n: int, b: Block) {
    && b.size == n
    && b.received == |b.data|
    && b.received < n
    && (b.hasParity ==> b.received <= n - 2)
  }

  lemma Pigeonhole(s: set<int>, lo: int, hi: int)
    requires lo <= hi
    requires forall i :: lo <= i < hi ==> i in s
    ensures |s| >= hi - lo
    decreases hi - lo
  {
    if lo < hi {
      Pigeonhole(s - {hi - 1}, lo, hi - 1);
    }
  }

  lemma {:induction false} MissingSlotFound(data: map<int, ByteSeq>, i: nat, size: int)
    ensures
      var r := MissingSlot(data, i, size);
      if r == -1 then forall k :: i <= k < size ==> k in data
      else i <= r < size && r !in data && forall k :: i <= k < r ==> k in data
    decreases size - i
  {
    if i < size && i in data {
      MissingSlotFound(data, i + 1, size);
    }
  }

  /** With fewer packets than slots, whatever their numbers, recovery never comes back empty-handed. */
  lemma RecoveryNeverNil(b: Block)
    requires b.hasParity && b.received == b.size - 1 && b.received == |b.data|
    ensures Recover(b) == Some(Recovery(b))
  {
    MissingSlotFound(b.data, 0, b.size);
    if MissingSlot(b.data, 0, b.size) == -1 {
      assert forall k :: 0 <= k < b.size ==> k in b.data.Keys;
      Pigeonhole(b.data.Keys, 0, b.size);
      assert false;
    }
  }

  lemma StoreCounted(n: int, b: Block, p: Packet)
    requires b == NewBlock(n) || Counted(n, b)
    requires n >= 1
    ensures
      var c := Store(b, p);
      && c.size == n && c.received == |c.data| && c.received <= n
      && (c.received == n ==> !p.isParity)
      && (c.hasParity && !p.isParity ==> c.received <= n - 1)
  {
  }

  lemma EntryStepCounted(n: int, e: Option<Block>, p: Packet)
    requires n >= 1
    requires e.Some? ==> Counted(n, e.value)
    ensures EntryStep(n, e, p).0.Some? ==> Counted(n, EntryStep(n, e, p).0.value)
  {
    var b := if e.Some? then e.value else NewBlock(n);
    StoreCounted(n, b, p);
    var c := Store(b, p);
    if c.hasParity && c.received == c.size - 1 {
      RecoveryNeverNil(c);
    }
  }

  /**
   In every reachable table, under arbitrary packets and clean-ups, each stored block counts its
   packets exactly, is short of full, and is short by two once its parity is held.
   */
  lemma {:induction false} TableCounted(n: int, events: seq<Event>)
    requires n >= 1
    ensures forall b :: b in Run(n, events) ==> Counted(n, Run(n, events)[b])
  {
    if events != [] {
      var k := |events| - 1;
      TableCounted(n, events[..k]);
      if events[k].Deliver? {
        var p := events[k].packet;
        EntryStepCounted(n, Entry(Run(n, events[..k]), p.block), p);
      }
    }
  }

  /** Over every run of arbitrary packets: a call that reports no recovery hands a data payload through
      and returns nothing for a parity packet; one that does returns something. */
  lemma UnrecoveredIsDelivered(n: int, events: seq<Event>, k: nat)
    requires n >= 1 && k < |events| && events[k].Deliver?
    ensures
      var out, p := OutputAt(n, events, k), events[k].packet;
      if out.recovered then out.payload.Some? else out.payload == if p.isParity then None else Some(p.payload)
  {
    TableCounted(n, events[..k]);
    var p := events[k].packet;
    var e := Entry(Run(n, events[..k]), p.block);
    StoreCounted(n, if e.Some? then e.value else NewBlock(n), p);
  }

  // ---------------------------------------------------------------- soundness of recovery

  predicate AllEmitted(stream: seq<ByteSeq>, n: nat, events: seq<Event>) {
    forall k :: 0 <= k < |events| && events[k].Deliver? ==> Emitted(stream, n, events[k].packet)
  }

  /** A stored block holds only original payloads of its own block, and its true parity. */
  predicate Genuine(stream: seq<ByteSeq>, n: nat, id: int, b: Block) {
    && id >= 0
    && (forall s :: s in b.data ==> Emitted(stream, n, Packet(id, s, b.data[s], false)))
    && (b.hasParity ==> Emitted(stream, n, Packet(id, -1, b.parity, true)))
  }

  lemma StoreGenuine(stream: seq<ByteSeq>, n: nat, b: Block, p: Packet)
    requires Emitted(stream, n, p)
    requires b == NewBlock(n) || Genuine(stream, n, p.block, b)
    ensures Genuine(stream, n, p.block, Store(b, p))
  {
  }

  lemma {:induction false} TableGenuine(stream: seq<ByteSeq>, n: nat, events: seq<Event>)
    requires AllEmitted(stream, n, events)
    ensures forall b :: b in Run(n, events) ==> Genuine(stream, n, b, Run(n, events)[b])
  {
    if events != [] {
      var k := |events| - 1;
      TableGenuine(stream, n, events[..k]);
      if events[k].Deliver? {
        var p := events[k].packet;
        var e := Entry(Run(n, events[..k]), p.block);
        StoreGenuine(stream, n, if e.Some? then e.value else NewBlock(n), p);
      }
    }
  }

  /** The sequence numbers the encoder gives to the packets of a block. */
  function Slots(n: nat): (r: set<int>)
    ensures |r| == n
    ensures forall s :: s in r <==> 1 <= s <= n
  {
    if n == 0 then {} else Slots(n - 1) + {n}
  }

  lemma SubsetSize(a: set<int>, b: set<int>)
    requires a <= b
    ensures |a| <= |b|
    ensures |a| == |b| ==> a == b
  {
    assert b == a + (b - a);
  }

  /** All but one of the slots 1..n held: the absent one exists and everything else is there. */
  lemma OneMissing(held: set<int>, n: nat) returns (s: int)
    requires held <= Slots(n) && |held| == n - 1
    ensures s in Slots(n) && held == Slots(n) - {s}
  {
    if Slots(n) <= held {
      SubsetSize(Slots(n), held);
      assert false;
    }
    s :| s in Slots(n) && s !in held;
    SubsetSize(held, Slots(n) - {s});
  }

  /** `r` is payload `s` of block `id`, zero-padded to the longest payload of that block, and `s` alone is not held. */
  predicate RecoversPacket(stream: seq<ByteSeq>, n: nat, id: int, held: set<int>, s: int, r: Option<ByteSeq>) {
    && id >= 0 && id * n + n <= |stream|
    && s in Slots(n) && held == Slots(n) - {s}
    && var ps := BlockOf(stream, n, id);
       r == Some(PadTo(ps[s - 1], MaxLen(ps)))
  }

  lemma HeldAreNumbered(stream: seq<ByteSeq>, n: nat, id: int, b: Block)
    requires Genuine(stream, n, id, b) && b.hasParity
    ensures id * n + n <= |stream|
    ensures b.data.Keys <= Slots(n)
    ensures b.parity == ParityOf(BlockOf(stream, n, id))
    ensures
      var all := Numbered(BlockOf(stream, n, id));
      forall s :: s in b.data ==> s in all && b.data[s] == all[s]
  {
    var ps := BlockOf(stream, n, id);
    hide BlockOf, ParityOf, Numbered;
    forall s | s in b.data
      ensures s in Slots(n) && s in Numbered(ps) && b.data[s] == Numbered(ps)[s]
    {
      HeldIsNumbered(stream, n, id, s, b.data[s]);
    }
  }

  lemma HeldIsNumbered(stream: seq<ByteSeq>, n: nat, id: nat, s: int, payload: ByteSeq)
    requires Emitted(stream, n, Packet(id, s, payload, false)) && id * n + n <= |stream|
    ensures s in Slots(n)
    ensures s in Numbered(BlockOf(stream, n, id)) && Numbered(BlockOf(stream, n, id))[s] == payload
  {
    var first := id * n;
    assert BlockOf(stream, n, id) == stream[first..first + n];
    assert stream[first..first + n][s - 1] == stream[first + (s - 1)];
  }

  lemma AllButOne<V>(part: map<int, V>, all: map<int, V>, s: int)
    requires part.Keys == all.Keys - {s}
    requires forall k :: k in part ==> part[k] == all[k]
    ensures part == all - {s}
  {
    var rest := all - {s};
    forall k | k in rest
      ensures k in part && rest[k] == part[k]
    {
      assert k in part.Keys;
    }
    assert rest == part;
  }

  lemma RecoveryOfBlock(ps: seq<ByteSeq>, b: Block, s: int)
    requires b.parity == ParityOf(ps) && 1 <= s <= |ps|
    requires b.data == Numbered(ps) - {s}
    ensures Recovery(b) == PadTo(ps[s - 1], MaxLen(ps))
  {
    var held, pad := Numbered(ps) - {s}, PadTo(ps[s - 1], MaxLen(ps));
    ParityRecovers(ps, held, s);
    assert |Recovery(b)| == |pad|;
    forall i | 0 <= i < |pad|
      ensures Recovery(b)[i] == pad[i]
    {
      assert Recovery(b)[i] == Xor(b.parity[i], XorMap(held, i));
    }
  }

  lemma RecoveryIsOriginal(stream: seq<ByteSeq>, n: nat, id: int, b: Block) returns (s: int)
    requires Genuine(stream, n, id, b)
    requires b.hasParity && b.received == b.size - 1 && b.size == n && b.received == |b.data|
    ensures RecoversPacket(stream, n, id, b.data.Keys, s, Recover(b))
  {
    RecoveryNeverNil(b);
    HeldAreNumbered(stream, n, id, b);
    s := OneMissing(b.data.Keys, n);
    var ps := BlockOf(stream, n, id);
    assert Numbered(ps).Keys == Slots(n);
    AllButOne(b.data, Numbered(ps), s);
    RecoveryOfBlock(ps, b, s);
  }

  /**
   Soundness over whole runs: whatever is dropped, duplicated, reordered or interleaved, and
   wherever clean-ups fall, a payload returned as recovered is the original payload of the one
   sequence number of its block that is not held, zero-padded to the block's longest payload.
   */
  lemma RecoveredIsOriginal(stream: seq<ByteSeq>, n: nat, events: seq<Event>, k: nat)
    requires n >= 1 && AllEmitted(stream, n, events)
    requires k < |events| && events[k].Deliver? && OutputAt(n, events, k).recovered
    ensures exists s ::
              RecoversPacket(stream, n, events[k].packet.block, HeldAt(n, events, k), s, OutputAt(n, events, k).payload)
  {
    var p := events[k].packet;
    TableGenuine(stream, n, events[..k]);
    TableCounted(n, events[..k]);
    var e := Entry(Run(n, events[..k]), p.block);
    EntryRecovers(stream, n, e, p);
    var b := Store(if e.Some? then e.value else NewBlock(n), p);
    var s :| RecoversPacket(stream, n, p.block, b.data.Keys, s, EntryStep(n, e, p).1.payload);
    assert RecoversPacket(stream, n, p.block, HeldAt(n, events, k), s, OutputAt(n, events, k).payload);
  }

  lemma EntryRecovers(stream: seq<ByteSeq>, n: nat, e: Option<Block>, p: Packet)
    requires n >= 1 && Emitted(stream, n, p)
    requires e.Some? ==> Counted(n, e.value) && Genuine(stream, n, p.block, e.value)
    requires EntryStep(n, e, p).1.recovered
    ensures
      var b := Store(if e.Some? then e.value else NewBlock(n), p);
      exists s :: RecoversPacket(stream, n, p.block, b.data.Keys, s, EntryStep(n, e, p).1.payload)
  {
    var b := if e.Some? then e.value else NewBlock(n);
    StoreGenuine(stream, n, b, p);
    StoreCounted(n, b, p);
    var s := RecoveryIsOriginal(stream, n, p.block, Store(b, p));
  }

  // ---------------------------------------------------------------- completeness of recovery

  /** The packets of block `b` in a run, in order of arrival. */
  function Arrivals(events: seq<Event>, b: int): seq<Packet> {
    if events == [] then []
    else
      var k := |events| - 1;
      Arrivals(events[..k], b) +
      (if events[k].Deliver? && events[k].packet.block == b then [events[k].packet] else [])
  }

  /** The entry of one block when only its own packets are fed to the decoder. */
  ghost function EntryAfter(n: int, arrivals: seq<Packet>): Option<Block> {
    if arrivals == [] then None
    else EntryStep(n, EntryAfter(n, arrivals[..|arrivals| - 1]), arrivals[|arrivals| - 1]).0
  }

  predicate NeverCleaned(events: seq<Event>, b: int) {
    forall k :: 0 <= k < |events| && events[k].Cleanup? ==> b >= events[k].current - 10
  }

  /** Traffic of other blocks never touches the entry of block `b`. */
  lemma {:induction false} BlocksAreIndependent(n: int, events: seq<Event>, b: int)
    requires NeverCleaned(events, b)
    ensures Entry(Run(n, events), b) == EntryAfter(n, Arrivals(events, b))
  {
    if events != [] {
      var k := |events| - 1;
      BlocksAreIndependent(n, events[..k], b);
      hide EntryStep;
      OwnEntry(n, Run(n, events[..k]), events[k], b);
      var before := Arrivals(events[..k], b);
      if events[k].Deliver? && events[k].packet.block == b {
        assert Arrivals(events, b)[..|before|] == before;
      } else {
        assert Arrivals(events, b) == before;
      }
    }
  }

  lemma OwnEntry(n: int, blocks: map<int, Block>, e: Event, b: int)
    requires e.Cleanup? ==> b >= e.current - 10
    ensures Entry(Step(n, blocks, e), b) ==
            if e.Deliver? && e.packet.block == b then EntryStep(n, Entry(blocks, b), e.packet).0 else Entry(blocks, b)
  {
    hide EntryStep;
  }

  /** Packets of one block, none twice, none of them data packet `m`. */
  predicate DistinctBut(arrivals: seq<Packet>, n: nat, m: int) {
    && (forall j :: 0 <= j < |arrivals| && !arrivals[j].isParity ==>
          1 <= arrivals[j].seqNo <= n && arrivals[j].seqNo != m)
    && (forall j, k :: 0 <= j < k < |arrivals| && !arrivals[j].isParity && !arrivals[k].isParity ==>
          arrivals[j].seqNo != arrivals[k].seqNo)
    && (forall j, k :: 0 <= j < k < |arrivals| && arrivals[j].isParity ==> !arrivals[k].isParity)
  }

  /** The block assembled from `arrivals`, before any recovery. */
  predicate Assembled(n: nat, m: int, arrivals: seq<Packet>, b: Block) {
    && b.size == n && b.received == |b.data|
    && b.data.Keys <= Slots(n) - {m}
    && (forall s :: s in b.data ==> exists j :: 0 <= j < |arrivals| && !arrivals[j].isParity && arrivals[j].seqNo == s)
    && (b.hasParity ==> exists j :: 0 <= j < |arrivals| && arrivals[j].isParity)
    && b.received + (if b.hasParity then 1 else 0) == |arrivals|
  }

  lemma {:induction false} AssemblyBounded(n: nat, m: int, arrivals: seq<Packet>, b: Block)
    requires m in Slots(n) && Assembled(n, m, arrivals, b)
    ensures b.received <= n - 1
  {
    assert |Slots(n) - {m}| == n - 1;
    SubsetSize(b.data.Keys, Slots(n) - {m});
  }

  lemma StoreAssembles(n: nat, m: int, arrivals: seq<Packet>, b: Block)
    requires arrivals != [] && DistinctBut(arrivals, n, m)
    requires Assembled(n, m, arrivals[..|arrivals| - 1], b)
    ensures Assembled(n, m, arrivals, Store(b, arrivals[|arrivals| - 1]))
  {
  }

  /** Until the n-th distinct arrival the block is only assembled; the n-th one triggers the recovery. */
  lemma {:induction false} AssemblyRun(n: nat, m: int, arrivals: seq<Packet>)
    requires m in Slots(n) && DistinctBut(arrivals, n, m) && |arrivals| <= n
    ensures |arrivals| == n ==> EntryAfter(n, arrivals) == None
    ensures arrivals != [] ==>
              EntryStep(n, EntryAfter(n, arrivals[..|arrivals| - 1]), arrivals[|arrivals| - 1]).1.recovered
              == (|arrivals| == n)
    ensures 0 < |arrivals| < n ==>
              EntryAfter(n, arrivals).Some? && Assembled(n, m, arrivals, EntryAfter(n, arrivals).value)
  {
    if arrivals != [] {
      var k := |arrivals| - 1;
      AssemblyRun(n, m, arrivals[..k]);
      AssemblyStep(n, m, arrivals, EntryAfter(n, arrivals[..k]));
    }
  }

  /** One distinct arrival on an assembled block. */
  lemma AssemblyStep(n: nat, m: int, arrivals: seq<Packet>, e: Option<Block>)
    requires m in Slots(n) && DistinctBut(arrivals, n, m) && 0 < |arrivals| <= n
    requires if |arrivals| == 1 then e == None else e.Some? && Assembled(n, m, arrivals[..|arrivals| - 1], e.value)
    ensures
      var (next, out) := EntryStep(n, e, arrivals[|arrivals| - 1]);
      if |arrivals| == n then next == None && out.recovered
      else next.Some? && Assembled(n, m, arrivals, next.value) && !out.recovered
  {
    hide Assembled, Store, DistinctBut, Recover;
    var b := if e.Some? then e.value else NewBlock(n);
    StoreFirst(n, m, arrivals, e);
    AssembledEntry(n, m, arrivals, Store(b, arrivals[|arrivals| - 1]));
  }

  lemma StoreFirst(n: nat, m: int, arrivals: seq<Packet>, e: Option<Block>)
    requires DistinctBut(arrivals, n, m) && arrivals != []
    requires if |arrivals| == 1 then e == None else e.Some? && Assembled(n, m, arrivals[..|arrivals| - 1], e.value)
    ensures Assembled(n, m, arrivals, Store(if e.Some? then e.value else NewBlock(n), arrivals[|arrivals| - 1]))
  {
    if |arrivals| == 1 {
      assert Assembled(n, m, arrivals[..0], NewBlock(n));
    }
    hide Assembled, Store, DistinctBut;
    StoreAssembles(n, m, arrivals, if e.Some? then e.value else NewBlock(n));
  }

  /** A block assembled from n distinct arrivals has its parity and all packets but one. */
  lemma AssembledEntry(n: nat, m: int, arrivals: seq<Packet>, c: Block)
    requires m in Slots(n) && 0 < |arrivals| <= n && Assembled(n, m, arrivals, c)
    ensures c.size == n && c.received < n
    ensures c.hasParity && c.received == n - 1 <==> |arrivals| == n
    ensures |arrivals| == n ==> Recover(c).Some?
  {
    AssemblyBounded(n, m, arrivals, c);
    if c.hasParity && c.received == n - 1 {
      RecoveryNeverNil(c);
    }
  }

  /** Taking a prefix of the run takes a prefix of the arrivals. */
  lemma {:induction false} ArrivalsPrefix(events: seq<Event>, b: int, k: nat)
    requires k <= |events|
    ensures Arrivals(events[..k], b) <= Arrivals(events, b)
  {
    if k < |events| {
      var l := |events| - 1;
      ArrivalsPrefix(events[..l], b, k);
      assert events[..l][..k] == events[..k];
    } else {
      assert events[..k] == events;
    }
  }

  /**
   Completeness: let the n arrivals of block `b` be distinct and leave out data packet `m` (so they
   are the other n-1 data packets and the parity, once each, in any order, among any traffic of
   other blocks), with no clean-up reaching the block. Then a call for that block reports a recovery
   exactly when it is the last arrival, what it returns is payload `m`, and the entry is gone.
   */
  lemma LastArrivalRecovers(stream: seq<ByteSeq>, n: nat, events: seq<Event>, b: int, m: int)
    requires m in Slots(n) && NeverCleaned(events, b)
    requires DistinctBut(Arrivals(events, b), n, m) && |Arrivals(events, b)| == n
    ensures b !in Run(n, events)
    ensures forall k :: 0 <= k < |events| && events[k].Deliver? && events[k].packet.block == b ==>
              (OutputAt(n, events, k).recovered <==> Arrivals(events[..k + 1], b) == Arrivals(events, b))
    ensures AllEmitted(stream, n, events) ==>
              forall k | 0 <= k < |events| && events[k].Deliver? && events[k].packet.block == b ::
                Arrivals(events[..k + 1], b) == Arrivals(events, b) ==>
                RecoversPacket(stream, n, b, HeldAt(n, events, k), m, OutputAt(n, events, k).payload)
  {
    BlocksAreIndependent(n, events, b);
    AssemblyRun(n, m, Arrivals(events, b));
    forall k | 0 <= k < |events| && events[k].Deliver? && events[k].packet.block == b
      ensures OutputAt(n, events, k).recovered <==> Arrivals(events[..k + 1], b) == Arrivals(events, b)
      ensures AllEmitted(stream, n, events) && Arrivals(events[..k + 1], b) == Arrivals(events, b) ==>
                RecoversPacket(stream, n, b, HeldAt(n, events, k), m, OutputAt(n, events, k).payload)
    {
      CallOnDistinctArrivals(n, events, b, m, k);
      if AllEmitted(stream, n, events) && OutputAt(n, events, k).recovered {
        RecoveredIsOriginal(stream, n, events, k);
      }
    }
  }

  lemma CallOnDistinctArrivals(n: nat, events: seq<Event>, b: int, m: int, k: nat)
    requires m in Slots(n) && NeverCleaned(events, b)
    requires DistinctBut(Arrivals(events, b), n, m) && |Arrivals(events, b)| == n
    requires k < |events| && events[k].Deliver? && events[k].packet.block == b
    ensures OutputAt(n, events, k).recovered <==> Arrivals(events[..k + 1], b) == Arrivals(events, b)
    ensures m !in HeldAt(n, events, k)
  {
    hide Arrivals, EntryStep, EntryAfter, DistinctBut, Run, Assembled, Store, Slots;
    var before, now := Arrivals(events[..k], b), Arrivals(events[..k + 1], b);
    ArrivalsNext(events, b, k);
    assert now[..|before|] == before;
    ArrivalsPrefix(events, b, k + 1);
    BlocksAreIndependent(n, events[..k], b);
    DistinctCall(n, m, before, now, Arrivals(events, b));
  }

  lemma ArrivalsNext(events: seq<Event>, b: int, k: nat)
    requires k < |events| && events[k].Deliver? && events[k].packet.block == b
    ensures Arrivals(events[..k + 1], b) == Arrivals(events[..k], b) + [events[k].packet]
  {
    assert events[..k + 1][..k] == events[..k];
  }

  lemma DistinctCall(n: nat, m: int, before: seq<Packet>, now: seq<Packet>, all: seq<Packet>)
    requires m in Slots(n) && DistinctBut(all, n, m) && |all| == n && now <= all
    requires |now| == |before| + 1 && now[..|before|] == before
    ensures EntryStep(n, EntryAfter(n, before), now[|before|]).1.recovered <==> now == all
    ensures
      var e := EntryAfter(n, before);
      m !in Store(if e.Some? then e.value else NewBlock(n), now[|before|]).data
  {
    hide EntryStep, EntryAfter, DistinctBut, Assembled, Store, Slots;
    PrefixDistinct(now, all, n, m);
    PrefixDistinct(before, now, n, m);
    AssemblyRun(n, m, now);
    AssemblyHeld(n, m, before, now);
  }

  lemma PrefixDistinct(a: seq<Packet>, arrivals: seq<Packet>, n: nat, m: int)
    requires a <= arrivals && DistinctBut(arrivals, n, m)
    ensures DistinctBut(a, n, m)
  {
  }

  lemma AssemblyHeld(n: nat, m: int, before: seq<Packet>, now: seq<Packet>)
    requires m in Slots(n) && DistinctBut(now, n, m) && |now| <= n
    requires |now| == |before| + 1 && now[..|before|] == before && DistinctBut(before, n, m)
    ensures
      var e := EntryAfter(n, before);
      m !in Store(if e.Some? then e.value else NewBlock(n), now[|before|]).data
  {
    AssemblyRun(n, m, before);
    var e := EntryAfter(n, before);
    StoreAssembles(n, m, now, if e.Some? then e.value else NewBlock(n));
  }
}
