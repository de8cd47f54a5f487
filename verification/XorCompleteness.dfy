/**
 What a decoder holds and when it recovers, told from the packets that have arrived and from nothing
 else: duplicates, reordering, clean-ups and sequence numbers are arbitrary.
 */
module XorCompleteness {
  import opened Bytes
  import opened XorFec

  /** The sequence numbers of the data packets among `arrivals`. */
  function DataNumbers(arrivals: seq<Packet>): set<int> {
    set j | 0 <= j < |arrivals| && !arrivals[j].isParity :: arrivals[j].seqNo
  }

  predicate HasParity(arrivals: seq<Packet>) {
    exists j :: 0 <= j < |arrivals| && arrivals[j].isParity
  }

  /** A parity and all distinct data packets but one. */
  predicate Recoverable(n: nat, arrivals: seq<Packet>) {
    HasParity(arrivals) && |DataNumbers(arrivals)| == n - 1
  }

  /** Nothing more is needed for the block, so its entry is removed. */
  predicate Complete(n: nat, arrivals: seq<Packet>) {
    |DataNumbers(arrivals)| == n || Recoverable(n, arrivals)
  }

  /** The packets of block `b` since it last had no entry: before the first one, after the packet that
      completed it, or after a clean-up that reached it. */
  function Collected(n: nat, events: seq<Event>, b: int): seq<Packet> {
    if events == [] then []
    else
      var before, e := Collected(n, events[..|events| - 1], b), events[|events| - 1];
      match e
      case Deliver(p) =>
        if p.block != b then before else if Complete(n, before + [p]) then [] else before + [p]
      case Cleanup(current) => if b < current - 10 then [] else before
  }

  /** The first data packet with its number. */
  predicate FirstOfItsNumber(arrivals: seq<Packet>, j: nat)
    requires j < |arrivals|
  {
    !arrivals[j].isParity &&
    forall i :: 0 <= i < j && !arrivals[i].isParity ==> arrivals[i].seqNo != arrivals[j].seqNo
  }

  predicate LastParity(arrivals: seq<Packet>, j: nat)
    requires j < |arrivals|
  {
    arrivals[j].isParity && forall i :: j < i < |arrivals| ==> !arrivals[i].isParity
  }

  /** The block is what `arrivals` make it: each data packet once, as it came first, and the latest parity. */
  predicate Holds(n: nat, b: Block, arrivals: seq<Packet>) {
    && b.size == n && b.data.Keys == DataNumbers(arrivals) && b.received == |DataNumbers(arrivals)|
    && (b.hasParity <==> HasParity(arrivals))
    && (forall j :: 0 <= j < |arrivals| && FirstOfItsNumber(arrivals, j) ==>
          arrivals[j].seqNo in b.data && b.data[arrivals[j].seqNo] == arrivals[j].payload)
    && (forall j :: 0 <= j < |arrivals| && LastParity(arrivals, j) ==> b.parity == arrivals[j].payload)
  }

  predicate Represents(n: nat, e: Option<Block>, arrivals: seq<Packet>) {
    && (e.None? <==> arrivals == [])
    && (e.Some? ==> Holds(n, e.value, arrivals) && |DataNumbers(arrivals)| < n && !Complete(n, arrivals))
  }

  // ---------------------------------------------------------------- one more packet

  lemma OneMoreNumber(a: seq<Packet>, p: Packet)
    ensures DataNumbers(a + [p]) == DataNumbers(a) + (if p.isParity then {} else {p.seqNo})
    ensures HasParity(a + [p]) <==> HasParity(a) || p.isParity
  {
    var all := a + [p];
    assert all[|a|] == p;
    assert forall j :: 0 <= j < |a| ==> all[j] == a[j];
    forall s | s in DataNumbers(a)
      ensures s in DataNumbers(all)
    {
      var j :| 0 <= j < |a| && !a[j].isParity && a[j].seqNo == s;
      assert all[j].seqNo == s;
    }
    if HasParity(a) {
      var j :| 0 <= j < |a| && a[j].isParity;
      assert all[j].isParity;
    }
  }

  lemma StoreContents(n: nat, b: Block, a: seq<Packet>, p: Packet)
    requires Holds(n, b, a)
    ensures
      var c, all := Store(b, p), a + [p];
      && (forall j :: 0 <= j < |all| && FirstOfItsNumber(all, j) ==>
            all[j].seqNo in c.data && c.data[all[j].seqNo] == all[j].payload)
      && (forall j :: 0 <= j < |all| && LastParity(all, j) ==> c.parity == all[j].payload)
  {
    var c, all := Store(b, p), a + [p];
    assert all[|a|] == p && forall j :: 0 <= j < |a| ==> all[j] == a[j];
    forall j | 0 <= j < |all| && FirstOfItsNumber(all, j)
      ensures all[j].seqNo in c.data && c.data[all[j].seqNo] == all[j].payload
    {
      if j < |a| {
        assert FirstOfItsNumber(a, j);
      }
    }
    forall j | 0 <= j < |all| && LastParity(all, j)
      ensures c.parity == all[j].payload
    {
      if j < |a| {
        assert !all[|a|].isParity;
        assert LastParity(a, j);
      }
    }
  }

  lemma StoreHolds(n: nat, b: Block, a: seq<Packet>, p: Packet)
    requires Holds(n, b, a)
    ensures Holds(n, Store(b, p), a + [p])
  {
    OneMoreNumber(a, p);
    StoreContents(n, b, a, p);
    var c := Store(b, p);
    assert c.data.Keys == DataNumbers(a + [p]);
    if !p.isParity && p.seqNo !in b.data {
      assert |DataNumbers(a) + {p.seqNo}| == |DataNumbers(a)| + 1;
    } else if !p.isParity {
      assert DataNumbers(a) + {p.seqNo} == DataNumbers(a);
    }
  }

  lemma EmptyHolds(n: nat)
    ensures Holds(n, NewBlock(n), [])
  {
  }

  /** One delivery to a block that holds what has arrived. */
  lemma EntryCollects(n: nat, e: Option<Block>, a: seq<Packet>, p: Packet)
    requires n >= 1 && Represents(n, e, a)
    ensures
      var (next, out) := EntryStep(n, e, p);
      && Represents(n, next, if Complete(n, a + [p]) then [] else a + [p])
      && (out.recovered <==> Recoverable(n, a + [p]))
    ensures Store(if e.Some? then e.value else NewBlock(n), p).data.Keys == DataNumbers(a + [p])
  {
    var b := if e.Some? then e.value else NewBlock(n);
    var all := a + [p];
    EmptyHolds(n);
    StoreHolds(n, b, a, p);
    OneMoreNumber(a, p);
    assert |DataNumbers([])| == 0;
    hide Holds, Store;
    var c := Store(b, p);
    HeldBlock(n, c, all);
    assert |DataNumbers(all)| <= |DataNumbers(a)| + 1;
  }

  lemma HeldBlock(n: nat, c: Block, all: seq<Packet>)
    requires n >= 1 && Holds(n, c, all)
    ensures c.size == n && c.received == |DataNumbers(all)| && (c.hasParity <==> HasParity(all))
    ensures c.data.Keys == DataNumbers(all)
    ensures Recoverable(n, all) ==> Recover(c).Some?
  {
    if Recoverable(n, all) {
      assert |c.data| == |c.data.Keys|;
      RecoveryNeverNil(c);
    }
  }

  // ---------------------------------------------------------------- all runs

  /** In every run the entry of a block is exactly what its collected packets make it. */
  lemma {:induction false} TableHolds(n: nat, events: seq<Event>, b: int)
    requires n >= 1
    ensures Represents(n, Entry(Run(n, events), b), Collected(n, events, b))
  {
    if events != [] {
      var k := |events| - 1;
      TableHolds(n, events[..k], b);
      EventCollects(n, Run(n, events[..k]), events[k], b, Collected(n, events[..k], b));
    }
  }

  lemma EventCollects(n: nat, blocks: map<int, Block>, e: Event, b: int, a: seq<Packet>)
    requires n >= 1 && Represents(n, Entry(blocks, b), a)
    ensures
      var next := Entry(Step(n, blocks, e), b);
      match e
      case Deliver(p) =>
        Represents(n, next, if p.block != b then a else if Complete(n, a + [p]) then [] else a + [p])
      case Cleanup(current) => Represents(n, next, if b < current - 10 then [] else a)
  {
    hide Represents, EntryStep;
    match e
    case Deliver(p) =>
      OwnEntry(n, blocks, e, b);
      EntryCollects(n, Entry(blocks, b), a, p);
    case Cleanup(current) =>
      if b < current - 10 {
        NoEntry(n);
      } else {
        OwnEntry(n, blocks, e, b);
      }
  }

  lemma NoEntry(n: nat)
    ensures Represents(n, None, [])
  {
  }

  /**
   Exactly when a call recovers, over every run of arbitrary packets and clean-ups: a parity and n-1
   distinct data packets have now been collected. What is then held are the numbers that arrived.
   */
  lemma RecoversExactly(n: nat, events: seq<Event>, k: nat)
    requires n >= 1 && k < |events| && events[k].Deliver?
    ensures
      var p := events[k].packet;
      var all := Collected(n, events[..k], p.block) + [p];
      && (OutputAt(n, events, k).recovered <==> Recoverable(n, all))
      && HeldAt(n, events, k) == DataNumbers(all)
  {
    var p := events[k].packet;
    TableHolds(n, events[..k], p.block);
    hide Represents, Recoverable, Store, EntryStep;
    EntryCollects(n, Entry(Run(n, events[..k]), p.block), Collected(n, events[..k], p.block), p);
  }

  // ---------------------------------------------------------------- up to the first completion

  /** Nothing has removed the entry of block `b`: no clean-up reached it and no packet completed it. */
  predicate NeverRemoved(n: nat, events: seq<Event>, b: int) {
    && NeverCleaned(events, b)
    && forall i :: 0 < i <= |Arrivals(events, b)| ==> !Complete(n, Arrivals(events, b)[..i])
  }

  lemma {:induction false} CollectedIsArrivals(n: nat, events: seq<Event>, b: int)
    requires NeverRemoved(n, events, b)
    ensures Collected(n, events, b) == Arrivals(events, b)
  {
    if events != [] {
      var k := |events| - 1;
      var before, now := Arrivals(events[..k], b), Arrivals(events, b);
      forall i | 0 < i <= |before|
        ensures !Complete(n, before[..i])
      {
        assert before[..i] == now[..i];
      }
      CollectedIsArrivals(n, events[..k], b);
      assert now[..|now|] == now;
    }
  }

  /**
   With duplicates among them: as long as nothing has removed its entry, the arrivals of a block are
   held, each number once, and the next call recovers if and only if the parity and n-1 distinct data
   packets have then arrived for the first time.
   */
  lemma FirstRecovery(n: nat, events: seq<Event>, k: nat)
    requires n >= 1 && k < |events| && events[k].Deliver? && NeverRemoved(n, events[..k], events[k].packet.block)
    ensures
      var arrived := Arrivals(events[..k + 1], events[k].packet.block);
      && (OutputAt(n, events, k).recovered <==> HasParity(arrived) && |DataNumbers(arrived)| == n - 1)
      && HeldAt(n, events, k) == DataNumbers(arrived)
  {
    var b := events[k].packet.block;
    CollectedIsArrivals(n, events[..k], b);
    ArrivalsNext(events, b, k);
    RecoversExactly(n, events, k);
  }
}
