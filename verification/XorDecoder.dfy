/** The decoder as it runs: a table of partial blocks updated in place by TryDecode and CleanupOldBlocks. */
module XorDecoder {
  import opened Bytes
  import opened XorAlgebra
  import opened XorFec
  import XorCompleteness

  class Decoder {
    const blockSize: int
    var blocks: map<int, Block>
    ghost var history: seq<Event>

    /** The table is exactly the one that the calls made so far lead to. */
    ghost predicate Valid()
      reads this
    {
      blockSize >= 1 && blocks == Run(blockSize, history)
    }

    constructor (blockSize: int)
      requires blockSize >= 1
      ensures Valid() && this.blockSize == blockSize && history == []
    {
      this.blockSize := blockSize;
      blocks := map[];
      history := [];
    }

    method TryDecode(blockID: int, seqInBlock: int, payload: ByteSeq, isParity: bool)
      returns (out: Option<ByteSeq>, recovered: bool)
      requires Valid()
      modifies this
      ensures Valid()
      ensures history == old(history) + [Deliver(Packet(blockID, seqInBlock, payload, isParity))]
      ensures Output(out, recovered) == OutputAt(blockSize, history, |old(history)|)
      ensures
        var p := Packet(blockID, seqInBlock, payload, isParity);
        recovered <==> XorCompleteness.Recoverable(
                         blockSize, XorCompleteness.Collected(blockSize, old(history), blockID) + [p])
      ensures !recovered ==> out == if isParity then None else Some(payload)
    {
      ghost var p := Packet(blockID, seqInBlock, payload, isParity);
      CallOutcome(blockSize, history, p);
      RunAppend(blockSize, history, Deliver(p));
      hide Run, OutputAt, EntryStep, XorCompleteness.Recoverable, XorCompleteness.Collected;
      out, recovered := StorePacket(blockID, seqInBlock, payload, isParity);
      history := history + [Deliver(p)];
    }

    /** The update of the block table and the result of a call. */
    method StorePacket(blockID: int, seqInBlock: int, payload: ByteSeq, isParity: bool)
      returns (out: Option<ByteSeq>, recovered: bool)
      modifies this`blocks
      ensures
        var p := Packet(blockID, seqInBlock, payload, isParity);
        var (next, result) := EntryStep(blockSize, Entry(old(blocks), blockID), p);
        blocks == WithEntry(old(blocks), blockID, next) && Output(out, recovered) == result
    {
      ghost var p := Packet(blockID, seqInBlock, payload, isParity);
      var block := if blockID in blocks then blocks[blockID] else NewBlock(blockSize);
      if isParity {
        block := block.(parity := payload, hasParity := true);
      } else if seqInBlock !in block.data {
        block := block.(data := block.data[seqInBlock := payload], received := block.received + 1);
      }
      assert block == Store(if blockID in old(blocks) then old(blocks)[blockID] else NewBlock(blockSize), p);
      blocks := blocks[blockID := block];

      if block.received == block.size {
        blocks := blocks - {blockID};
        assert blocks == old(blocks) - {blockID};
        return Some(payload), false;
      }
      if block.hasParity && block.received == block.size - 1 {
        var missing := RecoverMissingPacket(block);
        if missing.Some? {
          blocks := blocks - {blockID};
          assert blocks == old(blocks) - {blockID};
          return missing, true;
        }
      }
      if !isParity {
        return Some(payload), false;
      }
      return None, false;
    }

    method CleanupOldBlocks(current: int)
      requires Valid()
      modifies this
      ensures Valid() && history == old(history) + [Cleanup(current)]
      ensures forall b :: b in blocks <==> b in old(blocks) && b >= current - 10
    {
      RunAppend(blockSize, history, Cleanup(current));
      blocks := KeepRecent(blocks, current);
      history := history + [Cleanup(current)];
    }
  }

  method KeepRecent(blocks: map<int, Block>, current: int) returns (kept: map<int, Block>)
    ensures kept == Kept(blocks, current)
  {
    kept := blocks;
    var todo := blocks.Keys;
    while todo != {}
      invariant todo <= blocks.Keys && kept.Keys <= blocks.Keys
      invariant forall b :: b in blocks ==> (b in kept <==> b in todo || b >= current - 10)
      invariant forall b :: b in kept ==> kept[b] == blocks[b]
      decreases |todo|
    {
      EmptyWhenNoMember(todo);
      var b :| b in todo;
      if b < current - 10 {
        kept := kept - {b};
      }
      todo := todo - {b};
    }
    assert kept.Keys == Kept(blocks, current).Keys;
  }

  lemma EmptyWhenNoMember(s: set<int>)
    ensures (forall k :: k !in s) ==> s == {}
  {
    if forall k :: k !in s {
      assert s == {};
    }
  }

  /** When a call recovers, and what it returns otherwise. */
  lemma CallOutcome(n: nat, history: seq<Event>, p: Packet)
    requires n >= 1
    ensures
      var out := OutputAt(n, history + [Deliver(p)], |history|);
      && (out.recovered <==>
          XorCompleteness.Recoverable(n, XorCompleteness.Collected(n, history, p.block) + [p]))
      && (!out.recovered ==> out.payload == if p.isParity then None else Some(p.payload))
  {
    var all := history + [Deliver(p)];
    assert all[..|history|] == history;
    XorCompleteness.RecoversExactly(n, all, |history|);
    UnrecoveredIsDelivered(n, all, |history|);
  }

  lemma RunAppend(n: int, events: seq<Event>, e: Event)
    ensures Run(n, events + [e]) == Step(n, Run(n, events), e)
    ensures e.Deliver? ==>
              OutputAt(n, events + [e], |events|) == EntryStep(n, Entry(Run(n, events), e.packet.block), e.packet).1
  {
  }

  method FindMissing(data: map<int, ByteSeq>, size: int) returns (missingSeq: int)
    ensures missingSeq == MissingSlot(data, 0, size)
  {
    missingSeq := -1;
    var i := 0;
    while i < size
      invariant 0 <= i
      invariant MissingSlot(data, 0, size) == MissingSlot(data, i, size)
    {
      if i !in data {
        return i;
      }
      i := i + 1;
    }
  }

  /** A free slot is looked for; then every held packet, in any map order, is XORed into a copy of the parity. */
  method RecoverMissingPacket(block: Block) returns (r: Option<ByteSeq>)
    ensures r == Recover(block)
  {
    if !block.hasParity || block.received != block.size - 1 {
      return None;
    }
    var missingSeq := FindMissing(block.data, block.size);
    if missingSeq == -1 {
      return None;
    }
    var recovered := XorAll(block.parity, block.data);
    assert recovered == Recovery(block);
    r := Some(recovered);
  }

  method XorAll(parity: ByteSeq, data: map<int, ByteSeq>) returns (r: ByteSeq)
    ensures |r| == |parity|
    ensures forall k :: 0 <= k < |r| ==> r[k] == Xor(parity[k], XorMap(data, k))
  {
    var acc := new Byte[|parity|](k requires 0 <= k < |parity| => parity[k]);
    var todo := data.Keys;
    ghost var done: map<int, ByteSeq> := map[];
    forall k | 0 <= k < acc.Length
      ensures acc[k] == Xor(parity[k], XorMap(done, k))
    {
      XorGroup(parity[k], 0, 0);
    }
    while todo != {}
      invariant todo <= data.Keys && done.Keys == data.Keys - todo
      invariant forall s :: s in done ==> done[s] == data[s]
      invariant forall k :: 0 <= k < acc.Length ==> acc[k] == Xor(parity[k], XorMap(done, k))
      decreases |todo|
    {
      EmptyWhenNoMember(todo);
      var s :| s in todo;
      XorOneMore(acc, parity, data, done, s);
      done := done[s := data[s]];
      todo := todo - {s};
    }
    SameMap(done, data);
    r := acc[..];
  }

  lemma SameMap(a: map<int, ByteSeq>, b: map<int, ByteSeq>)
    requires a.Keys == b.Keys && forall s :: s in a ==> a[s] == b[s]
    ensures a == b
  {
    forall s | s in a
      ensures s in b && a[s] == b[s]
    {
      assert s in b.Keys;
    }
  }

  method XorOneMore(acc: array<Byte>, parity: ByteSeq, data: map<int, ByteSeq>, ghost done: map<int, ByteSeq>, s: int)
    requires acc.Length == |parity| && s in data && s !in done
    requires forall k :: 0 <= k < acc.Length ==> acc[k] == Xor(parity[k], XorMap(done, k))
    modifies acc
    ensures forall k :: 0 <= k < acc.Length ==> acc[k] == Xor(parity[k], XorMap(done[s := data[s]], k))
  {
    var packet := data[s];
    var minLen := acc.Length;
    if |packet| < minLen {
      minLen := |packet|;
    }
    XorIntoPrefix(acc, packet, minLen);
    forall k | 0 <= k < acc.Length
      ensures acc[k] == Xor(parity[k], XorMap(done[s := packet], k))
    {
      var x, a := XorMap(done, k), At(packet, k);
      assert done[s := packet] - {s} == done;
      XorMapRemove(done[s := packet], s, k);
      XorGroup(parity[k], x, a);
      XorGroup(Xor(parity[k], x), 0, 0);
    }
  }
}
