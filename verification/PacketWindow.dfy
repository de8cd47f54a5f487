/**
 The rolling window over the last N sent packets: a ring of samples with an index from packet
 numbers to slots, compared with the plain log of sends, acknowledgements and losses.
 */
module PacketWindow {

  datatype Status = Unknown | Acked | Lost

  /** One slot of the ring. Time zero stands for the zero time of an unused slot. */
  datatype Sample = Sample(t: int, num: int, size: int, st: Status)

  datatype Ring = Ring(slots: seq<Sample>, head: nat, count: nat, byNum: map<int, nat>)

  datatype Event = Sent(num: int, size: int, t: int) | Ack(num: int) | Loss(num: int)

  function EmptyRing(n: nat): Ring {
    Ring(seq(n, _ => Sample(0, 0, 0, Unknown)), 0, 0, map[])
  }

  // ---------------------------------------------------------------- ring operations

  function OnSent(n: nat, r: Ring, num: int, size: int, t: int): Ring
    requires |r.slots| == n && r.head < n
  {
    var full := r.count == n;
    var index := if full then r.byNum - {r.slots[r.head].num} else r.byNum;
    Ring(r.slots[r.head := Sample(t, num, size, Unknown)], if r.head + 1 == n then 0 else r.head + 1,
         if full then n else r.count + 1, index[num := r.head])
  }

  function OnAck(r: Ring, num: int): Ring {
    if num in r.byNum && r.byNum[num] < |r.slots| then
      r.(slots := r.slots[r.byNum[num] := r.slots[r.byNum[num]].(st := Acked)])
    else r
  }

  function OnLoss(r: Ring, num: int): Ring {
    if num in r.byNum && r.byNum[num] < |r.slots| && r.slots[r.byNum[num]].st == Unknown then
      r.(slots := r.slots[r.byNum[num] := r.slots[r.byNum[num]].(st := Lost)])
    else r
  }

  /** Slots are filled from the front and then reused in turn; every index entry points at a live slot
      that holds its own number. */
  predicate Sound(n: nat, r: Ring) {
    && n >= 1 && |r.slots| == n && r.head < n && r.count <= n
    && (r.count < n ==> r.head == r.count)
    && (forall num :: num in r.byNum ==> r.byNum[num] < r.count && r.slots[r.byNum[num]].num == num)
  }

  function Step(n: nat, r: Ring, e: Event): Ring
    requires Sound(n, r)
  {
    match e
    case Sent(num, size, t) => OnSent(n, r, num, size, t)
    case Ack(num) => OnAck(r, num)
    case Loss(num) => OnLoss(r, num)
  }

  lemma SoundStep(n: nat, r: Ring, e: Event)
    requires Sound(n, r)
    ensures Sound(n, Step(n, r, e))
  {
  }

  /** The ring after a log of events. No assumption is needed for the index to stay sound. */
  function Run(n: nat, log: seq<Event>): (r: Ring)
    requires n >= 1
    ensures Sound(n, r)
  {
    if log == [] then EmptyRing(n)
    else
      var before := Run(n, log[..|log| - 1]);
      SoundStep(n, before, log[|log| - 1]);
      Step(n, before, log[|log| - 1])
  }

  /** For every log, repeated numbers or not: an acknowledgement or loss changes only live samples of its own number. */
  lemma OnlyOwnNumberChanges(n: nat, log: seq<Event>, num: int, i: nat)
    requires n >= 1 && i < n
    ensures
      var r := Run(n, log);
      && (OnAck(r, num).slots[i] != r.slots[i] ==> i < r.count && r.slots[i].num == num)
      && (OnLoss(r, num).slots[i] != r.slots[i] ==> i < r.count && r.slots[i].num == num)
  {
  }

  // ---------------------------------------------------------------- the window in order

  /** The slot of the `i`-th oldest live sample. */
  function Slot(n: nat, r: Ring, i: nat): nat
    requires Sound(n, r) && i < r.count
  {
    var x := r.head + n - r.count + i;
    if x >= n then x - n else x
  }

  function Contents(n: nat, r: Ring): (c: seq<Sample>)
    requires Sound(n, r)
    ensures |c| == r.count
  {
    seq(r.count, i requires 0 <= i < r.count => r.slots[Slot(n, r, i)])
  }

  lemma SlotLive(n: nat, r: Ring, i: nat)
    requires Sound(n, r) && i < r.count
    ensures Slot(n, r, i) < r.count
    ensures Slot(n, r, i) == (r.head - r.count + i + n) % n
  {
    ModOnce(r.head - r.count + i + n, n);
  }

  lemma ModOnce(x: nat, n: nat)
    requires n >= 1 && x < 2 * n
    ensures x % n == if x >= n then x - n else x
  {
    var q, m := x / n, x % n;
    assert x == q * n + m && 0 <= m < n;
    if q >= 2 {
      assert false;
    }
  }

  /** Every live slot has a place in the window. */
  lemma PlaceOf(n: nat, r: Ring, slot: nat) returns (i: nat)
    requires Sound(n, r) && slot < r.count
    ensures i < r.count && Slot(n, r, i) == slot
  {
    if r.count < n {
      i := slot;
    } else {
      i := if slot >= r.head then slot - r.head else slot + n - r.head;
    }
  }

  lemma ContentsSent(n: nat, r: Ring, num: int, size: int, t: int)
    requires Sound(n, r)
    ensures Sound(n, OnSent(n, r, num, size, t))
    ensures Contents(n, OnSent(n, r, num, size, t)) ==
            (if r.count == n then Contents(n, r)[1..] else Contents(n, r)) + [Sample(t, num, size, Unknown)]
  {
    SoundStep(n, r, Sent(num, size, t));
    var s := OnSent(n, r, num, size, t);
    var kept := if r.count == n then Contents(n, r)[1..] else Contents(n, r);
    forall i | 0 <= i < s.count
      ensures Contents(n, s)[i] == (kept + [Sample(t, num, size, Unknown)])[i]
    {
      SlotAfterSent(n, r, num, size, t, i);
    }
  }

  lemma SlotAfterSent(n: nat, r: Ring, num: int, size: int, t: int, i: nat)
    requires Sound(n, r) && Sound(n, OnSent(n, r, num, size, t)) && i < OnSent(n, r, num, size, t).count
    ensures
      var s := OnSent(n, r, num, size, t);
      if i == s.count - 1 then Slot(n, s, i) == r.head
      else
        var j := if r.count == n then i + 1 else i;
        j < r.count && Slot(n, s, i) == Slot(n, r, j) && Slot(n, s, i) != r.head
  {
  }

  // ---------------------------------------------------------------- the log

  /** Where the sends are in a log. */
  function Sends(log: seq<Event>): (r: seq<nat>)
    ensures forall k :: 0 <= k < |r| ==> r[k] < |log| && log[r[k]].Sent?
  {
    if log == [] then []
    else
      var n := |log| - 1;
      var before := Sends(log[..n]);
      assert forall k :: 0 <= k < |before| ==> log[before[k]] == log[..n][before[k]];
      if log[n].Sent? then before + [n] else before
  }

  ghost predicate Follows(log: seq<Event>, p: nat, e: Event) {
    exists k :: p < k < |log| && log[k] == e
  }

  /** Acknowledged if an acknowledgement follows the send; lost if a loss does and no acknowledgement. */
  ghost function LoggedStatus(log: seq<Event>, p: nat, num: int): Status {
    if Follows(log, p, Ack(num)) then Acked else if Follows(log, p, Loss(num)) then Lost else Unknown
  }

  ghost function Logged(log: seq<Event>, p: nat): Sample
    requires p < |log| && log[p].Sent?
  {
    Sample(log[p].t, log[p].num, log[p].size, LoggedStatus(log, p, log[p].num))
  }

  function LastOf(n: nat, ps: seq<nat>): seq<nat> {
    if |ps| <= n then ps else ps[|ps| - n..]
  }

  /** What the log says about the last `n` sends. */
  ghost function Cohort(n: nat, log: seq<Event>): (c: seq<Sample>)
    ensures |c| == |LastOf(n, Sends(log))|
  {
    var ps := LastOf(n, Sends(log));
    seq(|ps|, i requires 0 <= i < |ps| => Logged(log, ps[i]))
  }

  /** Packet numbers are distinct within any `n` consecutive sends. */
  predicate DistinctWithin(n: nat, log: seq<Event>) {
    var ps := Sends(log);
    forall j, k :: 0 <= j < k < |ps| && k - j < n ==> log[ps[j]].num != log[ps[k]].num
  }

  /** How one more event shows in an older sample. */
  function Mark(s: Sample, e: Event): Sample {
    match e
    case Sent(_, _, _) => s
    case Ack(num) => if s.num == num then s.(st := Acked) else s
    case Loss(num) => if s.num == num && s.st == Unknown then s.(st := Lost) else s
  }

  lemma FollowsAppend(log: seq<Event>, p: nat, e: Event, x: Event)
    requires p < |log|
    ensures Follows(log + [e], p, x) <==> Follows(log, p, x) || e == x
  {
    var all := log + [e];
    if Follows(log, p, x) {
      var k :| p < k < |log| && log[k] == x;
      assert all[k] == x;
    }
    if e == x {
      assert all[|log|] == x;
    }
    if Follows(all, p, x) && e != x {
      var k :| p < k < |all| && all[k] == x;
      assert log[k] == x;
    }
  }

  lemma LoggedAppend(log: seq<Event>, p: nat, e: Event)
    requires p < |log| && log[p].Sent?
    ensures Logged(log + [e], p) == Mark(Logged(log, p), e)
  {
    FollowsAppend(log, p, e, Ack(log[p].num));
    FollowsAppend(log, p, e, Loss(log[p].num));
  }

  lemma LoggedLast(log: seq<Event>, e: Event)
    requires e.Sent?
    ensures Logged(log + [e], |log|) == Sample(e.t, e.num, e.size, Unknown)
  {
  }

  lemma SendsAppend(log: seq<Event>, e: Event)
    ensures Sends(log + [e]) == Sends(log) + (if e.Sent? then [|log|] else [])
  {
    assert (log + [e])[..|log|] == log;
  }

  lemma CohortMark(n: nat, log: seq<Event>, e: Event)
    requires !e.Sent?
    ensures |Cohort(n, log + [e])| == |Cohort(n, log)|
    ensures forall i :: 0 <= i < |Cohort(n, log)| ==> Cohort(n, log + [e])[i] == Mark(Cohort(n, log)[i], e)
  {
    SendsAppend(log, e);
    assert Sends(log + [e]) == Sends(log);
    var ps := LastOf(n, Sends(log));
    forall i | 0 <= i < |ps|
      ensures Cohort(n, log + [e])[i] == Mark(Cohort(n, log)[i], e)
    {
      LoggedAppend(log, ps[i], e);
    }
  }

  lemma CohortSent(n: nat, log: seq<Event>, e: Event)
    requires n >= 1 && e.Sent?
    ensures Cohort(n, log + [e]) ==
            (if |Cohort(n, log)| == n then Cohort(n, log)[1..] else Cohort(n, log)) +
            [Sample(e.t, e.num, e.size, Unknown)]
  {
    SendsAppend(log, e);
    LoggedLast(log, e);
    var ps, qs := LastOf(n, Sends(log)), LastOf(n, Sends(log + [e]));
    var kept := if |ps| == n then ps[1..] else ps;
    assert qs == kept + [|log|];
    forall i | 0 <= i < |kept|
      ensures Cohort(n, log + [e])[i] == (if |ps| == n then Cohort(n, log)[1..] else Cohort(n, log))[i]
    {
      LoggedAppend(log, kept[i], e);
    }
  }

  // ---------------------------------------------------------------- the ring agrees with the log

  /** The window is what the log says about the last `n` sends. */
  ghost predicate Agrees(n: nat, log: seq<Event>)
    requires n >= 1
  {
    Contents(n, Run(n, log)) == Cohort(n, log)
  }

  /** The index knows every live slot, so numbers in the window are distinct. */
  predicate Complete(n: nat, r: Ring) {
    Sound(n, r) && forall i :: 0 <= i < r.count ==> r.slots[i].num in r.byNum && r.byNum[r.slots[i].num] == i
  }

  lemma ContentsMark(n: nat, r: Ring, e: Event)
    requires Complete(n, r) && !e.Sent?
    ensures Complete(n, Step(n, r, e))
    ensures forall i :: 0 <= i < r.count ==> Contents(n, Step(n, r, e))[i] == Mark(Contents(n, r)[i], e)
  {
    SoundStep(n, r, e);
    var s := Step(n, r, e);
    forall i | 0 <= i < r.count
      ensures Contents(n, s)[i] == Mark(Contents(n, r)[i], e)
    {
      SlotLive(n, r, i);
      var k := Slot(n, r, i);
      assert Slot(n, s, i) == k;
      assert r.byNum[r.slots[k].num] == k;
    }
  }

  lemma CompleteSent(n: nat, r: Ring, e: Event)
    requires Complete(n, r) && e.Sent?
    requires forall i :: (if r.count == n then 1 else 0) <= i < r.count ==> Contents(n, r)[i].num != e.num
    ensures Complete(n, Step(n, r, e))
  {
    SoundStep(n, r, e);
    var s := Step(n, r, e);
    forall k | 0 <= k < s.count && k != r.head
      ensures s.slots[k].num in s.byNum && s.byNum[s.slots[k].num] == k
    {
      var i := PlaceOf(n, r, k);
      assert Contents(n, r)[i] == r.slots[k];
      assert r.count == n && i == 0 ==> k == r.head;
      assert r.count == n ==> r.byNum[r.slots[r.head].num] == r.head;
    }
  }

  lemma FreshNumber(n: nat, log: seq<Event>, e: Event)
    requires n >= 1 && e.Sent? && DistinctWithin(n, log + [e])
    ensures DistinctWithin(n, log)
    ensures forall i :: (if |Cohort(n, log)| == n then 1 else 0) <= i < |Cohort(n, log)| ==>
                          Cohort(n, log)[i].num != e.num
  {
    var all := log + [e];
    SendsAppend(log, e);
    var ps, qs := Sends(log), Sends(all);
    assert forall k :: 0 <= k < |ps| ==> qs[k] == ps[k] && all[qs[k]] == log[ps[k]];
    assert qs[|ps|] == |log| && all[|log|] == e;
    var last := LastOf(n, ps);
    forall i | (if |last| == n then 1 else 0) <= i < |last|
      ensures Cohort(n, log)[i].num != e.num
    {
      var j := |ps| - |last| + i;
      assert last[i] == ps[j];
      assert all[qs[j]].num != all[qs[|ps|]].num;
    }
  }

  /**
   For every log whose packet numbers are distinct within any `n` consecutive sends, through any
   number of wraparounds: the ring holds, in order, exactly the last `n` sends with the status that
   the whole log gives them.
   */
  lemma {:induction false} RingAgreesWithLog(n: nat, log: seq<Event>)
    requires n >= 1 && DistinctWithin(n, log)
    ensures Complete(n, Run(n, log))
    ensures Agrees(n, log)
  {
    if log == [] {
    } else {
      var k := |log| - 1;
      var before, e := log[..k], log[k];
      assert log == before + [e];
      if e.Sent? {
        FreshNumber(n, before, e);
        RingAgreesWithLog(n, before);
        ContentsSent(n, Run(n, before), e.num, e.size, e.t);
        CohortSent(n, before, e);
        CompleteSent(n, Run(n, before), e);
      } else {
        SendsAppend(before, e);
        DistinctPrefix(n, before, e);
        RingAgreesWithLog(n, before);
        ContentsMark(n, Run(n, before), e);
        CohortMark(n, before, e);
      }
    }
  }

  lemma DistinctPrefix(n: nat, log: seq<Event>, e: Event)
    requires !e.Sent? && DistinctWithin(n, log + [e])
    ensures DistinctWithin(n, log)
  {
    SendsAppend(log, e);
    assert Sends(log + [e]) == Sends(log);
    assert forall k :: 0 <= k < |Sends(log)| ==> (log + [e])[Sends(log)[k]] == log[Sends(log)[k]];
  }

  /**
   Distinctness is needed: with a window of two, the second packet 5 is still in the window when
   the first one is evicted and takes the index entry away, so its acknowledgement goes unnoticed.
   */
  lemma RepeatedNumberMissesAck()
    ensures
      var log := [Sent(5, 1, 1), Sent(5, 1, 2), Sent(6, 1, 3), Ack(5)];
      && Contents(2, Run(2, log))[0] == Sample(2, 5, 1, Unknown)
      && Cohort(2, log)[0] == Sample(2, 5, 1, Acked)
  {
    var a, b, c, d := Sent(5, 1, 1), Sent(5, 1, 2), Sent(6, 1, 3), Ack(5);
    var l0: seq<Event> := [];
    var l1, l2, l3, l4 := l0 + [a], l0 + [a] + [b], l0 + [a] + [b] + [c], l0 + [a] + [b] + [c] + [d];
    assert l4 == [a, b, c, d];
    RunAppend(2, l0, a);
    RunAppend(2, l1, b);
    RunAppend(2, l2, c);
    RunAppend(2, l3, d);
    var r2, r3 := Run(2, l2), Run(2, l3);
    assert r2.head == 0 && r2.count == 2 && r2.slots[0].num == 5 && r2.slots[1] == Sample(2, 5, 1, Unknown);
    assert r3.head == 1 && r3.count == 2 && r3.slots[1] == r2.slots[1] && 5 !in r3.byNum;
    assert Run(2, l4) == r3;
    assert Slot(2, r3, 0) == 1;
    SendsAppend(l0, a);
    SendsAppend(l1, b);
    SendsAppend(l2, c);
    SendsAppend(l3, d);
    assert Sends(l4) == [0, 1, 2];
    assert Follows(l4, 1, Ack(5)) by {
      assert l4[3] == Ack(5);
    }
  }

  /** The packet numbers sent in a log, in order. */
  function Numbers(log: seq<Event>): (nums: seq<int>)
    ensures |nums| == |Sends(log)|
  {
    seq(|Sends(log)|, k requires 0 <= k < |Sends(log)| => log[Sends(log)[k]].num)
  }

  predicate DistinctNumbers(n: nat, nums: seq<int>) {
    forall j, k :: 0 <= j < k < |nums| && k - j < n ==> nums[j] != nums[k]
  }

  /** Sends of the given numbers and nothing else. */
  function SendAll(nums: seq<int>): seq<Event> {
    seq(|nums|, k requires 0 <= k < |nums| => Sent(nums[k], 1, 1))
  }

  lemma {:induction false} SendAllSends(nums: seq<int>)
    ensures |Sends(SendAll(nums))| == |nums|
    ensures forall k :: 0 <= k < |nums| ==> Sends(SendAll(nums))[k] == k
  {
    if nums != [] {
      var k := |nums| - 1;
      SendAllSends(nums[..k]);
      SendsAppend(SendAll(nums[..k]), Sent(nums[k], 1, 1));
      SendAllLast(nums);
    }
  }

  lemma SendAllLast(nums: seq<int>)
    requires nums != []
    ensures SendAll(nums) == SendAll(nums[..|nums| - 1]) + [Sent(nums[|nums| - 1], 1, 1)]
  {
  }

  /** After sends alone, the window shows the last numbers, none of them acknowledged or lost. */
  lemma SendAllCohort(n: nat, nums: seq<int>, i: nat)
    requires n >= 1 && i < |nums| && |nums| - i <= n
    ensures
      var c := Cohort(n, SendAll(nums));
      && |c| == (if |nums| <= n then |nums| else n)
      && c[|c| - (|nums| - i)] == Sample(1, nums[i], 1, Unknown)
  {
    SendAllSends(nums);
    var log := SendAll(nums);
    var ps := LastOf(n, Sends(log));
    assert ps[|ps| - (|nums| - i)] == i;
    assert Logged(log, i) == Sample(1, nums[i], 1, Unknown);
  }

  /** An acknowledgement reaches no older sample than the last one sent with its number. */
  lemma OlderSampleMissesAck(n: nat, log: seq<Event>, e: Event, i: nat)
    requires n >= 1 && e.Sent? && i + 1 < Run(n, log + [e]).count
    ensures
      var all := log + [e];
      && Run(n, all + [Ack(e.num)]).count == Run(n, all).count
      && Contents(n, Run(n, all + [Ack(e.num)]))[i] == Contents(n, Run(n, all))[i]
  {
    hide Run, Sound, Contents;
    RunAppend(n, log, e);
    RunAppend(n, log + [e], Ack(e.num));
    AckReachesLast(n, Run(n, log), e.num, e.size, e.t, i);
  }

  lemma AckReachesLast(n: nat, r: Ring, num: int, size: int, t: int, i: nat)
    requires Sound(n, r) && i + 1 < OnSent(n, r, num, size, t).count
    ensures
      var s := OnSent(n, r, num, size, t);
      && Sound(n, s) && Sound(n, OnAck(s, num)) && OnAck(s, num).count == s.count
      && Contents(n, OnAck(s, num))[i] == Contents(n, s)[i]
  {
    var s := OnSent(n, r, num, size, t);
    SoundStep(n, r, Sent(num, size, t));
    SoundStep(n, s, Ack(num));
    SlotAfterSent(n, r, num, size, t, i);
    hide Sound;
    assert s.byNum[num] == r.head && Slot(n, OnAck(s, num), i) == Slot(n, s, i);
  }

  lemma SendAllNumbers(nums: seq<int>, num: int)
    ensures Numbers(SendAll(nums)) == nums && Numbers(SendAll(nums) + [Ack(num)]) == nums
  {
    SendAllSends(nums);
    SendsAppend(SendAll(nums), Ack(num));
    assert Sends(SendAll(nums) + [Ack(num)]) == Sends(SendAll(nums));
  }

  /** The last number repeats one still in the window: the log acknowledges both samples, the ring one. */
  lemma RepeatMissesAck(n: nat, log: seq<Event>, e: Event, i: nat)
    requires n >= 1 && e.Sent? && i + 1 < |Cohort(n, log + [e])|
    requires Cohort(n, log + [e])[i].num == e.num && Cohort(n, log + [e])[i].st == Unknown
    ensures !Agrees(n, log + [e]) || !Agrees(n, log + [e] + [Ack(e.num)])
  {
    hide Run, Contents, Cohort, Sound;
    if Agrees(n, log + [e]) {
      CohortMark(n, log + [e], Ack(e.num));
      OlderSampleMissesAck(n, log, e, i);
      assert Cohort(n, log + [e] + [Ack(e.num)])[i].st == Acked;
    }
  }

  lemma RepeatDisagrees(n: nat, sent: seq<int>, j: nat)
    requires n >= 1 && j + 1 < |sent| && |sent| - 1 - j < n && sent[j] == sent[|sent| - 1]
    ensures !Agrees(n, SendAll(sent)) || !Agrees(n, SendAll(sent) + [Ack(sent[j])])
  {
    hide Agrees, Cohort, SendAll, LastOf;
    SendAllLast(sent);
    SendAllCohort(n, sent, j);
    var log, e := SendAll(sent[..|sent| - 1]), Sent(sent[|sent| - 1], 1, 1);
    var i := |Cohort(n, SendAll(sent))| - (|sent| - j);
    assert SendAll(sent) == log + [e];
    assert Cohort(n, log + [e])[i] == Sample(1, e.num, 1, Unknown);
    RepeatMissesAck(n, log, e, i);
  }

  lemma RepeatRefutes(n: nat, nums: seq<int>, sent: seq<int>, j: nat)
    requires n >= 1 && sent <= nums && j + 1 < |sent| && |sent| - 1 - j < n && sent[j] == sent[|sent| - 1]
    ensures exists log :: Numbers(log) <= nums && !Agrees(n, log)
  {
    hide Agrees, Numbers, SendAll;
    var all := SendAll(sent);
    var acked := all + [Ack(sent[j])];
    SendAllNumbers(sent, sent[j]);
    RepeatDisagrees(n, sent, j);
    assert Numbers(all) <= nums && Numbers(acked) <= nums;
  }

  lemma DistinctNumbersInLog(n: nat, nums: seq<int>, log: seq<Event>)
    requires DistinctNumbers(n, nums) && Numbers(log) <= nums
    ensures DistinctWithin(n, log)
  {
    var ps := Sends(log);
    forall j, k | 0 <= j < k < |ps| && k - j < n
      ensures log[ps[j]].num != log[ps[k]].num
    {
      assert Numbers(log)[j] == nums[j] && Numbers(log)[k] == nums[k];
    }
  }

  /**
   The exact condition, in the packet numbers a caller is going to send: the ring agrees with the
   log, whatever acknowledgements and losses come in between and wherever the log stops, if and only
   if no number comes back within a window of `n` sends.
   */
  lemma AgreementExact(n: nat, nums: seq<int>)
    requires n >= 1
    ensures (forall log | Numbers(log) <= nums :: Agrees(n, log)) <==> DistinctNumbers(n, nums)
  {
    hide Agrees, Numbers;
    if DistinctNumbers(n, nums) {
      forall log | Numbers(log) <= nums
        ensures Agrees(n, log)
      {
        DistinctNumbersInLog(n, nums, log);
        RingAgreesWithLog(n, log);
      }
    } else {
      var j, k :| 0 <= j < k < |nums| && k - j < n && nums[j] == nums[k];
      RepeatRefutes(n, nums, nums[..k + 1], j);
    }
  }

  // ---------------------------------------------------------------- totals

  datatype Totals = Totals(sent: nat, acked: nat, lost: nat, bytes: int)

  /** Totals of a list of samples. */
  function Tally(c: seq<Sample>): Totals {
    if c == [] then Totals(0, 0, 0, 0)
    else
      Counted(Tally(c[..|c| - 1]), c[|c| - 1])
  }

  function TotalSize(c: seq<Sample>): int {
    if c == [] then 0 else c[0].size + TotalSize(c[1..])
  }

  lemma {:induction false} TotalSizeLast(c: seq<Sample>)
    requires c != []
    ensures TotalSize(c) == TotalSize(c[..|c| - 1]) + c[|c| - 1].size
  {
    var k := |c| - 1;
    if k > 0 {
      TotalSizeLast(c[1..]);
      assert c[1..][..k - 1] == c[..k][1..];
    }
  }

  /** Each total counts what its name says. */
  lemma {:induction false} TallyCounts(c: seq<Sample>)
    ensures Tally(c).sent == |c|
    ensures Tally(c).acked == |set i | 0 <= i < |c| && c[i].st == Acked|
    ensures Tally(c).lost == |set i | 0 <= i < |c| && c[i].st == Lost|
    ensures Tally(c).bytes == TotalSize(c)
  {
    if c != [] {
      var k := |c| - 1;
      TallyCounts(c[..k]);
      OneMore(c, k, Acked);
      OneMore(c, k, Lost);
      TotalSizeLast(c);
    }
  }

  lemma OneMore(c: seq<Sample>, k: nat, st: Status)
    requires |c| == k + 1
    ensures |set i | 0 <= i < |c| && c[i].st == st| ==
            |set i | 0 <= i < k && c[..k][i].st == st| + (if c[k].st == st then 1 else 0)
  {
    var all := set i | 0 <= i < |c| && c[i].st == st;
    var before := set i | 0 <= i < k && c[..k][i].st == st;
    forall i | i in before
      ensures i in all
    {
      assert c[..k][i] == c[i];
    }
    forall i | i in all && i != k
      ensures i in before
    {
      assert c[..k][i] == c[i];
    }
    if c[k].st == st {
      assert k in all;
      assert all == before + {k};
    } else {
      assert all == before;
    }
  }

  const SECOND: int := 1_000_000_000

  function Span(c: seq<Sample>): int {
    if c == [] then 0
    else if c[|c| - 1].t > c[0].t then c[|c| - 1].t - c[0].t
    else SECOND
  }

  predicate ClockRuns(log: seq<Event>) {
    forall k :: 0 <= k < |log| && log[k].Sent? ==> log[k].t != 0
  }

  lemma StepKeepsTimed(n: nat, r: Ring, e: Event)
    requires Sound(n, r) && (e.Sent? ==> e.t != 0)
    requires forall i :: 0 <= i < r.count ==> r.slots[i].t != 0
    ensures forall i :: 0 <= i < Step(n, r, e).count ==> i < n && Step(n, r, e).slots[i].t != 0
  {
  }

  /** No live sample carries the zero time, so the totals never skip a slot. */
  lemma {:induction false} LiveSamplesTimed(n: nat, log: seq<Event>)
    requires n >= 1 && ClockRuns(log)
    ensures forall i :: 0 <= i < Run(n, log).count ==> Run(n, log).slots[i].t != 0
  {
    if log != [] {
      var k := |log| - 1;
      LiveSamplesTimed(n, log[..k]);
      StepKeepsTimed(n, Run(n, log[..k]), log[k]);
    }
  }

  class PacketLogger {
    const winPkts: nat
    var ring: array<Sample>
    var ringHead: nat
    var ringCount: nat
    var byNum: map<int, nat>
    ghost var log: seq<Event>

    ghost function View(): Ring
      reads this, ring
    {
      Ring(ring[..], ringHead, ringCount, byNum)
    }

    ghost predicate Valid()
      reads this, ring
    {
      winPkts >= 1 && View() == Run(winPkts, log) && ClockRuns(log)
    }

    /** A window of zero or fewer packets is replaced by one hundred. */
    constructor (windowPackets: int)
      ensures Valid() && fresh(ring) && log == []
      ensures winPkts == if windowPackets <= 0 then 100 else windowPackets
    {
      var n := if windowPackets <= 0 then 100 else windowPackets;
      winPkts := n;
      ring := new Sample[n](_ => Sample(0, 0, 0, Unknown));
      ringHead, ringCount, byNum, log := 0, 0, map[], [];
      new;
      assert ring[..] == EmptyRing(winPkts).slots;
    }

    method Sent(num: int, size: int, now: int)
      requires Valid() && now != 0
      modifies this, ring
      ensures Valid() && ring == old(ring) && log == old(log) + [Event.Sent(num, size, now)]
    {
      SentView(winPkts, log, num, size, now);
      hide Run, Sound;
      ghost var before := View();
      log := log + [Event.Sent(num, size, now)];
      var idx := ringHead;
      if ringCount == winPkts {
        var evicted := ring[idx];
        byNum := byNum - {evicted.num};
      } else {
        ringCount := ringCount + 1;
      }
      ring[idx] := Sample(now, num, size, Unknown);
      byNum := byNum[num := idx];
      ModOnce(ringHead + 1, winPkts);
      ringHead := (ringHead + 1) % winPkts;
      assert ring[..] == before.slots[idx := Sample(now, num, size, Unknown)];
      assert View() == OnSent(winPkts, before, num, size, now);
    }

    method Acknowledged(num: int)
      requires Valid()
      modifies this, ring
      ensures Valid() && ring == old(ring) && log == old(log) + [Ack(num)]
    {
      RunAppend(winPkts, log, Ack(num));
      log := log + [Ack(num)];
      if num in byNum {
        var idx := byNum[num];
        ring[idx] := ring[idx].(st := Acked);
      }
    }

    method LostPacket(num: int)
      requires Valid()
      modifies this, ring
      ensures Valid() && ring == old(ring) && log == old(log) + [Loss(num)]
    {
      RunAppend(winPkts, log, Loss(num));
      log := log + [Loss(num)];
      if num in byNum && ring[byNum[num]].st == Unknown {
        var idx := byNum[num];
        ring[idx] := ring[idx].(st := Lost);
      }
    }

    /** packetWindowMetrics: the totals of the ring are those of the log's last winPkts sends. */
    method Metrics() returns (totals: Totals, span: int)
      requires Valid()
      ensures
        var c := Contents(winPkts, Run(winPkts, log));
        && totals == Tally(c) && span == Span(c)
        && (c == [] ==> totals == Totals(0, 0, 0, 0) && span == 0)
        && (c != [] ==>
              var elapsed := c[|c| - 1].t - c[0].t;
              span == if elapsed > 0 then elapsed else 1_000_000_000)
      ensures DistinctWithin(winPkts, log) ==>
                totals == Tally(Cohort(winPkts, log)) && span == Span(Cohort(winPkts, log))
    {
      if DistinctWithin(winPkts, log) {
        RingAgreesWithLog(winPkts, log);
      }
      if ringCount == 0 {
        return Totals(0, 0, 0, 0), 0;
      }
      LiveSamplesTimed(winPkts, log);
      var firstIdx, lastIdx;
      totals, firstIdx, lastIdx := SumWindow();
      var t0, t1 := ring[firstIdx].t, ring[lastIdx].t;
      span := if t1 > t0 then t1 - t0 else SECOND;
    }

    /** The loop over the live samples in order; slots that were never written would be skipped. */
    method SumWindow() returns (totals: Totals, firstIdx: int, lastIdx: int)
      requires Sound(winPkts, View()) && ringCount > 0
      requires forall i :: 0 <= i < ringCount ==> ring[i].t != 0
      ensures totals == Tally(Contents(winPkts, View()))
      ensures 0 <= firstIdx < ring.Length && ring[firstIdx] == Contents(winPkts, View())[0]
      ensures 0 <= lastIdx < ring.Length && ring[lastIdx] == Contents(winPkts, View())[ringCount - 1]
    {
      ghost var c := Contents(winPkts, View());
      totals, firstIdx, lastIdx := Totals(0, 0, 0, 0), -1, -1;
      for i := 0 to ringCount
        invariant totals == Tally(c[..i])
        invariant i == 0 ==> firstIdx == -1
        invariant i > 0 ==> 0 <= firstIdx < ring.Length && ring[firstIdx] == c[0]
        invariant i > 0 ==> 0 <= lastIdx < ring.Length && ring[lastIdx] == c[i - 1]
      {
        SlotLive(winPkts, View(), i);
        var idx := (ringHead - ringCount + i + winPkts) % winPkts;
        var s := ring[idx];
        assert s == c[i];
        if s.num != 0 || s.size != 0 || s.t != 0 {
          if firstIdx == -1 {
            firstIdx := idx;
          }
          lastIdx := idx;
          totals := Counted(totals, s);
        }
        TallyNext(c, i);
      }
      assert c[..ringCount] == c;
    }
  }

  function Counted(t: Totals, s: Sample): Totals {
    Totals(t.sent + 1, t.acked + (if s.st == Acked then 1 else 0), t.lost + (if s.st == Lost then 1 else 0),
           t.bytes + s.size)
  }

  lemma TallyNext(c: seq<Sample>, i: nat)
    requires i < |c|
    ensures Tally(c[..i + 1]) == Counted(Tally(c[..i]), c[i])
  {
    assert c[..i + 1][..i] == c[..i];
  }

  /** What a send does to the ring of a log, and where it writes. */
  lemma SentView(n: nat, log: seq<Event>, num: int, size: int, t: int)
    requires n >= 1
    ensures
      var r := Run(n, log);
      && |r.slots| == n && r.head < n && r.count <= n
      && Run(n, log + [Sent(num, size, t)]) == OnSent(n, r, num, size, t)
    ensures ClockRuns(log) && t != 0 ==> ClockRuns(log + [Sent(num, size, t)])
  {
    RunAppend(n, log, Sent(num, size, t));
  }

  lemma RunAppend(n: nat, log: seq<Event>, e: Event)
    requires n >= 1
    ensures Run(n, log + [e]) == Step(n, Run(n, log), e)
  {
    assert (log + [e])[..|log|] == log;
  }
}
