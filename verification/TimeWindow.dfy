/**
 The rolling window over time: six lists of stamped counts, appended to and pruned from the front
 on every event, compared with the full history filtered by time.
 */
module TimeWindow {

  /** A stampCount or a byteSample. */
  datatype Stamp = Stamp(t: int, v: int)

  /** The six lists. */
  datatype Kind = SentPkts | RcvdPkts | AckedPkts | LostPkts | SentBytes | RcvdBytes

  /** Events with their clock readings; acknowledgements and losses read the clock again before pruning. */
  datatype Event =
    | Sent(size: int, now: int)
    | Rcvd(size: int, now: int)
    | Acked(now: int, later: int)
    | Lost(now: int, later: int)
    | MetricsUpdated(now: int)

  function PruneTime(e: Event): int {
    if e.Acked? || e.Lost? then e.later else e.now
  }

  /** The stamps that an event appends to a list. */
  function Added(k: Kind, e: Event): seq<Stamp> {
    match (k, e)
    case (SentPkts, Sent(_, now)) => [Stamp(now, 1)]
    case (SentBytes, Sent(size, now)) => [Stamp(now, size)]
    case (RcvdPkts, Rcvd(_, now)) => [Stamp(now, 1)]
    case (RcvdBytes, Rcvd(size, now)) => [Stamp(now, size)]
    case (AckedPkts, Acked(now, _)) => [Stamp(now, 1)]
    case (LostPkts, Lost(now, _)) => [Stamp(now, 1)]
    case _ => []
  }

  /** A list without its leading stamps older than `cut`. */
  function Dropped(s: seq<Stamp>, cut: int): seq<Stamp> {
    if s != [] && s[0].t < cut then Dropped(s[1..], cut) else s
  }

  /** One list after a run: every event appends to it and prunes it. */
  function Run(k: Kind, window: int, log: seq<Event>): seq<Stamp> {
    if log == [] then []
    else
      var e := log[|log| - 1];
      Dropped(Run(k, window, log[..|log| - 1]) + Added(k, e), PruneTime(e) - window)
  }

  // ---------------------------------------------------------------- full history

  function History(k: Kind, log: seq<Event>): seq<Stamp> {
    if log == [] then [] else History(k, log[..|log| - 1]) + Added(k, log[|log| - 1])
  }

  /** All stamps not older than `cut`, wherever they stand. */
  function Since(s: seq<Stamp>, cut: int): seq<Stamp> {
    if s == [] then []
    else
      var k := |s| - 1;
      if s[k].t >= cut then Since(s[..k], cut) + [s[k]] else Since(s[..k], cut)
  }

  /** The clock never runs backwards. */
  predicate Monotone(log: seq<Event>) {
    && (forall k :: 0 <= k < |log| ==> log[k].now <= PruneTime(log[k]))
    && (forall j, k :: 0 <= j < k < |log| ==> PruneTime(log[j]) <= log[k].now)
  }

  predicate Sorted(s: seq<Stamp>, upTo: int) {
    && (forall j, k :: 0 <= j < k < |s| ==> s[j].t <= s[k].t)
    && (forall k :: 0 <= k < |s| ==> s[k].t <= upTo)
  }

  lemma {:induction false} SinceAll(s: seq<Stamp>, cut: int)
    requires forall k :: 0 <= k < |s| ==> s[k].t >= cut
    ensures Since(s, cut) == s
  {
    if s != [] {
      SinceAll(s[..|s| - 1], cut);
    }
  }

  lemma {:induction false} SinceFront(s: seq<Stamp>, cut: int)
    requires s != [] && s[0].t < cut
    ensures Since(s, cut) == Since(s[1..], cut)
  {
    var k := |s| - 1;
    if k > 0 {
      SinceFront(s[..k], cut);
      assert s[..k][1..] == s[1..][..k - 1];
    }
  }

  /** On a sorted list, dropping from the front is filtering. */
  lemma {:induction false} DroppedIsSince(s: seq<Stamp>, upTo: int, cut: int)
    requires Sorted(s, upTo)
    ensures Dropped(s, cut) == Since(s, cut)
  {
    if s != [] && s[0].t < cut {
      SinceFront(s, cut);
      DroppedIsSince(s[1..], upTo, cut);
    } else {
      SinceAll(s, cut);
    }
  }

  /** Filtering twice with a growing bound is filtering once. */
  lemma {:induction false} SinceTwice(s: seq<Stamp>, early: int, late: int)
    requires early <= late
    ensures Since(Since(s, early), late) == Since(s, late)
  {
    if s != [] {
      var k := |s| - 1;
      SinceTwice(s[..k], early, late);
      if s[k].t >= early {
        var f := Since(s[..k], early);
        assert (f + [s[k]])[..|f|] == f;
      }
    }
  }

  lemma {:induction false} SinceSorted(s: seq<Stamp>, upTo: int, cut: int)
    requires Sorted(s, upTo)
    ensures Sorted(Since(s, cut), upTo)
    ensures forall x :: x in Since(s, cut) ==> x in s
  {
    if s != [] {
      var k := |s| - 1;
      SinceSorted(s[..k], upTo, cut);
      forall x | x in Since(s[..k], cut)
        ensures x.t <= s[k].t && x in s
      {
        assert x in s[..k];
      }
    }
  }

  lemma SinceAppend(s: seq<Stamp>, more: seq<Stamp>, cut: int)
    requires |more| <= 1
    ensures Since(s + more, cut) == Since(s, cut) + Since(more, cut)
  {
    if |more| == 0 {
      assert s + more == s;
    } else {
      assert (s + more)[..|s|] == s && (s + more)[|s|] == more[0];
      assert Since(more[..0], cut) == [];
    }
  }

  lemma SortedAppend(s: seq<Stamp>, more: seq<Stamp>, last: int, now: int, upTo: int)
    requires Sorted(s, last) && last <= now <= upTo
    requires |more| <= 1 && forall k :: 0 <= k < |more| ==> more[k].t == now
    ensures Sorted(s + more, upTo)
  {
  }

  /** One list under one event that appends `more` and prunes at `cut`. */
  lemma ListStep(hist: seq<Stamp>, more: seq<Stamp>, last: int, now: int, early: int, cut: int)
    requires Sorted(hist, last) && last <= now && early <= cut
    requires |more| <= 1 && forall k :: 0 <= k < |more| ==> more[k].t == now
    ensures Dropped(Since(hist, early) + more, cut) == Since(hist + more, cut)
  {
    var kept := Since(hist, early);
    SinceSorted(hist, last, early);
    SortedAppend(kept, more, last, now, now);
    DroppedIsSince(kept + more, now, cut);
    SinceAppend(kept, more, cut);
    SinceTwice(hist, early, cut);
    SinceAppend(hist, more, cut);
  }

  /** When the lists were last pruned. */
  function LastPrune(log: seq<Event>): int
    requires log != []
  {
    PruneTime(log[|log| - 1])
  }

  /**
   With a clock that never runs backwards, after any run each incrementally pruned list is its full
   history filtered by the time of the last prune minus the window.
   */
  lemma {:induction false} ListIsWindow(k: Kind, window: int, log: seq<Event>)
    requires log != [] && Monotone(log)
    ensures Sorted(History(k, log), LastPrune(log))
    ensures Run(k, window, log) == Since(History(k, log), LastPrune(log) - window)
  {
    hide Since, Dropped, Sorted, Added, Monotone;
    var n := |log| - 1;
    var before, e := log[..n], log[n];
    var cut := PruneTime(e) - window;
    AddedShape(k, e);
    MonotonePrefix(log);
    assert Run(k, window, log) == Dropped(Run(k, window, before) + Added(k, e), cut);
    assert History(k, log) == History(k, before) + Added(k, e);
    var last := if n == 0 then e.now else LastPrune(before);
    var early := if n == 0 then cut else LastPrune(before) - window;
    if n > 0 {
      ListIsWindow(k, window, before);
    }
    EmptyList(early, last);
    assert Run(k, window, before) == Since(History(k, before), early);
    SortedAppend(History(k, before), Added(k, e), last, e.now, PruneTime(e));
    ListStep(History(k, before), Added(k, e), last, e.now, early, cut);
  }

  lemma EmptyList(cut: int, last: int)
    ensures Since([], cut) == [] && Sorted([], last)
  {
  }

  lemma AddedShape(k: Kind, e: Event)
    ensures |Added(k, e)| <= 1 && forall i :: 0 <= i < |Added(k, e)| ==> Added(k, e)[i].t == e.now
  {
  }

  lemma MonotonePrefix(log: seq<Event>)
    requires log != [] && Monotone(log)
    ensures
      var before, e := log[..|log| - 1], log[|log| - 1];
      Monotone(before) && e.now <= PruneTime(e) && (before != [] ==> LastPrune(before) <= e.now)
  {
  }

  // ---------------------------------------------------------------- the logger

  function Sum(s: seq<Stamp>): int {
    if s == [] then 0 else Sum(s[..|s| - 1]) + s[|s| - 1].v
  }

  method PruneStamps(s: seq<Stamp>, cut: int) returns (r: seq<Stamp>)
    ensures r == Dropped(s, cut)
  {
    var i := 0;
    while i < |s| && s[i].t < cut
      invariant 0 <= i <= |s|
      invariant Dropped(s, cut) == Dropped(s[i..], cut)
    {
      assert s[i..][1..] == s[i + 1..];
      i := i + 1;
    }
    r := s[i..];
  }

  method SumStamps(s: seq<Stamp>) returns (n: int)
    ensures n == Sum(s)
  {
    n := 0;
    for i := 0 to |s|
      invariant n == Sum(s[..i])
    {
      assert s[..i + 1][..i] == s[..i];
      n := n + s[i].v;
    }
    assert s[..|s|] == s;
  }

  // ---------------------------------------------------------------- what the sums count

  /** The events of one kind that happened at `cut` or later, by their place in the log. */
  function SentSince(log: seq<Event>, cut: int): set<nat> {
    set i: nat | i < |log| && log[i].Sent? && log[i].now >= cut
  }

  function RcvdSince(log: seq<Event>, cut: int): set<nat> {
    set i: nat | i < |log| && log[i].Rcvd? && log[i].now >= cut
  }

  function AckedSince(log: seq<Event>, cut: int): set<nat> {
    set i: nat | i < |log| && log[i].Acked? && log[i].now >= cut
  }

  function LostSince(log: seq<Event>, cut: int): set<nat> {
    set i: nat | i < |log| && log[i].Lost? && log[i].now >= cut
  }

  /** The octets of the packets sent, or received, at `cut` or later. */
  function SentOctets(log: seq<Event>, cut: int): int {
    if log == [] then 0
    else
      (if log[0].Sent? && log[0].now >= cut then log[0].size else 0) + SentOctets(log[1..], cut)
  }

  function RcvdOctets(log: seq<Event>, cut: int): int {
    if log == [] then 0
    else
      (if log[0].Rcvd? && log[0].now >= cut then log[0].size else 0) + RcvdOctets(log[1..], cut)
  }

  /** What a list reports, told from the log alone. */
  function Reported(k: Kind, log: seq<Event>, cut: int): int {
    match k
    case SentPkts => |SentSince(log, cut)|
    case RcvdPkts => |RcvdSince(log, cut)|
    case AckedPkts => |AckedSince(log, cut)|
    case LostPkts => |LostSince(log, cut)|
    case SentBytes => SentOctets(log, cut)
    case RcvdBytes => RcvdOctets(log, cut)
  }

  lemma OneMore(before: set<nat>, all: set<nat>, n: nat, counts: bool)
    requires forall i :: i in before ==> i < n
    requires forall i :: i in all <==> i in before || (i == n && counts)
    ensures |all| == |before| + if counts then 1 else 0
  {
    if counts {
      assert all == before + {n};
    } else {
      assert all == before;
    }
  }

  lemma {:induction false} OctetsAppend(log: seq<Event>, e: Event, cut: int)
    ensures SentOctets(log + [e], cut) == SentOctets(log, cut) + SentOctets([e], cut)
    ensures RcvdOctets(log + [e], cut) == RcvdOctets(log, cut) + RcvdOctets([e], cut)
  {
    if log == [] {
      assert log + [e] == [e];
    } else {
      OctetsAppend(log[1..], e, cut);
      assert (log + [e])[1..] == log[1..] + [e];
    }
  }

  lemma CountsAppend(log: seq<Event>, e: Event, cut: int)
    ensures |SentSince(log + [e], cut)| == |SentSince(log, cut)| + if e.Sent? && e.now >= cut then 1 else 0
    ensures |RcvdSince(log + [e], cut)| == |RcvdSince(log, cut)| + if e.Rcvd? && e.now >= cut then 1 else 0
    ensures |AckedSince(log + [e], cut)| == |AckedSince(log, cut)| + if e.Acked? && e.now >= cut then 1 else 0
    ensures |LostSince(log + [e], cut)| == |LostSince(log, cut)| + if e.Lost? && e.now >= cut then 1 else 0
  {
    var all, n := log + [e], |log|;
    OneMore(SentSince(log, cut), SentSince(all, cut), n, e.Sent? && e.now >= cut);
    OneMore(RcvdSince(log, cut), RcvdSince(all, cut), n, e.Rcvd? && e.now >= cut);
    OneMore(AckedSince(log, cut), AckedSince(all, cut), n, e.Acked? && e.now >= cut);
    OneMore(LostSince(log, cut), LostSince(all, cut), n, e.Lost? && e.now >= cut);
  }

  /** What one event adds to what a list reports. */
  function Adds(k: Kind, e: Event, cut: int): int {
    if e.now < cut then 0
    else
      match k
      case SentPkts => if e.Sent? then 1 else 0
      case RcvdPkts => if e.Rcvd? then 1 else 0
      case AckedPkts => if e.Acked? then 1 else 0
      case LostPkts => if e.Lost? then 1 else 0
      case SentBytes => if e.Sent? then e.size else 0
      case RcvdBytes => if e.Rcvd? then e.size else 0
  }

  lemma ReportedAppend(k: Kind, log: seq<Event>, e: Event, cut: int)
    ensures Reported(k, log + [e], cut) == Reported(k, log, cut) + Adds(k, e, cut)
  {
    hide SentSince, RcvdSince, AckedSince, LostSince;
    CountsAppend(log, e, cut);
    OctetsAppend(log, e, cut);
    assert SentOctets([e], cut) == (if e.Sent? && e.now >= cut then e.size else 0) + SentOctets([e][1..], cut);
    assert RcvdOctets([e], cut) == (if e.Rcvd? && e.now >= cut then e.size else 0) + RcvdOctets([e][1..], cut);
  }

  lemma SumAppend(s: seq<Stamp>, more: seq<Stamp>)
    requires |more| <= 1
    ensures Sum(s + more) == Sum(s) + if more == [] then 0 else more[0].v
  {
    if more == [] {
      assert s + more == s;
    } else {
      assert (s + more)[..|s|] == s;
    }
  }

  lemma SinceOne(k: Kind, e: Event, cut: int)
    ensures |Since(Added(k, e), cut)| <= 1
    ensures (if Since(Added(k, e), cut) == [] then 0 else Since(Added(k, e), cut)[0].v) == Adds(k, e, cut)
  {
    var s := Added(k, e);
    if |s| == 1 {
      assert Since(s[..0], cut) == [];
    }
  }

  /** The history of a list, filtered by time, sums up to what the log says. */
  lemma {:induction false} SumIsReported(k: Kind, log: seq<Event>, cut: int)
    ensures Sum(Since(History(k, log), cut)) == Reported(k, log, cut)
  {
    if log == [] {
      assert SentSince(log, cut) == {} && RcvdSince(log, cut) == {};
      assert AckedSince(log, cut) == {} && LostSince(log, cut) == {};
    } else {
      var n := |log| - 1;
      var before, e := log[..n], log[n];
      SumIsReported(k, before, cut);
      hide Added, Reported, Adds;
      assert log == before + [e];
      ReportedAppend(k, before, e, cut);
      AddedShape(k, e);
      SinceAppend(History(k, before), Added(k, e), cut);
      SinceOne(k, e, cut);
      SumAppend(Since(History(k, before), cut), Since(Added(k, e), cut));
    }
  }

  /** A list sums up to what the log says about the window that ends at the last prune. */
  lemma ListReports(k: Kind, window: int, log: seq<Event>)
    requires Monotone(log)
    ensures log == [] ==> Sum(Run(k, window, log)) == 0
    ensures log != [] ==> Sum(Run(k, window, log)) == Reported(k, log, LastPrune(log) - window)
  {
    hide Reported, Since, History, Monotone;
    if log != [] {
      ListIsWindow(k, window, log);
      SumIsReported(k, log, LastPrune(log) - window);
    }
  }

  class TimeLogger {
    const window: int
    var sentPkts: seq<Stamp>
    var rcvdPkts: seq<Stamp>
    var ackedPkts: seq<Stamp>
    var lostPkts: seq<Stamp>
    var sentBytes: seq<Stamp>
    var rcvdBytes: seq<Stamp>
    ghost var log: seq<Event>

    function List(k: Kind): seq<Stamp>
      reads this
    {
      match k
      case SentPkts => sentPkts
      case RcvdPkts => rcvdPkts
      case AckedPkts => ackedPkts
      case LostPkts => lostPkts
      case SentBytes => sentBytes
      case RcvdBytes => rcvdBytes
    }

    ghost predicate Valid()
      reads this
    {
      forall k :: List(k) == Run(k, window, log)
    }

    constructor (window: int)
      ensures Valid() && this.window == window && log == []
    {
      this.window, log := window, [];
      sentPkts, rcvdPkts, ackedPkts, lostPkts, sentBytes, rcvdBytes := [], [], [], [], [], [];
    }

    method Prune(now: int)
      modifies this
      ensures forall k :: List(k) == Dropped(old(List(k)), now - window)
      ensures log == old(log)
    {
      hide Dropped;
      var cut := now - window;
      sentPkts := PruneStamps(sentPkts, cut);
      rcvdPkts := PruneStamps(rcvdPkts, cut);
      ackedPkts := PruneStamps(ackedPkts, cut);
      lostPkts := PruneStamps(lostPkts, cut);
      sentBytes := PruneStamps(sentBytes, cut);
      rcvdBytes := PruneStamps(rcvdBytes, cut);
    }

    /** onSent, onRcvd, onAck, onLoss and the metrics callback: append the stamps of the event, then prune. */
    method Record(e: Event)
      requires Valid()
      modifies this
      ensures Valid() && log == old(log) + [e]
    {
      hide Run, Dropped, Added;
      AppendStamps(e);
      Prune(PruneTime(e));
      log := log + [e];
      forall k
        ensures List(k) == Run(k, window, log)
      {
        RunAppend(k, window, old(log), e);
      }
    }

    method AppendStamps(e: Event)
      modifies this
      ensures forall k :: List(k) == old(List(k)) + Added(k, e)
      ensures log == old(log)
    {
      match e {
        case Sent(size, now) =>
          sentPkts := sentPkts + [Stamp(now, 1)];
          sentBytes := sentBytes + [Stamp(now, size)];
        case Rcvd(size, now) =>
          rcvdPkts := rcvdPkts + [Stamp(now, 1)];
          rcvdBytes := rcvdBytes + [Stamp(now, size)];
        case Acked(now, _) => ackedPkts := ackedPkts + [Stamp(now, 1)];
        case Lost(now, _) => lostPkts := lostPkts + [Stamp(now, 1)];
        case MetricsUpdated(_) =>
      }
    }

    /** The reported sums count the packets, or the octets, of the window that ends at the last event,
        for acknowledgements and losses at their second clock reading. */
    method Metrics(k: Kind) returns (n: int)
      requires Valid() && Monotone(log)
      ensures log == [] ==> n == 0
      ensures log != [] ==>
                var last := log[|log| - 1];
                n == Reported(k, log, (if last.Acked? || last.Lost? then last.later else last.now) - window)
    {
      ListReports(k, window, log);
      hide Run, Sum, Reported;
      n := SumStamps(List(k));
    }
  }

  lemma RunAppend(k: Kind, window: int, log: seq<Event>, e: Event)
    ensures Run(k, window, log + [e]) == Dropped(Run(k, window, log) + Added(k, e), PruneTime(e) - window)
  {
  }
}
