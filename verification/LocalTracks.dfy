/**
 The publishing side of a session: incoming SUBSCRIBE and FETCH requests, the pending and open
 registries of local tracks, and the replies that handlers cause. A handler may call its response
 writers at any time, also from other goroutines while later control messages are handled.
 */
module LocalTracks {
  import opened Bytes
  import RequestCredit

  datatype Kind = Subscription | Fetch

  /** A localTrack object: requests allocate them in order and are referred to by their position. */
  datatype Track = Track(id: nat, kind: Kind, subgroupCount: nat, closed: bool)

  /** What the session hands to the connection: control messages, each with whether its write
      succeeded, and newly opened subgroup streams. */
  datatype Out =
    | Accepted(id: nat, wrote: bool)                 // SUBSCRIBE_OK or FETCH_OK
    | Rejected(id: nat, wrote: bool)                 // SUBSCRIBE_ERROR or FETCH_ERROR
    | Done(id: nat, streamCount: nat, wrote: bool)   // SUBSCRIBE_DONE
    | StreamOpened(id: nat)                          // a subgroup stream of the track
    | LimitRaised(limit: nat, wrote: bool)           // MAX_REQUEST_ID

  /** The request whose handler is running, and whether it has called Accept or Reject. */
  datatype Handling = Handling(track: nat, handled: bool)

  datatype State = State(
    limit: nat, tracks: seq<Track>, pending: map<nat, nat>, open: map<nat, nat>,
    current: Option<Handling>, failed: bool, log: seq<Out>, seen: set<nat>)

  /** The steps, each with the outcome of what it writes. */
  datatype Action =
    | OnRequest(id: nat, kind: Kind, sent: Sent)   // SUBSCRIBE or FETCH received, up to the call of the handler
    | OnInvalidRequest                             // SUBSCRIBE or FETCH that fails validation
    | HandlerReturns(wrote: bool)                  // the rest of onSubscribe or onFetch
    | OnUnsubscribe(id: nat)
    | OnFetchCancel(id: nat)
    | Accept(track: nat, wrote: bool)
    | Reject(track: nat, wrote: bool)
    | Close(track: nat, wrote: bool)               // CloseWithError of a subscription
    | OpenSubgroup(track: nat, opens: bool)

  /** Receiving a request may write a raised limit and an error. */
  datatype Sent = Sent(limit: bool, error: bool)

  function Init(limit: nat): State {
    State(limit, [], map[], map[], None, false, [], {})
  }

  // ---------------------------------------------------------------- registry operations

  function Confirm(s: State, id: nat, wrote: bool): State {
    if id !in s.pending then s
    else
      s.(pending := s.pending - {id}, open := s.open[id := s.pending[id]], log := s.log + [Accepted(id, wrote)])
  }

  function RejectPending(s: State, id: nat, wrote: bool): State {
    if id !in s.pending then s else s.(pending := s.pending - {id}, log := s.log + [Rejected(id, wrote)])
  }

  predicate Known(s: State, id: nat) {
    id in s.pending || id in s.open
  }

  /** findByID: pending tracks first. */
  function Find(s: State, id: nat): nat
    requires Known(s, id)
  {
    if id in s.pending then s.pending[id] else s.open[id]
  }

  function Delete(s: State, id: nat): State {
    s.(pending := s.pending - {id}, open := s.open - {id})
  }

  function Cancel(s: State, h: nat): State {
    if h < |s.tracks| then s.(tracks := s.tracks[h := s.tracks[h].(closed := true)]) else s
  }

  function MarkHandled(s: State, h: nat): State {
    if s.current.Some? && s.current.value.track == h then s.(current := Some(Handling(h, true))) else s
  }

  // ---------------------------------------------------------------- steps

  /** addLocalTrack, and the refusals that follow when it fails. */
  function Request(s: State, id: nat, kind: Kind, sent: Sent): State {
    if id >= s.limit then Refuse(s, id, kind, sent.error)
    else
      var raised := RequestCredit.Raised(s.limit, id);
      var t := if raised == s.limit then s else s.(limit := raised, log := s.log + [LimitRaised(raised, sent.limit)]);
      if Known(t, id) then Refuse(t, id, kind, sent.error)
      else
        t.(tracks := t.tracks + [Track(id, kind, 0, false)], pending := t.pending[id := |t.tracks|],
           current := Some(Handling(|t.tracks|, false)))
  }

  /** SUBSCRIBE is answered with an error, and failing to write it ends the reading loop; FETCH goes
      through rejectFetch and ends the reading loop anyway. */
  function Refuse(s: State, id: nat, kind: Kind, wrote: bool): State {
    if kind == Subscription then s.(log := s.log + [Rejected(id, wrote)], failed := s.failed || !wrote)
    else RejectPending(s, id, wrote).(failed := true)
  }

  /** An unhandled request is rejected; if it is no longer pending or the error cannot be written, that
      ends the reading loop. */
  function HandlerReturned(s: State, wrote: bool): State {
    if s.current.None? then s
    else
      var c := s.current.value;
      var t := s.(current := None);
      if c.handled || c.track >= |s.tracks| then t
      else
        var id := s.tracks[c.track].id;
        if id in s.pending then RejectPending(t, id, wrote).(failed := s.failed || !wrote) else t.(failed := true)
  }

  function CloseTrack(s: State, h: nat, wrote: bool): State {
    if h >= |s.tracks| || s.tracks[h].kind == Fetch then s
    else
      var t := Cancel(s, h);
      var id := s.tracks[h].id;
      if !Known(s, id) then t
      else Delete(t, id).(log := s.log + [Done(id, s.tracks[h].subgroupCount, wrote)])
  }

  function OpenStream(s: State, h: nat, opens: bool): State {
    if h >= |s.tracks| || s.tracks[h].closed || !opens || s.tracks[h].kind == Fetch then s
    else
      var t := s.tracks[h];
      s.(tracks := s.tracks[h := t.(subgroupCount := t.subgroupCount + 1)], log := s.log + [StreamOpened(t.id)])
  }

  predicate Reading(s: State) {
    s.current.None? && !s.failed
  }

  function Step(s: State, a: Action): State {
    match a
    case OnRequest(id, kind, sent) =>
      if Reading(s) then Request(s, id, kind, sent).(seen := s.seen + {id}) else s
    case OnInvalidRequest => if Reading(s) then s.(failed := true) else s
    case HandlerReturns(wrote) => HandlerReturned(s, wrote)
    case OnUnsubscribe(id) =>
      if !Reading(s) then s else if Known(s, id) then Cancel(s, Find(s, id)) else s.(failed := true)
    case OnFetchCancel(id) =>
      if !Reading(s) then s else if Known(s, id) then Delete(Cancel(s, Find(s, id)), id) else s.(failed := true)
    case Accept(h, wrote) => if h < |s.tracks| then Confirm(MarkHandled(s, h), s.tracks[h].id, wrote) else s
    case Reject(h, wrote) => if h < |s.tracks| then RejectPending(MarkHandled(s, h), s.tracks[h].id, wrote) else s
    case Close(h, wrote) => CloseTrack(s, h, wrote)
    case OpenSubgroup(h, opens) => OpenStream(s, h, opens)
  }

  function Run(limit: nat, actions: seq<Action>): State {
    if actions == [] then Init(limit)
    else Step(Run(limit, actions[..|actions| - 1]), actions[|actions| - 1])
  }

  // ---------------------------------------------------------------- nothing stays pending

  /** Only the request being handled can be pending, and only until it is accepted or rejected. */
  predicate PendingIsCurrent(s: State) {
    && (s.current.None? ==> s.pending == map[])
    && (s.current.Some? ==>
          && s.current.value.track < |s.tracks|
          && (forall id :: id in s.pending ==>
                && !s.current.value.handled && id == s.tracks[s.current.value.track].id
                && s.pending[id] == s.current.value.track))
  }

  lemma PendingAfterRequest(s: State, id: nat, kind: Kind, sent: Sent)
    requires PendingIsCurrent(s) && s.current.None?
    ensures PendingIsCurrent(Request(s, id, kind, sent))
  {
    assert forall i :: i !in s.pending;
    NothingPending(Request(s, id, kind, sent).pending);
  }

  /** Handling an answer: whatever it answers is no longer pending. */
  lemma PendingAfterAnswer(s: State, h: nat, wrote: bool)
    requires PendingIsCurrent(s) && h < |s.tracks|
    ensures
      var t := MarkHandled(s, h);
      PendingIsCurrent(Confirm(t, s.tracks[h].id, wrote)) && PendingIsCurrent(RejectPending(t, s.tracks[h].id, wrote))
  {
    var t, id := MarkHandled(s, h), s.tracks[h].id;
    assert forall i :: i in s.pending - {id} ==> i in s.pending && i != id;
    NothingPending(s.pending - {id});
    assert id in s.pending && s.current.Some? ==> s.pending[id] == s.current.value.track;
  }

  lemma PendingAfterReturn(s: State, wrote: bool)
    requires PendingIsCurrent(s)
    ensures PendingIsCurrent(HandlerReturned(s, wrote))
  {
    if s.current.Some? {
      var t := HandlerReturned(s, wrote);
      assert forall i :: i !in t.pending;
      NothingPending(t.pending);
    }
  }

  /** Changing tracks other than by their IDs, or removing registered ones, adds nothing pending. */
  lemma PendingAfterRemoval(s: State, t: State)
    requires PendingIsCurrent(s) && t.current == s.current && |t.tracks| == |s.tracks|
    requires forall h :: 0 <= h < |s.tracks| ==> t.tracks[h].id == s.tracks[h].id
    requires forall id :: id in t.pending ==> id in s.pending && t.pending[id] == s.pending[id]
    ensures PendingIsCurrent(t)
  {
    NothingPending(t.pending);
  }

  lemma PendingIsCurrentStep(s: State, a: Action)
    requires PendingIsCurrent(s)
    ensures PendingIsCurrent(Step(s, a))
  {
    hide Request, HandlerReturned, PendingIsCurrent, Confirm, RejectPending, MarkHandled;
    match a
    case OnRequest(id, kind, sent) => if Reading(s) { PendingUnseen(s, id, kind, sent); }
    case HandlerReturns(wrote) => PendingAfterReturn(s, wrote);
    case Accept(h, wrote) => if h < |s.tracks| { PendingAfterAnswer(s, h, wrote); }
    case Reject(h, wrote) => if h < |s.tracks| { PendingAfterAnswer(s, h, wrote); }
    case OnInvalidRequest => PendingAfterRemoval(s, Step(s, a));
    case OnUnsubscribe(_) => PendingAfterRemoval(s, Step(s, a));
    case OnFetchCancel(_) => PendingAfterRemoval(s, Step(s, a));
    case Close(_, _) => PendingAfterRemoval(s, Step(s, a));
    case OpenSubgroup(_, _) => PendingAfterRemoval(s, Step(s, a));
  }

  lemma PendingUnseen(s: State, id: nat, kind: Kind, sent: Sent)
    requires PendingIsCurrent(s) && s.current.None?
    ensures PendingIsCurrent(Request(s, id, kind, sent).(seen := s.seen + {id}))
  {
    PendingAfterRequest(s, id, kind, sent);
  }

  lemma NothingPending(m: map<nat, nat>)
    ensures (forall id :: id !in m) ==> m == map[]
  {
  }

  lemma {:induction false} RunPendingIsCurrent(limit: nat, actions: seq<Action>)
    ensures PendingIsCurrent(Run(limit, actions))
  {
    if actions != [] {
      RunPendingIsCurrent(limit, actions[..|actions| - 1]);
      PendingIsCurrentStep(Run(limit, actions[..|actions| - 1]), actions[|actions| - 1]);
    }
  }

  // ---------------------------------------------------------------- one answer per request

  predicate IsReply(o: Out, id: nat) {
    (o.Accepted? || o.Rejected? || o.Done?) && o.id == id
  }

  /** The replies to request `id`, in the order they were handed to the control stream. */
  function Replies(log: seq<Out>, id: nat): seq<Out> {
    if log == [] then []
    else
      var k := |log| - 1;
      if IsReply(log[k], id) then Replies(log[..k], id) + [log[k]] else Replies(log[..k], id)
  }

  /** How many subgroup streams were opened for request `id`. */
  function Streams(log: seq<Out>, id: nat): nat {
    if log == [] then 0
    else
      var k := |log| - 1;
      Streams(log[..k], id) + (if log[k] == StreamOpened(id) then 1 else 0)
  }

  lemma LogAppend(log: seq<Out>, o: Out, id: nat)
    ensures Replies(log + [o], id) == if IsReply(o, id) then Replies(log, id) + [o] else Replies(log, id)
    ensures Streams(log + [o], id) == Streams(log, id) + (if o == StreamOpened(id) then 1 else 0)
  {
  }

  /** An answered request: OK, or ERROR, or DONE because the handler closed first, or OK and later DONE,
      where DONE counts the streams of the closed track. */
  predicate Answered(p: seq<Out>, t: Track) {
    || (|p| == 1 && IsOk(p[0], t.id))
    || (|p| == 1 && IsError(p[0], t.id))
    || (t.kind == Subscription && t.closed && |p| == 1 && IsDone(p[0], t))
    || (t.kind == Subscription && t.closed && |p| == 2 && IsOk(p[0], t.id) && IsDone(p[1], t))
  }

  predicate IsOk(o: Out, id: nat) {
    o.Accepted? && o.id == id
  }

  predicate IsError(o: Out, id: nat) {
    o.Rejected? && o.id == id
  }

  predicate IsDone(o: Out, t: Track) {
    o.Done? && o.id == t.id && o.streamCount == t.subgroupCount
  }

  predicate TrackInvariant(s: State, h: nat)
    requires h < |s.tracks|
  {
    var t := s.tracks[h];
    var p := Replies(s.log, t.id);
    && t.id in s.seen
    && Streams(s.log, t.id) == t.subgroupCount
    && (if t.id in s.pending then s.pending[t.id] == h && t.id !in s.open && p == []
        else if t.id in s.open then s.open[t.id] == h && |p| == 1 && IsOk(p[0], t.id)
        else Answered(p, t))
  }

  predicate HasTrack(s: State, id: nat) {
    exists h :: 0 <= h < |s.tracks| && s.tracks[h].id == id
  }

  /** An ID that has no track was never admitted: the most it can have got is an error. */
  predicate Trackless(s: State, id: nat) {
    !HasTrack(s, id) ==>
      && !Known(s, id) && Streams(s.log, id) == 0
      && (Replies(s.log, id) == [] ||
          (id in s.seen && |Replies(s.log, id)| == 1 && IsError(Replies(s.log, id)[0], id)))
  }

  predicate RegistryInvariant(s: State) {
    && (forall h, k :: 0 <= h < k < |s.tracks| ==> s.tracks[h].id != s.tracks[k].id)
    && (forall id :: id in s.pending ==> s.pending[id] < |s.tracks| && s.tracks[s.pending[id]].id == id)
    && (forall id :: id in s.open ==> s.open[id] < |s.tracks| && s.tracks[s.open[id]].id == id)
  }

  ghost predicate Invariant(s: State) {
    && RegistryInvariant(s)
    && (forall h :: 0 <= h < |s.tracks| ==> TrackInvariant(s, h))
    && (forall id :: Trackless(s, id))
  }

  /** The step concerns the request of track `h` only: every other track and request is as before. */
  ghost predicate Touches(s: State, t: State, h: nat) {
    && h < |s.tracks| == |t.tracks|
    && t.seen == s.seen
    && t.tracks[h].id == s.tracks[h].id && t.tracks[h].kind == s.tracks[h].kind
    && (forall k :: 0 <= k < |s.tracks| && k != h ==> t.tracks[k] == s.tracks[k])
    && var id := s.tracks[h].id;
       && (forall i :: i != id ==>
             && (i in t.pending <==> i in s.pending)
             && (i in s.pending && i in t.pending ==> t.pending[i] == s.pending[i]))
       && (forall i :: i != id ==>
             && (i in t.open <==> i in s.open)
             && (i in s.open && i in t.open ==> t.open[i] == s.open[i]))
       && (id in t.pending ==> t.pending[id] == h) && (id in t.open ==> t.open[id] == h)
       && (t.log == s.log || exists o :: t.log == s.log + [o] && Concerns(o, id))
  }

  predicate Concerns(o: Out, id: nat) {
    !o.LimitRaised? && o.id == id
  }

  lemma TouchesLog(s: State, t: State, h: nat, i: nat)
    requires h < |s.tracks| && Touches(s, t, h) && i != s.tracks[h].id
    ensures Replies(t.log, i) == Replies(s.log, i) && Streams(t.log, i) == Streams(s.log, i)
  {
  }

  lemma TouchesOther(s: State, t: State, h: nat, k: nat)
    requires Invariant(s) && h < |s.tracks| && Touches(s, t, h) && k < |s.tracks| && k != h
    ensures TrackInvariant(t, k)
  {
    assert TrackInvariant(s, k);
    assert s.tracks[k].id != s.tracks[h].id;
    TouchesLog(s, t, h, s.tracks[k].id);
  }

  lemma TouchesTrackless(s: State, t: State, h: nat, i: nat)
    requires Invariant(s) && h < |s.tracks| && Touches(s, t, h)
    ensures Trackless(t, i)
  {
    assert Trackless(s, i);
    if !HasTrack(t, i) {
      assert t.tracks[h].id != i;
      TouchesLog(s, t, h, i);
      forall k | 0 <= k < |s.tracks|
        ensures s.tracks[k].id != i
      {
        assert t.tracks[k].id == s.tracks[k].id;
      }
    }
  }

  lemma TouchesRegistry(s: State, t: State, h: nat)
    requires RegistryInvariant(s) && h < |s.tracks| && Touches(s, t, h)
    ensures RegistryInvariant(t)
  {
  }

  /** A step on one track keeps the invariant once it keeps it for that track. */
  lemma TouchesOne(s: State, t: State, h: nat)
    requires Invariant(s) && h < |s.tracks| && Touches(s, t, h) && TrackInvariant(t, h)
    ensures Invariant(t)
  {
    TouchesRegistry(s, t, h);
    forall k | 0 <= k < |t.tracks|
      ensures TrackInvariant(t, k)
    {
      if k != h {
        TouchesOther(s, t, h, k);
      }
    }
    forall i
      ensures Trackless(t, i)
    {
      TouchesTrackless(s, t, h, i);
    }
  }

  lemma ConfirmKeeps(s: State, h: nat, wrote: bool)
    requires Invariant(s) && h < |s.tracks|
    ensures Invariant(Confirm(s, s.tracks[h].id, wrote))
  {
    var id := s.tracks[h].id;
    var t := Confirm(s, id, wrote);
    assert TrackInvariant(s, h);
    if id in s.pending {
      LogAppend(s.log, Accepted(id, wrote), id);
      assert Touches(s, t, h) by { assert Concerns(Accepted(id, wrote), id); }
      TouchesOne(s, t, h);
    }
  }

  lemma RejectKeeps(s: State, h: nat, wrote: bool)
    requires Invariant(s) && h < |s.tracks|
    ensures Invariant(RejectPending(s, s.tracks[h].id, wrote))
  {
    var id := s.tracks[h].id;
    var t := RejectPending(s, id, wrote);
    assert TrackInvariant(s, h);
    if id in s.pending {
      LogAppend(s.log, Rejected(id, wrote), id);
      assert Touches(s, t, h) by { assert Concerns(Rejected(id, wrote), id); }
      TouchesOne(s, t, h);
    }
  }

  lemma CancelKeeps(s: State, h: nat)
    requires Invariant(s)
    ensures Invariant(Cancel(s, h))
  {
    if h < |s.tracks| {
      assert TrackInvariant(s, h);
      TouchesOne(s, Cancel(s, h), h);
    }
  }

  /** Only accepted tracks are ever removed by FETCH_CANCEL, since nothing is pending between messages. */
  lemma DeleteKeeps(s: State, h: nat)
    requires Invariant(s) && h < |s.tracks| && s.tracks[h].id in s.open && s.tracks[h].id !in s.pending
    ensures Invariant(Delete(s, s.tracks[h].id))
  {
    var id := s.tracks[h].id;
    assert TrackInvariant(s, h);
    TouchesOne(s, Delete(s, id), h);
  }

  lemma CloseTouches(s: State, h: nat, wrote: bool)
    requires RegistryInvariant(s) && h < |s.tracks| && s.tracks[h].kind == Subscription && Known(s, s.tracks[h].id)
    ensures Touches(s, CloseTrack(s, h, wrote), h)
  {
    hide Replies, Streams, Answered;
    var o := Done(s.tracks[h].id, s.tracks[h].subgroupCount, wrote);
    assert CloseTrack(s, h, wrote).log == s.log + [o] && Concerns(o, s.tracks[h].id);
  }

  lemma CloseAnswers(s: State, h: nat, wrote: bool)
    requires h < |s.tracks| && s.tracks[h].kind == Subscription && Known(s, s.tracks[h].id) && TrackInvariant(s, h)
    ensures TrackInvariant(CloseTrack(s, h, wrote), h)
  {
    var t := s.tracks[h];
    var done := Done(t.id, t.subgroupCount, wrote);
    LogAppend(s.log, done, t.id);
    hide Replies, Streams;
    var c := CloseTrack(s, h, wrote);
    assert c.tracks[h] == t.(closed := true) && t.id !in c.pending && t.id !in c.open;
    assert c.log == s.log + [done] && c.seen == s.seen;
    hide CloseTrack, Answered;
    DoneAnswers(Replies(s.log, t.id), t, wrote);
  }

  lemma DoneAnswers(p: seq<Out>, t: Track, wrote: bool)
    requires t.kind == Subscription && (p == [] || (|p| == 1 && IsOk(p[0], t.id)))
    ensures Answered(p + [Done(t.id, t.subgroupCount, wrote)], t.(closed := true))
  {
  }

  lemma CloseKeeps(s: State, h: nat, wrote: bool)
    requires Invariant(s)
    ensures Invariant(CloseTrack(s, h, wrote))
  {
    if h < |s.tracks| && s.tracks[h].kind == Subscription {
      assert TrackInvariant(s, h);
      if Known(s, s.tracks[h].id) {
        CloseTouches(s, h, wrote);
        CloseAnswers(s, h, wrote);
        TouchesOne(s, CloseTrack(s, h, wrote), h);
      } else {
        CancelKeeps(s, h);
      }
    }
  }

  lemma OpenKeeps(s: State, h: nat, opens: bool)
    requires Invariant(s)
    ensures Invariant(OpenStream(s, h, opens))
  {
    var t := OpenStream(s, h, opens);
    if h < |s.tracks| && t != s {
      var id := s.tracks[h].id;
      assert TrackInvariant(s, h);
      LogAppend(s.log, StreamOpened(id), id);
      assert t.log == s.log + [StreamOpened(id)] && Concerns(StreamOpened(id), id);
      TouchesOne(s, t, h);
    }
  }

  /** Fields that the invariant does not speak about. */
  lemma Irrelevant(s: State, limit: nat, current: Option<Handling>, failed: bool)
    requires Invariant(s)
    ensures Invariant(s.(limit := limit, current := current, failed := failed))
  {
    var t := s.(limit := limit, current := current, failed := failed);
    forall h | 0 <= h < |t.tracks|
      ensures TrackInvariant(t, h)
    {
      assert TrackInvariant(s, h);
    }
    forall id
      ensures Trackless(t, id)
    {
      assert Trackless(s, id);
      assert HasTrack(s, id) ==> HasTrack(t, id);
    }
  }

  lemma LimitRaisedKeeps(s: State, limit: nat, wrote: bool)
    requires Invariant(s)
    ensures Invariant(s.(log := s.log + [LimitRaised(limit, wrote)]))
  {
    var o := LimitRaised(limit, wrote);
    var t := s.(log := s.log + [o]);
    forall h | 0 <= h < |t.tracks|
      ensures TrackInvariant(t, h)
    {
      assert TrackInvariant(s, h);
      LogAppend(s.log, o, s.tracks[h].id);
    }
    forall id
      ensures Trackless(t, id)
    {
      assert Trackless(s, id);
      assert HasTrack(s, id) ==> HasTrack(t, id);
      LogAppend(s.log, o, id);
    }
  }

  lemma FreshId(s: State, id: nat)
    requires Invariant(s) && id !in s.seen
    ensures !HasTrack(s, id) && !Known(s, id) && Replies(s.log, id) == [] && Streams(s.log, id) == 0
  {
    assert Trackless(s, id);
    forall h | 0 <= h < |s.tracks|
      ensures s.tracks[h].id != id
    {
      assert TrackInvariant(s, h);
    }
  }

  /** A fresh request that is refused: at most one error is written for it, and no track exists for it. */
  lemma RefuseKeeps(s: State, id: nat, kind: Kind, wrote: bool)
    requires Invariant(s) && id !in s.seen
    ensures Invariant(Refuse(s, id, kind, wrote).(seen := s.seen + {id}))
  {
    FreshId(s, id);
    var t := Refuse(s, id, kind, wrote).(seen := s.seen + {id});
    forall h | 0 <= h < |t.tracks|
      ensures TrackInvariant(t, h)
    {
      assert TrackInvariant(s, h);
      LogAppend(s.log, Rejected(id, wrote), s.tracks[h].id);
    }
    forall i
      ensures Trackless(t, i)
    {
      assert Trackless(s, i);
      assert HasTrack(s, i) ==> HasTrack(t, i);
      LogAppend(s.log, Rejected(id, wrote), i);
    }
  }

  lemma AllocateKeeps(s: State, id: nat, kind: Kind, current: Option<Handling>)
    requires Invariant(s) && id !in s.seen
    ensures Invariant(s.(tracks := s.tracks + [Track(id, kind, 0, false)], pending := s.pending[id := |s.tracks|],
                         current := current, seen := s.seen + {id}))
  {
    FreshId(s, id);
    var t := s.(tracks := s.tracks + [Track(id, kind, 0, false)], pending := s.pending[id := |s.tracks|],
                current := current, seen := s.seen + {id});
    forall h | 0 <= h < |t.tracks|
      ensures TrackInvariant(t, h)
    {
      if h < |s.tracks| {
        assert TrackInvariant(s, h);
        assert t.tracks[h] == s.tracks[h];
      }
    }
    forall i
      ensures Trackless(t, i)
    {
      assert Trackless(s, i);
      if !HasTrack(t, i) {
        assert t.tracks[|s.tracks|].id != i;
        forall k | 0 <= k < |s.tracks|
          ensures s.tracks[k].id != i
        {
          assert t.tracks[k].id == s.tracks[k].id;
        }
      }
    }
  }

  lemma RequestKeeps(s: State, id: nat, kind: Kind, sent: Sent)
    requires Invariant(s) && id !in s.seen
    ensures Invariant(Request(s, id, kind, sent).(seen := s.seen + {id}))
  {
    FreshId(s, id);
    if id >= s.limit {
      RefuseKeeps(s, id, kind, sent.error);
    } else {
      var raised := RequestCredit.Raised(s.limit, id);
      var told := s.(log := s.log + [LimitRaised(raised, sent.limit)]);
      var t := if raised == s.limit then s else told.(limit := raised);
      if raised != s.limit {
        LimitRaisedKeeps(s, raised, sent.limit);
        Irrelevant(told, raised, s.current, s.failed);
      }
      AllocateKeeps(t, id, kind, Some(Handling(|t.tracks|, false)));
    }
  }

  lemma HandlerReturnedKeeps(s: State, wrote: bool)
    requires Invariant(s)
    ensures Invariant(HandlerReturned(s, wrote))
  {
    if s.current.Some? {
      var c := s.current.value;
      Irrelevant(s, s.limit, None, s.failed);
      Irrelevant(s, s.limit, None, true);
      if !c.handled && c.track < |s.tracks| {
        var t := s.(current := None);
        RejectKeeps(t, c.track, wrote);
        Irrelevant(RejectPending(t, s.tracks[c.track].id, wrote), s.limit, None, s.failed || !wrote);
      }
    }
  }

  lemma MarkHandledKeeps(s: State, h: nat)
    requires Invariant(s)
    ensures Invariant(MarkHandled(s, h))
  {
    Irrelevant(s, s.limit, Some(Handling(h, true)), s.failed);
  }

  lemma CancelFetchKeeps(s: State, id: nat)
    requires Invariant(s) && s.pending == map[] && id in s.open
    ensures Invariant(Delete(Cancel(s, s.open[id]), id))
  {
    CancelKeeps(s, s.open[id]);
    DeleteKeeps(Cancel(s, s.open[id]), s.open[id]);
  }

  /** Every step keeps the invariant, as long as a received request does not reuse an ID. */
  lemma InvariantStep(s: State, a: Action)
    requires Invariant(s) && PendingIsCurrent(s)
    requires a.OnRequest? ==> a.id !in s.seen
    ensures Invariant(Step(s, a))
  {
    match a
    case OnRequest(id, kind, sent) => if Reading(s) { RequestKeeps(s, id, kind, sent); }
    case OnInvalidRequest => Irrelevant(s, s.limit, s.current, true);
    case HandlerReturns(wrote) => HandlerReturnedKeeps(s, wrote);
    case OnUnsubscribe(id) =>
      if Known(s, id) { CancelKeeps(s, Find(s, id)); }
      Irrelevant(s, s.limit, s.current, true);
    case OnFetchCancel(id) =>
      if Reading(s) && Known(s, id) { CancelFetchKeeps(s, id); }
      Irrelevant(s, s.limit, s.current, true);
    case Accept(h, wrote) =>
      MarkHandledKeeps(s, h);
      if h < |s.tracks| { ConfirmKeeps(MarkHandled(s, h), h, wrote); }
    case Reject(h, wrote) =>
      MarkHandledKeeps(s, h);
      if h < |s.tracks| { RejectKeeps(MarkHandled(s, h), h, wrote); }
    case Close(h, wrote) => CloseKeeps(s, h, wrote);
    case OpenSubgroup(h, opens) => OpenKeeps(s, h, opens);
  }

  /** No two received requests carry the same ID. */
  predicate DistinctRequests(actions: seq<Action>) {
    forall j, k :: 0 <= j < k < |actions| && actions[j].OnRequest? && actions[k].OnRequest? ==>
                     actions[j].id != actions[k].id
  }

  lemma {:induction false} SeenWereReceived(limit: nat, actions: seq<Action>, id: nat)
    requires id in Run(limit, actions).seen
    ensures exists k :: 0 <= k < |actions| && actions[k].OnRequest? && actions[k].id == id
  {
    if actions != [] {
      var n := |actions| - 1;
      var s := Run(limit, actions[..n]);
      SeenGrows(s, actions[n]);
      if id in s.seen {
        SeenWereReceived(limit, actions[..n], id);
        var k :| 0 <= k < n && actions[..n][k].OnRequest? && actions[..n][k].id == id;
        assert actions[k] == actions[..n][k];
      } else {
        assert actions[n].OnRequest? && actions[n].id == id;
      }
    }
  }

  lemma SeenGrows(s: State, a: Action)
    ensures Step(s, a).seen == s.seen || (a.OnRequest? && Step(s, a).seen == s.seen + {a.id})
  {
  }

  lemma {:induction false} RunInvariant(limit: nat, actions: seq<Action>)
    requires DistinctRequests(actions)
    ensures Invariant(Run(limit, actions))
  {
    if actions != [] {
      var n := |actions| - 1;
      var s := Run(limit, actions[..n]);
      RunInvariant(limit, actions[..n]);
      RunPendingIsCurrent(limit, actions[..n]);
      if actions[n].OnRequest? && actions[n].id in s.seen {
        SeenWereReceived(limit, actions[..n], actions[n].id);
        assert false;
      }
      InvariantStep(s, actions[n]);
    }
  }

  /** Everything that was ever handed over for one admitted request, and the streams opened for it. */
  predicate AnsweredOnce(s: State, t: Track) {
    var p := Replies(s.log, t.id);
    && Streams(s.log, t.id) == t.subgroupCount
    && (if t.id in s.pending then p == [] && s.current.Some? else Answered(p, t))
    && (t.id in s.open ==> |p| == 1 && IsOk(p[0], t.id))
  }

  /**
   Between control messages nothing is pending, whatever handlers do and even if IDs are reused;
   with distinct IDs, each admitted request then has exactly one answer: OK, ERROR, DONE because its
   handler closed it first, or OK followed by DONE. DONE carries the number of subgroup streams
   ever opened for the track. A request that was not admitted gets at most one error. This counts
   what is handed to the control stream, whether or not its write succeeds.
   */
  lemma EveryRequestAnsweredOnce(limit: nat, actions: seq<Action>)
    ensures Run(limit, actions).current.None? ==> Run(limit, actions).pending == map[]
    ensures DistinctRequests(actions) ==>
              && (forall t :: t in Run(limit, actions).tracks ==> AnsweredOnce(Run(limit, actions), t))
              && (forall id :: Trackless(Run(limit, actions), id))
  {
    RunPendingIsCurrent(limit, actions);
    if DistinctRequests(actions) {
      RunInvariant(limit, actions);
      var s := Run(limit, actions);
      forall t | t in s.tracks
        ensures AnsweredOnce(s, t)
      {
        var h :| 0 <= h < |s.tracks| && s.tracks[h] == t;
        assert TrackInvariant(s, h);
      }
    }
  }

  // ---------------------------------------------------------------- which answer it is

  /** Step `k` of the run takes request `id` out of pending. */
  predicate Settles(limit: nat, actions: seq<Action>, k: nat, id: nat) {
    && k < |actions|
    && id in Run(limit, actions[..k]).pending && id !in Run(limit, actions[..k + 1]).pending
  }

  /** The reply that belongs to a step which takes a request out of pending. */
  predicate Matches(a: Action, o: Out, id: nat) {
    match a
    case Accept(_, wrote) => o == Accepted(id, wrote)
    case Reject(_, wrote) => o == Rejected(id, wrote)
    case HandlerReturns(wrote) => o == Rejected(id, wrote)
    case Close(_, wrote) => o.Done? && o.id == id && o.wrote == wrote
    case _ => false
  }

  lemma AcceptSettles(s: State, h: nat, wrote: bool, id: nat)
    requires h < |s.tracks| && id in s.pending && id !in Confirm(MarkHandled(s, h), s.tracks[h].id, wrote).pending
    ensures Confirm(MarkHandled(s, h), s.tracks[h].id, wrote).log == s.log + [Accepted(id, wrote)]
  {
  }

  lemma RejectSettles(s: State, h: nat, wrote: bool, id: nat)
    requires h < |s.tracks| && id in s.pending && id !in RejectPending(MarkHandled(s, h), s.tracks[h].id, wrote).pending
    ensures RejectPending(MarkHandled(s, h), s.tracks[h].id, wrote).log == s.log + [Rejected(id, wrote)]
  {
  }

  lemma ReturnSettles(s: State, wrote: bool, id: nat)
    requires id in s.pending && id !in HandlerReturned(s, wrote).pending
    ensures HandlerReturned(s, wrote).log == s.log + [Rejected(id, wrote)]
  {
  }

  lemma CloseSettles(s: State, h: nat, wrote: bool, id: nat)
    requires id in s.pending && id !in CloseTrack(s, h, wrote).pending
    ensures h < |s.tracks| && CloseTrack(s, h, wrote).log == s.log + [Done(id, s.tracks[h].subgroupCount, wrote)]
  {
  }

  /** A step that takes a request out of pending hands over its first reply. */
  lemma SettlingStep(s: State, a: Action, id: nat)
    requires Invariant(s) && PendingIsCurrent(s) && id in s.pending && id !in Step(s, a).pending
    ensures
      var p := Replies(Step(s, a).log, id);
      |p| == 1 && Matches(a, p[0], id)
  {
    assert TrackInvariant(s, s.pending[id]) && Replies(s.log, id) == [];
    hide Replies, Streams, TrackInvariant, Invariant, Request, HandlerReturned, CloseTrack;
    hide Confirm, RejectPending, MarkHandled;
    match a
    case Accept(h, wrote) =>
      AcceptSettles(s, h, wrote, id);
      LogAppend(s.log, Accepted(id, wrote), id);
    case Reject(h, wrote) =>
      RejectSettles(s, h, wrote, id);
      LogAppend(s.log, Rejected(id, wrote), id);
    case HandlerReturns(wrote) =>
      ReturnSettles(s, wrote, id);
      LogAppend(s.log, Rejected(id, wrote), id);
    case Close(h, wrote) =>
      CloseSettles(s, h, wrote, id);
      LogAppend(s.log, Done(id, s.tracks[h].subgroupCount, wrote), id);
    case _ =>
  }

  /** Replies are only ever added. */
  lemma RepliesGrow(s: State, a: Action, id: nat)
    ensures Replies(s.log, id) <= Replies(Step(s, a).log, id)
  {
    StepExtends(s, a);
    LogPrefix(s.log, Step(s, a).log, id);
  }

  /** What happened stays: the log and the tracks only grow, and a new track is pending. */
  predicate Extends(s: State, t: State) {
    && s.log <= t.log
    && |s.tracks| <= |t.tracks| && (forall h :: 0 <= h < |s.tracks| ==> t.tracks[h].id == s.tracks[h].id)
    && (|t.tracks| > |s.tracks| ==> |t.tracks| == |s.tracks| + 1 && t.tracks[|s.tracks|].id in t.pending)
  }

  lemma RequestExtends(s: State, id: nat, kind: Kind, sent: Sent)
    ensures Extends(s, Request(s, id, kind, sent))
  {
    hide Extends, Refuse;
    if id >= s.limit {
      RefuseExtends(s, s, id, kind, sent.error);
    } else {
      var raised := RequestCredit.Raised(s.limit, id);
      var t := if raised == s.limit then s else s.(limit := raised, log := s.log + [LimitRaised(raised, sent.limit)]);
      if Known(t, id) {
        RefuseExtends(s, t, id, kind, sent.error);
      } else {
        AllocateExtends(s, t, id, kind, Some(Handling(|t.tracks|, false)));
      }
    }
  }

  lemma RefuseExtends(s: State, t: State, id: nat, kind: Kind, wrote: bool)
    requires s.log <= t.log && t.tracks == s.tracks
    ensures Extends(s, Refuse(t, id, kind, wrote))
  {
  }

  lemma AllocateExtends(s: State, t: State, id: nat, kind: Kind, current: Option<Handling>)
    requires s.log <= t.log && t.tracks == s.tracks
    ensures Extends(s, t.(tracks := t.tracks + [Track(id, kind, 0, false)], pending := t.pending[id := |t.tracks|],
                          current := current))
  {
  }

  lemma ReturnExtends(s: State, wrote: bool)
    ensures Extends(s, HandlerReturned(s, wrote))
  {
  }

  lemma AnswerExtends(s: State, h: nat, id: nat, wrote: bool)
    ensures Extends(s, Confirm(MarkHandled(s, h), id, wrote)) && Extends(s, RejectPending(MarkHandled(s, h), id, wrote))
  {
  }

  lemma CancelExtends(s: State, h: nat, id: nat)
    ensures Extends(s, Cancel(s, h)) && Extends(s, Delete(Cancel(s, h), id))
  {
  }

  lemma CloseExtends(s: State, h: nat, wrote: bool)
    ensures Extends(s, CloseTrack(s, h, wrote))
  {
  }

  lemma OpenExtends(s: State, h: nat, opens: bool)
    ensures Extends(s, OpenStream(s, h, opens))
  {
  }

  lemma SeenExtends(s: State, t: State, seen: set<nat>)
    requires Extends(s, t)
    ensures Extends(s, t.(seen := seen))
  {
  }

  lemma StepExtends(s: State, a: Action)
    ensures Extends(s, Step(s, a))
  {
    assert Extends(s, s) && Extends(s, s.(failed := true));
    hide Extends, Request, HandlerReturned, Confirm, RejectPending, MarkHandled, CloseTrack, OpenStream, Cancel, Delete;
    match a
    case OnRequest(id, kind, sent) =>
      RequestExtends(s, id, kind, sent);
      SeenExtends(s, Request(s, id, kind, sent), s.seen + {id});
    case HandlerReturns(wrote) => ReturnExtends(s, wrote);
    case Accept(h, wrote) => if h < |s.tracks| { AnswerExtends(s, h, s.tracks[h].id, wrote); }
    case Reject(h, wrote) => if h < |s.tracks| { AnswerExtends(s, h, s.tracks[h].id, wrote); }
    case Close(h, wrote) => CloseExtends(s, h, wrote);
    case OpenSubgroup(h, opens) => OpenExtends(s, h, opens);
    case OnUnsubscribe(id) => if Known(s, id) { CancelExtends(s, Find(s, id), id); }
    case OnFetchCancel(id) => if Known(s, id) { CancelExtends(s, Find(s, id), id); }
    case OnInvalidRequest =>
  }

  lemma {:induction false} LogPrefix(log: seq<Out>, longer: seq<Out>, id: nat)
    requires log <= longer
    ensures Replies(log, id) <= Replies(longer, id)
  {
    if |log| < |longer| {
      LogPrefix(log, longer[..|longer| - 1], id);
    } else {
      assert log == longer;
    }
  }

  lemma {:induction false} FirstReplyStays(limit: nat, actions: seq<Action>, k: nat, id: nat)
    requires k <= |actions|
    ensures Replies(Run(limit, actions[..k]).log, id) <= Replies(Run(limit, actions).log, id)
  {
    if k == |actions| {
      assert actions[..k] == actions;
    } else {
      var n := |actions| - 1;
      assert actions[..n][..k] == actions[..k];
      FirstReplyStays(limit, actions[..n], k, id);
      RepliesGrow(Run(limit, actions[..n]), actions[n], id);
    }
  }

  lemma DistinctPrefix(actions: seq<Action>, k: nat)
    requires k <= |actions| && DistinctRequests(actions)
    ensures DistinctRequests(actions[..k])
  {
  }

  /** Whatever happens later, the first reply is that of the step which took the request out of pending. */
  lemma SettledByMatch(limit: nat, actions: seq<Action>, k: nat, id: nat)
    requires DistinctRequests(actions) && Settles(limit, actions, k, id)
    ensures
      var p := Replies(Run(limit, actions).log, id);
      p != [] && Matches(actions[k], p[0], id)
  {
    DistinctPrefix(actions, k);
    RunInvariant(limit, actions[..k]);
    RunPendingIsCurrent(limit, actions[..k]);
    assert actions[..k + 1][..k] == actions[..k];
    SettlingStep(Run(limit, actions[..k]), actions[k], id);
    FirstReplyStays(limit, actions, k + 1, id);
  }

  /** A new track is pending. */
  lemma NewTrackPending(s: State, a: Action, id: nat)
    requires !HasTrack(s, id) && HasTrack(Step(s, a), id)
    ensures id in Step(s, a).pending
  {
    hide Step;
    StepExtends(s, a);
  }

  lemma {:induction false} SettledOnce(limit: nat, actions: seq<Action>, id: nat)
    requires HasTrack(Run(limit, actions), id) && id !in Run(limit, actions).pending
    ensures exists k :: 0 <= k < |actions| && Settles(limit, actions, k, id)
  {
    if actions != [] {
      var n := |actions| - 1;
      var s := Run(limit, actions[..n]);
      assert actions[..n + 1] == actions;
      if !HasTrack(s, id) {
        NewTrackPending(s, actions[n], id);
        assert false;
      } else if id in s.pending {
        assert Settles(limit, actions, n, id);
      } else {
        SettledOnce(limit, actions[..n], id);
        var k :| 0 <= k < n && Settles(limit, actions[..n], k, id);
        assert actions[..n][..k] == actions[..k] && actions[..n][..k + 1] == actions[..k + 1];
        assert Settles(limit, actions, k, id);
      }
    }
  }

  /** The request left the pending state by a step of this kind. */
  predicate SettledBy(limit: nat, actions: seq<Action>, id: nat, kinds: Action -> bool) {
    exists k :: 0 <= k < |actions| && Settles(limit, actions, k, id) && kinds(actions[k])
  }

  /**
   Which answer an admitted request gets, over whole runs with distinct IDs: OK if and only if it was
   an Accept that ended its pending state, an error if and only if it was a Reject or the return of a
   handler that had done neither, DONE first if and only if it was a close.
   */
  lemma AnswerMatchesStep(limit: nat, actions: seq<Action>, t: Track)
    requires DistinctRequests(actions) && t in Run(limit, actions).tracks && t.id !in Run(limit, actions).pending
    ensures
      var p := Replies(Run(limit, actions).log, t.id);
      && p != []
      && (IsOk(p[0], t.id) <==> SettledBy(limit, actions, t.id, (a: Action) => a.Accept?))
      && (IsError(p[0], t.id) <==> SettledBy(limit, actions, t.id, (a: Action) => a.Reject? || a.HandlerReturns?))
      && (p[0].Done? <==> SettledBy(limit, actions, t.id, (a: Action) => a.Close?))
  {
    var s := Run(limit, actions);
    var h :| 0 <= h < |s.tracks| && s.tracks[h] == t;
    assert HasTrack(s, t.id);
    SettledOnce(limit, actions, t.id);
    forall k | 0 <= k < |actions| && Settles(limit, actions, k, t.id)
      ensures Replies(s.log, t.id) != [] && Matches(actions[k], Replies(s.log, t.id)[0], t.id)
    {
      SettledByMatch(limit, actions, k, t.id);
    }
    hide Settles, Run, Replies;
  }

  // ---------------------------------------------------------------- what the peer sees

  predicate OnWire(o: Out) {
    o.StreamOpened? || o.wrote
  }

  predicate AllOnWire(log: seq<Out>) {
    forall i :: 0 <= i < |log| ==> OnWire(log[i])
  }

  /** The part of some replies whose writes succeeded. */
  function Written(p: seq<Out>): seq<Out> {
    if p == [] then []
    else
      var k := |p| - 1;
      Written(p[..k]) + (if OnWire(p[k]) then [p[k]] else [])
  }

  /** The replies to request `id` that reach the peer. */
  function Received(s: State, id: nat): seq<Out> {
    Written(Replies(s.log, id))
  }

  lemma {:induction false} WrittenAll(p: seq<Out>)
    ensures |Written(p)| <= |p|
    ensures |Written(p)| == |p| <==> AllOnWire(p)
    ensures Written(p) == p <==> AllOnWire(p)
  {
    if p != [] {
      var k := |p| - 1;
      WrittenAll(p[..k]);
      assert p == p[..k] + [p[k]];
      assert AllOnWire(p) <==> AllOnWire(p[..k]) && OnWire(p[k]);
      hide AllOnWire;
      assert !OnWire(p[k]) ==> Written(p) == Written(p[..k]);
    }
  }

  lemma {:induction false} WrittenNone(p: seq<Out>)
    ensures Written(p) == [] <==> forall i :: 0 <= i < |p| ==> !OnWire(p[i])
  {
    if p != [] {
      var k := |p| - 1;
      WrittenNone(p[..k]);
      assert forall i :: 0 <= i < k ==> p[..k][i] == p[i];
    }
  }

  lemma WrittenTwo(p: seq<Out>)
    requires |p| == 2
    ensures Written(p) == (if OnWire(p[0]) then [p[0]] else []) + (if OnWire(p[1]) then [p[1]] else [])
  {
    assert p[..1] == [p[0]] && p[..1][..0] == [];
    assert Written(p[..1]) == if OnWire(p[0]) then [p[0]] else [];
  }

  /** The peer has an answer exactly if one of the replies was written, and all of it exactly if all were. */
  predicate AnsweredOnWire(s: State, t: Track) {
    var p, w := Replies(s.log, t.id), Received(s, t.id);
    && (w == [] || Answered(w, t))
    && (t.id !in s.pending ==>
          && (Answered(w, t) <==> exists i :: 0 <= i < |p| && OnWire(p[i]))
          && (w == p <==> AllOnWire(p)))
  }

  lemma AnswerOnWire(p: seq<Out>, t: Track)
    requires Answered(p, t)
    ensures Written(p) == [] || Answered(Written(p), t)
  {
    if |p| == 2 {
      WrittenTwo(p);
    } else {
      assert p[..0] == [] && p == [p[0]];
    }
  }

  /**
   What reaches the peer, with writes failing anywhere: for distinct IDs never more than one answer to
   an admitted request, some answer if and only if one of its replies was written, and the whole answer
   if and only if all were.
   */
  lemma PeerSeesOneAnswer(limit: nat, actions: seq<Action>)
    requires DistinctRequests(actions)
    ensures forall t :: t in Run(limit, actions).tracks ==> AnsweredOnWire(Run(limit, actions), t)
  {
    EveryRequestAnsweredOnce(limit, actions);
    var s := Run(limit, actions);
    hide Run;
    forall t | t in s.tracks
      ensures AnsweredOnWire(s, t)
    {
      var p := Replies(s.log, t.id);
      assert AnsweredOnce(s, t);
      WrittenAll(p);
      WrittenNone(p);
      if t.id !in s.pending {
        AnswerOnWire(p, t);
      }
    }
  }

  /** No write of the step fails. */
  predicate Writes(a: Action) {
    match a
    case OnRequest(_, _, sent) => sent.limit && sent.error
    case HandlerReturns(wrote) => wrote
    case Accept(_, wrote) => wrote
    case Reject(_, wrote) => wrote
    case Close(_, wrote) => wrote
    case _ => true
  }

  lemma WritesStep(s: State, a: Action)
    requires AllOnWire(s.log) && Writes(a)
    ensures AllOnWire(Step(s, a).log)
  {
    hide Request, HandlerReturned, Confirm, RejectPending, MarkHandled, CloseTrack, OpenStream;
    match a
    case OnRequest(id, kind, sent) => RequestWrites(s, id, kind);
    case HandlerReturns(_) => ReturnWrites(s);
    case Accept(h, _) => if h < |s.tracks| { AnswerWrites(s, h); }
    case Reject(h, _) => if h < |s.tracks| { AnswerWrites(s, h); }
    case Close(h, _) => CloseWrites(s, h);
    case OpenSubgroup(h, opens) => OpenWrites(s, h, opens);
    case OnInvalidRequest =>
    case OnUnsubscribe(_) =>
    case OnFetchCancel(_) =>
  }

  lemma RequestWrites(s: State, id: nat, kind: Kind)
    requires AllOnWire(s.log)
    ensures AllOnWire(Request(s, id, kind, Sent(true, true)).log)
  {
  }

  lemma ReturnWrites(s: State)
    requires AllOnWire(s.log)
    ensures AllOnWire(HandlerReturned(s, true).log)
  {
  }

  lemma AnswerWrites(s: State, h: nat)
    requires AllOnWire(s.log) && h < |s.tracks|
    ensures AllOnWire(Confirm(MarkHandled(s, h), s.tracks[h].id, true).log)
    ensures AllOnWire(RejectPending(MarkHandled(s, h), s.tracks[h].id, true).log)
  {
  }

  lemma CloseWrites(s: State, h: nat)
    requires AllOnWire(s.log)
    ensures AllOnWire(CloseTrack(s, h, true).log)
  {
  }

  lemma OpenWrites(s: State, h: nat, opens: bool)
    requires AllOnWire(s.log)
    ensures AllOnWire(OpenStream(s, h, opens).log)
  {
  }

  /** While no write fails, everything handed over reaches the peer. */
  lemma {:induction false} NothingLost(limit: nat, actions: seq<Action>)
    requires forall k :: 0 <= k < |actions| ==> Writes(actions[k])
    ensures AllOnWire(Run(limit, actions).log)
    ensures forall id :: Received(Run(limit, actions), id) == Replies(Run(limit, actions).log, id)
  {
    if actions != [] {
      var n := |actions| - 1;
      NothingLost(limit, actions[..n]);
      WritesStep(Run(limit, actions[..n]), actions[n]);
    }
    forall id
      ensures Received(Run(limit, actions), id) == Replies(Run(limit, actions).log, id)
    {
      RepliesOnWire(Run(limit, actions).log, id);
      WrittenAll(Replies(Run(limit, actions).log, id));
    }
  }

  lemma {:induction false} RepliesOnWire(log: seq<Out>, id: nat)
    requires AllOnWire(log)
    ensures AllOnWire(Replies(log, id))
  {
    if log != [] {
      RepliesOnWire(log[..|log| - 1], id);
    }
  }
}
