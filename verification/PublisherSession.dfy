/** The publishing side of a session as it updates its registries, step for step the semantics of LocalTracks. */
module PublisherSession {
  import opened Bytes
  import opened LocalTracks
  import RequestCredit

  class Session {
    var localMaxRequestID: nat
    var tracks: seq<Track>
    var pending: map<nat, nat>
    var open: map<nat, nat>
    var current: Option<Handling>
    var failed: bool
    var log: seq<Out>
    ghost var seen: set<nat>
    const initialMax: nat
    ghost var history: seq<Action>

    /** The fields are exactly what the steps made so far lead to. */
    ghost predicate Valid()
      reads this
    {
      View() == Run(initialMax, history)
    }

    ghost function View(): State
      reads this
    {
      State(localMaxRequestID, tracks, pending, open, current, failed, log, seen)
    }

    constructor (initialMaxRequestID: nat)
      ensures Valid() && initialMax == initialMaxRequestID && history == []
    {
      initialMax, history := initialMaxRequestID, [];
      localMaxRequestID, tracks, pending, open := initialMaxRequestID, [], map[], map[];
      current, failed, log, seen := None, false, [], {};
    }

    method FindByID(id: nat) returns (h: Option<nat>)
      ensures h.Some? <==> Known(View(), id)
      ensures h.Some? ==> h.value == Find(View(), id)
    {
      if id in pending {
        return Some(pending[id]);
      }
      return if id in open then Some(open[id]) else None;
    }

    method AddPending(id: nat, h: nat) returns (ok: bool)
      modifies this`pending
      ensures ok <==> !Known(old(View()), id)
      ensures pending == if ok then old(pending)[id := h] else old(pending)
    {
      if id in pending {
        return false;
      }
      if id in open {
        return false;
      }
      pending := pending[id := h];
      return true;
    }

    /** acceptSubscriptionWithOptions and acceptFetch. */
    method AcceptRequest(id: nat, wrote: bool) returns (ok: bool)
      modifies this
      ensures ok <==> id in old(pending) && wrote
      ensures View() == Confirm(old(View()), id, wrote) && history == old(history)
      ensures log == old(log) + (if id in old(pending) then [Accepted(id, wrote)] else [])
      ensures id in old(pending) ==> id !in pending && id in open && open[id] == old(pending)[id]
    {
      if id !in pending {
        return false;
      }
      var h := pending[id];
      pending := pending - {id};
      open := open[id := h];
      log := log + [Accepted(id, wrote)];
      return wrote;
    }

    /** rejectSubscription and rejectFetch. */
    method RejectRequest(id: nat, wrote: bool) returns (ok: bool)
      modifies this
      ensures ok <==> id in old(pending) && wrote
      ensures View() == RejectPending(old(View()), id, wrote) && history == old(history)
      ensures log == old(log) + (if id in old(pending) then [Rejected(id, wrote)] else [])
      ensures id !in pending && open == old(open)
    {
      if id !in pending {
        return false;
      }
      pending := pending - {id};
      log := log + [Rejected(id, wrote)];
      return wrote;
    }

    /** addLocalTrack: the limit check, the raised limit, then the registry. */
    method AddLocalTrack(id: nat, h: nat, wrote: bool) returns (ok: bool)
      modifies this
      ensures tracks == old(tracks) && open == old(open) && current == old(current) && failed == old(failed)
      ensures seen == old(seen) && history == old(history)
      ensures id >= old(localMaxRequestID) ==> !ok && View() == old(View())
      ensures id < old(localMaxRequestID) ==>
                && localMaxRequestID == RequestCredit.Raised(old(localMaxRequestID), id)
                && log == (if localMaxRequestID == old(localMaxRequestID) then old(log)
                           else old(log) + [LimitRaised(localMaxRequestID, wrote)])
                && ok == !Known(old(View()), id)
                && pending == (if ok then old(pending)[id := h] else old(pending))
    {
      if id >= localMaxRequestID {
        return false;
      }
      var oldMax := localMaxRequestID;
      if id >= oldMax / 2 {
        localMaxRequestID := 2 * oldMax;
        log := log + [LimitRaised(2 * oldMax, wrote)];
      }
      ok := AddPending(id, h);
    }

    /** What onSubscribe and onFetch do when a track cannot be added. */
    method RefuseRequest(id: nat, kind: Kind, wrote: bool)
      modifies this
      ensures View() == Refuse(old(View()), id, kind, wrote) && history == old(history)
    {
      if kind == Subscription {
        log := log + [Rejected(id, wrote)];
        failed := failed || !wrote;
      } else {
        var _ := RejectRequest(id, wrote);
        failed := true;
      }
    }

    /** addLocalTrack and what follows it. */
    method TakeRequest(id: nat, kind: Kind, sent: Sent)
      modifies this
      ensures View() == Request(old(View()), id, kind, sent) && history == old(history)
    {
      var ok := AddLocalTrack(id, |tracks|, sent.limit);
      if ok {
        current := Some(Handling(|tracks|, false));
        tracks := tracks + [Track(id, kind, 0, false)];
        return;
      }
      RefuseRequest(id, kind, sent.error);
    }

    /** onSubscribe and onFetch up to the point where the handler is called. The authorization check of
        onSubscribe never fails. */
    method OnRequest(id: nat, kind: Kind, namespaceLength: nat, sent: Sent)
      requires Valid() && Reading(View())
      modifies this
      ensures Valid()
      ensures history ==
              old(history) + [if Proper(namespaceLength) then Action.OnRequest(id, kind, sent) else OnInvalidRequest]
      ensures current.Some? <==>
              Proper(namespaceLength) && id < old(localMaxRequestID) && !Known(old(View()), id)
      ensures current.Some? ==>
                && current.value == Handling(|old(tracks)|, false)
                && tracks == old(tracks) + [Track(id, kind, 0, false)] && pending == map[id := |old(tracks)|]
      ensures current.None? ==> pending == map[] && tracks == old(tracks)
      ensures !failed <==> Proper(namespaceLength) && (current.Some? || (kind == Subscription && sent.error))
      ensures Proper(namespaceLength) && current.None? && kind == Subscription ==>
                log != [] && log[|log| - 1] == Rejected(id, sent.error)
    {
      NothingPendingAtRest(initialMax, history);
      RunAppend(initialMax, history, OnInvalidRequest);
      RunAppend(initialMax, history, Action.OnRequest(id, kind, sent));
      hide Run;
      if namespaceLength == 0 || namespaceLength > 32 {
        history := history + [OnInvalidRequest];
        failed := true;
        return;
      }
      RequestOutcome(View(), id, kind, sent);
      hide Request;
      TakeRequest(id, kind, sent);
      seen := seen + {id};
      history := history + [Action.OnRequest(id, kind, sent)];
    }

    /** The ID of the request whose handler is running. */
    ghost function CurrentID(): nat
      requires current.Some?
      reads this
    {
      if current.value.track < |tracks| then tracks[current.value.track].id else 0
    }

    /** A response writer that has been called is marked, if its handler is still running. */
    ghost predicate HandledNow(before: Option<Handling>, h: nat)
      reads this
    {
      current == if before.Some? && before.value.track == h then Some(Handling(h, true)) else before
    }

    /** The rest of onSubscribe and onFetch after the handler has returned. */
    method HandlerReturns(wrote: bool)
      requires Valid() && current.Some?
      modifies this
      ensures Valid() && history == old(history) + [Action.HandlerReturns(wrote)]
      ensures current.None? && pending == map[] && tracks == old(tracks) && open == old(open)
      ensures
        var c, id := old(current.value), old(CurrentID());
        var rejects := !c.handled && id in old(pending);
        && log == old(log) + (if rejects then [Rejected(id, wrote)] else [])
        && (failed <==> old(failed) || (!c.handled && !(id in old(pending) && wrote)))
    {
      NothingPendingAtRest(initialMax, history + [Action.HandlerReturns(wrote)]);
      RunAppend(initialMax, history, Action.HandlerReturns(wrote));
      history := history + [Action.HandlerReturns(wrote)];
      RunPendingIsCurrent(initialMax, old(history));
      hide Run;
      var c := current.value;
      current := None;
      if !c.handled {
        var ok := RejectRequest(tracks[c.track].id, wrote);
        if !ok {
          failed := true;
        }
      }
    }

    /** Accept of a response writer. */
    method Accept(h: nat, wrote: bool) returns (ok: bool)
      requires Valid() && h < |tracks|
      modifies this
      ensures Valid() && history == old(history) + [Action.Accept(h, wrote)]
      ensures ok <==> old(tracks[h].id in pending) && wrote
      ensures tracks[h].id !in pending && (old(tracks[h].id in pending) ==> tracks[h].id in open)
      ensures log == old(log) + (if old(tracks[h].id in pending) then [Accepted(tracks[h].id, wrote)] else [])
      ensures tracks == old(tracks) && failed == old(failed) && HandledNow(old(current), h)
    {
      RunAppend(initialMax, history, Action.Accept(h, wrote));
      hide Run;
      history := history + [Action.Accept(h, wrote)];
      if current.Some? && current.value.track == h {
        current := Some(Handling(h, true));
      }
      ok := AcceptRequest(tracks[h].id, wrote);
    }

    /** Reject of a response writer. */
    method Reject(h: nat, wrote: bool) returns (ok: bool)
      requires Valid() && h < |tracks|
      modifies this
      ensures Valid() && history == old(history) + [Action.Reject(h, wrote)]
      ensures ok <==> old(tracks[h].id in pending) && wrote
      ensures tracks[h].id !in pending && open == old(open)
      ensures log == old(log) + (if old(tracks[h].id in pending) then [Rejected(tracks[h].id, wrote)] else [])
      ensures tracks == old(tracks) && failed == old(failed) && HandledNow(old(current), h)
    {
      RunAppend(initialMax, history, Action.Reject(h, wrote));
      hide Run;
      history := history + [Action.Reject(h, wrote)];
      if current.Some? && current.value.track == h {
        current := Some(Handling(h, true));
      }
      ok := RejectRequest(tracks[h].id, wrote);
    }

    /** CloseWithError of a subscription: cancel the track, then subscriptionDone with its stream count. */
    method CloseWithError(h: nat, wrote: bool) returns (ok: bool)
      requires Valid() && h < |tracks| && tracks[h].kind == Subscription
      modifies this
      ensures Valid() && history == old(history) + [Action.Close(h, wrote)]
      ensures ok <==> Known(old(View()), old(tracks[h].id)) && wrote
      ensures tracks == old(tracks)[h := old(tracks[h]).(closed := true)] && !Known(View(), tracks[h].id)
      ensures log == old(log) + (if Known(old(View()), tracks[h].id)
                                 then [Done(tracks[h].id, old(tracks[h].subgroupCount), wrote)] else [])
      ensures failed == old(failed) && current == old(current)
    {
      RunAppend(initialMax, history, Action.Close(h, wrote));
      hide Run;
      history := history + [Action.Close(h, wrote)];
      tracks := tracks[h := tracks[h].(closed := true)];
      var id, count := tracks[h].id, tracks[h].subgroupCount;
      if id !in pending && id !in open {
        return false;
      }
      pending := pending - {id};
      open := open - {id};
      log := log + [Done(id, count, wrote)];
      return wrote;
    }

    method OpenSubgroup(h: nat, opens: bool) returns (ok: bool)
      requires Valid() && h < |tracks| && tracks[h].kind == Subscription
      modifies this
      ensures Valid() && history == old(history) + [Action.OpenSubgroup(h, opens)]
      ensures ok <==> opens && !old(tracks[h].closed)
      ensures tracks[h].subgroupCount == old(tracks[h].subgroupCount) + if ok then 1 else 0
      ensures log == old(log) + (if ok then [StreamOpened(old(tracks[h].id))] else [])
      ensures pending == old(pending) && open == old(open) && current == old(current) && failed == old(failed)
    {
      RunAppend(initialMax, history, Action.OpenSubgroup(h, opens));
      hide Run;
      history := history + [Action.OpenSubgroup(h, opens)];
      if tracks[h].closed || !opens {
        return false;
      }
      tracks := tracks[h := tracks[h].(subgroupCount := tracks[h].subgroupCount + 1)];
      log := log + [StreamOpened(tracks[h].id)];
      return true;
    }

    method OnUnsubscribe(id: nat)
      requires Valid() && Reading(View())
      modifies this
      ensures Valid() && history == old(history) + [Action.OnUnsubscribe(id)]
      ensures current.None? && pending == map[] && open == old(open) && log == old(log)
      ensures failed <==> id !in old(open)
      ensures tracks == if failed then old(tracks) else Closing(old(tracks), old(open)[id])
    {
      UnsubscribeOutcome(initialMax, history, id);
      hide Run, Step;
      history := history + [Action.OnUnsubscribe(id)];
      var h := FindByID(id);
      if h.None? {
        failed := true;
        return;
      }
      tracks := tracks[h.value := tracks[h.value].(closed := true)];
    }

    method OnFetchCancel(id: nat)
      requires Valid() && Reading(View())
      modifies this
      ensures Valid() && history == old(history) + [Action.OnFetchCancel(id)]
      ensures current.None? && pending == map[] && log == old(log)
      ensures failed <==> id !in old(open)
      ensures open == old(open) - {id}
      ensures tracks == if failed then old(tracks) else Closing(old(tracks), old(open)[id])
    {
      FetchCancelOutcome(initialMax, history, id);
      hide Run, Step;
      history := history + [Action.OnFetchCancel(id)];
      var h := FindByID(id);
      if h.None? {
        failed := true;
        assert open == old(open) - {id};
        return;
      }
      pending := pending - {id};
      open := open - {id};
      tracks := tracks[h.value := tracks[h.value].(closed := true)];
    }

    /**
     What the theorems about runs mean for the fields of the session at any time: between control
     messages nothing is pending, and if the received requests carried distinct IDs every track has
     been answered exactly once, of which the peer sees what could be written.
     */
    lemma Answers()
      requires Valid()
      ensures current.None? ==> pending == map[]
      ensures DistinctRequests(history) ==>
                forall t :: t in tracks ==> AnsweredOnce(View(), t) && AnsweredOnWire(View(), t)
    {
      EveryRequestAnsweredOnce(initialMax, history);
      if DistinctRequests(history) {
        PeerSeesOneAnswer(initialMax, history);
      }
    }
  }

  lemma RequestOutcome(s: State, id: nat, kind: Kind, sent: Sent)
    requires Reading(s) && s.pending == map[]
    ensures
      var t := Request(s, id, kind, sent);
      && (t.current.Some? <==> id < s.limit && !Known(s, id))
      && (t.current.Some? ==>
            && t.current.value == Handling(|s.tracks|, false)
            && t.tracks == s.tracks + [Track(id, kind, 0, false)] && t.pending == map[id := |s.tracks|])
      && (t.current.None? ==> t.pending == map[] && t.tracks == s.tracks)
      && (!t.failed <==> t.current.Some? || (kind == Subscription && sent.error))
  {
  }

  /** Between messages UNSUBSCRIBE finds open tracks only, and cancels the one it names. */
  lemma UnsubscribeOutcome(limit: nat, history: seq<Action>, id: nat)
    requires Reading(Run(limit, history))
    ensures
      var s := Run(limit, history);
      && s.pending == map[] && (id in s.open ==> s.open[id] < |s.tracks|)
      && Run(limit, history + [Action.OnUnsubscribe(id)]) ==
         if id in s.open then s.(tracks := Closing(s.tracks, s.open[id])) else s.(failed := true)
  {
    NothingPendingAtRest(limit, history);
    RunHandles(limit, history);
    RunAppend(limit, history, Action.OnUnsubscribe(id));
  }

  lemma FetchCancelOutcome(limit: nat, history: seq<Action>, id: nat)
    requires Reading(Run(limit, history))
    ensures
      var s := Run(limit, history);
      && s.pending == map[] && s.pending - {id} == map[] && (id in s.open ==> s.open[id] < |s.tracks|)
      && Run(limit, history + [Action.OnFetchCancel(id)]) ==
         if id in s.open then s.(tracks := Closing(s.tracks, s.open[id]), open := s.open - {id})
         else s.(failed := true)
  {
    NothingPendingAtRest(limit, history);
    RunHandles(limit, history);
    RunAppend(limit, history, Action.OnFetchCancel(id));
  }

  /** The tracks with one of them cancelled. */
  function Closing(tracks: seq<Track>, h: nat): seq<Track> {
    if h < |tracks| then tracks[h := tracks[h].(closed := true)] else tracks
  }

  /** What onSubscribe and onFetch ask of a request before they look at its ID. */
  predicate Proper(namespaceLength: nat) {
    1 <= namespaceLength <= 32
  }

  lemma NothingPendingAtRest(limit: nat, history: seq<Action>)
    ensures Run(limit, history).current.None? ==> Run(limit, history).pending == map[]
  {
    RunPendingIsCurrent(limit, history);
  }

  lemma RunAppend(limit: nat, history: seq<Action>, a: Action)
    ensures Run(limit, history + [a]) == Step(Run(limit, history), a)
  {
  }

  predicate HandlesValid(s: State) {
    && (forall id :: id in s.pending ==> s.pending[id] < |s.tracks|)
    && (forall id :: id in s.open ==> s.open[id] < |s.tracks|)
  }

  lemma {:induction false} RunHandles(limit: nat, history: seq<Action>)
    ensures HandlesValid(Run(limit, history))
  {
    if history != [] {
      RunHandles(limit, history[..|history| - 1]);
      HandlesStep(Run(limit, history[..|history| - 1]), history[|history| - 1]);
    }
  }

  lemma HandlesStep(s: State, a: Action)
    requires HandlesValid(s)
    ensures HandlesValid(Step(s, a))
  {
    hide Request;
    if a.OnRequest? {
      HandlesRequest(s, a.id, a.kind, a.sent);
    }
  }

  lemma HandlesRequest(s: State, id: nat, kind: Kind, sent: Sent)
    requires HandlesValid(s)
    ensures HandlesValid(Request(s, id, kind, sent))
  {
  }
}
