/** The subscribing side of a session as it updates its registries, step for step the semantics of RemoteTracks. */
module SubscriberSession {
  import opened Bytes
  import opened RemoteTracks

  class Session {
    const role: nat
    var nextID: nat
    var max: nat
    var tracks: seq<Track>
    var pending: map<nat, nat>
    var open: map<nat, nat>
    var trackAliasToRequestID: map<nat, nat>
    var failed: bool
    var duplicateBug: bool
    var dropped: nat
    ghost var history: seq<Action>

    ghost function View(): State
      reads this
    {
      State(nextID, max, tracks, pending, open, trackAliasToRequestID, failed, duplicateBug, dropped)
    }

    /** The fields are exactly what the steps made so far lead to. */
    ghost predicate Valid()
      reads this
    {
      View() == Run(role, history)
    }

    constructor (role: nat)
      ensures Valid() && this.role == role && history == []
    {
      this.role, history := role, [];
      nextID, max, tracks, pending, open := role, 0, [], map[], map[];
      trackAliasToRequestID, failed, duplicateBug, dropped := map[], false, false, 0;
    }

    method FindByRequestID(id: nat) returns (h: Option<nat>)
      ensures h == Find(View(), id)
    {
      if id in open {
        return Some(open[id]);
      }
      return if id in pending then Some(pending[id]) else None;
    }

    /** A resolved alias names an open track, and no other alias names the same one. */
    method FindByTrackAlias(alias: nat) returns (h: Option<nat>)
      requires Valid()
      ensures h == Resolve(View(), alias)
      ensures h.Some? ==> h.value < |tracks| && tracks[h.value].id in open
      ensures h.Some? ==> forall b :: b != alias ==> Resolve(View(), b) != h
    {
      RunInvariant(role, history);
      if alias !in trackAliasToRequestID {
        return None;
      }
      h := FindByRequestID(trackAliasToRequestID[alias]);
      forall b | b != alias
        ensures Resolve(View(), b) != h
      {
        AliasesDiffer(role, history, alias, b);
      }
    }

    /** addPending and addPendingWithAlias. */
    method AddPending(id: nat, h: nat) returns (ok: bool)
      modifies this
      ensures View() == RemoteTracks.AddPending(old(View()), id, h) && history == old(history)
      ensures ok <==> !Known(old(View()), id)
    {
      if id in pending {
        duplicateBug := true;
        return false;
      }
      if id in open {
        duplicateBug := true;
        return false;
      }
      pending := pending[id := h];
      return true;
    }

    /** Subscribe and Fetch up to the point where they wait for a response. */
    method StartRequest(fetch: bool, wrote: bool) returns (r: Option<nat>)
      requires Valid()
      modifies this
      ensures Valid() && history == old(history) + [Action.StartRequest(fetch, wrote)]
      ensures r.Some? <==> old(nextID) < old(max) && wrote
      ensures r.Some? ==> r.value == |old(tracks)| && tracks[r.value].id == old(nextID) && tracks[r.value].waiting
      ensures old(nextID) < old(max) && !wrote ==>
                && tracks == old(tracks) + [NewTrack(old(nextID), fetch, false)]
                && (old(nextID) in pending <==> !fetch)
      ensures old(nextID) >= old(max) ==> View() == old(View())
      ensures !duplicateBug
    {
      ghost var before := View();
      FreshNext(role, history);
      r := None;
      if nextID < max {
        var id, h := nextID, |tracks|;
        nextID := nextID + 2;
        tracks := tracks + [NewTrack(id, fetch, wrote)];
        var ok := AddPending(id, h);
        if ok && wrote {
          r := Some(h);
        }
        if ok && !wrote && fetch {
          pending := pending - {id};
        }
      }
      assert View() == Start(before, fetch, wrote);
      Record(Action.StartRequest(fetch, wrote), before);
    }

    /** Any other API call that takes a request ID. */
    method OtherCall() returns (id: Option<nat>)
      requires Valid()
      modifies this
      ensures Valid() && history == old(history) + [Action.OtherCall]
      ensures id == if old(nextID) < old(max) then Some(old(nextID)) else None
      ensures tracks == old(tracks) && pending == old(pending) && open == old(open)
    {
      ghost var before := View();
      id := None;
      if nextID < max {
        id := Some(nextID);
        nextID := nextID + 2;
      }
      Record(Action.OtherCall, before);
    }

    /** onMaxRequestID, and the limit of SERVER_SETUP: a limit that shrinks ends the reading loop. */
    method OnMaxRequestID(v: nat)
      requires Valid() && !failed
      modifies this
      ensures Valid() && history == old(history) + [Action.OnMaxRequestID(v)]
      ensures failed <==> v < old(max)
      ensures max == (if failed then old(max) else v) && nextID == old(nextID)
      ensures tracks == old(tracks) && pending == old(pending) && open == old(open)
    {
      ghost var before := View();
      if v < max {
        failed := true;
      } else {
        max := v;
      }
      Record(Action.OnMaxRequestID(v), before);
    }

    /** The limit of CLIENT_SETUP, which is optional. */
    method OnClientSetup(v: nat)
      requires Valid() && !failed
      modifies this
      ensures Valid() && history == old(history) + (if v > 0 then [Action.OnMaxRequestID(v)] else [])
      ensures failed <==> 0 < v < old(max)
      ensures max == (if failed || v == 0 then old(max) else v) && nextID == old(nextID)
      ensures tracks == old(tracks) && pending == old(pending) && open == old(open)
    {
      if v > 0 {
        OnMaxRequestID(v);
      } else {
        assert history == old(history) + [];
      }
    }

    /** The waiting call returns because its context ended. */
    method Cancelled(h: nat)
      requires Valid() && h < |tracks| && tracks[h].waiting
      modifies this
      ensures Valid() && history == old(history) + [Action.Cancelled(h)]
      ensures tracks[h].id !in pending
      ensures tracks == old(tracks)[h := old(tracks[h]).(waiting := false, result := Some(Refused))]
    {
      RunAppend(role, history, Action.Cancelled(h));
      history := history + [Action.Cancelled(h)];
      tracks := tracks[h := tracks[h].(waiting := false, result := Some(Refused))];
      pending := pending - {tracks[h].id};
    }

    /** The waiting call returns because a response arrived; a granted track is open. */
    method TakeResponse(h: nat) returns (r: Response)
      requires Valid() && h < |tracks| && tracks[h].waiting && tracks[h].chan != []
      modifies this
      ensures Valid() && history == old(history) + [Action.TakeResponse(h)]
      ensures r == old(tracks[h].chan[0]) && tracks[h].result == Some(r) && !tracks[h].waiting
      ensures r == Granted <==> exists k :: 0 <= k < |old(history)| && GrantedAt(role, old(history), k, h)
      ensures r == Granted ==> tracks[h].id in open
      ensures r == Refused ==> tracks[h].id !in pending
    {
      TakeOutcome(role, history, h);
      hide Run, GrantedAt, RefusedAt;
      history := history + [Action.TakeResponse(h)];
      var t := tracks[h];
      r := t.chan[0];
      tracks := tracks[h := t.(waiting := false, result := Some(r), chan := t.chan[1..])];
      if r == Refused {
        pending := pending - {t.id};
      }
    }

    /** The non-blocking send to a response channel. Its default branch is never taken. */
    method Send(h: nat, r: Response)
      requires h < |tracks|
      modifies this
      ensures View() == Respond(old(View()), h, r) && history == old(history)
    {
      var t := tracks[h];
      if t.chan == [] {
        tracks := tracks[h := t.(chan := [r], sent := t.sent + 1)];
      } else {
        dropped := dropped + 1;
      }
    }

    method Confirm(id: nat) returns (h: Option<nat>)
      modifies this
      ensures history == old(history)
      ensures id in old(pending) ==> h == Some(old(pending)[id]) && View() == Open(old(View()), id)
      ensures id !in old(pending) ==> h == None && View() == old(View())
    {
      if id !in pending {
        return None;
      }
      h := Some(pending[id]);
      pending := pending - {id};
      open := open[id := h.value];
    }

    method Reject(id: nat) returns (h: Option<nat>)
      modifies this
      ensures history == old(history)
      ensures id in old(pending) ==> h == Some(old(pending)[id]) && View() == Forget(old(View()), id)
      ensures id !in old(pending) ==> h == None && View() == old(View())
    {
      if id !in pending {
        return None;
      }
      h := Some(pending[id]);
      pending := pending - {id};
    }

    method SetAlias(id: nat, alias: nat) returns (ok: bool)
      modifies this`trackAliasToRequestID
      ensures ok <==> alias !in old(trackAliasToRequestID)
      ensures trackAliasToRequestID ==
              if ok then old(trackAliasToRequestID)[alias := id] else old(trackAliasToRequestID)
    {
      if alias in trackAliasToRequestID {
        return false;
      }
      trackAliasToRequestID := trackAliasToRequestID[alias := id];
      return true;
    }

    method OnSubscribeOk(id: nat, alias: nat)
      requires Valid() && !failed
      modifies this
      ensures Valid() && history == old(history) + [Action.OnSubscribeOk(id, alias)]
      ensures dropped == 0
      ensures failed <==> id !in old(pending) || alias in old(trackAliasToRequestID)
      ensures id in old(pending) ==> id !in pending && id in open && open[id] == old(pending)[id]
      ensures !failed ==> trackAliasToRequestID == old(trackAliasToRequestID)[alias := id]
      ensures !failed ==> old(pending)[id] < |tracks| && tracks[old(pending)[id]].chan == [Granted]
    {
      ghost var before := View();
      PendingHandle(role, history, id);
      var h := Confirm(id);
      if h.None? {
        failed := true;
      } else {
        var ok := SetAlias(id, alias);
        if ok {
          Send(h.value, Granted);
        } else {
          failed := true;
        }
      }
      assert View() == SubscribeOk(before, id, alias);
      Record(Action.OnSubscribeOk(id, alias), before);
    }

    method OnFetchOk(id: nat)
      requires Valid() && !failed
      modifies this
      ensures Valid() && history == old(history) + [Action.OnFetchOk(id)]
      ensures dropped == 0
      ensures failed <==> id !in old(pending)
      ensures !failed ==> id !in pending && id in open && open[id] == old(pending)[id]
      ensures !failed ==> old(pending)[id] < |tracks| && tracks[old(pending)[id]].chan == [Granted]
    {
      ghost var before := View();
      PendingHandle(role, history, id);
      var h := Confirm(id);
      if h.None? {
        failed := true;
      } else {
        Send(h.value, Granted);
      }
      Record(Action.OnFetchOk(id), before);
    }

    /** onSubscribeError and onFetchError. */
    method OnError(id: nat)
      requires Valid() && !failed
      modifies this
      ensures Valid() && history == old(history) + [Action.OnError(id)]
      ensures dropped == 0
      ensures failed <==> id !in old(pending)
      ensures id !in pending && open == old(open)
      ensures !failed ==> old(pending)[id] < |tracks| && tracks[old(pending)[id]].chan == [Refused]
    {
      ghost var before := View();
      PendingHandle(role, history, id);
      var h := Reject(id);
      if h.None? {
        failed := true;
      } else {
        Send(h.value, Refused);
      }
      Record(Action.OnError(id), before);
    }

    ghost method Record(a: Action, before: State)
      requires before == Run(role, history) && View() == Step(before, a)
      modifies this`history
      ensures Valid() && history == old(history) + [a]
      ensures dropped == 0 && !duplicateBug
    {
      RunAppend(role, history, a);
      history := history + [a];
      NeverDropped(role, history);
    }
  }

  lemma RunAppend(role: nat, history: seq<Action>, a: Action)
    ensures Run(role, history + [a]) == Step(Run(role, history), a)
  {
  }

  lemma FreshNext(role: nat, history: seq<Action>)
    ensures !Known(Run(role, history), Run(role, history).nextID)
  {
    RunInvariant(role, history);
    NextIsFresh(Run(role, history));
  }

  lemma PendingHandle(role: nat, history: seq<Action>, id: nat)
    ensures
      var s := Run(role, history);
      id in s.pending ==> s.pending[id] < |s.tracks| && s.tracks[s.pending[id]].chan == []
  {
    RunInvariant(role, history);
    var s := Run(role, history);
    if id in s.pending {
      assert OneResponse(s, s.tracks[s.pending[id]]);
    }
  }

  /** What a waiting call does with the response in its channel. */
  lemma TakeOutcome(role: nat, history: seq<Action>, h: nat)
    requires
      var s := Run(role, history);
      h < |s.tracks| && s.tracks[h].waiting && s.tracks[h].chan != []
    ensures
      var s := Run(role, history);
      var t, r := s.tracks[h], s.tracks[h].chan[0];
      && Run(role, history + [Action.TakeResponse(h)]) ==
         s.(tracks := s.tracks[h := t.(waiting := false, result := Some(r), chan := t.chan[1..])],
            pending := if r == Refused then s.pending - {t.id} else s.pending)
      && (r == Granted ==> t.id in s.open)
      && (r == Granted <==> exists k :: 0 <= k < |history| && GrantedAt(role, history, k, h))
  {
    RunAppend(role, history, Action.TakeResponse(h));
    TakenIsWhatArrived(role, history, h);
    RunInvariant(role, history);
    hide Run, GrantedAt, RefusedAt, RegistriesOf, AliasesOf;
    var s := Run(role, history);
    assert OneResponse(s, s.tracks[h]);
  }

  /** The branches that drop a response because the channel is full are never taken. */
  lemma NeverDropped(role: nat, history: seq<Action>)
    ensures Run(role, history).dropped == 0 && !Run(role, history).duplicateBug
  {
    RunInvariant(role, history);
  }
}
