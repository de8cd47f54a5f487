/**
 The subscribing side of a session: Subscribe and Fetch calls waiting on one-slot response channels,
 the registries of pending and open remote tracks, and the track aliases. The peer is arbitrary:
 any response may arrive at any time, for any request ID, any number of times.
 */
module RemoteTracks {
  import opened Bytes

  datatype Response = Granted | Refused

  /** A RemoteTrack object, referred to by its position in order of allocation. `chan` is its one-slot
      response channel, `sent` counts all sends to it, `result` is what the API call returned and
      `wrote` says whether its request could be written. */
  datatype Track = Track(
    id: nat, fetch: bool, wrote: bool, chan: seq<Response>, sent: nat, waiting: bool, result: Option<Response>)

  /** A new track: a call that cannot write its request returns an error at once. */
  function NewTrack(id: nat, fetch: bool, wrote: bool): Track {
    Track(id, fetch, wrote, [], 0, wrote, if wrote then None else Some(Refused))
  }

  datatype State = State(
    nextID: nat, max: nat, tracks: seq<Track>, pending: map<nat, nat>, open: map<nat, nat>,
    aliases: map<nat, nat>, failed: bool, duplicateBug: bool, dropped: nat)

  datatype Action =
    | StartRequest(fetch: bool, wrote: bool)   // Subscribe or Fetch up to its select statement
    | OtherCall                                // any other API call that takes a request ID
    | Cancelled(track: nat)                    // the caller's context ends first
    | TakeResponse(track: nat)                 // the call reads its response channel
    | OnSubscribeOk(id: nat, alias: nat)
    | OnFetchOk(id: nat)
    | OnError(id: nat)                         // SUBSCRIBE_ERROR or FETCH_ERROR
    | OnMaxRequestID(v: nat)

  function Init(role: nat): State {
    State(role, 0, [], map[], map[], map[], false, false, 0)
  }

  // ---------------------------------------------------------------- registry operations

  predicate Known(s: State, id: nat) {
    id in s.pending || id in s.open
  }

  /** addPending and addPendingWithAlias. */
  function AddPending(s: State, id: nat, h: nat): State {
    if Known(s, id) then s.(duplicateBug := true) else s.(pending := s.pending[id := h])
  }

  function Forget(s: State, id: nat): State {
    s.(pending := s.pending - {id})
  }

  /** Non-blocking send: a full channel drops the response. */
  function Respond(s: State, h: nat, r: Response): State {
    if h >= |s.tracks| then s
    else
      var t := s.tracks[h];
      if t.chan == [] then s.(tracks := s.tracks[h := t.(chan := [r], sent := t.sent + 1)])
      else s.(dropped := s.dropped + 1)
  }

  /** The API call returns; on failure its request is no longer pending. */
  function Return(s: State, h: nat, r: Response, chan: seq<Response>): State
    requires h < |s.tracks|
  {
    var t := s.tracks[h];
    var u := s.(tracks := s.tracks[h := t.(waiting := false, result := Some(r), chan := chan)]);
    if r == Refused then Forget(u, t.id) else u
  }

  function Open(s: State, id: nat): State
    requires id in s.pending
  {
    s.(pending := s.pending - {id}, open := s.open[id := s.pending[id]])
  }

  /** findByRequestID: open tracks first. */
  function Find(s: State, id: nat): Option<nat> {
    if id in s.open then Some(s.open[id]) else if id in s.pending then Some(s.pending[id]) else None
  }

  /** findByTrackAlias. */
  function Resolve(s: State, alias: nat): Option<nat> {
    if alias in s.aliases then Find(s, s.aliases[alias]) else None
  }

  // ---------------------------------------------------------------- steps

  /** Subscribe and Fetch up to their select statement. After a failed write Fetch takes its entry back
      and Subscribe does not. */
  function Start(s: State, fetch: bool, wrote: bool): State {
    if s.nextID >= s.max then s
    else
      var id, h := s.nextID, |s.tracks|;
      var t := AddPending(s.(nextID := id + 2, tracks := s.tracks + [NewTrack(id, fetch, wrote)]), id, h);
      if !wrote && fetch then Forget(t, id) else t
  }

  function SubscribeOk(s: State, id: nat, alias: nat): State {
    if id !in s.pending then s.(failed := true)
    else
      var h, t := s.pending[id], Open(s, id);
      if alias in s.aliases then t.(failed := true)
      else Respond(t.(aliases := t.aliases[alias := id]), h, Granted)
  }

  function Step(s: State, a: Action): State {
    match a
    case StartRequest(fetch, wrote) => Start(s, fetch, wrote)
    case OtherCall => if s.nextID >= s.max then s else s.(nextID := s.nextID + 2)
    case Cancelled(h) =>
      if h < |s.tracks| && s.tracks[h].waiting then Return(s, h, Refused, s.tracks[h].chan) else s
    case TakeResponse(h) =>
      if h < |s.tracks| && s.tracks[h].waiting && s.tracks[h].chan != [] then
        Return(s, h, s.tracks[h].chan[0], s.tracks[h].chan[1..])
      else s
    case OnSubscribeOk(id, alias) => if s.failed then s else SubscribeOk(s, id, alias)
    case OnFetchOk(id) =>
      if s.failed then s
      else if id !in s.pending then s.(failed := true)
      else Respond(Open(s, id), s.pending[id], Granted)
    case OnError(id) =>
      if s.failed then s
      else if id !in s.pending then s.(failed := true)
      else Respond(Forget(s, id), s.pending[id], Refused)
    case OnMaxRequestID(v) =>
      if s.failed then s else if v < s.max then s.(failed := true) else s.(max := v)
  }

  function Run(role: nat, actions: seq<Action>): State {
    if actions == [] then Init(role)
    else Step(Run(role, actions[..|actions| - 1]), actions[|actions| - 1])
  }

  // ---------------------------------------------------------------- invariant

  predicate RegistriesOf(nextID: nat, tracks: seq<Track>, pending: map<nat, nat>, open: map<nat, nat>) {
    && (forall h :: 0 <= h < |tracks| ==> tracks[h].id < nextID)
    && (forall h, k :: 0 <= h < k < |tracks| ==> tracks[h].id < tracks[k].id)
    && (forall id :: id in pending ==> id !in open)
    && (forall id {:trigger pending[id]} :: id in pending ==> pending[id] < |tracks| && tracks[pending[id]].id == id)
    && (forall id {:trigger open[id]} :: id in open ==> open[id] < |tracks| && tracks[open[id]].id == id)
  }

  predicate Registries(s: State) {
    RegistriesOf(s.nextID, s.tracks, s.pending, s.open)
  }

  predicate AliasesOf(aliases: map<nat, nat>, open: map<nat, nat>) {
    && (forall a {:trigger aliases[a]} :: a in aliases ==> aliases[a] in open)
    && (forall a, b :: a in aliases && b in aliases && a != b ==> aliases[a] != aliases[b])
  }

  predicate Aliases(s: State) {
    AliasesOf(s.aliases, s.open)
  }

  /** At most one response is ever sent to a track, none while it is pending; a granted one means it is
      open. A call that failed has left nothing pending, unless it is a SUBSCRIBE that could not be
      written. */
  predicate OneResponse(s: State, t: Track) {
    && |t.chan| <= t.sent <= 1
    && (t.result.Some? ==> !t.waiting)
    && (t.sent == 1 && t.chan == [] ==> t.result.Some?)
    && (t.id in s.pending ==> t.sent == 0)
    && (t.chan == [Granted] || t.result == Some(Granted) ==> t.id in s.open)
    && (t.result == Some(Refused) && t.id in s.pending ==> !t.fetch && !t.wrote)
  }

  predicate Invariant(s: State) {
    && Registries(s) && Aliases(s)
    && (forall h :: 0 <= h < |s.tracks| ==> OneResponse(s, s.tracks[h]))
    && !s.duplicateBug && s.dropped == 0
  }

  /** The next ID is new to both registries, so the duplicate branches are dead. */
  lemma NextIsFresh(s: State)
    requires Registries(s)
    ensures !Known(s, s.nextID)
  {
  }

  lemma AllocateKeeps(s: State, u: Track)
    requires Invariant(s) && s.nextID < s.max && u.id == s.nextID && u.chan == [] && u.sent == 0
    requires u.result == None || (u.result == Some(Refused) && !u.waiting && !u.fetch && !u.wrote)
    ensures Invariant(Allocated(s, u))
  {
    hide AliasesOf;
    NextIsFresh(s);
    var t := Allocated(s, u);
    assert forall h :: 0 <= h < |s.tracks| ==> t.tracks[h] == s.tracks[h];
    assert Registries(t);
    forall h | 0 <= h < |t.tracks|
      ensures OneResponse(t, t.tracks[h])
    {
      assert h < |s.tracks| ==> OneResponse(s, s.tracks[h]);
    }
  }

  function Allocated(s: State, u: Track): State {
    s.(nextID := s.nextID + 2, tracks := s.tracks + [u], pending := s.pending[s.nextID := |s.tracks|])
  }

  /** A FETCH that cannot be written: registered, taken back, and returned as failed. */
  lemma FailedFetchKeeps(s: State)
    requires Invariant(s) && s.nextID < s.max
    ensures Invariant(Forget(Allocated(s, NewTrack(s.nextID, true, false)), s.nextID))
  {
    var u := NewTrack(s.nextID, true, false);
    var t := Allocated(s, u.(result := None));
    AllocateKeeps(s, u.(result := None));
    ForgetKeeps(t, s.nextID);
    var f, h := Forget(t, s.nextID), |s.tracks|;
    assert f.tracks[h] == u.(result := None);
    UpdateKeeps(f, h, u);
    hide Invariant;
    assert f.(tracks := f.tracks[h := u]) == Forget(Allocated(s, u), s.nextID) by {
      assert (s.tracks + [u.(result := None)])[h := u] == s.tracks + [u];
    }
  }

  lemma StartKeeps(s: State, fetch: bool, wrote: bool)
    requires Invariant(s)
    ensures Invariant(Start(s, fetch, wrote))
  {
    if s.nextID < s.max {
      NextIsFresh(s);
      StartIs(s, fetch, wrote);
      hide Invariant, Start, Allocated, Forget;
      if fetch && !wrote {
        FailedFetchKeeps(s);
      } else {
        AllocateKeeps(s, NewTrack(s.nextID, fetch, wrote));
      }
    }
  }

  lemma StartIs(s: State, fetch: bool, wrote: bool)
    requires s.nextID < s.max && !Known(s, s.nextID)
    ensures
      var t := Allocated(s, NewTrack(s.nextID, fetch, wrote));
      Start(s, fetch, wrote) == if fetch && !wrote then Forget(t, s.nextID) else t
  {
  }

  lemma ForgetKeeps(s: State, id: nat)
    requires Invariant(s)
    ensures Invariant(Forget(s, id))
  {
    hide AliasesOf;
    var t := Forget(s, id);
    forall k | 0 <= k < |t.tracks|
      ensures OneResponse(t, t.tracks[k])
    {
      assert OneResponse(s, s.tracks[k]);
    }
  }

  /** Changing one track's channel and result, but not its ID. */
  lemma UpdateKeeps(s: State, h: nat, u: Track)
    requires Invariant(s) && h < |s.tracks| && u.id == s.tracks[h].id && OneResponse(s, u)
    ensures Invariant(s.(tracks := s.tracks[h := u]))
  {
    hide AliasesOf;
    var t := s.(tracks := s.tracks[h := u]);
    assert forall k :: 0 <= k < |s.tracks| ==> t.tracks[k].id == s.tracks[k].id;
    forall k | 0 <= k < |t.tracks|
      ensures OneResponse(t, t.tracks[k])
    {
      assert OneResponse(s, s.tracks[k]);
    }
  }

  lemma ReturnKeeps(s: State, h: nat, r: Response, chan: seq<Response>)
    requires Invariant(s) && h < |s.tracks| && s.tracks[h].waiting
    requires if r == Granted then s.tracks[h].chan == [Granted] && chan == []
             else chan == s.tracks[h].chan || chan == []
    ensures Invariant(Return(s, h, r, chan))
  {
    var t := s.tracks[h];
    var u := t.(waiting := false, result := Some(r), chan := chan);
    var f := if r == Refused then Forget(s, t.id) else s;
    assert OneResponse(s, t);
    ForgetKeeps(s, t.id);
    UpdateKeeps(f, h, u);
    assert Return(s, h, r, chan) == f.(tracks := f.tracks[h := u]);
  }

  lemma AliasKeeps(s: State, id: nat, alias: nat)
    requires Invariant(s) && id in s.open && alias !in s.aliases
    requires forall a :: a in s.aliases ==> s.aliases[a] != id
    ensures Invariant(s.(aliases := s.aliases[alias := id]))
  {
    hide RegistriesOf;
    var t := s.(aliases := s.aliases[alias := id]);
    forall k | 0 <= k < |t.tracks|
      ensures OneResponse(t, t.tracks[k])
    {
      assert OneResponse(s, s.tracks[k]);
    }
  }

  /** The first and only send to a channel, made after the request has left pending. */
  lemma SendKeeps(s: State, h: nat, r: Response)
    requires Invariant(s) && h < |s.tracks| && s.tracks[h].sent == 0 && s.tracks[h].id !in s.pending
    requires r == Granted ==> s.tracks[h].id in s.open
    ensures Invariant(Respond(s, h, r))
  {
    var t := s.tracks[h];
    assert OneResponse(s, t);
    var u := t.(chan := [r], sent := 1);
    UpdateKeeps(s, h, u);
    assert Respond(s, h, r) == s.(tracks := s.tracks[h := u]);
  }

  lemma GrantKeeps(s: State, id: nat, alias: Option<nat>)
    requires Invariant(s) && id in s.pending && (alias.Some? ==> alias.value !in s.aliases)
    ensures
      var t := Open(s, id);
      Invariant(Respond(if alias.Some? then t.(aliases := t.aliases[alias.value := id]) else t, s.pending[id], Granted))
  {
    var h, t := s.pending[id], Open(s, id);
    assert OneResponse(s, s.tracks[h]);
    OpenKeeps(s, id);
    if alias.Some? {
      assert forall a :: a in s.aliases ==> s.aliases[a] != id;
      AliasKeeps(t, id, alias.value);
      SendKeeps(t.(aliases := t.aliases[alias.value := id]), h, Granted);
    } else {
      SendKeeps(t, h, Granted);
    }
  }

  lemma RefuseKeeps(s: State, id: nat)
    requires Invariant(s) && id in s.pending
    ensures Invariant(Respond(Forget(s, id), s.pending[id], Refused))
  {
    assert OneResponse(s, s.tracks[s.pending[id]]);
    ForgetKeeps(s, id);
    SendKeeps(Forget(s, id), s.pending[id], Refused);
  }

  /** Fields that the invariant does not speak about. */
  lemma Irrelevant(s: State, nextID: nat, max: nat, failed: bool)
    requires Invariant(s) && nextID >= s.nextID
    ensures Invariant(s.(nextID := nextID, max := max, failed := failed))
  {
  }

  lemma OpenKeeps(s: State, id: nat)
    requires Invariant(s) && id in s.pending
    ensures Invariant(Open(s, id))
  {
    var t := Open(s, id);
    forall k | 0 <= k < |t.tracks|
      ensures OneResponse(t, t.tracks[k])
    {
      assert OneResponse(s, s.tracks[k]);
    }
  }

  lemma InvariantStep(s: State, a: Action)
    requires Invariant(s)
    ensures Invariant(Step(s, a))
  {
    hide RegistriesOf, AliasesOf;
    match a
    case StartRequest(fetch, wrote) => StartKeeps(s, fetch, wrote);
    case Cancelled(h) =>
      if h < |s.tracks| && s.tracks[h].waiting { ReturnKeeps(s, h, Refused, s.tracks[h].chan); }
    case TakeResponse(h) =>
      if h < |s.tracks| && s.tracks[h].waiting && s.tracks[h].chan != [] {
        assert OneResponse(s, s.tracks[h]);
        var chan := s.tracks[h].chan;
        assert chan == [chan[0]];
        ReturnKeeps(s, h, chan[0], chan[1..]);
      }
    case OnSubscribeOk(id, alias) =>
      Irrelevant(s, s.nextID, s.max, true);
      if id in s.pending {
        OpenKeeps(s, id);
        Irrelevant(Open(s, id), s.nextID, s.max, true);
        if alias !in s.aliases { GrantKeeps(s, id, Some(alias)); }
      }
    case OnFetchOk(id) =>
      Irrelevant(s, s.nextID, s.max, true);
      if id in s.pending { GrantKeeps(s, id, None); }
    case OnError(id) =>
      Irrelevant(s, s.nextID, s.max, true);
      if id in s.pending { RefuseKeeps(s, id); }
    case OtherCall => Irrelevant(s, s.nextID + 2, s.max, s.failed);
    case OnMaxRequestID(v) =>
      Irrelevant(s, s.nextID, v, s.failed);
      Irrelevant(s, s.nextID, s.max, true);
  }

  /**
   In every reachable state: pending and open are disjoint and hold only issued IDs, the duplicate
   branches were never taken, no response was dropped on a full channel, the alias map is injective
   and points at open tracks, a call that succeeded has an open track, and one that failed has nothing
   pending unless it is a SUBSCRIBE that could not be written.
   */
  lemma {:induction false} RunInvariant(role: nat, actions: seq<Action>)
    ensures Invariant(Run(role, actions))
  {
    if actions != [] {
      RunInvariant(role, actions[..|actions| - 1]);
      InvariantStep(Run(role, actions[..|actions| - 1]), actions[|actions| - 1]);
    }
  }

  // ---------------------------------------------------------------- what failed calls leave behind

  /** No call that has returned an error is still pending. */
  predicate NothingLeft(s: State) {
    forall h :: 0 <= h < |s.tracks| && s.tracks[h].result == Some(Refused) ==> s.tracks[h].id !in s.pending
  }

  /** A Subscribe call that gets a request ID but cannot write its request. */
  predicate SubscribeWriteFails(s: State, a: Action) {
    a == StartRequest(false, false) && s.nextID < s.max
  }

  /** Only fetches could not be written. */
  predicate SubscribesWritten(s: State) {
    forall h :: 0 <= h < |s.tracks| && !s.tracks[h].wrote ==> s.tracks[h].fetch
  }

  /** Tracks keep what identifies them, and those whose call has returned keep its result. */
  predicate Grown(s: State, t: State) {
    && |s.tracks| <= |t.tracks|
    && forall h :: 0 <= h < |s.tracks| ==> Continues(s.tracks[h], t.tracks[h])
  }

  predicate Continues(t: Track, u: Track) {
    u.id == t.id && u.fetch == t.fetch && u.wrote == t.wrote && (t.waiting || u.result == t.result)
  }

  lemma RespondGrows(s: State, h: nat, r: Response)
    ensures
      var t := Respond(s, h, r);
      Grown(s, t) && |t.tracks| == |s.tracks| && t.pending == s.pending
  {
  }

  lemma ReturnGrows(s: State, h: nat, r: Response, chan: seq<Response>)
    requires h < |s.tracks| && s.tracks[h].waiting
    ensures
      var t := Return(s, h, r, chan);
      && Grown(s, t) && |t.tracks| == |s.tracks|
      && forall i :: i in s.pending && i != s.tracks[h].id ==> i in t.pending
  {
  }

  lemma StartGrows(s: State, fetch: bool, wrote: bool)
    ensures
      var t := Start(s, fetch, wrote);
      && Grown(s, t)
      && (t == s || (s.nextID < s.max && t.tracks == s.tracks + [NewTrack(s.nextID, fetch, wrote)]))
      && forall i :: i in s.pending && i != s.nextID ==> i in t.pending
  {
  }

  /** What a step does to the tracks, and whom it takes out of pending. */
  lemma StepGrows(s: State, a: Action)
    ensures
      var t := Step(s, a);
      && Grown(s, t)
      && (|t.tracks| == |s.tracks| ||
          (&& a.StartRequest? && s.nextID < s.max && |t.tracks| == |s.tracks| + 1
           && t.tracks[|s.tracks|] == NewTrack(s.nextID, a.fetch, a.wrote)))
      && forall i :: i in s.pending && i !in t.pending ==>
           || RespondsTo(a, i) || i == s.nextID
           || exists h :: 0 <= h < |s.tracks| && s.tracks[h].waiting && s.tracks[h].id == i
  {
    hide Respond, Return, Start;
    match a
    case StartRequest(fetch, wrote) => StartGrows(s, fetch, wrote);
    case Cancelled(h) =>
      if h < |s.tracks| && s.tracks[h].waiting { ReturnGrows(s, h, Refused, s.tracks[h].chan); }
    case TakeResponse(h) =>
      if h < |s.tracks| && s.tracks[h].waiting && s.tracks[h].chan != [] {
        ReturnGrows(s, h, s.tracks[h].chan[0], s.tracks[h].chan[1..]);
      }
    case OnSubscribeOk(id, alias) =>
      if id in s.pending {
        RespondGrows(Open(s, id).(aliases := s.aliases[alias := id]), s.pending[id], Granted);
      }
    case OnFetchOk(id) => if id in s.pending { RespondGrows(Open(s, id), s.pending[id], Granted); }
    case OnError(id) => if id in s.pending { RespondGrows(Forget(s, id), s.pending[id], Refused); }
    case OtherCall =>
    case OnMaxRequestID(_) =>
  }

  lemma SubscribesWrittenStep(s: State, a: Action)
    requires SubscribesWritten(s) && !SubscribeWriteFails(s, a)
    ensures SubscribesWritten(Step(s, a))
  {
    hide Step;
    StepGrows(s, a);
    var t := Step(s, a);
    forall h | 0 <= h < |t.tracks| && !t.tracks[h].wrote
      ensures t.tracks[h].fetch
    {
      assert h < |s.tracks| ==> Continues(s.tracks[h], t.tracks[h]);
    }
  }

  lemma {:induction false} RunSubscribesWritten(role: nat, actions: seq<Action>)
    requires forall k :: 0 <= k < |actions| ==> !SubscribeWriteFails(Run(role, actions[..k]), actions[k])
    ensures SubscribesWritten(Run(role, actions))
  {
    if actions != [] {
      var n := |actions| - 1;
      assert forall k :: 0 <= k < n ==> actions[..n][..k] == actions[..k];
      RunSubscribesWritten(role, actions[..n]);
      SubscribesWrittenStep(Run(role, actions[..n]), actions[n]);
    }
  }

  lemma WrittenLeavesNothing(s: State)
    requires Invariant(s) && SubscribesWritten(s)
    ensures NothingLeft(s)
  {
    forall h | 0 <= h < |s.tracks| && s.tracks[h].result == Some(Refused)
      ensures s.tracks[h].id !in s.pending
    {
      assert OneResponse(s, s.tracks[h]);
    }
  }

  /** The track of a failed Subscribe call is left in the registry of pending ones. */
  predicate LeftPending(s: State, h: nat) {
    h < |s.tracks| && s.tracks[h].result == Some(Refused) && s.tracks[h].id in s.pending
  }

  lemma FailedSubscribeLeft(s: State)
    requires Invariant(s) && s.nextID < s.max
    ensures LeftPending(Step(s, StartRequest(false, false)), |s.tracks|)
  {
    NextIsFresh(s);
  }

  /**
   The exact condition: failed calls leave nothing pending, at any time of a run, if and only if no
   Subscribe call that got a request ID failed to write its request.
   */
  lemma FailedCallsLeaveNothing(role: nat, actions: seq<Action>)
    ensures (forall k :: 0 <= k <= |actions| ==> NothingLeft(Run(role, actions[..k]))) <==>
            (forall k :: 0 <= k < |actions| ==> !SubscribeWriteFails(Run(role, actions[..k]), actions[k]))
  {
    hide NothingLeft, SubscribeWriteFails;
    if k :| 0 <= k < |actions| && SubscribeWriteFails(Run(role, actions[..k]), actions[k]) {
      FailedSubscribeShows(role, actions, k);
    } else {
      forall k | 0 <= k <= |actions|
        ensures NothingLeft(Run(role, actions[..k]))
      {
        assert forall j :: 0 <= j < k ==> actions[..k][..j] == actions[..j];
        RunSubscribesWritten(role, actions[..k]);
        RunInvariant(role, actions[..k]);
        WrittenLeavesNothing(Run(role, actions[..k]));
      }
    }
  }

  lemma FailedSubscribeShows(role: nat, actions: seq<Action>, k: nat)
    requires k < |actions| && SubscribeWriteFails(Run(role, actions[..k]), actions[k])
    ensures !NothingLeft(Run(role, actions[..k + 1]))
  {
    var s := Run(role, actions[..k]);
    RunInvariant(role, actions[..k]);
    FailedSubscribeLeft(s);
    assert actions[..k + 1][..k] == actions[..k];
    assert LeftPending(Run(role, actions[..k + 1]), |s.tracks|);
  }

  /** A message that responds to request `id`. */
  predicate RespondsTo(a: Action, id: nat) {
    (a.OnSubscribeOk? || a.OnFetchOk? || a.OnError?) && a.id == id
  }

  lemma LeftPendingStep(s: State, a: Action, h: nat)
    requires Invariant(s) && LeftPending(s, h) && !RespondsTo(a, s.tracks[h].id)
    ensures LeftPending(Step(s, a), h) && Step(s, a).tracks[h].id == s.tracks[h].id
  {
    hide Step;
    StepGrows(s, a);
    NextIsFresh(s);
    assert Continues(s.tracks[h], Step(s, a).tracks[h]) && OneResponse(s, s.tracks[h]);
    forall k | 0 <= k < |s.tracks| && s.tracks[k].waiting
      ensures s.tracks[k].id != s.tracks[h].id
    {
      assert k != h;
    }
  }

  /** Such an entry stays for good, since a request that was not written gets no response. */
  lemma {:induction false} LeftForGood(role: nat, actions: seq<Action>, k: nat, h: nat)
    requires k <= |actions| && LeftPending(Run(role, actions[..k]), h)
    requires forall j :: k <= j < |actions| ==> !RespondsTo(actions[j], Run(role, actions[..k]).tracks[h].id)
    ensures LeftPending(Run(role, actions), h)
    ensures Run(role, actions).tracks[h].id == Run(role, actions[..k]).tracks[h].id
  {
    hide Run, RespondsTo;
    if k == |actions| {
      assert actions[..k] == actions;
    } else {
      var n := |actions| - 1;
      assert actions[..n][..k] == actions[..k];
      LeftForGood(role, actions[..n], k, h);
      LeftPendingRun(role, actions, h);
    }
  }

  lemma LeftPendingRun(role: nat, actions: seq<Action>, h: nat)
    requires actions != []
    requires
      var s, a := Run(role, actions[..|actions| - 1]), actions[|actions| - 1];
      LeftPending(s, h) && !RespondsTo(a, s.tracks[h].id)
    ensures LeftPending(Run(role, actions), h)
    ensures Run(role, actions).tracks[h].id == Run(role, actions[..|actions| - 1]).tracks[h].id
  {
    var n := |actions| - 1;
    RunInvariant(role, actions[..n]);
    LeftPendingStep(Run(role, actions[..n]), actions[n], h);
  }

  /** A Subscribe call with a message that is too large, say, on a limit of one. */
  lemma UnwrittenSubscribeStaysPending()
    ensures
      var s := Run(0, [OnMaxRequestID(1), StartRequest(false, false)]);
      && s.pending == map[0 := 0] && s.tracks == [Track(0, false, false, [], 0, false, Some(Refused))]
      && !NothingLeft(s)
  {
    var a, b := OnMaxRequestID(1), StartRequest(false, false);
    assert [a, b][..1] == [a] && [a][..0] == [];
    assert Run(0, [a]) == Step(Init(0), a);
    var s := Run(0, [a, b]);
    assert s == Step(Step(Init(0), a), b);
    assert LeftPending(s, 0);
  }

  // ---------------------------------------------------------------- what a call is told

  /** The response sent to a track: the one in its channel, or the one its call has taken. */
  function Outcome(t: Track): Option<Response> {
    if t.sent == 0 then None else if t.chan != [] then Some(t.chan[0]) else t.result
  }

  /** FETCH_OK for the pending request of track `h`, or SUBSCRIBE_OK with an alias not in use. */
  predicate Grants(s: State, a: Action, h: nat) {
    && h < |s.tracks| && !s.failed && s.tracks[h].id in s.pending
    && (a == OnFetchOk(s.tracks[h].id) ||
        (a.OnSubscribeOk? && a.id == s.tracks[h].id && a.alias !in s.aliases))
  }

  /** SUBSCRIBE_ERROR or FETCH_ERROR for the pending request of track `h`. */
  predicate Refuses(s: State, a: Action, h: nat) {
    h < |s.tracks| && !s.failed && s.tracks[h].id in s.pending && a == OnError(s.tracks[h].id)
  }

  lemma RespondOutcome(s: State, k: nat, r: Response, h: nat)
    requires h < |s.tracks| && k < |s.tracks| && s.tracks[k].chan == [] && s.tracks[k].sent == 0
    ensures
      var t := Respond(s, k, r);
      && |t.tracks| == |s.tracks|
      && Outcome(t.tracks[h]) == if h == k then Some(r) else Outcome(s.tracks[h])
  {
  }

  lemma ReturnOutcome(s: State, k: nat, r: Response, chan: seq<Response>, h: nat)
    requires h < |s.tracks| && k < |s.tracks| && OneResponse(s, s.tracks[k]) && s.tracks[k].waiting
    requires chan == s.tracks[k].chan || (s.tracks[k].chan == [r] && chan == [])
    ensures
      var t := Return(s, k, r, chan);
      |t.tracks| == |s.tracks| && Outcome(t.tracks[h]) == Outcome(s.tracks[h])
  {
  }

  lemma WaitingTrack(s: State, k: nat)
    requires Invariant(s) && k < |s.tracks|
    ensures OneResponse(s, s.tracks[k]) && (s.tracks[k].chan != [] ==> s.tracks[k].chan == [s.tracks[k].chan[0]])
  {
    assert OneResponse(s, s.tracks[k]);
  }

  /** The request of a pending ID is that of its own track, and has been sent nothing. */
  lemma PendingTrack(s: State, id: nat, h: nat)
    requires Invariant(s) && id in s.pending && h < |s.tracks|
    ensures
      var k := s.pending[id];
      && k < |s.tracks| && s.tracks[k].id == id && s.tracks[k].sent == 0 && s.tracks[k].chan == []
      && (h == k <==> s.tracks[h].id == id)
  {
    assert OneResponse(s, s.tracks[s.pending[id]]);
  }

  /** A step changes what a track has been told exactly by granting or refusing its request. */
  lemma OutcomeStep(s: State, a: Action, h: nat)
    requires Invariant(s) && h < |s.tracks|
    ensures
      var t := Step(s, a);
      && h < |t.tracks|
      && Outcome(t.tracks[h]) ==
         if Grants(s, a, h) then Some(Granted) else if Refuses(s, a, h) then Some(Refused) else Outcome(s.tracks[h])
  {
    hide Respond, Return, Start, Outcome, Invariant, OneResponse;
    match a
    case StartRequest(fetch, wrote) => StartGrows(s, fetch, wrote);
    case Cancelled(k) =>
      if k < |s.tracks| && s.tracks[k].waiting {
        WaitingTrack(s, k);
        ReturnOutcome(s, k, Refused, s.tracks[k].chan, h);
      }
    case TakeResponse(k) =>
      if k < |s.tracks| && s.tracks[k].waiting && s.tracks[k].chan != [] {
        var chan := s.tracks[k].chan;
        WaitingTrack(s, k);
        ReturnOutcome(s, k, chan[0], chan[1..], h);
      }
    case OnSubscribeOk(id, alias) =>
      if id in s.pending {
        PendingTrack(s, id, h);
        RespondOutcome(Open(s, id).(aliases := s.aliases[alias := id]), s.pending[id], Granted, h);
      }
    case OnFetchOk(id) =>
      if id in s.pending {
        PendingTrack(s, id, h);
        RespondOutcome(Open(s, id), s.pending[id], Granted, h);
      }
    case OnError(id) =>
      if id in s.pending {
        PendingTrack(s, id, h);
        RespondOutcome(Forget(s, id), s.pending[id], Refused, h);
      }
    case OtherCall =>
    case OnMaxRequestID(_) =>
  }

  predicate GrantedAt(role: nat, actions: seq<Action>, k: nat, h: nat) {
    k < |actions| && Grants(Run(role, actions[..k]), actions[k], h)
  }

  predicate RefusedAt(role: nat, actions: seq<Action>, k: nat, h: nat) {
    k < |actions| && Refuses(Run(role, actions[..k]), actions[k], h)
  }

  lemma {:induction false} TracksGrow(role: nat, actions: seq<Action>, k: nat)
    requires k <= |actions|
    ensures |Run(role, actions[..k]).tracks| <= |Run(role, actions).tracks|
  {
    if k == |actions| {
      assert actions[..k] == actions;
    } else {
      var n := |actions| - 1;
      assert actions[..n][..k] == actions[..k];
      TracksGrow(role, actions[..n], k);
      StepGrows(Run(role, actions[..n]), actions[n]);
    }
  }

  /** Once a request has been granted or refused it is no longer pending, so neither happens again. */
  lemma RespondedStays(s: State, a: Action, h: nat)
    requires Invariant(s) && h < |s.tracks| && Outcome(s.tracks[h]).Some?
    ensures !Grants(s, a, h) && !Refuses(s, a, h)
  {
    assert OneResponse(s, s.tracks[h]);
  }

  /**
   Over all runs and against any peer: what a track has been told, in its channel or taken by its
   call, is Granted if and only if an OK for its pending request was handled, and Refused if and only
   if an error was.
   */
  lemma {:induction false} ToldWhatArrived(role: nat, actions: seq<Action>, h: nat)
    requires h < |Run(role, actions).tracks|
    ensures
      var told := Outcome(Run(role, actions).tracks[h]);
      && (told == Some(Granted) <==> exists k :: 0 <= k < |actions| && GrantedAt(role, actions, k, h))
      && (told == Some(Refused) <==> exists k :: 0 <= k < |actions| && RefusedAt(role, actions, k, h))
  {
    if actions != [] {
      var n := |actions| - 1;
      var s, a := Run(role, actions[..n]), actions[n];
      RunInvariant(role, actions[..n]);
      EarlierResponses(role, actions, h);
      if h < |s.tracks| {
        ToldWhatArrived(role, actions[..n], h);
        OutcomeStep(s, a, h);
        if Outcome(s.tracks[h]).Some? {
          RespondedStays(s, a, h);
        }
        hide Step, Run, Outcome, Grants, Refuses, Invariant;
        CombineLast(role, actions, h);
      } else {
        NewTrackUntold(role, actions, h);
      }
    }
  }

  /** The steps before the last one are those of the shorter run. */
  lemma EarlierResponses(role: nat, actions: seq<Action>, h: nat)
    requires actions != []
    ensures
      var n := |actions| - 1;
      forall k :: 0 <= k < n ==>
        && (GrantedAt(role, actions, k, h) <==> GrantedAt(role, actions[..n], k, h))
        && (RefusedAt(role, actions, k, h) <==> RefusedAt(role, actions[..n], k, h))
  {
    var n := |actions| - 1;
    assert forall k :: 0 <= k < n ==> actions[..n][..k] == actions[..k] && actions[..n][k] == actions[k];
  }

  lemma CombineLast(role: nat, actions: seq<Action>, h: nat)
    requires actions != []
    ensures
      var n := |actions| - 1;
      && ((exists k :: 0 <= k < |actions| && GrantedAt(role, actions, k, h)) <==>
          (exists k :: 0 <= k < n && GrantedAt(role, actions[..n], k, h)) ||
          Grants(Run(role, actions[..n]), actions[n], h))
      && ((exists k :: 0 <= k < |actions| && RefusedAt(role, actions, k, h)) <==>
          (exists k :: 0 <= k < n && RefusedAt(role, actions[..n], k, h)) ||
          Refuses(Run(role, actions[..n]), actions[n], h))
  {
    EarlierResponses(role, actions, h);
    var n := |actions| - 1;
    assert GrantedAt(role, actions, n, h) <==> Grants(Run(role, actions[..n]), actions[n], h);
    assert RefusedAt(role, actions, n, h) <==> Refuses(Run(role, actions[..n]), actions[n], h);
  }

  lemma NewTrackUntold(role: nat, actions: seq<Action>, h: nat)
    requires actions != [] && |Run(role, actions[..|actions| - 1]).tracks| <= h < |Run(role, actions).tracks|
    ensures Outcome(Run(role, actions).tracks[h]) == None
    ensures forall k :: 0 <= k < |actions| ==> !GrantedAt(role, actions, k, h) && !RefusedAt(role, actions, k, h)
  {
    var n := |actions| - 1;
    StepGrows(Run(role, actions[..n]), actions[n]);
    forall k | 0 <= k < |actions|
      ensures |Run(role, actions[..k]).tracks| <= h
    {
      TracksGrow(role, actions[..n], k);
      assert actions[..n][..k] == actions[..k];
    }
  }

  /** A waiting call that takes its response returns Granted exactly when an OK was handled. */
  lemma TakenIsWhatArrived(role: nat, actions: seq<Action>, h: nat)
    requires
      var s := Run(role, actions);
      h < |s.tracks| && s.tracks[h].waiting && s.tracks[h].chan != []
    ensures
      var r := Run(role, actions + [TakeResponse(h)]).tracks[h].result;
      && r.Some?
      && (r.value == Granted <==> exists k :: 0 <= k < |actions| && GrantedAt(role, actions, k, h))
      && (r.value == Refused <==> exists k :: 0 <= k < |actions| && RefusedAt(role, actions, k, h))
  {
    var s := Run(role, actions);
    RunInvariant(role, actions);
    assert OneResponse(s, s.tracks[h]);
    assert (actions + [TakeResponse(h)])[..|actions|] == actions;
    ToldWhatArrived(role, actions, h);
    hide GrantedAt, RefusedAt;
  }

  // ---------------------------------------------------------------- aliases are forever

  /** Open tracks and aliases stay as they are: only new ones are added. */
  lemma OpenStays(s: State, a: Action)
    ensures
      var t := Step(s, a);
      && (forall i :: i in s.open && i !in s.pending ==> i in t.open && t.open[i] == s.open[i])
      && (forall x :: x in s.aliases ==> x in t.aliases && t.aliases[x] == s.aliases[x])
  {
    hide Respond, Return, Start;
    match a
    case StartRequest(fetch, wrote) => StartOpensNothing(s, fetch, wrote);
    case Cancelled(h) =>
      if h < |s.tracks| { ReturnOpensNothing(s, h, Refused, s.tracks[h].chan); }
    case TakeResponse(h) =>
      if h < |s.tracks| && s.tracks[h].chan != [] {
        ReturnOpensNothing(s, h, s.tracks[h].chan[0], s.tracks[h].chan[1..]);
      }
    case OnSubscribeOk(id, alias) =>
      if id in s.pending {
        RespondOpensNothing(Open(s, id).(aliases := s.aliases[alias := id]), s.pending[id], Granted);
      }
    case OnFetchOk(id) => if id in s.pending { RespondOpensNothing(Open(s, id), s.pending[id], Granted); }
    case OnError(id) => if id in s.pending { RespondOpensNothing(Forget(s, id), s.pending[id], Refused); }
    case OtherCall =>
    case OnMaxRequestID(_) =>
  }

  lemma StartOpensNothing(s: State, fetch: bool, wrote: bool)
    ensures Start(s, fetch, wrote).open == s.open && Start(s, fetch, wrote).aliases == s.aliases
  {
  }

  lemma ReturnOpensNothing(s: State, h: nat, r: Response, chan: seq<Response>)
    requires h < |s.tracks|
    ensures Return(s, h, r, chan).open == s.open && Return(s, h, r, chan).aliases == s.aliases
  {
  }

  lemma RespondOpensNothing(s: State, h: nat, r: Response)
    ensures Respond(s, h, r).open == s.open && Respond(s, h, r).aliases == s.aliases
  {
  }

  lemma ResolveStep(s: State, a: Action, alias: nat)
    requires Registries(s) && Aliases(s) && Resolve(s, alias).Some?
    ensures Resolve(Step(s, a), alias) == Resolve(s, alias)
  {
    var id := s.aliases[alias];
    hide Step;
    OpenStays(s, a);
    assert id in s.open && id !in s.pending;
  }

  /** Once an alias resolves to a track, it resolves to that same track in every later state. */
  lemma {:induction false} AliasIsForever(role: nat, actions: seq<Action>, k: nat, alias: nat)
    requires k <= |actions| && Resolve(Run(role, actions[..k]), alias).Some?
    ensures Resolve(Run(role, actions), alias) == Resolve(Run(role, actions[..k]), alias)
  {
    hide Resolve, Run;
    if k == |actions| {
      assert actions[..k] == actions;
    } else {
      var n := |actions| - 1;
      assert actions[..n][..k] == actions[..k];
      AliasIsForever(role, actions[..n], k, alias);
      ResolveRun(role, actions, alias);
    }
  }

  lemma ResolveRun(role: nat, actions: seq<Action>, alias: nat)
    requires actions != [] && Resolve(Run(role, actions[..|actions| - 1]), alias).Some?
    ensures Resolve(Run(role, actions), alias) == Resolve(Run(role, actions[..|actions| - 1]), alias)
  {
    var n := |actions| - 1;
    RunInvariant(role, actions[..n]);
    ResolveStep(Run(role, actions[..n]), actions[n], alias);
  }

  /** Two aliases never name the same track. */
  lemma AliasesDiffer(role: nat, actions: seq<Action>, a: nat, b: nat)
    requires a != b
    ensures
      var s := Run(role, actions);
      Resolve(s, a).Some? && Resolve(s, b).Some? ==> Resolve(s, a) != Resolve(s, b)
  {
    RunInvariant(role, actions);
  }

  /** A registered ID is in one registry only and was issued before the next one. */
  lemma RegisteredWasIssued(role: nat, actions: seq<Action>, id: nat)
    requires Known(Run(role, actions), id)
    ensures id < Run(role, actions).nextID
    ensures !(id in Run(role, actions).pending && id in Run(role, actions).open)
  {
    RunInvariant(role, actions);
    var s := Run(role, actions);
    var h := if id in s.pending then s.pending[id] else s.open[id];
    assert s.tracks[h].id == id;
  }
}
