/** What the credit scheme and the publishing side guarantee together. */
module EndToEnd {
  import RequestCredit
  import LocalTracks

  /** The IDs of the SUBSCRIBE and FETCH messages in a run of the publishing side. */
  function RequestIds(actions: seq<LocalTracks.Action>): seq<nat> {
    if actions == [] then []
    else
      var k := |actions| - 1;
      RequestIds(actions[..k]) + (if actions[k].OnRequest? then [actions[k].id] else [])
  }

  lemma {:induction false} EveryIdListed(actions: seq<LocalTracks.Action>, j: nat)
    requires j < |actions| && actions[j].OnRequest?
    ensures actions[j].id in RequestIds(actions)
  {
    var k := |actions| - 1;
    if j < k {
      EveryIdListed(actions[..k], j);
    }
  }

  lemma {:induction false} IncreasingIsDistinct(actions: seq<LocalTracks.Action>)
    requires RequestCredit.Increasing(RequestIds(actions))
    ensures LocalTracks.DistinctRequests(actions)
  {
    if actions != [] {
      var k := |actions| - 1;
      var before := RequestIds(actions[..k]);
      assert forall i :: 0 <= i < |before| ==> RequestIds(actions)[i] == before[i];
      IncreasingIsDistinct(actions[..k]);
      forall j | 0 <= j < k && actions[j].OnRequest? && actions[k].OnRequest?
        ensures actions[j].id != actions[k].id
      {
        EveryIdListed(actions[..k], j);
        var i :| 0 <= i < |before| && before[i] == actions[j].id;
        assert RequestIds(actions)[|before|] == actions[k].id;
      }
    }
  }

  /** Every request reaches the publishing side while it reads control messages. */
  predicate HandledInTurn(limit: nat, actions: seq<LocalTracks.Action>) {
    forall k :: 0 <= k < |actions| && actions[k].OnRequest? ==>
                  LocalTracks.Reading(LocalTracks.Run(limit, actions[..k]))
  }

  // ---------------------------------------------------------------- who is admitted

  /** The limit after requests `ids` have arrived in this order, refused ones leaving it alone. */
  function LimitAfter(limit: nat, ids: seq<nat>): nat {
    if ids == [] then limit
    else
      var k := |ids| - 1;
      var before := LimitAfter(limit, ids[..k]);
      if ids[k] < before then RequestCredit.Raised(before, ids[k]) else before
  }

  /** Those of `ids` that are below the limit when they arrive. */
  function AdmittedOf(limit: nat, ids: seq<nat>): seq<nat> {
    if ids == [] then []
    else
      var k := |ids| - 1;
      AdmittedOf(limit, ids[..k]) + (if ids[k] < LimitAfter(limit, ids[..k]) then [ids[k]] else [])
  }

  lemma OneMore(limit: nat, ids: seq<nat>, id: nat)
    ensures
      var before := LimitAfter(limit, ids);
      && LimitAfter(limit, ids + [id]) == (if id < before then RequestCredit.Raised(before, id) else before)
      && AdmittedOf(limit, ids + [id]) == AdmittedOf(limit, ids) + (if id < before then [id] else [])
  {
    assert (ids + [id])[..|ids|] == ids;
  }

  // ---------------------------------------------------------------- the credit side

  /** The request, if any, that the server takes off the control stream in a step. */
  function Taken(s: RequestCredit.System, a: RequestCredit.Action): seq<nat> {
    if && a.role == RequestCredit.Server && a.act == RequestCredit.DoReceive && s.server.ready
       && s.server.failure == RequestCredit.NoFailure && s.toServer != [] && s.toServer[0].Request? then
      [s.toServer[0].id]
    else []
  }

  /** The IDs of all SUBSCRIBE and FETCH messages the server handles in a run, admitted or not. */
  function HandledIds(clientMax: nat, serverMax: nat, run: seq<RequestCredit.Action>): seq<nat> {
    if run == [] then []
    else
      var k := |run| - 1;
      HandledIds(clientMax, serverMax, run[..k]) + Taken(RequestCredit.Run(clientMax, serverMax, run[..k]), run[k])
  }

  /** The requests handled so far decide who was admitted and what is enforced; those in flight are newer. */
  predicate Accounted(s: RequestCredit.System, serverMax: nat, ids: seq<nat>) {
    && s.server.admitted == AdmittedOf(serverMax, ids) && s.server.localMax == LimitAfter(serverMax, ids)
    && RequestCredit.IdsOrdered(s.client, s.toServer, ids)
  }

  /** What a step of the server does with the request it takes, if any. */
  lemma ServerTakes(s: RequestCredit.System, a: RequestCredit.Action)
    requires a.role == RequestCredit.Server
    ensures
      var t, ids, limit := RequestCredit.Step(s, a), Taken(s, a), s.server.localMax;
      && t.client == s.client
      && (t.toServer == s.toServer || (s.toServer != [] && t.toServer == s.toServer[1..]))
      && (ids == [] ==> t.server.admitted == s.server.admitted && t.server.localMax == limit)
      && (ids != [] ==>
            && s.toServer != [] && s.toServer[0].Request? && ids == [s.toServer[0].id] && t.toServer == s.toServer[1..]
            && t.server.localMax == (if ids[0] < limit then RequestCredit.Raised(limit, ids[0]) else limit)
            && t.server.admitted == s.server.admitted + (if ids[0] < limit then ids else []))
  {
  }

  lemma AccountedStep(s: RequestCredit.System, a: RequestCredit.Action, serverMax: nat, ids: seq<nat>)
    requires Accounted(s, serverMax, ids)
    ensures Accounted(RequestCredit.Step(s, a), serverMax, ids + Taken(s, a))
  {
    hide RequestCredit.IdsOrdered;
    assert ids + [] == ids;
    if a.role == RequestCredit.Client {
      hide RequestCredit.Local;
      var (e', inbox', sent) := RequestCredit.Local(s.client, s.toClient, a.act, a.wrote);
      RequestCredit.LocalGrows(s.client, s.toClient, a.act, a.wrote);
      RequestCredit.SentIds(s.client, s.toClient, a.act, a.wrote);
      RequestCredit.IdsAppend(s.client, e', s.toServer, sent, ids);
    } else {
      hide RequestCredit.Step;
      ServerTakes(s, a);
      if s.toServer != [] {
        RequestCredit.IdsPop(s.client, s.toServer, ids);
        OneMore(serverMax, ids, if s.toServer[0].Request? then s.toServer[0].id else 0);
      }
    }
  }

  lemma {:induction false} RunAccounted(clientMax: nat, serverMax: nat, run: seq<RequestCredit.Action>)
    ensures Accounted(RequestCredit.Run(clientMax, serverMax, run), serverMax, HandledIds(clientMax, serverMax, run))
  {
    if run != [] {
      var k := |run| - 1;
      RunAccounted(clientMax, serverMax, run[..k]);
      hide Accounted, RequestCredit.Step, Taken;
      AccountedStep(RequestCredit.Run(clientMax, serverMax, run[..k]), run[k], serverMax,
                    HandledIds(clientMax, serverMax, run[..k]));
    }
  }

  // ---------------------------------------------------------------- the publishing side

  /** The tracks are those of the requests `ids`, in this order. */
  predicate TracksAre(tracks: seq<LocalTracks.Track>, ids: seq<nat>) {
    |tracks| == |ids| && forall i :: 0 <= i < |ids| ==> tracks[i].id == ids[i]
  }

  lemma OnlyRequestsAllocate(s: LocalTracks.State, a: LocalTracks.Action, ids: seq<nat>)
    requires !a.OnRequest? && TracksAre(s.tracks, ids)
    ensures TracksAre(LocalTracks.Step(s, a).tracks, ids) && LocalTracks.Step(s, a).limit == s.limit
  {
    hide TracksAre;
    StepKeepsTracks(s, a);
    SameIds(s.tracks, LocalTracks.Step(s, a).tracks, ids);
  }

  lemma StepKeepsTracks(s: LocalTracks.State, a: LocalTracks.Action)
    requires !a.OnRequest?
    ensures
      var t := LocalTracks.Step(s, a);
      && t.limit == s.limit && |t.tracks| == |s.tracks|
      && forall i :: 0 <= i < |s.tracks| ==> t.tracks[i].id == s.tracks[i].id
  {
  }

  lemma SameIds(tracks: seq<LocalTracks.Track>, tracks': seq<LocalTracks.Track>, ids: seq<nat>)
    requires TracksAre(tracks, ids) && |tracks'| == |tracks|
    requires forall i :: 0 <= i < |tracks| ==> tracks'[i].id == tracks[i].id
    ensures TracksAre(tracks', ids)
  {
  }

  /** A new request is refused beyond the limit and has a track otherwise. */
  lemma RequestAllocates(s: LocalTracks.State, a: LocalTracks.Action, ids: seq<nat>)
    requires a.OnRequest? && LocalTracks.Reading(s) && !LocalTracks.Known(s, a.id) && TracksAre(s.tracks, ids)
    ensures
      var t := LocalTracks.Step(s, a);
      && TracksAre(t.tracks, ids + (if a.id < s.limit then [a.id] else []))
      && t.limit == (if a.id < s.limit then RequestCredit.Raised(s.limit, a.id) else s.limit)
  {
    assert ids + [] == ids;
  }

  /** The publishing side admits the same requests as the credit scheme and enforces the same limit. */
  lemma {:induction false} AdmittedHaveTracks(limit: nat, actions: seq<LocalTracks.Action>)
    requires HandledInTurn(limit, actions) && RequestCredit.Increasing(RequestIds(actions))
    ensures
      var s := LocalTracks.Run(limit, actions);
      TracksAre(s.tracks, AdmittedOf(limit, RequestIds(actions))) && s.limit == LimitAfter(limit, RequestIds(actions))
  {
    if actions != [] {
      var k := |actions| - 1;
      var earlier, a, ids := actions[..k], actions[k], RequestIds(actions[..k]);
      assert forall i :: 0 <= i < k ==> earlier[..i] == actions[..i];
      IncreasingPrefix(actions);
      AdmittedHaveTracks(limit, earlier);
      var s := LocalTracks.Run(limit, earlier);
      if a.OnRequest? {
        UnknownWhenNew(limit, actions);
        hide LocalTracks.Step, TracksAre, AdmittedOf, LimitAfter;
        RequestAllocates(s, a, AdmittedOf(limit, ids));
        OneMore(limit, ids, a.id);
      } else {
        hide LocalTracks.Step;
        OnlyRequestsAllocate(s, a, AdmittedOf(limit, ids));
        assert RequestIds(actions) == ids;
      }
    }
  }

  lemma IncreasingPrefix(actions: seq<LocalTracks.Action>)
    requires actions != [] && RequestCredit.Increasing(RequestIds(actions))
    ensures RequestCredit.Increasing(RequestIds(actions[..|actions| - 1]))
  {
    var before := RequestIds(actions[..|actions| - 1]);
    assert forall i :: 0 <= i < |before| ==> RequestIds(actions)[i] == before[i];
  }

  /** A request with a new ID is in no registry. */
  lemma UnknownWhenNew(limit: nat, actions: seq<LocalTracks.Action>)
    requires actions != [] && actions[|actions| - 1].OnRequest?
    requires RequestCredit.Increasing(RequestIds(actions))
    ensures !LocalTracks.Known(LocalTracks.Run(limit, actions[..|actions| - 1]), actions[|actions| - 1].id)
  {
    var k := |actions| - 1;
    IncreasingIsDistinct(actions);
    LocalTracks.RunInvariant(limit, actions[..k]);
    var s, id := LocalTracks.Run(limit, actions[..k]), actions[k].id;
    if id in s.seen {
      LocalTracks.SeenWereReceived(limit, actions[..k], id);
      assert false;
    }
    LocalTracks.FreshId(s, id);
  }

  // ---------------------------------------------------------------- both together

  /**
   Let a server handle the requests of a client, in any run of the two and whatever either enforces,
   and let its publishing side handle the same ones in the same order, with any handlers and any failed
   writes. Then there is exactly one track for each request the credit scheme admits, in the order of
   admission, each is answered once, what the peer sees of it is what was written, every other request
   gets at most one error, and both views of the server enforce the same limit.
   */
  lemma GeneratedRequestsAnsweredOnce(
    clientMax: nat, serverMax: nat, run: seq<RequestCredit.Action>, actions: seq<LocalTracks.Action>)
    requires RequestIds(actions) == HandledIds(clientMax, serverMax, run)
    requires HandledInTurn(serverMax, actions)
    ensures
      var server, s := RequestCredit.Run(clientMax, serverMax, run).server, LocalTracks.Run(serverMax, actions);
      && TracksAre(s.tracks, server.admitted) && s.limit == server.localMax
      && (s.current.None? ==> s.pending == map[])
      && (forall id :: id in server.admitted ==>
            exists t :: t in s.tracks && t.id == id &&
                        LocalTracks.AnsweredOnce(s, t) && LocalTracks.AnsweredOnWire(s, t))
      && (forall id :: id !in server.admitted ==> !LocalTracks.HasTrack(s, id) && LocalTracks.Trackless(s, id))
  {
    var admitted := RequestCredit.Run(clientMax, serverMax, run).server.admitted;
    var s := LocalTracks.Run(serverMax, actions);
    RunAccounted(clientMax, serverMax, run);
    AdmittedHaveTracks(serverMax, actions);
    IncreasingIsDistinct(actions);
    LocalTracks.EveryRequestAnsweredOnce(serverMax, actions);
    LocalTracks.PeerSeesOneAnswer(serverMax, actions);
    hide LocalTracks.Run, RequestCredit.Run, LocalTracks.AnsweredOnce, LocalTracks.AnsweredOnWire;
    forall id | id in admitted
      ensures exists t :: t in s.tracks && t.id == id &&
                          LocalTracks.AnsweredOnce(s, t) && LocalTracks.AnsweredOnWire(s, t)
    {
      var i :| 0 <= i < |admitted| && admitted[i] == id;
      assert s.tracks[i] in s.tracks && s.tracks[i].id == id;
    }
    forall id | id !in admitted
      ensures !LocalTracks.HasTrack(s, id)
    {
      assert forall i :: 0 <= i < |s.tracks| ==> s.tracks[i].id == admitted[i];
    }
  }

  /** A publishing side that handles `ids` one after another, each handler returning without an answer. */
  function InTurn(ids: seq<nat>): seq<LocalTracks.Action> {
    if ids == [] then [] else WithOne(InTurn(ids[..|ids| - 1]), ids[|ids| - 1])
  }

  function WithOne(actions: seq<LocalTracks.Action>, id: nat): seq<LocalTracks.Action> {
    var sent := LocalTracks.Sent(true, true);
    actions + [LocalTracks.OnRequest(id, LocalTracks.Subscription, sent), LocalTracks.HandlerReturns(true)]
  }

  lemma WithOneHandled(limit: nat, actions: seq<LocalTracks.Action>, id: nat)
    requires HandledInTurn(limit, actions) && LocalTracks.Reading(LocalTracks.Run(limit, actions))
    ensures HandledInTurn(limit, WithOne(actions, id))
    ensures LocalTracks.Reading(LocalTracks.Run(limit, WithOne(actions, id)))
    ensures RequestIds(WithOne(actions, id)) == RequestIds(actions) + [id]
  {
    var n, all := |actions|, WithOne(actions, id);
    assert all[..n] == actions && all[..n + 1][..n] == actions;
    forall k | 0 <= k < |all| && all[k].OnRequest?
      ensures LocalTracks.Reading(LocalTracks.Run(limit, all[..k]))
    {
      assert k < n ==> all[k] == actions[k] && all[..k] == actions[..k];
    }
    var s := LocalTracks.Run(limit, actions);
    assert LocalTracks.Run(limit, all[..n + 1]) == LocalTracks.Step(s, all[n]);
    assert LocalTracks.Run(limit, all) == LocalTracks.Step(LocalTracks.Step(s, all[n]), all[n + 1]);
  }

  /** Whatever a server receives can be handled in turn, so the theorem above speaks about every run. */
  lemma {:induction false} CanBeHandledInTurn(limit: nat, ids: seq<nat>)
    ensures HandledInTurn(limit, InTurn(ids)) && LocalTracks.Reading(LocalTracks.Run(limit, InTurn(ids)))
    ensures RequestIds(InTurn(ids)) == ids
  {
    if ids != [] {
      CanBeHandledInTurn(limit, ids[..|ids| - 1]);
      WithOneHandled(limit, InTurn(ids[..|ids| - 1]), ids[|ids| - 1]);
    }
  }
}
