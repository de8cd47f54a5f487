/**
 Progress of the request ID credit scheme: runs in which every request is a SUBSCRIBE or FETCH and
 no write fails. Nothing here depends on the server enforcing what it advertises.
 */
module RequestProgress {
  import opened Bytes
  import opened RequestCredit

  /** All requests are SUBSCRIBE or FETCH and no write fails. */
  predicate OnlyTrackRequests(actions: seq<Action>) {
    forall i :: 0 <= i < |actions| ==> actions[i].wrote && actions[i].act != DoCall(true)
  }

  predicate Quiescent(s: System) {
    && s.toClient == [] && s.toServer == []
    && s.client.ready && s.server.ready && s.client.failure == NoFailure && s.server.failure == NoFailure
  }

  predicate Blocked(e: Endpoint) {
    e.nextID >= e.max
  }

  /** The limit the requester will hold once everything in flight has arrived. */
  function LastLimit(max: nat, down: seq<Msg>): nat {
    if down == [] then max
    else
      var last := LimitOf(down[|down| - 1]);
      if last.Some? then last.value else LastLimit(max, down[..|down| - 1])
  }

  lemma {:induction false} LastLimitPop(max: nat, down: seq<Msg>)
    requires down != []
    ensures LastLimit(max, down) ==
            LastLimit(if LimitOf(down[0]).Some? then LimitOf(down[0]).value else max, down[1..])
  {
    var k := |down| - 1;
    if k > 0 && LimitOf(down[k]).None? {
      LastLimitPop(max, down[..k]);
      assert down[..k][1..] == down[1..][..k - 1];
    }
  }

  function Requests(msgs: seq<Msg>): seq<nat> {
    if msgs == [] then []
    else (if msgs[0].Request? then [msgs[0].id] else []) + Requests(msgs[1..])
  }

  lemma {:induction false} RequestsAppend(a: seq<Msg>, b: seq<Msg>)
    ensures Requests(a + b) == Requests(a) + Requests(b)
  {
    if a == [] {
      assert a + b == b;
    } else {
      RequestsAppend(a[1..], b);
      assert (a + b)[1..] == a[1..] + b;
      var head := if a[0].Request? then [a[0].id] else [];
      assert Requests(a + b) == head + Requests((a + b)[1..]);
      hide Requests;
      assert head + (Requests(a[1..]) + Requests(b)) == (head + Requests(a[1..])) + Requests(b);
    }
  }

  lemma LastLimitAppend(max: nat, down: seq<Msg>, sent: seq<Msg>)
    requires |sent| <= 1
    ensures LastLimit(max, down + sent) ==
            if |sent| == 1 && LimitOf(sent[0]).Some? then LimitOf(sent[0]).value else LastLimit(max, down)
  {
    if |sent| == 1 {
      assert (down + sent)[..|down|] == down;
    } else {
      assert down + sent == down;
    }
  }

  /** No limit in flight is below the one that arrives before it. */
  predicate InOrder(max: nat, down: seq<Msg>) {
    forall i :: 0 <= i < |down| && LimitOf(down[i]).Some? ==> LastLimit(max, down[..i]) <= LimitOf(down[i]).value
  }

  lemma InOrderAppend(max: nat, down: seq<Msg>, sent: seq<Msg>)
    requires |sent| <= 1
    ensures InOrder(max, down + sent) <==>
            && InOrder(max, down)
            && (|sent| == 1 && LimitOf(sent[0]).Some? ==> LastLimit(max, down) <= LimitOf(sent[0]).value)
  {
    hide LastLimit;
    var all := down + sent;
    assert all[..|down|] == down;
    assert forall i :: 0 <= i < |down| ==> all[i] == down[i] && all[..i] == down[..i];
    assert |sent| == 1 ==> all[|down|] == sent[0];
  }

  function NextLimit(max: nat, m: Msg): nat {
    if LimitOf(m).Some? then LimitOf(m).value else max
  }

  lemma InOrderPop(max: nat, down: seq<Msg>)
    requires down != []
    ensures InOrder(max, down) <==> max <= NextLimit(max, down[0]) && InOrder(NextLimit(max, down[0]), down[1..])
  {
    var next, rest := NextLimit(max, down[0]), down[1..];
    forall i | 0 < i < |down|
      ensures down[i] == rest[i - 1] && LastLimit(max, down[..i]) == LastLimit(next, rest[..i - 1])
    {
      LastLimitPop(max, down[..i]);
      assert down[..i][1..] == rest[..i - 1];
    }
    assert LastLimit(max, down[..0]) == max;
    if InOrder(max, down) {
      assert max <= next;
      assert forall i :: 0 <= i < |rest| ==>
                           rest[i] == down[i + 1] && LastLimit(next, rest[..i]) == LastLimit(max, down[..i + 1]);
    }
  }

  /** The IDs are all those the requester has issued, in order. */
  predicate AllIssued(r: Endpoint, ids: seq<nat>) {
    var first := if r.role == Client then 0 else 1;
    r.nextID == first + 2 * |ids| && forall i :: 0 <= i < |ids| ==> ids[i] == first + 2 * i
  }

  /** What the requester has been or is being told is what is enforced, or it is the server's setup value. */
  predicate Granted(told: nat, g: Endpoint, initial: nat) {
    if g.role == Client then told == g.localMax
    else if !g.ready then told == 0 && g.admitted == [] && g.localMax == initial
    else
      && told >= ADVERTISED
      && (|| told == g.localMax
          || (&& told == ADVERTISED && g.localMax == initial
              && forall k :: 0 <= k < |g.admitted| ==> g.admitted[k] < initial / 2))
  }

  /** One direction of the system: requester `r`, grantor `g`, and the messages between them. */
  predicate Flow(r: Endpoint, g: Endpoint, down: seq<Msg>, up: seq<Msg>, initial: nat) {
    && r.role != g.role
    && (g.failure == NoFailure ==> AllIssued(r, g.admitted + Requests(up)))
    && g.refused == []
    && r.failure != MaxDecreased
    && (r.failure == NoFailure ==> InOrder(r.max, down) && Granted(LastLimit(r.max, down), g, initial))
  }

  // ---------------------------------------------------------------- a step of the requester

  /** At most one message leaves per step; it is a request only when an ID was taken for it. */
  lemma SentByStep(e: Endpoint, inbox: seq<Msg>, act: Act)
    requires act != DoCall(true)
    ensures
      var (e', inbox', sent) := Local(e, inbox, act, true);
      && e'.role == e.role && |sent| <= 1
      && (if |sent| == 1 && sent[0].Request? then sent[0].id == e.nextID && e'.nextID == e.nextID + 2
          else e'.nextID == e.nextID)
  {
  }

  lemma RequesterIssues(r: Endpoint, down: seq<Msg>, up: seq<Msg>, admitted: seq<nat>, act: Act)
    requires AllIssued(r, admitted + Requests(up)) && act != DoCall(true)
    ensures
      var (r', down', sent) := Local(r, down, act, true);
      AllIssued(r', admitted + Requests(up + sent))
  {
    hide Local, AllIssued;
    var (r', down', sent) := Local(r, down, act, true);
    SentByStep(r, down, act);
    RequestsAppend(up, sent);
    RequestsOfOne(sent);
    var ids := admitted + Requests(up);
    if |sent| == 1 && sent[0].Request? {
      IssueOne(r, r', ids);
      assert admitted + Requests(up + sent) == ids + [r.nextID];
    } else {
      IssueNone(r, r', ids);
      assert admitted + Requests(up + sent) == ids;
    }
  }

  lemma RequestsOfOne(sent: seq<Msg>)
    requires |sent| <= 1
    ensures Requests(sent) == if |sent| == 1 && sent[0].Request? then [sent[0].id] else []
  {
    assert |sent| == 1 ==> Requests(sent[1..]) == [];
  }

  lemma IssueOne(r: Endpoint, r': Endpoint, ids: seq<nat>)
    requires AllIssued(r, ids) && r'.role == r.role && r'.nextID == r.nextID + 2
    ensures AllIssued(r', ids + [r.nextID])
  {
  }

  lemma IssueNone(r: Endpoint, r': Endpoint, ids: seq<nat>)
    requires AllIssued(r, ids) && r'.role == r.role && r'.nextID == r.nextID
    ensures AllIssued(r', ids)
  {
  }

  /** A requester takes the next limit that reaches it, or stops. */
  lemma RequesterTakes(r: Endpoint, m: Msg)
    requires r.role == Client || r.max <= NextLimit(r.max, m)
    ensures
      var r' := Receive(r, m, true).0;
      && (r'.failure == NoFailure ==> r'.max == NextLimit(r.max, m) && r.max <= r'.max)
      && (r'.failure == MaxDecreased ==> r.failure == MaxDecreased || NextLimit(r.max, m) < r.max)
  {
  }

  lemma RequesterLimit(r: Endpoint, down: seq<Msg>, act: Act)
    requires r.role == Client || InOrder(r.max, down)
    ensures
      var (r', down', sent) := Local(r, down, act, true);
      && (r'.failure == NoFailure ==>
            && r.failure == NoFailure && LastLimit(r'.max, down') == LastLimit(r.max, down)
            && (InOrder(r'.max, down') <==> InOrder(r.max, down)))
      && (InOrder(r.max, down) && r'.failure == MaxDecreased ==> r.failure == MaxDecreased)
  {
    hide InOrder, LastLimit, Receive;
    if act.DoReceive? && down != [] && r.failure == NoFailure {
      LastLimitPop(r.max, down);
      InOrderPop(r.max, down);
      RequesterTakes(r, down[0]);
    }
  }

  lemma FlowRequester(r: Endpoint, g: Endpoint, down: seq<Msg>, up: seq<Msg>, initial: nat, act: Act)
    requires Flow(r, g, down, up, initial) && act != DoCall(true)
    ensures
      var (r', down', sent) := Local(r, down, act, true);
      Flow(r', g, down', up + sent, initial)
  {
    hide Receive, AllIssued, InOrder, Granted;
    SentByStep(r, down, act);
    if g.failure == NoFailure {
      RequesterIssues(r, down, up, g.admitted, act);
    }
    if r.failure == NoFailure {
      RequesterLimit(r, down, act);
    }
  }

  // ---------------------------------------------------------------- a step of the grantor

  /** The request about to be handled, if there is one, is below the enforced limit. */
  predicate HeadFits(g: Endpoint, up: seq<Msg>) {
    up != [] && up[0].Request? ==> up[0].id < g.localMax
  }

  lemma GrantorAdmitsHead(g: Endpoint, up: seq<Msg>, act: Act)
    requires HeadFits(g, up)
    ensures
      var (g', up', sent) := Local(g, up, act, true);
      && g'.refused == g.refused
      && (g'.failure == NoFailure ==>
            && g.failure == NoFailure
            && g'.admitted + Requests(up') == g.admitted + Requests(up))
  {
    hide Local;
    var (g', up', sent) := Local(g, up, act, true);
    HeadHandled(g, up, act);
    if up != [] && up' == up[1..] {
      var head := if up[0].Request? then [up[0].id] else [];
      assert Requests(up) == head + Requests(up[1..]);
      assert g.admitted + (head + Requests(up[1..])) == (g.admitted + head) + Requests(up[1..]);
    }
  }

  lemma HeadHandled(g: Endpoint, up: seq<Msg>, act: Act)
    requires HeadFits(g, up)
    ensures
      var (g', up', sent) := Local(g, up, act, true);
      && g'.refused == g.refused
      && (g'.failure == NoFailure ==>
            && g.failure == NoFailure
            && (|| (up' == up && g'.admitted == g.admitted)
                || (&& up != [] && up' == up[1..]
                    && g'.admitted == g.admitted + if up[0].Request? then [up[0].id] else [])))
  {
  }

  /** The limit that is sent, with the state in which it is sent. */
  lemma GrantorSays(g: Endpoint, up: seq<Msg>, act: Act)
    ensures
      var (g', up', sent) := Local(g, up, act, true);
      && g'.role == g.role && |sent| <= 1
      && (|| (Unmoved(g, g') && SentLimit(sent).None?)
          || (Announced(g, g') && SentLimit(sent) == Some(ADVERTISED))
          || (AdmittedLow(g, g') && SentLimit(sent).None?)
          || (AdmittedHigh(g, g') && SentLimit(sent) == Some(g'.localMax)))
  {
  }

  function SentLimit(sent: seq<Msg>): Option<nat> {
    if |sent| == 1 then LimitOf(sent[0]) else None
  }

  predicate Unmoved(g: Endpoint, g': Endpoint) {
    g'.localMax == g.localMax && g'.admitted == g.admitted && (g'.ready == g.ready || g.role == Client)
  }

  predicate Announced(g: Endpoint, g': Endpoint) {
    g.role == Server && !g.ready && g'.ready && g'.localMax == g.localMax && g'.admitted == g.admitted
  }

  predicate AdmittedLow(g: Endpoint, g': Endpoint) {
    && g.ready && g'.ready && g'.localMax == g.localMax && |g'.admitted| == |g.admitted| + 1
    && g'.admitted[..|g.admitted|] == g.admitted && g'.admitted[|g.admitted|] < g.localMax / 2
  }

  predicate AdmittedHigh(g: Endpoint, g': Endpoint) {
    g.ready && g'.ready && g'.localMax == 2 * g.localMax
  }

  /** The setup value is too large for the limit that doubling the initial one gives. */
  predicate Overstated(g: Endpoint, initial: nat) {
    g.role == Server && 2 * initial < ADVERTISED
  }

  lemma GrantorKeepsPromise(g: Endpoint, max: nat, down: seq<Msg>, up: seq<Msg>, initial: nat, act: Act)
    requires Granted(LastLimit(max, down), g, initial) && InOrder(max, down)
    ensures
      var (g', up', sent) := Local(g, up, act, true);
      || (Granted(LastLimit(max, down + sent), g', initial) && InOrder(max, down + sent))
      || (Overstated(g, initial) && !InOrder(max, down + sent))
  {
    hide Local, InOrder, LastLimit;
    var (g', up', sent) := Local(g, up, act, true);
    GrantorSays(g, up, act);
    LastLimitAppend(max, down, sent);
    InOrderAppend(max, down, sent);
    if AdmittedLow(g, g') {
      assert forall k :: 0 <= k < |g.admitted| ==> g'.admitted[k] == g.admitted[k];
    }
  }

  lemma FlowGrantor(r: Endpoint, g: Endpoint, down: seq<Msg>, up: seq<Msg>, initial: nat, act: Act)
    requires Flow(r, g, down, up, initial) && HeadFits(g, up)
    ensures
      var (g', up', sent) := Local(g, up, act, true);
      || Flow(r, g', down + sent, up', initial)
      || (Overstated(g, initial) && r.failure == NoFailure && !InOrder(r.max, down + sent))
  {
    hide Local, InOrder, LastLimit, Granted;
    GrantorAdmitsHead(g, up, act);
    GrantorSays(g, up, act);
    if r.failure == NoFailure {
      GrantorKeepsPromise(g, r.max, down, up, initial, act);
    }
  }

  /** IDs arrive one after another, so the limit has been doubled in time. */
  lemma ServerHeadFits(r: Endpoint, g: Endpoint, down: seq<Msg>, up: seq<Msg>, initial: nat)
    requires r.role == Client && Flow(r, g, down, up, initial) && LimitTracksIds(g, initial) && g.failure == NoFailure
    requires initial >= 3 || (initial == 1 && r.failure == NoFailure)
    ensures HeadFits(g, up)
  {
    if up != [] && up[0].Request? {
      var n := |g.admitted|;
      assert (g.admitted + Requests(up))[n] == up[0].id;
      if n > 0 {
        assert (g.admitted + Requests(up))[n - 1] == g.admitted[n - 1];
      }
    }
  }

  /** What a client grants is never more than it enforces, whatever the server does. */
  lemma {:induction false} RunClientGrants(clientMax: nat, serverMax: nat, actions: seq<Action>)
    ensures
      var s := Run(clientMax, serverMax, actions);
      s.server.role == Server && s.client.role == Client && Link(s.server, s.client, s.toServer, s.toClient)
  {
    if actions != [] {
      var k := |actions| - 1;
      var s, a := Run(clientMax, serverMax, actions[..k]), actions[k];
      RunClientGrants(clientMax, serverMax, actions[..k]);
      hide Local, Link;
      LocalGrows(s.client, s.toClient, a.act, a.wrote);
      LocalGrows(s.server, s.toServer, a.act, a.wrote);
      if a.role == Client {
        GrantorStep(s.server, s.client, s.toServer, s.toClient, a.act, a.wrote);
      } else {
        RequesterStep(s.server, s.client, s.toServer, s.toClient, a.act, a.wrote);
      }
    }
  }

  lemma ClientHeadFits(r: Endpoint, g: Endpoint, down: seq<Msg>, up: seq<Msg>)
    requires g.role == Client && Link(r, g, down, up)
    ensures HeadFits(g, up)
  {
    if up != [] && up[0].Request? {
      assert IdOf(up[0]) == Some(up[0].id);
    }
  }

  // ---------------------------------------------------------------- all runs

  /** The client is bound to see its limit shrink, or has stopped reading. */
  predicate Doomed(s: System) {
    s.client.failure != NoFailure || !InOrder(s.client.max, s.toClient)
  }

  predicate ClientFlow(s: System, serverMax: nat) {
    || Flow(s.client, s.server, s.toClient, s.toServer, serverMax)
    || (2 * serverMax < ADVERTISED && Doomed(s))
  }

  lemma DoomedStays(s: System, a: Action)
    requires Doomed(s) && s.client.role == Client && a.wrote
    ensures Doomed(Step(s, a))
  {
    hide InOrder;
    if a.role == Client {
      RequesterLimit(s.client, s.toClient, a.act);
    } else {
      GrantorSays(s.server, s.toServer, a.act);
      InOrderAppend(s.client.max, s.toClient, Local(s.server, s.toServer, a.act, true).2);
    }
  }

  lemma ClientFlowStep(s: System, a: Action, serverMax: nat)
    requires ClientFlow(s, serverMax) && s.client.role == Client && s.server.role == Server
    requires LimitTracksIds(s.server, serverMax) && serverMax != 0 && serverMax != 2
    requires a.wrote && a.act != DoCall(true)
    ensures ClientFlow(Step(s, a), serverMax)
  {
    hide Flow, InOrder, Local, LimitTracksIds;
    if 2 * serverMax < ADVERTISED && Doomed(s) {
      DoomedStays(s, a);
    } else if a.role == Client {
      FlowRequester(s.client, s.server, s.toClient, s.toServer, serverMax, a.act);
    } else if s.server.failure == NoFailure {
      ServerHeadFits(s.client, s.server, s.toClient, s.toServer, serverMax);
      FlowGrantor(s.client, s.server, s.toClient, s.toServer, serverMax, a.act);
    } else {
      StoppedReader(s.client, s.server, s.toClient, s.toServer, serverMax, a.act);
    }
  }

  lemma StoppedReader(r: Endpoint, g: Endpoint, down: seq<Msg>, up: seq<Msg>, initial: nat, act: Act)
    requires Flow(r, g, down, up, initial) && g.failure != NoFailure
    ensures
      var (g', up', sent) := Local(g, up, act, true);
      Flow(r, g', down + sent, up', initial)
  {
    hide InOrder, LastLimit, AllIssued;
    var (g', up', sent) := Local(g, up, act, true);
    assert SentLimit(sent).None?;
    LastLimitAppend(r.max, down, sent);
    InOrderAppend(r.max, down, sent);
  }

  lemma {:induction false} RunServerFlow(clientMax: nat, serverMax: nat, actions: seq<Action>)
    requires OnlyTrackRequests(actions)
    ensures
      var s := Run(clientMax, serverMax, actions);
      Flow(s.server, s.client, s.toServer, s.toClient, clientMax)
  {
    hide Local;
    if actions == [] {
      assert LastLimit(0, [ClientSetup(clientMax)]) == clientMax;
    } else {
      var k := |actions| - 1;
      var s, a := Run(clientMax, serverMax, actions[..k]), actions[k];
      RunServerFlow(clientMax, serverMax, actions[..k]);
      RunClientGrants(clientMax, serverMax, actions[..k]);
      hide Flow, Link;
      if a.role == Client {
        ClientHeadFits(s.server, s.client, s.toServer, s.toClient);
        FlowGrantor(s.server, s.client, s.toServer, s.toClient, clientMax, a.act);
      } else {
        FlowRequester(s.server, s.client, s.toServer, s.toClient, clientMax, a.act);
      }
    }
  }

  lemma {:induction false} RunClientFlow(clientMax: nat, serverMax: nat, actions: seq<Action>)
    requires OnlyTrackRequests(actions) && serverMax != 0 && serverMax != 2
    ensures ClientFlow(Run(clientMax, serverMax, actions), serverMax)
  {
    if actions == [] {
      assert Requests([ClientSetup(clientMax)]) == [];
      var s := Init(clientMax, serverMax);
      assert Flow(s.client, s.server, s.toClient, s.toServer, serverMax);
    } else {
      var k := |actions| - 1;
      RunClientFlow(clientMax, serverMax, actions[..k]);
      RunOrdered(clientMax, serverMax, actions[..k]);
      LimitFollowsIds(clientMax, serverMax, actions[..k]);
      hide ClientFlow, LimitTracksIds;
      ClientFlowStep(Run(clientMax, serverMax, actions[..k]), actions[k], serverMax);
    }
  }

  // ---------------------------------------------------------------- safety without other requests

  /**
   Credit safety over the runs of SUBSCRIBE and FETCH without failed writes, aborts included: it
   holds exactly when the server enforces at least 50, half of what it advertises, because
   consecutive IDs make it double its limit before they reach it.
   */
  lemma TrackCreditSafety(clientMax: nat, serverMax: nat)
    ensures (forall actions | OnlyTrackRequests(actions) :: NoCreditFailure(Run(clientMax, serverMax, actions)))
            <==> serverMax >= 50
  {
    if 2 * serverMax >= ADVERTISED {
      forall actions | OnlyTrackRequests(actions)
        ensures NoCreditFailure(Run(clientMax, serverMax, actions))
      {
        RunClientFlow(clientMax, serverMax, actions);
        RunServerFlow(clientMax, serverMax, actions);
      }
    } else {
      FailsBelow50(clientMax, serverMax);
    }
  }

  lemma FailsBelow50(c: nat, l: nat)
    requires 2 * l < ADVERTISED
    ensures exists actions :: OnlyTrackRequests(actions) && !NoCreditFailure(Run(c, l, actions))
  {
    hide Run, Idle, AfterExchange, NoCreditFailure;
    var m := (l / 2 + 1) / 2;
    ExchangesRun(c, l, m, false);
    ExchangesOnlyTrackRequests(m + 1);
    RunExchange(c, l, Exchanges(m, false), false);
    FailingExchange(Run(c, l, Exchanges(m, false)), c, l, m);
    assert Exchanges(m + 1, false) == Exchanges(m, false) + Exchange(false);
    assert !NoCreditFailure(Run(c, l, Exchanges(m + 1, false)));
  }

  lemma FailingExchange(s: System, c: nat, l: nat, m: nat)
    requires Idle(s, c, l, m) && l / 2 <= 2 * m && 2 * m < ADVERTISED && 2 * l < ADVERTISED
    ensures !NoCreditFailure(AfterExchange(s, false))
  {
    if 2 * m >= l {
      RefusedRequest(s, c, l, m);
    } else {
      ShrunkLimit(s, c, l, m);
    }
  }

  lemma ShrunkLimit(s: System, c: nat, l: nat, m: nat)
    requires Idle(s, c, l, m) && l / 2 <= 2 * m < l && 2 * l < ADVERTISED
    ensures AfterExchange(s, false).client.failure == MaxDecreased
  {
    var x := Exchange(false);
    var s1 := Step(s, x[0]);
    assert s1.toServer == [Request(2 * m)] && s1.toClient == [];
    var s2 := Step(s1, x[1]);
    assert s2.toClient == [MaxRequestID(2 * l)];
  }

  // ---------------------------------------------------------------- nobody is stuck

  /** At quiescence everything issued has been admitted and everything granted has arrived. */
  lemma QuiescentNotBlocked(r: Endpoint, g: Endpoint, initial: nat)
    requires g.ready && r.failure == g.failure == NoFailure
    requires Flow(r, g, [], [], initial) && LimitTracksIds(g, initial)
    requires if g.role == Server then initial <= 197 else initial >= 2
    ensures !Blocked(r)
  {
    assert g.admitted + Requests([]) == g.admitted;
    if g.admitted != [] {
      var last := g.admitted[|g.admitted| - 1];
      assert last == r.nextID - 2;
      assert g.localMax >= 2 * last + 2;
    }
  }

  predicate NobodyBlocked(s: System) {
    !Blocked(s.client) && !Blocked(s.server)
  }

  /**
   Progress: a run of SUBSCRIBE and FETCH without failed writes never comes to rest with a blocked
   generator exactly when the server enforces at most 197, and neither 0 nor 2, and the client
   enforces at least 2. Below 50 a server that doubles its limit makes the client stop instead; with 0
   or 2 no request ever makes it double.
   */
  lemma NeverBlockedAtRest(clientMax: nat, serverMax: nat)
    ensures (forall actions | OnlyTrackRequests(actions) && Quiescent(Run(clientMax, serverMax, actions)) ::
               NobodyBlocked(Run(clientMax, serverMax, actions)))
            <==> serverMax <= 197 && serverMax != 0 && serverMax != 2 && clientMax >= 2
  {
    if serverMax <= 197 && serverMax != 0 && serverMax != 2 && clientMax >= 2 {
      forall actions | OnlyTrackRequests(actions) && Quiescent(Run(clientMax, serverMax, actions))
        ensures NobodyBlocked(Run(clientMax, serverMax, actions))
      {
        RestNotBlocked(clientMax, serverMax, actions);
      }
    } else if clientMax < 2 {
      HandshakeRun(clientMax, serverMax);
      var s := Run(clientMax, serverMax, Handshake());
      assert OnlyTrackRequests(Handshake()) && Quiescent(s) && !NobodyBlocked(s);
    } else {
      ExchangesRun(clientMax, serverMax, 50, false);
      ExchangesOnlyTrackRequests(50);
      var s := Run(clientMax, serverMax, Exchanges(50, false));
      assert Quiescent(s) && !NobodyBlocked(s);
    }
  }

  /** With announcements nothing helps: whatever is enforced, a run can come to rest with a blocked client. */
  lemma AnnouncementsBlock(clientMax: nat, serverMax: nat)
    ensures exists actions ::
              Quiescent(Run(clientMax, serverMax, actions)) && Blocked(Run(clientMax, serverMax, actions).client)
  {
    ExchangesRun(clientMax, serverMax, 50, true);
    var s := Run(clientMax, serverMax, Exchanges(50, true));
    assert Quiescent(s) && Blocked(s.client);
  }

  lemma RestNotBlocked(clientMax: nat, serverMax: nat, actions: seq<Action>)
    requires OnlyTrackRequests(actions) && Quiescent(Run(clientMax, serverMax, actions))
    requires serverMax <= 197 && serverMax != 0 && serverMax != 2 && clientMax >= 2
    ensures NobodyBlocked(Run(clientMax, serverMax, actions))
  {
    var s := Run(clientMax, serverMax, actions);
    RunOrdered(clientMax, serverMax, actions);
    LimitFollowsIds(clientMax, serverMax, actions);
    RunClientFlow(clientMax, serverMax, actions);
    RunServerFlow(clientMax, serverMax, actions);
    hide Run, Flow, LimitTracksIds;
    QuiescentNotBlocked(s.client, s.server, serverMax);
    QuiescentNotBlocked(s.server, s.client, clientMax);
  }

  lemma {:induction false} ExchangesOnlyTrackRequests(m: nat)
    ensures OnlyTrackRequests(Exchanges(m, false))
  {
    if m > 0 {
      ExchangesOnlyTrackRequests(m - 1);
    }
  }
}
