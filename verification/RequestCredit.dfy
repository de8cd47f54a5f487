/**
 The request ID credit scheme: each endpoint numbers its requests below a limit granted by its
 peer, and each endpoint doubles the limit it grants when a request passes the middle of it.
 Two endpoints are composed over FIFO control streams, each source method being one atomic step.
 */
module RequestCredit {
  import opened Bytes

  datatype Role = Client | Server

  /** Control messages, as far as credit is concerned. Request is SUBSCRIBE or FETCH; OtherRequest is
      any other message that consumes a request ID (ANNOUNCE, SUBSCRIBE_ANNOUNCES). */
  datatype Msg =
    | ClientSetup(max: nat)
    | ServerSetup(max: nat)
    | MaxRequestID(max: nat)
    | RequestsBlocked(max: nat)
    | Request(id: nat)
    | OtherRequest(id: nat)
    | Other

  datatype Failure = NoFailure | BeforeSetup | UnexpectedMessage | MaxDecreased | Aborted

  datatype Endpoint = Endpoint(
    role: Role, nextID: nat, max: nat, localMax: nat, ready: bool, failure: Failure,
    admitted: seq<nat>, refused: seq<nat>)

  const ADVERTISED: nat := 100

  // ---------------------------------------------------------------- one endpoint

  function SetMax(e: Endpoint, v: nat): Endpoint {
    if v < e.max then e.(failure := MaxDecreased) else e.(max := v)
  }

  /** Subscribe, Fetch, Announce: take the next ID and write the request, or report being blocked. */
  function Call(e: Endpoint, other: bool, wrote: bool): (Endpoint, seq<Msg>) {
    if e.nextID >= e.max then (e, if wrote then [RequestsBlocked(e.max)] else [])
    else
      (e.(nextID := e.nextID + 2),
       if !wrote then [] else if other then [OtherRequest(e.nextID)] else [Request(e.nextID)])
  }

  /** addLocalTrack: refuse beyond the limit, double the limit from its middle on. An error that cannot
      be written ends the reading loop, a limit that cannot be written does not. */
  function Admit(e: Endpoint, id: nat, wrote: bool): (Endpoint, seq<Msg>) {
    if id >= e.localMax then
      var r := e.(refused := e.refused + [id]);
      if wrote then (r, [Other]) else (r.(failure := Aborted), [])
    else
      var raised := Raised(e.localMax, id);
      (e.(localMax := raised, admitted := e.admitted + [id]),
       if id >= e.localMax / 2 && wrote then [MaxRequestID(raised)] else [])
  }

  /** The limit after request `id` below it has been admitted. */
  function Raised(limit: nat, id: nat): nat {
    if id >= limit / 2 then 2 * limit else limit
  }

  function ReceiveSetup(e: Endpoint, m: Msg, wrote: bool): (Endpoint, seq<Msg>) {
    match m
    case ClientSetup(v) =>
      if e.role != Server then (e.(failure := UnexpectedMessage), [])
      else
        var s := if v > 0 then SetMax(e, v) else e;
        if s.failure != e.failure then (s, [])
        else if !wrote then (s.(failure := Aborted), [])
        else (s.(ready := true), [ServerSetup(ADVERTISED)])
    case ServerSetup(v) =>
      if e.role != Client then (e.(failure := UnexpectedMessage), [])
      else
        var s := SetMax(e, v);
        if s.failure != e.failure then (s, []) else (s.(ready := true), [])
    case _ => (e.(failure := BeforeSetup), [])
  }

  function Receive(e: Endpoint, m: Msg, wrote: bool): (Endpoint, seq<Msg>) {
    if !e.ready then ReceiveSetup(e, m, wrote)
    else
      match m
      case MaxRequestID(v) => (SetMax(e, v), [])
      case Request(id) => Admit(e, id, wrote)
      case ClientSetup(_) => (e.(failure := UnexpectedMessage), [])
      case ServerSetup(_) => (e.(failure := UnexpectedMessage), [])
      case _ => (e, [])
  }

  // ---------------------------------------------------------------- two endpoints

  datatype System = System(client: Endpoint, server: Endpoint, toServer: seq<Msg>, toClient: seq<Msg>)

  datatype Act =
    | DoCall(other: bool)   // an API call that needs a request ID
    | DoReceive             // the reading loop handles the next control message
    | DoSend                // any message without credit, such as a response
    | DoAbort               // the reading loop stops for a reason outside this model

  datatype Action = Action(role: Role, act: Act, wrote: bool)

  function Local(e: Endpoint, inbox: seq<Msg>, act: Act, wrote: bool): (Endpoint, seq<Msg>, seq<Msg>) {
    match act
    case DoCall(other) => var r := Call(e, other, wrote); (r.0, inbox, r.1)
    case DoReceive =>
      if inbox == [] || e.failure != NoFailure then (e, inbox, [])
      else var r := Receive(e, inbox[0], wrote); (r.0, inbox[1..], r.1)
    case DoSend => (e, inbox, if wrote then [Other] else [])
    case DoAbort => (if e.failure == NoFailure then e.(failure := Aborted) else e, inbox, [])
  }

  function Step(s: System, a: Action): System {
    if a.role == Client then
      var r := Local(s.client, s.toClient, a.act, a.wrote);
      System(r.0, s.server, s.toServer + r.2, r.1)
    else
      var r := Local(s.server, s.toServer, a.act, a.wrote);
      System(s.client, r.0, r.1, s.toClient + r.2)
  }

  function NewEndpoint(role: Role, initialMax: nat): Endpoint {
    Endpoint(role, if role == Client then 0 else 1, 0, initialMax, false, NoFailure, [], [])
  }

  /** The client has written CLIENT_SETUP with its own limit. */
  function Init(clientMax: nat, serverMax: nat): System {
    System(NewEndpoint(Client, clientMax), NewEndpoint(Server, serverMax), [ClientSetup(clientMax)], [])
  }

  function Run(clientMax: nat, serverMax: nat, actions: seq<Action>): System {
    if actions == [] then Init(clientMax, serverMax)
    else Step(Run(clientMax, serverMax, actions[..|actions| - 1]), actions[|actions| - 1])
  }

  // ---------------------------------------------------------------- safety

  function LimitOf(m: Msg): Option<nat> {
    if m.ClientSetup? || m.ServerSetup? || m.MaxRequestID? then Some(m.max) else None
  }

  function IdOf(m: Msg): Option<nat> {
    if m.Request? || m.OtherRequest? then Some(m.id) else None
  }

  /** Every limit in flight lies between the requester's and the grantor's, and limits never shrink. */
  predicate LimitsOrdered(low: nat, msgs: seq<Msg>, high: nat) {
    && (forall i :: 0 <= i < |msgs| && LimitOf(msgs[i]).Some? ==> low <= LimitOf(msgs[i]).value <= high)
    && (forall i, j :: 0 <= i < j < |msgs| && LimitOf(msgs[i]).Some? && LimitOf(msgs[j]).Some? ==>
          LimitOf(msgs[i]).value <= LimitOf(msgs[j]).value)
  }

  /** The IDs in flight are increasing, newer than everything admitted, and of the requester's parity. */
  predicate IdsOrdered(r: Endpoint, msgs: seq<Msg>, admitted: seq<nat>) {
    && (forall i :: 0 <= i < |msgs| && IdOf(msgs[i]).Some? ==>
          && IdOf(msgs[i]).value < r.max && IdOf(msgs[i]).value < r.nextID
          && IdOf(msgs[i]).value % 2 == r.nextID % 2
          && (forall k :: 0 <= k < |admitted| ==> admitted[k] < IdOf(msgs[i]).value))
    && (forall i, j :: 0 <= i < j < |msgs| && IdOf(msgs[i]).Some? && IdOf(msgs[j]).Some? ==>
          IdOf(msgs[i]).value < IdOf(msgs[j]).value)
    && (forall k :: 0 <= k < |admitted| ==> admitted[k] < r.nextID)
    && (forall j, k :: 0 <= j < k < |admitted| ==> admitted[j] < admitted[k])
  }

  /** The limit that the grantor is good for. Client IDs are even, so a server that enforces 99 admits
      everything below the 100 it advertises. */
  function Reach(g: Endpoint): nat {
    if g.role == Server && g.localMax == ADVERTISED - 1 then ADVERTISED else g.localMax
  }

  /** One direction of the system: requester `r`, grantor `g`, and the messages between them. */
  predicate Link(r: Endpoint, g: Endpoint, down: seq<Msg>, up: seq<Msg>) {
    && r.role != g.role
    && r.nextID % 2 == (if r.role == Client then 0 else 1)
    && r.max <= Reach(g)
    && LimitsOrdered(r.max, down, Reach(g))
    && IdsOrdered(r, up, g.admitted)
    && r.failure != MaxDecreased
    && g.refused == []
  }

  predicate Safe(s: System) {
    && s.client.role == Client && s.server.role == Server
    && Link(s.client, s.server, s.toClient, s.toServer)
    && Link(s.server, s.client, s.toServer, s.toClient)
    && Reach(s.server) >= ADVERTISED
    && (!s.server.ready ==>
          s.client.max == 0 && forall i :: 0 <= i < |s.toClient| ==> LimitOf(s.toClient[i]).None?)
  }

  /** The requester takes the next limit in flight, which is not below its own. */
  lemma RequesterLimits(r: Endpoint, down: seq<Msg>, high: nat, act: Act, wrote: bool)
    requires r.max <= high && LimitsOrdered(r.max, down, high) && r.failure != MaxDecreased
    ensures
      var (r', down', sent) := Local(r, down, act, wrote);
      r'.max <= high && LimitsOrdered(r'.max, down', high) && r'.failure != MaxDecreased && r'.max >= r.max
  {
    var (r', down', sent) := Local(r, down, act, wrote);
    if act.DoReceive? && down != [] && r.failure == NoFailure {
      TakesLimit(r, down[0], wrote);
      LimitsPop(r.max, down, high);
    }
  }

  /** Handling a message leaves the limit, or takes the one in the message when it is not below. */
  lemma TakesLimit(r: Endpoint, m: Msg, wrote: bool)
    ensures
      var r' := Receive(r, m, wrote).0;
      && (r'.max == r.max || (LimitOf(m) == Some(r'.max) && r.max <= r'.max))
      && (r'.failure == MaxDecreased ==>
            r.failure == MaxDecreased || (LimitOf(m).Some? && LimitOf(m).value < r.max))
  {
  }

  lemma LimitsPop(low: nat, msgs: seq<Msg>, high: nat)
    requires msgs != [] && LimitsOrdered(low, msgs, high)
    ensures LimitsOrdered(low, msgs[1..], high)
    ensures LimitOf(msgs[0]).Some? ==> low <= LimitOf(msgs[0]).value <= high
    ensures LimitOf(msgs[0]).Some? ==> LimitsOrdered(LimitOf(msgs[0]).value, msgs[1..], high)
  {
    assert forall i :: 0 <= i < |msgs| - 1 ==> msgs[1..][i] == msgs[i + 1];
  }

  /** At most one message leaves per step; it carries an ID only when one was taken for it. */
  lemma SentIds(r: Endpoint, down: seq<Msg>, act: Act, wrote: bool)
    ensures
      var (r', down', sent) := Local(r, down, act, wrote);
      && r'.role == r.role && |sent| <= 1
      && (r'.nextID == r.nextID || (r'.nextID == r.nextID + 2 && r.nextID < r.max))
      && (|sent| == 1 && IdOf(sent[0]).Some? ==> IdOf(sent[0]).value == r.nextID && r'.nextID == r.nextID + 2)
  {
  }

  lemma IdsAppend(r: Endpoint, r': Endpoint, up: seq<Msg>, sent: seq<Msg>, admitted: seq<nat>)
    requires IdsOrdered(r, up, admitted) && r'.max >= r.max && |sent| <= 1
    requires r'.nextID == r.nextID || (r'.nextID == r.nextID + 2 && r.nextID < r.max)
    requires |sent| == 1 && IdOf(sent[0]).Some? ==> IdOf(sent[0]).value == r.nextID && r'.nextID == r.nextID + 2
    ensures IdsOrdered(r', up + sent, admitted)
  {
  }

  /** What a local step of the requester does to its own direction. */
  lemma RequesterStep(r: Endpoint, g: Endpoint, down: seq<Msg>, up: seq<Msg>, act: Act, wrote: bool)
    requires Link(r, g, down, up)
    ensures
      var (r', down', sent) := Local(r, down, act, wrote);
      Link(r', g, down', up + sent)
  {
    hide Local, LimitsOrdered, IdsOrdered;
    var (r', down', sent) := Local(r, down, act, wrote);
    RequesterLimits(r, down, Reach(g), act, wrote);
    SentIds(r, down, act, wrote);
    IdsAppend(r, r', up, sent, g.admitted);
  }

  /** The limits a grantor sends only ever go up to what it then enforces. */
  lemma GrantorLimits(g: Endpoint, up: seq<Msg>, act: Act, wrote: bool)
    requires g.role == Server ==> Reach(g) >= ADVERTISED
    ensures
      var (g', up', sent) := Local(g, up, act, wrote);
      && g'.role == g.role && Reach(g') >= Reach(g) && |sent| <= 1
      && (forall i :: 0 <= i < |sent| && LimitOf(sent[i]).Some? ==>
            && LimitOf(sent[i]).value <= Reach(g')
            && (LimitOf(sent[i]).value >= Reach(g) || (g.role == Server && !g.ready && g'.ready)))
  {
  }

  /** Admitting at most the head of the stream keeps the IDs in order. */
  lemma GrantorOrder(r: Endpoint, g: Endpoint, up: seq<Msg>, act: Act, wrote: bool)
    requires IdsOrdered(r, up, g.admitted)
    ensures
      var (g', up', sent) := Local(g, up, act, wrote);
      IdsOrdered(r, up', g'.admitted)
  {
    hide Local, IdsOrdered;
    AdmitsAtMostHead(g, up, act, wrote);
    if up != [] {
      IdsPop(r, up, g.admitted);
    }
  }

  lemma IdsPop(r: Endpoint, up: seq<Msg>, admitted: seq<nat>)
    requires up != [] && IdsOrdered(r, up, admitted)
    ensures IdsOrdered(r, up[1..], admitted)
    ensures up[0].Request? ==> IdsOrdered(r, up[1..], admitted + [up[0].id])
  {
    assert forall i :: 0 <= i < |up| - 1 ==> up[1..][i] == up[i + 1];
    if up[0].Request? {
      assert IdOf(up[0]) == Some(up[0].id);
    }
  }

  /** From one state to the next: at most the request at the head of the stream is admitted. */
  predicate AdmitsHead(g: Endpoint, up: seq<Msg>, g': Endpoint) {
    && up != [] && up[0].Request? && up[0].id < g.localMax
    && g'.admitted == g.admitted + [up[0].id] && g'.localMax == Raised(g.localMax, up[0].id)
  }

  lemma AdmitsAtMostHead(g: Endpoint, up: seq<Msg>, act: Act, wrote: bool)
    ensures
      var (g', up', sent) := Local(g, up, act, wrote);
      && (up' == up || (up != [] && up' == up[1..]))
      && ((g'.admitted == g.admitted && g'.localMax == g.localMax) || (up' != up && AdmitsHead(g, up, g')))
  {
  }

  /** A request with an ID below the limit that its sender holds is not refused. */
  lemma GrantorAdmits(r: Endpoint, g: Endpoint, down: seq<Msg>, up: seq<Msg>, act: Act, wrote: bool)
    requires Link(r, g, down, up)
    ensures Local(g, up, act, wrote).0.refused == []
  {
    if up != [] && up[0].Request? {
      assert IdOf(up[0]) == Some(up[0].id);
      assert up[0].id < g.localMax;
    }
  }

  /** What a local step of the grantor does to the other direction. */
  lemma GrantorStep(r: Endpoint, g: Endpoint, down: seq<Msg>, up: seq<Msg>, act: Act, wrote: bool)
    requires Link(r, g, down, up)
    requires g.role == Server ==> Reach(g) >= ADVERTISED
    requires g.role == Server && !g.ready ==> r.max == 0 && forall i :: 0 <= i < |down| ==> LimitOf(down[i]).None?
    ensures
      var (g', up', sent) := Local(g, up, act, wrote);
      && Link(r, g', down + sent, up')
      && Reach(g') >= Reach(g)
      && (g.role == Server && !g'.ready ==> !g.ready && forall i :: 0 <= i < |sent| ==> LimitOf(sent[i]).None?)
  {
    var (g', up', sent) := Local(g, up, act, wrote);
    GrantorLimits(g, up, act, wrote);
    GrantorOrder(r, g, up, act, wrote);
    GrantorAdmits(r, g, down, up, act, wrote);
    LimitsAppend(r.max, down, Reach(g), sent, Reach(g'));
    QuietUntilReady(g, up, act, wrote);
  }

  lemma QuietUntilReady(g: Endpoint, up: seq<Msg>, act: Act, wrote: bool)
    ensures
      var (g', up', sent) := Local(g, up, act, wrote);
      !g'.ready ==> !g.ready && forall i :: 0 <= i < |sent| ==> LimitOf(sent[i]).None?
  {
  }

  lemma LimitsAppend(low: nat, msgs: seq<Msg>, high: nat, sent: seq<Msg>, high': nat)
    requires LimitsOrdered(low, msgs, high) && high <= high' && |sent| <= 1 && low <= high
    requires forall i, j :: 0 <= i < |sent| && 0 <= j < |msgs| && LimitOf(sent[i]).Some? && LimitOf(msgs[j]).Some? ==>
               LimitOf(msgs[j]).value <= LimitOf(sent[i]).value
    requires forall i :: 0 <= i < |sent| && LimitOf(sent[i]).Some? ==> low <= LimitOf(sent[i]).value <= high'
    ensures LimitsOrdered(low, msgs + sent, high')
  {
  }

  /** Without limits on their way, a requester's limit does not move. */
  lemma NoLimitNoMove(r: Endpoint, down: seq<Msg>, act: Act, wrote: bool)
    requires forall i :: 0 <= i < |down| ==> LimitOf(down[i]).None?
    ensures
      var (r', down', sent) := Local(r, down, act, wrote);
      r'.max == r.max && forall i :: 0 <= i < |down'| ==> LimitOf(down'[i]).None?
  {
  }

  lemma ClientStep(s: System, act: Act, wrote: bool)
    requires Safe(s)
    ensures Safe(Step(s, Action(Client, act, wrote)))
  {
    RequesterStep(s.client, s.server, s.toClient, s.toServer, act, wrote);
    GrantorStep(s.server, s.client, s.toServer, s.toClient, act, wrote);
    if !s.server.ready {
      NoLimitNoMove(s.client, s.toClient, act, wrote);
    }
  }

  lemma ServerStep(s: System, act: Act, wrote: bool)
    requires Safe(s)
    ensures Safe(Step(s, Action(Server, act, wrote)))
  {
    RequesterStep(s.server, s.client, s.toServer, s.toClient, act, wrote);
    GrantorStep(s.client, s.server, s.toClient, s.toServer, act, wrote);
  }

  /** Every action preserves the invariant. */
  lemma SafeStep(s: System, a: Action)
    requires Safe(s)
    ensures Safe(Step(s, a))
  {
    if a.role == Client {
      ClientStep(s, a.act, a.wrote);
    } else {
      ServerStep(s, a.act, a.wrote);
    }
  }

  lemma {:induction false} RunSafe(clientMax: nat, serverMax: nat, actions: seq<Action>)
    requires serverMax >= ADVERTISED - 1
    ensures Safe(Run(clientMax, serverMax, actions))
  {
    if actions != [] {
      RunSafe(clientMax, serverMax, actions[..|actions| - 1]);
      SafeStep(Run(clientMax, serverMax, actions[..|actions| - 1]), actions[|actions| - 1]);
    }
  }

  /** No reader ever sees a limit shrink, and no request that carries a generated ID is refused. */
  predicate NoCreditFailure(s: System) {
    && s.client.failure != MaxDecreased && s.server.failure != MaxDecreased
    && s.client.refused == [] && s.server.refused == []
  }

  predicate Increasing(ids: seq<nat>) {
    forall j, k :: 0 <= j < k < |ids| ==> ids[j] < ids[k]
  }

  // ---------------------------------------------------------------- what is enforced

  /** The limit after the requests `ids` have been admitted in this order. */
  function FoldLimit(limit: nat, ids: seq<nat>): nat {
    if ids == [] then limit else Raised(FoldLimit(limit, ids[..|ids| - 1]), ids[|ids| - 1])
  }

  /** Each of the IDs is below the limit enforced when it arrives. */
  predicate Admissible(limit: nat, ids: seq<nat>) {
    forall k :: 0 <= k < |ids| ==> ids[k] < FoldLimit(limit, ids[..k])
  }

  lemma AdmitAnother(limit: nat, ids: seq<nat>, id: nat)
    requires Admissible(limit, ids) && id < FoldLimit(limit, ids)
    ensures Admissible(limit, ids + [id]) && FoldLimit(limit, ids + [id]) == Raised(FoldLimit(limit, ids), id)
  {
    var all := ids + [id];
    assert all[..|ids|] == ids;
    assert forall k :: 0 <= k < |ids| ==> all[..k] == ids[..k];
  }

  /** An endpoint enforces what its own limit becomes by the requests it has admitted. */
  predicate Enforces(g: Endpoint, initial: nat) {
    g.localMax == FoldLimit(initial, g.admitted) && Admissible(initial, g.admitted)
  }

  lemma EnforcesStep(g: Endpoint, up: seq<Msg>, act: Act, wrote: bool, initial: nat)
    requires Enforces(g, initial)
    ensures Enforces(Local(g, up, act, wrote).0, initial)
  {
    hide Local;
    AdmitsAtMostHead(g, up, act, wrote);
    var g' := Local(g, up, act, wrote).0;
    if g'.admitted != g.admitted {
      AdmitAnother(initial, g.admitted, up[0].id);
    }
  }

  /** What holds in every run, whatever the server enforces. */
  predicate Ordered(s: System, clientMax: nat, serverMax: nat) {
    && s.client.role == Client && s.server.role == Server
    && IdsOrdered(s.client, s.toServer, s.server.admitted)
    && IdsOrdered(s.server, s.toClient, s.client.admitted)
    && Enforces(s.client, clientMax) && Enforces(s.server, serverMax)
  }

  lemma LocalGrows(e: Endpoint, inbox: seq<Msg>, act: Act, wrote: bool)
    ensures
      var e' := Local(e, inbox, act, wrote).0;
      e'.role == e.role && e'.localMax >= e.localMax && e'.max >= e.max
  {
  }

  lemma OrderedStep(s: System, a: Action, clientMax: nat, serverMax: nat)
    requires Ordered(s, clientMax, serverMax)
    ensures Ordered(Step(s, a), clientMax, serverMax)
  {
    hide Local, IdsOrdered, Enforces;
    var e := if a.role == Client then s.client else s.server;
    var inbox := if a.role == Client then s.toClient else s.toServer;
    var (e', inbox', sent) := Local(e, inbox, a.act, a.wrote);
    LocalGrows(e, inbox, a.act, a.wrote);
    SentIds(e, inbox, a.act, a.wrote);
    if a.role == Client {
      IdsAppend(e, e', s.toServer, sent, s.server.admitted);
      GrantorOrder(s.server, e, inbox, a.act, a.wrote);
      EnforcesStep(e, inbox, a.act, a.wrote, clientMax);
    } else {
      IdsAppend(e, e', s.toClient, sent, s.client.admitted);
      GrantorOrder(s.client, e, inbox, a.act, a.wrote);
      EnforcesStep(e, inbox, a.act, a.wrote, serverMax);
    }
  }

  lemma {:induction false} RunOrdered(clientMax: nat, serverMax: nat, actions: seq<Action>)
    ensures Ordered(Run(clientMax, serverMax, actions), clientMax, serverMax)
  {
    if actions != [] {
      var k := |actions| - 1;
      RunOrdered(clientMax, serverMax, actions[..k]);
      OrderedStep(Run(clientMax, serverMax, actions[..k]), actions[k], clientMax, serverMax);
    }
  }

  /** The grantor's limit stays between twice and four times the largest ID admitted. */
  predicate LimitTracksIds(g: Endpoint, initial: nat) {
    && g.localMax >= initial
    && (forall k :: 0 <= k < |g.admitted| ==> g.localMax >= 2 * g.admitted[k] + 2)
    && (g.localMax == initial || (g.admitted != [] && g.localMax <= 4 * g.admitted[|g.admitted| - 1] + 2))
  }

  lemma {:induction false} FoldTracksIds(limit: nat, ids: seq<nat>)
    requires Admissible(limit, ids) && Increasing(ids)
    ensures FoldLimit(limit, ids) >= limit
    ensures forall k :: 0 <= k < |ids| ==> FoldLimit(limit, ids) >= 2 * ids[k] + 2
    ensures FoldLimit(limit, ids) == limit || (ids != [] && FoldLimit(limit, ids) <= 4 * ids[|ids| - 1] + 2)
  {
    if ids != [] {
      var before, last := ids[..|ids| - 1], ids[|ids| - 1];
      assert forall k :: 0 <= k < |before| ==> before[..k] == ids[..k];
      FoldTracksIds(limit, before);
      forall k | 0 <= k < |ids|
        ensures FoldLimit(limit, ids) >= 2 * ids[k] + 2
      {
        assert k < |before| ==> before[k] == ids[k];
      }
    }
  }

  /**
   In every run, whatever the server enforces, with other requests, failed writes and failed readers:
   the limit an endpoint enforces is at least twice any admitted ID plus two, and unless it is still
   the initial one at most four times the largest admitted ID plus two, so doubling cannot outrun
   the IDs.
   */
  lemma LimitFollowsIds(clientMax: nat, serverMax: nat, actions: seq<Action>)
    ensures
      var s := Run(clientMax, serverMax, actions);
      LimitTracksIds(s.client, clientMax) && LimitTracksIds(s.server, serverMax)
  {
    var s := Run(clientMax, serverMax, actions);
    RunOrdered(clientMax, serverMax, actions);
    FoldTracksIds(clientMax, s.client.admitted);
    FoldTracksIds(serverMax, s.server.admitted);
  }

  // ---------------------------------------------------------------- exact safety

  /**
   Credit safety over all runs, with API calls, deliveries, failed writes and aborts in any order:
   it holds exactly when the server enforces at least 99, one less than the 100 it advertises
   (client IDs are even). Whatever is enforced, requests are admitted once and in increasing order.
   */
  lemma CreditSafety(clientMax: nat, serverMax: nat)
    ensures (forall actions :: NoCreditFailure(Run(clientMax, serverMax, actions))) <==> serverMax >= 99
    ensures forall actions ::
              && Increasing(Run(clientMax, serverMax, actions).client.admitted)
              && Increasing(Run(clientMax, serverMax, actions).server.admitted)
  {
    forall actions
      ensures Increasing(Run(clientMax, serverMax, actions).client.admitted)
      ensures Increasing(Run(clientMax, serverMax, actions).server.admitted)
    {
      RunOrdered(clientMax, serverMax, actions);
    }
    if serverMax >= ADVERTISED - 1 {
      forall actions
        ensures NoCreditFailure(Run(clientMax, serverMax, actions))
      {
        RunSafe(clientMax, serverMax, actions);
      }
    } else {
      RefusedBelow99(clientMax, serverMax);
    }
  }

  /**
   With a server that enforces what it advertises, in every reachable state and in both directions:
   limits in flight never shrink and lie between what the requester knows and what the grantor enforces.
   */
  lemma LimitsInFlight(clientMax: nat, serverMax: nat, actions: seq<Action>)
    requires serverMax >= ADVERTISED
    ensures
      var s := Run(clientMax, serverMax, actions);
      && s.client.max <= s.server.localMax && LimitsOrdered(s.client.max, s.toClient, s.server.localMax)
      && s.server.max <= s.client.localMax && LimitsOrdered(s.server.max, s.toServer, s.client.localMax)
  {
    RunSafe(clientMax, serverMax, actions);
    RunOrdered(clientMax, serverMax, actions);
    LimitFollowsIds(clientMax, serverMax, actions);
  }

  // ---------------------------------------------------------------- runs that fail

  function Handshake(): seq<Action> {
    [Action(Server, DoReceive, true), Action(Client, DoReceive, true)]
  }

  /** The client makes a request, the server handles it, and the client reads what comes back. */
  function Exchange(other: bool): seq<Action> {
    [Action(Client, DoCall(other), true), Action(Server, DoReceive, true), Action(Client, DoReceive, true)]
  }

  function Exchanges(m: nat, other: bool): seq<Action> {
    if m == 0 then Handshake() else Exchanges(m - 1, other) + Exchange(other)
  }

  lemma RunTwo(c: nat, l: nat, actions: seq<Action>, a: Action, b: Action)
    ensures Run(c, l, actions + [a, b]) == Step(Step(Run(c, l, actions), a), b)
  {
    var all := actions + [a, b];
    assert all[..|all| - 1] == actions + [a];
    assert (actions + [a])[..|actions|] == actions;
  }

  lemma RunExchange(c: nat, l: nat, actions: seq<Action>, other: bool)
    ensures Run(c, l, actions + Exchange(other)) == AfterExchange(Run(c, l, actions), other)
  {
    var x := Exchange(other);
    RunTwo(c, l, actions + [x[0]], x[1], x[2]);
    assert actions + [x[0]] + [x[1], x[2]] == actions + x;
    assert (actions + [x[0]])[..|actions|] == actions;
  }

  function AfterExchange(s: System, other: bool): System {
    var x := Exchange(other);
    Step(Step(Step(s, x[0]), x[1]), x[2])
  }

  /** Nothing in flight, and the client has issued `m` requests below the advertised limit. */
  predicate Idle(s: System, c: nat, l: nat, m: nat) {
    && s.toClient == [] && s.toServer == []
    && s.client.role == Client && s.server.role == Server
    && s.client.ready && s.server.ready && s.client.failure == NoFailure && s.server.failure == NoFailure
    && s.client.nextID == 2 * m && s.client.max == ADVERTISED && s.server.localMax == l
    && s.server.nextID == 1 && s.server.max == c
  }

  lemma HandshakeRun(c: nat, l: nat)
    ensures Idle(Run(c, l, Handshake()), c, l, 0)
  {
    var h := Handshake();
    RunTwo(c, l, [], h[0], h[1]);
    assert [] + [h[0], h[1]] == h;
    var s := Step(Init(c, l), h[0]);
    assert s.toServer == [] && s.toClient == [ServerSetup(ADVERTISED)];
  }

  /** A request that leaves the enforced limit `l` as it is: not counted, refused, or below its middle. */
  predicate LeavesLimit(l: nat, id: nat, other: bool) {
    other || id >= l || id < l / 2
  }

  lemma ExchangeStep(s: System, c: nat, l: nat, m: nat, other: bool)
    requires Idle(s, c, l, m) && 2 * m < ADVERTISED && LeavesLimit(l, 2 * m, other)
    ensures Idle(AfterExchange(s, other), c, l, m + 1)
  {
    var x := Exchange(other);
    var s1 := Step(s, x[0]);
    assert s1.toServer == [if other then OtherRequest(2 * m) else Request(2 * m)] && s1.toClient == [];
    var s2 := Step(s1, x[1]);
    assert s2.toServer == [] && (s2.toClient == [] || s2.toClient == [Other]);
  }

  lemma {:induction false} ExchangesRun(c: nat, l: nat, m: nat, other: bool)
    requires 2 * m <= ADVERTISED && forall i :: 0 <= i < m ==> LeavesLimit(l, 2 * i, other)
    ensures Idle(Run(c, l, Exchanges(m, other)), c, l, m)
  {
    hide Idle, AfterExchange, Run;
    if m == 0 {
      HandshakeRun(c, l);
    } else {
      ExchangesRun(c, l, m - 1, other);
      RunExchange(c, l, Exchanges(m - 1, other), other);
      ExchangeStep(Run(c, l, Exchanges(m - 1, other)), c, l, m - 1, other);
    }
  }

  /** A server that enforces less than 99 refuses a request made after enough announcements. */
  lemma RefusedBelow99(c: nat, l: nat)
    requires l < ADVERTISED - 1
    ensures exists actions :: !NoCreditFailure(Run(c, l, actions))
  {
    var m := (l + 1) / 2;
    ExchangesRun(c, l, m, true);
    var actions := Exchanges(m, true) + Exchange(false);
    RunExchange(c, l, Exchanges(m, true), false);
    RefusedRequest(Run(c, l, Exchanges(m, true)), c, l, m);
    assert !NoCreditFailure(Run(c, l, actions));
  }

  lemma RefusedRequest(s: System, c: nat, l: nat, m: nat)
    requires Idle(s, c, l, m) && l <= 2 * m < ADVERTISED
    ensures AfterExchange(s, false).server.refused != []
  {
    var s1 := Step(s, Exchange(false)[0]);
    assert s1.toServer == [Request(2 * m)];
  }
}
