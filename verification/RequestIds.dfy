/** The request ID generator and the session methods that spend and grant credit, as they update their fields. */
module RequestIds {
  import opened Bytes
  import opened RequestCredit

  class RequestIDGenerator {
    var id: nat
    var max: nat
    const interval: nat
    ghost var issued: seq<nat>

    /** Everything issued so far is in increasing order, below the next ID and below the limit. */
    ghost predicate Valid()
      reads this
    {
      && interval > 0
      && (forall k :: 0 <= k < |issued| ==> issued[k] < id && issued[k] < max)
      && (forall j, k :: 0 <= j < k < |issued| ==> issued[j] < issued[k])
    }

    constructor (initialID: nat, maxID: nat, interval: nat)
      requires interval > 0
      ensures Valid() && id == initialID && max == maxID && this.interval == interval && issued == []
    {
      id, max, issued := initialID, maxID, [];
      this.interval := interval;
    }

    method Next() returns (r: Result<nat, nat>)
      requires Valid()
      modifies this
      ensures Valid() && max == old(max)
      ensures r.Ok? <==> old(id) < max
      ensures r.Ok? ==> r.value == old(id) && id == old(id) + interval && issued == old(issued) + [r.value]
      ensures r.Err? ==> r.error == max && id == old(id) && issued == old(issued)
    {
      if id >= max {
        return Err(max);
      }
      var next := id;
      id := id + interval;
      issued := issued + [next];
      return Ok(next);
    }

    method SetMax(v: nat) returns (ok: bool)
      requires Valid()
      modifies this
      ensures Valid() && id == old(id) && issued == old(issued)
      ensures ok <==> v >= old(max)
      ensures max == if ok then v else old(max)
    {
      if v < max {
        return false;
      }
      max := v;
      return true;
    }
  }

  /** A session reduced to its credit: what it has been granted, what it grants, what it writes. */
  class CreditSession {
    const role: Role
    const requestIDs: RequestIDGenerator
    var localMaxRequestID: nat
    var handshakeDone: bool
    var failure: Failure
    var outbox: seq<Msg>
    ghost var admitted: seq<nat>
    ghost var refused: seq<nat>

    ghost predicate Valid()
      reads this, requestIDs
    {
      requestIDs.Valid() && requestIDs.interval == 2
    }

    ghost function View(): Endpoint
      reads this, requestIDs
    {
      Endpoint(role, requestIDs.id, requestIDs.max, localMaxRequestID, handshakeDone, failure, admitted, refused)
    }

    constructor (role: Role, initialMaxRequestID: nat)
      ensures Valid() && fresh(requestIDs)
      ensures View() == NewEndpoint(role, initialMaxRequestID)
      ensures outbox == if role == Client then [ClientSetup(initialMaxRequestID)] else []
    {
      this.role := role;
      requestIDs := new RequestIDGenerator(if role == Client then 0 else 1, 0, 2);
      localMaxRequestID, handshakeDone, failure := initialMaxRequestID, false, NoFailure;
      admitted, refused := [], [];
      outbox := if role == Client then [ClientSetup(initialMaxRequestID)] else [];
    }

    method Write(m: Msg, wrote: bool)
      modifies this`outbox
      ensures outbox == old(outbox) + (if wrote then [m] else [])
    {
      if wrote {
        outbox := outbox + [m];
      }
    }

    /** The part of Subscribe, Fetch and Announce up to the written request. */
    method Request(other: bool, wrote: bool) returns (r: Result<nat, nat>)
      requires Valid()
      modifies this, requestIDs
      ensures Valid()
      ensures View() == Call(old(View()), other, wrote).0 && outbox == old(outbox) + Call(old(View()), other, wrote).1
      ensures r.Ok? <==> old(View()).nextID < old(View()).max
      ensures r.Ok? ==> r.value == old(View()).nextID && View() == old(View()).(nextID := r.value + 2)
      ensures r.Err? ==> r.error == old(View()).max && View() == old(View())
      ensures
        var sent := if r.Err? then RequestsBlocked(r.error)
                    else if other then OtherRequest(r.value) else Msg.Request(r.value);
        outbox == old(outbox) + (if wrote then [sent] else [])
    {
      r := requestIDs.Next();
      if r.Err? {
        Write(RequestsBlocked(r.error), wrote);
        return;
      }
      Write(if other then OtherRequest(r.value) else Msg.Request(r.value), wrote);
    }

    method AddLocalTrack(id: nat, wrote: bool) returns (ok: bool)
      requires Valid()
      modifies this
      ensures Valid() && ok == (id < old(localMaxRequestID))
      ensures View() == Admit(old(View()), id, wrote).0 && outbox == old(outbox) + Admit(old(View()), id, wrote).1
      ensures !ok ==>
                && outbox == old(outbox) + (if wrote then [Other] else [])
                && View() == old(View()).(refused := old(refused) + [id],
                                          failure := if wrote then old(failure) else Aborted)
      ensures ok ==>
                var raised := id >= old(localMaxRequestID) / 2;
                && localMaxRequestID == (if raised then 2 * old(localMaxRequestID) else old(localMaxRequestID))
                && View() == old(View()).(admitted := old(admitted) + [id], localMax := localMaxRequestID)
                && outbox == old(outbox) + (if raised && wrote then [MaxRequestID(localMaxRequestID)] else [])
    {
      assert old(outbox) + [] == old(outbox);
      if id >= localMaxRequestID {
        refused := refused + [id];
        Write(Other, wrote);
        if !wrote {
          failure := Aborted;
        }
        return false;
      }
      var oldMax := localMaxRequestID;
      if id >= oldMax / 2 {
        var newMax := 2 * oldMax;
        localMaxRequestID := newMax;
        Write(MaxRequestID(newMax), wrote);
      }
      admitted := admitted + [id];
      return true;
    }

    method OnClientSetup(max: nat, wrote: bool)
      requires Valid() && !handshakeDone && failure == NoFailure
      modifies this, requestIDs
      ensures Valid()
      ensures View() == ReceiveSetup(old(View()), ClientSetup(max), wrote).0
      ensures outbox == old(outbox) + ReceiveSetup(old(View()), ClientSetup(max), wrote).1
      ensures handshakeDone <==> role == Server && (max == 0 || max >= old(View()).max) && wrote
      ensures handshakeDone ==>
                && outbox == old(outbox) + [ServerSetup(100)]
                && View() == old(View()).(ready := true, max := if max > 0 then max else old(View()).max)
      ensures failure == if role != Server then UnexpectedMessage
                         else if 0 < max < old(View()).max then MaxDecreased
                         else if !wrote then Aborted else NoFailure
    {
      assert old(outbox) + [] == old(outbox);
      if role != Server {
        failure := UnexpectedMessage;
        return;
      }
      if max > 0 {
        var ok := requestIDs.SetMax(max);
        if !ok {
          failure := MaxDecreased;
          return;
        }
      }
      if !wrote {
        failure := Aborted;
        return;
      }
      Write(ServerSetup(ADVERTISED), true);
      handshakeDone := true;
    }

    method OnServerSetup(max: nat)
      requires Valid() && !handshakeDone && failure == NoFailure
      modifies this, requestIDs
      ensures Valid()
      ensures View() == ReceiveSetup(old(View()), ServerSetup(max), true).0
      ensures outbox == old(outbox) + ReceiveSetup(old(View()), ServerSetup(max), true).1
      ensures outbox == old(outbox) && (handshakeDone <==> role == Client && max >= old(View()).max)
      ensures handshakeDone ==> View() == old(View()).(ready := true, max := max)
      ensures failure == if role != Client then UnexpectedMessage
                         else if max < old(View()).max then MaxDecreased else NoFailure
    {
      assert old(outbox) + [] == old(outbox);
      if role != Client {
        failure := UnexpectedMessage;
        return;
      }
      var ok := requestIDs.SetMax(max);
      if !ok {
        failure := MaxDecreased;
        return;
      }
      handshakeDone := true;
    }

    /** receive: setup messages first, then the dispatch on the message type. */
    method Receive(m: Msg, wrote: bool)
      requires Valid() && failure == NoFailure
      modifies this, requestIDs
      ensures Valid()
      ensures View() == RequestCredit.Receive(old(View()), m, wrote).0
      ensures outbox == old(outbox) + RequestCredit.Receive(old(View()), m, wrote).1
      ensures !old(handshakeDone) && !m.ClientSetup? && !m.ServerSetup? ==>
                View() == old(View()).(failure := BeforeSetup) && outbox == old(outbox)
      ensures old(handshakeDone) && (m.ClientSetup? || m.ServerSetup?) ==>
                View() == old(View()).(failure := UnexpectedMessage) && outbox == old(outbox)
      ensures old(handshakeDone) && (m.RequestsBlocked? || m.OtherRequest? || m.Other?) ==>
                View() == old(View()) && outbox == old(outbox)
      ensures old(handshakeDone) && m.MaxRequestID? ==>
                && outbox == old(outbox)
                && View() == if m.max < old(View()).max then old(View()).(failure := MaxDecreased)
                             else old(View()).(max := m.max)
    {
      assert old(outbox) + [] == old(outbox);
      if !handshakeDone {
        match m {
          case ClientSetup(v) => OnClientSetup(v, wrote);
          case ServerSetup(v) => OnServerSetup(v);
          case _ => failure := BeforeSetup;
        }
        return;
      }
      match m {
        case MaxRequestID(v) =>
          var ok := requestIDs.SetMax(v);
          if !ok {
            failure := MaxDecreased;
          }
        case Request(id) =>
          var ok := AddLocalTrack(id, wrote);
        case ClientSetup(_) => failure := UnexpectedMessage;
        case ServerSetup(_) => failure := UnexpectedMessage;
        case _ =>
      }
    }
  }
}
