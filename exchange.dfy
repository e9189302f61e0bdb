/**
 * One request/response exchange (sendRequest): a fresh socket, one request
 * written on connect, and a Promise settled by the first reply or socket
 * error. Later events cannot change a settled Promise.
 */
module Exchange {
  import opened Wrappers
  import opened Hap
  import opened Protocol
  import opened Net

  /** The settled state of the Promise: `resolve(response.status)` or `reject(HapStatusError)`. */
  datatype Outcome = Resolved(status: Option<DeviceStatus>) | Rejected(error: HapStatus)

  /** The socket events sendRequest reacts to. */
  datatype ExchangeEvent = Connected | Data(payload: Parse) | SocketError

  /** The data handler's decision on one reply to a request of type `requestType`. */
  function Classify(requestType: string, payload: Parse): (o: Outcome)
    ensures o.Resolved? <==> payload.Decoded? && payload.message.messageType == Some(requestType)
    ensures o.Resolved? ==> o.status == payload.message.status
    ensures o.Rejected? ==> o.error == InvalidValueInRequest
    ensures payload.Malformed? ==> o == Rejected(InvalidValueInRequest)
  {
    match payload
    case Malformed => Rejected(InvalidValueInRequest)
    case Decoded(m) =>
      if m.messageType == Some(requestType) then Resolved(m.status) else Rejected(InvalidValueInRequest)
  }

  /** The outcome one event would settle the Promise with, if any. */
  function Settlement(requestType: string, e: ExchangeEvent): (o: Option<Outcome>)
    ensures o.None? <==> e.Connected?
    ensures e.Data? ==> o == Some(Classify(requestType, e.payload))
    ensures e.SocketError? ==> o == Some(Rejected(ServiceCommunicationFailure))
  {
    match e
    case Connected => None
    case Data(p) => Some(Classify(requestType, p))
    case SocketError => Some(Rejected(ServiceCommunicationFailure))
  }

  /** The outcome a Promise has after `events`: that of the first event that settles it. */
  function FirstSettlement(requestType: string, events: seq<ExchangeEvent>): Option<Outcome>
  {
    if events == [] then None
    else if Settlement(requestType, events[0]).Some? then Settlement(requestType, events[0])
    else FirstSettlement(requestType, events[1..])
  }

  /** The number of connect callbacks among `events`. */
  function ConnectCount(events: seq<ExchangeEvent>): nat
  {
    if events == [] then 0
    else ConnectCount(events[..|events| - 1]) + (if events[|events| - 1].Connected? then 1 else 0)
  }

  /** Once settled, the outcome is fixed whatever events follow; before that, the later events decide. */
  lemma {:induction false} FirstSettlementAppend(requestType: string, events: seq<ExchangeEvent>, more: seq<ExchangeEvent>)
    ensures FirstSettlement(requestType, events + more) ==
      if FirstSettlement(requestType, events).Some? then FirstSettlement(requestType, events)
      else FirstSettlement(requestType, more)
  {
    if events != [] {
      assert (events + more)[0] == events[0];
      assert (events + more)[1..] == events[1..] + more;
      FirstSettlementAppend(requestType, events[1..], more);
    } else {
      assert events + more == more;
    }
  }

  /** The outcome is the settlement of the first event that is not a connect callback. */
  lemma {:induction false} FirstSettlementIsFirst(requestType: string, events: seq<ExchangeEvent>, i: nat)
    requires i < |events| && !events[i].Connected?
    requires forall j :: 0 <= j < i ==> events[j].Connected?
    ensures FirstSettlement(requestType, events) == Settlement(requestType, events[i])
  {
    if i > 0 {
      FirstSettlementIsFirst(requestType, events[1..], i - 1);
    }
  }

  /** The Promise settles exactly when some event other than a connect callback has arrived. */
  lemma {:induction false} SettledIffNonConnectEvent(requestType: string, events: seq<ExchangeEvent>)
    ensures FirstSettlement(requestType, events).Some? <==> exists i :: 0 <= i < |events| && !events[i].Connected?
  {
    if events != [] {
      SettledIffNonConnectEvent(requestType, events[1..]);
      if events[0].Connected? {
        assert forall i :: 1 <= i < |events| ==> events[i] == events[1..][i - 1];
        assert forall i :: 0 <= i < |events| - 1 ==> events[1..][i] == events[i + 1];
      }
    }
  }

  /** What one more event does to the outcome and to the number of requests written. */
  lemma FirstSettlementStep(requestType: string, events: seq<ExchangeEvent>, e: ExchangeEvent)
    ensures FirstSettlement(requestType, events + [e]) ==
      if FirstSettlement(requestType, events).Some? then FirstSettlement(requestType, events)
      else Settlement(requestType, e)
    ensures ConnectCount(events + [e]) == ConnectCount(events) + (if e.Connected? then 1 else 0)
  {
    FirstSettlementAppend(requestType, events, [e]);
    assert [e][1..] == [];
    assert (events + [e])[..|events|] == events;
  }

  /** The exchange's state after the events so far, as the Promise and the socket see it. */
  class RequestExchange {
    const requestType: string
    const target: Option<ControlTarget>
    const request: Request
    const client: Socket
    /** The requests written on the socket. */
    var written: seq<Request>
    /** None while the Promise is pending. */
    var outcome: Option<Outcome>
    /** Every socket event handled so far. */
    ghost var events: seq<ExchangeEvent>

    ghost predicate Valid()
      reads this, client
    {
      && request == BuildRequest(requestType, target)
      && outcome == FirstSettlement(requestType, events)
      && (client.ended <==> outcome.Some?)
      && |written| == ConnectCount(events)
      && (forall i :: 0 <= i < |written| ==> written[i] == request)
    }

    /** sendRequest(type, target): opens a fresh socket to the device; nothing is written yet. */
    constructor (host: string, port: int, requestType: string, target: Option<ControlTarget>)
      ensures Valid() && fresh(client)
      ensures client.host == host && client.port == port && !client.closed
      ensures this.requestType == requestType && this.target == target
      ensures written == [] && outcome.None? && events == []
    {
      this.requestType := requestType;
      this.target := target;
      request := BuildRequest(requestType, target);
      client := new Socket(host, port);
      written := [];
      outcome := None;
      events := [];
    }

    /** The connect callback: builds the request record and writes it. */
    method OnConnect()
      requires Valid()
      modifies this
      ensures Valid()
      ensures written == old(written) + [request]
      ensures outcome == old(outcome)
      ensures events == old(events) + [Connected]
    {
      FirstSettlementStep(requestType, events, Connected);
      written := written + [request];
      events := events + [Connected];
    }

    /** The data handler: settles the Promise by the reply's type if still pending, then ends the socket. */
    method OnData(payload: Parse)
      requires Valid()
      modifies this, client
      ensures Valid()
      ensures outcome == if old(outcome).Some? then old(outcome) else Some(Classify(requestType, payload))
      ensures client.ended && client.closed == old(client.closed)
      ensures written == old(written)
      ensures events == old(events) + [Data(payload)]
    {
      FirstSettlementStep(requestType, events, Data(payload));
      if outcome.None? {
        outcome := Some(Classify(requestType, payload));
      }
      client.End();
      events := events + [Data(payload)];
    }

    /** The error handler: rejects with a communication failure if still pending, then ends the socket. */
    method OnError()
      requires Valid()
      modifies this, client
      ensures Valid()
      ensures outcome == if old(outcome).Some? then old(outcome) else Some(Rejected(ServiceCommunicationFailure))
      ensures client.ended && client.closed == old(client.closed)
      ensures written == old(written)
      ensures events == old(events) + [SocketError]
    {
      FirstSettlementStep(requestType, events, SocketError);
      if outcome.None? {
        outcome := Some(Rejected(ServiceCommunicationFailure));
      }
      client.End();
      events := events + [SocketError];
    }
  }
}
