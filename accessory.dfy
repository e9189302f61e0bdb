/**
 * The HeatingThermostat accessory: the five thermostat characteristics it
 * keeps, the notification listener that overwrites them from NotifyStatus
 * pushes and reconnects after a close, and the read/write hooks that go
 * through a request/response exchange.
 */
module Accessory {
  import opened Wrappers
  import opened Hap
  import opened Translate
  import opened Protocol
  import opened Net
  import opened Exchange

  /** The values of the five characteristics the listener updates. */
  datatype Characteristics = Characteristics(
    currentTemperature: real,
    targetTemperature: real,
    currentState: CurrentHeatingCoolingState,
    targetState: TargetHeatingCoolingState,
    currentHumidity: real)

  /** AccessoryConfig. */
  datatype AccessoryConfig = AccessoryConfig(host: string, port: int, name: string, firmware: string, serial: string)

  /** The AccessoryInformation service's characteristics, as registerHandlers sets them. */
  datatype AccessoryInformation = AccessoryInformation(
    firmwareRevision: string,
    manufacturer: string,
    model: string,
    name: string,
    serialNumber: string)

  const Manufacturer := "tmplt.io"
  const ModelName := "Thermostat"
  const InitialTargetTemperature: real := 20.0

  /** The status a payload carries when it is a NotifyStatus message with a status object. */
  function NotifiedStatus(payload: Parse): (r: Option<DeviceStatus>)
    ensures r.Some? <==> payload.Decoded? && payload.message.messageType == Some(NotifyStatusType) && payload.message.status.Some?
    ensures r.Some? ==> r == payload.message.status
  {
    match payload
    case Malformed => None
    case Decoded(m) => if m.messageType == Some(NotifyStatusType) then m.status else None
  }

  /** The characteristics a status snapshot translates to. */
  function FromStatus(s: DeviceStatus): (c: Characteristics)
    ensures c.currentTemperature == s.currentTemperature && c.targetTemperature == s.targetTemperature
    ensures c.currentHumidity == s.currentHumidity
    ensures c.currentState == ToCurrentState(s.currentState) && c.targetState == ToTargetState(s.targetState)
    ensures c.currentState in ValidCurrentStates && c.targetState in ValidTargetStates
  {
    Characteristics(s.currentTemperature, s.targetTemperature, ToCurrentState(s.currentState),
                    ToTargetState(s.targetState), s.currentHumidity)
  }

  /**
   * The listener's data handler on the characteristics. A NotifyStatus message
   * whose status is missing makes the first updateValue throw before anything
   * is written; the catch swallows it, as it does a parse failure.
   */
  function OnNotification(c: Characteristics, servicePresent: bool, payload: Parse): (r: Characteristics)
    ensures servicePresent && NotifiedStatus(payload).Some? ==>
      var s := NotifiedStatus(payload).value;
      && r.currentTemperature == s.currentTemperature
      && r.targetTemperature == s.targetTemperature
      && r.currentState == ToCurrentState(s.currentState)
      && r.targetState == ToTargetState(s.targetState)
      && r.currentHumidity == s.currentHumidity
    ensures !(servicePresent && NotifiedStatus(payload).Some?) ==> r == c
    ensures payload.Malformed? ==> r == c
  {
    match payload
    case Malformed => c
    case Decoded(m) =>
      if m.messageType == Some(NotifyStatusType) && servicePresent && m.status.Some? then FromStatus(m.status.value)
      else c
  }

  /** The characteristics after the listener has handled `payloads` in arrival order. */
  function ApplyData(c: Characteristics, servicePresent: bool, payloads: seq<Parse>): Characteristics
  {
    if payloads == [] then c
    else OnNotification(ApplyData(c, servicePresent, payloads[..|payloads| - 1]), servicePresent, payloads[|payloads| - 1])
  }

  /** The status of the latest NotifyStatus message among `payloads`. */
  function LatestStatus(payloads: seq<Parse>): Option<DeviceStatus>
  {
    if payloads == [] then None
    else if NotifiedStatus(payloads[|payloads| - 1]).Some? then NotifiedStatus(payloads[|payloads| - 1])
    else LatestStatus(payloads[..|payloads| - 1])
  }

  /** The payloads among `payloads` that are NotifyStatus messages with a status. */
  function Notifications(payloads: seq<Parse>): (r: seq<Parse>)
    ensures forall i :: 0 <= i < |r| ==> NotifiedStatus(r[i]).Some?
  {
    if payloads == [] then []
    else
      var rest := Notifications(payloads[..|payloads| - 1]);
      if NotifiedStatus(payloads[|payloads| - 1]).Some? then rest + [payloads[|payloads| - 1]] else rest
  }

  /** The characteristics are those of the latest snapshot received, or unchanged if none was. */
  lemma {:induction false} ApplyDataIsLatestSnapshot(c: Characteristics, payloads: seq<Parse>)
    ensures ApplyData(c, true, payloads) == if LatestStatus(payloads).Some? then FromStatus(LatestStatus(payloads).value) else c
  {
    if payloads != [] {
      ApplyDataIsLatestSnapshot(c, payloads[..|payloads| - 1]);
    }
  }

  /** Without the Thermostat service no payload changes anything. */
  lemma {:induction false} ApplyDataWithoutService(c: Characteristics, payloads: seq<Parse>)
    ensures ApplyData(c, false, payloads) == c
  {
    if payloads != [] {
      ApplyDataWithoutService(c, payloads[..|payloads| - 1]);
    }
  }

  /** Handling two runs of payloads is handling the first, then the second. */
  lemma {:induction false} ApplyDataAppend(c: Characteristics, servicePresent: bool, xs: seq<Parse>, ys: seq<Parse>)
    ensures ApplyData(c, servicePresent, xs + ys) == ApplyData(ApplyData(c, servicePresent, xs), servicePresent, ys)
  {
    if ys == [] {
      assert xs + ys == xs;
    } else {
      assert (xs + ys)[..|xs + ys| - 1] == xs + ys[..|ys| - 1];
      assert (xs + ys)[|xs + ys| - 1] == ys[|ys| - 1];
      ApplyDataAppend(c, servicePresent, xs, ys[..|ys| - 1]);
    }
  }

  /** Payloads other than NotifyStatus messages leave no trace: only the notifications matter. */
  lemma {:induction false} ApplyDataIgnoresNoise(c: Characteristics, servicePresent: bool, payloads: seq<Parse>)
    ensures ApplyData(c, servicePresent, payloads) == ApplyData(c, servicePresent, Notifications(payloads))
  {
    if payloads != [] {
      var init := payloads[..|payloads| - 1];
      var last := payloads[|payloads| - 1];
      ApplyDataIgnoresNoise(c, servicePresent, init);
      if NotifiedStatus(last).Some? {
        ApplyDataAppend(c, servicePresent, Notifications(init), [last]);
        assert [last][..0] == [];
      }
    }
  }

  /** A malformed payload does not break the feed: the messages after it are handled as if it had not arrived. */
  lemma SwallowAndContinue(c: Characteristics, servicePresent: bool, before: seq<Parse>, after: seq<Parse>)
    ensures ApplyData(c, servicePresent, before + [Malformed] + after) == ApplyData(c, servicePresent, before + after)
  {
    ApplyDataAppend(c, servicePresent, before + [Malformed], after);
    ApplyDataAppend(c, servicePresent, before, [Malformed]);
    ApplyDataAppend(c, servicePresent, before, after);
    assert [Malformed][..0] == [];
  }

  /** Every characteristic value the listener writes is one the characteristic allows. */
  lemma {:induction false} ApplyDataKeepsValidStates(c: Characteristics, servicePresent: bool, payloads: seq<Parse>)
    requires c.targetState in ValidTargetStates
    ensures ApplyData(c, servicePresent, payloads).targetState in ValidTargetStates
    ensures c.currentState in ValidCurrentStates ==> ApplyData(c, servicePresent, payloads).currentState in ValidCurrentStates
  {
    if payloads != [] {
      ApplyDataKeepsValidStates(c, servicePresent, payloads[..|payloads| - 1]);
    }
  }

  /** A status notification of 21.5, 20.0, "Heat", "Heat", 45 sets those five values. */
  lemma NotificationScenario(c: Characteristics)
    ensures OnNotification(c, true, Decoded(Message(Some("NotifyStatus"), Some(DeviceStatus(21.5, 20.0, "Heat", "Heat", 45.0)))))
         == Characteristics(21.5, 20.0, CurrentHeatingCoolingState.Heat, TargetHeatingCoolingState.Heat, 45.0)
  {
  }

  /** Why a read or write hook fails. */
  datatype HandlerError =
    | HapError(status: HapStatus)
      /** The reply resolved without a `status` object and reading a field of it throws. */
    | MissingStatus

  /** What a read or write hook returns to the accessory framework. */
  datatype HookResult<T> = Value(value: T) | Failure(error: HandlerError)

  /** A read hook: awaits getStatus and reads one field of the status it resolves with. */
  function ReadStatus<T>(o: Outcome, field: DeviceStatus -> T): (r: HookResult<T>)
    ensures r.Value? <==> o.Resolved? && o.status.Some?
    ensures r.Value? ==> r.value == field(o.status.value)
    ensures o.Rejected? ==> r == Failure(HapError(o.error))
    ensures o == Resolved(None) ==> r == Failure(MissingStatus)
  {
    match o
    case Rejected(e) => Failure(HapError(e))
    case Resolved(None) => Failure(MissingStatus)
    case Resolved(Some(s)) => Value(field(s))
  }

  /** onGetCurrentTemperature. */
  function OnGetCurrentTemperature(o: Outcome): (r: HookResult<real>)
    ensures r.Value? <==> o.Resolved? && o.status.Some?
    ensures r.Value? ==> r.value == o.status.value.currentTemperature
    ensures o.Rejected? ==> r == Failure(HapError(o.error))
    ensures o == Resolved(None) ==> r == Failure(MissingStatus)
  {
    ReadStatus(o, (s: DeviceStatus) => s.currentTemperature)
  }

  /** onGetTargetTemperature. */
  function OnGetTargetTemperature(o: Outcome): (r: HookResult<real>)
    ensures r.Value? <==> o.Resolved? && o.status.Some?
    ensures r.Value? ==> r.value == o.status.value.targetTemperature
    ensures o.Rejected? ==> r == Failure(HapError(o.error))
    ensures o == Resolved(None) ==> r == Failure(MissingStatus)
  {
    ReadStatus(o, (s: DeviceStatus) => s.targetTemperature)
  }

  /** onGetCurrentState: the status word through toCurrentState. */
  function OnGetCurrentState(o: Outcome): (r: HookResult<CurrentHeatingCoolingState>)
    ensures r.Value? <==> o.Resolved? && o.status.Some?
    ensures r.Value? ==> r.value == ToCurrentState(o.status.value.currentState) && r.value in ValidCurrentStates
    ensures o.Rejected? ==> r == Failure(HapError(o.error))
    ensures o == Resolved(None) ==> r == Failure(MissingStatus)
  {
    ReadStatus(o, (s: DeviceStatus) => ToCurrentState(s.currentState))
  }

  /** onGetTargetState: the status word through toTargetState. */
  function OnGetTargetState(o: Outcome): (r: HookResult<TargetHeatingCoolingState>)
    ensures r.Value? <==> o.Resolved? && o.status.Some?
    ensures r.Value? ==> r.value == ToTargetState(o.status.value.targetState) && r.value in ValidTargetStates
    ensures o.Rejected? ==> r == Failure(HapError(o.error))
    ensures o == Resolved(None) ==> r == Failure(MissingStatus)
  {
    ReadStatus(o, (s: DeviceStatus) => ToTargetState(s.targetState))
  }

  /** onGetCurrentHumidity. */
  function OnGetCurrentHumidity(o: Outcome): (r: HookResult<real>)
    ensures r.Value? <==> o.Resolved? && o.status.Some?
    ensures r.Value? ==> r.value == o.status.value.currentHumidity
    ensures o.Rejected? ==> r == Failure(HapError(o.error))
    ensures o == Resolved(None) ==> r == Failure(MissingStatus)
  {
    ReadStatus(o, (s: DeviceStatus) => s.currentHumidity)
  }

  /** A write hook (setControl): succeeds on any resolved reply, whatever its status, and propagates a rejection. */
  function OnSetCompleted(o: Outcome): (r: HookResult<()>)
    ensures r.Value? <==> o.Resolved?
    ensures o.Rejected? ==> r == Failure(HapError(o.error))
  {
    match o
    case Resolved(_) => Value(())
    case Rejected(e) => Failure(HapError(e))
  }

  /**
   * Every read hook is answered from the device's reply when, and only when,
   * the reply has the request's type and carries a status; a reply of another
   * type or one that does not parse is an invalid value, and a GetStatus reply
   * without a status fails as a missing status.
   */
  lemma ReadHookMatchesReplyType<T>(payload: Parse, field: DeviceStatus -> T)
    ensures ReadStatus(Classify(GetStatusType, payload), field).Value? <==>
      payload.Decoded? && payload.message.messageType == Some(GetStatusType) && payload.message.status.Some?
    ensures ReadStatus(Classify(GetStatusType, payload), field).Value? ==>
      ReadStatus(Classify(GetStatusType, payload), field).value == field(payload.message.status.value)
    ensures !(payload.Decoded? && payload.message.messageType == Some(GetStatusType)) ==>
      ReadStatus(Classify(GetStatusType, payload), field) == Failure(HapError(InvalidValueInRequest))
    ensures payload.Decoded? && payload.message.messageType == Some(GetStatusType) && payload.message.status.None? ==>
      ReadStatus(Classify(GetStatusType, payload), field) == Failure(MissingStatus)
  {
  }

  /**
   * Writing a target temperature sends only that field; if the socket errors
   * before any reply (after any number of connect callbacks), the write fails
   * as a communication failure whatever arrives afterwards.
   */
  lemma SetTemperatureConnectFailure(temperature: real, before: seq<ExchangeEvent>, later: seq<ExchangeEvent>)
    requires forall j :: 0 <= j < |before| ==> before[j].Connected?
    ensures WireFields(SetTargetTemperatureRequest(temperature)) == {"type", "target_temperature"}
    ensures var o := FirstSettlement(SetControlType, before + [SocketError] + later);
      o.Some? && OnSetCompleted(o.value) == Failure(HapError(ServiceCommunicationFailure))
  {
    var events := before + [SocketError] + later;
    assert events[|before|] == SocketError;
    assert forall j :: 0 <= j < |before| ==> events[j] == before[j];
    FirstSettlementIsFirst(SetControlType, events, |before|);
  }

  class HeatingThermostat {
    const config: AccessoryConfig
    const information: AccessoryInformation
    const displayUnits: TemperatureDisplayUnits
    const currentStateValidValues: set<CurrentHeatingCoolingState>
    const targetStateValidValues: set<TargetHeatingCoolingState>

    var currentTemperature: real
    var targetTemperature: real
    var currentState: CurrentHeatingCoolingState
    var targetState: TargetHeatingCoolingState
    var currentHumidity: real

    /** The listener's current socket. */
    var client: Socket
    /** Timers scheduled by a close that have not yet created a new listener. */
    var pendingRestarts: nat

    /** The characteristics right after registerHandlers. */
    ghost const initial: Characteristics
    /** Every payload the listeners have received so far, in arrival order. */
    ghost var received: seq<Parse>

    function Chars(): Characteristics
      reads this
    {
      Characteristics(currentTemperature, targetTemperature, currentState, targetState, currentHumidity)
    }

    ghost predicate Valid()
      reads this, client
    {
      && Chars() == ApplyData(initial, true, received)
      && initial.targetTemperature == InitialTargetTemperature
      && initial.targetState == TargetHeatingCoolingState.Off
      && currentStateValidValues == ValidCurrentStates
      && targetStateValidValues == ValidTargetStates
      && targetState in targetStateValidValues
      && client.host == config.host && client.port == config.port
      && pendingRestarts == (if client.closed then 1 else 0)
    }

    /**
     * The constructor: registerHandlers, then createListener. The values of the
     * characteristics registerHandlers does not set are the framework's.
     */
    constructor (config: AccessoryConfig, displayName: string,
                 currentTemperature: real, currentState: CurrentHeatingCoolingState, currentHumidity: real)
      ensures Valid() && fresh(client)
      ensures this.config == config
      ensures information == AccessoryInformation(config.firmware, Manufacturer, ModelName, displayName, config.serial)
      ensures displayUnits == Celsius
      ensures currentStateValidValues == {CurrentHeatingCoolingState.Off, CurrentHeatingCoolingState.Heat}
      ensures targetStateValidValues == {TargetHeatingCoolingState.Off, TargetHeatingCoolingState.Heat}
      ensures Chars() == Characteristics(currentTemperature, 20.0, currentState, TargetHeatingCoolingState.Off, currentHumidity)
      ensures !client.ended && !client.closed && pendingRestarts == 0
      ensures received == []
    {
      this.config := config;
      information := AccessoryInformation(config.firmware, Manufacturer, ModelName, displayName, config.serial);
      displayUnits := Celsius;
      currentStateValidValues := ValidCurrentStates;
      targetStateValidValues := ValidTargetStates;
      this.currentTemperature := currentTemperature;
      targetTemperature := InitialTargetTemperature;
      this.currentState := currentState;
      targetState := TargetHeatingCoolingState.Off;
      this.currentHumidity := currentHumidity;
      initial := Characteristics(currentTemperature, InitialTargetTemperature, currentState,
                                 TargetHeatingCoolingState.Off, currentHumidity);
      received := [];
      client := new Socket(config.host, config.port);
      pendingRestarts := 0;
    }

    /** The listener's data handler; it never ends the connection. */
    method OnListenerData(payload: Parse)
      requires Valid()
      modifies this
      ensures Valid()
      ensures Chars() == OnNotification(old(Chars()), true, payload)
      ensures received == old(received) + [payload]
      ensures client == old(client) && pendingRestarts == old(pendingRestarts)
      ensures unchanged(client)
    {
      if payload.Decoded? && payload.message.messageType == Some(NotifyStatusType) {
        var status := payload.message.status;
        if status.Some? {
          var s := status.value;
          currentTemperature := s.currentTemperature;
          targetTemperature := s.targetTemperature;
          currentState := ToCurrentState(s.currentState);
          targetState := ToTargetState(s.targetState);
          currentHumidity := s.currentHumidity;
        }
      }
      assert (received + [payload])[..|received|] == received;
      received := received + [payload];
    }

    /** The listener's error handler: ends the current socket and schedules nothing. */
    method OnListenerError()
      requires Valid()
      modifies client
      ensures Valid()
      ensures client.ended && client.closed == old(client.closed)
      ensures Chars() == old(Chars()) && pendingRestarts == old(pendingRestarts)
    {
      client.End();
    }

    /**
     * The listener's close handler: schedules exactly one new listener after
     * 5000 ms and ends the socket. A socket emits `close` once.
     */
    method OnListenerClose()
      requires Valid() && !client.closed
      modifies this, client
      ensures Valid()
      ensures pendingRestarts == old(pendingRestarts) + 1 == 1
      ensures client == old(client) && client.closed && client.ended
      ensures Chars() == old(Chars()) && received == old(received)
    {
      client.closed := true;
      pendingRestarts := pendingRestarts + 1;
      client.End();
    }

    /** The scheduled timer fires: createListener makes a new socket to the same device. */
    method OnRestartTimer()
      requires Valid() && pendingRestarts > 0
      modifies this
      ensures Valid()
      ensures fresh(client) && client != old(client)
      ensures client.host == config.host && client.port == config.port && !client.ended && !client.closed
      ensures pendingRestarts == old(pendingRestarts) - 1 == 0
      ensures Chars() == old(Chars()) && received == old(received)
    {
      pendingRestarts := pendingRestarts - 1;
      client := new Socket(config.host, config.port);
    }

    /** getStatus: a new exchange for a GetStatus request. */
    method GetStatus() returns (x: RequestExchange)
      ensures fresh(x) && fresh(x.client) && x.Valid()
      ensures x.client.host == config.host && x.client.port == config.port
      ensures x.request == GetStatusRequest() && x.outcome.None?
      ensures x.written == [] && x.events == []
    {
      x := new RequestExchange(config.host, config.port, GetStatusType, None);
    }

    /** setControl: a new exchange for a SetControl request with `target`. */
    method SetControl(target: ControlTarget) returns (x: RequestExchange)
      ensures fresh(x) && fresh(x.client) && x.Valid()
      ensures x.client.host == config.host && x.client.port == config.port
      ensures x.request == SetControlRequest(target) && x.outcome.None?
      ensures x.written == [] && x.events == []
    {
      x := new RequestExchange(config.host, config.port, SetControlType, Some(target));
    }

    /** onSetTargetTemperature: setControl with only the temperature. */
    method OnSetTargetTemperature(temperature: real) returns (x: RequestExchange)
      ensures fresh(x) && fresh(x.client) && x.Valid()
      ensures x.client.host == config.host && x.client.port == config.port
      ensures x.request == SetTargetTemperatureRequest(temperature) && x.outcome.None?
      ensures x.written == [] && x.events == []
    {
      x := SetControl(ControlTarget(Some(temperature), None));
    }

    /** onSetTargetState: setControl with only the translated state. */
    method OnSetTargetState(state: TargetHeatingCoolingState) returns (x: RequestExchange)
      ensures fresh(x) && fresh(x.client) && x.Valid()
      ensures x.client.host == config.host && x.client.port == config.port
      ensures x.request == SetTargetStateRequest(state) && x.outcome.None?
      ensures x.written == [] && x.events == []
    {
      x := SetControl(ControlTarget(None, Some(FromTargetState(state))));
    }
  }
}
