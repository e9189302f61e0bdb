/**
 * The device's line protocol as values: the status snapshot, a decoded
 * message, the outcome of parsing one socket payload, and the request record
 * the accessory writes.
 */
module Protocol {
  import opened Wrappers
  import opened Hap
  import opened Translate

  const GetStatusType := "GetStatus"
  const SetControlType := "SetControl"
  const NotifyStatusType := "NotifyStatus"

  /** The `status` object of a reply or notification; temperatures and humidity are only copied. */
  datatype DeviceStatus = DeviceStatus(
    currentTemperature: real,
    targetTemperature: real,
    currentState: string,
    targetState: string,
    currentHumidity: real)

  /**
   * A decoded JSON message. `messageType` is None when `type` is missing or is
   * not a string; `status` is None when `status` is missing or null.
   */
  datatype Message = Message(messageType: Option<string>, status: Option<DeviceStatus>)

  /**
   * The result of `JSON.parse` on one payload. Malformed also stands for a
   * document whose top-level value is `null`, since reading `.type` of it throws
   * inside the same `try` as the parse.
   */
  datatype Parse = Malformed | Decoded(message: Message)

  /** The `target` argument of sendRequest: only the field being changed is present. */
  datatype ControlTarget = ControlTarget(temperature: Option<real>, state: Option<string>)

  /** The request record built in the connect callback. */
  datatype Request = Request(
    requestType: string,
    targetTemperature: Option<real>,
    targetState: Option<string>)

  /** Builds the request for `type` and the optional `target` (`target?.temperature`, `target?.state`). */
  function BuildRequest(requestType: string, target: Option<ControlTarget>): (r: Request)
    ensures r.requestType == requestType
    ensures r.targetTemperature.Some? <==> target.Some? && target.value.temperature.Some?
    ensures r.targetTemperature.Some? ==> r.targetTemperature == target.value.temperature
    ensures r.targetState.Some? <==> target.Some? && target.value.state.Some?
    ensures r.targetState.Some? ==> r.targetState == target.value.state
  {
    match target
    case None => Request(requestType, None, None)
    case Some(t) => Request(requestType, t.temperature, t.state)
  }

  /**
   * The keys that appear in the serialised request: `JSON.stringify` drops a
   * field whose value is `undefined`.
   */
  function WireFields(r: Request): set<string>
  {
    {"type"}
    + (if r.targetTemperature.Some? then {"target_temperature"} else {})
    + (if r.targetState.Some? then {"target_state"} else {})
  }

  /** getStatus: a GetStatus request carrying neither target field. */
  function GetStatusRequest(): (r: Request)
    ensures r.requestType == GetStatusType
    ensures r.targetTemperature.None? && r.targetState.None?
    ensures WireFields(r) == {"type"}
  {
    BuildRequest(GetStatusType, None)
  }

  /** setControl: a SetControl request carrying exactly the given target's fields. */
  function SetControlRequest(target: ControlTarget): (r: Request)
    ensures r.requestType == SetControlType
    ensures r.targetTemperature == target.temperature && r.targetState == target.state
  {
    BuildRequest(SetControlType, Some(target))
  }

  /** onSetTargetTemperature: a SetControl request that changes only the temperature. */
  function SetTargetTemperatureRequest(temperature: real): (r: Request)
    ensures r.requestType == SetControlType
    ensures r.targetTemperature == Some(temperature) && r.targetState.None?
    ensures WireFields(r) == {"type", "target_temperature"}
  {
    SetControlRequest(ControlTarget(Some(temperature), None))
  }

  /** onSetTargetState: a SetControl request that changes only the heating state. */
  function SetTargetStateRequest(state: TargetHeatingCoolingState): (r: Request)
    ensures r.requestType == SetControlType
    ensures r.targetTemperature.None?
    ensures r.targetState == Some(if state == TargetHeatingCoolingState.Heat then HeatWord else OffWord)
    ensures WireFields(r) == {"type", "target_state"}
  {
    SetControlRequest(ControlTarget(None, Some(FromTargetState(state))))
  }

  /**
   * A device that reads the word sent by onSetTargetState back with the
   * accessory's own translator recovers the state that was set, for the
   * two values the characteristic allows.
   */
  lemma SetTargetStateRoundTrip(state: TargetHeatingCoolingState)
    requires state in ValidTargetStates
    ensures ToTargetState(SetTargetStateRequest(state).targetState.value) == state
  {
  }
}
