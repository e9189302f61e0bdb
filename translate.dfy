/**
 * The status translators: device wire strings to the accessory's two-valued
 * heating enumerations and back. Every string other than "Heat" folds to OFF,
 * and every enumeration value other than HEAT folds to "Off".
 */
module Translate {
  import opened Hap

  const HeatWord := "Heat"
  const OffWord := "Off"

  /** toCurrentState: the device's `current_state` as a CurrentHeatingCoolingState. */
  function ToCurrentState(state: string): (r: CurrentHeatingCoolingState)
    ensures r == CurrentHeatingCoolingState.Heat <==> state == HeatWord
    ensures state != HeatWord ==> r == CurrentHeatingCoolingState.Off
    ensures r in ValidCurrentStates
  {
    if state == HeatWord then CurrentHeatingCoolingState.Heat else CurrentHeatingCoolingState.Off
  }

  /** toTargetState: the device's `target_state` as a TargetHeatingCoolingState. */
  function ToTargetState(state: string): (r: TargetHeatingCoolingState)
    ensures r == TargetHeatingCoolingState.Heat <==> state == HeatWord
    ensures state != HeatWord ==> r == TargetHeatingCoolingState.Off
    ensures r in ValidTargetStates
  {
    if state == HeatWord then TargetHeatingCoolingState.Heat else TargetHeatingCoolingState.Off
  }

  /** fromTargetState: a TargetHeatingCoolingState as the device's control word. */
  function FromTargetState(state: TargetHeatingCoolingState): (r: string)
    ensures r == HeatWord <==> state == TargetHeatingCoolingState.Heat
    ensures r != HeatWord ==> r == OffWord
  {
    if state == TargetHeatingCoolingState.Heat then HeatWord else OffWord
  }

  /** Within the two values the characteristic allows, the target translation round-trips. */
  lemma TargetStateRoundTrip(v: TargetHeatingCoolingState)
    requires v in ValidTargetStates
    ensures ToTargetState(FromTargetState(v)) == v
  {
  }

  /** Outside those two values the round trip folds to OFF. */
  lemma TargetStateFoldsToOff(v: TargetHeatingCoolingState)
    requires v !in ValidTargetStates
    ensures FromTargetState(v) == OffWord
    ensures ToTargetState(FromTargetState(v)) == TargetHeatingCoolingState.Off
  {
  }

  /** Within the two device words, the reverse round trip is the identity. */
  lemma TargetWordRoundTrip(s: string)
    requires s == HeatWord || s == OffWord
    ensures FromTargetState(ToTargetState(s)) == s
  {
  }

  /** Both translators read the same word as heating. */
  lemma TranslatorsAgree(s: string)
    ensures ToCurrentState(s).Heat? <==> ToTargetState(s).Heat?
  {
  }
}
