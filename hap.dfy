/**
 * The parts of the HomeKit Accessory Protocol vocabulary that the thermostat
 * accessory uses: the heating/cooling state enumerations, the two status
 * codes it raises, and the temperature display unit.
 */
module Hap {

  /** Characteristic.CurrentHeatingCoolingState: OFF = 0, HEAT = 1, COOL = 2. */
  datatype CurrentHeatingCoolingState = Off | Heat | Cool

  /** Characteristic.TargetHeatingCoolingState: OFF = 0, HEAT = 1, COOL = 2, AUTO = 3. */
  datatype TargetHeatingCoolingState = Off | Heat | Cool | Auto

  /** The two HAPStatus codes the accessory rejects a read or write with. */
  datatype HapStatus = InvalidValueInRequest | ServiceCommunicationFailure

  /** Characteristic.TemperatureDisplayUnits. */
  datatype TemperatureDisplayUnits = Celsius | Fahrenheit

  /** The `validValues` both heating-state characteristics are restricted to. */
  const ValidCurrentStates: set<CurrentHeatingCoolingState> := {CurrentHeatingCoolingState.Off, CurrentHeatingCoolingState.Heat}
  const ValidTargetStates: set<TargetHeatingCoolingState> := {TargetHeatingCoolingState.Off, TargetHeatingCoolingState.Heat}
}
