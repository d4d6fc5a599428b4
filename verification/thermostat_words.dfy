/** The words a thermostat is described in (components/climate_hub/enums.h). */
module ThermostatWords {
  datatype Mode = ModeOff | Heat | Cool | HeatCool

  datatype Action = ActionOff | Idle | Heating | Cooling

  datatype Fault = NoFault | SensorStale | Overtemp | RelayContested

  datatype Kind = Pid | BangBang

  datatype Direction = Warmer | Colder

  predicate Heats(m: Mode) {
    m.Heat? || m.HeatCool?
  }

  predicate Cools(m: Mode) {
    m.Cool? || m.HeatCool?
  }

  predicate Drives(m: Mode, d: Direction) {
    if d.Warmer? then Heats(m) else Cools(m)
  }

  /** An action that runs a relay runs one the mode drives. */
  predicate Fits(a: Action, m: Mode) {
    (a.Heating? ==> Heats(m)) && (a.Cooling? ==> Cools(m))
  }
}
