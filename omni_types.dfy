/**
 * The values the climate adapter reads from the pool controller's cached
 * device tree, the enumerations of the host's climate-entity contract, and
 * the observable effects the adapter's commands have.
 */
module OmniTypes {
  import opened Wrappers

  /** The host's HVAC modes; the adapter supports only Off and Heat. */
  datatype HVACMode = Off | Heat | Cool | HeatCool | Auto | Dry | FanOnly

  /** The host's HVAC actions (what the unit is doing right now). */
  datatype HVACAction = Off | Heating | Cooling | Drying | Idle | Fan | Preheating | Defrosting

  /** The host's temperature units. */
  datatype UnitOfTemperature = Celsius | Fahrenheit

  /** The host's textual on/off states. */
  const StateOn: string := "on"
  const StateOff: string := "off"

  /** The system-level configuration value naming the controller's units. */
  const MetricUnits: string := "Metric"

  /** The controller's device types as far as heating is concerned. */
  datatype OmniType = VirtHeater | HeaterEquip | OtherType

  /** System-level configuration of the controller. */
  datatype SystemConfig = SystemConfig(units: string)

  /** Configuration of the virtual heater this entity represents. */
  datatype HeaterConfig = HeaterConfig(minTemp: int, maxTemp: int, solarSetPoint: int)

  /** Telemetry of the virtual heater; the adapter overwrites it optimistically. */
  datatype HeaterTelemetry = HeaterTelemetry(enabled: bool, currentSetPoint: Option<int>)

  /** Telemetry of the body of water the heater serves. */
  datatype BowTelemetry = BowTelemetry(waterTemp: int)

  /**
   * One physical heating element: its configuration (name, enabled, body of
   * water) and telemetry (a raw state code and a sensor temperature).
   */
  datatype Equipment = Equipment(name: string, enabled: bool, bowId: int, state: int, temp: int)

  /** The two commands the adapter sends to the controller's API. */
  datatype Command =
    | SetHeater(bowId: int, systemId: int, temperature: int, unit: UnitOfTemperature)
    | SetHeaterEnable(bowId: int, systemId: int, enabled: bool)

  /** What the API client's awaited call does: it returns, or it raises. */
  datatype ApiOutcome = Accepted | Failed

  /** Observable effects of a command, in the order they happen. */
  datatype Effect =
    | Sent(command: Command)
    | CachedSetPoint(setPoint: int)
    | CachedEnabled(enabled: bool)
    | StateWritten
    | LoggedUnrecognizedMode(mode: HVACMode)

  /** Why a command ended by raising. */
  datatype CommandError =
    | MissingTemperature
    | ApiError

  /** How a command ends: it returns normally, or an exception propagates. */
  datatype CommandResult = Completed | Raised(error: CommandError)
}
