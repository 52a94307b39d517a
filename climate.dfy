/**
 * The heater entity: read properties projected from the cached device
 * record, and the two commands, each of which awaits the controller's API
 * and then overwrites the cached telemetry.
 */
module Climate {
  import opened Wrappers
  import opened OmniTypes
  import opened Temperature
  import opened Attributes

  class ClimateEntity {
    /** The virtual heater's id (the entity's context) and the body of water it heats. */
    const systemId: int
    const bowId: int
    /** Every heater-equipment id of the controller, shared by all heater entities. */
    const heaterEquipmentIds: seq<int>

    /** The entity's view of the cached device tree. */
    var systemConfig: SystemConfig
    var config: HeaterConfig
    var telemetry: HeaterTelemetry
    var bowTelemetry: BowTelemetry
    var equipment: map<int, Equipment>

    /** Everything the entity has done to the outside world, in order. */
    ghost var trace: seq<Effect>

    constructor (context: int, bowId: int, heaterEquipmentIds: seq<int>,
                 systemConfig: SystemConfig, config: HeaterConfig, telemetry: HeaterTelemetry,
                 bowTelemetry: BowTelemetry, equipment: map<int, Equipment>)
      ensures this.systemId == context && this.bowId == bowId
      ensures this.heaterEquipmentIds == heaterEquipmentIds
      ensures this.systemConfig == systemConfig && this.config == config
      ensures this.telemetry == telemetry && this.bowTelemetry == bowTelemetry
      ensures this.equipment == equipment
      ensures trace == []
    {
      this.systemId := context;
      this.bowId := bowId;
      this.heaterEquipmentIds := heaterEquipmentIds;
      this.systemConfig := systemConfig;
      this.config := config;
      this.telemetry := telemetry;
      this.bowTelemetry := bowTelemetry;
      this.equipment := equipment;
      trace := [];
    }

    /** Celsius exactly when the controller is configured "Metric"; Fahrenheit for any other setting. */
    function TemperatureUnit(): (u: UnitOfTemperature)
      reads this
      ensures u == Celsius <==> systemConfig.units == MetricUnits
      ensures u == Fahrenheit <==> systemConfig.units != MetricUnits
    {
      if systemConfig.units == MetricUnits then Celsius else Fahrenheit
    }

    /** The body of water's temperature; the sentinel -1 means no reading. */
    function CurrentTemperature(): (t: Option<int>)
      reads this
      ensures t == None <==> bowTelemetry.waterTemp == -1
      ensures t.Some? ==> t.value == bowTelemetry.waterTemp
    {
      if bowTelemetry.waterTemp != -1 then Some(bowTelemetry.waterTemp) else None
    }

    /** Only the two supported modes are ever reported: Heat exactly when enabled. */
    function HvacMode(): (m: HVACMode)
      reads this
      ensures m == HVACMode.Heat || m == HVACMode.Off
      ensures m == HVACMode.Heat <==> telemetry.enabled
    {
      if telemetry.enabled then HVACMode.Heat else HVACMode.Off
    }

    /** Heating exactly when the mode is Heat, otherwise Off; never idle or any other action. */
    function HvacAction(): (a: HVACAction)
      reads this
      ensures a == HVACAction.Heating || a == HVACAction.Off
      ensures a == HVACAction.Heating <==> telemetry.enabled
    {
      if HvacMode() == HVACMode.Heat then HVACAction.Heating else HVACAction.Off
    }

    /** "on" exactly when enabled, otherwise "off". */
    function CurrentOperation(): (s: string)
      reads this
      ensures s == StateOn || s == StateOff
      ensures s == StateOn <==> telemetry.enabled
    {
      if telemetry.enabled then StateOn else StateOff
    }

    /**
     * Set the target temperature. The requested value is truncated toward
     * zero and sent, unclamped, with the current unit; only if the API call
     * returns is the same integer written into the cached set-point. A
     * request without a temperature raises before anything is sent.
     */
    method SetTemperature(temperature: Option<real>, outcome: ApiOutcome) returns (r: CommandResult)
      modifies this`telemetry, this`trace
      ensures temperature == None ==>
        r == Raised(MissingTemperature) && telemetry == old(telemetry) && trace == old(trace)
      ensures temperature.Some? && outcome == Failed ==>
        var sent := SetHeater(bowId, systemId, TruncateTowardZero(temperature.value), TemperatureUnit());
        r == Raised(ApiError) && telemetry == old(telemetry) && trace == old(trace) + [Sent(sent)]
      ensures temperature.Some? && outcome == Accepted ==>
        var n := TruncateTowardZero(temperature.value);
        r == Completed &&
        telemetry == old(telemetry).(currentSetPoint := Some(n)) &&
        trace == old(trace) + [Sent(SetHeater(bowId, systemId, n, TemperatureUnit())), CachedSetPoint(n)]
    {
      if temperature == None {
        return Raised(MissingTemperature);
      }
      var n := TruncateTowardZero(temperature.value);
      trace := trace + [Sent(SetHeater(bowId, systemId, n, TemperatureUnit()))];
      if outcome == Failed {
        return Raised(ApiError);
      }
      telemetry := telemetry.(currentSetPoint := Some(n));
      trace := trace + [CachedSetPoint(n)];
      r := Completed;
    }

    /**
     * Set the HVAC mode. Heat and Off send one enable command; only if it
     * returns is the cached enabled flag overwritten and one state write
     * requested, so that the mode then reads back as requested. Any other
     * mode is logged and changes nothing else.
     */
    method SetHvacMode(mode: HVACMode, outcome: ApiOutcome) returns (r: CommandResult)
      modifies this`telemetry, this`trace
      ensures mode != HVACMode.Heat && mode != HVACMode.Off ==>
        r == Completed && telemetry == old(telemetry) &&
        trace == old(trace) + [LoggedUnrecognizedMode(mode)]
      ensures (mode == HVACMode.Heat || mode == HVACMode.Off) && outcome == Failed ==>
        r == Raised(ApiError) && telemetry == old(telemetry) &&
        trace == old(trace) + [Sent(SetHeaterEnable(bowId, systemId, mode == HVACMode.Heat))]
      ensures (mode == HVACMode.Heat || mode == HVACMode.Off) && outcome == Accepted ==>
        var on := mode == HVACMode.Heat;
        r == Completed &&
        telemetry == old(telemetry).(enabled := on) &&
        trace == old(trace) + [Sent(SetHeaterEnable(bowId, systemId, on)), CachedEnabled(on), StateWritten] &&
        HvacMode() == mode
    {
      var on: bool;
      if mode == HVACMode.Heat {
        on := true;
      } else if mode == HVACMode.Off {
        on := false;
      } else {
        trace := trace + [LoggedUnrecognizedMode(mode)];
        return Completed;
      }
      trace := trace + [Sent(SetHeaterEnable(bowId, systemId, on))];
      if outcome == Failed {
        return Raised(ApiError);
      }
      telemetry := telemetry.(enabled := on);
      trace := trace + [CachedEnabled(on)];
      trace := trace + [StateWritten];
      r := Completed;
    }

    /**
     * The extra state attributes: the base attributes with the solar
     * set-point put over them, then each heating element's five attributes
     * merged in, in list order. A listed id missing from the device tree
     * raises (Err with that id).
     */
    method ExtraStateAttributes(base: Attrs, pretty: int -> string) returns (r: Result<Attrs, int>)
      ensures r == MergeEquipment(base[SolarKey := AttrInt(config.solarSetPoint)], heaterEquipmentIds, equipment, pretty)
      ensures r.Ok? <==> AllPresent(heaterEquipmentIds, equipment)
      ensures r.Ok? ==> SolarKey in r.value && r.value[SolarKey] == AttrInt(config.solarSetPoint)
      ensures heaterEquipmentIds == [] ==> r == Ok(base[SolarKey := AttrInt(config.solarSetPoint)])
    {
      ghost var start := base[SolarKey := AttrInt(config.solarSetPoint)];
      var attrs := base[SolarKey := AttrInt(config.solarSetPoint)];
      var i := 0;
      while i < |heaterEquipmentIds|
        invariant 0 <= i <= |heaterEquipmentIds|
        invariant MergeEquipment(attrs, heaterEquipmentIds[i..], equipment, pretty)
               == MergeEquipment(start, heaterEquipmentIds, equipment, pretty)
      {
        var id := heaterEquipmentIds[i];
        assert heaterEquipmentIds[i..][1..] == heaterEquipmentIds[i + 1..];
        if id !in equipment {
          r := Err(id);
          MergeRaisesOnFirstMissing(start, heaterEquipmentIds, equipment, pretty);
          return;
        }
        attrs := attrs + Group(id, equipment[id], pretty);
        i := i + 1;
      }
      r := Ok(attrs);
      MergeRaisesOnFirstMissing(start, heaterEquipmentIds, equipment, pretty);
      if r.Ok? {
        assert !IsEquipmentKey(SolarKey, heaterEquipmentIds, equipment) by {
          forall j, f | 0 <= j < |heaterEquipmentIds| && heaterEquipmentIds[j] in equipment
            ensures SolarKey != Key(equipment[heaterEquipmentIds[j]].name, f)
          {
            KeyIsNotSolar(equipment[heaterEquipmentIds[j]].name, f);
          }
        }
        MergeKeepsOtherKeys(start, heaterEquipmentIds, equipment, pretty, SolarKey);
      }
    }
  }

  /** A client: what a caller can conclude from the contracts alone. */
  method CommandsThenReads(units: string, waterTemp: int)
  {
    var entity := new ClimateEntity(7, 3, [], SystemConfig(units), HeaterConfig(65, 104, 90),
                                    HeaterTelemetry(false, None), BowTelemetry(waterTemp), map[]);
    var r := entity.SetTemperature(Some(21.7), Accepted);
    TruncationExamples();
    assert r == Completed && entity.telemetry.currentSetPoint == Some(21);
    assert entity.trace[0] == Sent(SetHeater(3, 7, 21, entity.TemperatureUnit()));

    r := entity.SetHvacMode(HVACMode.Heat, Accepted);
    assert entity.HvacMode() == HVACMode.Heat && entity.HvacAction() == HVACAction.Heating;
    assert entity.CurrentOperation() == StateOn;
    assert entity.trace[2..] == [Sent(SetHeaterEnable(3, 7, true)), CachedEnabled(true), StateWritten];

    r := entity.SetHvacMode(HVACMode.Cool, Accepted);
    assert entity.HvacMode() == HVACMode.Heat && |entity.trace| == 6;

    r := entity.SetHvacMode(HVACMode.Off, Failed);
    assert r == Raised(ApiError) && entity.HvacMode() == HVACMode.Heat;
  }
}
