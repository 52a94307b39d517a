# OmniLogic climate adapter, modelled in Dafny

This project models the heater entity of the Home Assistant OmniLogic local
integration (`climate.py`). The entity exposes a pool controller's virtual
heater as a climate entity. It projects the controller's cached configuration
and telemetry onto the host's read properties, and forwards two commands
(set target temperature, set HVAC mode). Each command awaits the controller's
API first and only then overwrites the cached telemetry ("optimistic write").
Platform setup splits the controller's climate devices into virtual heaters,
one entity each, and heater equipment. The equipment ids form one list that
every entity shares.

Files:

- `wrappers.dfy`: `Option` and `Result`.
- `omni_types.dfy`: the host's enumerations (`HVACMode`, `HVACAction`,
  `UnitOfTemperature`, the "on"/"off" states), the cached records
  (system configuration, heater configuration and telemetry,
  body-of-water telemetry, heating elements), the two API commands, and the
  `Effect` values a command leaves in the entity's ghost `trace`.
- `temperature.dfy`: Python's `int()` on a float, which truncates toward zero.
- `attributes.dfy`: attribute keys (`omni_heater_<lower-cased name>_<field>`),
  one element's five attributes, and the left-to-right dictionary merge
  with its lemmas.
- `setup.dfy`: the setup partition and the entity-creation loop.
- `climate.dfy`: the class `ClimateEntity` with its read properties, its two
  commands, the extra-attributes loop, and a client method
  `CommandsThenReads` showing what callers can conclude.

Effects are recorded in order in the ghost sequence `trace`:
- a command handed to the API (`Sent`);
- a write to the cached telemetry (`CachedSetPoint`, `CachedEnabled`);
- a state-write request to the host (`StateWritten`);
- the error log for an unrecognized mode (`LoggedUnrecognizedMode`).

The order of the entries is the order the source performs those steps. An
API call is a parameter `outcome`: `Accepted` (the awaited call returns) or
`Failed` (it raises). A raise is the result `Raised(...)`. On `Failed`, the
command is still recorded as sent, and nothing after it happens.

`async_set_temperature` (lines 120-127) never calls `async_write_ha_state`, so
`SetTemperature` records no `StateWritten`.

## Model

| member | source | states |
|---|---|---|
| `Setup.IdsOfType` | custom_components/omnilogic_local/custom_components/omnilogic_local/climate.py:39-40 | the selected ids are no more numerous than the devices (membership is stated by `IdsOfTypeMembers`) |
| `Setup.IdsOfTypeMembers` | custom_components/omnilogic_local/custom_components/omnilogic_local/climate.py:39-40 | an id is selected exactly when some device with that id has the requested type |
| `Setup.IdsOfTypeDistinct` | custom_components/omnilogic_local/custom_components/omnilogic_local/climate.py:39-40 | when the device map's ids are distinct (it is a dictionary), no id is selected twice |
| `Setup.Partition` | custom_components/omnilogic_local/custom_components/omnilogic_local/climate.py:39-40 | an id is a virtual heater iff its device is one, is listed as heater equipment iff its device is equipment, and is never both |
| `Setup.SetupEntry` | custom_components/omnilogic_local/custom_components/omnilogic_local/climate.py:42-55 | one entity per virtual heater, in map order; entity k gets the k-th virtual heater's id and the full shared equipment-id list; no two entities share a context |
| `Temperature.TruncateTowardZero` | custom_components/omnilogic_local/custom_components/omnilogic_local/climate.py:124 | the result is the integer between zero and the input that is within one of it (truncation, not rounding or flooring) |
| `Temperature.TruncationIsUnique` | custom_components/omnilogic_local/custom_components/omnilogic_local/climate.py:124 | those bounds admit exactly one integer, so they fully determine the sent value |
| `Temperature.TruncationExamples` | custom_components/omnilogic_local/custom_components/omnilogic_local/climate.py:124 | 21.7 is sent as 21 and -21.7 as -21, which differs from the floor -22 |
| `Attributes.LowerChar` | custom_components/omnilogic_local/custom_components/omnilogic_local/climate.py:150 | an ASCII capital maps to its small letter; every other character is kept |
| `Attributes.Lower` | custom_components/omnilogic_local/custom_components/omnilogic_local/climate.py:150 | lower-casing keeps the length and lowers each character in place |
| `Attributes.LowerIgnoresCase` | custom_components/omnilogic_local/custom_components/omnilogic_local/climate.py:150 | names that differ only in letter case give the same key prefix |
| `Attributes.KeyInjective` | custom_components/omnilogic_local/custom_components/omnilogic_local/climate.py:150-157 | two attribute keys are equal iff the lower-cased names and the fields are equal (the five suffixes never collide) |
| `Attributes.KeyIsNotSolar` | custom_components/omnilogic_local/custom_components/omnilogic_local/climate.py:147-157 | no element attribute key equals "solar_set_point" |
| `Attributes.Group` | custom_components/omnilogic_local/custom_components/omnilogic_local/climate.py:150-157 | one element contributes exactly its five keys: enabled flag, system id, body-of-water id, rendered state, sensor temperature |
| `Attributes.MergeRaisesOnFirstMissing` | custom_components/omnilogic_local/custom_components/omnilogic_local/climate.py:148-149 | the merge fails iff some listed id is missing from the device tree, and then names the first missing id |
| `Attributes.MergeKeys` | custom_components/omnilogic_local/custom_components/omnilogic_local/climate.py:147-157 | after the merge the keys are the starting keys plus the five keys of every listed element |
| `Attributes.MergeKeepsOtherKeys` | custom_components/omnilogic_local/custom_components/omnilogic_local/climate.py:147-157 | a starting key that is no element's key keeps its starting value |
| `Attributes.MergeLastOfNameWins` | custom_components/omnilogic_local/custom_components/omnilogic_local/climate.py:148-157 | an element's attribute carries that element's value unless a later element has the same lower-cased name; the later one wins |
| `Climate.ClimateEntity.constructor` | custom_components/omnilogic_local/custom_components/omnilogic_local/climate.py:73-79 | the entity keeps its context id and the shared equipment-id list; nothing has been sent yet |
| `Climate.ClimateEntity.TemperatureUnit` | custom_components/omnilogic_local/custom_components/omnilogic_local/climate.py:82-83 | Celsius iff the system units are "Metric", Fahrenheit for every other value |
| `Climate.ClimateEntity.CurrentTemperature` | custom_components/omnilogic_local/custom_components/omnilogic_local/climate.py:98-100 | absent iff the body of water reads -1; otherwise that raw value unchanged |
| `Climate.ClimateEntity.HvacMode` | custom_components/omnilogic_local/custom_components/omnilogic_local/climate.py:103-105 | only Heat or Off is reported; Heat iff telemetry is enabled |
| `Climate.ClimateEntity.HvacAction` | custom_components/omnilogic_local/custom_components/omnilogic_local/climate.py:108-114 | only Heating or Off is reported; Heating iff enabled, so exactly when the mode is Heat |
| `Climate.ClimateEntity.CurrentOperation` | custom_components/omnilogic_local/custom_components/omnilogic_local/climate.py:117-118 | "on" iff enabled, "off" otherwise |
| `Climate.ClimateEntity.SetTemperature` | custom_components/omnilogic_local/custom_components/omnilogic_local/climate.py:120-127 | no temperature: raises, nothing sent or changed. Otherwise one `set_heater` with the truncated value and the current unit, no clamping to min/max. On success the cached set-point becomes that integer, and no state write follows. On failure the telemetry is unchanged |
| `Climate.ClimateEntity.SetHvacMode` | custom_components/omnilogic_local/custom_components/omnilogic_local/climate.py:129-143 | Heat/Off: one enable command (true/false). On success, then the cached enabled flag, then one state write, and the mode reads back as requested. On failure the telemetry is unchanged and no state write happens. Any other mode: only a log entry |
| `Climate.ClimateEntity.ExtraStateAttributes` | custom_components/omnilogic_local/custom_components/omnilogic_local/climate.py:146-158 | equals the merge of the equipment groups over the base attributes plus the solar set-point, which is always present; fails iff an id is missing; with no equipment it is the base plus the solar set-point only |

## Left out

- Home Assistant's entity framework: coordinator polling, availability,
  entity registration and `async_add_entities`. `SetupEntry` returns, per entity, its
  `context` and the shared `heater_equipment_ids`: the source constructor's
  arguments without the coordinator. `async_write_ha_state` is the
  `StateWritten` effect.
- The controller's API transport (`async_set_heater`,
  `async_set_heater_enable`): its network I/O is replaced by a `Sent` effect
  and an `outcome` parameter.
- async scheduling and reads concurrent with a command: execution is
  sequential.
- `get_entities_of_hass_type` is not part of this model: `SetupEntry`
  receives its result, a dictionary, as a sequence of devices in insertion
  order. The dictionary's distinct keys are the predicate `DistinctIds`.
- `set_telemetry`, `get_telemetry_by_systemid`, `get_system_config` and
  `self.data` are not part of this model. The entity holds its own copy of
  the records they reach. Several entities sharing one device tree and one
  equipment-id list object (aliasing) is not modelled.
- `set_telemetry({"enabled": "yes"/"no"})` is assumed to store `true`/`false`.
  If the helper stored the raw string, "no" would be truthy, and the mode
  would read Heat after Off.
- `Attributes.Lower`: lowers ASCII letters only, while Python's `str.lower` also lowers
  non-ASCII letters; names outside ASCII are not modelled exactly.
- `Attributes.LowerChar`: keeps every non-ASCII character, while `str.lower` also lowers
  non-ASCII capitals.
- `state.pretty()` comes from a library that is not part of this model; it is
  the function parameter `pretty` of `ExtraStateAttributes`.
- `super().extra_state_attributes` is computed by a base class that is not part of this
  model; it is the parameter `base`.
- The cast at line 149 is not checked: the equipment map holds only
  heating-element records.
- The order of keys in the resulting dictionary is not modelled (Dafny maps are unordered).
- Floating point: the requested temperature is a `real`. Python's `int()`
  raising on NaN or infinity is not modelled.
- Logging: the debug log at setup is left out. The error log for an
  unrecognized mode is the `LoggedUnrecognizedMode` effect.
- The `_hvac_mode` field (lines 132 and 136) is written but never read in this file.
- `min_temp`, `max_temp` and `target_temperature` (lines 85-95) are plain
  field reads. They are `config.minTemp`, `config.maxTemp` and
  `telemetry.currentSetPoint`, not separate members.
- `_attr_supported_features`, `_attr_hvac_modes` and `_attr_name` (lines 69-71), constants for the host, are not modelled;
  `HvacMode` reports only the two modes listed there.
