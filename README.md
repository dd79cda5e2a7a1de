# LocalTuya climate platform, modelled in Dafny

This project models the climate platform of LocalTuya
(`custom_components/localtuya/climate.py`). The platform translates between
Home Assistant climate commands and a Tuya device's datapoints ("dps").
The datapoints are indexed registers: 1 is the switch, 2 the mode string,
16 the target temperature in tenths, 24 the current temperature in tenths,
28 the fan level and 34 the humidity.

- `py_values.dfy`, module `PyValues`, holds the Python values that cross the
  boundary with the device client. These are datapoint values, payload keys
  (string or int), snapshots, and the built-ins the platform applies to them:
  truthiness, `int()` of a number (truncation toward zero), `str()` of an
  index, and the number behind `value / 10.0`.
- `climate.dfy`, module `Climate`, holds the rest:
  - the mode table `ModeMap`, and its items in insertion order;
  - `find_mode_key`, a loop with an early return, modelled as the method
    `FindModeKey`. It is proved equal to the recursive specification
    `ReverseLookup`, and the table's properties are proved as lemmas;
  - the payloads of the commands, as specification functions;
  - the status projection `Project`;
  - the class `LocaltuyaClimate`, whose fields are the entity's attributes.
    Each command is a method that updates those fields and returns the
    command it would send (`set_dps(payload)` or `set_dp(value, dp_id)`),
    so there is no I/O.

Two errors in the source are modelled as `Failure` results rather than as
preconditions, because the source raises them and does not catch them:
- `ModeMap[mode]` raises KeyError for a mode outside the table other than
  OFF; DRY is such a mode. The attributes assigned before that line stay
  assigned, and nothing is sent.
- `dps(i) / 10.0` raises TypeError when datapoint 16 or 24 is missing or
  holds a string. It is raised before any attribute is assigned.

Temperatures are `real`. The target temperature is sent as
`int(t * 10)`, which truncates toward zero; it is not rounded.

To state round trips, `Applied` models what the device does with a payload.
This is an assumption about the device client, which is not part of this model: a
payload key `"16"` and a key `16` both write datapoint 16, and the
following status update reports the written values.

## Model

| member | source | states |
|---|---|---|
| PyValues.Truncate | custom_components/localtuya/climate.py:82 | `int(x)` truncates toward zero: the result is within one of x, on x's side of zero, and never further from zero than x |
| PyValues.AsNumber | custom_components/localtuya/climate.py:121-122 | a raw reading divides when it is an int (itself) or a bool (0 or 1); a string or a missing reading does not |
| PyValues.DecimalString | custom_components/localtuya/climate.py:82-87 | `str(IDX_...)` is a non-empty string of decimal digits, with no leading zero, and one digit exactly below 10 |
| PyValues.DecimalStringValue | custom_components/localtuya/climate.py:82-87 | `str(n)` spells n: the decimal value of its digits, read most significant first, is n |
| Climate.KeySpellings | custom_components/localtuya/climate.py:38-43 | the six datapoint indices are spelled "1", "2", "16", "24", "28", "34" as string keys |
| PyValues.Get | custom_components/localtuya/climate.py:119-124 | `dps(i)` gives the reported value, or None for a datapoint the device did not report |
| PyValues.Truthy | custom_components/localtuya/climate.py:126 | None, False, 0 and "" are falsy; every other bool, int and str is truthy |
| Climate.ModeItemsAreModeMap | custom_components/localtuya/climate.py:24-30 | the items scanned by `find_mode_key` are exactly the entries of `ModeMap`, and its five device strings are pairwise distinct |
| Climate.ReverseLookupInverts | custom_components/localtuya/climate.py:32-36 | over any table with distinct strings, the first-match lookup of an entry's string returns that entry's key |
| Climate.ReverseLookupFallback | custom_components/localtuya/climate.py:32-36 | a value that equals no string in the table gives COOL |
| Climate.ReverseLookupFrom | custom_components/localtuya/climate.py:32-36 | the lookup gives COOL or the key of an entry whose string equals the value |
| Climate.FindModeKeyInverts | custom_components/localtuya/climate.py:24-36 | `find_mode_key(ModeMap[m]) == m` for each of the five mapped modes |
| Climate.FindModeKeyDefault | custom_components/localtuya/climate.py:32-36 | any value other than "hot", "cold", "heat_floorheat", "floor_heat", "wind" (non-strings and None included) gives COOL |
| Climate.FindModeKeyInTable | custom_components/localtuya/climate.py:32-36 | the result is always a key of `ModeMap` and an advertised mode, and never OFF |
| Climate.FindModeKey | custom_components/localtuya/climate.py:32-36 | the loop over the items, with its early return, gives the first matching key, or COOL |
| Climate.ModeEntries | custom_components/localtuya/climate.py:91-99 | the mode's payload is exactly `{"1": false}` for OFF and `{"1": true, "2": ModeMap[m]}` for a mapped m; it exists exactly for the six advertised modes; any other mode raises KeyError |
| Climate.TemperaturePayload | custom_components/localtuya/climate.py:77-89 | "16" is present iff a temperature is given, holding `int(t*10)`. "1" is present iff a mode is given. "2" is present iff the mode is not OFF, holding its device string. No other key is present. An unmapped mode raises KeyError |
| Climate.SendDps | custom_components/localtuya/climate.py:89 | a payload is sent with `set_dps`, and an error sends nothing |
| Climate.Project | custom_components/localtuya/climate.py:117-134 | the projection fails with TypeError, naming the first bad datapoint, iff 16 or 24 is not a number. Otherwise the mode is OFF iff the switch is falsy, and is always advertised. The temperatures are the raw values divided by 10. Fan mode and humidity are copied unchanged |
| Climate.StatusModeFromTable | custom_components/localtuya/climate.py:126-127 | with the switch on, a mode datapoint holding `ModeMap[m]` projects to m |
| Climate.StatusModeUnknown | custom_components/localtuya/climate.py:126-127 | with the switch on, a mode datapoint holding no table string projects to COOL |
| Climate.ProjectKeepsUnwritten | custom_components/localtuya/climate.py:122-134 | a snapshot that agrees with a projectable one on datapoints 24, 28 and 34, and holds a number at 16, projects to the same attributes but for mode and target temperature |
| Climate.ProjectTargetReadBack | custom_components/localtuya/climate.py:121-131 | a snapshot holding `int(t*10)` at datapoint 16 sets the target temperature to the read-back of t |
| Climate.ProjectModeReadBack | custom_components/localtuya/climate.py:126-129 | a snapshot holding what a mode's entries write (the switch, and the device string unless OFF) projects to that mode |
| Climate.Applied | custom_components/localtuya/climate.py:89 | the device's snapshot after a payload: every one of the six climate datapoints the payload writes, by string key or int key, takes the written value, and every other datapoint keeps its value |
| Climate.ReadBack | custom_components/localtuya/climate.py:121 | a temperature sent as truncated tenths and read back as tenths lies within 0.1 of the requested one, on the side of zero |
| Climate.ReadBackTenths | custom_components/localtuya/climate.py:82 | a temperature in whole tenths is sent and read back unchanged |
| Climate.TemperaturePayloadWrites | custom_components/localtuya/climate.py:79-87 | the datapoints the `async_set_temperature` payload writes: 16 with the truncated tenths, 1 with the switch, 2 with the device string, and none of 24, 28, 34 |
| Climate.SetTemperatureThenStatus | custom_components/localtuya/climate.py:77-89 | after the device applies the payload of `async_set_temperature`, the status update reports the requested mode and the read-back temperature, and every other attribute is unchanged |
| Climate.ProjectAfterWrites | custom_components/localtuya/climate.py:117-134 | a snapshot that differs from a projectable one only by what the `async_set_temperature` payload writes reports the requested mode and the read-back temperature, and the old value of every other attribute |
| Climate.SetFanModeThenStatus | custom_components/localtuya/climate.py:101-107 | after the device applies the fan payload, the status update reports that fan mode, and every other attribute is unchanged |
| Climate.ProjectFanWritten | custom_components/localtuya/climate.py:117-134 | a snapshot that differs from a projectable one only at datapoint 28 reports the new fan mode and the old value of every other attribute |
| Climate.TemperatureExample | custom_components/localtuya/climate.py:82 | 21.5 is sent as `{"16": 215}`, and a snapshot holding 215 at datapoint 16 reads back as 21.5 |
| Climate.LocaltuyaClimate.constructor | custom_components/localtuya/climate.py:54-62 | a new entity has its datapoint id and every attribute unset |
| Climate.LocaltuyaClimate.SetTemperature | custom_components/localtuya/climate.py:77-89 | each given argument is recorded in its attribute, even when the mode then raises KeyError. An absent argument leaves its attribute unchanged, and the fan mode and current readings are untouched. The result is the `TemperaturePayload` sent with `set_dps`, or the KeyError |
| Climate.LocaltuyaClimate.SetHvacMode | custom_components/localtuya/climate.py:91-99 | the mode attribute becomes the argument and nothing else changes; the result is `ModeEntries(mode)` sent with `set_dps`, or the KeyError |
| Climate.LocaltuyaClimate.SetFanMode | custom_components/localtuya/climate.py:101-107 | the fan mode attribute becomes f and nothing else changes; the command is `set_dps({28: f})`, keyed by the int 28, with f unchanged |
| Climate.LocaltuyaClimate.TurnOn | custom_components/localtuya/climate.py:109-111 | sends true on the entity's own datapoint and changes no attribute |
| Climate.LocaltuyaClimate.TurnOff | custom_components/localtuya/climate.py:113-115 | sends false on the entity's own datapoint and changes no attribute |
| Climate.LocaltuyaClimate.StatusUpdated | custom_components/localtuya/climate.py:117-134 | on TypeError no attribute changes. Otherwise all five attributes become the projection of the snapshot, with the mode found by `FindModeKey` |

## Left out

- The device I/O: `set_dps` and `set_dp` are calls into the device client, which is not part of this model. Each command returns the call it would make.
- The async/await machinery, and any ordering between concurrent commands.
- The Home Assistant base classes (`LocalTuyaEntity`, `ClimateEntity`), `super().__init__`, and logging. These are foreign code. `dps(i)` is modelled as a lookup in a snapshot keyed by datapoint index, giving None for a datapoint the device did not report.
- Floating point: temperatures are exact reals. Python rounds the float product `t * 10` to a float before `int()` truncates it; the model multiplies exactly. The two differ for a float just short of a whole tenth in magnitude, when its rounded product reaches the whole number. There `Truncate` gives the integer one step nearer zero than Python does: one less for a positive temperature, one more for a negative one.
- Datapoint values are bools, ints and strings. A float reading is not modelled.
- The constant metadata set in `__init__` (lines 63-75): feature flags, unit, step, precision, the fan-mode list, and the 15-40 bounds. No method enforces any of them. The advertised mode list (line 70) is kept as `AdvertisedModes`.
- `flow_schema`, which returns an empty dict, and the `async_setup_entry` partial. Both are plugin-registration glue.
- The device's handling of a payload (`Applied`) is an assumption about the device client, which is not part of this model. It covers only the six climate datapoints.
