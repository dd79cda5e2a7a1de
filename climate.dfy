/**
 * The LocalTuya climate platform: a fixed table between Home Assistant's
 * HVAC modes and the device's mode strings, the payloads that the entity's
 * commands send to the device, and the projection of a datapoint snapshot
 * onto the entity's attributes.
 */
module Climate {
  import opened PyValues

  /** Home Assistant's HVAC modes. DRY is not in the table and is not advertised. */
  datatype HVACMode = Off | Heat | Cool | HeatCool | Auto | Dry | FanOnly

  /** `ModeMap`: the device string for each mode the device knows. OFF has none. */
  const ModeMap: map<HVACMode, string> :=
    map[Heat := "hot", Cool := "cold", Auto := "heat_floorheat",
        HeatCool := "floor_heat", FanOnly := "wind"]

  /** The same table as `ModeMap.items()` yields it, in insertion order. */
  const ModeItems: seq<(HVACMode, string)> :=
    [(Heat, "hot"), (Cool, "cold"), (Auto, "heat_floorheat"),
     (HeatCool, "floor_heat"), (FanOnly, "wind")]

  /** The modes the entity advertises (`_attr_hvac_modes`). */
  const AdvertisedModes: seq<HVACMode> := [Off, Heat, Cool, Auto, HeatCool, FanOnly]

  const IdxSwitch: nat := 1
  const IdxMode: nat := 2
  const IdxTempSet: nat := 16
  const IdxTempCurrent: nat := 24
  const IdxLevel: nat := 28
  const IdxHumidity: nat := 34

  /** The keys written as `str(IDX_...)`. */
  const SwitchKey: Key := StrKey(DecimalString(IdxSwitch))
  const ModeKey: Key := StrKey(DecimalString(IdxMode))
  const TempSetKey: Key := StrKey(DecimalString(IdxTempSet))
  /** `async_set_fan_mode` keys its payload by the bare int. */
  const LevelKey: Key := IntKey(IdxLevel)

  /** The exceptions the adapter can raise: `ModeMap[m]`, and `dps(i) / 10.0`. */
  datatype Error = KeyError(mode: HVACMode) | TypeError(index: nat)

  datatype Result<+T> = Success(value: T) | Failure(error: Error)

  datatype Outcome = Pass | Fail(error: Error)

  /** What a command hands to the device client: `set_dps(payload)` or `set_dp(value, dp_id)`. */
  datatype Command = SetDps(payload: Payload) | SetDp(on: bool, dp: Key)

  /** The entity attributes this platform writes; None is Home Assistant's unset default. */
  datatype EntityState = EntityState(
    hvacMode: Option<HVACMode>,
    targetTemperature: Option<real>,
    currentTemperature: Option<real>,
    fanMode: Option<Value>,
    currentHumidity: Option<Value>)

  lemma KeySpellings()
    ensures DecimalString(IdxSwitch) == "1" && DecimalString(IdxMode) == "2"
    ensures DecimalString(IdxTempSet) == "16" && DecimalString(IdxTempCurrent) == "24"
    ensures DecimalString(IdxLevel) == "28" && DecimalString(IdxHumidity) == "34"
  {
  }

  // ---------------------------------------------------------------------
  // Reverse lookup in the mode table

  predicate DistinctStrings(items: seq<(HVACMode, string)>) {
    forall i, j :: 0 <= i < j < |items| ==> items[i].1 != items[j].1
  }

  /** The first key whose device string equals `value`, COOL when there is none. */
  function ReverseLookup(items: seq<(HVACMode, string)>, value: Option<Value>): HVACMode {
    if items == [] then Cool
    else if Some(StrVal(items[0].1)) == value then items[0].0
    else ReverseLookup(items[1..], value)
  }

  /** With distinct device strings, reverse lookup of an entry's string gives its key. */
  lemma {:induction false} ReverseLookupInverts(items: seq<(HVACMode, string)>, i: nat)
    requires DistinctStrings(items)
    requires i < |items|
    ensures ReverseLookup(items, Some(StrVal(items[i].1))) == items[i].0
  {
    if i > 0 {
      assert items[0].1 != items[i].1;
      assert DistinctStrings(items[1..]) by {
        forall a, b | 0 <= a < b < |items[1..]| ensures items[1..][a].1 != items[1..][b].1 {
          assert items[1..][a] == items[a + 1] && items[1..][b] == items[b + 1];
        }
      }
      ReverseLookupInverts(items[1..], i - 1);
      assert items[1..][i - 1] == items[i];
    }
  }

  /** A value equal to no device string falls back to COOL. */
  lemma {:induction false} ReverseLookupFallback(items: seq<(HVACMode, string)>, value: Option<Value>)
    requires forall i :: 0 <= i < |items| ==> Some(StrVal(items[i].1)) != value
    ensures ReverseLookup(items, value) == Cool
  {
    if items != [] {
      assert Some(StrVal(items[0].1)) != value;
      forall i | 0 <= i < |items[1..]| ensures Some(StrVal(items[1..][i].1)) != value {
        assert items[1..][i] == items[i + 1];
      }
      ReverseLookupFallback(items[1..], value);
    }
  }

  /** The result is COOL or the key of an entry whose string is `value`. */
  lemma {:induction false} ReverseLookupFrom(items: seq<(HVACMode, string)>, value: Option<Value>)
    ensures ReverseLookup(items, value) == Cool ||
            exists i :: 0 <= i < |items| && items[i].0 == ReverseLookup(items, value) &&
                        Some(StrVal(items[i].1)) == value
  {
    if items != [] && Some(StrVal(items[0].1)) != value {
      ReverseLookupFrom(items[1..], value);
      if ReverseLookup(items, value) != Cool {
        var i :| 0 <= i < |items[1..]| && items[1..][i].0 == ReverseLookup(items, value) &&
                 Some(StrVal(items[1..][i].1)) == value;
        assert items[i + 1] == items[1..][i];
      }
    }
  }

  /** `ModeItems` lists exactly `ModeMap`, and its device strings are distinct. */
  lemma ModeItemsAreModeMap()
    ensures DistinctStrings(ModeItems)
    ensures forall i :: 0 <= i < |ModeItems| ==>
              ModeItems[i].0 in ModeMap && ModeMap[ModeItems[i].0] == ModeItems[i].1
    ensures forall m :: m in ModeMap ==> exists i :: 0 <= i < |ModeItems| && ModeItems[i].0 == m
  {
    assert ModeItems[0].0 == Heat && ModeItems[1].0 == Cool && ModeItems[2].0 == Auto;
    assert ModeItems[3].0 == HeatCool && ModeItems[4].0 == FanOnly;
  }

  /** `find_mode_key(ModeMap[m]) == m` for every mode in the table. */
  lemma FindModeKeyInverts(m: HVACMode)
    requires m in ModeMap
    ensures ReverseLookup(ModeItems, Some(StrVal(ModeMap[m]))) == m
  {
    // Dafny can evaluate the five cases directly; the proof goes through the
    // general inversion lemma to show that distinct device strings are why it holds.
    ModeItemsAreModeMap();
    var i :| 0 <= i < |ModeItems| && ModeItems[i].0 == m;
    ReverseLookupInverts(ModeItems, i);
  }

  /** `find_mode_key` of anything but the five device strings is COOL. */
  lemma FindModeKeyDefault(value: Option<Value>)
    requires value != Some(StrVal("hot")) && value != Some(StrVal("cold"))
    requires value != Some(StrVal("heat_floorheat")) && value != Some(StrVal("floor_heat"))
    requires value != Some(StrVal("wind"))
    ensures ReverseLookup(ModeItems, value) == Cool
  {
    ReverseLookupFallback(ModeItems, value);
  }

  /** `find_mode_key` always returns a key of `ModeMap`, never OFF, and an advertised mode. */
  lemma FindModeKeyInTable(value: Option<Value>)
    ensures ReverseLookup(ModeItems, value) in ModeMap
    ensures ReverseLookup(ModeItems, value) != Off
    ensures ReverseLookup(ModeItems, value) in AdvertisedModes
  {
    ReverseLookupFrom(ModeItems, value);
    ModeItemsAreModeMap();
  }

  /** `find_mode_key`: scan the table in order and return the first key whose string matches. */
  method FindModeKey(value: Option<Value>) returns (key: HVACMode)
    ensures key == ReverseLookup(ModeItems, value)
  {
    for i := 0 to |ModeItems|
      invariant ReverseLookup(ModeItems[i..], value) == ReverseLookup(ModeItems, value)
    {
      assert ModeItems[i..][1..] == ModeItems[i + 1..];
      if Some(StrVal(ModeItems[i].1)) == value {
        return ModeItems[i].0;
      }
    }
    return Cool;
  }

  // ---------------------------------------------------------------------
  // Command payloads

  /**
   * The entries a mode adds to a payload: the switch, on unless the mode is
   * OFF, and the device's mode string unless the mode is OFF. A mode outside
   * the table other than OFF raises KeyError.
   */
  function ModeEntries(m: HVACMode): (r: Result<Payload>)
    ensures r.Success? <==> m in AdvertisedModes
    ensures r.Failure? ==> r.error == KeyError(m)
    ensures m == Off ==> r == Success(map[StrKey("1") := BoolVal(false)])
    ensures m in ModeMap ==>
              r == Success(map[StrKey("1") := BoolVal(true), StrKey("2") := StrVal(ModeMap[m])])
  {
    KeySpellings();
    var switched := map[SwitchKey := BoolVal(m != Off)];
    if m == Off then Success(switched)
    else if m in ModeMap then Success(switched[ModeKey := StrVal(ModeMap[m])])
    else Failure(KeyError(m))
  }

  /**
   * The payload of `async_set_temperature`: the target temperature in tenths,
   * truncated, when one is given, and the mode's entries when a mode is given.
   */
  function TemperaturePayload(t: Option<real>, m: Option<HVACMode>): (r: Result<Payload>)
    ensures r.Success? <==> m.None? || m.value in AdvertisedModes
    ensures r.Failure? ==> r.error == KeyError(m.value)
    ensures r.Success? ==> r.value.Keys <= {TempSetKey, SwitchKey, ModeKey}
    ensures r.Success? ==> (TempSetKey in r.value <==> t.Some?)
    ensures r.Success? && t.Some? ==> r.value[TempSetKey] == IntVal(Truncate(t.value * 10.0))
    ensures r.Success? ==> (SwitchKey in r.value <==> m.Some?)
    ensures r.Success? && m.Some? ==> r.value[SwitchKey] == BoolVal(m.value != Off)
    ensures r.Success? ==> (ModeKey in r.value <==> m.Some? && m.value != Off)
    ensures r.Success? && ModeKey in r.value ==> r.value[ModeKey] == StrVal(ModeMap[m.value])
  {
    KeySpellings();
    var temperature: Payload :=
      if t.Some? then map[TempSetKey := IntVal(Truncate(t.value * 10.0))] else map[];
    if m.None? then Success(temperature)
    else match ModeEntries(m.value)
      case Success(entries) => Success(temperature + entries)
      case Failure(e) => Failure(e)
  }

  /** A payload result as the command that sends it. */
  function SendDps(r: Result<Payload>): (c: Result<Command>)
    ensures c.Success? <==> r.Success?
    ensures c.Success? ==> c.value == SetDps(r.value)
    ensures c.Failure? ==> c.error == r.error
  {
    match r
    case Success(p) => Success(SetDps(p))
    case Failure(e) => Failure(e)
  }

  // ---------------------------------------------------------------------
  // Status projection

  /**
   * `status_updated` as a function of the snapshot. The temperatures are the
   * raw readings divided by ten; a missing or string reading raises TypeError
   * before any attribute is written. The mode is OFF exactly when the switch
   * datapoint is falsy, and otherwise the reverse lookup of the mode datapoint.
   */
  function Project(dps: Snapshot): (r: Result<EntityState>)
    ensures r.Success? <==> AsNumber(Get(dps, IdxTempSet)).Some? &&
                            AsNumber(Get(dps, IdxTempCurrent)).Some?
    ensures r.Failure? ==>
              r.error == TypeError(if AsNumber(Get(dps, IdxTempSet)).None? then IdxTempSet
                                   else IdxTempCurrent)
    ensures r.Success? ==> r.value.hvacMode.Some? && r.value.hvacMode.value in AdvertisedModes
    ensures r.Success? ==> (r.value.hvacMode == Some(Off) <==> !Truthy(Get(dps, IdxSwitch)))
    ensures r.Success? ==>
              r.value.targetTemperature == Some(AsNumber(Get(dps, IdxTempSet)).value as real / 10.0) &&
              r.value.currentTemperature == Some(AsNumber(Get(dps, IdxTempCurrent)).value as real / 10.0)
    ensures r.Success? ==>
              r.value.fanMode == Get(dps, IdxLevel) && r.value.currentHumidity == Get(dps, IdxHumidity)
  {
    var tempSet := AsNumber(Get(dps, IdxTempSet));
    var tempCur := AsNumber(Get(dps, IdxTempCurrent));
    if tempSet.None? then Failure(TypeError(IdxTempSet))
    else if tempCur.None? then Failure(TypeError(IdxTempCurrent))
    else
      FindModeKeyInTable(Get(dps, IdxMode));
      var mode := if Truthy(Get(dps, IdxSwitch)) then ReverseLookup(ModeItems, Get(dps, IdxMode)) else Off;
      Success(EntityState(Some(mode), Some(tempSet.value as real / 10.0), Some(tempCur.value as real / 10.0),
                          Get(dps, IdxLevel), Get(dps, IdxHumidity)))
  }

  /** With the switch on, a mode datapoint holding a table string projects to that string's mode. */
  lemma StatusModeFromTable(dps: Snapshot, m: HVACMode)
    requires Project(dps).Success?
    requires Truthy(Get(dps, IdxSwitch))
    requires m in ModeMap && Get(dps, IdxMode) == Some(StrVal(ModeMap[m]))
    ensures Project(dps).value.hvacMode == Some(m)
  {
    FindModeKeyInverts(m);
  }

  /** With the switch on, an unknown mode datapoint projects to COOL. */
  lemma StatusModeUnknown(dps: Snapshot)
    requires Project(dps).Success?
    requires Truthy(Get(dps, IdxSwitch))
    requires forall m :: m in ModeMap ==> Get(dps, IdxMode) != Some(StrVal(ModeMap[m]))
    ensures Project(dps).value.hvacMode == Some(Cool)
  {
    assert Heat in ModeMap && Cool in ModeMap && Auto in ModeMap;
    assert HeatCool in ModeMap && FanOnly in ModeMap;
    FindModeKeyDefault(Get(dps, IdxMode));
  }

  // ---------------------------------------------------------------------
  // The device's side of a payload, and the round trips through it

  /** The datapoints of this device. */
  const ClimateDps: set<nat> := {IdxSwitch, IdxMode, IdxTempSet, IdxTempCurrent, IdxLevel, IdxHumidity}

  /** The value a payload writes to datapoint i, under its string key or its int key. */
  function Written(p: Payload, i: nat): Option<Value> {
    if StrKey(DecimalString(i)) in p then Some(p[StrKey(DecimalString(i))])
    else if IntKey(i) in p then Some(p[IntKey(i)])
    else None
  }

  /**
   * The snapshot the device reports once it has applied a payload: every
   * datapoint of the device that the payload writes takes the written value,
   * every other datapoint keeps its value.
   */
  function Applied(s: Snapshot, p: Payload): (s': Snapshot)
    ensures forall i :: Get(s', i) == if i in ClimateDps && Written(p, i).Some? then Written(p, i) else Get(s, i)
  {
    map i | i in s.Keys + (set j | j in ClimateDps && Written(p, j).Some?) ::
      if i in ClimateDps && Written(p, i).Some? then Written(p, i).value else s[i]
  }

  /** The target temperature the entity reads back for a requested one: whole tenths, truncated. */
  function ReadBack(t: real): (r: real)
    ensures 0.0 <= t ==> t - 0.1 < r <= t
    ensures t < 0.0 ==> t <= r < t + 0.1
  {
    Truncate(t * 10.0) as real / 10.0
  }

  /** A temperature in whole tenths reads back unchanged (21.5 is sent as 215 and read as 21.5). */
  lemma ReadBackTenths(k: int)
    ensures Truncate(k as real / 10.0 * 10.0) == k
    ensures ReadBack(k as real / 10.0) == k as real / 10.0
  {
  }

  /** What the payload of `async_set_temperature` writes to each datapoint of the device. */
  lemma TemperaturePayloadWrites(t: Option<real>, m: Option<HVACMode>)
    requires TemperaturePayload(t, m).Success?
    ensures var p := TemperaturePayload(t, m).value;
            Written(p, IdxTempCurrent).None? && Written(p, IdxLevel).None? && Written(p, IdxHumidity).None? &&
            Written(p, IdxTempSet) == (if t.Some? then Some(IntVal(Truncate(t.value * 10.0))) else None) &&
            Written(p, IdxSwitch) == (if m.Some? then Some(BoolVal(m.value != Off)) else None) &&
            Written(p, IdxMode) == (if m.Some? && m.value != Off then Some(StrVal(ModeMap[m.value])) else None)
  {
    KeySpellings();
  }

  /**
   * What `async_set_temperature` promises, once the device has applied the
   * payload: the following status update reports the requested mode and the
   * requested temperature in truncated tenths, and nothing else changes.
   */
  lemma SetTemperatureThenStatus(s: Snapshot, t: Option<real>, m: Option<HVACMode>)
    requires TemperaturePayload(t, m).Success?
    requires Project(s).Success?
    ensures Project(Applied(s, TemperaturePayload(t, m).value)) ==
            Success(Project(s).value.(
              hvacMode := if m.Some? then m else Project(s).value.hvacMode,
              targetTemperature := if t.Some? then Some(ReadBack(t.value)) else Project(s).value.targetTemperature))
  {
    var s' := Applied(s, TemperaturePayload(t, m).value);
    TemperaturePayloadWrites(t, m);
    assert Get(s', IdxTempCurrent) == Get(s, IdxTempCurrent);
    assert Get(s', IdxLevel) == Get(s, IdxLevel);
    assert Get(s', IdxHumidity) == Get(s, IdxHumidity);
    assert Get(s', IdxTempSet) == if t.Some? then Some(IntVal(Truncate(t.value * 10.0))) else Get(s, IdxTempSet);
    assert Get(s', IdxSwitch) == if m.Some? then Some(BoolVal(m.value != Off)) else Get(s, IdxSwitch);
    assert Get(s', IdxMode) == if m.Some? && m.value != Off then Some(StrVal(ModeMap[m.value])) else Get(s, IdxMode);
    ProjectAfterWrites(s, s', t, m);
  }

  /**
   * A snapshot that differs from a projectable one only by what the payload
   * of `async_set_temperature` writes projects to the requested mode and the
   * read-back temperature, and to the old attributes otherwise.
   */
  lemma ProjectAfterWrites(s: Snapshot, s': Snapshot, t: Option<real>, m: Option<HVACMode>)
    requires Project(s).Success?
    requires m.Some? ==> m.value in AdvertisedModes
    requires Get(s', IdxTempCurrent) == Get(s, IdxTempCurrent)
    requires Get(s', IdxLevel) == Get(s, IdxLevel) && Get(s', IdxHumidity) == Get(s, IdxHumidity)
    requires Get(s', IdxTempSet) == if t.Some? then Some(IntVal(Truncate(t.value * 10.0))) else Get(s, IdxTempSet)
    requires Get(s', IdxSwitch) == if m.Some? then Some(BoolVal(m.value != Off)) else Get(s, IdxSwitch)
    requires Get(s', IdxMode) == if m.Some? && m.value != Off then Some(StrVal(ModeMap[m.value])) else Get(s, IdxMode)
    ensures Project(s') ==
            Success(Project(s).value.(
              hvacMode := if m.Some? then m else Project(s).value.hvacMode,
              targetTemperature := if t.Some? then Some(ReadBack(t.value)) else Project(s).value.targetTemperature))
  {
    ProjectKeepsUnwritten(s, s');
    var r := Project(s).value;
    var mode := if m.Some? then m else r.hvacMode;
    var target := if t.Some? then Some(ReadBack(t.value)) else r.targetTemperature;
    if t.Some? {
      ProjectTargetReadBack(s', t.value);
    }
    assert Project(s').value.targetTemperature == target;
    if m.Some? {
      ProjectModeReadBack(s', m.value);
    }
    assert Project(s').value.hvacMode == mode;
  }

  /** A snapshot holding a temperature's truncated tenths at datapoint 16 projects to its read-back. */
  lemma ProjectTargetReadBack(s': Snapshot, t: real)
    requires Project(s').Success?
    requires Get(s', IdxTempSet) == Some(IntVal(Truncate(t * 10.0)))
    ensures Project(s').value.targetTemperature == Some(ReadBack(t))
  {
  }

  /** A snapshot holding what a mode's entries write projects to that mode. */
  lemma ProjectModeReadBack(s': Snapshot, m: HVACMode)
    requires Project(s').Success?
    requires m in AdvertisedModes
    requires Get(s', IdxSwitch) == Some(BoolVal(m != Off))
    requires m != Off ==> Get(s', IdxMode) == Some(StrVal(ModeMap[m]))
    ensures Project(s').value.hvacMode == Some(m)
  {
    // For a mapped mode this is the table's inversion, named here as the reason.
    if m != Off {
      FindModeKeyInverts(m);
    }
  }

  /**
   * A snapshot that agrees with a projectable one on datapoints 24, 28 and 34
   * and holds a number at 16 projects to the same state but for mode and
   * target temperature.
   */
  lemma ProjectKeepsUnwritten(s: Snapshot, s': Snapshot)
    requires Project(s).Success?
    requires Get(s', IdxTempCurrent) == Get(s, IdxTempCurrent)
    requires Get(s', IdxLevel) == Get(s, IdxLevel) && Get(s', IdxHumidity) == Get(s, IdxHumidity)
    requires AsNumber(Get(s', IdxTempSet)).Some?
    ensures Project(s').Success?
    ensures Project(s').value == Project(s).value.(hvacMode := Project(s').value.hvacMode,
                                                   targetTemperature := Project(s').value.targetTemperature)
  {
  }

  /** `async_set_fan_mode`'s payload reads back as the same fan mode, and nothing else changes. */
  lemma SetFanModeThenStatus(s: Snapshot, fan: string)
    requires Project(s).Success?
    ensures Project(Applied(s, map[LevelKey := StrVal(fan)])) ==
            Success(Project(s).value.(fanMode := Some(StrVal(fan))))
  {
    var p := map[LevelKey := StrVal(fan)];
    var s' := Applied(s, p);
    KeySpellings();
    assert Get(s', IdxLevel) == Some(StrVal(fan));
    assert Get(s', IdxTempSet) == Get(s, IdxTempSet);
    assert Get(s', IdxTempCurrent) == Get(s, IdxTempCurrent);
    assert Get(s', IdxHumidity) == Get(s, IdxHumidity);
    assert Get(s', IdxSwitch) == Get(s, IdxSwitch);
    assert Get(s', IdxMode) == Get(s, IdxMode);
    ProjectFanWritten(s, s', fan);
  }

  /** A snapshot that differs from a projectable one only at datapoint 28 projects to the new fan mode. */
  lemma ProjectFanWritten(s: Snapshot, s': Snapshot, fan: string)
    requires Project(s).Success?
    requires Get(s', IdxLevel) == Some(StrVal(fan))
    requires Get(s', IdxTempSet) == Get(s, IdxTempSet) && Get(s', IdxTempCurrent) == Get(s, IdxTempCurrent)
    requires Get(s', IdxHumidity) == Get(s, IdxHumidity)
    requires Get(s', IdxSwitch) == Get(s, IdxSwitch) && Get(s', IdxMode) == Get(s, IdxMode)
    ensures Project(s') == Success(Project(s).value.(fanMode := Some(StrVal(fan))))
  {
  }

  /** An example: 21.5 is sent as 215, and 215 reads back as 21.5. */
  lemma TemperatureExample(s: Snapshot)
    requires IdxTempCurrent in s && s[IdxTempCurrent].IntVal?
    ensures TemperaturePayload(Some(21.5), None) == Success(map[StrKey("16") := IntVal(215)])
    ensures Project(s[IdxTempSet := IntVal(215)]).Success?
    ensures Project(s[IdxTempSet := IntVal(215)]).value.targetTemperature == Some(21.5)
  {
    KeySpellings();
    ReadBackTenths(215);
    assert 21.5 == 215 as real / 10.0;
  }

  // ---------------------------------------------------------------------
  // The entity

  /** `LocaltuyaClimate`: the entity's attributes, and its commands as the payloads they send. */
  class LocaltuyaClimate {
    /** The entity's own on/off datapoint (`self._dp_id`), fixed by its configuration. */
    const dpId: Key

    var hvacMode: Option<HVACMode>
    var targetTemperature: Option<real>
    var currentTemperature: Option<real>
    var fanMode: Option<Value>
    var currentHumidity: Option<Value>

    function State(): EntityState
      reads this
    {
      EntityState(hvacMode, targetTemperature, currentTemperature, fanMode, currentHumidity)
    }

    constructor (dpId: Key)
      ensures this.dpId == dpId
      ensures State() == EntityState(None, None, None, None, None)
    {
      this.dpId := dpId;
      hvacMode, targetTemperature, currentTemperature := None, None, None;
      fanMode, currentHumidity := None, None;
    }

    /**
     * `async_set_temperature`. Each given argument is recorded before the
     * payload is complete, so a KeyError for an unmapped mode leaves both
     * attributes already written and sends nothing.
     */
    method SetTemperature(temperature: Option<real>, mode: Option<HVACMode>) returns (r: Result<Command>)
      modifies this
      ensures State() == old(State()).(
                targetTemperature := if temperature.Some? then temperature else old(targetTemperature),
                hvacMode := if mode.Some? then mode else old(hvacMode))
      ensures r == SendDps(TemperaturePayload(temperature, mode))
    {
      KeySpellings();
      var payload: Payload := map[];
      if temperature.Some? {
        targetTemperature := temperature;
        payload := payload[TempSetKey := IntVal(Truncate(temperature.value * 10.0))];
      }
      if mode.Some? {
        hvacMode := mode;
        payload := payload[SwitchKey := BoolVal(mode.value != Off)];
        if mode.value != Off {
          if mode.value !in ModeMap {
            return Failure(KeyError(mode.value));
          }
          payload := payload[ModeKey := StrVal(ModeMap[mode.value])];
        }
      }
      assert payload == TemperaturePayload(temperature, mode).value;
      return Success(SetDps(payload));
    }

    /** `async_set_hvac_mode`: the mode is recorded first; the payload is the mode's entries. */
    method SetHvacMode(mode: HVACMode) returns (r: Result<Command>)
      modifies this
      ensures State() == old(State()).(hvacMode := Some(mode))
      ensures r == SendDps(ModeEntries(mode))
    {
      KeySpellings();
      var payload: Payload := map[];
      hvacMode := Some(mode);
      payload := payload[SwitchKey := BoolVal(mode != Off)];
      if mode != Off {
        if mode !in ModeMap {
          return Failure(KeyError(mode));
        }
        payload := payload[ModeKey := StrVal(ModeMap[mode])];
      }
      return Success(SetDps(payload));
    }

    /** `async_set_fan_mode`: the fan mode passes through unchanged under the int key 28. */
    method SetFanMode(fan: string) returns (c: Command)
      modifies this
      ensures State() == old(State()).(fanMode := Some(StrVal(fan)))
      ensures c == SetDps(map[IntKey(28) := StrVal(fan)])
    {
      fanMode := Some(StrVal(fan));
      var payload := map[LevelKey := StrVal(fan)];
      c := SetDps(payload);
    }

    /** `async_turn_on`: true on the entity's own datapoint; no attribute changes. */
    method TurnOn() returns (c: Command)
      ensures c.SetDp? && c.on && c.dp == dpId
    {
      c := SetDp(true, dpId);
    }

    /** `async_turn_off`: false on the entity's own datapoint; no attribute changes. */
    method TurnOff() returns (c: Command)
      ensures c.SetDp? && !c.on && c.dp == dpId
    {
      c := SetDp(false, dpId);
    }

    /**
     * `status_updated`: all six datapoints are read first, so a reading that
     * cannot be divided raises before any attribute is written; otherwise
     * every attribute is replaced by its projection.
     */
    method StatusUpdated(dps: Snapshot) returns (r: Outcome)
      modifies this
      ensures Project(dps).Failure? ==> r == Fail(Project(dps).error) && State() == old(State())
      ensures Project(dps).Success? ==> r == Pass && State() == Project(dps).value
    {
      var switch := Get(dps, IdxSwitch);
      var mode := Get(dps, IdxMode);
      var rawSet := AsNumber(Get(dps, IdxTempSet));
      if rawSet.None? {
        return Fail(TypeError(IdxTempSet));
      }
      var tempSet := rawSet.value as real / 10.0;
      var rawCur := AsNumber(Get(dps, IdxTempCurrent));
      if rawCur.None? {
        return Fail(TypeError(IdxTempCurrent));
      }
      var tempCur := rawCur.value as real / 10.0;
      var level := Get(dps, IdxLevel);
      var humidity := Get(dps, IdxHumidity);

      if Truthy(switch) {
        var key := FindModeKey(mode);
        hvacMode := Some(key);
      } else {
        hvacMode := Some(Off);
      }
      targetTemperature := Some(tempSet);
      currentTemperature := Some(tempCur);
      fanMode := level;
      currentHumidity := humidity;
      return Pass;
    }
  }
}
