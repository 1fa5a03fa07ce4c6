/** The static translation between the chamber controller's register tags
    and the client's readable parameter names. */
module TagDictionary {
  import opened PyValues

  /** The forward table, tag to parameter, with its entries in the order of
      the class attribute. `PV_4` is listed twice; as in a Python dict
      display, the later entry replaces the earlier one, so `PV_4` means
      `light_meter` and `lighting_sensor` is in no entry of the map. */
  const TagMap: map<string, string> := map[
    // sensor readings
    "PV_1" := "temperature_actual",
    "PV_2" := "humidity_actual",
    "PV_3" := "co2_actual",
    "PV_4" := "lighting_sensor",
    "PV_5" := "watering_actual",
    // write command tags
    "CM_SP_1_Manual" := "temperature_target",
    "CM_SP_2_Manual" := "humidity_target",
    "CM_SP_3_Manual" := "co2_target",
    "CM_SP_5_Manual" := "watering_target",
    // lighting
    "EO_1_On_Off" := "lighting_1_on",
    "EO_2_On_Off" := "lighting_2_on",
    "EO_1_Dim" := "lighting_1",
    "EO_2_Dim" := "lighting_2",
    "EO_3_Dim" := "lighting_3",
    "EO_4_Dim" := "lighting_4",
    "EO_5_Dim" := "lighting_5",
    "EO_6_Dim" := "lighting_6",
    "EO_7_Dim" := "lighting_7",
    "PV_4" := "light_meter",
    // humidity enable/disable
    "CLC_Enable_Rh_1" := "humidification_enabled",
    "CLC_Enable_Rh_2" := "dehumidification_enabled",
    // door, air diverter, curtain
    "EO_13_On_Off" := "door_state",
    "EO_14_On_Off" := "air_diverter_state",
    "EO_15_On_Off" := "curtain_state",
    // chamber mode
    "CM_NON_RAMPING_MODE" := "operating_mode",
    // clock
    "Real_Time_Hour" := "hour",
    "Real_Time_Minute" := "minute",
    "Real_Time_Second" := "second"
  ]

  /** No two keys share a value. */
  ghost predicate Injective(m: map<string, string>) {
    forall k1, k2 :: k1 in m && k2 in m && k1 != k2 ==> m[k1] != m[k2]
  }

  /** `{v: k for k, v in m.items()}`. Python keeps whichever key it meets
      last for a repeated value; on an injective map there is only one. */
  function Invert(m: map<string, string>): (r: map<string, string>)
    requires Injective(m)
    ensures r.Keys == m.Values
    ensures forall k :: k in m ==> r[m[k]] == k
    ensures forall v :: v in r ==> r[v] in m && m[r[v]] == v
  {
    map v | v in m.Values :: var k :| k in m && m[k] == v; k
  }

  ghost const TagOfParameter: map<string, string> := map[
    "temperature_actual" := "PV_1",
    "humidity_actual" := "PV_2",
    "co2_actual" := "PV_3",
    "light_meter" := "PV_4",
    "watering_actual" := "PV_5",
    "temperature_target" := "CM_SP_1_Manual",
    "humidity_target" := "CM_SP_2_Manual",
    "co2_target" := "CM_SP_3_Manual",
    "watering_target" := "CM_SP_5_Manual",
    "lighting_1_on" := "EO_1_On_Off",
    "lighting_2_on" := "EO_2_On_Off",
    "lighting_1" := "EO_1_Dim",
    "lighting_2" := "EO_2_Dim",
    "lighting_3" := "EO_3_Dim",
    "lighting_4" := "EO_4_Dim",
    "lighting_5" := "EO_5_Dim",
    "lighting_6" := "EO_6_Dim",
    "lighting_7" := "EO_7_Dim",
    "humidification_enabled" := "CLC_Enable_Rh_1",
    "dehumidification_enabled" := "CLC_Enable_Rh_2",
    "door_state" := "EO_13_On_Off",
    "air_diverter_state" := "EO_14_On_Off",
    "curtain_state" := "EO_15_On_Off",
    "operating_mode" := "CM_NON_RAMPING_MODE",
    "hour" := "Real_Time_Hour",
    "minute" := "Real_Time_Minute",
    "second" := "Real_Time_Second"
  ]

  lemma SensorEntries()
    ensures "PV_1" in TagMap && TagMap["PV_1"] == "temperature_actual"
    ensures "PV_2" in TagMap && TagMap["PV_2"] == "humidity_actual"
    ensures "PV_3" in TagMap && TagMap["PV_3"] == "co2_actual"
    ensures "PV_4" in TagMap && TagMap["PV_4"] == "light_meter"
    ensures "PV_5" in TagMap && TagMap["PV_5"] == "watering_actual"
  {
  }

  lemma SensorInverse()
    ensures "temperature_actual" in TagOfParameter && TagOfParameter["temperature_actual"] == "PV_1"
    ensures "humidity_actual" in TagOfParameter && TagOfParameter["humidity_actual"] == "PV_2"
    ensures "co2_actual" in TagOfParameter && TagOfParameter["co2_actual"] == "PV_3"
    ensures "light_meter" in TagOfParameter && TagOfParameter["light_meter"] == "PV_4"
    ensures "watering_actual" in TagOfParameter && TagOfParameter["watering_actual"] == "PV_5"
  {
  }

  lemma SensorRecovered()
    ensures forall k :: k in {"PV_1", "PV_2", "PV_3", "PV_4", "PV_5"} ==> TagMap[k] in TagOfParameter && TagOfParameter[TagMap[k]] == k
  {
    SensorEntries();
    SensorInverse();
  }

  lemma SetPointEntries()
    ensures "CM_SP_1_Manual" in TagMap && TagMap["CM_SP_1_Manual"] == "temperature_target"
    ensures "CM_SP_2_Manual" in TagMap && TagMap["CM_SP_2_Manual"] == "humidity_target"
    ensures "CM_SP_3_Manual" in TagMap && TagMap["CM_SP_3_Manual"] == "co2_target"
    ensures "CM_SP_5_Manual" in TagMap && TagMap["CM_SP_5_Manual"] == "watering_target"
  {
  }

  lemma SetPointInverse()
    ensures "temperature_target" in TagOfParameter && TagOfParameter["temperature_target"] == "CM_SP_1_Manual"
    ensures "humidity_target" in TagOfParameter && TagOfParameter["humidity_target"] == "CM_SP_2_Manual"
    ensures "co2_target" in TagOfParameter && TagOfParameter["co2_target"] == "CM_SP_3_Manual"
    ensures "watering_target" in TagOfParameter && TagOfParameter["watering_target"] == "CM_SP_5_Manual"
  {
  }

  lemma SetPointRecovered()
    ensures forall k :: k in {"CM_SP_1_Manual", "CM_SP_2_Manual", "CM_SP_3_Manual", "CM_SP_5_Manual"} ==> TagMap[k] in TagOfParameter && TagOfParameter[TagMap[k]] == k
  {
    SetPointEntries();
    SetPointInverse();
  }

  lemma LightSwitchEntries()
    ensures "EO_1_On_Off" in TagMap && TagMap["EO_1_On_Off"] == "lighting_1_on"
    ensures "EO_2_On_Off" in TagMap && TagMap["EO_2_On_Off"] == "lighting_2_on"
    ensures "EO_1_Dim" in TagMap && TagMap["EO_1_Dim"] == "lighting_1"
    ensures "EO_2_Dim" in TagMap && TagMap["EO_2_Dim"] == "lighting_2"
    ensures "EO_3_Dim" in TagMap && TagMap["EO_3_Dim"] == "lighting_3"
  {
  }

  lemma LightSwitchInverse()
    ensures "lighting_1_on" in TagOfParameter && TagOfParameter["lighting_1_on"] == "EO_1_On_Off"
    ensures "lighting_2_on" in TagOfParameter && TagOfParameter["lighting_2_on"] == "EO_2_On_Off"
    ensures "lighting_1" in TagOfParameter && TagOfParameter["lighting_1"] == "EO_1_Dim"
    ensures "lighting_2" in TagOfParameter && TagOfParameter["lighting_2"] == "EO_2_Dim"
    ensures "lighting_3" in TagOfParameter && TagOfParameter["lighting_3"] == "EO_3_Dim"
  {
  }

  lemma LightSwitchRecovered()
    ensures forall k :: k in {"EO_1_On_Off", "EO_2_On_Off", "EO_1_Dim", "EO_2_Dim", "EO_3_Dim"} ==> TagMap[k] in TagOfParameter && TagOfParameter[TagMap[k]] == k
  {
    LightSwitchEntries();
    LightSwitchInverse();
  }

  lemma DimmerEntries()
    ensures "EO_4_Dim" in TagMap && TagMap["EO_4_Dim"] == "lighting_4"
    ensures "EO_5_Dim" in TagMap && TagMap["EO_5_Dim"] == "lighting_5"
    ensures "EO_6_Dim" in TagMap && TagMap["EO_6_Dim"] == "lighting_6"
    ensures "EO_7_Dim" in TagMap && TagMap["EO_7_Dim"] == "lighting_7"
  {
  }

  lemma DimmerInverse()
    ensures "lighting_4" in TagOfParameter && TagOfParameter["lighting_4"] == "EO_4_Dim"
    ensures "lighting_5" in TagOfParameter && TagOfParameter["lighting_5"] == "EO_5_Dim"
    ensures "lighting_6" in TagOfParameter && TagOfParameter["lighting_6"] == "EO_6_Dim"
    ensures "lighting_7" in TagOfParameter && TagOfParameter["lighting_7"] == "EO_7_Dim"
  {
  }

  lemma DimmerRecovered()
    ensures forall k :: k in {"EO_4_Dim", "EO_5_Dim", "EO_6_Dim", "EO_7_Dim"} ==> TagMap[k] in TagOfParameter && TagOfParameter[TagMap[k]] == k
  {
    DimmerEntries();
    DimmerInverse();
  }

  lemma ControlEntries()
    ensures "CLC_Enable_Rh_1" in TagMap && TagMap["CLC_Enable_Rh_1"] == "humidification_enabled"
    ensures "CLC_Enable_Rh_2" in TagMap && TagMap["CLC_Enable_Rh_2"] == "dehumidification_enabled"
    ensures "EO_13_On_Off" in TagMap && TagMap["EO_13_On_Off"] == "door_state"
    ensures "EO_14_On_Off" in TagMap && TagMap["EO_14_On_Off"] == "air_diverter_state"
    ensures "EO_15_On_Off" in TagMap && TagMap["EO_15_On_Off"] == "curtain_state"
    ensures "CM_NON_RAMPING_MODE" in TagMap && TagMap["CM_NON_RAMPING_MODE"] == "operating_mode"
  {
  }

  lemma ControlInverse()
    ensures "humidification_enabled" in TagOfParameter && TagOfParameter["humidification_enabled"] == "CLC_Enable_Rh_1"
    ensures "dehumidification_enabled" in TagOfParameter && TagOfParameter["dehumidification_enabled"] == "CLC_Enable_Rh_2"
    ensures "door_state" in TagOfParameter && TagOfParameter["door_state"] == "EO_13_On_Off"
    ensures "air_diverter_state" in TagOfParameter && TagOfParameter["air_diverter_state"] == "EO_14_On_Off"
    ensures "curtain_state" in TagOfParameter && TagOfParameter["curtain_state"] == "EO_15_On_Off"
    ensures "operating_mode" in TagOfParameter && TagOfParameter["operating_mode"] == "CM_NON_RAMPING_MODE"
  {
  }

  lemma ControlRecovered()
    ensures forall k :: k in {"CLC_Enable_Rh_1", "CLC_Enable_Rh_2", "EO_13_On_Off", "EO_14_On_Off", "EO_15_On_Off", "CM_NON_RAMPING_MODE"} ==> TagMap[k] in TagOfParameter && TagOfParameter[TagMap[k]] == k
  {
    ControlEntries();
    ControlInverse();
  }

  lemma ClockEntries()
    ensures "Real_Time_Hour" in TagMap && TagMap["Real_Time_Hour"] == "hour"
    ensures "Real_Time_Minute" in TagMap && TagMap["Real_Time_Minute"] == "minute"
    ensures "Real_Time_Second" in TagMap && TagMap["Real_Time_Second"] == "second"
  {
  }

  lemma ClockInverse()
    ensures "hour" in TagOfParameter && TagOfParameter["hour"] == "Real_Time_Hour"
    ensures "minute" in TagOfParameter && TagOfParameter["minute"] == "Real_Time_Minute"
    ensures "second" in TagOfParameter && TagOfParameter["second"] == "Real_Time_Second"
  {
  }

  lemma ClockRecovered()
    ensures forall k :: k in {"Real_Time_Hour", "Real_Time_Minute", "Real_Time_Second"} ==> TagMap[k] in TagOfParameter && TagOfParameter[TagMap[k]] == k
  {
    ClockEntries();
    ClockInverse();
  }

  lemma TagMapKeys()
    ensures forall k :: k in TagMap ==> k in {"PV_1", "PV_2", "PV_3", "PV_4", "PV_5", "CM_SP_1_Manual", "CM_SP_2_Manual", "CM_SP_3_Manual", "CM_SP_5_Manual", "EO_1_On_Off", "EO_2_On_Off", "EO_1_Dim", "EO_2_Dim", "EO_3_Dim", "EO_4_Dim", "EO_5_Dim", "EO_6_Dim", "EO_7_Dim", "CLC_Enable_Rh_1", "CLC_Enable_Rh_2", "EO_13_On_Off", "EO_14_On_Off", "EO_15_On_Off", "CM_NON_RAMPING_MODE", "Real_Time_Hour", "Real_Time_Minute", "Real_Time_Second"}
  {
  }

  /** Every tag of the forward table comes back from the reference. */
  lemma TagMapRecovered()
    ensures forall k :: k in TagMap ==> TagMap[k] in TagOfParameter && TagOfParameter[TagMap[k]] == k
  {
    TagMapKeys();
    SensorRecovered();
    SetPointRecovered();
    LightSwitchRecovered();
    DimmerRecovered();
    ControlRecovered();
    ClockRecovered();
  }

  lemma TagMapInjective()
    ensures Injective(TagMap)
  {
    TagMapRecovered();
  }

  lemma ParameterKeys()
    ensures forall p :: p in TagOfParameter ==> p in {"temperature_actual", "humidity_actual", "co2_actual", "light_meter", "watering_actual", "temperature_target", "humidity_target", "co2_target", "watering_target", "lighting_1_on", "lighting_2_on", "lighting_1", "lighting_2", "lighting_3", "lighting_4", "lighting_5", "lighting_6", "lighting_7", "humidification_enabled", "dehumidification_enabled", "door_state", "air_diverter_state", "curtain_state", "operating_mode", "hour", "minute", "second"}
  {
  }

  /** Every entry of the reference is an entry of the forward table read
      backwards. */
  lemma ParameterForward()
    ensures forall p :: p in TagOfParameter ==> TagOfParameter[p] in TagMap && TagMap[TagOfParameter[p]] == p
  {
    ParameterKeys();
    SensorEntries();
    SensorInverse();
    SetPointEntries();
    SetPointInverse();
    LightSwitchEntries();
    LightSwitchInverse();
    DimmerEntries();
    DimmerInverse();
    ControlEntries();
    ControlInverse();
    ClockEntries();
    ClockInverse();
  }

  /** The reverse table, parameter to tag, derived from the forward one. */
  function RevTagMap(): (r: map<string, string>)
    ensures r.Keys == TagMap.Values
    ensures forall p :: p in r ==> r[p] in TagMap && TagMap[r[p]] == p
  {
    TagMapInjective();
    Invert(TagMap)
  }

  /** `{v: k for k, v in tag_map.items()}` is the intended parameter-to-tag
      table: 27 names, one tag each. */
  lemma RevTagMapIsReference()
    ensures RevTagMap() == TagOfParameter
  {
    var r := RevTagMap();
    TagMapInjective();
    TagMapRecovered();
    ParameterForward();
    assert r.Keys == TagOfParameter.Keys;
    forall p | p in r
      ensures r[p] == TagOfParameter[p]
    {
      assert TagMap[r[p]] == p == TagMap[TagOfParameter[p]];
    }
  }

  /** The forward lookup: the parameter a tag stands for, or `None` for a tag
      the table does not know. It never fails. */
  function TagMapper(tag: string): (r: Option<string>)
    ensures r.Some? <==> tag in TagMap
    ensures r.Some? ==> r.value == TagMap[tag]
  {
    if tag in TagMap then Some(TagMap[tag]) else None
  }

  /** `rev.get(p)`: the tag of a parameter, `None` when there is none. */
  function RevGet(p: string): (r: Option<string>)
    ensures r.Some? <==> p in TagMap.Values
    ensures r.Some? ==> r.value in TagMap && TagMap[r.value] == p
  {
    var rev := RevTagMap();
    TagMapInjective();
    if p in rev then Some(rev[p]) else None
  }

  /** `rev.get(k, k)`: the tag of a parameter, or the key itself. */
  function RevGetOr(k: string): (r: string)
    ensures k in TagMap.Values ==> r in TagMap && TagMap[r] == k
    ensures k !in TagMap.Values ==> r == k
  {
    match RevGet(k)
    case Some(t) => t
    case None => k
  }

  // --- Lemmas -------------------------------------------------------------

  /** Every tag survives the trip to its parameter and back. */
  lemma TagRoundTrip(t: string)
    requires t in TagMap
    ensures RevGet(TagMap[t]) == Some(t)
  {
    TagMapInjective();
  }

  /** Every parameter survives the trip to its tag and back. */
  lemma ParamRoundTrip(p: string)
    requires p in RevTagMap()
    ensures RevGet(p).Some? && TagMapper(RevGet(p).value) == Some(p)
  {
  }

  /** The duplicate `PV_4`: the later entry wins and the earlier name can be
      reached neither forward nor backward. */
  lemma DuplicatePV4()
    ensures TagMapper("PV_4") == Some("light_meter")
    ensures "lighting_sensor" !in TagMap.Values
    ensures RevGet("lighting_sensor") == None && RevGet("light_meter") == Some("PV_4")
  {
    TagRoundTrip("PV_4");
  }

  /** The bookkeeping keys of a decoded record are not parameter names, so
      they never collide with a decoded element. */
  lemma BookkeepingNotParameters()
    ensures "chamber_id" !in TagMap.Values
    ensures "env_var" !in TagMap.Values
    ensures "env_val" !in TagMap.Values
    ensures "type" !in TagMap.Values
  {
  }
}
