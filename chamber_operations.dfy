/** The semantic setters and getters of the chamber client: the fixed
    dicts and tag lists they hand to the write and the read. */
module ChamberOperations {
  import opened PyValues
  import opened PyText
  import opened PyDict
  import opened TagDictionary
  import opened RequestBuilder

  // --- The semantic operations ---------------------------------------------

  /** The controller expects set points as value * 1000. */
  const LevelMultiplier: int := 1000

  /** The setters that send one write. `SetLighting` takes the already
      rounded level n = `round(level * 1000)` and sends it as `Rounded(n)`. */
  datatype Command =
    | OpenDoor | CloseDoor
    | OpenCurtain | CloseCurtain
    | AirDiverterOn | AirDiverterOff
    | SetLighting(newLevel: int)
    | SetHumidity(level: real)
    | DisableHumidity
    | SetTemperature(temperature: real)
    | SetCo2(level: real)
    | SetWatering(level: real)

  function Scaled(x: real): Value { Float(x * LevelMultiplier as real) }

  /** The lighting level as `round` gives it in Python 3: an integer. */
  function Rounded(n: int): Value { Int(n) }

  /** The dict each setter hands to the write: never empty, no key twice,
      and every key either a tag of the table or one of its parameter names. */
  function CommandArgs(c: Command): (r: Args)
    ensures r != [] && DistinctKeys(r)
    ensures forall i :: 0 <= i < |r| ==> r[i].0 in TagMap || r[i].0 in TagMap.Values
  {
    match c
    case OpenDoor => ControlEntries(); [("EO_13_On_Off", Str("On"))]
    case CloseDoor => ControlEntries(); [("EO_13_On_Off", Str("Off"))]
    case OpenCurtain => ControlEntries(); [("EO_15_On_Off", Str("On"))]
    case CloseCurtain => ControlEntries(); [("EO_15_On_Off", Str("Off"))]
    case AirDiverterOn => ControlEntries(); [("EO_14_On_Off", Str("On"))]
    case AirDiverterOff => ControlEntries(); [("EO_14_On_Off", Str("Off"))]
    case SetLighting(n) =>
      LightSwitchEntries();
      DimmerEntries();
      [("lighting_1", Rounded(n)), ("lighting_2", Rounded(n)), ("lighting_3", Rounded(n)), ("lighting_4", Rounded(n)),
       ("lighting_5", Rounded(n)), ("lighting_6", Rounded(n)), ("lighting_7", Rounded(n))]
    case SetHumidity(level) => SetPointEntries(); [("CM_SP_2_Manual", Scaled(level))]
    case DisableHumidity => ControlEntries(); [("CLC_Enable_Rh_1", Str("No")), ("CLC_Enable_Rh_2", Str("No"))]
    case SetTemperature(t) => SetPointEntries(); [("temperature_target", Scaled(t))]
    case SetCo2(level) => SetPointEntries(); [("CM_SP_3_Manual", Scaled(level))]
    case SetWatering(level) => SetPointEntries(); [("CM_SP_5_Manual", Scaled(level))]
  }

  /** The write of `enable_humidity`, which then reads the humidity back. */
  const EnableHumidityArgs: Args := [("CLC_Enable_Rh_1", Str("Yes")), ("CLC_Enable_Rh_2", Str("Yes"))]

  /** The getters that send one read. */
  datatype Query =
    | GetDoor | GetCurtain | GetAirDiverter
    | GetLighting | GetHumidity | GetTemperature | GetCo2 | GetWatering
    | GetState | GetMode

  /** The parameter list each getter reads: never empty, and every name in
      it a parameter name of the table. */
  function QueryParams(q: Query): (r: seq<string>)
    ensures r != []
    ensures forall p :: p in r ==> p in TagMap.Values
  {
    SensorEntries();
    SetPointEntries();
    LightSwitchEntries();
    DimmerEntries();
    ControlEntries();
    match q
    case GetDoor => ["door_state"]
    case GetCurtain => ["curtain_state"]
    case GetAirDiverter => ["air_diverter_state"]
    case GetLighting =>
      ["lighting_1", "lighting_2", "lighting_3", "lighting_4", "lighting_5", "lighting_6", "lighting_7", "light_meter"]
    case GetHumidity => ["humidity_actual", "humidity_target", "humidification_enabled", "dehumidification_enabled"]
    case GetTemperature => ["temperature_actual", "temperature_target"]
    case GetCo2 => ["co2_actual", "co2_target"]
    case GetWatering => ["watering_actual", "watering_target"]
    case GetState =>
      ["co2_actual", "co2_target", "co2_actual", "co2_target", "humidity_actual", "humidity_target",
       "humidification_enabled", "dehumidification_enabled",
       "lighting_1", "lighting_2", "lighting_3", "lighting_4", "lighting_5", "lighting_6", "lighting_7",
       "temperature_actual", "temperature_target",
       "air_diverter_state", "watering_actual", "watering_target",
       "door_state", "curtain_state", "operating_mode"]
    case GetMode => ["operating_mode"]
  }

  /** What `get_time` reads. */
  const TimeParams: seq<string> := ["hour", "minute", "second"]

  // --- What each setter writes -------------------------------------------

  /** The reverse table sends the seven lighting names to the dimmer tags. */
  lemma LightingNames()
    ensures RevGetOr("lighting_1") == "EO_1_Dim" && RevGetOr("lighting_2") == "EO_2_Dim"
    ensures RevGetOr("lighting_3") == "EO_3_Dim" && RevGetOr("lighting_4") == "EO_4_Dim"
    ensures RevGetOr("lighting_5") == "EO_5_Dim" && RevGetOr("lighting_6") == "EO_6_Dim"
    ensures RevGetOr("lighting_7") == "EO_7_Dim"
  {
    LightSwitchEntries();
    DimmerEntries();
    TagRoundTrip("EO_1_Dim");
    TagRoundTrip("EO_2_Dim");
    TagRoundTrip("EO_3_Dim");
    TagRoundTrip("EO_4_Dim");
    TagRoundTrip("EO_5_Dim");
    TagRoundTrip("EO_6_Dim");
    TagRoundTrip("EO_7_Dim");
  }

  /** The seven dimmer channels, each at level `n`. */
  function DimmerPairs(n: int): (r: Args)
    ensures |r| == 7
    ensures forall i :: 0 <= i < 7 ==> r[i].1 == Rounded(n) && EndsWith(r[i].0, "_Dim")
  {
    var r := [("EO_1_Dim", Rounded(n)), ("EO_2_Dim", Rounded(n)), ("EO_3_Dim", Rounded(n)), ("EO_4_Dim", Rounded(n)),
              ("EO_5_Dim", Rounded(n)), ("EO_6_Dim", Rounded(n)), ("EO_7_Dim", Rounded(n))];
    assert forall i :: 0 <= i < 7 ==> r[i].0[|r[i].0| - 4..] == "_Dim";
    r
  }

  lemma LightingTranslated(n: int)
    ensures TranslateKeys(CommandArgs(SetLighting(n))) == DimmerPairs(n)
  {
    LightingNames();
    RenameSeven(RevGetOr, "lighting_1", "lighting_2", "lighting_3", "lighting_4", "lighting_5", "lighting_6", "lighting_7",
                   "EO_1_Dim", "EO_2_Dim", "EO_3_Dim", "EO_4_Dim", "EO_5_Dim", "EO_6_Dim", "EO_7_Dim", Rounded(n));
  }

  lemma DimmerTagsDistinct(n: int)
    ensures DistinctKeys([WriteCmd] + DimmerPairs(n))
  {
  }

  /** `set_lighting` writes the one rounded level to the seven dimmer
      channels EO_1_Dim..EO_7_Dim, in order, and nothing else: no on/off
      tag is sent. */
  lemma SetLightingPayload(n: int)
    ensures WritePayload(CommandArgs(SetLighting(n))) == [WriteCmd] + DimmerPairs(n)
  {
    LightingTranslated(n);
    DimmerTagsDistinct(n);
    WriteTranslated(CommandArgs(SetLighting(n)), DimmerPairs(n));
  }

  /** The temperature target goes out under its tag; the other set points
      are already tags and pass through unchanged. */
  lemma SetPointNames()
    ensures RevGetOr("temperature_target") == "CM_SP_1_Manual"
    ensures RevGetOr("CM_SP_2_Manual") == "CM_SP_2_Manual"
    ensures RevGetOr("CM_SP_3_Manual") == "CM_SP_3_Manual"
    ensures RevGetOr("CM_SP_5_Manual") == "CM_SP_5_Manual"
  {
    SetPointEntries();
    TagRoundTrip("CM_SP_1_Manual");
    assert "CM_SP_2_Manual" !in TagMap.Values;
    assert "CM_SP_3_Manual" !in TagMap.Values;
    assert "CM_SP_5_Manual" !in TagMap.Values;
  }

  /** Each scaled setter sends its value times 1000 under one set-point tag. */
  lemma SetTemperaturePayload(x: real)
    ensures WritePayload(CommandArgs(SetTemperature(x))) == [WriteCmd, ("CM_SP_1_Manual", Float(x * 1000.0))]
  {
    assert Scaled(x) == Float(x * 1000.0);
    assert CommandArgs(SetTemperature(x)) == [("temperature_target", Scaled(x))];
    SetPointNames();
    OnePairPayload("temperature_target", "CM_SP_1_Manual", Scaled(x));
  }

  lemma SetHumidityPayload(x: real)
    ensures WritePayload(CommandArgs(SetHumidity(x))) == [WriteCmd, ("CM_SP_2_Manual", Float(x * 1000.0))]
  {
    assert Scaled(x) == Float(x * 1000.0);
    assert CommandArgs(SetHumidity(x)) == [("CM_SP_2_Manual", Scaled(x))];
    SetPointNames();
    OnePairPayload("CM_SP_2_Manual", "CM_SP_2_Manual", Scaled(x));
  }

  lemma SetCo2Payload(x: real)
    ensures WritePayload(CommandArgs(SetCo2(x))) == [WriteCmd, ("CM_SP_3_Manual", Float(x * 1000.0))]
  {
    assert Scaled(x) == Float(x * 1000.0);
    assert CommandArgs(SetCo2(x)) == [("CM_SP_3_Manual", Scaled(x))];
    SetPointNames();
    OnePairPayload("CM_SP_3_Manual", "CM_SP_3_Manual", Scaled(x));
  }

  lemma SetWateringPayload(x: real)
    ensures WritePayload(CommandArgs(SetWatering(x))) == [WriteCmd, ("CM_SP_5_Manual", Float(x * 1000.0))]
  {
    assert Scaled(x) == Float(x * 1000.0);
    assert CommandArgs(SetWatering(x)) == [("CM_SP_5_Manual", Scaled(x))];
    SetPointNames();
    OnePairPayload("CM_SP_5_Manual", "CM_SP_5_Manual", Scaled(x));
  }

  /** The switch tags are sent as given: none of them is a parameter name. */
  lemma SwitchNames()
    ensures RevGetOr("EO_13_On_Off") == "EO_13_On_Off"
    ensures RevGetOr("EO_14_On_Off") == "EO_14_On_Off"
    ensures RevGetOr("EO_15_On_Off") == "EO_15_On_Off"
    ensures RevGetOr("CLC_Enable_Rh_1") == "CLC_Enable_Rh_1"
    ensures RevGetOr("CLC_Enable_Rh_2") == "CLC_Enable_Rh_2"
  {
    assert "EO_13_On_Off" !in TagMap.Values;
    assert "EO_14_On_Off" !in TagMap.Values;
    assert "EO_15_On_Off" !in TagMap.Values;
    assert "CLC_Enable_Rh_1" !in TagMap.Values;
    assert "CLC_Enable_Rh_2" !in TagMap.Values;
  }

  /** The door, curtain and air diverter switches write a literal "On" or
      "Off" under their own tag. */
  lemma OpenDoorPayload()
    ensures WritePayload(CommandArgs(OpenDoor)) == [WriteCmd, ("EO_13_On_Off", Str("On"))]
  {
    assert CommandArgs(OpenDoor) == [("EO_13_On_Off", Str("On"))];
    SwitchNames();
    OnePairPayload("EO_13_On_Off", "EO_13_On_Off", Str("On"));
  }

  lemma CloseDoorPayload()
    ensures WritePayload(CommandArgs(CloseDoor)) == [WriteCmd, ("EO_13_On_Off", Str("Off"))]
  {
    assert CommandArgs(CloseDoor) == [("EO_13_On_Off", Str("Off"))];
    SwitchNames();
    OnePairPayload("EO_13_On_Off", "EO_13_On_Off", Str("Off"));
  }

  lemma OpenCurtainPayload()
    ensures WritePayload(CommandArgs(OpenCurtain)) == [WriteCmd, ("EO_15_On_Off", Str("On"))]
  {
    assert CommandArgs(OpenCurtain) == [("EO_15_On_Off", Str("On"))];
    SwitchNames();
    OnePairPayload("EO_15_On_Off", "EO_15_On_Off", Str("On"));
  }

  lemma CloseCurtainPayload()
    ensures WritePayload(CommandArgs(CloseCurtain)) == [WriteCmd, ("EO_15_On_Off", Str("Off"))]
  {
    assert CommandArgs(CloseCurtain) == [("EO_15_On_Off", Str("Off"))];
    SwitchNames();
    OnePairPayload("EO_15_On_Off", "EO_15_On_Off", Str("Off"));
  }

  lemma AirDiverterOnPayload()
    ensures WritePayload(CommandArgs(AirDiverterOn)) == [WriteCmd, ("EO_14_On_Off", Str("On"))]
  {
    assert CommandArgs(AirDiverterOn) == [("EO_14_On_Off", Str("On"))];
    SwitchNames();
    OnePairPayload("EO_14_On_Off", "EO_14_On_Off", Str("On"));
  }

  lemma AirDiverterOffPayload()
    ensures WritePayload(CommandArgs(AirDiverterOff)) == [WriteCmd, ("EO_14_On_Off", Str("Off"))]
  {
    assert CommandArgs(AirDiverterOff) == [("EO_14_On_Off", Str("Off"))];
    SwitchNames();
    OnePairPayload("EO_14_On_Off", "EO_14_On_Off", Str("Off"));
  }

  /** Humidity control is switched off with "No" on both enable tags ... */
  lemma DisableHumidityPayload()
    ensures WritePayload(CommandArgs(DisableHumidity)) ==
      [WriteCmd, ("CLC_Enable_Rh_1", Str("No")), ("CLC_Enable_Rh_2", Str("No"))]
  {
    assert CommandArgs(DisableHumidity) == [("CLC_Enable_Rh_1", Str("No")), ("CLC_Enable_Rh_2", Str("No"))];
    SwitchNames();
    TwoPairPayload("CLC_Enable_Rh_1", "CLC_Enable_Rh_1", Str("No"), "CLC_Enable_Rh_2", "CLC_Enable_Rh_2", Str("No"));
  }

  /** ... and back on with "Yes". */
  lemma EnableHumidityPayload()
    ensures WritePayload(EnableHumidityArgs) ==
      [WriteCmd, ("CLC_Enable_Rh_1", Str("Yes")), ("CLC_Enable_Rh_2", Str("Yes"))]
  {
    SwitchNames();
    TwoPairPayload("CLC_Enable_Rh_1", "CLC_Enable_Rh_1", Str("Yes"), "CLC_Enable_Rh_2", "CLC_Enable_Rh_2", Str("Yes"));
  }

  // --- What each getter reads ---------------------------------------------

  /** So every tag a getter sends is a real tag, never `None`, and it maps
      back to the name asked for. */
  lemma QueryTagsResolve(q: Query)
    ensures forall i :: 0 <= i < |QueryParams(q)| ==>
      ReadPayload(QueryParams(q)).tags[i].Some? &&
      TagMapper(ReadPayload(QueryParams(q)).tags[i].value) == Some(QueryParams(q)[i])
  {
    forall i | 0 <= i < |QueryParams(q)|
      ensures ReadPayload(QueryParams(q)).tags[i].Some? &&
              TagMapper(ReadPayload(QueryParams(q)).tags[i].value) == Some(QueryParams(q)[i])
    {
      assert QueryParams(q)[i] in QueryParams(q);
      ReadTags(QueryParams(q), i);
    }
  }

  /** `get_time` likewise. */
  lemma TimeTagsResolve()
    ensures ReadPayload(TimeParams).tags == [Some("Real_Time_Hour"), Some("Real_Time_Minute"), Some("Real_Time_Second")]
  {
    TagRoundTrip("Real_Time_Hour");
    TagRoundTrip("Real_Time_Minute");
    TagRoundTrip("Real_Time_Second");
  }

  /** `get_temperature` asks for the sensor and the set point by tag. */
  lemma TemperatureQueryTags()
    ensures ReadPayload(QueryParams(GetTemperature)).tags == [Some("PV_1"), Some("CM_SP_1_Manual")]
  {
    TagRoundTrip("PV_1");
    TagRoundTrip("CM_SP_1_Manual");
  }
}
