# Growth chamber client: a Dafny model

This project models `GrowthChamberControl`, the client the Enviratron logger
uses to talk to Percival growth-chamber controllers over HTTP. The controller
speaks in terse register tags (`PV_1`, `CM_SP_1_Manual`, `EO_3_Dim`, ...). The
client translates them into readable parameter names and back. It builds the
query-string payloads of reads (`Cmd=read`) and writes (`Cmd=write`), and it
decodes the controller's XML replies into flat records.

The model has eight modules, following the structure of the client:

- `PyValues` (`py_values.dfy`): the values a decoded element can hold (bool, int, float, str), the exceptions the client can raise, and `Option`/`Result`.
- `PyText` (`py_text.dfy`): the string built-ins the client relies on, following Python 3 on ASCII text (see "Left out" for what that leaves aside). These are `str.endswith`, `rstrip`, `strip`, `split(" ")[0]`, `str()` of an integer, and `int()` and `float()` of a decimal text, with their round trips proved.
- `PyDict` (`py_dict.dfy`): an insertion-ordered dict as an association list; `d[k] = v`, `d.get(k)`, and `update` as a loop.
- `TagDictionary` (`tag_dictionary.dfy`): the tag table with its duplicate `PV_4` key, its derived inverse, and the forward and reverse lookups.
- `ResponseDecoder` (`response_decoder.dfy`): decoding a reply, one element at a time, into a record.
- `RequestBuilder` (`request_builder.dfy`) and `ChamberOperations` (`chamber_operations.dfy`): the write and read payloads, and the fixed tag tables of the setters and getters.
- `Chamber` (`chamber.dfy`): the client class. Its methods walk the reply, build the ordered write payload with `update`, and convert the clock record in place. Each method is proved equal to the specification function of the modules above.

The client runs under Python 3: the logger that imports it uses f-strings and `pathlib`, although the build directory is named for Python 2.7. So `round` returns an integer, and plain dicts keep insertion order; the model keeps that order for the payloads it sends, but not for the decoded record (see "Left out").

The client's HTTP exchange is not modelled. Each operation takes the reply the transport produced as a parameter: a parsed body, a connect timeout, or any other failure. The XML parser is not modelled either. A body is the sequence of `(tag, text)` elements that the depth-first walk over the document meets.

Facts about the code that a reader of the client might not expect:

- **Reads have no passthrough.** On the write path, a key that is no parameter name is sent unchanged (`rev.get(k, k)`, chamber.py line 401). On the read path, it is sent as `None` (`rev.get(p)`, line 429). `RequestBuilder.ReadNoPassthrough` shows that `PV_1`, asked for by its own tag name, becomes `None`.
- **`PV_4` last wins.** The duplicate `PV_4` key keeps its last entry, `light_meter` (lines 235 and 252). The name `lighting_sensor` cannot be reached in either direction.
- **Unknown tags are kept.** An element whose tag the table does not know is not dropped. Its value is stored under the key `None`, and it still overwrites `chamber_id` and `env_val` (lines 341-355).
- **Every record is stamped.** After every element other than `Req` of every read and write (the loop skips `Req` with `continue`, lines 307-308), the decoder stamps `chamber_id` and `env_val`, and also `env_var` for known tags (lines 341-355).
- **Writes do not catch timeouts.** A write has no timeout handler: every transport failure escapes it (lines 414-422).
- **`get_time` fails on a timeout.** A timed-out `get_time` raises `KeyError`, because the sentinel record has no `env_var` to delete (lines 432-441 and 655-664).

## Model

All source paths below are in `enviratron_logger/build/lib.linux-x86_64-2.7/chamber.py`, abbreviated `chamber.py` in prose; the table gives them in full.

| member | source | states |
|---|---|---|
| TagDictionary.TagMapRecovered | enviratron_logger/build/lib.linux-x86_64-2.7/chamber.py:230-278 | Every tag of the table is recovered from its parameter name by the reference inverse |
| TagDictionary.ParameterForward | enviratron_logger/build/lib.linux-x86_64-2.7/chamber.py:230-278 | Every parameter name of the reference inverse maps to a tag that the table sends back to that name |
| TagDictionary.RevTagMapIsReference | enviratron_logger/build/lib.linux-x86_64-2.7/chamber.py:278 | The dict comprehension `{v: k for k, v in __tag_map.items()}` equals the hand-written reference inverse, entry for entry |
| TagDictionary.TagMapper | enviratron_logger/build/lib.linux-x86_64-2.7/chamber.py:286-291 | Returns a name exactly when the tag is a key of the table, and then the table's entry; otherwise `None`, never failing |
| TagDictionary.TagMapInjective | enviratron_logger/build/lib.linux-x86_64-2.7/chamber.py:230-275 | Once the duplicate `PV_4` has collapsed, no two tags share a parameter name, so inverting the table loses nothing |
| TagDictionary.TagMapKeys | enviratron_logger/build/lib.linux-x86_64-2.7/chamber.py:230-275 | Every key of the table is one of the 27 tags the literal lists |
| TagDictionary.SensorEntries | enviratron_logger/build/lib.linux-x86_64-2.7/chamber.py:232-252 | The sensor tags `PV_1`..`PV_5` map to their `_actual` names; `PV_4` maps to `light_meter`, the later of its two entries |
| TagDictionary.SetPointEntries | enviratron_logger/build/lib.linux-x86_64-2.7/chamber.py:238-241 | The four set-point tags map to the `_target` names |
| TagDictionary.LightSwitchEntries | enviratron_logger/build/lib.linux-x86_64-2.7/chamber.py:243-247 | The two lighting switches and dimmers 1-3 map to their lighting names |
| TagDictionary.DimmerEntries | enviratron_logger/build/lib.linux-x86_64-2.7/chamber.py:248-251 | Dimmers 4-7 map to `lighting_4`..`lighting_7` |
| TagDictionary.ControlEntries | enviratron_logger/build/lib.linux-x86_64-2.7/chamber.py:255-266 | The humidity enables, door, air diverter, curtain and mode tags map to their names |
| TagDictionary.ClockEntries | enviratron_logger/build/lib.linux-x86_64-2.7/chamber.py:269-271 | The three clock tags map to `hour`, `minute`, `second` |
| TagDictionary.Invert | enviratron_logger/build/lib.linux-x86_64-2.7/chamber.py:278 | Inverting an injective map gives a map keyed by its values in which each direction undoes the other |
| TagDictionary.RevTagMap | enviratron_logger/build/lib.linux-x86_64-2.7/chamber.py:278 | The reverse table is keyed by exactly the parameter names of the forward one, and each name's entry is a tag the forward table sends back to that name |
| TagDictionary.SensorInverse | enviratron_logger/build/lib.linux-x86_64-2.7/chamber.py:278 | `__rev_tag_map` (equal to the reference inverse, by `RevTagMapIsReference`) sends each sensor name back to its tag, `light_meter` to `PV_4` |
| TagDictionary.SensorRecovered | enviratron_logger/build/lib.linux-x86_64-2.7/chamber.py:278 | For each sensor tag, its entry in `__rev_tag_map` (the reference inverse) is the tag again |
| TagDictionary.SetPointInverse | enviratron_logger/build/lib.linux-x86_64-2.7/chamber.py:278 | `__rev_tag_map` (equal to the reference inverse, by `RevTagMapIsReference`) sends each `_target` name to its set-point tag |
| TagDictionary.SetPointRecovered | enviratron_logger/build/lib.linux-x86_64-2.7/chamber.py:278 | For each set-point tag, its entry in `__rev_tag_map` (the reference inverse) is the tag again |
| TagDictionary.LightSwitchInverse | enviratron_logger/build/lib.linux-x86_64-2.7/chamber.py:278 | `__rev_tag_map` (equal to the reference inverse, by `RevTagMapIsReference`) sends the switch and dimmer 1-3 names to their tags |
| TagDictionary.LightSwitchRecovered | enviratron_logger/build/lib.linux-x86_64-2.7/chamber.py:278 | For each switch and dimmer 1-3 tag, its entry in `__rev_tag_map` (the reference inverse) is the tag again |
| TagDictionary.DimmerInverse | enviratron_logger/build/lib.linux-x86_64-2.7/chamber.py:278 | `__rev_tag_map` (equal to the reference inverse, by `RevTagMapIsReference`) sends `lighting_4`..`lighting_7` to their dimmer tags |
| TagDictionary.DimmerRecovered | enviratron_logger/build/lib.linux-x86_64-2.7/chamber.py:278 | For each dimmer 4-7 tag, its entry in `__rev_tag_map` (the reference inverse) is the tag again |
| TagDictionary.ControlInverse | enviratron_logger/build/lib.linux-x86_64-2.7/chamber.py:278 | `__rev_tag_map` (equal to the reference inverse, by `RevTagMapIsReference`) sends the control names to their tags |
| TagDictionary.ControlRecovered | enviratron_logger/build/lib.linux-x86_64-2.7/chamber.py:278 | For each control tag, its entry in `__rev_tag_map` (the reference inverse) is the tag again |
| TagDictionary.ClockInverse | enviratron_logger/build/lib.linux-x86_64-2.7/chamber.py:278 | `__rev_tag_map` (equal to the reference inverse, by `RevTagMapIsReference`) sends `hour`, `minute`, `second` to the clock tags |
| TagDictionary.ClockRecovered | enviratron_logger/build/lib.linux-x86_64-2.7/chamber.py:278 | For each clock tag, its entry in `__rev_tag_map` (the reference inverse) is the tag again |
| TagDictionary.RevGet | enviratron_logger/build/lib.linux-x86_64-2.7/chamber.py:429 | `rev.get(p)` gives a tag exactly when `p` is a parameter name, and that tag maps forward to `p` |
| TagDictionary.RevGetOr | enviratron_logger/build/lib.linux-x86_64-2.7/chamber.py:401 | `rev.get(k, k)` sends a parameter name to the tag that maps to it and returns any other key unchanged |
| TagDictionary.TagRoundTrip | enviratron_logger/build/lib.linux-x86_64-2.7/chamber.py:278 | `rev[fwd[t]] == t` for every tag of the table, `PV_4` included |
| TagDictionary.ParamRoundTrip | enviratron_logger/build/lib.linux-x86_64-2.7/chamber.py:278 | `fwd[rev[p]] == p` for every parameter name of the reverse table |
| TagDictionary.DuplicatePV4 | enviratron_logger/build/lib.linux-x86_64-2.7/chamber.py:235-252 | `PV_4` maps to `light_meter`; `lighting_sensor` is no name of the table and has no reverse entry; `light_meter` reverses to `PV_4` |
| TagDictionary.BookkeepingNotParameters | enviratron_logger/build/lib.linux-x86_64-2.7/chamber.py:345-355 | None of `chamber_id`, `env_var`, `env_val`, `type` is a parameter name, so bookkeeping never collides with a decoded element |
| PyText.EndsWith | enviratron_logger/build/lib.linux-x86_64-2.7/chamber.py:310-313 | `s.endswith(suffix)` holds exactly when `s` is some text followed by `suffix` |
| PyText.RStrip | enviratron_logger/build/lib.linux-x86_64-2.7/chamber.py:311 | `rstrip(chars)` leaves a prefix of the text that does not end in one of the characters, and every character it removed is one of them |
| PyText.LStrip | enviratron_logger/build/lib.linux-x86_64-2.7/chamber.py:311 | `lstrip(chars)` leaves a suffix of the text that does not start with one of the characters, and every character it removed is one of them |
| PyText.Strip | enviratron_logger/build/lib.linux-x86_64-2.7/chamber.py:311-324 | `strip()` never lengthens a text, leaves no whitespace at either end, and returns a text without outer whitespace unchanged |
| PyText.StripRemovesOnlyWhitespace | enviratron_logger/build/lib.linux-x86_64-2.7/chamber.py:311-324 | `strip()` returns a slice of the text, and everything it removed before and after that slice is whitespace |
| PyText.RStripAppend | enviratron_logger/build/lib.linux-x86_64-2.7/chamber.py:311 | Stripping padding characters appended to a text that does not end in one gives the text back |
| PyText.SplitHead | enviratron_logger/build/lib.linux-x86_64-2.7/chamber.py:324 | `split(sep)[0]` is a prefix holding no separator that is either the whole text or stops at a separator |
| PyText.ParseInt | enviratron_logger/build/lib.linux-x86_64-2.7/chamber.py:311 | Every text `int()` accepts is accepted by `float()` with the same value |
| PyText.ParseFloat | enviratron_logger/build/lib.linux-x86_64-2.7/chamber.py:324 | A text `float()` accepts is not blank once stripped, and its value is negative only when the stripped text starts with `-` |
| PyText.IntToStringRoundTrip | enviratron_logger/build/lib.linux-x86_64-2.7/chamber.py:311 | `int(str(i)) == i` for every integer, negative ones included |
| PyText.IntToStringIsFloat | enviratron_logger/build/lib.linux-x86_64-2.7/chamber.py:324 | `float(str(i)) == i` for every integer |
| PyText.DecimalLiteral | enviratron_logger/build/lib.linux-x86_64-2.7/chamber.py:324 | `<digits>.<digits>` reads as the whole part plus the fraction's value |
| PyText.DecimalIsFloat | enviratron_logger/build/lib.linux-x86_64-2.7/chamber.py:324 | `float(str(w) + "." + f)` is `w` plus the value of the fraction digits `f` |
| PyText.NegativeDecimalIsFloat | enviratron_logger/build/lib.linux-x86_64-2.7/chamber.py:324 | `float("-" + d + "." + f)` is minus the value of `d.f` |
| PyText.PyInt | enviratron_logger/build/lib.linux-x86_64-2.7/chamber.py:662 | `int(v)` of a decoded value fails only on a string, with `ValueError` |
| PyDict.Get | enviratron_logger/build/lib.linux-x86_64-2.7/chamber.py:401-408 | A lookup finds a value exactly when the key is present |
| PyDict.Put | enviratron_logger/build/lib.linux-x86_64-2.7/chamber.py:406 | `d[k] = v` maps `k` to `v` and leaves every other key alone; an existing key keeps its place, a new one goes last, and distinct keys stay distinct |
| PyDict.Update | enviratron_logger/build/lib.linux-x86_64-2.7/chamber.py:408 | The loop of `update` leaves the dict equal to putting every pair in turn |
| PyDict.PutAll | enviratron_logger/build/lib.linux-x86_64-2.7/chamber.py:408 | Putting a list of pairs never shrinks the dict, grows it by at most the list's length, and keeps distinct keys distinct |
| PyDict.GetPutAll | enviratron_logger/build/lib.linux-x86_64-2.7/chamber.py:401-408 | After putting a list of pairs, a key holds the value of its last pair in the list, or its old value if the list lacks it |
| PyDict.KeysPutAll | enviratron_logger/build/lib.linux-x86_64-2.7/chamber.py:408 | After an update the old keys come first, in order, and the keys are exactly the old ones and the new ones |
| PyDict.PutAllFresh | enviratron_logger/build/lib.linux-x86_64-2.7/chamber.py:408 | When no key repeats, an update appends the pairs in their order |
| PyDict.LastValueDistinct | enviratron_logger/build/lib.linux-x86_64-2.7/chamber.py:401 | In a list without repeated keys the last value of a key is its only value |
| ResponseDecoder.Classify | enviratron_logger/build/lib.linux-x86_64-2.7/chamber.py:310-313 | A tag is read as a dimmer exactly when it ends in `_Dim`; as a switch exactly when it ends in `_On_Off` and not in `_Dim`; `_Dim` is tested first |
| ResponseDecoder.DecodeLoose | enviratron_logger/build/lib.linux-x86_64-2.7/chamber.py:320-332 | The loose branch gives a float exactly when the first space-separated token parses as one; otherwise a bool only for `No`/`Yes` (`True` for `Yes`), else the text itself; never an int |
| ResponseDecoder.DecodeValue | enviratron_logger/build/lib.linux-x86_64-2.7/chamber.py:310-332 | Decoding present text fails only for a `_Dim` tag (`ValueError`); missing text fails with `AttributeError` unless the tag is an on/off switch |
| ResponseDecoder.Absorb | enviratron_logger/build/lib.linux-x86_64-2.7/chamber.py:341-355 | A step raises exactly when the element is counted and failed to decode, with that element's exception; a `Req` element leaves the record as it was |
| ResponseDecoder.Assemble | enviratron_logger/build/lib.linux-x86_64-2.7/chamber.py:305-357 | A failing walk raises the exception of one of its counted elements |
| ResponseDecoder.Parse | enviratron_logger/build/lib.linux-x86_64-2.7/chamber.py:298-357 | Parsing a reply succeeds exactly when every element other than `Req` decodes; it can only raise `ValueError` or `AttributeError` |
| ResponseDecoder.ChamberTable | enviratron_logger/build/lib.linux-x86_64-2.7/chamber.py:341 | Keying an element by the chamber's table is `__tag_mapper`, and no parameter name of the table is a bookkeeping key |
| ResponseDecoder.DecodeDim | enviratron_logger/build/lib.linux-x86_64-2.7/chamber.py:310-311 | A dimmer reading `str(n)` followed by any spaces and percent signs (`"450 %"`) decodes to the integer `n` |
| ResponseDecoder.DecodeOnOff | enviratron_logger/build/lib.linux-x86_64-2.7/chamber.py:313-318 | A switch decodes to `True` exactly when its text is `"On"`, and always to a bool |
| ResponseDecoder.DecodeNumberWithUnit | enviratron_logger/build/lib.linux-x86_64-2.7/chamber.py:324 | A number followed by a space and a unit (`"22 C"`) decodes to the number |
| ResponseDecoder.DecodeBareNumber | enviratron_logger/build/lib.linux-x86_64-2.7/chamber.py:324 | A bare integer text decodes to that number as a float |
| ResponseDecoder.DecodeDecimalWithUnit | enviratron_logger/build/lib.linux-x86_64-2.7/chamber.py:320-324 | A loose element reading `<digits>.<digits> <unit>` decodes to that decimal as a float |
| ResponseDecoder.DecodeTemperatureReading | enviratron_logger/build/lib.linux-x86_64-2.7/chamber.py:320-324 | `PV_1` reading `"22.5 C"` decodes to the float 22.5 |
| ResponseDecoder.SplitHeadAt | enviratron_logger/build/lib.linux-x86_64-2.7/chamber.py:324 | The first token of `s + sep + rest` is `s` when `s` holds no separator |
| ResponseDecoder.NotANumber | enviratron_logger/build/lib.linux-x86_64-2.7/chamber.py:324-325 | A word starting with `N`/`Y` and ending in `o`/`s` is not a float, so `float` raises and the fallback runs |
| ResponseDecoder.DecodeNo | enviratron_logger/build/lib.linux-x86_64-2.7/chamber.py:327-328 | `"No"` decodes to `False` |
| ResponseDecoder.DecodeYes | enviratron_logger/build/lib.linux-x86_64-2.7/chamber.py:329-330 | `"Yes"` decodes to `True` |
| ResponseDecoder.DecodeText | enviratron_logger/build/lib.linux-x86_64-2.7/chamber.py:320-332 | Text whose first token is no number and which is neither `"No"` nor `"Yes"` is kept as it is, and present text never makes this branch fail |
| ResponseDecoder.AssembleSucceeds | enviratron_logger/build/lib.linux-x86_64-2.7/chamber.py:305-357 | The walk succeeds exactly when every element other than `Req` decodes; an unknown tag never makes it fail |
| ResponseDecoder.AssembleFirstError | enviratron_logger/build/lib.linux-x86_64-2.7/chamber.py:305-357 | A failing walk raises the exception of the first element that fails to decode |
| ResponseDecoder.AssemblePrefixError | enviratron_logger/build/lib.linux-x86_64-2.7/chamber.py:305-357 | Once the walk over a prefix has raised, the elements after it do not matter |
| ResponseDecoder.AssembleExtend | enviratron_logger/build/lib.linux-x86_64-2.7/chamber.py:305-355 | Walking one more element is one more step of the loop body on the record so far |
| ResponseDecoder.AssembleStep | enviratron_logger/build/lib.linux-x86_64-2.7/chamber.py:305-355 | A successful walk succeeded on all but its last element, and its last step produced the result |
| ResponseDecoder.AssembleNothing | enviratron_logger/build/lib.linux-x86_64-2.7/chamber.py:307-308 | A reply with no element other than `Req` decodes to the empty record |
| ResponseDecoder.AbsorbFacts | enviratron_logger/build/lib.linux-x86_64-2.7/chamber.py:341-355 | One step stores the value under the element's key, sets `chamber_id` and `env_val`, sets `env_var` only for a known tag, and changes no other key; a `Req` step changes nothing |
| ResponseDecoder.AssembleBookkeeping | enviratron_logger/build/lib.linux-x86_64-2.7/chamber.py:345-355 | After a walk, `chamber_id` is the client's id and `env_val` is the value of the last element other than `Req` |
| ResponseDecoder.AssembleEnvVar | enviratron_logger/build/lib.linux-x86_64-2.7/chamber.py:347-352 | `env_var` is the first `_`-segment of the name of the last element whose tag the table knows |
| ResponseDecoder.AssembleNoEnvVar | enviratron_logger/build/lib.linux-x86_64-2.7/chamber.py:347-352 | With no known tag in the reply, `env_var` is never written: the `AttributeError` is swallowed |
| ResponseDecoder.AssembleLatestValue | enviratron_logger/build/lib.linux-x86_64-2.7/chamber.py:341 | Each key holds the value of the last element stored under it, unknown tags sharing the key `None` |
| ResponseDecoder.AssembleKeys | enviratron_logger/build/lib.linux-x86_64-2.7/chamber.py:341-355 | The record's keys are exactly the keys of its elements plus the bookkeeping keys the walk wrote |
| RequestBuilder.TranslateKeys | enviratron_logger/build/lib.linux-x86_64-2.7/chamber.py:401 | Each caller pair keeps its value and place; a key that is a parameter name becomes the tag the table maps to it, and any other key is kept as it is |
| RequestBuilder.Translate | enviratron_logger/build/lib.linux-x86_64-2.7/chamber.py:401 | The translated dict has no key twice, is no longer than the caller's, and its keys are exactly the translated caller keys |
| RequestBuilder.WritePayload | enviratron_logger/build/lib.linux-x86_64-2.7/chamber.py:405-408 | The write payload has no key twice, starts with `Cmd`, and its keys are exactly `Cmd` and the translated caller keys |
| RequestBuilder.ReadPayload | enviratron_logger/build/lib.linux-x86_64-2.7/chamber.py:427-430 | A read sends `Cmd=read` and one `Tag` per requested name |
| RequestBuilder.CmdIsNoParameter | enviratron_logger/build/lib.linux-x86_64-2.7/chamber.py:406 | `Cmd` is neither a tag nor a parameter name, so no translation produces it |
| RequestBuilder.WriteCmdFirst | enviratron_logger/build/lib.linux-x86_64-2.7/chamber.py:405-408 | The first pair of the write payload is `Cmd=write` unless the caller passed a `Cmd` key |
| RequestBuilder.WriteLastWins | enviratron_logger/build/lib.linux-x86_64-2.7/chamber.py:401-408 | Every tag is sent with the value of the last caller pair translating to it: keys that collapse keep the later value |
| RequestBuilder.WriteInCallerOrder | enviratron_logger/build/lib.linux-x86_64-2.7/chamber.py:401-408 | With no two keys translating to one tag, the payload is `Cmd=write` and then every caller pair, translated, in order |
| RequestBuilder.ReadTags | enviratron_logger/build/lib.linux-x86_64-2.7/chamber.py:429 | A known name is sent as the tag that maps back to it; an unknown name is sent as `None` |
| RequestBuilder.ReadNoPassthrough | enviratron_logger/build/lib.linux-x86_64-2.7/chamber.py:429 | A tag asked for by its own name (`PV_1`) is sent as `None` |
| RequestBuilder.OnePairPayload | enviratron_logger/build/lib.linux-x86_64-2.7/chamber.py:401-408 | A one-key write is `Cmd=write` and then the translated pair |
| RequestBuilder.TwoPairPayload | enviratron_logger/build/lib.linux-x86_64-2.7/chamber.py:401-408 | A two-key write whose keys translate to distinct tags is `Cmd=write` and then both translated pairs, in order |
| ChamberOperations.CommandArgs | enviratron_logger/build/lib.linux-x86_64-2.7/chamber.py:446-632 | Every setter writes at least one pair, no key twice, and every key is a tag or a parameter name of the table |
| ChamberOperations.LightingNames | enviratron_logger/build/lib.linux-x86_64-2.7/chamber.py:521-527 | `lighting_1`..`lighting_7` translate to `EO_1_Dim`..`EO_7_Dim` |
| ChamberOperations.DimmerPairs | enviratron_logger/build/lib.linux-x86_64-2.7/chamber.py:516-528 | Seven pairs, each a `_Dim` tag at the one rounded level |
| ChamberOperations.LightingTranslated | enviratron_logger/build/lib.linux-x86_64-2.7/chamber.py:518-528 | `set_lighting`'s seven keys translate to the seven dimmer tags, values unchanged |
| ChamberOperations.DimmerTagsDistinct | enviratron_logger/build/lib.linux-x86_64-2.7/chamber.py:518-528 | The seven dimmer tags and `Cmd` are pairwise distinct, so nothing collapses |
| ChamberOperations.SetLightingPayload | enviratron_logger/build/lib.linux-x86_64-2.7/chamber.py:501-534 | `set_lighting` sends `Cmd=write` and then `EO_1_Dim`..`EO_7_Dim` at the one rounded level, and nothing else: the on/off value is never sent |
| ChamberOperations.SetPointNames | enviratron_logger/build/lib.linux-x86_64-2.7/chamber.py:548-632 | `temperature_target` translates to `CM_SP_1_Manual`; the set-point tags the other scaled setters use are no names and pass through |
| ChamberOperations.SetHumidityPayload | enviratron_logger/build/lib.linux-x86_64-2.7/chamber.py:548-554 | `set_humidity` sends `Cmd=write` and `CM_SP_2_Manual` at `level * 1000` |
| ChamberOperations.SetTemperaturePayload | enviratron_logger/build/lib.linux-x86_64-2.7/chamber.py:598-602 | `set_temperature` sends `Cmd=write` and `CM_SP_1_Manual` at `level * 1000` |
| ChamberOperations.SetCo2Payload | enviratron_logger/build/lib.linux-x86_64-2.7/chamber.py:614-618 | `set_co2` sends `Cmd=write` and `CM_SP_3_Manual` at `level * 1000` |
| ChamberOperations.SetWateringPayload | enviratron_logger/build/lib.linux-x86_64-2.7/chamber.py:627-632 | `set_watering` sends `Cmd=write` and `CM_SP_5_Manual` at `level * 1000` |
| ChamberOperations.SwitchNames | enviratron_logger/build/lib.linux-x86_64-2.7/chamber.py:446-580 | The door, air diverter, curtain and humidity-enable tags the setters use are no names and pass through |
| ChamberOperations.OpenDoorPayload | enviratron_logger/build/lib.linux-x86_64-2.7/chamber.py:446-451 | `open_door` sends `Cmd=write`, `EO_13_On_Off=On` |
| ChamberOperations.CloseDoorPayload | enviratron_logger/build/lib.linux-x86_64-2.7/chamber.py:454-459 | `close_door` sends `Cmd=write`, `EO_13_On_Off=Off` |
| ChamberOperations.OpenCurtainPayload | enviratron_logger/build/lib.linux-x86_64-2.7/chamber.py:467-471 | `open_curtain` sends `Cmd=write`, `EO_15_On_Off=On` |
| ChamberOperations.CloseCurtainPayload | enviratron_logger/build/lib.linux-x86_64-2.7/chamber.py:473-477 | `close_curtain` sends `Cmd=write`, `EO_15_On_Off=Off` |
| ChamberOperations.AirDiverterOnPayload | enviratron_logger/build/lib.linux-x86_64-2.7/chamber.py:483-487 | `turn_on_air_diverter` sends `Cmd=write`, `EO_14_On_Off=On` |
| ChamberOperations.AirDiverterOffPayload | enviratron_logger/build/lib.linux-x86_64-2.7/chamber.py:489-493 | `turn_off_air_diverter` sends `Cmd=write`, `EO_14_On_Off=Off` |
| ChamberOperations.DisableHumidityPayload | enviratron_logger/build/lib.linux-x86_64-2.7/chamber.py:564-572 | `disable_humidity` sends `Cmd=write` and `No` to both humidity enables |
| ChamberOperations.EnableHumidityPayload | enviratron_logger/build/lib.linux-x86_64-2.7/chamber.py:575-582 | `enable_humidity`'s write sends `Cmd=write` and `Yes` to both humidity enables |
| ChamberOperations.QueryParams | enviratron_logger/build/lib.linux-x86_64-2.7/chamber.py:462-680 | Every getter asks for at least one name, and every name it asks for is a parameter name of the table |
| ChamberOperations.QueryTagsResolve | enviratron_logger/build/lib.linux-x86_64-2.7/chamber.py:462-680 | Every getter sends, for each requested name, the tag that maps back to it: no `None` is ever sent |
| ChamberOperations.TemperatureQueryTags | enviratron_logger/build/lib.linux-x86_64-2.7/chamber.py:604-608 | `get_temperature` reads `PV_1` and `CM_SP_1_Manual` |
| ChamberOperations.TimeTagsResolve | enviratron_logger/build/lib.linux-x86_64-2.7/chamber.py:656 | `get_time` reads the three clock tags |
| Chamber.WriteOutcome | enviratron_logger/build/lib.linux-x86_64-2.7/chamber.py:414-422 | A write succeeds exactly when a body came back and every element decodes; it raises the transport's error exactly when no body came back |
| Chamber.ReadOutcome | enviratron_logger/build/lib.linux-x86_64-2.7/chamber.py:432-441 | A read succeeds exactly on a connect timeout or on a body whose every element decodes; it raises the transport's error exactly on another failure; on a body it agrees with a write |
| Chamber.TimeOutcome | enviratron_logger/build/lib.linux-x86_64-2.7/chamber.py:655-664 | A successful `get_time` came from a successful read, holds neither bookkeeping key, and holds only integers; a failed read's exception passes through |
| Chamber.IntValues | enviratron_logger/build/lib.linux-x86_64-2.7/chamber.py:661-662 | Converting every value succeeds exactly when each converts; it keeps the keys and stores `int(v)`, or raises `ValueError` |
| Chamber.TimeoutOutcomes | enviratron_logger/build/lib.linux-x86_64-2.7/chamber.py:432-441 | On a connect timeout a write raises, a read returns exactly `{"type": "ConnectionError"}`, and `get_time` raises `KeyError` |
| Chamber.TimeOutcomeShape | enviratron_logger/build/lib.linux-x86_64-2.7/chamber.py:655-664 | A successful `get_time` read a record holding `env_var` and `env_val`; it returns the other keys, each with an integer value |
| Chamber.ClockRecord | enviratron_logger/build/lib.linux-x86_64-2.7/chamber.py:305-357 | The clock's reply decodes to the three times as floats, the chamber id, `env_var=second` and `env_val` the seconds |
| Chamber.ClockTime | enviratron_logger/build/lib.linux-x86_64-2.7/chamber.py:655-664 | `get_time` on the clock's reply returns hour, minute and second as integers beside the chamber id, and nothing else |
| Chamber.WholeFloat | enviratron_logger/build/lib.linux-x86_64-2.7/chamber.py:662 | `int(float(n)) == n` for every integer |
| Chamber.GrowthChamberControl.constructor | enviratron_logger/build/lib.linux-x86_64-2.7/chamber.py:281-283 | The client keeps its chamber id |
| Chamber.GrowthChamberControl.ParseResponse | enviratron_logger/build/lib.linux-x86_64-2.7/chamber.py:298-357 | The loop that updates one record per element returns the decoding of the reply, or the first exception |
| Chamber.GrowthChamberControl.MakeSetRequest | enviratron_logger/build/lib.linux-x86_64-2.7/chamber.py:397-422 | The payload built from the OrderedDict and its `update` is the write payload; the result is the decoded reply, or the transport's exception |
| Chamber.GrowthChamberControl.GetChamberValues | enviratron_logger/build/lib.linux-x86_64-2.7/chamber.py:425-441 | The read payload is sent; the result is the decoded reply, the sentinel on a connect timeout, or the transport's exception |
| Chamber.GrowthChamberControl.Send | enviratron_logger/build/lib.linux-x86_64-2.7/chamber.py:446-632 | Each setter writes its own fixed pairs |
| Chamber.GrowthChamberControl.Query | enviratron_logger/build/lib.linux-x86_64-2.7/chamber.py:462-680 | Each getter reads its own fixed parameter list |
| Chamber.GrowthChamberControl.EnableHumidity | enviratron_logger/build/lib.linux-x86_64-2.7/chamber.py:575-583 | The write's result is dropped and `get_humidity` follows, unless the write raised, in which case nothing is read |
| Chamber.GrowthChamberControl.ConvertToInts | enviratron_logger/build/lib.linux-x86_64-2.7/chamber.py:661-662 | The in-place loop over the keys computes `IntValues` |
| Chamber.GrowthChamberControl.GetTime | enviratron_logger/build/lib.linux-x86_64-2.7/chamber.py:655-664 | Reads the clock, deletes the two bookkeeping keys, raising `KeyError` if either is missing, and converts the rest to integers |

## Left out

- The HTTP transport (`requests.get`) and the URL built from the chamber id are not modelled. Each operation takes the transport's reply as a parameter: a body, a connect timeout, or any other failure.
- Parsing the XML with lxml is not modelled. A body is given as the sequence of `(tag, text)` elements that `iterwalk` meets in document order.
- `float()` is modelled for decimal notation only: an optional sign and `<digits>[.<digits>]` or `.<digits>`, read as an exact real. Exponents, `inf`, `nan`, digit-group underscores (which both `int()` and `float()` accept in Python 3) and IEEE rounding are not modelled. On the loose branch, a text in one of those forms decodes to the raw string here, where Python would give a float. On the dimmer branch, `int()` of such a text (`"1_000 %"`, which Python reads as 1000) is a `ValueError` here.
- Only ASCII text is modelled for `strip()`, `int()` and `float()`: whitespace is the six ASCII whitespace characters and digits are `0`-`9`. Python 3 also strips Unicode whitespace (`\xa0`, `\x85`, `\u2000`-`\u200a`, `\u3000`, `\x1c`-`\x1f` and others) and accepts non-ASCII decimal digits, so a dimmer reading `"50\xa0%"` is `int("50\xa0") == 50` in Python but a `ValueError` here.
- The key order of the decoded record is not modelled. The record the decoder returns (a dict filled in element order, lines 300 and 341-355) is a `map` here, which has no order; its keys and values are modelled exactly.
- ChamberOperations.Rounded: Python's `round(level * 1000)` is not modelled. The command takes the rounded integer `n` as its input and sends it as an integer, which is what `round` returns in Python 3.
- ChamberOperations.Scaled: the scaled setters' `level * 1000` is modelled on reals, so an integer argument, which would give a Python `int`, is sent as a float.
- `set_lighting`'s `on_off` value is computed but never sent, so the model does not compute it.
- `requests` drops `None` entries from a query-string list. The model keeps them as `None` in the read request, so an unknown name can still be seen there.
- `set_mode` is not modelled. It calls another endpoint (`ramping.xml`) and returns the raw reply text without decoding it.
- `set_time` is not modelled. It writes the host clock (`datetime.now()`).
- `disable_temperature` has an empty body and does nothing, so there is nothing to model.
- The `print` diagnostics in the decoder's `AttributeError` handler are not modelled. The handler's effect, that no `env_var` is written, is modelled.
- The prototype kept inside a string literal before the class, the commented-out parser (lines 360-394) and the `__main__` demonstration block (lines 727-815) never run, so they are not modelled.
- `enviratron_logger.py`, `__main__.py` and `setup.py` are not part of this model. They hold logging-formatter setup and packaging.
