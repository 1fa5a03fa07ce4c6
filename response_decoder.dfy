/** Decoding of the controller's XML replies. The XML parser is not part of
    the model: a reply is given as the sequence of elements its depth-first
    walk meets, each with its tag and its text. */
module ResponseDecoder {
  import opened PyValues
  import opened PyText
  import opened TagDictionary

  /** An element of the reply, in document order; `text` is `None` for an
      element with no text. */
  datatype Element = Element(tag: string, text: Option<string>)

  /** A decoded record is a Python dict whose keys are parameter names, the
      bookkeeping names, or `None` (where unknown tags land). */
  type Key = Option<string>
  type Record = map<Key, Value>

  const ChamberIdKey: Key := Some("chamber_id")
  const EnvVarKey: Key := Some("env_var")
  const EnvValKey: Key := Some("env_val")

  /** The element the reply wraps everything in; it carries no value. */
  const WrapperTag := "Req"

  /** How an element's text is read, chosen by the suffix of its tag. */
  datatype Encoding = DimPercent | OnOff | Loose

  /** `_Dim` is tested first, so a tag ending in it reads as a dimmer even if
      it looked like a switch. */
  function Classify(tag: string): (r: Encoding)
    ensures r == DimPercent <==> EndsWith(tag, "_Dim")
    ensures r == OnOff <==> EndsWith(tag, "_On_Off") && !EndsWith(tag, "_Dim")
  {
    if EndsWith(tag, "_Dim") then DimPercent
    else if EndsWith(tag, "_On_Off") then OnOff
    else Loose
  }

  /** What `rstrip` removes from a dimmer reading such as "450 %". */
  const DimPadding: set<char> := {' ', '%'}

  /** The fallback chain for every other tag: the first space-separated
      token as a float, else "No"/"Yes" as a bool, else the text itself.
      It never fails. */
  function DecodeLoose(s: string): (r: Value)
    ensures r.Float? <==> ParseFloat(SplitHead(s, ' ')).Some?
    ensures r.Bool? ==> (s == "Yes" || s == "No") && r == Bool(s == "Yes")
    ensures r.Str? ==> r == Str(s)
    ensures r.Int? == false
  {
    match ParseFloat(SplitHead(s, ' '))
    case Some(x) => Float(x)
    case None =>
      if s == "No" then Bool(false)
      else if s == "Yes" then Bool(true)
      else Str(s)
  }

  /** The value of one element. Only a dimmer reading can fail on its text;
      an element without text fails unless it is an on/off switch. */
  function DecodeValue(tag: string, text: Option<string>): (r: Result<Value>)
    ensures r.Err? && text.Some? ==> EndsWith(tag, "_Dim") && r.error == ValueError
    ensures text.None? ==> (r.Err? <==> !(Classify(tag) == OnOff)) && (r.Err? ==> r.error == AttributeError)
  {
    match Classify(tag)
    case DimPercent =>
      if text.None? then Err(AttributeError)
      else (match ParseInt(RStrip(text.value, DimPadding))
            case None => Err(ValueError)
            case Some(i) => Ok(Int(i)))
    case OnOff => Ok(Bool(text == Some("On")))
    case Loose => if text.None? then Err(AttributeError) else Ok(DecodeLoose(text.value))
  }

  /** An element after its text has been decoded: its tag and the value,
      or the exception decoding raised. */
  datatype Reading = Reading(tag: string, value: Result<Value>)

  function Read(e: Element): Reading {
    Reading(e.tag, DecodeValue(e.tag, e.text))
  }

  function Readings(elems: seq<Element>): (xs: seq<Reading>)
    ensures |xs| == |elems| && forall i :: 0 <= i < |elems| ==> xs[i] == Read(elems[i])
  {
    seq(|elems|, i requires 0 <= i < |elems| => Read(elems[i]))
  }

  /** The key an element is stored under: its parameter name in `table`,
      or `None`. With the chamber's table this is the forward lookup. */
  function KeyOf(table: map<string, string>, tag: string): Key {
    if tag in table then Some(table[tag]) else None
  }

  /** One step of the walk: skip the wrapper, otherwise store the value
      under the element's parameter name and overwrite the bookkeeping
      keys. `env_var` is only written when the tag was known. */
  function Absorb(table: map<string, string>, chamberId: int, rec: Record, x: Reading): (r: Result<Record>)
    ensures r.Err? <==> Counted(x) && x.value.Err?
    ensures r.Err? ==> r.error == x.value.error
    ensures !Counted(x) ==> r == Ok(rec)
  {
    if x.tag == WrapperTag then Ok(rec)
    else match x.value
      case Err(e) => Err(e)
      case Ok(v) =>
        var name := KeyOf(table, x.tag);
        var r1 := rec[name := v][ChamberIdKey := Int(chamberId)];
        var r2 := if name.Some? then r1[EnvVarKey := Str(SplitHead(name.value, '_'))] else r1;
        Ok(r2[EnvValKey := v])
  }

  /** The record the walk over the readings builds, or the first exception;
      whatever it raises, some element other than the wrapper raised. */
  function Assemble(table: map<string, string>, chamberId: int, xs: seq<Reading>): (r: Result<Record>)
    ensures r.Err? ==> exists i :: 0 <= i < |xs| && Counted(xs[i]) && xs[i].value == Err(r.error)
    decreases |xs|
  {
    if xs == [] then Ok(map[])
    else
      match Assemble(table, chamberId, xs[..|xs| - 1])
      case Err(e) => Err(e)
      case Ok(r) => Absorb(table, chamberId, r, xs[|xs| - 1])
  }

  /** The decoded record of a reply, with the chamber's own tag table. It
      succeeds exactly when every element other than the wrapper decodes,
      and it raises nothing but `ValueError` and `AttributeError`. */
  function Parse(chamberId: int, elems: seq<Element>): (r: Result<Record>)
    ensures r.Ok? <==> forall i :: 0 <= i < |elems| && elems[i].tag != WrapperTag ==> DecodeValue(elems[i].tag, elems[i].text).Ok?
    ensures r.Err? ==> r.error == ValueError || r.error == AttributeError
  {
    var xs := Readings(elems);
    AssembleSucceeds(TagMap, chamberId, xs);
    Assemble(TagMap, chamberId, xs)
  }

  predicate Counted(x: Reading) { x.tag != WrapperTag }

  predicate Known(table: map<string, string>, x: Reading) { x.tag != WrapperTag && x.tag in table }

  /** A table none of whose names is a bookkeeping key. */
  ghost predicate SeparateFromBookkeeping(table: map<string, string>) {
    "chamber_id" !in table.Values && "env_var" !in table.Values && "env_val" !in table.Values
  }

  /** The chamber's tag table keys elements as the forward lookup does and
      stays clear of the bookkeeping keys. */
  lemma ChamberTable(tag: string)
    ensures KeyOf(TagMap, tag) == TagMapper(tag)
    ensures SeparateFromBookkeeping(TagMap)
  {
    BookkeepingNotParameters();
  }

  // --- Lemmas about single values ------------------------------------------

  /** A dimmer tag reads the integer before any trailing spaces and percent
      signs: `int(str(n) + pad)` for any such padding. */
  lemma DecodeDim(tag: string, n: int, pad: string)
    requires EndsWith(tag, "_Dim")
    requires forall i :: 0 <= i < |pad| ==> pad[i] in DimPadding
    ensures DecodeValue(tag, Some(IntToString(n) + pad)) == Ok(Int(n))
  {
    RStripAppend(IntToString(n), pad, DimPadding);
    IntToStringRoundTrip(n);
  }

  /** An on/off tag is true exactly for the text "On". */
  lemma DecodeOnOff(tag: string, text: Option<string>)
    requires EndsWith(tag, "_On_Off") && !EndsWith(tag, "_Dim")
    ensures DecodeValue(tag, text) == Ok(Bool(true)) <==> text == Some("On")
    ensures DecodeValue(tag, text).Ok? && DecodeValue(tag, text).value.Bool?
  {
  }

  /** A reading with a unit after a space ("22 C") is the number. */
  lemma DecodeNumberWithUnit(tag: string, n: int, unit: string)
    requires Classify(tag) == Loose
    ensures DecodeValue(tag, Some(IntToString(n) + " " + unit)) == Ok(Float(n as real))
  {
    var s := IntToString(n);
    SplitHeadAt(s, unit, ' ');
    IntToStringIsFloat(n);
  }

  /** A decimal reading with a unit after a space ("22.5 C") is the number,
      fraction and all. */
  lemma {:induction false} DecodeDecimalWithUnit(tag: string, d: string, f: string, unit: string)
    requires Classify(tag) == Loose && d != [] && AllDigits(d) && f != [] && AllDigits(f)
    ensures DecodeValue(tag, Some(d + "." + f + " " + unit)) == Ok(Float(DigitsValue(d) as real + FractionValue(f)))
  {
    var s := d + "." + f;
    var x := DigitsValue(d) as real + FractionValue(f);
    SpaceFreeDecimal(d, f);
    SplitHeadAt(s, unit, ' ');
    DecimalLiteral(d, f);
    DecimalEnds(s, d, f);
    assert IsDigit(d[0]) && IsDigit(f[|f| - 1]);
    UnsignedFloat(s, x);
    LooseNumber(tag, s + " " + unit, x);
  }

  /** A loose reading whose first token is a float is that float. */
  lemma LooseNumber(tag: string, t: string, x: real)
    requires Classify(tag) == Loose && ParseFloat(SplitHead(t, ' ')) == Some(x)
    ensures DecodeValue(tag, Some(t)) == Ok(Float(x))
  {
  }

  lemma SpaceFreeDecimal(d: string, f: string)
    requires AllDigits(d) && AllDigits(f)
    ensures ' ' !in d + "." + f
  {
    assert forall i :: 0 <= i < |d| ==> IsDigit(d[i]);
    assert forall i :: 0 <= i < |f| ==> IsDigit(f[i]);
  }

  /** The temperature sensor reading "22.5 C" decodes to 22.5. */
  lemma DecodeTemperatureReading()
    ensures DecodeValue("PV_1", Some("22.5 C")) == Ok(Float(22.5))
  {
    TemperatureReadingParts();
    DecodeDecimalWithUnit("PV_1", "22", "5", "C");
  }

  lemma TemperatureReadingParts()
    ensures AllDigits("22") && DigitsValue("22") == 22
    ensures AllDigits("5") && FractionValue("5") == 0.5
    ensures "22" + "." + "5" + " " + "C" == "22.5 C"
    ensures Classify("PV_1") == Loose
  {
  }

  /** A bare number ("12", as the clock reports) is that number. */
  lemma DecodeBareNumber(tag: string, n: int)
    requires Classify(tag) == Loose
    ensures DecodeValue(tag, Some(IntToString(n))) == Ok(Float(n as real))
  {
    var s := IntToString(n);
    forall j | 0 <= j < |s| ensures s[j] != ' ' {
      if n < 0 {
        NegativeIntText(n);
        if j > 0 {
          assert s[j] == NatToString(-n)[j - 1];
        }
      } else {
        NonNegativeIntText(n);
      }
    }
    assert SplitHead(s, ' ') == s;
    IntToStringIsFloat(n);
  }

  lemma {:induction false} SplitHeadAt(s: string, rest: string, sep: char)
    requires sep !in s
    ensures SplitHead(s + [sep] + rest, sep) == s
  {
    if s != [] {
      assert (s + [sep] + rest)[1..] == s[1..] + [sep] + rest;
      SplitHeadAt(s[1..], rest, sep);
    }
  }

  /** "Yes" is not a number, so it reads as `True`. */
  lemma DecodeYes(tag: string)
    requires Classify(tag) == Loose
    ensures DecodeValue(tag, Some("Yes")) == Ok(Bool(true))
  {
    assert ' ' !in "Yes";
    assert SplitHead("Yes", ' ') == "Yes";
    NotANumber("Yes");
    assert DecodeLoose("Yes") == Bool(true);
  }

  /** "No" is not a number, so it reads as `False`. */
  lemma DecodeNo(tag: string)
    requires Classify(tag) == Loose
    ensures DecodeValue(tag, Some("No")) == Ok(Bool(false))
  {
    assert ' ' !in "No";
    assert SplitHead("No", ' ') == "No";
    NotANumber("No");
    assert DecodeLoose("No") == Bool(false);
  }

  /** Other text whose first token is not a number is kept as it is, and no
      text makes the fallback chain fail. */
  lemma DecodeText(tag: string, s: string)
    requires Classify(tag) == Loose
    ensures ParseFloat(SplitHead(s, ' ')).None? && s != "Yes" && s != "No" ==> DecodeValue(tag, Some(s)) == Ok(Str(s))
    ensures DecodeValue(tag, Some(s)).Ok?
  {
  }

  /** A word that starts and ends with a letter is not a float literal. */
  lemma NotANumber(w: string)
    requires |w| >= 2 && w[0] in "NY" && w[|w| - 1] in "os"
    ensures ParseFloat(w) == None
  {
    assert w[0] !in Whitespace && w[|w| - 1] !in Whitespace;
    assert Strip(w) == w;
    assert w[0] != '-' && w[0] != '+';
    var k := IndexOfChar(w, '.');
    assert k > 0 && !IsDigit(w[..k][0]);
    assert ParseUnsignedDecimal(w) == None;
  }

  // --- Lemmas about the walk -------------------------------------------------

  /** The keys the elements themselves write. */
  ghost function ElementKeys(table: map<string, string>, xs: seq<Reading>): set<Key> {
    set i | 0 <= i < |xs| && Counted(xs[i]) :: KeyOf(table, xs[i].tag)
  }

  /** The bookkeeping keys a walk over `xs` writes. */
  ghost function BookkeepingKeys(table: map<string, string>, xs: seq<Reading>): set<Key> {
    (if exists i :: 0 <= i < |xs| && Counted(xs[i]) then {ChamberIdKey, EnvValKey} else {})
    + (if exists i :: 0 <= i < |xs| && Known(table, xs[i]) then {EnvVarKey} else {})
  }

  /** The walk fails exactly when some element other than the wrapper has a
      value that cannot be decoded; an unknown tag never makes it fail. */
  lemma {:induction false} AssembleSucceeds(table: map<string, string>, id: int, xs: seq<Reading>)
    ensures Assemble(table, id, xs).Ok? <==>
      forall i :: 0 <= i < |xs| && Counted(xs[i]) ==> xs[i].value.Ok?
    decreases |xs|
  {
    if xs != [] {
      var n := |xs| - 1;
      AssembleSucceeds(table, id, xs[..n]);
      assert forall i :: 0 <= i < n ==> xs[..n][i] == xs[i];
    }
  }

  /** When it fails, it raises the exception of the first failing element. */
  lemma {:induction false} AssembleFirstError(table: map<string, string>, id: int, xs: seq<Reading>, i: nat)
    requires i < |xs| && Counted(xs[i]) && xs[i].value.Err?
    requires forall i' :: 0 <= i' < i && Counted(xs[i']) ==> xs[i'].value.Ok?
    ensures Assemble(table, id, xs) == Err(xs[i].value.error)
    decreases |xs|
  {
    var n := |xs| - 1;
    if i == n {
      AssembleSucceeds(table, id, xs[..n]);
    } else {
      AssembleFirstError(table, id, xs[..n], i);
    }
  }

  /** An exception stops the walk: once a prefix has failed, the whole
      walk fails with the same exception. */
  lemma {:induction false} AssemblePrefixError(table: map<string, string>, id: int, xs: seq<Reading>, n: nat)
    requires n <= |xs| && Assemble(table, id, xs[..n]).Err?
    ensures Assemble(table, id, xs) == Assemble(table, id, xs[..n])
    decreases |xs|
  {
    if n < |xs| {
      var m := |xs| - 1;
      assert xs[..m][..n] == xs[..n];
      AssemblePrefixError(table, id, xs[..m], n);
    } else {
      assert xs[..n] == xs;
    }
  }

  /** A counted element that decoded to v: the step stores v under its key
      and writes the bookkeeping, as the record `r` spells out. */
  lemma AbsorbValue(table: map<string, string>, id: int, rec: Record, x: Reading, v: Value, r: Record)
    requires x.tag != WrapperTag && x.value == Ok(v)
    requires var name := KeyOf(table, x.tag);
      var r1 := rec[name := v][ChamberIdKey := Int(id)];
      r == (if name.Some? then r1[EnvVarKey := Str(SplitHead(name.value, '_'))] else r1)[EnvValKey := v]
    ensures Absorb(table, id, rec, x) == Ok(r)
  {
  }

  /** One more element extends a walk that has not failed by one step. */
  lemma AssembleExtend(table: map<string, string>, id: int, xs: seq<Reading>, i: nat, rec: Record)
    requires i < |xs| && Assemble(table, id, xs[..i]) == Ok(rec)
    ensures Assemble(table, id, xs[..i + 1]) == Absorb(table, id, rec, xs[i])
  {
    assert xs[..i + 1][..i] == xs[..i];
  }

  /** A reply with nothing but the wrapper decodes to the empty record. */
  lemma {:induction false} AssembleNothing(table: map<string, string>, id: int, xs: seq<Reading>)
    requires forall i :: 0 <= i < |xs| ==> !Counted(xs[i])
    ensures Assemble(table, id, xs) == Ok(map[])
    decreases |xs|
  {
    if xs != [] {
      AssembleNothing(table, id, xs[..|xs| - 1]);
    }
  }

  /** One step of the walk, in terms of what it writes. */
  lemma AbsorbFacts(table: map<string, string>, id: int, rec: Record, e: Reading)
    requires SeparateFromBookkeeping(table)
    requires Absorb(table, id, rec, e).Ok?
    ensures !Counted(e) ==> Absorb(table, id, rec, e).value == rec
    ensures Counted(e) ==> e.value.Ok?
    ensures Counted(e) ==>
      var r, v := Absorb(table, id, rec, e).value, e.value.value;
      && r.Keys == rec.Keys + {KeyOf(table, e.tag), ChamberIdKey, EnvValKey} + (if Known(table, e) then {EnvVarKey} else {})
      && r[KeyOf(table, e.tag)] == v && r[ChamberIdKey] == Int(id) && r[EnvValKey] == v
      && (Known(table, e) ==> r[EnvVarKey] == Str(SplitHead(table[e.tag], '_')))
      && (!Known(table, e) && EnvVarKey in rec ==> r[EnvVarKey] == rec[EnvVarKey])
      && (forall k :: k in rec && k != KeyOf(table, e.tag) && k !in {ChamberIdKey, EnvVarKey, EnvValKey} ==> r[k] == rec[k])
  {
  }

  /** The walk over a non-empty reply is the walk over all but its last
      element followed by one step. */
  lemma AssembleStep(table: map<string, string>, id: int, xs: seq<Reading>)
    requires xs != [] && Assemble(table, id, xs).Ok?
    ensures Assemble(table, id, xs[..|xs| - 1]).Ok?
    ensures Absorb(table, id, Assemble(table, id, xs[..|xs| - 1]).value, xs[|xs| - 1]) == Assemble(table, id, xs)
  {
  }

  /** `chamber_id` is the client's and `env_val` is the value of the last
      element decoded. */
  lemma {:induction false} AssembleBookkeeping(table: map<string, string>, id: int, xs: seq<Reading>, j: nat)
    requires SeparateFromBookkeeping(table)
    requires Assemble(table, id, xs).Ok?
    requires j < |xs| && Counted(xs[j])
    requires forall j' :: j < j' < |xs| ==> !Counted(xs[j'])
    ensures xs[j].value.Ok?
    ensures ChamberIdKey in Assemble(table, id, xs).value && EnvValKey in Assemble(table, id, xs).value
    ensures Assemble(table, id, xs).value[ChamberIdKey] == Int(id)
    ensures Assemble(table, id, xs).value[EnvValKey] == xs[j].value.value
    decreases |xs|
  {
    var n := |xs| - 1;
    AssembleStep(table, id, xs);
    AbsorbFacts(table, id, Assemble(table, id, xs[..n]).value, xs[n]);
    if j < n {
      AssembleBookkeeping(table, id, xs[..n], j);
    }
  }

  /** `env_var` is the first `_`-separated part of the parameter name of the
      last element whose tag was known. */
  lemma {:induction false} AssembleEnvVar(table: map<string, string>, id: int, xs: seq<Reading>, j: nat)
    requires SeparateFromBookkeeping(table)
    requires Assemble(table, id, xs).Ok?
    requires j < |xs| && Known(table, xs[j])
    requires forall j' :: j < j' < |xs| ==> !Known(table, xs[j'])
    ensures EnvVarKey in Assemble(table, id, xs).value
    ensures Assemble(table, id, xs).value[EnvVarKey] == Str(SplitHead(table[xs[j].tag], '_'))
    decreases |xs|
  {
    var n := |xs| - 1;
    var prefix := xs[..n];
    AssembleStep(table, id, xs);
    var rec := Assemble(table, id, prefix).value;
    AbsorbFacts(table, id, rec, xs[n]);
    if j < n {
      assert forall j' :: j < j' < n ==> prefix[j'] == xs[j'];
      assert prefix[j] == xs[j];
      AssembleEnvVar(table, id, prefix, j);
      assert EnvVarKey in rec && !Known(table, xs[n]);
    }
  }

  /** With no known tag at all, `env_var` is never written. */
  lemma {:induction false} AssembleNoEnvVar(table: map<string, string>, id: int, xs: seq<Reading>)
    requires SeparateFromBookkeeping(table)
    requires Assemble(table, id, xs).Ok?
    requires forall j :: 0 <= j < |xs| ==> !Known(table, xs[j])
    ensures EnvVarKey !in Assemble(table, id, xs).value
    decreases |xs|
  {
    if xs != [] {
      var n := |xs| - 1;
      AssembleStep(table, id, xs);
      AbsorbFacts(table, id, Assemble(table, id, xs[..n]).value, xs[n]);
      AssembleNoEnvVar(table, id, xs[..n]);
    }
  }

  /** Last writer wins: the key of an element holds the value of the last
      element that maps to the same key (unknown tags share the key `None`). */
  lemma {:induction false} AssembleLatestValue(table: map<string, string>, id: int, xs: seq<Reading>, j: nat)
    requires SeparateFromBookkeeping(table)
    requires Assemble(table, id, xs).Ok?
    requires j < |xs| && Counted(xs[j])
    requires forall j' :: j < j' < |xs| && Counted(xs[j']) ==> KeyOf(table, xs[j'].tag) != KeyOf(table, xs[j].tag)
    ensures xs[j].value.Ok?
    ensures KeyOf(table, xs[j].tag) in Assemble(table, id, xs).value
    ensures Assemble(table, id, xs).value[KeyOf(table, xs[j].tag)] == xs[j].value.value
    decreases |xs|
  {
    var n := |xs| - 1;
    var prefix := xs[..n];
    var k := KeyOf(table, xs[j].tag);
    assert k !in {ChamberIdKey, EnvVarKey, EnvValKey};
    AssembleStep(table, id, xs);
    var rec := Assemble(table, id, prefix).value;
    AbsorbFacts(table, id, rec, xs[n]);
    if j < n {
      assert forall j' :: j < j' < n ==> prefix[j'] == xs[j'];
      assert prefix[j] == xs[j];
      AssembleLatestValue(table, id, prefix, j);
      assert k in rec;
    }
  }

  lemma ElementKeysStep(table: map<string, string>, xs: seq<Reading>)
    requires xs != []
    ensures var n := |xs| - 1;
      ElementKeys(table, xs) == ElementKeys(table, xs[..n]) + (if Counted(xs[n]) then {KeyOf(table, xs[n].tag)} else {})
  {
    var n := |xs| - 1;
    var prefix := xs[..n];
    forall k | k in ElementKeys(table, xs) ensures k in ElementKeys(table, prefix) + (if Counted(xs[n]) then {KeyOf(table, xs[n].tag)} else {}) {
      var i :| 0 <= i < |xs| && Counted(xs[i]) && KeyOf(table, xs[i].tag) == k;
      if i < n { assert prefix[i] == xs[i]; }
    }
    forall k | k in ElementKeys(table, prefix) ensures k in ElementKeys(table, xs) {
      var i :| 0 <= i < n && Counted(prefix[i]) && KeyOf(table, prefix[i].tag) == k;
      assert prefix[i] == xs[i];
    }
  }

  lemma BookkeepingKeysStep(table: map<string, string>, xs: seq<Reading>)
    requires xs != []
    ensures var n := |xs| - 1;
      BookkeepingKeys(table, xs) == BookkeepingKeys(table, xs[..n])
        + (if Counted(xs[n]) then {ChamberIdKey, EnvValKey} else {})
        + (if Known(table, xs[n]) then {EnvVarKey} else {})
  {
    var n := |xs| - 1;
    var prefix := xs[..n];
    assert forall i :: 0 <= i < n ==> prefix[i] == xs[i];
    assert (exists i :: 0 <= i < |xs| && Counted(xs[i])) <==>
           (exists i :: 0 <= i < n && Counted(prefix[i])) || Counted(xs[n]);
    assert (exists i :: 0 <= i < |xs| && Known(table, xs[i])) <==>
           (exists i :: 0 <= i < n && Known(table, prefix[i])) || Known(table, xs[n]);
  }

  /** The record holds exactly the keys of the decoded elements and the
      bookkeeping keys their walk wrote. */
  lemma {:induction false} AssembleKeys(table: map<string, string>, id: int, xs: seq<Reading>)
    requires SeparateFromBookkeeping(table)
    requires Assemble(table, id, xs).Ok?
    ensures Assemble(table, id, xs).value.Keys == ElementKeys(table, xs) + BookkeepingKeys(table, xs)
    decreases |xs|
  {
    if xs != [] {
      var n := |xs| - 1;
      AssembleStep(table, id, xs);
      AbsorbFacts(table, id, Assemble(table, id, xs[..n]).value, xs[n]);
      AssembleKeys(table, id, xs[..n]);
      ElementKeysStep(table, xs);
      BookkeepingKeysStep(table, xs);
    }
  }
}
