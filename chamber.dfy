/** The chamber client itself: one object per growth chamber, whose
    operations build a request, hand it to the HTTP layer and decode what
    comes back. The HTTP exchange is not modelled: each operation takes the
    reply the transport produced as a parameter. */
module Chamber {
  import opened PyValues
  import opened PyText
  import opened PyDict
  import opened TagDictionary
  import opened ResponseDecoder
  import opened RequestBuilder
  import opened ChamberOperations

  /** What the transport hands back for one request: a parsed XML body, a
      connect timeout, or any other failure (DNS, refused connection,
      malformed XML). */
  datatype Reply = Body(elements: seq<Element>) | ConnectTimeout | TransportFailure

  /** The sentinel a timed-out read returns instead of a record. */
  const ConnectionErrorRecord: Record := map[Some("type") := Str("ConnectionError")]

  /** Every counted element of a body decodes. */
  predicate Decodable(es: seq<Element>) {
    forall i :: 0 <= i < |es| && es[i].tag != WrapperTag ==> DecodeValue(es[i].tag, es[i].text).Ok?
  }

  /** A write has no timeout handler: every transport failure escapes. */
  function WriteOutcome(id: int, reply: Reply): (r: Result<Record>)
    ensures r.Ok? <==> reply.Body? && Decodable(reply.elements)
    ensures r.Err? ==> (r.error == TransportError <==> !reply.Body?)
  {
    match reply
    case Body(es) => Parse(id, es)
    case _ => Err(TransportError)
  }

  /** A read turns a connect timeout into the sentinel record. */
  function ReadOutcome(id: int, reply: Reply): (r: Result<Record>)
    ensures r.Ok? <==> reply.ConnectTimeout? || (reply.Body? && Decodable(reply.elements))
    ensures r.Err? ==> (r.error == TransportError <==> reply.TransportFailure?)
    ensures reply.Body? ==> r == WriteOutcome(id, reply)
  {
    match reply
    case Body(es) => Parse(id, es)
    case ConnectTimeout => Ok(ConnectionErrorRecord)
    case TransportFailure => Err(TransportError)
  }

  /** `int(v)` applied to every value of a record, or the `ValueError` the
      first value that is no integer raises. */
  function IntValues(r: Record): (res: Result<Record>)
    ensures res.Ok? <==> forall k :: k in r ==> PyInt(r[k]).Ok?
    ensures res.Err? ==> res.error == ValueError
    ensures res.Ok? ==> res.value.Keys == r.Keys && forall k :: k in r ==> res.value[k] == Int(PyInt(r[k]).value)
  {
    if forall k :: k in r ==> PyInt(r[k]).Ok? then
      Ok(map k | k in r :: Int(PyInt(r[k]).value))
    else
      Err(ValueError)
  }

  /** What `get_time` returns for a reply to its read: the record without
      `env_var` and `env_val`, each remaining value made an integer; a
      record lacking either key raises `KeyError`. */
  function TimeOutcome(id: int, reply: Reply): (r: Result<Record>)
    ensures r.Ok? ==> ReadOutcome(id, reply).Ok?
    ensures r.Ok? ==> EnvVarKey !in r.value && EnvValKey !in r.value
    ensures r.Ok? ==> forall k :: k in r.value ==> r.value[k].Int?
    ensures ReadOutcome(id, reply).Err? ==> r == ReadOutcome(id, reply)
  {
    match ReadOutcome(id, reply)
    case Err(e) => Err(e)
    case Ok(r) =>
      if EnvVarKey !in r then Err(KeyError)
      else if EnvValKey !in r - {EnvVarKey} then Err(KeyError)
      else IntValues(r - {EnvVarKey} - {EnvValKey})
  }

  // --- Lemmas about outcomes -----------------------------------------------

  /** A connect timeout is swallowed by reads only; and since the sentinel
      has no `env_var`, `get_time` then raises `KeyError`. */
  lemma TimeoutOutcomes(id: int)
    ensures WriteOutcome(id, ConnectTimeout) == Err(TransportError)
    ensures ReadOutcome(id, ConnectTimeout) == Ok(ConnectionErrorRecord)
    ensures TimeOutcome(id, ConnectTimeout) == Err(KeyError)
  {
    assert EnvVarKey !in ConnectionErrorRecord;
  }

  /** A successful `get_time` came from a record holding both bookkeeping
      keys; it keeps every other key, each value made an integer. */
  lemma TimeOutcomeShape(id: int, reply: Reply)
    requires TimeOutcome(id, reply).Ok?
    ensures ReadOutcome(id, reply).Ok?
    ensures EnvVarKey in ReadOutcome(id, reply).value && EnvValKey in ReadOutcome(id, reply).value
    ensures TimeOutcome(id, reply).value.Keys == ReadOutcome(id, reply).value.Keys - {EnvVarKey, EnvValKey}
    ensures forall k :: k in TimeOutcome(id, reply).value ==> TimeOutcome(id, reply).value[k].Int?
  {
  }

  /** The elements of the clock's reply to `get_time`'s read: the wrapper,
      then the three clock tags with bare integers. */
  predicate ClockElements(es: seq<Element>, h: int, m: int, s: int) {
    |es| == 4 && es[0] == Element(WrapperTag, None)
    && es[1] == Element("Real_Time_Hour", Some(IntToString(h)))
    && es[2] == Element("Real_Time_Minute", Some(IntToString(m)))
    && es[3] == Element("Real_Time_Second", Some(IntToString(s)))
  }

  /** The walk over a wrapper and three readings of distinct names none
      of which holds `_`: each value under its name, then the bookkeeping
      of the last one. */
  lemma AssembleThree(table: map<string, string>, id: int, xs: seq<Reading>,
                      t1: string, t2: string, t3: string, n1: string, n2: string, n3: string,
                      v1: Value, v2: Value, v3: Value)
    requires |xs| == 4 && xs[0].tag == WrapperTag
    requires xs[1] == Reading(t1, Ok(v1)) && xs[2] == Reading(t2, Ok(v2)) && xs[3] == Reading(t3, Ok(v3))
    requires t1 != WrapperTag && t2 != WrapperTag && t3 != WrapperTag
    requires t1 in table && t2 in table && t3 in table
    requires table[t1] == n1 && table[t2] == n2 && table[t3] == n3
    requires '_' !in n1 && '_' !in n2 && '_' !in n3
    ensures Assemble(table, id, xs) ==
      Ok(map[Some(n1) := v1, ChamberIdKey := Int(id), EnvVarKey := Str(n1), EnvValKey := v1]
            [Some(n2) := v2][ChamberIdKey := Int(id)][EnvVarKey := Str(n2)][EnvValKey := v2]
            [Some(n3) := v3][ChamberIdKey := Int(id)][EnvVarKey := Str(n3)][EnvValKey := v3])
  {
    assert SplitHead(n1, '_') == n1 && SplitHead(n2, '_') == n2 && SplitHead(n3, '_') == n3;
    assert xs[..0] == [];
    AssembleExtend(table, id, xs, 0, map[]);
    AssembleExtend(table, id, xs, 1, map[]);
    var r1 := map[Some(n1) := v1, ChamberIdKey := Int(id), EnvVarKey := Str(n1), EnvValKey := v1];
    AssembleExtend(table, id, xs, 2, r1);
    var r2 := r1[Some(n2) := v2][ChamberIdKey := Int(id)][EnvVarKey := Str(n2)][EnvValKey := v2];
    AssembleExtend(table, id, xs, 3, r2);
    assert xs[..4] == xs;
  }

  /** Each clock element reads as a float. */
  lemma ClockReadings(es: seq<Element>, h: int, m: int, s: int)
    requires ClockElements(es, h, m, s)
    ensures |Readings(es)| == 4 && Readings(es)[0].tag == WrapperTag
    ensures Readings(es)[1] == Reading("Real_Time_Hour", Ok(Float(h as real)))
    ensures Readings(es)[2] == Reading("Real_Time_Minute", Ok(Float(m as real)))
    ensures Readings(es)[3] == Reading("Real_Time_Second", Ok(Float(s as real)))
  {
    BareReading(es, 1, "Real_Time_Hour", h);
    BareReading(es, 2, "Real_Time_Minute", m);
    BareReading(es, 3, "Real_Time_Second", s);
  }

  /** An element holding a bare integer under a loose tag reads as a float. */
  lemma BareReading(es: seq<Element>, k: nat, tag: string, n: int)
    requires k < |es| && es[k] == Element(tag, Some(IntToString(n))) && Classify(tag) == Loose
    ensures Readings(es)[k] == Reading(tag, Ok(Float(n as real)))
  {
    DecodeBareNumber(tag, n);
  }

  /** The record the clock's reply decodes to: three floats, the chamber id,
      and the bookkeeping of the last element. */
  lemma ClockRecord(id: int, es: seq<Element>, h: int, m: int, s: int)
    requires ClockElements(es, h, m, s)
    ensures Parse(id, es) ==
      Ok(map[Some("hour") := Float(h as real), Some("minute") := Float(m as real),
             Some("second") := Float(s as real), ChamberIdKey := Int(id),
             EnvVarKey := Str("second"), EnvValKey := Float(s as real)])
  {
    var xs := Readings(es);
    assert Parse(id, es) == Assemble(TagMap, id, xs);
    ClockReadings(es, h, m, s);
    ClockEntries();
    ClockAssemble(TagMap, id, xs, Float(h as real), Float(m as real), Float(s as real));
  }

  /** The walk over a wrapper and the three clock readings, under any table
      that names the clock tags as the dictionary does. */
  lemma ClockAssemble(table: map<string, string>, id: int, xs: seq<Reading>, a: Value, b: Value, c: Value)
    requires |xs| == 4 && xs[0].tag == WrapperTag
    requires xs[1] == Reading("Real_Time_Hour", Ok(a))
    requires xs[2] == Reading("Real_Time_Minute", Ok(b))
    requires xs[3] == Reading("Real_Time_Second", Ok(c))
    requires "Real_Time_Hour" in table && table["Real_Time_Hour"] == "hour"
    requires "Real_Time_Minute" in table && table["Real_Time_Minute"] == "minute"
    requires "Real_Time_Second" in table && table["Real_Time_Second"] == "second"
    ensures Assemble(table, id, xs) ==
      Ok(map[Some("hour") := a, Some("minute") := b, Some("second") := c, ChamberIdKey := Int(id),
             EnvVarKey := Str("second"), EnvValKey := c])
  {
    AssembleThree(table, id, xs, "Real_Time_Hour", "Real_Time_Minute", "Real_Time_Second",
                  "hour", "minute", "second", a, b, c);
    ClockUpdates(id, a, b, c);
  }

  /** The updates of the walk over the clock's reply, as one dict. */
  lemma ClockUpdates(id: int, a: Value, b: Value, c: Value)
    ensures map[Some("hour") := a, ChamberIdKey := Int(id), EnvVarKey := Str("hour"), EnvValKey := a]
              [Some("minute") := b][ChamberIdKey := Int(id)][EnvVarKey := Str("minute")][EnvValKey := b]
              [Some("second") := c][ChamberIdKey := Int(id)][EnvVarKey := Str("second")][EnvValKey := c]
         == map[Some("hour") := a, Some("minute") := b, Some("second") := c, ChamberIdKey := Int(id),
                EnvVarKey := Str("second"), EnvValKey := c]
  {
  }

  /** Removing the bookkeeping from the clock's record leaves four keys. */
  lemma StripClockRecord(a: Value, b: Value, c: Value, id: int, x: Value, y: Value)
    ensures map[Some("hour") := a, Some("minute") := b, Some("second") := c, ChamberIdKey := Int(id),
                EnvVarKey := x, EnvValKey := y] - {EnvVarKey} - {EnvValKey}
         == map[Some("hour") := a, Some("minute") := b, Some("second") := c, ChamberIdKey := Int(id)]
  {
  }

  /** `int()` of three whole floats and the chamber id. */
  lemma ClockInts(id: int, h: int, m: int, s: int)
    ensures IntValues(map[Some("hour") := Float(h as real), Some("minute") := Float(m as real),
                          Some("second") := Float(s as real), ChamberIdKey := Int(id)])
         == Ok(map[Some("hour") := Int(h), Some("minute") := Int(m), Some("second") := Int(s), ChamberIdKey := Int(id)])
  {
    var r := map[Some("hour") := Float(h as real), Some("minute") := Float(m as real),
                 Some("second") := Float(s as real), ChamberIdKey := Int(id)];
    var want := map[Some("hour") := Int(h), Some("minute") := Int(m), Some("second") := Int(s), ChamberIdKey := Int(id)];
    WholeFloat(h);
    WholeFloat(m);
    WholeFloat(s);
    assert forall k :: k in r ==> PyInt(r[k]).Ok? && Int(PyInt(r[k]).value) == want[k];
    assert IntValues(r).Ok?;
    var res := IntValues(r).value;
    assert res.Keys == want.Keys;
    assert forall k :: k in res ==> res[k] == want[k];
    assert res == want;
  }

  /** `int(float(n)) == n`. */
  lemma WholeFloat(n: int)
    ensures PyInt(Float(n as real)) == Ok(n)
  {
    if n < 0 {
      assert -(n as real) == (-n) as real;
    }
  }

  /** `get_time` on the clock's reply: hour, minute and second as integers
      beside the chamber id, the bookkeeping gone. */
  lemma ClockTime(id: int, es: seq<Element>, h: int, m: int, s: int)
    requires ClockElements(es, h, m, s)
    ensures TimeOutcome(id, Body(es)) ==
      Ok(map[Some("hour") := Int(h), Some("minute") := Int(m), Some("second") := Int(s), ChamberIdKey := Int(id)])
  {
    ClockRecord(id, es, h, m, s);
    StripClockRecord(Float(h as real), Float(m as real), Float(s as real), id, Str("second"), Float(s as real));
    ClockInts(id, h, m, s);
  }

  class GrowthChamberControl {
    /** The chamber number; it selects the host the client talks to. */
    const chamberId: int

    constructor (chamberId: int)
      ensures this.chamberId == chamberId
    {
      this.chamberId := chamberId;
    }

    /** The walk over the reply's elements, updating one record in place. */
    method ParseResponse(elems: seq<Element>) returns (res: Result<Record>)
      ensures res == Parse(chamberId, elems)
    {
      ghost var xs := Readings(elems);
      var resp: Record := map[];
      var i := 0;
      while i < |elems|
        invariant 0 <= i <= |elems|
        invariant Assemble(TagMap, chamberId, xs[..i]) == Ok(resp)
      {
        var e := elems[i];
        AssembleExtend(TagMap, chamberId, xs, i, resp);
        assert xs[i] == Reading(e.tag, DecodeValue(e.tag, e.text));
        if e.tag != WrapperTag {
          var val := DecodeValue(e.tag, e.text);
          if val.Err? {
            AssemblePrefixError(TagMap, chamberId, xs, i + 1);
            return Err(val.error);
          }
          var name := TagMapper(e.tag);
          ChamberTable(e.tag);
          ghost var prev := resp;
          resp := resp[name := val.value];
          resp := resp[ChamberIdKey := Int(chamberId)];
          if name.Some? {
            resp := resp[EnvVarKey := Str(SplitHead(name.value, '_'))];
          }
          resp := resp[EnvValKey := val.value];
          AbsorbValue(TagMap, chamberId, prev, xs[i], val.value, resp);
        }
        i := i + 1;
      }
      assert xs[..i] == xs;
      return Ok(resp);
    }

    /** `__make_set_request`: `Cmd=write` first, then the caller's pairs
        under their tags, then the decoded reply. */
    method MakeSetRequest(args: Args, reply: Reply) returns (payload: Args, res: Result<Record>)
      ensures payload == WritePayload(args)
      ensures res == WriteOutcome(chamberId, reply)
    {
      payload := [WriteCmd];
      payload := Update(payload, Translate(args));
      match reply
      case Body(es) =>
        res := ParseResponse(es);
      case _ =>
        res := Err(TransportError);
    }

    /** `__get_chamber_values`: one `Tag` per requested name, and the
        sentinel record on a connect timeout. */
    method GetChamberValues(params: seq<string>, reply: Reply) returns (request: ReadRequest, res: Result<Record>)
      ensures request == ReadPayload(params)
      ensures res == ReadOutcome(chamberId, reply)
    {
      request := ReadPayload(params);
      match reply
      case Body(es) =>
        res := ParseResponse(es);
      case ConnectTimeout =>
        res := Ok(ConnectionErrorRecord);
      case TransportFailure =>
        res := Err(TransportError);
    }

    /** Any of the setters. */
    method Send(c: Command, reply: Reply) returns (payload: Args, res: Result<Record>)
      ensures payload == WritePayload(CommandArgs(c))
      ensures res == WriteOutcome(chamberId, reply)
    {
      payload, res := MakeSetRequest(CommandArgs(c), reply);
    }

    /** Any of the getters. */
    method Query(q: Query, reply: Reply) returns (request: ReadRequest, res: Result<Record>)
      ensures request == ReadPayload(QueryParams(q))
      ensures res == ReadOutcome(chamberId, reply)
    {
      request, res := GetChamberValues(QueryParams(q), reply);
    }

    /** `enable_humidity`: the write, whose result is dropped, then
        `get_humidity`. An exception in the write escapes before the read
        is sent. */
    method EnableHumidity(writeReply: Reply, readReply: Reply)
      returns (payload: Args, request: Option<ReadRequest>, res: Result<Record>)
      ensures payload == WritePayload(EnableHumidityArgs)
      ensures WriteOutcome(chamberId, writeReply).Err? ==>
        request == None && res == Err(WriteOutcome(chamberId, writeReply).error)
      ensures WriteOutcome(chamberId, writeReply).Ok? ==>
        request == Some(ReadPayload(QueryParams(GetHumidity))) && res == ReadOutcome(chamberId, readReply)
    {
      var written;
      payload, written := MakeSetRequest(EnableHumidityArgs, writeReply);
      if written.Err? {
        return payload, None, Err(written.error);
      }
      var r;
      var rr;
      r, rr := GetChamberValues(QueryParams(GetHumidity), readReply);
      request := Some(r);
      res := rr;
    }

    /** The loop of `get_time` that makes every value of the record an
        integer, in place. */
    method ConvertToInts(r: Record) returns (res: Result<Record>)
      ensures res == IntValues(r)
    {
      var retVal := r;
      var pending := r.Keys;
      while pending != {}
        invariant pending <= r.Keys && retVal.Keys == r.Keys
        invariant forall k :: k in pending ==> retVal[k] == r[k]
        invariant forall k :: k in r && k !in pending ==> PyInt(r[k]).Ok? && retVal[k] == Int(PyInt(r[k]).value)
        decreases pending
      {
        var k :| k in pending;
        var converted := PyInt(retVal[k]);
        if converted.Err? {
          assert k in r && PyInt(r[k]).Err?;
          return Err(converted.error);
        }
        retVal := retVal[k := Int(converted.value)];
        pending := pending - {k};
      }
      assert retVal == map k | k in r :: Int(PyInt(r[k]).value);
      return Ok(retVal);
    }

    /** `get_time`: read the clock, delete the two bookkeeping keys, and
        make every remaining value an integer, in place. */
    method GetTime(reply: Reply) returns (request: ReadRequest, res: Result<Record>)
      ensures request == ReadPayload(TimeParams)
      ensures res == TimeOutcome(chamberId, reply)
    {
      var read;
      request, read := GetChamberValues(TimeParams, reply);
      if read.Err? {
        return request, Err(read.error);
      }
      var retVal := read.value;
      if EnvVarKey !in retVal {
        return request, Err(KeyError);
      }
      retVal := retVal - {EnvVarKey};
      if EnvValKey !in retVal {
        return request, Err(KeyError);
      }
      retVal := retVal - {EnvValKey};
      res := ConvertToInts(retVal);
    }
  }
}
