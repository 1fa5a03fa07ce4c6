/** The query payloads the client sends: writes and reads, and the fixed
    tag tables of the semantic setters and getters. */
module RequestBuilder {
  import opened PyValues
  import opened PyText
  import opened PyDict
  import opened TagDictionary

  /** Key/value pairs in the order a dict yields them. */
  type Args = seq<(string, Value)>

  /** The pairs with each key put through `f`, values and order kept. */
  function RenameKeys(args: Args, f: string -> string): (r: Args)
    ensures |r| == |args|
    ensures forall i :: 0 <= i < |args| ==> r[i] == (f(args[i].0), args[i].1)
  {
    seq(|args|, i requires 0 <= i < |args| => (f(args[i].0), args[i].1))
  }

  /** The caller's pairs with each key put through `rev.get(k, k)`: a
      parameter name becomes the tag the table maps to it, any other key
      is kept; values and order are kept. */
  function TranslateKeys(args: Args): (r: Args)
    ensures |r| == |args|
    ensures forall i :: 0 <= i < |args| ==>
      && r[i].1 == args[i].1
      && (args[i].0 in TagMap.Values ==> r[i].0 in TagMap && TagMap[r[i].0] == args[i].0)
      && (args[i].0 !in TagMap.Values ==> r[i].0 == args[i].0)
  {
    RenameKeys(args, RevGetOr)
  }

  /** `{rev.get(k, k): v for k, v in tags_dict.items()}`: a dict, so keys
      that translate to one tag collapse into one entry; its keys are the
      translated keys, each once. */
  function Translate(args: Args): (r: Args)
    ensures DistinctKeys(r) && |r| <= |args|
    ensures forall k :: k in KeysOf(r) <==> k in KeysOf(TranslateKeys(args))
  {
    KeysPutAll([], TranslateKeys(args));
    PutAll([], TranslateKeys(args))
  }

  const WriteCmd: (string, Value) := ("Cmd", Str("write"))

  /** The write payload: an OrderedDict holding `Cmd=write`, updated with
      the translated caller pairs. It is a dict whose first key is `Cmd`,
      and its other keys are the translated caller keys. */
  function WritePayload(args: Args): (r: Args)
    ensures DistinctKeys(r)
    ensures |r| >= 1 && r[0].0 == "Cmd"
    ensures forall k :: k in KeysOf(r) <==> k == "Cmd" || k in KeysOf(TranslateKeys(args))
  {
    var t := Translate(args);
    KeysPutAll([WriteCmd], t);
    assert KeysOf([WriteCmd]) == ["Cmd"];
    PutAll([WriteCmd], t)
  }

  /** The read payload: `Cmd=read` and one `Tag` per requested parameter. */
  datatype ReadRequest = ReadRequest(cmd: string, tags: seq<Option<string>>)

  /** `{'Cmd': 'read', 'Tag': [rev.get(p) for p in tags_list]}`: with no
      fallback, so a name the reverse table lacks becomes `None`. */
  function ReadPayload(params: seq<string>): (r: ReadRequest)
    ensures r.cmd == "read" && |r.tags| == |params|
  {
    ReadRequest("read", seq(|params|, i requires 0 <= i < |params| => RevGet(params[i])))
  }

  // --- Lemmas about the write payload --------------------------------------

  /** No caller key translates to `Cmd` unless it is `Cmd` itself. */
  lemma CmdIsNoParameter()
    ensures "Cmd" !in TagMap && "Cmd" !in TagMap.Values
  {
  }

  /** The payload's leading `Cmd` is `write` unless the caller passed a
      `Cmd` key. */
  lemma WriteCmdFirst(args: Args)
    ensures (forall i :: 0 <= i < |args| ==> args[i].0 != "Cmd") ==> WritePayload(args)[0] == WriteCmd
  {
    var t := Translate(args);
    var p := WritePayload(args);
    KeysPutAll([], TranslateKeys(args));
    KeysPutAll([WriteCmd], t);
    assert KeysOf([WriteCmd]) == ["Cmd"];
    assert KeysOf(p)[0] == "Cmd";
    if forall i :: 0 <= i < |args| ==> args[i].0 != "Cmd" {
      CmdIsNoParameter();
      assert "Cmd" !in KeysOf(TranslateKeys(args));
      assert "Cmd" !in KeysOf(t);
      GetPutAll([WriteCmd], t, "Cmd");
      assert Get(p, "Cmd") == Some(Str("write"));
      IndexOfUnique(p, "Cmd", 0);
    }
  }

  /** Every translated key is sent with the value of the LAST caller pair
      that translates to it: keys that collapse keep the later value. */
  lemma WriteLastWins(args: Args, tag: string)
    requires tag != "Cmd"
    ensures Get(WritePayload(args), tag) == LastValue(TranslateKeys(args), tag)
  {
    UpdateLastWins(TranslateKeys(args), tag);
  }

  lemma UpdateLastWins(tk: Args, tag: string)
    requires tag != "Cmd"
    ensures Get(PutAll([WriteCmd], PutAll([], tk)), tag) == LastValue(tk, tag)
  {
    var t := PutAll([], tk);
    KeysPutAll([], tk);
    GetPutAll([], tk, tag);
    assert Get(t, tag) == LastValue(tk, tag);
    GetPutAll([WriteCmd], t, tag);
    LastValueDistinct(t, tag);
    assert KeysOf([WriteCmd]) == ["Cmd"];
  }

  /** When no two caller keys translate to the same tag and none to `Cmd`,
      the payload is `Cmd=write` then every caller pair, translated, in the
      caller's order. */
  lemma WriteInCallerOrder(args: Args)
    requires DistinctKeys([WriteCmd] + TranslateKeys(args))
    ensures WritePayload(args) == [WriteCmd] + TranslateKeys(args)
  {
    UpdateFresh(TranslateKeys(args));
  }

  lemma UpdateFresh(tk: Args)
    requires DistinctKeys([WriteCmd] + tk)
    ensures PutAll([WriteCmd], PutAll([], tk)) == [WriteCmd] + tk
  {
    DistinctTail(WriteCmd, tk);
    PutAllFromEmpty(tk);
    PutAllFresh([WriteCmd], tk);
  }

  // --- Lemmas about the read payload ---------------------------------------

  /** Each requested name becomes the tag that maps back to it, and a name
      the reverse table lacks becomes `None`: there is no passthrough. */
  lemma ReadTags(params: seq<string>, i: nat)
    requires i < |params|
    ensures params[i] in TagMap.Values ==>
      ReadPayload(params).tags[i].Some? && TagMapper(ReadPayload(params).tags[i].value) == Some(params[i])
    ensures params[i] !in TagMap.Values ==> ReadPayload(params).tags[i] == None
  {
  }

  /** A device tag asked for by its own name is not passed through. */
  lemma ReadNoPassthrough()
    ensures ReadPayload(["PV_1"]).tags == [None]
  {
    assert "PV_1" !in TagMap.Values;
  }

  /** A caller list whose keys the table translates one by one. */
  lemma TranslateByNames(args: Args, tk: Args)
    requires |args| == |tk|
    requires forall i :: 0 <= i < |args| ==> tk[i] == (RevGetOr(args[i].0), args[i].1)
    ensures TranslateKeys(args) == tk
  {
  }

  /** Seven keys sent with one value, each renamed by `f` to its own tag. */
  lemma RenameSeven(f: string -> string,
                    k1: string, k2: string, k3: string, k4: string, k5: string, k6: string, k7: string,
                    t1: string, t2: string, t3: string, t4: string, t5: string, t6: string, t7: string, v: Value)
    requires f(k1) == t1 && f(k2) == t2 && f(k3) == t3 && f(k4) == t4
    requires f(k5) == t5 && f(k6) == t6 && f(k7) == t7
    ensures RenameKeys([(k1, v), (k2, v), (k3, v), (k4, v), (k5, v), (k6, v), (k7, v)], f)
         == [(t1, v), (t2, v), (t3, v), (t4, v), (t5, v), (t6, v), (t7, v)]
  {
  }

  /** Once the translated pairs are known and distinct, so is the payload. */
  lemma WriteTranslated(args: Args, tk: Args)
    requires TranslateKeys(args) == tk && DistinctKeys([WriteCmd] + tk)
    ensures WritePayload(args) == [WriteCmd] + tk
  {
    WriteInCallerOrder(args);
  }

  /** A one-pair write whose key translates to tag `t`. */
  lemma OnePairPayload(k: string, t: string, v: Value)
    requires RevGetOr(k) == t && t != "Cmd"
    ensures WritePayload([(k, v)]) == [WriteCmd, (t, v)]
  {
    var tk := [(t, v)];
    TranslateByNames([(k, v)], tk);
    OneTranslatedPayload([(k, v)], t, v);
  }

  lemma OneTranslatedPayload(args: Args, t: string, v: Value)
    requires TranslateKeys(args) == [(t, v)] && t != "Cmd"
    ensures WritePayload(args) == [WriteCmd, (t, v)]
  {
    var tk := [(t, v)];
    var full := [WriteCmd, (t, v)];
    assert [WriteCmd] + tk == full;
    WriteTranslated(args, tk);
  }

  /** A two-pair write whose keys translate to two different tags. */
  lemma TwoPairPayload(k1: string, t1: string, v1: Value, k2: string, t2: string, v2: Value)
    requires RevGetOr(k1) == t1 && RevGetOr(k2) == t2
    requires t1 != "Cmd" && t2 != "Cmd" && t1 != t2
    ensures WritePayload([(k1, v1), (k2, v2)]) == [WriteCmd, (t1, v1), (t2, v2)]
  {
    var args := [(k1, v1), (k2, v2)];
    TranslateByNames(args, [(t1, v1), (t2, v2)]);
    TwoTranslatedPayload(args, t1, v1, t2, v2);
  }

  lemma TwoTranslatedPayload(args: Args, t1: string, v1: Value, t2: string, v2: Value)
    requires TranslateKeys(args) == [(t1, v1), (t2, v2)]
    requires t1 != "Cmd" && t2 != "Cmd" && t1 != t2
    ensures WritePayload(args) == [WriteCmd, (t1, v1), (t2, v2)]
  {
    var tk := [(t1, v1), (t2, v2)];
    var full := [WriteCmd, (t1, v1), (t2, v2)];
    assert [WriteCmd] + tk == full;
    WriteTranslated(args, tk);
  }
}
