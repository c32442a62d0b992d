/**
 * The older macro-generated encoder: four parameter structs whose fields are all optional, and
 * their `to_uri`, which appends `&name=value` for every field that is `Some`, in declaration
 * order, with no suppression of defaults.
 */
module Parameters {
  import opened Wrappers
  import opened Text
  import opened Format
  import opened Query
  import WireNames

  /** `Display` of an optional `i32` field: its decimal text. */
  function ShowInt(v: Option<int32>): Option<string> {
    match v
    case Some(x) => Some(Decimal(x))
    case None => None
  }

  /** `Display` of an optional `bool` field: `true` or `false`. */
  function ShowBool(v: Option<bool>): Option<string> {
    match v
    case Some(b) => Some(FormatBool(b))
    case None => None
  }

  /** What one field contributes: its pair when it is `Some`, nothing when it is `None`. */
  function Field(name: string, v: Option<string>): seq<Pair> {
    match v
    case Some(s) => [(name, s)]
    case None => []
  }

  function SomeCount(v: Option<string>): nat {
    if v.Some? then 1 else 0
  }

  /**
   * One step of `to_uri`: `uri = format!("{}&{}={}", uri, name, value)` when the field is
   * `Some`, no change otherwise.  `done` is the pairs written so far.
   */
  method PushField(uri: string, ghost done: seq<Pair>, name: string, v: Option<string>)
    returns (uri': string, ghost done': seq<Pair>)
    requires uri == UrlEncoded(done)
    ensures uri' == UrlEncoded(done + Field(name, v))
    ensures done' == done + Field(name, v)
  {
    if v.Some? {
      uri' := uri + "&" + name + "=" + v.value;
      done' := done + [(name, v.value)];
      UrlEncodedSnoc(done, (name, v.value));
    } else {
      uri' := uri;
      done' := done;
      assert done + [] == done;
    }
  }

  /** Shape of any `to_uri` output, given the pairs it writes. */
  lemma UriShape(fields: seq<Pair>)
    ensures UrlEncoded(fields) == "" <==> fields == []
    ensures fields != [] ==> UrlEncoded(fields)[0] == '&'
    ensures PlainPairs(fields) ==> ParseQuery(UrlEncoded(fields)) == Some(fields)
    ensures PlainPairs(fields) ==> CountChar(UrlEncoded(fields), '&') == |fields|
  {
    UrlEncodedShape(fields);
    if PlainPairs(fields) {
      ParseUrlEncoded(fields);
      AmpersandCount(fields);
    }
  }

  lemma {:induction false} PlainConcat(p: seq<Pair>, q: seq<Pair>)
    requires PlainPairs(p) && PlainPairs(q)
    ensures PlainPairs(p + q)
  {
    forall k | 0 <= k < |p + q| ensures Plain((p + q)[k].0) && Plain((p + q)[k].1) {
      if k >= |p| {
        assert (p + q)[k] == q[k - |p|];
      }
    }
  }

  lemma PlainSnoc(acc: seq<Pair>, name: string, v: Option<string>)
    requires PlainPairs(acc) && Plain(name) && (v.Some? ==> Plain(v.value))
    ensures PlainPairs(acc + Field(name, v))
  {
    FieldPlain(name, v);
    PlainConcat(acc, Field(name, v));
  }

  /** The one pair a field may contribute. */
  lemma FieldMember(name: string, v: Option<string>, p: Pair)
    ensures p in Field(name, v) <==> v.Some? && p == (name, v.value)
  {
  }

  /** Pairs are plain when every pair in them is. */
  lemma PlainMembers(pairs: seq<Pair>)
    requires forall p :: p in pairs ==> Plain(p.0) && Plain(p.1)
    ensures PlainPairs(pairs)
  {
    forall k | 0 <= k < |pairs| ensures Plain(pairs[k].0) && Plain(pairs[k].1) {
      assert pairs[k] in pairs;
    }
  }

  lemma FieldLength(name: string, v: Option<string>)
    ensures |Field(name, v)| == SomeCount(v)
  {
  }

  /** A field whose name and value are free of `&` and `=` contributes plain pairs. */
  lemma FieldPlain(name: string, v: Option<string>)
    requires Plain(name) && (v.Some? ==> Plain(v.value))
    ensures PlainPairs(Field(name, v))
  {
  }

  lemma ShowIntPlain(v: Option<int32>)
    ensures ShowInt(v).Some? ==> Plain(ShowInt(v).value)
  {
    if v.Some? {
      DecimalIsValueText(v.value);
      ValueTextDelimiters(Decimal(v.value));
    }
  }

  lemma ShowBoolPlain(v: Option<bool>)
    ensures ShowBool(v).Some? ==> Plain(ShowBool(v).value)
  {
    if v.Some? {
      ValueTextDelimiters(FormatBool(v.value));
    }
  }

  // DefinitionArgs

  datatype DefinitionArgs = DefinitionArgs(
    limit: Option<int32>,
    partOfSpeech: Option<bool>,
    includeRelated: Option<string>,
    sourceDictionaries: Option<string>,
    useCanonical: Option<bool>,
    includeTags: Option<bool>)

  /** `DefinitionArgs::default()`: `limit` is `Some(200)`, every other field `None`. */
  function DefinitionDefault(): DefinitionArgs {
    DefinitionArgs(Some(200), None, None, None, None, None)
  }

  /** The pairs `to_uri` writes for a `DefinitionArgs`, in declaration order. */
  function DefinitionFields(a: DefinitionArgs): seq<Pair> {
    Field("limit", ShowInt(a.limit))
    + Field("partOfSpeech", ShowBool(a.partOfSpeech))
    + Field("includeRelated", a.includeRelated)
    + Field("sourceDictionaries", a.sourceDictionaries)
    + Field("useCanonical", ShowBool(a.useCanonical))
    + Field("includeTags", ShowBool(a.includeTags))
  }

  /** The number of fields that are `Some`. */
  function DefinitionSomeCount(a: DefinitionArgs): nat {
    SomeCount(ShowInt(a.limit)) + SomeCount(ShowBool(a.partOfSpeech)) + SomeCount(a.includeRelated)
    + SomeCount(a.sourceDictionaries) + SomeCount(ShowBool(a.useCanonical)) + SomeCount(ShowBool(a.includeTags))
  }

  method DefinitionToUri(a: DefinitionArgs) returns (uri: string)
    ensures uri == UrlEncoded(DefinitionFields(a))
  {
    uri := "";
    ghost var done: seq<Pair> := [];
    uri, done := PushField(uri, done, "limit", ShowInt(a.limit));
    uri, done := PushField(uri, done, "partOfSpeech", ShowBool(a.partOfSpeech));
    uri, done := PushField(uri, done, "includeRelated", a.includeRelated);
    uri, done := PushField(uri, done, "sourceDictionaries", a.sourceDictionaries);
    uri, done := PushField(uri, done, "useCanonical", ShowBool(a.useCanonical));
    uri, done := PushField(uri, done, "includeTags", ShowBool(a.includeTags));
    assert [] + Field("limit", ShowInt(a.limit)) == Field("limit", ShowInt(a.limit));
  }

  /**
   * One pair per `Some` field, so the text is empty exactly when every field is `None`, starts
   * with `&` otherwise, and reads back (one `&` per pair) when the text fields hold no `&` or `=`.
   */
  lemma DefinitionUri(a: DefinitionArgs)
    ensures |DefinitionFields(a)| == DefinitionSomeCount(a)
    ensures UrlEncoded(DefinitionFields(a)) == "" <==> DefinitionSomeCount(a) == 0
    ensures DefinitionSomeCount(a) > 0 ==> UrlEncoded(DefinitionFields(a))[0] == '&'
    ensures (a.includeRelated.Some? ==> Plain(a.includeRelated.value))
            && (a.sourceDictionaries.Some? ==> Plain(a.sourceDictionaries.value))
            ==> ParseQuery(UrlEncoded(DefinitionFields(a))) == Some(DefinitionFields(a))
                && CountChar(UrlEncoded(DefinitionFields(a)), '&') == DefinitionSomeCount(a)
  {
    DefinitionCount(a);
    UriShape(DefinitionFields(a));
    if (a.includeRelated.Some? ==> Plain(a.includeRelated.value))
       && (a.sourceDictionaries.Some? ==> Plain(a.sourceDictionaries.value)) {
      DefinitionPlain(a);
    }
  }

  lemma DefinitionCount(a: DefinitionArgs)
    ensures |DefinitionFields(a)| == DefinitionSomeCount(a)
  {
    FieldLength("limit", ShowInt(a.limit));
    FieldLength("partOfSpeech", ShowBool(a.partOfSpeech));
    FieldLength("includeRelated", a.includeRelated);
    FieldLength("sourceDictionaries", a.sourceDictionaries);
    FieldLength("useCanonical", ShowBool(a.useCanonical));
    FieldLength("includeTags", ShowBool(a.includeTags));
  }


  lemma DefinitionPlain(a: DefinitionArgs)
    requires a.includeRelated.Some? ==> Plain(a.includeRelated.value)
    requires a.sourceDictionaries.Some? ==> Plain(a.sourceDictionaries.value)
    ensures PlainPairs(DefinitionFields(a))
  {
    ShowIntPlain(a.limit);
    ShowBoolPlain(a.partOfSpeech);
    ShowBoolPlain(a.useCanonical);
    ShowBoolPlain(a.includeTags);
    WireNames.LimitPlain();
    WireNames.PartOfSpeechPlain();
    WireNames.IncludeRelatedPlain();
    WireNames.SourceDictionariesPlain();
    WireNames.UseCanonicalPlain();
    WireNames.IncludeTagsPlain();
    forall p | p in DefinitionFields(a) ensures Plain(p.0) && Plain(p.1) {
      FieldMember("limit", ShowInt(a.limit), p);
      FieldMember("partOfSpeech", ShowBool(a.partOfSpeech), p);
      FieldMember("includeRelated", a.includeRelated, p);
      FieldMember("sourceDictionaries", a.sourceDictionaries, p);
      FieldMember("useCanonical", ShowBool(a.useCanonical), p);
      FieldMember("includeTags", ShowBool(a.includeTags), p);
    }
    PlainMembers(DefinitionFields(a));
  }

  /** There is no default suppression: the default already sends `limit=200`, and setting
      `includeTags` adds its pair after it. */
  lemma DefinitionIncludeTags(b: bool)
    ensures DefinitionFields(DefinitionDefault()) == [("limit", Decimal(200))]
    ensures DefinitionFields(DefinitionDefault().(includeTags := Some(b)))
            == [("limit", Decimal(200)), ("includeTags", FormatBool(b))]
  {
  }

  /** `includeTags: Some(true)` over the default gives `&limit=200&includeTags=true`. */
  method DefinitionIncludeTagsUri() returns (uri: string)
    ensures uri == "&limit=200&includeTags=true"
  {
    var v := true;
    uri := DefinitionToUri(DefinitionDefault().(includeTags := Some(v)));
    DefinitionIncludeTags(v);
    assert Decimal(200) == "200";
    UrlEncodedSmall(("limit", "200"), ("includeTags", "true"));
    IncludeTagsText();
  }

  lemma IncludeTagsText()
    ensures Segment(("limit", "200")) + Segment(("includeTags", "true")) == "&limit=200&includeTags=true"
  {
  }

  // EtymologiesArgs

  datatype EtymologiesArgs = EtymologiesArgs(useCanonical: Option<bool>)

  /** `EtymologiesArgs::default()`: `useCanonical` is `None`. */
  function EtymologiesDefault(): EtymologiesArgs {
    EtymologiesArgs(None)
  }

  function EtymologiesFields(a: EtymologiesArgs): seq<Pair> {
    Field("useCanonical", ShowBool(a.useCanonical))
  }

  method EtymologiesToUri(a: EtymologiesArgs) returns (uri: string)
    ensures uri == UrlEncoded(EtymologiesFields(a))
  {
    uri := "";
    ghost var done: seq<Pair> := [];
    uri, done := PushField(uri, done, "useCanonical", ShowBool(a.useCanonical));
    assert [] + EtymologiesFields(a) == EtymologiesFields(a);
  }

  /** The one field is sent exactly when it is `Some`, and reads back. */
  lemma EtymologiesUri(a: EtymologiesArgs)
    ensures UrlEncoded(EtymologiesFields(a)) == "" <==> a.useCanonical.None?
    ensures a.useCanonical.Some? ==>
              UrlEncoded(EtymologiesFields(a)) == "&" + "useCanonical" + "=" + FormatBool(a.useCanonical.value)
    ensures ParseQuery(UrlEncoded(EtymologiesFields(a))) == Some(EtymologiesFields(a))
  {
    var fs := EtymologiesFields(a);
    UriShape(fs);
    ShowBoolPlain(a.useCanonical);
    FieldPlain("useCanonical", ShowBool(a.useCanonical));
    if a.useCanonical.Some? {
      UrlEncodedSmall(fs[0], fs[0]);
    }
  }

  /** `useCanonical: Some(true)` gives `&useCanonical=true`. */
  method EtymologiesUseCanonicalUri() returns (uri: string)
    ensures uri == "&useCanonical=true"
  {
    var v := true;
    uri := EtymologiesToUri(EtymologiesDefault().(useCanonical := Some(v)));
    EtymologiesUri(EtymologiesDefault().(useCanonical := Some(v)));
    UseCanonicalText();
  }

  lemma UseCanonicalText()
    ensures "&" + "useCanonical" + "=" + "true" == "&useCanonical=true"
  {
  }

  // RandomWordArgs

  datatype RandomWordArgs = RandomWordArgs(
    hasDictionaryDef: Option<bool>,
    includePartOfSpeech: Option<string>,
    excludePartOfSpeech: Option<string>,
    minCorpusCount: Option<int32>,
    maxCorpusCount: Option<int32>,
    minDictionaryCount: Option<int32>,
    maxDictionaryCount: Option<int32>,
    minLength: Option<int32>,
    maxLength: Option<int32>)

  /** `RandomWordArgs::default()`: every field `None`. */
  function RandomWordDefault(): RandomWordArgs {
    RandomWordArgs(None, None, None, None, None, None, None, None, None)
  }

  function RandomWordFields(a: RandomWordArgs): seq<Pair> {
    Field("hasDictionaryDef", ShowBool(a.hasDictionaryDef))
    + Field("includePartOfSpeech", a.includePartOfSpeech)
    + Field("excludePartOfSpeech", a.excludePartOfSpeech)
    + Field("minCorpusCount", ShowInt(a.minCorpusCount))
    + Field("maxCorpusCount", ShowInt(a.maxCorpusCount))
    + Field("minDictionaryCount", ShowInt(a.minDictionaryCount))
    + Field("maxDictionaryCount", ShowInt(a.maxDictionaryCount))
    + Field("minLength", ShowInt(a.minLength))
    + Field("maxLength", ShowInt(a.maxLength))
  }

  method RandomWordToUri(a: RandomWordArgs) returns (uri: string)
    ensures uri == UrlEncoded(RandomWordFields(a))
  {
    uri := "";
    ghost var done: seq<Pair> := [];
    uri, done := PushField(uri, done, "hasDictionaryDef", ShowBool(a.hasDictionaryDef));
    uri, done := PushField(uri, done, "includePartOfSpeech", a.includePartOfSpeech);
    uri, done := PushField(uri, done, "excludePartOfSpeech", a.excludePartOfSpeech);
    uri, done := PushField(uri, done, "minCorpusCount", ShowInt(a.minCorpusCount));
    uri, done := PushField(uri, done, "maxCorpusCount", ShowInt(a.maxCorpusCount));
    uri, done := PushField(uri, done, "minDictionaryCount", ShowInt(a.minDictionaryCount));
    uri, done := PushField(uri, done, "maxDictionaryCount", ShowInt(a.maxDictionaryCount));
    uri, done := PushField(uri, done, "minLength", ShowInt(a.minLength));
    uri, done := PushField(uri, done, "maxLength", ShowInt(a.maxLength));
    assert [] + Field("hasDictionaryDef", ShowBool(a.hasDictionaryDef)) == Field("hasDictionaryDef", ShowBool(a.hasDictionaryDef));
  }

  /** The number of fields that are `Some`. */
  function RandomWordSomeCount(a: RandomWordArgs): nat {
    SomeCount(ShowBool(a.hasDictionaryDef)) + SomeCount(a.includePartOfSpeech) + SomeCount(a.excludePartOfSpeech) + SomeCount(ShowInt(a.minCorpusCount)) + SomeCount(ShowInt(a.maxCorpusCount)) + SomeCount(ShowInt(a.minDictionaryCount)) + SomeCount(ShowInt(a.maxDictionaryCount)) + SomeCount(ShowInt(a.minLength)) + SomeCount(ShowInt(a.maxLength))
  }

  /**
   * One pair per `Some` field, so the text is empty exactly when every field is `None`, starts
   * with `&` otherwise, and reads back (one `&` per pair) when the text fields hold no `&` or `=`.
   */
  lemma RandomWordUri(a: RandomWordArgs)
    ensures |RandomWordFields(a)| == RandomWordSomeCount(a)
    ensures UrlEncoded(RandomWordFields(a)) == "" <==> RandomWordSomeCount(a) == 0
    ensures RandomWordSomeCount(a) > 0 ==> UrlEncoded(RandomWordFields(a))[0] == '&'
    ensures (a.includePartOfSpeech.Some? ==> Plain(a.includePartOfSpeech.value)) && (a.excludePartOfSpeech.Some? ==> Plain(a.excludePartOfSpeech.value))
            ==> ParseQuery(UrlEncoded(RandomWordFields(a))) == Some(RandomWordFields(a))
                && CountChar(UrlEncoded(RandomWordFields(a)), '&') == RandomWordSomeCount(a)
  {
    RandomWordCount(a);
    UriShape(RandomWordFields(a));
    if (a.includePartOfSpeech.Some? ==> Plain(a.includePartOfSpeech.value)) && (a.excludePartOfSpeech.Some? ==> Plain(a.excludePartOfSpeech.value)) {
      RandomWordPlain(a);
    }
  }

  lemma RandomWordCount(a: RandomWordArgs)
    ensures |RandomWordFields(a)| == RandomWordSomeCount(a)
  {
    FieldLength("hasDictionaryDef", ShowBool(a.hasDictionaryDef));
    FieldLength("includePartOfSpeech", a.includePartOfSpeech);
    FieldLength("excludePartOfSpeech", a.excludePartOfSpeech);
    FieldLength("minCorpusCount", ShowInt(a.minCorpusCount));
    FieldLength("maxCorpusCount", ShowInt(a.maxCorpusCount));
    FieldLength("minDictionaryCount", ShowInt(a.minDictionaryCount));
    FieldLength("maxDictionaryCount", ShowInt(a.maxDictionaryCount));
    FieldLength("minLength", ShowInt(a.minLength));
    FieldLength("maxLength", ShowInt(a.maxLength));
  }

  lemma RandomWordPlain(a: RandomWordArgs)
    requires a.includePartOfSpeech.Some? ==> Plain(a.includePartOfSpeech.value)
    requires a.excludePartOfSpeech.Some? ==> Plain(a.excludePartOfSpeech.value)
    ensures PlainPairs(RandomWordFields(a))
  {
    ShowBoolPlain(a.hasDictionaryDef);
    ShowIntPlain(a.minCorpusCount);
    ShowIntPlain(a.maxCorpusCount);
    ShowIntPlain(a.minDictionaryCount);
    ShowIntPlain(a.maxDictionaryCount);
    ShowIntPlain(a.minLength);
    ShowIntPlain(a.maxLength);
    WireNames.HasDictionaryDefPlain();
    WireNames.IncludePartOfSpeechPlain();
    WireNames.ExcludePartOfSpeechPlain();
    WireNames.MinCorpusCountPlain();
    WireNames.MaxCorpusCountPlain();
    WireNames.MinDictionaryCountPlain();
    WireNames.MaxDictionaryCountPlain();
    WireNames.MinLengthPlain();
    WireNames.MaxLengthPlain();
    forall p | p in RandomWordFields(a) ensures Plain(p.0) && Plain(p.1) {
      FieldMember("hasDictionaryDef", ShowBool(a.hasDictionaryDef), p);
      FieldMember("includePartOfSpeech", a.includePartOfSpeech, p);
      FieldMember("excludePartOfSpeech", a.excludePartOfSpeech, p);
      FieldMember("minCorpusCount", ShowInt(a.minCorpusCount), p);
      FieldMember("maxCorpusCount", ShowInt(a.maxCorpusCount), p);
      FieldMember("minDictionaryCount", ShowInt(a.minDictionaryCount), p);
      FieldMember("maxDictionaryCount", ShowInt(a.maxDictionaryCount), p);
      FieldMember("minLength", ShowInt(a.minLength), p);
      FieldMember("maxLength", ShowInt(a.maxLength), p);
    }
    PlainMembers(RandomWordFields(a));
  }

  /** The default sends nothing; `minCorpusCount: Some(10)` alone gives `&minCorpusCount=10`. */
  lemma RandomWordMinCorpus(n: int32)
    ensures RandomWordFields(RandomWordDefault()) == []
    ensures RandomWordFields(RandomWordDefault().(minCorpusCount := Some(n))) == [("minCorpusCount", Decimal(n))]
  {
  }

  method RandomWordMinCorpusUri() returns (uri: string)
    ensures uri == "&minCorpusCount=10"
  {
    var n: int32 := 10;
    uri := RandomWordToUri(RandomWordDefault().(minCorpusCount := Some(n)));
    RandomWordMinCorpus(n);
    assert Decimal(10) == "10";
    UrlEncodedSmall(("minCorpusCount", "10"), ("minCorpusCount", "10"));
    MinCorpusText();
  }

  lemma MinCorpusText()
    ensures Segment(("minCorpusCount", "10")) == "&minCorpusCount=10"
  {
  }

  // RandomWordsArgs

  datatype RandomWordsArgs = RandomWordsArgs(
    hasDictionaryDef: Option<bool>,
    includePartOfSpeech: Option<string>,
    excludePartOfSpeech: Option<string>,
    minCorpusCount: Option<int32>,
    maxCorpusCount: Option<int32>,
    minDictionaryCount: Option<int32>,
    maxDictionaryCount: Option<int32>,
    minLength: Option<int32>,
    maxLength: Option<int32>,
    sortBy: Option<string>,
    sortOrder: Option<string>,
    limit: Option<int32>)

  /** `RandomWordsArgs::default()`: `limit` is `Some(10)`, every other field `None`. */
  function RandomWordsDefault(): RandomWordsArgs {
    RandomWordsArgs(None, None, None, None, None, None, None, None, None, None, None, Some(10))
  }

  function RandomWordsFields(a: RandomWordsArgs): seq<Pair> {
    Field("hasDictionaryDef", ShowBool(a.hasDictionaryDef))
    + Field("includePartOfSpeech", a.includePartOfSpeech)
    + Field("excludePartOfSpeech", a.excludePartOfSpeech)
    + Field("minCorpusCount", ShowInt(a.minCorpusCount))
    + Field("maxCorpusCount", ShowInt(a.maxCorpusCount))
    + Field("minDictionaryCount", ShowInt(a.minDictionaryCount))
    + Field("maxDictionaryCount", ShowInt(a.maxDictionaryCount))
    + Field("minLength", ShowInt(a.minLength))
    + Field("maxLength", ShowInt(a.maxLength))
    + Field("sortBy", a.sortBy)
    + Field("sortOrder", a.sortOrder)
    + Field("limit", ShowInt(a.limit))
  }

  method RandomWordsToUri(a: RandomWordsArgs) returns (uri: string)
    ensures uri == UrlEncoded(RandomWordsFields(a))
  {
    uri := "";
    ghost var done: seq<Pair> := [];
    uri, done := PushField(uri, done, "hasDictionaryDef", ShowBool(a.hasDictionaryDef));
    uri, done := PushField(uri, done, "includePartOfSpeech", a.includePartOfSpeech);
    uri, done := PushField(uri, done, "excludePartOfSpeech", a.excludePartOfSpeech);
    uri, done := PushField(uri, done, "minCorpusCount", ShowInt(a.minCorpusCount));
    uri, done := PushField(uri, done, "maxCorpusCount", ShowInt(a.maxCorpusCount));
    uri, done := PushField(uri, done, "minDictionaryCount", ShowInt(a.minDictionaryCount));
    uri, done := PushField(uri, done, "maxDictionaryCount", ShowInt(a.maxDictionaryCount));
    uri, done := PushField(uri, done, "minLength", ShowInt(a.minLength));
    uri, done := PushField(uri, done, "maxLength", ShowInt(a.maxLength));
    uri, done := PushField(uri, done, "sortBy", a.sortBy);
    uri, done := PushField(uri, done, "sortOrder", a.sortOrder);
    uri, done := PushField(uri, done, "limit", ShowInt(a.limit));
    assert [] + Field("hasDictionaryDef", ShowBool(a.hasDictionaryDef)) == Field("hasDictionaryDef", ShowBool(a.hasDictionaryDef));
  }

  /** The number of fields that are `Some`. */
  function RandomWordsSomeCount(a: RandomWordsArgs): nat {
    SomeCount(ShowBool(a.hasDictionaryDef)) + SomeCount(a.includePartOfSpeech) + SomeCount(a.excludePartOfSpeech) + SomeCount(ShowInt(a.minCorpusCount)) + SomeCount(ShowInt(a.maxCorpusCount)) + SomeCount(ShowInt(a.minDictionaryCount)) + SomeCount(ShowInt(a.maxDictionaryCount)) + SomeCount(ShowInt(a.minLength)) + SomeCount(ShowInt(a.maxLength)) + SomeCount(a.sortBy) + SomeCount(a.sortOrder) + SomeCount(ShowInt(a.limit))
  }

  /**
   * One pair per `Some` field, so the text is empty exactly when every field is `None`, starts
   * with `&` otherwise, and reads back (one `&` per pair) when the text fields hold no `&` or `=`.
   */
  lemma RandomWordsUri(a: RandomWordsArgs)
    ensures |RandomWordsFields(a)| == RandomWordsSomeCount(a)
    ensures UrlEncoded(RandomWordsFields(a)) == "" <==> RandomWordsSomeCount(a) == 0
    ensures RandomWordsSomeCount(a) > 0 ==> UrlEncoded(RandomWordsFields(a))[0] == '&'
    ensures (a.includePartOfSpeech.Some? ==> Plain(a.includePartOfSpeech.value)) && (a.excludePartOfSpeech.Some? ==> Plain(a.excludePartOfSpeech.value)) && (a.sortBy.Some? ==> Plain(a.sortBy.value)) && (a.sortOrder.Some? ==> Plain(a.sortOrder.value))
            ==> ParseQuery(UrlEncoded(RandomWordsFields(a))) == Some(RandomWordsFields(a))
                && CountChar(UrlEncoded(RandomWordsFields(a)), '&') == RandomWordsSomeCount(a)
  {
    RandomWordsCount(a);
    UriShape(RandomWordsFields(a));
    if (a.includePartOfSpeech.Some? ==> Plain(a.includePartOfSpeech.value)) && (a.excludePartOfSpeech.Some? ==> Plain(a.excludePartOfSpeech.value)) && (a.sortBy.Some? ==> Plain(a.sortBy.value)) && (a.sortOrder.Some? ==> Plain(a.sortOrder.value)) {
      RandomWordsPlain(a);
    }
  }

  lemma RandomWordsCount(a: RandomWordsArgs)
    ensures |RandomWordsFields(a)| == RandomWordsSomeCount(a)
  {
    FieldLength("hasDictionaryDef", ShowBool(a.hasDictionaryDef));
    FieldLength("includePartOfSpeech", a.includePartOfSpeech);
    FieldLength("excludePartOfSpeech", a.excludePartOfSpeech);
    FieldLength("minCorpusCount", ShowInt(a.minCorpusCount));
    FieldLength("maxCorpusCount", ShowInt(a.maxCorpusCount));
    FieldLength("minDictionaryCount", ShowInt(a.minDictionaryCount));
    FieldLength("maxDictionaryCount", ShowInt(a.maxDictionaryCount));
    FieldLength("minLength", ShowInt(a.minLength));
    FieldLength("maxLength", ShowInt(a.maxLength));
    FieldLength("sortBy", a.sortBy);
    FieldLength("sortOrder", a.sortOrder);
    FieldLength("limit", ShowInt(a.limit));
  }

  lemma RandomWordsPlain(a: RandomWordsArgs)
    requires a.includePartOfSpeech.Some? ==> Plain(a.includePartOfSpeech.value)
    requires a.excludePartOfSpeech.Some? ==> Plain(a.excludePartOfSpeech.value)
    requires a.sortBy.Some? ==> Plain(a.sortBy.value)
    requires a.sortOrder.Some? ==> Plain(a.sortOrder.value)
    ensures PlainPairs(RandomWordsFields(a))
  {
    ShowBoolPlain(a.hasDictionaryDef);
    ShowIntPlain(a.minCorpusCount);
    ShowIntPlain(a.maxCorpusCount);
    ShowIntPlain(a.minDictionaryCount);
    ShowIntPlain(a.maxDictionaryCount);
    ShowIntPlain(a.minLength);
    ShowIntPlain(a.maxLength);
    ShowIntPlain(a.limit);
    WireNames.HasDictionaryDefPlain();
    WireNames.IncludePartOfSpeechPlain();
    WireNames.ExcludePartOfSpeechPlain();
    WireNames.MinCorpusCountPlain();
    WireNames.MaxCorpusCountPlain();
    WireNames.MinDictionaryCountPlain();
    WireNames.MaxDictionaryCountPlain();
    WireNames.MinLengthPlain();
    WireNames.MaxLengthPlain();
    WireNames.SortByPlain();
    WireNames.SortOrderPlain();
    WireNames.LimitPlain();
    forall p | p in RandomWordsFields(a) ensures Plain(p.0) && Plain(p.1) {
      FieldMember("hasDictionaryDef", ShowBool(a.hasDictionaryDef), p);
      FieldMember("includePartOfSpeech", a.includePartOfSpeech, p);
      FieldMember("excludePartOfSpeech", a.excludePartOfSpeech, p);
      FieldMember("minCorpusCount", ShowInt(a.minCorpusCount), p);
      FieldMember("maxCorpusCount", ShowInt(a.maxCorpusCount), p);
      FieldMember("minDictionaryCount", ShowInt(a.minDictionaryCount), p);
      FieldMember("maxDictionaryCount", ShowInt(a.maxDictionaryCount), p);
      FieldMember("minLength", ShowInt(a.minLength), p);
      FieldMember("maxLength", ShowInt(a.maxLength), p);
      FieldMember("sortBy", a.sortBy, p);
      FieldMember("sortOrder", a.sortOrder, p);
      FieldMember("limit", ShowInt(a.limit), p);
    }
    PlainMembers(RandomWordsFields(a));
  }

  /** `limit` is last and defaults to `Some(10)`, so it follows any other field that is set. */
  lemma RandomWordsMinCorpus(n: int32)
    ensures RandomWordsFields(RandomWordsDefault()) == [("limit", Decimal(10))]
    ensures RandomWordsFields(RandomWordsDefault().(minCorpusCount := Some(n)))
            == [("minCorpusCount", Decimal(n)), ("limit", Decimal(10))]
  {
  }

  method RandomWordsMinCorpusUri() returns (uri: string)
    ensures uri == "&minCorpusCount=10&limit=10"
  {
    var n: int32 := 10;
    uri := RandomWordsToUri(RandomWordsDefault().(minCorpusCount := Some(n)));
    RandomWordsMinCorpus(n);
    assert Decimal(10) == "10";
    UrlEncodedSmall(("minCorpusCount", "10"), ("limit", "10"));
    MinCorpusLimitText();
  }

  lemma MinCorpusLimitText()
    ensures Segment(("minCorpusCount", "10")) + Segment(("limit", "10")) == "&minCorpusCount=10&limit=10"
  {
  }
}
