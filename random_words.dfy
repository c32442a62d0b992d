/**
 * `RandomWordsArgs`: the options of a random-words query, its iterator `RandomWordsArgsIter`
 * (one arm per field, skipping fields at their default) and `to_urlencoded` over it.
 */
module RandomWords {
  import opened Wrappers
  import opened Text
  import opened Format
  import opened Query
  import Emission
  import WireNames

  /** `RandomWordsArgs::DEFAULT_MIN`, `DEFAULT_MAX`, `DEFAULT_MIN_LENGTH` and `DEFAULT_LIMIT`. */
  const DefaultMin: uint32 := 1
  const DefaultMax: int32 := -1
  const DefaultMinLength: uint32 := 5
  const DefaultLimit: uint32 := 10

  datatype RandomWordsArgs = RandomWordsArgs(
    hasDictionaryDef: bool,
    includePartOfSpeech: seq<PartOfSpeech>,
    excludePartOfSpeech: seq<PartOfSpeech>,
    minCorpusCount: Option<uint32>,
    maxCorpusCount: int32,
    minDictionaryCount: uint32,
    maxDictionaryCount: int32,
    minLength: uint32,
    maxLength: int32,
    sortBy: Option<SortType>,
    sortOrder: Option<SortOrder>,
    limit: uint32)

  /** `RandomWordsArgs::new()`, which `default()` returns too: every field at its default. */
  function New(): RandomWordsArgs {
    RandomWordsArgs(true, [], [], None, DefaultMax, DefaultMin, DefaultMax, DefaultMinLength, DefaultMax, None, None, DefaultLimit)
  }

  /** The wire names, in the order of the iterator's arms. */
  const Names: seq<string> := [
    "hasDictionaryDef", "includePartOfSpeech", "excludePartOfSpeech", "minCorpusCount", "maxCorpusCount",
    "minDictionaryCount", "maxDictionaryCount", "minLength", "maxLength",
    "sortBy", "sortOrder", "limit"]

  /** What arm `i` of `RandomWordsArgsIter::next` yields: a pair when field `i` is not at its default. */
  function Step(a: RandomWordsArgs, i: nat): Option<Pair> {
    if i == 0 then
      if !a.hasDictionaryDef then Some(("hasDictionaryDef", FormatBool(a.hasDictionaryDef))) else None
    else if i == 1 then
      if |a.includePartOfSpeech| != 0 then Some(("includePartOfSpeech", Csv(a.includePartOfSpeech, PartOfSpeechTag))) else None
    else if i == 2 then
      if |a.excludePartOfSpeech| != 0 then Some(("excludePartOfSpeech", Csv(a.excludePartOfSpeech, PartOfSpeechTag))) else None
    else if i == 3 then
      if a.minCorpusCount.Some? then Some(("minCorpusCount", Decimal(a.minCorpusCount.value))) else None
    else if i == 4 then
      if a.maxCorpusCount != DefaultMax then Some(("maxCorpusCount", Decimal(a.maxCorpusCount))) else None
    else if i == 5 then
      if a.minDictionaryCount != DefaultMin then Some(("minDictionaryCount", Decimal(a.minDictionaryCount))) else None
    else if i == 6 then
      if a.maxDictionaryCount != DefaultMax then Some(("maxDictionaryCount", Decimal(a.maxDictionaryCount))) else None
    else if i == 7 then
      if a.minLength != DefaultMinLength then Some(("minLength", Decimal(a.minLength))) else None
    else if i == 8 then
      if a.maxLength != DefaultMax then Some(("maxLength", Decimal(a.maxLength))) else None
    else if i == 9 then
      if a.sortBy.Some? then Some(("sortBy", SortTypeTag(a.sortBy.value))) else None
    else if i == 10 then
      if a.sortOrder.Some? then Some(("sortOrder", SortOrderTag(a.sortOrder.value))) else None
    else if i == 11 then
      if a.limit != DefaultLimit then Some(("limit", Decimal(a.limit))) else None
    else
      None
  }

  function Steps(a: RandomWordsArgs): nat -> Option<Pair> {
    (i: nat) => Step(a, i)
  }

  /** What an iterator over `a` positioned at field `i` still yields. */
  function Remaining(a: RandomWordsArgs, i: nat): seq<Pair> {
    Emission.PairsFrom(Steps(a), |Names|, i)
  }

  /** Trying arm `i` yields its pair, if any, and leaves what the later arms yield. */
  lemma Advance(a: RandomWordsArgs, i: nat)
    requires i < |Names|
    ensures Remaining(a, i) == (match Step(a, i) case Some(p) => [p] case None => []) + Remaining(a, i + 1)
  {
  }

  /** Everything `a.args()` yields. */
  function Pairs(a: RandomWordsArgs): seq<Pair> {
    Remaining(a, 0)
  }

  /** `RandomWordsArgsIter`: the bundle it walks and the index of the next arm to try. */
  class RandomWordsArgsIter {
    const args: RandomWordsArgs
    var idx: nat
    /** The pairs still to be yielded. */
    ghost var rest: seq<Pair>

    ghost predicate Valid()
      reads this
    {
      idx <= |Names| && rest == Remaining(args, idx)
    }

    /** `args()`: an iterator at the first arm. */
    constructor (args: RandomWordsArgs)
      ensures Valid() && this.args == args && idx == 0 && rest == Pairs(args)
    {
      this.args := args;
      idx := 0;
      rest := Pairs(args);
    }

    /**
     * `next()`: yields the first pair still due, and moves past the arm that produced it; once
     * every arm is done it yields nothing, however often it is called.
     */
    method Next() returns (r: Option<Pair>)
      requires Valid()
      modifies this
      ensures Valid()
      ensures old(idx) < idx || idx == old(idx) == |Names|
      ensures if old(rest) == [] then r == None && idx == |Names| && rest == []
        else r == Some(old(rest)[0]) && rest == old(rest)[1..]
    {
      while idx < |Names|
        invariant old(idx) <= idx <= |Names| && rest == old(rest)
        invariant Remaining(args, idx) == rest
        decreases |Names| - idx
      {
        Advance(args, idx);
        if idx == 0 {
          idx := idx + 1;
          if !args.hasDictionaryDef {
            rest := rest[1..];
            return Some(("hasDictionaryDef", FormatBool(args.hasDictionaryDef)));
          }
        } else if idx == 1 {
          idx := idx + 1;
          if |args.includePartOfSpeech| != 0 {
            rest := rest[1..];
            var v := FormatCsv(args.includePartOfSpeech, PartOfSpeechTag);
            return Some(("includePartOfSpeech", v));
          }
        } else if idx == 2 {
          idx := idx + 1;
          if |args.excludePartOfSpeech| != 0 {
            rest := rest[1..];
            var v := FormatCsv(args.excludePartOfSpeech, PartOfSpeechTag);
            return Some(("excludePartOfSpeech", v));
          }
        } else if idx == 3 {
          idx := idx + 1;
          if args.minCorpusCount.Some? {
            rest := rest[1..];
            return Some(("minCorpusCount", Decimal(args.minCorpusCount.value)));
          }
        } else if idx == 4 {
          idx := idx + 1;
          if args.maxCorpusCount != DefaultMax {
            rest := rest[1..];
            return Some(("maxCorpusCount", Decimal(args.maxCorpusCount)));
          }
        } else if idx == 5 {
          idx := idx + 1;
          if args.minDictionaryCount != DefaultMin {
            rest := rest[1..];
            return Some(("minDictionaryCount", Decimal(args.minDictionaryCount)));
          }
        } else if idx == 6 {
          idx := idx + 1;
          if args.maxDictionaryCount != DefaultMax {
            rest := rest[1..];
            return Some(("maxDictionaryCount", Decimal(args.maxDictionaryCount)));
          }
        } else if idx == 7 {
          idx := idx + 1;
          if args.minLength != DefaultMinLength {
            rest := rest[1..];
            return Some(("minLength", Decimal(args.minLength)));
          }
        } else if idx == 8 {
          idx := idx + 1;
          if args.maxLength != DefaultMax {
            rest := rest[1..];
            return Some(("maxLength", Decimal(args.maxLength)));
          }
        } else if idx == 9 {
          idx := idx + 1;
          if args.sortBy.Some? {
            rest := rest[1..];
            return Some(("sortBy", SortTypeTag(args.sortBy.value)));
          }
        } else if idx == 10 {
          idx := idx + 1;
          if args.sortOrder.Some? {
            rest := rest[1..];
            return Some(("sortOrder", SortOrderTag(args.sortOrder.value)));
          }
        } else {
          idx := idx + 1;
          if args.limit != DefaultLimit {
            rest := rest[1..];
            return Some(("limit", Decimal(args.limit)));
          }
        }
      }
      return None;
    }
  }

  /** `to_urlencoded`: drains a fresh iterator, appending `&name=value` for every pair. */
  method ToUrlencoded(a: RandomWordsArgs) returns (buf: string)
    ensures buf == UrlEncoded(Pairs(a))
  {
    var it := new RandomWordsArgsIter(a);
    buf := "";
    ghost var done: seq<Pair> := [];
    while true
      invariant it.Valid() && it.args == a
      invariant done + it.rest == Pairs(a)
      invariant buf == UrlEncoded(done)
      decreases |Names| - it.idx
    {
      ghost var rest := it.rest;
      var p := it.Next();
      if p.None? {
        assert done + [] == done;
        break;
      }
      buf := AppendPair(buf, p.value.0, p.value.1);
      UrlEncodedSnoc(done, p.value);
      MoveFirst(done, rest);
      done := done + [p.value];
    }
  }

  /** `Prefix(a, i)`: the fields before `i` as in `a`, the others at their defaults. */
  function Prefix(a: RandomWordsArgs, i: nat): RandomWordsArgs {
    RandomWordsArgs(
      if i > 0 then a.hasDictionaryDef else true,
      if i > 1 then a.includePartOfSpeech else [],
      if i > 2 then a.excludePartOfSpeech else [],
      if i > 3 then a.minCorpusCount else None,
      if i > 4 then a.maxCorpusCount else DefaultMax,
      if i > 5 then a.minDictionaryCount else DefaultMin,
      if i > 6 then a.maxDictionaryCount else DefaultMax,
      if i > 7 then a.minLength else DefaultMinLength,
      if i > 8 then a.maxLength else DefaultMax,
      if i > 9 then a.sortBy else None,
      if i > 10 then a.sortOrder else None,
      if i > 11 then a.limit else DefaultLimit)
  }

  function Prefixes(a: RandomWordsArgs): nat -> RandomWordsArgs {
    (i: nat) => Prefix(a, i)
  }

  /** Sets the field a pair names from its value text; fails on an unknown name or bad value. */
  function ApplyPair(b: RandomWordsArgs, p: Pair): Option<RandomWordsArgs> {
    var (key, value) := p;
    if key == "hasDictionaryDef" then
      match ParseBool(value)
      case Some(v) => Some(b.(hasDictionaryDef := v))
      case None => None
    else if key == "includePartOfSpeech" then
      match ParseCsv(value, PartOfSpeechFromTag)
      case Some(xs) => Some(b.(includePartOfSpeech := xs))
      case None => None
    else if key == "excludePartOfSpeech" then
      match ParseCsv(value, PartOfSpeechFromTag)
      case Some(xs) => Some(b.(excludePartOfSpeech := xs))
      case None => None
    else if key == "minCorpusCount" then
      match ParseUint32(value)
      case Some(n) => Some(b.(minCorpusCount := Some(n)))
      case None => None
    else if key == "maxCorpusCount" then
      match ParseInt32(value)
      case Some(n) => Some(b.(maxCorpusCount := n))
      case None => None
    else if key == "minDictionaryCount" then
      match ParseUint32(value)
      case Some(n) => Some(b.(minDictionaryCount := n))
      case None => None
    else if key == "maxDictionaryCount" then
      match ParseInt32(value)
      case Some(n) => Some(b.(maxDictionaryCount := n))
      case None => None
    else if key == "minLength" then
      match ParseUint32(value)
      case Some(n) => Some(b.(minLength := n))
      case None => None
    else if key == "maxLength" then
      match ParseInt32(value)
      case Some(n) => Some(b.(maxLength := n))
      case None => None
    else if key == "sortBy" then
      match SortTypeFromTag(value)
      case Some(t) => Some(b.(sortBy := Some(t)))
      case None => None
    else if key == "sortOrder" then
      match SortOrderFromTag(value)
      case Some(o) => Some(b.(sortOrder := Some(o)))
      case None => None
    else if key == "limit" then
      match ParseUint32(value)
      case Some(n) => Some(b.(limit := n))
      case None => None
    else
      None
  }

  /** Reads a bundle back from `to_urlencoded` text: absent fields keep their defaults. */
  function Decode(query: string): Option<RandomWordsArgs> {
    match ParseQuery(query)
    case None => None
    case Some(pairs) => Emission.Replay(ApplyPair, New(), pairs)
  }

  /** Every arm skips exactly when its field is at the default and emits a value that reads back. */
  lemma StepSound(a: RandomWordsArgs, j: nat)
    requires j < |Names|
    ensures Emission.Sound(Steps(a), ApplyPair, Prefixes(a), j)
  {
    if j < 6 {
      StepSoundHead(a, j);
    } else {
      StepSoundTail(a, j);
    }
  }

  lemma StepSoundHead(a: RandomWordsArgs, j: nat)
    requires j < 6
    ensures Emission.Sound(Steps(a), ApplyPair, Prefixes(a), j)
  {
    if j == 1 {
      if |a.includePartOfSpeech| != 0 {
        PartOfSpeechTags();
        CsvRoundTrip(a.includePartOfSpeech, PartOfSpeechTag, PartOfSpeechFromTag);
      }
    } else if j == 2 {
      if |a.excludePartOfSpeech| != 0 {
        PartOfSpeechTags();
        CsvRoundTrip(a.excludePartOfSpeech, PartOfSpeechTag, PartOfSpeechFromTag);
      }
    } else if j == 3 {
      if a.minCorpusCount.Some? {
        Uint32RoundTrip(a.minCorpusCount.value);
      }
    } else if j == 4 {
      Int32RoundTrip(a.maxCorpusCount);
    } else if j == 5 {
      Uint32RoundTrip(a.minDictionaryCount);
    }
  }

  lemma StepSoundTail(a: RandomWordsArgs, j: nat)
    requires 6 <= j < |Names|
    ensures Emission.Sound(Steps(a), ApplyPair, Prefixes(a), j)
  {
    if j == 6 {
      Int32RoundTrip(a.maxDictionaryCount);
    } else if j == 7 {
      Uint32RoundTrip(a.minLength);
    } else if j == 8 {
      Int32RoundTrip(a.maxLength);
    } else if j == 9 {
      SortTypeTags();
    } else if j == 10 {
      SortOrderTags();
    } else {
      Uint32RoundTrip(a.limit);
    }
  }

  /** Every wire name is free of `&` and `=`; each name is checked by its own lemma, which keeps each proof small. */
  lemma NamesPlain()
    ensures forall j :: 0 <= j < |Names| ==> Plain(Names[j])
  {
    WireNames.HasDictionaryDefPlain();
    WireNames.IncludePartOfSpeechPlain();
    WireNames.ExcludePartOfSpeechPlain();
    WireNames.MinCorpusCountPlain();
    WireNames.MaxCorpusCountPlain();
    WireNames.MinDictionaryCountPlain();
    WireNames.MaxDictionaryCountPlain();
    WireNames.MinLengthPlain();
    WireNames.MaxLengthPlain();
    WireNames.SortByPlain();
    WireNames.SortOrderPlain();
    WireNames.LimitPlain();
  }

  /** Every arm's value is in the value alphabet. */
  lemma StepValueText(a: RandomWordsArgs, j: nat)
    requires Steps(a)(j).Some?
    ensures IsValueText(Steps(a)(j).value.1)
  {
    if j == 1 {
      PartOfSpeechTags();
      CsvShape(a.includePartOfSpeech, PartOfSpeechTag);
    } else if j == 2 {
      PartOfSpeechTags();
      CsvShape(a.excludePartOfSpeech, PartOfSpeechTag);
    } else if j == 3 {
      DecimalIsValueText(a.minCorpusCount.value);
    } else if j == 4 {
      DecimalIsValueText(a.maxCorpusCount);
    } else if j == 5 {
      DecimalIsValueText(a.minDictionaryCount);
    } else if j == 6 {
      DecimalIsValueText(a.maxDictionaryCount);
    } else if j == 7 {
      DecimalIsValueText(a.minLength);
    } else if j == 8 {
      DecimalIsValueText(a.maxLength);
    } else if j == 9 {
      SortTypeTags();
    } else if j == 10 {
      SortOrderTags();
    } else if j == 11 {
      DecimalIsValueText(a.limit);
    }
  }

  /** Names and values of every arm are free of `&` and `=`. */
  lemma StepPlain(a: RandomWordsArgs, j: nat)
    requires Steps(a)(j).Some?
    ensures Plain(Steps(a)(j).value.0) && Plain(Steps(a)(j).value.1)
  {
    StepsLabelled(a);
    NamesPlain();
    StepValueText(a, j);
    ValueTextDelimiters(Steps(a)(j).value.1);
  }

  /** The query text determines the bundle: decoding what `to_urlencoded` wrote gives `a` back. */
  lemma EncodingRoundTrip(a: RandomWordsArgs)
    ensures Decode(UrlEncoded(Pairs(a))) == Some(a)
  {
    forall j | 0 <= j < |Names| ensures Emission.Sound(Steps(a), ApplyPair, Prefixes(a), j) {
      StepSound(a, j);
    }
    Emission.ReplayFrom(Steps(a), ApplyPair, Prefixes(a), |Names|, 0);
    forall j | 0 <= j < |Names| && Steps(a)(j).Some?
      ensures Plain(Steps(a)(j).value.0) && Plain(Steps(a)(j).value.1)
    {
      StepPlain(a, j);
    }
    Emission.PlainFrom(Steps(a), |Names|, 0);
    ParseUrlEncoded(Pairs(a));
    assert Prefix(a, 0) == New();
    assert Prefix(a, |Names|) == a;
  }

  /** One pair per field that differs from its default: a default bundle encodes to "". */
  lemma PairCount(a: RandomWordsArgs)
    ensures |Pairs(a)| == Emission.Changes(Prefixes(a), |Names|, 0)
    ensures |Pairs(a)| <= |Names|
    ensures Pairs(New()) == [] && UrlEncoded(Pairs(New())) == ""
  {
    forall j | 0 <= j < |Names| ensures Emission.Sound(Steps(a), ApplyPair, Prefixes(a), j) {
      StepSound(a, j);
    }
    Emission.CountFrom(Steps(a), ApplyPair, Prefixes(a), |Names|, 0);
    forall j | 0 <= j < |Names| ensures Emission.Sound(Steps(New()), ApplyPair, Prefixes(New()), j) {
      StepSound(New(), j);
    }
    Emission.CountFrom(Steps(New()), ApplyPair, Prefixes(New()), |Names|, 0);
    Emission.ChangesBound(Prefixes(a), |Names|, 0);
    ChangesOfDefault(|Names|, 0);
  }

  lemma {:induction false} ChangesOfDefault(n: nat, i: nat)
    requires i <= n
    ensures Emission.Changes(Prefixes(New()), n, i) == 0
    decreases n - i
  {
    if i < n {
      ChangesOfDefault(n, i + 1);
      assert Prefix(New(), i + 1) == Prefix(New(), i);
    }
  }

  /** Names appear at most once each, in declaration order. */
  lemma EmissionOrder(a: RandomWordsArgs)
    ensures Emission.Subsequence(Keys(Pairs(a)), Names)
    ensures Emission.Distinct(Keys(Pairs(a)))
  {
    StepsLabelled(a);
    NamesDistinct();
    Emission.PairsFromKeys(Steps(a), Names, 0);
  }

  lemma NamesDistinct()
    ensures Emission.Distinct(Names)
  {
  }

  lemma StepsLabelled(a: RandomWordsArgs)
    ensures Emission.Labelled(Steps(a), Names)
  {
  }

  /** The value sent under each wire name, or its absence, as a function of the bundle. */
  lemma WireFields(a: RandomWordsArgs)
    ensures Lookup(Pairs(a), "hasDictionaryDef") == if !a.hasDictionaryDef then Some("false") else None
    ensures Lookup(Pairs(a), "includePartOfSpeech")
            == if |a.includePartOfSpeech| != 0 then Some(Csv(a.includePartOfSpeech, PartOfSpeechTag)) else None
    ensures Lookup(Pairs(a), "excludePartOfSpeech")
            == if |a.excludePartOfSpeech| != 0 then Some(Csv(a.excludePartOfSpeech, PartOfSpeechTag)) else None
    ensures Lookup(Pairs(a), "minCorpusCount")
            == if a.minCorpusCount.Some? then Some(Decimal(a.minCorpusCount.value)) else None
    ensures Lookup(Pairs(a), "maxCorpusCount")
            == if a.maxCorpusCount != DefaultMax then Some(Decimal(a.maxCorpusCount)) else None
    ensures Lookup(Pairs(a), "minDictionaryCount")
            == if a.minDictionaryCount != DefaultMin then Some(Decimal(a.minDictionaryCount)) else None
    ensures Lookup(Pairs(a), "maxDictionaryCount")
            == if a.maxDictionaryCount != DefaultMax then Some(Decimal(a.maxDictionaryCount)) else None
    ensures Lookup(Pairs(a), "minLength") == if a.minLength != DefaultMinLength then Some(Decimal(a.minLength)) else None
    ensures Lookup(Pairs(a), "maxLength") == if a.maxLength != DefaultMax then Some(Decimal(a.maxLength)) else None
    ensures Lookup(Pairs(a), "sortBy") == if a.sortBy.Some? then Some(SortTypeTag(a.sortBy.value)) else None
    ensures Lookup(Pairs(a), "sortOrder") == if a.sortOrder.Some? then Some(SortOrderTag(a.sortOrder.value)) else None
    ensures Lookup(Pairs(a), "limit") == if a.limit != DefaultLimit then Some(Decimal(a.limit)) else None
  {
    StepsLabelled(a);
    NamesDistinct();
    WireFieldsHead(a);
    WireFieldsTail(a);
    WireFieldsSort(a);
  }

  lemma WireFieldsHead(a: RandomWordsArgs)
    requires Emission.Labelled(Steps(a), Names) && Emission.Distinct(Names)
    ensures Lookup(Pairs(a), "hasDictionaryDef") == if !a.hasDictionaryDef then Some("false") else None
    ensures Lookup(Pairs(a), "includePartOfSpeech")
            == if |a.includePartOfSpeech| != 0 then Some(Csv(a.includePartOfSpeech, PartOfSpeechTag)) else None
    ensures Lookup(Pairs(a), "excludePartOfSpeech")
            == if |a.excludePartOfSpeech| != 0 then Some(Csv(a.excludePartOfSpeech, PartOfSpeechTag)) else None
    ensures Lookup(Pairs(a), "minCorpusCount")
            == if a.minCorpusCount.Some? then Some(Decimal(a.minCorpusCount.value)) else None
    ensures Lookup(Pairs(a), "maxCorpusCount")
            == if a.maxCorpusCount != DefaultMax then Some(Decimal(a.maxCorpusCount)) else None
    ensures Lookup(Pairs(a), "minDictionaryCount")
            == if a.minDictionaryCount != DefaultMin then Some(Decimal(a.minDictionaryCount)) else None
  {
    Emission.LookupFrom(Steps(a), Names, 0, 0);
    Emission.LookupFrom(Steps(a), Names, 0, 1);
    Emission.LookupFrom(Steps(a), Names, 0, 2);
    Emission.LookupFrom(Steps(a), Names, 0, 3);
    Emission.LookupFrom(Steps(a), Names, 0, 4);
    Emission.LookupFrom(Steps(a), Names, 0, 5);
  }

  lemma WireFieldsTail(a: RandomWordsArgs)
    requires Emission.Labelled(Steps(a), Names) && Emission.Distinct(Names)
    ensures Lookup(Pairs(a), "maxDictionaryCount")
            == if a.maxDictionaryCount != DefaultMax then Some(Decimal(a.maxDictionaryCount)) else None
    ensures Lookup(Pairs(a), "minLength") == if a.minLength != DefaultMinLength then Some(Decimal(a.minLength)) else None
    ensures Lookup(Pairs(a), "maxLength") == if a.maxLength != DefaultMax then Some(Decimal(a.maxLength)) else None
  {
    Emission.LookupFrom(Steps(a), Names, 0, 6);
    Emission.LookupFrom(Steps(a), Names, 0, 7);
    Emission.LookupFrom(Steps(a), Names, 0, 8);
  }

  lemma WireFieldsSort(a: RandomWordsArgs)
    requires Emission.Labelled(Steps(a), Names) && Emission.Distinct(Names)
    ensures Lookup(Pairs(a), "sortBy") == if a.sortBy.Some? then Some(SortTypeTag(a.sortBy.value)) else None
    ensures Lookup(Pairs(a), "sortOrder") == if a.sortOrder.Some? then Some(SortOrderTag(a.sortOrder.value)) else None
    ensures Lookup(Pairs(a), "limit") == if a.limit != DefaultLimit then Some(Decimal(a.limit)) else None
  {
    Emission.LookupFrom(Steps(a), Names, 0, 9);
    Emission.LookupFrom(Steps(a), Names, 0, 10);
    Emission.LookupFrom(Steps(a), Names, 0, 11);
  }

  /** A noun with a non-default limit sends exactly those two parameters. */
  lemma NounLimit(n: uint32)
    requires n != DefaultLimit
    ensures Pairs(New().(includePartOfSpeech := [Noun], limit := n))
            == [("includePartOfSpeech", "noun"), ("limit", Decimal(n))]
  {
    var a := New().(includePartOfSpeech := [Noun], limit := n);
    CsvSmall(PartOfSpeechTag, Noun);
    assert Remaining(a, 11) == [("limit", Decimal(n))] by {
      assert Remaining(a, 12) == [];
    }
    assert Remaining(a, 6) == [("limit", Decimal(n))] by {
      assert Remaining(a, 10) == Remaining(a, 11);
      assert Remaining(a, 9) == Remaining(a, 10);
      assert Remaining(a, 8) == Remaining(a, 9);
      assert Remaining(a, 7) == Remaining(a, 8);
      assert Remaining(a, 6) == Remaining(a, 7);
    }
    assert Remaining(a, 2) == [("limit", Decimal(n))] by {
      assert Remaining(a, 5) == Remaining(a, 6);
      assert Remaining(a, 4) == Remaining(a, 5);
      assert Remaining(a, 3) == Remaining(a, 4);
      assert Remaining(a, 2) == Remaining(a, 3);
    }
    assert Remaining(a, 1) == [("includePartOfSpeech", "noun")] + Remaining(a, 2);
    assert Remaining(a, 0) == Remaining(a, 1);
  }

  /** The random-words request for three nouns carries `&includePartOfSpeech=noun&limit=3`. */
  method NounLimitThreeQuery() returns (query: string)
    ensures query == "&includePartOfSpeech=noun&limit=3"
  {
    var n: uint32 := 3;
    query := ToUrlencoded(New().(includePartOfSpeech := [Noun], limit := n));
    NounLimit(n);
    assert Decimal(3) == "3";
    UrlEncodedSmall(("includePartOfSpeech", "noun"), ("limit", "3"));
    NounLimitThreeText();
  }

  lemma NounLimitThreeText()
    ensures Segment(("includePartOfSpeech", "noun")) + Segment(("limit", "3"))
            == "&includePartOfSpeech=noun&limit=3"
  {
    IncludeNounSegment();
    LimitThreeSegment();
    assert "&includePartOfSpeech=noun" + "&limit=3" == "&includePartOfSpeech=noun&limit=3";
  }

  lemma IncludeNounSegment()
    ensures Segment(("includePartOfSpeech", "noun")) == "&includePartOfSpeech=noun"
  {
  }

  lemma LimitThreeSegment()
    ensures Segment(("limit", "3")) == "&limit=3"
  {
  }
}
