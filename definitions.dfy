/**
 * `DefinitionsArgs`: the options of a definitions query, its iterator `DefinitionsArgsIter`
 * (one arm per field, skipping fields at their default) and `to_urlencoded` over it.
 */
module Definitions {
  import opened Wrappers
  import opened Text
  import opened Format
  import opened Query
  import Emission
  import WireNames

  /** `DefinitionsArgs::DEFAULT_LIMIT`. */
  const DefaultLimit: uint32 := 200

  datatype DefinitionsArgs = DefinitionsArgs(
    limit: uint32,
    partOfSpeech: seq<PartOfSpeech>,
    includeRelated: bool,
    sourceDictionaries: seq<SourceDictionaries>,
    useCanonical: bool,
    includeTags: bool)

  /** `DefinitionsArgs::new()`, which `default()` returns too: every field at its default. */
  function New(): DefinitionsArgs {
    DefinitionsArgs(DefaultLimit, [], false, [], false, false)
  }

  /** The wire names, in the order of the iterator's arms. */
  const Names: seq<string> := ["limit", "partOfSpeech", "includeRelated", "sourceDictionaries", "useCanonical", "includeTags"]

  /** What arm `i` of `DefinitionsArgsIter::next` yields: a pair when field `i` is not at its default. */
  function Step(a: DefinitionsArgs, i: nat): Option<Pair> {
    if i == 0 then
      if a.limit != DefaultLimit then Some(("limit", Decimal(a.limit))) else None
    else if i == 1 then
      if |a.partOfSpeech| != 0 then Some(("partOfSpeech", Csv(a.partOfSpeech, PartOfSpeechTag))) else None
    else if i == 2 then
      if a.includeRelated then Some(("includeRelated", FormatBool(a.includeRelated))) else None
    else if i == 3 then
      if |a.sourceDictionaries| != 0 then Some(("sourceDictionaries", Csv(a.sourceDictionaries, SourceDictionaryTag))) else None
    else if i == 4 then
      if a.useCanonical then Some(("useCanonical", FormatBool(a.useCanonical))) else None
    else if i == 5 then
      if a.includeTags then Some(("includeTags", FormatBool(a.includeTags))) else None
    else
      None
  }

  function Steps(a: DefinitionsArgs): nat -> Option<Pair> {
    (i: nat) => Step(a, i)
  }

  /** What an iterator over `a` positioned at field `i` still yields. */
  function Remaining(a: DefinitionsArgs, i: nat): seq<Pair> {
    Emission.PairsFrom(Steps(a), |Names|, i)
  }

  /** Trying arm `i` yields its pair, if any, and leaves what the later arms yield. */
  lemma Advance(a: DefinitionsArgs, i: nat)
    requires i < |Names|
    ensures Remaining(a, i) == (match Step(a, i) case Some(p) => [p] case None => []) + Remaining(a, i + 1)
  {
  }

  /** Everything `a.args()` yields. */
  function Pairs(a: DefinitionsArgs): seq<Pair> {
    Remaining(a, 0)
  }

  /** `DefinitionsArgsIter`: the bundle it walks and the index of the next arm to try. */
  class DefinitionsArgsIter {
    const args: DefinitionsArgs
    var idx: nat
    /** The pairs still to be yielded. */
    ghost var rest: seq<Pair>

    ghost predicate Valid()
      reads this
    {
      idx <= |Names| && rest == Remaining(args, idx)
    }

    /** `args()`: an iterator at the first arm. */
    constructor (args: DefinitionsArgs)
      ensures Valid() && this.args == args && idx == 0 && rest == Pairs(args)
    {
      this.args := args;
      idx := 0;
      rest := Pairs(args);
    }

    /**
     * `next()`: yields the first pair still due, and moves past the arm that produced it; once
     * every arm is done it yields nothing, however often it is called.
     */
    method Next() returns (r: Option<Pair>)
      requires Valid()
      modifies this
      ensures Valid()
      ensures old(idx) < idx || idx == old(idx) == |Names|
      ensures if old(rest) == [] then r == None && idx == |Names| && rest == []
        else r == Some(old(rest)[0]) && rest == old(rest)[1..]
    {
      while idx < |Names|
        invariant old(idx) <= idx <= |Names| && rest == old(rest)
        invariant Remaining(args, idx) == rest
        decreases |Names| - idx
      {
        Advance(args, idx);
        if idx == 0 {
          idx := idx + 1;
          if args.limit != DefaultLimit {
            rest := rest[1..];
            return Some(("limit", Decimal(args.limit)));
          }
        } else if idx == 1 {
          idx := idx + 1;
          if |args.partOfSpeech| != 0 {
            rest := rest[1..];
            var v := FormatCsv(args.partOfSpeech, PartOfSpeechTag);
            return Some(("partOfSpeech", v));
          }
        } else if idx == 2 {
          idx := idx + 1;
          if args.includeRelated {
            rest := rest[1..];
            return Some(("includeRelated", FormatBool(args.includeRelated)));
          }
        } else if idx == 3 {
          idx := idx + 1;
          if |args.sourceDictionaries| != 0 {
            rest := rest[1..];
            var v := FormatCsv(args.sourceDictionaries, SourceDictionaryTag);
            return Some(("sourceDictionaries", v));
          }
        } else if idx == 4 {
          idx := idx + 1;
          if args.useCanonical {
            rest := rest[1..];
            return Some(("useCanonical", FormatBool(args.useCanonical)));
          }
        } else {
          idx := idx + 1;
          if args.includeTags {
            rest := rest[1..];
            return Some(("includeTags", FormatBool(args.includeTags)));
          }
        }
      }
      return None;
    }
  }

  /** `to_urlencoded`: drains a fresh iterator, appending `&name=value` for every pair. */
  method ToUrlencoded(a: DefinitionsArgs) returns (buf: string)
    ensures buf == UrlEncoded(Pairs(a))
  {
    var it := new DefinitionsArgsIter(a);
    buf := "";
    ghost var done: seq<Pair> := [];
    while true
      invariant it.Valid() && it.args == a
      invariant done + it.rest == Pairs(a)
      invariant buf == UrlEncoded(done)
      decreases |Names| - it.idx
    {
      ghost var rest := it.rest;
      var p := it.Next();
      if p.None? {
        assert done + [] == done;
        break;
      }
      buf := AppendPair(buf, p.value.0, p.value.1);
      UrlEncodedSnoc(done, p.value);
      MoveFirst(done, rest);
      done := done + [p.value];
    }
  }

  /** `Prefix(a, i)`: the fields before `i` as in `a`, the others at their defaults. */
  function Prefix(a: DefinitionsArgs, i: nat): DefinitionsArgs {
    DefinitionsArgs(
      if i > 0 then a.limit else DefaultLimit,
      if i > 1 then a.partOfSpeech else [],
      if i > 2 then a.includeRelated else false,
      if i > 3 then a.sourceDictionaries else [],
      if i > 4 then a.useCanonical else false,
      if i > 5 then a.includeTags else false)
  }

  function Prefixes(a: DefinitionsArgs): nat -> DefinitionsArgs {
    (i: nat) => Prefix(a, i)
  }

  /** Sets the field a pair names from its value text; fails on an unknown name or bad value. */
  function ApplyPair(b: DefinitionsArgs, p: Pair): Option<DefinitionsArgs> {
    var (key, value) := p;
    if key == "limit" then
      match ParseUint32(value)
      case Some(n) => Some(b.(limit := n))
      case None => None
    else if key == "partOfSpeech" then
      match ParseCsv(value, PartOfSpeechFromTag)
      case Some(xs) => Some(b.(partOfSpeech := xs))
      case None => None
    else if key == "includeRelated" then
      match ParseBool(value)
      case Some(v) => Some(b.(includeRelated := v))
      case None => None
    else if key == "sourceDictionaries" then
      match ParseCsv(value, SourceDictionaryFromTag)
      case Some(xs) => Some(b.(sourceDictionaries := xs))
      case None => None
    else if key == "useCanonical" then
      match ParseBool(value)
      case Some(v) => Some(b.(useCanonical := v))
      case None => None
    else if key == "includeTags" then
      match ParseBool(value)
      case Some(v) => Some(b.(includeTags := v))
      case None => None
    else
      None
  }

  /** Reads a bundle back from `to_urlencoded` text: absent fields keep their defaults. */
  function Decode(query: string): Option<DefinitionsArgs> {
    match ParseQuery(query)
    case None => None
    case Some(pairs) => Emission.Replay(ApplyPair, New(), pairs)
  }

  /** Every arm skips exactly when its field is at the default and emits a value that reads back. */
  lemma StepSound(a: DefinitionsArgs, j: nat)
    requires j < |Names|
    ensures Emission.Sound(Steps(a), ApplyPair, Prefixes(a), j)
  {
    if j == 0 {
      Uint32RoundTrip(a.limit);
    } else if j == 1 {
      if |a.partOfSpeech| != 0 {
        PartOfSpeechTags();
        CsvRoundTrip(a.partOfSpeech, PartOfSpeechTag, PartOfSpeechFromTag);
      }
    } else if j == 2 {
    } else if j == 3 {
      if |a.sourceDictionaries| != 0 {
        SourceDictionaryTags();
        CsvRoundTrip(a.sourceDictionaries, SourceDictionaryTag, SourceDictionaryFromTag);
      }
    }
  }

  lemma NamesPlain()
    ensures forall j :: 0 <= j < |Names| ==> Plain(Names[j])
  {
    WireNames.LimitPlain();
    WireNames.PartOfSpeechPlain();
    WireNames.IncludeRelatedPlain();
    WireNames.SourceDictionariesPlain();
    WireNames.UseCanonicalPlain();
    WireNames.IncludeTagsPlain();
  }

  /** Every arm's value is in the value alphabet. */
  lemma StepValueText(a: DefinitionsArgs, j: nat)
    requires Steps(a)(j).Some?
    ensures IsValueText(Steps(a)(j).value.1)
  {
    if j == 0 {
      DecimalIsValueText(a.limit);
    } else if j == 1 {
      PartOfSpeechTags();
      CsvShape(a.partOfSpeech, PartOfSpeechTag);
    } else if j == 3 {
      SourceDictionaryTags();
      CsvShape(a.sourceDictionaries, SourceDictionaryTag);
    }
  }

  /** Names and values of every arm are free of `&` and `=`. */
  lemma StepPlain(a: DefinitionsArgs, j: nat)
    requires Steps(a)(j).Some?
    ensures Plain(Steps(a)(j).value.0) && Plain(Steps(a)(j).value.1)
  {
    StepsLabelled(a);
    NamesPlain();
    StepValueText(a, j);
    ValueTextDelimiters(Steps(a)(j).value.1);
  }

  /** The query text determines the bundle: decoding what `to_urlencoded` wrote gives `a` back. */
  lemma EncodingRoundTrip(a: DefinitionsArgs)
    ensures Decode(UrlEncoded(Pairs(a))) == Some(a)
  {
    forall j | 0 <= j < |Names| ensures Emission.Sound(Steps(a), ApplyPair, Prefixes(a), j) {
      StepSound(a, j);
    }
    Emission.ReplayFrom(Steps(a), ApplyPair, Prefixes(a), |Names|, 0);
    forall j | 0 <= j < |Names| && Steps(a)(j).Some?
      ensures Plain(Steps(a)(j).value.0) && Plain(Steps(a)(j).value.1)
    {
      StepPlain(a, j);
    }
    Emission.PlainFrom(Steps(a), |Names|, 0);
    ParseUrlEncoded(Pairs(a));
    assert Prefix(a, 0) == New();
    assert Prefix(a, |Names|) == a;
  }

  /** One pair per field that differs from its default: a default bundle encodes to "". */
  lemma PairCount(a: DefinitionsArgs)
    ensures |Pairs(a)| == Emission.Changes(Prefixes(a), |Names|, 0)
    ensures |Pairs(a)| <= |Names|
    ensures Pairs(New()) == [] && UrlEncoded(Pairs(New())) == ""
  {
    forall j | 0 <= j < |Names| ensures Emission.Sound(Steps(a), ApplyPair, Prefixes(a), j) {
      StepSound(a, j);
    }
    Emission.CountFrom(Steps(a), ApplyPair, Prefixes(a), |Names|, 0);
    forall j | 0 <= j < |Names| ensures Emission.Sound(Steps(New()), ApplyPair, Prefixes(New()), j) {
      StepSound(New(), j);
    }
    Emission.CountFrom(Steps(New()), ApplyPair, Prefixes(New()), |Names|, 0);
    Emission.ChangesBound(Prefixes(a), |Names|, 0);
    ChangesOfDefault(|Names|, 0);
  }

  lemma {:induction false} ChangesOfDefault(n: nat, i: nat)
    requires i <= n
    ensures Emission.Changes(Prefixes(New()), n, i) == 0
    decreases n - i
  {
    if i < n {
      ChangesOfDefault(n, i + 1);
      assert Prefix(New(), i + 1) == Prefix(New(), i);
    }
  }

  /** Names appear at most once each, in declaration order. */
  lemma EmissionOrder(a: DefinitionsArgs)
    ensures Emission.Subsequence(Keys(Pairs(a)), Names)
    ensures Emission.Distinct(Keys(Pairs(a)))
  {
    StepsLabelled(a);
    NamesDistinct();
    Emission.PairsFromKeys(Steps(a), Names, 0);
  }

  lemma NamesDistinct()
    ensures Emission.Distinct(Names)
  {
  }

  lemma StepsLabelled(a: DefinitionsArgs)
    ensures Emission.Labelled(Steps(a), Names)
  {
  }

  /** The value sent under each wire name, or its absence, as a function of the bundle. */
  lemma WireFields(a: DefinitionsArgs)
    ensures Lookup(Pairs(a), "limit") == if a.limit != DefaultLimit then Some(Decimal(a.limit)) else None
    ensures Lookup(Pairs(a), "partOfSpeech")
            == if |a.partOfSpeech| != 0 then Some(Csv(a.partOfSpeech, PartOfSpeechTag)) else None
    ensures Lookup(Pairs(a), "includeRelated") == if a.includeRelated then Some("true") else None
    ensures Lookup(Pairs(a), "sourceDictionaries")
            == if |a.sourceDictionaries| != 0 then Some(Csv(a.sourceDictionaries, SourceDictionaryTag)) else None
    ensures Lookup(Pairs(a), "useCanonical") == if a.useCanonical then Some("true") else None
    ensures Lookup(Pairs(a), "includeTags") == if a.includeTags then Some("true") else None
  {
    StepsLabelled(a);
    NamesDistinct();
    Emission.LookupFrom(Steps(a), Names, 0, 0);
    Emission.LookupFrom(Steps(a), Names, 0, 1);
    Emission.LookupFrom(Steps(a), Names, 0, 2);
    Emission.LookupFrom(Steps(a), Names, 0, 3);
    Emission.LookupFrom(Steps(a), Names, 0, 4);
    Emission.LookupFrom(Steps(a), Names, 0, 5);
  }

  /** Only the limit differs from the default, so only `limit` is sent. */
  lemma LimitOnly(n: uint32)
    requires n != DefaultLimit
    ensures Pairs(New().(limit := n)) == [("limit", Decimal(n))]
  {
    var a := New().(limit := n);
    assert Remaining(a, 1) == [] by {
      assert Remaining(a, 6) == [];
      assert Remaining(a, 5) == [];
      assert Remaining(a, 4) == [];
      assert Remaining(a, 3) == [];
      assert Remaining(a, 2) == [];
    }
  }

  /** The definitions request with limit 1 carries the query `&limit=1`. */
  method LimitOneQuery() returns (query: string)
    ensures query == "&limit=1"
  {
    query := ToUrlencoded(New().(limit := 1));
    LimitOnly(1);
    assert Decimal(1) == "1";
    assert UrlEncoded([("limit", "1")]) == UrlEncoded([]) + Segment(("limit", "1"));
  }
}
