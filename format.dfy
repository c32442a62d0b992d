/**
 * The closed wire-tag tables (`SortType`, `SortOrder`, `PartOfSpeech`, `SourceDictionaries` with
 * their `as_str`) and the value formatting helpers `format_csv` and `format_bool`.
 */
module Format {
  import opened Wrappers
  import opened Text

  /** Sort field of a random-words query (`sortBy`). */
  datatype SortType =
      Alpha
    | Count

  function SortTypeTag(t: SortType): string {
    match t
    case Alpha => "alpha"
    case Count => "count"
  }

  /** Inverse of `SortTypeTag`: the variant whose tag is `s`, if any. */
  function SortTypeFromTag(s: string): Option<SortType> {
    if s == "alpha" then Some(Alpha)
    else if s == "count" then Some(Count)
    else None
  }

  /** Sort direction of a random-words query (`sortOrder`). */
  datatype SortOrder =
      Asc
    | Desc

  function SortOrderTag(o: SortOrder): string {
    match o
    case Asc => "asc"
    case Desc => "desc"
  }

  /** Inverse of `SortOrderTag`: the variant whose tag is `s`, if any. */
  function SortOrderFromTag(s: string): Option<SortOrder> {
    if s == "asc" then Some(Asc)
    else if s == "desc" then Some(Desc)
    else None
  }

  /** Grammatical part of speech; the variant name `NounPossessitve` is the source's own spelling. */
  datatype PartOfSpeech =
      Abbreviation
    | Adjective
    | Adverb
    | Affix
    | Article
    | AuxiliaryVerb
    | Conjunction
    | DefiniteArticle
    | FamilyName
    | GivenName
    | Idiom
    | Imperative
    | Interjection
    | Noun
    | NounPlural
    | NounPossessitve
    | PastParticiple
    | PhrasalPrefix
    | Preposition
    | Pronoun
    | ProperNoun
    | ProperNounPlural
    | ProperNounPossessive
    | Suffix
    | Verb
    | VerbIntransitive
    | VerbTransitive

  function PartOfSpeechTag(p: PartOfSpeech): string {
    match p
    case Abbreviation => "abbreviation"
    case Adjective => "adjective"
    case Adverb => "adverb"
    case Affix => "affix"
    case Article => "article"
    case AuxiliaryVerb => "auxiliary-verb"
    case Conjunction => "conjunction"
    case DefiniteArticle => "definite-article"
    case FamilyName => "family-name"
    case GivenName => "given-name"
    case Idiom => "idiom"
    case Imperative => "imperative"
    case Interjection => "interjection"
    case Noun => "noun"
    case NounPlural => "noun-plural"
    case NounPossessitve => "noun-possessive"
    case PastParticiple => "past-participle"
    case PhrasalPrefix => "phrasal-prefix"
    case Preposition => "preposition"
    case Pronoun => "pronoun"
    case ProperNoun => "proper-noun"
    case ProperNounPlural => "proper-noun-plural"
    case ProperNounPossessive => "proper-noun-possessive"
    case Suffix => "suffix"
    case Verb => "verb"
    case VerbIntransitive => "verb-intransitive"
    case VerbTransitive => "verb-transitive"
  }

  /** Inverse of `PartOfSpeechTag`: the variant whose tag is `s`, if any (dispatching on the first letter). */
  function PartOfSpeechFromTag(s: string): Option<PartOfSpeech> {
    if |s| == 0 then None
    else
      match s[0]
      case 'a' =>
        if s == "abbreviation" then Some(Abbreviation)
        else if s == "adjective" then Some(Adjective)
        else if s == "adverb" then Some(Adverb)
        else if s == "affix" then Some(Affix)
        else if s == "article" then Some(Article)
        else if s == "auxiliary-verb" then Some(AuxiliaryVerb)
        else None
      case 'c' =>
        if s == "conjunction" then Some(Conjunction)
        else None
      case 'd' =>
        if s == "definite-article" then Some(DefiniteArticle)
        else None
      case 'f' =>
        if s == "family-name" then Some(FamilyName)
        else None
      case 'g' =>
        if s == "given-name" then Some(GivenName)
        else None
      case 'i' =>
        if s == "idiom" then Some(Idiom)
        else if s == "imperative" then Some(Imperative)
        else if s == "interjection" then Some(Interjection)
        else None
      case 'n' =>
        if s == "noun" then Some(Noun)
        else if s == "noun-plural" then Some(NounPlural)
        else if s == "noun-possessive" then Some(NounPossessitve)
        else None
      case 'p' =>
        if s == "past-participle" then Some(PastParticiple)
        else if s == "phrasal-prefix" then Some(PhrasalPrefix)
        else if s == "preposition" then Some(Preposition)
        else if s == "pronoun" then Some(Pronoun)
        else if s == "proper-noun" then Some(ProperNoun)
        else if s == "proper-noun-plural" then Some(ProperNounPlural)
        else if s == "proper-noun-possessive" then Some(ProperNounPossessive)
        else None
      case 's' =>
        if s == "suffix" then Some(Suffix)
        else None
      case 'v' =>
        if s == "verb" then Some(Verb)
        else if s == "verb-intransitive" then Some(VerbIntransitive)
        else if s == "verb-transitive" then Some(VerbTransitive)
        else None
      case _ => None
  }

  /** Source dictionary of a definitions query. */
  datatype SourceDictionaries =
      All
    | AmericanHeritage
    | Century
    | Cmu
    | Macmillan
    | Webster
    | Wiktionary
    | Wordnet

  function SourceDictionaryTag(d: SourceDictionaries): string {
    match d
    case All => "all"
    case AmericanHeritage => "ahd-5"
    case Century => "century"
    case Cmu => "cmu"
    case Macmillan => "macmillan"
    case Webster => "webster"
    case Wiktionary => "wiktionary"
    case Wordnet => "wordnet"
  }

  /** Inverse of `SourceDictionaryTag`: the variant whose tag is `s`, if any. */
  function SourceDictionaryFromTag(s: string): Option<SourceDictionaries> {
    if s == "all" then Some(All)
    else if s == "ahd-5" then Some(AmericanHeritage)
    else if s == "century" then Some(Century)
    else if s == "cmu" then Some(Cmu)
    else if s == "macmillan" then Some(Macmillan)
    else if s == "webster" then Some(Webster)
    else if s == "wiktionary" then Some(Wiktionary)
    else if s == "wordnet" then Some(Wordnet)
    else None
  }

  /** Characters of a tag: lower-case ASCII letters, digits and hyphens. */
  predicate IsTagChar(c: char) {
    'a' <= c <= 'z' || IsDigit(c) || c == '-'
  }

  /** A wire tag: non-empty, made of tag characters only (so free of `,`, `&` and `=`). */
  predicate IsTag(s: string) {
    |s| > 0 && forall c :: c in s ==> IsTagChar(c)
  }

  /** The output alphabet of every formatting rule: tag characters and commas. */
  predicate IsValueText(s: string) {
    forall c :: c in s ==> IsTagChar(c) || c == ','
  }

  /** Value text never holds the query delimiters `&` and `=`. */
  lemma ValueTextDelimiters(s: string)
    requires IsValueText(s)
    ensures '&' !in s && '=' !in s
  {
  }

  /** Every `as_str` tag is well formed and read back by its inverse, so `as_str` is injective. */
  lemma SortTypeTags()
    ensures forall t :: IsTag(SortTypeTag(t)) && SortTypeFromTag(SortTypeTag(t)) == Some(t)
  {
    forall t: SortType ensures IsTag(SortTypeTag(t)) && SortTypeFromTag(SortTypeTag(t)) == Some(t) {
      match t
      case Alpha =>
      case Count =>
    }
  }

  lemma SortOrderTags()
    ensures forall o :: IsTag(SortOrderTag(o)) && SortOrderFromTag(SortOrderTag(o)) == Some(o)
  {
    forall o: SortOrder ensures IsTag(SortOrderTag(o)) && SortOrderFromTag(SortOrderTag(o)) == Some(o) {
      match o
      case Asc =>
      case Desc =>
    }
  }

  lemma PartOfSpeechTags()
    ensures forall p :: IsTag(PartOfSpeechTag(p)) && PartOfSpeechFromTag(PartOfSpeechTag(p)) == Some(p)
  {
    PartOfSpeechTagsWellFormed();
    forall p: PartOfSpeech ensures IsTag(PartOfSpeechTag(p)) && PartOfSpeechFromTag(PartOfSpeechTag(p)) == Some(p) {
      PartOfSpeechTagInverse(p);
    }
  }

  lemma PartOfSpeechTagInverse(p: PartOfSpeech)
    ensures PartOfSpeechFromTag(PartOfSpeechTag(p)) == Some(p)
  {
    PartOfSpeechFromTag0();
    PartOfSpeechFromTag1();
    PartOfSpeechFromTag2();
    PartOfSpeechFromTag3();
    PartOfSpeechFromTag4();
  }

  // The inverse is checked a few tags at a time, in groups of whole first-letter arms
  // (a; c to i; n; p; s and v).

  lemma PartOfSpeechFromTag0()
    ensures PartOfSpeechFromTag("abbreviation") == Some(Abbreviation)
    ensures PartOfSpeechFromTag("adjective") == Some(Adjective)
    ensures PartOfSpeechFromTag("adverb") == Some(Adverb)
    ensures PartOfSpeechFromTag("affix") == Some(Affix)
    ensures PartOfSpeechFromTag("article") == Some(Article)
    ensures PartOfSpeechFromTag("auxiliary-verb") == Some(AuxiliaryVerb)
  {
  }

  lemma PartOfSpeechFromTag1()
    ensures PartOfSpeechFromTag("conjunction") == Some(Conjunction)
    ensures PartOfSpeechFromTag("definite-article") == Some(DefiniteArticle)
    ensures PartOfSpeechFromTag("family-name") == Some(FamilyName)
    ensures PartOfSpeechFromTag("given-name") == Some(GivenName)
    ensures PartOfSpeechFromTag("idiom") == Some(Idiom)
    ensures PartOfSpeechFromTag("imperative") == Some(Imperative)
    ensures PartOfSpeechFromTag("interjection") == Some(Interjection)
  {
  }

  lemma PartOfSpeechFromTag2()
    ensures PartOfSpeechFromTag("noun") == Some(Noun)
    ensures PartOfSpeechFromTag("noun-plural") == Some(NounPlural)
    ensures PartOfSpeechFromTag("noun-possessive") == Some(NounPossessitve)
  {
  }

  lemma PartOfSpeechFromTag3()
    ensures PartOfSpeechFromTag("past-participle") == Some(PastParticiple)
    ensures PartOfSpeechFromTag("phrasal-prefix") == Some(PhrasalPrefix)
    ensures PartOfSpeechFromTag("preposition") == Some(Preposition)
    ensures PartOfSpeechFromTag("pronoun") == Some(Pronoun)
    ensures PartOfSpeechFromTag("proper-noun") == Some(ProperNoun)
    ensures PartOfSpeechFromTag("proper-noun-plural") == Some(ProperNounPlural)
    ensures PartOfSpeechFromTag("proper-noun-possessive") == Some(ProperNounPossessive)
  {
  }

  lemma PartOfSpeechFromTag4()
    ensures PartOfSpeechFromTag("suffix") == Some(Suffix)
    ensures PartOfSpeechFromTag("verb") == Some(Verb)
    ensures PartOfSpeechFromTag("verb-intransitive") == Some(VerbIntransitive)
    ensures PartOfSpeechFromTag("verb-transitive") == Some(VerbTransitive)
  {
  }

  // The 27 part-of-speech tags are checked seven at a time, which keeps each proof small.

  lemma PartOfSpeechTagsWellFormed()
    ensures forall p :: IsTag(PartOfSpeechTag(p))
  {
    PartOfSpeechTagsWellFormed0();
    PartOfSpeechTagsWellFormed1();
    PartOfSpeechTagsWellFormed2();
    PartOfSpeechTagsWellFormed3();
  }

  lemma PartOfSpeechTagsWellFormed0()
    ensures IsTag("abbreviation")
    ensures IsTag("adjective")
    ensures IsTag("adverb")
    ensures IsTag("affix")
    ensures IsTag("article")
    ensures IsTag("auxiliary-verb")
    ensures IsTag("conjunction")
  {
  }

  lemma PartOfSpeechTagsWellFormed1()
    ensures IsTag("definite-article")
    ensures IsTag("family-name")
    ensures IsTag("given-name")
    ensures IsTag("idiom")
    ensures IsTag("imperative")
    ensures IsTag("interjection")
    ensures IsTag("noun")
  {
  }

  lemma PartOfSpeechTagsWellFormed2()
    ensures IsTag("noun-plural")
    ensures IsTag("noun-possessive")
    ensures IsTag("past-participle")
    ensures IsTag("phrasal-prefix")
    ensures IsTag("preposition")
    ensures IsTag("pronoun")
    ensures IsTag("proper-noun")
  {
  }

  lemma PartOfSpeechTagsWellFormed3()
    ensures IsTag("proper-noun-plural")
    ensures IsTag("proper-noun-possessive")
    ensures IsTag("suffix")
    ensures IsTag("verb")
    ensures IsTag("verb-intransitive")
    ensures IsTag("verb-transitive")
  {
  }

  lemma SourceDictionaryTags()
    ensures forall d :: IsTag(SourceDictionaryTag(d)) && SourceDictionaryFromTag(SourceDictionaryTag(d)) == Some(d)
  {
  }

  /** The tags of `xs`, in list order. */
  function Tags<T>(xs: seq<T>, tag: T -> string): (r: seq<string>)
    ensures |r| == |xs|
    decreases |xs|
  {
    if xs == [] then [] else Tags(xs[..|xs| - 1], tag) + [tag(xs[|xs| - 1])]
  }

  lemma {:induction false} TagsAt<T>(xs: seq<T>, tag: T -> string, k: nat)
    requires k < |xs|
    ensures Tags(xs, tag)[k] == tag(xs[k])
    decreases |xs|
  {
    if k < |xs| - 1 {
      TagsAt(xs[..|xs| - 1], tag, k);
    }
  }

  /** What `format_csv` returns: the tags of `xs` joined by single commas. */
  function Csv<T>(xs: seq<T>, tag: T -> string): string {
    Join(Tags(xs, tag), ',')
  }

  /** `format_csv`: "" for no element, the one tag for one element, else tags joined by commas. */
  method FormatCsv<T>(params: seq<T>, tag: T -> string) returns (buf: string)
    ensures buf == Csv(params, tag)
  {
    if |params| == 0 {
      return "";
    }
    if |params| == 1 {
      assert params[..0] == [];
      return tag(params[0]);
    }
    buf := tag(params[0]);
    assert params[..1][..0] == [];
    for i := 1 to |params|
      invariant buf == Csv(params[..i], tag)
    {
      buf := buf + ",";
      buf := buf + tag(params[i]);
      assert params[..i + 1][..i] == params[..i];
    }
    assert params[..|params|] == params;
  }

  /** The edge cases of `format_csv`: the empty list gives "", a single element gives its tag. */
  lemma CsvSmall<T>(tag: T -> string, x: T)
    ensures Csv([], tag) == ""
    ensures Csv([x], tag) == tag(x)
  {
    assert [x][..0] == [];
  }

  /** Splitting `format_csv`'s output on commas gives back the tags, in list order. */
  lemma CsvSplit<T>(xs: seq<T>, tag: T -> string)
    requires |xs| > 0
    requires forall x :: IsTag(tag(x))
    ensures Split(Csv(xs, tag), ',') == Tags(xs, tag)
  {
    var ts := Tags(xs, tag);
    forall k | 0 <= k < |ts| ensures ',' !in ts[k] {
      TagsAt(xs, tag, k);
      assert IsTag(ts[k]);
    }
    SplitJoin(ts, ',');
  }

  /** Joining tags gives text in the value alphabet that neither starts nor ends with a comma. */
  lemma {:induction false} JoinTags(ts: seq<string>)
    requires |ts| > 0
    requires forall k :: 0 <= k < |ts| ==> IsTag(ts[k])
    ensures var s := Join(ts, ','); |s| > 0 && IsValueText(s) && s[0] != ',' && s[|s| - 1] != ','
    decreases |ts|
  {
    if |ts| > 1 {
      var init, last := ts[..|ts| - 1], ts[|ts| - 1];
      JoinTags(init);
      var j := Join(init, ',');
      assert Join(ts, ',') == j + ([','] + last);
      assert IsTag(last) && last[|last| - 1] in last;
    } else {
      assert ts[0][0] in ts[0] && ts[0][|ts[0]| - 1] in ts[0];
    }
  }

  lemma CsvShape<T>(xs: seq<T>, tag: T -> string)
    requires |xs| > 0
    requires forall x :: IsTag(tag(x))
    ensures var s := Csv(xs, tag); |s| > 0 && IsValueText(s) && s[0] != ',' && s[|s| - 1] != ','
  {
    forall k | 0 <= k < |xs| ensures IsTag(Tags(xs, tag)[k]) {
      TagsAt(xs, tag, k);
    }
    JoinTags(Tags(xs, tag));
  }

  /** Reads each part back with `fromTag`; fails if any part is not a tag. */
  function ParseEach<T>(parts: seq<string>, fromTag: string -> Option<T>): Option<seq<T>>
    decreases |parts|
  {
    if parts == [] then Some([])
    else
      match ParseEach(parts[..|parts| - 1], fromTag)
      case None => None
      case Some(init) =>
        match fromTag(parts[|parts| - 1])
        case None => None
        case Some(x) => Some(init + [x])
  }

  /** Reads back a comma-separated tag list. */
  function ParseCsv<T>(s: string, fromTag: string -> Option<T>): Option<seq<T>> {
    ParseEach(Split(s, ','), fromTag)
  }

  lemma {:induction false} ParseEachTags<T>(xs: seq<T>, tag: T -> string, fromTag: string -> Option<T>)
    requires forall x :: fromTag(tag(x)) == Some(x)
    ensures ParseEach(Tags(xs, tag), fromTag) == Some(xs)
    decreases |xs|
  {
    if xs != [] {
      var init := xs[..|xs| - 1];
      ParseEachTags(init, tag, fromTag);
      var ts := Tags(xs, tag);
      assert ts[..|ts| - 1] == Tags(init, tag);
      assert init + [xs[|xs| - 1]] == xs;
    }
  }

  /** A non-empty list survives `format_csv` followed by `ParseCsv`. */
  lemma CsvRoundTrip<T>(xs: seq<T>, tag: T -> string, fromTag: string -> Option<T>)
    requires |xs| > 0
    requires forall x :: IsTag(tag(x))
    requires forall x :: fromTag(tag(x)) == Some(x)
    ensures ParseCsv(Csv(xs, tag), fromTag) == Some(xs)
  {
    CsvSplit(xs, tag);
    ParseEachTags(xs, tag, fromTag);
  }

  /** `format_bool` (and Rust's `bool::to_string`, which writes the same text). */
  function FormatBool(b: bool): (s: string)
    ensures IsTag(s) && IsValueText(s)
  {
    if b then "true" else "false"
  }

  function ParseBool(s: string): Option<bool> {
    if s == "true" then Some(true) else if s == "false" then Some(false) else None
  }

  /** Booleans are written as the words `true` and `false`, never as digits, and read back. */
  lemma BoolRoundTrip(b: bool)
    ensures FormatBool(true) == "true" && FormatBool(false) == "false"
    ensures FormatBool(b) != "1" && FormatBool(b) != "0"
    ensures ParseBool(FormatBool(b)) == Some(b)
  {
  }

  /** Decimal text of any integer is made of digits and `-`, so it is in the value alphabet. */
  lemma DecimalIsValueText(i: int)
    ensures forall c :: c in Decimal(i) ==> IsDigit(c) || c == '-'
    ensures IsValueText(Decimal(i))
  {
    var s := Decimal(i);
    forall k | 0 <= k < |s| ensures IsDigit(s[k]) || s[k] == '-' {
      if i < 0 && k > 0 {
        assert s[k] == s[1..][k - 1];
      }
    }
  }
}
