# wordnik query-parameter encoder, in Dafny

A model of the part of the `wordnik` client crate that turns request options into a query
string. It has four parts:

- **Wire tags.** `SortType`, `SortOrder`, `PartOfSpeech` (27 variants, including the misspelt
  `NounPossessitve`) and `SourceDictionaries` each map to a fixed wire token. The helpers are
  `format_csv` (tags joined by single commas), `format_bool` (`true`/`false`) and the decimal
  `to_string` of `u32`/`i32`.
- **Three request bundles and their iterators.** These are `DefinitionsArgs`, `RandomWordArgs`
  and `RandomWordsArgs`, each with its compile-time defaults. Each `*ArgsIter::next` is a state
  machine over the field index `idx`. It moves through the fields in declaration order and
  yields `(wireName, value)` only for a field that differs from its default. Once `idx` passes
  the last field it yields `None` and stays there.
- **`to_urlencoded`.** It folds the yielded pairs into a string, writing `&key=value` for
  every pair, the first included.
- **The macro-generated `to_uri`** of the four parameter structs in `src/parameters.rs`. It
  writes `&name=value` for every field that is `Some`, in declaration order, and never
  suppresses a default.

Modules:

| module | file | contents |
|---|---|---|
| `Wrappers` | wrappers.dfy | `Option` |
| `Text` | text.dfy | `u32`/`i32` ranges, decimal text and its parser, split/join on a character, character counts |
| `Format` | format.dfy | the four tag tables and their inverses, `format_csv` (a loop, as in the source) with its specification `Csv`, `format_bool` |
| `Query` | query.dfy | the `&key=value` encoding of a pair sequence, one appending step of `to_urlencoded`, and a reference query parser |
| `Emission` | emission.dfy | facts shared by the three iterators, stated over an arbitrary per-field step function |
| `WireNames` | wire_names.dfy | that each wire name is free of `&` and `=`, one name per lemma |
| `Definitions`, `RandomWord`, `RandomWords` | definitions.dfy, random_word.dfy, random_words.dfy | one bundle each: the datatype, `new()`, the per-field `Step`, the iterator class, `to_urlencoded`, and the lemmas |
| `Parameters` | parameters.dfy | the four `to_uri` expansions, their defaults and their fixed outputs |

Each bundle is specified by a pure function `Pairs(a)`: the pairs the iterator yields, in order.
The iterator is a class with the source's `args` and `idx` fields. Its ghost field `rest` holds
what is still to come, which is `Remaining(args, idx)`. `Next` is the source's `loop`/`match`:
it raises `idx` one field at a time and returns the first non-default field's pair. Its
contract says that the call yields the head of `rest` and leaves the tail, or yields `None` with
`idx` at the end once `rest` is empty. `ToUrlencoded` drives a fresh iterator until it yields
`None`, appending one segment per pair. It is proved to return `UrlEncoded(Pairs(a))`.

Each encoder has a reference decoder beside it as its partner. The decoder parses the query back
into pairs and applies them, one wire name at a time, to the default bundle. The main lemma of
each bundle, `EncodingRoundTrip`, states that decoding the encoded query gives back exactly the
bundle. So nothing is lost by suppressing defaults, and no two bundles share an encoding.

Both copies of the bundles are covered. `src/args.rs` and the split files `src/args/definitions.rs`
and `src/args/random.rs` hold the same fields, defaults, wire names and emission order. One model
serves both, and each row below cites one copy and names the mirror copy.

The query text keeps the `&` before the first pair, as `to_urlencoded` writes it
(src/args.rs:12-17). An encoding made purely of pairs joined by `&` would not have it.

## Model

| member | source | states |
|---|---|---|
| `Text.Decimal` | src/args.rs:66 | the `to_string` of an integer is non-empty digits with no leading zero, preceded by `-` only for a negative value |
| `Text.Uint32RoundTrip` | src/args/random.rs:115 | the decimal of every `u32` parses back to the same `u32` |
| `Text.Int32RoundTrip` | src/args/random.rs:91 | the decimal of every `i32`, negatives included, parses back to the same `i32` |
| `Format.SortTypeTags` | src/args.rs:389-396 | every `SortType` tag is a non-empty token free of `,`, `&` and `=`, and maps back to its variant, so the table is injective |
| `Format.SortOrderTags` | src/args.rs:404-411 | the same for `SortOrder` (`asc`, `desc`) |
| `Format.PartOfSpeechTags` | src/args.rs:448-480 | the same for all 27 `PartOfSpeech` tags, e.g. `NounPossessitve` gives `noun-possessive` |
| `Format.SourceDictionaryTags` | src/args.rs:494-507 | the same for all 8 `SourceDictionaries` tags, e.g. `AmericanHeritage` gives `ahd-5` |
| `Format.FormatCsv` | src/args.rs:509-524 | the loop returns `Csv(params)`: the tags in list order with a single `,` between neighbours |
| `Format.CsvSmall` | src/args.rs:509-516 | an empty list gives `""`; a one-element list gives that element's tag |
| `Format.CsvShape` | src/args.rs:517-523 | a non-empty list gives non-empty text free of `&` and `=` that neither starts nor ends with `,` |
| `Format.CsvSplit` | src/args.rs:509-524 | splitting the text of a non-empty list on `,` gives the list's tags back, in order |
| `Format.CsvRoundTrip` | src/args.rs:509-524 | parsing the text back through the tag inverse gives the original non-empty list |
| `Format.FormatBool` | src/args.rs:530-536 | the text is a non-empty word of tag characters (no `,`, `&` or `=`), so it lies in the value alphabet |
| `Format.BoolRoundTrip` | src/args.rs:530-536 | `true` gives `"true"` and `false` gives `"false"`, never `"1"` or `"0"`, and the text parses back to the value |
| `Format.DecimalIsValueText` | src/args/random.rs:236 | the decimal of any integer is made of digits and `-`, so it lies in the value alphabet (tag characters and commas) and is free of `&` and `=` |
| `Query.AppendPair` | src/args.rs:12-17 | one step of the fold appends `&`, the key, `=` and the value to the buffer |
| `Query.UrlEncodedShape` | src/args.rs:8-20 | the encoding is `""` exactly when there are no pairs, and otherwise starts with `&` |
| `Query.UrlEncodedSnoc` | src/args.rs:11-17 | encoding one more pair appends that pair's `&key=value` segment |
| `Query.UrlEncodedConcat` | src/args.rs:8-20 | the encoding of two pair sequences in a row is the two encodings in a row |
| `Query.UrlEncodedJoin` | src/args.rs:8-20 | a non-empty encoding is `&` followed by the `key=value` bodies joined by `&` |
| `Query.AmpersandCount` | src/args.rs:8-20 | with no `&` inside keys and values, the encoding holds exactly one `&` per pair |
| `Query.ParseUrlEncoded` | src/args.rs:8-20 | with keys and values free of `&` and `=`, the reference parser recovers the pair sequence, in order |
| `Emission.PairsFromKeys` | src/args.rs:61-104 | when each arm emits only under its own wire name, the names yielded are a subsequence of the declared names, distinct if those are, with at most one pair per field |
| `Emission.LookupFrom` | src/args.rs:163-226 | the value found under field `j`'s name in what is yielded is exactly what arm `j` emits |
| `Emission.ReplayFrom` | src/args.rs:289-370 | when every arm is sound, applying the yielded pairs to the defaults rebuilds the bundle |
| `Emission.CountFrom` | src/args/random.rs:194-290 | when every arm is sound, one pair is yielded per field that differs from its default |
| `Emission.PlainFrom` | src/args/random.rs:49-127 | when every arm's name and value are free of `&` and `=`, so is everything yielded |
| `Definitions.DefinitionsArgsIter.constructor` | src/args.rs:111-116 | `args()` starts at `idx == 0` with all of `Pairs(args)` still to come (mirror: src/args/definitions.rs:92-96) |
| `Definitions.DefinitionsArgsIter.Next` | src/args.rs:57-105 | yields the next pair of `Pairs(args)` and raises `idx`; once nothing is left it returns `None` with `idx == 6`, and later calls keep `idx` and keep returning `None`; the loop runs at most 6 times (mirror: src/args/definitions.rs:41-87) |
| `Definitions.ToUrlencoded` | src/args.rs:8-20 | the query of a `DefinitionsArgs` is `UrlEncoded(Pairs(a))` |
| `Definitions.StepSound` | src/args/definitions.rs:41-87 | each arm skips exactly when its field is at the default, and otherwise emits a pair that the decoder turns back into that field |
| `Definitions.StepValueText` | src/args/definitions.rs:47-84 | every emitted value, whether decimal, tag list or boolean, is made of tag characters and commas, so free of `&` and `=` |
| `Definitions.EncodingRoundTrip` | src/args/definitions.rs:41-87 | decoding the query of any bundle gives back exactly that bundle (mirror: src/args.rs:57-105) |
| `Definitions.PairCount` | src/args/definitions.rs:15-31 | one pair per field that differs from `new()`, so at most 6; `new()`/`default()` yield no pairs and the query `""` |
| `Definitions.EmissionOrder` | src/args/definitions.rs:44-84 | the names come in the order limit, partOfSpeech, includeRelated, sourceDictionaries, useCanonical, includeTags, each at most once |
| `Definitions.WireFields` | src/args/definitions.rs:47-82 | `limit` is sent iff it is not 200, as its decimal; the two lists iff non-empty, as `format_csv`; the three flags only when true, as `"true"` (mirror: src/args.rs:63-100) |
| `Definitions.LimitOnly` | src/args/definitions.rs:47-48 | with only `limit` changed, the pairs are exactly `[("limit", decimal)]` |
| `Definitions.LimitOneQuery` | src/lib.rs:186-192 | `new()` with `limit = 1` gives the query `&limit=1` |
| `RandomWord.RandomWordArgsIter.constructor` | src/args.rs:229-234 | `args()` starts at `idx == 0` with all of `Pairs(args)` still to come (mirror: src/args/random.rs:133-135) |
| `RandomWord.RandomWordArgsIter.Next` | src/args.rs:163-226 | as for Definitions, over 9 fields (mirror: src/args/random.rs:49-127) |
| `RandomWord.ToUrlencoded` | src/args.rs:8-20 | the query of a `RandomWordArgs` is `UrlEncoded(Pairs(a))` |
| `RandomWord.StepSound` | src/args/random.rs:49-127 | each arm skips exactly when its field is at the default, and otherwise emits a pair that the decoder turns back into that field |
| `RandomWord.StepValueText` | src/args/random.rs:54-122 | every emitted value is made of tag characters and commas, so free of `&` and `=` |
| `RandomWord.EncodingRoundTrip` | src/args/random.rs:49-127 | decoding the query of any bundle gives back exactly that bundle (mirror: src/args.rs:163-226) |
| `RandomWord.PairCount` | src/args/random.rs:20-39 | one pair per field that differs from `new()`, so at most 9; `new()`/`default()` yield no pairs and the query `""` |
| `RandomWord.EmissionOrder` | src/args/random.rs:50-126 | the names come in declaration order, each at most once |
| `RandomWord.WireFields` | src/args/random.rs:54-122 | `hasDictionaryDef` iff false, as `"false"`; the lists iff non-empty; `minCorpusCount` iff `Some(v)`, for every `v`; the max fields iff not −1, as signed decimal; `minDictionaryCount` iff not 1; `minLength` iff not 5 (mirror: src/args.rs:166-219) |
| `RandomWord.VerbMinLength` | src/args/random.rs:61-116 | with `[Verb]` and a non-default `minLength`, the pairs are exactly `includePartOfSpeech=verb` then `minLength` |
| `RandomWord.VerbMinLengthTwoQuery` | src/lib.rs:201-207 | `[Verb]` with `min_length = 2` gives `&includePartOfSpeech=verb&minLength=2` |
| `RandomWords.RandomWordsArgsIter.constructor` | src/args.rs:373-378 | `args()` starts at `idx == 0` with all of `Pairs(args)` still to come (mirror: src/args/random.rs:296-298) |
| `RandomWords.RandomWordsArgsIter.Next` | src/args.rs:289-370 | as for Definitions, over 12 fields (mirror: src/args/random.rs:194-290) |
| `RandomWords.ToUrlencoded` | src/args.rs:8-20 | the query of a `RandomWordsArgs` is `UrlEncoded(Pairs(a))` |
| `RandomWords.StepSound` | src/args/random.rs:194-290 | each arm skips exactly when its field is at the default, and otherwise emits a pair that the decoder turns back into that field |
| `RandomWords.StepValueText` | src/args/random.rs:199-285 | every emitted value, sort tags included, is made of tag characters and commas, so free of `&` and `=` |
| `RandomWords.EncodingRoundTrip` | src/args/random.rs:194-290 | decoding the query of any bundle gives back exactly that bundle (mirror: src/args.rs:289-370) |
| `RandomWords.PairCount` | src/args/random.rs:162-184 | one pair per field that differs from `new()`, so at most 12; `new()`/`default()` yield no pairs and the query `""` |
| `RandomWords.EmissionOrder` | src/args/random.rs:196-287 | hasDictionaryDef, includePartOfSpeech, excludePartOfSpeech, minCorpusCount, maxCorpusCount, minDictionaryCount, maxDictionaryCount, minLength, maxLength, sortBy, sortOrder, limit, each at most once |
| `RandomWords.WireFields` | src/args/random.rs:199-285 | as for RandomWord, plus `sortBy`/`sortOrder` iff `Some`, as the enum's tag, and `limit` iff not 10 (mirror: src/args.rs:292-362) |
| `RandomWords.NounLimit` | src/args.rs:299-362 | with `[Noun]` and a non-default `limit`, the pairs are exactly `includePartOfSpeech=noun` then `limit` |
| `RandomWords.NounLimitThreeQuery` | src/lib.rs:216-223 | `[Noun]` with `limit = 3` gives `&includePartOfSpeech=noun&limit=3` |
| `Parameters.PushField` | src/parameters.rs:34-37 | one field's step appends `&name=value` when the field is `Some` and changes nothing when it is `None` |
| `Parameters.UriShape` | src/parameters.rs:32-39 | the text is `""` exactly when no field is sent and otherwise starts with `&`; with plain fields it holds one `&` per pair and parses back to them |
| `Parameters.DefinitionToUri` | src/parameters.rs:53-62 | `to_uri` writes the `Some` fields' pairs in declaration order |
| `Parameters.DefinitionUri` | src/parameters.rs:33-38 | one pair per `Some` field: the text is empty iff none is `Some`, starts with `&` otherwise, and with the two `String` fields free of `&`/`=` it holds exactly one `&` per `Some` field and reads back |
| `Parameters.DefinitionIncludeTags` | src/parameters.rs:55-60 | no default is suppressed: the default alone sends `limit=200`, and `includeTags` follows it |
| `Parameters.DefinitionIncludeTagsUri` | src/parameters.rs:107-111 | `includeTags: Some(true)` over the default gives `&limit=200&includeTags=true` |
| `Parameters.EtymologiesToUri` | src/parameters.rs:64-68 | `to_uri` writes `useCanonical` when it is `Some` |
| `Parameters.EtymologiesUri` | src/parameters.rs:35-37 | the text is empty iff `useCanonical` is `None`, is `&useCanonical=` and the boolean otherwise, and reads back |
| `Parameters.EtymologiesUseCanonicalUri` | src/parameters.rs:113-117 | `useCanonical: Some(true)` gives `&useCanonical=true` |
| `Parameters.RandomWordToUri` | src/parameters.rs:72-84 | `to_uri` writes the `Some` fields' pairs in declaration order |
| `Parameters.RandomWordUri` | src/parameters.rs:35-38 | as for `DefinitionUri`, over 9 fields with two `String` fields |
| `Parameters.RandomWordMinCorpus` | src/parameters.rs:72-83 | the default sends nothing; with only `minCorpusCount` set, its pair alone is sent |
| `Parameters.RandomWordMinCorpusUri` | src/parameters.rs:122-126 | `minCorpusCount: Some(10)` gives `&minCorpusCount=10` |
| `Parameters.RandomWordsToUri` | src/parameters.rs:86-101 | `to_uri` writes the `Some` fields' pairs in declaration order |
| `Parameters.RandomWordsUri` | src/parameters.rs:34-38 | as for `DefinitionUri`, over 12 fields with four `String` fields |
| `Parameters.RandomWordsMinCorpus` | src/parameters.rs:97-99 | the default sends `limit=10`; with `minCorpusCount` set, its pair comes first and `limit` last |
| `Parameters.RandomWordsMinCorpusUri` | src/parameters.rs:128-132 | `minCorpusCount: Some(10)` gives `&minCorpusCount=10&limit=10` |

## Left out

- `src/lib.rs` (the HTTP client, URL assembly with the API key, JSON decoding), `src/model.rs` (a
  response record) and `src/error.rs` (a wrapper around the HTTP library's error): I/O and
  foreign libraries. Only the bundles built in its unit tests appear, as concrete queries.
- The `Args` trait, its lifetime-parameterised variant, and the `macro_rules!`/`stringify!`
  machinery of `src/parameters.rs`. The concrete bundles and the four expanded structs are
  modelled instead.
- `format_enum`: it only copies the tag, so `RandomWords` uses the tag functions directly.
- `Default::default` of the three bundles returns `new()`, so `New()` models both.
- Percent-encoding: the code does none, and the model does none either. Tags and decimals are
  shown to avoid `,`, `&` and `=`. The `String` fields of `src/parameters.rs` are written
  unescaped, so the read-back and `&`-count parts of `Parameters.DefinitionUri`,
  `Parameters.RandomWordUri` and `Parameters.RandomWordsUri` require those fields to be free of
  `&` and `=`.
- The `usize` width of `idx`: it never exceeds the field count (6, 9 or 12), so it is a `nat`.
- `hasDictionaryDef` uses `bool::to_string` in `RandomWordArgsIter` and `format_bool` in
  `RandomWordsArgsIter`. Both give the text `false`, which is modelled by `FormatBool`.
- The decoders (`Decode`, `ApplyPair`, `ParseQuery`) are reference definitions that make the
  round trip statable; the crate itself never parses a query.
