/**
 * The wire names of every query parameter, each shown free of the query delimiters `&` and `=`.
 * One lemma per name keeps each string literal in a proof context of its own.
 */
module WireNames {
  import opened Query

  lemma LimitPlain()
    ensures Plain("limit")
  {
  }

  lemma PartOfSpeechPlain()
    ensures Plain("partOfSpeech")
  {
  }

  lemma IncludeRelatedPlain()
    ensures Plain("includeRelated")
  {
  }

  lemma SourceDictionariesPlain()
    ensures Plain("sourceDictionaries")
  {
  }

  lemma UseCanonicalPlain()
    ensures Plain("useCanonical")
  {
  }

  lemma IncludeTagsPlain()
    ensures Plain("includeTags")
  {
  }

  lemma HasDictionaryDefPlain()
    ensures Plain("hasDictionaryDef")
  {
  }

  lemma IncludePartOfSpeechPlain()
    ensures Plain("includePartOfSpeech")
  {
  }

  lemma ExcludePartOfSpeechPlain()
    ensures Plain("excludePartOfSpeech")
  {
  }

  lemma MinCorpusCountPlain()
    ensures Plain("minCorpusCount")
  {
  }

  lemma MaxCorpusCountPlain()
    ensures Plain("maxCorpusCount")
  {
  }

  lemma MinDictionaryCountPlain()
    ensures Plain("minDictionaryCount")
  {
  }

  lemma MaxDictionaryCountPlain()
    ensures Plain("maxDictionaryCount")
  {
  }

  lemma MinLengthPlain()
    ensures Plain("minLength")
  {
  }

  lemma MaxLengthPlain()
    ensures Plain("maxLength")
  {
  }

  lemma SortByPlain()
    ensures Plain("sortBy")
  {
  }

  lemma SortOrderPlain()
    ensures Plain("sortOrder")
  {
  }
}
