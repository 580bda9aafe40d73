/**
 `TextProcessor.extract_key_phrases`: the distinct noun chunks and named
 entities of a text that have at least two words, at most `num_phrases` of
 them, or a fixed list of three placeholder words when none qualifies.
 */
module KeyPhrases {
  import opened PyStrings
  import opened PyLists
  import opened Oracles

  /** Returned when no candidate has two or more words. */
  const Fallback: seq<string> := ["concept", "topic", "subject"]

  /** A phrase of at least two whitespace-separated words. */
  predicate IsMultiWord(p: string) {
    |Words(p)| >= 2
  }

  /** The noun chunks followed by the named entities. */
  function Candidates(doc: Doc): seq<string> {
    doc.nounChunks + doc.ents
  }

  /** The distinct candidates that pass the two-word filter. */
  function MultiWordSet(doc: Doc): set<string> {
    set p | p in Candidates(doc) && IsMultiWord(p)
  }

  /** The candidates with duplicates removed, keeping only those of two or
      more words: each qualifying candidate exactly once. */
  function MultiWordPhrases(doc: Doc): seq<string>
  {
    Filter(IsMultiWord, Dedup(Candidates(doc)))
  }

  /** The filtered candidates hold every distinct two-word candidate once. */
  lemma MultiWordPhrasesSpec(doc: Doc)
    ensures var ps := MultiWordPhrases(doc);
      && NoDups(ps)
      && (forall i :: 0 <= i < |ps| ==> IsMultiWord(ps[i]) && ps[i] in Candidates(doc))
      && (forall p :: p in ps <==> p in MultiWordSet(doc))
      && |ps| == |MultiWordSet(doc)|
  {
    var unique := Dedup(Candidates(doc));
    var ps := Filter(IsMultiWord, unique);
    FilterNoDups(IsMultiWord, unique);
    assert (set p | p in ps) == MultiWordSet(doc);
    NoDupsCardinality(ps);
  }

  /** `extract_key_phrases(text, num_phrases)` on the annotation `doc` of the
      text. Asked for at least one phrase, it never returns an empty list. */
  function ExtractKeyPhrases(doc: Doc, numPhrases: int): (r: seq<string>)
    ensures numPhrases >= 1 ==> |r| >= 1
  {
    var phrases := MultiWordPhrases(doc);
    if phrases == [] then Fallback else Prefix(phrases, numPhrases)
  }

  /** What `extract_key_phrases` returns: the placeholders exactly when no
      candidate has two words; otherwise distinct two-word candidates, as many
      as asked for while they last. */
  lemma KeyPhrasesSpec(doc: Doc, numPhrases: int)
    ensures var r := ExtractKeyPhrases(doc, numPhrases);
      && (r == Fallback <==> MultiWordSet(doc) == {})
      && (r != Fallback ==> NoDups(r))
      && (r != Fallback ==> forall i :: 0 <= i < |r| ==> IsMultiWord(r[i]) && r[i] in Candidates(doc))
      && (r != Fallback && numPhrases >= 0 ==> |r| == Min(numPhrases, |MultiWordSet(doc)|))
  {
    var phrases := MultiWordPhrases(doc);
    MultiWordPhrasesSpec(doc);
    if phrases == [] {
      assert MultiWordSet(doc) == {};
    } else {
      var r := Prefix(phrases, numPhrases);
      assert forall i :: 0 <= i < |r| ==> r[i] == phrases[i];
      NotFallback(r);
      assert phrases[0] in MultiWordSet(doc);
    }
  }

  /** A list of qualifying phrases is never mistaken for the placeholders. */
  lemma NotFallback(r: seq<string>)
    requires forall i :: 0 <= i < |r| ==> IsMultiWord(r[i])
    ensures r != Fallback
  {
    if r != [] {
      FallbackIsSingleWords();
      assert IsMultiWord(r[0]) && !IsMultiWord(Fallback[0]);
    }
  }

  /** None of the placeholder phrases would pass the two-word filter. */
  lemma FallbackIsSingleWords()
    ensures forall i :: 0 <= i < |Fallback| ==> !IsMultiWord(Fallback[i])
  {
    forall i | 0 <= i < |Fallback|
      ensures |Words(Fallback[i])| == 1
    {
      var p := Fallback[i];
      assert IsWord(p);
      assert Join(" ", [p]) == p;
      WordsOfSingle(p);
    }
  }
}
