/**
 `TextProcessor.generate_flashcards`: one card per chunk of two sentences, for
 at most `num_cards` chunks, asking about the chunk's first key phrase and
 answering with the chunk's first 200 characters; one more card holding the
 summary of the whole text when the chunks fall short, then cut to `num_cards`.
 */
module Flashcards {
  import opened PyLists
  import opened Oracles
  import opened Chunking
  import opened KeyPhrases
  import opened Summary

  datatype Flashcard = Flashcard(question: string, answer: string)

  /** Chunk size and key-phrase count `generate_flashcards` asks for. */
  const CardChunkSize: int := 2
  const CardPhraseCount: int := 2

  /** A card's answer is cut to this many characters of its chunk. */
  const AnswerLimit: nat := 200

  /** The question of the card holding the summary. */
  const SummaryQuestion: string := "What is the main summary of this text?"

  /** The text before the concept in `question_templates[t]`. */
  function CardLead(t: TemplateChoice): string {
    if t == 0 then "What is "
    else if t == 1 then "Explain "
    else if t == 2 then "Define "
    else "What do you know about "
  }

  /** The text after the concept in `question_templates[t]`. */
  function CardTail(t: TemplateChoice): string {
    if t == 0 || t == 3 then "?" else ""
  }

  /** `question_templates[t]` for the concept `c`. */
  function CardTemplate(t: TemplateChoice, c: string): string {
    CardLead(t) + c + CardTail(t)
  }

  /** Every template names the concept right after its lead, and the four
      templates have different lengths, so the question tells which template
      was drawn. */
  lemma {:induction false} CardTemplateNamesConcept(t: TemplateChoice, c: string)
    ensures var q := CardTemplate(t, c);
      && |q| >= |CardLead(t)| + |c|
      && q[|CardLead(t)| .. |CardLead(t)| + |c|] == c
      && forall u: TemplateChoice :: u != t ==> CardTemplate(u, c) != q
  {
    var q := CardTemplate(t, c);
    assert q[|CardLead(t)| .. |CardLead(t)| + |c|] == c;
    forall u: TemplateChoice | u != t
      ensures CardTemplate(u, c) != q
    {
      assert |CardTemplate(u, c)| != |q|;
    }
  }

  /** The first 200 characters of the chunk, or all of it when shorter. */
  function CardAnswer(chunk: string): (a: string)
    ensures |a| == Min(|chunk|, AnswerLimit)
    ensures a == chunk[..|a|]
    ensures |chunk| <= AnswerLimit ==> a == chunk
  {
    Prefix(chunk, AnswerLimit)
  }

  /** The body of the loop for one chunk, given its key phrases: `None` is the
      `continue` taken when there are none. */
  function MakeCard(keyPhrases: seq<string>, chunk: string, t: TemplateChoice): (r: Option<Flashcard>)
    ensures r.None? <==> keyPhrases == []
    ensures r.Some? ==> r.value.answer == CardAnswer(chunk)
  {
    if keyPhrases == [] then None
    else Some(Flashcard(CardTemplate(t, keyPhrases[0]), CardAnswer(chunk)))
  }

  /** One chunk's card: its key phrases (up to two), then `MakeCard`. The
      key-phrase fallback means a chunk is never skipped. */
  function ChunkCard(nlp: Annotator, chunk: string, t: TemplateChoice): (r: Option<Flashcard>)
    ensures r.Some? && r.value.answer == CardAnswer(chunk)
  {
    MakeCard(ExtractKeyPhrases(nlp(chunk), CardPhraseCount), chunk, t)
  }

  /** A chunk card asks about the chunk's first key phrase, or about the
      placeholder "concept" when the chunk has no two-word candidate. */
  lemma ChunkCardConcept(nlp: Annotator, chunk: string, t: TemplateChoice)
    ensures var kp := ExtractKeyPhrases(nlp(chunk), CardPhraseCount);
      && ChunkCard(nlp, chunk, t).value.question == CardTemplate(t, kp[0])
      && (MultiWordSet(nlp(chunk)) == {} ==> kp[0] == "concept")
      && (MultiWordSet(nlp(chunk)) != {} ==> kp[0] in MultiWordSet(nlp(chunk)))
  {
    var doc := nlp(chunk);
    KeyPhrasesSpec(doc, CardPhraseCount);
    var kp := ExtractKeyPhrases(doc, CardPhraseCount);
    if MultiWordSet(doc) != {} {
      assert IsMultiWord(kp[0]) && kp[0] in Candidates(doc);
    }
  }

  /** The card built from the summary of the whole text, at the default
      summary lengths: its answer is the summarizer's text for the cut input,
      or the failure message carrying the summarizer's error. */
  function SummaryCard(summarizer: Summarizer, text: string): (c: Flashcard)
    ensures c.question == SummaryQuestion
    ensures summarizer(SummaryInput(text), 130, 30).Summarized? ==>
      c.answer == summarizer(SummaryInput(text), 130, 30).summaryText
    ensures summarizer(SummaryInput(text), 130, 30).Raised? ==>
      c.answer == FailurePrefix + summarizer(SummaryInput(text), 130, 30).message
  {
    Flashcard(SummaryQuestion, GenerateSummary(summarizer, text, DefaultMaxLength, DefaultMinLength))
  }

  /** The steps of `generate_flashcards` after chunking, for any per-chunk
      step `ask` and extra item: ask for the first `num_cards` chunks, append
      the extra item when fewer than `num_cards` were made, cut to `num_cards`. */
  method AskAndTopUp<D, Q>(ask: (string, D) -> Option<Q>, extra: Q, allChunks: seq<string>,
                           numCards: int, draws: nat -> D)
    returns (items: seq<Q>)
    ensures numCards >= 0 ==> |items| <= numCards
    ensures numCards >= 1 ==> |items| >= 1
    ensures (forall j :: 0 <= j < |allChunks| ==> ask(allChunks[j], draws(j)).Some?) ==>
      && (numCards < 0 ==> |items| == Max(0, |allChunks| + 2 * numCards))
      && (numCards >= 0 ==> |items| == Min(numCards, |allChunks| + 1))
      && forall j :: 0 <= j < |items| ==>
           if j < |Prefix(allChunks, numCards)| then Some(items[j]) == ask(allChunks[j], draws(j))
           else items[j] == extra
  {
    var chunks := Prefix(allChunks, numCards);
    var made := AskEach(ask, chunks, draws);
    var topped := made;
    if |made| < numCards {
      topped := made + [extra];
    }
    items := Prefix(topped, numCards);
    if forall j :: 0 <= j < |allChunks| ==> ask(allChunks[j], draws(j)).Some? {
      forall j | 0 <= j < |items| && j < |chunks|
        ensures Some(items[j]) == ask(allChunks[j], draws(j))
      {
        assert items[j] == topped[j] == made[j];
        assert chunks[j] == allChunks[j];
      }
    }
  }

  /** `generate_flashcards` once the text is chunked. The `j`-th chunk card
      uses the `j`-th template draw `draws(j)`. */
  method CardsFromChunks(nlp: Annotator, summarizer: Summarizer, text: string,
                         allChunks: seq<string>, numCards: int, draws: nat -> TemplateChoice)
    returns (cards: seq<Flashcard>)
    ensures numCards >= 0 ==> |cards| <= numCards
    ensures numCards >= 1 ==> |cards| >= 1
    ensures numCards < 0 ==> |cards| == Max(0, |allChunks| + 2 * numCards)
    ensures numCards >= 0 ==>
      var used := Min(numCards, |allChunks|);
      && |cards| == (if used < numCards then used + 1 else used)
      && (forall j :: 0 <= j < used ==> Some(cards[j]) == ChunkCard(nlp, allChunks[j], draws(j)))
      && (used < numCards ==> cards[used] == SummaryCard(summarizer, text))
  {
    var ask := (c, t) => ChunkCard(nlp, c, t);
    assert forall j :: 0 <= j < |allChunks| ==> ask(allChunks[j], draws(j)).Some?;
    cards := AskAndTopUp(ask, SummaryCard(summarizer, text), allChunks, numCards, draws);
  }

  /** `generate_flashcards(text, num_cards)`: the text is cut into chunks of
      two sentences first. */
  method GenerateFlashcards(nlp: Annotator, summarizer: Summarizer, text: string,
                            numCards: int, draws: nat -> TemplateChoice)
    returns (cards: seq<Flashcard>)
    ensures numCards >= 0 ==> |cards| <= numCards
    ensures numCards >= 1 ==> |cards| >= 1
    ensures numCards < 0 ==> |cards| == Max(0, |ChunkText(nlp, text, CardChunkSize)| + 2 * numCards)
    ensures numCards >= 0 ==>
      var chunks := ChunkText(nlp, text, CardChunkSize);
      var used := Min(numCards, |chunks|);
      && |cards| == (if used < numCards then used + 1 else used)
      && (forall j :: 0 <= j < used ==> Some(cards[j]) == ChunkCard(nlp, chunks[j], draws(j)))
      && (used < numCards ==> cards[used] == SummaryCard(summarizer, text))
  {
    var chunks := ChunkText(nlp, text, CardChunkSize);
    cards := CardsFromChunks(nlp, summarizer, text, chunks, numCards, draws);
  }
}
