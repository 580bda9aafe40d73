/**
 `TextProcessor.generate_mcqs`: one multiple-choice question per chunk of
 two sentences, for at most `num_questions` chunks, padded with a fixed
 filler question up to `min(num_questions, 3)` and cut to `num_questions`.
 */
module Mcqs {
  import opened PyStrings
  import opened PyLists
  import opened Oracles
  import opened Chunking
  import opened KeyPhrases

  datatype Mcq = Mcq(question: string, options: seq<string>, answer: string)

  /** Chunk size and key-phrase count `generate_mcqs` asks for. */
  const McqChunkSize: int := 2
  const McqPhraseCount: int := 3

  /** The last option before shuffling. */
  const NoneOfTheAbove: string := "None of the above"

  /** Used when the chunk offers fewer than two other key phrases. */
  const FixedDistractors: seq<string> := ["Alternative concept", "Different topic"]

  /** The question padding uses; its answer is the first option. */
  const Filler: Mcq := Mcq(
    "What is the main idea discussed in the text?",
    ["Concept A", "Concept B", "Concept C", "Concept D"],
    "A. Concept A")

  /** The text before the answer phrase in `question_templates[t]`. */
  function QuestionLead(t: TemplateChoice): string {
    if t == 0 then "What is "
    else if t == 1 then "Which concept relates to "
    else if t == 2 then "What describes "
    else "What is the significance of "
  }

  /** `question_templates[t]` for the answer phrase `a`. */
  function QuestionTemplate(t: TemplateChoice, a: string): string {
    QuestionLead(t) + a + "?"
  }

  /** The capital letter naming option `i`: A for the first, D for the fourth. */
  function Letter(i: nat): (c: char)
    requires i < 4
    ensures 'A' <= c <= 'D' && c as int - 65 == i
  {
    (65 + i) as char
  }

  /** A question a reader can grade: four options and an answer
      `"<L>. <phrase>"` whose letter `L` points at the first option equal to
      the phrase. */
  predicate WellFormed(m: Mcq) {
    && |m.options| == 4
    && |m.answer| >= 3
    && 'A' <= m.answer[0] <= 'D'
    && m.answer[1..3] == ". "
    && var i := m.answer[0] as int - 65;
       m.options[i] == m.answer[3..] && forall j :: 0 <= j < i ==> m.options[j] != m.answer[3..]
  }

  /** The key phrases after the first that differ from the answer, in order. */
  function OtherPhrases(keyPhrases: seq<string>): (others: seq<string>)
    requires |keyPhrases| >= 1
    ensures forall x :: x in others <==> x in keyPhrases[1..] && x != keyPhrases[0]
  {
    var answer := keyPhrases[0];
    Filter(p => p != answer, keyPhrases[1..])
  }

  /** The two wrong options: the first two other key phrases, or the fixed
      pair when there are fewer than two. */
  function Distractors(keyPhrases: seq<string>): (d: seq<string>)
    requires |keyPhrases| >= 1
    ensures |d| == 2
    ensures d == FixedDistractors ||
      forall i :: 0 <= i < 2 ==> d[i] in keyPhrases[1..] && d[i] != keyPhrases[0]
  {
    var others := OtherPhrases(keyPhrases);
    if |others| >= 2 then others[..2] else FixedDistractors
  }

  /** With duplicate-free key phrases nothing is filtered out, so three
      phrases give their last two as distractors and fewer give the fixed pair. */
  lemma DistinctDistractors(keyPhrases: seq<string>)
    requires NoDups(keyPhrases) && 1 <= |keyPhrases| <= 3
    ensures Distractors(keyPhrases) ==
      if |keyPhrases| == 3 then keyPhrases[1..3] else FixedDistractors
  {
    var answer := keyPhrases[0];
    var rest := keyPhrases[1..];
    assert forall i :: 0 <= i < |rest| ==> rest[i] != answer;
    FilterKeepsAll(p => p != answer, rest);
  }

  /** The answer, then the two distractors, then "None of the above": always
      four options. */
  function Options(keyPhrases: seq<string>): (options: seq<string>)
    requires |keyPhrases| >= 1
    ensures |options| == 4 && options[0] == keyPhrases[0]
  {
    [keyPhrases[0]] + Distractors(keyPhrases) + [NoneOfTheAbove]
  }

  /** The answer line: the letter of option `i`, a full stop and a space, then
      the answer phrase. */
  function AnswerText(i: nat, answer: string): (s: string)
    requires i < 4
    ensures |s| >= 3 && s[0] == Letter(i) && s[1..3] == ". " && s[3..] == answer
  {
    [Letter(i)] + ". " + answer
  }

  /** An answer naming the first position of its phrase among four options
      makes a well-formed question. */
  lemma {:induction false} AnswerPointsAtOption(question: string, options: seq<string>, answer: string)
    requires |options| == 4 && answer in options
    ensures WellFormed(Mcq(question, options, AnswerText(IndexOf(options, answer), answer)))
  {
    var i := IndexOf(options, answer);
    var text := AnswerText(i, answer);
    assert text[0] as int - 65 == i;
  }

  /** The four options after the random shuffle: still four of them, and
      the answer among them. */
  function ShuffledOptions(keyPhrases: seq<string>, js: OptionShuffle): (options: seq<string>)
    requires |keyPhrases| >= 1
    ensures |options| == 4 && keyPhrases[0] in options
  {
    var options := Options(keyPhrases);
    assert keyPhrases[0] in multiset(options);
    Shuffle(options, js)
  }

  /** The question record: the first four options (all of them) and the
      letter of the first option equal to the answer. */
  function Assemble(question: string, options: seq<string>, answer: string): (m: Mcq)
    requires |options| == 4 && answer in options
    ensures WellFormed(m) && m.answer[3..] == answer
    ensures m.question == question && m.options == options
  {
    var kept := Prefix(options, 4);
    assert kept == options;
    AnswerPointsAtOption(question, options, answer);
    Mcq(question, kept, AnswerText(IndexOf(options, answer), answer))
  }

  /** The body of the loop for one chunk, given its key phrases: `None` is the
      `continue` taken when there are none. */
  function MakeMcq(keyPhrases: seq<string>, draw: McqDraw): (r: Option<Mcq>)
    ensures r.None? <==> keyPhrases == []
    ensures r.Some? ==> WellFormed(r.value) && r.value.answer[3..] == keyPhrases[0]
  {
    if keyPhrases == [] then None
    else
      var answer := keyPhrases[0];
      var options := ShuffledOptions(keyPhrases, draw.shuffle);
      Some(Assemble(QuestionTemplate(draw.template, answer), options, answer))
  }

  /** What a question made from key phrases says: a template about the first
      phrase, the four options (the phrase, two distractors, "None of the
      above") in some order, and the letter of the phrase among them. */
  lemma {:induction false} MakeMcqSpec(keyPhrases: seq<string>, draw: McqDraw)
    requires keyPhrases != []
    ensures var m := MakeMcq(keyPhrases, draw).value;
      && m.question == QuestionTemplate(draw.template, keyPhrases[0])
      && multiset(m.options) == multiset([keyPhrases[0]] + Distractors(keyPhrases) + [NoneOfTheAbove])
      && m.answer == AnswerText(IndexOf(m.options, keyPhrases[0]), keyPhrases[0])
  {
    var answer := keyPhrases[0];
    var options := ShuffledOptions(keyPhrases, draw.shuffle);
    assert MakeMcq(keyPhrases, draw).value
      == Assemble(QuestionTemplate(draw.template, answer), options, answer);
    assert multiset(options) == multiset(Options(keyPhrases));
  }

  /** One chunk's question: its key phrases (up to three), then `MakeMcq`.
      The key-phrase fallback means a chunk is never skipped. */
  function ChunkMcq(nlp: Annotator, chunk: string, draw: McqDraw): (r: Option<Mcq>)
    ensures r.Some? && WellFormed(r.value)
  {
    MakeMcq(ExtractKeyPhrases(nlp(chunk), McqPhraseCount), draw)
  }

  /** With duplicate-free key phrases, the options before shuffling are the
      phrases themselves when there are three, and the first phrase with the
      fixed pair otherwise, each time followed by "None of the above". */
  lemma DistinctPhraseOptions(keyPhrases: seq<string>)
    requires NoDups(keyPhrases) && 1 <= |keyPhrases| <= 3
    ensures [keyPhrases[0]] + Distractors(keyPhrases) + [NoneOfTheAbove] ==
      if |keyPhrases| == 3 then keyPhrases + [NoneOfTheAbove]
      else [keyPhrases[0]] + FixedDistractors + [NoneOfTheAbove]
  {
    DistinctDistractors(keyPhrases);
    if |keyPhrases| == 3 {
      assert [keyPhrases[0]] + keyPhrases[1..3] == keyPhrases;
    }
  }

  /** What a chunk's question says: a template about the chunk's first key
      phrase, and as options the phrase, the other two key phrases when there
      are three (the fixed pair otherwise) and "None of the above", in some
      order. A chunk without a two-word candidate asks about "concept" with
      "topic" and "subject" as distractors. */
  lemma ChunkMcqSpec(nlp: Annotator, chunk: string, draw: McqDraw)
    ensures var kp := ExtractKeyPhrases(nlp(chunk), McqPhraseCount);
      var m := ChunkMcq(nlp, chunk, draw).value;
      && m.question == QuestionTemplate(draw.template, kp[0])
      && m.answer[3..] == kp[0]
      && multiset(m.options) == multiset(
           if |kp| == 3 then kp + [NoneOfTheAbove] else [kp[0]] + FixedDistractors + [NoneOfTheAbove])
      && (MultiWordSet(nlp(chunk)) == {} ==> kp == Fallback)
  {
    var doc := nlp(chunk);
    var kp := ExtractKeyPhrases(doc, McqPhraseCount);
    KeyPhrasesSpec(doc, McqPhraseCount);
    assert NoDups(kp) && |kp| <= 3 by {
      if kp == Fallback {
        assert Fallback[0] != Fallback[1] && Fallback[0] != Fallback[2] && Fallback[1] != Fallback[2];
      }
    }
    MakeMcqSpec(kp, draw);
    DistinctPhraseOptions(kp);
  }

  /** Every template names the answer phrase right after its lead, and the
      four templates have different lengths, so the question tells which
      template was drawn. */
  lemma {:induction false} QuestionTemplateNamesAnswer(t: TemplateChoice, a: string)
    ensures var q := QuestionTemplate(t, a);
      && |q| >= |QuestionLead(t)| + |a|
      && q[|QuestionLead(t)| .. |QuestionLead(t)| + |a|] == a
      && forall u: TemplateChoice :: u != t ==> QuestionTemplate(u, a) != q
  {
    var q := QuestionTemplate(t, a);
    assert q[|QuestionLead(t)| .. |QuestionLead(t)| + |a|] == a;
    forall u: TemplateChoice | u != t
      ensures QuestionTemplate(u, a) != q
    {
      assert |QuestionTemplate(u, a)| != |q|;
    }
  }

  lemma FillerIsWellFormed()
    ensures WellFormed(Filler)
  {
    assert Filler.answer[3..] == "Concept A";
  }

  /** Appends the filler item until there are at least `floor` items. */
  method PadWithFiller<Q>(items: seq<Q>, floor: int, filler: Q) returns (padded: seq<Q>)
    ensures |padded| == Max(|items|, floor)
    ensures padded[..|items|] == items
    ensures forall j :: |items| <= j < |padded| ==> padded[j] == filler
  {
    padded := items;
    while |padded| < floor
      invariant |items| <= |padded| <= Max(|items|, floor)
      invariant padded[..|items|] == items
      invariant forall j :: |items| <= j < |padded| ==> padded[j] == filler
      decreases floor - |padded|
    {
      padded := padded + [filler];
    }
  }

  /** The steps of `generate_mcqs` after chunking, for any per-chunk step
      `ask` and filler item: ask for the first `num_questions` chunks, pad with
      the filler up to `min(num_questions, 3)`, cut to `num_questions`. */
  method AskAndPad<D, Q>(ask: (string, D) -> Option<Q>, filler: Q, allChunks: seq<string>,
                         numQuestions: int, draws: nat -> D)
    returns (qs: seq<Q>)
    ensures numQuestions >= 0 ==> Min(numQuestions, 3) <= |qs| <= numQuestions
    ensures (forall j :: 0 <= j < |allChunks| ==> ask(allChunks[j], draws(j)).Some?) ==>
      && (numQuestions < 0 ==> |qs| == Max(0, |allChunks| + 2 * numQuestions))
      && (numQuestions >= 0 ==> |qs| == Max(Min(numQuestions, |allChunks|), Min(numQuestions, 3)))
      && forall j :: 0 <= j < |qs| ==>
           if j < |Prefix(allChunks, numQuestions)| then Some(qs[j]) == ask(allChunks[j], draws(j))
           else qs[j] == filler
  {
    var chunks := Prefix(allChunks, numQuestions);
    var generated := AskEach(ask, chunks, draws);
    var padded := PadWithFiller(generated, Min(numQuestions, 3), filler);
    qs := Prefix(padded, numQuestions);
    if forall j :: 0 <= j < |allChunks| ==> ask(allChunks[j], draws(j)).Some? {
      assert forall j :: 0 <= j < |chunks| ==> chunks[j] == allChunks[j];
      forall j | 0 <= j < |qs|
        ensures j < |chunks| ==> Some(qs[j]) == ask(allChunks[j], draws(j))
        ensures j >= |chunks| ==> qs[j] == filler
      {
        assert qs[j] == padded[j];
        if j < |chunks| {
          assert padded[j] == generated[j];
        }
      }
    }
  }

  /** `generate_mcqs` once the text is chunked. The `j`-th generated question
      uses the `j`-th draw `draws(j)` of the random source. */
  method McqsFromChunks(nlp: Annotator, allChunks: seq<string>, numQuestions: int, draws: nat -> McqDraw)
    returns (mcqs: seq<Mcq>)
    ensures forall j :: 0 <= j < |mcqs| ==> WellFormed(mcqs[j])
    ensures numQuestions >= 0 ==> Min(numQuestions, 3) <= |mcqs| <= numQuestions
    ensures numQuestions < 0 ==> |mcqs| == Max(0, |allChunks| + 2 * numQuestions)
    ensures numQuestions >= 0 ==>
      var used := Min(numQuestions, |allChunks|);
      && |mcqs| == Max(used, Min(numQuestions, 3))
      && forall j :: 0 <= j < |mcqs| ==>
           if j < used then Some(mcqs[j]) == ChunkMcq(nlp, allChunks[j], draws(j))
           else mcqs[j] == Filler
  {
    var ask := (c, d) => ChunkMcq(nlp, c, d);
    assert forall j :: 0 <= j < |allChunks| ==> ask(allChunks[j], draws(j)).Some?;
    mcqs := AskAndPad(ask, Filler, allChunks, numQuestions, draws);
    FillerIsWellFormed();
  }

  /** `generate_mcqs(text, num_questions)`: the text is cut into chunks of two
      sentences first. */
  method GenerateMcqs(nlp: Annotator, text: string, numQuestions: int, draws: nat -> McqDraw)
    returns (mcqs: seq<Mcq>)
    ensures forall j :: 0 <= j < |mcqs| ==> WellFormed(mcqs[j])
    ensures numQuestions >= 0 ==> Min(numQuestions, 3) <= |mcqs| <= numQuestions
    ensures numQuestions < 0 ==> |mcqs| == Max(0, |ChunkText(nlp, text, McqChunkSize)| + 2 * numQuestions)
    ensures numQuestions >= 0 ==>
      var chunks := ChunkText(nlp, text, McqChunkSize);
      var used := Min(numQuestions, |chunks|);
      && |mcqs| == Max(used, Min(numQuestions, 3))
      && forall j :: 0 <= j < |mcqs| ==>
           if j < used then Some(mcqs[j]) == ChunkMcq(nlp, chunks[j], draws(j))
           else mcqs[j] == Filler
  {
    var chunks := ChunkText(nlp, text, McqChunkSize);
    mcqs := McqsFromChunks(nlp, chunks, numQuestions, draws);
  }
}
