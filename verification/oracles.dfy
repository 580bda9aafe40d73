/**
 The black boxes the text processor calls, as plain values: what the spaCy
 annotator reports about a text, what the BART summarizer returns, and the
 draws the `random` module makes.
 */
module Oracles {

  /** What the annotator reports about one text: the sentence spans
      (`doc.sents`), the noun chunks (`doc.noun_chunks`) and the named
      entities (`doc.ents`), each as its text, in document order. */
  datatype Doc = Doc(sents: seq<string>, nounChunks: seq<string>, ents: seq<string>)

  /** The loaded annotator: deterministic for one loaded model. */
  type Annotator = string -> Doc

  /** The summarizer either returns a summary text or raises with a message. */
  datatype SummaryOutcome = Summarized(summaryText: string) | Raised(message: string)

  /** The summarizer applied to (input text, max_length, min_length). */
  type Summarizer = (string, int, int) -> SummaryOutcome

  /** `random.choice` over a list of four question templates. */
  type TemplateChoice = t: int | 0 <= t < 4

  /** The three `randbelow` results `random.shuffle` draws for a list of four:
      below 4, below 3 and below 2, in that order. */
  type OptionShuffle = js: seq<nat> | |js| == 3 && js[0] < 4 && js[1] < 3 && js[2] < 2
    witness [0, 0, 0]

  /** The random draws behind one multiple-choice question: the template
      choice, then the shuffle of its options. */
  datatype McqDraw = McqDraw(template: TemplateChoice, shuffle: OptionShuffle)
}
