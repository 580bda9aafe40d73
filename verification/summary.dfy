/**
 `TextProcessor.generate_summary`: the input is cut to its first 1024
 whitespace-separated tokens before it reaches the summarizer, and a
 summarizer failure becomes a fixed message instead of an exception.
 */
module Summary {
  import opened PyStrings
  import opened PyLists
  import opened Oracles

  /** Inputs longer than this many tokens are cut before summarizing. */
  const MaxInputTokens: nat := 1024

  /** The `max_length` and `min_length` defaults of `generate_summary`. */
  const DefaultMaxLength: int := 130
  const DefaultMinLength: int := 30

  /** What a failed summarization returns, followed by the error message. */
  const FailurePrefix: string := "Summary generation failed. Try with shorter text. Error: "

  /** The text handed to the summarizer: unchanged when it has at most 1024
      tokens, otherwise its first 1024 tokens joined by single spaces. */
  function SummaryInput(text: string): (r: string)
    ensures |Words(text)| <= MaxInputTokens ==> r == text
    ensures |Words(text)| > MaxInputTokens ==> r == Join(" ", Words(text)[..MaxInputTokens])
    ensures |Words(r)| <= MaxInputTokens
    ensures Words(r) == Words(text)[..Min(|Words(text)|, MaxInputTokens)]
  {
    var tokens := Words(text);
    if |tokens| > MaxInputTokens then
      var kept := tokens[..MaxInputTokens];
      WordsAreWords(text);
      WordsOfJoin(kept);
      Join(" ", kept)
    else text
  }

  /** `generate_summary(text, max_length, min_length)`: never raises; returns
      the summarizer's text, or the failure message naming its error. */
  function GenerateSummary(summarizer: Summarizer, text: string, maxLength: int, minLength: int): (r: string)
    ensures summarizer(SummaryInput(text), maxLength, minLength).Summarized? ==>
      r == summarizer(SummaryInput(text), maxLength, minLength).summaryText
    ensures summarizer(SummaryInput(text), maxLength, minLength).Raised? ==>
      && |r| >= |FailurePrefix|
      && r[..|FailurePrefix|] == FailurePrefix
      && r[|FailurePrefix|..] == summarizer(SummaryInput(text), maxLength, minLength).message
  {
    match summarizer(SummaryInput(text), maxLength, minLength)
    case Summarized(s) => s
    case Raised(e) => FailurePrefix + e
  }
}
