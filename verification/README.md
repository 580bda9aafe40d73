# Smart text memory booster: the text processor, in Dafny

This project models `TextProcessor`, the study-material generator of the
smart-text-memory-booster application. `TextProcessor` turns a text into study
material in five steps:

- `chunk_text` groups the sentences of the text into chunks.
- `generate_summary` summarizes the text.
- `extract_key_phrases` picks the key phrases of the text.
- `generate_mcqs` builds multiple-choice questions.
- `generate_flashcards` builds question/answer flashcards.

The models the processor loads are not modelled. They are represented by what
they return:

- `Oracles.Annotator` is the spaCy pipeline. It is a function from a text to a
  `Doc`, which holds the sentences, noun chunks and named entities of the text.
- `Oracles.Summarizer` is the BART summarization pipeline. It either returns a
  summary or raises with a message.
- The `random` module is represented by the values it draws. One draw per MCQ
  is the template index for `random.choice`, plus the three `randbelow`
  results of CPython's Fisher-Yates `random.shuffle` over four options. One
  draw per flashcard is its template index.

The modules follow the source:

- `PyStrings` covers `str.split`, `str.strip` and `' '.join`.
- `PyLists` covers slicing, the set-based de-duplication, filtering,
  `list.index`, `random.shuffle` and the sentence windows of `range(0, n, k)`.
- `Chunking`, `Summary`, `KeyPhrases`, `Mcqs` and `Flashcards` model one
  method each.
- `Chunking.AskEach` is the per-chunk loop that both generators share. It
  covers `continue` on a chunk without key phrases, and the `j`-th draw going
  to the `j`-th item made.

Two properties of the code are easy to doubt on a first reading, and the
model proves both.

**Option truncation never drops the answer.** `options[:4]` is applied after
`random.shuffle`. The option list always has exactly four entries: the answer,
two distractors and "None of the above". So the slice never removes anything,
and the answer letter always points at the answer (`Mcqs.Assemble`,
`Mcqs.MakeMcq`).

**The summary card survives the final cut.** The summary flashcard is appended
before the final `[:num_cards]`. It is appended only when fewer than
`num_cards` chunk cards were made, so the cut never reaches it
(`Flashcards.CardsFromChunks`).

## Model

| member | source | states |
|---|---|---|
| PyStrings.Strip | nlp_processor.py:30 | The stripped text is a slice of the input with only whitespace outside it and no whitespace at either end; it is empty exactly when the input is all whitespace |
| PyStrings.WordsAreWords | nlp_processor.py:45 | Every token `split()` produces is non-empty and free of whitespace |
| PyStrings.WordsOfJoin | nlp_processor.py:46 | Joining tokens with single spaces and splitting again gives back the same tokens |
| PyStrings.JoinSpaceEmpty | nlp_processor.py:34-35 | A space-join is empty exactly when there is nothing to join or only one empty string |
| PyLists.Prefix | nlp_processor.py:67 | `xs[:n]` is the first `min(n, len)` elements for `n >= 0`, and all but the last `-n` for negative `n` |
| PyLists.Dedup | nlp_processor.py:62 | De-duplication keeps exactly the same elements, each once, and never grows the list |
| PyLists.Filter | nlp_processor.py:65 | An element is kept exactly when it is in the list and passes the test |
| PyLists.FilterAppend | nlp_processor.py:65 | Filtering a concatenation filters each part and concatenates the results, so the kept elements keep their order and multiplicity |
| PyLists.FilterNoDups | nlp_processor.py:65 | Filtering a list without duplicates leaves a list without duplicates |
| PyLists.NoDupsCardinality | nlp_processor.py:62 | A list without duplicates is as long as the set of its elements |
| PyLists.IndexOf | nlp_processor.py:103 | `list.index` returns the first position holding the element |
| PyLists.Shuffle | nlp_processor.py:100 | The Fisher-Yates pass keeps the length and the multiset of elements |
| PyLists.WindowCountIsCeiling | nlp_processor.py:33 | `range(0, n, k)` visits `ceil(n / k)` window starts |
| PyLists.Group | nlp_processor.py:33-34 | There is one window per start; each window has between 1 and `k` elements; all but the last have exactly `k` |
| PyLists.GroupFlatten | nlp_processor.py:33-34 | The windows, concatenated, give back the sentence list |
| PyLists.GroupOfOnes | nlp_processor.py:33-34 | With `chunk_size` 1, each window holds exactly one sentence |
| PyLists.GroupSlice | nlp_processor.py:33-34 | Window `j` is the slice `xs[j*k : j*k + k]` |
| Chunking.ChunkSentences | nlp_processor.py:32-38 | There is at least one chunk; `[text]` when there are no sentences; at most `ceil(n / k)` chunks; otherwise no chunk is empty |
| Chunking.ChunkText | nlp_processor.py:27-38 | There is at least one chunk; `[text]` for a negative chunk size or no sentences; at most `ceil(n / k)` chunks; otherwise no chunk is empty |
| Chunking.JoinWindowsFilters | nlp_processor.py:33-36 | The loop keeps exactly the non-empty window joins, in window order |
| Chunking.ChunksAreWindows | nlp_processor.py:32-38 | Reference definition: the chunks are the non-empty joins of `sentences[j*k : j*k + k]`, or `[text]` if there are none |
| Chunking.FallbackExactly | nlp_processor.py:32-38 | Falls back to `[text]` exactly when there are no sentences, or every sentence is blank and every window holds one sentence |
| Chunking.AskEach | nlp_processor.py:74-113 | The loop gives one item per chunk, in chunk order with the `j`-th draw, when no chunk is skipped; never more items than chunks |
| KeyPhrases.MultiWordPhrasesSpec | nlp_processor.py:58-65 | The filtered candidates are each distinct candidate with at least two words, exactly once |
| KeyPhrases.ExtractKeyPhrases | nlp_processor.py:53-67 | Asked for at least one phrase, the result is never empty |
| KeyPhrases.KeyPhrasesSpec | nlp_processor.py:53-67 | Placeholders exactly when no candidate has two words; otherwise distinct two-word candidates, `min(num_phrases, #qualifying)` of them |
| KeyPhrases.NotFallback | nlp_processor.py:65-67 | A list of two-word phrases is never the placeholder list |
| KeyPhrases.FallbackIsSingleWords | nlp_processor.py:67 | No placeholder would pass the two-word filter |
| Summary.SummaryInput | nlp_processor.py:43-46 | The summarizer sees at most 1024 tokens: for a longer text, exactly its first 1024 tokens joined by single spaces; the text unchanged when it is short enough |
| Summary.GenerateSummary | nlp_processor.py:40-51 | Never raises: the summarizer's text for the cut input, or a string that starts with the fixed failure message and ends with the whole error message |
| Mcqs.Letter | nlp_processor.py:104 | `chr(65 + i)` is the letter A–D naming option `i` |
| Mcqs.OtherPhrases | nlp_processor.py:95 | The other phrases are the later key phrases that differ from the answer |
| Mcqs.Distractors | nlp_processor.py:95-96 | There are always two distractors: the fixed pair, or two later key phrases that differ from the answer |
| Mcqs.DistinctDistractors | nlp_processor.py:95-96 | With distinct key phrases, three phrases give the last two as distractors and fewer give the fixed pair |
| Mcqs.Options | nlp_processor.py:99 | There are four options, the answer first |
| Mcqs.AnswerText | nlp_processor.py:109 | The answer string is the letter, then ". ", then the answer phrase |
| Mcqs.AnswerPointsAtOption | nlp_processor.py:102-109 | An answer letter computed by `options.index` makes a well-formed question |
| Mcqs.ShuffledOptions | nlp_processor.py:99-100 | After shuffling there are still four options and the answer is among them |
| Mcqs.Assemble | nlp_processor.py:102-110 | `options[:4]` keeps all four options, and the question is well formed, its answer letter naming the answer |
| Mcqs.MakeMcq | nlp_processor.py:80-110 | A chunk is skipped exactly when it has no key phrases; otherwise a well-formed question whose answer is the first key phrase |
| Mcqs.MakeMcqSpec | nlp_processor.py:84-110 | The question is a template of the first phrase; the options are a permutation of answer, distractors and "None of the above"; the letter names the first such option |
| Mcqs.ChunkMcq | nlp_processor.py:77-110 | Every chunk yields a well-formed question, because the key-phrase fallback is never empty |
| Mcqs.DistinctPhraseOptions | nlp_processor.py:95-99 | With distinct key phrases, the unshuffled options are the three phrases plus "None of the above", or the answer with the fixed pair |
| Mcqs.ChunkMcqSpec | nlp_processor.py:77-110 | A chunk question asks about the chunk's first key phrase; its options are a permutation of the right phrases; a chunk without two-word candidates asks about "concept" |
| Mcqs.QuestionTemplateNamesAnswer | nlp_processor.py:85-92 | Each template holds the answer phrase after its lead, and different templates give different questions |
| Mcqs.FillerIsWellFormed | nlp_processor.py:117-121 | The filler question is well formed, and its answer is "A. Concept A" |
| Mcqs.PadWithFiller | nlp_processor.py:116-121 | Padding keeps the generated questions and appends filler questions up to the floor |
| Mcqs.AskAndPad | nlp_processor.py:74-123 | Between `min(n, 3)` and `n` items; if no chunk is skipped, the first `len(chunks[:n])` items are the chunk items in order and the rest are filler, with `max(0, chunks + 2n)` items for negative `n` |
| Mcqs.McqsFromChunks | nlp_processor.py:74-123 | Every question is well formed; between `min(n, 3)` and `n` questions; chunk questions first, then filler; `max(0, chunks + 2n)` questions for negative `n` |
| Mcqs.GenerateMcqs | nlp_processor.py:69-123 | The same, over the two-sentence chunks of the text |
| Flashcards.CardTemplateNamesConcept | nlp_processor.py:142-149 | Each template holds the concept after its lead, and different templates give different questions |
| Flashcards.CardAnswer | nlp_processor.py:150 | The answer is the first `min(len, 200)` characters of the chunk, and the whole chunk when it is short |
| Flashcards.MakeCard | nlp_processor.py:136-155 | A chunk is skipped exactly when it has no key phrases; the answer is the chunk's prefix |
| Flashcards.ChunkCard | nlp_processor.py:133-155 | Every chunk yields a card whose answer is the chunk's prefix |
| Flashcards.ChunkCardConcept | nlp_processor.py:134-149 | The card asks about the first key phrase: a two-word candidate, or "concept" when there is none |
| Flashcards.SummaryCard | nlp_processor.py:161-166 | The extra card asks the fixed summary question; its answer is the summarizer's text for the cut input at lengths 130 and 30, or the failure message followed by the error when the summarizer raises |
| Flashcards.AskAndTopUp | nlp_processor.py:130-168 | At most `n` items, at least one when `n >= 1`; if no chunk is skipped, the first `len(chunks[:n])` items are the chunk items in order, followed by the extra item while room is left, with `max(0, chunks + 2n)` items for negative `n` |
| Flashcards.CardsFromChunks | nlp_processor.py:130-168 | At most `n` cards; one card per chunk, in order; the summary card is appended exactly when chunks fall short, and it survives the cut; at least one card when `n >= 1` |
| Flashcards.GenerateFlashcards | nlp_processor.py:125-168 | The same, over the two-sentence chunks of the text |

## Left out

- `__init__` (lines 7-25): loading spaCy and the Hugging Face pipelines, and downloading the model, is I/O. The loaded models are the `Annotator` and `Summarizer` parameters. The question-answering pipeline is never used by the modelled methods.
- The spaCy and BART models themselves: foreign code. Only their results enter the model. The annotator is assumed deterministic for one loaded model.
- The order of `list(set(...))` depends on string hashing. The model keeps first occurrences in candidate order. The stated properties of key phrases hold for any order. Which phrase comes first, and which phrases survive the cut to `num_phrases` when more qualify, do depend on the order.
- The Mersenne Twister behind `random`: the draws are parameters. The shuffle itself is modelled exactly as CPython's pass from the back.
- The `except Exception: continue` handlers in `generate_mcqs` and `generate_flashcards`: the modelled loop bodies cannot raise. The key phrases are never empty, the answer is always among the options, and every index is in range.
- The `doc = self.nlp(chunk)` lines (77, 133): their result is unused.
- Chunking.ChunkText: a chunk size of 0 is a precondition, because Python's `range` raises `ValueError` for a zero step. No caller in the core passes 0.
- PyStrings.Words: `str.split()` is modelled for the ten whitespace characters below code point 128 only. The Unicode whitespace above 127 that Python also splits on is left out.
- PyStrings.Strip: `str.strip()` is modelled for the same ten characters. The Unicode whitespace above 127 that Python also strips is left out.
- Summary.GenerateSummary: `max_length`, `min_length` and `do_sample=False` are passed through to the summarizer unchanged. What they do to the summary is the summarizer's business.
- `app.py`: the web front end that calls the processor is not part of this model.
