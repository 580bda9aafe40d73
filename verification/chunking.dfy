/**
 `TextProcessor.chunk_text`: the annotator's sentences, stripped, grouped into
 consecutive windows of `chunk_size` and joined with single spaces; empty
 joins are skipped, and a text that yields no chunk at all is returned whole.
 */
module Chunking {
  import opened PyStrings
  import opened PyLists
  import opened Oracles

  /** The annotator's sentences in document order, each stripped of its
      surrounding whitespace. */
  function Sentences(doc: Doc): (ss: seq<string>)
    ensures |ss| == |doc.sents|
    ensures forall i :: 0 <= i < |ss| ==> ss[i] == Strip(doc.sents[i])
  {
    seq(|doc.sents|, i requires 0 <= i < |doc.sents| => Strip(doc.sents[i]))
  }

  /** The loop body over the windows: join each window with one space and
      keep the join unless it is empty. */
  function JoinWindows(windows: seq<seq<string>>): (chunks: seq<string>)
    ensures |chunks| <= |windows|
    ensures forall i :: 0 <= i < |chunks| ==> chunks[i] != ""
  {
    if windows == [] then []
    else
      var c := Join(" ", windows[0]);
      (if c == "" then [] else [c]) + JoinWindows(windows[1..])
  }

  /** The loop of `chunk_text` over the stripped sentences `ss` for a positive
      `chunk_size` `k`, with its `[text]` fallback. */
  function ChunkSentences(ss: seq<string>, k: nat, text: string): (r: seq<string>)
    requires k >= 1
    ensures |r| >= 1
    ensures ss == [] ==> r == [text]
    ensures ss != [] ==> |r| <= (|ss| + k - 1) / k
    ensures r == [text] || forall i :: 0 <= i < |r| ==> r[i] != ""
  {
    var chunks := JoinWindows(Group(ss, k));
    assert |chunks| <= (|ss| + k - 1) / k by {
      WindowCountIsCeiling(|ss|, k);
    }
    if chunks == [] then [text] else chunks
  }

  /** `chunk_text(text, chunk_size)`. Python's `range` rejects a zero step, so
      `chunk_size` must not be 0; a negative step visits no window at all. */
  function ChunkText(nlp: Annotator, text: string, chunkSize: int): (r: seq<string>)
    requires chunkSize != 0
    ensures |r| >= 1
    ensures chunkSize < 0 || nlp(text).sents == [] ==> r == [text]
    ensures chunkSize > 0 && nlp(text).sents != [] ==>
      |r| <= (|nlp(text).sents| + chunkSize - 1) / chunkSize
    ensures r == [text] || forall i :: 0 <= i < |r| ==> r[i] != ""
  {
    if chunkSize < 0 then [text]
    else ChunkSentences(Sentences(nlp(text)), chunkSize, text)
  }

  /** Window `j` of the sentences (the `k` sentences from position `j * k`,
      fewer at the end), joined with single spaces. */
  function Window(ss: seq<string>, k: nat, j: nat): string
    requires k >= 1 && WindowStart(j, k) < |ss|
  {
    var i := WindowStart(j, k);
    Join(" ", ss[i .. Min(i + k, |ss|)])
  }

  /** Every window `range(0, len(ss), k)` visits, joined, in order. */
  function AllWindows(ss: seq<string>, k: nat): (ws: seq<string>)
    requires k >= 1
    ensures |ws| == WindowCount(|ss|, k)
  {
    var n := WindowCount(|ss|, k);
    seq(n, j requires 0 <= j < n => GroupSlice(ss, k, j); Window(ss, k, j))
  }

  predicate NonEmpty(s: string) { s != "" }

  /** Each window joined with single spaces, in window order. */
  function JoinEach(g: seq<seq<string>>): (joined: seq<string>)
    ensures |joined| == |g|
  {
    seq(|g|, j requires 0 <= j < |g| => Join(" ", g[j]))
  }

  /** The joining loop keeps exactly the non-empty joins, in window order. */
  lemma {:induction false} JoinWindowsFilters(g: seq<seq<string>>)
    ensures JoinWindows(g) == Filter(NonEmpty, JoinEach(g))
    decreases |g|
  {
    if g != [] {
      JoinWindowsFilters(g[1..]);
      assert JoinEach(g)[1..] == JoinEach(g[1..]);
    }
  }

  /** The windows of `Group`, joined, are the windows `ss[j*k : j*k + k]`. */
  lemma JoinedGroupIsAllWindows(ss: seq<string>, k: nat)
    requires k >= 1
    ensures JoinEach(Group(ss, k)) == AllWindows(ss, k)
  {
    var g := Group(ss, k);
    var joined := JoinEach(g);
    forall j | 0 <= j < |g|
      ensures joined[j] == AllWindows(ss, k)[j]
    {
      GroupSlice(ss, k, j);
    }
  }

  /** Reference definition of chunking: for `chunk_size = k >= 1`, the chunks
      are the non-empty joins of the windows `ss[j*k : j*k + k]` of the stripped
      sentences, in window order, or `[text]` when there are none. */
  lemma ChunksAreWindows(ss: seq<string>, k: nat, text: string)
    requires k >= 1
    ensures var chunks := Filter(NonEmpty, AllWindows(ss, k));
      ChunkSentences(ss, k, text) == if chunks == [] then [text] else chunks
  {
    JoinWindowsFilters(Group(ss, k));
    JoinedGroupIsAllWindows(ss, k);
  }

  /** The joining loop produces nothing exactly when every window joins to "". */
  lemma {:induction false} JoinWindowsEmpty(g: seq<seq<string>>)
    ensures JoinWindows(g) == [] <==> forall j :: 0 <= j < |g| ==> Join(" ", g[j]) == ""
    decreases |g|
  {
    if g != [] {
      JoinWindowsEmpty(g[1..]);
      assert forall j :: 1 <= j < |g| ==> g[j] == g[1..][j - 1];
    }
  }

  /** `chunk_text` falls back to `[text]` exactly when the annotator found no
      sentence, or every sentence is blank and each window holds a single
      sentence (`chunk_size` 1, or only one sentence). */
  lemma {:induction false} FallbackExactly(ss: seq<string>, k: nat)
    requires k >= 1
    ensures JoinWindows(Group(ss, k)) == [] <==>
      |ss| == 0 || ((k == 1 || |ss| == 1) && forall i :: 0 <= i < |ss| ==> ss[i] == "")
  {
    var g := Group(ss, k);
    JoinWindowsEmpty(g);
    if |ss| == 0 {
    } else if |ss| == 1 {
      assert g == [ss];
      assert Join(" ", ss) == ss[0];
    } else if k == 1 {
      GroupOfOnes(ss);
      assert forall j :: 0 <= j < |g| ==> Join(" ", g[j]) == ss[j];
    } else {
      assert |g[0]| >= 2;
      JoinSpaceEmpty(g[0]);
    }
  }

  /** The loop both generators run over their chunks, for a per-chunk step
      `ask`: a chunk for which `ask` gives nothing is skipped (`continue`), and
      the `n`-th item made takes the `n`-th random draw. A step that always
      answers yields one item per chunk, in chunk order. */
  method AskEach<D, Q>(ask: (string, D) -> Option<Q>, chunks: seq<string>, draws: nat -> D)
    returns (qs: seq<Q>)
    ensures |qs| <= |chunks|
    ensures (forall j :: 0 <= j < |chunks| ==> ask(chunks[j], draws(j)).Some?) ==>
      |qs| == |chunks| && forall j :: 0 <= j < |qs| ==> Some(qs[j]) == ask(chunks[j], draws(j))
  {
    qs := [];
    var i := 0;
    while i < |chunks|
      invariant 0 <= i <= |chunks| && |qs| <= i
      invariant (forall j :: 0 <= j < |chunks| ==> ask(chunks[j], draws(j)).Some?) ==>
        |qs| == i && forall j :: 0 <= j < i ==> Some(qs[j]) == ask(chunks[j], draws(j))
    {
      var q := ask(chunks[i], draws(|qs|));
      if q.Some? {
        qs := qs + [q.value];
      }
      i := i + 1;
    }
  }
}
