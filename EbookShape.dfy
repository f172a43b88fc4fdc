/** Closed forms for what the `create_ebook` fold produces.

    A run that has not failed after `n` chapters is determined by the `n`
    chapter records: the content is the wrapped sequence of headings and
    drafts, the rolling summary is one line per chapter, and the request log
    is the outline request followed by each chapter's two or three requests.
    The records themselves are the backend's answers to exactly those
    requests. */
module EbookShape {
  import opened Wrappers
  import opened Strings
  import opened Functions
  import opened Ebook

  /** The rolling summary after the chapters `chs`: one line per chapter,
      in order, holding the fragment that chapter appended. */
  function SummaryText(chs: seq<ChapterRecord>): string
  {
    if chs == [] then ""
    else SummaryText(chs[..|chs| - 1]) + SummaryLine(|chs|, Fragment(chs[|chs| - 1]))
  }

  /** The content after the chapters `chs` named by a prefix of `names`: each
      chapter adds its heading and its draft, then the whole text is wrapped. */
  function Body(names: seq<string>, chs: seq<ChapterRecord>): string
    requires |chs| <= |names|
  {
    if chs == [] then ""
    else
      var n := |chs| - 1;
      "<p>" + (Body(names, chs[..n]) + Heading(n + 1, names[n]) + Paragraphs(chs[n].draft)) + ChapterEnd
  }

  /** The requests one chapter makes, in order: its draft, its summary, and
      the re-summary of the rolling summary when compaction fired. */
  function ChapterCalls(e: EbookInput, i: nat, name: string, summarySoFar: string,
                        c: ChapterRecord): seq<Request>
  {
    [DraftRequestOf(e, i + 1, name, summarySoFar), ChapterSummaryRequestOf(e, c.draft)]
    + (if c.compacted.Some? then [CompactionRequestOf(e, summarySoFar)] else [])
  }

  /** The requests of the chapters `chs`, chapter after chapter. */
  function Trace(e: EbookInput, names: seq<string>, chs: seq<ChapterRecord>): seq<Request>
    requires |chs| <= |names|
  {
    if chs == [] then []
    else
      var n := |chs| - 1;
      Trace(e, names, chs[..n]) + ChapterCalls(e, n, names[n], SummaryText(chs[..n]), chs[n])
  }

  /** The record `c` of the chapter at index `i` holds the backend's answers
      to that chapter's requests, made after `history`; compaction fired
      exactly when the rolling summary before it had more than 1200 words. */
  predicate ChapterAnswered(e: EbookInput, b: Backend, history: seq<Request>, i: nat,
                            name: string, summarySoFar: string, c: ChapterRecord)
  {
    var d := DraftRequestOf(e, i + 1, name, summarySoFar);
    var s := ChapterSummaryRequestOf(e, c.draft);
    && b(history, d) == Success(c.draft)
    && b(history + [d], s) == Success(c.summary)
    && (c.compacted.Some? <==> WordCount(summarySoFar) > CompactionThreshold)
    && (c.compacted.Some? ==>
          b(history + [d] + [s], CompactionRequestOf(e, summarySoFar)) == Success(c.compacted.value))
  }

  /** Every record of `chs` is answered, each after the requests before it. */
  predicate Answered(e: EbookInput, b: Backend, names: seq<string>, calls0: seq<Request>,
                     chs: seq<ChapterRecord>)
    requires |chs| <= |names|
  {
    chs == [] ||
    var n := |chs| - 1;
    && Answered(e, b, names, calls0, chs[..n])
    && ChapterAnswered(e, b, calls0 + Trace(e, names, chs[..n]), n, names[n],
                       SummaryText(chs[..n]), chs[n])
  }

  /** A run that has not failed, in closed form. */
  predicate Shaped(e: EbookInput, b: Backend, names: seq<string>, calls0: seq<Request>, run: Run)
  {
    && run.Running?
    && |run.chapters| <= |names|
    && run.content == Body(names, run.chapters)
    && run.summarySoFar == SummaryText(run.chapters)
    && run.calls == calls0 + Trace(e, names, run.chapters)
    && Answered(e, b, names, calls0, run.chapters)
  }

  /** Appending one answered chapter to a closed-form run keeps it closed. */
  lemma {:induction false} ShapedAppend(e: EbookInput, b: Backend, names: seq<string>,
                                        calls0: seq<Request>, run: Run, c: ChapterRecord)
    requires Shaped(e, b, names, calls0, run) && |run.chapters| < |names|
    requires ChapterAnswered(e, b, run.calls, |run.chapters|, names[|run.chapters|],
                             run.summarySoFar, c)
    ensures var i := |run.chapters|;
      Shaped(e, b, names, calls0,
             Running("<p>" + (run.content + Heading(i + 1, names[i]) + Paragraphs(c.draft)) + ChapterEnd,
                     run.summarySoFar + SummaryLine(i + 1, Fragment(c)),
                     run.calls + ChapterCalls(e, i, names[i], run.summarySoFar, c),
                     run.chapters + [c]))
  {
    var chs := run.chapters;
    var i := |chs|;
    assert (chs + [c])[..|chs|] == chs;
    var chs' := chs + [c];
    assert chs'[..i] == chs;
    assert (calls0 + Trace(e, names, chs)) + ChapterCalls(e, i, names[i], run.summarySoFar, c)
        == calls0 + (Trace(e, names, chs) + ChapterCalls(e, i, names[i], run.summarySoFar, c));
  }

  /** A chapter that does not fail appends one record answered by the
      backend: its heading and draft to the content, its fragment to the
      rolling summary, and its two or three requests to the log. */
  lemma {:induction false} StepValue(e: EbookInput, b: Backend, i: nat, name: string, run: Run)
    returns (c: ChapterRecord)
    requires ChapterStep(e, b, i, name, run).Running?
    ensures run.Running?
    ensures ChapterAnswered(e, b, run.calls, i, name, run.summarySoFar, c)
    ensures ChapterStep(e, b, i, name, run)
         == Running("<p>" + (run.content + Heading(i + 1, name) + Paragraphs(c.draft)) + ChapterEnd,
                    run.summarySoFar + SummaryLine(i + 1, Fragment(c)),
                    run.calls + ChapterCalls(e, i, name, run.summarySoFar, c),
                    run.chapters + [c])
  {
    var d := DraftRequestOf(e, i + 1, name, run.summarySoFar);
    var response := b(run.calls, d);
    assert ChapterStep(e, b, i, name, run) == AfterDraft(e, b, i, name, run, response);
    var draft := response.value;
    var content' := "<p>" + (run.content + Heading(i + 1, name) + Paragraphs(draft)) + ChapterEnd;
    var s := ChapterSummaryRequestOf(e, draft);
    var summary := b(run.calls + [d], s);
    assert AfterDraft(e, b, i, name, run, response)
        == AfterSummary(e, b, i, run.summarySoFar, run.calls + [d], run.chapters, content', draft, summary);
    if WordCount(run.summarySoFar) > CompactionThreshold {
      var k := CompactionRequestOf(e, run.summarySoFar);
      var compacted := b(run.calls + [d] + [s], k);
      c := ChapterRecord(draft, summary.value, Some(compacted.value));
      assert AfterSummary(e, b, i, run.summarySoFar, run.calls + [d], run.chapters, content', draft, summary)
          == AfterCompaction(e, i, run.summarySoFar, run.calls + [d] + [s], run.chapters, content', draft,
                             summary.value, compacted);
      assert ChapterCalls(e, i, name, run.summarySoFar, c) == [d, s] + [k];
      assert run.calls + [d] + [s] + [k] == run.calls + ([d, s] + [k]);
    } else {
      c := ChapterRecord(draft, summary.value, None);
      assert ChapterCalls(e, i, name, run.summarySoFar, c) == [d, s] + [];
      assert run.calls + [d] + [s] == run.calls + ([d, s] + []);
    }
  }

  /** A chapter that does not fail extends a closed-form run by one record. */
  lemma {:induction false} StepShaped(e: EbookInput, b: Backend, names: seq<string>,
                                      calls0: seq<Request>, run: Run, i: nat)
    requires Shaped(e, b, names, calls0, run) && i == |run.chapters| && i < |names|
    requires ChapterStep(e, b, i, names[i], run).Running?
    ensures var next := ChapterStep(e, b, i, names[i], run);
      Shaped(e, b, names, calls0, next) && |next.chapters| == i + 1
  {
    var c := StepValue(e, b, i, names[i], run);
    ShapedAppend(e, b, names, calls0, run, c);
  }

  /** After any number of chapters without a failure, the run is in closed
      form with one record per chapter. */
  lemma {:induction false} RunningShape(e: EbookInput, b: Backend, names: seq<string>, n: nat,
                                        calls0: seq<Request>)
    requires n <= |names|
    requires Chapters(e, b, names, n, Start(calls0)).Running?
    ensures Shaped(e, b, names, calls0, Chapters(e, b, names, n, Start(calls0)))
    ensures |Chapters(e, b, names, n, Start(calls0)).chapters| == n
  {
    if n > 0 {
      ChaptersRunningBefore(e, b, names, n, calls0);
      RunningShape(e, b, names, n - 1, calls0);
      ChaptersStepShaped(e, b, names, n, calls0);
    } else {
      ShapedStart(e, b, names, calls0);
    }
  }

  lemma {:induction false} ChaptersRunningBefore(e: EbookInput, b: Backend, names: seq<string>, n: nat,
                                                 calls0: seq<Request>)
    requires 0 < n <= |names|
    requires Chapters(e, b, names, n, Start(calls0)).Running?
    ensures Chapters(e, b, names, n - 1, Start(calls0)).Running?
  {
    ChaptersNext(e, b, names, n - 1, Start(calls0));
    RunningBefore(e, b, n - 1, names[n - 1], Chapters(e, b, names, n - 1, Start(calls0)));
  }

  lemma {:induction false} ChaptersStepShaped(e: EbookInput, b: Backend, names: seq<string>, n: nat,
                                              calls0: seq<Request>)
    requires 0 < n <= |names|
    requires Shaped(e, b, names, calls0, Chapters(e, b, names, n - 1, Start(calls0)))
    requires |Chapters(e, b, names, n - 1, Start(calls0)).chapters| == n - 1
    requires Chapters(e, b, names, n, Start(calls0)).Running?
    ensures Shaped(e, b, names, calls0, Chapters(e, b, names, n, Start(calls0)))
    ensures |Chapters(e, b, names, n, Start(calls0)).chapters| == n
  {
    var prev := Chapters(e, b, names, n - 1, Start(calls0));
    ChaptersNext(e, b, names, n - 1, Start(calls0));
    StepShaped(e, b, names, calls0, prev, n - 1);
  }

  /** A failed run stays failed, so a step that ends running started running. */
  lemma {:induction false} RunningBefore(e: EbookInput, b: Backend, i: nat, name: string, run: Run)
    requires ChapterStep(e, b, i, name, run).Running?
    ensures run.Running?
  {
  }

  lemma {:induction false} ShapedStart(e: EbookInput, b: Backend, names: seq<string>, calls0: seq<Request>)
    ensures Shaped(e, b, names, calls0, Start(calls0))
  {
    assert calls0 + [] == calls0;
  }

  /** Record `j` of an answered run holds the answers to chapter `j`'s own
      requests. */
  lemma {:induction false} AnsweredAt(e: EbookInput, b: Backend, names: seq<string>,
                                      calls0: seq<Request>, chs: seq<ChapterRecord>, j: nat)
    requires |chs| <= |names| && Answered(e, b, names, calls0, chs) && j < |chs|
    ensures ChapterAnswered(e, b, calls0 + Trace(e, names, chs[..j]), j, names[j],
                            SummaryText(chs[..j]), chs[j])
  {
    var n := |chs| - 1;
    var p := chs[..n];
    if j < n {
      AnsweredAt(e, b, names, calls0, p, j);
      assert chs[..n][..j] == chs[..j];
      assert p[j] == chs[j];
    }
  }

  // ------------------------------------------------------ the whole job

  /** A job that returns a document asked for the outline once, drafted one
      chapter per stripped outline piece, whatever `number_of_chapters` was,
      and returns the closed-form content. */
  lemma {:induction false} GeneratedEbook(e: EbookInput, b: Backend)
    requires Generate(e, b).Running?
    ensures var outline := b([], OutlineRequestOf(e));
      && outline.Success?
      && ChapterList(e, b) == Success(StripAll(ParseOutline(outline.value)))
      && |ChapterList(e, b).value| == Count(outline.value, ',') + 1
    ensures var names := ChapterList(e, b).value;
      var run := Generate(e, b);
      && Shaped(e, b, names, [OutlineRequestOf(e)], run)
      && |run.chapters| == |names|
      && Respond(run) == Ok(Body(names, run.chapters))
  {
    var names := ChapterList(e, b).value;
    RunningShape(e, b, names, |names|, [OutlineRequestOf(e)]);
  }

  // ------------------------------------------------------ the document

  function Repeat(s: string, n: nat): string
  {
    if n == 0 then "" else s + Repeat(s, n - 1)
  }

  /** The chapters' headings and drafts in order, each closed by `ChapterEnd`. */
  function Sections(names: seq<string>, chs: seq<ChapterRecord>): string
    requires |chs| <= |names|
  {
    if chs == [] then ""
    else
      var n := |chs| - 1;
      Sections(names, chs[..n]) + (Heading(n + 1, names[n]) + Paragraphs(chs[n].draft) + ChapterEnd)
  }

  /** Regrouping of the wrapped document, kept as a lemma so that the string
      literals of the document stay out of `DocumentShape`'s context. */
  lemma {:induction false} Reassociate(a: string, r: string, t: string, h: string, p: string, c: string)
    ensures a + ((r + t) + h + p) + c == (a + r) + (t + (h + p + c))
  {
  }

  /** Because every chapter wraps the whole text, the document is one
      opening tag per chapter followed by the chapters in order. */
  lemma {:induction false} DocumentShape(names: seq<string>, chs: seq<ChapterRecord>)
    requires |chs| <= |names|
    ensures Body(names, chs) == Repeat("<p>", |chs|) + Sections(names, chs)
  {
    if chs != [] {
      var n := |chs| - 1;
      DocumentShape(names, chs[..n]);
      Reassociate("<p>", Repeat("<p>", n), Sections(names, chs[..n]),
                  Heading(n + 1, names[n]), Paragraphs(chs[n].draft), ChapterEnd);
    }
  }

  /** After at least one chapter the document begins with one `"<p>"` per
      chapter and ends with the chapter terminator. */
  lemma {:induction false} DocumentFrame(names: seq<string>, chs: seq<ChapterRecord>)
    requires 1 <= |chs| <= |names|
    ensures Repeat("<p>", |chs|) <= Body(names, chs)
    ensures var d := Body(names, chs);
      |d| >= |ChapterEnd| && d[|d| - |ChapterEnd|..] == ChapterEnd
  {
    DocumentShape(names, chs);
    var r := Repeat("<p>", |chs|);
    var t := Sections(names, chs);
    assert (r + t)[..|r|] == r;
    var n := |chs| - 1;
    var x := "<p>" + (Body(names, chs[..n]) + Heading(n + 1, names[n]) + Paragraphs(chs[n].draft));
    assert (x + ChapterEnd)[|x|..] == ChapterEnd;
  }

  // ------------------------------------------------------ the draft requests

  /** The draft requests of a log, in order. */
  function Drafts(calls: seq<Request>): seq<Request>
  {
    if calls == [] then []
    else
      var last := calls[|calls| - 1];
      Drafts(calls[..|calls| - 1]) + (if last.DraftRequest? then [last] else [])
  }

  lemma {:induction false} DraftsAppend(a: seq<Request>, c: seq<Request>)
    ensures Drafts(a + c) == Drafts(a) + Drafts(c)
  {
    if c == [] {
      assert a + c == a;
    } else {
      var c' := c[..|c| - 1];
      assert (a + c)[..|a + c| - 1] == a + c';
      DraftsAppend(a, c');
    }
  }

  /** A chapter makes exactly one draft request. */
  lemma {:induction false} DraftsOfChapter(e: EbookInput, i: nat, name: string,
                                           summarySoFar: string, c: ChapterRecord)
    ensures Drafts(ChapterCalls(e, i, name, summarySoFar, c)) == [DraftRequestOf(e, i + 1, name, summarySoFar)]
  {
    var d := DraftRequestOf(e, i + 1, name, summarySoFar);
    var s := ChapterSummaryRequestOf(e, c.draft);
    var k := if c.compacted.Some? then [CompactionRequestOf(e, summarySoFar)] else [];
    DraftsAppend([d, s], k);
    assert [d, s][..1] == [d];
    assert [d][..0] == [];
  }

  /** The chapters `chs` make one draft request each. */
  lemma {:induction false} DraftsCount(e: EbookInput, names: seq<string>, chs: seq<ChapterRecord>)
    requires |chs| <= |names|
    ensures |Drafts(Trace(e, names, chs))| == |chs|
  {
    if chs != [] {
      var n := |chs| - 1;
      DraftsCount(e, names, chs[..n]);
      DraftsAppend(Trace(e, names, chs[..n]), ChapterCalls(e, n, names[n], SummaryText(chs[..n]), chs[n]));
      DraftsOfChapter(e, n, names[n], SummaryText(chs[..n]), chs[n]);
    }
  }

  /** The `j`-th draft request of the chapters `chs` is the one for chapter
      `j + 1`, named `names[j]`, sent with the rolling summary of the chapters
      before it. */
  lemma {:induction false} DraftAt(e: EbookInput, names: seq<string>, chs: seq<ChapterRecord>, j: nat)
    requires |chs| <= |names| && j < |chs|
    ensures |Drafts(Trace(e, names, chs))| == |chs|
    ensures Drafts(Trace(e, names, chs))[j] == DraftRequestOf(e, j + 1, names[j], SummaryText(chs[..j]))
  {
    var n := |chs| - 1;
    var p := chs[..n];
    var dp := Drafts(Trace(e, names, p));
    var x := DraftRequestOf(e, n + 1, names[n], SummaryText(p));
    DraftsStep(e, names, chs);
    DraftsCount(e, names, p);
    assert (dp + [x])[..|dp|] == dp && (dp + [x])[|dp|] == x;
    if j < n {
      DraftAt(e, names, p, j);
      assert chs[..n][..j] == chs[..j];
      assert (dp + [x])[j] == dp[j];
    } else {
      assert chs[..j] == p;
    }
  }

  /** The last chapter of `chs` adds its one draft request to the log's drafts. */
  lemma {:induction false} DraftsStep(e: EbookInput, names: seq<string>, chs: seq<ChapterRecord>)
    requires 1 <= |chs| <= |names|
    ensures var n := |chs| - 1;
      Drafts(Trace(e, names, chs))
        == Drafts(Trace(e, names, chs[..n])) + [DraftRequestOf(e, n + 1, names[n], SummaryText(chs[..n]))]
  {
    var n := |chs| - 1;
    var p := chs[..n];
    DraftsAppend(Trace(e, names, p), ChapterCalls(e, n, names[n], SummaryText(p), chs[n]));
    DraftsOfChapter(e, n, names[n], SummaryText(p), chs[n]);
  }

  /** The rolling summary is empty exactly before the first chapter. */
  lemma {:induction false} SummaryTextEmpty(chs: seq<ChapterRecord>)
    ensures SummaryText(chs) == "" <==> chs == []
  {
    if chs != [] {
      var n := |chs| - 1;
      assert |SummaryLine(n + 1, Fragment(chs[n]))| > 0;
    }
  }

  /** Every draft of a successful job: one per outline piece, numbered from
      1, carrying its stripped name, with the opening template exactly for
      the first, and with the rolling summary of all earlier chapters (or
      "not supplied" before the first). */
  lemma {:induction false} OneDraftPerOutlineEntry(e: EbookInput, b: Backend)
    requires Generate(e, b).Running?
    ensures ChapterList(e, b).Success?
    ensures var names := ChapterList(e, b).value;
      var run := Generate(e, b);
      var ds := Drafts(run.calls);
      && |run.chapters| == |names|
      && |ds| == |names|
      && forall j :: 0 <= j < |ds| ==>
           && ds[j].DraftRequest?
           && ds[j].chapterNumber == j + 1
           && ds[j].chapterName == names[j]
           && (ds[j].system == FirstChapter <==> j == 0)
           && ds[j].summarySoFar == (if j == 0 then NotSupplied else SummaryText(run.chapters[..j]))
  {
    GeneratedEbook(e, b);
    var names := ChapterList(e, b).value;
    var run := Generate(e, b);
    var t := Trace(e, names, run.chapters);
    DraftsAfter(OutlineRequestOf(e), t);
    var ds := Drafts(run.calls);
    DraftsCount(e, names, run.chapters);
    forall j | 0 <= j < |ds|
      ensures && ds[j].DraftRequest?
              && ds[j].chapterNumber == j + 1
              && ds[j].chapterName == names[j]
              && (ds[j].system == FirstChapter <==> j == 0)
              && ds[j].summarySoFar == (if j == 0 then NotSupplied else SummaryText(run.chapters[..j]))
    {
      DraftAt(e, names, run.chapters, j);
      SummaryTextEmpty(run.chapters[..j]);
      DraftPromptFields(e.title, e.description, j + 1, names[j], SummaryText(run.chapters[..j]),
                        e.apiKey, e.model, e.wordsPerChapter);
    }
  }

  lemma {:induction false} DraftsAfter(r: Request, t: seq<Request>)
    requires !r.DraftRequest?
    ensures Drafts([r] + t) == Drafts(t)
  {
    DraftsAppend([r], t);
    assert [r][..0] == [];
    assert [] + Drafts(t) == Drafts(t);
  }

  // ------------------------------------------------------ the rolling summary

  /** The rolling summary only ever grows: every earlier value is a prefix of
      every later one, so compaction appends and never replaces. */
  lemma {:induction false} SummaryTextGrows(chs: seq<ChapterRecord>, j: nat)
    requires j <= |chs|
    ensures SummaryText(chs[..j]) <= SummaryText(chs)
  {
    if j == |chs| {
      assert chs[..j] == chs;
    } else {
      var n := |chs| - 1;
      SummaryTextGrows(chs[..n], j);
      assert chs[..n][..j] == chs[..j];
      var a := SummaryText(chs[..j]);
      var t := SummaryText(chs[..n]);
      var l := SummaryLine(n + 1, Fragment(chs[n]));
      assert (t + l)[..|a|] == t[..|a|];
    }
  }

  /** The compaction rule: the fragment chapter `j` appends to the rolling
      summary is the backend's re-summary of the rolling summary when that
      had more than 1200 words, and the chapter's own summary otherwise. */
  lemma {:induction false} CompactionRule(e: EbookInput, b: Backend, j: nat)
    requires Generate(e, b).Running?
    requires j < |Generate(e, b).chapters|
    ensures ChapterList(e, b).Success? && |ChapterList(e, b).value| == |Generate(e, b).chapters|
    ensures var names := ChapterList(e, b).value;
      var chs := Generate(e, b).chapters;
      var before := SummaryText(chs[..j]);
      var history := [OutlineRequestOf(e)] + Trace(e, names, chs[..j]);
      var d := DraftRequestOf(e, j + 1, names[j], before);
      var s := ChapterSummaryRequestOf(e, chs[j].draft);
      && b(history, d) == Success(chs[j].draft)
      && b(history + [d], s) == Success(chs[j].summary)
      && SummaryText(chs[..j + 1]) == before + SummaryLine(j + 1, Fragment(chs[j]))
      && (WordCount(before) > CompactionThreshold ==>
            b(history + [d] + [s], CompactionRequestOf(e, before)) == Success(Fragment(chs[j])))
      && (WordCount(before) <= CompactionThreshold ==> Fragment(chs[j]) == chs[j].summary)
  {
    GeneratedEbook(e, b);
    var names := ChapterList(e, b).value;
    var chs := Generate(e, b).chapters;
    AnsweredAt(e, b, names, [OutlineRequestOf(e)], chs, j);
    assert chs[..j + 1][..j] == chs[..j];
    assert chs[..j + 1][j] == chs[j];
  }

  /** Compaction never brings the rolling summary back under the
      threshold: once it fires, it fires for every later chapter. */
  lemma {:induction false} CompactionPersists(chs: seq<ChapterRecord>, j: nat, k: nat)
    requires j <= k <= |chs|
    requires WordCount(SummaryText(chs[..j])) > CompactionThreshold
    ensures WordCount(SummaryText(chs[..k])) > CompactionThreshold
  {
    var p := chs[..k];
    SummaryTextGrows(p, j);
    assert chs[..k][..j] == chs[..j];
    var a := SummaryText(chs[..j]);
    var t := SummaryText(p);
    assert t == a + t[|a|..];
    WordCountMonotone(a, t[|a|..]);
  }

  /** A summary line holds the three words `Chapter`, its number and
      `Summary:`, then the words of its fragment. */
  lemma {:induction false} LineWords(n: nat, s: string)
    ensures WordCount(SummaryLine(n, s)) == 3 + WordCount(s + " \n\n")
  {
    var num := Decimal.NatToString(n);
    var w2 := num + " ";
    var rest := "Summary: " + (s + " \n\n");
    assert SummaryLine(n, s) == "Chapter " + (w2 + rest);
    WordCountAppend("Chapter ", w2 + rest);
    WordCountAppend(w2, rest);
    WordCountAppend("Summary: ", s + " \n\n");
    ChapterWord();
    assert w2[..|w2| - 1] == num;
    WordCountOfWord(num);
    SummaryWord();
  }

  /** A summary line ends in whitespace, so its words never merge with what
      precedes or follows it. */
  lemma {:induction false} SummaryLineWords(a: string, n: nat, s: string)
    requires a == [] || IsSpace(a[|a| - 1])
    ensures WordCount(a + SummaryLine(n, s)) >= WordCount(a) + 3
    ensures var t := a + SummaryLine(n, s); |t| > 0 && IsSpace(t[|t| - 1])
  {
    WordCountAppend(a, SummaryLine(n, s));
    LineWords(n, s);
    var t := a + SummaryLine(n, s);
    assert t[|t| - 1] == '\n';
  }

  lemma {:induction false} ChapterWord()
    ensures WordCount("Chapter ") == 1
  {
    assert "Chapter "[..7] == "Chapter";
    WordCountOfWord("Chapter");
  }

  lemma {:induction false} SummaryWord()
    ensures WordCount("Summary: ") == 1
  {
    assert "Summary: "[..8] == "Summary:";
    WordCountOfWord("Summary:");
  }

  /** However often compaction fires, the rolling summary keeps at least
      three words per chapter: the policy does not bound its size. */
  lemma {:induction false} SummaryWords(chs: seq<ChapterRecord>)
    ensures WordCount(SummaryText(chs)) >= 3 * |chs|
    ensures var t := SummaryText(chs); t == [] || IsSpace(t[|t| - 1])
  {
    if chs != [] {
      var n := |chs| - 1;
      SummaryWords(chs[..n]);
      SummaryLineWords(SummaryText(chs[..n]), n + 1, Fragment(chs[n]));
    }
  }

  /** Once 401 chapters are done, the rolling summary always has more than
      1200 words, so every chapter after the 401st is compacted. */
  lemma {:induction false} CompactionEventually(chs: seq<ChapterRecord>, j: nat)
    requires 3 * j > CompactionThreshold && j <= |chs|
    ensures WordCount(SummaryText(chs[..j])) > CompactionThreshold
  {
    SummaryWords(chs[..j]);
  }

  /** The bound of `CompactionEventually` is tight: 400 chapters whose
      fragments are empty leave exactly 1200 words, so the 401st chapter
      is not compacted. */
  lemma {:induction false} CompactionBoundTight()
    ensures WordCount(SummaryText(seq(400, _ => ChapterRecord("", "", None)))) == CompactionThreshold
  {
    EmptyFragmentsWords(seq(400, _ => ChapterRecord("", "", None)));
  }

  /** Chapters whose fragments are all empty add exactly three words each. */
  lemma {:induction false} EmptyFragmentsWords(chs: seq<ChapterRecord>)
    requires forall k :: 0 <= k < |chs| ==> Fragment(chs[k]) == ""
    ensures WordCount(SummaryText(chs)) == 3 * |chs|
    ensures var t := SummaryText(chs); t == [] || IsSpace(t[|t| - 1])
  {
    if chs != [] {
      var n := |chs| - 1;
      var p := chs[..n];
      assert forall k :: 0 <= k < |p| ==> p[k] == chs[k];
      EmptyFragmentsWords(p);
      assert Fragment(chs[n]) == "";
      EmptyLineWords(SummaryText(p), n + 1);
    }
  }

  /** A summary line with an empty fragment holds exactly three words. */
  lemma {:induction false} EmptyLineWords(a: string, n: nat)
    requires a == [] || IsSpace(a[|a| - 1])
    ensures WordCount(a + SummaryLine(n, "")) == WordCount(a) + 3
    ensures var t := a + SummaryLine(n, ""); IsSpace(t[|t| - 1])
  {
    WordCountAppend(a, SummaryLine(n, ""));
    LineWords(n, "");
    assert "" + " \n\n" == " \n\n";
    WordCountOfSpaces(" \n\n");
    var t := a + SummaryLine(n, "");
    assert t[|t| - 1] == '\n';
  }

  // ------------------------------------------------------ fail-fast

  /** Every request of the log was answered, each after the ones before it. */
  predicate AllAnswered(b: Backend, calls: seq<Request>)
  {
    forall k :: 0 <= k < |calls| ==> b(calls[..k], calls[k]).Success?
  }

  /** The log is answered requests followed by one that raised `err`. */
  predicate StoppedAt(b: Backend, calls: seq<Request>, err: Error)
  {
    && |calls| >= 1
    && AllAnswered(b, calls[..|calls| - 1])
    && b(calls[..|calls| - 1], calls[|calls| - 1]) == Failure(err)
  }

  lemma {:induction false} ExtendAnswered(b: Backend, calls: seq<Request>, r: Request)
    requires AllAnswered(b, calls) && b(calls, r).Success?
    ensures AllAnswered(b, calls + [r])
  {
    var calls' := calls + [r];
    forall k | 0 <= k < |calls'| ensures b(calls'[..k], calls'[k]).Success? {
      if k < |calls| {
        assert calls'[..k] == calls[..k];
      } else {
        assert calls'[..k] == calls;
      }
    }
  }

  lemma {:induction false} StopAfter(b: Backend, calls: seq<Request>, r: Request)
    requires AllAnswered(b, calls) && b(calls, r).Failure?
    ensures StoppedAt(b, calls + [r], b(calls, r).error)
  {
    assert (calls + [r])[..|calls|] == calls;
  }

  /** One chapter either gets every request answered or stops at the first
      request that raised. */
  lemma {:induction false} StepFailFast(e: EbookInput, b: Backend, i: nat, name: string, run: Run)
    requires run.Running? && AllAnswered(b, run.calls)
    ensures var next := ChapterStep(e, b, i, name, run);
      && (next.Running? ==> AllAnswered(b, next.calls))
      && (next.Failed? ==> StoppedAt(b, next.calls, next.detail))
  {
    var d := DraftRequestOf(e, i + 1, name, run.summarySoFar);
    var response := b(run.calls, d);
    assert ChapterStep(e, b, i, name, run) == AfterDraft(e, b, i, name, run, response);
    if response.Failure? {
      StopAfter(b, run.calls, d);
    } else {
      ExtendAnswered(b, run.calls, d);
      var draft := response.value;
      var content' := "<p>" + (run.content + Heading(i + 1, name) + Paragraphs(draft)) + ChapterEnd;
      var s := ChapterSummaryRequestOf(e, draft);
      var summary := b(run.calls + [d], s);
      assert AfterDraft(e, b, i, name, run, response)
          == AfterSummary(e, b, i, run.summarySoFar, run.calls + [d], run.chapters, content', draft, summary);
      if summary.Failure? {
        StopAfter(b, run.calls + [d], s);
      } else {
        ExtendAnswered(b, run.calls + [d], s);
        if WordCount(run.summarySoFar) > CompactionThreshold {
          var k := CompactionRequestOf(e, run.summarySoFar);
          if b(run.calls + [d] + [s], k).Failure? {
            StopAfter(b, run.calls + [d] + [s], k);
          } else {
            ExtendAnswered(b, run.calls + [d] + [s], k);
          }
        }
      }
    }
  }

  lemma {:induction false} ChaptersFailFast(e: EbookInput, b: Backend, names: seq<string>, n: nat,
                                            calls0: seq<Request>)
    requires n <= |names| && AllAnswered(b, calls0)
    ensures var run := Chapters(e, b, names, n, Start(calls0));
      && (run.Running? ==> AllAnswered(b, run.calls))
      && (run.Failed? ==> StoppedAt(b, run.calls, run.detail))
  {
    if n > 0 {
      ChaptersFailFast(e, b, names, n - 1, calls0);
      var prev := Chapters(e, b, names, n - 1, Start(calls0));
      ChaptersNext(e, b, names, n - 1, Start(calls0));
      if prev.Running? {
        StepFailFast(e, b, n - 1, names[n - 1], prev);
      } else {
        assert ChapterStep(e, b, n - 1, names[n - 1], prev) == prev;
      }
    }
  }

  /** The job answers with the document exactly when every backend request
      it made was answered; otherwise it answers 400 with the text of the
      one request that raised, and that request was the last one made. */
  lemma {:induction false} FailFast(e: EbookInput, b: Backend)
    ensures var run := Generate(e, b);
      && (run.Running? ==> AllAnswered(b, run.calls) && Respond(run) == Ok(run.content))
      && (run.Failed? ==> StoppedAt(b, run.calls, run.detail)
                          && Respond(run) == HttpError(BadRequest, run.detail))
  {
    var o := OutlineRequestOf(e);
    if b([], o).Failure? {
      StopAfter(b, [], o);
      assert [] + [o] == [o];
    } else {
      ExtendAnswered(b, [], o);
      assert [] + [o] == [o];
      var names := ChapterList(e, b).value;
      ChaptersFailFast(e, b, names, |names|, [o]);
    }
  }

  /** The chapter summary is requested before the compaction check, so when
      it raises the job stops there, even in a round where compaction would
      have discarded it; no compaction request is made. */
  lemma {:induction false} SummaryFailureStops(e: EbookInput, b: Backend, i: nat, name: string, run: Run)
    requires run.Running?
    requires b(run.calls, DraftRequestOf(e, i + 1, name, run.summarySoFar)).Success?
    requires var d := DraftRequestOf(e, i + 1, name, run.summarySoFar);
      b(run.calls + [d], ChapterSummaryRequestOf(e, b(run.calls, d).value)).Failure?
    ensures var d := DraftRequestOf(e, i + 1, name, run.summarySoFar);
      var s := ChapterSummaryRequestOf(e, b(run.calls, d).value);
      ChapterStep(e, b, i, name, run) == Failed(b(run.calls + [d], s).error, run.calls + [d] + [s])
  {
    var d := DraftRequestOf(e, i + 1, name, run.summarySoFar);
    var response := b(run.calls, d);
    assert ChapterStep(e, b, i, name, run) == AfterDraft(e, b, i, name, run, response);
  }
}
