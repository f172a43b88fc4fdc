/** main.py: the `/create_ebook` job.

    The job asks once for an outline, strips every piece into a chapter
    name, then drafts the chapters in order. Around each draft it threads
    three accumulators: the HTML text of the book, the rolling summary that
    is handed to the next draft as context, and (in this model only) the
    log of every request made to the backend. Any exception of the backend
    ends the job with HTTP status 400 and the exception's text.

    `Chapters` and `Generate` specify the job as a fold over the chapter
    names; `CreateEbook` is the loop of the source, proved to compute that
    fold; the lemmas give closed forms for what the fold produces. */
module Ebook {
  import opened Wrappers
  import opened Strings
  import Decimal
  import opened Functions

  /** The request body; pydantic's parsing and defaults are not modelled,
      and no field is validated (counts may be zero or negative). */
  datatype EbookInput = EbookInput(
    title: string,
    description: Option<string>,
    numberOfChapters: int,
    wordsPerChapter: int,
    model: string,
    apiKey: Option<string>)

  /** `{"ebook_content": ...}` or `HTTPException(status_code, detail)`. */
  datatype Response = Ok(ebookContent: string) | HttpError(statusCode: int, detail: string)

  const BadRequest := 400
  const ChapterEnd := "</p><br/><br/><br/>"
  const CompactionThreshold := 1200
  const CompactionWords := 600

  /** The heading written before each chapter; the closing tag does not
      match the opening one, as in the source. */
  function Heading(number: nat, name: string): string {
    "<h1>Chapter " + Decimal.NatToString(number) + ": " + name + "</h2> \n\n"
  }

  /** The line appended to the rolling summary for one chapter. */
  function SummaryLine(number: nat, summary: string): string {
    "Chapter " + Decimal.NatToString(number) + " Summary: " + summary + " \n\n"
  }

  /** Python `round(w / 7)`. `w / 7` is never exactly halfway between two
      integers, so the result is the unique integer nearest to it. */
  function RoundDiv7(w: int): (r: int)
    ensures -7 < 2 * (w - 7 * r) < 7
  {
    (2 * w + 7) / 14
  }

  /** `max(min(round(w / 7), 100), 50)`: the word target of a chapter summary. */
  function SummaryLength(w: int): (r: int)
    ensures 50 <= r <= 100
    ensures 50 < r < 100 ==> r == RoundDiv7(w)
    ensures r == 50 <==> RoundDiv7(w) <= 50
    ensures r == 100 <==> RoundDiv7(w) >= 100
  {
    var rounded := RoundDiv7(w);
    if rounded > 100 then 100 else if rounded < 50 then 50 else rounded
  }

  lemma SummaryLengthExamples()
    ensures SummaryLength(1) == 50 && SummaryLength(350) == 50 && SummaryLength(1000) == 100
    ensures SummaryLength(700) == 100 && SummaryLength(500) == 71
  {
  }

  // ------------------------------------------------------ the fold

  /** What one chapter left behind: the draft, the per-chapter summary, and
      the re-summary of the old rolling summary when compaction fired. */
  datatype ChapterRecord = ChapterRecord(draft: string, summary: string, compacted: Option<string>)

  /** The text appended to the rolling summary: when compaction fired, the
      per-chapter summary is dropped for the re-summary of the old context. */
  function Fragment(c: ChapterRecord): string {
    match c.compacted
    case Some(s) => s
    case None => c.summary
  }

  datatype Run =
    | Running(content: string, summarySoFar: string, calls: seq<Request>, chapters: seq<ChapterRecord>)
    | Failed(detail: Error, calls: seq<Request>)

  function Start(calls: seq<Request>): Run {
    Running("", "", calls, [])
  }

  function OutlineRequestOf(e: EbookInput): Request {
    OutlinePrompt(e.numberOfChapters, e.title, e.description, e.apiKey, e.model)
  }

  function DraftRequestOf(e: EbookInput, number: nat, name: string, summarySoFar: string): Request {
    DraftPrompt(e.title, e.description, number, name, summarySoFar, e.apiKey, e.model, e.wordsPerChapter)
  }

  function ChapterSummaryRequestOf(e: EbookInput, draft: string): Request {
    SummaryPrompt(draft, e.apiKey, SummaryLength(e.wordsPerChapter), e.model)
  }

  function CompactionRequestOf(e: EbookInput, summarySoFar: string): Request {
    SummaryPrompt(summarySoFar, e.apiKey, CompactionWords, e.model)
  }

  /** One pass of the chapter loop for the chapter at 0-based index `i`:
      the draft request, then `AfterDraft`. A failed run stays as it is. */
  function ChapterStep(e: EbookInput, backend: Backend, i: nat, name: string, run: Run): Run
  {
    match run
    case Failed(_, _) => run
    case Running(content, summarySoFar, calls, chapters) =>
      AfterDraft(e, backend, i, name, run,
                 WriteNextChapter(backend, calls, e.title, e.description, i + 1, name,
                                  summarySoFar, e.apiKey, e.model, e.wordsPerChapter))
  }

  /** The draft has been answered: the heading and the draft are added to the
      content, which is wrapped once more, and the draft is summarized. */
  function AfterDraft(e: EbookInput, backend: Backend, i: nat, name: string, run: Run,
                      response: Result<string, Error>): Run
    requires run.Running?
  {
    var calls1 := run.calls + [DraftRequestOf(e, i + 1, name, run.summarySoFar)];
    match response
    case Failure(err) => Failed(err, calls1)
    case Success(draft) =>
      AfterSummary(e, backend, i, run.summarySoFar, calls1, run.chapters,
                   "<p>" + (run.content + Heading(i + 1, name) + Paragraphs(draft)) + ChapterEnd,
                   draft,
                   Summarize(backend, calls1, draft, e.apiKey, SummaryLength(e.wordsPerChapter), e.model))
  }

  /** The chapter summary has been answered; a rolling summary of more than
      1200 words is first re-summarized in its place. */
  function AfterSummary(e: EbookInput, backend: Backend, i: nat, summarySoFar: string,
                        calls1: seq<Request>, chapters: seq<ChapterRecord>, content: string,
                        draft: string, summary: Result<string, Error>): Run
  {
    var calls2 := calls1 + [ChapterSummaryRequestOf(e, draft)];
    match summary
    case Failure(err) => Failed(err, calls2)
    case Success(s) =>
      if WordCount(summarySoFar) > CompactionThreshold then
        AfterCompaction(e, i, summarySoFar, calls2, chapters, content, draft, s,
                        Summarize(backend, calls2, summarySoFar, e.apiKey, CompactionWords, e.model))
      else
        Running(content, summarySoFar + SummaryLine(i + 1, s), calls2,
                chapters + [ChapterRecord(draft, s, None)])
  }

  /** The re-summary of the rolling summary has been answered: it, and not
      the chapter summary, is what is appended. */
  function AfterCompaction(e: EbookInput, i: nat, summarySoFar: string, calls2: seq<Request>,
                           chapters: seq<ChapterRecord>, content: string, draft: string,
                           summary: string, compacted: Result<string, Error>): Run
  {
    var calls3 := calls2 + [CompactionRequestOf(e, summarySoFar)];
    match compacted
    case Failure(err) => Failed(err, calls3)
    case Success(c) =>
      Running(content, summarySoFar + SummaryLine(i + 1, c), calls3,
              chapters + [ChapterRecord(draft, summary, Some(c))])
  }

  /** The state after the first `n` chapters of `names`. */
  function Chapters(e: EbookInput, backend: Backend, names: seq<string>, n: nat, start: Run): Run
    requires n <= |names|
  {
    if n == 0 then start
    else ChapterStep(e, backend, n - 1, names[n - 1], Chapters(e, backend, names, n - 1, start))
  }

  function StripAll(fields: seq<string>): seq<string> {
    seq(|fields|, k requires 0 <= k < |fields| => Strip(fields[k]))
  }

  /** The chapter names: the outline's pieces, each stripped, in order. */
  function ChapterList(e: EbookInput, backend: Backend): Result<seq<string>, Error> {
    match CreateChapters(backend, [], e.numberOfChapters, e.title, e.description, e.apiKey, e.model)
    case Failure(err) => Failure(err)
    case Success(fields) => Success(StripAll(fields))
  }

  /** The whole job. */
  function Generate(e: EbookInput, backend: Backend): Run {
    match ChapterList(e, backend)
    case Failure(err) => Failed(err, [OutlineRequestOf(e)])
    case Success(names) => Chapters(e, backend, names, |names|, Start([OutlineRequestOf(e)]))
  }

  function Respond(run: Run): Response {
    match run
    case Running(content, _, _, _) => Ok(content)
    case Failed(detail, _) => HttpError(BadRequest, detail)
  }

  // ------------------------------------------------------ the loop

  /** The first loop of `create_ebook`: every outline piece, stripped, in order. */
  method StripNames(fields: seq<string>) returns (chapterList: seq<string>)
    ensures chapterList == StripAll(fields)
  {
    chapterList := [];
    var k := 0;
    while k < |fields|
      invariant 0 <= k <= |fields|
      invariant |chapterList| == k
      invariant forall j :: 0 <= j < k ==> chapterList[j] == Strip(fields[j])
    {
      chapterList := chapterList + [Strip(fields[k])];
      k := k + 1;
    }
  }

  /** `create_ebook`, returning also the log of the requests it made. */
  method CreateEbook(ebook: EbookInput, backend: Backend) returns (reply: Response, calls: seq<Request>)
    ensures reply == Respond(Generate(ebook, backend))
    ensures calls == Generate(ebook, backend).calls
  {
    var chapterList: seq<string> := [];
    var ebookContent := "";
    var summarySoFar := "";
    var outlineReq := OutlineRequestOf(ebook);
    var responseList := CreateChapters(backend, [], ebook.numberOfChapters, ebook.title,
                                       ebook.description, ebook.apiKey, ebook.model);
    calls := [outlineReq];
    if responseList.Failure? {
      assert Generate(ebook, backend) == Failed(responseList.error, calls);
      return HttpError(BadRequest, responseList.error), calls;
    }

    chapterList := StripNames(responseList.value);
    assert ChapterList(ebook, backend) == Success(chapterList);

    ghost var start := Start(calls);
    ghost var chapters: seq<ChapterRecord> := [];
    assert Generate(ebook, backend) == Chapters(ebook, backend, chapterList, |chapterList|, start);
    var i := 0;
    while i < |chapterList|
      invariant 0 <= i <= |chapterList|
      invariant Chapters(ebook, backend, chapterList, i, start)
             == Running(ebookContent, summarySoFar, calls, chapters)
    {
      ghost var run := Running(ebookContent, summarySoFar, calls, chapters);
      ChaptersNext(ebook, backend, chapterList, i, start);
      ebookContent := ebookContent + Heading(i + 1, chapterList[i]);

      var draftReq := DraftRequestOf(ebook, i + 1, chapterList[i], summarySoFar);
      var response := WriteNextChapter(backend, calls, ebook.title, ebook.description, i + 1,
                                       chapterList[i], summarySoFar, ebook.apiKey, ebook.model,
                                       ebook.wordsPerChapter);
      calls := calls + [draftReq];
      ghost var next := AfterDraft(ebook, backend, i, chapterList[i], run, response);
      assert Chapters(ebook, backend, chapterList, i + 1, start) == next;
      if response.Failure? {
        assert next == Failed(response.error, calls);
        FailedStays(ebook, backend, chapterList, i + 1, |chapterList|, start);
        return HttpError(BadRequest, response.error), calls;
      }

      ebookContent := ebookContent + Paragraphs(response.value);
      ebookContent := "<p>" + ebookContent + ChapterEnd;

      var summaryLength := SummaryLength(ebook.wordsPerChapter);
      var summaryReq := ChapterSummaryRequestOf(ebook, response.value);
      var summary := Summarize(backend, calls, response.value, ebook.apiKey, summaryLength, ebook.model);
      calls := calls + [summaryReq];
      next := AfterSummary(ebook, backend, i, summarySoFar, run.calls + [draftReq], chapters,
                           ebookContent, response.value, summary);
      if summary.Failure? {
        assert next == Failed(summary.error, calls);
        FailedStays(ebook, backend, chapterList, i + 1, |chapterList|, start);
        return HttpError(BadRequest, summary.error), calls;
      }

      var fragment := summary.value;
      if WordCount(summarySoFar) > CompactionThreshold {
        var compactReq := CompactionRequestOf(ebook, summarySoFar);
        var compacted := Summarize(backend, calls, summarySoFar, ebook.apiKey, CompactionWords, ebook.model);
        calls := calls + [compactReq];
        next := AfterCompaction(ebook, i, summarySoFar, run.calls + [draftReq] + [summaryReq], chapters,
                                ebookContent, response.value, summary.value, compacted);
        if compacted.Failure? {
          assert next == Failed(compacted.error, calls);
          FailedStays(ebook, backend, chapterList, i + 1, |chapterList|, start);
          return HttpError(BadRequest, compacted.error), calls;
        }
        fragment := compacted.value;
        chapters := chapters + [ChapterRecord(response.value, summary.value, Some(compacted.value))];
      } else {
        chapters := chapters + [ChapterRecord(response.value, summary.value, None)];
      }

      summarySoFar := summarySoFar + SummaryLine(i + 1, fragment);
      i := i + 1;
    }
    return Ok(ebookContent), calls;
  }

  lemma {:induction false} ChaptersNext(e: EbookInput, backend: Backend, names: seq<string>, n: nat, start: Run)
    requires n < |names|
    ensures Chapters(e, backend, names, n + 1, start)
         == ChapterStep(e, backend, n, names[n], Chapters(e, backend, names, n, start))
  {
  }

  /** Once a chapter fails, later chapters change nothing: no further
      request is made and the error stays the one that stopped the job. */
  lemma {:induction false} FailedStays(e: EbookInput, backend: Backend, names: seq<string>,
                                       n: nat, m: nat, start: Run)
    requires n <= m <= |names|
    requires Chapters(e, backend, names, n, start).Failed?
    ensures Chapters(e, backend, names, m, start) == Chapters(e, backend, names, n, start)
  {
    if m > n {
      FailedStays(e, backend, names, n, m - 1, start);
    }
  }
}
