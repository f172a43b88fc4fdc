/** The three backend helpers of functions.py: `create_chapters`,
    `write_next_chapter` and `summarize`.

    Each one renders a prompt and hands it to the chat-completion backend. The
    backend is a parameter: a total function from the requests already made
    in this job and the new request to the backend's text or the text of the
    exception it raised. Because the answer may depend on the whole history,
    one such function can stand for any run of a non-deterministic model.
    A request records which system template was chosen and the values that
    fill its placeholders; the wording of the templates is not modelled. */
module Functions {
  import opened Wrappers
  import opened Strings
  import Decimal

  /** The text of a raised exception, `str(e)`. */
  type Error = string

  const DefaultModel := "gpt-3.5-turbo"
  const NotSupplied := "not supplied"

  /** System instruction of `write_next_chapter`: the opening-chapter text,
      or the continuation text with the previous chapter's number written
      into it. */
  datatype SystemTemplate = FirstChapter | Continuation(previousChapter: int)

  datatype Request =
    | OutlineRequest(number: int, title: string, description: string,
                     model: string, apiKey: Option<string>)
    | DraftRequest(system: SystemTemplate, bookName: string, bookDescription: string,
                   summarySoFar: string, chapterNumber: int, chapterName: string,
                   numberOfWords: int, model: string, apiKey: Option<string>)
    | SummaryRequest(input: string, targetWords: string,
                     model: string, apiKey: Option<string>)

  type Backend = (seq<Request>, Request) -> Result<string, Error>

  /** Python `x or "not supplied"` for an optional string. */
  function OrNotSupplied(x: Option<string>): string
  {
    match x
    case Some(s) => if s != "" then s else NotSupplied
    case None => NotSupplied
  }

  /** A missing or empty value becomes `"not supplied"`, any other is kept;
      either way the result is not empty. */
  lemma {:induction false} OrNotSuppliedDefaults(x: Option<string>)
    ensures OrNotSupplied(x) != ""
    ensures x.Some? && x.value != "" ==> OrNotSupplied(x) == x.value
    ensures x.None? || x.value == "" ==> OrNotSupplied(x) == NotSupplied
  {
  }

  // ------------------------------------------------------ create_chapters

  function OutlinePrompt(number: int, title: string, description: Option<string>,
                         apiKey: Option<string>, model: string := DefaultModel): Request
  {
    OutlineRequest(number, title, OrNotSupplied(description), model, apiKey)
  }

  /** The parse of the backend's outline text: newlines become spaces and the
      text is cut at every comma. Pieces are neither trimmed nor filtered, and
      their number is not checked against the number requested. */
  function ParseOutline(response: string): (fields: seq<string>)
    ensures |fields| == Count(response, ',') + 1
    ensures forall i :: 0 <= i < |fields| ==> ',' !in fields[i] && '\n' !in fields[i]
  {
    PiecesFacts(response);
    Split(ReplaceChar(response, '\n', ' '), ',')
  }

  lemma {:induction false} PiecesFacts(response: string)
    ensures var fields := Split(ReplaceChar(response, '\n', ' '), ',');
      && |fields| == Count(response, ',') + 1
      && forall i :: 0 <= i < |fields| ==> '\n' !in fields[i]
  {
    var line := ReplaceChar(response, '\n', ' ');
    ReplaceCharKeepsCount(response, '\n', ' ', ',');
    var fields := Split(line, ',');
    JoinSplit(line, ',');
    forall i | 0 <= i < |fields| ensures '\n' !in fields[i] {
      if '\n' in fields[i] { JoinContains(fields, ',', i, '\n'); }
    }
  }

  /** Joining the pieces with commas gives back the newline-free text, and
      cutting that text again gives back the pieces. */
  lemma {:induction false} ParseOutlineRoundTrip(response: string)
    ensures Join(ParseOutline(response), ',') == ReplaceChar(response, '\n', ' ')
    ensures ParseOutline(Join(ParseOutline(response), ',')) == ParseOutline(response)
  {
    var line := ReplaceChar(response, '\n', ' ');
    JoinSplit(line, ',');
    assert ReplaceChar(line, '\n', ' ') == line;
  }

  function CreateChapters(backend: Backend, history: seq<Request>, number: int,
                          title: string, description: Option<string>,
                          apiKey: Option<string>, model: string := DefaultModel)
    : (r: Result<seq<string>, Error>)
    ensures r.Failure? <==> backend(history, OutlinePrompt(number, title, description, apiKey, model)).Failure?
    ensures r.Failure? ==> r.error == backend(history, OutlinePrompt(number, title, description, apiKey, model)).error
    ensures r.Success? ==> r.value == ParseOutline(backend(history, OutlinePrompt(number, title, description, apiKey, model)).value)
    ensures r.Success? ==> |r.value| >= 1
  {
    match backend(history, OutlinePrompt(number, title, description, apiKey, model))
    case Failure(e) => Failure(e)
    case Success(response) => Success(ParseOutline(response))
  }

  // --------------------------------------------------- write_next_chapter

  /** The first chapter gets the opening template; every other number,
      including zero and negative ones, gets the continuation template. */
  function ChapterTemplate(chapterNumber: int): (t: SystemTemplate)
    ensures t == FirstChapter <==> chapterNumber == 1
    ensures t.Continuation? ==> t.previousChapter == chapterNumber - 1
  {
    if chapterNumber == 1 then FirstChapter else Continuation(chapterNumber - 1)
  }

  /** The request `write_next_chapter` sends: the chosen system template and
      the placeholder values. */
  function DraftPrompt(bookName: string, bookDescription: Option<string>,
                       chapterNumber: int, chapterName: string, summarySoFar: string,
                       apiKey: Option<string>, model: string := DefaultModel,
                       numberOfWords: int := 350): Request
  {
    DraftRequest(ChapterTemplate(chapterNumber), bookName, OrNotSupplied(bookDescription),
                 OrNotSupplied(Some(summarySoFar)), chapterNumber, chapterName,
                 numberOfWords, model, apiKey)
  }

  /** The opening template exactly for chapter 1; the user turn carries the
      chapter number and name whichever template was chosen; an empty
      summary so far and a missing description are sent as `"not supplied"`. */
  lemma {:induction false} DraftPromptFields(bookName: string, bookDescription: Option<string>,
                                             chapterNumber: int, chapterName: string,
                                             summarySoFar: string, apiKey: Option<string>,
                                             model: string, numberOfWords: int)
    ensures var req := DraftPrompt(bookName, bookDescription, chapterNumber, chapterName,
                                   summarySoFar, apiKey, model, numberOfWords);
      && req.DraftRequest?
      && (req.system == FirstChapter <==> chapterNumber == 1)
      && (req.system.Continuation? ==> req.system.previousChapter == chapterNumber - 1)
      && req.chapterNumber == chapterNumber && req.chapterName == chapterName
      && req.summarySoFar == (if summarySoFar == "" then NotSupplied else summarySoFar)
      && req.bookDescription == OrNotSupplied(bookDescription)
      && req.numberOfWords == numberOfWords
  {
  }

  /** The backend's text comes back unchanged; so does its exception. */
  function WriteNextChapter(backend: Backend, history: seq<Request>, bookName: string,
                            bookDescription: Option<string>, chapterNumber: int,
                            chapterName: string, summarySoFar: string,
                            apiKey: Option<string>, model: string := DefaultModel,
                            numberOfWords: int := 350): Result<string, Error>
  {
    backend(history, DraftPrompt(bookName, bookDescription, chapterNumber, chapterName,
                                 summarySoFar, apiKey, model, numberOfWords))
  }

  // ------------------------------------------------------------ summarize

  /** The request `summarize` sends. */
  function SummaryPrompt(input: string, apiKey: Option<string>, numberOfWords: int := 100,
                         model: string := DefaultModel): Request
  {
    SummaryRequest(input, Decimal.IntToString(numberOfWords), model, apiKey)
  }

  /** The text goes to the template unchanged and the word target as its
      decimal string, from which the target can be read back. */
  lemma {:induction false} SummaryPromptFields(input: string, apiKey: Option<string>,
                                               numberOfWords: int, model: string)
    ensures var req := SummaryPrompt(input, apiKey, numberOfWords, model);
      && req.SummaryRequest? && req.input == input
      && Decimal.ParseInt(req.targetWords) == numberOfWords
  {
    Decimal.IntRoundTrip(numberOfWords);
  }

  /** The backend's text comes back unchanged; so does its exception. */
  function Summarize(backend: Backend, history: seq<Request>, input: string,
                     apiKey: Option<string>, numberOfWords: int := 100,
                     model: string := DefaultModel): Result<string, Error>
  {
    backend(history, SummaryPrompt(input, apiKey, numberOfWords, model))
  }
}
