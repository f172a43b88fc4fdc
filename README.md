# ebook_api: the chapter-generation pipeline in Dafny

This project models the `/create_ebook` job of the ebook API. The job works in these steps:

- It asks a chat-completion backend for a comma-separated outline.
- It strips every outline piece into a chapter name.
- It drafts the chapters in order. Around each draft it threads three pieces of state:
  - the HTML text of the book;
  - a rolling "summary so far" that is handed to the next draft;
  - the per-chapter summary.
- It re-summarizes the rolling summary once that has grown past 1200 words.
- Any backend exception ends the job with HTTP 400 and the exception's text.

The three backend helpers of `functions.py` are modelled with the job:

- `create_chapters` parses the outline.
- `write_next_chapter` chooses a template and applies the "not supplied" defaults.
- `summarize` passes the word target as a decimal string.

The files:

- `Wrappers.dfy`: `Option` and `Result`.
- `Decimal.dfy`: Python `str(n)` for integers, with the parse that inverts it.
- `Strings.dfy`: the string operations the job uses, each with its reference properties:
  - `strip()`;
  - one-character `replace`;
  - `split(",")` and `join`;
  - the newline-to-paragraph replacement;
  - `len(s.split())`, the word count.
- `Functions.dfy`: the helpers of `functions.py`.
  - The backend is a parameter: a total function from the requests already made in the job, plus the new request, to the backend's text or the text of its exception.
  - Because the answer may depend on the whole history, one such function stands for any run of a non-deterministic model.
  - A request records the chosen system template and the values of its placeholders.
- `Ebook.dfy`: the job of `main.py`.
  - `Chapters` and `Generate` specify the job as a fold over the chapter names.
  - `CreateEbook` is the job's own two loops. It is proved to compute that fold, and it also returns the log of the requests it made.
- `EbookShape.dfy`: closed forms of what the fold produces, and the job's guarantees:
  - the document's framing;
  - one draft per outline piece, with its number, name and summary context;
  - the compaction rule and its consequences;
  - fail-fast error handling.

Behaviour of the code worth noting:

- `create_chapters` neither trims nor drops empty pieces. The job strips them afterwards and keeps empty names, so an empty outline text still yields one chapter with an empty name.
- Compaction does not bound the rolling summary.
  - Its result is appended, and nothing is replaced (`SummaryTextGrows`).
  - Every chapter adds at least three words (`SummaryWords`).
  - So from the 402nd chapter on, every chapter compacts (`CompactionEventually`). The 401st need not: 400 chapters with empty fragments leave exactly 1200 words (`CompactionBoundTight`).
- No input field is validated. A title may be empty, and the counts may be zero or negative.
- The `<h1>`…`</h2>` heading mismatch is kept.

## Model

| member | source | states |
|---|---|---|
| Decimal.NatToString | main.py:50 | the chapter number is written as a non-empty string of decimal digits |
| Decimal.NoLeadingZero | main.py:50 | the numeral has no leading zero: it starts with `0` exactly for zero, which is written `"0"` |
| Decimal.IntRoundTrip | functions.py:137 | `str(number_of_words)` determines the number: parsing the numeral gives back the integer, negative ones included |
| Strings.Strip | main.py:47 | a stripped name has no whitespace at either end and is no longer than the piece |
| Strings.StripDecomposes | main.py:47 | the piece is the stripped name with a whitespace prefix and a whitespace suffix around it |
| Strings.StripUnique | main.py:47 | whenever a text is whitespace, then a text with no whitespace at either end, then whitespace, the middle is what `strip()` returns |
| Strings.StripIdempotent | main.py:47 | stripping a stripped name changes nothing |
| Strings.ReplaceChar | functions.py:45 | `replace("\n", " ")` keeps the length, changes exactly the newlines, and leaves none |
| Strings.ReplaceCharKeepsCount | functions.py:45 | replacing newlines by spaces keeps the number of every other character, commas included |
| Strings.Split | functions.py:46 | `split(",")` yields one more piece than there are commas, and no piece holds a comma |
| Strings.JoinSplit | functions.py:46 | joining the pieces with commas gives back the text |
| Strings.SplitJoin | functions.py:46 | cutting a comma-join of comma-free pieces gives back the pieces, empty ones included |
| Strings.ParagraphsFacts | main.py:66 | no newline survives the paragraph replacement; each newline grows into the 7-character tag pair; text without newlines is unchanged |
| Strings.ParagraphsRoundTrip | main.py:66 | on text without `<`, turning the tag pairs back into newlines recovers the draft |
| Strings.WordCountAppend | main.py:80 | after whitespace or at the start, the word counts of two texts add up |
| Strings.WordCountMonotone | main.py:80 | appending text never lowers the whitespace word count |
| Strings.WordCountOfWord | main.py:80 | a non-empty text without whitespace counts as one word |
| Strings.WordCountOfSpaces | main.py:80 | whitespace alone counts as no word |
| Functions.OrNotSuppliedDefaults | functions.py:100-101 | `x or "not supplied"`: a missing or empty value becomes `"not supplied"`, any other is kept, and the result is never empty |
| Functions.ParseOutline | functions.py:45-46 | the outline has one more piece than the backend's text has commas, and no piece holds a comma or a newline |
| Functions.ParseOutlineRoundTrip | functions.py:45-46 | joining the pieces with commas gives the text with newlines replaced by spaces, and parsing that again gives the same pieces |
| Functions.CreateChapters | functions.py:33-46 | the backend's exception is passed on unchanged; otherwise the result is the parse of the backend's text and has at least one piece |
| Functions.ChapterTemplate | functions.py:61-76 | the opening template is chosen exactly for chapter 1; otherwise the continuation template carries the previous chapter's number |
| Functions.DraftPromptFields | functions.py:96-106 | a draft request carries the chapter number and name whichever template was chosen; an empty summary so far or a missing description is sent as `"not supplied"`; the word count is passed through |
| Functions.SummaryPromptFields | functions.py:135-138 | a summary request carries its text unchanged and the word target as a numeral from which the target can be read back |
| Ebook.RoundDiv7 | main.py:69 | `round(w / 7)`: the integer nearest to `w / 7`, which is never a tie |
| Ebook.SummaryLength | main.py:69 | the summary target lies in [50, 100]; it is the rounded seventh whenever that is in range; it is 50 or 100 exactly when the rounded seventh is at most 50 or at least 100 |
| Ebook.SummaryLengthExamples | main.py:69 | 1, 350 and 1000 words per chapter give targets 50, 50 and 100; 700 gives 100 and 500 gives 71 |
| Ebook.StripNames | main.py:46-47 | the chapter list holds every outline piece, stripped, in order |
| Ebook.CreateEbook | main.py:29-93 | the job's reply and request log are those of the fold `Generate`: the document, or 400 with the text of the exception that stopped the run |
| Ebook.FailedStays | main.py:63-64 | once a chapter has failed, later chapters change nothing: the error and the request log stay as they were |
| EbookShape.StepValue | main.py:49-91 | a chapter that does not fail appends one record answered by the backend: its heading and draft to the document before the whole is wrapped again, its fragment line to the rolling summary, and its two or three requests to the log |
| EbookShape.StepShaped | main.py:49-91 | a chapter that does not fail extends a run of that closed form by one record |
| EbookShape.RunningShape | main.py:49-91 | after any number of chapters without a failure, the run has one record per chapter; its document, rolling summary and log are the closed forms of those records; each record is the backend's answers to its own chapter's requests |
| EbookShape.AnsweredAt | main.py:53-91 | record `j` holds the backend's answers to chapter `j`'s requests, made after exactly the requests of the chapters before it |
| EbookShape.GeneratedEbook | main.py:36-49 | a job that returns a document asked for the outline once and drafted one chapter per stripped outline piece, whatever the requested number of chapters; the number of chapters is the number of commas plus one; the reply is the closed-form document |
| EbookShape.DocumentShape | main.py:50-67 | because every chapter wraps the whole text, the document is one `<p>` per chapter followed by each chapter's heading, paragraphs and terminator in chapter order |
| EbookShape.DocumentFrame | main.py:67 | after at least one chapter, the document begins with one `<p>` per chapter and ends with `</p><br/><br/><br/>` |
| EbookShape.DraftsCount | main.py:49-62 | the chapters make one draft request each |
| EbookShape.DraftAt | main.py:53-62 | the `j`-th draft request is for chapter `j + 1`, is named `names[j]`, and carries the rolling summary of the chapters before it |
| EbookShape.OneDraftPerOutlineEntry | main.py:49-62 | in a job that returns a document, there is one draft per outline piece. Draft `j` is numbered `j + 1` and carries the stripped name `names[j]`. It uses the opening template exactly for the first chapter. It carries `"not supplied"` before the first chapter, and otherwise exactly the summary lines of chapters `1..j` |
| EbookShape.SummaryTextEmpty | main.py:33 | the rolling summary is empty exactly before the first chapter |
| EbookShape.SummaryTextGrows | main.py:91 | every earlier rolling summary is a prefix of every later one: compaction appends and never replaces |
| EbookShape.CompactionRule | main.py:69-91 | chapter `j`'s draft and summary are the backend's answers to its requests; its summary line is appended to the earlier ones. When the pre-append rolling summary has more than 1200 words, the appended fragment is the backend's 600-word re-summary of that old summary. Otherwise it is the chapter's own summary |
| EbookShape.CompactionPersists | main.py:80 | once the rolling summary has more than 1200 words it keeps having more, so compaction fires for every later chapter |
| EbookShape.SummaryWords | main.py:91 | the rolling summary has at least three words per chapter and ends in whitespace, however often compaction fired |
| EbookShape.CompactionEventually | main.py:80 | once 401 chapters are done, the rolling summary has more than 1200 words, so every chapter after the 401st is compacted |
| EbookShape.EmptyFragmentsWords | main.py:91 | when every appended fragment is empty, each chapter adds exactly three words to the rolling summary |
| EbookShape.CompactionBoundTight | main.py:80 | 400 chapters with empty fragments leave exactly 1200 words, which does not pass the `> 1200` test, so the bound of `CompactionEventually` cannot be lowered |
| EbookShape.StepFailFast | main.py:52-89 | a chapter either gets every request answered or stops at the first request that raised, making no request after it |
| EbookShape.ChaptersFailFast | main.py:49-91 | after any number of chapters, either every request was answered or the last request is the only one that raised, and its text is the run's error |
| EbookShape.FailFast | main.py:35-93 | the job returns the document exactly when every backend request it made was answered; otherwise it returns 400 with the text of the one request that raised, which was the last request made |
| EbookShape.SummaryFailureStops | main.py:70-80 | the chapter summary is requested before the compaction check, so its failure stops the job even in a round where compaction would have discarded it, and no compaction request is made |

## Left out

- The LangChain chain, the OpenAI client and the network call behind it. The backend is a function parameter that answers each request in the context of the requests before it.
- The wording of the prompt templates and LangChain's placeholder substitution, including the double-brace escaping of the continuation template. A request records only which template was chosen and the values passed to it.
- The `print` logging of backend errors. It is output only.
- The FastAPI application, the CORS middleware, pydantic's parsing of the request body, and the `async` endpoint. The defaults `model = "gpt-3.5-turbo"` and the word targets 350 and 100 are Dafny default parameters.
- The Streamlit front end: its form, the HTTP post, PDF rendering and file handling.
- Ebook.RoundDiv7: computes `round(w / 7)` exactly on integers. Python divides in floating point, and the two can differ once `|w / 7|` reaches 2^50, that is for `|w|` from about 7·2^50. There neighbouring doubles are 0.25 apart; for example `w = 7·(2^50 + 1) + 3` gives `w / 7 == 2^50 + 1.5` in Python, which rounds to 2^50 + 2, while `RoundDiv7` gives 2^50 + 1. Below 2^50 the rounding error of the division is at most 1/16, less than the 1/14 by which `w / 7` misses a half. `SummaryLength` hides the difference: for such `w` both values are clamped to 100, or to 50 when `w` is negative.
- Ebook.Heading: has no contract of its own. It is the heading f-string of main.py:50; where it lands in the document is stated by `DocumentShape` and `DocumentFrame`.
- Ebook.SummaryLine: has no contract of its own. It is the summary f-string of main.py:91; its words are counted by `SummaryWords` and `EmptyFragmentsWords`, and its place in the rolling summary is stated by `CompactionRule`.
- Ebook.ChapterStep: has no contract of its own. It is one pass of the loop at main.py:49-91; what a pass that succeeds produces is stated by `StepValue`, and what a failing one does by `StepFailFast`.
- Ebook.AfterDraft: has no contract of its own. It is main.py:50 and 63-76, the part of a pass after the draft is answered: the heading, the paragraphs, the wrapping and the summary request; `StepValue` and `StepFailFast` state it.
- Ebook.AfterSummary: has no contract of its own. It is main.py:77-80 and 91, the answer to the chapter summary, the compaction test and the plain append; `CompactionRule` and `SummaryFailureStops` state it.
- Ebook.AfterCompaction: has no contract of its own. It is main.py:81-91, the re-summary that replaces the chapter summary and its append; `CompactionRule` states it.
- Ebook.Chapters: has no contract of its own. It is the loop of main.py:49-91 as a fold; `RunningShape`, `ChaptersFailFast` and `FailedStays` state it.
- Ebook.Generate: has no contract of its own. It is the whole job of main.py:31-93; `CreateEbook` is proved to compute it, and `GeneratedEbook`, `OneDraftPerOutlineEntry` and `FailFast` state what it produces.
- Functions.WriteNextChapter: has no contract of its own. Its body is the backend's answer to `DraftPrompt`, returned or raised unchanged. What it sends is stated by `DraftPromptFields`.
- Functions.Summarize: has no contract of its own, for the same reason. What it sends is stated by `SummaryPromptFields`.
- Ebook.CreateEbook: the request log it returns is a modelling device. The source keeps no such log; the log is how the fail-fast and draft-order properties are stated.
- Strings.ParagraphsRoundTrip: holds only for drafts without `<`. A draft that already contains the tag pair cannot be told apart after the replacement.
- Exceptions other than the backend's are not modelled; the text of an exception is the only thing the job uses.
