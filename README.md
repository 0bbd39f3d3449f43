# Edubot core, modelled in Dafny

Edubot is a Streamlit chat assistant for students planning to study abroad
(`gemini_file_bot.py`). Under its user interface there is a small amount of
sequential logic, and this project models that logic and proves properties of it:

- **Table detection (`extract_tables`).** A line that mentions one of six header
  phrases opens a table. The table runs up to the next blank line. Each captured
  line is stripped and cut at every double space, and the rows go to a grid
  renderer.
- **Document accumulation (`process_documents_gemini`).** Uploaded files are
  dispatched on their MIME type to a format reader. Their text, and the tables found
  in it, are appended to two running strings in upload order.
- **Prompt assembly and the retry loop (`generate_gemini_response`).** The prompt is
  built from a fixed template. The loop makes at most three calls to the generation
  service and doubles its wait after each rate-limit error.
- **Canned replies (`generate_response`).** The reply is that of the first key in
  the predefined table that occurs in the lower-cased message. The `clear` key also
  resets the history.
- **One chat turn of `main`.** The history is seeded with a greeting. A submitted
  message appends the user's message and then exactly one bot reply.

Modules, one file each:

| file | module | models |
|---|---|---|
| `wrappers.dfy` | `Wrappers` | `Option` |
| `text.dfy` | `Text` | the Python `str` operations the core relies on: `in`, `lower()`, `strip()`, `split(sep)`, `sep.join`, `splitlines()`, `+=` accumulation |
| `tables.dfy` | `Tables` | `extract_tables` |
| `documents.dfy` | `Documents` | `process_documents_gemini` and the reader dispatch |
| `prompt.dfy` | `Prompt` | the chat transcript and the prompt template |
| `generation.dfy` | `Generation` | the retry and back-off loop |
| `canned.dfy` | `Canned` | the predefined-response table and the reply it selects |
| `session.dfy` | `Session` | the session state: one turn of `main`, and `generate_response` acting on the history |

Foreign code becomes parameters:

- **Format readers.** The four readers are a `Readers` record of total functions
  from bytes to text. Each reader catches its own errors and returns what it read
  before the failure: the pages or paragraphs read so far for PDF and DOCX files,
  `""` for plain text and spreadsheets. So a total function loses nothing.
- **Grid renderer.** The `tabulate` call is a `Renderer`. It returns `None` where
  the call would raise.
- **Generation service.** The service is a `Service` that gives, for the prompt and
  the attempt number, how that streamed call ends: a completed stream of chunks, a
  rate-limit error, or any other error.
- **API key.** Whether an API key is configured is a boolean.
- **Sleeps.** Waits are recorded as a list of delays, not slept.

Three behaviours of the code worth knowing:

- **Separator.** Cells are split on the exact two-character string `"  "`; runs of
  spaces are not merged. Four spaces therefore give an empty cell
  (`Tables.FourSpacesMakeEmptyCell`).
- **Renderer failure.** When the renderer raises part-way, `extract_tables` keeps the
  tables rendered before it and joins those, because the exception is caught after
  the list has been partly filled (`Tables.ExtractTables`).
- **Key order.** A message mentioning "goodbye" gets the goodbye reply only when
  neither "hello" nor "how are you" also occurs in it, because the table is scanned
  in order (`Canned.GoodbyeAnywhere`).

## Model

| member | source | states |
|---|---|---|
| Text.ContainsIffOccurs | gemini_file_bot.py:80 | the substring test `sub in s` holds exactly when `sub` occurs at some position of `s` |
| Text.Lower | gemini_file_bot.py:161 | `lower()` keeps the length of the message |
| Text.LowerIdempotent | gemini_file_bot.py:161 | lower-casing an already lower-cased message changes nothing |
| Text.LowerAppend | gemini_file_bot.py:161 | lower-casing distributes over concatenation |
| Text.TrimStartSpec | gemini_file_bot.py:84 | `TrimStart` removes exactly a leading run of white space and stops at a non-space character |
| Text.TrimEndSpec | gemini_file_bot.py:84 | `TrimEnd` removes exactly a trailing run of white space and stops at a non-space character |
| Text.StripSpec | gemini_file_bot.py:84-86 | `strip()` returns the input minus white-space padding on both sides, never begins or ends with white space, and is empty exactly when the line is all white space |
| Text.Split | gemini_file_bot.py:87 | `split(sep)` always yields at least one piece |
| Text.JoinSplit | gemini_file_bot.py:87 | joining the pieces of `split(sep)` with `sep` gives back the string |
| Text.SplitPiecesFree | gemini_file_bot.py:87 | no piece of `split(sep)` contains `sep` |
| Text.SplitJoin | gemini_file_bot.py:87 | splitting a join of separator-free pieces gives back the pieces |
| Text.JoinAppend | gemini_file_bot.py:90 | joining two non-empty lists is joining each and putting one separator between them |
| Text.SplitLines | gemini_file_bot.py:78 | no line produced by `splitlines()` contains a line boundary |
| Text.LineEnd | gemini_file_bot.py:78 | the end of a line is the first line boundary at or after its start, or the end of the text |
| Text.SplitLinesJoin | gemini_file_bot.py:78 | `splitlines()` of break-free lines joined by newlines gives back those lines |
| Text.ConcatAppend | gemini_file_bot.py:139 | accumulating two lists of pieces one after the other is concatenating their accumulations |
| Tables.StartsFrom | gemini_file_bot.py:80 | the table starts are exactly the lines containing one of the six keywords, listed in increasing order |
| Tables.EndIndex | gemini_file_bot.py:84 | a table ends at the first later line that strips to empty, or at the end of the text; every line between the header and that end is non-blank |
| Tables.GridAt | gemini_file_bot.py:85-87 | the grid's header is the opening line's row, and its body is the rows of the following lines of the span, in order |
| Tables.TableGrids | gemini_file_bot.py:83-87 | there is exactly one grid per table-opening line |
| Tables.RenderAllSpec | gemini_file_bot.py:83-89 | the rendered tables are, in order, the renderings of the grids before the first one whose rendering raises |
| Tables.ExtractTables | gemini_file_bot.py:74-90 | the loop returns the newline-join of the renderings of each table-opening line's grid, stopping at the first rendering that raises |
| Tables.RenderAllTotal | gemini_file_bot.py:83-87 | with a renderer that never raises, every table-opening line yields exactly one table |
| Tables.RowRoundTrip | gemini_file_bot.py:86-87 | joining a row back with `"  "` gives the stripped line, and no cell contains `"  "` |
| Tables.FourSpacesMakeEmptyCell | gemini_file_bot.py:87 | `"a    b"` splits into `a`, an empty cell and `b`: runs of spaces are not merged |
| Tables.RowOfCells | gemini_file_bot.py:86-87 | a line written as clean cells separated by `"  "`, with no outer white space, yields exactly those cells |
| Tables.TableOfHeader | gemini_file_bot.py:80-87 | a keyword line followed by `n` non-blank lines and then a blank line or the end of the text gives exactly the grid of those lines, at that line's position among the table starts |
| Documents.FormatOf | gemini_file_bot.py:99-108 | the dispatch selects no reader exactly for the types outside the four supported MIME strings, and compares them exactly |
| Documents.ContentOf | gemini_file_bot.py:97-112 | a file contributes nothing exactly when reading it raises; an unrecognised type contributes a single space |
| Documents.ProcessDocuments | gemini_file_bot.py:93-113 | the loop's two accumulators are the in-order concatenations of each file's content and of each file's extracted tables |
| Documents.CombineAppend | gemini_file_bot.py:96-110 | processing two batches one after the other is processing them together: the contributions are concatenated in upload order |
| Documents.UnreadableFileSkipped | gemini_file_bot.py:111-112 | a file whose read raises contributes nothing, and the files after it are still processed |
| Documents.SpaceHasNoTables | gemini_file_bot.py:108-109 | the single-space content of an unrecognised type has no tables |
| Documents.UnrecognisedTypeContribution | gemini_file_bot.py:107-110 | a readable file of an unrecognised type contributes `" "` of content and `""` of tables |
| Documents.SupportedTypeContribution | gemini_file_bot.py:99-110 | a readable file of a supported type contributes its reader's text and the tables extracted from that text |
| Prompt.TranscriptConcat | gemini_file_bot.py:309 | the transcript of two stretches of history is their transcripts joined by a newline |
| Prompt.TranscriptAppend | gemini_file_bot.py:309 | appending a message appends a newline and its `role: message` line |
| Prompt.TranscriptLinesRecoverable | gemini_file_bot.py:309 | when no message contains a line break, the transcript's lines are exactly one `role: message` line per message, oldest first |
| Prompt.PromptLength | gemini_file_bot.py:116-128 | the prompt is as long as the template plus the four inserted parts |
| Prompt.PromptOpensWithPersona | gemini_file_bot.py:116-117 | the prompt opens with the persona text |
| Prompt.PromptHoldsContext | gemini_file_bot.py:118-121 | the transcript, the document content and the tables sit intact in the prompt, in that order, after their introductions |
| Prompt.PromptEndsWithQuery | gemini_file_bot.py:122-128 | the four directives follow the tables, and the user's message follows them |
| Generation.GenerateResponse | gemini_file_bot.py:129-157 | the loop's reply, number of service calls and recorded waits are those of the retry run `Generate` |
| Generation.Backoff | gemini_file_bot.py:148-149 | the waits of `n` rate-limit errors are `n` delays, each twice the one before |
| Generation.AttemptsSettle | gemini_file_bot.py:131-157 | rate limits up to attempt `last` and another outcome there: `last + 1` calls, doubling waits for the rate-limited ones, and the chunks' text or the apology |
| Generation.AttemptsExhausted | gemini_file_bot.py:146-153 | rate limits on every remaining attempt: each is made and waited for, and the reply is the apology |
| Generation.NoKeyNoCall | gemini_file_bot.py:133-145 | without an API key the reply is the fixed refusal, and no call or wait is made |
| Generation.StreamAfterRateLimits | gemini_file_bot.py:131-149 | a completed stream after `k` rate limits returns every chunk's text in order, after `k + 1` calls and waits of 1, 2, 4, ... seconds |
| Generation.FailureStopsAtOnce | gemini_file_bot.py:154-157 | any other error on the first attempt returns the apology after one call and no wait |
| Generation.RateLimitedThrice | gemini_file_bot.py:129-153 | three rate limits in a row: three calls, waits of 1, 2 and 4 seconds (the last even though no attempt follows), and the apology |
| Generation.GenerateBounded | gemini_file_bot.py:129-131 | at most three calls are made, a wait is recorded only for a call that was made, and no call is made exactly when there is no API key |
| Canned.FirstMatchFrom | gemini_file_bot.py:162-163 | the selected position holds a key occurring in the message, and no earlier position does; with no selection, no key occurs |
| Canned.CannedReply | gemini_file_bot.py:160-170 | the reply is that of the first key, in table order, occurring in the lower-cased message, and the default reply when none occurs |
| Canned.CaseInsensitive | gemini_file_bot.py:161 | the reply does not depend on the message's letter case |
| Canned.ClearKeyAt | gemini_file_bot.py:29-36 | only the last entry of the table has the key `clear` |
| Canned.GoodbyeAnywhere | gemini_file_bot.py:161-169 | "goodbye" in any case and anywhere in the message selects the goodbye reply when "hello" and "how are you" do not occur |
| Canned.ClearSelected | gemini_file_bot.py:162-169 | `clear` with none of the five earlier keys selects the clearing entry and its reply |
| Session.ChatSession.constructor | gemini_file_bot.py:286 | a new session has no history yet |
| Session.ChatSession.HandleInput | gemini_file_bot.py:286-313 | the history is seeded with the greeting on first use; a submitted message then appends exactly the user's message and the reply generated from the prompt over the whole transcript and the documents |
| Session.ChatSession.Respond | gemini_file_bot.py:160-170 | the loop returns the canned reply; a rerun is requested and the history reset to the single clearing message exactly when `clear` is the first match and a history exists; otherwise the history is unchanged |
| Session.TurnAppendsTwo | gemini_file_bot.py:305-313 | a turn with a message keeps the earlier history as a prefix and adds exactly a user message and then one bot message |
| Session.TurnTranscript | gemini_file_bot.py:305-309 | the transcript sent with a turn ends with the user's new message as its last line |
| Session.SessionTurnTranscript | gemini_file_bot.py:286-309 | in every state a turn can start from (the history, once created, is never empty), the transcript sent ends with the user's new message as its last line |
| Session.TurnPromptContext | gemini_file_bot.py:306-311 | the turn's prompt holds the transcript, the document content and the tables, in that order |
| Session.TurnPromptQuery | gemini_file_bot.py:307-308 | the turn's prompt ends with the directives and then the user's message |
| Session.UploadGuardRedundant | gemini_file_bot.py:306 | skipping the document pipeline when nothing is uploaded gives the same result as running it on no files |

## Left out

- **User interface.** The CSS and layout (lines 174-284), the history display,
  `st.error`, `st.markdown`, the streaming placeholder with its cursor, the file
  uploader and the chat input are presentation only. The submitted message is a
  parameter, with `""` standing for no submission.
- **Format readers.** The internals of PyPDF2, python-docx, pandas and UTF-8
  decoding are not modelled. Each reader is an arbitrary total function, since each
  catches its own errors.
- **Read failures.** A file whose `read()` raises is a file with no body. Those are
  the only failures the loop in `process_documents_gemini` can see.
- **Table layout.** The `tabulate` grid layout is not modelled. Only the rows handed
  to it, and whether the call raises, are.
- **Generation service.** The configuration and the network calls of
  `google.generativeai` are not modelled. An error raised part-way through a stream
  discards the partial text, just as one raised at the call does, so the service
  gives one outcome per attempt.
- **Environment.** Logging, `load_dotenv` and the wall-clock effect of
  `time.sleep` are not modelled. The delays are recorded instead.
- **Rerun.** `st.rerun()` in the `clear` branch restarts the script. It is modelled
  as the `rerun` flag returned by `Session.ChatSession.Respond`, next to the reply
  that the code would return were the rerun not to interrupt it.
- **Unreachable code.** `main` never calls `generate_response`. Its two identical
  definitions (lines 160-170 and 316-326) are modelled once, as
  `Session.ChatSession.Respond`.
- Text.Lower: lower-cases ASCII letters only, where Python's `lower()` follows
  full Unicode case mapping. The keys are ASCII, but a non-ASCII character that
  Python lower-cases to an ASCII letter (such as the Kelvin sign) is not mapped.
  The length and concatenation facts (`Text.Lower`, `Text.LowerAppend`) hold of this
  ASCII mapping only: Python's full mapping can change the length (`"İ"` lower-cases
  to two code points) and is context dependent (the final sigma). Key matching is not
  affected: the only non-ASCII characters Python lower-cases to ASCII letters give
  `i` and `k`, and no key contains either letter.
- **Loop exits.** The Python retry loop can also end by running past its last
  attempt and returning `None`. That path cannot occur, because the third rate limit
  returns, so it is not modelled.
