# Personalised book reader — a Dafny model of its front-end logic

The application is a React front end. An intake page (`StartPage`) collects
answers to three questions. A book page (`BookPage`) then reads a stream of
chapter fragments from a backend and folds them into an ordered list of
chapter records, one record per chapter name. The book page shows one chapter
at a time and has two modals: one asks a question, the other sends extra
information. Closing either modal restarts the chapter stream.

This project models and proves properties of three pieces of that logic:

- **The chapter stream reader** (`fetchAndStreamChapters` and `updateChapters`
  in `src/components/BookPage.jsx`).
  - A text buffer grows by each chunk the reader delivers.
  - The buffer is split on `"\n\n"` with JavaScript's `String.prototype.split`.
    The last piece becomes the new buffer.
  - Every complete frame that starts with `"data: "` is decoded from index 6 on.
  - A decoded payload is either the `done` sentinel or a fragment. A fragment
    is folded into the chapter list by name.
  - This is the `data:` field framing of the Server-Sent Events format
    (section 9.2 of the HTML Living Standard), without the other fields.
- **Pagination and the modals of the book page.**
  - The current chapter index moves within a list that only grows.
  - The modals open once the stop request has resolved.
  - Closing a modal restarts the stream.
- **The intake transcript** (`handleSubmit` in `src/components/StartPage.jsx`).
  - Each submission appends the answer.
  - While the transcript is shorter than six entries, the submission asks the
    backend for the next question, with `questionNumber = floor(length / 2)`.
  - Otherwise the page navigates with the `{q1, a1, q2, a2, q3, a3}` record.

## How the model is built

Files and what each holds:

- `Wrappers.dfy`: the `Option` type.
- `Framing.dfy`: splitting the buffer into frames.
- `Chapters.dfy`: the chapter reducer.
- `Streaming.dfy`: the read loop as functions of the received text.
- `Pagination.dfy`: the index guards.
- `BookPage.dfy`: the book page as a class.
- `StartPage.dfy`: the intake page as pure steps plus a class.
- `StreamExamples.dfy`: concrete runs of the reader.

The book page and the intake page are classes whose fields are the React
state, and their handlers are methods.

- A state setter becomes an assignment, made in program order.
- Each method is proved against a specification function on values:
  - `BookPage.FetchAndStreamChapters` against `Streaming.Stream`;
  - `BookPage.ReadLoop` against `Streaming.ReadAll`;
  - `BookPage.HandleFrames` against `Streaming.FoldFrames`;
  - `StartPage.HandleSubmit` against `Intake.Submit`.
- The book page's `modifies` clauses name individual fields, so each of its
  handlers also states which state it leaves alone. `StartPage.HandleSubmit`
  may modify the whole object; its `ensures` gives the whole new state
  instead.

Everything outside the browser tab enters as a parameter:

- **The stream response** is a `Response` with these parts:
  - whether the fetch succeeded with an ok status;
  - the sequence of already-decoded text chunks;
  - how the reads end: the reader reports `done`, or a read rejects.
- **`JSON.parse`** is a function parameter `parse`. Its `None` stands for a
  thrown parse error.
- **The other requests** are their outcomes:
  - whether the `/stop_streaming` and `/addinfo` fetches resolved or rejected;
  - the reply to `/ask_question`;
  - the reply to `/asknextquestion`.

### Behaviour of the code as written

The model follows the code, including where a reader of the page would
expect something else. Each point below says what one would expect and what
the code does.

- **The first fragment of a chapter is not recorded.** One would expect
  every fragment's text to be kept and counted. A record for an unseen name
  starts with empty `chunks` and `audio_urls`, so that fragment's text
  and audio never reach the lists.
  - `parts` is copied from the fragment (normally absent), then counts only the
    later fragments.
  - Three fragments `x`, `y` and audio `/a1.mp3` therefore give chunks `["y"]`
    and `parts == 2`, not `["x", "y"]` and `3`
    (`StreamExamples.ThreeFragmentsAsWritten`).
  - Two fragments with text on the first give no text and `parts == 1`
    (`StreamExamples.TwoFragmentsAsWritten`).
- **A restart does not replace the chapter list.** It merges into it, and it
  keeps `isProcessing` and any earlier error. See the `Names(old(chapters)) <=
  Names(chapters)` clause of `Book.BookPage.HandleCloseQuestionModal`.
- **Stopping the stream is not best-effort.** If the `/stop_streaming` fetch
  rejects, the handler throws before the modal opens.
- **`done` ends only the current batch.** The `break` after `done` leaves the
  loop over the current read's frames, not the read loop. A fragment arriving
  in a later read is still folded
  (`StreamExamples.DoneInEarlierReadDoesNotStopLaterOnes`).
- **The split is leftmost, not "after the last separator".** JavaScript's
  split cuts at the leftmost non-overlapping occurrences. The new buffer is the
  last piece of that split, which is not always the text after the last
  `"\n\n"`: `"a\n\n\n"` gives frames `["a"]` and buffer `"\n"`.
  `Framing.SplitSpec` and `Framing.SplitUnique` state the split exactly.

## Model

| member | source | states |
|---|---|---|
| Framing.IndexOfSeparator | src/components/BookPage.jsx:52 | the result is the leftmost occurrence of "\n\n" at or after the start position, or -1 exactly when there is none |
| Framing.Split | src/components/BookPage.jsx:52 | always at least one piece, as JavaScript's split of a string gives; what the pieces are is stated by SplitSpec and SplitUnique |
| Framing.SplitSpec | src/components/BookPage.jsx:52 | the pieces of the split join back to the text with "\n\n"; no piece contains "\n\n"; no piece but the last ends with a newline |
| Framing.SplitUnique | src/components/BookPage.jsx:52 | any cut of the text with those three properties is the split: they determine it |
| Framing.SplitFrames | src/components/BookPage.jsx:52-53 | the complete frames followed by the new buffer are exactly the pieces of the split: the last piece is popped off as the buffer |
| Framing.SplitFramesSpec | src/components/BookPage.jsx:51-53 | after a read the new buffer holds no "\n\n" and is a suffix of buffer + chunk; the complete frames hold no "\n\n"; frames joined by "\n\n", then "\n\n" and the buffer, rebuild buffer + chunk exactly |
| Framing.SplitExtends | src/components/BookPage.jsx:46-53 | splitting a longer text gives the frames of the shorter one, then the pieces of its leftover followed by the new text |
| Framing.SplitFramesExtends | src/components/BookPage.jsx:51-53 | a later read never moves the frames an earlier read completed |
| Framing.SplitFramesJoined | src/components/BookPage.jsx:51-53 | reading two chunks at once completes the frames of both reads, in order, and leaves the same buffer |
| Framing.DataOf | src/components/BookPage.jsx:56-57 | the decoded JSON text is the frame with its "data: " prefix removed |
| Chapters.FindIndex | src/components/BookPage.jsx:77-79 | the result is the first record with the name, or -1 exactly when no record has it |
| Chapters.NewChapter | src/components/BookPage.jsx:81 | a new record has the fragment's name, empty chunk and audio lists, and the fragment's parts and total_parts |
| Chapters.AddFragment | src/components/BookPage.jsx:84-94 | text and audio are appended only when truthy; parts becomes (parts or 0) + 1; total_parts is overwritten |
| Chapters.Fold | src/components/BookPage.jsx:75-98 | an unseen name appends exactly one fresh record at the end and changes no earlier record; a known name updates the first record with that name in place; the name list grows by the name exactly when it was unseen |
| Chapters.FoldKeepsDistinct | src/components/BookPage.jsx:77-81 | folding never creates a second record with an existing name |
| Chapters.FoldKnownName | src/components/BookPage.jsx:82-96 | with distinct names, a known name changes only its own record and every other record stays as it was |
| Chapters.FoldAll | src/components/BookPage.jsx:75-98 | records are never removed or reordered: the old names are a prefix of the new ones |
| Chapters.FoldAllFirstSeenOrder | src/components/BookPage.jsx:77-81 | records appear in the order in which their names were first seen |
| Chapters.FoldOneChapter | src/components/BookPage.jsx:81-94 | n fragments for one name build one record: parts is n - 1 (absent when n = 1), the text and audio lists hold the truthy values of fragments 2..n only, and total_parts is the last one |
| Streaming.UpdateChapters | src/components/BookPage.jsx:75-104 | the list is folded; a truthy audio reference becomes the active one whichever chapter it belongs to, and otherwise the active one is kept |
| Streaming.FoldFrames | src/components/BookPage.jsx:55-64 | handling a batch never removes records and can only clear isProcessing, never set it |
| Streaming.ReadAll | src/components/BookPage.jsx:46-65 | the read loop never removes records and can only clear isProcessing |
| Streaming.Stream | src/components/BookPage.jsx:31-65 | a non-ok response throws before any state changes; an ok one is the read loop over its chunks from an empty buffer |
| Streaming.FoldFramesIsFoldAll | src/components/BookPage.jsx:55-64 | a batch without done or parse errors folds the fragments it decodes in arrival order, keeps isProcessing, and leaves the latest truthy audio reference active |
| Streaming.DoneEndsBatch | src/components/BookPage.jsx:58-61 | a done payload clears isProcessing, adds no record, and skips every later frame of its batch |
| Streaming.ParseErrorEndsBatch | src/components/BookPage.jsx:55-72 | a frame whose JSON fails to parse throws with the state reached after the frames before it, so the records folded so far are kept and nothing later in the batch is read |
| Streaming.FoldFramesAppend | src/components/BookPage.jsx:55-64 | handling two batches in a row, when the first has no done and no parse error, is handling their concatenation |
| Streaming.ReadAllStep | src/components/BookPage.jsx:47-65 | one turn of the read loop: fold the frames completed by the chunk, then continue with the leftover buffer unless something threw |
| Streaming.RechunkingPreservesOutcome | src/components/BookPage.jsx:46-65 | where the transport cuts the text does not matter: two chunks give the same outcome as their concatenation when the first completes no done and no bad frame |
| Pagination.Previous | src/components/BookPage.jsx:106-110 | steps back by exactly one, and is a no-op exactly at index 0; the index stays valid for every list length |
| Pagination.Next | src/components/BookPage.jsx:112-116 | steps forward by one exactly when a later chapter exists (never on an empty list); a valid index stays valid and an index in range stays in range |
| Book.BookPage.constructor | src/components/BookPage.jsx:7-16 | the initial state: no chapters, index 0, processing, no error, no audio, both modals closed and their inputs empty |
| Book.BookPage.CurrentChapter | src/components/BookPage.jsx:179-180 | a chapter is shown exactly when the index is in range, and it is the record at the current index; under the invariant, exactly when the list is not empty |
| Book.BookPage.UpdateChapters | src/components/BookPage.jsx:75-104 | the fields written are exactly those of the fold step; names stay distinct and the index stays valid |
| Book.BookPage.HandleFrames | src/components/BookPage.jsx:55-64 | the loop over a batch leaves the state given by FoldFrames and reports a parse error exactly when FoldFrames throws |
| Book.BookPage.ReadChunk | src/components/BookPage.jsx:51-64 | one read: the new buffer is the leftover of the split of buffer + chunk, and its complete frames are handled as FoldFrames says |
| Book.BookPage.ReadLoop | src/components/BookPage.jsx:46-65 | the read loop leaves the state given by ReadAll and throws exactly when ReadAll does |
| Book.BookPage.FetchAndStreamChapters | src/components/BookPage.jsx:31-73 | a normal finish leaves the state given by Stream and the error untouched; a throw keeps the chapters and audio reached so far, clears isProcessing and sets the stream error message; records are never removed |
| Book.BookPage.HandlePrevious | src/components/BookPage.jsx:106-110 | the index becomes Previous of the old one; the invariant is kept and nothing else changes |
| Book.BookPage.HandleNext | src/components/BookPage.jsx:112-116 | the index becomes Next of the old one for the current list length; the invariant is kept |
| Book.BookPage.HandleAskQuestion | src/components/BookPage.jsx:118-123 | the question modal opens exactly when the stop request resolved; a rejected one leaves it as it was |
| Book.BookPage.SetQuestion | src/components/BookPage.jsx:265 | the question input takes the typed text |
| Book.BookPage.HandleSubmitQuestion | src/components/BookPage.jsx:132-152 | the answer shown is the returned answer, or the question error message when the request fails; only the answer changes |
| Book.BookPage.HandleCloseQuestionModal | src/components/BookPage.jsx:125-130 | the modal is closed and its question and answer cleared, then the stream restarts and merges into the existing records; when the restart throws, the chapters and active audio reached are kept, isProcessing is cleared and the stream error is set |
| Book.BookPage.HandleAddInfo | src/components/BookPage.jsx:154-159 | the info modal opens exactly when the stop request resolved; a rejected one leaves it as it was |
| Book.BookPage.SetAdditionalInfo | src/components/BookPage.jsx:305 | the addendum input takes the typed text |
| Book.BookPage.HandleCloseInfoModal | src/components/BookPage.jsx:161-177 | the modal closes; a rejected /addinfo request only sets the add-info error and keeps the input and the chapters; otherwise the input is cleared and the stream restarts as in FetchAndStreamChapters |
| Book.BookPage.CancelInfoModal | src/components/BookPage.jsx:319 | the info modal closes and nothing else changes |
| Intake.Submit | src/components/StartPage.jsx:25-75 | blank input changes nothing; otherwise the untrimmed answer is appended and the input cleared; a request with questionNumber floor(length / 2) goes out exactly while the transcript is shorter than six; success appends exactly the returned question; failure sets the error and appends nothing more; at six entries the page navigates with the projected answers |
| Intake.QuestionNumberCountsAnswers | src/components/StartPage.jsx:39-46 | on an alternating transcript the questionNumber sent is the number of answers given so far |
| Intake.SuccessKeepsAlternation | src/components/StartPage.jsx:31-54 | a successful submission keeps the transcript alternating question and answer, and grows it by two |
| Intake.HappyPath | src/components/StartPage.jsx:5-67 | from the initial question with every request succeeding, requests go out with question numbers 1 and 2, the third answer navigates, and the transcript alternates |
| Intake.RetryAfterFailureShiftsTranscript | src/components/StartPage.jsx:31-67 | after a failed request a retry is sent as question number 1 again, and the navigation record carries an answer in q2 |
| Intake.StartPage.constructor | src/components/StartPage.jsx:5-14 | the transcript starts with the single greeting question, empty input, not waiting, no error |
| Intake.StartPage.HandleInputChange | src/components/StartPage.jsx:21-23 | only the input changes, to the typed text |
| Intake.StartPage.HandleSubmit | src/components/StartPage.jsx:25-75 | the handler's state changes and the request it sends are exactly those of Submit |
| StreamExamples.DoneSkipsRestOfRead | src/components/BookPage.jsx:55-61 | a fragment after done in the same read is not folded |
| StreamExamples.DoneInEarlierReadDoesNotStopLaterOnes | src/components/BookPage.jsx:47-65 | a fragment in a read after the one holding done is still folded |
| StreamExamples.UnterminatedFrameIsDropped | src/components/BookPage.jsx:47-53 | a frame without its closing "\n\n" when the reader reports done is never parsed |
| StreamExamples.TwoFragmentsAsWritten | src/components/BookPage.jsx:80-93 | text on the first of two fragments is lost, and parts is 1 |
| StreamExamples.ThreeFragmentsAsWritten | src/components/BookPage.jsx:55-103 | fragments x, y and audio /a1.mp3, then done, give chunks ["y"], audio ["/a1.mp3"], parts 2, the active audio /a1.mp3, and processing ended |

## Left out

- Network requests are not modelled as I/O. The requests to the backend (`/stream_chapters`, `/stop_streaming`, `/ask_question`, `/addinfo`, `/asknextquestion`) are oracle parameters. HTTP status codes and message bodies beyond the fields used are not represented.
- `JSON.parse` and `TextDecoder` are foreign calls. Parsing is the parameter `parse`, and chunks arrive as already-decoded text. Multi-byte characters split across chunks are not modelled.
- Fields of a payload other than `name`, `content`, `audio_url`, `total_parts`, `parts` and `done` are not modelled. The spread on a new record also copies `content`, `audio_url` and other fields, which nothing reads again.
- The audio element is browser media I/O, so it is left out. This covers `play`, `src` assignment, and the prefixing of audio paths with the backend origin. Only the active audio reference is modelled.
- The progress percentage is left out. It is a floating-point division with no guard against a zero or absent total, so it yields NaN or Infinity.
- Overlapping streams are left out. A restart does not cancel the earlier reader, so two read loops can fold into the same list at once. That is interleaving, and each method here runs to completion.
- Aliasing of chapter records is left out. `updateChapters` mutates the found record object in place, and that object is shared with the previous state array. Records are values here, so the earlier array does not see the change.
- React rendering, JSX markup, `useEffect` scheduling and the batching of state updates are left out. Setters are assignments in program order.
- The commented-out earlier implementation at the end of `BookPage.jsx` and the routing in `App.jsx` are not part of this model.
- Intake.StartPage.HandleSubmit: states only the final state. The `isWaiting == true` state while the request is in flight cannot be observed in a sequential model, so only `isWaiting == false` afterwards is stated.
- Intake.Submit: a non-ok status and a rejected fetch are one outcome, `RequestFailed`, because the code handles them identically.
- Streaming.Stream: a non-ok status and a rejected stream fetch are one outcome, `ok == false`, for the same reason.
