/**
 * The state of the book page (src/components/BookPage.jsx) and its event
 * handlers. React's state setters become assignments to the fields of one
 * object, done in program order; the requests the handlers send are oracle
 * parameters.
 */
module Book {
  import opened Wrappers
  import opened Framing
  import opened Chapters
  import opened Streaming
  import opened Pagination

  const QuestionErrorMessage: string :=
    "An error occurred while processing your question. Please try again."
  const AddInfoErrorMessage: string :=
    "An error occurred while adding your information. Please try again."

  /** The reply to POST /ask_question: the `answer` field, or a failed request. */
  datatype QuestionReply = Answered(answer: string) | QuestionFailed

  class BookPage {
    var chapters: seq<Chapter>
    var currentChapterIndex: nat
    var isProcessing: bool
    var error: Option<string>
    var audioUrl: Option<string>
    var isQuestionModalOpen: bool
    var question: string
    var answer: string
    var isInfoModalOpen: bool
    var additionalInfo: string

    /** Records have distinct names and the current index is in range. */
    ghost predicate Valid()
      reads this
    {
      IndexOk(currentChapterIndex, |chapters|) && NamesDistinct(chapters)
    }

    /** The fields the stream reader writes. */
    function CurrentFeed(): (feed: Feed)
      reads this
      ensures feed.chapters == chapters && feed.isProcessing == isProcessing && feed.audioUrl == audioUrl
    {
      Feed(chapters, isProcessing, audioUrl)
    }

    /** The `useState` initial values. */
    constructor ()
      ensures Valid()
      ensures chapters == [] && currentChapterIndex == 0 && isProcessing && error == None
      ensures audioUrl == None && !isQuestionModalOpen && question == "" && answer == ""
      ensures !isInfoModalOpen && additionalInfo == ""
    {
      chapters := [];
      currentChapterIndex := 0;
      isProcessing := true;
      error := None;
      audioUrl := None;
      isQuestionModalOpen := false;
      question := "";
      answer := "";
      isInfoModalOpen := false;
      additionalInfo := "";
    }

    /**
     * `chapters[currentChapterIndex]`, or nothing (`renderChapterContent`
     * returns null): while the invariant holds, a chapter is shown exactly
     * when the list is not empty.
     */
    function CurrentChapter(): (c: Option<Chapter>)
      reads this
      ensures c.Some? <==> currentChapterIndex < |chapters|
      ensures c.Some? ==> c.value == chapters[currentChapterIndex]
      ensures Valid() ==> (c.Some? <==> |chapters| > 0)
    {
      if currentChapterIndex < |chapters| then Some(chapters[currentChapterIndex]) else None
    }

    /** `updateChapters(data)`. */
    method UpdateChapters(f: Fragment)
      requires Valid()
      modifies this`chapters, this`audioUrl
      ensures Valid()
      ensures CurrentFeed() == Streaming.UpdateChapters(old(CurrentFeed()), f)
    {
      FoldKeepsDistinct(chapters, f);
      chapters := Fold(chapters, f);
      if Truthy(f.audioUrl) {
        audioUrl := f.audioUrl;
      }
    }

    /**
     * The `for (const line of lines)` loop over one batch of frames;
     * `threw` says that `JSON.parse` threw.
     */
    method HandleFrames(lines: seq<string>, parse: string -> Option<Payload>) returns (threw: bool)
      requires Valid()
      modifies this`chapters, this`audioUrl, this`isProcessing
      ensures Valid()
      ensures CurrentFeed() == FoldFrames(old(CurrentFeed()), lines, parse).feed
      ensures threw == FoldFrames(old(CurrentFeed()), lines, parse).Threw?
    {
      ghost var start := CurrentFeed();
      var j := 0;
      while j < |lines|
        invariant j <= |lines|
        invariant Valid()
        invariant FoldFrames(start, lines, parse) == FoldFrames(CurrentFeed(), lines[j..], parse)
      {
        var line := lines[j];
        assert lines[j..][1..] == lines[j + 1..];
        if IsDataFrame(line) {
          match parse(DataOf(line))
          case None =>
            return true;
          case Some(Done) =>
            isProcessing := false;
            return false;
          case Some(Data(f)) =>
            UpdateChapters(f);
        }
        j := j + 1;
      }
      return false;
    }

    /**
     * One turn of the read loop: append the chunk to the buffer, split the
     * text on "\n\n", keep the last piece as the new buffer (`lines.pop()`)
     * and handle the complete frames.
     */
    method ReadChunk(buffer: string, chunk: string, parse: string -> Option<Payload>)
      returns (rest: string, threw: bool)
      requires Valid()
      modifies this`chapters, this`audioUrl, this`isProcessing
      ensures Valid()
      ensures rest == SplitFrames(buffer + chunk).1
      ensures CurrentFeed() == FoldFrames(old(CurrentFeed()), SplitFrames(buffer + chunk).0, parse).feed
      ensures threw == FoldFrames(old(CurrentFeed()), SplitFrames(buffer + chunk).0, parse).Threw?
    {
      var text := buffer + chunk;
      var lines := Split(text);
      rest := lines[|lines| - 1];
      lines := lines[..|lines| - 1];
      threw := HandleFrames(lines, parse);
    }

    /**
     * The `while (true)` read loop of `fetchAndStreamChapters`, from an
     * empty buffer; `threw` says that a parse error or a failed read left it
     * by an exception.
     */
    method ReadLoop(chunks: seq<string>, ending: Ending, parse: string -> Option<Payload>)
      returns (threw: bool)
      requires Valid()
      modifies this`chapters, this`audioUrl, this`isProcessing
      ensures Valid()
      ensures CurrentFeed() == ReadAll(old(CurrentFeed()), "", chunks, ending, parse).feed
      ensures threw == ReadAll(old(CurrentFeed()), "", chunks, ending, parse).Threw?
    {
      ghost var outcome := ReadAll(CurrentFeed(), "", chunks, ending, parse);
      var buffer := "";
      var i := 0;
      while i < |chunks|
        invariant i <= |chunks|
        invariant Valid()
        invariant outcome == ReadAll(CurrentFeed(), buffer, chunks[i..], ending, parse)
      {
        var chunk := chunks[i];
        assert chunks[i..] == [chunk] + chunks[i + 1..];
        ReadAllStep(CurrentFeed(), buffer, chunk, chunks[i + 1..], ending, parse);
        buffer, threw := ReadChunk(buffer, chunk, parse);
        if threw {
          return;
        }
        i := i + 1;
      }
      threw := ending == Broken;
    }

    /**
     * `fetchAndStreamChapters`: a non-ok response or a throw inside the read
     * loop sets the error message and clears `isProcessing`. The chapter
     * list is never cleared, so a restart merges into the old list.
     */
    method FetchAndStreamChapters(response: Response, parse: string -> Option<Payload>)
      requires Valid()
      modifies this`chapters, this`audioUrl, this`isProcessing, this`error
      ensures Valid()
      ensures Names(old(chapters)) <= Names(chapters)
      ensures var o := Stream(old(CurrentFeed()), response, parse);
        if o.Finished? then CurrentFeed() == o.feed && error == old(error)
        else (chapters == o.feed.chapters && audioUrl == o.feed.audioUrl &&
              !isProcessing && error == Some(StreamErrorMessage))
    {
      var threw := true;
      if response.ok {
        threw := ReadLoop(response.chunks, response.ending, parse);
      }
      if threw {
        error := Some(StreamErrorMessage);
        isProcessing := false;
      }
    }

    /** `handlePrevious`. */
    method HandlePrevious()
      requires Valid()
      modifies this`currentChapterIndex
      ensures Valid()
      ensures currentChapterIndex == Previous(old(currentChapterIndex))
    {
      if currentChapterIndex > 0 {
        currentChapterIndex := currentChapterIndex - 1;
      }
    }

    /** `handleNext`. */
    method HandleNext()
      requires Valid()
      modifies this`currentChapterIndex
      ensures Valid()
      ensures currentChapterIndex == Next(old(currentChapterIndex), |chapters|)
    {
      if currentChapterIndex < |chapters| - 1 {
        currentChapterIndex := currentChapterIndex + 1;
      }
    }

    /**
     * `handleAskQuestion`: the modal opens once the POST /stop_streaming
     * request has resolved; when that fetch rejects, the handler stops and
     * the modal stays closed.
     */
    method HandleAskQuestion(stopFulfilled: bool)
      requires Valid()
      modifies this`isQuestionModalOpen
      ensures Valid()
      ensures isQuestionModalOpen == (old(isQuestionModalOpen) || stopFulfilled)
    {
      if stopFulfilled {
        isQuestionModalOpen := true;
      }
    }

    /** The question input's `onChange`. */
    method SetQuestion(text: string)
      requires Valid()
      modifies this`question
      ensures Valid()
      ensures question == text
    {
      question := text;
    }

    /**
     * `handleSubmitQuestion`: shows the returned answer, or a message when
     * the request fails; the chapter state is not touched.
     */
    method HandleSubmitQuestion(reply: QuestionReply)
      requires Valid()
      modifies this`answer
      ensures Valid()
      ensures reply.Answered? ==> answer == reply.answer
      ensures reply.QuestionFailed? ==> answer == QuestionErrorMessage
    {
      match reply
      case Answered(a) => answer := a;
      case QuestionFailed => answer := QuestionErrorMessage;
    }

    /**
     * `handleCloseQuestionModal`: close and clear the modal, then restart
     * the stream. The restart keeps the chapter list, the current index,
     * `isProcessing` and any earlier error: it merges into the old records.
     */
    method HandleCloseQuestionModal(response: Response, parse: string -> Option<Payload>)
      requires Valid()
      modifies this`isQuestionModalOpen, this`question, this`answer
      modifies this`chapters, this`audioUrl, this`isProcessing, this`error
      ensures Valid()
      ensures !isQuestionModalOpen && question == "" && answer == ""
      ensures Names(old(chapters)) <= Names(chapters)
      ensures Stream(old(CurrentFeed()), response, parse).Finished? ==>
        CurrentFeed() == Stream(old(CurrentFeed()), response, parse).feed && error == old(error)
      ensures Stream(old(CurrentFeed()), response, parse).Threw? ==>
        chapters == Stream(old(CurrentFeed()), response, parse).feed.chapters &&
        audioUrl == Stream(old(CurrentFeed()), response, parse).feed.audioUrl &&
        !isProcessing && error == Some(StreamErrorMessage)
    {
      isQuestionModalOpen := false;
      question := "";
      answer := "";
      FetchAndStreamChapters(response, parse);
    }

    /** `handleAddInfo`: like `handleAskQuestion`, for the info modal. */
    method HandleAddInfo(stopFulfilled: bool)
      requires Valid()
      modifies this`isInfoModalOpen
      ensures Valid()
      ensures isInfoModalOpen == (old(isInfoModalOpen) || stopFulfilled)
    {
      if stopFulfilled {
        isInfoModalOpen := true;
      }
    }

    /** The addendum textarea's `onChange`. */
    method SetAdditionalInfo(text: string)
      requires Valid()
      modifies this`additionalInfo
      ensures Valid()
      ensures additionalInfo == text
    {
      additionalInfo := text;
    }

    /**
     * `handleCloseInfoModal`: close the modal and POST /addinfo. The status
     * is not checked: once the request settles the input is cleared and the
     * stream restarts; a rejected request only sets the error message.
     */
    method HandleCloseInfoModal(addInfoFulfilled: bool, response: Response,
                                parse: string -> Option<Payload>)
      requires Valid()
      modifies this`isInfoModalOpen, this`additionalInfo
      modifies this`chapters, this`audioUrl, this`isProcessing, this`error
      ensures Valid()
      ensures !isInfoModalOpen
      ensures Names(old(chapters)) <= Names(chapters)
      ensures !addInfoFulfilled ==>
        additionalInfo == old(additionalInfo) && CurrentFeed() == old(CurrentFeed()) &&
        error == Some(AddInfoErrorMessage)
      ensures addInfoFulfilled ==> additionalInfo == ""
      ensures addInfoFulfilled && Stream(old(CurrentFeed()), response, parse).Finished? ==>
        CurrentFeed() == Stream(old(CurrentFeed()), response, parse).feed && error == old(error)
      ensures addInfoFulfilled && Stream(old(CurrentFeed()), response, parse).Threw? ==>
        chapters == Stream(old(CurrentFeed()), response, parse).feed.chapters &&
        audioUrl == Stream(old(CurrentFeed()), response, parse).feed.audioUrl &&
        !isProcessing && error == Some(StreamErrorMessage)
    {
      isInfoModalOpen := false;
      if addInfoFulfilled {
        additionalInfo := "";
        FetchAndStreamChapters(response, parse);
      } else {
        error := Some(AddInfoErrorMessage);
      }
    }

    /** The info modal's Cancel button. */
    method CancelInfoModal()
      requires Valid()
      modifies this`isInfoModalOpen
      ensures Valid()
      ensures !isInfoModalOpen
    {
      isInfoModalOpen := false;
    }
  }
}
