/**
 * The read loop of `fetchAndStreamChapters` (src/components/BookPage.jsx)
 * as functions of the stream's text. The network is an oracle: a response
 * is either not ok (a non-success status or a rejected fetch) or a finite
 * sequence of already-decoded text chunks followed by either the reader's
 * `done` or a rejected read. `JSON.parse` is the parameter `parse`, whose
 * `None` stands for a thrown parse error.
 */
module Streaming {
  import opened Wrappers
  import opened Framing
  import opened Chapters

  const StreamErrorMessage: string :=
    "An error occurred while processing your personalized chapters. Please try again."

  /** The part of the page state that the reader writes. */
  datatype Feed = Feed(chapters: seq<Chapter>, isProcessing: bool, audioUrl: Option<string>)

  /** How the reads end: the reader reports `done`, or a read rejects. */
  datatype Ending = Closed | Broken

  /** The response to POST /stream_chapters. */
  datatype Response = Response(ok: bool, chunks: seq<string>, ending: Ending)

  /** The state when the loop left normally, or when something threw. */
  datatype Outcome = Finished(feed: Feed) | Threw(feed: Feed)

  /**
   * `updateChapters(data)`: fold the fragment into the list and, when its
   * audio reference is truthy, make it the active one, whichever chapter it
   * belongs to.
   */
  function UpdateChapters(feed: Feed, f: Fragment): (g: Feed)
    ensures g.chapters == Fold(feed.chapters, f)
    ensures g.isProcessing == feed.isProcessing
    ensures Truthy(f.audioUrl) ==> g.audioUrl == f.audioUrl
    ensures !Truthy(f.audioUrl) ==> g.audioUrl == feed.audioUrl
  {
    feed.(chapters := Fold(feed.chapters, f),
          audioUrl := if Truthy(f.audioUrl) then f.audioUrl else feed.audioUrl)
  }

  /**
   * The `for (const line of lines)` loop over one batch of complete frames:
   * frames without the "data: " prefix are skipped, a `done` payload clears
   * `isProcessing` and leaves the batch, and a parse error throws.
   */
  function FoldFrames(feed: Feed, frames: seq<string>, parse: string -> Option<Payload>): (r: Outcome)
    ensures Names(feed.chapters) <= Names(r.feed.chapters)
    ensures r.feed.isProcessing ==> feed.isProcessing
    decreases |frames|
  {
    if frames == [] then Finished(feed)
    else if !IsDataFrame(frames[0]) then FoldFrames(feed, frames[1..], parse)
    else match parse(DataOf(frames[0]))
      case None => Threw(feed)
      case Some(Done) => Finished(feed.(isProcessing := false))
      case Some(Data(f)) => FoldFrames(UpdateChapters(feed, f), frames[1..], parse)
  }

  /**
   * The `while (true)` loop from a given buffer: each chunk is appended to
   * the buffer, the complete frames are handled, and the incomplete rest
   * becomes the buffer. When the reader reports `done`, whatever is left in
   * the buffer is dropped without being parsed.
   */
  function ReadAll(feed: Feed, buffer: string, chunks: seq<string>, ending: Ending,
                   parse: string -> Option<Payload>): (r: Outcome)
    ensures Names(feed.chapters) <= Names(r.feed.chapters)
    ensures r.feed.isProcessing ==> feed.isProcessing
    decreases |chunks|
  {
    if chunks == [] then
      if ending == Closed then Finished(feed) else Threw(feed)
    else
      var split := SplitFrames(buffer + chunks[0]);
      match FoldFrames(feed, split.0, parse)
      case Threw(g) => Threw(g)
      case Finished(g) => ReadAll(g, split.1, chunks[1..], ending, parse)
  }

  /** One whole call of `fetchAndStreamChapters`, before its `catch`. */
  function Stream(feed: Feed, response: Response, parse: string -> Option<Payload>): (r: Outcome)
    ensures !response.ok ==> r == Threw(feed)
    ensures response.ok ==> r == ReadAll(feed, "", response.chunks, response.ending, parse)
    ensures Names(feed.chapters) <= Names(r.feed.chapters)
    ensures r.feed.isProcessing ==> feed.isProcessing
  {
    if !response.ok then Threw(feed)
    else ReadAll(feed, "", response.chunks, response.ending, parse)
  }

  /** Every data frame of the batch decodes to a chapter fragment. */
  predicate AllFragments(frames: seq<string>, parse: string -> Option<Payload>)
  {
    forall k :: 0 <= k < |frames| && IsDataFrame(frames[k]) ==>
      parse(DataOf(frames[k])).Some? && parse(DataOf(frames[k])).value.Data?
  }

  lemma AllFragmentsTail(frames: seq<string>, parse: string -> Option<Payload>)
    requires frames != [] && AllFragments(frames, parse)
    ensures AllFragments(frames[1..], parse)
  {
    var tail := frames[1..];
    forall m | 0 <= m < |tail| && IsDataFrame(tail[m])
      ensures parse(DataOf(tail[m])).Some? && parse(DataOf(tail[m])).value.Data?
    {
      assert tail[m] == frames[m + 1];
    }
  }

  /** The fragments that the data frames of a batch decode to, in order. */
  function FragmentsOf(frames: seq<string>, parse: string -> Option<Payload>): seq<Fragment>
    decreases |frames|
  {
    if frames == [] then []
    else
      var here :=
        if IsDataFrame(frames[0]) && parse(DataOf(frames[0])).Some? && parse(DataOf(frames[0])).value.Data?
        then [parse(DataOf(frames[0])).value.fragment] else [];
      here + FragmentsOf(frames[1..], parse)
  }

  /**
   * A reference definition of the active audio reference: the most recent
   * truthy one among the fragments, or the earlier one when there is none.
   */
  function ActiveAudio(audio: Option<string>, fs: seq<Fragment>): Option<string>
    decreases |fs|
  {
    if fs == [] then audio
    else if Truthy(fs[|fs| - 1].audioUrl) then fs[|fs| - 1].audioUrl
    else ActiveAudio(audio, fs[..|fs| - 1])
  }

  lemma {:induction false} ActiveAudioCons(audio: Option<string>, f: Fragment, fs: seq<Fragment>)
    ensures ActiveAudio(audio, [f] + fs)
         == ActiveAudio(if Truthy(f.audioUrl) then f.audioUrl else audio, fs)
    decreases |fs|
  {
    if fs == [] {
      assert ([f] + fs)[..0] == [];
    } else {
      var n := |fs|;
      assert ([f] + fs)[..n] == [f] + fs[..n - 1];
      ActiveAudioCons(audio, f, fs[..n - 1]);
    }
  }

  /**
   * A batch without `done` and without parse errors folds the fragments it
   * decodes into the list in order, leaves `isProcessing` alone, and leaves
   * as active audio reference the most recent truthy one.
   */
  lemma {:induction false} FoldFramesIsFoldAll(feed: Feed, frames: seq<string>,
                                               parse: string -> Option<Payload>)
    requires AllFragments(frames, parse)
    ensures FoldFrames(feed, frames, parse)
         == Finished(Feed(FoldAll(feed.chapters, FragmentsOf(frames, parse)),
                          feed.isProcessing,
                          ActiveAudio(feed.audioUrl, FragmentsOf(frames, parse))))
    decreases |frames|
  {
    if frames != [] {
      AllFragmentsTail(frames, parse);
      var rest := FragmentsOf(frames[1..], parse);
      if !IsDataFrame(frames[0]) {
        assert FragmentsOf(frames, parse) == rest by {
          assert [] + rest == rest;
        }
        assert FoldFrames(feed, frames, parse) == FoldFrames(feed, frames[1..], parse);
        FoldFramesIsFoldAll(feed, frames[1..], parse);
      } else {
        var f := parse(DataOf(frames[0])).value.fragment;
        var g := UpdateChapters(feed, f);
        assert FragmentsOf(frames, parse) == [f] + rest;
        assert FoldFrames(feed, frames, parse) == FoldFrames(g, frames[1..], parse);
        FoldFramesIsFoldAll(g, frames[1..], parse);
        assert FoldAll(g.chapters, rest) == FoldAll(feed.chapters, [f] + rest) by {
          FoldAllCons(feed.chapters, f, rest);
        }
        assert ActiveAudio(g.audioUrl, rest) == ActiveAudio(feed.audioUrl, [f] + rest) by {
          ActiveAudioCons(feed.audioUrl, f, rest);
        }
      }
    }
  }

  /**
   * A `done` payload at frame k, after frames that all decode to fragments,
   * ends the batch: the state is that after the first k frames with
   * `isProcessing` cleared, it adds no record, and frames after k are
   * skipped whatever they hold.
   */
  lemma {:induction false} DoneEndsBatch(feed: Feed, frames: seq<string>, k: nat,
                                          parse: string -> Option<Payload>)
    requires k < |frames| && IsDataFrame(frames[k]) && parse(DataOf(frames[k])) == Some(Done)
    requires AllFragments(frames[..k], parse)
    ensures FoldFrames(feed, frames[..k], parse).Finished?
    ensures FoldFrames(feed, frames, parse)
         == Finished(FoldFrames(feed, frames[..k], parse).feed.(isProcessing := false))
    decreases k
  {
    if k > 0 {
      assert frames[..k][1..] == frames[1..][..k - 1];
      AllFragmentsTail(frames[..k], parse);
      assert frames[..k][0] == frames[0];
      if !IsDataFrame(frames[0]) {
        DoneEndsBatch(feed, frames[1..], k - 1, parse);
      } else {
        var f := parse(DataOf(frames[0])).value.fragment;
        DoneEndsBatch(UpdateChapters(feed, f), frames[1..], k - 1, parse);
      }
    }
  }

  /**
   * A frame that fails to parse at position k, after frames that all decode
   * to fragments, throws with the state reached after the first k frames:
   * what was folded before it is kept, and nothing after it is read.
   */
  lemma {:induction false} ParseErrorEndsBatch(feed: Feed, frames: seq<string>, k: nat,
                                               parse: string -> Option<Payload>)
    requires k < |frames| && IsDataFrame(frames[k]) && parse(DataOf(frames[k])) == None
    requires AllFragments(frames[..k], parse)
    ensures FoldFrames(feed, frames[..k], parse).Finished?
    ensures FoldFrames(feed, frames, parse) == Threw(FoldFrames(feed, frames[..k], parse).feed)
    decreases k
  {
    if k > 0 {
      assert frames[..k][1..] == frames[1..][..k - 1];
      AllFragmentsTail(frames[..k], parse);
      assert frames[..k][0] == frames[0];
      if !IsDataFrame(frames[0]) {
        ParseErrorEndsBatch(feed, frames[1..], k - 1, parse);
      } else {
        var f := parse(DataOf(frames[0])).value.fragment;
        ParseErrorEndsBatch(UpdateChapters(feed, f), frames[1..], k - 1, parse);
      }
    }
  }

  /** Handling two batches in a row when the first holds no `done` and no parse error. */
  lemma {:induction false} FoldFramesAppend(feed: Feed, p: seq<string>, q: seq<string>,
                                             parse: string -> Option<Payload>)
    requires AllFragments(p, parse)
    ensures FoldFrames(feed, p, parse).Finished?
    ensures FoldFrames(feed, p + q, parse) == FoldFrames(FoldFrames(feed, p, parse).feed, q, parse)
    decreases |p|
  {
    if p == [] {
      assert p + q == q;
    } else {
      assert (p + q)[1..] == p[1..] + q;
      assert (p + q)[0] == p[0];
      AllFragmentsTail(p, parse);
      if !IsDataFrame(p[0]) {
        FoldFramesAppend(feed, p[1..], q, parse);
      } else {
        var f := parse(DataOf(p[0])).value.fragment;
        FoldFramesAppend(UpdateChapters(feed, f), p[1..], q, parse);
      }
    }
  }

  /** One turn of the read loop, for a response with at least one more chunk. */
  lemma ReadAllStep(feed: Feed, buffer: string, c: string, rest: seq<string>,
                    ending: Ending, parse: string -> Option<Payload>)
    ensures ReadAll(feed, buffer, [c] + rest, ending, parse)
         == var o := FoldFrames(feed, SplitFrames(buffer + c).0, parse);
            if o.Threw? then o else ReadAll(o.feed, SplitFrames(buffer + c).1, rest, ending, parse)
  {
    assert ([c] + rest)[1..] == rest;
  }

  /** The read of a chunk made of two pieces, in terms of the frames each piece completes. */
  lemma {:induction false} ReadAllJoinedStep(feed: Feed, buffer: string, c1: string, c2: string,
                                             rest: seq<string>, ending: Ending,
                                             parse: string -> Option<Payload>)
    ensures
      var r1 := SplitFrames(buffer + c1).1;
      var o := FoldFrames(feed, SplitFrames(buffer + c1).0 + SplitFrames(r1 + c2).0, parse);
      ReadAll(feed, buffer, [c1 + c2] + rest, ending, parse)
        == if o.Threw? then o else ReadAll(o.feed, SplitFrames(r1 + c2).1, rest, ending, parse)
  {
    SplitFramesJoined(buffer, c1, c2);
    ReadAllStep(feed, buffer, c1 + c2, rest, ending, parse);
  }

  /**
   * Where the transport cuts the text does not matter, as long as the frames
   * completed by the first of two chunks hold no `done` and no parse error:
   * reading them as two chunks or as one gives the same outcome.
   */
  lemma {:induction false} RechunkingPreservesOutcome(
    feed: Feed, buffer: string, c1: string, c2: string, rest: seq<string>,
    ending: Ending, parse: string -> Option<Payload>)
    requires AllFragments(SplitFrames(buffer + c1).0, parse)
    ensures ReadAll(feed, buffer, [c1, c2] + rest, ending, parse)
         == ReadAll(feed, buffer, [c1 + c2] + rest, ending, parse)
  {
    var p, r1 := SplitFrames(buffer + c1).0, SplitFrames(buffer + c1).1;
    var q, r2 := SplitFrames(r1 + c2).0, SplitFrames(r1 + c2).1;
    var g := FoldFrames(feed, p, parse).feed;
    var o := FoldFrames(g, q, parse);
    var z := if o.Threw? then o else ReadAll(o.feed, r2, rest, ending, parse);
    assert FoldFrames(feed, p, parse) == Finished(g) && FoldFrames(feed, p + q, parse) == o by {
      FoldFramesAppend(feed, p, q, parse);
    }
    assert ReadAll(feed, buffer, [c1, c2] + rest, ending, parse) == ReadAll(g, r1, [c2] + rest, ending, parse) by {
      assert [c1, c2] + rest == [c1] + ([c2] + rest);
      ReadAllStep(feed, buffer, c1, [c2] + rest, ending, parse);
    }
    assert ReadAll(g, r1, [c2] + rest, ending, parse) == z by {
      ReadAllStep(g, r1, c2, rest, ending, parse);
    }
    assert ReadAll(feed, buffer, [c1 + c2] + rest, ending, parse) == z by {
      ReadAllJoinedStep(feed, buffer, c1, c2, rest, ending, parse);
    }
  }
}
