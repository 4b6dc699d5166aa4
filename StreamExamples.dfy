/**
 * Concrete runs of the stream reader of src/components/BookPage.jsx, with a
 * stand-in for `JSON.parse`, showing behaviour of the code as written.
 */
module StreamExamples {
  import opened Wrappers
  import opened Framing
  import opened Chapters
  import opened Streaming

  /** Decodes "end" to the `done` sentinel and any other text to a bare fragment of that name. */
  function TestParse(json: string): Option<Payload>
  {
    if json == "end" then Some(Done)
    else Some(Data(Fragment(json, None, None, None, None)))
  }

  lemma SplitTwoFrames(e: string, a: string)
    requires e == "data: end" && a == "data: A"
    ensures SplitFrames("" + (e + "\n\n" + a + "\n\n")) == ([e, a], "")
  {
    assert [e, a, ""][1..] == [a, ""];
    assert Join([a, ""]) == a + "\n\n";
    assert Join([e, a, ""]) == e + "\n\n" + (a + "\n\n");
    SplitUnique("" + (e + "\n\n" + a + "\n\n"), [e, a, ""]);
    assert [e, a, ""][..2] == [e, a];
  }

  lemma SplitOneFrame(e: string)
    requires e == "data: end" || e == "data: A"
    ensures SplitFrames("" + (e + "\n\n")) == ([e], "")
  {
    assert Join([e, ""]) == e + "\n\n";
    SplitUnique("" + (e + "\n\n"), [e, ""]);
    assert [e, ""][..1] == [e];
  }

  /** A `done` frame skips the frames after it in the same read. */
  lemma DoneSkipsRestOfRead(feed: Feed)
    ensures ReadAll(feed, "", ["data: end\n\ndata: A\n\n"], Closed, TestParse)
         == Finished(feed.(isProcessing := false))
  {
    var e, a := "data: end", "data: A";
    assert "data: end\n\ndata: A\n\n" == e + "\n\n" + a + "\n\n";
    SplitTwoFrames(e, a);
    assert DataOf(e) == "end";
    assert FoldFrames(feed, [e, a], TestParse) == Finished(feed.(isProcessing := false));
    ReadAllStep(feed, "", "data: end\n\ndata: A\n\n", [], Closed, TestParse);
  }

  lemma ReadOneFrame(feed: Feed, e: string, rest: seq<string>)
    requires e == "data: end" || e == "data: A"
    ensures ReadAll(feed, "", [e + "\n\n"] + rest, Closed, TestParse)
         == var o := FoldFrames(feed, [e], TestParse);
            if o.Threw? then o else ReadAll(o.feed, "", rest, Closed, TestParse)
  {
    SplitOneFrame(e);
    ReadAllStep(feed, "", e + "\n\n", rest, Closed, TestParse);
  }

  /**
   * The `break` after `done` leaves only the frame loop: the reader keeps
   * reading, so a fragment arriving in a later read is still folded.
   */
  lemma DoneInEarlierReadDoesNotStopLaterOnes(feed: Feed, e: string, a: string)
    requires feed.chapters == [] && e == "data: end" && a == "data: A"
    ensures ReadAll(feed, "", [e + "\n\n", a + "\n\n"], Closed, TestParse)
         == Finished(Feed([NewChapter(Fragment("A", None, None, None, None))], false, feed.audioUrl))
  {
    var stopped := feed.(isProcessing := false);
    assert ReadAll(feed, "", [e + "\n\n", a + "\n\n"], Closed, TestParse)
        == ReadAll(stopped, "", [a + "\n\n"], Closed, TestParse) by {
      EndFrameStops(feed, e);
      assert [e + "\n\n", a + "\n\n"] == [e + "\n\n"] + [a + "\n\n"];
      ReadOneFrame(feed, e, [a + "\n\n"]);
    }
    assert [a + "\n\n"] == [a + "\n\n"] + [];
    FrameAFolds(stopped, a);
    ReadOneFrame(stopped, a, []);
  }

  lemma EndFrameStops(feed: Feed, e: string)
    requires e == "data: end"
    ensures FoldFrames(feed, [e], TestParse) == Finished(feed.(isProcessing := false))
  {
    assert DataOf(e) == "end";
  }

  lemma FrameAFolds(feed: Feed, a: string)
    requires feed.chapters == [] && a == "data: A"
    ensures FoldFrames(feed, [a], TestParse)
         == Finished(feed.(chapters := [NewChapter(Fragment("A", None, None, None, None))]))
  {
    var f := Fragment("A", None, None, None, None);
    assert DataOf(a) == "A";
    assert Fold([], f) == [] + [NewChapter(f)];
    assert [a][1..] == [];
  }

  /**
   * A frame still in the buffer when the reader reports `done` is dropped
   * unparsed: a read without the trailing separator changes nothing.
   */
  lemma UnterminatedFrameIsDropped(feed: Feed)
    ensures ReadAll(feed, "", ["data: A"], Closed, TestParse) == Finished(feed)
  {
    var a := "data: A";
    assert !HasSeparator(a) by {
      forall i | 0 <= i < |a| ensures !SeparatorAt(a, i) {
        assert a[i] != '\n';
      }
    }
    assert SplitFrames("" + a) == ([], a) by {
      assert "" + a == a;
      assert Join([a]) == a;
      SplitUnique(a, [a]);
    }
    ReadAllStep(feed, "", a, [], Closed, TestParse);
    assert FoldFrames(feed, [], TestParse) == Finished(feed);
  }

  /**
   * Two fragments of chapter "A", text on the first and none on the second:
   * the record has no text at all and `parts == 1`, since the record made
   * for the first fragment starts empty and only the second is counted.
   */
  lemma TwoFragmentsAsWritten()
    ensures FoldAll([], [Fragment("A", Some("x"), None, Some(2), None),
                         Fragment("A", None, None, Some(2), None)])
         == [Chapter("A", [], [], Some(1), Some(2))]
  {
    var f1 := Fragment("A", Some("x"), None, Some(2), None);
    var f2 := Fragment("A", None, None, Some(2), None);
    var fs := [f1, f2];
    FoldOneChapter(fs, "A");
    assert fs[1..] == [f2];
    assert [f2][..0] == [];
    assert TruthyContents([f2]) == [] + [];
    assert TruthyAudioUrls([f2]) == [] + [];
  }

  const FragX: Fragment := Fragment("A", Some("x"), None, Some(3), None)
  const FragY: Fragment := Fragment("A", Some("y"), None, Some(3), None)
  const FragAudio: Fragment := Fragment("A", None, Some("/a1.mp3"), Some(3), None)

  function ChapterParse(json: string): Option<Payload>
  {
    if json == "x" then Some(Data(FragX))
    else if json == "y" then Some(Data(FragY))
    else if json == "a" then Some(Data(FragAudio))
    else if json == "end" then Some(Done)
    else None
  }

  lemma ThreeFragmentsDecode(batch: seq<string>)
    requires batch == ["data: x", "data: y", "data: a"]
    ensures AllFragments(batch, ChapterParse)
    ensures FragmentsOf(batch, ChapterParse) == [FragX, FragY, FragAudio]
  {
    var b1 := batch[1..];
    var b2 := b1[1..];
    assert b1 == ["data: y", "data: a"] && b2 == ["data: a"] && b2[1..] == [];
    assert DataOf(batch[0]) == "x" && DataOf(b1[0]) == "y" && DataOf(b2[0]) == "a";
    assert FragmentsOf(b2, ChapterParse) == [FragAudio] + [];
    assert FragmentsOf(b1, ChapterParse) == [FragY] + [FragAudio];
    assert FragmentsOf(batch, ChapterParse) == [FragX] + [FragY, FragAudio];
  }

  lemma ThreeFragmentsFold(fs: seq<Fragment>)
    requires fs == [FragX, FragY, FragAudio]
    ensures FoldAll([], fs) == [Chapter("A", ["y"], ["/a1.mp3"], Some(2), Some(3))]
  {
    FoldOneChapter(fs, "A");
    var later := fs[1..];
    var first := later[..1];
    assert first[..0] == [] && first[0] == FragY;
    assert later[..1] == first && later[1] == FragAudio;
    assert TruthyContents(first) == ["y"] && TruthyAudioUrls(first) == [] by {
      assert [] + ["y"] == ["y"];
    }
    assert TruthyContents(later) == ["y"] && TruthyAudioUrls(later) == ["/a1.mp3"] by {
      assert ["y"] + [] == ["y"] && [] + ["/a1.mp3"] == ["/a1.mp3"];
    }
  }

  /**
   * Three fragments of chapter "A" (text "x", text "y", audio "/a1.mp3",
   * each with total 3) and then `done`, in one read: the record keeps only
   * "y" as text, because the first fragment's text is dropped, and counts
   * `parts == 2`; the active audio is "/a1.mp3" and processing has ended.
   */
  lemma ThreeFragmentsAsWritten()
    ensures FoldFrames(Feed([], true, None), ["data: x", "data: y", "data: a", "data: end"], ChapterParse)
         == Finished(Feed([Chapter("A", ["y"], ["/a1.mp3"], Some(2), Some(3))], false, Some("/a1.mp3")))
  {
    var frames := ["data: x", "data: y", "data: a", "data: end"];
    var start := Feed([], true, None);
    var fs := [FragX, FragY, FragAudio];
    var batch := frames[..3];
    assert batch == ["data: x", "data: y", "data: a"];
    ThreeFragmentsDecode(batch);
    assert FoldFrames(start, frames, ChapterParse)
        == Finished(FoldFrames(start, batch, ChapterParse).feed.(isProcessing := false)) by {
      assert DataOf(frames[3]) == "end";
      DoneEndsBatch(start, frames, 3, ChapterParse);
    }
    assert FoldFrames(start, batch, ChapterParse)
        == Finished(Feed(FoldAll([], fs), true, ActiveAudio(None, fs))) by {
      FoldFramesIsFoldAll(start, batch, ChapterParse);
    }
    ThreeFragmentsFold(fs);
    assert ActiveAudio(None, fs) == Some("/a1.mp3");
  }
}
