/**
 * The framing step of the chapter stream reader (src/components/BookPage.jsx,
 * `fetchAndStreamChapters`): text received so far is split on the blank-line
 * separator "\n\n" with JavaScript's `String.prototype.split`, the last piece
 * is kept as the new buffer, and every complete frame that starts with the
 * event-stream field prefix "data: " carries a JSON payload from index 6 on.
 * This is the `data:` field framing of the Server-Sent Events format
 * (section 9.2 of the HTML Living Standard), without the other fields.
 */
module Framing {

  const Separator: string := "\n\n"
  const DataPrefix: string := "data: "

  /** An occurrence of the separator starts at index `i` of `s`. */
  predicate SeparatorAt(s: string, i: int)
  {
    0 <= i && i + 2 <= |s| && s[i] == '\n' && s[i + 1] == '\n'
  }

  predicate HasSeparator(s: string)
  {
    exists i :: 0 <= i < |s| && SeparatorAt(s, i)
  }

  /**
   * `s.indexOf("\n\n", from)`: the leftmost occurrence at or after `from`,
   * or -1 when there is none.
   */
  function IndexOfSeparator(s: string, from: nat): (r: int)
    requires from <= |s|
    ensures r == -1 || (from <= r && SeparatorAt(s, r))
    ensures forall i :: from <= i && (r == -1 || i < r) ==> !SeparatorAt(s, i)
    decreases |s| - from
  {
    if from + 2 > |s| then -1
    else if SeparatorAt(s, from) then from
    else IndexOfSeparator(s, from + 1)
  }

  /** `pieces.join("\n\n")` (an empty array joins to the empty string). */
  function Join(pieces: seq<string>): string
  {
    if |pieces| == 0 then ""
    else if |pieces| == 1 then pieces[0]
    else pieces[0] + Separator + Join(pieces[1..])
  }

  /** `s.split("\n\n")`: cut at each leftmost, non-overlapping occurrence. */
  function Split(s: string): (pieces: seq<string>)
    ensures |pieces| >= 1
    decreases |s|
  {
    var i := IndexOfSeparator(s, 0);
    if i == -1 then [s] else [s[..i]] + Split(s[i + 2..])
  }

  /**
   * JavaScript scans left to right, so the pieces join back to `s`, no
   * piece contains the separator and no piece but the last ends with a
   * newline (otherwise the cut would have come one position earlier).
   */
  lemma {:induction false} SplitSpec(s: string)
    ensures Join(Split(s)) == s
    ensures forall k :: 0 <= k < |Split(s)| ==> !HasSeparator(Split(s)[k])
    ensures forall k :: 0 <= k < |Split(s)| - 1 ==> !EndsWithNewline(Split(s)[k])
    decreases |s|
  {
    var i := IndexOfSeparator(s, 0);
    if i != -1 {
      var head, rest := s[..i], Split(s[i + 2..]);
      SplitSpec(s[i + 2..]);
      assert !HasSeparator(head) by {
        forall j | 0 <= j < |head| ensures !SeparatorAt(head, j) {
          assert !SeparatorAt(s, j);
        }
      }
      assert !EndsWithNewline(head) by {
        assert i == 0 || !SeparatorAt(s, i - 1);
      }
      assert Split(s) == [head] + rest;
      assert ([head] + rest)[1..] == rest;
    }
  }

  predicate EndsWithNewline(s: string)
  {
    |s| > 0 && s[|s| - 1] == '\n'
  }

  /**
   * Split is the only way to cut `s` into separator-free pieces whose cuts
   * are leftmost: it is determined by the three properties in its contract.
   */
  lemma {:induction false} SplitUnique(s: string, pieces: seq<string>)
    requires |pieces| >= 1 && Join(pieces) == s
    requires forall k :: 0 <= k < |pieces| ==> !HasSeparator(pieces[k])
    requires forall k :: 0 <= k < |pieces| - 1 ==> !EndsWithNewline(pieces[k])
    ensures pieces == Split(s)
    decreases |pieces|
  {
    var i := IndexOfSeparator(s, 0);
    if |pieces| == 1 {
      assert s == pieces[0];
    } else {
      var head, tail := pieces[0], pieces[1..];
      var n := |head|;
      assert s == head + Separator + Join(tail);
      assert SeparatorAt(s, n);
      forall j | 0 <= j < n ensures !SeparatorAt(s, j) {
        if SeparatorAt(s, j) && j + 1 < n {
          assert SeparatorAt(head, j);
        }
      }
      assert i == n;
      assert s[..n] == head;
      assert s[n + 2..] == Join(tail);
      SplitUnique(s[n + 2..], tail);
    }
  }

  /** `Join(ps + [x])` puts one separator between `Join(ps)` and `x`. */
  lemma {:induction false} JoinSnoc(ps: seq<string>, x: string)
    requires |ps| >= 1
    ensures Join(ps + [x]) == Join(ps) + Separator + x
    decreases |ps|
  {
    if |ps| == 1 {
      assert (ps + [x])[1..] == [x];
    } else {
      assert (ps + [x])[1..] == ps[1..] + [x];
      JoinSnoc(ps[1..], x);
    }
  }

  /** One read of the stream: `lines = buffer.split("\n\n")` and `buffer = lines.pop()`. */
  function SplitFrames(text: string): (r: (seq<string>, string))
    // the pieces of the split, the last one popped off as the new buffer
    ensures Split(text) == r.0 + [r.1]
  {
    var pieces := Split(text);
    (pieces[..|pieces| - 1], pieces[|pieces| - 1])
  }

  /**
   * The frames of a read are complete; the new buffer holds no separator,
   * is a suffix of the text, and frames plus buffer reassemble the text
   * exactly.
   */
  lemma SplitFramesSpec(text: string)
    ensures !HasSeparator(SplitFrames(text).1)
    ensures forall k :: 0 <= k < |SplitFrames(text).0| ==> !HasSeparator(SplitFrames(text).0[k])
    ensures SplitFrames(text).0 == [] ==> SplitFrames(text).1 == text
    ensures SplitFrames(text).0 != [] ==> text == Join(SplitFrames(text).0) + Separator + SplitFrames(text).1
    ensures |SplitFrames(text).1| <= |text| && SplitFrames(text).1 == text[|text| - |SplitFrames(text).1|..]
  {
    var pieces := Split(text);
    var frames := pieces[..|pieces| - 1];
    SplitSpec(text);
    SplitLast(pieces, text);
    forall k | 0 <= k < |frames| ensures !HasSeparator(frames[k]) {
      assert frames[k] == pieces[k];
    }
  }

  lemma {:induction false} SplitLast(pieces: seq<string>, text: string)
    requires |pieces| >= 1 && Join(pieces) == text
    ensures var n := |pieces| - 1;
      && (n == 0 ==> pieces[n] == text)
      && (n > 0 ==> text == Join(pieces[..n]) + Separator + pieces[n])
      && |pieces[n]| <= |text| && pieces[n] == text[|text| - |pieces[n]|..]
  {
    var n := |pieces| - 1;
    var last := pieces[n];
    if n > 0 {
      var front := pieces[..n];
      assert pieces == front + [last];
      JoinSnoc(front, last);
      var prefix := Join(front) + Separator;
      assert text == prefix + last;
      SuffixOfConcat(prefix, last);
    }
  }

  lemma {:induction false} SuffixOfConcat(a: string, b: string)
    ensures b == (a + b)[|a + b| - |b|..]
  {
  }

  /** Joining two non-empty runs of pieces puts one separator between them. */
  lemma {:induction false} JoinAppend(ps: seq<string>, qs: seq<string>)
    requires |ps| >= 1 && |qs| >= 1
    ensures Join(ps + qs) == Join(ps) + Separator + Join(qs)
    decreases |ps|
  {
    if |ps| == 1 {
      assert (ps + qs)[1..] == qs;
    } else {
      assert (ps + qs)[1..] == ps[1..] + qs;
      JoinAppend(ps[1..], qs);
    }
  }

  /**
   * More text after a read does not move the frames that read completed:
   * splitting `text + more` gives the frames of `text`, then the pieces of
   * the old buffer followed by `more`.
   */
  lemma {:induction false} SplitExtends(text: string, more: string)
    ensures Split(text + more) == SplitFrames(text).0 + Split(SplitFrames(text).1 + more)
  {
    var pieces := Split(text);
    var n := |pieces| - 1;
    var frames, rest := pieces[..n], pieces[n];
    var tail := Split(rest + more);
    var all := frames + tail;
    assert SplitFrames(text) == (frames, rest);
    if n == 0 {
      assert text == rest by {
        SplitSpec(text);
        SplitLast(pieces, text);
      }
      assert all == tail;
    } else {
      assert Join(all) == text + more by {
        SplitSpec(text);
        SplitSpec(rest + more);
        SplitLast(pieces, text);
        JoinAppend(frames, tail);
        ConcatAssoc(Join(frames) + Separator, rest, more);
      }
      assert forall k :: 0 <= k < |all| ==> !HasSeparator(all[k]) by {
        SplitSpec(text);
        SplitSpec(rest + more);
        forall k | 0 <= k < |all| ensures !HasSeparator(all[k]) {
          if k < n { assert all[k] == pieces[k]; } else { assert all[k] == tail[k - n]; }
        }
      }
      assert forall k :: 0 <= k < |all| - 1 ==> !EndsWithNewline(all[k]) by {
        SplitSpec(text);
        SplitSpec(rest + more);
        forall k | 0 <= k < |all| - 1 ensures !EndsWithNewline(all[k]) {
          if k < n { assert all[k] == pieces[k]; } else { assert all[k] == tail[k - n]; }
        }
      }
      SplitUnique(text + more, all);
    }
  }

  /** The same fact for one read: frames of the longer text extend the old frames. */
  lemma {:induction false} SplitFramesExtends(text: string, more: string)
    ensures SplitFrames(text + more).0
         == SplitFrames(text).0 + SplitFrames(SplitFrames(text).1 + more).0
    ensures SplitFrames(text + more).1 == SplitFrames(SplitFrames(text).1 + more).1
  {
    var r := SplitFrames(text).1;
    SplitExtends(text, more);
    PopAfterConcat(Split(text + more), SplitFrames(text).0, Split(r + more),
                   SplitFrames(text + more), SplitFrames(r + more));
  }

  lemma PopAfterConcat(all: seq<string>, p: seq<string>, pieces: seq<string>,
                       whole: (seq<string>, string), tail: (seq<string>, string))
    requires |pieces| >= 1 && all == p + pieces
    requires whole == (all[..|all| - 1], all[|all| - 1])
    requires tail == (pieces[..|pieces| - 1], pieces[|pieces| - 1])
    ensures whole.0 == p + tail.0 && whole.1 == tail.1
  {
    DropLast(p, pieces);
  }

  lemma DropLast(p: seq<string>, pieces: seq<string>)
    requires |pieces| >= 1
    ensures (p + pieces)[..|p + pieces| - 1] == p + pieces[..|pieces| - 1]
    ensures (p + pieces)[|p + pieces| - 1] == pieces[|pieces| - 1]
  {
  }

  /** Reading two chunks at once completes the frames of both reads, in order. */
  lemma {:induction false} SplitFramesJoined(buffer: string, c1: string, c2: string)
    ensures SplitFrames(buffer + (c1 + c2))
         == (SplitFrames(buffer + c1).0 + SplitFrames(SplitFrames(buffer + c1).1 + c2).0,
             SplitFrames(SplitFrames(buffer + c1).1 + c2).1)
  {
    ConcatAssoc(buffer, c1, c2);
    SplitFramesExtends(buffer + c1, c2);
  }

  lemma ConcatAssoc(a: string, b: string, c: string)
    ensures a + (b + c) == (a + b) + c
  {
  }

  /** `line.startsWith("data: ")`. */
  predicate IsDataFrame(line: string)
  {
    DataPrefix <= line
  }

  /** `line.slice(6)`: the JSON text of a data frame. */
  function DataOf(line: string): (json: string)
    requires IsDataFrame(line)
    ensures line == DataPrefix + json
  {
    line[|DataPrefix|..]
  }
}
