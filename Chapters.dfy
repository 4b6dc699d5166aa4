/**
 * The chapter reducer of src/components/BookPage.jsx (`updateChapters`):
 * each decoded stream payload that is not the `done` sentinel is folded into
 * the ordered list of chapter records, keyed by the chapter name.
 *
 * The code is modelled as written: a record created for an unseen name starts
 * with empty `chunks` and `audio_urls`, so the first fragment's text and audio
 * never reach those lists, and `parts` counts only the later fragments.
 */
module Chapters {
  import opened Wrappers

  /** A decoded JSON payload that is not the `done` sentinel. */
  datatype Fragment = Fragment(
    name: string,
    content: Option<string>,
    audioUrl: Option<string>,
    totalParts: Option<int>,
    parts: Option<int>)

  /** What `JSON.parse` yields for one data frame: `{done: true}` or a fragment. */
  datatype Payload = Done | Data(fragment: Fragment)

  /** One chapter record of the `chapters` list. */
  datatype Chapter = Chapter(
    name: string,
    chunks: seq<string>,
    audioUrls: seq<string>,
    parts: Option<int>,
    totalParts: Option<int>)

  /** JavaScript truthiness of an optional string field: present and non-empty. */
  predicate Truthy(v: Option<string>)
  {
    v.Some? && v.value != ""
  }

  /** `chapter.parts || 0`. */
  function PartsSoFar(c: Chapter): int
  {
    if c.parts.Some? then c.parts.value else 0
  }

  function Names(chs: seq<Chapter>): (ns: seq<string>)
    ensures |ns| == |chs|
    ensures forall i :: 0 <= i < |chs| ==> ns[i] == chs[i].name
  {
    seq(|chs|, i requires 0 <= i < |chs| => chs[i].name)
  }

  predicate NamesDistinct(chs: seq<Chapter>)
  {
    forall i, j :: 0 <= i < j < |chs| ==> chs[i].name != chs[j].name
  }

  /**
   * `prevChapters.findIndex(ch => ch.name === data.name)`: the first index
   * whose record has the name, or -1 when no record has it.
   */
  function FindIndex(chs: seq<Chapter>, name: string, from: nat := 0): (r: int)
    requires from <= |chs|
    ensures r == -1 || (from <= r < |chs| && chs[r].name == name)
    ensures forall i :: from <= i < |chs| && (r == -1 || i < r) ==> chs[i].name != name
    decreases |chs| - from
  {
    if from == |chs| then -1
    else if chs[from].name == name then from
    else FindIndex(chs, name, from + 1)
  }

  /** `{ ...data, chunks: [], audio_urls: [] }`. */
  function NewChapter(f: Fragment): (c: Chapter)
    ensures c.name == f.name && c.chunks == [] && c.audioUrls == []
    ensures c.parts == f.parts && c.totalParts == f.totalParts
  {
    Chapter(f.name, [], [], f.parts, f.totalParts)
  }

  /**
   * The in-place update of a found record: the text and the audio reference
   * are appended only when truthy, `parts` becomes `(parts || 0) + 1` and
   * `total_parts` is overwritten (last write wins).
   */
  function AddFragment(c: Chapter, f: Fragment): (d: Chapter)
    ensures d.name == c.name
    ensures d.chunks == c.chunks + (if Truthy(f.content) then [f.content.value] else [])
    ensures d.audioUrls == c.audioUrls + (if Truthy(f.audioUrl) then [f.audioUrl.value] else [])
    ensures d.parts == Some(PartsSoFar(c) + 1) && d.totalParts == f.totalParts
  {
    c.(chunks := if Truthy(f.content) then c.chunks + [f.content.value] else c.chunks,
       audioUrls := if Truthy(f.audioUrl) then c.audioUrls + [f.audioUrl.value] else c.audioUrls,
       parts := Some(PartsSoFar(c) + 1),
       totalParts := f.totalParts)
  }

  /** The updater that `updateChapters` passes to `setChapters`. */
  function Fold(chs: seq<Chapter>, f: Fragment): (r: seq<Chapter>)
    // an unseen name appends exactly one fresh record at the end
    ensures f.name !in Names(chs) ==> r == chs + [NewChapter(f)]
    // a known name updates the first record with that name, in place
    ensures f.name in Names(chs) ==>
      var k := FindIndex(chs, f.name);
      0 <= k < |chs| && r == chs[k := AddFragment(chs[k], f)]
    // the name list gains the fragment's name exactly when it was unseen
    ensures Names(r) == if f.name in Names(chs) then Names(chs) else Names(chs) + [f.name]
  {
    var i := FindIndex(chs, f.name);
    if i == -1 then
      assert Names(chs + [NewChapter(f)]) == Names(chs) + [f.name];
      chs + [NewChapter(f)]
    else
      assert Names(chs[i := AddFragment(chs[i], f)]) == Names(chs);
      chs[i := AddFragment(chs[i], f)]
  }

  /** Folding a fragment never creates a second record with the same name. */
  lemma FoldKeepsDistinct(chs: seq<Chapter>, f: Fragment)
    requires NamesDistinct(chs)
    ensures NamesDistinct(Fold(chs, f))
  {
    var r := Fold(chs, f);
    forall i, j | 0 <= i < j < |r| ensures r[i].name != r[j].name {
      assert r[i].name == Names(r)[i] && r[j].name == Names(r)[j];
      if j < |chs| {
        assert Names(r)[i] == chs[i].name && Names(r)[j] == chs[j].name;
      } else {
        assert f.name !in Names(chs) && Names(r)[i] == Names(chs)[i];
      }
    }
  }

  /** With distinct names the record a known name touches is the only one with that name. */
  lemma FoldKnownName(chs: seq<Chapter>, f: Fragment, k: nat)
    requires NamesDistinct(chs) && k < |chs| && chs[k].name == f.name
    ensures Fold(chs, f) == chs[k := AddFragment(chs[k], f)]
    ensures forall i :: 0 <= i < |chs| && i != k ==> Fold(chs, f)[i] == chs[i]
  {
    assert f.name in Names(chs);
  }

  /** Fragments folded one after another, in arrival order. */
  function FoldAll(chs: seq<Chapter>, fs: seq<Fragment>): (r: seq<Chapter>)
    ensures Names(chs) <= Names(r)
    decreases |fs|
  {
    if fs == [] then chs else Fold(FoldAll(chs, fs[..|fs| - 1]), fs[|fs| - 1])
  }

  /** Folding the first fragment, then the rest, is folding them all. */
  lemma {:induction false} FoldAllCons(chs: seq<Chapter>, f: Fragment, fs: seq<Fragment>)
    ensures FoldAll(chs, [f] + fs) == FoldAll(Fold(chs, f), fs)
    decreases |fs|
  {
    if fs == [] {
      assert ([f] + fs)[..0] == [];
    } else {
      var n := |fs|;
      assert ([f] + fs)[..n] == [f] + fs[..n - 1];
      FoldAllCons(chs, f, fs[..n - 1]);
    }
  }

  /**
   * A reference definition of the record order: each name is added when it
   * is first seen.
   */
  function AddNames(ns: seq<string>, fs: seq<Fragment>): seq<string>
    decreases |fs|
  {
    if fs == [] then ns
    else
      var before := AddNames(ns, fs[..|fs| - 1]);
      var n := fs[|fs| - 1].name;
      if n in before then before else before + [n]
  }

  /** Records appear in the order in which their names were first seen. */
  lemma {:induction false} FoldAllFirstSeenOrder(chs: seq<Chapter>, fs: seq<Fragment>)
    ensures Names(FoldAll(chs, fs)) == AddNames(Names(chs), fs)
    decreases |fs|
  {
    if fs != [] {
      FoldAllFirstSeenOrder(chs, fs[..|fs| - 1]);
    }
  }

  function TruthyContents(fs: seq<Fragment>): seq<string>
    decreases |fs|
  {
    if fs == [] then []
    else
      var last := fs[|fs| - 1];
      TruthyContents(fs[..|fs| - 1]) + (if Truthy(last.content) then [last.content.value] else [])
  }

  function TruthyAudioUrls(fs: seq<Fragment>): seq<string>
    decreases |fs|
  {
    if fs == [] then []
    else
      var last := fs[|fs| - 1];
      TruthyAudioUrls(fs[..|fs| - 1]) + (if Truthy(last.audioUrl) then [last.audioUrl.value] else [])
  }

  /**
   * n fragments for one chapter name, the first without a `parts` field,
   * build a single record with `parts == n - 1`, the truthy texts and audio
   * references of fragments 2..n only, and the last `total_parts`.
   */
  lemma {:induction false} FoldOneChapter(fs: seq<Fragment>, name: string)
    requires |fs| >= 1 && fs[0].parts == None
    requires forall i :: 0 <= i < |fs| ==> fs[i].name == name
    ensures FoldAll([], fs) == [Chapter(
      name,
      TruthyContents(fs[1..]),
      TruthyAudioUrls(fs[1..]),
      if |fs| == 1 then None else Some(|fs| - 1),
      fs[|fs| - 1].totalParts)]
    decreases |fs|
  {
    var n := |fs|;
    if n == 1 {
      assert fs[..0] == [];
      assert fs[1..] == [];
    } else {
      var front := fs[..n - 1];
      FoldOneChapter(front, name);
      var c := Chapter(name, TruthyContents(front[1..]), TruthyAudioUrls(front[1..]),
                       if n == 2 then None else Some(n - 2), front[n - 2].totalParts);
      FoldIntoOnly(fs, c);
      OneMoreFragment(fs, c, name);
    }
  }

  /**
   * The induction step of `FoldOneChapter`: the record built from all but
   * the last fragment, with the last one added, is the record built from all.
   */
  lemma {:induction false} OneMoreFragment(fs: seq<Fragment>, c: Chapter, name: string)
    requires |fs| >= 2
    requires var front := fs[..|fs| - 1];
      c == Chapter(name, TruthyContents(front[1..]), TruthyAudioUrls(front[1..]),
                   if |front| == 1 then None else Some(|front| - 1), front[|front| - 1].totalParts)
    ensures AddFragment(c, fs[|fs| - 1])
         == Chapter(name, TruthyContents(fs[1..]), TruthyAudioUrls(fs[1..]),
                    Some(|fs| - 1), fs[|fs| - 1].totalParts)
  {
    var later := fs[1..];
    assert later[..|later| - 1] == fs[..|fs| - 1][1..];
  }

  /** When the fragments before the last built a single record, the last one lands in it. */
  lemma FoldIntoOnly(fs: seq<Fragment>, c: Chapter)
    requires |fs| >= 1 && FoldAll([], fs[..|fs| - 1]) == [c] && c.name == fs[|fs| - 1].name
    ensures FoldAll([], fs) == [AddFragment(c, fs[|fs| - 1])]
  {
    assert FindIndex([c], c.name) == 0;
  }
}
