/**
 * Aggregation of a commit's patch printout into one record per file. The
 * printout is a stream of lines, each tagged with its file and an origin
 * marker ('+' added, '-' removed, ' ' context, other markers for headers).
 * The stream is folded into a list that is searched for the line's file and
 * either extended in place or appended to.
 */
module CommitDiff {
  import opened Wrappers
  import opened Models

  /** One line of the printout. */
  datatype DiffLine = DiffLine(path: string, origin: char, content: string)

  /** The marker written in front of a line's text: its origin for '+', '-' and ' ', nothing otherwise. */
  function Prefix(origin: char): (p: string)
    ensures p == [] || p == [origin]
    ensures p == [origin] <==> origin == '+' || origin == '-' || origin == ' '
  {
    if origin == '+' then "+"
    else if origin == '-' then "-"
    else if origin == ' ' then " "
    else ""
  }

  function Rendered(l: DiffLine): string
  {
    Prefix(l.origin) + l.content
  }

  // Reference definitions over a prefix of the stream, each peeling the last line.

  /** The files of the stream, each once, in order of first appearance. */
  function Paths(ls: seq<DiffLine>): seq<string>
  {
    if ls == [] then []
    else
      var ps := Paths(ls[..|ls| - 1]);
      if ls[|ls| - 1].path in ps then ps else ps + [ls[|ls| - 1].path]
  }

  /** How many lines of the file carry the marker. */
  function Count(ls: seq<DiffLine>, path: string, marker: char): nat
  {
    if ls == [] then 0
    else
      var last := ls[|ls| - 1];
      Count(ls[..|ls| - 1], path, marker) + (if last.path == path && last.origin == marker then 1 else 0)
  }

  /** The rendered lines of the file, concatenated in stream order. */
  function Text(ls: seq<DiffLine>, path: string): string
  {
    if ls == [] then ""
    else
      var last := ls[|ls| - 1];
      Text(ls[..|ls| - 1], path) + (if last.path == path then Rendered(last) else "")
  }

  /** The record of one file of the stream. */
  function Summary(ls: seq<DiffLine>, path: string): DiffInfo
  {
    DiffInfo(path, Count(ls, path, '+'), Count(ls, path, '-'), Text(ls, path))
  }

  /** The records of all files of the stream, in order of first appearance. */
  function Summaries(ls: seq<DiffLine>): seq<DiffInfo>
  {
    var ps := Paths(ls);
    seq(|ps|, k requires 0 <= k < |ps| => Summary(ls, ps[k]))
  }

  /** A file is listed exactly when some line of the stream belongs to it. */
  lemma {:induction false} PathsComplete(ls: seq<DiffLine>, p: string)
    ensures p in Paths(ls) <==> exists i :: 0 <= i < |ls| && ls[i].path == p
  {
    if ls != [] {
      var init := ls[..|ls| - 1];
      PathsComplete(init, p);
      if p in Paths(init) {
        var i :| 0 <= i < |init| && init[i].path == p;
        assert ls[i].path == p;
      }
      if exists i :: 0 <= i < |ls| && ls[i].path == p {
        var i :| 0 <= i < |ls| && ls[i].path == p;
        if i < |init| {
          assert init[i].path == p;
        }
      }
    }
  }

  /** No file is listed twice. */
  lemma {:induction false} PathsDistinct(ls: seq<DiffLine>)
    ensures forall i, j :: 0 <= i < j < |Paths(ls)| ==> Paths(ls)[i] != Paths(ls)[j]
  {
    if ls != [] {
      PathsDistinct(ls[..|ls| - 1]);
    }
  }

  /** Once a file is listed, its position never changes as the stream goes on. */
  lemma {:induction false} PathsGrowByPrefix(ls: seq<DiffLine>, n: nat)
    requires n <= |ls|
    ensures Paths(ls[..n]) <= Paths(ls)
  {
    if n < |ls| {
      var init := ls[..|ls| - 1];
      assert init[..n] == ls[..n];
      PathsGrowByPrefix(init, n);
    } else {
      assert ls[..n] == ls;
    }
  }

  /** A file with no line in the stream has no counts and no text. */
  lemma {:induction false} AbsentPathIsEmpty(ls: seq<DiffLine>, p: string)
    requires p !in Paths(ls)
    ensures Count(ls, p, '+') == 0 && Count(ls, p, '-') == 0 && Text(ls, p) == ""
  {
    if ls != [] {
      var init := ls[..|ls| - 1];
      AbsentPathIsEmpty(init, p);
    }
  }

  /** Appending a line to the stream lists its file if it was not listed yet. */
  lemma PathsStep(ls: seq<DiffLine>, l: DiffLine)
    ensures Paths(ls + [l]) == if l.path in Paths(ls) then Paths(ls) else Paths(ls) + [l.path]
  {
    assert (ls + [l])[..|ls|] == ls;
  }

  /** A file's record after one more of its lines. */
  function Grow(d: DiffInfo, l: DiffLine): DiffInfo
  {
    DiffInfo(
      d.path,
      d.additions + (if l.origin == '+' then 1 else 0),
      d.deletions + (if l.origin == '-' then 1 else 0),
      d.diffText + Rendered(l))
  }

  /** Appending a line to the stream extends its own file's record and no other. */
  lemma SummaryStep(ls: seq<DiffLine>, l: DiffLine, p: string)
    ensures Summary(ls + [l], p) == if l.path == p then Grow(Summary(ls, p), l) else Summary(ls, p)
  {
    assert (ls + [l])[..|ls|] == ls;
  }

  /** One record of the stream after a line of an already listed file. */
  lemma KnownEntry(ls: seq<DiffLine>, l: DiffLine, k: nat, j: nat)
    requires k < |Paths(ls)| && Paths(ls)[k] == l.path
    requires j < |Paths(ls)|
    requires Paths(ls + [l]) == Paths(ls)
    ensures Summaries(ls + [l])[j] == if j == k then Grow(Summaries(ls)[k], l) else Summaries(ls)[j]
  {
    var ps := Paths(ls);
    SummaryStep(ls, l, ps[j]);
    if j != k {
      PathsDistinct(ls);
      assert ps[j] != ps[k];
    }
  }

  /** A line of an already listed file extends that file's record and leaves the others alone. */
  lemma SummariesExtendKnown(ls: seq<DiffLine>, l: DiffLine, k: nat)
    requires k < |Paths(ls)| && Paths(ls)[k] == l.path
    ensures Summaries(ls + [l]) == Summaries(ls)[k := Grow(Summaries(ls)[k], l)]
  {
    PathsStep(ls, l);
    var after := Summaries(ls + [l]);
    var expected := Summaries(ls)[k := Grow(Summaries(ls)[k], l)];
    assert |after| == |expected|;
    forall j | 0 <= j < |after|
      ensures after[j] == expected[j]
    {
      KnownEntry(ls, l, k, j);
    }
  }

  /** One record of the stream after a line of a new file. */
  lemma NewEntry(ls: seq<DiffLine>, l: DiffLine, j: nat)
    requires l.path !in Paths(ls)
    requires j <= |Paths(ls)|
    requires Paths(ls + [l]) == Paths(ls) + [l.path]
    ensures Summaries(ls + [l])[j] ==
      if j == |Paths(ls)| then Grow(DiffInfo(l.path, 0, 0, ""), l) else Summaries(ls)[j]
  {
    var ps := Paths(ls);
    SummaryStep(ls, l, (ps + [l.path])[j]);
    if j == |ps| {
      AbsentPathIsEmpty(ls, l.path);
    } else {
      assert ps[j] != l.path;
    }
  }

  /** A line of a new file appends that file's first record. */
  lemma SummariesExtendNew(ls: seq<DiffLine>, l: DiffLine)
    requires l.path !in Paths(ls)
    ensures Summaries(ls + [l]) == Summaries(ls) + [Grow(DiffInfo(l.path, 0, 0, ""), l)]
  {
    PathsStep(ls, l);
    var after := Summaries(ls + [l]);
    var expected := Summaries(ls) + [Grow(DiffInfo(l.path, 0, 0, ""), l)];
    assert |after| == |expected|;
    forall j | 0 <= j < |after|
      ensures after[j] == expected[j]
    {
      NewEntry(ls, l, j);
    }
  }

  /** The first record for the path, if any. */
  method FindInfo(infos: seq<DiffInfo>, path: string) returns (found: Option<nat>)
    ensures found.Some? ==> found.value < |infos| && infos[found.value].path == path
    ensures found.Some? ==> forall j :: 0 <= j < found.value ==> infos[j].path != path
    ensures found.None? ==> forall j :: 0 <= j < |infos| ==> infos[j].path != path
  {
    for i := 0 to |infos|
      invariant forall j :: 0 <= j < i ==> infos[j].path != path
    {
      if infos[i].path == path {
        return Some(i);
      }
    }
    return None;
  }

  /**
   * The per-file records of a commit's patch; a commit, tree or patch that
   * cannot be produced fails the call.
   */
  method GetCommitDiff(patch: Option<seq<DiffLine>>) returns (r: Result<seq<DiffInfo>, GitError>)
    ensures patch.None? ==> r == Failure(DiffFailed)
    ensures patch.Some? ==> r == Success(Summaries(patch.value))
  {
    if patch.None? {
      return Failure(DiffFailed);
    }
    var lines := patch.value;
    var infos: seq<DiffInfo> := [];
    for i := 0 to |lines|
      invariant infos == Summaries(lines[..i])
    {
      var line := lines[i];
      assert lines[..i + 1] == lines[..i] + [line];
      ghost var ps := Paths(lines[..i]);
      assert forall j :: 0 <= j < |ps| ==> infos[j].path == ps[j];
      var found := FindInfo(infos, line.path);
      if found.Some? {
        var k := found.value;
        SummariesExtendKnown(lines[..i], line, k);
        var info := infos[k];
        assert info.diffText + Prefix(line.origin) + line.content == info.diffText + Rendered(line);
        assert Grow(info, line) == DiffInfo(
          info.path,
          info.additions + (if line.origin == '+' then 1 else 0),
          info.deletions + (if line.origin == '-' then 1 else 0),
          info.diffText + Prefix(line.origin) + line.content);
        infos := infos[k := DiffInfo(
          info.path,
          info.additions + (if line.origin == '+' then 1 else 0),
          info.deletions + (if line.origin == '-' then 1 else 0),
          info.diffText + Prefix(line.origin) + line.content)];
      } else {
        SummariesExtendNew(lines[..i], line);
        assert "" + Rendered(line) == Prefix(line.origin) + line.content;
        infos := infos + [DiffInfo(
          line.path,
          if line.origin == '+' then 1 else 0,
          if line.origin == '-' then 1 else 0,
          Prefix(line.origin) + line.content)];
      }
    }
    assert lines[..|lines|] == lines;
    return Success(infos);
  }
}
