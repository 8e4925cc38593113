/**
 * Summary of the unresolved conflicts of the index: each conflict has up to
 * three stages (common ancestor, ours, theirs), and is reported by a path and
 * the state of each side.
 */
module Conflicts {
  import opened Wrappers
  import opened Models

  /** The part of an index entry the summary uses. */
  datatype IndexEntry = IndexEntry(path: string)

  /** One conflict: the stages that are present. */
  datatype Conflict = Conflict(ancestor: Option<IndexEntry>, ours: Option<IndexEntry>, theirs: Option<IndexEntry>)

  /** The stages of a conflict in the order they are consulted for its path. */
  function Stages(c: Conflict): seq<Option<IndexEntry>>
  {
    [c.ancestor, c.ours, c.theirs]
  }

  /** The path of the first present stage, or the empty string when none is present. */
  function FirstPresentPath(stages: seq<Option<IndexEntry>>): string
  {
    if stages == [] then ""
    else if stages[0].Some? then stages[0].value.path
    else FirstPresentPath(stages[1..])
  }

  /** The path a conflict is reported under. */
  function ConflictPath(c: Conflict): (p: string)
    ensures c.ancestor.Some? ==> p == c.ancestor.value.path
    ensures c.ancestor.None? && c.ours.None? && c.theirs.None? ==> p == ""
  {
    if c.ancestor.Some? then c.ancestor.value.path
    else if c.ours.Some? then c.ours.value.path
    else if c.theirs.Some? then c.theirs.value.path
    else ""
  }

  /** The path is taken from the stages in the order ancestor, ours, theirs. */
  lemma ConflictPathIsFirstPresentStage(c: Conflict)
    ensures ConflictPath(c) == FirstPresentPath(Stages(c))
  {
    var s0 := Stages(c);
    var s1 := s0[1..];
    var s2 := s1[1..];
    assert s1 == [c.ours, c.theirs] && s2 == [c.theirs] && s2[1..] == [];
    assert FirstPresentPath(s0) == if c.ancestor.Some? then c.ancestor.value.path else FirstPresentPath(s1);
    assert FirstPresentPath(s1) == if c.ours.Some? then c.ours.value.path else FirstPresentPath(s2);
    assert FirstPresentPath(s2) == if c.theirs.Some? then c.theirs.value.path else "";
  }

  /** When every present stage agrees on a path, that path is reported. */
  lemma ConflictPathAgreesWithStages(c: Conflict, q: string)
    requires c.ancestor.Some? || c.ours.Some? || c.theirs.Some?
    requires c.ancestor.Some? ==> c.ancestor.value.path == q
    requires c.ours.Some? ==> c.ours.value.path == q
    requires c.theirs.Some? ==> c.theirs.value.path == q
    ensures ConflictPath(c) == q
  {
  }

  /** The record built for one conflict: a side is "modified" when present and "deleted" when missing. */
  function Summarise(c: Conflict): (info: ConflictInfo)
    ensures info.path == ConflictPath(c)
    ensures info.ourStatus == Modified <==> c.ours.Some?
    ensures info.ourStatus == Deleted <==> c.ours.None?
    ensures info.theirStatus == Modified <==> c.theirs.Some?
    ensures info.theirStatus == Deleted <==> c.theirs.None?
  {
    ConflictInfo(
      ConflictPath(c),
      if c.ours.Some? then Modified else Deleted,
      if c.theirs.Some? then Modified else Deleted)
  }

  /** An item of the conflict listing that could be read. */
  predicate Readable(item: Option<Conflict>)
  {
    item.Some?
  }

  /**
   * Lists the conflicts, one record per conflict and in order. A listing that
   * cannot be produced, or an item of it that cannot be read, fails the whole call.
   */
  method GetConflicts(listing: Option<seq<Option<Conflict>>>) returns (r: Result<seq<ConflictInfo>, GitError>)
    ensures listing.None? ==> r == Failure(ConflictsFailed)
    ensures r.Success? <==> listing.Some? && forall i :: 0 <= i < |listing.value| ==> Readable(listing.value[i])
    ensures listing.Some? && r.Failure? ==> r.error == ConflictEntryFailed
    ensures r.Success? ==> |r.value| == |listing.value|
    ensures r.Success? ==> forall i :: 0 <= i < |r.value| ==> r.value[i] == Summarise(listing.value[i].value)
  {
    if listing.None? {
      return Failure(ConflictsFailed);
    }
    var items := listing.value;
    var conflicts: seq<ConflictInfo> := [];
    for i := 0 to |items|
      invariant |conflicts| == i
      invariant forall j :: 0 <= j < i ==> Readable(items[j]) && conflicts[j] == Summarise(items[j].value)
    {
      if items[i].None? {
        return Failure(ConflictEntryFailed);
      }
      var c := items[i].value;
      var path :=
        if c.ancestor.Some? then c.ancestor.value.path
        else if c.ours.Some? then c.ours.value.path
        else if c.theirs.Some? then c.theirs.value.path
        else "";
      var ourStatus: SideLabel := if c.ours.Some? then Modified else Deleted;
      var theirStatus: SideLabel := if c.theirs.Some? then Modified else Deleted;
      conflicts := conflicts + [ConflictInfo(path, ourStatus, theirStatus)];
    }
    return Success(conflicts);
  }
}
