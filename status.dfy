/**
 * Classification of the entries of a status scan (untracked files included,
 * untracked directories recursed into) into one labelled record per entry.
 */
module Status {
  import opened Wrappers
  import opened Models

  /** The six status bits the classification looks at. */
  datatype StatusFlags = StatusFlags(
    indexNew: bool, indexModified: bool, indexDeleted: bool,
    wtNew: bool, wtModified: bool, wtDeleted: bool)
  {
    /** Some change is recorded in the index. */
    predicate InIndex()
    {
      indexNew || indexModified || indexDeleted
    }

    predicate Any()
    {
      InIndex() || wtNew || wtModified || wtDeleted
    }

    predicate Has(flag: Flag)
    {
      match flag
      case IndexNew => indexNew
      case IndexModified => indexModified
      case IndexDeleted => indexDeleted
      case WtNew => wtNew
      case WtModified => wtModified
      case WtDeleted => wtDeleted
    }
  }

  datatype Flag = IndexNew | IndexModified | IndexDeleted | WtNew | WtModified | WtDeleted

  /** One entry of the scan: a path and its status bits. */
  datatype StatusEntry = StatusEntry(path: string, flags: StatusFlags)

  /** The label chosen for a set of status bits. */
  function Label(f: StatusFlags): (l: StatusLabel)
    ensures l == Added <==> f.indexNew
    ensures l == Untracked <==> !f.InIndex() && f.wtNew
    ensures l == Unknown <==> !f.Any()
    ensures f.InIndex() ==> l == Added || l == Modified || l == Deleted
  {
    if f.InIndex() then
      if f.indexNew then Added
      else if f.indexModified then Modified
      else Deleted
    else if f.wtNew then Untracked
    else if f.wtModified then Modified
    else if f.wtDeleted then Deleted
    else Unknown
  }

  /** A rule of the precedence table: when the flag is set, the label applies. */
  datatype Rule = Rule(flag: Flag, gives: StatusLabel)

  /** The precedence of the flags, strongest first. */
  const Precedence: seq<Rule> := [
    Rule(IndexNew, Added), Rule(IndexModified, Modified), Rule(IndexDeleted, Deleted),
    Rule(WtNew, Untracked), Rule(WtModified, Modified), Rule(WtDeleted, Deleted)
  ]

  /** The label of the first rule whose flag is set, or Unknown. */
  function FirstMatch(f: StatusFlags, rules: seq<Rule>): StatusLabel
  {
    if rules == [] then Unknown
    else if f.Has(rules[0].flag) then rules[0].gives
    else FirstMatch(f, rules[1..])
  }

  /** The classification is the precedence table read top to bottom. */
  lemma LabelFollowsPrecedence(f: StatusFlags)
    ensures Label(f) == FirstMatch(f, Precedence)
  {
    var r0 := Precedence;
    var r1 := r0[1..];
    var r2 := r1[1..];
    var r3 := r2[1..];
    var r4 := r3[1..];
    var r5 := r4[1..];
    assert r5[1..] == [];
    assert r0[0] == Rule(IndexNew, Added) && r1[0] == Rule(IndexModified, Modified);
    assert r2[0] == Rule(IndexDeleted, Deleted) && r3[0] == Rule(WtNew, Untracked);
    assert r4[0] == Rule(WtModified, Modified) && r5[0] == Rule(WtDeleted, Deleted);
    assert FirstMatch(f, r0) == if f.indexNew then Added else FirstMatch(f, r1);
    assert FirstMatch(f, r1) == if f.indexModified then Modified else FirstMatch(f, r2);
    assert FirstMatch(f, r2) == if f.indexDeleted then Deleted else FirstMatch(f, r3);
    assert FirstMatch(f, r3) == if f.wtNew then Untracked else FirstMatch(f, r4);
    assert FirstMatch(f, r4) == if f.wtModified then Modified else FirstMatch(f, r5);
    assert FirstMatch(f, r5) == if f.wtDeleted then Deleted else Unknown;
  }

  /** Once some index bit is set, the working-tree bits do not change the label. */
  lemma IndexOutranksWorktree(f: StatusFlags, g: StatusFlags)
    requires f.InIndex()
    requires f.indexNew == g.indexNew && f.indexModified == g.indexModified && f.indexDeleted == g.indexDeleted
    ensures Label(f) == Label(g)
  {
  }

  /** The record built for one entry. */
  function Describe(e: StatusEntry): (s: FileStatus)
    ensures s.path == e.path && s.status == Label(e.flags)
    ensures s.staged <==> e.flags.InIndex()
    ensures s.status == Untracked ==> !s.staged
    ensures s.status == Added ==> s.staged
    ensures s.staged ==> s.status != Unknown
  {
    FileStatus(e.path, Label(e.flags), e.flags.indexNew || e.flags.indexModified || e.flags.indexDeleted)
  }

  /** Lists the scan's entries as records, one per entry and in scan order. */
  method GetStatus(scan: Option<seq<StatusEntry>>) returns (r: Result<seq<FileStatus>, GitError>)
    ensures scan.None? ==> r == Failure(StatusFailed)
    ensures scan.Some? ==> r.Success? && |r.value| == |scan.value|
    ensures scan.Some? ==> forall i :: 0 <= i < |scan.value| ==> r.value[i] == Describe(scan.value[i])
  {
    if scan.None? {
      return Failure(StatusFailed);
    }
    var entries := scan.value;
    var statuses: seq<FileStatus> := [];
    for i := 0 to |entries|
      invariant |statuses| == i
      invariant forall j :: 0 <= j < i ==> statuses[j] == Describe(entries[j])
    {
      var entry := entries[i];
      var f := entry.flags;
      var status :=
        if f.indexNew || f.indexModified || f.indexDeleted then
          (if f.indexNew then Added else if f.indexModified then Modified else Deleted)
        else if f.wtNew then Untracked
        else if f.wtModified then Modified
        else if f.wtDeleted then Deleted
        else Unknown;
      var staged := f.indexNew || f.indexModified || f.indexDeleted;
      statuses := statuses + [FileStatus(entry.path, status, staged)];
    }
    return Success(statuses);
  }
}
