/** The summary of an open repository: which branch is checked out, and whether anything changed. */
module RepoInfo {
  import opened Wrappers
  import opened Models
  import opened Refs
  import opened Status

  /** The branch label reported when HEAD does not stand for a local branch. */
  const DetachedLabel: string := "detached HEAD"

  /**
   * Reads HEAD, then scans the status; either failing fails the call. The
   * repository is dirty when the scan reports any entry at all. The scan here
   * runs with the backend's default options, which also list ignored files, so
   * an ignored file alone makes the repository dirty.
   */
  function GetRepositoryInfo(path: string, refs: RefMap, scan: Option<seq<StatusEntry>>): (r: Result<RepositoryInfo, GitError>)
    ensures ReadHead(refs).None? ==> r == Failure(HeadFailed)
    ensures ReadHead(refs).Some? && scan.None? ==> r == Failure(StatusFailed)
    ensures r.Success? <==> ReadHead(refs).Some? && scan.Some?
    ensures r.Success? ==> r.value.path == path && (r.value.isDirty <==> |scan.value| > 0)
    ensures r.Success? && !IsBranch(ReadHead(refs).value.name) ==> r.value.currentBranch == DetachedLabel
    ensures r.Success? && IsBranch(ReadHead(refs).value.name) ==> HeadShorthand(refs) == Some(r.value.currentBranch)
  {
    match ReadHead(refs)
    case None => Failure(HeadFailed)
    case Some(head) =>
      var currentBranch := if IsBranch(head.name) then Shorthand(head.name) else DetachedLabel;
      match scan
      case None => Failure(StatusFailed)
      case Some(entries) => Success(RepositoryInfo(path, currentBranch, entries != []))
  }

  /** With HEAD on a branch that has a commit, that branch is reported. */
  lemma {:induction false} ReportsCheckedOutBranch(path: string, refs: RefMap, scan: Option<seq<StatusEntry>>, b: string)
    requires HeadName in refs && refs[HeadName] == Symbolic(BranchPrefix + b)
    requires BranchPrefix + b in refs && refs[BranchPrefix + b].Direct?
    requires scan.Some?
    ensures GetRepositoryInfo(path, refs, scan).Success?
    ensures GetRepositoryInfo(path, refs, scan).value.currentBranch == b
  {
    CheckedOutBranchShorthand(refs, b);
  }

  /** A branch without any commit yet makes HEAD unreadable, so the call fails. */
  lemma UnbornBranchFails(path: string, refs: RefMap, scan: Option<seq<StatusEntry>>, b: string)
    requires HeadName in refs && refs[HeadName] == Symbolic(BranchPrefix + b)
    requires BranchPrefix + b !in refs
    ensures GetRepositoryInfo(path, refs, scan) == Failure(HeadFailed)
  {
  }

  /**
   * On a branch, the label reported here is exactly the name the branch list
   * marks as current.
   */
  lemma LabelMatchesCurrentBranch(path: string, refs: RefMap, scan: Option<seq<StatusEntry>>, name: string)
    requires GetRepositoryInfo(path, refs, scan).Success?
    requires IsBranch(ReadHead(refs).value.name)
    ensures name == GetRepositoryInfo(path, refs, scan).value.currentBranch <==> HeadShorthand(refs) == Some(name)
  {
  }
}
