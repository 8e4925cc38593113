/** The records the backend hands to the front end, as far as the operations fill them in. */
module Models {

  /** A commit id, as its hexadecimal text. */
  type Oid = string

  /** The classification of one status entry. */
  datatype StatusLabel = Added | Modified | Deleted | Untracked | Unknown
  {
    /** The label as the front end receives it. */
    function Text(): string
    {
      match this
      case Added => "added"
      case Modified => "modified"
      case Deleted => "deleted"
      case Untracked => "untracked"
      case Unknown => "unknown"
    }
  }

  /** No two labels reach the front end as the same text, so the labels lose nothing against the strings. */
  lemma LabelTextsDistinct(a: StatusLabel, b: StatusLabel)
    ensures a.Text() == b.Text() ==> a == b
  {
  }

  /** The two labels a side of a conflict can carry. */
  type SideLabel = l: StatusLabel | l == Modified || l == Deleted witness Modified

  /** Summary of an open repository: its metadata path, the checked-out branch and the dirty flag. */
  datatype RepositoryInfo = RepositoryInfo(path: string, currentBranch: string, isDirty: bool)

  /** One changed path of the working tree or the index. */
  datatype FileStatus = FileStatus(path: string, status: StatusLabel, staged: bool)

  /** One commit of the history. */
  datatype CommitInfo = CommitInfo(sha: Oid, message: string, author: string, email: string, timestamp: int)

  /** One local branch. */
  datatype BranchInfo = BranchInfo(name: string, isCurrent: bool, isRemote: bool)

  /** The patch of one file of a commit, with its counts of added and removed lines. */
  datatype DiffInfo = DiffInfo(path: string, additions: nat, deletions: nat, diffText: string)

  /** One unresolved conflict of the index. */
  datatype ConflictInfo = ConflictInfo(path: string, ourStatus: SideLabel, theirStatus: SideLabel)

  /** Which step of an operation failed; the staging failure names its path. */
  datatype GitError =
    | HeadFailed              // reading HEAD
    | StatusFailed            // the status scan
    | StageFailed(path: string)
    | IndexWriteFailed
    | UnstageFailed           // resetting index entries to HEAD
    | DiffFailed              // finding the commit, its trees, or producing the patch
    | BranchesFailed          // listing the local branches
    | BranchReadFailed        // one item of the branch listing
    | BranchNameFailed        // the name of one branch
    | PushHeadFailed          // starting the history walk at HEAD
    | OidFailed               // one id of the history walk
    | CommitLookupFailed      // a walked id that names no commit
    | ConflictsFailed         // listing the conflicts of the index
    | ConflictEntryFailed     // one conflict of the listing
    | FetchHeadMissing        // FETCH_HEAD is not a reference
    | FetchCommitFailed       // FETCH_HEAD does not lead to a commit
    | AnalysisFailed          // the merge analysis
    | ReferenceMissing        // refs/heads/main is not a reference
    | SetTargetFailed         // refs/heads/main cannot be moved
    | CheckoutFailed          // the forced checkout after a fast-forward
}
