# Git operations of a desktop Git client, modelled in Dafny

This project models the decision logic of `src-tauri/src/git_operations.rs`, the
backend of a desktop Git client. Each operation there calls the git2 library and,
between those calls, makes small decisions of its own. The model keeps those
decisions and replaces every git2 call by an input:

- the status scan is a list of entries with six status bits;
- the conflict listing is a list of (ancestor, ours, theirs) stages;
- the history walk is a list of commit ids, with a map of stored commits;
- the branch listing is a list of branch items;
- a commit's patch is a stream of `(path, origin, content)` lines;
- the merge analysis is a pair of bits (up to date, fast-forward).

Whether a backend call fails is also an input: `None` in place of a result, or a
boolean for disk writes and checkouts. Errors are tags of `Models.GitError`. A
staging failure carries the failing path, as the source's message does.

References live in a map from names to a commit id or to another reference's
name. Reading HEAD follows at most one symbolic step. A HEAD that names a branch
without a commit (a fresh repository) cannot be read.

Modules, one per concern of the source file:

- `Models`: the records the operations return.
- `Refs`: the reference map, reading HEAD, short names, and a `RefStore` class updated in place.
- `Status`: the status label and `staged` bit, with the precedence table as an independent definition.
- `Conflicts`: the conflict path and side labels.
- `CommitDiff`: find-or-insert aggregation of the patch stream, proved equal to a per-file declarative summary.
- `History`: the history walk cut off at `limit`.
- `Branches`: the branch list and its `is_current` marks.
- `RepoInfo`: branch label and dirty flag.
- `Commit`: parent and identity choice of a new commit.
- `IndexOps`: an `Index` class edited in memory and written once, for stage and unstage.
- `Pull`: the decision after the fetch, on the `RefStore`.

Some behaviour of the code differs from what a caller might expect. The model
follows the code:

- An unborn branch makes `get_repository_info` fail with the HEAD error, rather than report the branch name.
- A detached HEAD is labelled `"detached HEAD"`.
- The dirty flag of `get_repository_info` comes from a scan with the backend's default options, which list ignored files. An ignored file alone therefore makes the repository dirty.
- A pull whose analysis is neither up-to-date nor fast-forward returns success. It reports no non-fast-forward condition.
- A fast-forward pull always moves `refs/heads/main` and points HEAD at it, whatever branch was checked out (`Pull.FastForwardSwitchesToMain`).
- Staging stops at the first path the working tree lacks. It collects no per-path warnings and does not remove deleted paths.
- Unstaging with a commit at HEAD makes one reset call and no path-by-path retries. The reset refuses an empty path list, so unstaging nothing fails.
- No ahead/behind counts are computed. `RepositoryInfo` and `CommitInfo` carry only the fields the code fills in.

## Model

| member | source | states |
|---|---|---|
| `Models.LabelTextsDistinct` | src-tauri/src/git_operations.rs:76-92 | the five status strings are pairwise different, so the label datatype carries the same information as the string |
| `Status.Label` | src-tauri/src/git_operations.rs:77-93 | "added" exactly when index-new is set; "untracked" exactly when no index bit is set and worktree-new is; "unknown" exactly when no bit is set; any index bit gives an index label |
| `Status.LabelFollowsPrecedence` | src-tauri/src/git_operations.rs:77-93 | the label is the first rule, in the order index-new, index-modified, index-deleted, worktree-new, worktree-modified, worktree-deleted, whose bit is set; no bit gives "unknown" |
| `Status.IndexOutranksWorktree` | src-tauri/src/git_operations.rs:77-85 | when an index bit is set, the worktree bits do not affect the label |
| `Status.Describe` | src-tauri/src/git_operations.rs:74-101 | `staged` holds exactly when an index bit is set; an untracked entry is never staged; an added one always is |
| `Status.GetStatus` | src-tauri/src/git_operations.rs:62-105 | a failed scan is an error; otherwise one record per entry, in scan order |
| `Conflicts.ConflictPath` | src-tauri/src/git_operations.rs:540-542 | the ancestor's path when present; the empty string when no stage is present |
| `Conflicts.ConflictPathIsFirstPresentStage` | src-tauri/src/git_operations.rs:540-542 | the path is that of the first present stage in the order ancestor, ours, theirs |
| `Conflicts.ConflictPathAgreesWithStages` | src-tauri/src/git_operations.rs:540-542 | when all present stages share a path, that path is reported |
| `Conflicts.Summarise` | src-tauri/src/git_operations.rs:544-548 | each side is "modified" exactly when its stage is present and "deleted" exactly when it is missing |
| `Conflicts.GetConflicts` | src-tauri/src/git_operations.rs:532-552 | succeeds exactly when the listing and every item can be read; then one summary per conflict, in order |
| `CommitDiff.Prefix` | src-tauri/src/git_operations.rs:209-214 | the prefix is the origin itself for '+', '-' and ' ', and empty for any other origin |
| `CommitDiff.PathsComplete` | src-tauri/src/git_operations.rs:216-230 | a file gets a record exactly when some line of the stream belongs to it |
| `CommitDiff.PathsDistinct` | src-tauri/src/git_operations.rs:216-230 | no file gets two records |
| `CommitDiff.PathsGrowByPrefix` | src-tauri/src/git_operations.rs:223-230 | records are in order of first appearance: a longer stream only appends files |
| `CommitDiff.AbsentPathIsEmpty` | src-tauri/src/git_operations.rs:224-229 | a file with no line has zero counts and empty text, so a new record starts from its first line alone |
| `CommitDiff.PathsStep` | src-tauri/src/git_operations.rs:216-230 | a line lists its file after the others exactly when the file was not listed yet |
| `CommitDiff.SummaryStep` | src-tauri/src/git_operations.rs:216-229 | a line changes only its own file's record: one more addition for '+', one more deletion for '-', and its rendered text appended |
| `CommitDiff.SummariesExtendKnown` | src-tauri/src/git_operations.rs:216-222 | a line of a listed file adds one to that file's additions for '+' and deletions for '-', appends its rendered text, and leaves the other records unchanged |
| `CommitDiff.SummariesExtendNew` | src-tauri/src/git_operations.rs:223-230 | a line of a new file appends a record holding that line's counts and text |
| `CommitDiff.FindInfo` | src-tauri/src/git_operations.rs:216 | returns the first record with the path, or none when no record has it |
| `CommitDiff.GetCommitDiff` | src-tauri/src/git_operations.rs:176-236 | an unavailable patch is an error; otherwise one record per file in order of first appearance, whose additions and deletions count its '+' and '-' lines and whose text is its prefixed lines in order |
| `History.FirstUnresolved` | src-tauri/src/git_operations.rs:341-349 | the position of the first walk item without an id or stored commit: all items before it resolve |
| `History.GetCommitHistory` | src-tauri/src/git_operations.rs:330-361 | an unreadable HEAD is an error; otherwise the result is the first min(limit, walk length) commits in walk order; it fails exactly when an item within that prefix has no id or no stored commit, and then with the error of the first such item |
| `Branches.FirstUnnamed` | src-tauri/src/git_operations.rs:295-300 | the position of the first unreadable branch item: all items before it are named |
| `Branches.GetBranches` | src-tauri/src/git_operations.rs:282-313 | a listing that cannot be produced is an error; otherwise it succeeds exactly when every item is named, and then gives one record per branch, in listing order, never remote; a branch is current exactly when its name equals HEAD's short name, so none is current when HEAD cannot be read; otherwise the first unreadable item fails the call with its own error |
| `Refs.ReadHead` | src-tauri/src/git_operations.rs:39-41 | HEAD can be read exactly when it leads to a commit, directly or through its branch; it then names that branch, or HEAD itself when detached |
| `Refs.HeadShorthand` | src-tauri/src/git_operations.rs:287-291 | HEAD's short name is available exactly when HEAD can be read |
| `Refs.CheckedOutBranchShorthand` | src-tauri/src/git_operations.rs:43-44 | with HEAD on `refs/heads/b` and `b` having a commit, HEAD is a branch and its short name is `b` |
| `Refs.RefStore.SetTarget` | src-tauri/src/git_operations.rs:485-487 | moves a direct reference; a missing or symbolic reference is refused and nothing changes |
| `Refs.RefStore.SetHead` | src-tauri/src/git_operations.rs:489-490 | HEAD becomes a symbolic reference to the named branch; nothing else changes |
| `Refs.RefStore.CheckoutHead` | src-tauri/src/git_operations.rs:492-493 | records one checkout request, which succeeds as the working tree allows |
| `RepoInfo.GetRepositoryInfo` | src-tauri/src/git_operations.rs:38-60 | fails exactly when HEAD or the status scan cannot be read, HEAD first; dirty exactly when the scan has an entry; the label is "detached HEAD" off a branch and the branch's short name on one |
| `RepoInfo.ReportsCheckedOutBranch` | src-tauri/src/git_operations.rs:43-44 | with HEAD on branch `b` that has a commit, the label is `b` |
| `RepoInfo.UnbornBranchFails` | src-tauri/src/git_operations.rs:39-41 | on a branch with no commit yet the call fails with the HEAD error |
| `RepoInfo.LabelMatchesCurrentBranch` | src-tauri/src/git_operations.rs:43-47 | on a branch, the reported label is exactly the name the branch list marks current |
| `Commit.PlanCommit` | src-tauri/src/git_operations.rs:251-277 | the commit is signed by the configured identity, else by "User <user@example.com>", as author and committer; it updates HEAD; it has no parent exactly when HEAD has no commit, and otherwise exactly one, HEAD's commit |
| `Commit.FirstCommitHasNoParent` | src-tauri/src/git_operations.rs:256-265 | the first commit on a branch without commits is a root commit |
| `Commit.CommitExtendsCheckedOutBranch` | src-tauri/src/git_operations.rs:256-265 | on a branch with a commit, the new commit's only parent is that branch's commit |
| `IndexOps.Index.AddPath` | src-tauri/src/git_operations.rs:113-115 | stages the working-tree content of a path; refuses a path the working tree lacks and changes nothing then |
| `IndexOps.Index.RemovePath` | src-tauri/src/git_operations.rs:136 | drops the path's entry, if any |
| `IndexOps.Index.ResetPaths` | src-tauri/src/git_operations.rs:130-131 | each listed path takes its entry from HEAD's tree, or loses it when the tree has none |
| `IndexOps.Index.Write` | src-tauri/src/git_operations.rs:118-120 | counts one write; a successful write puts the in-memory entries on disk, a failed one leaves the disk as it was |
| `IndexOps.FirstMissing` | src-tauri/src/git_operations.rs:112-116 | the position of the first path the working tree lacks: all before it are present |
| `IndexOps.AddAllEffect` | src-tauri/src/git_operations.rs:112-116 | staging a list of paths gives each its working-tree content and leaves every other entry alone |
| `IndexOps.RemoveAllEffect` | src-tauri/src/git_operations.rs:135-137 | dropping a list of paths removes exactly those entries |
| `IndexOps.ResetAllEffect` | src-tauri/src/git_operations.rs:129-131 | resetting makes every listed path agree with HEAD's tree and leaves every other entry alone |
| `IndexOps.UnstageUndoesStageUnborn` | src-tauri/src/git_operations.rs:132-138 | before the first commit, unstaging freshly staged paths restores the index |
| `IndexOps.UnstageUndoesStage` | src-tauri/src/git_operations.rs:129-131 | with a commit, unstaging paths whose entries matched HEAD restores the index after staging them |
| `IndexOps.StageFiles` | src-tauri/src/git_operations.rs:107-123 | the first path the working tree lacks fails the call with an error naming it, before any write, leaving the disk untouched; otherwise every path is staged and the index written exactly once |
| `IndexOps.UnstageFiles` | src-tauri/src/git_operations.rs:125-142 | with a commit at HEAD, an empty path list fails and changes nothing, and otherwise the paths are reset to its tree; without a commit, they are dropped; whenever a reset or a removal runs, the index is written exactly once, and a failed write is reported with the branch's own error |
| `Pull.PullAfterFetch` | src-tauri/src/git_operations.rs:464-496 | a missing FETCH_HEAD, an unreadable fetched commit, a failed analysis, a missing `refs/heads/main` and a symbolic one each fail with their own error and change nothing; up to date (whatever the fast-forward bit says) or diverged: success, references unchanged and no checkout; fast-forward from a direct `refs/heads/main`: main moves to the fetched commit, HEAD points at main, a checkout is requested, every other reference is unchanged, and a failing checkout leaves the references moved |
| `Pull.FastForwardSwitchesToMain` | src-tauri/src/git_operations.rs:480-490 | a fast-forward taken on another branch leaves that branch alone and switches HEAD to `refs/heads/main` |
| `Pull.CommitAfterFastForwardExtendsFetched` | src-tauri/src/git_operations.rs:485-490 | after a fast-forward the next commit's parent is the fetched commit |
| `Pull.PullChanges` | src-tauri/src/git_operations.rs:464-496 | the store ends as the decision prescribes; an up-to-date analysis succeeds and changes nothing; every failure before the checkout leaves the references and the checkout count unchanged; a fast-forward from a direct `refs/heads/main` moves main to the fetched commit, points HEAD at it, requests exactly one checkout and succeeds exactly when the checkout does |

## Left out

- Network operations: clone, push, fetch and the fetch step of pull, with their SSH credential callbacks and the unused callback builder that reads `HOME`. Only what follows the fetch is modelled.
- Pass-through operations: `open_repository`, `stash_save`, `stash_pop`, `stash_list`, `set_remote_url`, `checkout_branch`, `create_branch`, `resolve_conflict` and `get_diff`. Each only forwards to the backend, or emits zero-count records.
- `discard_changes`: its checkout and its file or directory deletion act on the filesystem, which is not modelled.
- Working-tree checkouts after a fast-forward are only counted. The files they write are not modelled.
- Backend internals are inputs: status computation, the revwalk order, diff generation, merge analysis, object lookup and commit hashing.
- Commit.PlanCommit: the signatures carry no time; the backend stamps both with the current clock, which is not modelled.
- Commit.PlanCommit: builds the commit request only. Writing the index as a tree, creating the commit object and moving the reference HEAD names are backend work and are left out.
- Loading the index can fail in the source. The model starts from a loaded `Index`.
- Creating the revwalk can fail in the source. The model does not have that failure.
- Moving a reference can fail on disk for reasons other than being symbolic. The model does not have those failures.
- The failures of finding a commit, its trees and its patch are one tag, `DiffFailed`.
- Reading HEAD follows one symbolic step. The backend follows chains of symbolic references.
- Unstaging reads its paths as literal paths. The backend reads them as path patterns.
- Invalid UTF-8 is not modelled: strings are character sequences. The source's fallbacks to "unknown", "Unknown" or "" for undecodable paths, branch names, messages, authors and emails never arise. Lossy decoding of patch and conflict bytes is not modelled either.
- The text of error messages is reduced to the tags of `GitError`.
- Ahead/behind counts, `is_pushed` and commit parents are declared in the records but never computed, so they are not modelled. The same holds for settings, safety snapshots, the session lock and the filesystem watcher: none of these has code in the modelled file.
