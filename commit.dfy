/**
 * What a new commit is built from: the identity it is signed with and its
 * parents. The commit is recorded through HEAD, so it extends whatever HEAD
 * stands for.
 */
module Commit {
  import opened Wrappers
  import opened Models
  import opened Refs

  /** A name and an email; the time the backend stamps on a signature is not part of it. */
  datatype Signature = Signature(name: string, email: string)

  /** The identity used when the repository configures none. */
  const PlaceholderIdentity: Signature := Signature("User", "user@example.com")

  /** The request handed to the backend to write a commit of the current index. */
  datatype CommitRequest = CommitRequest(
    updateRef: string, author: Signature, committer: Signature, message: string, parents: seq<Oid>)

  /**
   * The commit to write: signed by the configured identity or else the
   * placeholder, as both author and committer, with the commit HEAD leads to
   * as its only parent, or no parent at all when HEAD has no commit yet.
   */
  function PlanCommit(refs: RefMap, configured: Option<Signature>, message: string): (req: CommitRequest)
    ensures req.updateRef == HeadName && req.message == message
    ensures req.author == req.committer
    ensures configured.Some? ==> req.author == configured.value
    ensures configured.None? ==> req.author == PlaceholderIdentity
    ensures |req.parents| <= 1
    ensures req.parents == [] <==> ReadHead(refs).None?
    ensures ReadHead(refs).Some? ==> req.parents == [ReadHead(refs).value.commit]
  {
    var signature := if configured.Some? then configured.value else PlaceholderIdentity;
    var parents := match ReadHead(refs) case Some(head) => [head.commit] case None => [];
    CommitRequest(HeadName, signature, signature, message, parents)
  }

  /** The first commit on a branch that has none yet is a root commit. */
  lemma FirstCommitHasNoParent(refs: RefMap, configured: Option<Signature>, message: string, b: string)
    requires HeadName in refs && refs[HeadName] == Symbolic(BranchPrefix + b)
    requires BranchPrefix + b !in refs
    ensures PlanCommit(refs, configured, message).parents == []
  {
  }

  /** On a branch with a commit, the new commit extends that branch's commit. */
  lemma CommitExtendsCheckedOutBranch(refs: RefMap, configured: Option<Signature>, message: string, b: string)
    requires HeadName in refs && refs[HeadName] == Symbolic(BranchPrefix + b)
    requires BranchPrefix + b in refs && refs[BranchPrefix + b].Direct?
    ensures PlanCommit(refs, configured, message).parents == [refs[BranchPrefix + b].oid]
  {
  }
}
