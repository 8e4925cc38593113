/**
 * The reference store as the operations see it: a map from reference names to
 * either a commit id or the name of another reference. HEAD is read through at
 * most one symbolic step, as on a branch checkout; a HEAD whose branch has no
 * commit yet (a fresh repository) cannot be read.
 */
module Refs {
  import opened Wrappers
  import opened Models

  datatype Target = Direct(oid: Oid) | Symbolic(name: string)

  type RefMap = map<string, Target>

  const HeadName: string := "HEAD"
  const FetchHeadName: string := "FETCH_HEAD"
  const BranchPrefix: string := "refs/heads/"
  const MainBranchRef: string := "refs/heads/main"

  /** The reference HEAD stands for (a branch, or HEAD itself when detached) and its commit. */
  datatype Head = Head(name: string, commit: Oid)

  predicate HasPrefix(prefix: string, s: string)
  {
    |prefix| <= |s| && s[..|prefix|] == prefix
  }

  /** The commit a reference leads to, following at most one symbolic step. */
  function Peel(refs: RefMap, name: string): Option<Oid>
  {
    if name !in refs then None
    else match refs[name]
      case Direct(oid) => Some(oid)
      case Symbolic(t) => if t in refs && refs[t].Direct? then Some(refs[t].oid) else None
  }

  /** What reading HEAD yields; None when HEAD is missing or names a branch without a commit. */
  function ReadHead(refs: RefMap): (h: Option<Head>)
    ensures h.Some? <==> Peel(refs, HeadName).Some?
    ensures h.Some? ==> h.value.commit == Peel(refs, HeadName).value
    ensures h.Some? && refs[HeadName].Direct? ==> h.value.name == HeadName
    ensures h.Some? && refs[HeadName].Symbolic? ==> h.value.name == refs[HeadName].name
  {
    if HeadName !in refs then None
    else match refs[HeadName]
      case Direct(oid) => Some(Head(HeadName, oid))
      case Symbolic(t) => if t in refs && refs[t].Direct? then Some(Head(t, refs[t].oid)) else None
  }

  /** A reference is a local branch when it lives under refs/heads/. */
  predicate IsBranch(name: string)
  {
    HasPrefix(BranchPrefix, name)
  }

  /** The short name of a reference: the first of the usual namespaces it lives in is dropped. */
  function Shorthand(name: string): (s: string)
    ensures |s| <= |name|
    ensures s == name[|name| - |s|..]
  {
    if HasPrefix("refs/heads/", name) then name[11..]
    else if HasPrefix("refs/tags/", name) then name[10..]
    else if HasPrefix("refs/remotes/", name) then name[13..]
    else if HasPrefix("refs/", name) then name[5..]
    else name
  }

  /** The short name of what HEAD stands for; None when HEAD cannot be read. */
  function HeadShorthand(refs: RefMap): (n: Option<string>)
    ensures n.Some? <==> ReadHead(refs).Some?
  {
    match ReadHead(refs)
    case None => None
    case Some(h) => Some(Shorthand(h.name))
  }

  /** With HEAD on a branch that has a commit, its short name is the branch name. */
  lemma CheckedOutBranchShorthand(refs: RefMap, b: string)
    requires HeadName in refs && refs[HeadName] == Symbolic(BranchPrefix + b)
    requires BranchPrefix + b in refs && refs[BranchPrefix + b].Direct?
    ensures ReadHead(refs).Some? && IsBranch(ReadHead(refs).value.name)
    ensures HeadShorthand(refs) == Some(b)
  {
    ShorthandOfBranch(b);
  }

  lemma ShorthandOfBranch(b: string)
    ensures IsBranch(BranchPrefix + b)
    ensures Shorthand(BranchPrefix + b) == b
  {
    var n := BranchPrefix + b;
    assert n[..|BranchPrefix|] == BranchPrefix;
    assert n[11..] == b;
  }

  /**
   * A reference store that is updated in place; the operations that only read
   * take its map. Each forced checkout of the working tree is counted, since
   * the working tree itself is not modelled.
   */
  class RefStore {
    var refs: RefMap
    var checkouts: nat

    constructor (initial: RefMap)
      ensures refs == initial && checkouts == 0
    {
      refs := initial;
      checkouts := 0;
    }

    /** Moves a direct reference to a new commit; a symbolic or missing one is refused. */
    method SetTarget(name: string, oid: Oid) returns (ok: bool)
      modifies this`refs
      ensures ok <==> name in old(refs) && old(refs)[name].Direct?
      ensures refs == if ok then old(refs)[name := Direct(oid)] else old(refs)
    {
      ok := name in refs && refs[name].Direct?;
      if ok {
        refs := refs[name := Direct(oid)];
      }
    }

    /** Points HEAD at a reference by name. */
    method SetHead(name: string)
      modifies this`refs
      ensures refs == old(refs)[HeadName := Symbolic(name)]
    {
      refs := refs[HeadName := Symbolic(name)];
    }

    /** Requests a forced checkout of HEAD; whether the working tree accepts it is an input. */
    method CheckoutHead(succeeds: bool) returns (ok: bool)
      modifies this`checkouts
      ensures checkouts == old(checkouts) + 1
      ensures ok == succeeds
    {
      checkouts := checkouts + 1;
      ok := succeeds;
    }
  }
}
