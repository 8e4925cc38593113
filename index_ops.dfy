/**
 * Staging and unstaging. The index is a map from paths to staged content; the
 * operations edit it in memory and then write it to disk once.
 */
module IndexOps {
  import opened Wrappers
  import opened Models
  import opened Refs

  /** The content staged for, or present in the working tree at, a path. */
  type Blob = string

  type Entries = map<string, Blob>

  /**
   * The repository's index: the entries held in memory, the entries last
   * written to disk, and how many writes were attempted.
   */
  class Index {
    var entries: Entries
    var onDisk: Entries
    var writes: nat

    constructor (loaded: Entries)
      ensures entries == loaded && onDisk == loaded && writes == 0
    {
      entries := loaded;
      onDisk := loaded;
      writes := 0;
    }

    /** Stages the working-tree content of a path; a path the working tree lacks is refused. */
    method AddPath(path: string, worktree: Entries) returns (ok: bool)
      modifies this`entries
      ensures ok <==> path in worktree
      ensures entries == if ok then old(entries)[path := worktree[path]] else old(entries)
    {
      ok := path in worktree;
      if ok {
        entries := entries[path := worktree[path]];
      }
    }

    /** Drops the entry of a path, if there is one. */
    method RemovePath(path: string)
      modifies this`entries
      ensures entries == old(entries) - {path}
    {
      entries := entries - {path};
    }

    /** Gives each path the entry it has in the tree, or none when the tree lacks it. */
    method ResetPaths(paths: seq<string>, tree: Entries)
      modifies this`entries
      ensures entries == ResetAll(old(entries), paths, tree)
    {
      entries := ResetAll(entries, paths, tree);
    }

    /** Writes the in-memory entries to disk; a failed write leaves the disk as it was. */
    method Write(writable: bool) returns (ok: bool)
      modifies this`onDisk, this`writes
      ensures writes == old(writes) + 1
      ensures ok == writable
      ensures onDisk == if ok then entries else old(onDisk)
    {
      writes := writes + 1;
      ok := writable;
      if ok {
        onDisk := entries;
      }
    }
  }

  /** The entries after staging each path in turn. */
  function AddAll(m: Entries, paths: seq<string>, worktree: Entries): Entries
    requires forall p :: p in paths ==> p in worktree
  {
    if paths == [] then m
    else
      var last := paths[|paths| - 1];
      AddAll(m, paths[..|paths| - 1], worktree)[last := worktree[last]]
  }

  /** The entries after dropping each path in turn. */
  function RemoveAll(m: Entries, paths: seq<string>): Entries
  {
    if paths == [] then m
    else RemoveAll(m, paths[..|paths| - 1]) - {paths[|paths| - 1]}
  }

  /** The entries after resetting each path in turn to the tree. */
  function ResetAll(m: Entries, paths: seq<string>, tree: Entries): Entries
  {
    if paths == [] then m
    else
      var last := paths[|paths| - 1];
      var r := ResetAll(m, paths[..|paths| - 1], tree);
      if last in tree then r[last := tree[last]] else r - {last}
  }

  /** The position of the first path the working tree lacks, or the length when there is none. */
  function FirstMissing(paths: seq<string>, worktree: Entries): (k: nat)
    ensures k <= |paths|
    ensures forall j :: 0 <= j < k ==> paths[j] in worktree
    ensures k < |paths| ==> paths[k] !in worktree
  {
    if paths == [] || paths[0] !in worktree then 0
    else 1 + FirstMissing(paths[1..], worktree)
  }

  /** Staging puts the working-tree content at every path and leaves every other entry alone. */
  lemma {:induction false} AddAllEffect(m: Entries, paths: seq<string>, worktree: Entries)
    requires forall p :: p in paths ==> p in worktree
    ensures forall p :: p in AddAll(m, paths, worktree) <==> p in m || p in paths
    ensures forall p :: p in paths ==> AddAll(m, paths, worktree)[p] == worktree[p]
    ensures forall p :: p in m && p !in paths ==> AddAll(m, paths, worktree)[p] == m[p]
  {
    if paths != [] {
      var init := paths[..|paths| - 1];
      assert forall p :: p in paths <==> p in init || p == paths[|paths| - 1];
      AddAllEffect(m, init, worktree);
    }
  }

  /** Dropping removes exactly the listed paths. */
  lemma {:induction false} RemoveAllEffect(m: Entries, paths: seq<string>)
    ensures RemoveAll(m, paths) == m - (set p | p in paths)
  {
    if paths != [] {
      var init := paths[..|paths| - 1];
      assert (set p | p in paths) == (set p | p in init) + {paths[|paths| - 1]};
      RemoveAllEffect(m, init);
    }
  }

  /** Resetting makes every listed path agree with the tree and leaves every other entry alone. */
  lemma {:induction false} ResetAllEffect(m: Entries, paths: seq<string>, tree: Entries)
    ensures forall p :: p in paths ==> (p in ResetAll(m, paths, tree) <==> p in tree)
    ensures forall p :: p in paths && p in tree ==> ResetAll(m, paths, tree)[p] == tree[p]
    ensures forall p :: p !in paths ==> (p in ResetAll(m, paths, tree) <==> p in m)
    ensures forall p :: p !in paths && p in m ==> ResetAll(m, paths, tree)[p] == m[p]
  {
    if paths != [] {
      var init := paths[..|paths| - 1];
      assert forall p :: p in paths <==> p in init || p == paths[|paths| - 1];
      ResetAllEffect(m, init, tree);
    }
  }

  /** Before the first commit, unstaging paths that were not staged before undoes staging them. */
  lemma UnstageUndoesStageUnborn(m: Entries, paths: seq<string>, worktree: Entries)
    requires forall p :: p in paths ==> p in worktree
    requires forall p :: p in paths ==> p !in m
    ensures RemoveAll(AddAll(m, paths, worktree), paths) == m
  {
    AddAllEffect(m, paths, worktree);
    RemoveAllEffect(AddAll(m, paths, worktree), paths);
  }

  /** With a commit, unstaging paths whose entries matched HEAD undoes staging them. */
  lemma UnstageUndoesStage(m: Entries, paths: seq<string>, worktree: Entries, tree: Entries)
    requires forall p :: p in paths ==> p in worktree
    requires forall p :: p in paths ==> (p in m <==> p in tree)
    requires forall p :: p in paths && p in m ==> m[p] == tree[p]
    ensures ResetAll(AddAll(m, paths, worktree), paths, tree) == m
  {
    var staged := AddAll(m, paths, worktree);
    AddAllEffect(m, paths, worktree);
    ResetAllEffect(staged, paths, tree);
  }

  /**
   * Stages each path in turn and then writes the index once. The first path the
   * working tree lacks stops the call with an error naming it, before anything
   * is written: the paths staged before it stay staged in memory only.
   */
  method StageFiles(index: Index, paths: seq<string>, worktree: Entries, writable: bool) returns (r: Outcome<GitError>)
    modifies index
    ensures FirstMissing(paths, worktree) < |paths| ==>
      && r == Fail(StageFailed(paths[FirstMissing(paths, worktree)]))
      && index.entries == AddAll(old(index.entries), paths[..FirstMissing(paths, worktree)], worktree)
      && index.onDisk == old(index.onDisk) && index.writes == old(index.writes)
    ensures FirstMissing(paths, worktree) == |paths| ==>
      && index.entries == AddAll(old(index.entries), paths, worktree)
      && index.writes == old(index.writes) + 1
      && r == (if writable then Pass else Fail(IndexWriteFailed))
      && index.onDisk == (if writable then index.entries else old(index.onDisk))
  {
    for i := 0 to |paths|
      invariant forall j :: 0 <= j < i ==> paths[j] in worktree
      invariant index.entries == AddAll(old(index.entries), paths[..i], worktree)
      invariant index.onDisk == old(index.onDisk) && index.writes == old(index.writes)
    {
      var ok := index.AddPath(paths[i], worktree);
      if !ok {
        return Fail(StageFailed(paths[i]));
      }
      assert paths[..i + 1][..i] == paths[..i];
    }
    assert paths[..|paths|] == paths;
    var written := index.Write(writable);
    if !written {
      return Fail(IndexWriteFailed);
    }
    return Pass;
  }

  /** The staged tree of the commit HEAD leads to, when there is one. */
  function HeadTree(refs: RefMap, trees: map<Oid, Entries>): Option<Entries>
  {
    match ReadHead(refs)
    case Some(head) => if head.commit in trees then Some(trees[head.commit]) else None
    case None => None
  }

  /**
   * Unstages the paths. With a commit at HEAD, each path's entry is reset to
   * that commit's tree and the index written; the reset refuses an empty list
   * of paths, so that call fails and touches nothing. Without a commit, each
   * path's entry is dropped and the index written.
   */
  method UnstageFiles(index: Index, refs: RefMap, trees: map<Oid, Entries>, paths: seq<string>, writable: bool)
    returns (r: Outcome<GitError>)
    modifies index
    ensures HeadTree(refs, trees).Some? && paths == [] ==>
      && r == Fail(UnstageFailed)
      && index.entries == old(index.entries)
      && index.onDisk == old(index.onDisk) && index.writes == old(index.writes)
    ensures HeadTree(refs, trees).Some? && paths != [] ==>
      && index.entries == ResetAll(old(index.entries), paths, HeadTree(refs, trees).value)
      && r == (if writable then Pass else Fail(UnstageFailed))
    ensures HeadTree(refs, trees).None? ==>
      && index.entries == RemoveAll(old(index.entries), paths)
      && r == (if writable then Pass else Fail(IndexWriteFailed))
    ensures HeadTree(refs, trees).None? || paths != [] ==>
      && index.writes == old(index.writes) + 1
      && index.onDisk == (if writable then index.entries else old(index.onDisk))
  {
    var tree := HeadTree(refs, trees);
    if tree.Some? {
      if paths == [] {
        return Fail(UnstageFailed);
      }
      index.ResetPaths(paths, tree.value);
      var written := index.Write(writable);
      if !written {
        return Fail(UnstageFailed);
      }
    } else {
      for i := 0 to |paths|
        invariant index.entries == RemoveAll(old(index.entries), paths[..i])
        invariant index.onDisk == old(index.onDisk) && index.writes == old(index.writes)
      {
        index.RemovePath(paths[i]);
        assert paths[..i + 1][..i] == paths[..i];
      }
      assert paths[..|paths|] == paths;
      var written := index.Write(writable);
      if !written {
        return Fail(IndexWriteFailed);
      }
    }
    return Pass;
  }
}
