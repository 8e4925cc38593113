/**
 * The bounded commit history: the ids produced by a walk from HEAD are taken
 * in order until the limit is reached, each one looked up as a commit.
 */
module History {
  import opened Wrappers
  import opened Models
  import opened Refs

  /** The fields of a stored commit that the history reports. */
  datatype CommitRecord = CommitRecord(message: string, author: string, email: string, time: int)

  /** An item of the walk: an id, or None when the walk failed to produce one. */
  type WalkItem = Option<Oid>

  /** An item of the walk that yields a stored commit. */
  predicate Resolves(item: WalkItem, db: map<Oid, CommitRecord>)
  {
    item.Some? && item.value in db
  }

  /** The error an item of the walk raises. */
  function ItemError(item: WalkItem): GitError
  {
    if item.None? then OidFailed else CommitLookupFailed
  }

  /** The position of the first item that yields no stored commit; the walk's length when all do. */
  function FirstUnresolved(walk: seq<WalkItem>, db: map<Oid, CommitRecord>): (k: nat)
    ensures k <= |walk|
    ensures forall j :: 0 <= j < k ==> Resolves(walk[j], db)
    ensures k < |walk| ==> !Resolves(walk[k], db)
  {
    if walk == [] || !Resolves(walk[0], db) then 0
    else 1 + FirstUnresolved(walk[1..], db)
  }

  function Describe(oid: Oid, c: CommitRecord): CommitInfo
  {
    CommitInfo(oid, c.message, c.author, c.email, c.time)
  }

  function Min(a: nat, b: nat): nat
  {
    if a <= b then a else b
  }

  /**
   * The first `limit` commits of the walk, in walk order. The walk cannot start
   * when HEAD cannot be read; a failing item within the limit fails the whole
   * call, and items past the limit are never looked at.
   */
  method GetCommitHistory(refs: RefMap, walk: seq<WalkItem>, db: map<Oid, CommitRecord>, limit: nat)
    returns (r: Result<seq<CommitInfo>, GitError>)
    ensures ReadHead(refs).None? ==> r == Failure(PushHeadFailed)
    ensures r.Success? <==>
      ReadHead(refs).Some? && forall i :: 0 <= i < Min(limit, |walk|) ==> Resolves(walk[i], db)
    ensures r.Success? ==> |r.value| == Min(limit, |walk|) && |r.value| <= limit
    ensures r.Success? ==> forall i :: 0 <= i < |r.value| ==>
      Resolves(walk[i], db) && r.value[i] == Describe(walk[i].value, db[walk[i].value])
    ensures ReadHead(refs).Some? && FirstUnresolved(walk, db) < Min(limit, |walk|) ==>
      r == Failure(ItemError(walk[FirstUnresolved(walk, db)]))
  {
    if ReadHead(refs).None? {
      return Failure(PushHeadFailed);
    }
    var commits: seq<CommitInfo> := [];
    var i := 0;
    while i < |walk|
      invariant i <= |walk| && i <= limit
      invariant |commits| == i && i <= FirstUnresolved(walk, db)
      invariant forall j :: 0 <= j < i ==> Resolves(walk[j], db) && commits[j] == Describe(walk[j].value, db[walk[j].value])
    {
      if i >= limit {
        break;
      }
      if walk[i].None? {
        return Failure(OidFailed);
      }
      var oid := walk[i].value;
      if oid !in db {
        return Failure(CommitLookupFailed);
      }
      var commit := db[oid];
      commits := commits + [CommitInfo(oid, commit.message, commit.author, commit.email, commit.time)];
      i := i + 1;
    }
    return Success(commits);
  }
}
