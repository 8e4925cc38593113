/** The list of local branches, each marked current when it is what HEAD names. */
module Branches {
  import opened Wrappers
  import opened Models
  import opened Refs

  /** An item of the branch listing: unreadable, with an unreadable name, or named. */
  datatype BranchItem = ReadFailed | NameFailed | Named(name: string)

  /** The error an unreadable item raises. */
  function ItemError(item: BranchItem): GitError
  {
    if item.ReadFailed? then BranchReadFailed else BranchNameFailed
  }

  /** The position of the first unreadable item; the listing's length when every item is named. */
  function FirstUnnamed(items: seq<BranchItem>): (k: nat)
    ensures k <= |items|
    ensures forall j :: 0 <= j < k ==> items[j].Named?
    ensures k < |items| ==> !items[k].Named?
  {
    if items == [] || !items[0].Named? then 0
    else 1 + FirstUnnamed(items[1..])
  }

  /**
   * One record per listed branch, in listing order. A listing that cannot be
   * produced or an item that cannot be read fails the whole call; a HEAD that
   * cannot be read only means that no branch is current.
   */
  method GetBranches(listing: Option<seq<BranchItem>>, refs: RefMap) returns (r: Result<seq<BranchInfo>, GitError>)
    ensures listing.None? ==> r == Failure(BranchesFailed)
    ensures r.Success? <==> listing.Some? && forall i :: 0 <= i < |listing.value| ==> listing.value[i].Named?
    ensures listing.Some? && FirstUnnamed(listing.value) < |listing.value| ==>
      r == Failure(ItemError(listing.value[FirstUnnamed(listing.value)]))
    ensures r.Success? ==> |r.value| == |listing.value|
    ensures r.Success? ==> forall i :: 0 <= i < |r.value| ==>
      r.value[i].name == listing.value[i].name && !r.value[i].isRemote
      && (r.value[i].isCurrent <==> HeadShorthand(refs) == Some(r.value[i].name))
    ensures r.Success? && ReadHead(refs).None? ==> forall i :: 0 <= i < |r.value| ==> !r.value[i].isCurrent
    ensures r.Success? ==> forall i, j :: 0 <= i < |r.value| && 0 <= j < |r.value| && r.value[i].isCurrent && r.value[j].isCurrent ==>
      r.value[i].name == r.value[j].name
  {
    if listing.None? {
      return Failure(BranchesFailed);
    }
    var items := listing.value;
    var current := HeadShorthand(refs);
    assert ReadHead(refs).None? ==> current.None?;
    var branches: seq<BranchInfo> := [];
    for i := 0 to |items|
      invariant |branches| == i
      invariant i <= FirstUnnamed(items)
      invariant forall j :: 0 <= j < i ==>
        branches[j] == BranchInfo(items[j].name, current == Some(items[j].name), false)
    {
      match items[i]
      case ReadFailed =>
        return Failure(BranchReadFailed);
      case NameFailed =>
        return Failure(BranchNameFailed);
      case Named(name) =>
        branches := branches + [BranchInfo(name, current == Some(name), false)];
    }
    return Success(branches);
  }
}
