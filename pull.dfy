/**
 * The part of a pull that follows the fetch: FETCH_HEAD is compared with HEAD
 * by a merge analysis, and a fast-forward moves refs/heads/main to the fetched
 * commit, points HEAD at refs/heads/main and forces a checkout.
 */
module Pull {
  import opened Wrappers
  import opened Models
  import opened Refs
  import opened Commit

  /** The two answers of the merge analysis the decision reads. */
  datatype Analysis = Analysis(upToDate: bool, fastForward: bool)

  /** What the decision does: its outcome, the references afterwards, and whether a checkout was requested. */
  datatype PullEffect = PullEffect(outcome: Outcome<GitError>, refs: RefMap, checkout: bool)

  /** The commit FETCH_HEAD leads to. */
  function FetchedCommit(refs: RefMap): Option<Oid>
  {
    Peel(refs, FetchHeadName)
  }

  /** The fetched commit was read and the analysis asks for a fast-forward. */
  predicate WantsFastForward(refs: RefMap, analysis: Option<Analysis>)
  {
    FetchedCommit(refs).Some? && analysis.Some? && !analysis.value.upToDate && analysis.value.fastForward
  }

  /**
   * The decision after the fetch. Up to date: nothing changes. Fast-forward:
   * refs/heads/main moves to the fetched commit, HEAD is pointed at it and a
   * checkout is requested; a checkout that fails leaves the references moved.
   * Any other analysis (diverged histories) succeeds and changes nothing.
   */
  function PullAfterFetch(refs: RefMap, analysis: Option<Analysis>, checkoutOk: bool): (e: PullEffect)
    ensures e.refs != refs ==> e.checkout
    ensures e.checkout ==> analysis.Some? && !analysis.value.upToDate && analysis.value.fastForward
    ensures e.checkout ==> FetchedCommit(refs).Some? && ReadHead(e.refs) == Some(Head(MainBranchRef, FetchedCommit(refs).value))
    ensures e.checkout ==> (e.outcome.Pass? <==> checkoutOk)
    ensures forall n :: n in refs && n != MainBranchRef && n != HeadName ==> n in e.refs && e.refs[n] == refs[n]
    ensures e.refs.Keys <= refs.Keys + {HeadName}
    ensures analysis.Some? && analysis.value.upToDate ==> e.refs == refs && !e.checkout
    ensures analysis.Some? && !analysis.value.upToDate && !analysis.value.fastForward ==> e.refs == refs && !e.checkout
    ensures FetchedCommit(refs).Some? && analysis.Some? && (analysis.value.upToDate || !analysis.value.fastForward) ==>
      e.outcome == Pass
    ensures FetchHeadName !in refs ==> e == PullEffect(Fail(FetchHeadMissing), refs, false)
    ensures FetchHeadName in refs && FetchedCommit(refs).None? ==> e == PullEffect(Fail(FetchCommitFailed), refs, false)
    ensures FetchedCommit(refs).Some? && analysis.None? ==> e == PullEffect(Fail(AnalysisFailed), refs, false)
    ensures WantsFastForward(refs, analysis) && MainBranchRef !in refs ==>
      e == PullEffect(Fail(ReferenceMissing), refs, false)
    ensures WantsFastForward(refs, analysis) && MainBranchRef in refs && refs[MainBranchRef].Symbolic? ==>
      e == PullEffect(Fail(SetTargetFailed), refs, false)
    ensures WantsFastForward(refs, analysis) && MainBranchRef in refs && refs[MainBranchRef].Direct? ==>
      && e.checkout
      && e.refs[MainBranchRef] == Direct(FetchedCommit(refs).value)
      && e.refs[HeadName] == Symbolic(MainBranchRef)
  {
    if FetchHeadName !in refs then PullEffect(Fail(FetchHeadMissing), refs, false)
    else if FetchedCommit(refs).None? then PullEffect(Fail(FetchCommitFailed), refs, false)
    else if analysis.None? then PullEffect(Fail(AnalysisFailed), refs, false)
    else if analysis.value.upToDate then PullEffect(Pass, refs, false)
    else if analysis.value.fastForward then
      if MainBranchRef !in refs then PullEffect(Fail(ReferenceMissing), refs, false)
      else if refs[MainBranchRef].Symbolic? then PullEffect(Fail(SetTargetFailed), refs, false)
      else
        var moved := refs[MainBranchRef := Direct(FetchedCommit(refs).value)][HeadName := Symbolic(MainBranchRef)];
        PullEffect(if checkoutOk then Pass else Fail(CheckoutFailed), moved, true)
    else PullEffect(Pass, refs, false)
  }

  /**
   * A fast-forward taken while HEAD is on another branch leaves that branch
   * where it was and switches HEAD to refs/heads/main.
   */
  lemma FastForwardSwitchesToMain(refs: RefMap, analysis: Option<Analysis>, checkoutOk: bool, b: string)
    requires HeadName in refs && refs[HeadName] == Symbolic(b) && b != MainBranchRef && b != HeadName
    requires PullAfterFetch(refs, analysis, checkoutOk).checkout
    ensures b in refs ==> PullAfterFetch(refs, analysis, checkoutOk).refs[b] == refs[b]
    ensures PullAfterFetch(refs, analysis, checkoutOk).refs[HeadName] == Symbolic(MainBranchRef)
  {
  }

  /** After a fast-forward, the next commit is written on top of the fetched commit. */
  lemma CommitAfterFastForwardExtendsFetched(
    refs: RefMap, analysis: Option<Analysis>, checkoutOk: bool, configured: Option<Signature>, message: string)
    requires PullAfterFetch(refs, analysis, checkoutOk).checkout
    ensures PlanCommit(PullAfterFetch(refs, analysis, checkoutOk).refs, configured, message).parents
      == [FetchedCommit(refs).value]
  {
  }

  /**
   * Runs the decision on the store: reads FETCH_HEAD, consults the analysis and,
   * for a fast-forward, moves refs/heads/main, then HEAD, then checks out.
   */
  method PullChanges(store: RefStore, analysis: Option<Analysis>, checkoutOk: bool) returns (r: Outcome<GitError>)
    modifies store
    ensures store.checkouts <= old(store.checkouts) + 1
    ensures FetchedCommit(old(store.refs)).Some? && analysis.Some? && analysis.value.upToDate ==>
      r == Pass && store.refs == old(store.refs) && store.checkouts == old(store.checkouts)
    ensures r.Fail? && r.error != CheckoutFailed ==>
      store.refs == old(store.refs) && store.checkouts == old(store.checkouts)
    ensures
      WantsFastForward(old(store.refs), analysis) && MainBranchRef in old(store.refs) && old(store.refs)[MainBranchRef].Direct?
      ==>
      && store.checkouts == old(store.checkouts) + 1
      && MainBranchRef in store.refs && HeadName in store.refs
      && store.refs[MainBranchRef] == Direct(FetchedCommit(old(store.refs)).value)
      && store.refs[HeadName] == Symbolic(MainBranchRef)
      && (r.Pass? <==> checkoutOk)
    ensures PullEffect(r, store.refs, store.checkouts == old(store.checkouts) + 1)
      == PullAfterFetch(old(store.refs), analysis, checkoutOk)
  {
    if FetchHeadName !in store.refs {
      return Fail(FetchHeadMissing);
    }
    var fetched := Peel(store.refs, FetchHeadName);
    if fetched.None? {
      return Fail(FetchCommitFailed);
    }
    if analysis.None? {
      return Fail(AnalysisFailed);
    }
    if analysis.value.upToDate {
      return Pass;
    } else if analysis.value.fastForward {
      if MainBranchRef !in store.refs {
        return Fail(ReferenceMissing);
      }
      var moved := store.SetTarget(MainBranchRef, fetched.value);
      if !moved {
        return Fail(SetTargetFailed);
      }
      store.SetHead(MainBranchRef);
      var checkedOut := store.CheckoutHead(checkoutOk);
      if !checkedOut {
        return Fail(CheckoutFailed);
      }
    }
    return Pass;
  }
}
