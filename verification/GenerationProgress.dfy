// What the provider runtime manager gets done: leases on the current generation, the cleanup of
// what nobody holds any more, and another try at what could not be cleaned up.
module GenerationProgress {
  import opened Wrappers
  import opened GenerationProtocol
  import opened GenerationSystem
  import opened GenerationInvariant
  import opened GenerationProperties

  // ----- retired generations are cleaned up -----

  // The last holder of a retired generation starts its cleanup.
  lemma LastHolderStartsCleanup(y: System, a: Action, g: GenId)
    requires Invariant(y) && Enabled(y, a) && RefreshTimely(y, a) && g in y.m.generations && y.m.generations[g].retired
    requires IsHeld(y, g) && !IsHeld(Apply(y, a), g) && !Apply(y, a).m.closing
    ensures g in Apply(y, a).m.generations && Apply(y, a).m.generations[g].cleaning
  {
    HeldExactly(y, g);
    RetirementPersists(y, a, g);
    HeldExactlyAfter(y, a, g);
    LastHoldCleansUp(y, a, g);
  }

  lemma HeldExactlyAfter(y: System, a: Action, g: GenId)
    requires Invariant(y) && Enabled(y, a) && RefreshTimely(y, a) && g in Apply(y, a).m.generations
    ensures IsHeld(Apply(y, a), g) <==> 0 < Apply(y, a).m.generations[g].leases
  {
    StepKeepsInvariant(y, a);
    HeldExactly(Apply(y, a), g);
  }

  lemma LastHoldCleansUp(y: System, a: Action, g: GenId)
    requires ManagerOk(y.m) && Enabled(y, a) && g in y.m.generations && y.m.generations[g].retired
    requires 0 < y.m.generations[g].leases && !Apply(y, a).m.closing
    requires g in Apply(y, a).m.generations && Apply(y, a).m.generations[g].leases == 0
    ensures Apply(y, a).m.generations[g].cleaning
  {
    NextIdIsFresh(y.m);
    assert GenerationOk(y.m, g);
    if a.ReleaseLease? || a.EndRefresh? {
      ClosingIsFinal(y, a);
      LastReleaseCleansUp(y, a, g);
    } else {
      OnlyReleasesDrain(y, a, g);
    }
  }

  lemma ClosingIsFinal(y: System, a: Action)
    requires Enabled(y, a)
    ensures y.m.closing ==> Apply(y, a).m.closing
  {
  }

  lemma RetirementPersists(y: System, a: Action, g: GenId)
    requires Invariant(y) && Enabled(y, a) && g in y.m.generations && y.m.generations[g].retired
    ensures g in Apply(y, a).m.generations && Apply(y, a).m.generations[g].retired
  {
    NextIdIsFresh(y.m);
    RetirementIsFinal(y, a, g);
  }

  lemma HeldExactly(y: System, g: GenId)
    requires Invariant(y) && g in y.m.generations
    ensures IsHeld(y, g) <==> 0 < y.m.generations[g].leases
  {
    CleanupExcludesHolders(y, g);
    assert GenerationOk(y.m, g);
  }

  lemma LastReleaseCleansUp(y: System, a: Action, g: GenId)
    requires Enabled(y, a) && (a.ReleaseLease? || a.EndRefresh?) && g in y.m.generations
    requires y.m.generations[g].retired && !y.m.generations[g].closed && 0 < y.m.generations[g].leases && !y.m.closing
    ensures g in Apply(y, a).m.generations
    ensures Apply(y, a).m.generations[g].leases == 0 ==> Apply(y, a).m.generations[g].cleaning
  {
  }

  lemma OnlyReleasesDrain(y: System, a: Action, g: GenId)
    requires Enabled(y, a) && !a.ReleaseLease? && !a.EndRefresh?
    requires g in y.m.generations && y.m.nextId !in y.m.generations
    ensures g in Apply(y, a).m.generations && y.m.generations[g].leases <= Apply(y, a).m.generations[g].leases
  {
    if !TouchesGenerations(a) && !a.AcquireLease? && !a.RunRefresh? && !a.RunRefreshNow? {
      OtherStepKeepsGenerations(y, a);
    }
  }

  // A cleanup of `g` failed and none was started since.
  ghost predicate LastCleanupFailed(ys: seq<System>, actions: seq<Action>, n: nat, g: GenId)
    requires |ys| == |actions| + 1 && n <= |actions|
  {
    exists k | 0 <= k < n :: FailedAndRested(ys, actions, k, n, g)
  }

  predicate FailedAndRested(ys: seq<System>, actions: seq<Action>, k: nat, n: nat, g: GenId)
    requires |ys| == |actions| + 1 && k < n <= |actions|
  {
    && actions[k] == EndGenerationCleanup(g, false)
    && forall j | k < j <= n :: g in ys[j].m.generations && !ys[j].m.generations[g].cleaning
  }

  predicate IsDealtWith(y: System, g: GenId) {
    g in y.m.generations && (y.m.generations[g].closed || y.m.generations[g].cleaning)
  }

  // How a generation gets to be retired and unheld: its cleanup is started or done, or it was so before
  // and its cleanup failed just now, or nothing about it changed.
  lemma RetiredAfterStep(y: System, a: Action, g: GenId)
    requires Invariant(y) && Enabled(y, a) && RefreshTimely(y, a) && !Apply(y, a).m.closing
    requires g in Apply(y, a).m.generations && Apply(y, a).m.generations[g].retired && !IsHeld(Apply(y, a), g)
    ensures || IsDealtWith(Apply(y, a), g)
            || a == EndGenerationCleanup(g, false)
            || (g in y.m.generations && y.m.generations[g].retired && !IsHeld(y, g) && !IsDealtWith(y, g))
  {
    if g in y.m.generations && y.m.generations[g].retired {
      if IsHeld(y, g) {
        LastHolderStartsCleanup(y, a, g);
      } else {
        NextIdIsFresh(y.m);
        DealtWithStays(y, a, g);
      }
    } else {
      HeldExactlyAfter(y, a, g);
      NextIdIsFresh(y.m);
      NewlyRetired(y, a, g);
    }
  }

  lemma DealtWithStays(y: System, a: Action, g: GenId)
    requires Enabled(y, a) && g in y.m.generations && y.m.nextId !in y.m.generations
    ensures IsDealtWith(y, g) && a != EndGenerationCleanup(g, false) ==> IsDealtWith(Apply(y, a), g)
  {
    if TouchesGenerations(a) {
      DealtWithByManager(y, a, g);
    } else if !(a.AcquireLease? || a.ReleaseLease? || a.RunRefresh? || a.EndRefresh? || a.RunRefreshNow?) {
      OtherStepKeepsGenerations(y, a);
    }
  }

  lemma DealtWithByManager(y: System, a: Action, g: GenId)
    requires Enabled(y, a) && g in y.m.generations && y.m.nextId !in y.m.generations && TouchesGenerations(a)
    ensures IsDealtWith(y, g) && a != EndGenerationCleanup(g, false) ==> IsDealtWith(Apply(y, a), g)
  {
  }

  // A generation that is not yet retired does so by being replaced, and is closed at once if unheld.
  lemma NewlyRetired(y: System, a: Action, g: GenId)
    requires Enabled(y, a) && !Apply(y, a).m.closing && y.m.nextId !in y.m.generations
    requires g in Apply(y, a).m.generations && Apply(y, a).m.generations[g].retired
    requires Apply(y, a).m.generations[g].leases == 0
    requires g in y.m.generations ==> !y.m.generations[g].retired
    requires a.RetireForShutdown? ==> y.m.closing
    ensures IsDealtWith(Apply(y, a), g)
  {
    if !a.PublishCandidate? {
      ClosingIsFinal(y, a);
      OnlyPublishingAdds(y, a);
      OnlyPublishingRetires(y, a, g);
    }
  }

  lemma OnlyPublishingRetires(y: System, a: Action, g: GenId)
    requires Enabled(y, a) && !a.PublishCandidate? && !a.RetireForShutdown?
    requires g in y.m.generations && !y.m.generations[g].retired && g in Apply(y, a).m.generations
    ensures !Apply(y, a).m.generations[g].retired
  {
    if !TouchesGenerations(a) && !a.AcquireLease? && !a.ReleaseLease?
       && !a.RunRefresh? && !a.EndRefresh? && !a.RunRefreshNow?
    {
      OtherStepKeepsGenerations(y, a);
    }
  }

  // In every reachable state that is not closing, a retired generation that nobody holds is closed or
  // being cleaned up, or its last cleanup failed.
  lemma {:induction false} RetiredIsDealtWith(ys: seq<System>, actions: seq<Action>, runtime: Runtime, n: nat, g: GenId)
    requires IsRun(ys, actions) && Initial(ys[0], runtime) && n <= |actions| && !ys[n].m.closing
    requires g in ys[n].m.generations && ys[n].m.generations[g].retired && !IsHeld(ys[n], g)
    ensures IsDealtWith(ys[n], g) || LastCleanupFailed(ys, actions, n, g)
  {
    if 0 < n {
      NotClosingBefore(ys, actions, n - 1);
      StepToRetired(ys, actions, runtime, n - 1, g);
      if !IsDealtWith(ys[n], g) {
        if actions[n - 1] == EndGenerationCleanup(g, false) {
          assert FailedAndRested(ys, actions, n - 1, n, g);
        } else {
          RetiredIsDealtWith(ys, actions, runtime, n - 1, g);
          var k :| 0 <= k < n - 1 && FailedAndRested(ys, actions, k, n - 1, g);
          assert FailedAndRested(ys, actions, k, n, g);
        }
      }
    }
  }

  lemma NotClosingBefore(ys: seq<System>, actions: seq<Action>, n: nat)
    requires IsRun(ys, actions) && n < |actions| && !ys[n + 1].m.closing
    ensures !ys[n].m.closing
  {
    assert StepsAt(ys, actions, n);
    ClosingIsFinal(ys[n], actions[n]);
  }

  lemma StepToRetired(ys: seq<System>, actions: seq<Action>, runtime: Runtime, n: nat, g: GenId)
    requires IsRun(ys, actions) && Initial(ys[0], runtime) && n < |actions| && !ys[n + 1].m.closing
    requires g in ys[n + 1].m.generations && ys[n + 1].m.generations[g].retired && !IsHeld(ys[n + 1], g)
    ensures || IsDealtWith(ys[n + 1], g)
            || actions[n] == EndGenerationCleanup(g, false)
            || (g in ys[n].m.generations && ys[n].m.generations[g].retired && !IsHeld(ys[n], g)
                && !IsDealtWith(ys[n], g))
  {
    InitialSatisfiesInvariant(ys[0], runtime);
    RunKeepsInvariant(ys, actions, n);
    assert StepsAt(ys, actions, n);
    RetiredAfterStep(ys[n], actions[n], g);
  }

  // A cleanup that ends closes its generation and takes it off the retired ones if it succeeded; if it
  // failed, the generation stays where it was and the next attempt to close it starts another.
  lemma FailedCleanupsAreRepeatable(y: System, g: GenId, ok: bool)
    requires ManagerOk(y.m) && Enabled(y, EndGenerationCleanup(g, ok))
    ensures var (gen, z) := (y.m.generations[g], Apply(y, EndGenerationCleanup(g, ok)));
            && z.m.generations == y.m.generations[g := gen.(closed := ok, cleaning := false)]
            && z.m.retired == (if ok then y.m.retired - {g} else y.m.retired)
            && (!ok ==> var (m, call) := CloseGeneration(z.m, g); call.Joined? && m.generations[g].cleaning)
  {
    assert GenerationOk(y.m, g);
  }

  // ----- leases, replacements, refreshes -----

  // A lease is granted unless the manager is shutting down, and holds the generation then current.
  lemma LeasesGoToCurrent(y: System, l: nat)
    requires Invariant(y) && Enabled(y, AcquireLease(l))
    ensures var z := Apply(y, AcquireLease(l));
            && (l in z.leases <==> !y.m.closing && !y.m.closed)
            && (l in z.leases ==> z.leases == y.leases[l := Lease(y.m.current, false)] && IsHeld(z, y.m.current))
            && (l !in z.leases ==> z == y)
  {
    if !y.m.closing && !y.m.closed {
      assert l in Lessees(Apply(y, AcquireLease(l)), y.m.current);
    }
  }

  // A replacement makes a new generation of the new runtime current, unheld, and retires the old one
  // with its holders.
  lemma PublishReplacesCurrent(y: System, r: Runtime)
    requires ManagerOk(y.m) && Enabled(y, PublishCandidate(r))
    ensures var z := Apply(y, PublishCandidate(r));
            && z.m.current !in y.m.generations && z.m.current in z.m.generations
            && z.m.generations[z.m.current] == Generation(r, 0, true, false, false, false)
            && y.m.current in z.m.generations && z.m.generations[y.m.current].retired
            && (forall g | g in y.m.generations && g != y.m.current ::
                  g in z.m.generations && z.m.generations[g] == y.m.generations[g])
            && z.leases == y.leases
  {
    NextIdIsFresh(y.m);
  }

  // It also schedules a refresh on the new generation, and tracks it.
  lemma PublishSchedulesRefresh(y: System, r: Runtime)
    requires CountsOk(y) && Enabled(y, PublishCandidate(r))
    ensures var z := Apply(y, PublishCandidate(r));
            && z.tracked.Some? && z.tracked.value !in y.refreshes
            && z.refreshes == y.refreshes[z.tracked.value := Refresh(z.m.current, false, false)]
  {
  }

  // Starting a refresh leaves one tracked that has not ended, unless the manager is shutting down; one
  // that was there stays.
  lemma StartTracksRefresh(y: System)
    requires Invariant(y)
    ensures var z := Apply(y, StartRefresh);
            && (!y.m.closing && !y.m.closed ==> z.tracked.Some? && z.tracked.value in z.refreshes)
            && (Awaited(y).Some? || y.m.closing || y.m.closed ==> z == y)
            && (Awaited(y).None? && !y.m.closing && !y.m.closed ==>
                  z.refreshes[z.tracked.value] == Refresh(y.m.current, false, false) && z.tracked.value !in y.refreshes)
            && z.m == y.m && z.leases == y.leases
  {
  }

  predicate TakesLock(a: Action) {
    a.BeginReplace? || a.BeginRefreshNow? || a.LockShutdown?
  }

  // The refresh whose end the lock's holder awaits.
  function AwaitedBy(lock: Lock): Option<nat> {
    if lock.ReplaceWaits? || lock.ShutdownWaits? || lock.RefreshWaits? then lock.awaited else None
  }

  // Whoever takes the lock cancels the tracked refresh and awaits its end.
  lemma LockHolderCancelsRefresh(y: System, a: Action, i: nat)
    requires Enabled(y, a) && TakesLock(a) && y.tracked == Some(i) && i in y.refreshes
    ensures var z := Apply(y, a);
            z.tracked.None? && i in z.refreshes && z.refreshes[i].cancelled && AwaitedBy(z.lock) == Some(i)
  {
  }

  // Until then it does not go on.
  lemma LockHolderAwaitsRefresh(y: System, i: nat)
    requires AwaitedBy(y.lock) == Some(i) && i in y.refreshes
    ensures !Enabled(y, ReplaceSweep) && !Enabled(y, RunRefreshNow) && !Enabled(y, RetireForShutdown)
  {
  }

  // The explicit refresh that holds the lock is running.
  predicate LockIsBacked(y: System) {
    y.lock.RefreshRuns? ==> y.lock.id in y.refreshes && y.refreshes[y.lock.id].running && y.lock.id < y.nextRefresh
  }

  lemma StepKeepsLockBacked(y: System, a: Action)
    requires LockIsBacked(y) && Enabled(y, a)
    ensures LockIsBacked(Apply(y, a))
  {
    if y.lock.RefreshRuns? {
      RefreshHoldsLock(y, a);
    } else {
      RefreshGetsLock(y, a);
    }
  }

  lemma RefreshHoldsLock(y: System, a: Action)
    requires Enabled(y, a) && LockIsBacked(y) && y.lock.RefreshRuns?
    ensures LockIsBacked(Apply(y, a))
  {
  }

  lemma RefreshGetsLock(y: System, a: Action)
    requires Enabled(y, a) && !y.lock.RefreshRuns?
    ensures LockIsBacked(Apply(y, a))
  {
  }

  // Who frees the lock: the refresh, the failed replacement or the shutdown that held it gets to its
  // end, or its holder leaves.
  predicate FreesLock(y: System, a: Action) {
    || a.LeaveLock? || a.EndCandidateCleanup? || a.RetireForShutdown?
    || (a.EndRefresh? && y.lock == RefreshRuns(a.id))
    || (a.RunRefreshNow? && y.m.current in y.m.generations && y.m.generations[y.m.current].closed)
  }

  lemma LockIsFreedExactly(y: System, a: Action)
    requires Enabled(y, a)
    ensures !y.lock.Unlocked? ==> (Apply(y, a).lock.Unlocked? <==> FreesLock(y, a))
    ensures y.lock.Unlocked? ==> (!Apply(y, a).lock.Unlocked? <==> TakesLock(a))
  {
  }

  lemma {:induction false} RunKeepsLockBacked(ys: seq<System>, actions: seq<Action>, runtime: Runtime, n: nat)
    requires IsRun(ys, actions) && Initial(ys[0], runtime) && n < |ys|
    ensures LockIsBacked(ys[n])
  {
    if 0 < n {
      RunKeepsLockBacked(ys, actions, runtime, n - 1);
      assert StepsAt(ys, actions, n - 1);
      StepKeepsLockBacked(ys[n - 1], actions[n - 1]);
    }
  }

  // The lock is never lost: in every reachable state whoever holds it can free it.
  lemma LockCanBeFreed(ys: seq<System>, actions: seq<Action>, runtime: Runtime, n: nat) returns (a: Action)
    requires IsRun(ys, actions) && Initial(ys[0], runtime) && n < |ys| && !ys[n].lock.Unlocked?
    ensures Enabled(ys[n], a) && Apply(ys[n], a).lock.Unlocked?
  {
    InitialSatisfiesInvariant(ys[0], runtime);
    RunKeepsInvariant(ys, actions, n);
    RunKeepsLockBacked(ys, actions, runtime, n);
    a := if ys[n].lock.RefreshRuns? then EndRefresh(ys[n].lock.id) else LeaveLock;
    LockIsFreedExactly(ys[n], a);
  }

  // A replacement retries the cleanup of every unpublished runtime before it commits.
  lemma {:induction false} UnpublishedAreRetried(ys: seq<System>, actions: seq<Action>, i: nat, n: nat, r: Runtime)
    requires IsRun(ys, actions) && i < n < |ys| && actions[i].ReplaceSweep? && r in ys[i].m.unpublished
    requires forall k | i < k < n :: !actions[k].LeaveLock? && !actions[k].FailCommit? && !actions[k].PublishCandidate?
    ensures ys[n].lock.ReplaceSweeps?
    ensures r in ys[n].lock.rest || exists k, ok | i < k < n :: actions[k] == SweepForReplace(r, ok)
    decreases n
  {
    if n == i + 1 {
      assert StepsAt(ys, actions, i);
    } else {
      UnpublishedAreRetried(ys, actions, i, n - 1, r);
      SweepGoesOn(ys, actions, n - 1, r);
    }
  }

  lemma SweepGoesOn(ys: seq<System>, actions: seq<Action>, k: nat, r: Runtime)
    requires IsRun(ys, actions) && k < |actions| && ys[k].lock.ReplaceSweeps?
    requires !actions[k].LeaveLock? && !actions[k].FailCommit? && !actions[k].PublishCandidate?
    ensures ys[k + 1].lock.ReplaceSweeps?
    ensures r in ys[k].lock.rest ==>
              || r in ys[k + 1].lock.rest
              || (actions[k].SweepForReplace? && actions[k] == SweepForReplace(r, actions[k].ok))
  {
    assert StepsAt(ys, actions, k);
  }

  lemma CommitAfterRetries(ys: seq<System>, actions: seq<Action>, i: nat, n: nat, r: Runtime)
    requires IsRun(ys, actions) && i < n < |actions| && actions[i].ReplaceSweep? && r in ys[i].m.unpublished
    requires forall k | i < k < n :: !actions[k].LeaveLock? && !actions[k].FailCommit? && !actions[k].PublishCandidate?
    requires actions[n].FailCommit? || actions[n].PublishCandidate?
    ensures exists k, ok | i < k < n :: actions[k] == SweepForReplace(r, ok)
  {
    UnpublishedAreRetried(ys, actions, i, n, r);
    assert StepsAt(ys, actions, n);
  }
}
