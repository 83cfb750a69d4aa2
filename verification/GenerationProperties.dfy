// What the provider runtime manager promises in every reachable state and over whole runs.
module GenerationProperties {
  import opened Wrappers
  import opened GenerationProtocol
  import opened GenerationSystem
  import opened GenerationInvariant

  // ----- runs -----

  predicate Initial(y: System, runtime: Runtime) {
    y == System(Manager(map[1 := Generation(runtime, 0, true, false, false, false)], 1, {}, {}, 2, false, false),
                map[], map[], None, 0, Unlocked, NoShutdown, {runtime}, multiset{})
  }

  ghost predicate IsRun(ys: seq<System>, actions: seq<Action>) {
    && |ys| == |actions| + 1
    && forall i: nat | i < |actions| :: StepsAt(ys, actions, i)
  }

  ghost predicate StepsAt(ys: seq<System>, actions: seq<Action>, i: nat)
    requires |ys| == |actions| + 1 && i < |actions|
  {
    Enabled(ys[i], actions[i]) && RefreshTimely(ys[i], actions[i]) && ys[i + 1] == Apply(ys[i], actions[i])
  }

  lemma InitialSatisfiesInvariant(y: System, runtime: Runtime)
    requires Initial(y, runtime)
    ensures Invariant(y)
  {
    assert Lessees(y, 1) == {} && Fetchers(y, 1) == {};
    assert y.m.generations[1].runtime == runtime;
  }

  lemma {:induction false} RunKeepsInvariant(ys: seq<System>, actions: seq<Action>, i: nat)
    requires IsRun(ys, actions) && Invariant(ys[0]) && i < |ys|
    ensures Invariant(ys[i])
  {
    if 0 < i {
      RunKeepsInvariant(ys, actions, i - 1);
      RunStepKeepsInvariant(ys, actions, i - 1);
    }
  }

  lemma RunStepKeepsInvariant(ys: seq<System>, actions: seq<Action>, i: nat)
    requires IsRun(ys, actions) && i < |actions| && Invariant(ys[i])
    ensures Invariant(ys[i + 1])
  {
    assert StepsAt(ys, actions, i);
    StepKeepsInvariant(ys[i], actions[i]);
  }

  // ----- nobody holds what is being cleaned up -----

  ghost predicate IsHeld(y: System, g: GenId) {
    Lessees(y, g) != {} || Fetchers(y, g) != {}
  }

  // A generation is drained exactly while no lease and no refresh holds it, and its runtime is
  // cleaned up, or has been, only while it is drained.
  lemma CleanupExcludesHolders(y: System, g: GenId)
    requires Invariant(y) && g in y.m.generations
    ensures y.m.generations[g].drained <==> !IsHeld(y, g)
    ensures y.m.generations[g].cleaning || y.m.generations[g].closed ==> !IsHeld(y, g)
  {
    assert GenerationOk(y.m, g);
  }

  // Generation `g` stays retired and gains no holder.
  ghost predicate OnlyDrains(y: System, z: System, g: GenId) {
    && g in z.m.generations && z.m.generations[g].retired
    && Lessees(z, g) <= Lessees(y, g) && Fetchers(z, g) <= Fetchers(y, g)
  }

  // Once a generation retires nothing is ever granted on it, so a cleanup that has begun stays alone.
  lemma RetiredIsNeverGranted(y: System, a: Action, g: GenId)
    requires Invariant(y) && Enabled(y, a) && RefreshTimely(y, a) && g in y.m.generations && y.m.generations[g].retired
    ensures OnlyDrains(y, Apply(y, a), g)
  {
    assert GenerationOk(y.m, g);
    LesseesAfterStep(y, a, g);
    if a.RunRefresh? || a.EndRefresh? || a.RunRefreshNow? {
      FetchersAfterRefreshStep(y, a, g);
    } else {
      FetchersAfterOtherStep(y, a, g);
    }
    NextIdIsFresh(y.m);
    RetirementIsFinal(y, a, g);
  }

  lemma RetirementIsFinal(y: System, a: Action, g: GenId)
    requires Enabled(y, a) && g in y.m.generations && y.m.generations[g].retired && y.m.nextId !in y.m.generations
    ensures g in Apply(y, a).m.generations && Apply(y, a).m.generations[g].retired
  {
    if TouchesGenerations(a) {
      RetirementSurvivesManager(y, a, g);
    } else if !(a.AcquireLease? || a.ReleaseLease? || a.RunRefresh? || a.EndRefresh? || a.RunRefreshNow?) {
      OtherStepKeepsGenerations(y, a);
    }
  }

  lemma RetirementSurvivesManager(y: System, a: Action, g: GenId)
    requires Enabled(y, a) && g in y.m.generations && y.m.generations[g].retired && y.m.nextId !in y.m.generations
    requires TouchesGenerations(a)
    ensures g in Apply(y, a).m.generations && Apply(y, a).m.generations[g].retired
  {
  }

  lemma RetiredDrainsInStep(ys: seq<System>, actions: seq<Action>, j: nat, g: GenId)
    requires IsRun(ys, actions) && Invariant(ys[0]) && j < |actions|
    requires g in ys[j].m.generations && ys[j].m.generations[g].retired
    ensures OnlyDrains(ys[j], ys[j + 1], g)
  {
    RunKeepsInvariant(ys, actions, j);
    assert StepsAt(ys, actions, j);
    RetiredIsNeverGranted(ys[j], actions[j], g);
  }

  lemma {:induction false} RetiredOnlyDrains(ys: seq<System>, actions: seq<Action>, i: nat, j: nat, g: GenId)
    requires IsRun(ys, actions) && Invariant(ys[0]) && i <= j < |ys|
    requires g in ys[i].m.generations && ys[i].m.generations[g].retired
    ensures OnlyDrains(ys[i], ys[j], g)
    decreases j
  {
    if i < j {
      RetiredOnlyDrains(ys, actions, i, j - 1, g);
      RetiredDrainsInStep(ys, actions, j - 1, g);
    }
  }

  // The timing of `start_model_list_refresh` matters: called while any replacement is about to
  // publish, it leaves a refresh that grants itself the unheld old generation while that one's
  // cleanup runs.
  lemma UntimelyRefreshEntersCleanup(y: System, r: Runtime)
    requires y.lock == ReplaceSweeps({}) && y.m.current in y.m.generations && y.m.current != y.m.nextId
    requires y.m.generations[y.m.current].leases == 0 && !y.m.generations[y.m.current].closed
    requires !y.m.closing && !y.m.closed && Awaited(y).None? && r !in y.made
    ensures Enabled(y, StartRefresh) && !RefreshTimely(y, StartRefresh)
    ensures var y1 := Apply(y, StartRefresh);
            && Enabled(y1, PublishCandidate(r))
            && var y2 := Apply(y1, PublishCandidate(r));
               && Enabled(y2, RunRefresh(y.nextRefresh))
               && var gen := Apply(y2, RunRefresh(y.nextRefresh)).m.generations[y.m.current];
                  gen.cleaning && gen.leases == 1
  {
  }

  // ----- runtimes are conserved -----

  ghost predicate IsReachable(y: System, r: Runtime)
  {
    || r in y.m.unpublished
    || (y.m.current in y.m.generations && r == y.m.generations[y.m.current].runtime)
    || exists g | g in y.m.retired :: g in y.m.generations && y.m.generations[g].runtime == r
  }

  // A runtime that was made and not yet cleaned up is still reachable from the manager: owned by
  // the current or a retired generation, or unpublished.
  lemma RuntimesStayReachable(y: System, r: Runtime)
    requires Invariant(y) && r in y.made && r !in y.cleaned
    ensures IsReachable(y, r)
  {
    if r !in y.m.unpublished {
      assert IsPublished(y.m, r);
      var g :| g in y.m.generations && y.m.generations[g].runtime == r;
      assert GenerationOk(y.m, g);
    }
  }

  // However often replacing, cleaning up or closing failed, no runtime is cleaned up twice.
  lemma CleanedAtMostOnce(y: System, r: Runtime)
    requires Invariant(y)
    ensures y.cleaned[r] <= 1
  {
    assert r in y.cleaned ==> y.cleaned[r] == 1;
  }

  // A step never forgets a runtime or a cleanup.
  lemma CleanupsAreRemembered(y: System, a: Action)
    requires Enabled(y, a)
    ensures y.made <= Apply(y, a).made && y.cleaned <= Apply(y, a).cleaned
  {
  }

  // `close` returns normally only after cleaning up every runtime ever made.
  lemma CloseMeansAllCleaned(y: System, r: Runtime)
    requires Invariant(y) && y.m.closed && r in y.made
    ensures y.cleaned[r] == 1
  {
    assert y.m.generations[y.m.current].runtime in y.cleaned;
    if r !in y.cleaned {
      RuntimesStayReachable(y, r);
    }
  }

  // Waiting for the generations to drain, a shutdown finds each of them unheld, so none is refused.
  lemma ShutdownJoinsEveryGeneration(y: System, a: Action)
    requires Invariant(y) && Enabled(y, a) && a.JoinCleanups?
    ensures Apply(y, a).shutdown.ok
    ensures forall g | g in y.shutdown.targets ::
              var gen := Apply(y, a).m.generations[g]; gen.closed || (gen.cleaning && g in Apply(y, a).shutdown.pending)
  {
    forall g | g in y.shutdown.targets ensures !CloseGeneration(y.m, g).1.StillLeased? {
      assert GenerationOk(y.m, g);
    }
  }

  // A cleanup that the shutdown under way waits for fails.
  predicate FailsShutdown(y: System, a: Action) {
    || (a.EndGenerationCleanup? && !a.ok && y.shutdown.Joining? && a.g in y.shutdown.pending)
    || (a.SweepOne? && !a.ok)
  }

  predicate CleansUp(s: Shutdown) {
    s.Joining? || s.Sweeping?
  }

  lemma ShutdownAfterStep(y: System, a: Action)
    requires LocksOk(y) && ShutdownOk(y) && Enabled(y, a) && CleansUp(y.shutdown) && !a.AbortShutdown?
             && !a.FinishShutdown?
    ensures CleansUp(Apply(y, a).shutdown)
    ensures Apply(y, a).shutdown.ok <==> y.shutdown.ok && !FailsShutdown(y, a)
  {
  }

  // From the joining of the cleanups on, a shutdown is well exactly as long as no cleanup it waits
  // for fails.
  lemma {:induction false} ShutdownIsWell(ys: seq<System>, actions: seq<Action>, i: nat, k: nat)
    requires IsRun(ys, actions) && Invariant(ys[0]) && i < k < |ys| && actions[i].JoinCleanups?
    requires forall j | i < j < k :: !actions[j].AbortShutdown? && !actions[j].FinishShutdown?
    ensures CleansUp(ys[k].shutdown)
    ensures ys[k].shutdown.ok <==> forall j | i < j < k :: !FailsShutdown(ys[j], actions[j])
    decreases k
  {
    if k == i + 1 {
      CleanupsJoined(ys, actions, i);
    } else {
      ShutdownIsWell(ys, actions, i, k - 1);
      CleanupsGoOn(ys, actions, k - 1);
    }
  }

  lemma CleanupsJoined(ys: seq<System>, actions: seq<Action>, i: nat)
    requires IsRun(ys, actions) && Invariant(ys[0]) && i < |actions| && actions[i].JoinCleanups?
    ensures CleansUp(ys[i + 1].shutdown) && ys[i + 1].shutdown.ok
  {
    RunKeepsInvariant(ys, actions, i);
    assert StepsAt(ys, actions, i);
    ShutdownJoinsEveryGeneration(ys[i], actions[i]);
  }

  lemma CleanupsGoOn(ys: seq<System>, actions: seq<Action>, k: nat)
    requires IsRun(ys, actions) && Invariant(ys[0]) && k < |actions| && CleansUp(ys[k].shutdown)
    requires !actions[k].AbortShutdown? && !actions[k].FinishShutdown?
    ensures CleansUp(ys[k + 1].shutdown)
    ensures ys[k + 1].shutdown.ok <==> ys[k].shutdown.ok && !FailsShutdown(ys[k], actions[k])
  {
    RunKeepsInvariant(ys, actions, k);
    assert StepsAt(ys, actions, k);
    ShutdownAfterStep(ys[k], actions[k]);
  }

  // A shutdown that gets to its end returns normally if and only if no cleanup it waited for failed.
  lemma SuccessfulShutdownCloses(ys: seq<System>, actions: seq<Action>, i: nat, k: nat)
    requires IsRun(ys, actions) && Invariant(ys[0]) && i < k < |actions|
    requires actions[i].JoinCleanups? && actions[k].FinishShutdown?
    requires forall j | i < j < k :: !actions[j].AbortShutdown? && !actions[j].FinishShutdown?
    ensures ys[k + 1].m.closed <==> forall j | i < j < k :: !FailsShutdown(ys[j], actions[j])
  {
    RunKeepsInvariant(ys, actions, k);
    ShutdownIsWell(ys, actions, i, k);
    assert StepsAt(ys, actions, k);
  }

  // ----- every reachable state -----

  // In every state a run from the start reaches: nothing held is being or has been cleaned up, no
  // runtime is lost or cleaned up twice, and a closed manager has cleaned up all of them.
  lemma ReachableManagersAreSafe(ys: seq<System>, actions: seq<Action>, runtime: Runtime, i: nat)
    requires IsRun(ys, actions) && Initial(ys[0], runtime) && i < |ys|
    ensures forall g | g in ys[i].m.generations :: ys[i].m.generations[g].drained <==> !IsHeld(ys[i], g)
    ensures forall g | g in ys[i].m.generations ::
              ys[i].m.generations[g].cleaning || ys[i].m.generations[g].closed ==> !IsHeld(ys[i], g)
    ensures forall r | r in ys[i].made && r !in ys[i].cleaned :: IsReachable(ys[i], r)
    ensures forall r | r in ys[i].made :: ys[i].cleaned[r] <= 1
    ensures ys[i].m.closed ==> forall r | r in ys[i].made :: ys[i].cleaned[r] == 1
  {
    InitialSatisfiesInvariant(ys[0], runtime);
    RunKeepsInvariant(ys, actions, i);
    forall g | g in ys[i].m.generations
      ensures ys[i].m.generations[g].drained <==> !IsHeld(ys[i], g)
      ensures ys[i].m.generations[g].cleaning || ys[i].m.generations[g].closed ==> !IsHeld(ys[i], g)
    {
      CleanupExcludesHolders(ys[i], g);
    }
    forall r | r in ys[i].made
      ensures ys[i].cleaned[r] <= 1 && (r !in ys[i].cleaned ==> IsReachable(ys[i], r))
              && (ys[i].m.closed ==> ys[i].cleaned[r] == 1)
    {
      RuntimeAccount(ys[i], r);
    }
  }

  lemma RuntimeAccount(y: System, r: Runtime)
    requires Invariant(y) && r in y.made
    ensures y.cleaned[r] <= 1 && (r !in y.cleaned ==> IsReachable(y, r)) && (y.m.closed ==> y.cleaned[r] == 1)
  {
    CleanedAtMostOnce(y, r);
    if r !in y.cleaned {
      RuntimesStayReachable(y, r);
    }
    if y.m.closed {
      CloseMeansAllCleaned(y, r);
    }
  }

  // Through any run no cleanup done is forgotten.
  lemma {:induction false} RunRemembersCleanups(ys: seq<System>, actions: seq<Action>, i: nat, j: nat, r: Runtime)
    requires IsRun(ys, actions) && i <= j < |ys|
    ensures ys[i].cleaned[r] <= ys[j].cleaned[r]
    decreases j
  {
    if i < j {
      RunRemembersCleanups(ys, actions, i, j - 1, r);
      StepRemembersCleanups(ys, actions, j, r);
    }
  }

  lemma StepRemembersCleanups(ys: seq<System>, actions: seq<Action>, j: nat, r: Runtime)
    requires IsRun(ys, actions) && 0 < j < |ys|
    ensures ys[j - 1].cleaned[r] <= ys[j].cleaned[r]
  {
    assert StepsAt(ys, actions, j - 1);
    CleanupsAreRemembered(ys[j - 1], actions[j - 1]);
  }
}
