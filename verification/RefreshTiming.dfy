// When a model-list refresh may be started: it takes no lock, and started at the wrong moment it
// ends up holding a retired generation.
module RefreshTiming {
  import opened Wrappers
  import opened GenerationProtocol
  import opened GenerationSystem
  import opened GenerationInvariant
  import opened GenerationProperties

  // The step gives somebody a hold on a retired generation.
  ghost predicate GrantsRetired(y: System, a: Action) {
    Enabled(y, a) && exists g | g in y.m.generations :: y.m.generations[g].retired && !OnlyDrains(y, Apply(y, a), g)
  }

  // Some run of further steps, all of them timely, leads to such a step.
  ghost predicate CanGrantRetired(y: System) {
    exists ys, actions, a :: IsGrantingRun(y, ys, actions, a)
  }

  ghost predicate IsGrantingRun(y: System, ys: seq<System>, actions: seq<Action>, a: Action) {
    IsRun(ys, actions) && ys[0] == y && GrantsRetired(ys[|ys| - 1], a) && RefreshTimely(ys[|ys| - 1], a)
  }

  lemma GrantsNow(y: System, a: Action)
    requires GrantsRetired(y, a) && RefreshTimely(y, a)
    ensures CanGrantRetired(y)
  {
    var ys, actions: seq<Action> := [y], [];
    assert IsGrantingRun(y, ys, actions, a);
  }

  lemma RunBefore(y: System, a: Action, ys: seq<System>, actions: seq<Action>)
    requires Enabled(y, a) && RefreshTimely(y, a) && IsRun(ys, actions) && ys[0] == Apply(y, a)
    ensures IsRun([y] + ys, [a] + actions)
  {
    forall i: nat | i < |actions| + 1 ensures StepsAt([y] + ys, [a] + actions, i) {
      if 0 < i {
        StepLater(y, a, ys, actions, i);
      }
    }
  }

  lemma StepLater(y: System, a: Action, ys: seq<System>, actions: seq<Action>, i: nat)
    requires IsRun(ys, actions) && 0 < i <= |actions|
    ensures StepsAt([y] + ys, [a] + actions, i)
  {
    assert StepsAt(ys, actions, i - 1);
    assert ([y] + ys)[i] == ys[i - 1] && ([a] + actions)[i] == actions[i - 1] && ([y] + ys)[i + 1] == ys[i - 1 + 1];
  }

  lemma GrantsAfter(y: System, a: Action)
    requires Enabled(y, a) && RefreshTimely(y, a) && CanGrantRetired(Apply(y, a))
    ensures CanGrantRetired(y)
  {
    var ys, actions, x :| IsGrantingRun(Apply(y, a), ys, actions, x);
    RunBefore(y, a, ys, actions);
    assert ([y] + ys)[|ys|] == ys[|ys| - 1];
    assert IsGrantingRun(y, [y] + ys, [a] + actions, x);
  }

  // A replacement is under way and refresh `id` is scheduled on the generation it is to replace.
  predicate IsLate(y: System, id: nat) {
    && y.m.current in y.m.generations && y.m.nextId !in y.m.generations && !y.m.generations[y.m.current].closed
    && id in y.refreshes && y.refreshes[id] == Refresh(y.m.current, false, false) && id < y.nextRefresh
    && (y.lock.ReplaceWaits? || y.lock.ReplaceSweeps?)
    && (y.lock.ReplaceWaits? && y.lock.awaited.Some? && y.lock.awaited.value in y.refreshes ==>
          y.refreshes[y.lock.awaited.value].cancelled
          && y.refreshes[y.lock.awaited.value].generation in y.m.generations)
  }

  lemma FreshRuntime(made: set<Runtime>) returns (r: Runtime)
    ensures r !in made
  {
    if made == {} {
      r := 0;
    } else {
      var top := Highest(made);
      r := top + 1;
    }
  }

  lemma {:induction false} Highest(s: set<nat>) returns (top: nat)
    requires s != {}
    ensures top in s && forall m | m in s :: m <= top
    decreases |s|
  {
    top :| top in s;
    var rest := s - {top};
    assert s == rest + {top};
    if rest != {} {
      var m := Highest(rest);
      if top < m {
        top := m;
      }
    }
  }

  // Publishing retires the generation without cancelling the late refresh, which then runs on it.
  lemma PublishedOverGrants(y: System, id: nat)
    requires IsLate(y, id) && y.lock == ReplaceSweeps({})
    ensures CanGrantRetired(y)
  {
    var r := FreshRuntime(y.made);
    var publish, run := PublishCandidate(r), RunRefresh(id);
    var z := Apply(y, publish);
    assert z.refreshes[id] == Refresh(y.m.current, false, false) && Enabled(z, run);
    assert id in Fetchers(Apply(z, run), y.m.current) && id !in Fetchers(z, y.m.current);
    assert z.m.generations[y.m.current].retired && !OnlyDrains(z, Apply(z, run), y.m.current);
    GrantsNow(z, run);
    GrantsAfter(y, publish);
  }

  lemma {:induction false} SweepingGrants(y: System, id: nat)
    requires IsLate(y, id) && y.lock.ReplaceSweeps?
    ensures CanGrantRetired(y)
    decreases |y.lock.rest|
  {
    if y.lock.rest == {} {
      PublishedOverGrants(y, id);
    } else {
      var r :| r in y.lock.rest;
      SweepingGrants(Apply(y, SweepForReplace(r, false)), id);
      GrantsAfter(y, SweepForReplace(r, false));
    }
  }

  lemma AwaitedGone(y: System, id: nat)
    requires IsLate(y, id) && y.lock.ReplaceWaits? && RefreshGone(y, y.lock.awaited)
    ensures CanGrantRetired(y)
  {
    SweepingGrants(Apply(y, ReplaceSweep), id);
    GrantsAfter(y, ReplaceSweep);
  }

  lemma WaitingGrants(y: System, id: nat)
    requires IsLate(y, id) && y.lock.ReplaceWaits?
    ensures CanGrantRetired(y)
  {
    if RefreshGone(y, y.lock.awaited) {
      AwaitedGone(y, id);
    } else {
      var end := EndRefresh(y.lock.awaited.value);
      ReleaseKeepsOwnership(y.m, y.refreshes[y.lock.awaited.value].generation);
      AwaitedGone(Apply(y, end), id);
      GrantsAfter(y, end);
    }
  }

  lemma TimelyRunsGrantNothing(y: System)
    requires Invariant(y)
    ensures !CanGrantRetired(y)
  {
    if CanGrantRetired(y) {
      var ys: seq<System>, actions: seq<Action>, a: Action :| IsGrantingRun(y, ys, actions, a);
      RunKeepsInvariant(ys, actions, |ys| - 1);
      var last: System := ys[|ys| - 1];
      var g :| g in last.m.generations && last.m.generations[g].retired && !OnlyDrains(last, Apply(last, a), g);
      RetiredIsNeverGranted(last, a, g);
    }
  }

  // Starting a refresh can lead to a hold on a retired generation if and only if it schedules one
  // while a replacement is between cancelling the old refresh and publishing.
  lemma RefreshesGrantRetiredExactly(y: System)
    requires Invariant(y)
    ensures Enabled(y, StartRefresh)
    ensures CanGrantRetired(Apply(y, StartRefresh)) <==>
              && !y.m.closing && !y.m.closed && Awaited(y).None?
              && (y.lock.ReplaceWaits? || y.lock.ReplaceSweeps?)
  {
    if RefreshTimely(y, StartRefresh) {
      StepKeepsInvariant(y, StartRefresh);
      TimelyRunsGrantNothing(Apply(y, StartRefresh));
    } else {
      var z := Apply(y, StartRefresh);
      NextIdIsFresh(y.m);
      assert GenerationOk(y.m, y.m.current);
      assert IsLate(z, y.nextRefresh);
      if z.lock.ReplaceWaits? {
        WaitingGrants(z, y.nextRefresh);
      } else {
        SweepingGrants(z, y.nextRefresh);
      }
    }
  }

  // A first replacement suffices to get there.
  lemma LateRefreshIsReachable(y: System, runtime: Runtime)
    requires Initial(y, runtime)
    ensures IsRun([y, Apply(y, BeginReplace)], [BeginReplace])
    ensures CanGrantRetired(Apply(Apply(y, BeginReplace), StartRefresh))
  {
    InitialSatisfiesInvariant(y, runtime);
    StepKeepsInvariant(y, BeginReplace);
    assert StepsAt([y, Apply(y, BeginReplace)], [BeginReplace], 0);
    RefreshesGrantRetiredExactly(Apply(y, BeginReplace));
  }
}
