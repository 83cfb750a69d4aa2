// What every step of the generation protocol keeps.
module GenerationInvariant {
  import opened Wrappers
  import opened GenerationProtocol
  import opened GenerationSystem

  // One generation's flags agree with each other and with the manager's table.
  predicate GenerationOk(m: Manager, g: GenId)
    requires g in m.generations
  {
    var gen := m.generations[g];
    && g < m.nextId
    && (gen.drained <==> gen.leases == 0)
    && (gen.cleaning || gen.closed ==> gen.leases == 0 && gen.retired)
    && !(gen.cleaning && gen.closed)
    && (g in m.retired <==> gen.retired && !gen.closed)
    && (gen.retired <==> g != m.current || (m.closing && gen.retired))
  }

  predicate ManagerOk(m: Manager) {
    && m.current in m.generations
    && m.retired <= m.generations.Keys
    && (forall g | g in m.generations :: GenerationOk(m, g))
    && (m.closed ==> m.closing && m.retired == {} && m.unpublished == {} && m.generations[m.current].closed)
  }

  // Distinct generations own distinct runtimes, none of them also unpublished.
  predicate RuntimesDistinct(m: Manager) {
    && (forall g, h | g in m.generations && h in m.generations && g != h ::
          m.generations[g].runtime != m.generations[h].runtime)
    && (forall g | g in m.generations :: m.generations[g].runtime !in m.unpublished)
  }

  predicate IsPublished(m: Manager, r: Runtime) {
    exists g | g in m.generations :: m.generations[g].runtime == r
  }

  // Every runtime made is unpublished, or owned by a generation, or was cleaned up; a generation
  // is closed exactly when its runtime was cleaned up, and nothing is cleaned up twice.
  ghost predicate RuntimesOk(y: System) {
    && RuntimesDistinct(y.m)
    && y.m.unpublished <= y.made
    && (forall r | r in y.cleaned :: r in y.made && y.cleaned[r] == 1 && r !in y.m.unpublished)
    && (forall g | g in y.m.generations :: y.m.generations[g].runtime in y.made)
    && (forall g | g in y.m.generations :: y.m.generations[g].closed <==> y.m.generations[g].runtime in y.cleaned)
    && (forall r | r in y.made :: r in y.m.unpublished || r in y.cleaned || IsPublished(y.m, r))
  }

  ghost function Lessees(y: System, g: GenId): set<nat> {
    set l | l in y.leases && y.leases[l] == Lease(g, false)
  }

  ghost function Fetchers(y: System, g: GenId): set<nat> {
    set i | i in y.refreshes && y.refreshes[i].generation == g && y.refreshes[i].running
  }

  // A generation's count is its unreleased leases plus its running refreshes.
  ghost predicate CountsOk(y: System) {
    && (forall g | g in y.m.generations :: y.m.generations[g].leases == |Lessees(y, g)| + |Fetchers(y, g)|)
    && (forall l | l in y.leases :: y.leases[l].generation in y.m.generations)
    && (forall i | i in y.refreshes :: y.refreshes[i].generation in y.m.generations && i < y.nextRefresh)
  }

  // A replacement has cancelled the old refresh and may still publish.
  predicate Replacing(lock: Lock) {
    lock.ReplaceWaits? || lock.ReplaceSweeps?
  }

  // A refresh that can still start is the tracked one, and aims at a generation that will not
  // retire before the refresh is cancelled.
  predicate RefreshesOk(y: System) {
    forall i | i in y.refreshes && !y.refreshes[i].running && !y.refreshes[i].cancelled ::
      y.tracked == Some(i) && y.refreshes[i].generation == y.m.current && !y.m.closing && !Replacing(y.lock)
  }

  predicate LocksOk(y: System) {
    && (!y.lock.Unlocked? && !y.lock.ShutdownWaits? && !y.lock.ReplaceJoins? ==> !y.m.closing)
    && (y.lock.ReplaceJoins? ==> !y.m.closing)
    && (y.lock.ShutdownWaits? ==> y.m.closing && !y.m.closed)
    && (y.lock.ReplaceSweeps? ==> y.lock.rest <= y.m.unpublished)
    && (y.lock.ReplaceCleansCandidate? ==> y.lock.candidate in y.m.unpublished)
  }

  predicate ShutdownOk(y: System) {
    && (!y.shutdown.NoShutdown? ==> y.m.closing && !y.m.closed && y.m.current in y.m.generations
                                    && y.m.generations[y.m.current].retired && y.lock.Unlocked?)
    && match y.shutdown
       case NoShutdown => true
       case Draining(targets) =>
         && y.m.retired <= targets <= y.m.generations.Keys
         && (forall g | g in targets :: y.m.generations[g].retired)
       case Joining(targets, pending, ok) =>
         && y.m.retired <= targets <= y.m.generations.Keys && pending <= targets
         && (forall g | g in pending :: y.m.generations[g].cleaning)
         && (ok ==> forall g | g in targets :: y.m.generations[g].closed || g in pending)
       case Sweeping(rest, ok) =>
         && rest <= y.m.unpublished
         && (ok ==> y.m.retired == {} && y.m.unpublished <= rest)
  }

  // The refresh whose end a replacement awaits was cancelled.
  predicate AwaitedOk(y: System) {
    y.lock.ReplaceWaits? && y.lock.awaited.Some? ==>
      var i := y.lock.awaited.value;
      i < y.nextRefresh && (i in y.refreshes ==> y.refreshes[i].cancelled)
  }

  ghost predicate Invariant(y: System) {
    ManagerOk(y.m) && RuntimesOk(y) && CountsOk(y) && RefreshesOk(y) && LocksOk(y) && AwaitedOk(y) && ShutdownOk(y)
  }

  // `start_model_list_refresh` takes no lock: it is timely unless it schedules a refresh between a
  // replacement's cancelling of the old one and its publishing.
  predicate RefreshTimely(y: System, a: Action) {
    a.StartRefresh? && Replacing(y.lock) ==> y.m.closing || y.m.closed || Awaited(y).Some?
  }

  // The same runtimes are owned by the same generations, and none was closed.
  predicate SameOwnership(m: Manager, n: Manager) {
    && n.unpublished == m.unpublished && n.closing == m.closing && n.closed == m.closed
    && n.generations.Keys == m.generations.Keys
    && forall g | g in m.generations ::
         n.generations[g].runtime == m.generations[g].runtime && n.generations[g].closed == m.generations[g].closed
  }

  lemma ReleaseKeepsOwnership(m: Manager, g: GenId)
    requires g in m.generations
    ensures SameOwnership(m, Release(m, g))
  {
  }

  lemma CloseAllKeepsOwnership(m: Manager, gs: set<GenId>)
    requires gs <= m.generations.Keys
    ensures SameOwnership(m, CloseAll(m, gs))
  {
  }

  // ----- manager sections -----

  lemma GrantKeepsManager(m: Manager)
    requires ManagerOk(m) && !m.closing
    ensures ManagerOk(Grant(m, m.current))
  {
  }

  lemma ReleaseKeepsManager(m: Manager, g: GenId)
    requires ManagerOk(m) && g in m.generations
    ensures ManagerOk(Release(m, g))
  {
  }

  lemma EndCleanupKeepsManager(m: Manager, g: GenId, ok: bool)
    requires ManagerOk(m) && g in m.generations && m.generations[g].cleaning
    ensures ManagerOk(EndCleanup(m, g, ok))
  {
  }

  lemma PublishKeepsManager(m: Manager, r: Runtime)
    requires ManagerOk(m) && !m.closing
    ensures ManagerOk(Publish(m, r))
  {
  }

  lemma ShutdownKeepsManager(m: Manager)
    requires ManagerOk(m) && m.closing && !m.closed
    ensures ManagerOk(BeginShutdown(m))
  {
  }

  lemma CloseAllKeepsManager(m: Manager, gs: set<GenId>)
    requires ManagerOk(m) && gs <= m.generations.Keys
    requires forall g | g in gs :: m.generations[g].retired
    ensures ManagerOk(CloseAll(m, gs))
  {
  }

  // ----- steps -----

  lemma StepKeepsManager(y: System, a: Action)
    requires ManagerOk(y.m) && RefreshesOk(y) && LocksOk(y) && ShutdownOk(y) && Enabled(y, a)
    ensures ManagerOk(Apply(y, a).m)
  {
    match a
    case AcquireLease(_) =>
      if !y.m.closing {
        GrantKeepsManager(y.m);
      }
    case ReleaseLease(l) => ReleaseKeepsManager(y.m, y.leases[l].generation);
    case RunRefresh(i) => GrantKeepsManager(y.m);
    case EndRefresh(i) => ReleaseKeepsManager(y.m, y.refreshes[i].generation);
    case RunRefreshNow => GrantKeepsManager(y.m);
    case PublishCandidate(r) => PublishKeepsManager(y.m, r);
    case EndGenerationCleanup(g, ok) => EndCleanupKeepsManager(y.m, g, ok);
    case RetireForShutdown => ShutdownStepKeepsManager(y, a);
    case JoinCleanups => CloseAllKeepsManager(y.m, y.shutdown.targets);
    case _ => BookkeepingKeepsManager(y, a);
  }

  lemma ShutdownStepKeepsManager(y: System, a: Action)
    requires ManagerOk(y.m) && LocksOk(y) && Enabled(y, a) && a.RetireForShutdown?
    ensures ManagerOk(Apply(y, a).m)
  {
    ShutdownKeepsManager(y.m);
  }

  lemma BookkeepingKeepsManager(y: System, a: Action)
    requires ManagerOk(y.m) && LocksOk(y) && ShutdownOk(y) && Enabled(y, a)
    requires !a.AcquireLease? && !a.ReleaseLease? && !a.RunRefresh? && !a.EndRefresh? && !a.RunRefreshNow?
             && !a.PublishCandidate? && !a.EndGenerationCleanup? && !a.RetireForShutdown? && !a.JoinCleanups?
    ensures ManagerOk(Apply(y, a).m)
  {
  }

  // Cancelling the tracked refresh leaves none that can still start.
  lemma CancelStopsRefreshes(y: System)
    requires RefreshesOk(y)
    ensures var z := CancelTracked(y);
            forall i | i in z.refreshes :: z.refreshes[i].running || z.refreshes[i].cancelled
  {
  }

  predicate TouchesRefreshes(a: Action) {
    a.StartRefresh? || a.RunRefresh? || a.EndRefresh? || a.BeginRefreshNow? || a.RunRefreshNow? || a.BeginReplace?
    || a.PublishCandidate? || a.LockShutdown?
  }

  lemma NewRefreshKeepsRefreshes(y: System, a: Action)
    requires RefreshesOk(y) && LocksOk(y) && CountsOk(y) && Enabled(y, a) && RefreshTimely(y, a)
    requires a.StartRefresh? || a.PublishCandidate?
    ensures RefreshesOk(Apply(y, a))
  {
  }

  lemma RunningKeepsRefreshes(y: System, a: Action)
    requires RefreshesOk(y) && Enabled(y, a) && (a.RunRefresh? || a.EndRefresh?)
    ensures RefreshesOk(Apply(y, a))
  {
    if a.EndRefresh? {
      ReleaseIsSteady(y.m, y.refreshes[a.id].generation);
    }
  }

  lemma RefreshNowKeepsRefreshes(y: System, a: Action)
    requires RefreshesOk(y) && LocksOk(y) && CountsOk(y) && Enabled(y, a) && a.RunRefreshNow?
    ensures RefreshesOk(Apply(y, a))
  {
  }

  lemma OtherStepKeepsRefreshes(y: System, a: Action)
    requires RefreshesOk(y) && LocksOk(y) && Enabled(y, a) && !TouchesRefreshes(a)
    ensures RefreshesOk(Apply(y, a))
  {
    RefreshMapUntouched(y, a);
    var z := Apply(y, a);
    assert z.tracked == y.tracked && z.m.current == y.m.current && z.m.closing == y.m.closing;
    assert Replacing(z.lock) ==> Replacing(y.lock);
  }

  lemma StepKeepsRefreshes(y: System, a: Action)
    requires ManagerOk(y.m) && RefreshesOk(y) && LocksOk(y) && CountsOk(y) && Enabled(y, a) && RefreshTimely(y, a)
    ensures RefreshesOk(Apply(y, a))
  {
    if a.BeginRefreshNow? || a.BeginReplace? || a.LockShutdown? {
      CancelStopsRefreshes(y);
    } else if a.RunRefreshNow? {
      RefreshNowKeepsRefreshes(y, a);
    } else if a.StartRefresh? || a.PublishCandidate? {
      NewRefreshKeepsRefreshes(y, a);
    } else if a.RunRefresh? || a.EndRefresh? {
      RunningKeepsRefreshes(y, a);
    } else {
      OtherStepKeepsRefreshes(y, a);
    }
  }

  predicate MovesLock(a: Action) {
    a.EndRefresh? || a.BeginRefreshNow? || a.RunRefreshNow? || a.BeginReplace? || a.ReplaceSweep? || a.SweepForReplace?
    || a.FailCommit? || a.EndCandidateCleanup? || a.PublishCandidate? || a.LeaveLock? || a.LockShutdown?
    || a.RetireForShutdown?
  }

  lemma LockStepKeepsLocks(y: System, a: Action)
    requires ManagerOk(y.m) && LocksOk(y) && Enabled(y, a) && MovesLock(a)
    ensures LocksOk(Apply(y, a))
  {
    if a.EndRefresh? {
      ReleaseKeepsOwnership(y.m, y.refreshes[a.id].generation);
    }
  }

  lemma OtherStepKeepsLocks(y: System, a: Action)
    requires LocksOk(y) && ShutdownOk(y) && Enabled(y, a) && !MovesLock(a)
    ensures LocksOk(Apply(y, a))
  {
    var z := Apply(y, a);
    if a.ReleaseLease? {
      ReleaseKeepsOwnership(y.m, y.leases[a.lease].generation);
    }
    assert z.lock == y.lock && z.m.closing == y.m.closing;
    assert z.m.unpublished == y.m.unpublished || y.lock.Unlocked?;
    assert z.m.closed == y.m.closed || y.lock.Unlocked?;
  }

  lemma StepKeepsLocks(y: System, a: Action)
    requires ManagerOk(y.m) && LocksOk(y) && ShutdownOk(y) && Enabled(y, a)
    ensures LocksOk(Apply(y, a))
  {
    if MovesLock(a) {
      LockStepKeepsLocks(y, a);
    } else {
      OtherStepKeepsLocks(y, a);
    }
  }

  lemma CancelledStaysCancelled(y: System, a: Action, i: nat)
    requires Enabled(y, a) && i < y.nextRefresh && (i in y.refreshes ==> y.refreshes[i].cancelled)
    ensures var z := Apply(y, a); i < z.nextRefresh && (i in z.refreshes ==> z.refreshes[i].cancelled)
  {
  }

  lemma StepKeepsAwaited(y: System, a: Action)
    requires CountsOk(y) && AwaitedOk(y) && Enabled(y, a)
    ensures AwaitedOk(Apply(y, a))
  {
    if y.lock.ReplaceWaits? && y.lock.awaited.Some? {
      CancelledStaysCancelled(y, a, y.lock.awaited.value);
    }
    assert Apply(y, a).lock.ReplaceWaits? ==> Apply(y, a).lock == y.lock || a.BeginReplace?;
  }

  predicate DrivesShutdown(a: Action) {
    || a.RetireForShutdown? || a.JoinCleanups? || a.SweepForShutdown? || a.SweepOne? || a.FinishShutdown?
    || a.AbortShutdown?
  }

  lemma ShutdownStepKeepsShutdown(y: System, a: Action)
    requires ManagerOk(y.m) && LocksOk(y) && ShutdownOk(y) && Enabled(y, a) && DrivesShutdown(a)
    ensures ShutdownOk(Apply(y, a))
  {
  }

  // What a running shutdown relies on: nothing retires any more and no runtime is added.
  predicate ManagerSteady(m: Manager, n: Manager) {
    && n.closing == m.closing && n.closed == m.closed && n.current == m.current && n.retired == m.retired
    && n.unpublished == m.unpublished && n.generations.Keys == m.generations.Keys
    && forall g | g in m.generations ::
         && n.generations[g].retired == m.generations[g].retired && n.generations[g].closed == m.generations[g].closed
         && (m.generations[g].cleaning ==> n.generations[g].cleaning)
  }

  lemma ReleaseIsSteady(m: Manager, g: GenId)
    requires g in m.generations
    ensures ManagerSteady(m, Release(m, g))
  {
  }

  lemma SteadyKeepsShutdown(y: System, z: System)
    requires ShutdownOk(y) && ManagerSteady(y.m, z.m) && z.shutdown == y.shutdown
    requires !y.shutdown.NoShutdown? ==> z.lock.Unlocked?
    ensures ShutdownOk(z)
  {
  }

  lemma CleanupKeepsShutdown(y: System, a: Action)
    requires ManagerOk(y.m) && ShutdownOk(y) && Enabled(y, a) && a.EndGenerationCleanup?
    ensures ShutdownOk(Apply(y, a))
  {
  }

  lemma LockedStepKeepsShutdown(y: System, a: Action)
    requires ShutdownOk(y) && LocksOk(y) && Enabled(y, a)
    requires !DrivesShutdown(a) && !a.AcquireLease? && !a.ReleaseLease? && !a.RunRefresh? && !a.EndRefresh?
             && !a.StartRefresh? && !a.EndGenerationCleanup?
    ensures ShutdownOk(Apply(y, a))
  {
    assert y.shutdown.NoShutdown? && Apply(y, a).shutdown.NoShutdown?;
  }

  lemma StepKeepsShutdown(y: System, a: Action)
    requires ManagerOk(y.m) && RefreshesOk(y) && LocksOk(y) && ShutdownOk(y) && Enabled(y, a)
    ensures ShutdownOk(Apply(y, a))
  {
    if DrivesShutdown(a) {
      ShutdownStepKeepsShutdown(y, a);
    } else if a.EndGenerationCleanup? {
      CleanupKeepsShutdown(y, a);
    } else if a.AcquireLease? || a.ReleaseLease? || a.RunRefresh? || a.EndRefresh? || a.StartRefresh? {
      if a.ReleaseLease? {
        ReleaseIsSteady(y.m, y.leases[a.lease].generation);
      } else if a.EndRefresh? {
        ReleaseIsSteady(y.m, y.refreshes[a.id].generation);
      }
      if y.shutdown.NoShutdown? {
        assert Apply(y, a).shutdown.NoShutdown?;
      } else {
        SteadyKeepsShutdown(y, Apply(y, a));
      }
    } else {
      LockedStepKeepsShutdown(y, a);
    }
  }

  // ----- counts -----

  // How many holds on `g` a step adds or drops.
  function Gained(y: System, a: Action, g: GenId): int
    requires Enabled(y, a)
  {
    match a
    case AcquireLease(_) => if !y.m.closing && !y.m.closed && g == y.m.current then 1 else 0
    case ReleaseLease(l) => if y.leases[l] == Lease(g, false) then -1 else 0
    case RunRefresh(i) =>
      if y.refreshes[i].generation == g && g in y.m.generations && !y.m.generations[g].closed then 1 else 0
    case EndRefresh(i) => if y.refreshes[i].generation == g && y.refreshes[i].running then -1 else 0
    case RunRefreshNow => if g == y.m.current && !y.m.generations[g].closed then 1 else 0
    case _ => 0
  }

  lemma LesseesAfterStep(y: System, a: Action, g: GenId)
    requires Enabled(y, a)
    ensures var z := Apply(y, a);
            Lessees(z, g) == (match a
                              case AcquireLease(l) => Lessees(y, g) + (if Gained(y, a, g) == 1 then {l} else {})
                              case ReleaseLease(l) => Lessees(y, g) - {l}
                              case _ => Lessees(y, g))
  {
  }

  lemma FetchersAfterRefreshStep(y: System, a: Action, g: GenId)
    requires Enabled(y, a) && (a.RunRefresh? || a.EndRefresh? || a.RunRefreshNow?)
    requires forall i | i in y.refreshes :: i < y.nextRefresh
    ensures var z := Apply(y, a);
            Fetchers(z, g) == (match a
                               case RunRefresh(i) => Fetchers(y, g) + (if Gained(y, a, g) == 1 then {i} else {})
                               case EndRefresh(i) => Fetchers(y, g) - {i}
                               case _ => Fetchers(y, g) + (if Gained(y, a, g) == 1 then {y.nextRefresh} else {}))
  {
  }

  lemma FetchersAfterOtherStep(y: System, a: Action, g: GenId)
    requires Enabled(y, a) && !a.RunRefresh? && !a.EndRefresh? && !a.RunRefreshNow?
    requires forall i | i in y.refreshes :: i < y.nextRefresh
    ensures Fetchers(Apply(y, a), g) == Fetchers(y, g)
  {
    assert Apply(y, a).refreshes == y.refreshes || TouchesRefreshes(a);
  }

  lemma HoldsAfterStep(y: System, a: Action, g: GenId)
    requires Enabled(y, a) && forall i | i in y.refreshes :: i < y.nextRefresh
    ensures |Lessees(Apply(y, a), g)| + |Fetchers(Apply(y, a), g)|
            == |Lessees(y, g)| + |Fetchers(y, g)| + Gained(y, a, g)
  {
    LesseesAfterStep(y, a, g);
    if a.RunRefresh? || a.EndRefresh? || a.RunRefreshNow? {
      FetchersAfterRefreshStep(y, a, g);
      if a.EndRefresh? && Gained(y, a, g) == -1 {
        assert a.id in Fetchers(y, g);
      }
    } else {
      FetchersAfterOtherStep(y, a, g);
      if a.ReleaseLease? && Gained(y, a, g) == -1 {
        assert a.lease in Lessees(y, g);
      }
    }
  }

  predicate TouchesGenerations(a: Action) {
    a.PublishCandidate? || a.JoinCleanups? || a.RetireForShutdown? || a.EndGenerationCleanup?
  }

  lemma GenerationStepKeepsLeases(y: System, a: Action, g: GenId)
    requires Enabled(y, a) && g in y.m.generations && y.m.nextId !in y.m.generations && TouchesGenerations(a)
    ensures g in Apply(y, a).m.generations
    ensures Apply(y, a).m.generations[g].leases == y.m.generations[g].leases
  {
  }

  // The manager's counters follow the holds.
  lemma LeasesAfterStep(y: System, a: Action, g: GenId)
    requires Enabled(y, a) && g in y.m.generations && y.m.nextId !in y.m.generations
    requires Gained(y, a, g) == -1 ==> 0 < y.m.generations[g].leases
    ensures g in Apply(y, a).m.generations
    ensures Apply(y, a).m.generations[g].leases == y.m.generations[g].leases + Gained(y, a, g)
  {
    if TouchesGenerations(a) {
      GenerationStepKeepsLeases(y, a, g);
    } else if a.AcquireLease? || a.ReleaseLease? || a.RunRefresh? || a.EndRefresh? || a.RunRefreshNow? {
    } else {
      OtherStepKeepsGenerations(y, a);
    }
  }

  lemma OtherStepKeepsGenerations(y: System, a: Action)
    requires Enabled(y, a) && !TouchesGenerations(a)
    requires !a.AcquireLease? && !a.ReleaseLease? && !a.RunRefresh? && !a.EndRefresh? && !a.RunRefreshNow?
    ensures Apply(y, a).m.generations == y.m.generations
  {
  }

  lemma NextIdIsFresh(m: Manager)
    requires ManagerOk(m)
    ensures m.nextId !in m.generations
  {
    assert m.nextId in m.generations ==> GenerationOk(m, m.nextId);
  }

  lemma GenerationsPersist(y: System, a: Action)
    requires Enabled(y, a)
    ensures y.m.generations.Keys <= Apply(y, a).m.generations.Keys
  {
    if TouchesGenerations(a) || a.AcquireLease? || a.ReleaseLease?
       || a.RunRefresh? || a.EndRefresh? || a.RunRefreshNow?
    {
    } else {
      OtherStepKeepsGenerations(y, a);
    }
  }

  lemma LeasesKnown(y: System, a: Action)
    requires CountsOk(y) && Enabled(y, a) && y.m.generations.Keys <= Apply(y, a).m.generations.Keys
    ensures forall l | l in Apply(y, a).leases :: Apply(y, a).leases[l].generation in Apply(y, a).m.generations
  {
    if a.AcquireLease? || a.ReleaseLease? {
    } else {
      LeaseMapUntouched(y, a);
    }
  }

  lemma LeaseMapUntouched(y: System, a: Action)
    requires Enabled(y, a) && !a.AcquireLease? && !a.ReleaseLease?
    ensures Apply(y, a).leases == y.leases
  {
  }

  lemma RefreshesKnown(y: System, a: Action)
    requires CountsOk(y) && Enabled(y, a) && y.m.generations.Keys <= Apply(y, a).m.generations.Keys
    requires Apply(y, a).m.current in Apply(y, a).m.generations
    ensures var z := Apply(y, a);
            forall i | i in z.refreshes :: z.refreshes[i].generation in z.m.generations && i < z.nextRefresh
  {
    if !TouchesRefreshes(a) {
      RefreshMapUntouched(y, a);
    } else if a.StartRefresh? || a.PublishCandidate? || a.RunRefreshNow? {
      NewRefreshKnown(y, a);
    } else {
      OldRefreshesKnown(y, a);
    }
  }

  lemma RefreshMapUntouched(y: System, a: Action)
    requires Enabled(y, a) && !TouchesRefreshes(a)
    ensures Apply(y, a).refreshes == y.refreshes && Apply(y, a).nextRefresh == y.nextRefresh
  {
  }

  lemma OldRefreshesKnown(y: System, a: Action)
    requires CountsOk(y) && Enabled(y, a) && y.m.generations.Keys <= Apply(y, a).m.generations.Keys
    requires a.RunRefresh? || a.EndRefresh? || a.BeginRefreshNow? || a.BeginReplace? || a.LockShutdown?
    ensures var z := Apply(y, a);
            forall i | i in z.refreshes :: z.refreshes[i].generation in z.m.generations && i < z.nextRefresh
  {
    if a.RunRefresh? || a.EndRefresh? {
    } else {
      CancelKeepsAims(y, a);
    }
  }

  lemma CancelKeepsAims(y: System, a: Action)
    requires Enabled(y, a) && (a.BeginRefreshNow? || a.BeginReplace? || a.LockShutdown?)
    ensures var z := Apply(y, a);
            && z.nextRefresh == y.nextRefresh && z.refreshes.Keys == y.refreshes.Keys
            && forall i | i in y.refreshes :: z.refreshes[i].generation == y.refreshes[i].generation
  {
  }

  lemma NewRefreshKnown(y: System, a: Action)
    requires CountsOk(y) && Enabled(y, a) && y.m.generations.Keys <= Apply(y, a).m.generations.Keys
    requires Apply(y, a).m.current in Apply(y, a).m.generations
    requires a.StartRefresh? || a.PublishCandidate? || a.RunRefreshNow?
    ensures var z := Apply(y, a);
            forall i | i in z.refreshes :: z.refreshes[i].generation in z.m.generations && i < z.nextRefresh
  {
  }

  lemma NoHoldsOnUnknown(y: System, g: GenId)
    requires CountsOk(y) && g !in y.m.generations
    ensures Lessees(y, g) == {} && Fetchers(y, g) == {}
  {
  }

  lemma NewGenerations(y: System, a: Action, g: GenId)
    requires Enabled(y, a) && g in Apply(y, a).m.generations && g !in y.m.generations
    ensures a.PublishCandidate? && Apply(y, a).m.generations[g].leases == 0
  {
    if !a.PublishCandidate? {
      OnlyPublishingAdds(y, a);
    }
  }

  lemma OnlyPublishingAdds(y: System, a: Action)
    requires Enabled(y, a) && !a.PublishCandidate?
    ensures Apply(y, a).m.generations.Keys == y.m.generations.Keys
  {
  }

  lemma StepKeepsCounts(y: System, a: Action)
    requires ManagerOk(y.m) && CountsOk(y) && Enabled(y, a) && Apply(y, a).m.current in Apply(y, a).m.generations
    ensures CountsOk(Apply(y, a))
  {
    var z := Apply(y, a);
    NextIdIsFresh(y.m);
    GenerationsPersist(y, a);
    LeasesKnown(y, a);
    RefreshesKnown(y, a);
    forall g | g in z.m.generations ensures z.m.generations[g].leases == |Lessees(z, g)| + |Fetchers(z, g)| {
      HoldsAfterStep(y, a, g);
      if g in y.m.generations {
        LeasesAfterStep(y, a, g);
      } else {
        NewGenerations(y, a, g);
        NoHoldsOnUnknown(y, g);
      }
    }
  }

  // ----- runtimes -----

  // No runtime appears, disappears or is cleaned up.
  predicate SameRuntimes(y: System, z: System) {
    && z.made == y.made && z.cleaned == y.cleaned && z.m.unpublished == y.m.unpublished
    && z.m.generations.Keys == y.m.generations.Keys
    && forall g | g in y.m.generations ::
         z.m.generations[g].runtime == y.m.generations[g].runtime
             && z.m.generations[g].closed == y.m.generations[g].closed
  }

  lemma SameRuntimesStayOk(y: System, z: System)
    requires RuntimesOk(y) && SameRuntimes(y, z)
    ensures RuntimesOk(z)
  {
    forall r | IsPublished(y.m, r) ensures IsPublished(z.m, r) {
      var g :| g in y.m.generations && y.m.generations[g].runtime == r;
      assert z.m.generations[g].runtime == r;
    }
  }

  predicate MovesRuntimes(a: Action) {
    || a.SweepForReplace? || a.FailCommit? || a.EndCandidateCleanup? || a.PublishCandidate? || a.EndGenerationCleanup?
    || a.SweepOne?
  }

  lemma OtherStepMovesNothing(y: System, a: Action)
    requires Enabled(y, a) && !MovesRuntimes(a)
    ensures var z := Apply(y, a);
            z.made == y.made && z.cleaned == y.cleaned && z.m.unpublished == y.m.unpublished
  {
  }

  lemma OtherStepKeepsRuntimes(y: System, a: Action)
    requires Enabled(y, a) && !MovesRuntimes(a)
    ensures SameRuntimes(y, Apply(y, a))
  {
    OtherStepMovesNothing(y, a);
    if TouchesGenerations(a) || a.AcquireLease? || a.ReleaseLease?
       || a.RunRefresh? || a.EndRefresh? || a.RunRefreshNow?
    {
      HoldStepKeepsOwnership(y, a);
    } else {
      OtherStepKeepsGenerations(y, a);
    }
  }

  lemma HoldStepKeepsOwnership(y: System, a: Action)
    requires Enabled(y, a)
    requires a.JoinCleanups? || a.RetireForShutdown? || a.AcquireLease? || a.ReleaseLease? || a.RunRefresh?
             || a.EndRefresh? || a.RunRefreshNow?
    ensures SameOwnership(y.m, Apply(y, a).m)
  {
    if a.ReleaseLease? {
      ReleaseKeepsOwnership(y.m, y.leases[a.lease].generation);
    } else if a.EndRefresh? {
      ReleaseKeepsOwnership(y.m, y.refreshes[a.id].generation);
    } else if a.JoinCleanups? {
      CloseAllKeepsOwnership(y.m, y.shutdown.targets);
    } else {
    }
  }

  // An unpublished runtime was cleaned up.
  lemma SweptKeepsRuntimes(y: System, z: System, r: Runtime)
    requires RuntimesOk(y) && r in y.m.unpublished
    requires z.m == y.m.(unpublished := y.m.unpublished - {r}) && z.cleaned == y.cleaned + multiset{r}
             && z.made == y.made
    ensures RuntimesOk(z)
  {
    assert forall q | IsPublished(y.m, q) :: IsPublished(z.m, q);
    assert y.cleaned[r] == 0;
    forall q | q in z.cleaned ensures q in z.made && z.cleaned[q] == 1 && q !in z.m.unpublished {
      if q != r {
        assert q in y.cleaned;
      }
    }
  }

  lemma SweepKeepsRuntimes(y: System, a: Action)
    requires RuntimesOk(y) && LocksOk(y) && ShutdownOk(y) && Enabled(y, a)
    requires a.SweepForReplace? || a.EndCandidateCleanup? || a.SweepOne?
    ensures RuntimesOk(Apply(y, a))
  {
    var z := Apply(y, a);
    var r := if a.EndCandidateCleanup? then y.lock.candidate else a.runtime;
    if a.ok {
      SweptKeepsRuntimes(y, z, r);
    } else {
      SameRuntimesStayOk(y, z);
    }
  }

  lemma FailCommitKeepsRuntimes(y: System, a: Action)
    requires RuntimesOk(y) && Enabled(y, a) && a.FailCommit?
    ensures RuntimesOk(Apply(y, a))
  {
    var z := Apply(y, a);
    assert forall q | IsPublished(y.m, q) :: IsPublished(z.m, q);
  }

  lemma PublishedStays(m: Manager, n: Manager, r: Runtime)
    requires forall g | g in m.generations :: g in n.generations && n.generations[g].runtime == m.generations[g].runtime
    requires IsPublished(m, r)
    ensures IsPublished(n, r)
  {
    var g :| g in m.generations && m.generations[g].runtime == r;
    assert n.generations[g].runtime == r;
  }

  lemma PublishAddsOne(m: Manager, r: Runtime)
    requires m.current in m.generations && m.nextId !in m.generations
    ensures var n := Publish(m, r);
            && n.generations.Keys == m.generations.Keys + {m.nextId} && n.unpublished == m.unpublished
            && n.generations[m.nextId].runtime == r && !n.generations[m.nextId].closed
            && forall g | g in m.generations ::
                 n.generations[g].runtime == m.generations[g].runtime
                     && n.generations[g].closed == m.generations[g].closed
  {
  }

  lemma PublishKeepsDistinct(m: Manager, r: Runtime)
    requires m.current in m.generations && m.nextId !in m.generations && RuntimesDistinct(m)
    requires r !in m.unpublished && !IsPublished(m, r)
    ensures RuntimesDistinct(Publish(m, r))
  {
    PublishAddsOne(m, r);
    var n := Publish(m, r);
    forall g | g in m.generations ensures n.generations[g].runtime != r {
      assert n.generations[g].runtime == m.generations[g].runtime;
    }
  }

  lemma PublishKeepsRuntimes(y: System, a: Action)
    requires y.m.nextId !in y.m.generations && RuntimesOk(y) && Enabled(y, a) && a.PublishCandidate?
    ensures RuntimesOk(Apply(y, a))
  {
    assert !IsPublished(y.m, a.runtime);
    var published := y.(m := Publish(y.m, a.runtime), made := y.made + {a.runtime});
    PublishedIsOk(y, a.runtime, published);
    SameRuntimesStayOk(published, Apply(y, a));
  }

  lemma PublishedIsOk(y: System, r: Runtime, z: System)
    requires y.m.current in y.m.generations && y.m.nextId !in y.m.generations && RuntimesOk(y)
    requires r !in y.m.unpublished && r !in y.cleaned && !IsPublished(y.m, r)
    requires z.m == Publish(y.m, r) && z.made == y.made + {r} && z.cleaned == y.cleaned
    ensures RuntimesOk(z)
  {
    PublishKeepsDistinct(y.m, r);
    PublishAddsOne(y.m, r);
    PublishKeepsAccount(y, r);
  }

  lemma PublishKeepsAccount(y: System, runtime: Runtime)
    requires y.m.current in y.m.generations && y.m.nextId !in y.m.generations && RuntimesOk(y)
    ensures var n := Publish(y.m, runtime);
            && IsPublished(n, runtime)
            && forall r | r in y.made :: r in n.unpublished || r in y.cleaned || IsPublished(n, r)
  {
    var n := Publish(y.m, runtime);
    PublishAddsOne(y.m, runtime);
    assert n.generations[y.m.nextId].runtime == runtime;
    forall r | r in y.made ensures r in n.unpublished || r in y.cleaned || IsPublished(n, r) {
      if IsPublished(y.m, r) {
        PublishedStays(y.m, n, r);
      }
    }
  }

  lemma CleanupKeepsRuntimes(y: System, a: Action)
    requires RuntimesOk(y) && Enabled(y, a) && a.EndGenerationCleanup? && a.ok && !y.m.generations[a.g].closed
    ensures RuntimesOk(Apply(y, a))
  {
    var z := Apply(y, a);
    var r := y.m.generations[a.g].runtime;
    assert y.cleaned[r] == 0;
    forall q | q in z.cleaned ensures q in z.made && z.cleaned[q] == 1 && q !in z.m.unpublished {
      if q != r {
        assert q in y.cleaned;
      }
    }
    forall q | q in z.made ensures q in z.m.unpublished || q in z.cleaned || IsPublished(z.m, q) {
      if IsPublished(y.m, q) {
        PublishedStays(y.m, z.m, q);
      }
    }
  }

  lemma FailedCleanupKeepsRuntimes(y: System, a: Action)
    requires RuntimesOk(y) && Enabled(y, a) && a.EndGenerationCleanup? && !a.ok
    ensures RuntimesOk(Apply(y, a))
  {
    SameRuntimesStayOk(y, Apply(y, a));
  }

  lemma StepKeepsRuntimes(y: System, a: Action)
    requires ManagerOk(y.m) && RuntimesOk(y) && LocksOk(y) && ShutdownOk(y) && Enabled(y, a)
    ensures RuntimesOk(Apply(y, a))
  {
    if a.FailCommit? {
      FailCommitKeepsRuntimes(y, a);
    } else if a.PublishCandidate? {
      NextIdIsFresh(y.m);
      PublishKeepsRuntimes(y, a);
    } else if a.EndGenerationCleanup? {
      assert GenerationOk(y.m, a.g);
      if a.ok {
        CleanupKeepsRuntimes(y, a);
      } else {
        FailedCleanupKeepsRuntimes(y, a);
      }
    } else if a.SweepForReplace? || a.EndCandidateCleanup? || a.SweepOne? {
      SweepKeepsRuntimes(y, a);
    } else {
      OtherStepKeepsRuntimes(y, a);
      SameRuntimesStayOk(y, Apply(y, a));
    }
  }

  lemma StepKeepsInvariant(y: System, a: Action)
    requires Invariant(y) && Enabled(y, a) && RefreshTimely(y, a)
    ensures Invariant(Apply(y, a))
  {
    StepKeepsManager(y, a);
    StepKeepsRefreshes(y, a);
    StepKeepsLocks(y, a);
    StepKeepsAwaited(y, a);
    StepKeepsShutdown(y, a);
    StepKeepsCounts(y, a);
    StepKeepsRuntimes(y, a);
  }
}
