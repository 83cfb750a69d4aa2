// Requests, refreshes, replacements and shutdown running concurrently over one manager.
module GenerationSystem {
  import opened Wrappers
  import opened GenerationProtocol

  datatype Lease = Lease(generation: GenId, released: bool)

  // A model-list refresh: scheduled, then running with its own hold on the generation.
  datatype Refresh = Refresh(generation: GenId, running: bool, cancelled: bool)

  // Who holds the replace lock, and what it is waiting for there. `awaited` is the cancelled
  // refresh whose end is awaited, `rest` the unpublished runtimes still to be cleaned up.
  datatype Lock =
    | Unlocked
    | ReplaceWaits(awaited: Option<nat>)
    | ReplaceSweeps(rest: set<Runtime>)
    | ReplaceCleansCandidate(candidate: Runtime)
    | ReplaceJoins
    | ShutdownWaits(awaited: Option<nat>)
    | RefreshWaits(awaited: Option<nat>)
    | RefreshRuns(id: nat)

  // Where the `close` holding the close lock is after its locked part.
  datatype Shutdown =
    | NoShutdown
    | Draining(targets: set<GenId>)
    | Joining(targets: set<GenId>, pending: set<GenId>, ok: bool)
    | Sweeping(rest: set<Runtime>, ok: bool)

  datatype System = System(
    m: Manager,
    leases: map<nat, Lease>,
    refreshes: map<nat, Refresh>,
    tracked: Option<nat>,        // the manager's own refresh task
    nextRefresh: nat,
    lock: Lock,
    shutdown: Shutdown,
    made: set<Runtime>,          // by the factory, so far
    cleaned: multiset<Runtime>)  // successful cleanups, so far

  datatype Action =
    | AcquireLease(lease: nat)
    | ReleaseLease(lease: nat)
    | StartRefresh                                   // start_model_list_refresh
    | RunRefresh(id: nat)                            // a scheduled refresh takes its first step
    | EndRefresh(id: nat)
    | BeginRefreshNow                                // refresh_model_list_cache takes the lock
    | RunRefreshNow
    | BeginReplace
    | ReplaceSweep                                   // the old refresh is gone, sweep the unpublished
    | SweepForReplace(runtime: Runtime, ok: bool)
    | FailCommit(runtime: Runtime)
    | EndCandidateCleanup(ok: bool)
    | PublishCandidate(runtime: Runtime)
    | LeaveLock                                      // the holder returns, raises or is cancelled
    | EndGenerationCleanup(g: GenId, ok: bool)
    | LockShutdown                                   // `close` takes the replace lock
    | RetireForShutdown
    | JoinCleanups
    | SweepForShutdown
    | SweepOne(runtime: Runtime, ok: bool)
    | FinishShutdown
    | AbortShutdown

  predicate RefreshGone(y: System, awaited: Option<nat>) {
    awaited.Some? ==> awaited.value !in y.refreshes
  }

  predicate Enabled(y: System, a: Action) {
    y.m.current in y.m.generations &&
    match a
    case AcquireLease(l) => l !in y.leases
    case ReleaseLease(l) => l in y.leases && y.leases[l].generation in y.m.generations
    case StartRefresh => true
    case RunRefresh(i) =>
      i in y.refreshes && !y.refreshes[i].running && !y.refreshes[i].cancelled
          && y.refreshes[i].generation in y.m.generations
    case EndRefresh(i) => i in y.refreshes && y.refreshes[i].generation in y.m.generations
                          && (y.refreshes[i].running || y.refreshes[i].cancelled)
    case BeginRefreshNow => y.lock.Unlocked? && !y.m.closing && !y.m.closed
    case RunRefreshNow => y.lock.RefreshWaits? && RefreshGone(y, y.lock.awaited)
    case BeginReplace => y.lock.Unlocked? && !y.m.closing && !y.m.closed
    case ReplaceSweep => y.lock.ReplaceWaits? && RefreshGone(y, y.lock.awaited)
    case SweepForReplace(r, _) => y.lock.ReplaceSweeps? && r in y.lock.rest
    case FailCommit(r) => y.lock == ReplaceSweeps({}) && r !in y.made
    case EndCandidateCleanup(_) => y.lock.ReplaceCleansCandidate?
    case PublishCandidate(r) => y.lock == ReplaceSweeps({}) && r !in y.made && y.m.current != y.m.nextId
    case LeaveLock => !y.lock.Unlocked? && !y.lock.RefreshRuns?
    case EndGenerationCleanup(g, _) => g in y.m.generations && y.m.generations[g].cleaning
    case LockShutdown => y.lock.Unlocked? && y.shutdown.NoShutdown? && !y.m.closed
    case RetireForShutdown => y.lock.ShutdownWaits? && RefreshGone(y, y.lock.awaited)
    case JoinCleanups =>
      y.shutdown.Draining? && forall g | g in y.shutdown.targets :: g in y.m.generations && y.m.generations[g].drained
    case SweepForShutdown => y.shutdown.Joining? && y.shutdown.pending == {}
    case SweepOne(r, _) => y.shutdown.Sweeping? && r in y.shutdown.rest
    case FinishShutdown => y.shutdown.Sweeping? && y.shutdown.rest == {}
    case AbortShutdown => !y.shutdown.NoShutdown?
  }

  // The tracked refresh is forgotten and cancelled, if it has not ended.
  function CancelTracked(y: System): System {
    if y.tracked.Some? && y.tracked.value in y.refreshes then
      y.(refreshes := y.refreshes[y.tracked.value := y.refreshes[y.tracked.value].(cancelled := true)], tracked := None)
    else y.(tracked := None)
  }

  function Awaited(y: System): Option<nat> {
    if y.tracked.Some? && y.tracked.value in y.refreshes then y.tracked else None
  }

  function Schedule(y: System, g: GenId): System {
    y.(refreshes := y.refreshes[y.nextRefresh := Refresh(g, false, false)], tracked := Some(y.nextRefresh),
       nextRefresh := y.nextRefresh + 1)
  }

  function CloseAll(m: Manager, gs: set<GenId>): Manager
    requires gs <= m.generations.Keys
  {
    m.(generations := map g | g in m.generations ::
                        if g in gs then CloseGeneration(m, g).0.generations[g] else m.generations[g])
  }

  function Apply(y: System, a: Action): System
    requires Enabled(y, a)
  {
    match a
    case AcquireLease(l) =>
      var (m, g) := Acquire(y.m);
      y.(m := m, leases := if g.Some? then y.leases[l := Lease(g.value, false)] else y.leases)
    case ReleaseLease(l) =>
      if y.leases[l].released then y
      else y.(m := Release(y.m, y.leases[l].generation), leases := y.leases[l := y.leases[l].(released := true)])
    case StartRefresh =>
      if y.m.closing || y.m.closed || Awaited(y).Some? then y else Schedule(y, y.m.current)
    case RunRefresh(i) =>
      var g := y.refreshes[i].generation;
      if y.m.generations[g].closed then y.(refreshes := y.refreshes - {i})
      else y.(m := Grant(y.m, g), refreshes := y.refreshes[i := y.refreshes[i].(running := true)])
    case EndRefresh(i) =>
      y.(m := if y.refreshes[i].running then Release(y.m, y.refreshes[i].generation) else y.m,
         refreshes := y.refreshes - {i},
         lock := if y.lock == RefreshRuns(i) then Unlocked else y.lock)
    case BeginRefreshNow => CancelTracked(y).(lock := RefreshWaits(Awaited(y)))
    case RunRefreshNow =>
      if y.m.generations[y.m.current].closed then y.(lock := Unlocked)
      else y.(m := Grant(y.m, y.m.current),
          refreshes := y.refreshes[y.nextRefresh := Refresh(y.m.current, true, false)],
              nextRefresh := y.nextRefresh + 1, lock := RefreshRuns(y.nextRefresh))
    case BeginReplace => CancelTracked(y).(lock := ReplaceWaits(Awaited(y)))
    case ReplaceSweep => y.(lock := ReplaceSweeps(y.m.unpublished))
    case SweepForReplace(r, ok) =>
      y.(m := if ok then y.m.(unpublished := y.m.unpublished - {r}) else y.m,
         cleaned := if ok then y.cleaned + multiset{r} else y.cleaned,
         lock := ReplaceSweeps(y.lock.rest - {r}))
    case FailCommit(r) =>
      y.(m := y.m.(unpublished := y.m.unpublished + {r}), made := y.made + {r}, lock := ReplaceCleansCandidate(r))
    case EndCandidateCleanup(ok) =>
      y.(m := if ok then y.m.(unpublished := y.m.unpublished - {y.lock.candidate}) else y.m,
         cleaned := if ok then y.cleaned + multiset{y.lock.candidate} else y.cleaned,
         lock := Unlocked)
    case PublishCandidate(r) =>
      Schedule(y.(m := Publish(y.m, r), made := y.made + {r}, lock := ReplaceJoins), y.m.nextId)
    case LeaveLock => y.(lock := Unlocked)
    case EndGenerationCleanup(g, ok) =>
      y.(m := EndCleanup(y.m, g, ok),
         cleaned := if ok then y.cleaned + multiset{y.m.generations[g].runtime} else y.cleaned,
         shutdown := if y.shutdown.Joining? && g in y.shutdown.pending
                     then Joining(y.shutdown.targets, y.shutdown.pending - {g}, y.shutdown.ok && ok) else y.shutdown)
    case LockShutdown => CancelTracked(y.(m := y.m.(closing := true))).(lock := ShutdownWaits(Awaited(y)))
    case RetireForShutdown =>
      var m := BeginShutdown(y.m);
      y.(m := m, lock := Unlocked, shutdown := Draining(m.retired))
    case JoinCleanups =>
      var gs := y.shutdown.targets;
      y.(m := CloseAll(y.m, gs),
         shutdown := Joining(gs, set g | g in gs && CloseGeneration(y.m, g).1.Joined?,
                             forall g | g in gs :: !CloseGeneration(y.m, g).1.StillLeased?))
    case SweepForShutdown => y.(shutdown := Sweeping(y.m.unpublished, y.shutdown.ok))
    case SweepOne(r, ok) =>
      y.(m := if ok then y.m.(unpublished := y.m.unpublished - {r}) else y.m,
         cleaned := if ok then y.cleaned + multiset{r} else y.cleaned,
         shutdown := Sweeping(y.shutdown.rest - {r}, y.shutdown.ok && ok))
    case FinishShutdown =>
      y.(m := if y.shutdown.ok then y.m.(closed := true) else y.m, shutdown := NoShutdown)
    case AbortShutdown => y.(shutdown := NoShutdown)
  }
}
