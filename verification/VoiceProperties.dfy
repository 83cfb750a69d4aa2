// What the voice registry promises in every reachable state and over whole runs.
module VoiceProperties {
  import opened Wrappers
  import opened VoiceProtocol
  import opened VoiceSystem

  ghost predicate Initial(y: System) {
    y == System(Registry(map[], map[], map[]), map[], map[], 0, map[])
  }

  ghost predicate IsRun(ys: seq<System>, actions: seq<Action>) {
    && |ys| == |actions| + 1
    && forall i: nat | i < |actions| :: StepsAt(ys, actions, i)
  }

  ghost predicate StepsAt(ys: seq<System>, actions: seq<Action>, i: nat)
    requires |ys| == |actions| + 1 && i < |actions|
  {
    Enabled(ys[i], actions[i]) && ys[i + 1] == Apply(ys[i], actions[i])
  }

  // ----- steps -----

  lemma SelectedAreLive(y: System, a: Action)
    requires RegistryOk(y) && (a.CancelReply? || a.CancelScope?)
    ensures forall t | t in (if a.CancelReply? then SelectReply(y.reg, a.scope, a.replyId, a.caller.Owner())
                             else SelectScope(y.reg, a.within, a.caller.Owner())) ::
              t in y.reg.info && Owns(y.reg, t) && !Excluded(y.reg, t, a.caller.Owner())
  {
  }

  lemma GuardsAfterBegin(y: System, caller: Caller, targets: set<Claim>, guarded: bool, r: Releaser, c: Claim)
    requires TargetsOk(y)
    ensures Guards(BeginDrain(y, caller, targets, guarded, r), c)
            == Guards(y, c) + if guarded && caller.Owner() == Some(c) then {y.nextDrain} else {}
  {
  }

  lemma BeginKeepsProtection(y: System, caller: Caller, targets: set<Claim>, guarded: bool, r: Releaser)
    requires TargetsOk(y) && ProtectionOk(y)
    ensures ProtectionOk(BeginDrain(y, caller, targets, guarded, r))
  {
    var z := BeginDrain(y, caller, targets, guarded, r);
    forall c ensures Protection(z.reg, c) == |Guards(z, c)| {
      GuardsAfterBegin(y, caller, targets, guarded, r, c);
    }
  }

  lemma BeginKeepsTargets(y: System, caller: Caller, targets: set<Claim>, guarded: bool, r: Releaser)
    requires TargetsOk(y) && LifecycleOk(y)
    requires forall t | t in targets :: t in y.reg.info && Owns(y.reg, t)
    ensures TargetsOk(BeginDrain(y, caller, targets, guarded, r))
  {
    var z := BeginDrain(y, caller, targets, guarded, r);
    assert z.released.Keys == y.released.Keys + targets;
    forall n | n in y.drains ensures y.drains[n].targets !! targets {
    }
  }

  lemma BeginKeepsLifecycle(y: System, caller: Caller, targets: set<Claim>, guarded: bool, r: Releaser)
    requires IndexOk(y.reg) && LifecycleOk(y) && !r.ByHandoff?
    requires forall t | t in targets :: t in y.reg.info && Owns(y.reg, t)
    ensures LifecycleOk(BeginDrain(y, caller, targets, guarded, r))
  {
    RemoveAllKeepsIndex(y.reg, targets);
    var z := BeginDrain(y, caller, targets, guarded, r);
    forall c | c in z.reg.info ensures ClaimOk(z, c) {
      assert ClaimOk(y, c);
      assert Owns(z.reg, c) <==> Owns(RemoveAll(y.reg, targets), c);
    }
  }

  lemma BeginKeepsRegistry(y: System, caller: Caller, targets: set<Claim>, guarded: bool, r: Releaser)
    requires RegistryOk(y) && !r.ByHandoff?
    requires forall t | t in targets :: t in y.reg.info && Owns(y.reg, t)
    ensures RegistryOk(BeginDrain(y, caller, targets, guarded, r))
  {
    BeginKeepsLifecycle(y, caller, targets, guarded, r);
    BeginKeepsTargets(y, caller, targets, guarded, r);
    BeginKeepsProtection(y, caller, targets, guarded, r);
    RemoveAllKeepsIndex(y.reg, targets);
    IndexIgnoresProtection(RemoveAll(y.reg, targets), BeginDrain(y, caller, targets, guarded, r).reg);
  }

  lemma IndexIgnoresProtection(r: Registry, q: Registry)
    requires IndexOk(r) && q.pending == r.pending && q.info == r.info
    ensures IndexOk(q)
  {
    assert forall c :: Owns(q, c) <==> Owns(r, c);
  }

  lemma UnprotectCounts(r: Registry, owner: Option<Claim>, c: Claim)
    requires owner.Some? ==> 0 < Protection(r, owner.value)
    ensures Protection(Unprotect(r, owner), c) == Protection(r, c) - if owner == Some(c) then 1 else 0
  {
  }

  lemma EndKeepsProtection(y: System, n: nat)
    requires TargetsOk(y) && ProtectionOk(y) && n in y.drains && Enabled(y, EndDrain(n))
    ensures ProtectionOk(Apply(y, EndDrain(n)))
  {
    var z := Apply(y, EndDrain(n));
    var d := y.drains[n];
    if d.guarded && d.Owner().Some? {
      assert n in Guards(y, d.Owner().value);
    }
    forall c ensures Protection(z.reg, c) == |Guards(z, c)| {
      GuardsAfterEnd(y, n, c);
      if d.guarded {
        UnprotectCounts(y.reg, d.Owner(), c);
      }
    }
  }

  lemma GuardsAfterEnd(y: System, n: nat, c: Claim)
    requires n in y.drains && Enabled(y, EndDrain(n))
    ensures Guards(Apply(y, EndDrain(n)), c) == Guards(y, c) - {n}
    ensures n in Guards(y, c) <==> y.drains[n].guarded && y.drains[n].Owner() == Some(c)
  {
  }

  lemma EndKeepsRegistry(y: System, n: nat)
    requires RegistryOk(y) && Enabled(y, EndDrain(n))
    ensures RegistryOk(Apply(y, EndDrain(n)))
  {
    var z := Apply(y, EndDrain(n));
    EndKeepsProtection(y, n);
    IndexIgnoresProtection(y.reg, z.reg);
    forall c | c in z.reg.info ensures ClaimOk(z, c) {
      assert ClaimOk(y, c);
    }
  }

  lemma GuardsUnchanged(y: System, z: System)
    requires ProtectionOk(y) && z.drains == y.drains && z.reg.protection == y.reg.protection
    ensures ProtectionOk(z)
  {
    forall c ensures Protection(z.reg, c) == |Guards(z, c)| {
      assert Guards(z, c) == Guards(y, c);
    }
  }

  // An entry leaves the index without anybody starting to wait.
  lemma ReleaseKeepsRegistry(y: System, c: Claim, r: Releaser, task: Task)
    requires RegistryOk(y) && c in y.reg.info && Owns(y.reg, c)
    requires if r.ByHandoff? then task.Reported? && !task.report.CancelledReport? && y.tasks[c].Ended?
             else task == y.tasks[c]
    ensures RegistryOk(Released(y, c, r, task))
  {
    var z := Released(y, c, r, task);
    RemoveIsByIdentity(y.reg, c);
    RemoveAllKeepsIndex(y.reg, {c});
    GuardsUnchanged(y, z);
    ReleaseKeepsLifecycle(y, c, r, task);
  }

  function Released(y: System, c: Claim, r: Releaser, task: Task): System
    requires c in y.reg.info
  {
    y.(reg := Remove(y.reg, c), tasks := y.tasks[c := task], released := MarkReleased(y.released, {c}, r))
  }

  lemma ReleaseKeepsLifecycle(y: System, c: Claim, r: Releaser, task: Task)
    requires LifecycleOk(y) && c in y.reg.info && Owns(y.reg, c)
    requires forall k :: Owns(Remove(y.reg, c), k) <==> Owns(y.reg, k) && k != c
    requires if r.ByHandoff? then task.Reported? && !task.report.CancelledReport? && y.tasks[c].Ended?
             else task == y.tasks[c]
    ensures LifecycleOk(Released(y, c, r, task))
  {
    var z := Released(y, c, r, task);
    assert z.released.Keys == y.released.Keys + {c};
    forall k | k in z.reg.info ensures ClaimOk(z, k) {
      assert ClaimOk(y, k);
      assert k != c ==> z.tasks[k] == y.tasks[k];
    }
  }

  lemma FinishKeepsRegistry(y: System, a: Action)
    requires RegistryOk(y) && Enabled(y, a) && a.FinishHandoff?
    ensures RegistryOk(Apply(y, a))
  {
    var z := Apply(y, a);
    assert ClaimOk(y, a.c);
    if Owns(y.reg, a.c) {
      ReleaseKeepsRegistry(y, a.c, ByHandoff, z.tasks[a.c]);
    } else {
      GuardsUnchanged(y, z);
      LateReportKeepsLifecycle(y, a);
    }
  }

  lemma LateReportKeepsLifecycle(y: System, a: Action)
    requires LifecycleOk(y) && Enabled(y, a) && a.FinishHandoff? && !Owns(y.reg, a.c)
    ensures LifecycleOk(Apply(y, a))
  {
    var z := Apply(y, a);
    forall k | k in z.reg.info ensures ClaimOk(z, k) {
      assert ClaimOk(y, k);
    }
  }

  lemma RegistryStepKeepsOwners(y: System, a: Action, k: Claim)
    requires Enabled(y, a) && (a.DoReserve? || a.DoBind? || a.StartHandoff? || a.EndTask?)
    ensures var made := a.DoReserve? && (a.scope, a.voiceId) !in y.reg.pending
            && k == Claim(a.scope, a.voiceId, a.claimId);
            Owns(Apply(y, a).reg, k) <==> Owns(y.reg, k) || made
  {
  }

  lemma RegistryStepKeepsLifecycle(y: System, a: Action)
    requires LifecycleOk(y) && Enabled(y, a) && (a.DoReserve? || a.DoBind? || a.StartHandoff? || a.EndTask?)
    ensures LifecycleOk(Apply(y, a))
  {
    var z := Apply(y, a);
    assert z.tasks.Keys == z.reg.info.Keys;
    forall k | k in z.reg.info ensures ClaimOk(z, k) {
      RegistryStepKeepsOwners(y, a, k);
      if k in y.reg.info {
        assert ClaimOk(y, k);
      }
    }
  }

  lemma RegistryStepKeepsRegistry(y: System, a: Action)
    requires RegistryOk(y) && Enabled(y, a) && (a.DoReserve? || a.DoBind? || a.StartHandoff? || a.EndTask?)
    ensures RegistryOk(Apply(y, a))
  {
    GuardsUnchanged(y, Apply(y, a));
    RegistryStepKeepsLifecycle(y, a);
    RegistryStepKeepsIndex(y, a);
  }

  lemma RegistryStepKeepsIndex(y: System, a: Action)
    requires IndexOk(y.reg) && Enabled(y, a) && (a.DoReserve? || a.DoBind? || a.StartHandoff? || a.EndTask?)
    ensures IndexOk(Apply(y, a).reg)
  {
    match a
    case DoReserve(scope, voiceId, claimId) => ReserveKeepsIndex(y.reg, scope, voiceId, claimId);
    case DoBind(c, status) => BindKeepsIndex(y.reg, c, status);
    case StartHandoff(c) => HandoffKeepsIndex(y.reg, c);
    case EndTask(_, _) =>
  }

  lemma SelfDiscardIsRelease(y: System, a: Action)
    requires Enabled(y, a) && a.Discard? && a.caller == InHandoff(a.c) && Owns(y.reg, a.c) && a.c in y.reg.info
             && a.c in y.tasks
    ensures Apply(y, a) == Released(y, a.c, ByDiscard, y.tasks[a.c])
  {
    assert y.tasks[a.c := y.tasks[a.c]] == y.tasks;
  }

  lemma DiscardKeepsRegistry(y: System, a: Action)
    requires RegistryOk(y) && Enabled(y, a) && a.Discard?
    ensures RegistryOk(Apply(y, a))
  {
    if Owns(y.reg, a.c) && a.c in y.reg.info {
      if a.caller == InHandoff(a.c) {
        SelfDiscardIsRelease(y, a);
        ReleaseKeepsRegistry(y, a.c, ByDiscard, y.tasks[a.c]);
      } else {
        BeginKeepsRegistry(y, a.caller, {a.c}, false, ByDiscard);
        assert Apply(y, a) == BeginDrain(y, a.caller, {a.c}, false, ByDiscard);
      }
    }
  }

  lemma CancelKeepsRegistry(y: System, a: Action)
    requires RegistryOk(y) && Enabled(y, a) && (a.CancelReply? || a.CancelScope?)
    ensures RegistryOk(Apply(y, a))
  {
    SelectedAreLive(y, a);
    var targets := if a.CancelReply? then SelectReply(y.reg, a.scope, a.replyId, a.caller.Owner())
                   else SelectScope(y.reg, a.within, a.caller.Owner());
    if targets != {} {
      BeginKeepsRegistry(y, a.caller, targets, true, ByCancel);
    }
  }

  lemma StepKeepsRegistry(y: System, a: Action)
    requires RegistryOk(y) && Enabled(y, a)
    ensures RegistryOk(Apply(y, a))
  {
    match a
    case FinishHandoff(_, _, _) => FinishKeepsRegistry(y, a);
    case Discard(_, _) => DiscardKeepsRegistry(y, a);
    case CancelReply(_, _, _) => CancelKeepsRegistry(y, a);
    case CancelScope(_, _) => CancelKeepsRegistry(y, a);
    case EndDrain(n) => EndKeepsRegistry(y, n);
    case _ => RegistryStepKeepsRegistry(y, a);
  }

  // A task once started stays so, and ends only when it is not draining.
  lemma TasksAfterStep(y: System, a: Action, c: Claim)
    requires LifecycleOk(y) && Enabled(y, a) && c in y.tasks && !y.tasks[c].NotStarted?
    ensures c in Apply(y, a).tasks && !Apply(y, a).tasks[c].NotStarted?
    ensures IsRunning(y, c) && (a.EndTask? ==> a.c != c) ==> IsRunning(Apply(y, a), c)
  {
    if c in y.reg.info {
      assert ClaimOk(y, c);
    }
  }

  lemma StepKeepsCallers(y: System, a: Action)
    requires Invariant(y) && Enabled(y, a)
    ensures CallersOk(Apply(y, a))
  {
    var z := Apply(y, a);
    forall n | n in z.drains
      ensures z.drains[n].caller.InHandoff? ==> IsRunning(z, z.drains[n].caller.claim)
      ensures z.drains[n].caller.InChildOf? ==>
                z.drains[n].caller.claim in z.tasks && !z.tasks[z.drains[n].caller.claim].NotStarted?
    {
      DrainsAfterStep(y, a, n);
      if z.drains[n].caller != Outside {
        TasksAfterStep(y, a, z.drains[n].caller.claim);
      }
    }
  }

  // A drain is an old one or begun by this step.
  lemma DrainsAfterStep(y: System, a: Action, n: nat)
    requires Enabled(y, a) && n in Apply(y, a).drains
    ensures var d := Apply(y, a).drains[n];
            || (n in y.drains && y.drains[n] == d)
            || (n == y.nextDrain && (a.Discard? || a.CancelReply? || a.CancelScope?) && d.caller == a.caller)
  {
  }

  lemma StepKeepsInvariant(y: System, a: Action)
    requires Invariant(y) && Enabled(y, a)
    ensures Invariant(Apply(y, a))
  {
    StepKeepsRegistry(y, a);
    StepKeepsCallers(y, a);
  }

  // ----- runs -----

  lemma InitialSatisfiesInvariant(y: System)
    requires Initial(y)
    ensures Invariant(y)
  {
    assert forall c :: Guards(y, c) == {};
  }

  lemma {:induction false} RunKeepsInvariant(ys: seq<System>, actions: seq<Action>, i: nat)
    requires IsRun(ys, actions) && Invariant(ys[0]) && i < |ys|
    ensures Invariant(ys[i])
  {
    if 0 < i {
      RunKeepsInvariant(ys, actions, i - 1);
      assert StepsAt(ys, actions, i - 1);
      StepKeepsInvariant(ys[i - 1], actions[i - 1]);
    }
  }

  // ----- one releaser -----

  lemma CancelKeepsReleaser(y: System, a: Action, c: Claim)
    requires Invariant(y) && Enabled(y, a) && (a.CancelReply? || a.CancelScope?) && c in y.released
    ensures c in Apply(y, a).released && Apply(y, a).released[c] == y.released[c]
  {
    SelectedAreLive(y, a);
    assert ClaimOk(y, c);
  }

  lemma StepKeepsReleaser(y: System, a: Action, c: Claim)
    requires Invariant(y) && Enabled(y, a) && c in y.released
    ensures c in Apply(y, a).released && Apply(y, a).released[c] == y.released[c]
  {
    assert ClaimOk(y, c);
    if a.CancelReply? || a.CancelScope? {
      CancelKeepsReleaser(y, a, c);
    } else {
    }
  }

  // Once released a claim is never live again, and whoever released it stays the only one, even
  // when its message is reserved again.
  lemma {:induction false} ReleaserIsUnique(ys: seq<System>, actions: seq<Action>, i: nat, j: nat, c: Claim)
    requires IsRun(ys, actions) && Invariant(ys[0]) && i <= j < |ys| && c in ys[i].released
    ensures c in ys[j].released && ys[j].released[c] == ys[i].released[c] && !Owns(ys[j].reg, c)
    decreases j
  {
    if i < j {
      ReleaserIsUnique(ys, actions, i, j - 1, c);
      ReleaserStays(ys, actions, j - 1, c);
    } else {
      RunKeepsInvariant(ys, actions, i);
      ReleasedIsNotLive(ys[i], c);
    }
  }

  lemma ReleaserStays(ys: seq<System>, actions: seq<Action>, j: nat, c: Claim)
    requires IsRun(ys, actions) && Invariant(ys[0]) && j < |actions| && c in ys[j].released
    ensures c in ys[j + 1].released && ys[j + 1].released[c] == ys[j].released[c] && !Owns(ys[j + 1].reg, c)
  {
    RunKeepsInvariant(ys, actions, j);
    assert StepsAt(ys, actions, j);
    StepKeepsReleaser(ys[j], actions[j], c);
    StepKeepsInvariant(ys[j], actions[j]);
    ReleasedIsNotLive(ys[j + 1], c);
  }

  lemma ReleasedIsNotLive(y: System, c: Claim)
    requires Invariant(y) && c in y.released
    ensures !Owns(y.reg, c)
  {
    assert ClaimOk(y, c);
  }

  // What a handoff reports tells who released the claim.
  lemma ReportTellsReleaser(y: System, c: Claim)
    requires Invariant(y) && c in y.tasks && y.tasks[c].Reported?
    ensures c in y.released && !Owns(y.reg, c)
    ensures y.tasks[c].report.Completed? ==> y.released[c].ByHandoff?
    ensures y.tasks[c].report.CancelledReport? ==> y.released[c].ByDiscard? || y.released[c].ByCancel?
  {
    assert ClaimOk(y, c);
  }

  // What a handoff whose caller nobody cancelled reports, exactly: completion if its callback returned
  // while it owned the entry and nobody cancelled it since; cancellation if it no longer owned the
  // entry and neither a fatal error nor a late cancellation has to be passed on; else what it raises.
  lemma HandoffReportsExactly(y: System, c: Claim, finishCancelled: bool)
    requires Invariant(y) && Enabled(y, FinishHandoff(c, false, finishCancelled))
    ensures var (end, z) := (y.tasks[c].end, Apply(y, FinishHandoff(c, false, finishCancelled)));
            && c in z.tasks && z.tasks[c].Reported?
            && (z.tasks[c].report.Completed? <==> end.Returned? && Owns(y.reg, c) && !finishCancelled)
            && (z.tasks[c].report.CancelledReport? <==>
                  !Owns(y.reg, c) && !finishCancelled && !(end.Failed? && end.fatal))
            && (z.tasks[c].report.RaisedError? <==>
                  || (end.Failed? && end.fatal)
                  || (!end.Returned? && Owns(y.reg, c) && !finishCancelled))
  {
    assert ClaimOk(y, c);
  }

  // A handoff whose caller was cancelled passes that on, or a fatal error of its callback, whatever
  // happened to the entry; either way the entry is not live afterwards.
  lemma CancelledCallerRaises(y: System, c: Claim, callerCancelled: bool, finishCancelled: bool)
    requires Invariant(y) && Enabled(y, FinishHandoff(c, callerCancelled, finishCancelled))
    ensures var z := Apply(y, FinishHandoff(c, callerCancelled, finishCancelled));
            && !Owns(z.reg, c)
            && (callerCancelled ==>
                  var fatal := y.tasks[c].end.Failed? && y.tasks[c].end.fatal;
                  c in z.tasks && z.tasks[c] == Reported(if fatal then RaisedError else RaisedCancellation))
  {
    assert ClaimOk(y, c);
    RemoveIsByIdentity(y.reg, c);
    RemoveAllKeepsIndex(y.reg, {c});
  }

  // Who releases a claim is recorded as what it is.
  lemma ReleaserIsTheOneActing(y: System, a: Action, c: Claim)
    requires Invariant(y) && Enabled(y, a) && c !in y.released && c in Apply(y, a).released
    ensures match Apply(y, a).released[c]
            case ByHandoff => a.FinishHandoff? && a.c == c
            case ByDiscard => a.Discard? && a.c == c
            case ByCancel => a.CancelReply? || a.CancelScope?
  {
    match a
    case FinishHandoff(_, _, _) => FinishReleasesOwn(y, a, c);
    case Discard(_, _) => DiscardReleasesOne(y, a, c);
    case CancelReply(_, _, _) => CancelReleases(y, a, c);
    case CancelScope(_, _) => CancelReleases(y, a, c);
    case _ => OthersReleaseNothing(y, a);
  }

  lemma DiscardReleasesOne(y: System, a: Action, c: Claim)
    requires Enabled(y, a) && a.Discard? && c !in y.released && c in Apply(y, a).released
    ensures a.c == c && Apply(y, a).released[c].ByDiscard?
  {
  }

  lemma CancelReleases(y: System, a: Action, c: Claim)
    requires Enabled(y, a) && (a.CancelReply? || a.CancelScope?) && c !in y.released && c in Apply(y, a).released
    ensures Apply(y, a).released[c].ByCancel?
  {
  }

  lemma FinishReleasesOwn(y: System, a: Action, c: Claim)
    requires Enabled(y, a) && a.FinishHandoff? && c !in y.released && c in Apply(y, a).released
    ensures a.c == c && Apply(y, a).released[c].ByHandoff?
  {
  }

  lemma OthersReleaseNothing(y: System, a: Action)
    requires Enabled(y, a) && !a.FinishHandoff? && !a.Discard? && !a.CancelReply? && !a.CancelScope?
    ensures Apply(y, a).released == y.released
  {
  }

  // ----- what a drain waits for -----

  // A drain goes on as it began; it ends only once none of the handoffs it waits for runs.
  lemma DrainStays(y: System, a: Action, n: nat)
    requires TargetsOk(y) && Enabled(y, a) && n in y.drains
    ensures n in Apply(y, a).drains ==> Apply(y, a).drains[n] == y.drains[n]
    ensures n !in Apply(y, a).drains ==>
              forall t | t in y.drains[n].targets :: !IsRunning(Apply(y, a), t)
  {
  }

  // A handoff that has been released and does not run never runs again.
  lemma ReleasedStaysStill(y: System, a: Action, t: Claim)
    requires Invariant(y) && Enabled(y, a) && t in y.released && !IsRunning(y, t)
    ensures !IsRunning(Apply(y, a), t)
  {
    assert ClaimOk(y, t);
  }

  // When a discard or a cancellation has waited its drain out, none of the handoffs it took over runs,
  // then or ever after.
  lemma {:induction false} DrainOutlivesHandoffs(ys: seq<System>, actions: seq<Action>, i: nat, j: nat, n: nat,
                                                 t: Claim)
    requires IsRun(ys, actions) && Invariant(ys[0]) && i <= j < |ys|
    requires n in ys[i].drains && t in ys[i].drains[n].targets
    ensures t in ys[j].released
    ensures n in ys[j].drains ==> ys[j].drains[n] == ys[i].drains[n]
    ensures n !in ys[j].drains ==> n < ys[j].nextDrain && !IsRunning(ys[j], t)
    decreases j
  {
    if i < j {
      DrainOutlivesHandoffs(ys, actions, i, j - 1, n, t);
      RunKeepsInvariant(ys, actions, j - 1);
      assert StepsAt(ys, actions, j - 1);
      DrainOutlivesStep(ys[j - 1], actions[j - 1], n, t);
    } else {
      RunKeepsInvariant(ys, actions, i);
    }
  }

  lemma DrainOutlivesStep(y: System, a: Action, n: nat, t: Claim)
    requires Invariant(y) && Enabled(y, a) && t in y.released && n < y.nextDrain
    requires if n in y.drains then t in y.drains[n].targets else !IsRunning(y, t)
    ensures var z := Apply(y, a);
            && t in z.released && n < z.nextDrain
            && (n in z.drains <==> n in y.drains && a != EndDrain(n))
            && (n in z.drains ==> z.drains[n] == y.drains[n])
            && (n !in z.drains ==> !IsRunning(z, t))
  {
    StepKeepsReleaser(y, a, t);
    if n in y.drains {
      DrainStays(y, a, n);
    } else {
      ReleasedStaysStill(y, a, t);
    }
  }
}
