// What the admission protocol promises, in every reachable state and over whole runs.
module AdmissionProperties {
  import opened Wrappers
  import opened RetrySessions
  import opened AdmissionProtocol
  import opened AdmissionSystem
  import opened AdmissionInvariant

  // ----- runs -----

  ghost predicate Initial(y: System, maxConcurrency: nat) {
    y.core.episode.None? && y.core.budgets == map[] && y.phases == map[] && y.free == maxConcurrency
  }

  ghost predicate IsRun(ys: seq<System>, actions: seq<Action>) {
    && |ys| == |actions| + 1
    && forall i: nat | i < |actions| :: StepsAt(ys, actions, i)
  }

  ghost predicate StepsAt(ys: seq<System>, actions: seq<Action>, i: nat)
    requires |ys| == |actions| + 1 && i < |actions|
  {
    Enabled(ys[i], actions[i]) && ys[i + 1] == Apply(ys[i], actions[i])
  }

  lemma HoldersAfterMove(phases: Phases, notify: bool, s: ProviderRetrySession, p: Phase)
    ensures var h := Holders((if notify then NotifyAll(phases) else phases)[s := p]);
            h == if p.HoldsSlot() then Holders(phases) + {s} else Holders(phases) - {s}
  {
  }

  lemma HoldersAfterReenter(y: System, s: ProviderRetrySession, permit: Permit, now: real)
    requires s in y.core.budgets
    ensures var z := Reenter(y, s, permit, now);
            s in z.phases && !z.phases[s].HoldsSlot() && Holders(z.phases) == Holders(y.phases) - {s}
                && z.free == y.free
  {
    var e := AbandonProbe(y.core, s, permit, now);
    var mid := Move(y, e, s, Idle(true));
    HoldersAfterMove(y.phases, e.notify, s, Idle(true));
    HoldersAfterMove(mid.phases, false, s, EnterGate(mid, s, now).phases[s]);
  }

  predicate Reenters(y: System, a: Action)
    requires Enabled(y, a)
  {
    (a.LimiterAdmits? || a.Claim?) && !PermitIsCurrent(y.core, a.s, y.phases[a.s].permit)
  }

  lemma PhasesAfterStep(y: System, a: Action)
    requires Enabled(y, a) && !Reenters(y, a)
    ensures var z := Apply(y, a);
            && a.s in z.phases
            && (z.phases == y.phases[a.s := z.phases[a.s]] || z.phases == NotifyAll(y.phases)[a.s := z.phases[a.s]])
  {
  }

  lemma FreeAfterStep(y: System, a: Action)
    requires ProtocolOk(y) && Enabled(y, a) && !Reenters(y, a)
    ensures var z := Apply(y, a);
            && a.s in z.phases
            && z.free + (if z.phases[a.s].HoldsSlot() then 1 else 0)
               == y.free + (if a.s in y.phases && y.phases[a.s].HoldsSlot() then 1 else 0)
  {
  }

  // Only the acting session's slot changes hands, and the free count follows it.
  lemma HoldersAfterStep(y: System, a: Action)
    requires ProtocolOk(y) && Enabled(y, a)
    ensures var z := Apply(y, a);
            && a.s in z.phases
            && Holders(z.phases) == (if z.phases[a.s].HoldsSlot() then Holders(y.phases) + {a.s}
                else Holders(y.phases) - {a.s})
            && z.free + (if z.phases[a.s].HoldsSlot() then 1 else 0)
               == y.free + (if a.s in Holders(y.phases) then 1 else 0)
  {
    if Reenters(y, a) {
      HoldersAfterReenter(y, a.s, y.phases[a.s].permit, a.now);
      HoldersAfterReenter(y.(free := y.free + 1), a.s, y.phases[a.s].permit, a.now);
    } else {
      PhasesAfterStep(y, a);
      FreeAfterStep(y, a);
      var p := Apply(y, a).phases[a.s];
      HoldersAfterMove(y.phases, true, a.s, p);
      HoldersAfterMove(y.phases, false, a.s, p);
    }
  }

  lemma StepKeepsSlots(y: System, a: Action, maxConcurrency: nat)
    requires ProtocolOk(y) && SlotsOk(y, maxConcurrency) && Enabled(y, a)
    ensures SlotsOk(Apply(y, a), maxConcurrency)
  {
    HoldersAfterStep(y, a);
  }

  // Every reachable state satisfies the invariant, and the slots are conserved.
  lemma {:induction false} RunKeepsInvariant(ys: seq<System>, actions: seq<Action>, maxConcurrency: nat, i: nat)
    requires IsRun(ys, actions) && Invariant(ys[0], maxConcurrency) && i < |ys|
    ensures Invariant(ys[i], maxConcurrency)
  {
    if 0 < i {
      RunKeepsInvariant(ys, actions, maxConcurrency, i - 1);
      assert StepsAt(ys, actions, i - 1);
      StepKeepsProtocol(ys[i - 1], actions[i - 1]);
      StepKeepsSlots(ys[i - 1], actions[i - 1], maxConcurrency);
    }
  }

  lemma InitialSatisfiesInvariant(y: System, maxConcurrency: nat)
    requires Initial(y, maxConcurrency)
    ensures Invariant(y, maxConcurrency)
  {
    assert Holders(y.phases) == {};
  }

  // ----- one probe at a time -----

  ghost predicate HoldsProbe(y: System, s: ProviderRetrySession) {
    s in y.phases && y.phases[s].HoldsPermit() && y.phases[s].permit.ProbePermit?
  }

  lemma ProbeIsUniqueAndCurrent(y: System)
    requires ProtocolOk(y)
    ensures forall s, t | HoldsProbe(y, s) && HoldsProbe(y, t) :: s == t
    ensures forall s | HoldsProbe(y, s) ::
              && OpenEpisode(y.core) && y.core.episode.value.probeActive
              && y.core.episode.value.leader == Some(s)
              && y.phases[s].permit == ProbePermit(y.core.episode.value.generation)
    ensures (exists s :: HoldsProbe(y, s)) <==> y.core.episode.Some? && y.core.episode.value.probeActive
  {
    if y.core.episode.Some? && y.core.episode.value.probeActive {
      assert HoldsProbe(y, y.core.episode.value.leader.value);
    }
  }

  // Nothing of the episode but its membership changed, and that only for session `s`.
  ghost predicate EpisodeShielded(y: System, z: System, s: ProviderRetrySession, l: ProviderRetrySession)
    requires y.core.episode.Some?
  {
    && HoldsProbe(z, l)
    && z.core.episode.Some?
    && z.core.episode.value == y.core.episode.value.(waiters := z.core.episode.value.waiters)
    && y.core.episode.value.waiters - {s} <= z.core.episode.value.waiters <= y.core.episode.value.waiters + {s}
  }

  lemma GateRespectsProbe(y: System, s: ProviderRetrySession, now: real, l: ProviderRetrySession)
    requires ProtocolOk(y) && HoldsProbe(y, l) && s != l && s in y.phases
    ensures EpisodeShielded(y, EnterGate(y, s, now), s, l)
  {
  }

  // A stale permit is a normal one, so abandoning it does nothing.
  lemma StalePermitReenters(y: System, s: ProviderRetrySession, now: real)
    requires ProtocolOk(y) && s in y.phases && y.phases[s].Opening? && !PermitIsCurrent(y.core, s, y.phases[s].permit)
    ensures y.core.episode.Some? && y.phases[s].permit.NormalPermit?
    ensures Reenter(y, s, y.phases[s].permit, now) == EnterGate(y, s, now)
  {
    assert y.phases[s := Idle(true)][s := EnterGate(y, s, now).phases[s]] == EnterGate(y, s, now).phases;
  }

  // While a probe is outstanding only its holder can touch the episode; everyone else can at
  // most join or leave its waiters.
  lemma OutstandingProbeShieldsEpisode(y: System, a: Action, l: ProviderRetrySession)
    requires ProtocolOk(y) && Enabled(y, a) && HoldsProbe(y, l) && a.s != l
    ensures EpisodeShielded(y, Apply(y, a), a.s, l)
  {
    if Reenters(y, a) {
      var y0 := if a.Claim? then y.(free := y.free + 1) else y;
      StalePermitReenters(y0, a.s, a.now);
      GateRespectsProbe(y0, a.s, a.now, l);
    } else if a.Open? || a.Wake? || a.EndBackoff? {
      GateRespectsProbe(y, a.s, a.now, l);
    } else if a.Fail? {
      FailureRespectsProbe(y, a, l);
    } else {
      AnswerRespectsProbe(y, a, l);
    }
  }

  lemma FailureRespectsProbe(y: System, a: Action, l: ProviderRetrySession)
    requires ProtocolOk(y) && Enabled(y, a) && HoldsProbe(y, l) && a.s != l && a.Fail?
    ensures EpisodeShielded(y, Apply(y, a), a.s, l)
  {
  }

  lemma AnswerRespectsProbe(y: System, a: Action, l: ProviderRetrySession)
    requires ProtocolOk(y) && Enabled(y, a) && HoldsProbe(y, l) && a.s != l
    requires !Reenters(y, a) && !a.Open? && !a.Wake? && !a.EndBackoff? && !a.Fail?
    ensures EpisodeShielded(y, Apply(y, a), a.s, l)
  {
  }

  // ----- who may start an upstream attempt -----

  function StartedBy(y: System, s: ProviderRetrySession): nat {
    if s in y.core.budgets then y.core.budgets[s].started else 0
  }

  // Exactly the claims with a current permit start an attempt, one for the claimant alone: the
  // budget never stands in the way, a terminal episode admits nobody, an open one only its
  // leader holding the probe.
  lemma ClaimsAreExclusive(y: System, a: Action, t: ProviderRetrySession)
    requires ProtocolOk(y) && Enabled(y, a)
    ensures StartedBy(Apply(y, a), t) ==
            StartedBy(y, t) + if a.Claim? && a.s == t && PermitIsCurrent(y.core, t, y.phases[t].permit) then 1 else 0
    ensures StartedBy(Apply(y, a), t) != StartedBy(y, t) ==>
              y.core.episode.None? || (OpenEpisode(y.core) && IsLeader(y.core, t) && HoldsProbe(y, t))
  {
    if Reenters(y, a) {
      StalePermitReenters(if a.Claim? then y.(free := y.free + 1) else y, a.s, a.now);
    } else if a.Claim? || a.Fail? || a.NewSession? {
    } else {
      BudgetsUntouched(y, a);
    }
  }

  // ----- exhaustion -----

  // A probe that spends the last attempt fails the current waiters with its error, and nobody else.
  lemma ExhaustionFailsExactlyTheWaiters(y: System, a: Action)
    requires ProtocolOk(y) && Enabled(y, a) && a.Fail? && HoldsProbe(y, a.s)
    requires !y.core.budgets[a.s].CanAttempt()
    ensures var waiters := y.core.episode.value.waiters;
            var z := Apply(y, a);
            && (forall s | s in y.core.budgets ::
                  s in z.core.budgets && z.core.budgets[s] ==
                  if s in waiters then y.core.budgets[s].(terminal := Some(a.error)) else y.core.budgets[s])
            && (forall w | w in waiters ::
                  w != a.s && w in y.phases && y.core.budgets[w].terminal.None? && !y.phases[w].HoldsPermit())
            && (forall s | s in z.phases && z.phases[s].Parked? :: z.phases[s].notified)
            && z.core.episode.Some? && z.core.episode.value.terminalUntil == Some(a.later + a.terminalDelay)
            && z.core.episode.value.waiters == {} && z.phases[a.s] == Resolved(false)
  {
  }

  // A failed session keeps its error and never starts another attempt.
  lemma FailedSessionStaysFailed(y: System, a: Action, w: ProviderRetrySession)
    requires ProtocolOk(y) && Enabled(y, a) && w in y.phases && y.core.budgets[w].terminal.Some?
    ensures w in Apply(y, a).phases && w in Apply(y, a).core.budgets
    ensures Apply(y, a).core.budgets[w] == y.core.budgets[w]
    ensures (a.Open? || a.Wake?) && a.s == w ==> Apply(y, a).phases[w] == Idle(false) && Apply(y, a).core == y.core
  {
    if Reenters(y, a) {
      StalePermitReenters(if a.Claim? then y.(free := y.free + 1) else y, a.s, a.now);
    } else if a.Claim? || a.Fail? || a.NewSession? {
    } else {
      BudgetsUntouched(y, a);
    }
  }

  lemma {:induction false} FailedSessionNeverStartsAgain(ys: seq<System>, actions: seq<Action>, maxConcurrency: nat,
                                                         i: nat, j: nat, w: ProviderRetrySession)
    requires IsRun(ys, actions) && Invariant(ys[0], maxConcurrency) && i <= j < |ys|
    requires w in ys[i].core.budgets && ys[i].core.budgets[w].terminal.Some?
    ensures w in ys[j].core.budgets && ys[j].core.budgets[w] == ys[i].core.budgets[w]
    decreases j
  {
    if i < j {
      FailedSessionNeverStartsAgain(ys, actions, maxConcurrency, i, j - 1, w);
      RunKeepsInvariant(ys, actions, maxConcurrency, j - 1);
      assert StepsAt(ys, actions, j - 1);
      FailedSessionStaysFailed(ys[j - 1], actions[j - 1], w);
    }
  }

  // So the waiters failed by an exhausted probe start no attempt in the rest of the run.
  lemma ExhaustedWaitersNeverStart(ys: seq<System>, actions: seq<Action>, maxConcurrency: nat,
                                   i: nat, j: nat, w: ProviderRetrySession)
    requires IsRun(ys, actions) && Invariant(ys[0], maxConcurrency) && i < j < |ys|
    requires actions[i].Fail? && HoldsProbe(ys[i], actions[i].s) && ProtocolOk(ys[i])
             && actions[i].s in ys[i].core.budgets
    requires !ys[i].core.budgets[actions[i].s].CanAttempt() && ys[i].core.episode.Some?
    requires w in ys[i].core.episode.value.waiters
    ensures StartedBy(ys[j], w) == StartedBy(ys[i], w)
    ensures w in ys[j].core.budgets && ys[j].core.budgets[w].terminal == Some(actions[i].error)
  {
    assert StepsAt(ys, actions, i);
    ExhaustionFailsExactlyTheWaiters(ys[i], actions[i]);
    FailedSessionNeverStartsAgain(ys, actions, maxConcurrency, i + 1, j, w);
  }

  // ----- waiting -----

  // Whoever waits unnotified waits, as a registered follower, for another session that leads an
  // open episode; no leader ever waits on its own probe.
  lemma NoLostWakeup(y: System, s: ProviderRetrySession)
    requires ProtocolOk(y) && s in y.phases
    ensures !y.phases[s].OwnProbeWait?
    ensures y.phases[s].Parked? && !y.phases[s].notified ==>
              && OpenEpisode(y.core)
              && s in y.core.episode.value.waiters
              && y.core.episode.value.generation == y.phases[s].generation
              && y.core.episode.value.leader.Some?
              && y.core.episode.value.leader != Some(s)
              && y.core.episode.value.leader.value in y.phases
              && !y.phases[y.core.episode.value.leader.value].Parked?
  {
  }

  // The gate never lets a probe out before its episode is ready, and a leader it sends to sleep
  // wakes up just then.
  lemma ProbesWaitUntilReady(c: Core, s: ProviderRetrySession, now: real)
    requires s in c.budgets
    ensures var (z, o) := Gate(c, s, now);
            && (o.Granted? && o.permit.ProbePermit? ==>
                  PermitIsCurrent(z, s, o.permit) && z.episode.value.readyAt <= now)
            && (o.BacksOff? ==>
                  LeadsIdleProbe(z, s, o.generation) && 0.0 < o.delay && z.episode.value.readyAt == now + o.delay)
            && (o.WaitsAsFollower? ==> IsWaiter(z, s) && !IsLeader(z, s) && z.episode.value.leader.Some?)
  {
  }

  // The cool-down after an exhausted probe turns everybody away with its error until the deadline;
  // the first to come then leads the next generation and probes at once.
  lemma CooldownEndsInFreshProbe(y: System, a: Action, t: ProviderRetrySession, now: real)
    requires ProtocolOk(y) && Enabled(y, a) && a.Fail? && HoldsProbe(y, a.s) && !y.core.budgets[a.s].CanAttempt()
    requires t in y.core.budgets && t !in y.core.episode.value.waiters && y.core.budgets[t].terminal.None?
    ensures var c := Apply(y, a).core;
            && t in c.budgets
            && Gate(c, t, now).1 == (if now < a.later + a.terminalDelay then Exhausted(a.error)
                                     else Granted(ProbePermit(c.nextGeneration)))
            && (now < a.later + a.terminalDelay ==> Gate(c, t, now).0 == c)
            && (a.later + a.terminalDelay <= now ==>
                  var z := Gate(c, t, now).0;
                  && IsLeader(z, t) && z.episode.value.waiters == {} && z.episode.value.lastError == a.error
                  && z.episode.value.generation == c.nextGeneration && z.nextGeneration == c.nextGeneration + 1)
  {
    ExhaustionFailsExactlyTheWaiters(y, a);
    var c := Apply(y, a).core;
    assert c.budgets[t].terminal.None? && c.episode.value.lastError == a.error;
  }

  // In every state a run from the start reaches: one probe at most, no wait that nobody will end,
  // no budget overdrawn, no slot lost.
  lemma ReachableStatesAreSafe(ys: seq<System>, actions: seq<Action>, maxConcurrency: nat, i: nat)
    requires IsRun(ys, actions) && Initial(ys[0], maxConcurrency) && i < |ys|
    ensures forall s, t | HoldsProbe(ys[i], s) && HoldsProbe(ys[i], t) :: s == t
    ensures forall s | s in ys[i].phases && ys[i].phases[s].Parked? && !ys[i].phases[s].notified ::
              OpenEpisode(ys[i].core) && ys[i].core.episode.value.leader.Some? && !IsLeader(ys[i].core, s)
    ensures forall s | s in ys[i].core.budgets :: StartedBy(ys[i], s) <= ys[i].core.budgets[s].max
    ensures ys[i].free + |Holders(ys[i].phases)| == maxConcurrency
  {
    InitialSatisfiesInvariant(ys[0], maxConcurrency);
    RunKeepsInvariant(ys, actions, maxConcurrency, i);
    ProbeIsUniqueAndCurrent(ys[i]);
    forall s | s in ys[i].phases
      ensures ys[i].phases[s].Parked? && !ys[i].phases[s].notified ==>
                OpenEpisode(ys[i].core) && ys[i].core.episode.value.leader.Some? && !IsLeader(ys[i].core, s)
    {
      NoLostWakeup(ys[i], s);
    }
  }

  // A leader that sleeps through its back-off always gets the probe it waited for.
  lemma BackoffEndsInProbe(y: System, a: Action)
    requires ProtocolOk(y) && Enabled(y, a) && a.EndBackoff?
    ensures Apply(y, a).phases == y.phases[a.s := Opening(ProbePermit(y.phases[a.s].generation), LimiterWait)]
    ensures HoldsProbe(Apply(y, a), a.s)
  {
  }

  lemma CancelledFollowerLeavesEpisode(y: System, a: Action)
    requires ProtocolOk(y) && Enabled(y, a) && a.CancelFollower?
    ensures !IsWaiter(Apply(y, a).core, a.s)
    ensures forall s | s != a.s :: IsWaiter(Apply(y, a).core, s) <==> IsWaiter(y.core, s)
  {
  }

  // ----- leader liveness -----

  // The leader of an open episode still has something to do for it: it holds the probe, sleeps
  // towards it, or has been told to retry and has budget for it.
  ghost predicate LeaderEngaged(y: System) {
    OpenEpisode(y.core) && y.core.episode.value.leader.Some? ==>
      var l := y.core.episode.value.leader.value;
      && l in y.phases && l in y.core.budgets
      && (y.phases[l].HoldsPermit()
          || y.phases[l].Backoff?
          || ((y.phases[l] == Idle(true) || y.phases[l] == Resolved(true)) && y.core.budgets[l].CanAttempt()))
  }

  // An engaged leader is stranded by exactly two steps: its driver does not come back after being
  // told to retry, or a correction is granted after its last attempt.
  lemma StrandedExactly(y: System, a: Action)
    requires ProtocolOk(y) && Enabled(y, a) && LeaderEngaged(y)
    ensures !LeaderEngaged(Apply(y, a)) <==>
              || (a.Quit? && OpenEpisode(y.core) && IsLeader(y.core, a.s))
              || (a.Correct? && HoldsProbe(y, a.s) && !y.core.budgets[a.s].CanAttempt())
  {
    if OpenEpisode(y.core) && y.core.episode.value.leader.Some? && !IsLeader(y.core, a.s) {
      BystanderKeepsLeader(y, a, y.core.episode.value.leader.value);
    } else if a.LimiterAdmits? || a.Claim? {
      OpenerStaysEngaged(y, a);
    } else if a.Open? || a.Wake? {
      EntrantIsEngaged(y, a.s, a.now);
    } else {
      AnswerStrandsExactly(y, a);
    }
  }

  lemma AnswerStrandsExactly(y: System, a: Action)
    requires ProtocolOk(y) && Enabled(y, a) && LeaderEngaged(y)
    requires OpenEpisode(y.core) && y.core.episode.value.leader.Some? ==> IsLeader(y.core, a.s)
    requires !a.LimiterAdmits? && !a.Claim? && !a.Open? && !a.Wake?
    ensures !LeaderEngaged(Apply(y, a)) <==>
              || (a.Quit? && OpenEpisode(y.core) && IsLeader(y.core, a.s))
              || (a.Correct? && HoldsProbe(y, a.s) && !y.core.budgets[a.s].CanAttempt())
  {
  }

  // A step of another session leaves an open episode's leader where it is.
  lemma BystanderKeepsLeader(y: System, a: Action, l: ProviderRetrySession)
    requires ProtocolOk(y) && Enabled(y, a) && OpenEpisode(y.core) && IsLeader(y.core, l) && a.s != l
    ensures LeaderUntouched(y, Apply(y, a), l)
  {
    if Reenters(y, a) {
      var y0 := if a.Claim? then y.(free := y.free + 1) else y;
      StalePermitReenters(y0, a.s, a.now);
      GateRespectsLeader(y0, a.s, a.now, l);
    } else if a.Open? || a.Wake? || a.EndBackoff? {
      GateRespectsLeader(y, a.s, a.now, l);
    } else if a.Fail? {
      FailureRespectsLeader(y, a, l);
    } else {
      AnswerRespectsLeader(y, a, l);
    }
  }

  ghost predicate LeaderUntouched(y: System, z: System, l: ProviderRetrySession)
    requires y.core.episode.Some?
  {
    && OpenEpisode(z.core) && IsLeader(z.core, l) && z.core.episode.value.generation == y.core.episode.value.generation
    && l in z.phases && l in y.phases && z.phases[l] == y.phases[l]
    && l in z.core.budgets && l in y.core.budgets && z.core.budgets[l] == y.core.budgets[l]
  }

  lemma GateRespectsLeader(y: System, s: ProviderRetrySession, now: real, l: ProviderRetrySession)
    requires ProtocolOk(y) && OpenEpisode(y.core) && IsLeader(y.core, l) && s != l && s in y.phases
    ensures LeaderUntouched(y, EnterGate(y, s, now), l)
  {
  }

  lemma FailureRespectsLeader(y: System, a: Action, l: ProviderRetrySession)
    requires ProtocolOk(y) && Enabled(y, a) && OpenEpisode(y.core) && IsLeader(y.core, l) && a.s != l && a.Fail?
    ensures LeaderUntouched(y, Apply(y, a), l)
  {
  }

  lemma AnswerRespectsLeader(y: System, a: Action, l: ProviderRetrySession)
    requires ProtocolOk(y) && Enabled(y, a) && OpenEpisode(y.core) && IsLeader(y.core, l) && a.s != l
    requires !Reenters(y, a) && !a.Open? && !a.Wake? && !a.EndBackoff? && !a.Fail?
    ensures LeaderUntouched(y, Apply(y, a), l)
  {
  }

  lemma EntrantIsEngaged(y: System, s: ProviderRetrySession, now: real)
    requires ProtocolOk(y) && s in y.phases && (y.phases[s].Idle? || y.phases[s].Parked?)
    requires OpenEpisode(y.core) && y.core.episode.value.leader.Some? ==> IsLeader(y.core, s)
    ensures LeaderEngaged(EnterGate(y, s, now))
  {
  }

  lemma OpenerStaysEngaged(y: System, a: Action)
    requires ProtocolOk(y) && Enabled(y, a) && (a.LimiterAdmits? || a.Claim?)
    requires OpenEpisode(y.core) && y.core.episode.value.leader.Some? ==> IsLeader(y.core, a.s)
    ensures LeaderEngaged(Apply(y, a))
  {
    var s, permit := a.s, y.phases[a.s].permit;
    if !PermitIsCurrent(y.core, s, permit) {
      var y0 := if a.Claim? then y.(free := y.free + 1) else y;
      AbandonKeepsProtocol(y0, s, permit, a.now, Idle(true));
      EntrantIsEngaged(Move(y0, AbandonProbe(y.core, s, permit, a.now), s, Idle(true)), s, a.now);
    }
  }

  // ----- retries do not multiply -----

  ghost predicate LedBy(y: System, generation: nat, l: ProviderRetrySession) {
    OpenEpisode(y.core) && y.core.episode.value.generation == generation && IsLeader(y.core, l)
  }

  predicate StartsAttempt(y: System, a: Action)
    requires Enabled(y, a)
  {
    a.Claim? && PermitIsCurrent(y.core, a.s, y.phases[a.s].permit)
  }

  // Upstream attempts started by anyone in the first `n` steps of a run.
  ghost function Starts(ys: seq<System>, actions: seq<Action>, n: nat): nat
    requires IsRun(ys, actions) && n <= |actions|
  {
    if n == 0 then 0
    else
      assert StepsAt(ys, actions, n - 1);
      Starts(ys, actions, n - 1) + if StartsAttempt(ys[n - 1], actions[n - 1]) then 1 else 0
  }

  // While one leader keeps an open episode, all sessions together start exactly as many attempts
  // as the leader spends of its own budget, however many of them wait.
  lemma {:induction false} TenureSpendsOneBudget(ys: seq<System>, actions: seq<Action>, generation: nat,
                                                 l: ProviderRetrySession, n: nat)
    requires IsRun(ys, actions) && ProtocolOk(ys[0]) && n <= |actions|
    requires forall i | 0 <= i <= n :: LedBy(ys[i], generation, l)
    ensures ProtocolOk(ys[n]) && l in ys[n].core.budgets && l in ys[0].core.budgets
    ensures ys[n].core.budgets[l].max == ys[0].core.budgets[l].max
    ensures Starts(ys, actions, n) == ys[n].core.budgets[l].started - ys[0].core.budgets[l].started
    ensures Starts(ys, actions, n) <= ys[0].core.budgets[l].max
  {
    if n == 0 {
    } else {
      TenureSpendsOneBudget(ys, actions, generation, l, n - 1);
      assert StepsAt(ys, actions, n - 1);
      StepKeepsProtocol(ys[n - 1], actions[n - 1]);
      ClaimsAreExclusive(ys[n - 1], actions[n - 1], l);
      BudgetLimitIsFixed(ys[n - 1], actions[n - 1], l);
    }
  }

  lemma BudgetLimitIsFixed(y: System, a: Action, s: ProviderRetrySession)
    requires ProtocolOk(y) && Enabled(y, a) && s in y.core.budgets
    ensures s in Apply(y, a).core.budgets && Apply(y, a).core.budgets[s].max == y.core.budgets[s].max
  {
    if Reenters(y, a) {
      StalePermitReenters(if a.Claim? then y.(free := y.free + 1) else y, a.s, a.now);
    } else if a.Claim? || a.Fail? || a.NewSession? {
    } else {
      BudgetsUntouched(y, a);
    }
  }

  lemma BudgetsUntouched(y: System, a: Action)
    requires Enabled(y, a) && !Reenters(y, a) && !a.Fail? && !a.Claim? && !a.NewSession?
    ensures Apply(y, a).core.budgets == y.core.budgets
  {
  }

  // ----- disciplined drivers -----

  // Every driver comes back after being told to retry, and corrects only with budget left.
  predicate Disciplined(y: System, a: Action) {
    !a.Quit? && (a.Correct? && a.s in y.core.budgets ==> y.core.budgets[a.s].CanAttempt())
  }

  lemma {:induction false} DisciplinedRunKeepsLeaderEngaged(ys: seq<System>, actions: seq<Action>, maxConcurrency: nat,
                                                            i: nat)
    requires IsRun(ys, actions) && Initial(ys[0], maxConcurrency) && i < |ys|
    requires forall k | 0 <= k < i :: Disciplined(ys[k], actions[k])
    ensures Invariant(ys[i], maxConcurrency) && LeaderEngaged(ys[i])
  {
    InitialSatisfiesInvariant(ys[0], maxConcurrency);
    RunKeepsInvariant(ys, actions, maxConcurrency, i);
    if 0 < i {
      DisciplinedRunKeepsLeaderEngaged(ys, actions, maxConcurrency, i - 1);
      assert StepsAt(ys, actions, i - 1);
      StrandedExactly(ys[i - 1], actions[i - 1]);
    }
  }
}
