// What every step of the admission protocol keeps.
module AdmissionInvariant {
  import opened Wrappers
  import opened RetrySessions
  import opened AdmissionProtocol
  import opened AdmissionSystem

  predicate OpenEpisode(c: Core) {
    c.episode.Some? && c.episode.value.terminalUntil.None?
  }

  predicate IsLeader(c: Core, s: ProviderRetrySession) {
    c.episode.Some? && c.episode.value.leader == Some(s)
  }

  predicate IsWaiter(c: Core, s: ProviderRetrySession) {
    c.episode.Some? && s in c.episode.value.waiters
  }

  // An unresolved permit: a probe is the current one of an open episode led by its holder; a
  // normal permit is held by neither the leader nor a waiter.
  predicate PermitOk(c: Core, s: ProviderRetrySession, permit: Permit) {
    match permit
    case ProbePermit(_) => PermitIsCurrent(c, s, permit)
    case NormalPermit => !IsLeader(c, s) && !IsWaiter(c, s)
  }

  predicate SessionOk(c: Core, s: ProviderRetrySession, p: Phase)
    requires s in c.budgets
  {
    var b := c.budgets[s];
    && b.started <= b.max
    && (!p.Parked? && !p.Resolved? && !p.Idle? ==> b.terminal.None?)
    && match p
       case Idle(_) => true
       case Resolved(_) => true
       case Parked(g, notified) =>
         && b.CanAttempt()
         && !IsLeader(c, s)
         && (!notified ==> OpenEpisode(c) && c.episode.value.generation == g && IsWaiter(c, s)
                           && c.episode.value.leader.Some?)
         && (IsWaiter(c, s) ==> c.episode.value.generation == g)
       case OwnProbeWait(_) => false
       case Backoff(g) => b.CanAttempt() && LeadsIdleProbe(c, s, g)
       case Opening(permit, _) => b.CanAttempt() && PermitOk(c, s, permit)
       case Attempting(permit) => PermitOk(c, s, permit)
       case Closing(permit) => PermitOk(c, s, permit)
       case Orphaned(permit) => PermitOk(c, s, permit)
  }

  // Where the leader of an open episode can be, given whether its probe is active.
  predicate LeaderPhaseOk(p: Phase, ep: Episode) {
    if ep.probeActive then p.HoldsPermit() && p.permit == ProbePermit(ep.generation)
    else p.Idle? || p.Resolved? || p == Backoff(ep.generation)
  }

  ghost predicate EpisodeOk(c: Core, phases: Phases)
    requires phases.Keys == c.budgets.Keys
  {
    c.episode.Some? ==>
      var ep := c.episode.value;
      && ep.generation < c.nextGeneration
      && (ep.terminalUntil.Some? ==> ep.leader.None? && ep.waiters == {})
      && (ep.leader.None? ==> !ep.probeActive)
      && (ep.leader.Some? ==>
            && ep.leader.value in phases
            && ep.leader.value !in ep.waiters
            && c.budgets[ep.leader.value].terminal.None?
            && LeaderPhaseOk(phases[ep.leader.value], ep))
      && (forall w | w in ep.waiters ::
            && w in phases
            && c.budgets[w].terminal.None?
            && (phases[w].Parked? || phases[w].Resolved? || phases[w].Idle?))
  }

  ghost predicate SessionsOk(c: Core, phases: Phases)
    requires phases.Keys == c.budgets.Keys
  {
    forall s | s in phases :: SessionOk(c, s, phases[s])
  }

  ghost function Holders(phases: Phases): set<ProviderRetrySession> {
    set s | s in phases && phases[s].HoldsSlot()
  }

  ghost predicate ProtocolOk(y: System) {
    && y.phases.Keys == y.core.budgets.Keys
    && EpisodeOk(y.core, y.phases)
    && SessionsOk(y.core, y.phases)
  }

  // Free slots and slots held by openers and unclosed attempts always make up the bulkhead.
  ghost predicate SlotsOk(y: System, maxConcurrency: nat) {
    y.free + |Holders(y.phases)| == maxConcurrency
  }

  ghost predicate Invariant(y: System, maxConcurrency: nat) {
    ProtocolOk(y) && SlotsOk(y, maxConcurrency)
  }

  // ----- sections keep the protocol part -----

  // Moving a session between phases that make the same claims about the core.
  lemma RelabelKeepsProtocol(y: System, s: ProviderRetrySession, p: Phase)
    requires ProtocolOk(y) && s in y.phases
    requires SessionOk(y.core, s, p)
    requires IsLeader(y.core, s) ==> LeaderPhaseOk(p, y.core.episode.value)
    requires IsWaiter(y.core, s) ==> p.Parked? || p.Resolved? || p.Idle?
    ensures ProtocolOk(y.(phases := y.phases[s := p]))
  {
  }

  lemma LeaderJoinKeepsProtocol(y: System, s: ProviderRetrySession, now: real)
    requires ProtocolOk(y) && s in y.phases && y.phases[s].Idle? && y.core.budgets[s].CanAttempt()
    requires y.core.budgets[s].terminal.None?
    requires OpenEpisode(y.core) && (y.core.episode.value.leader.None? || IsLeader(y.core, s))
    ensures ProtocolOk(EnterGate(y, s, now))
  {
  }

  lemma FollowerJoinKeepsProtocol(y: System, s: ProviderRetrySession, now: real)
    requires ProtocolOk(y) && s in y.phases && y.phases[s].Idle? && y.core.budgets[s].CanAttempt()
    requires y.core.budgets[s].terminal.None?
    requires OpenEpisode(y.core) && y.core.episode.value.leader.Some? && !IsLeader(y.core, s)
    ensures ProtocolOk(EnterGate(y, s, now))
  {
  }

  lemma ReopenKeepsProtocol(y: System, s: ProviderRetrySession, now: real)
    requires ProtocolOk(y) && s in y.phases && y.phases[s].Idle? && y.core.budgets[s].terminal.None?
    requires y.core.episode.Some? && !OpenEpisode(y.core)
    ensures ProtocolOk(y.(core := StartEpisode(y.core, Some(s), now, y.core.episode.value.lastError)))
  {
  }

  lemma GateKeepsProtocol(y: System, s: ProviderRetrySession, now: real)
    requires ProtocolOk(y) && s in y.phases
    requires y.phases[s].Idle? || y.phases[s].Parked?
    requires y.core.budgets[s].CanAttempt()
    ensures ProtocolOk(EnterGate(y, s, now))
  {
    var c := y.core;
    var y0 := y.(phases := y.phases[s := Idle(true)]);
    RelabelKeepsProtocol(y, s, Idle(true));
    assert EnterGate(y, s, now).phases == EnterGate(y0, s, now).phases;
    if c.budgets[s].terminal.Some? || c.episode.None?
       || (c.episode.value.terminalUntil.Some? && now < c.episode.value.terminalUntil.value)
    {
      assert EnterGate(y, s, now).core == c;
    } else if OpenEpisode(c) {
      if c.episode.value.leader.None? || IsLeader(c, s) {
        LeaderJoinKeepsProtocol(y0, s, now);
      } else {
        FollowerJoinKeepsProtocol(y0, s, now);
      }
    } else {
      ReopenKeepsProtocol(y0, s, now);
      var y1 := y0.(core := StartEpisode(c, Some(s), now, c.episode.value.lastError));
      LeaderJoinKeepsProtocol(y1, s, now);
      assert EnterGate(y1, s, now) == EnterGate(y0, s, now);
    }
  }

  lemma BackoffKeepsProtocol(y: System, a: Action)
    requires ProtocolOk(y) && Enabled(y, a) && (a.EndBackoff? || a.CancelBackoff?)
    ensures ProtocolOk(Apply(y, a))
  {
  }

  lemma FollowerKeepsProtocol(y: System, a: Action)
    requires ProtocolOk(y) && Enabled(y, a) && a.CancelFollower?
    ensures ProtocolOk(Apply(y, a))
  {
  }

  lemma ClosingKeepsProtocol(y: System, s: ProviderRetrySession, permit: Permit, p: Phase)
    requires ProtocolOk(y) && s in y.phases && y.phases[s].Attempting? && permit == y.phases[s].permit
    requires p == Resolved(false)
    ensures ProtocolOk(Move(y, CloseEpisode(y.core, s, permit), s, p))
  {
  }

  lemma KeepLeadingKeepsProtocol(y: System, s: ProviderRetrySession, permit: Permit, now: real)
    requires ProtocolOk(y) && s in y.phases && y.phases[s].Attempting? && permit == y.phases[s].permit
    ensures ProtocolOk(Move(y, KeepLeading(y.core, s, permit, now), s, Resolved(true)))
  {
  }

  lemma AbandonKeepsProtocol(y: System, s: ProviderRetrySession, permit: Permit, now: real, p: Phase)
    requires ProtocolOk(y) && s in y.phases && y.phases[s].HoldsPermit() && permit == y.phases[s].permit
    requires p.Idle? || p.Resolved?
    ensures ProtocolOk(Move(y, AbandonProbe(y.core, s, permit, now), s, p))
  {
  }

  lemma FailWithBudgetKeepsProtocol(y: System, a: Action)
    requires ProtocolOk(y) && Enabled(y, a) && a.Fail? && y.core.budgets[a.s].CanAttempt()
    ensures ProtocolOk(Apply(y, a))
  {
    var readyAt := a.now + a.delay;
    assert Apply(y, a) ==
           Move(y, Effect(FailWithBudget(y.core, a.s, y.phases[a.s].permit, a.error, readyAt), true), a.s,
               Resolved(true));
    FailingKeepsProtocol(y, a.s, y.phases[a.s].permit, a.error, readyAt);
  }

  lemma FailingKeepsProtocol(y: System, s: ProviderRetrySession, permit: Permit, error: Failure, readyAt: real)
    requires ProtocolOk(y) && s in y.phases && y.phases[s].Attempting? && permit == y.phases[s].permit
    ensures ProtocolOk(Move(y, Effect(FailWithBudget(y.core, s, permit, error, readyAt), true), s, Resolved(true)))
  {
  }

  lemma ExhaustKeepsProtocol(y: System, a: Action)
    requires ProtocolOk(y) && Enabled(y, a) && a.Fail? && !y.core.budgets[a.s].CanAttempt()
    ensures ProtocolOk(Apply(y, a))
  {
    var s, permit := a.s, y.phases[a.s].permit;
    if y.core.episode.None? || MatchesProbe(y.core, s, permit) {
      ExhaustingKeepsProtocol(y, s, permit, a.error, a.now, a.later + a.terminalDelay);
    } else {
      RelabelKeepsProtocol(y, s, Resolved(false));
    }
  }

  lemma ExhaustingKeepsProtocol(y: System, s: ProviderRetrySession, permit: Permit, error: Failure, now: real,
      until: real)
    requires ProtocolOk(y) && s in y.phases && y.phases[s].Attempting? && permit == y.phases[s].permit
    requires y.core.episode.None? || MatchesProbe(y.core, s, permit)
    ensures ProtocolOk(Move(y, Effect(Exhaust(y.core, error, now, until), true), s, Resolved(false)))
  {
  }

  lemma ReenterKeepsProtocol(y: System, s: ProviderRetrySession, now: real)
    requires ProtocolOk(y) && s in y.phases && y.phases[s].Opening?
    ensures ProtocolOk(Reenter(y, s, y.phases[s].permit, now))
  {
    var permit := y.phases[s].permit;
    AbandonKeepsProtocol(y, s, permit, now, Idle(true));
    GateKeepsProtocol(Move(y, AbandonProbe(y.core, s, permit, now), s, Idle(true)), s, now);
  }

  lemma LimiterKeepsProtocol(y: System, a: Action)
    requires ProtocolOk(y) && Enabled(y, a) && a.LimiterAdmits?
    ensures ProtocolOk(Apply(y, a))
  {
    if PermitIsCurrent(y.core, a.s, y.phases[a.s].permit) {
      RelabelKeepsProtocol(y, a.s, Opening(y.phases[a.s].permit, SlotWait));
    } else {
      ReenterKeepsProtocol(y, a.s, a.now);
    }
  }

  lemma ClaimStepKeepsProtocol(y: System, a: Action)
    requires ProtocolOk(y) && Enabled(y, a) && a.Claim?
    ensures ProtocolOk(Apply(y, a))
  {
    if PermitIsCurrent(y.core, a.s, y.phases[a.s].permit) {
      ClaimKeepsProtocol(y, a.s);
    } else {
      ReenterKeepsProtocol(y.(free := y.free + 1), a.s, a.now);
    }
  }

  lemma ClaimKeepsProtocol(y: System, s: ProviderRetrySession)
    requires ProtocolOk(y) && s in y.phases && y.phases[s].Opening?
    ensures ProtocolOk(Move(y, Effect(StartAttempt(y.core, s), false), s, Attempting(y.phases[s].permit)))
  {
  }

  lemma StepKeepsProtocol(y: System, a: Action)
    requires ProtocolOk(y) && Enabled(y, a)
    ensures ProtocolOk(Apply(y, a))
  {
    var s := a.s;
    match a
    case NewSession(_, _) =>
    case Open(_, now) =>
      RelabelKeepsProtocol(y, s, Idle(false));
      if y.core.budgets[s].CanAttempt() {
        GateKeepsProtocol(y, s, now);
      }
    case Wake(_, now) => GateKeepsProtocol(y, s, now);
    case CancelFollower(_) => FollowerKeepsProtocol(y, a);
    case EndBackoff(_, _) => BackoffKeepsProtocol(y, a);
    case CancelBackoff(_) => BackoffKeepsProtocol(y, a);
    case Succeed(_) => ClosingKeepsProtocol(y, s, y.phases[s].permit, Resolved(false));
    case Reject(_) => ClosingKeepsProtocol(y, s, y.phases[s].permit, Resolved(false));
    case Correct(_, now) => KeepLeadingKeepsProtocol(y, s, y.phases[s].permit, now);
    case Fail(_, _, _, _, _, _) =>
      if y.core.budgets[s].CanAttempt() {
        FailWithBudgetKeepsProtocol(y, a);
      } else {
        ExhaustKeepsProtocol(y, a);
      }
    case BeginClose(_) => RelabelKeepsProtocol(y, s, Closing(y.phases[s].permit));
    case RunAbandon(_, now) =>
      AbandonKeepsProtocol(y, s, y.phases[s].permit, now, if y.phases[s].Closing? then Resolved(false)
          else Idle(false));
    case CancelClose(_) => RelabelKeepsProtocol(y, s, Orphaned(y.phases[s].permit));
    case Close(_) => RelabelKeepsProtocol(y, s, Idle(y.phases[s].retry));
    case Quit(_) => RelabelKeepsProtocol(y, s, Idle(false));
    case LimiterAdmits(_, _) => LimiterKeepsProtocol(y, a);
    case GrantSlot(_) => RelabelKeepsProtocol(y, s, Opening(y.phases[s].permit, SlotHeld));
    case Claim(_, _) => ClaimStepKeepsProtocol(y, a);
    case CancelOpening(_, now) =>
      var y0 := y.(free := if y.phases[s].stage.SlotHeld? then y.free + 1 else y.free);
      AbandonKeepsProtocol(y0, s, y.phases[s].permit, now, Idle(false));
  }
}
