// What one session's sections leave alone of another session's place in the recovery.
module AdmissionBystanders {
  import opened Wrappers
  import opened RetrySessions
  import opened AdmissionProtocol
  import opened AdmissionInvariant
  import AdmissionSystem

  // A cool-down has neither leader nor waiters, a probe is out only under a leader, and the session
  // does not both lead and wait, nor either once it has failed.
  predicate Tidy(c: Core, s: ProviderRetrySession) {
    && s in c.budgets
    && (c.episode.Some? && c.episode.value.terminalUntil.Some? ==>
          c.episode.value.leader.None? && c.episode.value.waiters == {})
    && (c.episode.Some? && c.episode.value.leader.None? ==> !c.episode.value.probeActive)
    && !(IsLeader(c, s) && IsWaiter(c, s))
    && (c.budgets[s].terminal.Some? ==> !IsLeader(c, s) && !IsWaiter(c, s))
  }

  predicate IsAway(c: Core, s: ProviderRetrySession) {
    !IsLeader(c, s) && !IsWaiter(c, s)
  }

  // The session already leads with its probe out.
  predicate Probes(c: Core, s: ProviderRetrySession) {
    IsLeader(c, s) && c.episode.value.probeActive
  }

  // The session holds a permit: an unresolved one, and it has not failed.
  predicate Holds(c: Core, s: ProviderRetrySession, permit: Permit) {
    PermitOk(c, s, permit) && s in c.budgets && c.budgets[s].terminal.None?
  }

  // From `c` to `z` session `s` kept its lead and its episode, or at most lost its place as a waiter.
  predicate Bystands(c: Core, z: Core, s: ProviderRetrySession) {
    && (IsLeader(c, s) <==> IsLeader(z, s))
    && (IsLeader(c, s) ==> z.episode.value == c.episode.value.(waiters := z.episode.value.waiters))
    && (IsWaiter(z, s) ==> IsWaiter(c, s) && z.episode.value.generation == c.episode.value.generation)
    && Tidy(z, s)
    && s in c.budgets && z.budgets[s].started == c.budgets[s].started && z.budgets[s].max == c.budgets[s].max
    && (z.budgets[s].terminal == c.budgets[s].terminal || IsWaiter(c, s))
  }

  lemma BystandsTwice(c: Core, d: Core, z: Core, s: ProviderRetrySession)
    requires Bystands(c, d, s) && Bystands(d, z, s)
    ensures Bystands(c, z, s)
  {
  }

  lemma GateBystands(c: Core, t: ProviderRetrySession, now: real, s: ProviderRetrySession)
    requires Tidy(c, s) && t in c.budgets && t != s
    ensures Bystands(c, Gate(c, t, now).0, s)
  {
  }

  lemma WaiterBystands(c: Core, t: ProviderRetrySession, generation: nat, s: ProviderRetrySession)
    requires Tidy(c, s) && t in c.budgets && t != s
    ensures Bystands(c, LeaveWaiters(c, t, generation), s)
    ensures Bystands(c, ClaimProbe(c, t, generation).0, s)
    ensures Bystands(c, AbandonWaitingLeader(c, t, generation).core, s)
  {
  }

  lemma AnswerBystands(c: Core, t: ProviderRetrySession, permit: Permit, now: real, s: ProviderRetrySession)
    requires Tidy(c, s) && t in c.budgets && t != s
    ensures Bystands(c, CloseEpisode(c, t, permit).core, s)
    ensures Bystands(c, KeepLeading(c, t, permit, now).core, s)
    ensures Bystands(c, AbandonProbe(c, t, permit, now).core, s)
    ensures Bystands(c, AdmissionSystem.StartAttempt(c, t), s)
  {
  }

  lemma FailureBystands(c: Core, t: ProviderRetrySession, permit: Permit, error: Failure,
                        now: real, later: real, delay: real, terminalDelay: real, s: ProviderRetrySession)
    requires Tidy(c, s) && t in c.budgets && t != s
    ensures Bystands(c, AttemptFailed(c, t, permit, error, now, later, delay, terminalDelay).0.core, s)
  {
  }

  // A bystander's permit stays good, but for a normal one becoming stale.
  lemma PermitSurvives(c: Core, z: Core, s: ProviderRetrySession, permit: Permit)
    requires Tidy(c, s) && Bystands(c, z, s) && Holds(c, s, permit)
    ensures Holds(z, s, permit)
    ensures permit.ProbePermit? ==> PermitIsCurrent(z, s, permit)
  {
  }

  // ----- the session's own sections -----

  // The error a session is turned away with is its own, or that of the cool-down.
  predicate IsTurnedAway(c: Core, s: ProviderRetrySession, error: Failure) {
    || (s in c.budgets && c.budgets[s].terminal == Some(error))
    || (c.episode.Some? && c.episode.value.terminalUntil.Some? && c.episode.value.lastError == error)
  }

  // Where a gate outcome other than a grant or a refusal leaves the session.
  predicate IsSuspended(c: Core, s: ProviderRetrySession, o: GateOutcome) {
    match o
    case WaitsAsFollower(generation) =>
      !IsLeader(c, s) && c.episode.Some? && c.episode.value.generation == generation
    case BacksOff(_, generation) => LeadsIdleProbe(c, s, generation)
    case WaitsOnOwnProbe => Probes(c, s)
    case _ => false
  }

  lemma OwnGate(c: Core, s: ProviderRetrySession, now: real)
    requires Tidy(c, s)
    ensures var (z, o) := Gate(c, s, now);
            && Tidy(z, s) && z.budgets == c.budgets
            && (o.Granted? ==> Holds(z, s, o.permit) && PermitIsCurrent(z, s, o.permit))
            && (o.Exhausted? ==> IsAway(z, s) && IsTurnedAway(z, s, o.error))
            && (!o.Granted? && !o.Exhausted? ==> IsSuspended(z, s, o))
            && (o.WaitsOnOwnProbe? ==> Probes(c, s))
  {
  }

  lemma SuspensionSurvives(c: Core, z: Core, s: ProviderRetrySession, o: GateOutcome)
    requires Tidy(c, s) && Bystands(c, z, s) && IsSuspended(c, s, o)
    ensures o.BacksOff? ==> LeadsIdleProbe(z, s, o.generation)
    ensures o.WaitsOnOwnProbe? ==> Probes(z, s)
    ensures o.WaitsAsFollower? ==> !IsLeader(z, s) && (IsWaiter(z, s) ==> z.episode.value.generation == o.generation)
  {
  }

  lemma OwnLeave(c: Core, s: ProviderRetrySession, generation: nat)
    requires Tidy(c, s) && !IsLeader(c, s) && (IsWaiter(c, s) ==> c.episode.value.generation == generation)
    ensures var z := LeaveWaiters(c, s, generation); Tidy(z, s) && IsAway(z, s) && z.budgets == c.budgets
  {
  }

  lemma OwnReturn(c: Core, s: ProviderRetrySession, generation: nat)
    requires Tidy(c, s) && LeadsIdleProbe(c, s, generation)
    ensures var (z, permit) := ClaimProbe(c, s, generation);
            && permit.Some? && Tidy(z, s) && z.budgets == c.budgets
            && Holds(z, s, permit.value) && PermitIsCurrent(z, s, permit.value)
    ensures var z := AbandonWaitingLeader(c, s, generation).core; Tidy(z, s) && IsAway(z, s) && z.budgets == c.budgets
  {
  }

  lemma OwnAbandon(c: Core, s: ProviderRetrySession, permit: Permit, now: real)
    requires Tidy(c, s) && Holds(c, s, permit)
    ensures var z := AbandonProbe(c, s, permit, now).core; Tidy(z, s) && IsAway(z, s) && z.budgets == c.budgets
  {
  }

  lemma OwnClaim(c: Core, s: ProviderRetrySession, permit: Permit)
    requires Tidy(c, s) && PermitIsCurrent(c, s, permit) && Holds(c, s, permit)
    ensures var z := AdmissionSystem.StartAttempt(c, s); Tidy(z, s) && Holds(z, s, permit)
  {
  }

  // What an answer leaves behind: an active probe closes its episode, any other permit leaves
  // everything as it was.
  predicate IsAnswered(c: Core, z: Core, notified: nat, s: ProviderRetrySession) {
    && z.budgets == c.budgets && IsAway(z, s)
    && (Probes(c, s) ==> z.episode.None? && notified == 1)
    && (!Probes(c, s) ==> z.episode == c.episode && notified == 0)
  }

  lemma OwnAnswer(c: Core, s: ProviderRetrySession, permit: Permit)
    requires Tidy(c, s) && Holds(c, s, permit)
    ensures var e := CloseEpisode(c, s, permit);
            Tidy(e.core, s) && IsAnswered(c, e.core, if e.notify then 1 else 0, s)
  {
  }

  // What a retryable failure leaves behind, `readyAt` and `until` being the ends of the back-off and
  // of the cool-down: with budget left a probe's leader leads on, a session that nobody else had
  // preceded leads the next episode, and any other waits or fails; without, a probe or a session
  // that nobody had preceded begins the cool-down.
  predicate HasFailed(c: Core, z: Core, s: ProviderRetrySession, error: Failure, readyAt: real, until: real)
    requires s in c.budgets
  {
    if c.budgets[s].CanAttempt() then
      if Probes(c, s) || c.episode.None? then
        && IsLeader(z, s) && !z.episode.value.probeActive && z.episode.value.terminalUntil.None?
        && z.episode.value.readyAt == readyAt && z.episode.value.lastError == error
        && z.episode.value.generation == (if c.episode.None? then c.nextGeneration else c.episode.value.generation)
        && z.episode.value.waiters == (if c.episode.None? then {} else c.episode.value.waiters)
      else if c.episode.value.terminalUntil.Some? then
        z.episode == c.episode && s in z.budgets && z.budgets[s].terminal == Some(c.episode.value.lastError)
      else
        z.episode == Some(c.episode.value.(waiters := c.episode.value.waiters + {s}))
    else
      if Probes(c, s) || c.episode.None? then
        && z.episode.Some? && z.episode.value.terminalUntil == Some(until) && z.episode.value.lastError == error
        && z.episode.value.leader.None? && z.episode.value.waiters == {}
      else
        z == c
  }

  lemma OwnFailure(c: Core, s: ProviderRetrySession, permit: Permit, error: Failure,
                   now: real, later: real, delay: real, terminalDelay: real)
    requires Tidy(c, s) && Holds(c, s, permit)
    ensures var z := AttemptFailed(c, s, permit, error, now, later, delay, terminalDelay).0.core;
            && Tidy(z, s) && !Probes(z, s)
            && HasFailed(c, z, s, error, now + delay, later + terminalDelay)
            && z.budgets[s].started == c.budgets[s].started && z.budgets[s].max == c.budgets[s].max
            && (!c.budgets[s].CanAttempt() ==> IsAway(z, s))
  {
  }
}
