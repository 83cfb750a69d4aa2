// The lock-protected sections of the provider admission controller, as functions on values.
// The controller class is proved to compute exactly these functions (AdmissionController.dfy);
// the system of concurrently driven sessions is built from them (AdmissionSystem.dfy).
module AdmissionProtocol {
  import opened Wrappers
  import opened RetrySessions

  // The gate's permit: a normal admission, or the half-open probe of one recovery generation.
  datatype Permit = NormalPermit | ProbePermit(generation: nat)

  datatype Episode = Episode(
    generation: nat,
    leader: Option<ProviderRetrySession>,
    readyAt: real,
    lastError: Failure,
    waiters: set<ProviderRetrySession>,
    probeActive: bool,
    terminalUntil: Option<real>)

  // The controller's recovery state and the budgets of the sessions it created. Sessions are
  // compared by identity.
  datatype Core = Core(
    episode: Option<Episode>,
    nextGeneration: nat,
    budgets: map<ProviderRetrySession, Budget>)

  // A section's effect: the new state, and whether it notified the condition.
  datatype Effect = Effect(core: Core, notify: bool)

  datatype GateOutcome =
    | Granted(permit: Permit)
    | Exhausted(error: Failure)
    | WaitsAsFollower(generation: nat)
    | WaitsOnOwnProbe
    | BacksOff(delay: real, generation: nat)

  function Max(x: real, y: real): real {
    if x < y then y else x
  }

  function StartEpisode(c: Core, leader: Option<ProviderRetrySession>, readyAt: real, error: Failure): Core {
    c.(episode := Some(Episode(c.nextGeneration, leader, readyAt, error, {}, false, None)),
       nextGeneration := c.nextGeneration + 1)
  }

  // One pass through the gate, from the check of the session's terminal error to the point where
  // the section grants a permit, raises, or suspends.
  function Gate(c: Core, s: ProviderRetrySession, now: real): (Core, GateOutcome)
    requires s in c.budgets
  {
    if c.budgets[s].terminal.Some? then
      (c, Exhausted(c.budgets[s].terminal.value))
    else if c.episode.None? then
      (c, Granted(NormalPermit))
    else
      var ep := c.episode.value;
      if ep.terminalUntil.None? then
        JoinEpisode(c, ep, s, now)
      else if now < ep.terminalUntil.value then
        (c, Exhausted(ep.lastError))
      else
        var c1 := StartEpisode(c, Some(s), now, ep.lastError);
        JoinEpisode(c1, c1.episode.value, s, now)
  }

  function JoinEpisode(c: Core, current: Episode, s: ProviderRetrySession, now: real): (Core, GateOutcome) {
    var ep := if current.leader.None? then current.(leader := Some(s), waiters := current.waiters - {s}) else current;
    if ep.leader == Some(s) then
      var delay := Max(0.0, ep.readyAt - now);
      if ep.probeActive then
        (c.(episode := Some(ep)), WaitsOnOwnProbe)
      else if delay == 0.0 then
        (c.(episode := Some(ep.(probeActive := true))), Granted(ProbePermit(ep.generation)))
      else
        (c.(episode := Some(ep)), BacksOff(delay, ep.generation))
    else
      (c.(episode := Some(ep.(waiters := ep.waiters + {s}))), WaitsAsFollower(ep.generation))
  }

  // A follower's wait was cancelled: it leaves the episode it was parked in.
  function LeaveWaiters(c: Core, s: ProviderRetrySession, generation: nat): Core {
    if c.episode.Some? && c.episode.value.generation == generation
    then c.(episode := Some(c.episode.value.(waiters := c.episode.value.waiters - {s})))
    else c
  }

  predicate LeadsIdleProbe(c: Core, s: ProviderRetrySession, generation: nat) {
    && c.episode.Some?
    && c.episode.value.generation == generation
    && c.episode.value.terminalUntil.None?
    && c.episode.value.leader == Some(s)
    && !c.episode.value.probeActive
  }

  // The claimed leader comes back from its back-off.
  function ClaimProbe(c: Core, s: ProviderRetrySession, generation: nat): (Core, Option<Permit>) {
    if LeadsIdleProbe(c, s, generation)
    then (c.(episode := Some(c.episode.value.(probeActive := true))), Some(ProbePermit(generation)))
    else (c, None)
  }

  function AbandonWaitingLeader(c: Core, s: ProviderRetrySession, generation: nat): Effect {
    if c.episode.None? || c.episode.value.generation != generation
       || c.episode.value.leader != Some(s) || c.episode.value.probeActive
    then Effect(c, false)
    else Effect(c.(episode := Some(c.episode.value.(leader := None))), true)
  }

  predicate PermitIsCurrent(c: Core, s: ProviderRetrySession, permit: Permit) {
    match permit
    case NormalPermit => c.episode.None?
    case ProbePermit(_) => MatchesProbe(c, s, permit) && c.episode.value.terminalUntil.None?
  }

  predicate MatchesProbe(c: Core, s: ProviderRetrySession, permit: Permit) {
    && permit.ProbePermit?
    && c.episode.Some?
    && c.episode.value.generation == permit.generation
    && c.episode.value.leader == Some(s)
    && c.episode.value.probeActive
  }

  // Shared by an accepted response and a final rejection: a probe closes its episode.
  function CloseEpisode(c: Core, s: ProviderRetrySession, permit: Permit): Effect {
    if MatchesProbe(c, s, permit) then Effect(c.(episode := None), true) else Effect(c, false)
  }

  function KeepLeading(c: Core, s: ProviderRetrySession, permit: Permit, now: real): Effect {
    if MatchesProbe(c, s, permit)
    then Effect(c.(episode := Some(c.episode.value.(probeActive := false, readyAt := now))), true)
    else Effect(c, false)
  }

  function AbandonProbe(c: Core, s: ProviderRetrySession, permit: Permit, now: real): Effect {
    if MatchesProbe(c, s, permit)
    then Effect(c.(episode := Some(c.episode.value.(leader := None, probeActive := false, readyAt := now))), true)
    else Effect(c, false)
  }

  function FailBudgets(budgets: map<ProviderRetrySession, Budget>, failed: set<ProviderRetrySession>, error: Failure)
    : map<ProviderRetrySession, Budget>
  {
    map s | s in budgets :: if s in failed then budgets[s].(terminal := Some(error)) else budgets[s]
  }

  // A retryable failure. `now` and `later` are the two clock readings, `delay` and
  // `terminalDelay` the two draws of the retry delay.
  function AttemptFailed(c: Core, s: ProviderRetrySession, permit: Permit, error: Failure,
                         now: real, later: real, delay: real, terminalDelay: real): (Effect, bool)
    requires s in c.budgets
  {
    var canRetry := c.budgets[s].CanAttempt();
    var e :=
      if canRetry then Effect(FailWithBudget(c, s, permit, error, now + delay), true)
      else if c.episode.None? || MatchesProbe(c, s, permit) then
        Effect(Exhaust(c, error, now, later + terminalDelay), true)
      else Effect(c, false);
    (e, canRetry)
  }

  function FailWithBudget(c: Core, s: ProviderRetrySession, permit: Permit, error: Failure, readyAt: real): Core
    requires s in c.budgets
  {
    if c.episode.None? then
      StartEpisode(c, Some(s), readyAt, error)
    else
      var ep := c.episode.value;
      if MatchesProbe(c, s, permit) then
        c.(episode := Some(ep.(lastError := error, probeActive := false, readyAt := readyAt)))
      else if ep.terminalUntil.Some? then
        c.(budgets := c.budgets[s := c.budgets[s].(terminal := Some(ep.lastError))])
      else
        c.(episode := Some(ep.(waiters := ep.waiters + {s})))
  }

  // The last attempt failed: the episode turns terminal and its waiters share the error.
  function Exhaust(c: Core, error: Failure, now: real, until: real): Core {
    var c1 := if c.episode.None? then StartEpisode(c, None, now, error) else c;
    var ep := c1.episode.value;
    c1.(episode := Some(ep.(lastError := error, leader := None, probeActive := false,
                            terminalUntil := Some(until), waiters := {})),
        budgets := FailBudgets(c1.budgets, ep.waiters, error))
  }
}
