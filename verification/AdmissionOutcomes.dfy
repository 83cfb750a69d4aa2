// What each end of an attempt means for whoever comes to the gate next.
module AdmissionOutcomes {
  import opened Wrappers
  import opened RetrySessions
  import opened AdmissionProtocol
  import opened AdmissionSystem
  import opened AdmissionInvariant
  import opened AdmissionProperties

  ghost predicate EverybodyIsWoken(y: System) {
    forall w | w in y.phases && y.phases[w].Parked? :: y.phases[w].notified
  }

  // After a retryable failure of the probe, or of an attempt no episode stands against, nobody is
  // let through before the delay is over; the failed session leads, sleeps for what is left of the
  // delay, and probes from then on.
  lemma FailureBacksOff(y: System, a: Action, t: ProviderRetrySession, now: real)
    requires ProtocolOk(y) && Enabled(y, a) && a.Fail? && y.core.budgets[a.s].CanAttempt()
    requires HoldsProbe(y, a.s) || y.core.episode.None?
    requires t in y.core.budgets
    ensures var c := Apply(y, a).core;
            var generation := if HoldsProbe(y, a.s) then y.core.episode.value.generation else y.core.nextGeneration;
            && t in c.budgets
            && (now < a.now + a.delay ==> !Gate(c, t, now).1.Granted?)
            && (t == a.s && now < a.now + a.delay ==> Gate(c, t, now).1 == BacksOff(a.now + a.delay - now, generation))
            && (t == a.s && a.now + a.delay <= now ==> Gate(c, t, now).1 == Granted(ProbePermit(generation)))
            && (t != a.s && c.budgets[t].terminal.None? ==> Gate(c, t, now).1 == WaitsAsFollower(generation))
    ensures EverybodyIsWoken(Apply(y, a))
  {
  }

  // Any other retryable failure with budget left joins the open episode, or inherits the error of
  // the cool-down; the episode is otherwise as before.
  lemma OtherFailureJoinsOrInherits(y: System, a: Action)
    requires ProtocolOk(y) && Enabled(y, a) && a.Fail? && y.core.budgets[a.s].CanAttempt()
    requires !HoldsProbe(y, a.s) && y.core.episode.Some?
    ensures var c := Apply(y, a).core;
            var ep := y.core.episode.value;
            && c.nextGeneration == y.core.nextGeneration && a.s in c.budgets
            && (ep.terminalUntil.None? ==>
                  c.episode == Some(ep.(waiters := ep.waiters + {a.s})) && c.budgets == y.core.budgets)
            && (ep.terminalUntil.Some? ==>
                  && c.episode == Some(ep)
                  && c.budgets == y.core.budgets[a.s := y.core.budgets[a.s].(terminal := Some(ep.lastError))])
    ensures EverybodyIsWoken(Apply(y, a))
  {
  }

  // A session that failed for good is turned away with its own error.
  lemma OwnErrorIsRaised(c: Core, s: ProviderRetrySession, now: real)
    requires s in c.budgets && c.budgets[s].terminal.Some?
    ensures Gate(c, s, now) == (c, Exhausted(c.budgets[s].terminal.value))
  {
  }

  // A failure without budget, of an attempt that is not the probe, changes nothing if an episode
  // stands; if none does, the cool-down begins.
  lemma SpentFailureCoolsDown(y: System, a: Action, t: ProviderRetrySession, now: real)
    requires ProtocolOk(y) && Enabled(y, a) && a.Fail? && !y.core.budgets[a.s].CanAttempt() && !HoldsProbe(y, a.s)
    requires t in y.core.budgets && y.core.budgets[t].terminal.None?
    ensures y.core.episode.Some? ==> Apply(y, a).core == y.core
    ensures y.core.episode.None? ==>
              var c := Apply(y, a).core;
              && c.budgets == y.core.budgets && EverybodyIsWoken(Apply(y, a))
              && Gate(c, t, now).1 == (if now < a.later + a.terminalDelay then Exhausted(a.error)
                                       else Granted(ProbePermit(c.nextGeneration)))
  {
  }

  // An accepted or finally rejected probe lets everybody through who has not failed; the same
  // answer to any other attempt changes nothing.
  lemma AnswerLetsEverybodyThrough(y: System, a: Action, t: ProviderRetrySession, now: real)
    requires ProtocolOk(y) && Enabled(y, a) && (a.Succeed? || a.Reject?)
    requires t in y.core.budgets && y.core.budgets[t].terminal.None?
    ensures Apply(y, a).core.budgets == y.core.budgets
    ensures HoldsProbe(y, a.s) ==>
              Gate(Apply(y, a).core, t, now).1 == Granted(NormalPermit) && EverybodyIsWoken(Apply(y, a))
    ensures !HoldsProbe(y, a.s) ==>
              Apply(y, a).core == y.core && Apply(y, a).phases == y.phases[a.s := Resolved(false)]
  {
  }

  // A corrected probe may go out again at once, by its leader alone.
  lemma CorrectionKeepsLead(y: System, a: Action, t: ProviderRetrySession, now: real)
    requires ProtocolOk(y) && Enabled(y, a) && a.Correct? && HoldsProbe(y, a.s) && a.now <= now
    requires t in y.core.budgets && y.core.budgets[t].terminal.None?
    ensures var generation := y.core.episode.value.generation;
            Gate(Apply(y, a).core, t, now).1 == if t == a.s then Granted(ProbePermit(generation))
                                                else WaitsAsFollower(generation)
    ensures EverybodyIsWoken(Apply(y, a))
  {
  }

  // Whoever comes first after a probe was given up leads the same episode and probes at once.
  lemma AbandonedProbeIsTakenOver(y: System, a: Action, t: ProviderRetrySession, now: real)
    requires ProtocolOk(y) && Enabled(y, a) && (a.RunAbandon? || a.CancelOpening?) && HoldsProbe(y, a.s) && a.now <= now
    requires t in y.core.budgets && y.core.budgets[t].terminal.None?
    ensures Gate(Apply(y, a).core, t, now).1 == Granted(ProbePermit(y.core.episode.value.generation))
    ensures EverybodyIsWoken(Apply(y, a))
  {
  }

  // Whoever comes first after a leader was cancelled in its back-off waits for what is left of it.
  lemma CancelledBackoffIsTakenOver(y: System, a: Action, t: ProviderRetrySession, now: real)
    requires ProtocolOk(y) && Enabled(y, a) && a.CancelBackoff?
    requires t in y.core.budgets && y.core.budgets[t].terminal.None?
    ensures var ep := y.core.episode.value;
            Gate(Apply(y, a).core, t, now).1 == if now < ep.readyAt then BacksOff(ep.readyAt - now, ep.generation)
                                                else Granted(ProbePermit(ep.generation))
    ensures EverybodyIsWoken(Apply(y, a))
  {
  }

  // Whoever waits for a slot found its permit current when the limiter admitted it.
  lemma OnlyCurrentPermitsWaitForSlots(y: System, a: Action, s: ProviderRetrySession)
    requires Enabled(y, a) && s in Apply(y, a).phases
    requires Apply(y, a).phases[s].Opening? && Apply(y, a).phases[s].stage.SlotWait?
    ensures s in y.phases && y.phases[s].Opening? && y.phases[s].permit == Apply(y, a).phases[s].permit
    ensures y.phases[s].stage.SlotWait?
            || (a.LimiterAdmits? && a.s == s && PermitIsCurrent(y.core, s, y.phases[s].permit))
  {
  }

  // ----- what no longer counts -----

  predicate IsActiveProbe(c: Core, s: ProviderRetrySession, generation: nat) {
    && c.episode.Some? && c.episode.value.generation == generation && c.episode.value.leader == Some(s)
    && c.episode.value.probeActive
  }

  // A permit that is not the active probe changes nothing, however its attempt ends.
  lemma OtherPermitsChangeNothing(c: Core, s: ProviderRetrySession, permit: Permit, now: real)
    requires permit.ProbePermit? ==> !IsActiveProbe(c, s, permit.generation)
    ensures CloseEpisode(c, s, permit) == Effect(c, false)
    ensures KeepLeading(c, s, permit, now) == Effect(c, false)
    ensures AbandonProbe(c, s, permit, now) == Effect(c, false)
    ensures PermitIsCurrent(c, s, permit) <==> permit.NormalPermit? && c.episode.None?
  {
  }

  // Nor does anything a waiter does for an episode that was replaced or closed meanwhile.
  lemma ReplacedEpisodeIsLeftAlone(c: Core, s: ProviderRetrySession, generation: nat)
    requires c.episode.Some? ==> c.episode.value.generation != generation
    ensures LeaveWaiters(c, s, generation) == c
    ensures ClaimProbe(c, s, generation) == (c, None)
    ensures AbandonWaitingLeader(c, s, generation) == Effect(c, false)
  {
  }
}
