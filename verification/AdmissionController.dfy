// The admission controller, its recovery episodes and its attempts, updated in place.
// Each method is one lock-protected (hence await-free) section and is proved to compute the
// section's function of AdmissionProtocol on the controller's view.
module AdmissionController {
  import opened Wrappers
  import opened RetrySessions
  import opened AdmissionProtocol

  class RecoveryEpisode {
    const generation: nat
    var leader: ProviderRetrySession?
    var readyAt: real
    var lastError: Failure
    var waiters: set<ProviderRetrySession>
    var probeActive: bool
    var terminalUntil: Option<real>

    constructor (generation: nat, leader: ProviderRetrySession?, readyAt: real, lastError: Failure)
      ensures View() == Episode(generation, ToOption(leader), readyAt, lastError, {}, false, None)
    {
      this.generation := generation;
      this.leader := leader;
      this.readyAt := readyAt;
      this.lastError := lastError;
      waiters := {};
      probeActive := false;
      terminalUntil := None;
    }

    function View(): Episode
      reads this
    {
      Episode(generation, ToOption(leader), readyAt, lastError, waiters, probeActive, terminalUntil)
    }
  }

  function ToOption(s: ProviderRetrySession?): Option<ProviderRetrySession> {
    if s == null then None else Some(s)
  }

  class ProviderAdmissionController {
    const maxAttempts: nat
    var episode: RecoveryEpisode?
    var nextGeneration: nat
    var freeSlots: nat
    var notifications: nat                        // times the condition was notified
    ghost var sessions: set<ProviderRetrySession> // every session this controller created

    ghost predicate Valid()
      reads this, episode
    {
      && 0 < maxAttempts
      && (episode != null ==>
            && (episode.leader != null ==> episode.leader in sessions)
            && (episode.leader == null ==> !episode.probeActive)
            && (episode.terminalUntil.Some? ==> episode.leader == null && episode.waiters == {})
            && episode.waiters <= sessions)
    }

    ghost function View(): Core
      reads this, episode, sessions
    {
      Core(if episode == null then None else Some(episode.View()), nextGeneration, map s | s in sessions :: s.View())
    }

    constructor (maxConcurrency: nat, maxAttempts: nat)
      requires 0 < maxConcurrency && 0 < maxAttempts
      ensures Valid() && View() == Core(None, 1, map[]) && freeSlots == maxConcurrency && notifications == 0
      ensures sessions == {} && this.maxAttempts == maxAttempts
    {
      this.maxAttempts := maxAttempts;
      episode := null;
      nextGeneration := 1;
      freeSlots := maxConcurrency;
      notifications := 0;
      sessions := {};
    }

    method NewRetrySession() returns (s: ProviderRetrySession)
      requires Valid()
      modifies this`sessions
      ensures Valid() && fresh(s) && sessions == old(sessions) + {s}
      ensures s.maxAttempts == maxAttempts && s.attemptsStarted == 0
      ensures View() == old(View()).(budgets := old(View()).budgets[s := Budget(maxAttempts, 0, None)])
    {
      s := new ProviderRetrySession(maxAttempts);
      sessions := sessions + {s};
    }

    method StartRecoveryEpisode(leader: ProviderRetrySession?, readyAt: real, lastError: Failure)
      requires Valid() && (leader != null ==> leader in sessions)
      modifies this`episode, this`nextGeneration
      ensures Valid() && fresh(episode)
      ensures View() == StartEpisode(old(View()), ToOption(leader), readyAt, lastError)
    {
      episode := new RecoveryEpisode(nextGeneration, leader, readyAt, lastError);
      nextGeneration := nextGeneration + 1;
    }

    // One pass through the gate, from the terminal-error check to its grant, raise or wait.
    method PassGate(session: ProviderRetrySession, now: real) returns (o: GateOutcome)
      requires Valid() && session in sessions
      modifies this`episode, this`nextGeneration, episode
      ensures Valid() && (View(), o) == Gate(old(View()), session, now)
      ensures episode == old(episode) || fresh(episode)
    {
      if session.terminalError.Some? {
        return Exhausted(session.terminalError.value);
      }
      if episode == null {
        return Granted(NormalPermit);
      }
      if episode.terminalUntil.Some? {
        if now < episode.terminalUntil.value {
          return Exhausted(episode.lastError);
        }
        StartRecoveryEpisode(session, now, episode.lastError);
      }
      if episode.leader == null {
        episode.leader := session;
        episode.waiters := episode.waiters - {session};
      }
      assert View().budgets == old(View()).budgets;
      if episode.leader == session {
        if episode.probeActive {
          return WaitsOnOwnProbe;
        }
        var delay := Max(0.0, episode.readyAt - now);
        if delay == 0.0 {
          episode.probeActive := true;
          assert View().budgets == old(View()).budgets;
          return Granted(ProbePermit(episode.generation));
        }
        return BacksOff(delay, episode.generation);
      }
      episode.waiters := episode.waiters + {session};
      assert View().budgets == old(View()).budgets;
      return WaitsAsFollower(episode.generation);
    }

    method FollowerCancelled(session: ProviderRetrySession, generation: nat)
      requires Valid() && session in sessions
      modifies episode
      ensures Valid() && View() == LeaveWaiters(old(View()), session, generation)
    {
      if episode != null && episode.generation == generation {
        episode.waiters := episode.waiters - {session};
      }
    }

    method LeaderReturns(session: ProviderRetrySession, generation: nat) returns (permit: Option<Permit>)
      requires Valid() && session in sessions
      modifies episode
      ensures Valid() && (View(), permit) == ClaimProbe(old(View()), session, generation)
    {
      if episode != null && episode.generation == generation && episode.terminalUntil.None?
         && episode.leader == session && !episode.probeActive
      {
        episode.probeActive := true;
        assert View().budgets == old(View()).budgets;
        return Some(ProbePermit(generation));
      }
      return None;
    }

    method LeaderCancelled(session: ProviderRetrySession, generation: nat)
      requires Valid() && session in sessions
      modifies this`notifications, episode
      ensures Valid() && Took(old(View()), old(notifications), AbandonWaitingLeader(old(View()), session, generation))
    {
      if episode == null || episode.generation != generation || episode.leader != session || episode.probeActive {
        return;
      }
      episode.leader := null;
      notifications := notifications + 1;
    }

    // A section had exactly this effect, and notified the condition exactly when it says so.
    ghost predicate Took(before: Core, notified: nat, e: Effect)
      reads this, episode, sessions
    {
      View() == e.core && notifications == notified + if e.notify then 1 else 0
    }

    function PermitCurrent(session: ProviderRetrySession, permit: Permit): (r: bool)
      requires Valid()
      reads this, episode, sessions
      ensures r == PermitIsCurrent(View(), session, permit)
    {
      match permit
      case NormalPermit => episode == null
      case ProbePermit(g) =>
        episode != null && episode.generation == g && episode.terminalUntil.None? && episode.leader == session
        && episode.probeActive
    }

    function MatchingProbe(session: ProviderRetrySession, permit: Permit): (r: RecoveryEpisode?)
      requires Valid()
      reads this, episode, sessions
      ensures r == if MatchesProbe(View(), session, permit) then episode else null
    {
      if permit.NormalPermit? || episode == null || episode.generation != permit.generation
         || episode.leader != session || !episode.probeActive
      then null else episode
    }

    // Upstream answered, with a response or a final rejection.
    method AttemptAnswered(session: ProviderRetrySession, permit: Permit)
      requires Valid() && session in sessions
      modifies this`episode, this`notifications
      ensures Valid() && Took(old(View()), old(notifications), CloseEpisode(old(View()), session, permit))
      ensures episode == old(episode) || episode == null
    {
      if MatchingProbe(session, permit) != null {
        episode := null;
        notifications := notifications + 1;
      }
    }

    method AttemptCorrected(session: ProviderRetrySession, permit: Permit, now: real)
      requires Valid() && session in sessions
      modifies this`notifications, episode
      ensures Valid() && Took(old(View()), old(notifications), KeepLeading(old(View()), session, permit, now))
    {
      var ep := MatchingProbe(session, permit);
      if ep != null {
        ep.probeActive := false;
        ep.readyAt := now;
        notifications := notifications + 1;
      }
    }

    // An attempt, or a permit no attempt was made for, is given up.
    method AttemptAbandoned(session: ProviderRetrySession, permit: Permit, now: real)
      requires Valid() && session in sessions
      modifies this`notifications, episode
      ensures Valid() && Took(old(View()), old(notifications), AbandonProbe(old(View()), session, permit, now))
    {
      var ep := MatchingProbe(session, permit);
      if ep != null {
        ep.leader := null;
        ep.probeActive := false;
        ep.readyAt := now;
        notifications := notifications + 1;
      }
    }

    method AttemptFails(session: ProviderRetrySession, permit: Permit, error: Failure,
                        now: real, later: real, delay: real, terminalDelay: real) returns (canRetry: bool)
      requires Valid() && session in sessions
      modifies this`episode, this`nextGeneration, this`notifications, episode, sessions
      ensures Valid() && sessions == old(sessions) && (episode == old(episode) || fresh(episode))
      ensures var (e, retry) := AttemptFailed(old(View()), session, permit, error, now, later, delay, terminalDelay);
              Took(old(View()), old(notifications), e) && canRetry == retry
    {
      canRetry := session.attemptsStarted < session.maxAttempts;
      var probe := MatchingProbe(session, permit);
      if canRetry {
        FailsWithBudget(session, probe, error, now + delay);
        notifications := notifications + 1;
        assert View().budgets == FailWithBudget(old(View()), session, permit, error, now + delay).budgets;
      } else if episode == null || probe != null {
        Exhausts(error, now, later + terminalDelay);
        notifications := notifications + 1;
      }
    }

    method FailsWithBudget(session: ProviderRetrySession, probe: RecoveryEpisode?, error: Failure, readyAt: real)
      requires Valid() && session in sessions && (probe == null || probe == episode)
      modifies this`episode, this`nextGeneration, episode, session
      ensures Valid() && (episode == old(episode) || fresh(episode))
      ensures forall permit | probe == old(MatchingProbe(session, permit)) ::
                View() == FailWithBudget(old(View()), session, permit, error, readyAt)
    {
      if episode == null {
        StartRecoveryEpisode(session, readyAt, error);
      } else if probe != null {
        episode.lastError := error;
        episode.probeActive := false;
        episode.readyAt := readyAt;
      } else if episode.terminalUntil.Some? {
        session.FailRecovery(episode.lastError);
      } else {
        episode.waiters := episode.waiters + {session};
      }
    }

    method Exhausts(error: Failure, now: real, until: real)
      requires Valid()
      modifies this`episode, this`nextGeneration, episode, sessions
      ensures Valid() && (episode == old(episode) || fresh(episode))
      ensures View() == Exhaust(old(View()), error, now, until)
    {
      if episode == null {
        StartRecoveryEpisode(null, now, error);
      }
      episode.lastError := error;
      episode.leader := null;
      episode.probeActive := false;
      episode.terminalUntil := Some(until);
      FailWaiters(episode.waiters, error);
      episode.waiters := {};
    }

    method FailWaiters(waiters: set<ProviderRetrySession>, error: Failure)
      requires waiters <= sessions
      modifies sessions
      ensures forall s | s in sessions ::
                s.View() == if s in waiters then old(s.View()).(terminal := Some(error)) else old(s.View())
    {
      var pending := waiters;
      while pending != {}
        invariant pending <= waiters
        invariant forall s | s in sessions ::
                    s.View() == if s in waiters && s !in pending then old(s.View()).(terminal := Some(error))
                        else old(s.View())
        decreases pending
      {
        var waiter :| waiter in pending;
        waiter.FailRecovery(error);
        pending := pending - {waiter};
      }
    }

    // The end of the wait for the semaphore.
    method TakeSlot()
      requires 0 < freeSlots
      modifies this`freeSlots
      ensures freeSlots == old(freeSlots) - 1 && View() == old(View())
    {
      freeSlots := freeSlots - 1;
    }

    method ReleaseConcurrency()
      modifies this`freeSlots
      ensures freeSlots == old(freeSlots) + 1 && View() == old(View())
    {
      freeSlots := freeSlots + 1;
    }
  }
}
