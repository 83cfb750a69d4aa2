// Attempts, which resolve and close once, and the non-streaming retry loop over them.
module AdmissionAttempts {
  import opened Wrappers
  import opened RetrySessions
  import opened AdmissionProtocol
  import opened AdmissionController
  import AdmissionSystem

  class ProviderAttempt {
    const controller: ProviderAdmissionController
    const session: ProviderRetrySession
    const permit: Permit
    var resolved: bool
    var accepted: bool
    var failureRetryable: Option<bool>
    var closed: bool

    ghost predicate Valid()
      reads this, controller, controller.episode
    {
      controller.Valid() && session in controller.sessions
    }

    constructor (controller: ProviderAdmissionController, session: ProviderRetrySession, permit: Permit)
      requires controller.Valid() && session in controller.sessions
      ensures Valid() && !resolved && !accepted && !closed && failureRetryable == None
      ensures this.controller == controller && this.session == session && this.permit == permit
    {
      this.controller := controller;
      this.session := session;
      this.permit := permit;
      resolved, accepted, failureRetryable, closed := false, false, None, false;
    }

    // Whatever ran, the controller took effect `e`: nothing at all when the attempt was resolved before.
    ghost predicate TookOnce(before: Core, notified: nat, wasResolved: bool, e: Effect)
      reads this, controller, controller.episode, controller.sessions
    {
      controller.Took(before, notified, if wasResolved then Effect(before, false) else e)
    }

    method Succeeded()
      requires Valid()
      modifies this`resolved, this`accepted, controller`episode, controller`notifications
      ensures Valid() && resolved && accepted == (old(accepted) || !old(resolved))
      ensures controller.episode == old(controller.episode) || controller.episode == null
      ensures TookOnce(old(controller.View()), old(controller.notifications), old(resolved),
                       CloseEpisode(old(controller.View()), session, permit))
    {
      if resolved {
        return;
      }
      controller.AttemptAnswered(session, permit);
      resolved := true;
      accepted := true;
    }

    method RetryImmediately(now: real)
      requires Valid()
      modifies this`resolved, controller`notifications, controller.episode
      ensures Valid() && resolved
      ensures TookOnce(old(controller.View()), old(controller.notifications), old(resolved),
                       KeepLeading(old(controller.View()), session, permit, now))
    {
      if resolved {
        return;
      }
      controller.AttemptCorrected(session, permit, now);
      resolved := true;
    }

    // `retryable` is the provider's classification of the error.
    method Retry(error: Failure, retryable: bool, now: real, later: real, delay: real, terminalDelay: real)
      returns (shouldRetry: bool)
      requires Valid()
      modifies this`resolved, this`failureRetryable, controller`episode, controller`nextGeneration,
               controller`notifications, controller.episode, controller.sessions
      ensures Valid() && resolved && controller.sessions == old(controller.sessions)
      ensures controller.episode == old(controller.episode) || controller.episode == null || fresh(controller.episode)
      ensures failureRetryable == if old(resolved) then old(failureRetryable) else Some(retryable)
      ensures var failed := AttemptFailed(old(controller.View()), session, permit, error, now, later, delay,
              terminalDelay);
              && TookOnce(old(controller.View()), old(controller.notifications), old(resolved),
                          if retryable then failed.0 else CloseEpisode(old(controller.View()), session, permit))
              && shouldRetry == (!old(resolved) && retryable && failed.1)
    {
      if resolved {
        return false;
      }
      failureRetryable := Some(retryable);
      if !retryable {
        controller.AttemptAnswered(session, permit);
        resolved := true;
        return false;
      }
      shouldRetry := controller.AttemptFails(session, permit, error, now, later, delay, terminalDelay);
      resolved := true;
    }

    // Closes the attempt. The abandonment of an unresolved attempt runs in a task of its own:
    // when the closer is cancelled first, the slot is released at once and the abandonment stays
    // scheduled. However often and however it is called, one slot is released.
    method Aclose(now: real, cancelled: bool) returns (scheduled: bool)
      requires Valid()
      modifies this`closed, controller`notifications, controller`freeSlots, controller.episode
      ensures Valid() && closed
      ensures controller.freeSlots == old(controller.freeSlots) + if old(closed) then 0 else 1
      ensures scheduled == (!old(closed) && !resolved && cancelled)
      ensures controller.Took(old(controller.View()), old(controller.notifications),
                              if old(closed) || resolved || cancelled then Effect(old(controller.View()), false)
                              else AbandonProbe(old(controller.View()), session, permit, now))
    {
      if closed {
        return false;
      }
      closed := true;
      scheduled := !resolved && cancelled;
      if !resolved && !cancelled {
        controller.AttemptAbandoned(session, permit, now);
      }
      controller.ReleaseConcurrency();
    }
  }

  datatype Opened = Started(attempt: ProviderAttempt) | PermitStale | BudgetSpent

  // The end of `open_attempt`, once the opener holds a slot: the permit is checked again and the
  // attempt claimed without yielding, or the slot goes back and the permit is abandoned.
  method ClaimSlot(c: ProviderAdmissionController, session: ProviderRetrySession, permit: Permit, now: real)
    returns (o: Opened)
    requires c.Valid() && session in c.sessions
    modifies session, c`freeSlots, c`notifications, c.episode
    ensures c.Valid() && session.attemptsStarted == old(session.attemptsStarted) + if o.Started? then 1 else 0
    ensures o.PermitStale? <==> !PermitIsCurrent(old(c.View()), session, permit)
    ensures o.BudgetSpent? <==>
              PermitIsCurrent(old(c.View()), session, permit) && !old(c.View()).budgets[session].CanAttempt()
    ensures o.Started? ==>
              && c.View() == AdmissionSystem.StartAttempt(old(c.View()), session)
              && c.freeSlots == old(c.freeSlots) && c.notifications == old(c.notifications)
              && fresh(o.attempt) && o.attempt.controller == c && o.attempt.session == session
              && o.attempt.permit == permit && !o.attempt.resolved && !o.attempt.closed
    ensures !o.Started? ==>
              && c.Took(old(c.View()), old(c.notifications), AbandonProbe(old(c.View()), session, permit, now))
              && c.freeSlots == old(c.freeSlots) + 1
  {
    if !c.PermitCurrent(session, permit) {
      c.ReleaseConcurrency();
      c.AttemptAbandoned(session, permit, now);
      return PermitStale;
    }
    var ok := session.ClaimAttempt();
    if !ok {
      c.ReleaseConcurrency();
      c.AttemptAbandoned(session, permit, now);
      return BudgetSpent;
    }
    var attempt := new ProviderAttempt(c, session, permit);
    return Started(attempt);
  }

  // ----- back-off -----

  function Doubled(base: real, times: nat): real {
    if times == 0 then base else 2.0 * Doubled(base, times - 1)
  }

  // `draw` is the jitter drawn for this failure, `retryAfter` the parsed header.
  function RetryDelay(base: real, maxDelay: real, draw: real, retryAfter: Option<real>, attempt: nat): real {
    var uncapped := Doubled(base, if attempt == 0 then 0 else attempt - 1);
    var backoff := (if uncapped < maxDelay then uncapped else maxDelay) + draw;
    Max(backoff, if retryAfter.Some? then retryAfter.value else 0.0)
  }

  lemma {:induction false} DoubledGrows(base: real, m: nat, n: nat)
    requires 0.0 <= base && m <= n
    ensures 0.0 <= Doubled(base, m) <= Doubled(base, n)
    decreases n
  {
    if m < n {
      DoubledGrows(base, m, n - 1);
    } else if 0 < n {
      DoubledGrows(base, n - 1, n - 1);
    }
  }

  // A server's retry-after is a floor, the cap plus the largest jitter a ceiling above it, and
  // with equal draws a later attempt never waits less.
  lemma RetryDelayBounds(base: real, maxDelay: real, jitter: real, draw: real, retryAfter: Option<real>, m: nat, n: nat)
    requires 0.0 <= base <= maxDelay && 0.0 <= draw <= jitter && m <= n
    ensures retryAfter.Some? ==> retryAfter.value <= RetryDelay(base, maxDelay, draw, retryAfter, m)
    ensures base + draw <= RetryDelay(base, maxDelay, draw, retryAfter, m)
    ensures RetryDelay(base, maxDelay, draw, retryAfter, m) <= RetryDelay(base, maxDelay, draw, retryAfter, n)
    ensures RetryDelay(base, maxDelay, draw, retryAfter, n) <= maxDelay + jitter
            || (retryAfter.Some? && RetryDelay(base, maxDelay, draw, retryAfter, n) == retryAfter.value)
  {
    var k := if m == 0 then 0 else m - 1;
    DoubledGrows(base, k, if n == 0 then 0 else n - 1);
    DoubledGrows(base, 0, k);
  }

  // The exact delays: the first is the base delay, each further one doubles up to the cap, the jitter
  // comes on top, and a server's retry-after replaces what is shorter.
  lemma RetryDelayDoubles(base: real, maxDelay: real, draw: real, retryAfter: Option<real>, n: nat)
    requires 0.0 <= base <= maxDelay && 0.0 <= draw && (retryAfter.Some? ==> 0.0 <= retryAfter.value)
    ensures RetryDelay(base, maxDelay, 0.0, None, 0) == RetryDelay(base, maxDelay, 0.0, None, 1) == base
    ensures 0 < n ==>
              var twice := 2.0 * RetryDelay(base, maxDelay, 0.0, None, n);
              RetryDelay(base, maxDelay, 0.0, None, n + 1) == if twice < maxDelay then twice else maxDelay
    ensures var own := RetryDelay(base, maxDelay, 0.0, None, n) + draw;
            RetryDelay(base, maxDelay, draw, retryAfter, n)
            == if retryAfter.Some? && own < retryAfter.value then retryAfter.value else own
  {
    DoubledGrows(base, 0, if n == 0 then 0 else n - 1);
    DoubledGrows(base, 0, n);
  }
}
