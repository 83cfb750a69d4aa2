// One logical execution's upstream-attempt budget.
module RetrySessions {
  import opened Wrappers

  // Upstream errors are opaque: the protocol stores and hands them on, and never looks inside.
  type Failure = nat

  datatype Budget = Budget(max: nat, started: nat, terminal: Option<Failure>) {
    predicate CanAttempt() {
      started < max
    }
  }

  class ProviderRetrySession {
    const maxAttempts: nat
    var attemptsStarted: nat
    var terminalError: Option<Failure>

    function View(): Budget
      reads this
    {
      Budget(maxAttempts, attemptsStarted, terminalError)
    }

    constructor (maxAttempts: nat)
      requires 0 < maxAttempts
      ensures View() == Budget(maxAttempts, 0, None)
    {
      this.maxAttempts := maxAttempts;
      attemptsStarted := 0;
      terminalError := None;
    }

    // Spends one attempt; false stands for an exception: the session is exhausted.
    method ClaimAttempt() returns (ok: bool)
      modifies this
      ensures ok == old(View()).CanAttempt()
      ensures View() == if ok then old(View()).(started := old(View()).started + 1) else old(View())
    {
      ok := attemptsStarted < maxAttempts;
      if ok {
        attemptsStarted := attemptsStarted + 1;
      }
    }

    method FailRecovery(error: Failure)
      modifies this
      ensures View() == old(View()).(terminal := Some(error))
    {
      terminalError := Some(error);
    }
  }
}
