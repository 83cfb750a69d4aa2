// What a leader that does not come back does to everybody else.
module AdmissionStranding {
  import opened Wrappers
  import opened RetrySessions
  import opened AdmissionProtocol
  import opened AdmissionSystem
  import opened AdmissionInvariant
  import opened AdmissionProperties

  // An open episode whose leader is outside the controller, not about to retry.
  ghost predicate Stranded(y: System, generation: nat, l: ProviderRetrySession) {
    LedBy(y, generation, l) && l in y.phases && y.phases[l] == Idle(false)
  }

  // A step of anybody else leaves the episode stranded and starts no attempt.
  lemma StrandedAfterStep(y: System, a: Action, generation: nat, l: ProviderRetrySession)
    requires ProtocolOk(y) && Enabled(y, a) && Stranded(y, generation, l) && a.s != l
    ensures Stranded(Apply(y, a), generation, l) && !StartsAttempt(y, a)
  {
    BystanderKeepsLeader(y, a, l);
    ClaimsAreExclusive(y, a, a.s);
  }

  // A stranded episode stays so for as long as its leader does nothing, and nobody starts an
  // upstream attempt.
  lemma {:induction false} StrandedForever(ys: seq<System>, actions: seq<Action>, generation: nat,
                                           l: ProviderRetrySession, n: nat)
    requires IsRun(ys, actions) && ProtocolOk(ys[0]) && Stranded(ys[0], generation, l) && n <= |actions|
    requires forall k | 0 <= k < n :: actions[k].s != l
    ensures ProtocolOk(ys[n]) && Stranded(ys[n], generation, l)
    ensures Starts(ys, actions, n) == 0
  {
    if 0 < n {
      StrandedForever(ys, actions, generation, l, n - 1);
      assert StepsAt(ys, actions, n - 1);
      StepKeepsProtocol(ys[n - 1], actions[n - 1]);
      StrandedAfterStep(ys[n - 1], actions[n - 1], generation, l);
    }
  }

  // A follower, parked and not failed.
  ghost predicate Waits(y: System, w: ProviderRetrySession) {
    w in y.phases && w in y.core.budgets && y.phases[w].Parked? && y.core.budgets[w].terminal.None?
  }

  lemma EnteringParks(y: System, generation: nat, l: ProviderRetrySession, w: ProviderRetrySession, now: real)
    requires ProtocolOk(y) && Stranded(y, generation, l) && w != l && w in y.core.budgets
             && y.core.budgets[w].terminal.None?
    ensures Waits(EnterGate(y, w, now), w)
  {
  }

  lemma OthersFailNobody(y: System, a: Action, generation: nat, l: ProviderRetrySession, w: ProviderRetrySession)
    requires ProtocolOk(y) && Enabled(y, a) && Stranded(y, generation, l) && a.s != w && Waits(y, w)
    ensures Waits(Apply(y, a), w)
  {
    OthersKeepBudget(y, a, generation, l, w);
    if Reenters(y, a) {
      StalePermitReenters(if a.Claim? then y.(free := y.free + 1) else y, a.s, a.now);
    } else {
      PhasesAfterStep(y, a);
    }
  }

  lemma OthersKeepBudget(y: System, a: Action, generation: nat, l: ProviderRetrySession, w: ProviderRetrySession)
    requires ProtocolOk(y) && Enabled(y, a) && Stranded(y, generation, l) && a.s != w && w in y.core.budgets
    ensures w in Apply(y, a).core.budgets && Apply(y, a).core.budgets[w] == y.core.budgets[w]
  {
    if Reenters(y, a) {
      StalePermitReenters(if a.Claim? then y.(free := y.free + 1) else y, a.s, a.now);
    } else if !a.Fail? && !a.Claim? && !a.NewSession? {
      BudgetsUntouched(y, a);
    }
  }

  // Whoever waits goes on waiting, and parks again whenever it is woken, unless it is cancelled.
  lemma {:induction false} StrandedWaitersStayParked(ys: seq<System>, actions: seq<Action>, generation: nat,
                                                     l: ProviderRetrySession, w: ProviderRetrySession, n: nat)
    requires IsRun(ys, actions) && ProtocolOk(ys[0]) && Stranded(ys[0], generation, l) && n <= |actions|
    requires forall k | 0 <= k < n :: actions[k].s != l && actions[k] != CancelFollower(w)
    requires Waits(ys[0], w) && w != l
    ensures Waits(ys[n], w)
  {
    if 0 < n {
      StrandedForever(ys, actions, generation, l, n - 1);
      StrandedWaitersStayParked(ys, actions, generation, l, w, n - 1);
      StaysParked(ys, actions, generation, l, w, n - 1);
    }
  }

  lemma StaysParked(ys: seq<System>, actions: seq<Action>, generation: nat,
                    l: ProviderRetrySession, w: ProviderRetrySession, k: nat)
    requires IsRun(ys, actions) && k < |actions| && ProtocolOk(ys[k]) && Stranded(ys[k], generation, l)
    requires actions[k].s != l && actions[k] != CancelFollower(w) && Waits(ys[k], w) && w != l
    ensures Waits(ys[k + 1], w)
  {
    assert StepsAt(ys, actions, k);
    if actions[k].s != w {
      OthersFailNobody(ys[k], actions[k], generation, l, w);
    } else {
      EnteringParks(ys[k], generation, l, w, actions[k].now);
    }
  }

  // ----- a stranded episode within reach -----

  // The controller with one session only.
  function Solo(l: ProviderRetrySession, episode: Option<Episode>, next: nat, started: nat, p: Phase,
      free: nat): System {
    System(Core(episode, next, map[l := Budget(2, started, None)]), map[l := p], free)
  }

  lemma RunGrows(ys: seq<System>, actions: seq<Action>, a: Action, z: System)
    returns (zs: seq<System>, all: seq<Action>)
    requires IsRun(ys, actions) && Enabled(ys[|ys| - 1], a) && Apply(ys[|ys| - 1], a) == z
    ensures IsRun(zs, all) && zs[0] == ys[0] && zs[|zs| - 1] == z
  {
    zs, all := ys + [z], actions + [a];
    forall i: nat | i < |all| ensures StepsAt(zs, all, i) {
      if i < |actions| {
        assert StepsAt(ys, actions, i);
      }
    }
  }

  // A session with two attempts makes its first.
  lemma FirstAttempt(l: ProviderRetrySession) returns (ys: seq<System>, actions: seq<Action>)
    ensures IsRun(ys, actions) && Initial(ys[0], 1)
    ensures ys[|ys| - 1] == Solo(l, None, 1, 1, Attempting(NormalPermit), 0)
  {
    ys, actions := RunGrows([System(Core(None, 1, map[]), map[], 1)], [], NewSession(l, 2),
        Solo(l, None, 1, 0, Idle(false), 1));
    ys, actions := RunGrows(ys, actions, Open(l, 0.0), Solo(l, None, 1, 0, Opening(NormalPermit, LimiterWait), 1));
    ys, actions := RunGrows(ys, actions, LimiterAdmits(l, 0.0),
        Solo(l, None, 1, 0, Opening(NormalPermit, SlotWait), 1));
    ys, actions := RunGrows(ys, actions, GrantSlot(l), Solo(l, None, 1, 0, Opening(NormalPermit, SlotHeld), 0));
    ys, actions := RunGrows(ys, actions, Claim(l, 0.0), Solo(l, None, 1, 1, Attempting(NormalPermit), 0));
  }

  // The attempt fails retryably, and the session does not come back.
  lemma StrandingIsReachable(l: ProviderRetrySession) returns (ys: seq<System>, actions: seq<Action>)
    ensures IsRun(ys, actions) && Initial(ys[0], 1)
    ensures ProtocolOk(ys[|ys| - 1]) && Stranded(ys[|ys| - 1], 1, l)
  {
    ys, actions := FirstAttempt(l);
    var episode := Some(Episode(1, Some(l), 1.0, 0, {}, false, None));
    ys, actions := RunGrows(ys, actions, Fail(l, 0, 0.0, 0.0, 1.0, 1.0), Solo(l, episode, 2, 1, Resolved(true), 0));
    ys, actions := RunGrows(ys, actions, Close(l), Solo(l, episode, 2, 1, Idle(true), 1));
    ys, actions := RunGrows(ys, actions, Quit(l), Solo(l, episode, 2, 1, Idle(false), 1));
    InitialSatisfiesInvariant(ys[0], 1);
    RunKeepsInvariant(ys, actions, 1, |ys| - 1);
  }
}
