// When a request gives its lease back, and what that means for the body it streams.
module RequestProperties {
  import opened RequestProtocol
  import opened RequestSystem
  import GenerationSystem
  import GenerationInvariant
  import GenerationProperties

  // Whether the lease is held or given back, by where the request is.
  predicate StageOk(q: Request, released: bool) {
    var task, body := q.response.task, q.response.body;
    match q.stage
    case Handling => !released && task.NotStarted?
    case ClosingPreStart =>
      && !released && !task.NotStarted? && !task.Releasing?
      && (if task.Done? then body == Closed(true)
          else if task.Cancelled? then body == Open || body == Closed(false)
          else body == Open)
    case ClosingUnmanaged => !released && body == Open
    case Responding =>
      if task.Releasing? || task.Done? then released && body == Closed(true)
      else if task.Cancelled? then (if released then body == Closed(true) else body == Open || body == Closed(false))
      else !released && body == Open
    case Ended => released
  }

  // A closer that returned did so after the cleanup, and raised unless the cleanup was complete.
  predicate ClosersOk(q: Request) {
    && (q.closers != map[] || q.returned != map[] ==> q.stage.Responding? && !q.response.task.NotStarted?)
    && (forall c | c in q.returned :: q.response.task.Over() && (!q.returned[c] ==> q.response.task.Done?))
  }

  predicate RequestOk(y: System, r: nat)
    requires r in y.requests
  {
    && r in y.gens.leases
    && y.requests[r].releases == (if y.gens.leases[r].released then 1 else 0)
    && StageOk(y.requests[r], y.gens.leases[r].released)
    && ClosersOk(y.requests[r])
  }

  ghost predicate Invariant(y: System) {
    && GenerationInvariant.Invariant(y.gens)
    && forall r | r in y.requests :: RequestOk(y, r)
  }

  // ----- steps -----

  // In such a state a release is never refused, so no step waits for more than its request.
  lemma ReleaseIsPossible(y: System, r: nat)
    requires Invariant(y) && r in y.requests
    ensures CanRelease(y, r)
  {
    assert RequestOk(y, r);
  }

  lemma RequestStepKeepsStage(q: Request, step: Step, released: bool)
    requires EnabledFor(q, step) && StageOk(q, released)
    ensures Releases(q, step) ==> !released
    ensures StageOk(AfterStep(q, step, released), released || Releases(q, step))
  {
  }

  lemma RequestStepKeepsClosers(q: Request, step: Step, released: bool)
    requires EnabledFor(q, step) && ClosersOk(q)
    ensures ClosersOk(AfterStep(q, step, released))
  {
  }

  // The manager's step for a lease touches no other.
  lemma LeasesAfterBackground(y: GenerationSystem.System, act: GenerationSystem.Action, l: nat)
    requires GenerationSystem.Enabled(y, act) && l in y.leases && (act.ReleaseLease? ==> act.lease != l)
    ensures var z := GenerationSystem.Apply(y, act); l in z.leases && z.leases[l] == y.leases[l]
  {
  }

  lemma BackgroundKeepsInvariant(y: System, a: Action)
    requires Invariant(y) && Enabled(y, a) && a.Background?
    ensures Invariant(Apply(y, a))
  {
    GenerationInvariant.StepKeepsInvariant(y.gens, a.act);
    forall r | r in y.requests ensures RequestOk(Apply(y, a), r) {
      assert RequestOk(y, r);
      LeasesAfterBackground(y.gens, a.act, r);
    }
  }

  lemma LeasesAfterAcquire(y: GenerationSystem.System, r: nat, s: nat)
    requires GenerationSystem.Enabled(y, GenerationSystem.AcquireLease(r))
    ensures var z := GenerationSystem.Apply(y, GenerationSystem.AcquireLease(r));
            && (s in y.leases ==> s in z.leases && z.leases[s] == y.leases[s])
            && (r in z.leases ==> !z.leases[r].released)
  {
  }

  lemma AcceptKeepsRequest(y: System, r: nat, s: nat)
    requires Enabled(y, Accept(r)) && s in y.requests && RequestOk(y, s)
    ensures RequestOk(Apply(y, Accept(r)), s)
  {
    LeasesAfterAcquire(y.gens, r, s);
  }

  lemma AcceptedIsOk(y: System, r: nat)
    requires Enabled(y, Accept(r)) && r in Apply(y, Accept(r)).requests
    ensures RequestOk(Apply(y, Accept(r)), r)
  {
    LeasesAfterAcquire(y.gens, r, r);
  }

  lemma AcceptKeepsInvariant(y: System, r: nat)
    requires Invariant(y) && Enabled(y, Accept(r))
    ensures Invariant(Apply(y, Accept(r)))
  {
    GenerationInvariant.StepKeepsInvariant(y.gens, GenerationSystem.AcquireLease(r));
    forall s | s in Apply(y, Accept(r)).requests ensures RequestOk(Apply(y, Accept(r)), s) {
      if s == r {
        AcceptedIsOk(y, r);
      } else {
        AcceptKeepsRequest(y, r, s);
      }
    }
  }

  lemma LeasesAfterRelease(y: GenerationSystem.System, r: nat, s: nat)
    requires GenerationSystem.Enabled(y, GenerationSystem.ReleaseLease(r)) && s in y.leases
    ensures var z := GenerationSystem.Apply(y, GenerationSystem.ReleaseLease(r));
            s in z.leases && z.leases[s] == y.leases[s].(released := y.leases[s].released || s == r)
  {
  }

  lemma TakeKeepsInvariant(y: System, r: nat, step: Step)
    requires Invariant(y) && Enabled(y, Take(r, step))
    ensures Invariant(Apply(y, Take(r, step)))
  {
    var z := Apply(y, Take(r, step));
    assert RequestOk(y, r);
    RequestStepKeepsStage(y.requests[r], step, y.gens.leases[r].released);
    RequestStepKeepsClosers(y.requests[r], step, y.gens.leases[r].released);
    if Releases(y.requests[r], step) {
      GenerationInvariant.StepKeepsInvariant(y.gens, GenerationSystem.ReleaseLease(r));
    }
    forall s | s in z.requests ensures RequestOk(z, s) {
      assert RequestOk(y, s);
      if Releases(y.requests[r], step) {
        LeasesAfterRelease(y.gens, r, s);
      }
    }
  }

  lemma StepKeepsInvariant(y: System, a: Action)
    requires Invariant(y) && Enabled(y, a)
    ensures Invariant(Apply(y, a))
  {
    match a
    case Background(_) => BackgroundKeepsInvariant(y, a);
    case Accept(r) => AcceptKeepsInvariant(y, r);
    case Take(r, step) => TakeKeepsInvariant(y, r, step);
  }

  // ----- runs -----

  ghost predicate IsRun(ys: seq<System>, actions: seq<Action>) {
    && |ys| == |actions| + 1
    && forall i: nat | i < |actions| :: StepsAt(ys, actions, i)
  }

  ghost predicate StepsAt(ys: seq<System>, actions: seq<Action>, i: nat)
    requires |ys| == |actions| + 1 && i < |actions|
  {
    Enabled(ys[i], actions[i]) && ys[i + 1] == Apply(ys[i], actions[i])
  }

  predicate Initial(y: System, runtime: nat) {
    GenerationProperties.Initial(y.gens, runtime) && y.requests == map[]
  }

  lemma {:induction false} RunKeepsInvariant(ys: seq<System>, actions: seq<Action>, runtime: nat, i: nat)
    requires IsRun(ys, actions) && Initial(ys[0], runtime) && i < |ys|
    ensures Invariant(ys[i])
  {
    if i == 0 {
      GenerationProperties.InitialSatisfiesInvariant(ys[0].gens, runtime);
    } else {
      RunKeepsInvariant(ys, actions, runtime, i - 1);
      RunStepKeepsInvariant(ys, actions, i - 1);
    }
  }

  lemma RunStepKeepsInvariant(ys: seq<System>, actions: seq<Action>, i: nat)
    requires IsRun(ys, actions) && i < |actions| && Invariant(ys[i])
    ensures Invariant(ys[i + 1])
  {
    assert StepsAt(ys, actions, i);
    StepKeepsInvariant(ys[i], actions[i]);
  }

  // ----- the release -----

  predicate IsOver(q: Request) {
    q.stage.Ended? || (q.stage.Responding? && q.response.task.Over())
  }

  // The cleanup of a managed response is cut off before its body is closed: a cancellation comes
  // out of the body's close, or hits the cleanup task before it runs.
  predicate CutsClose(q: Request, step: Step) {
    q.stage.Responding? && (step.TaskBreaksClose? || (step.TaskCancelled? && q.response.task.Scheduled?))
  }

  predicate WasCutOff(q: Request) {
    q.stage.Responding? && q.response.task.Cancelled? && q.releases == 0
  }

  // Action `a` makes request `r` take a step with property `p`.
  predicate Takes(y: System, a: Action, r: nat, p: (Request, Step) -> bool) {
    a.Take? && a.r == r && r in y.requests && p(y.requests[r], a.step)
  }

  predicate Is(y: System, r: nat, p: Request -> bool) {
    r in y.requests && p(y.requests[r])
  }

  lemma RequestAfterStep(y: System, a: Action, r: nat)
    requires Enabled(y, a)
    ensures var z := Apply(y, a);
            && (r in z.requests && r !in y.requests ==> z.requests[r] == Accepted())
            && (r in y.requests ==> r in z.requests)
            && (r in y.requests && a.Take? && a.r == r ==>
                  z.requests[r] == AfterStep(y.requests[r], a.step, y.gens.leases[r].released))
            && (r in y.requests && !(a.Take? && a.r == r) ==> z.requests[r] == y.requests[r])
  {
  }

  lemma CutOffAfterRequestStep(q: Request, step: Step, released: bool)
    requires EnabledFor(q, step) && StageOk(q, released) && q.releases == if released then 1 else 0
    ensures WasCutOff(AfterStep(q, step, released)) <==> WasCutOff(q) || CutsClose(q, step)
  {
  }

  lemma CutOffAfterStep(y: System, a: Action, r: nat)
    requires Invariant(y) && Enabled(y, a)
    ensures Is(Apply(y, a), r, WasCutOff) <==> Is(y, r, WasCutOff) || Takes(y, a, r, CutsClose)
  {
    RequestAfterStep(y, a, r);
    if a.Take? && a.r == r {
      assert RequestOk(y, r);
      CutOffAfterRequestStep(y.requests[r], a.step, y.gens.leases[r].released);
    }
  }

  lemma {:induction false} CutOffExactly(ys: seq<System>, actions: seq<Action>, runtime: nat, n: nat, r: nat)
    requires IsRun(ys, actions) && Initial(ys[0], runtime) && n < |ys|
    ensures Is(ys[n], r, WasCutOff) <==> exists k | 0 <= k < n :: Takes(ys[k], actions[k], r, CutsClose)
  {
    if 0 < n {
      CutOffExactly(ys, actions, runtime, n - 1, r);
      CutOffInRun(ys, actions, runtime, n - 1, r);
    }
  }

  lemma CutOffInRun(ys: seq<System>, actions: seq<Action>, runtime: nat, k: nat, r: nat)
    requires IsRun(ys, actions) && Initial(ys[0], runtime) && k < |actions|
    ensures Is(ys[k + 1], r, WasCutOff) <==> Is(ys[k], r, WasCutOff) || Takes(ys[k], actions[k], r, CutsClose)
  {
    RunKeepsInvariant(ys, actions, runtime, k);
    assert StepsAt(ys, actions, k);
    CutOffAfterStep(ys[k], actions[k], r);
  }

  // When a request is over its lease has been given back once, if and only if the cleanup of its
  // managed response was not cut off; it is never given back twice.
  lemma LeaseIsReleasedOnceUnlessCloseIsCancelled(ys: seq<System>, actions: seq<Action>, runtime: nat, n: nat, r: nat)
    requires IsRun(ys, actions) && Initial(ys[0], runtime) && n < |ys| && r in ys[n].requests
    ensures ys[n].requests[r].releases <= 1
    ensures IsOver(ys[n].requests[r]) ==>
              (ys[n].requests[r].releases == 1 <==> !exists k | 0 <= k < n :: Takes(ys[k], actions[k], r, CutsClose))
  {
    RunKeepsInvariant(ys, actions, runtime, n);
    assert RequestOk(ys[n], r);
    CutOffExactly(ys, actions, runtime, n, r);
  }

  // ----- the body -----

  // The cleanup of a stream without a first chunk is cancelled before it runs.
  predicate AbandonsBody(q: Request, step: Step) {
    q.stage.ClosingPreStart? && step.TaskCancelled? && q.response.task.Scheduled?
  }

  predicate IsAbandoned(q: Request) {
    && q.response.body == Open
    && (q.stage.Ended? || (q.stage.ClosingPreStart? && q.response.task.Cancelled?))
  }

  lemma AbandonedAfterRequestStep(q: Request, step: Step, released: bool)
    requires EnabledFor(q, step) && StageOk(q, released)
    ensures IsAbandoned(AfterStep(q, step, released)) <==> IsAbandoned(q) || AbandonsBody(q, step)
  {
  }

  lemma AbandonedAfterStep(y: System, a: Action, r: nat)
    requires Invariant(y) && Enabled(y, a)
    ensures Is(Apply(y, a), r, IsAbandoned) <==> Is(y, r, IsAbandoned) || Takes(y, a, r, AbandonsBody)
  {
    RequestAfterStep(y, a, r);
    if a.Take? && a.r == r {
      assert RequestOk(y, r);
      AbandonedAfterRequestStep(y.requests[r], a.step, y.gens.leases[r].released);
    }
  }

  lemma AbandonedInRun(ys: seq<System>, actions: seq<Action>, runtime: nat, k: nat, r: nat)
    requires IsRun(ys, actions) && Initial(ys[0], runtime) && k < |actions|
    ensures Is(ys[k + 1], r, IsAbandoned) <==> Is(ys[k], r, IsAbandoned) || Takes(ys[k], actions[k], r, AbandonsBody)
  {
    RunKeepsInvariant(ys, actions, runtime, k);
    assert StepsAt(ys, actions, k);
    AbandonedAfterStep(ys[k], actions[k], r);
  }

  lemma {:induction false} AbandonedExactly(ys: seq<System>, actions: seq<Action>, runtime: nat, n: nat, r: nat)
    requires IsRun(ys, actions) && Initial(ys[0], runtime) && n < |ys|
    ensures Is(ys[n], r, IsAbandoned) <==> exists k | 0 <= k < n :: Takes(ys[k], actions[k], r, AbandonsBody)
  {
    if 0 < n {
      AbandonedExactly(ys, actions, runtime, n - 1, r);
      AbandonedInRun(ys, actions, runtime, n - 1, r);
    }
  }

  // An open body's lease is held, unless its request has ended.
  lemma OpenBodyHoldsGeneration(y: System, r: nat)
    requires Invariant(y) && r in y.requests && y.requests[r].response.body == Open && !y.requests[r].stage.Ended?
    ensures r in y.gens.leases && !y.gens.leases[r].released
    ensures var g := y.gens.leases[r].generation;
            g in y.gens.m.generations && !y.gens.m.generations[g].cleaning && !y.gens.m.generations[g].closed
  {
    assert RequestOk(y, r);
    var g := y.gens.leases[r].generation;
    assert r in GenerationInvariant.Lessees(y.gens, g);
    GenerationProperties.CleanupExcludesHolders(y.gens, g);
  }

  // While a request's body is open its lease is held and its generation neither being nor having
  // been cleaned up. The lease of a request that is over is given back under an open body if and
  // only if the cleanup of a stream without a first chunk was cancelled before it ran.
  lemma GenerationOutlivesBody(ys: seq<System>, actions: seq<Action>, runtime: nat, n: nat, r: nat)
    requires IsRun(ys, actions) && Initial(ys[0], runtime) && n < |ys| && r in ys[n].requests
    requires ys[n].requests[r].response.body == Open
    ensures r in ys[n].gens.leases
    ensures ys[n].gens.leases[r].released <==>
              ys[n].requests[r].stage.Ended? && exists k | 0 <= k < n :: Takes(ys[k], actions[k], r, AbandonsBody)
    ensures !ys[n].gens.leases[r].released ==>
              var g := ys[n].gens.leases[r].generation;
              && g in ys[n].gens.m.generations
              && !ys[n].gens.m.generations[g].cleaning && !ys[n].gens.m.generations[g].closed
  {
    RunKeepsInvariant(ys, actions, runtime, n);
    assert RequestOk(ys[n], r);
    AbandonedExactly(ys, actions, runtime, n, r);
    if !ys[n].requests[r].stage.Ended? {
      OpenBodyHoldsGeneration(ys[n], r);
    }
  }

  // Whoever closes a managed response waits the cleanup out, whatever cancellations reach it; if it
  // returns normally the body is closed and the lease given back.
  lemma ClosersWaitForCleanup(ys: seq<System>, actions: seq<Action>, runtime: nat, n: nat, r: nat, closer: nat)
    requires IsRun(ys, actions) && Initial(ys[0], runtime) && n < |ys|
    requires r in ys[n].requests && closer in ys[n].requests[r].returned
    ensures var q := ys[n].requests[r];
            && q.response.task.Over()
            && (!q.returned[closer] ==> q.response == Response(Done, Closed(true)) && q.releases == 1)
  {
    RunKeepsInvariant(ys, actions, runtime, n);
    assert RequestOk(ys[n], r);
  }

  // ----- what reaches whom -----

  // A handler goes on after a failed start only if neither it nor the cleanup was cancelled; otherwise
  // its request ends there, with the lease given back.
  lemma CancelledHandlersLeave(y: System, r: nat, goesOn: bool)
    requires Invariant(y) && Enabled(y, Take(r, LeavePreStart(goesOn)))
    ensures var (q, z) := (y.requests[r], Apply(y, Take(r, LeavePreStart(goesOn))));
            && r in z.requests && r in z.gens.leases
            && (z.requests[r].stage.Handling? <==> goesOn && !q.interrupted && !q.response.task.Cancelled?)
            && (!z.requests[r].stage.Handling? ==> z.requests[r].stage.Ended? && z.gens.leases[r].released)
  {
    StepKeepsInvariant(y, Take(r, LeavePreStart(goesOn)));
    assert RequestOk(Apply(y, Take(r, LeavePreStart(goesOn))), r);
  }

  predicate IsLeaving(q: Request) {
    q.stage.Ended? || (q.stage.ClosingPreStart? && q.interrupted)
  }

  // A handler cancelled while it awaits a pre-start cleanup never goes on: whatever happens next, it
  // waits the cleanup out and its request ends.
  lemma {:induction false} InterruptedHandlersLeave(ys: seq<System>, actions: seq<Action>, k: nat, n: nat, r: nat)
    requires IsRun(ys, actions) && k < n < |ys| && actions[k] == Take(r, InterruptPreStart)
    ensures r in ys[n].requests && IsLeaving(ys[n].requests[r])
  {
    assert StepsAt(ys, actions, n - 1);
    RequestAfterStep(ys[n - 1], actions[n - 1], r);
    if k < n - 1 {
      InterruptedHandlersLeave(ys, actions, k, n - 1, r);
    }
  }

  // A cleanup that nobody cancels closes the body and ends, in three steps each of which is possible.
  lemma CleanupRunsToEnd(q: Request, released: bool)
    requires StageOk(q, released) && EnabledFor(q, RunTask)
    ensures var running := ApplyTo(q, RunTask);
            && EnabledFor(running, TaskClosesBody)
            && var closed := ApplyTo(running, TaskClosesBody);
               if q.stage.Responding? then
                 && Releases(running, TaskClosesBody) && EnabledFor(closed, TaskEnds)
                 && ApplyTo(closed, TaskEnds) == q.(response := Response(Done, Closed(true)))
               else
                 closed == q.(response := Response(Done, Closed(true)))
  {
  }

  // A closer was cancelled while it waited, whether it has returned since or not.
  predicate Interrupts(q: Request, step: Step, closer: nat) {
    step == InterruptCloser(closer) && closer in q.closers
  }

  // What is known of a closer: whether it was interrupted so far, and what it raised.
  predicate RaisesRightly(q: Request, closer: nat, interrupted: bool) {
    && (closer in q.closers ==> q.closers[closer] == interrupted && closer !in q.returned)
    && (closer in q.returned ==> q.returned[closer] == (interrupted || q.response.task.Cancelled?))
    && (closer !in q.closers && closer !in q.returned ==> !interrupted)
  }

  lemma CloserAfterStep(q: Request, step: Step, released: bool, closer: nat, interrupted: bool)
    requires EnabledFor(q, step) && ClosersOk(q) && StageOk(q, released) && RaisesRightly(q, closer, interrupted)
    ensures RaisesRightly(AfterStep(q, step, released), closer, interrupted || Interrupts(q, step, closer))
  {
  }

  ghost predicate WasInterrupted(ys: seq<System>, actions: seq<Action>, n: nat, r: nat, closer: nat)
    requires |ys| == |actions| + 1 && n <= |actions|
  {
    exists k | 0 <= k < n :: Takes(ys[k], actions[k], r, (q, step) => Interrupts(q, step, closer))
  }

  // A closer that returned raised if and only if it was cancelled while it waited, or the cleanup was.
  lemma {:induction false} ClosersRaiseExactly(ys: seq<System>, actions: seq<Action>, runtime: nat, n: nat,
                                               r: nat, closer: nat)
    requires IsRun(ys, actions) && Initial(ys[0], runtime) && n < |ys|
    ensures r in ys[n].requests ==>
              RaisesRightly(ys[n].requests[r], closer, WasInterrupted(ys, actions, n, r, closer))
    ensures r !in ys[n].requests ==> !WasInterrupted(ys, actions, n, r, closer)
  {
    if 0 < n {
      ClosersRaiseExactly(ys, actions, runtime, n - 1, r, closer);
      InterruptedAfterStep(ys, actions, n - 1, r, closer);
      CloserInRun(ys, actions, runtime, n - 1, r, closer, WasInterrupted(ys, actions, n - 1, r, closer));
    }
  }

  lemma InterruptedAfterStep(ys: seq<System>, actions: seq<Action>, k: nat, r: nat, closer: nat)
    requires |ys| == |actions| + 1 && k < |actions|
    ensures WasInterrupted(ys, actions, k + 1, r, closer) <==>
              || WasInterrupted(ys, actions, k, r, closer)
              || Takes(ys[k], actions[k], r, (q, step) => Interrupts(q, step, closer))
  {
  }

  lemma CloserInRun(ys: seq<System>, actions: seq<Action>, runtime: nat, k: nat, r: nat, closer: nat, interrupted: bool)
    requires IsRun(ys, actions) && Initial(ys[0], runtime) && k < |actions|
    requires r in ys[k].requests ==> RaisesRightly(ys[k].requests[r], closer, interrupted)
    requires r !in ys[k].requests ==> !interrupted
    ensures var now := interrupted || Takes(ys[k], actions[k], r, (q, step) => Interrupts(q, step, closer));
            && (r in ys[k + 1].requests ==> RaisesRightly(ys[k + 1].requests[r], closer, now))
            && (r !in ys[k + 1].requests ==> !now)
  {
    RunKeepsInvariant(ys, actions, runtime, k);
    assert StepsAt(ys, actions, k);
    CloserAfterAction(ys[k], actions[k], r, closer, interrupted);
  }

  lemma CloserAfterAction(y: System, a: Action, r: nat, closer: nat, interrupted: bool)
    requires Invariant(y) && Enabled(y, a)
    requires r in y.requests ==> RaisesRightly(y.requests[r], closer, interrupted)
    requires r !in y.requests ==> !interrupted
    ensures var now := interrupted || Takes(y, a, r, (q, step) => Interrupts(q, step, closer));
            && (r in Apply(y, a).requests ==> RaisesRightly(Apply(y, a).requests[r], closer, now))
            && (r !in Apply(y, a).requests ==> !now)
  {
    RequestAfterStep(y, a, r);
    if r in y.requests && a.Take? && a.r == r {
      assert RequestOk(y, r);
      CloserAfterStep(y.requests[r], a.step, y.gens.leases[r].released, closer, interrupted);
    }
  }

  // ----- both failures are within reach -----

  lemma RunAccepts(y: System, runtime: nat) returns (ys: seq<System>, actions: seq<Action>)
    requires Initial(y, runtime)
    ensures IsRun(ys, actions) && ys[0] == y && 0 in ys[|ys| - 1].requests && ys[|ys| - 1].requests[0] == Accepted()
  {
    ys, actions := [y, Apply(y, Accept(0))], [Accept(0)];
    assert StepsAt(ys, actions, 0);
  }

  lemma RunTakes(ys: seq<System>, actions: seq<Action>, runtime: nat, step: Step)
    returns (zs: seq<System>, all: seq<Action>)
    requires IsRun(ys, actions) && Initial(ys[0], runtime)
    requires 0 in ys[|ys| - 1].requests && EnabledFor(ys[|ys| - 1].requests[0], step)
    ensures IsRun(zs, all) && zs[0] == ys[0] && 0 in zs[|zs| - 1].requests
    ensures var (q, next) := (zs[|zs| - 1].requests[0], ApplyTo(ys[|ys| - 1].requests[0], step));
            q.(releases := 0) == next.(releases := 0) && (!Releases(ys[|ys| - 1].requests[0], step) ==> q == next)
  {
    var last := ys[|ys| - 1];
    RunKeepsInvariant(ys, actions, runtime, |ys| - 1);
    ReleaseIsPossible(last, 0);
    RequestAfterStep(last, Take(0, step), 0);
    zs, all := RunGrows(ys, actions, Take(0, step));
  }

  lemma RunGrows(ys: seq<System>, actions: seq<Action>, a: Action) returns (zs: seq<System>, all: seq<Action>)
    requires IsRun(ys, actions) && Enabled(ys[|ys| - 1], a)
    ensures IsRun(zs, all) && zs[0] == ys[0] && zs[|zs| - 1] == Apply(ys[|ys| - 1], a)
  {
    zs, all := ys + [Apply(ys[|ys| - 1], a)], actions + [a];
    forall i: nat | i < |all| ensures StepsAt(zs, all, i) {
      if i < |actions| {
        assert StepsAt(ys, actions, i);
      }
    }
  }

  // A response whose cleanup is cancelled at once keeps its lease for good.
  lemma CutOffIsReachable(y: System, runtime: nat) returns (ys: seq<System>, actions: seq<Action>)
    requires Initial(y, runtime)
    ensures IsRun(ys, actions) && ys[0] == y && 0 in ys[|ys| - 1].requests
    ensures var q := ys[|ys| - 1].requests[0]; IsOver(q) && q.releases == 0 && q.response.body == Open
  {
    ys, actions := RunAccepts(y, runtime);
    ys, actions := RunTakes(ys, actions, runtime, OpenBody);
    ys, actions := RunTakes(ys, actions, runtime, Respond(true));
    ys, actions := RunTakes(ys, actions, runtime, StartClose(0));
    ys, actions := RunTakes(ys, actions, runtime, TaskCancelled);
  }

  // A handler whose pre-start cleanup is cancelled at once gives the lease back under an open body.
  lemma AbandonedBodyIsReachable(y: System, runtime: nat) returns (ys: seq<System>, actions: seq<Action>)
    requires Initial(y, runtime)
    ensures IsRun(ys, actions) && ys[0] == y && 0 in ys[|ys| - 1].requests && 0 in ys[|ys| - 1].gens.leases
    ensures ys[|ys| - 1].requests[0].response.body == Open && ys[|ys| - 1].gens.leases[0].released
  {
    ys, actions := RunAccepts(y, runtime);
    ys, actions := RunTakes(ys, actions, runtime, OpenBody);
    ys, actions := RunTakes(ys, actions, runtime, FailPreStart);
    ys, actions := RunTakes(ys, actions, runtime, TaskCancelled);
    ys, actions := RunTakes(ys, actions, runtime, LeavePreStart(false));
    RunKeepsInvariant(ys, actions, runtime, |ys| - 1);
    assert RequestOk(ys[|ys| - 1], 0);
  }
}
