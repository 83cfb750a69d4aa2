// Which handoffs wait for each other, why they never do so in a circle, and the one kind of discard
// that breaks this.
module VoiceWaits {
  import opened Wrappers
  import opened VoiceProtocol
  import opened VoiceSystem
  import opened VoiceProperties

  // ----- the wait-for graph -----

  // Running handoff `a` is, through drain `n`, waiting for running handoff `b`.
  predicate WaitsThrough(y: System, n: nat, a: Claim, b: Claim) {
    && n in y.drains && y.drains[n].Owner() == Some(a) && b in y.drains[n].targets
    && IsRunning(y, a) && IsRunning(y, b)
  }

  ghost predicate WaitsFor(y: System, a: Claim, b: Claim) {
    exists n :: WaitsThrough(y, n, a, b)
  }

  ghost predicate IsWaitPath(y: System, p: seq<Claim>) {
    0 < |p| && forall i, j | 0 <= i < |p| && 0 <= j < |p| && j == i + 1 :: WaitsFor(y, p[i], p[j])
  }

  ghost predicate IsPathFrom(y: System, p: seq<Claim>, a: Claim, b: Claim) {
    IsWaitPath(y, p) && p[0] == a && p[|p| - 1] == b
  }

  ghost predicate Reaches(y: System, a: Claim, b: Claim) {
    exists p :: IsPathFrom(y, p, a, b)
  }

  // Some handoffs wait for each other in a circle.
  ghost predicate Deadlocked(y: System) {
    exists p :: IsWaitPath(y, p) && 2 <= |p| && p[0] == p[|p| - 1]
  }

  lemma PathOfOne(y: System, a: Claim)
    ensures Reaches(y, a, a)
  {
    assert IsPathFrom(y, [a], a, a);
  }

  lemma PathExtends(y: System, x: Claim, p: seq<Claim>)
    requires IsWaitPath(y, p) && WaitsFor(y, x, p[0])
    ensures IsWaitPath(y, [x] + p)
  {
    var q := [x] + p;
    forall i, j | 0 <= i < |q| && 0 <= j < |q| && j == i + 1 ensures WaitsFor(y, q[i], q[j]) {
      if 0 < i {
        assert q[i] == p[i - 1] && q[j] == p[j - 1];
      }
    }
  }

  lemma WaitingReaches(y: System, x: Claim, a: Claim, b: Claim)
    requires WaitsFor(y, x, a) && Reaches(y, a, b)
    ensures Reaches(y, x, b)
  {
    var p :| IsPathFrom(y, p, a, b);
    PathExtends(y, x, p);
    assert IsPathFrom(y, [x] + p, x, b);
  }

  // Every wait of `y` is a wait of `z`.
  ghost predicate WaitsPersist(y: System, z: System) {
    forall n, a, b | WaitsThrough(y, n, a, b) :: WaitsThrough(z, n, a, b)
  }

  lemma PathsPersist(y: System, z: System, p: seq<Claim>)
    requires WaitsPersist(y, z) && IsWaitPath(y, p)
    ensures IsWaitPath(z, p)
  {
    forall i, j | 0 <= i < |p| && 0 <= j < |p| && j == i + 1 ensures WaitsFor(z, p[i], p[j]) {
      var n :| WaitsThrough(y, n, p[i], p[j]);
      assert WaitsThrough(z, n, p[i], p[j]);
    }
  }

  // ----- ranks -----

  // Whoever waits ranks above whom it waits for.
  ghost predicate Ranks(y: System, rank: Claim -> nat) {
    forall n, a, b | WaitsThrough(y, n, a, b) :: rank(b) < rank(a)
  }

  lemma {:induction false} RankFalls(y: System, rank: Claim -> nat, p: seq<Claim>)
    requires Ranks(y, rank) && IsWaitPath(y, p)
    ensures rank(p[|p| - 1]) + |p| - 1 <= rank(p[0])
  {
    if 1 < |p| {
      assert WaitsFor(y, p[0], p[1]);
      var n :| WaitsThrough(y, n, p[0], p[1]);
      var rest := p[1..];
      forall i, j | 0 <= i < |rest| && 0 <= j < |rest| && j == i + 1 ensures WaitsFor(y, rest[i], rest[j]) {
        assert rest[i] == p[i + 1] && rest[j] == p[j + 1];
      }
      RankFalls(y, rank, rest);
    }
  }

  // The waits can be ranked, and who waits unguarded has itself been taken over.
  ghost predicate WaitsOk(y: System) {
    && (exists rank :: Ranks(y, rank))
    && (forall n, a, b | WaitsThrough(y, n, a, b) && !y.drains[n].guarded :: !Owns(y.reg, a))
  }

  lemma WaitForGraphIsAcyclic(y: System)
    requires WaitsOk(y)
    ensures !Deadlocked(y)
  {
    if Deadlocked(y) {
      var p :| IsWaitPath(y, p) && 2 <= |p| && p[0] == p[|p| - 1];
      var rank :| Ranks(y, rank);
      RankFalls(y, rank, p);
      assert false;
    }
  }

  // ----- steps -----

  lemma WaitsAfterBegin(y: System, caller: Caller, targets: set<Claim>, guarded: bool, r: Releaser, n: nat, a: Claim,
      b: Claim)
    requires TargetsOk(y)
    ensures WaitsThrough(BeginDrain(y, caller, targets, guarded, r), n, a, b) <==>
              || WaitsThrough(y, n, a, b)
              || (n == y.nextDrain && caller.Owner() == Some(a) && b in targets && IsRunning(y, a) && IsRunning(y, b))
  {
  }

  lemma OwnersAfterBegin(y: System, caller: Caller, targets: set<Claim>, guarded: bool, r: Releaser, c: Claim)
    requires IndexOk(y.reg)
    ensures Owns(BeginDrain(y, caller, targets, guarded, r).reg, c) <==> Owns(y.reg, c) && c !in targets
  {
    RemoveAllKeepsIndex(y.reg, targets);
    assert Owns(BeginDrain(y, caller, targets, guarded, r).reg, c) <==> Owns(RemoveAll(y.reg, targets), c);
  }

  // A live claim that no cancellation protects waits for nobody, and nobody waits for it.
  lemma SelectableWaitsForNobody(y: System, t: Claim, n: nat, a: Claim, b: Claim)
    requires Invariant(y) && WaitsOk(y) && t in y.reg.info && Owns(y.reg, t) && Protection(y.reg, t) == 0
    requires WaitsThrough(y, n, a, b)
    ensures a != t && b != t
  {
    assert ClaimOk(y, t);
    assert Guards(y, t) == {};
    assert y.drains[n].guarded ==> n in Guards(y, a);
  }

  lemma CancelKeepsWaits(y: System, caller: Caller, targets: set<Claim>)
    requires Invariant(y) && WaitsOk(y)
    requires forall t | t in targets :: t in y.reg.info && Owns(y.reg, t) && !Excluded(y.reg, t, caller.Owner())
    ensures WaitsOk(BeginDrain(y, caller, targets, true, ByCancel))
  {
    var z := BeginDrain(y, caller, targets, true, ByCancel);
    var rank :| Ranks(y, rank);
    var raised: Claim -> nat := c => if c in targets then 0 else rank(c) + 1;
    forall n, a, b | WaitsThrough(z, n, a, b)
      ensures raised(b) < raised(a) && (!z.drains[n].guarded ==> !Owns(z.reg, a))
    {
      WaitsAfterBegin(y, caller, targets, true, ByCancel, n, a, b);
      OwnersAfterBegin(y, caller, targets, true, ByCancel, a);
      if WaitsThrough(y, n, a, b) {
        forall t | t in targets ensures t != a && t != b {
          SelectableWaitsForNobody(y, t, n, a, b);
        }
      }
    }
    assert Ranks(z, raised);
  }

  // A discard leads to a deadlock if its caller's handoff and the discarded one both run, it does
  // not run in the discarded handoff's own task, and either the caller's claim is still live or the
  // discarded handoff is already waiting for the caller's.
  ghost predicate Hazardous(y: System, a: Action) {
    && a.Discard? && Owns(y.reg, a.c) && IsRunning(y, a.c) && a.caller != InHandoff(a.c)
    && a.caller.Owner().Some? && IsRunning(y, a.caller.claim)
    && (Owns(y.reg, a.caller.claim) || Reaches(y, a.c, a.caller.claim))
  }

  lemma DiscardKeepsWaits(y: System, caller: Caller, c: Claim)
    requires Invariant(y) && WaitsOk(y) && Owns(y.reg, c) && caller != InHandoff(c) && !Hazardous(y, Discard(caller, c))
    ensures WaitsOk(BeginDrain(y, caller, {c}, false, ByDiscard))
  {
    var z := BeginDrain(y, caller, {c}, false, ByDiscard);
    var rank :| Ranks(y, rank);
    ghost var raised := LiftAbove(y, caller, c, rank);
    forall n, a, b | WaitsThrough(z, n, a, b)
      ensures raised(b) < raised(a) && (!z.drains[n].guarded ==> !Owns(z.reg, a))
    {
      WaitsAfterBegin(y, caller, {c}, false, ByDiscard, n, a, b);
      OwnersAfterBegin(y, caller, {c}, false, ByDiscard, a);
      if WaitsThrough(y, n, a, b) {
        LiftRespectsWaits(y, caller, c, rank, n, a, b);
      } else {
        PathOfOne(y, a);
      }
    }
    assert Ranks(z, raised);
  }

  // Ranks everybody who waits for the caller above `c`.
  ghost function LiftAbove(y: System, caller: Caller, c: Claim, rank: Claim -> nat): Claim -> nat {
    (x: Claim) => if caller != Outside && Reaches(y, x, caller.claim) then rank(x) + rank(c) + 1 else rank(x)
  }

  lemma LiftRespectsWaits(y: System, caller: Caller, c: Claim, rank: Claim -> nat, n: nat, a: Claim, b: Claim)
    requires Ranks(y, rank) && WaitsThrough(y, n, a, b)
    ensures LiftAbove(y, caller, c, rank)(b) < LiftAbove(y, caller, c, rank)(a)
  {
    if caller != Outside && Reaches(y, b, caller.claim) {
      WaitingReaches(y, a, b, caller.claim);
    }
  }

  // Any other step only ends waits.
  lemma OtherStepWaits(y: System, x: Action, n: nat, a: Claim, b: Claim)
    requires Invariant(y) && Enabled(y, x) && !x.Discard? && !x.CancelReply? && !x.CancelScope?
    requires WaitsThrough(Apply(y, x), n, a, b)
    ensures WaitsThrough(y, n, a, b)
  {
    if x.StartHandoff? && x.c in y.reg.info {
      assert ClaimOk(y, x.c);
    }
  }

  lemma ReleaseKeepsWaits(y: System, x: Action, a: Claim)
    requires Invariant(y) && Enabled(y, x) && !x.Discard? && !x.CancelReply? && !x.CancelScope?
    requires a in y.tasks && Owns(Apply(y, x).reg, a)
    ensures Owns(y.reg, a)
  {
    if x.FinishHandoff? && Owns(y.reg, x.c) {
      RemoveIsByIdentity(y.reg, x.c);
      RemoveAllKeepsIndex(y.reg, {x.c});
    } else if !x.FinishHandoff? && !x.EndDrain? {
      RegistryStepKeepsOwners(y, x, a);
    }
  }

  lemma OtherStepKeepsWaits(y: System, x: Action)
    requires Invariant(y) && WaitsOk(y) && Enabled(y, x) && !x.Discard? && !x.CancelReply? && !x.CancelScope?
    ensures WaitsOk(Apply(y, x))
  {
    var z := Apply(y, x);
    var rank :| Ranks(y, rank);
    forall n, a, b | WaitsThrough(z, n, a, b)
      ensures rank(b) < rank(a) && (!z.drains[n].guarded ==> !Owns(z.reg, a))
    {
      OtherStepWaits(y, x, n, a, b);
      DrainsAfterStep(y, x, n);
      if Owns(z.reg, a) {
        ReleaseKeepsWaits(y, x, a);
      }
    }
    assert Ranks(z, rank);
  }

  lemma OwnersAfterRelease(y: System, c: Claim, a: Claim)
    requires IndexOk(y.reg) && c in y.reg.info && c in y.tasks
    ensures Owns(Released(y, c, ByDiscard, y.tasks[c]).reg, a) ==> Owns(y.reg, a)
  {
  }

  lemma OwnReleaseKeepsWaits(y: System, c: Claim)
    requires Invariant(y) && WaitsOk(y) && c in y.reg.info && c in y.tasks
    ensures WaitsOk(Released(y, c, ByDiscard, y.tasks[c]))
  {
    var z := Released(y, c, ByDiscard, y.tasks[c]);
    var rank :| Ranks(y, rank);
    forall n, a, b | WaitsThrough(z, n, a, b)
      ensures WaitsThrough(y, n, a, b) && (Owns(z.reg, a) ==> Owns(y.reg, a))
    {
      OwnersAfterRelease(y, c, a);
    }
    assert Ranks(z, rank);
  }

  lemma StepKeepsWaits(y: System, x: Action)
    requires Invariant(y) && WaitsOk(y) && Enabled(y, x) && !Hazardous(y, x)
    ensures WaitsOk(Apply(y, x))
  {
    if x.CancelReply? || x.CancelScope? {
      SelectedAreLive(y, x);
      var targets := if x.CancelReply? then SelectReply(y.reg, x.scope, x.replyId, x.caller.Owner())
                     else SelectScope(y.reg, x.within, x.caller.Owner());
      if targets != {} {
        CancelKeepsWaits(y, x.caller, targets);
      }
    } else if x.Discard? {
      if Owns(y.reg, x.c) && x.c in y.reg.info {
        if x.caller == InHandoff(x.c) {
          SelfDiscardIsRelease(y, x);
          OwnReleaseKeepsWaits(y, x.c);
        } else {
          DiscardKeepsWaits(y, x.caller, x.c);
        }
      }
    } else {
      OtherStepKeepsWaits(y, x);
    }
  }

  // ----- runs -----

  ghost predicate IsSafeRun(ys: seq<System>, actions: seq<Action>) {
    IsRun(ys, actions) && forall i: nat | i < |actions| :: !Hazardous(ys[i], actions[i])
  }

  lemma {:induction false} SafeRunKeepsWaits(ys: seq<System>, actions: seq<Action>, i: nat)
    requires IsSafeRun(ys, actions) && Invariant(ys[0]) && WaitsOk(ys[0]) && i < |ys|
    ensures WaitsOk(ys[i])
  {
    if 0 < i {
      SafeRunKeepsWaits(ys, actions, i - 1);
      RunKeepsInvariant(ys, actions, i - 1);
      assert StepsAt(ys, actions, i - 1);
      StepKeepsWaits(ys[i - 1], actions[i - 1]);
    }
  }

  lemma InitialWaitsOk(y: System)
    requires Initial(y)
    ensures WaitsOk(y)
  {
    var rank: Claim -> nat := c => 0;
    assert Ranks(y, rank);
  }

  // In every state that a run without hazardous discards reaches, no handoff waits for itself,
  // directly or through others, and no handoff is waited for by two drains.
  lemma ReachableWaitsAreAcyclic(ys: seq<System>, actions: seq<Action>, i: nat)
    requires IsSafeRun(ys, actions) && Initial(ys[0]) && i < |ys|
    ensures !Deadlocked(ys[i])
    ensures forall n, m, a, b, c | WaitsThrough(ys[i], n, a, c) && WaitsThrough(ys[i], m, b, c) :: n == m && a == b
  {
    InitialSatisfiesInvariant(ys[0]);
    InitialWaitsOk(ys[0]);
    RunKeepsInvariant(ys, actions, i);
    SafeRunKeepsWaits(ys, actions, i);
    WaitForGraphIsAcyclic(ys[i]);
  }

  // No discard from outside every handoff is hazardous, and none that a handoff's own task makes of
  // its own claim.
  lemma OutsideDiscardsAreSafe(y: System, x: Action)
    requires x.Discard? ==> x.caller.Outside? || x.caller == InHandoff(x.c)
    ensures !Hazardous(y, x)
  {
  }

  // ----- some drain can always finish -----

  lemma {:induction false} LowestRanked(y: System, s: set<nat>, rank: Claim -> nat) returns (n: nat)
    requires s != {} && forall m | m in s :: m in y.drains && y.drains[m].caller != Outside
    ensures n in s && forall m | m in s :: rank(y.drains[n].caller.claim) <= rank(y.drains[m].caller.claim)
    decreases |s|
  {
    n :| n in s;
    var rest := s - {n};
    assert s == rest + {n};
    if rest != {} {
      var m := LowestRanked(y, rest, rank);
      if rank(y.drains[m].caller.claim) < rank(y.drains[n].caller.claim) {
        n := m;
      }
    }
  }

  // Of several drains, one waits only for handoffs whose own tasks wait in none of them.
  lemma FinishableDrain(y: System, s: set<nat>, rank: Claim -> nat) returns (n: nat)
    requires s != {} && CallersOk(y) && forall m | m in s :: m in y.drains
    requires forall m, a, b | m in s && WaitsThrough(y, m, a, b) :: rank(b) < rank(a)
    ensures n in s
    ensures forall m, t | m in s && t in y.drains[n].targets && IsRunning(y, t) :: y.drains[m].caller != InHandoff(t)
  {
    var inTask := set m | m in s && y.drains[m].caller.InHandoff?;
    if inTask == {} {
      n :| n in s;
      assert forall m | m in s :: m !in inTask;
    } else {
      n := LowestRanked(y, inTask, rank);
      forall m, t | m in s && t in y.drains[n].targets && IsRunning(y, t) ensures y.drains[m].caller != InHandoff(t) {
        if y.drains[m].caller == InHandoff(t) {
          assert m in inTask && WaitsThrough(y, n, y.drains[n].caller.claim, t);
        }
      }
    }
  }

  // Whenever drains are in progress, one of them waits only for handoffs that can end.
  lemma DrainsNeverDeadlock(y: System) returns (n: nat)
    requires Invariant(y) && WaitsOk(y) && y.drains != map[]
    ensures n in y.drains && forall t | t in y.drains[n].targets && IsRunning(y, t) :: Enabled(y, EndTask(t, Returned))
  {
    var rank :| Ranks(y, rank);
    n := FinishableDrain(y, y.drains.Keys, rank);
    forall t | t in y.drains[n].targets && IsRunning(y, t) ensures !IsBlocked(y, t) {
      assert forall m | m in y.drains :: m in y.drains.Keys;
    }
  }

  // ----- hazardous discards -----

  // Some run of further steps, none of them a hazardous discard, ends in a circle of waits.
  ghost predicate CanDeadlock(y: System) {
    exists ys, actions :: IsSafeRun(ys, actions) && ys[0] == y && Deadlocked(ys[|ys| - 1])
  }

  lemma DeadlockedNow(y: System)
    requires Deadlocked(y)
    ensures CanDeadlock(y)
  {
    var ys, actions: seq<Action> := [y], [];
    assert IsSafeRun(ys, actions) && ys[0] == y && Deadlocked(ys[|ys| - 1]);
  }

  lemma DeadlockAfter(y: System, x: Action)
    requires Enabled(y, x) && !Hazardous(y, x) && CanDeadlock(Apply(y, x))
    ensures CanDeadlock(y)
  {
    var ys, actions :| IsSafeRun(ys, actions) && ys[0] == Apply(y, x) && Deadlocked(ys[|ys| - 1]);
    var zs, all := [y] + ys, [x] + actions;
    forall i: nat | i < |all| ensures StepsAt(zs, all, i) && !Hazardous(zs[i], all[i]) {
      if 0 < i {
        assert StepsAt(ys, actions, i - 1);
        assert zs[i] == ys[i - 1] && all[i] == actions[i - 1] && zs[i + 1] == ys[i - 1 + 1];
      }
    }
    assert zs[|zs| - 1] == ys[|ys| - 1];
    assert IsSafeRun(zs, all) && zs[0] == y && Deadlocked(zs[|zs| - 1]);
  }

  // Two handoffs that wait for each other.
  lemma TwoDeadlock(y: System, a: Claim, b: Claim)
    requires WaitsFor(y, a, b) && Reaches(y, b, a)
    ensures Deadlocked(y)
  {
    var p :| IsPathFrom(y, p, b, a);
    PathExtends(y, a, p);
  }

  // After a discard of `c` by the live `a`: drain `first` makes `a` wait for `c`, and all other
  // waits are ranked.
  ghost predicate Armed(y: System, first: nat, a: Claim, c: Claim, rank: Claim -> nat) {
    && Invariant(y) && WaitsThrough(y, first, a, c) && !y.drains[first].guarded
    && a in y.reg.info && Owns(y.reg, a) && a != c
    && forall n, b, d | n != first && WaitsThrough(y, n, b, d) :: rank(d) < rank(b)
  }

  // Whoever replies to a live claim that nothing protects takes it over.
  lemma CancelTakesOver(y: System, caller: Caller, a: Claim)
    requires Invariant(y) && CanCall(y, caller) && Owns(y.reg, a) && caller.Owner() != Some(a)
    requires forall n | n in y.drains && y.drains[n].guarded :: y.drains[n].Owner() != Some(a)
    ensures var x := CancelReply(caller, a.scope, a.voiceId);
            Enabled(y, x) && Apply(y, x) == BeginDrain(y, caller, {a}, true, ByCancel)
  {
    assert Guards(y, a) == {};
    assert a.VoiceKey() == (a.scope, a.voiceId) && SelectReply(y.reg, a.scope, a.voiceId, caller.Owner()) == {a};
  }

  // With no drain but `first` running under a claim, `c` can cancel `a`.
  lemma AnswerDeadlocks(y: System, first: nat, a: Claim, c: Claim, rank: Claim -> nat)
    requires Armed(y, first, a, c, rank)
    requires forall n | n in y.drains && n != first :: y.drains[n].caller == Outside
    ensures CanDeadlock(y)
  {
    var x := CancelReply(InHandoff(c), a.scope, a.voiceId);
    var z := BeginDrain(y, InHandoff(c), {a}, true, ByCancel);
    CancelTakesOver(y, InHandoff(c), a);
    WaitsAfterBegin(y, InHandoff(c), {a}, true, ByCancel, first, a, c);
    WaitsAfterBegin(y, InHandoff(c), {a}, true, ByCancel, y.nextDrain, c, a);
    PathOfOne(z, a);
    WaitingReaches(z, c, a, a);
    TwoDeadlock(z, a, c);
    DeadlockedNow(z);
    DeadlockAfter(y, x);
  }

  // The end of a drain other than `first`, or of a task other than the two, leaves them armed.
  lemma StaysArmed(y: System, first: nat, a: Claim, c: Claim, rank: Claim -> nat, x: Action)
    requires Armed(y, first, a, c, rank) && Enabled(y, x)
    requires if x.EndTask? then x.c != a && x.c != c else x.EndDrain? && x.n != first
    ensures Armed(Apply(y, x), first, a, c, rank)
  {
    StepKeepsInvariant(y, x);
    var z := Apply(y, x);
    assert Owns(z.reg, a) <==> Owns(y.reg, a);
    forall n, b, d | n != first && WaitsThrough(z, n, b, d) ensures rank(d) < rank(b) {
      OtherStepWaits(y, x, n, b, d);
    }
  }

  // The running targets of a drain.
  function RunningTargets(y: System, n: nat): set<Claim>
    requires n in y.drains
  {
    set t | t in y.drains[n].targets && IsRunning(y, t)
  }

  // Every other drain can be waited out first.
  lemma {:induction false} ArmedDeadlocks(y: System, first: nat, a: Claim, c: Claim, rank: Claim -> nat)
    requires Armed(y, first, a, c, rank)
    ensures CanDeadlock(y)
    decreases |y.drains|
  {
    var others := set n | n in y.drains && n != first && y.drains[n].caller != Outside;
    if others == {} {
      assert forall n | n in y.drains && n != first :: n !in others;
      AnswerDeadlocks(y, first, a, c, rank);
    } else {
      var n := FinishableDrain(y, others, rank);
      EndTargets(y, first, a, c, rank, n);
    }
  }

  lemma {:induction false} EndTargets(y: System, first: nat, a: Claim, c: Claim, rank: Claim -> nat, n: nat)
    requires Armed(y, first, a, c, rank) && n in y.drains && n != first
    requires forall t | t in RunningTargets(y, n) :: !IsBlocked(y, t)
    ensures CanDeadlock(y)
    decreases |y.drains|, |RunningTargets(y, n)|
  {
    if RunningTargets(y, n) == {} {
      DrainEnds(y, first, a, c, rank, n);
      ArmedDeadlocks(Apply(y, EndDrain(n)), first, a, c, rank);
      DeadlockAfter(y, EndDrain(n));
    } else {
      var t :| t in RunningTargets(y, n);
      TargetEnds(y, first, a, c, rank, n, t);
      EndTargets(Apply(y, EndTask(t, Returned)), first, a, c, rank, n);
      DeadlockAfter(y, EndTask(t, Returned));
    }
  }

  lemma DrainEnds(y: System, first: nat, a: Claim, c: Claim, rank: Claim -> nat, n: nat)
    requires Armed(y, first, a, c, rank) && n in y.drains && n != first && RunningTargets(y, n) == {}
    ensures Enabled(y, EndDrain(n))
    ensures var z := Apply(y, EndDrain(n)); Armed(z, first, a, c, rank) && |z.drains| < |y.drains|
  {
    assert forall t | t in y.drains[n].targets :: t !in RunningTargets(y, n);
    StaysArmed(y, first, a, c, rank, EndDrain(n));
    assert Apply(y, EndDrain(n)).drains == y.drains - {n};
  }

  lemma TargetEnds(y: System, first: nat, a: Claim, c: Claim, rank: Claim -> nat, n: nat, t: Claim)
    requires Armed(y, first, a, c, rank) && n in y.drains && n != first
    requires t in RunningTargets(y, n) && !IsBlocked(y, t)
    ensures Enabled(y, EndTask(t, Returned))
    ensures var z := Apply(y, EndTask(t, Returned));
            && Armed(z, first, a, c, rank) && z.drains == y.drains
            && RunningTargets(z, n) == RunningTargets(y, n) - {t}
  {
    assert ClaimOk(y, a);
    assert t != a && t != c;
    StaysArmed(y, first, a, c, rank, EndTask(t, Returned));
  }

  lemma WaitsAfterHazard(y: System, x: Action, n: nat, b: Claim, d: Claim)
    requires Invariant(y) && Enabled(y, x) && Hazardous(y, x)
    ensures WaitsThrough(Apply(y, x), n, b, d) <==>
            WaitsThrough(y, n, b, d) || (n == y.nextDrain && b == x.caller.claim && d == x.c)
    ensures Apply(y, x) == BeginDrain(y, x.caller, {x.c}, false, ByDiscard)
  {
    WaitsAfterBegin(y, x.caller, {x.c}, false, ByDiscard, n, b, d);
  }

  // The discarded handoff waits for the caller's: the circle is closed at once.
  lemma ReachingDiscardDeadlocks(y: System, x: Action)
    requires Invariant(y) && Enabled(y, x) && Hazardous(y, x) && Reaches(y, x.c, x.caller.claim)
    ensures CanDeadlock(Apply(y, x))
  {
    var a, c, z := x.caller.claim, x.c, Apply(y, x);
    forall n, b, d ensures WaitsThrough(y, n, b, d) ==> WaitsThrough(z, n, b, d) {
      WaitsAfterHazard(y, x, n, b, d);
    }
    WaitsAfterHazard(y, x, y.nextDrain, a, c);
    var p :| IsPathFrom(y, p, c, a);
    PathsPersist(y, z, p);
    assert IsPathFrom(z, p, c, a);
    TwoDeadlock(z, a, c);
    DeadlockedNow(z);
  }

  // The caller's claim is live: the discarded handoff can come to wait for it.
  lemma LiveDiscardDeadlocks(y: System, x: Action, rank: Claim -> nat)
    requires Invariant(y) && Ranks(y, rank) && Enabled(y, x) && Hazardous(y, x) && !Reaches(y, x.c, x.caller.claim)
    ensures CanDeadlock(Apply(y, x))
  {
    var a, c, z := x.caller.claim, x.c, Apply(y, x);
    PathOfOne(y, a);
    forall n, b, d | n != y.nextDrain && WaitsThrough(z, n, b, d) ensures rank(d) < rank(b) {
      WaitsAfterHazard(y, x, n, b, d);
    }
    WaitsAfterHazard(y, x, y.nextDrain, a, c);
    StepKeepsInvariant(y, x);
    OwnersAfterBegin(y, x.caller, {c}, false, ByDiscard, a);
    ArmedDeadlocks(z, y.nextDrain, a, c, rank);
  }

  // From any state without hazards so far, a discard can lead to a circle of waits if and only if
  // it is hazardous.
  lemma DiscardsDeadlockExactly(y: System, x: Action)
    requires Invariant(y) && WaitsOk(y) && Enabled(y, x) && x.Discard?
    ensures CanDeadlock(Apply(y, x)) <==> Hazardous(y, x)
  {
    if Hazardous(y, x) {
      if Reaches(y, x.c, x.caller.claim) {
        ReachingDiscardDeadlocks(y, x);
      } else {
        var rank :| Ranks(y, rank);
        LiveDiscardDeadlocks(y, x, rank);
      }
    } else {
      StepKeepsInvariant(y, x);
      StepKeepsWaits(y, x);
      SafeStatesStaySafe(Apply(y, x));
    }
  }

  lemma SafeStatesStaySafe(y: System)
    requires Invariant(y) && WaitsOk(y)
    ensures !CanDeadlock(y)
  {
    forall ys, actions | IsSafeRun(ys, actions) && ys[0] == y ensures !Deadlocked(ys[|ys| - 1]) {
      RunKeepsInvariant(ys, actions, |ys| - 1);
      SafeRunKeepsWaits(ys, actions, |ys| - 1);
      WaitForGraphIsAcyclic(ys[|ys| - 1]);
    }
  }

  // ----- a hazard within reach -----

  lemma RunGrows(ys: seq<System>, actions: seq<Action>, x: Action) returns (zs: seq<System>, all: seq<Action>)
    requires IsSafeRun(ys, actions) && Enabled(ys[|ys| - 1], x) && !x.Discard?
    ensures IsSafeRun(zs, all) && zs[0] == ys[0] && zs[|zs| - 1] == Apply(ys[|ys| - 1], x)
  {
    zs, all := ys + [Apply(ys[|ys| - 1], x)], actions + [x];
    forall i: nat | i < |all| ensures StepsAt(zs, all, i) && !Hazardous(zs[i], all[i]) {
      if i < |actions| {
        assert StepsAt(ys, actions, i);
      }
    }
  }

  // A voice note is reserved, gets its status message, and its handoff starts.
  lemma HandoffStarts(ys: seq<System>, actions: seq<Action>, c: Claim, status: MessageId)
    returns (zs: seq<System>, all: seq<Action>)
    requires IsSafeRun(ys, actions) && c !in ys[|ys| - 1].reg.info && status != c.voiceId
    requires c.VoiceKey() !in ys[|ys| - 1].reg.pending && (c.scope, status) !in ys[|ys| - 1].reg.pending
    ensures IsSafeRun(zs, all) && zs[0] == ys[0]
    ensures var y, z := ys[|ys| - 1], zs[|zs| - 1];
            && z.reg.pending == y.reg.pending[c.VoiceKey() := c][(c.scope, status) := c]
            && z.reg.info == y.reg.info[c := Info(Some(status), true)]
            && z.tasks == y.tasks[c := Running] && z.drains == y.drains
  {
    zs, all := RunGrows(ys, actions, DoReserve(c.scope, c.voiceId, c.claimId));
    zs, all := RunGrows(zs, all, DoBind(c, status));
    zs, all := RunGrows(zs, all, StartHandoff(c));
  }

  lemma TwoHandoffs(a: Claim, b: Claim) returns (ys: seq<System>, actions: seq<Action>)
    requires a == Claim("chat", "1", 1) && b == Claim("chat", "2", 2)
    ensures IsSafeRun(ys, actions) && Initial(ys[0])
    ensures var y := ys[|ys| - 1];
            Owns(y.reg, a) && Owns(y.reg, b) && IsRunning(y, a) && IsRunning(y, b) && y.drains == map[]
  {
    ys, actions := HandoffStarts([System(Registry(map[], map[], map[]), map[], map[], 0, map[])], [], a, "3");
    ys, actions := HandoffStarts(ys, actions, b, "4");
  }

  // Two voice notes are being handed off; then one discards the other, and can deadlock with it.
  lemma HazardIsReachable() returns (ys: seq<System>, actions: seq<Action>, x: Action)
    ensures IsSafeRun(ys, actions) && Initial(ys[0])
    ensures Enabled(ys[|ys| - 1], x) && Hazardous(ys[|ys| - 1], x) && CanDeadlock(Apply(ys[|ys| - 1], x))
  {
    var a, b := Claim("chat", "1", 1), Claim("chat", "2", 2);
    ys, actions := TwoHandoffs(a, b);
    x := Discard(InHandoff(a), b);
    ReachableDiscardsDeadlockExactly(ys, actions, x);
  }

  // In particular after any run without hazards so far.
  lemma ReachableDiscardsDeadlockExactly(ys: seq<System>, actions: seq<Action>, x: Action)
    requires IsSafeRun(ys, actions) && Initial(ys[0]) && Enabled(ys[|ys| - 1], x) && x.Discard?
    ensures CanDeadlock(Apply(ys[|ys| - 1], x)) <==> Hazardous(ys[|ys| - 1], x)
  {
    InitialSatisfiesInvariant(ys[0]);
    InitialWaitsOk(ys[0]);
    RunKeepsInvariant(ys, actions, |ys| - 1);
    SafeRunKeepsWaits(ys, actions, |ys| - 1);
    DiscardsDeadlockExactly(ys[|ys| - 1], x);
  }
}
