// The waiting loops of the controller and the non-streaming retry loop over them, with everybody
// else acting at every suspension.
module AdmissionRetry {
  import opened Wrappers
  import opened RetrySessions
  import opened AdmissionProtocol
  import opened AdmissionController
  import opened AdmissionAttempts
  import opened AdmissionBystanders
  import opened AdmissionInvariant
  import AdmissionSystem

  // What another session, known by its index, can do while the caller is suspended.
  datatype OtherStep =
    | PassesGate(i: nat, now: real)
    | StopsFollowing(i: nat, generation: nat)
    | ReturnsToLead(i: nat, generation: nat)
    | GivesUpLead(i: nat, generation: nat)
    | Claims(i: nat)
    | Answers(i: nat, permit: Permit)
    | Corrects(i: nat, permit: Permit, now: real)
    | Abandons(i: nat, permit: Permit, now: real)
    | Fails(i: nat, permit: Permit, error: Failure, now: real, later: real, delay: real, terminalDelay: real)
    | TakesSlot
    | GivesSlotBack

  // Everybody else and the clock, as one caller meets them: what happens in its k-th suspension,
  // and after how many suspensions it is cancelled.
  class World {
    const controller: ProviderAdmissionController
    const others: seq<ProviderRetrySession>
    const script: nat -> seq<OtherStep>
    const clock: nat -> real
    var suspensions: nat
    var readings: nat
    var patience: nat
    ghost var slotsByOthers: int   // given back by others, less those taken

    ghost predicate Valid(session: ProviderRetrySession)
      reads this, controller, controller.episode, controller.sessions
    {
      && controller.Valid() && session in controller.sessions && session !in others
      && (forall s | s in others :: s in controller.sessions)
      && Tidy(controller.View(), session)
    }

    // The slots that would be free had nobody else taken or given back any.
    ghost function OwnFree(): int
      reads this, controller
    {
      controller.freeSlots - slotsByOthers
    }

    constructor (controller: ProviderAdmissionController, others: seq<ProviderRetrySession>,
                 script: nat -> seq<OtherStep>, clock: nat -> real, patience: nat)
      ensures this.controller == controller && this.others == others && this.patience == patience
    {
      this.controller, this.others, this.script, this.clock := controller, others, script, clock;
      this.patience := patience;
      suspensions, readings, slotsByOthers := 0, 0, 0;
    }

    method Now() returns (now: real)
      modifies this`readings
      ensures now == clock(old(readings)) && readings == old(readings) + 1
    {
      now := clock(readings);
      readings := readings + 1;
    }

    // True if the caller is cancelled in this suspension.
    method Suspend(session: ProviderRetrySession) returns (cancelled: bool)
      requires Valid(session)
      modifies this`suspensions, this`patience, this`slotsByOthers
      modifies controller`episode, controller`nextGeneration, controller`notifications, controller`freeSlots
      modifies controller.episode, controller.sessions
      ensures Valid(session) && Bystands(old(controller.View()), controller.View(), session)
      ensures controller.episode == old(controller.episode) || controller.episode == null || fresh(controller.episode)
      ensures OwnFree() == old(OwnFree())
      ensures cancelled == (old(patience) == 0) && patience == if cancelled then 0 else old(patience) - 1
    {
      var steps := script(suspensions);
      suspensions := suspensions + 1;
      for k := 0 to |steps|
        invariant Valid(session) && Bystands(old(controller.View()), controller.View(), session)
        invariant controller.episode == old(controller.episode) || controller.episode == null
                  || fresh(controller.episode)
        invariant OwnFree() == old(OwnFree())
        invariant patience == old(patience)
      {
        Act(steps[k], session);
      }
      cancelled := patience == 0;
      patience := if cancelled then 0 else patience - 1;
    }

    method Act(step: OtherStep, ghost session: ProviderRetrySession)
      requires Valid(session)
      modifies this`slotsByOthers
      modifies controller`episode, controller`nextGeneration, controller`notifications, controller`freeSlots
      modifies controller.episode, controller.sessions
      ensures Valid(session) && Bystands(old(controller.View()), controller.View(), session)
      ensures controller.episode == old(controller.episode) || controller.episode == null || fresh(controller.episode)
      ensures OwnFree() == old(OwnFree())
    {
      if step.TakesSlot? {
        if 0 < controller.freeSlots {
          controller.TakeSlot();
          slotsByOthers := slotsByOthers - 1;
        }
      } else if step.GivesSlotBack? {
        controller.ReleaseConcurrency();
        slotsByOthers := slotsByOthers + 1;
      } else if others != [] {
        ActAs(others[step.i % |others|], step, session);
      }
    }

    method ActAs(s: ProviderRetrySession, step: OtherStep, ghost session: ProviderRetrySession)
      requires Valid(session) && s in others && !step.TakesSlot? && !step.GivesSlotBack?
      modifies controller`episode, controller`nextGeneration, controller`notifications
      modifies controller.episode, controller.sessions
      ensures Valid(session) && Bystands(old(controller.View()), controller.View(), session)
      ensures controller.episode == old(controller.episode) || controller.episode == null || fresh(controller.episode)
    {
      ghost var c := controller.View();
      match step
      case PassesGate(_, now) =>
        GateBystands(c, s, now, session);
        var _ := controller.PassGate(s, now);
      case StopsFollowing(_, generation) =>
        WaiterBystands(c, s, generation, session);
        controller.FollowerCancelled(s, generation);
      case ReturnsToLead(_, generation) =>
        WaiterBystands(c, s, generation, session);
        var _ := controller.LeaderReturns(s, generation);
      case GivesUpLead(_, generation) =>
        WaiterBystands(c, s, generation, session);
        controller.LeaderCancelled(s, generation);
      case Claims(_) => ClaimBystands(controller, s, session);
      case Answers(_, permit) =>
        AnswerBystands(c, s, permit, 0.0, session);
        controller.AttemptAnswered(s, permit);
      case Corrects(_, permit, now) =>
        AnswerBystands(c, s, permit, now, session);
        controller.AttemptCorrected(s, permit, now);
      case Abandons(_, permit, now) =>
        AnswerBystands(c, s, permit, now, session);
        controller.AttemptAbandoned(s, permit, now);
      case Fails(_, permit, error, now, later, delay, terminalDelay) =>
        FailureBystands(c, s, permit, error, now, later, delay, terminalDelay, session);
        var _ := controller.AttemptFails(s, permit, error, now, later, delay, terminalDelay);
    }
  }

  method ClaimBystands(c: ProviderAdmissionController, s: ProviderRetrySession, ghost session: ProviderRetrySession)
    requires c.Valid() && s in c.sessions && session in c.sessions && s != session && Tidy(c.View(), session)
    modifies s
    ensures c.Valid() && Bystands(old(c.View()), c.View(), session)
  {
    var _ := s.ClaimAttempt();
  }

  // ----- opening an attempt -----

  datatype GateResult = Permitted(permit: Permit) | Shed(error: Failure) | CancelledAtGate

  // Where the gate leaves a session: with a good permit, turned away, or cancelled and out of the
  // recovery.
  predicate GateLeft(c: Core, session: ProviderRetrySession, g: GateResult) {
    match g
    case Permitted(permit) => Holds(c, session, permit) && PermitIsCurrent(c, session, permit)
    case Shed(error) => IsAway(c, session) && IsTurnedAway(c, session, error)
    case CancelledAtGate => IsAway(c, session)
  }

  // One suspension at the gate and what follows it; None where the gate is passed again.
  method WaitAtGate(world: World, session: ProviderRetrySession, o: GateOutcome) returns (g: Option<GateResult>)
    requires world.Valid(session) && IsSuspended(world.controller.View(), session, o)
    modifies world, world.controller.episode, world.controller.sessions
    modifies world.controller`episode, world.controller`nextGeneration, world.controller`notifications,
             world.controller`freeSlots
    ensures world.Valid(session) && session.attemptsStarted == old(session.attemptsStarted)
    ensures var c := world.controller; c.episode == old(c.episode) || c.episode == null || fresh(c.episode)
    ensures world.OwnFree() == old(world.OwnFree())
    ensures world.patience <= old(world.patience) && (g.None? ==> world.patience < old(world.patience))
    ensures !o.WaitsOnOwnProbe? ==>
              var c := world.controller.View();
              if g.Some? then GateLeft(c, session, g.value) else !Probes(c, session)
    ensures o.WaitsOnOwnProbe? && g.Some? ==> g.value.CancelledAtGate?
    ensures g.Some? && g.value.CancelledAtGate? ==> world.patience == 0
  {
    var c := world.controller;
    ghost var before := c.View();
    var cancelled := world.Suspend(session);
    SuspensionSurvives(before, c.View(), session, o);
    match o {
      case WaitsAsFollower(generation) =>
        if cancelled {
          OwnLeave(c.View(), session, generation);
          c.FollowerCancelled(session, generation);
        }
      case WaitsOnOwnProbe =>
      case BacksOff(_, generation) =>
        OwnReturn(c.View(), session, generation);
        if cancelled {
          c.LeaderCancelled(session, generation);
        } else {
          var permit := c.LeaderReturns(session, generation);
          if permit.Some? {
            return Some(Permitted(permit.value));
          }
        }
    }
    return if cancelled then Some(CancelledAtGate) else None;
  }

  method PassOnce(world: World, session: ProviderRetrySession) returns (o: GateOutcome)
    requires world.Valid(session)
    modifies world`readings, world.controller`episode, world.controller`nextGeneration, world.controller.episode
    ensures world.Valid(session)
    ensures world.controller.episode == old(world.controller.episode) || fresh(world.controller.episode)
    ensures var c := world.controller.View();
            match o
            case Granted(permit) => GateLeft(c, session, Permitted(permit))
            case Exhausted(error) => GateLeft(c, session, Shed(error))
            case _ => IsSuspended(c, session, o)
    ensures o.WaitsOnOwnProbe? ==> old(Probes(world.controller.View(), session))
  {
    var now := world.Now();
    OwnGate(world.controller.View(), session, now);
    o := world.controller.PassGate(session, now);
  }

  // The waiting loop of the gate. A session that came with its own probe out, which sequential
  // driving rules out, keeps it if it is cancelled.
  method WaitForGate(world: World, session: ProviderRetrySession) returns (g: GateResult)
    requires world.Valid(session)
    modifies world, world.controller.episode, world.controller.sessions
    modifies world.controller`episode, world.controller`nextGeneration, world.controller`notifications,
             world.controller`freeSlots
    ensures world.Valid(session) && session.attemptsStarted == old(session.attemptsStarted)
    ensures var c := world.controller; c.episode == old(c.episode) || c.episode == null || fresh(c.episode)
    ensures world.OwnFree() == old(world.OwnFree()) && world.patience <= old(world.patience)
    ensures GateLeft(world.controller.View(), session, g)
            || (g.CancelledAtGate? && old(Probes(world.controller.View(), session)))
    ensures g.CancelledAtGate? ==> world.patience == 0
  {
    var c := world.controller;
    while true
      invariant world.Valid(session) && session.attemptsStarted == old(session.attemptsStarted)
      invariant c.episode == old(c.episode) || c.episode == null || fresh(c.episode)
      invariant world.OwnFree() == old(world.OwnFree()) && world.patience <= old(world.patience)
      invariant Probes(c.View(), session) ==> old(Probes(world.controller.View(), session))
      decreases world.patience
    {
      var o := PassOnce(world, session);
      if o.Granted? {
        return Permitted(o.permit);
      }
      if o.Exhausted? {
        return Shed(o.error);
      }
      var waited := WaitAtGate(world, session, o);
      if waited.Some? {
        return waited.value;
      }
    }
  }

  datatype OpenResult =
    | Open(attempt: ProviderAttempt)
    | Refused(error: Failure)
    | NothingLeft          // "session is exhausted"
    | CancelledOpening

  datatype SlotResult = Held | Stale | CancelledForSlot

  // The semaphore wait, which may suspend the caller even if a slot is free.
  method WaitForFreeSlot(world: World, session: ProviderRetrySession) returns (cancelled: bool)
    requires world.Valid(session)
    modifies world, world.controller.episode, world.controller.sessions
    modifies world.controller`episode, world.controller`nextGeneration, world.controller`notifications,
             world.controller`freeSlots
    ensures world.Valid(session) && Bystands(old(world.controller.View()), world.controller.View(), session)
    ensures var c := world.controller; c.episode == old(c.episode) || c.episode == null || fresh(c.episode)
    ensures world.OwnFree() == old(world.OwnFree()) && world.patience <= old(world.patience)
    ensures if cancelled then world.patience == 0 else 0 < world.controller.freeSlots
  {
    var c := world.controller;
    ghost var before := c.View();
    cancelled := world.Suspend(session);
    while !cancelled && c.freeSlots == 0
      invariant world.Valid(session) && Bystands(before, c.View(), session)
      invariant c.episode == old(c.episode) || c.episode == null || fresh(c.episode)
      invariant world.OwnFree() == old(world.OwnFree()) && world.patience <= old(world.patience)
      invariant cancelled ==> world.patience == 0
      decreases !cancelled, world.patience
    {
      ghost var here := c.View();
      cancelled := world.Suspend(session);
      BystandsTwice(before, here, c.View(), session);
    }
  }

  // A caller cancelled after it was granted the slot gives it back.
  method TakeFreeSlot(world: World, session: ProviderRetrySession) returns (held: bool)
    requires world.Valid(session)
    modifies world, world.controller.episode, world.controller.sessions
    modifies world.controller`episode, world.controller`nextGeneration, world.controller`notifications,
             world.controller`freeSlots
    ensures world.Valid(session) && Bystands(old(world.controller.View()), world.controller.View(), session)
    ensures var c := world.controller; c.episode == old(c.episode) || c.episode == null || fresh(c.episode)
    ensures world.OwnFree() == old(world.OwnFree()) - if held then 1 else 0
    ensures world.patience <= old(world.patience) && (!held ==> world.patience == 0)
  {
    ghost var before := world.controller.View();
    var cancelled := WaitForFreeSlot(world, session);
    if cancelled {
      return false;
    }
    ghost var here := world.controller.View();
    world.controller.TakeSlot();
    cancelled := world.Suspend(session);
    BystandsTwice(before, here, world.controller.View(), session);
    if cancelled {
      world.controller.ReleaseConcurrency();
    }
    return !cancelled;
  }

  // A permit is given up, and with it the session's place in the recovery.
  method GiveUp(world: World, session: ProviderRetrySession, permit: Permit)
    requires world.Valid(session) && Holds(world.controller.View(), session, permit)
    modifies world`readings, world.controller`notifications, world.controller.episode
    ensures world.Valid(session) && IsAway(world.controller.View(), session)
  {
    var now := world.Now();
    OwnAbandon(world.controller.View(), session, permit, now);
    world.controller.AttemptAbandoned(session, permit, now);
  }

  // The limiter wait and the semaphore wait of an opener, for a permit. The permit is given up if it
  // has become stale or the caller is cancelled; `met` is what the limiter's admission met, and no slot
  // is waited for under a permit that was stale then.
  method WaitForSlot(world: World, session: ProviderRetrySession, permit: Permit)
    returns (r: SlotResult, ghost met: Core)
    requires world.Valid(session) && Holds(world.controller.View(), session, permit)
    modifies world, world.controller.episode, world.controller.sessions
    modifies world.controller`episode, world.controller`nextGeneration, world.controller`notifications,
             world.controller`freeSlots
    ensures world.Valid(session) && session.attemptsStarted == old(session.attemptsStarted)
    ensures var c := world.controller; c.episode == old(c.episode) || c.episode == null || fresh(c.episode)
    ensures world.OwnFree() == old(world.OwnFree()) - if r.Held? then 1 else 0
    ensures world.patience <= old(world.patience) && (!r.CancelledForSlot? ==> world.patience < old(world.patience))
    ensures if r.Held? then Holds(world.controller.View(), session, permit)
            else IsAway(world.controller.View(), session)
    ensures r.CancelledForSlot? ==> world.patience == 0
    ensures r.Stale? ==> permit.NormalPermit? && world.controller.episode != null
    ensures r.Held? ==> PermitIsCurrent(met, session, permit) && Bystands(met, world.controller.View(), session)
    ensures r.Stale? ==> !PermitIsCurrent(met, session, permit)
  {
    ghost var before := world.controller.View();
    var cancelled := world.Suspend(session);
    met := world.controller.View();
    PermitSurvives(before, met, session, permit);
    if cancelled {
      GiveUp(world, session, permit);
      return CancelledForSlot, met;
    }
    if !world.controller.PermitCurrent(session, permit) {
      GiveUp(world, session, permit);
      return Stale, met;
    }
    var held := TakeFreeSlot(world, session);
    PermitSurvives(met, world.controller.View(), session, permit);
    if held {
      return Held, met;
    }
    GiveUp(world, session, permit);
    return CancelledForSlot, met;
  }

  // Opening an attempt: it comes with one slot, one spent attempt of the budget and a good permit; any
  // other end with none of them, and out of the recovery. A session with budget left is never told
  // that it is exhausted.
  method OpenAttempt(world: World, session: ProviderRetrySession) returns (o: OpenResult)
    requires world.Valid(session)
    modifies world, world.controller.episode, world.controller.sessions
    modifies world.controller`episode, world.controller`nextGeneration, world.controller`notifications,
             world.controller`freeSlots
    ensures world.Valid(session)
    ensures var c := world.controller; c.episode == old(c.episode) || c.episode == null || fresh(c.episode)
    ensures session.attemptsStarted == old(session.attemptsStarted) + if o.Open? then 1 else 0
    ensures world.OwnFree() == old(world.OwnFree()) - if o.Open? then 1 else 0
    ensures o.NothingLeft? <==> session.maxAttempts <= old(session.attemptsStarted)
    ensures o.Open? ==> fresh(o.attempt) && o.attempt.controller == world.controller && o.attempt.session == session
                        && !o.attempt.resolved && !o.attempt.closed
                        && Holds(world.controller.View(), session, o.attempt.permit)
    ensures o.Refused? ==> GateLeft(world.controller.View(), session, Shed(o.error))
    ensures o.CancelledOpening? ==>
              && world.patience == 0
              && (IsAway(world.controller.View(), session) || old(Probes(world.controller.View(), session)))
  {
    var c := world.controller;
    if session.maxAttempts <= session.attemptsStarted {
      return NothingLeft;
    }
    while true
      invariant world.Valid(session) && session.attemptsStarted == old(session.attemptsStarted)
      invariant c.episode == old(c.episode) || c.episode == null || fresh(c.episode)
      invariant world.OwnFree() == old(world.OwnFree())
      invariant Probes(c.View(), session) ==> old(Probes(world.controller.View(), session))
      decreases world.patience
    {
      var g := WaitForGate(world, session);
      if g.Shed? {
        return Refused(g.error);
      }
      if g.CancelledAtGate? {
        return CancelledOpening;
      }
      var used := UsePermit(world, session, g.permit);
      if used.Some? {
        return used.value;
      }
    }
  }

  // What comes of a permit; None where the gate is passed again.
  method UsePermit(world: World, session: ProviderRetrySession, permit: Permit) returns (o: Option<OpenResult>)
    requires world.Valid(session) && Holds(world.controller.View(), session, permit)
    requires session.attemptsStarted < session.maxAttempts
    modifies world, world.controller.episode, world.controller.sessions
    modifies world.controller`episode, world.controller`nextGeneration, world.controller`notifications,
             world.controller`freeSlots
    ensures world.Valid(session)
    ensures var c := world.controller; c.episode == old(c.episode) || c.episode == null || fresh(c.episode)
    ensures var open := o.Some? && o.value.Open?;
            && session.attemptsStarted == old(session.attemptsStarted) + (if open then 1 else 0)
            && world.OwnFree() == old(world.OwnFree()) - if open then 1 else 0
    ensures o.None? ==> world.patience < old(world.patience) && permit.NormalPermit?
    ensures match o
            case Some(Open(attempt)) =>
              && fresh(attempt) && attempt.controller == world.controller && attempt.session == session
              && !attempt.resolved && !attempt.closed && Holds(world.controller.View(), session, attempt.permit)
            case Some(CancelledOpening) => world.patience == 0 && IsAway(world.controller.View(), session)
            case Some(_) => false
            case None => IsAway(world.controller.View(), session)
  {
    var r;
    ghost var met;
    r, met := WaitForSlot(world, session, permit);
    if r.CancelledForSlot? {
      return Some(CancelledOpening);
    }
    if r.Stale? {
      return None;
    }
    var attempt := ClaimHeld(world, session, permit);
    return if attempt.Some? then Some(Open(attempt.value)) else None;
  }

  // A held slot becomes an attempt, unless the permit has become stale.
  method ClaimHeld(world: World, session: ProviderRetrySession, permit: Permit) returns (r: Option<ProviderAttempt>)
    requires world.Valid(session) && Holds(world.controller.View(), session, permit)
    requires session.attemptsStarted < session.maxAttempts
    modifies world`readings, session, world.controller`freeSlots, world.controller`notifications
    modifies world.controller.episode
    ensures world.Valid(session)
    ensures session.attemptsStarted == old(session.attemptsStarted) + if r.Some? then 1 else 0
    ensures world.OwnFree() == old(world.OwnFree()) + if r.Some? then 0 else 1
    ensures r.Some? ==> fresh(r.value) && r.value.controller == world.controller && r.value.session == session
                        && r.value.permit == permit && !r.value.resolved && !r.value.closed
    ensures if r.Some? then Holds(world.controller.View(), session, permit)
            else IsAway(world.controller.View(), session)
    ensures r.Some? <==> old(PermitIsCurrent(world.controller.View(), session, permit))
  {
    var now := world.Now();
    ghost var before := world.controller.View();
    OwnAbandon(before, session, permit, now);
    if PermitIsCurrent(before, session, permit) {
      OwnClaim(before, session, permit);
    }
    var claimed := ClaimSlot(world.controller, session, permit, now);
    return if claimed.Started? then Some(claimed.attempt) else None;
  }

  // ----- run_with_retry -----

  // How one call of the operation ends.
  datatype Call<V> = Returns(value: V) | Raises(error: Failure, retryable: bool)

  datatype RunOutcome<V> =
    | RecoveryExhausted(error: Failure)
    | Value(value: V)
    | Raised(error: Failure)
    | Cancelled

  // What a call leaves behind: an answer or a final rejection closes the probe's episode, a retryable
  // failure backs off, joins or cools down.
  predicate CallLeft<V>(c: Core, z: Core, notified: int, session: ProviderRetrySession, call: Call<V>,
                        readyAt: real, until: real)
    requires session in c.budgets
  {
    if call.Raises? && call.retryable then HasFailed(c, z, session, call.error, readyAt, until)
    else 0 <= notified && IsAnswered(c, z, notified, session)
  }

  // An attempt whose operation returned or raised; true if the execution is to go on.
  method ResolveAttempt<V>(world: World, attempt: ProviderAttempt, call: Call<V>, delay: real, terminalDelay: real)
    returns (again: bool)
    requires attempt.controller == world.controller && world.Valid(attempt.session) && !attempt.resolved
             && !attempt.closed
    requires Holds(world.controller.View(), attempt.session, attempt.permit)
    modifies world, attempt, world.controller.episode, world.controller.sessions
    modifies world.controller`episode, world.controller`nextGeneration, world.controller`notifications,
             world.controller`freeSlots
    ensures world.Valid(attempt.session)
    ensures attempt.session.attemptsStarted == old(attempt.session.attemptsStarted)
    ensures var c := world.controller; c.episode == old(c.episode) || c.episode == null || fresh(c.episode)
    ensures world.OwnFree() == old(world.OwnFree()) + 1
    ensures again == (call.Raises? && call.retryable && attempt.session.attemptsStarted < attempt.session.maxAttempts)
    ensures CallLeft(old(world.controller.View()), world.controller.View(),
                     world.controller.notifications - old(world.controller.notifications), attempt.session, call,
                     world.clock(old(world.readings)) + delay, world.clock(old(world.readings) + 1) + terminalDelay)
    ensures !Probes(world.controller.View(), attempt.session)
    ensures !again ==> IsAway(world.controller.View(), attempt.session)
  {
    var now := world.Now();
    var later := world.Now();
    again := AnswerAttempt(attempt, call, now, later, delay, terminalDelay);
    CloseResolved(attempt, later);
  }

  method AnswerAttempt<V>(attempt: ProviderAttempt, call: Call<V>,
                          now: real, later: real, delay: real, terminalDelay: real) returns (again: bool)
    requires attempt.Valid() && !attempt.resolved && Tidy(attempt.controller.View(), attempt.session)
    requires Holds(attempt.controller.View(), attempt.session, attempt.permit)
    modifies attempt, attempt.controller.episode, attempt.controller.sessions
    modifies attempt.controller`episode, attempt.controller`nextGeneration, attempt.controller`notifications
    ensures attempt.Valid() && attempt.resolved && attempt.closed == old(attempt.closed)
    ensures Tidy(attempt.controller.View(), attempt.session) && !Probes(attempt.controller.View(), attempt.session)
    ensures attempt.session.attemptsStarted == old(attempt.session.attemptsStarted)
    ensures var c := attempt.controller; c.episode == old(c.episode) || c.episode == null || fresh(c.episode)
    ensures again == (call.Raises? && call.retryable && attempt.session.attemptsStarted < attempt.session.maxAttempts)
    ensures !again ==> IsAway(attempt.controller.View(), attempt.session)
    ensures CallLeft(old(attempt.controller.View()), attempt.controller.View(),
                     attempt.controller.notifications - old(attempt.controller.notifications), attempt.session, call,
                     now + delay, later + terminalDelay)
  {
    match call
    case Returns(_) =>
      AcceptAttempt(attempt);
      again := false;
    case Raises(error, retryable) =>
      again := FailAttempt(attempt, error, retryable, now, later, delay, terminalDelay);
  }

  method AcceptAttempt(attempt: ProviderAttempt)
    requires attempt.Valid() && !attempt.resolved && Tidy(attempt.controller.View(), attempt.session)
    requires Holds(attempt.controller.View(), attempt.session, attempt.permit)
    modifies attempt, attempt.controller`episode, attempt.controller`notifications
    ensures attempt.Valid() && attempt.resolved && attempt.closed == old(attempt.closed)
    ensures Tidy(attempt.controller.View(), attempt.session)
    ensures var c := attempt.controller; c.episode == old(c.episode) || c.episode == null
    ensures var notified := attempt.controller.notifications - old(attempt.controller.notifications);
            0 <= notified
            && IsAnswered(old(attempt.controller.View()), attempt.controller.View(), notified, attempt.session)
  {
    OwnAnswer(attempt.controller.View(), attempt.session, attempt.permit);
    attempt.Succeeded();
  }

  method CloseResolved(attempt: ProviderAttempt, now: real)
    requires attempt.Valid() && attempt.resolved && !attempt.closed
    modifies attempt`closed, attempt.controller`notifications, attempt.controller`freeSlots, attempt.controller.episode
    ensures attempt.Valid() && attempt.controller.View() == old(attempt.controller.View())
    ensures attempt.controller.notifications == old(attempt.controller.notifications)
    ensures attempt.controller.freeSlots == old(attempt.controller.freeSlots) + 1
  {
    var _ := attempt.Aclose(now, false);
  }

  method FailAttempt(attempt: ProviderAttempt, error: Failure, retryable: bool,
                     now: real, later: real, delay: real, terminalDelay: real) returns (again: bool)
    requires attempt.Valid() && !attempt.resolved && Tidy(attempt.controller.View(), attempt.session)
    requires Holds(attempt.controller.View(), attempt.session, attempt.permit)
    modifies attempt, attempt.controller.episode, attempt.controller.sessions
    modifies attempt.controller`episode, attempt.controller`nextGeneration, attempt.controller`notifications
    ensures attempt.Valid() && attempt.resolved && attempt.closed == old(attempt.closed)
    ensures Tidy(attempt.controller.View(), attempt.session) && !Probes(attempt.controller.View(), attempt.session)
    ensures attempt.session.attemptsStarted == old(attempt.session.attemptsStarted)
    ensures var c := attempt.controller; c.episode == old(c.episode) || c.episode == null || fresh(c.episode)
    ensures again == (retryable && attempt.session.attemptsStarted < attempt.session.maxAttempts)
    ensures !again ==> IsAway(attempt.controller.View(), attempt.session)
    ensures retryable ==> HasFailed(old(attempt.controller.View()), attempt.controller.View(), attempt.session, error,
                                    now + delay, later + terminalDelay)
    ensures !retryable ==>
              var notified := attempt.controller.notifications - old(attempt.controller.notifications);
              0 <= notified
              && IsAnswered(old(attempt.controller.View()), attempt.controller.View(), notified, attempt.session)
  {
    var c, session := attempt.controller, attempt.session;
    OwnFailure(c.View(), session, attempt.permit, error, now, later, delay, terminalDelay);
    OwnAnswer(c.View(), session, attempt.permit);
    ghost var before := c.View().budgets[session];
    again := attempt.Retry(error, retryable, now, later, delay, terminalDelay);
    assert c.View().budgets[session].started == before.started;
  }

  datatype Round = NotAdmitted(error: Failure) | NotOpened | CancelledInCall | Answered(again: bool)

  // Where a round leaves the session: out of the recovery if it is to stop, unless the closing of a
  // cancelled call was cancelled too; and if it called the operation under a probe, with the episode
  // closed, its lead kept or the cool-down begun, as the call ended.
  predicate RoundLeft<V>(c: Core, session: ProviderRetrySession, r: Round, call: Call<V>, permit: Permit,
                         closeCancelled: bool)
  {
    match r
    case NotAdmitted(error) => IsAway(c, session) && IsTurnedAway(c, session, error)
    case NotOpened => IsAway(c, session)
    case CancelledInCall => closeCancelled || IsAway(c, session)
    case Answered(again) =>
      && (if again then !Probes(c, session) else IsAway(c, session))
      && (permit.ProbePermit? ==>
            if again then
              && call.Raises? && IsLeader(c, session) && c.episode.value.generation == permit.generation
              && c.episode.value.lastError == call.error
            else if call.Raises? && call.retryable then
              c.episode.Some? && c.episode.value.terminalUntil.Some? && c.episode.value.lastError == call.error
            else c.episode.None?)
  }

  lemma CallMakesRound<V>(c: Core, z: Core, notified: int, session: ProviderRetrySession, permit: Permit, call: Call<V>,
                          readyAt: real, until: real, again: bool)
    requires Tidy(c, session) && Holds(c, session, permit)
    requires CallLeft(c, z, notified, session, call, readyAt, until)
    requires again == (call.Raises? && call.retryable && c.budgets[session].CanAttempt())
    requires if again then !Probes(z, session) else IsAway(z, session)
    ensures RoundLeft(z, session, Answered(again), call, permit, false)
  {
  }

  // The operation is called under an open attempt.
  method CallOnce<V>(world: World, attempt: ProviderAttempt, call: Call<V>,
                     delay: real, terminalDelay: real, closeCancelled: bool) returns (r: Round)
    requires attempt.controller == world.controller && world.Valid(attempt.session) && !attempt.resolved
             && !attempt.closed && Holds(world.controller.View(), attempt.session, attempt.permit)
    modifies world, attempt, world.controller.episode, world.controller.sessions
    modifies world.controller`episode, world.controller`nextGeneration, world.controller`notifications,
             world.controller`freeSlots
    ensures world.Valid(attempt.session) && world.OwnFree() == old(world.OwnFree()) + 1
    ensures var c := world.controller; c.episode == old(c.episode) || c.episode == null || fresh(c.episode)
    ensures attempt.session.attemptsStarted == old(attempt.session.attemptsStarted)
    ensures r.Answered? || (r.CancelledInCall? && world.patience == 0)
    ensures r.Answered? ==>
              r.again == (call.Raises? && call.retryable
                          && attempt.session.attemptsStarted < attempt.session.maxAttempts)
    ensures RoundLeft(world.controller.View(), attempt.session, r, call, attempt.permit, closeCancelled)
  {
    ghost var before := world.controller.View();
    var cancelled := world.Suspend(attempt.session);
    PermitSurvives(before, world.controller.View(), attempt.session, attempt.permit);
    if cancelled {
      AbandonCall(world, attempt, closeCancelled);
      return CancelledInCall;
    }
    ghost var here, notified := world.controller.View(), world.controller.notifications;
    ghost var readyAt := world.clock(world.readings) + delay;
    ghost var until := world.clock(world.readings + 1) + terminalDelay;
    var again := ResolveAttempt(world, attempt, call, delay, terminalDelay);
    CallMakesRound(here, world.controller.View(), world.controller.notifications - notified, attempt.session,
                   attempt.permit, call, readyAt, until, again);
    return Answered(again);
  }

  // One round: an attempt opens, the operation is called, and the attempt is resolved and closed;
  // `permit` is what the attempt was admitted with.
  method RunRound<V>(world: World, session: ProviderRetrySession, call: Call<V>,
                     delay: real, terminalDelay: real, closeCancelled: bool) returns (r: Round, ghost permit: Permit)
    requires world.Valid(session) && session.attemptsStarted < session.maxAttempts
    requires !Probes(world.controller.View(), session)
    modifies world, world.controller.episode, world.controller.sessions
    modifies world.controller`episode, world.controller`nextGeneration, world.controller`notifications,
             world.controller`freeSlots
    ensures world.Valid(session) && world.OwnFree() == old(world.OwnFree())
    ensures var c := world.controller; c.episode == old(c.episode) || c.episode == null || fresh(c.episode)
    ensures var called := r.CancelledInCall? || r.Answered?;
            session.attemptsStarted == old(session.attemptsStarted) + if called then 1 else 0
    ensures r.Answered? ==>
              r.again == (call.Raises? && call.retryable && session.attemptsStarted < session.maxAttempts)
    ensures RoundLeft(world.controller.View(), session, r, call, permit, closeCancelled)
    ensures r.NotOpened? || r.CancelledInCall? ==> world.patience == 0
  {
    permit := NormalPermit;
    var o := OpenAttempt(world, session);
    if o.Refused? {
      return NotAdmitted(o.error), permit;
    }
    if o.CancelledOpening? {
      return NotOpened, permit;
    }
    r := CallOnce(world, o.attempt, call, delay, terminalDelay, closeCancelled);
    permit := o.attempt.permit;
  }

  // The call was cancelled, and perhaps the closing of its attempt too.
  method AbandonCall(world: World, attempt: ProviderAttempt, closeCancelled: bool)
    requires attempt.controller == world.controller && world.Valid(attempt.session) && !attempt.resolved
             && !attempt.closed && Holds(world.controller.View(), attempt.session, attempt.permit)
    modifies world`readings, attempt, world.controller.episode
    modifies world.controller`notifications, world.controller`freeSlots
    ensures world.Valid(attempt.session) && world.OwnFree() == old(world.OwnFree()) + 1
    ensures closeCancelled || IsAway(world.controller.View(), attempt.session)
  {
    var now := world.Now();
    OwnAbandon(world.controller.View(), attempt.session, attempt.permit, now);
    var _ := attempt.Aclose(now, closeCancelled);
  }

  // The operation is called at most as often as the budget allows; all calls but the last failed
  // retryably, and a retryable error escapes only when the budget is spent. However it ends, every
  // slot taken has been given back, and, unless the closing of a cancelled call was cancelled too, its
  // session neither leads nor waits.
  method RunWithRetry<V>(world: World, outcomes: nat -> Call<V>, delay: nat -> real, closeCancelled: bool)
    returns (outcome: RunOutcome<V>, calls: nat, ghost session: ProviderRetrySession)
    requires world.controller.Valid() && forall s | s in world.others :: s in world.controller.sessions
    modifies world, world.controller, world.controller.episode, world.controller.sessions
    ensures world.controller.Valid() && world.OwnFree() == old(world.OwnFree())
    ensures calls <= world.controller.maxAttempts
    ensures forall i | 0 <= i < calls - 1 :: outcomes(i).Raises? && outcomes(i).retryable
    ensures match outcome
            case Value(v) => 0 < calls && outcomes(calls - 1) == Returns(v)
            case Raised(e) => 0 < calls && outcomes(calls - 1).Raises? && outcomes(calls - 1).error == e
                              && (outcomes(calls - 1).retryable ==> calls == world.controller.maxAttempts)
            case RecoveryExhausted(e) => calls < world.controller.maxAttempts
                                         && (0 < calls ==> outcomes(calls - 1).Raises? && outcomes(calls - 1).retryable)
                                         && IsTurnedAway(world.controller.View(), session, e)
            case Cancelled => world.patience == 0
    ensures fresh(session)
    ensures IsAway(world.controller.View(), session) || (outcome.Cancelled? && closeCancelled)
  {
    var c := world.controller;
    var own := c.NewRetrySession();
    session := own;
    calls := 0;
    while true
      invariant fresh(own) && world.Valid(own) && forall s | s in c.sessions :: s in old(c.sessions) || s == own
      invariant own.maxAttempts == c.maxAttempts && own.attemptsStarted == calls < c.maxAttempts
      invariant c.episode == old(c.episode) || c.episode == null || fresh(c.episode)
      invariant world.OwnFree() == old(world.OwnFree())
      invariant forall i | 0 <= i < calls :: outcomes(i).Raises? && outcomes(i).retryable
      invariant !Probes(c.View(), own)
      decreases c.maxAttempts - calls
    {
      var call := outcomes(calls);
      ghost var permit;
      var r;
      r, permit := RunRound(world, own, call, delay(2 * calls), delay(2 * calls + 1), closeCancelled);
      match r {
        case NotAdmitted(error) => return RecoveryExhausted(error), calls, own;
        case NotOpened => return Cancelled, calls, own;
        case CancelledInCall => return Cancelled, calls + 1, own;
        case Answered(again) =>
          calls := calls + 1;
          if !again {
            return if call.Returns? then Value(call.value) else Raised(call.error), calls, own;
          }
      }
    }
  }
}
