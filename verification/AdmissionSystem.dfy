// Any number of sessions driven concurrently through one admission controller.
// A session's phase is where its driver is suspended; every action is one await-free segment.
module AdmissionSystem {
  import opened Wrappers
  import opened RetrySessions
  import opened AdmissionProtocol

  datatype Stage = LimiterWait | SlotWait | SlotHeld

  datatype Phase =
    | Idle(owes: bool)                             // outside the controller; `owes` after being told to retry
    | Parked(generation: nat, notified: bool)      // a follower waiting on the condition
    | OwnProbeWait(notified: bool)                 // a leader waiting on its own active probe
    | Backoff(generation: nat)                     // the claimed leader sleeping before its probe
    | Opening(permit: Permit, stage: Stage)        // holds a permit, no attempt started yet
    | Attempting(permit: Permit)                   // an open, unresolved attempt
    | Resolved(retry: bool)                        // resolved, its slot not yet released
    | Closing(permit: Permit)                      // closed unresolved, abandonment scheduled, slot held
    | Orphaned(permit: Permit)                     // close was cancelled: slot gone, abandonment scheduled
  {
    predicate HoldsSlot() {
      (Opening? && stage.SlotHeld?) || Attempting? || Resolved? || Closing?
    }

    predicate HoldsPermit() {
      Opening? || Attempting? || Closing? || Orphaned?
    }

    function Notified(): Phase {
      match this
      case Parked(g, _) => Parked(g, true)
      case OwnProbeWait(_) => OwnProbeWait(true)
      case _ => this
    }
  }

  type Phases = map<ProviderRetrySession, Phase>

  datatype System = System(core: Core, phases: Phases, free: nat)

  datatype Action =
    | NewSession(s: ProviderRetrySession, max: nat)
    | Open(s: ProviderRetrySession, now: real)
    | Wake(s: ProviderRetrySession, now: real)
    | CancelFollower(s: ProviderRetrySession)
    | EndBackoff(s: ProviderRetrySession, now: real)
    | CancelBackoff(s: ProviderRetrySession)
    | LimiterAdmits(s: ProviderRetrySession, now: real)
    | GrantSlot(s: ProviderRetrySession)
    | Claim(s: ProviderRetrySession, now: real)
    | CancelOpening(s: ProviderRetrySession, now: real)
    | Succeed(s: ProviderRetrySession)
    | Reject(s: ProviderRetrySession)
    | Correct(s: ProviderRetrySession, now: real)
    | Fail(s: ProviderRetrySession, error: Failure, now: real, later: real, delay: real, terminalDelay: real)
    | BeginClose(s: ProviderRetrySession)
    | RunAbandon(s: ProviderRetrySession, now: real)
    | CancelClose(s: ProviderRetrySession)
    | Close(s: ProviderRetrySession)
    | Quit(s: ProviderRetrySession)

  predicate Enabled(y: System, a: Action) {
    if a.NewSession? then a.s !in y.phases && 0 < a.max
    else
      && a.s in y.phases
      && a.s in y.core.budgets
      && var p := y.phases[a.s];
         match a
         case Open(_, _) => p.Idle?
         case Wake(_, _) => (p.Parked? || p.OwnProbeWait?) && p.notified
         case CancelFollower(_) => p.Parked?
         case EndBackoff(_, _) => p.Backoff?
         case CancelBackoff(_) => p.Backoff?
         case LimiterAdmits(_, _) => p.Opening? && p.stage.LimiterWait?
         case GrantSlot(_) => p.Opening? && p.stage.SlotWait? && 0 < y.free
         case Claim(_, _) => p.Opening? && p.stage.SlotHeld?
         case CancelOpening(_, _) => p.Opening?
         case Succeed(_) => p.Attempting?
         case Reject(_) => p.Attempting?
         case Correct(_, _) => p.Attempting?
         case Fail(_, _, _, _, _, _) => p.Attempting?
         case BeginClose(_) => p.Attempting?
         case RunAbandon(_, _) => p.Closing? || p.Orphaned?
         case CancelClose(_) => p.Closing?
         case Close(_) => p.Resolved?
         case Quit(_) => p.Idle? && p.owes
  }

  function NotifyAll(phases: Phases): Phases {
    map s | s in phases :: phases[s].Notified()
  }

  // Applies a section's effect and moves the acting session to phase `p`.
  function Move(y: System, e: Effect, s: ProviderRetrySession, p: Phase): System {
    y.(core := e.core, phases := (if e.notify then NotifyAll(y.phases) else y.phases)[s := p])
  }

  function EnterGate(y: System, s: ProviderRetrySession, now: real): System
    requires s in y.core.budgets
  {
    var (c, o) := Gate(y.core, s, now);
    var p := match o
             case Granted(permit) => Opening(permit, LimiterWait)
             case Exhausted(_) => Idle(false)
             case WaitsAsFollower(g) => Parked(g, false)
             case WaitsOnOwnProbe => OwnProbeWait(false)
             case BacksOff(_, g) => Backoff(g);
    Move(y, Effect(c, false), s, p)
  }

  // A stale permit is abandoned and the session goes back through the gate without suspending.
  function Reenter(y: System, s: ProviderRetrySession, permit: Permit, now: real): System
    requires s in y.core.budgets
  {
    var e := AbandonProbe(y.core, s, permit, now);
    EnterGate(Move(y, e, s, Idle(true)), s, now)
  }

  function StartAttempt(c: Core, s: ProviderRetrySession): Core
    requires s in c.budgets
  {
    c.(budgets := c.budgets[s := c.budgets[s].(started := c.budgets[s].started + 1)])
  }

  function Apply(y: System, a: Action): System
    requires Enabled(y, a)
  {
    var s := a.s;
    match a
    case NewSession(_, max) =>
      y.(core := y.core.(budgets := y.core.budgets[s := Budget(max, 0, None)]), phases := y.phases[s := Idle(false)])
    case Open(_, now) =>
      if y.core.budgets[s].CanAttempt() then EnterGate(y, s, now) else y.(phases := y.phases[s := Idle(false)])
    case Wake(_, now) => EnterGate(y, s, now)
    case CancelFollower(_) =>
      Move(y, Effect(LeaveWaiters(y.core, s, y.phases[s].generation), false), s, Idle(false))
    case EndBackoff(_, now) =>
      var (c, permit) := ClaimProbe(y.core, s, y.phases[s].generation);
      if permit.Some? then Move(y, Effect(c, false), s, Opening(permit.value, LimiterWait)) else EnterGate(y, s, now)
    case CancelBackoff(_) =>
      Move(y, AbandonWaitingLeader(y.core, s, y.phases[s].generation), s, Idle(false))
    case LimiterAdmits(_, now) =>
      var permit := y.phases[s].permit;
      if PermitIsCurrent(y.core, s, permit) then y.(phases := y.phases[s := Opening(permit, SlotWait)])
      else Reenter(y, s, permit, now)
    case GrantSlot(_) =>
      y.(phases := y.phases[s := Opening(y.phases[s].permit, SlotHeld)], free := y.free - 1)
    case Claim(_, now) =>
      var permit := y.phases[s].permit;
      if !PermitIsCurrent(y.core, s, permit) then Reenter(y.(free := y.free + 1), s, permit, now)
      else if y.core.budgets[s].CanAttempt() then
        Move(y, Effect(StartAttempt(y.core, s), false), s, Attempting(permit))
      else
        Move(y.(free := y.free + 1), AbandonProbe(y.core, s, permit, now), s, Idle(false))
    case CancelOpening(_, now) =>
      var free := if y.phases[s].stage.SlotHeld? then y.free + 1 else y.free;
      Move(y.(free := free), AbandonProbe(y.core, s, y.phases[s].permit, now), s, Idle(false))
    case Succeed(_) => Move(y, CloseEpisode(y.core, s, y.phases[s].permit), s, Resolved(false))
    case Reject(_) => Move(y, CloseEpisode(y.core, s, y.phases[s].permit), s, Resolved(false))
    case Correct(_, now) => Move(y, KeepLeading(y.core, s, y.phases[s].permit, now), s, Resolved(true))
    case Fail(_, error, now, later, delay, terminalDelay) =>
      var (e, retry) := AttemptFailed(y.core, s, y.phases[s].permit, error, now, later, delay, terminalDelay);
      Move(y, e, s, Resolved(retry))
    case BeginClose(_) => y.(phases := y.phases[s := Closing(y.phases[s].permit)])
    case RunAbandon(_, now) =>
      Move(y, AbandonProbe(y.core, s, y.phases[s].permit, now), s,
           if y.phases[s].Closing? then Resolved(false) else Idle(false))
    case CancelClose(_) => y.(phases := y.phases[s := Orphaned(y.phases[s].permit)], free := y.free + 1)
    case Close(_) => y.(phases := y.phases[s := Idle(y.phases[s].retry)], free := y.free + 1)
    case Quit(_) => y.(phases := y.phases[s := Idle(false)])
  }
}
