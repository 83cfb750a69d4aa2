// Any number of requests over one provider runtime manager, each from acquiring its lease to
// giving it back, with cancellation at every wait.
module RequestSystem {
  import opened RequestProtocol
  import GenerationSystem
  import GenerationInvariant

  datatype Stage =
    | Handling            // the route awaits the handler
    | ClosingPreStart     // the handler awaits the cleanup of a stream without a first chunk
    | ClosingUnmanaged    // the route awaits the close of a stream it refuses
    | Responding          // a managed response is under way
    | Ended

  // `interrupted`: the handler was cancelled while it awaited a pre-start cleanup. `closers` are
  // the waiters for the cleanup of a managed response, by whether they were cancelled; `returned`
  // those that have returned, by whether they raised. `releases` counts how often the manager's
  // hold was given back.
  datatype Request = Request(
    stage: Stage,
    response: Response,
    interrupted: bool,
    closers: map<nat, bool>,
    returned: map<nat, bool>,
    releases: nat)

  // A request is known by the id of its lease.
  datatype System = System(gens: GenerationSystem.System, requests: map<nat, Request>)

  datatype Step =
    | OpenBody                    // the handler asks a stream for its first chunk
    | FailPreStart                // it fails, ends, or the handler is cancelled
    | InterruptPreStart
    | LeavePreStart(goesOn: bool)
    | Respond(managed: bool)      // the first chunk is there
    | LeaveHandler                // it raises or returns a plain response
    | EndUnmanaged(cleanly: bool)
    | StartClose(closer: nat)
    | InterruptCloser(closer: nat)
    | CloserReturns(closer: nat)
    | RunTask
    | TaskClosesBody
    | TaskBreaksClose
    | TaskEnds
    | TaskCancelled

  datatype Action =
    | Background(act: GenerationSystem.Action)   // refreshes, replacements, cleanups, shutdowns, other leases
    | Accept(r: nat)
    | Take(r: nat, step: Step)

  predicate HasTask(q: Request) {
    q.stage.ClosingPreStart? || q.stage.Responding?
  }

  predicate EnabledFor(q: Request, step: Step) {
    var task, body := q.response.task, q.response.body;
    match step
    case OpenBody => q.stage.Handling? && !body.Open?
    case FailPreStart => q.stage.Handling? && body.Open?
    case InterruptPreStart => q.stage.ClosingPreStart?
    case LeavePreStart(_) => q.stage.ClosingPreStart? && task.Over()
    case Respond(_) => q.stage.Handling? && body.Open?
    case LeaveHandler => q.stage.Handling? && !body.Open?
    case EndUnmanaged(_) => q.stage.ClosingUnmanaged?
    case StartClose(c) => q.stage.Responding? && c !in q.closers && c !in q.returned
    case InterruptCloser(c) => q.stage.Responding? && c in q.closers
    case CloserReturns(c) => q.stage.Responding? && c in q.closers && task.Over()
    case RunTask => HasTask(q) && task.Scheduled?
    case TaskClosesBody => HasTask(q) && task.ClosingBody?
    case TaskBreaksClose => HasTask(q) && task.ClosingBody?
    case TaskEnds => HasTask(q) && task.Releasing?
    case TaskCancelled => HasTask(q) && (task.Scheduled? || task.Releasing?)
  }

  // A pre-start cleanup is over: the handler goes on only if nobody was cancelled.
  predicate GoesOn(q: Request, goesOn: bool) {
    goesOn && !q.interrupted && !q.response.task.Cancelled?
  }

  // Whether the step calls `lease.release`.
  predicate Releases(q: Request, step: Step) {
    match step
    case LeavePreStart(goesOn) => !GoesOn(q, goesOn)
    case LeaveHandler => true
    case EndUnmanaged(_) => true
    case TaskClosesBody => q.stage.Responding?
    case _ => false
  }

  function ApplyTo(q: Request, step: Step): Request
    requires EnabledFor(q, step)
  {
    var p := q.response;
    match step
    case OpenBody => q.(response := p.(body := Open))
    case FailPreStart => q.(stage := ClosingPreStart, response := JoinClose(p), interrupted := false)
    case InterruptPreStart => q.(interrupted := true)
    case LeavePreStart(goesOn) =>
      if GoesOn(q, goesOn) then q.(stage := Handling, response := p.(task := NotStarted)) else q.(stage := Ended)
    case Respond(managed) => q.(stage := if managed then Responding else ClosingUnmanaged)
    case LeaveHandler => q.(stage := Ended)
    case EndUnmanaged(cleanly) => q.(stage := Ended, response := p.(body := Closed(cleanly)))
    case StartClose(c) => q.(response := JoinClose(p), closers := q.closers[c := false])
    case InterruptCloser(c) => q.(closers := q.closers[c := true])
    case CloserReturns(c) =>
      q.(closers := q.closers - {c}, returned := q.returned[c := q.closers[c] || p.task.Cancelled?])
    case RunTask => q.(response := StartBodyClose(p))
    case TaskClosesBody => q.(response := EndBodyClose(p, q.stage.Responding?))
    case TaskBreaksClose => q.(response := BreakBodyClose(p))
    case TaskEnds => q.(response := EndRelease(p))
    case TaskCancelled => q.(response := CancelTask(p))
  }

  // The request after a step; `released` tells whether its lease was given back before.
  function AfterStep(q: Request, step: Step, released: bool): Request
    requires EnabledFor(q, step)
  {
    ApplyTo(q, step).(releases := q.releases + if Releases(q, step) && !released then 1 else 0)
  }

  function Accepted(): Request {
    Request(Handling, Response(NotStarted, NoBody), false, map[], map[], 0)
  }

  predicate CanRelease(y: System, r: nat) {
    GenerationSystem.Enabled(y.gens, GenerationSystem.ReleaseLease(r))
  }

  predicate Enabled(y: System, a: Action) {
    match a
    case Background(act) =>
      && GenerationSystem.Enabled(y.gens, act) && GenerationInvariant.RefreshTimely(y.gens, act)
      && (act.ReleaseLease? ==> act.lease !in y.requests)
    case Accept(r) => r !in y.requests && GenerationSystem.Enabled(y.gens, GenerationSystem.AcquireLease(r))
    case Take(r, step) => r in y.requests && CanRelease(y, r) && EnabledFor(y.requests[r], step)
  }

  function Apply(y: System, a: Action): System
    requires Enabled(y, a)
  {
    match a
    case Background(act) => y.(gens := GenerationSystem.Apply(y.gens, act))
    case Accept(r) =>
      var gens := GenerationSystem.Apply(y.gens, GenerationSystem.AcquireLease(r));
      System(gens, if r in gens.leases then y.requests[r := Accepted()] else y.requests)
    case Take(r, step) =>
      var q := y.requests[r];
      System(if Releases(q, step) then GenerationSystem.Apply(y.gens, GenerationSystem.ReleaseLease(r)) else y.gens,
             y.requests[r := AfterStep(q, step, y.gens.leases[r].released)])
  }
}
