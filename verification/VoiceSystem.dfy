// Concurrent handoffs, cancellations and discards over one registry.
module VoiceSystem {
  import opened Wrappers
  import opened VoiceProtocol

  datatype TaskEnd = Returned | TaskCancelled | Failed(fatal: bool)
  datatype Task = NotStarted | Running | Ended(end: TaskEnd) | Reported(report: Report)
  datatype Report = Completed | CancelledReport | RaisedError | RaisedCancellation
  datatype Releaser = ByHandoff | ByDiscard | ByCancel

  // Who runs an operation: a task outside every handoff, the task of a handoff itself, or another
  // task that a handoff's callback started and that inherited its claim.
  datatype Caller = Outside | InHandoff(claim: Claim) | InChildOf(claim: Claim) {
    function Owner(): Option<Claim> {
      if Outside? then None else Some(claim)
    }
  }

  // An operation that has taken entries over and waits for their handoff tasks to end; `guarded`
  // tells whether it protects its caller's claim.
  datatype Drain = Drain(caller: Caller, targets: set<Claim>, guarded: bool) {
    function Owner(): Option<Claim> {
      caller.Owner()
    }
  }

  datatype System = System(
    reg: Registry,
    tasks: map<Claim, Task>,
    drains: map<nat, Drain>,      // in progress, by order of beginning
    nextDrain: nat,
    released: map<Claim, Releaser>)

  datatype Action =
    | DoReserve(scope: Scope, voiceId: MessageId, claimId: nat)
    | DoBind(c: Claim, status: MessageId)
    | StartHandoff(c: Claim)
    | EndTask(c: Claim, end: TaskEnd)
    | FinishHandoff(c: Claim, callerCancelled: bool, finishCancelled: bool)
    | Discard(caller: Caller, c: Claim)
    | CancelReply(caller: Caller, scope: Scope, replyId: MessageId)
    | CancelScope(caller: Caller, within: Option<Scope>)
    | EndDrain(n: nat)

  predicate IsRunning(y: System, c: Claim) {
    c in y.tasks && y.tasks[c].Running?
  }

  // The task of handoff `c` is itself waiting in a drain.
  predicate IsBlocked(y: System, c: Claim) {
    exists n | n in y.drains :: y.drains[n].caller == InHandoff(c)
  }

  // A handoff's task does one thing at a time; a child may outlive the task that started it.
  predicate CanCall(y: System, caller: Caller) {
    match caller
    case Outside => true
    case InHandoff(c) => IsRunning(y, c) && !IsBlocked(y, c)
    case InChildOf(c) => c in y.tasks && !y.tasks[c].NotStarted?
  }

  predicate Enabled(y: System, a: Action) {
    match a
    case DoReserve(scope, voiceId, claimId) => Claim(scope, voiceId, claimId) !in y.reg.info
    case DoBind(_, _) => true
    case StartHandoff(_) => true
    // a drain is waited out, whatever cancellations reach its caller
    case EndTask(c, _) => IsRunning(y, c) && !IsBlocked(y, c)
    case FinishHandoff(c, _, _) => c in y.tasks && y.tasks[c].Ended?
    case Discard(caller, _) => CanCall(y, caller)
    case CancelReply(caller, _, _) => CanCall(y, caller)
    case CancelScope(caller, _) => CanCall(y, caller)
    case EndDrain(n) => n in y.drains && forall t | t in y.drains[n].targets :: !IsRunning(y, t)
  }

  // What `handoff` returns or raises, given how its callback task ended, whether it still owned
  // the entry, and which cancellations reached it.
  function ReportOf(end: TaskEnd, completed: bool, callerCancelled: bool, finishCancelled: bool): Report {
    if callerCancelled then (if end.Failed? && end.fatal then RaisedError else RaisedCancellation)
    else match end
         case Returned =>
           if finishCancelled then RaisedCancellation else if completed then Completed else CancelledReport
         case TaskCancelled =>
           if finishCancelled then RaisedCancellation else if completed then RaisedError else CancelledReport
         case Failed(fatal) =>
           if finishCancelled && !fatal then RaisedCancellation
           else if completed || fatal then RaisedError else CancelledReport
  }

  function MarkReleased(released: map<Claim, Releaser>, claims: set<Claim>, releaser: Releaser): map<Claim, Releaser> {
    released + map c | c in claims :: releaser
  }

  // Takes `targets` over and starts waiting for them.
  function BeginDrain(y: System, caller: Caller, targets: set<Claim>, guarded: bool, releaser: Releaser): System {
    var reg := RemoveAll(y.reg, targets);
    y.(reg := if guarded then Protect(reg, caller.Owner()) else reg,
       released := MarkReleased(y.released, targets, releaser),
       drains := y.drains[y.nextDrain := Drain(caller, targets, guarded)],
       nextDrain := y.nextDrain + 1)
  }

  function Apply(y: System, a: Action): System
    requires Enabled(y, a)
  {
    match a
    case DoReserve(scope, voiceId, claimId) =>
      var (reg, c) := Reserve(y.reg, scope, voiceId, claimId);
      y.(reg := reg, tasks := if c.Some? then y.tasks[c.value := NotStarted] else y.tasks)
    case DoBind(c, status) => y.(reg := BindStatus(y.reg, c, status).0)
    case StartHandoff(c) =>
      var (reg, ok) := BeginHandoff(y.reg, c);
      y.(reg := reg, tasks := if ok then y.tasks[c := Running] else y.tasks)
    case EndTask(c, end) => y.(tasks := y.tasks[c := Ended(end)])
    case FinishHandoff(c, callerCancelled, finishCancelled) =>
      var (reg, completed) := Release(y.reg, c);
      y.(reg := reg,
         tasks := y.tasks[c := Reported(ReportOf(y.tasks[c].end, completed, callerCancelled, finishCancelled))],
         released := if completed then MarkReleased(y.released, {c}, ByHandoff) else y.released)
    case Discard(caller, c) =>
      if !Owns(y.reg, c) || c !in y.reg.info then y
      else if caller == InHandoff(c) then     // its own task is not waited for
        y.(reg := Remove(y.reg, c), released := MarkReleased(y.released, {c}, ByDiscard))
      else BeginDrain(y, caller, {c}, false, ByDiscard)
    case CancelReply(caller, scope, replyId) =>
      var targets := SelectReply(y.reg, scope, replyId, caller.Owner());
      if targets == {} then y else BeginDrain(y, caller, targets, true, ByCancel)
    case CancelScope(caller, within) =>
      var targets := SelectScope(y.reg, within, caller.Owner());
      if targets == {} then y else BeginDrain(y, caller, targets, true, ByCancel)
    case EndDrain(n) =>
      var d := y.drains[n];
      y.(reg := if d.guarded then Unprotect(y.reg, d.Owner()) else y.reg, drains := y.drains - {n})
  }

  // ----- what every step keeps -----

  ghost function Guards(y: System, c: Claim): set<nat> {
    set n | n in y.drains && y.drains[n].guarded && y.drains[n].Owner() == Some(c)
  }

  // A claim's protection counts the cancellations it is running.
  ghost predicate ProtectionOk(y: System) {
    && (forall c :: Protection(y.reg, c) == |Guards(y, c)|)
    && (forall c | c in y.reg.protection :: 0 < y.reg.protection[c])
  }

  // A claim is live or was released, never both; its task exists once its handoff started; a
  // handoff reports completion only if it was the releaser, cancellation only if it was not.
  predicate ClaimOk(y: System, c: Claim)
    requires c in y.reg.info && c in y.tasks
  {
    var task := y.tasks[c];
    && (Owns(y.reg, c) <==> c !in y.released)
    && (y.reg.info[c].handoff <==> !task.NotStarted?)
    && (c in y.released && y.released[c].ByHandoff? ==> task.Reported?)
    && (task.Reported? ==> c in y.released
                           && (task.report.Completed? ==> y.released[c].ByHandoff?)
                           && (task.report.CancelledReport? ==> !y.released[c].ByHandoff?))
  }

  predicate LifecycleOk(y: System) {
    && y.tasks.Keys == y.reg.info.Keys
    && y.released.Keys <= y.reg.info.Keys
    && forall c | c in y.reg.info :: ClaimOk(y, c)
  }

  // Targets are released entries, each waited for by one drain only.
  predicate TargetsOk(y: System) {
    && (forall n | n in y.drains :: n < y.nextDrain && y.drains[n].targets <= y.released.Keys)
    && (forall n, m | n in y.drains && m in y.drains && n != m :: y.drains[n].targets !! y.drains[m].targets)
  }

  // A handoff's task is still running while it drains, and has been started if a child of it does.
  predicate CallersOk(y: System) {
    forall n | n in y.drains ::
      && (y.drains[n].caller.InHandoff? ==> IsRunning(y, y.drains[n].caller.claim))
      && (y.drains[n].caller.InChildOf? ==>
            y.drains[n].caller.claim in y.tasks && !y.tasks[y.drains[n].caller.claim].NotStarted?)
  }

  ghost predicate RegistryOk(y: System) {
    IndexOk(y.reg) && LifecycleOk(y) && TargetsOk(y) && ProtectionOk(y)
  }

  ghost predicate Invariant(y: System) {
    RegistryOk(y) && CallersOk(y)
  }
}
