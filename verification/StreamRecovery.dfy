// Holding a stream back briefly so that an early failure can be retried invisibly.
module StreamRecovery {
  import opened Wrappers

  // One code point of an event, and the bytes it takes when encoded as UTF-8 with replacement:
  // a surrogate has no encoding and becomes a single question mark.
  type CodePoint = c: int | 0 <= c < 0x11_0000
  type Event = seq<CodePoint>

  function Utf8Size(c: CodePoint): nat {
    if c < 0x80 then 1
    else if c < 0x800 then 2
    else if 0xD800 <= c < 0xE000 then 1
    else if c < 0x1_0000 then 3
    else 4
  }

  // UTF-8, with a question mark for what it cannot encode.
  function Encode(c: CodePoint): seq<int> {
    if c < 0x80 then [c]
    else if c < 0x800 then [0xC0 + c / 64, 0x80 + c % 64]
    else if 0xD800 <= c < 0xE000 then [0x3F]
    else if c < 0x1_0000 then [0xE0 + c / 4096, 0x80 + c / 64 % 64, 0x80 + c % 64]
    else [0xF0 + c / 262144, 0x80 + c / 4096 % 64, 0x80 + c / 64 % 64, 0x80 + c % 64]
  }

  // Reads one encoded code point back; the first byte tells how many follow.
  function Decode(b: seq<int>): Option<int> {
    if |b| == 1 && b[0] < 0x80 then Some(b[0])
    else if |b| == 2 && 0xC0 <= b[0] < 0xE0 then Some((b[0] - 0xC0) * 64 + (b[1] - 0x80))
    else if |b| == 3 && 0xE0 <= b[0] < 0xF0 then Some((b[0] - 0xE0) * 4096 + (b[1] - 0x80) * 64 + (b[2] - 0x80))
    else if |b| == 4 && 0xF0 <= b[0] < 0xF8 then
      Some((b[0] - 0xF0) * 262144 + (b[1] - 0x80) * 4096 + (b[2] - 0x80) * 64 + (b[3] - 0x80))
    else None
  }

  // The size is that of an encoding in bytes which can be read back.
  lemma SizeIsEncodedSize(c: CodePoint)
    ensures |Encode(c)| == Utf8Size(c)
    ensures forall i | 0 <= i < |Encode(c)| :: 0 <= Encode(c)[i] < 0x100
    ensures Decode(Encode(c)) == Some(if 0xD800 <= c < 0xE000 then 0x3F else c)
  {
    assert c / 64 / 64 == c / 4096 && c / 64 / 64 / 64 == c / 262144;
    assert c == c / 64 * 64 + c % 64;
    assert c / 64 == c / 64 / 64 * 64 + c / 64 % 64;
    assert c / 4096 == c / 4096 / 64 * 64 + c / 4096 % 64;
  }

  function EncodedSize(e: Event): nat {
    if e == [] then 0 else EncodedSize(e[..|e| - 1]) + Utf8Size(e[|e| - 1])
  }

  function TotalSize(events: seq<Event>): nat {
    if events == [] then 0 else TotalSize(events[..|events| - 1]) + EncodedSize(events[|events| - 1])
  }

  const EARLY_HOLDBACK_SECONDS: real := 0.75
  const RECOVERY_BUFFER_MAX_BYTES: nat := 65_536

  class RecoveryHoldbackBuffer {
    const holdbackSeconds: real
    const maxBytes: nat
    var events: seq<Event>
    var bytes: nat
    var startedAt: Option<real>
    var committed: bool

    // Nothing is held back once committed; before, the held bytes are counted and below the cap.
    ghost predicate Valid()
      reads this
    {
      && bytes == TotalSize(events)
      && (committed ==> events == [])
      && (!committed ==> bytes < maxBytes)
      && (events != [] ==> startedAt.Some?)
    }

    constructor (holdbackSeconds: real, maxBytes: nat)
      requires 0 < maxBytes
      ensures Valid() && events == [] && !committed && startedAt == None
      ensures this.holdbackSeconds == holdbackSeconds && this.maxBytes == maxBytes
    {
      this.holdbackSeconds := holdbackSeconds;
      this.maxBytes := maxBytes;
      events, bytes, startedAt, committed := [], 0, None, false;
    }

    // `first` and `second` are the two readings of the clock.
    method Push(event: Event, first: real, second: real) returns (released: seq<Event>)
      requires Valid()
      modifies this
      ensures Valid()
      ensures released + events == old(events) + [event]
      ensures old(committed) ==> committed && released == [event] && startedAt == old(startedAt)
      ensures !old(committed) && committed ==> startedAt == None
      ensures !old(committed) ==>
                var start := if old(startedAt).Some? then old(startedAt).value else first;
                committed == (maxBytes <= TotalSize(old(events) + [event]) || holdbackSeconds <= second - start)
      ensures !committed ==> released == [] && startedAt == if old(startedAt).Some? then old(startedAt) else Some(first)
    {
      if committed {
        return [event];
      }
      if startedAt.None? {
        startedAt := Some(first);
      }
      events := events + [event];
      bytes := bytes + EncodedSize(event);
      assert events[..|events| - 1] == old(events);
      if maxBytes <= bytes || holdbackSeconds <= second - startedAt.value {
        released := Flush();
        return;
      }
      return [];
    }

    method Flush() returns (released: seq<Event>)
      requires bytes == TotalSize(events) && (committed ==> events == [])
      modifies this
      ensures 0 < maxBytes ==> Valid()
      ensures committed && events == [] && released == old(events)
      ensures startedAt == if old(committed) then old(startedAt) else None
    {
      if committed {
        return [];
      }
      committed := true;
      released := events;
      events, bytes, startedAt := [], 0, None;
    }

    method Discard()
      requires Valid()
      modifies this
      ensures Valid() && events == [] && startedAt == None && committed == old(committed)
    {
      events, bytes, startedAt := [], 0, None;
    }
  }

  // ----- failure decisions -----

  datatype Action = EarlyRetry | MidstreamRecovery | FinalError

  datatype Decision = Decision(action: Action, retryable: bool, committed: bool, hasBuffered: bool)

  // What is known of a failure besides the buffer's state. `attemptsRemaining` may be anything.
  datatype Failure = Failure(retryable: bool, streamOpened: bool, generatedOutput: bool,
                             completeToolSalvageable: bool, attemptsRemaining: int)

  function Decide(f: Failure, committed: bool): Action {
    if f.retryable && 0 < f.attemptsRemaining && f.streamOpened && !committed && !f.completeToolSalvageable
       && !(f.generatedOutput && f.attemptsRemaining == 1)
    then EarlyRetry
    else if f.retryable && f.generatedOutput && (0 < f.attemptsRemaining || f.completeToolSalvageable)
    then MidstreamRecovery
    else FinalError
  }

  // Output that was generated is never given up while the budget or a complete tool call can save
  // it, a committed stream is never restarted, and the last attempt is never spent on restarting
  // a stream that has output.
  lemma DecisionsProtectOutput(f: Failure, committed: bool)
    ensures f.generatedOutput ==>
              (Decide(f, committed) == FinalError <==>
               !f.retryable || (f.attemptsRemaining <= 0 && !f.completeToolSalvageable))
    ensures !f.generatedOutput ==>
              (Decide(f, committed) == EarlyRetry <==>
               f.retryable && f.streamOpened && !committed && !f.completeToolSalvageable && 0 < f.attemptsRemaining)
    ensures f.generatedOutput ==>
              (Decide(f, committed) == EarlyRetry <==>
               f.retryable && f.streamOpened && !committed && !f.completeToolSalvageable && 1 < f.attemptsRemaining)
    ensures Decide(f, committed) == MidstreamRecovery ==> f.generatedOutput
  {
  }

  datatype Op =
    | OpPush(event: Event, first: real, second: real)
    | OpFlush
    | OpDiscard
    | OpFail(failure: Failure)

  // The buffer's life on values: what has been emitted, what is held back since when, and whether
  // the stream is committed.
  datatype Stream = Stream(emitted: seq<Event>, held: seq<Event>, startedAt: Option<real>, committed: bool)

  function Commit(s: Stream): Stream {
    Stream(s.emitted + s.held, [], None, true)
  }

  function Step(s: Stream, op: Op): Stream {
    match op
    case OpPush(event, first, second) =>
      if s.committed then s.(emitted := s.emitted + [event])
      else
        var start := if s.startedAt.Some? then s.startedAt.value else first;
        var pushed := s.(held := s.held + [event], startedAt := Some(start));
        if RECOVERY_BUFFER_MAX_BYTES <= TotalSize(pushed.held) || EARLY_HOLDBACK_SECONDS <= second - start
        then Commit(pushed) else pushed
    case OpFlush => if s.committed then s else Commit(s)
    case OpDiscard => s.(held := [], startedAt := None)
    case OpFail(f) => if Decide(f, s.committed) == EarlyRetry then Stream(s.emitted, [], None, false) else s
  }

  function Steps(ops: seq<Op>): Stream {
    if ops == [] then Stream([], [], None, false) else Step(Steps(ops[..|ops| - 1]), ops[|ops| - 1])
  }

  class RecoveryController {
    var holdback: RecoveryHoldbackBuffer
    ghost var emitted: seq<Event>   // handed downstream, ever
    ghost var attempt: seq<Event>   // pushed since the last early retry, or discard before the commit

    // What was emitted and what is held back make up the current attempt: no event of an attempt
    // that was retried early, or dropped before the commit, has been emitted or ever will be.
    ghost predicate Valid()
      reads this, holdback
    {
      && holdback.Valid()
      && holdback.maxBytes == RECOVERY_BUFFER_MAX_BYTES && holdback.holdbackSeconds == EARLY_HOLDBACK_SECONDS
      && emitted + holdback.events == attempt
      && (!holdback.committed ==> emitted == [])
    }

    ghost function AsStream(): Stream
      reads this, holdback
    {
      Stream(emitted, holdback.events, holdback.startedAt, holdback.committed)
    }

    constructor ()
      ensures Valid() && fresh(holdback) && attempt == [] && AsStream() == Stream([], [], None, false)
    {
      holdback := new RecoveryHoldbackBuffer(EARLY_HOLDBACK_SECONDS, RECOVERY_BUFFER_MAX_BYTES);
      emitted, attempt := [], [];
    }

    method Push(event: Event, first: real, second: real) returns (released: seq<Event>)
      requires Valid()
      modifies this`emitted, this`attempt, holdback
      ensures Valid() && attempt == old(attempt) + [event] && emitted == old(emitted) + released
      ensures AsStream() == Step(old(AsStream()), OpPush(event, first, second))
    {
      released := holdback.Push(event, first, second);
      emitted := emitted + released;
      attempt := attempt + [event];
      assert old(emitted) + (old(holdback.events) + [event]) == attempt;
    }

    method Flush() returns (released: seq<Event>)
      requires Valid()
      modifies this`emitted, holdback
      ensures Valid() && holdback.committed && emitted == old(emitted) + released
      ensures emitted == attempt == old(attempt)
      ensures AsStream() == Step(old(AsStream()), OpFlush)
    {
      released := holdback.Flush();
      emitted := emitted + released;
    }

    method Discard()
      requires Valid()
      modifies this`attempt, holdback
      ensures Valid() && AsStream() == Step(old(AsStream()), OpDiscard)
      ensures attempt == if old(holdback.committed) then old(attempt) else []
    {
      holdback.Discard();
      if !holdback.committed {
        attempt := [];
      }
    }

    method FlushUncommitted(decision: Decision) returns (released: seq<Event>)
      requires Valid()
      modifies this`emitted, holdback
      ensures Valid() && emitted == old(emitted) + released && attempt == old(attempt)
      ensures holdback.committed == (old(holdback.committed) || (!decision.committed && decision.hasBuffered))
      ensures (decision.committed == old(holdback.committed) && decision.hasBuffered == (old(holdback.events) != []))
              ==> emitted == attempt
    {
      if !decision.committed && decision.hasBuffered {
        released := Flush();
        return;
      }
      return [];
    }

    // An early retry, and nothing else, starts a new attempt; it happens only while nothing has
    // been emitted.
    method AdvanceFailure(f: Failure) returns (d: Decision)
      requires Valid()
      modifies this`holdback, this`attempt, holdback
      ensures Valid()
      ensures d.action == Decide(f, old(holdback.committed)) && d.retryable == f.retryable
      ensures d.committed == old(holdback.committed) && d.hasBuffered == (old(holdback.events) != [])
      ensures AsStream() == Step(old(AsStream()), OpFail(f))
      ensures if d.action == EarlyRetry then emitted == attempt == [] && holdback.events == [] && fresh(holdback)
              else holdback == old(holdback) && holdback.events == old(holdback.events) && attempt == old(attempt)
    {
      var committed, hasBuffered := holdback.committed, holdback.events != [];
      var retryAvailable := 0 < f.attemptsRemaining;
      var reserveLastAttempt := f.generatedOutput && f.attemptsRemaining == 1;
      if f.retryable && retryAvailable && f.streamOpened && !committed && !f.completeToolSalvageable
         && !reserveLastAttempt
      {
        holdback.Discard();
        holdback := new RecoveryHoldbackBuffer(EARLY_HOLDBACK_SECONDS, RECOVERY_BUFFER_MAX_BYTES);
        attempt := [];
        return Decision(EarlyRetry, true, false, hasBuffered);
      }
      if f.retryable && f.generatedOutput && (retryAvailable || f.completeToolSalvageable) {
        return Decision(MidstreamRecovery, true, committed, hasBuffered);
      }
      return Decision(FinalError, f.retryable, committed, hasBuffered);
    }
  }

  // ----- whole streams -----

  // Whether the operation at the end of `ops` throws the current attempt away.
  predicate Restarts(ops: seq<Op>)
    requires ops != []
  {
    var before := Steps(ops[..|ops| - 1]);
    var op := ops[|ops| - 1];
    !before.committed && (op.OpDiscard? || (op.OpFail? && Decide(op.failure, before.committed) == EarlyRetry))
  }

  // The events pushed since the attempt was last thrown away.
  function Attempt(ops: seq<Op>): seq<Event> {
    if ops == [] then []
    else if Restarts(ops) then []
    else Attempt(ops[..|ops| - 1]) + if ops[|ops| - 1].OpPush? then [ops[|ops| - 1].event] else []
  }

  // The attempt so far is what was emitted and then what is held; nothing was emitted before the
  // commit and nothing is held after it.
  predicate Invisible(s: Stream, attempt: seq<Event>) {
    && s.emitted + s.held == attempt
    && (!s.committed ==> s.emitted == [] && TotalSize(s.held) < RECOVERY_BUFFER_MAX_BYTES)
    && (s.committed ==> s.held == [])
  }

  lemma PushStaysInvisible(s: Stream, attempt: seq<Event>, op: Op)
    requires Invisible(s, attempt) && op.OpPush?
    ensures Invisible(Step(s, op), attempt + [op.event])
  {
    if s.committed {
      assert s.emitted + s.held == s.emitted;
      assert s.emitted + [op.event] + [] == attempt + [op.event];
    } else {
      assert s.emitted + (s.held + [op.event]) == attempt + [op.event];
    }
  }

  // Over any run: emitted, then held, is exactly the current attempt, and uncommitted bytes stay
  // below the cap.
  lemma {:induction false} RetriesAreInvisible(ops: seq<Op>)
    ensures Invisible(Steps(ops), Attempt(ops))
  {
    if ops != [] {
      var before, op := ops[..|ops| - 1], ops[|ops| - 1];
      RetriesAreInvisible(before);
      if op.OpPush? {
        PushStaysInvisible(Steps(before), Attempt(before), op);
      } else {
        assert Attempt(before) + [] == Attempt(before);
        assert Steps(before).emitted + Steps(before).held + [] == Attempt(before);
      }
    }
  }

  // A committed stream stays committed and only ever grows by what is pushed.
  lemma {:induction false} CommitIsPermanent(ops: seq<Op>, more: seq<Op>)
    requires Steps(ops).committed
    ensures Steps(ops + more).committed && Steps(ops).emitted <= Steps(ops + more).emitted
  {
    if more == [] {
      assert ops + more == ops;
    } else {
      var shorter := more[..|more| - 1];
      CommitIsPermanent(ops, shorter);
      RetriesAreInvisible(ops + shorter);
      assert (ops + more)[..|ops + more| - 1] == ops + shorter;
    }
  }

  // The controller, driven through any run, does what the value-level stream does.
  method Drive(ops: seq<Op>) returns (c: RecoveryController)
    ensures fresh(c) && c.Valid()
    ensures c.AsStream() == Steps(ops)
    ensures c.attempt == Attempt(ops)
  {
    c := new RecoveryController();
    for i := 0 to |ops|
      invariant fresh(c) && fresh(c.holdback) && c.Valid()
      invariant c.AsStream() == Steps(ops[..i]) && c.attempt == Attempt(ops[..i])
    {
      assert ops[..i + 1][..i] == ops[..i] && ops[..i + 1][i] == ops[i];
      match ops[i]
      case OpPush(event, first, second) => var _ := c.Push(event, first, second);
      case OpFlush => var _ := c.Flush();
      case OpDiscard => c.Discard();
      case OpFail(f) => var _ := c.AdvanceFailure(f);
    }
    assert ops[..|ops|] == ops;
  }
}
