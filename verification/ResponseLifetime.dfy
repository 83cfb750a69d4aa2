// The objects that carry a request's runtime lease: the route's local lease, the managed response
// that closes its body before releasing it, and the prefetched stream the response sends. Requests
// running concurrently are in RequestSystem.
module ResponseLifetime {
  import opened Wrappers
  import opened GenerationProtocol
  import opened GenerationManager
  import opened RequestProtocol
  import GenerationInvariant

  // ----- the managed response -----

  class ManagedStreamingResponse {
    var release: ProviderGenerationLease?
    var task: Cleanup
    var body: Body

    function View(): Response
      reads this
    {
      Response(task, body)
    }

    // Made around a body whose first chunk is there.
    constructor ()
      ensures View() == Response(NotStarted, Open) && release == null
    {
      release, task, body := null, NotStarted, Open;
    }

    // False stands for an exception: a release is bound already, or the cleanup has started.
    method BindRelease(lease: ProviderGenerationLease) returns (ok: bool)
      modifies this`release
      ensures ok == (old(release) == null && task.NotStarted?)
      ensures release == if ok then lease else old(release)
    {
      ok := release == null && task.NotStarted?;
      if ok {
        release := lease;
      }
    }

    // The await-free start of `_close`.
    method JoinCleanup()
      modifies this`task
      ensures View() == JoinClose(old(View()))
    {
      if task.NotStarted? {
        task := Scheduled;
      }
    }

    method BeginBodyClose()
      requires task.Scheduled?
      modifies this`task
      ensures View() == StartBodyClose(old(View()))
    {
      task := ClosingBody;
    }

    // The body's close is over; the lease is released before anything else can happen.
    method BodyClosed()
      requires task.ClosingBody?
      requires release != null ==> release.manager.Valid() && release.manager.Knows(release.generation)
      modifies this`task, this`body, if release == null then {} else {release, release.generation}
      ensures View() == EndBodyClose(old(View()), release != null)
      ensures release != null ==>
                && release.released && release.manager.Valid()
                && release.manager.View() ==
                   if old(release.released) then old(release.manager.View())
                   else Release(old(release.manager.View()), release.generation.generationId)
    {
      body := Closed(true);
      if release == null {
        task := Done;
        return;
      }
      task := Releasing;
      release.Release();
    }

    method BodyCloseBroke()
      requires task.ClosingBody?
      modifies this`task, this`body
      ensures View() == BreakBodyClose(old(View()))
    {
      body := Closed(false);
      task := Cancelled;
    }

    method TaskWasCancelled()
      requires task.Scheduled? || task.Releasing?
      modifies this`task
      ensures View() == CancelTask(old(View()))
    {
      task := Cancelled;
    }

    method ReleaseEnded()
      requires task.Releasing?
      modifies this`task
      ensures View() == EndRelease(old(View()))
    {
      task := Done;
    }
  }

  // One wait for the shielded cleanup task: whether it ended in a cancellation of the waiter, and
  // whether the cleanup task is done after it.
  datatype Wait = Wait(interrupted: bool, done: bool)

  datatype WaitResult = Returns | RaisesCancellation

  // `_wait_for_cleanup`: the waiter stays until the cleanup task is done, whatever the waits end in, and
  // then raises exactly if it or the cleanup task was cancelled.
  method WaitForCleanup(doneAlready: bool, waits: seq<Wait>, taskCancelled: bool) returns (n: nat, r: WaitResult)
    requires forall i | 0 <= i < |waits| :: waits[i].interrupted || waits[i].done
    requires doneAlready || exists i | 0 <= i < |waits| :: waits[i].done
    ensures n <= |waits| && (n == 0 <==> doneAlready)
    ensures 0 < n ==> waits[n - 1].done && forall i | 0 <= i < n - 1 :: !waits[i].done
    ensures r.RaisesCancellation? <==> taskCancelled || exists i | 0 <= i < n :: waits[i].interrupted
  {
    var cancelled := false;
    var done := doneAlready;
    n := 0;
    while !done
      invariant n <= |waits| && (n == 0 ==> done == doneAlready) && (doneAlready ==> n == 0)
      invariant 0 < n ==> waits[n - 1].done == done
      invariant forall i | 0 <= i < n - 1 :: !waits[i].done
      invariant cancelled <==> exists i | 0 <= i < n :: waits[i].interrupted
      decreases |waits| - n
    {
      if waits[n].interrupted {
        cancelled := true;
      }
      done := waits[n].done;
      n := n + 1;
    }
    r := if taskCancelled || cancelled then RaisesCancellation else Returns;
  }

  // ----- the route -----

  // How the handler ends; a stream it answers with has its first chunk.
  datatype HandlerOutcome =
    | RaisesApplicationError
    | RaisesOther
    | PlainResponse
    | UnmanagedStream
    | ManagedStream

  datatype Answer = ErrorResponse | Raised | Plain | Streaming(response: ManagedStreamingResponse)

  // Leasing the current generation and giving the lease back leaves no trace.
  lemma AcquireThenRelease(m: Manager)
    requires GenerationInvariant.ManagerOk(m) && Acquire(m).1.Some?
    ensures Release(Acquire(m).0, m.current) == m
  {
    assert GenerationInvariant.GenerationOk(m, m.current);
    var n := Release(Acquire(m).0, m.current);
    assert n.generations[m.current] == m.generations[m.current];
    assert n.generations == m.generations;
  }

  // `_create_messages_response` and `_create_responses_response` with `bind_response_lifetime`,
  // nobody interfering: the lease ends up in a fresh managed response, or the manager is as before.
  method CreateResponse(manager: ProviderRuntimeManager, outcome: HandlerOutcome) returns (answer: Answer)
    requires manager.Valid() && GenerationInvariant.ManagerOk(manager.View())
    modifies manager.current
    ensures manager.Valid()
    ensures answer.Streaming? ==>
              && outcome.ManagedStream? && manager.View() == Acquire(old(manager.View())).0
              && fresh(answer.response) && answer.response.View() == Response(NotStarted, Open)
              && answer.response.release != null && !answer.response.release.released
              && answer.response.release.manager == manager && answer.response.release.generation == manager.current
    ensures !answer.Streaming? ==> manager.View() == old(manager.View())
    ensures Acquire(old(manager.View())).1.Some? ==>
              && (answer.Streaming? <==> outcome.ManagedStream?)
              && (answer.Raised? <==> outcome.RaisesOther? || outcome.UnmanagedStream?)
              && (answer.ErrorResponse? <==> outcome.RaisesApplicationError?)
              && (answer.Plain? <==> outcome.PlainResponse?)
    ensures Acquire(old(manager.View())).1.None? ==> answer.ErrorResponse?
  {
    var lease := manager.Acquire();
    if lease == null {
      return ErrorResponse;
    }
    AcquireThenRelease(old(manager.View()));
    if outcome.ManagedStream? {
      var response := new ManagedStreamingResponse();
      var ok := response.BindRelease(lease);
      return Streaming(response);
    }
    lease.Release();
    return if outcome.RaisesApplicationError? then ErrorResponse else if outcome.PlainResponse? then Plain else Raised;
  }

  // ----- the prefetched stream -----

  // One pull on the body: a chunk, its end, or a failure.
  datatype Pull = Chunk(text: string) | End | Fails(error: nat)

  datatype Emission = Emits(text: string) | Stops | Propagates(error: nat)

  // Replays a prefetched chunk, then the body; a failure becomes one terminal frame if the wire
  // format has one.
  class PrefetchedStream {
    var firstChunk: Option<string>
    var done: bool
    var closed: bool
    const terminalFrame: Option<nat -> string>

    constructor (first: string, terminalFrame: Option<nat -> string>)
      ensures firstChunk == Some(first) && !done && !closed && this.terminalFrame == terminalFrame
    {
      firstChunk, done, closed := Some(first), false, false;
      this.terminalFrame := terminalFrame;
    }

    // `pull` is what the body yields if it is pulled; `pulled` tells whether it was.
    method Next(pull: Pull) returns (e: Emission, pulled: bool)
      modifies this`firstChunk, this`done
      ensures old(closed || done) ==> e == Stops && !pulled && firstChunk == old(firstChunk) && done == old(done)
      ensures !old(closed || done) && old(firstChunk).Some? ==>
                e == Emits(old(firstChunk).value) && !pulled && firstChunk == None && !done
      ensures !old(closed || done) && old(firstChunk).None? ==>
                && pulled && firstChunk == None
                && (pull.Chunk? ==> e == Emits(pull.text))
                && (pull.End? ==> e == Stops)
                && (pull.Fails? && terminalFrame.Some? ==> e == Emits(terminalFrame.value(pull.error)))
                && (pull.Fails? && terminalFrame.None? ==> e == Propagates(pull.error))
                && (done <==> pull.End? || (pull.Fails? && terminalFrame.Some?))
    {
      pulled := false;
      if closed || done {
        return Stops, false;
      }
      if firstChunk.Some? {
        var first := firstChunk.value;
        firstChunk := None;
        return Emits(first), false;
      }
      pulled := true;
      match pull
      case Chunk(text) => e := Emits(text);
      case End =>
        done := true;
        e := Stops;
      case Fails(error) =>
        if terminalFrame.None? {
          return Propagates(error), true;
        }
        done := true;
        e := Emits(terminalFrame.value(error));
    }

    // True if the body is to be closed now.
    method Aclose() returns (closesBody: bool)
      modifies this`done, this`closed
      ensures closed && closesBody == !old(closed)
      ensures done == (old(done) || closesBody)
    {
      if closed {
        return false;
      }
      closed := true;
      done := true;
      return true;
    }
  }

  // How many chunks the body yields before its first end or failure.
  function ChunksBefore(pulls: seq<Pull>): (n: nat)
    ensures n <= |pulls| && (forall i | 0 <= i < n :: pulls[i].Chunk?) && (n < |pulls| ==> !pulls[n].Chunk?)
  {
    if pulls == [] || !pulls[0].Chunk? then 0 else 1 + ChunksBefore(pulls[1..])
  }

  // Iterating puts the first chunk and then the body's chunks on the wire, in order. A failure after
  // them adds the terminal frame if there is one, and is raised to the caller if there is none.
  method Iterate(first: string, pulls: seq<Pull>, terminalFrame: Option<nat -> string>)
    returns (wire: seq<string>, raised: Option<nat>)
    ensures var n := ChunksBefore(pulls);
            var failed := n < |pulls| && pulls[n].Fails?;
            && |wire| == 1 + n + (if failed && terminalFrame.Some? then 1 else 0)
            && wire[0] == first
            && (forall i | 0 <= i < n :: wire[i + 1] == pulls[i].text)
            && (failed && terminalFrame.Some? ==> wire[n + 1] == terminalFrame.value(pulls[n].error))
            && raised == if failed && terminalFrame.None? then Some(pulls[n].error) else None
  {
    var stream := new PrefetchedStream(first, terminalFrame);
    var e, pulled := stream.Next(End);
    wire, raised := [first], None;
    var i := 0;
    while i < |pulls|
      invariant i <= |pulls| && |wire| == 1 + i && wire[0] == first
      invariant forall k | 0 <= k < i :: pulls[k].Chunk? && wire[k + 1] == pulls[k].text
      invariant fresh(stream) && stream.firstChunk == None && !stream.closed && !stream.done
      invariant stream.terminalFrame == terminalFrame && raised == None
    {
      e, pulled := stream.Next(pulls[i]);
      if e.Emits? {
        wire := wire + [e.text];
      }
      if !pulls[i].Chunk? {
        raised := if e.Propagates? then Some(e.error) else None;
        return;
      }
      i := i + 1;
    }
  }
}
