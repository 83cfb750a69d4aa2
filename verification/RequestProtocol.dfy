// A response body and the cleanup task that closes it, section by section.
module RequestProtocol {
  datatype Body = NoBody | Open | Closed(cleanly: bool)

  // Where the cleanup task is; it is cancelled before it ran, while it closes the body, or while it
  // waits for the released generation.
  datatype Cleanup = NotStarted | Scheduled | ClosingBody | Releasing | Done | Cancelled {
    predicate Over() {
      Done? || Cancelled?
    }
  }

  datatype Response = Response(task: Cleanup, body: Body)

  // The first closer starts the cleanup task.
  function JoinClose(p: Response): Response {
    if p.task.NotStarted? then p.(task := Scheduled) else p
  }

  function StartBodyClose(p: Response): Response {
    p.(task := ClosingBody)
  }

  // The body's close has run to its end, with or without an ordinary exception.
  function EndBodyClose(p: Response, releases: bool): Response {
    Response(if releases then Releasing else Done, Closed(true))
  }

  // A cancellation came out of the body's close.
  function BreakBodyClose(p: Response): Response {
    Response(Cancelled, Closed(false))
  }

  function CancelTask(p: Response): Response {
    p.(task := Cancelled)
  }

  function EndRelease(p: Response): Response {
    p.(task := Done)
  }
}
