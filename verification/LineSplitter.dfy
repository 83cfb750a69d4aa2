// The loops that read a child process: stdout is cut into lines, whatever the chunks it arrives
// in, and stderr is captured up to a cap.
module LineSplitter {
  import opened Wrappers

  newtype Byte = b: int | 0 <= b < 256

  const NEWLINE: Byte := 10
  const MAX_STDERR_CAPTURE: int := 256 * 1024

  // What a read loop receives: the chunks up to the first empty one, which is end of file.
  function Received(chunks: seq<seq<Byte>>): seq<Byte> {
    if chunks == [] || chunks[0] == [] then [] else chunks[0] + Received(chunks[1..])
  }

  // The chunks before the first empty one count, all of them and in order.
  lemma {:induction false} ReceivedInOrder(a: seq<seq<Byte>>, b: seq<seq<Byte>>)
    requires [] !in a
    ensures Received(a + b) == Received(a) + Received(b)
  {
    if a == [] {
      assert a + b == b;
    } else {
      ReceivedInOrder(a[1..], b);
      assert (a + b)[1..] == a[1..] + b;
      assert a[0] + (Received(a[1..]) + Received(b)) == a[0] + Received(a[1..]) + Received(b);
    }
  }

  lemma ReceivedStops(chunk: seq<Byte>, later: seq<seq<Byte>>)
    ensures Received([chunk]) == chunk
    ensures Received([[]] + later) == []
  {
  }

  // ----- lines of a whole stream -----

  // A stream cut at its newlines: the pieces that ended with one, and what came after the last.
  datatype Pieces = Pieces(whole: seq<seq<Byte>>, rest: seq<Byte>)

  function Cut(p: Pieces, b: seq<Byte>): Pieces
    decreases |b|
  {
    if b == [] then p
    else if b[0] == NEWLINE then Cut(Pieces(p.whole + [p.rest], []), b[1..])
    else Cut(Pieces(p.whole, p.rest + [b[0]]), b[1..])
  }

  function Split(b: seq<Byte>): Pieces {
    Cut(Pieces([], []), b)
  }

  function Terminated(whole: seq<seq<Byte>>): seq<Byte> {
    if whole == [] then [] else Terminated(whole[..|whole| - 1]) + (whole[|whole| - 1] + [NEWLINE])
  }

  function Joined(p: Pieces): seq<Byte> {
    Terminated(p.whole) + p.rest
  }

  predicate NewlineFree(p: Pieces) {
    NEWLINE !in p.rest && forall w | w in p.whole :: NEWLINE !in w
  }

  // Splitting is the inverse of joining: the pieces of a stream hold no newline and make up the
  // stream, and no other newline-free pieces do.
  lemma PiecesMakeUpTheStream(b: seq<Byte>)
    ensures NewlineFree(Split(b)) && Joined(Split(b)) == b
  {
    CutJoins(Pieces([], []), b);
    assert Terminated([]) + [] + b == b;
  }

  lemma OnlyPiecesMakeUpTheStream(p: Pieces)
    requires NewlineFree(p)
    ensures Split(Joined(p)) == p
  {
    CutTerminated(p.whole);
    CutAppend(Pieces([], []), Terminated(p.whole), p.rest);
    CutPlain(Pieces(p.whole, []), p.rest);
    assert [] + p.rest == p.rest;
  }

  lemma {:induction false} CutJoins(p: Pieces, b: seq<Byte>)
    requires NewlineFree(p)
    ensures NewlineFree(Cut(p, b)) && Joined(Cut(p, b)) == Joined(p) + b
    decreases |b|
  {
    if b != [] {
      var (x, later) := (b[0], b[1..]);
      assert b == [x] + later;
      var q := if x == NEWLINE then Pieces(p.whole + [p.rest], []) else Pieces(p.whole, p.rest + [x]);
      CutJoins(q, later);
      assert (p.whole + [p.rest])[..|p.whole|] == p.whole;
      assert Joined(q) == Joined(p) + [x];
      assert Joined(p) + [x] + later == Joined(p) + b;
    } else {
      assert Joined(p) + b == Joined(p);
    }
  }

  // More input continues where the last one ended.
  lemma {:induction false} CutAppend(p: Pieces, a: seq<Byte>, b: seq<Byte>)
    ensures Cut(p, a + b) == Cut(Cut(p, a), b)
    decreases |a|
  {
    if a == [] {
      assert a + b == b;
    } else {
      var q := if a[0] == NEWLINE then Pieces(p.whole + [p.rest], []) else Pieces(p.whole, p.rest + [a[0]]);
      assert (a + b)[1..] == a[1..] + b;
      CutAppend(q, a[1..], b);
    }
  }

  lemma {:induction false} CutPlain(p: Pieces, a: seq<Byte>)
    requires NEWLINE !in a
    ensures Cut(p, a) == Pieces(p.whole, p.rest + a)
    decreases |a|
  {
    if a == [] {
      assert p.rest + a == p.rest;
    } else {
      CutPlain(Pieces(p.whole, p.rest + [a[0]]), a[1..]);
      assert p.rest + [a[0]] + a[1..] == p.rest + a;
    }
  }

  // A newline ends the piece before it.
  lemma CutLine(whole: seq<seq<Byte>>, line: seq<Byte>, later: seq<Byte>)
    requires NEWLINE !in line
    ensures Cut(Pieces(whole, []), line + [NEWLINE] + later) == Cut(Pieces(whole + [line], []), later)
  {
    CutAppend(Pieces(whole, []), line, [NEWLINE] + later);
    CutPlain(Pieces(whole, []), line);
    assert [] + line == line;
    assert line + [NEWLINE] + later == line + ([NEWLINE] + later);
    assert ([NEWLINE] + later)[1..] == later;
  }

  lemma {:induction false} CutTerminated(whole: seq<seq<Byte>>)
    requires forall w | w in whole :: NEWLINE !in w
    ensures Split(Terminated(whole)) == Pieces(whole, [])
  {
    if whole != [] {
      var (init, last) := (whole[..|whole| - 1], whole[|whole| - 1]);
      CutTerminated(init);
      CutAppend(Pieces([], []), Terminated(init), last + [NEWLINE]);
      CutLine(init, last, []);
      assert last + [NEWLINE] + [] == last + [NEWLINE];
      assert whole == init + [last];
    }
  }

  // Complete pieces are never revised.
  lemma {:induction false} CutKeepsWhole(p: Pieces, b: seq<Byte>)
    ensures p.whole <= Cut(p, b).whole
    decreases |b|
  {
    if b != [] {
      CutKeepsWhole(if b[0] == NEWLINE then Pieces(p.whole + [p.rest], [])
          else Pieces(p.whole, p.rest + [b[0]]), b[1..]);
    }
  }

  // ----- text -----

  // The characters that `str.strip` removes.
  predicate IsSpace(c: char) {
    var n := c as int;
    || 0x9 <= n <= 0xd || 0x1c <= n <= 0x20 || n == 0x85 || n == 0xa0 || n == 0x1680
    || 0x2000 <= n <= 0x200a || n == 0x2028 || n == 0x2029 || n == 0x202f || n == 0x205f || n == 0x3000
  }

  // What is left begins and ends with no space, and only spaces were taken off.
  function Strip(s: string): (t: string)
    ensures t != "" ==> !IsSpace(t[0]) && !IsSpace(t[|t| - 1])
    ensures CutFrom(s, t)
    decreases |s|
  {
    if s == "" then
      assert s[0..0] == s;
      s
    else if IsSpace(s[0]) then
      var t := Strip(s[1..]);
      StripFront(s, t);
      t
    else if IsSpace(s[|s| - 1]) then
      var t := Strip(s[..|s| - 1]);
      StripBack(s, t);
      t
    else
      assert s[0..|s|] == s;
      s
  }

  ghost predicate CutFrom(s: string, t: string) {
    exists i, j | 0 <= i <= j <= |s| ::
      && t == s[i..j]
      && (forall k | 0 <= k < i :: IsSpace(s[k])) && (forall k | j <= k < |s| :: IsSpace(s[k]))
  }

  // Exactly blank text gives no line.
  lemma BlankExactly(s: string)
    ensures Strip(s) == "" <==> forall c | c in s :: IsSpace(c)
  {
    var t := Strip(s);
    var i, j :| 0 <= i <= j <= |s| && t == s[i..j] && (forall k | 0 <= k < i :: IsSpace(s[k]))
        && (forall k | j <= k < |s| :: IsSpace(s[k]));
    if t != "" {
      assert t[0] in s;
    }
  }

  lemma StripFront(s: string, t: string)
    requires s != "" && IsSpace(s[0]) && CutFrom(s[1..], t)
    ensures CutFrom(s, t)
  {
    var r := s[1..];
    var i, j :| 0 <= i <= j <= |r| && t == r[i..j] && (forall k | 0 <= k < i :: IsSpace(r[k]))
        && (forall k | j <= k < |r| :: IsSpace(r[k]));
    assert t == s[i + 1..j + 1];
    assert forall k | 0 < k < i + 1 :: s[k] == r[k - 1];
    assert forall k | j + 1 <= k < |s| :: s[k] == r[k - 1];
  }

  lemma StripBack(s: string, t: string)
    requires s != "" && IsSpace(s[|s| - 1]) && CutFrom(s[..|s| - 1], t)
    ensures CutFrom(s, t)
  {
    var r := s[..|s| - 1];
    var i, j :| 0 <= i <= j <= |r| && t == r[i..j] && (forall k | 0 <= k < i :: IsSpace(r[k]))
        && (forall k | j <= k < |r| :: IsSpace(r[k]));
    assert t == s[i..j];
  }

  // The line handed on for a piece, if it is not blank.
  function Line(piece: seq<Byte>, decode: seq<Byte> -> string): seq<string> {
    var line := Strip(decode(piece));
    if line == "" then [] else [line]
  }

  // The lines handed on for a sequence of pieces.
  function Handed(ps: seq<seq<Byte>>, decode: seq<Byte> -> string): seq<string> {
    if ps == [] then [] else Handed(ps[..|ps| - 1], decode) + Line(ps[|ps| - 1], decode)
  }

  lemma HandedNext(ps: seq<seq<Byte>>, piece: seq<Byte>, decode: seq<Byte> -> string)
    ensures Handed(ps + [piece], decode) == Handed(ps, decode) + Line(piece, decode)
  {
    assert (ps + [piece])[..|ps|] == ps;
  }

  lemma {:induction false} HandedAppend(ps: seq<seq<Byte>>, qs: seq<seq<Byte>>, decode: seq<Byte> -> string)
    ensures Handed(ps + qs, decode) == Handed(ps, decode) + Handed(qs, decode)
    decreases |qs|
  {
    if qs == [] {
      assert ps + qs == ps;
    } else {
      var (init, last) := (qs[..|qs| - 1], qs[|qs| - 1]);
      assert ps + qs == (ps + init) + [last];
      calc {
        Handed(ps + qs, decode);
        { HandedNext(ps + init, last, decode); }
        Handed(ps + init, decode) + Line(last, decode);
        { HandedAppend(ps, init, decode); }
        Handed(ps, decode) + Handed(init, decode) + Line(last, decode);
        Handed(ps, decode) + (Handed(init, decode) + Line(last, decode));
        Handed(ps, decode) + Handed(qs, decode);
      }
    }
  }

  // All lines of a stream: at its end, what came after the last newline counts as a line too.
  function Lines(b: seq<Byte>, decode: seq<Byte> -> string): seq<string> {
    Handed(Split(b).whole, decode) + Line(Split(b).rest, decode)
  }

  // The texts that are not blank.
  function NonBlank(texts: seq<string>): seq<string> {
    if texts == [] then []
    else (if texts[0] == "" then [] else [texts[0]]) + NonBlank(texts[1..])
  }

  function Texts(ps: seq<seq<Byte>>, decode: seq<Byte> -> string): seq<string> {
    seq(|ps|, i requires 0 <= i < |ps| => Strip(decode(ps[i])))
  }

  lemma HandedFirst(first: seq<Byte>, rest: seq<seq<Byte>>, decode: seq<Byte> -> string)
    ensures Handed([first] + rest, decode) == Line(first, decode) + Handed(rest, decode)
  {
    HandedNext([], first, decode);
    assert [] + [first] == [first];
    assert Handed([], decode) + Line(first, decode) == Line(first, decode);
    HandedAppend([first], rest, decode);
  }

  lemma {:induction false} HandedAreNonBlank(ps: seq<seq<Byte>>, decode: seq<Byte> -> string)
    ensures Handed(ps, decode) == NonBlank(Texts(ps, decode))
  {
    if ps != [] {
      HandedFirst(ps[0], ps[1..], decode);
      assert [ps[0]] + ps[1..] == ps;
      HandedAreNonBlank(ps[1..], decode);
      TextsFirst(ps, decode);
    }
  }

  lemma TextsFirst(ps: seq<seq<Byte>>, decode: seq<Byte> -> string)
    requires ps != []
    ensures NonBlank(Texts(ps, decode)) == Line(ps[0], decode) + NonBlank(Texts(ps[1..], decode))
  {
    assert Texts(ps, decode)[1..] == Texts(ps[1..], decode);
  }

  // Whatever newline-free pieces a stream is made of: its lines are their stripped texts that are not
  // blank, the piece after the last newline included.
  lemma LinesAreNonBlankTexts(p: Pieces, decode: seq<Byte> -> string)
    requires NewlineFree(p)
    ensures Lines(Joined(p), decode) == NonBlank(Texts(p.whole + [p.rest], decode))
  {
    OnlyPiecesMakeUpTheStream(p);
    HandedNext(p.whole, p.rest, decode);
    HandedAreNonBlank(p.whole + [p.rest], decode);
  }

  // Lines already handed on are final: what the complete pieces of a stream give is kept, whatever
  // comes after.
  lemma CompleteLinesAreFinal(b: seq<Byte>, more: seq<Byte>, decode: seq<Byte> -> string)
    ensures Handed(Split(b).whole, decode) <= Handed(Split(b + more).whole, decode) <= Lines(b + more, decode)
  {
    CutAppend(Pieces([], []), b, more);
    CutKeepsWhole(Split(b), more);
    var (first, all) := (Split(b).whole, Split(b + more).whole);
    assert all == first + all[|first|..];
    HandedAppend(first, all[|first|..], decode);
  }

  // ----- the loops -----

  // `bytearray.find`: the first newline.
  function Find(b: seq<Byte>): (at: Option<nat>)
    ensures at.None? <==> NEWLINE !in b
    ensures at.Some? ==> at.value < |b| && b[at.value] == NEWLINE && NEWLINE !in b[..at.value]
  {
    if b == [] then None
    else if b[0] == NEWLINE then Some(0)
    else
      var later := Find(b[1..]);
      assert b == [b[0]] + b[1..];
      if later.None? then None
      else
        assert b[..later.value + 1] == [b[0]] + b[1..][..later.value];
        Some(later.value + 1)
  }

  lemma CutAtFirst(whole: seq<seq<Byte>>, buffer: seq<Byte>)
    ensures var at := Find(buffer);
            Cut(Pieces(whole, []), buffer) ==
            if at.None? then Pieces(whole, buffer)
            else Cut(Pieces(whole + [buffer[..at.value]], []), buffer[at.value + 1..])
  {
    var at := Find(buffer);
    if at.None? {
      CutPlain(Pieces(whole, []), buffer);
      assert [] + buffer == buffer;
    } else {
      assert buffer == buffer[..at.value] + [NEWLINE] + buffer[at.value + 1..];
      CutLine(whole, buffer[..at.value], buffer[at.value + 1..]);
    }
  }

  // The reading loop of `start_task`; `decode` is UTF-8 decoding with replacement.
  method ReadLines(chunks: seq<seq<Byte>>, decode: seq<Byte> -> string) returns (lines: seq<string>)
    requires decode([]) == ""
    ensures lines == Lines(Received(chunks), decode)
  {
    lines := [];
    var buffer: seq<Byte> := [];
    var next := 0;
    ghost var total: seq<Byte>, whole: seq<seq<Byte>> := [], [];
    assert chunks[0..] == chunks;
    while true
      invariant next <= |chunks|
      invariant total + Received(chunks[next..]) == Received(chunks)
      invariant Split(total) == Pieces(whole, buffer) && NEWLINE !in buffer
      invariant lines == Handed(whole, decode)
      decreases |chunks| - next
    {
      var chunk := if next < |chunks| then chunks[next] else [];
      if chunk == [] {
        if buffer != [] {
          var line := Strip(decode(buffer));
          if line != "" {
            lines := lines + [line];
          }
        }
        assert total == Received(chunks);
        break;
      }
      assert chunks[next..][1..] == chunks[next + 1..];
      CutArrived(total, whole, buffer, chunk);
      total, next := total + chunk, next + 1;
      buffer := buffer + chunk;
      lines, buffer, whole := TakeLines(buffer, lines, whole, decode);
    }
  }

  // Cutting the buffer afresh with the new chunk continues the cut so far.
  lemma CutArrived(total: seq<Byte>, whole: seq<seq<Byte>>, buffer: seq<Byte>, chunk: seq<Byte>)
    requires Split(total) == Pieces(whole, buffer) && NEWLINE !in buffer
    ensures Split(total + chunk) == Cut(Pieces(whole, []), buffer + chunk)
  {
    CutAppend(Pieces([], []), total, chunk);
    CutAppend(Pieces(whole, []), buffer, chunk);
    CutPlain(Pieces(whole, []), buffer);
    assert [] + buffer == buffer;
  }

  // The inner loop: every complete line in the buffer is handed on, the rest stays.
  method TakeLines(input: seq<Byte>, before: seq<string>, ghost cut: seq<seq<Byte>>, decode: seq<Byte> -> string)
    returns (lines: seq<string>, buffer: seq<Byte>, ghost whole: seq<seq<Byte>>)
    requires before == Handed(cut, decode)
    ensures Cut(Pieces(cut, []), input) == Pieces(whole, buffer) && NEWLINE !in buffer
    ensures lines == Handed(whole, decode)
  {
    lines, buffer, whole := before, input, cut;
    while true
      invariant Cut(Pieces(whole, []), buffer) == Cut(Pieces(cut, []), input)
      invariant lines == Handed(whole, decode)
      decreases |buffer|
    {
      var at := Find(buffer);
      CutAtFirst(whole, buffer);
      if at.None? {
        break;
      }
      var piece := buffer[..at.value];
      HandedNext(whole, piece, decode);
      buffer, whole := buffer[at.value + 1..], whole + [piece];
      var line := Strip(decode(piece));
      if line != "" {
        lines := lines + [line];
      }
    }
  }

  function Capped(received: seq<Byte>, maxBytes: int): seq<Byte> {
    if maxBytes <= 0 then [] else if |received| <= maxBytes then received else received[..maxBytes]
  }

  // The capture is the prefix of the cap's length, or everything.
  lemma CappedIsPrefix(received: seq<Byte>, maxBytes: int)
    ensures Capped(received, maxBytes) <= received
    ensures |Capped(received, maxBytes)|
            == if maxBytes <= 0 then 0 else if |received| < maxBytes then |received| else maxBytes
  {
  }

  lemma CappedGrows(total: seq<Byte>, chunk: seq<Byte>, maxBytes: int)
    ensures var (kept, room) := (Capped(total, maxBytes), maxBytes - |Capped(total, maxBytes)|);
            Capped(total + chunk, maxBytes) == if room <= 0 then kept else if |chunk| < room then kept + chunk
                else kept + chunk[..room]
  {
  }

  // Keeps the first `maxBytes` bytes and reads on to end of file; `read` counts the chunks taken off
  // the pipe.
  method DrainStderr(chunks: seq<seq<Byte>>, maxBytes: int := MAX_STDERR_CAPTURE)
    returns (captured: seq<Byte>, read: nat)
    ensures captured == Capped(Received(chunks), maxBytes)
    ensures read <= |chunks| && (read == |chunks| || chunks[read] == [])
            && (forall k | 0 <= k < read :: chunks[k] != [])
  {
    captured, read := [], 0;
    var received := 0;
    ghost var total: seq<Byte> := [];
    assert chunks[0..] == chunks;
    while true
      invariant read <= |chunks| && forall k | 0 <= k < read :: chunks[k] != []
      invariant total + Received(chunks[read..]) == Received(chunks)
      invariant received == |captured| && captured == Capped(total, maxBytes)
      decreases |chunks| - read
    {
      var chunk := if read < |chunks| then chunks[read] else [];
      if chunk == [] {
        break;
      }
      if received < maxBytes {
        var take := if |chunk| < maxBytes - received then |chunk| else maxBytes - received;
        if take != 0 {
          captured := captured + chunk[..take];
          received := received + take;
        }
      }
      CappedGrows(total, chunk, maxBytes);
      assert chunks[read..][1..] == chunks[read + 1..];
      total, read := total + chunk, read + 1;
    }
  }
}
