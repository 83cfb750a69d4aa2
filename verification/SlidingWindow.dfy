// The strict sliding-window limiter: a deque of acquisition times, purged before each admission.
module SlidingWindow {
  import opened Wrappers

  // What one lock-protected section decides.
  datatype Admission = Admitted | Refused | MustWait(seconds: real)

  predicate Sorted(ts: seq<real>) {
    forall i, j | 0 <= i < j < |ts| :: ts[i] <= ts[j]
  }

  // The acquisitions newer than `cutoff`: what a purge leaves of a sorted history.
  function NewerThan(ts: seq<real>, cutoff: real): seq<real> {
    if ts == [] then []
    else if ts[0] <= cutoff then NewerThan(ts[1..], cutoff)
    else [ts[0]] + NewerThan(ts[1..], cutoff)
  }

  // Acquisitions `limit` places apart are at least a window apart.
  predicate Spaced(ts: seq<real>, limit: nat, window: real) {
    forall i, j | 0 <= i < |ts| && 0 <= j < |ts| && j == i + limit :: window <= ts[j] - ts[i]
  }

  predicate StrictlySpaced(ts: seq<real>, limit: nat, window: real) {
    forall i, j | 0 <= i < |ts| && 0 <= j < |ts| && j == i + limit :: window < ts[j] - ts[i]
  }

  // Acquisitions in the half-open interval from `from` to `to`.
  function CountIn(ts: seq<real>, from: real, to: real): nat {
    if ts == [] then 0
    else CountIn(ts[..|ts| - 1], from, to) + if from <= ts[|ts| - 1] < to then 1 else 0
  }

  // Acquisitions in the closed interval.
  function CountInClosed(ts: seq<real>, from: real, to: real): nat {
    if ts == [] then 0
    else CountInClosed(ts[..|ts| - 1], from, to) + if from <= ts[|ts| - 1] <= to then 1 else 0
  }

  function InWindow(ts: seq<real>, from: real, window: real): nat {
    CountIn(ts, from, from + window)
  }

  function InClosedWindow(ts: seq<real>, from: real, window: real): nat {
    CountInClosed(ts, from, from + window)
  }

  function Larger(x: real, y: real): real {
    if x < y then y else x
  }

  // No closed window holds more than `limit`.
  ghost predicate HoldsClosedLimit(ts: seq<real>, limit: nat, window: real) {
    forall from :: InClosedWindow(ts, from, window) <= limit
  }

  // An admission keeps the limit in closed windows if and only if it does not come exactly a window
  // after the acquisition `limit` places before it.
  ghost predicate KeepsClosedLimitExactly(before: seq<real>, after: seq<real>, a: Admission, stamp: real,
                                          limit: nat, window: real)
    requires 0 < limit
  {
    HoldsClosedLimit(before, limit, window) ==>
      (HoldsClosedLimit(after, limit, window) <==>
       !(a.Admitted? && limit <= |before| && stamp == before[|before| - limit] + window))
  }

  // A clock that never runs backwards, advancing as it likes between readings.
  class Clock {
    const ticks: nat -> real
    var read: nat   // how often it was read
    var now: real

    constructor (ticks: nat -> real, now: real)
      ensures this.ticks == ticks && this.now == now
    {
      this.ticks, this.now, read := ticks, now, 0;
    }

    method Read() returns (reading: real)
      modifies this
      ensures old(now) <= now == reading
    {
      now := now + Larger(0.0, ticks(read));
      read := read + 1;
      return now;
    }
  }

  class StrictSlidingWindowLimiter {
    const rateLimit: nat
    const rateWindow: real
    var times: seq<real>
    ghost var history: seq<real>   // every acquisition ever recorded
    ghost var purged: nat          // how many of them have left the deque

    // For a clock that never runs backwards, `clock` being the latest reading.
    ghost predicate Valid(clock: real)
      reads this
    {
      && 0 < rateLimit && 0.0 < rateWindow
      && Sorted(history)
      && (history != [] ==> history[|history| - 1] <= clock)
      && Spaced(history, rateLimit, rateWindow)
      && |times| <= rateLimit
      && IsPurged(clock)
    }

    // The deque is the history without its first `purged` acquisitions, all a window old or older.
    ghost predicate IsPurged(clock: real)
      reads this
    {
      && purged <= |history|
      && times == history[purged..]
      && (0 < purged ==> history[purged - 1] <= clock - rateWindow)
    }

    constructor (rateLimit: nat, rateWindow: real)
      requires 0 < rateLimit && 0.0 < rateWindow
      ensures forall clock :: Valid(clock)
      ensures this.rateLimit == rateLimit && this.rateWindow == rateWindow && history == []
    {
      this.rateLimit := rateLimit;
      this.rateWindow := rateWindow;
      times := [];
      history := [];
      purged := 0;
    }

    // One section: `now` is its first clock reading, `stamp` the reading it records, `allowed`
    // the condition's value, None for an unconditional acquisition.
    method TryAcquire(now: real, stamp: real, allowed: Option<bool>, ghost clock: real) returns (a: Admission)
      requires Valid(clock) && clock <= now <= stamp
      modifies this
      ensures Valid(stamp)
      ensures var kept := NewerThan(old(history), now - rateWindow);
              && (a.MustWait? <==> |kept| == rateLimit)
              && (a.Refused? <==> |kept| < rateLimit && allowed == Some(false))
              && history == (if a.Admitted? then old(history) + [stamp] else old(history))
              && times == (if a.Admitted? then kept + [stamp] else kept)
              && (a.MustWait? ==> 0.0 < a.seconds && a.seconds == kept[0] + rateWindow - now)
      ensures KeepsClosedLimitExactly(old(history), history, a, stamp, rateLimit, rateWindow)
    {
      ghost var before := history;
      Purge(now, clock);
      a := Decide(now, stamp, allowed);
      AdmissionKeepsClosedLimitExactly(before, history, a, stamp, rateLimit, rateWindow);
    }

    method Decide(now: real, stamp: real, allowed: Option<bool>) returns (a: Admission)
      requires Valid(now) && now <= stamp && (times != [] ==> now - rateWindow < times[0])
      modifies this`times, this`history
      ensures Valid(stamp)
      ensures a.MustWait? <==> |old(times)| == rateLimit
      ensures a.Refused? <==> |old(times)| < rateLimit && allowed == Some(false)
      ensures history == if a.Admitted? then old(history) + [stamp] else old(history)
      ensures times == if a.Admitted? then old(times) + [stamp] else old(times)
      ensures a.MustWait? ==> 0.0 < a.seconds && a.seconds == times[0] + rateWindow - now
    {
      if |times| < rateLimit {
        if allowed == Some(false) {
          return Refused;
        }
        Record(now, stamp);
        return Admitted;
      }
      var oldest := times[0];
      return MustWait(Larger(0.0, oldest + rateWindow - now));
    }

    method Record(ghost now: real, stamp: real)
      requires Valid(now) && now <= stamp && |times| < rateLimit
      modifies this`times, this`history
      ensures Valid(stamp)
      ensures history == old(history) + [stamp] && times == old(times) + [stamp]
    {
      AppendKeepsSpacing(history, stamp, rateLimit, rateWindow, purged, now);
      AppendKeepsSorted(history, stamp);
      times := times + [stamp];
      history := history + [stamp];
    }

    // Drops what is a window old or older, and nothing else.
    method Purge(now: real, ghost clock: real)
      requires Valid(clock) && clock <= now
      modifies this`times, this`purged
      ensures Valid(now)
      ensures times == NewerThan(history, now - rateWindow)
      ensures times != [] ==> now - rateWindow < times[0]
    {
      DropOld(now);
      PurgeLeavesNewer(history, times, purged, now - rateWindow);
    }

    method DropOld(now: real)
      requires IsPurged(now)
      modifies this`times, this`purged
      ensures IsPurged(now) && |times| <= |old(times)| && (times != [] ==> now - rateWindow < times[0])
    {
      var cutoff := now - rateWindow;
      while times != [] && times[0] <= cutoff
        invariant IsPurged(now) && |times| <= |old(times)|
        decreases |times|
      {
        assert history[purged..][1..] == history[purged + 1..];
        times := times[1..];
        purged := purged + 1;
      }
    }

    // One section with its two clock readings; `now` is the first of them.
    method TryOnce(clock: Clock, allowed: Option<bool>) returns (a: Admission, ghost now: real)
      requires Valid(clock.now)
      modifies this, clock
      ensures Valid(clock.now)
      ensures history == if a.Admitted? then old(history) + [clock.now] else old(history)
      ensures a.Refused? ==> allowed == Some(false)
      ensures a.Admitted? ==> allowed != Some(false)
      ensures a.MustWait? <==> |NewerThan(old(history), now - rateWindow)| == rateLimit
    {
      ghost var latest := clock.now;
      var first := clock.Read();
      now := first;
      var stamp := clock.Read();
      a := TryAcquire(first, stamp, allowed, latest);
    }

    // The acquisition loop. While it sleeps others acquire, in wait k at most `others(k)` times;
    // `patience` is how many waits the caller sits through before it is cancelled. It waits only while
    // the window is full: `full` is what was recorded, and when, at each of its waits.
    method Acquire(clock: Clock, allowed: nat -> Option<bool>, others: nat -> nat, patience: nat)
      returns (admitted: Option<bool>, waits: nat, ghost between: seq<real>, ghost full: seq<(seq<real>, real)>)
      requires Valid(clock.now)
      modifies this, clock
      ensures Valid(clock.now)
      ensures waits <= patience + 1 && (admitted == None <==> waits == patience + 1)
      ensures admitted == Some(true) ==>
                allowed(waits) != Some(false) && history == old(history) + between + [clock.now]
      ensures admitted != Some(true) ==> history == old(history) + between
      ensures admitted == Some(false) ==> allowed(waits) == Some(false)
      ensures |full| == waits && AllFull(full, history, rateLimit, rateWindow)
    {
      waits, between, full := 0, [], [];
      while waits <= patience
        invariant waits <= patience + 1
        invariant Valid(clock.now)
        invariant history == old(history) + between
        invariant |full| == waits && AllFull(full, history, rateLimit, rateWindow)
      {
        var a;
        ghost var recorded, now;
        ghost var before := history;
        a, recorded, now := AcquireRound(clock, allowed(waits), others(waits));
        if !a.MustWait? {
          FullStaysFull(full, before, recorded, rateLimit, rateWindow);
          return Some(a.Admitted?), waits, between, full;
        }
        FullOnceMore(full, before, now, rateLimit, rateWindow);
        full := full + [(before, now)];
        FullStaysFull(full, before, recorded, rateLimit, rateWindow);
        AppendAssociates(old(history), between, recorded);
        between, waits := between + recorded, waits + 1;
      }
      return None, waits, between, full;
    }

    // One section, and the sleep after it if the window is full, while others acquire.
    method AcquireRound(clock: Clock, allowed: Option<bool>, attempts: nat)
      returns (a: Admission, ghost recorded: seq<real>, ghost now: real)
      requires Valid(clock.now)
      modifies this, clock
      ensures Valid(clock.now) && history == old(history) + recorded
      ensures a.Admitted? ==> recorded == [clock.now] && allowed != Some(false)
      ensures a.Refused? ==> recorded == [] && allowed == Some(false)
      ensures a.MustWait? ==> |NewerThan(old(history), now - rateWindow)| == rateLimit
    {
      a, now := TryOnce(clock, allowed);
      recorded := if a.Admitted? then [clock.now] else [];
      if a.MustWait? {
        recorded := OthersAcquire(clock, attempts);
      }
    }

    method OthersAcquire(clock: Clock, attempts: nat) returns (ghost recorded: seq<real>)
      requires Valid(clock.now)
      modifies this, clock
      ensures Valid(clock.now) && history == old(history) + recorded
    {
      recorded := [];
      for i := 0 to attempts
        invariant Valid(clock.now) && history == old(history) + recorded
      {
        var a;
        ghost var now;
        a, now := TryOnce(clock, None);
        if a.Admitted? {
          AppendAssociates(old(history), recorded, [clock.now]);
          recorded := recorded + [clock.now];
        }
      }
    }
  }

  // ----- the deque -----

  lemma {:induction false} PurgeIsSuffix(ts: seq<real>, n: nat, cutoff: real)
    requires Sorted(ts) && n <= |ts|
    requires 0 < n ==> ts[n - 1] <= cutoff
    requires n < |ts| ==> cutoff < ts[n]
    ensures NewerThan(ts, cutoff) == ts[n..]
  {
    if ts == [] {
    } else if n == 0 {
      assert ts[1..] == if |ts| == 1 then [] else ts[1..];
      PurgeIsSuffix(ts[1..], 0, cutoff);
    } else {
      PurgeIsSuffix(ts[1..], n - 1, cutoff);
      assert ts[1..][n - 1..] == ts[n..];
    }
  }

  // At each of these times the window was full, by what was recorded then.
  predicate AllFull(full: seq<(seq<real>, real)>, history: seq<real>, limit: nat, window: real) {
    forall k | 0 <= k < |full| :: full[k].0 <= history && |NewerThan(full[k].0, full[k].1 - window)| == limit
  }

  lemma FullOnceMore(full: seq<(seq<real>, real)>, history: seq<real>, now: real, limit: nat, window: real)
    requires AllFull(full, history, limit, window) && |NewerThan(history, now - window)| == limit
    ensures AllFull(full + [(history, now)], history, limit, window)
  {
  }

  lemma FullStaysFull(full: seq<(seq<real>, real)>, history: seq<real>, more: seq<real>, limit: nat, window: real)
    requires AllFull(full, history, limit, window)
    ensures AllFull(full, history + more, limit, window)
  {
  }

  lemma PurgeLeavesNewer(history: seq<real>, times: seq<real>, n: nat, cutoff: real)
    requires Sorted(history) && n <= |history| && times == history[n..]
    requires (0 < n ==> history[n - 1] <= cutoff) && (times != [] ==> cutoff < times[0])
    ensures times == NewerThan(history, cutoff)
  {
    PurgeIsSuffix(history, n, cutoff);
  }

  lemma AppendAssociates(x: seq<real>, y: seq<real>, z: seq<real>)
    ensures x + y + z == x + (y + z)
  {
  }

  lemma AppendKeepsSorted(ts: seq<real>, stamp: real)
    requires Sorted(ts) && (ts != [] ==> ts[|ts| - 1] <= stamp)
    ensures Sorted(ts + [stamp])
  {
    assert forall i | 0 <= i < |ts| :: ts[i] <= stamp;
  }

  // Fewer than `limit` recent acquisitions leave room for one more.
  lemma AppendKeepsSpacing(ts: seq<real>, stamp: real, limit: nat, window: real, n: nat, now: real)
    requires Sorted(ts) && Spaced(ts, limit, window) && n <= |ts| && |ts| - n < limit
    requires now <= stamp && (0 < n ==> ts[n - 1] <= now - window)
    ensures Spaced(ts + [stamp], limit, window)
  {
  }

  // ----- what spacing means for windows -----

  // In a sorted history an interval's acquisitions are consecutive.
  lemma {:induction false} CountIsSlice(ts: seq<real>, from: real, to: real) returns (lo: nat, hi: nat)
    requires Sorted(ts)
    ensures lo <= hi <= |ts| && CountIn(ts, from, to) == hi - lo
    ensures forall i | 0 <= i < |ts| :: lo <= i < hi <==> from <= ts[i] < to
  {
    if ts == [] {
      return 0, 0;
    }
    var last := |ts| - 1;
    var init := ts[..last];
    assert forall i | 0 <= i < last :: init[i] == ts[i];
    lo, hi := CountIsSlice(init, from, to);
    if from <= ts[last] < to {
      if lo == hi {
        return last, |ts|;
      }
      assert from <= init[lo] < to;
      assert forall i | lo <= i < last :: from <= init[i] < to;
      assert hi == last;
      hi := |ts|;
    }
  }

  lemma {:induction false} CountIsClosedSlice(ts: seq<real>, from: real, to: real) returns (lo: nat, hi: nat)
    requires Sorted(ts)
    ensures lo <= hi <= |ts| && CountInClosed(ts, from, to) == hi - lo
    ensures forall i | 0 <= i < |ts| :: lo <= i < hi <==> from <= ts[i] <= to
  {
    if ts == [] {
      return 0, 0;
    }
    var last := |ts| - 1;
    var init := ts[..last];
    assert forall i | 0 <= i < last :: init[i] == ts[i];
    lo, hi := CountIsClosedSlice(init, from, to);
    if from <= ts[last] <= to {
      if lo == hi {
        return last, |ts|;
      }
      assert from <= init[lo] <= to;
      assert forall i | lo <= i < last :: from <= init[i] <= to;
      assert hi == last;
      hi := |ts|;
    }
  }

  // The limiter's promise for half-open windows is exactly the spacing it maintains.
  lemma HalfOpenWindowsHoldLimit(ts: seq<real>, limit: nat, window: real)
    requires Sorted(ts) && 0 < limit && 0.0 < window
    ensures Spaced(ts, limit, window) <==> forall from :: InWindow(ts, from, window) <= limit
  {
    if Spaced(ts, limit, window) {
      forall from ensures InWindow(ts, from, window) <= limit {
        var lo, hi := CountIsSlice(ts, from, from + window);
        var width := if lo + limit < |ts| then ts[lo + limit] - ts[lo] else window;
        if limit < hi - lo {
          assert false;
        }
      }
    } else {
      var i, j :| 0 <= i < |ts| && 0 <= j < |ts| && j == i + limit && ts[j] - ts[i] < window;
      var lo, hi := CountIsSlice(ts, ts[i], ts[i] + window);
      assert lo <= i && j < hi;
      assert limit < InWindow(ts, ts[i], window);
    }
  }

  // Whatever was acquired, refused or waited for: a limiter never records more than its limit in
  // any half-open window.
  lemma LimiterHoldsLimit(limiter: StrictSlidingWindowLimiter, clock: real)
    requires limiter.Valid(clock)
    ensures forall from :: InWindow(limiter.history, from, limiter.rateWindow) <= limiter.rateLimit
  {
    HalfOpenWindowsHoldLimit(limiter.history, limiter.rateLimit, limiter.rateWindow);
  }

  // For closed windows, which the limiter's documentation also covers, the limit holds exactly
  // when no acquisition falls a full window after the one `limit` places before it.
  lemma ClosedWindowsHoldLimitExactly(ts: seq<real>, limit: nat, window: real)
    requires Sorted(ts) && 0 < limit && 0.0 < window && Spaced(ts, limit, window)
    ensures HoldsClosedLimit(ts, limit, window) <==> StrictlySpaced(ts, limit, window)
  {
    if StrictlySpaced(ts, limit, window) {
      forall from ensures InClosedWindow(ts, from, window) <= limit {
        var lo, hi := CountIsClosedSlice(ts, from, from + window);
        var width := if lo + limit < |ts| then ts[lo + limit] - ts[lo] else window;
        if limit < hi - lo {
          assert false;
        }
      }
    } else {
      var i, j :| 0 <= i < |ts| && 0 <= j < |ts| && j == i + limit && ts[j] - ts[i] <= window;
      var lo, hi := CountIsClosedSlice(ts, ts[i], ts[i] + window);
      assert lo <= i && j < hi;
      assert limit < InClosedWindow(ts, ts[i], window);
    }
  }

  lemma AdmissionKeepsClosedLimitExactly(before: seq<real>, after: seq<real>, a: Admission, stamp: real,
                                         limit: nat, window: real)
    requires Sorted(after) && Spaced(after, limit, window) && 0 < limit && 0.0 < window
    requires after == if a.Admitted? then before + [stamp] else before
    ensures KeepsClosedLimitExactly(before, after, a, stamp, limit, window)
  {
    if a.Admitted? && HoldsClosedLimit(before, limit, window) {
      AppendKeepsClosedLimitExactly(before, stamp, limit, window);
    }
  }

  lemma AppendKeepsClosedLimitExactly(ts: seq<real>, stamp: real, limit: nat, window: real)
    requires Sorted(ts + [stamp]) && Spaced(ts + [stamp], limit, window) && 0 < limit && 0.0 < window
    requires HoldsClosedLimit(ts, limit, window)
    ensures HoldsClosedLimit(ts + [stamp], limit, window) <==>
            !(limit <= |ts| && stamp == ts[|ts| - limit] + window)
  {
    var grown := ts + [stamp];
    PrefixIsSpaced(ts, stamp, limit, window);
    ClosedWindowsHoldLimitExactly(ts, limit, window);
    ClosedWindowsHoldLimitExactly(grown, limit, window);
    if limit <= |ts| {
      assert grown[|ts|] == stamp && grown[|ts| - limit] == ts[|ts| - limit];
      assert window <= grown[|ts|] - grown[|ts| - limit];
    }
    StrictlySpacedAppend(ts, stamp, limit, window);
  }

  lemma PrefixIsSpaced(ts: seq<real>, stamp: real, limit: nat, window: real)
    requires Sorted(ts + [stamp]) && Spaced(ts + [stamp], limit, window)
    ensures Sorted(ts) && Spaced(ts, limit, window)
  {
    var grown := ts + [stamp];
    assert forall i | 0 <= i < |ts| :: ts[i] == grown[i];
  }

  lemma StrictlySpacedAppend(ts: seq<real>, stamp: real, limit: nat, window: real)
    requires 0 < limit
    ensures StrictlySpaced(ts + [stamp], limit, window) <==>
            StrictlySpaced(ts, limit, window) && (limit <= |ts| ==> window < stamp - ts[|ts| - limit])
  {
    var grown := ts + [stamp];
    assert forall i | 0 <= i < |ts| :: ts[i] == grown[i];
    assert limit <= |ts| ==> grown[|ts| - limit] == ts[|ts| - limit] && grown[|ts|] == stamp;
  }

  // An acquisition with room in the window is recorded.
  method AcquireAt(limiter: StrictSlidingWindowLimiter, now: real, ghost clock: real)
    requires limiter.Valid(clock) && clock <= now
    requires |NewerThan(limiter.history, now - limiter.rateWindow)| < limiter.rateLimit
    modifies limiter
    ensures limiter.Valid(now) && limiter.history == old(limiter.history) + [now]
  {
    var a := limiter.TryAcquire(now, now, None, clock);
    assert a.Admitted?;
  }

  // A limiter of one acquisition per second, used once.
  method UsedOnce() returns (limiter: StrictSlidingWindowLimiter)
    ensures fresh(limiter) && limiter.Valid(0.0) && limiter.rateLimit == 1 && limiter.rateWindow == 1.0
    ensures limiter.history == [0.0]
  {
    limiter := new StrictSlidingWindowLimiter(1, 1.0);
    AcquireAt(limiter, 0.0, 0.0);
    assert [] + [0.0] == [0.0];
  }

  // The clock reads 0 and then 1, and both acquisitions land in the closed second.
  method ClosedWindowOverflows() returns (limiter: StrictSlidingWindowLimiter)
    ensures fresh(limiter) && limiter.Valid(1.0) && limiter.rateLimit == 1 && limiter.rateWindow == 1.0
    ensures CountInClosed(limiter.history, 0.0, 1.0) == 2
  {
    limiter := UsedOnce();
    SecondLater();
    AcquireAt(limiter, 1.0, 0.0);
    assert [0.0] + [1.0] == [0.0, 1.0];
    BothInClosedSecond();
  }

  lemma SecondLater()
    ensures |NewerThan([0.0], 0.0)| == 0
  {
  }

  lemma BothInClosedSecond()
    ensures CountInClosed([0.0, 1.0], 0.0, 1.0) == 2
  {
    assert [0.0, 1.0][..1] == [0.0] && [0.0][..0] == [];
    assert CountInClosed([0.0], 0.0, 1.0) == 1;
  }
}
