// The compacting delivery queue: one entry a key, in order of first arrival, running the latest
// function for all futures that wait for it.
module DeliveryQueue {
  import opened Wrappers

  type Key = string
  type Func = nat      // functions are opaque
  type Future = nat    // futures are known by identity

  datatype Entry = Entry(key: Key, func: Func, futures: seq<Future>)

  datatype Resolution = Result | Error | Cancelled

  // ----- the queue as a keyed FIFO -----

  predicate HasKey(q: seq<Entry>, key: Key) {
    exists i | 0 <= i < |q| :: q[i].key == key
  }

  predicate Distinct(q: seq<Entry>) {
    forall i, j | 0 <= i < j < |q| :: q[i].key != q[j].key
  }

  function Compact(q: seq<Entry>, key: Key, func: Func, futures: seq<Future>): seq<Entry> {
    if q == [] then []
    else if q[0].key == key then [Entry(key, func, q[0].futures + futures)] + q[1..]
    else [q[0]] + Compact(q[1..], key, func, futures)
  }

  function Enqueued(q: seq<Entry>, key: Key, func: Func, futures: seq<Future>, front: bool): seq<Entry> {
    if HasKey(q, key) then Compact(q, key, func, futures)
    else if front then [Entry(key, func, futures)] + q
    else q + [Entry(key, func, futures)]
  }

  function AllFutures(q: seq<Entry>): seq<Future> {
    if q == [] then [] else q[0].futures + AllFutures(q[1..])
  }

  // Compaction changes one entry only: no entry moves, and the key's futures queue up behind
  // those already waiting.
  lemma {:induction false} CompactKeepsPlaces(q: seq<Entry>, key: Key, func: Func, futures: seq<Future>)
    requires Distinct(q)
    ensures var r := Compact(q, key, func, futures);
            && |r| == |q| && Distinct(r)
            && forall i | 0 <= i < |q| ::
                 r[i] == if q[i].key == key then Entry(key, func, q[i].futures + futures) else q[i]
  {
    if q != [] && q[0].key != key {
      var rest := q[1..];
      assert forall i | 0 <= i < |rest| :: rest[i] == q[i + 1];
      CompactKeepsPlaces(rest, key, func, futures);
    }
  }

  lemma {:induction false} CompactAddsFutures(q: seq<Entry>, key: Key, func: Func, futures: seq<Future>)
    requires HasKey(q, key)
    ensures multiset(AllFutures(Compact(q, key, func, futures))) == multiset(AllFutures(q)) + multiset(futures)
  {
    if q[0].key != key {
      var i :| 0 <= i < |q| && q[i].key == key;
      assert q[1..][i - 1].key == key;
      CompactAddsFutures(q[1..], key, func, futures);
      assert Compact(q, key, func, futures)[1..] == Compact(q[1..], key, func, futures);
    } else {
      assert Compact(q, key, func, futures)[1..] == q[1..];
    }
  }

  lemma {:induction false} AppendAddsFutures(q: seq<Entry>, e: Entry)
    ensures AllFutures(q + [e]) == AllFutures(q) + e.futures
  {
    if q == [] {
      assert AllFutures([e]) == e.futures + AllFutures([]);
    } else {
      assert (q + [e])[1..] == q[1..] + [e];
      AppendAddsFutures(q[1..], e);
    }
  }

  lemma EnqueueAddsFutures(q: seq<Entry>, key: Key, func: Func, futures: seq<Future>, front: bool)
    ensures multiset(AllFutures(Enqueued(q, key, func, futures, front))) == multiset(AllFutures(q)) + multiset(futures)
  {
    if HasKey(q, key) {
      CompactAddsFutures(q, key, func, futures);
    } else if front {
      assert ([Entry(key, func, futures)] + q)[1..] == q;
    } else {
      AppendAddsFutures(q, Entry(key, func, futures));
    }
  }

  lemma EnqueueKeepsDistinct(q: seq<Entry>, key: Key, func: Func, futures: seq<Future>, front: bool)
    requires Distinct(q)
    ensures Distinct(Enqueued(q, key, func, futures, front))
  {
    CompactKeepsPlaces(q, key, func, futures);
  }

  // ----- list and map together are such a queue -----

  type Pending = map<Key, (Func, seq<Future>)>

  // The list and the map hold the same keys, the list each of them once.
  predicate SameKeys(keys: seq<Key>, pending: Pending) {
    && (forall i, j | 0 <= i < j < |keys| :: keys[i] != keys[j])
    && (forall k | k in pending :: k in keys)
    && (forall i | 0 <= i < |keys| :: keys[i] in pending)
  }

  function QueueOf(keys: seq<Key>, pending: Pending): (q: seq<Entry>)
    requires forall i | 0 <= i < |keys| :: keys[i] in pending
    ensures |q| == |keys|
    ensures forall i | 0 <= i < |q| :: q[i] == Entry(keys[i], pending[keys[i]].0, pending[keys[i]].1)
  {
    seq(|keys|, i requires 0 <= i < |keys| => Entry(keys[i], pending[keys[i]].0, pending[keys[i]].1))
  }

  lemma KeysMatch(keys: seq<Key>, pending: Pending, key: Key)
    requires SameKeys(keys, pending)
    ensures HasKey(QueueOf(keys, pending), key) <==> key in pending
    ensures Distinct(QueueOf(keys, pending))
  {
    var q := QueueOf(keys, pending);
    if key in pending {
      var i :| 0 <= i < |keys| && keys[i] == key;
      assert q[i].key == key;
    }
  }

  lemma ReplacingCompacts(keys: seq<Key>, pending: Pending, key: Key, func: Func, futures: seq<Future>)
    requires SameKeys(keys, pending) && key in pending
    ensures var updated := pending[key := (func, pending[key].1 + futures)];
            SameKeys(keys, updated) && QueueOf(keys, updated) == Compact(QueueOf(keys, pending), key, func, futures)
  {
    KeysMatch(keys, pending, key);
    CompactKeepsPlaces(QueueOf(keys, pending), key, func, futures);
  }

  lemma AppendingSameKeys(keys: seq<Key>, pending: Pending, key: Key, func: Func, futures: seq<Future>)
    requires SameKeys(keys, pending) && key !in pending
    ensures SameKeys(keys + [key], pending[key := (func, futures)])
  {
    forall k | k in pending[key := (func, futures)] ensures k in keys + [key] {
    }
  }

  lemma PushingSameKeys(keys: seq<Key>, pending: Pending, key: Key, func: Func, futures: seq<Future>)
    requires SameKeys(keys, pending) && key !in pending
    ensures SameKeys([key] + keys, pending[key := (func, futures)])
  {
    forall k | k in pending[key := (func, futures)] ensures k in [key] + keys {
    }
  }

  lemma AppendingEnqueues(keys: seq<Key>, pending: Pending, key: Key, func: Func, futures: seq<Future>)
    requires SameKeys(keys, pending) && key !in pending
    ensures var updated := pending[key := (func, futures)];
            && SameKeys(keys + [key], updated)
            && QueueOf(keys + [key], updated) == QueueOf(keys, pending) + [Entry(key, func, futures)]
  {
    AppendingSameKeys(keys, pending, key, func, futures);
  }

  lemma PushingEnqueues(keys: seq<Key>, pending: Pending, key: Key, func: Func, futures: seq<Future>)
    requires SameKeys(keys, pending) && key !in pending
    ensures var updated := pending[key := (func, futures)];
            && SameKeys([key] + keys, updated)
            && QueueOf([key] + keys, updated) == [Entry(key, func, futures)] + QueueOf(keys, pending)
  {
    PushingSameKeys(keys, pending, key, func, futures);
  }

  lemma TakingSameKeys(keys: seq<Key>, pending: Pending)
    requires SameKeys(keys, pending) && keys != []
    ensures SameKeys(keys[1..], pending - {keys[0]})
  {
    forall k | k in pending - {keys[0]} ensures k in keys[1..] {
      var i :| 0 <= i < |keys| && keys[i] == k;
      assert keys[1..][i - 1] == k;
    }
  }

  lemma TakingPops(keys: seq<Key>, pending: Pending)
    requires SameKeys(keys, pending) && keys != []
    ensures SameKeys(keys[1..], pending - {keys[0]})
    ensures QueueOf(keys[1..], pending - {keys[0]}) == QueueOf(keys, pending)[1..]
  {
    TakingSameKeys(keys, pending);
  }

  // ----- the limiter on values -----

  datatype State = State(
    queue: seq<Entry>,
    active: seq<Future>,
    resolved: map<Future, Resolution>,   // the done futures
    closed: bool,
    working: bool)                       // the worker task exists and has not ended

  function Resolve(resolved: map<Future, Resolution>, fs: seq<Future>, r: Resolution): map<Future, Resolution> {
    resolved + map f | f in fs && f !in resolved :: r
  }

  function Enqueue(s: State, key: Key, func: Func, futures: seq<Future>, front: bool): (State, bool) {
    if s.closed || !s.working then (s, false)
    else (s.(queue := Enqueued(s.queue, key, func, futures, front)), true)
  }

  // The worker takes the head of the queue, unless shutdown was requested.
  function Take(s: State): State
    requires s.queue != []
  {
    s.(queue := s.queue[1..], active := s.queue[0].futures)
  }

  // The taken function returned, raised or was cancelled: its futures learn of it.
  function Finish(s: State, r: Resolution): State {
    s.(resolved := Resolve(s.resolved, s.active, r), active := [])
  }

  // The worker itself is cancelled.
  function WorkerEnds(s: State): State {
    Finish(s, Cancelled).(working := false)
  }

  // The locked section of shutdown.
  function Shutdown(s: State): State {
    s.(queue := [], closed := true,
       resolved := Resolve(Resolve(s.resolved, AllFutures(s.queue), Cancelled), s.active, Cancelled))
  }

  lemma ResolveOneMore(resolved: map<Future, Resolution>, fs: seq<Future>, f: Future, r: Resolution)
    ensures var done := Resolve(resolved, fs, r);
            Resolve(resolved, fs + [f], r) == if f in done then done else done[f := r]
  {
  }

  // ----- the limiter in place -----

  class MessagingRateLimiter {
    var queueList: seq<Key>
    var queueMap: Pending
    var activeFutures: seq<Future>
    var resolved: map<Future, Resolution>
    var closed: bool
    var workerRunning: bool

    ghost predicate Valid()
      reads this
    {
      SameKeys(queueList, queueMap)
    }

    ghost function View(): State
      requires Valid()
      reads this
    {
      State(QueueOf(queueList, queueMap), activeFutures, resolved, closed, workerRunning)
    }

    constructor ()
      ensures Valid() && View() == State([], [], map[], false, false)
    {
      queueList, queueMap, activeFutures := [], map[], [];
      resolved, closed, workerRunning := map[], false, false;
    }

    // False stands for an exception: the limiter is closed.
    method Start() returns (ok: bool)
      requires Valid()
      modifies this`workerRunning
      ensures Valid() && ok == !closed && View() == old(View()).(working := ok || old(workerRunning))
    {
      if closed {
        return false;
      }
      workerRunning := true;
      return true;
    }

    // The locked section of enqueueing. False stands for an exception: the limiter is closed or has no
    // worker.
    method EnqueueInternal(func: Func, futures: seq<Future>, key: Key, front: bool) returns (ok: bool)
      requires Valid()
      modifies this`queueList, this`queueMap
      ensures Valid() && (View(), ok) == Enqueue(old(View()), key, func, futures, front)
    {
      if closed || !workerRunning {
        return false;
      }
      KeysMatch(queueList, queueMap, key);
      if key in queueMap {
        ReplacingCompacts(queueList, queueMap, key, func, futures);
        queueMap := queueMap[key := (func, queueMap[key].1 + futures)];
      } else {
        if front {
          PushingEnqueues(queueList, queueMap, key, func, futures);
        } else {
          AppendingEnqueues(queueList, queueMap, key, func, futures);
        }
        queueMap := queueMap[key := (func, futures)];
        queueList := if front then [key] + queueList else queueList + [key];
      }
      return true;
    }

    // The worker's locked section, when it finds work.
    method TakeNext() returns (func: Func, futures: seq<Future>)
      requires Valid() && queueList != [] && !closed
      modifies this`queueList, this`queueMap, this`activeFutures
      ensures Valid() && View() == Take(old(View()))
      ensures Entry(old(queueList)[0], func, futures) == old(View()).queue[0]
    {
      TakingPops(queueList, queueMap);
      var key := queueList[0];
      queueList := queueList[1..];
      func, futures := queueMap[key].0, queueMap[key].1;
      queueMap := queueMap - {key};
      activeFutures := futures;
    }

    method ResolveAll(futures: seq<Future>, r: Resolution)
      modifies this`resolved
      ensures resolved == Resolve(old(resolved), futures, r)
    {
      for i := 0 to |futures|
        invariant resolved == Resolve(old(resolved), futures[..i], r)
      {
        ResolveOneMore(old(resolved), futures[..i], futures[i], r);
        assert futures[..i + 1] == futures[..i] + [futures[i]];
        if futures[i] !in resolved {
          resolved := resolved[futures[i] := r];
        }
      }
      assert futures[..|futures|] == futures;
    }

    method FinishActive(r: Resolution)
      requires Valid()
      modifies this`resolved, this`activeFutures
      ensures Valid() && View() == Finish(old(View()), r)
    {
      ResolveAll(activeFutures, r);
      activeFutures := [];
    }

    method WorkerCancelled()
      requires Valid()
      modifies this`resolved, this`activeFutures, this`workerRunning
      ensures Valid() && View() == WorkerEnds(old(View()))
    {
      FinishActive(Cancelled);
      workerRunning := false;
    }

    // The part of `shutdown` up to the end of its locked section.
    method BeginShutdown()
      requires Valid()
      modifies this`queueList, this`queueMap, this`resolved, this`closed
      ensures Valid() && View() == Shutdown(old(View()))
    {
      closed := true;
      var queued := CollectFutures();
      queueList, queueMap := [], map[];
      ResolveAll(queued, Cancelled);
      ResolveAll(activeFutures, Cancelled);
    }

    method CollectFutures() returns (queued: seq<Future>)
      requires Valid()
      ensures queued == AllFutures(View().queue)
    {
      queued := [];
      var i := |queueList|;
      assert QueueOf(queueList, queueMap)[i..] == [];
      while 0 < i
        invariant 0 <= i <= |queueList|
        invariant queued == AllFutures(QueueOf(queueList, queueMap)[i..])
      {
        i := i - 1;
        var q := QueueOf(queueList, queueMap);
        assert q[i..][1..] == q[i + 1..];
        queued := queueMap[queueList[i]].1 + queued;
      }
      assert QueueOf(queueList, queueMap)[0..] == QueueOf(queueList, queueMap);
    }
  }

  // ----- runs -----

  datatype Action =
    | DoStart
    | DoEnqueue(key: Key, func: Func, future: Future, front: bool)
    | DoTake
    | DoFinish(r: Resolution)
    | DoWorkerEnds
    | CallerCancels(future: Future)
    | DoShutdown

  predicate Enabled(s: State, a: Action) {
    match a
    case DoTake => s.working && !s.closed && s.active == [] && s.queue != []
    case DoFinish(_) => s.working
    case DoWorkerEnds => s.working
    case _ => true
  }

  function Apply(s: State, a: Action): State
    requires Enabled(s, a)
  {
    match a
    case DoStart => if s.closed then s else s.(working := true)
    case DoEnqueue(key, func, future, front) =>
      var (s1, ok) := Enqueue(s, key, func, [future], front);
      // the enqueuer cancels the future it could not enqueue
      if ok then s1 else s.(resolved := Resolve(s.resolved, [future], Cancelled))
    case DoTake => Take(s)
    case DoFinish(r) => Finish(s, r)
    case DoWorkerEnds => WorkerEnds(s)
    case CallerCancels(f) => s.(resolved := Resolve(s.resolved, [f], Cancelled))
    case DoShutdown => Shutdown(s)
  }

  predicate IsRun(ss: seq<State>, actions: seq<Action>) {
    && |ss| == |actions| + 1
    && ss[0] == State([], [], map[], false, false)
    && FreshFutures(actions)
    && forall i | 0 <= i < |actions| :: Enabled(ss[i], actions[i]) && ss[i + 1] == Apply(ss[i], actions[i])
  }

  // A future is created for one enqueueing.
  predicate FreshFutures(actions: seq<Action>) {
    forall i, j | 0 <= i < j < |actions| && actions[i].DoEnqueue? && actions[j].DoEnqueue? ::
      actions[i].future != actions[j].future
  }

  // The futures handed in so far.
  function HandedIn(actions: seq<Action>): multiset<Future> {
    if actions == [] then multiset{}
    else HandedIn(actions[..|actions| - 1])
         + if actions[|actions| - 1].DoEnqueue? then multiset{actions[|actions| - 1].future} else multiset{}
  }

  function Located(s: State): multiset<Future> {
    multiset(AllFutures(s.queue)) + multiset(s.active)
  }

  // No future is held twice, nothing is held that was not handed in, and what was handed in and
  // is not done is held: queued or active. A closed limiter has an empty queue and holds only
  // done futures.
  predicate Accounted(s: State, handedIn: multiset<Future>) {
    && Distinct(s.queue)
    && Located(s) <= handedIn
    && (forall f | f in handedIn :: f in s.resolved || f in Located(s))
    && (s.closed ==> s.queue == [] && forall f | f in s.active :: f in s.resolved)
  }

  lemma TakeKeepsLocated(s: State)
    requires s.queue != [] && s.active == []
    ensures Located(Take(s)) == Located(s)
  {
  }

  lemma EnqueueKeepsAccounted(s: State, a: Action, handedIn: multiset<Future>)
    requires Accounted(s, handedIn) && a.DoEnqueue?
    ensures Accounted(Apply(s, a), handedIn + multiset{a.future})
  {
    var z := Apply(s, a);
    if s.closed || !s.working {
    } else {
      EnqueueAddsFutures(s.queue, a.key, a.func, [a.future], a.front);
      EnqueueKeepsDistinct(s.queue, a.key, a.func, [a.future], a.front);
      assert multiset([a.future]) == multiset{a.future};
      assert Located(z) == Located(s) + multiset{a.future};
    }
  }

  lemma ShutdownKeepsAccounted(s: State, handedIn: multiset<Future>)
    requires Accounted(s, handedIn)
    ensures Accounted(Shutdown(s), handedIn)
    ensures forall f | f in handedIn :: f in Shutdown(s).resolved
  {
    var z := Shutdown(s);
    forall f | f in handedIn ensures f in z.resolved {
      if f !in s.resolved {
        assert f in Located(s);
        assert f in AllFutures(s.queue) || f in s.active;
      }
    }
    assert Located(z) <= Located(s);
  }

  lemma StepKeepsAccounted(s: State, a: Action, handedIn: multiset<Future>)
    requires Accounted(s, handedIn) && Enabled(s, a) && !a.DoEnqueue?
    ensures Accounted(Apply(s, a), handedIn)
  {
    match a
    case DoTake =>
      TakeKeepsLocated(s);
    case DoShutdown => ShutdownKeepsAccounted(s, handedIn);
    case DoFinish(r) => FinishKeepsAccounted(s, r, handedIn);
    case DoWorkerEnds => FinishKeepsAccounted(s, Cancelled, handedIn);
    case _ =>
  }

  lemma FinishKeepsAccounted(s: State, r: Resolution, handedIn: multiset<Future>)
    requires Accounted(s, handedIn)
    ensures Accounted(Finish(s, r), handedIn)
  {
    assert Located(Finish(s, r)) <= Located(s);
    forall f | f in handedIn ensures f in Finish(s, r).resolved || f in Located(Finish(s, r)) {
      assert f in Located(s) && f !in AllFutures(s.queue) ==> f in s.active;
    }
  }

  lemma {:induction false} HandedInOnce(actions: seq<Action>, f: Future)
    requires FreshFutures(actions)
    ensures HandedIn(actions)[f] <= 1
    ensures f in HandedIn(actions) ==> exists i | 0 <= i < |actions| :: actions[i].DoEnqueue? && actions[i].future == f
  {
    if actions != [] {
      var before := actions[..|actions| - 1];
      HandedInOnce(before, f);
      if f in HandedIn(before) {
        var i :| 0 <= i < |before| && before[i].DoEnqueue? && before[i].future == f;
        assert actions[i] == before[i];
      }
    }
  }

  lemma HeldOnce(s: State, actions: seq<Action>, n: nat, f: Future)
    requires FreshFutures(actions) && n <= |actions| && Accounted(s, HandedIn(actions[..n]))
    ensures Located(s)[f] <= 1
  {
    HandedInOnce(actions[..n], f);
    assert Located(s)[f] <= HandedIn(actions[..n])[f];
  }

  // In every reachable state every unresolved future is in exactly one place, queued or active.
  lemma {:induction false} FuturesAreAccountedFor(ss: seq<State>, actions: seq<Action>, n: nat)
    requires IsRun(ss, actions) && n <= |actions|
    ensures Accounted(ss[n], HandedIn(actions[..n]))
    ensures forall f :: Located(ss[n])[f] <= 1
  {
    if 0 < n {
      FuturesAreAccountedFor(ss, actions, n - 1);
      assert actions[..n][..n - 1] == actions[..n - 1];
      var a := actions[n - 1];
      if a.DoEnqueue? {
        EnqueueKeepsAccounted(ss[n - 1], a, HandedIn(actions[..n - 1]));
      } else {
        StepKeepsAccounted(ss[n - 1], a, HandedIn(actions[..n - 1]));
      }
    }
    forall f ensures Located(ss[n])[f] <= 1 {
      HeldOnce(ss[n], actions, n, f);
    }
  }

  // After a shutdown's locked section no future that was ever handed in is unresolved, and none
  // handed in later stays so.
  lemma ShutdownResolvesAll(ss: seq<State>, actions: seq<Action>, n: nat, f: Future)
    requires IsRun(ss, actions) && n <= |actions| && ss[n].closed && f in HandedIn(actions[..n])
    ensures f in ss[n].resolved
  {
    FuturesAreAccountedFor(ss, actions, n);
    assert AllFutures(ss[n].queue) == [];
  }

  // ----- who learns what -----

  // A done future keeps what it was resolved with.
  lemma ResolutionsAreFinal(s: State, a: Action, f: Future)
    requires Enabled(s, a) && f in s.resolved
    ensures f in Apply(s, a).resolved && Apply(s, a).resolved[f] == s.resolved[f]
  {
  }

  // What a step resolves an undone future with, if it does: the outcome of the operation that runs for
  // it, or a cancellation by the worker's end, by its caller, by a refusal to enqueue it, or by a
  // shutdown that finds it queued or active.
  function Outcome(s: State, a: Action, f: Future): Option<Resolution> {
    match a
    case DoFinish(r) => if f in s.active then Some(r) else None
    case DoWorkerEnds => if f in s.active then Some(Cancelled) else None
    case CallerCancels(future) => if f == future then Some(Cancelled) else None
    case DoEnqueue(_, _, future, _) => if f == future && (s.closed || !s.working) then Some(Cancelled) else None
    case DoShutdown => if f in s.active || IsQueued(s.queue, f) then Some(Cancelled) else None
    case _ => None
  }

  predicate IsQueued(q: seq<Entry>, f: Future) {
    exists i | 0 <= i < |q| :: f in q[i].futures
  }

  lemma {:induction false} QueuedFutures(q: seq<Entry>, f: Future)
    ensures f in AllFutures(q) <==> IsQueued(q, f)
  {
    if q != [] {
      QueuedFutures(q[1..], f);
      if IsQueued(q[1..], f) {
        var i :| 0 <= i < |q[1..]| && f in q[1..][i].futures;
        assert f in q[i + 1].futures;
      }
      if IsQueued(q, f) && f !in q[0].futures {
        var i :| 0 <= i < |q| && f in q[i].futures;
        assert f in q[1..][i - 1].futures;
      }
    }
  }

  lemma StepResolvesExactly(s: State, a: Action, f: Future)
    requires Enabled(s, a) && f !in s.resolved
    ensures var z := Apply(s, a);
            && (f in z.resolved <==> Outcome(s, a, f).Some?)
            && (f in z.resolved ==> z.resolved[f] == Outcome(s, a, f).value)
  {
    QueuedFutures(s.queue, f);
  }

  // The worker stops only at its own end, and starts at no time after a shutdown; what is queued waits
  // for the next worker.
  lemma WorkerEndsAlone(s: State, a: Action)
    requires Enabled(s, a)
    ensures s.working && !Apply(s, a).working ==> a.DoWorkerEnds?
    ensures !s.working && Apply(s, a).working ==> a.DoStart? && !s.closed
    ensures a.DoStart? && !s.closed ==> Apply(s, a).working
    ensures a.DoWorkerEnds? ==> Apply(s, a).queue == s.queue && Apply(s, a).active == []
    ensures Apply(s, a).closed <==> s.closed || a.DoShutdown?
  {
  }

  // ----- first come, first served -----

  // Where a key belongs in the queue: by the enqueueing that brought it in, those put in front before
  // all others and the latest of them first.
  function Rank(ss: seq<State>, actions: seq<Action>, n: nat, key: Key): int
    requires IsRun(ss, actions) && n <= |actions|
  {
    if n == 0 then 0
    else if BringsIn(ss[n - 1], actions[n - 1], key) then (if actions[n - 1].front then 0 - n else n)
    else Rank(ss, actions, n - 1, key)
  }

  predicate BringsIn(s: State, a: Action, key: Key) {
    a.DoEnqueue? && a.key == key && !s.closed && s.working && forall i | 0 <= i < |s.queue| :: s.queue[i].key != key
  }

  lemma {:induction false} RankIsBounded(ss: seq<State>, actions: seq<Action>, n: nat, key: Key)
    requires IsRun(ss, actions) && n <= |actions|
    ensures 0 - n <= Rank(ss, actions, n, key) <= n
  {
    if 0 < n {
      RankIsBounded(ss, actions, n - 1, key);
    }
  }

  predicate InOrder(q: seq<Entry>, rank: Key -> int) {
    forall i, j | 0 <= i < j < |q| :: rank(q[i].key) < rank(q[j].key)
  }

  lemma StepKeepsOrder(s: State, a: Action, rank: Key -> int, next: Key -> int, n: nat)
    requires Enabled(s, a) && Distinct(s.queue) && InOrder(s.queue, rank)
    requires forall k :: 0 - n < rank(k) < n
    requires forall k :: next(k) == if BringsIn(s, a, k) then (if a.front then 0 - n else n) else rank(k)
    ensures InOrder(Apply(s, a).queue, next)
  {
    if a.DoEnqueue? && !s.closed && s.working {
      if HasKey(s.queue, a.key) {
        CompactingKeepsOrder(s.queue, a.key, a.func, [a.future], rank);
      } else {
        AddingKeepsOrder(s.queue, Entry(a.key, a.func, [a.future]), a.front, rank, next, n);
      }
    }
  }

  lemma CompactingKeepsOrder(q: seq<Entry>, key: Key, func: Func, futures: seq<Future>, rank: Key -> int)
    requires Distinct(q) && InOrder(q, rank)
    ensures InOrder(Compact(q, key, func, futures), rank)
  {
    CompactKeepsPlaces(q, key, func, futures);
  }

  lemma AddingKeepsOrder(q: seq<Entry>, e: Entry, front: bool, rank: Key -> int, next: Key -> int, n: nat)
    requires InOrder(q, rank) && !HasKey(q, e.key) && next(e.key) == if front then 0 - n else n
    requires forall i | 0 <= i < |q| :: next(q[i].key) == rank(q[i].key) && 0 - n < rank(q[i].key) < n
    ensures InOrder(if front then [e] + q else q + [e], next)
  {
    var r := if front then [e] + q else q + [e];
    assert forall i | 0 <= i < |q| :: r[if front then i + 1 else i] == q[i];
  }

  // In every reachable state the queue is in this order, so the worker takes first what came first.
  lemma {:induction false} QueueIsInOrder(ss: seq<State>, actions: seq<Action>, n: nat)
    requires IsRun(ss, actions) && n <= |actions|
    ensures InOrder(ss[n].queue, (k: Key) => Rank(ss, actions, n, k))
  {
    if 0 < n {
      QueueIsInOrder(ss, actions, n - 1);
      FuturesAreAccountedFor(ss, actions, n - 1);
      var rank := (k: Key) => Rank(ss, actions, n - 1, k);
      forall k ensures 0 - n < rank(k) < n {
        RankIsBounded(ss, actions, n - 1, k);
      }
      StepKeepsOrder(ss[n - 1], actions[n - 1], rank, (k: Key) => Rank(ss, actions, n, k), n);
    }
  }

  // ----- the latest function wins -----

  // The enqueueings of `key` still waiting after `actions`, oldest first.
  function Waiting(ss: seq<State>, actions: seq<Action>, n: nat, key: Key): seq<(Func, Future)>
    requires IsRun(ss, actions) && n <= |actions|
  {
    if n == 0 then []
    else
      var before := Waiting(ss, actions, n - 1, key);
      match actions[n - 1]
      case DoEnqueue(k, func, future, _) =>
        if k == key && !ss[n - 1].closed && ss[n - 1].working then before + [(func, future)] else before
      case DoTake => if ss[n - 1].queue[0].key == key then [] else before
      case DoShutdown => []
      case _ => before
  }

  function Futures(waiting: seq<(Func, Future)>): seq<Future> {
    seq(|waiting|, i requires 0 <= i < |waiting| => waiting[i].1)
  }

  // Key `key` is queued exactly as its waiting enqueueings say.
  predicate QueuedAs(q: seq<Entry>, key: Key, waiting: seq<(Func, Future)>) {
    && (HasKey(q, key) <==> waiting != [])
    && forall i | 0 <= i < |q| && q[i].key == key ::
         waiting != [] && q[i] == Entry(key, waiting[|waiting| - 1].0, Futures(waiting))
  }

  lemma CompactIsQueuedAs(q: seq<Entry>, key: Key, k: Key, func: Func, future: Future, waiting: seq<(Func, Future)>)
    requires Distinct(q) && QueuedAs(q, key, waiting) && HasKey(q, k)
    ensures QueuedAs(Compact(q, k, func, [future]), key, if k == key then waiting + [(func, future)] else waiting)
  {
    var r := Compact(q, k, func, [future]);
    CompactKeepsPlaces(q, k, func, [future]);
    assert Futures(waiting + [(func, future)]) == Futures(waiting) + [future];
    if HasKey(q, key) {
      var i :| 0 <= i < |q| && q[i].key == key;
      assert r[i].key == key;
    }
  }

  lemma PushIsQueuedAs(q: seq<Entry>, key: Key, k: Key, func: Func, future: Future, waiting: seq<(Func, Future)>)
    requires QueuedAs(q, key, waiting) && !HasKey(q, k)
    ensures QueuedAs([Entry(k, func, [future])] + q, key, if k == key then waiting + [(func, future)] else waiting)
  {
    var r := [Entry(k, func, [future])] + q;
    assert forall i | 1 <= i < |r| :: r[i] == q[i - 1];
    assert r[0].key == k;
    assert Futures([(func, future)]) == [future];
    if HasKey(q, key) {
      var i :| 0 <= i < |q| && q[i].key == key;
      assert r[i + 1].key == key;
    }
  }

  lemma AppendIsQueuedAs(q: seq<Entry>, key: Key, k: Key, func: Func, future: Future, waiting: seq<(Func, Future)>)
    requires QueuedAs(q, key, waiting) && !HasKey(q, k)
    ensures QueuedAs(q + [Entry(k, func, [future])], key, if k == key then waiting + [(func, future)] else waiting)
  {
    var r := q + [Entry(k, func, [future])];
    assert forall i | 0 <= i < |q| :: r[i] == q[i];
    assert r[|q|].key == k;
    assert Futures([(func, future)]) == [future];
    if HasKey(q, key) {
      var i :| 0 <= i < |q| && q[i].key == key;
      assert r[i].key == key;
    }
  }

  lemma EnqueueIsQueuedAs(q: seq<Entry>, key: Key, k: Key, func: Func, future: Future, front: bool,
      waiting: seq<(Func, Future)>)
    requires Distinct(q) && QueuedAs(q, key, waiting)
    ensures QueuedAs(Enqueued(q, k, func, [future], front), key, if k == key then waiting + [(func, future)]
            else waiting)
  {
    if HasKey(q, k) {
      CompactIsQueuedAs(q, key, k, func, future, waiting);
    } else if front {
      PushIsQueuedAs(q, key, k, func, future, waiting);
    } else {
      AppendIsQueuedAs(q, key, k, func, future, waiting);
    }
  }

  lemma TakeIsQueuedAs(q: seq<Entry>, key: Key, waiting: seq<(Func, Future)>)
    requires Distinct(q) && q != [] && QueuedAs(q, key, waiting)
    ensures QueuedAs(q[1..], key, if q[0].key == key then [] else waiting)
  {
    assert forall i | 0 <= i < |q[1..]| :: q[1..][i] == q[i + 1];
    if q[0].key != key && HasKey(q, key) {
      var i :| 0 <= i < |q| && q[i].key == key;
      assert q[1..][i - 1].key == key;
    }
  }

  // Whatever was enqueued, each key's entry runs the function enqueued last for all the futures
  // enqueued since it was last taken.
  lemma {:induction false} LatestFunctionWins(ss: seq<State>, actions: seq<Action>, n: nat, key: Key)
    requires IsRun(ss, actions) && n <= |actions|
    ensures QueuedAs(ss[n].queue, key, Waiting(ss, actions, n, key))
  {
    if 0 < n {
      LatestFunctionWins(ss, actions, n - 1, key);
      FuturesAreAccountedFor(ss, actions, n - 1);
      var s, a := ss[n - 1], actions[n - 1];
      var waiting := Waiting(ss, actions, n - 1, key);
      match a
      case DoEnqueue(k, func, future, front) => EnqueueIsQueuedAs(s.queue, key, k, func, future, front, waiting);
      case DoTake => TakeIsQueuedAs(s.queue, key, waiting);
      case _ =>
    }
  }
}
