// The await-free sections of the provider runtime manager, as functions on values.
module GenerationProtocol {
  import opened Wrappers

  type Runtime = nat   // runtimes are opaque
  type GenId = nat

  // `cleaning`: the generation's cleanup task exists and has not ended.
  datatype Generation = Generation(runtime: Runtime, leases: nat, drained: bool, retired: bool, closed: bool,
      cleaning: bool)

  // `generations` keeps every generation ever published; `retired` are the keys of the manager's
  // own table of retired generations.
  datatype Manager = Manager(
    generations: map<GenId, Generation>,
    current: GenId,
    retired: set<GenId>,
    unpublished: set<Runtime>,
    nextId: GenId,
    closing: bool,
    closed: bool)

  function WithGeneration(m: Manager, g: GenId, gen: Generation): Manager {
    m.(generations := m.generations[g := gen])
  }

  function Grant(m: Manager, g: GenId): Manager
    requires g in m.generations
  {
    WithGeneration(m, g, m.generations[g].(leases := m.generations[g].leases + 1, drained := false))
  }

  // None stands for an exception: the manager is shutting down.
  function Acquire(m: Manager): (Manager, Option<GenId>)
    requires m.current in m.generations
  {
    if m.closing || m.closed then (m, None) else (Grant(m, m.current), Some(m.current))
  }

  datatype CloseCall = AlreadyClosed | StillLeased | Joined

  // Closing a generation, up to the wait for its cleanup task, which is started if need be.
  function CloseGeneration(m: Manager, g: GenId): (Manager, CloseCall)
    requires g in m.generations
  {
    var gen := m.generations[g];
    if gen.closed then (m, AlreadyClosed)
    else if gen.leases != 0 then (m, StillLeased)
    else (WithGeneration(m, g, gen.(cleaning := true)), Joined)
  }

  function Drop(m: Manager, g: GenId): Manager
    requires g in m.generations && 0 < m.generations[g].leases
  {
    WithGeneration(m, g, m.generations[g].(leases := m.generations[g].leases - 1))
  }

  function MarkDrained(m: Manager, g: GenId): Manager
    requires g in m.generations
  {
    WithGeneration(m, g, m.generations[g].(drained := true))
  }

  // One hold ends: the last hold on a retired generation closes it, unless a shutdown will.
  function Release(m: Manager, g: GenId): Manager
    requires g in m.generations
  {
    var gen := m.generations[g];
    if gen.leases == 0 then m
    else if 1 < gen.leases then Drop(m, g)
    else
      var m1 := MarkDrained(Drop(m, g), g);
      if gen.retired && !m.closing then CloseGeneration(m1, g).0 else m1
  }

  // The cleanup task ends.
  function EndCleanup(m: Manager, g: GenId, ok: bool): Manager
    requires g in m.generations
  {
    if ok then
      WithGeneration(m, g, m.generations[g].(closed := true, cleaning := false)).(retired := m.retired - {g})
    else
      WithGeneration(m, g, m.generations[g].(cleaning := false))
  }

  function Retire(m: Manager, g: GenId): Manager
    requires g in m.generations
  {
    WithGeneration(m, g, m.generations[g].(retired := true)).(retired := m.retired + {g})
  }

  function Install(m: Manager, runtime: Runtime): Manager {
    m.(generations := m.generations[m.nextId := Generation(runtime, 0, true, false, false, false)],
       current := m.nextId, nextId := m.nextId + 1)
  }

  // Publishing a candidate: the previous generation retires, and is closed at once if unleased.
  function Publish(m: Manager, runtime: Runtime): Manager
    requires m.current in m.generations && m.current != m.nextId
  {
    var m1 := Retire(Install(m, runtime), m.current);
    if m1.generations[m.current].leases == 0 then CloseGeneration(m1, m.current).0 else m1
  }

  // The locked part of `close`: the current generation retires unless it has already.
  function BeginShutdown(m: Manager): Manager
    requires m.current in m.generations
  {
    if m.generations[m.current].retired then m else Retire(m, m.current)
  }
}
