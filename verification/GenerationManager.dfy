// The provider runtime manager, its generations and leases, updated in place. Each method is one
// await-free section, proved to compute the section's function of GenerationProtocol on the view.
module GenerationManager {
  import opened Wrappers
  import opened GenerationProtocol

  class ProviderGeneration {
    const generationId: GenId
    const runtime: Runtime
    var activeLeases: nat
    var drained: bool
    var retired: bool
    var closed: bool
    var cleanupRunning: bool   // the cleanup task exists and has not ended

    constructor (generationId: GenId, runtime: Runtime)
      ensures this.generationId == generationId && View() == Generation(runtime, 0, true, false, false, false)
    {
      this.generationId := generationId;
      this.runtime := runtime;
      activeLeases, drained, retired, closed, cleanupRunning := 0, true, false, false, false;
    }

    function View(): Generation
      reads this
    {
      Generation(runtime, activeLeases, drained, retired, closed, cleanupRunning)
    }
  }

  class ProviderRuntimeManager {
    var current: ProviderGeneration
    var retired: map<GenId, ProviderGeneration>
    var unpublished: set<Runtime>
    var nextGenerationId: GenId
    var closing: bool
    var closed: bool
    ghost var published: map<GenId, ProviderGeneration>   // every generation ever published

    ghost predicate Valid()
      reads this, published.Values
    {
      && (forall g | g in published :: published[g].generationId == g && g < nextGenerationId)
      && current.generationId in published && published[current.generationId] == current
      && (forall g | g in retired :: g in published && retired[g] == published[g])
    }

    ghost function View(): Manager
      reads this, published.Values, current
    {
      Manager(map g | g in published :: published[g].View(), current.generationId, retired.Keys, unpublished,
              nextGenerationId, closing, closed)
    }

    ghost predicate Knows(g: ProviderGeneration)
      reads this
    {
      g.generationId in published && published[g.generationId] == g
    }

    // `runtime` is what the factory made of the first settings.
    constructor (runtime: Runtime)
      ensures Valid() && fresh(current)
      ensures View() == Manager(map[1 := Generation(runtime, 0, true, false, false, false)], 1, {}, {}, 2, false, false)
    {
      var first := new ProviderGeneration(1, runtime);
      current := first;
      retired := map[];
      unpublished := {};
      nextGenerationId := 2;
      closing, closed := false, false;
      published := map[1 := first];
    }

    method Acquire() returns (lease: ProviderGenerationLease?)
      requires Valid()
      modifies current
      ensures Valid() && published == old(published)
      ensures lease == null <==> GenerationProtocol.Acquire(old(View())).1.None?
      ensures View() == GenerationProtocol.Acquire(old(View())).0
      ensures lease != null ==> fresh(lease) && !lease.released && lease.manager == this && lease.generation == current
    {
      if closing || closed {
        return null;
      }
      current.activeLeases := current.activeLeases + 1;
      current.drained := false;
      lease := new ProviderGenerationLease(this, current);
      assert View().generations == GenerationProtocol.Acquire(old(View())).0.generations;
    }

    // Starts or joins the cleanup, up to the wait for its task.
    method CloseGeneration(g: ProviderGeneration) returns (call: CloseCall)
      requires Valid() && Knows(g)
      modifies g`cleanupRunning
      ensures Valid() && (View(), call) == GenerationProtocol.CloseGeneration(old(View()), g.generationId)
    {
      if g.closed {
        return AlreadyClosed;
      }
      if g.activeLeases != 0 {
        return StillLeased;
      }
      g.cleanupRunning := true;
      assert View().generations == GenerationProtocol.CloseGeneration(old(View()), g.generationId).0.generations;
      return Joined;
    }

    // One hold on a generation ends.
    method ReleaseGeneration(g: ProviderGeneration)
      requires Valid() && Knows(g)
      modifies g
      ensures Valid() && View() == Release(old(View()), g.generationId)
    {
      if g.activeLeases == 0 {
        return;
      }
      DropHold(g);
      if g.activeLeases != 0 {
        return;
      }
      SetDrained(g);
      if g.retired && !closing {
        var _ := CloseGeneration(g);
      }
    }

    method DropHold(g: ProviderGeneration)
      requires Valid() && Knows(g) && 0 < g.activeLeases
      modifies g`activeLeases
      ensures Valid() && View() == Drop(old(View()), g.generationId)
    {
      g.activeLeases := g.activeLeases - 1;
      assert View().generations == Drop(old(View()), g.generationId).generations;
    }

    method SetDrained(g: ProviderGeneration)
      requires Valid() && Knows(g)
      modifies g`drained
      ensures Valid() && View() == MarkDrained(old(View()), g.generationId)
    {
      g.drained := true;
      assert View().generations == MarkDrained(old(View()), g.generationId).generations;
    }

    // A refresh takes its own hold; false where it finds the generation closed.
    method HoldForRefresh(g: ProviderGeneration) returns (held: bool)
      requires Valid() && Knows(g)
      modifies g
      ensures Valid() && held == !old(g.closed)
      ensures View() == if held then Grant(old(View()), g.generationId) else old(View())
    {
      if g.closed {
        return false;
      }
      g.activeLeases := g.activeLeases + 1;
      g.drained := false;
      assert View().generations == Grant(old(View()), g.generationId).generations;
      return true;
    }

    // The cleanup task ends.
    method CleanupEnded(g: ProviderGeneration, ok: bool)
      requires Valid() && Knows(g)
      modifies this`retired, g
      ensures Valid() && View() == EndCleanup(old(View()), g.generationId, ok)
    {
      if ok {
        g.closed := true;
        retired := retired - {g.generationId};
      }
      g.cleanupRunning := false;
      assert View().generations == EndCleanup(old(View()), g.generationId, ok).generations;
    }

    method RetireGeneration(g: ProviderGeneration)
      requires Valid() && Knows(g)
      modifies this`retired, g`retired
      ensures Valid() && View() == Retire(old(View()), g.generationId)
    {
      g.retired := true;
      retired := retired[g.generationId := g];
      assert View().generations == Retire(old(View()), g.generationId).generations;
    }

    // The part of `replace` after a successful commit.
    method PublishCandidate(runtime: Runtime) returns (id: GenId)
      requires Valid()
      modifies this, current
      ensures Valid() && fresh(current) && id == current.generationId == old(nextGenerationId)
      ensures View() == Publish(old(View()), runtime)
    {
      var previous := current;
      id := InstallCandidate(runtime);
      RetireGeneration(previous);
      if previous.activeLeases == 0 {
        var _ := CloseGeneration(previous);
      }
    }

    method InstallCandidate(runtime: Runtime) returns (id: GenId)
      requires Valid()
      modifies this`current, this`nextGenerationId, this`published
      ensures Valid() && fresh(current) && id == current.generationId == old(nextGenerationId)
      ensures published == old(published)[id := current] && id !in old(published)
      ensures View() == Install(old(View()), runtime)
    {
      id := nextGenerationId;
      nextGenerationId := nextGenerationId + 1;
      var candidate := new ProviderGeneration(id, runtime);
      published := published[id := candidate];
      current := candidate;
      assert View().generations == Install(old(View()), runtime).generations;
    }

    // The locked part of `close`, once the refresh is gone.
    method BeginShutdown() returns (generations: set<ProviderGeneration>)
      requires Valid() && closing
      modifies this`retired, current`retired
      ensures Valid() && View() == GenerationProtocol.BeginShutdown(old(View()))
      ensures generations == retired.Values && (set g | g in generations :: g.generationId) == View().retired
    {
      if !current.retired {
        RetireGeneration(current);
      }
      generations := retired.Values;
      forall g | g in retired ensures g in (set h | h in generations :: h.generationId) {
        assert retired[g] in generations;
      }
    }
  }

  class ProviderGenerationLease {
    const manager: ProviderRuntimeManager
    const generation: ProviderGeneration
    var released: bool

    constructor (manager: ProviderRuntimeManager, generation: ProviderGeneration)
      ensures this.manager == manager && this.generation == generation && !released
    {
      this.manager := manager;
      this.generation := generation;
      released := false;
    }

    // However often it is called, the manager's count is released once.
    method Release()
      requires manager.Valid() && manager.Knows(generation)
      modifies this, generation
      ensures released && manager.Valid()
      ensures manager.View() == if old(released) then old(manager.View())
                                else GenerationProtocol.Release(old(manager.View()), generation.generationId)
    {
      if released {
        return;
      }
      released := true;
      manager.ReleaseGeneration(generation);
    }
  }
}
