// The pending voice registry: entry objects shared by two index keys, updated in place. Each method
// is one lock-protected section, proved to compute the section's function of VoiceProtocol on the
// registry's view.
module VoiceRegistry {
  import opened Wrappers
  import opened VoiceProtocol

  class PendingVoice {
    const claim: Claim
    var statusMessageId: Option<MessageId>
    var handoffStarted: bool

    constructor (claim: Claim)
      ensures this.claim == claim && View() == Info(None, false)
    {
      this.claim := claim;
      statusMessageId := None;
      handoffStarted := false;
    }

    function View(): Info
      reads this
    {
      Info(statusMessageId, handoffStarted)
    }
  }

  class PendingVoiceRegistry {
    var pending: map<Key, PendingVoice>
    var activeCancellations: map<Claim, nat>
    ghost var entries: map<Claim, PendingVoice>   // every entry ever made, live or not

    // The index leads to entry objects of this registry. That it is also consistent, IndexOk of
    // the view, every section's function keeps (VoiceProtocol); the sections that remove several
    // entries rely on it.
    ghost predicate Valid()
      reads this, entries.Values
    {
      && (forall c | c in entries :: entries[c].claim == c)
      && (forall k | k in pending :: pending[k].claim in entries && entries[pending[k].claim] == pending[k])
    }

    ghost function View(): Registry
      reads this, entries.Values
    {
      Registry(map k | k in pending :: pending[k].claim, map c | c in entries :: entries[c].View(), activeCancellations)
    }

    constructor ()
      ensures Valid() && View() == Registry(map[], map[], map[])
    {
      pending := map[];
      activeCancellations := map[];
      entries := map[];
    }

    // `claimId` is the freshly drawn identifier.
    method Reserve(scope: Scope, voiceId: MessageId, claimId: nat) returns (claim: Option<Claim>)
      requires Valid() && Claim(scope, voiceId, claimId) !in entries
      modifies this`pending, this`entries
      ensures Valid() && (View(), claim) == VoiceProtocol.Reserve(old(View()), scope, voiceId, claimId)
    {
      var key := (scope, voiceId);
      if key in pending {
        return None;
      }
      var c := Claim(scope, voiceId, claimId);
      var entry := new PendingVoice(c);
      Enter(entry);
      return Some(c);
    }

    method Enter(entry: PendingVoice)
      requires Valid() && entry.claim !in entries
      modifies this`pending, this`entries
      ensures Valid() && View().protection == old(View()).protection
      ensures View().pending == old(View()).pending[entry.claim.VoiceKey() := entry.claim]
      ensures View().info == old(View()).info[entry.claim := entry.View()]
    {
      pending := pending[entry.claim.VoiceKey() := entry];
      entries := entries[entry.claim := entry];
    }

    // The live entry that a claim owns.
    function EntryForClaim(claim: Claim): (e: PendingVoice?)
      requires Valid()
      reads this, entries.Values
      ensures e != null <==> Owns(View(), claim)
      ensures e != null ==> claim in entries && e == entries[claim] && claim in View().info
    {
      if claim.VoiceKey() in pending && pending[claim.VoiceKey()].claim == claim
      then pending[claim.VoiceKey()] else null
    }

    method BindStatus(claim: Claim, status: MessageId) returns (bound: bool)
      requires Valid()
      modifies this`pending, entries.Values
      ensures Valid() && entries == old(entries)
      ensures (View(), bound) == VoiceProtocol.BindStatus(old(View()), claim, status)
    {
      var entry := EntryForClaim(claim);
      if entry == null {
        return false;
      }
      if entry.statusMessageId.Some? {
        return entry.statusMessageId.value == status;
      }
      var key := (claim.scope, status);
      if key in pending && pending[key] != entry {
        return false;
      }
      entry.statusMessageId := Some(status);
      pending := pending[key := entry];
      assert View().pending == VoiceProtocol.BindStatus(old(View()), claim, status).0.pending;
      assert View().info == VoiceProtocol.BindStatus(old(View()), claim, status).0.info;
      return true;
    }

    // The section of `handoff` that accepts or rejects it.
    method BeginHandoff(claim: Claim) returns (accepted: bool)
      requires Valid()
      modifies entries.Values
      ensures Valid() && entries == old(entries)
      ensures (View(), accepted) == VoiceProtocol.BeginHandoff(old(View()), claim)
    {
      var entry := EntryForClaim(claim);
      if entry == null || entry.statusMessageId.None? || entry.handoffStarted {
        return false;
      }
      entry.handoffStarted := true;
      assert View().pending == old(View()).pending;
      assert View().info == VoiceProtocol.BeginHandoff(old(View()), claim).0.info;
      return true;
    }

    // Pops the entry's keys, each only while it still leads to this very entry.
    method RemoveEntry(entry: PendingVoice)
      requires Valid() && entry.claim in entries && entries[entry.claim] == entry
      modifies this`pending
      ensures Valid() && View() == Remove(old(View()), entry.claim)
    {
      DropsMakeRemove(View(), entry.claim);
      PopOwnKey(entry.claim.VoiceKey(), entry);
      if entry.statusMessageId.Some? {
        PopOwnKey((entry.claim.scope, entry.statusMessageId.value), entry);
      }
    }

    method PopOwnKey(key: Key, entry: PendingVoice)
      requires Valid() && entry.claim in entries && entries[entry.claim] == entry
      modifies this`pending
      ensures Valid() && View() == Drop(old(View()), key, entry.claim)
    {
      if key in pending && pending[key] == entry {
        pending := pending - {key};
      }
      assert View().pending == Drop(old(View()), key, entry.claim).pending;
    }

    // The sections of `discard` and `_complete_if_owned`; `running` tells a discard whether it
    // has a handoff task to cancel and drain.
    method ReleaseEntry(claim: Claim) returns (released: bool, running: bool)
      requires Valid()
      modifies this`pending
      ensures Valid() && (View(), released) == Release(old(View()), claim)
      ensures running == (released && old(View()).info[claim].handoff)
    {
      var entry := EntryForClaim(claim);
      if entry == null {
        return false, false;
      }
      RemoveEntry(entry);
      return true, entry.handoffStarted;
    }

    function IsExcluded(entry: PendingVoice, current: Option<Claim>): (r: bool)
      requires Valid()
      reads this, entries.Values
      ensures r == Excluded(View(), entry.claim, current)
    {
      current == Some(entry.claim)
      || (entry.claim in activeCancellations && 0 < activeCancellations[entry.claim])
    }

    // The section of `cancel`, after protecting the current claim.
    method TakeReply(scope: Scope, replyId: MessageId, current: Option<Claim>) returns (taken: Option<PendingVoice>)
      requires Valid() && IndexOk(View())
      modifies this`pending
      ensures Valid() && entries == old(entries)
      ensures View() == RemoveAll(old(View()), SelectReply(old(View()), scope, replyId, current))
      ensures taken.Some? <==> SelectReply(old(View()), scope, replyId, current) != {}
      ensures taken.Some? ==> SelectReply(old(View()), scope, replyId, current) == {taken.value.claim}
      ensures forall c :: taken.Some? && taken.value.claim == c <==>
                && c in old(View()).info && Owns(old(View()), c) && c.scope == scope
                && (c.voiceId == replyId || old(View()).info[c].status == Some(replyId))
                && current != Some(c) && Protection(old(View()), c) == 0
    {
      forall c ensures c in SelectReply(View(), scope, replyId, current) <==>
                         && c in View().info && Owns(View(), c) && c.scope == scope
                         && (c.voiceId == replyId || View().info[c].status == Some(replyId))
                         && current != Some(c) && Protection(View(), c) == 0
      {
        ReplySelectsExactly(View(), scope, replyId, current, c);
      }
      var key := (scope, replyId);
      if key !in pending || IsExcluded(pending[key], current) {
        assert RemoveAll(View(), {}).pending == View().pending;
        return None;
      }
      var entry := pending[key];
      RemoveIsByIdentity(View(), entry.claim);
      RemoveEntry(entry);
      return Some(entry);
    }

    // Cancels a scope, or everything if there is none: every entry is taken over once.
    method TakeScope(scope: Option<Scope>, current: Option<Claim>) returns (taken: set<PendingVoice>)
      requires Valid() && IndexOk(View())
      modifies this`pending
      ensures Valid() && entries == old(entries)
      ensures Claims(taken) == SelectScope(old(View()), scope, current)
      ensures View() == RemoveAll(old(View()), SelectScope(old(View()), scope, current))
      ensures forall c :: c in Claims(taken) <==>
                && c in old(View()).info && Owns(old(View()), c) && (scope.None? || c.scope == scope.value)
                && current != Some(c) && Protection(old(View()), c) == 0
      ensures forall c :: Owns(View(), c) <==> Owns(old(View()), c) && c !in Claims(taken)
    {
      taken := set k | k in pending && (scope.None? || scope.value == k.0)
          && !IsExcluded(pending[k], current) :: pending[k];
      forall c | c in SelectScope(View(), scope, current) ensures c in Claims(taken) {
        var k :| k in pending && (scope.None? || scope.value == k.0) && !IsExcluded(pending[k], current)
            && pending[k].claim == c;
        assert pending[k] in taken;
      }
      forall e | e in taken ensures e.claim in SelectScope(View(), scope, current) {
        var k :| k in pending && (scope.None? || scope.value == k.0) && !IsExcluded(pending[k], current)
            && pending[k] == e;
        assert View().pending[k] == e.claim;
      }
      TakingEndsOwnership(View(), scope, current);
      RemoveEntries(taken);
    }

    method RemoveEntries(taken: set<PendingVoice>)
      requires Valid() && IndexOk(View())
      requires forall e | e in taken :: e.claim in entries && entries[e.claim] == e
      modifies this`pending
      ensures Valid() && View() == RemoveAll(old(View()), Claims(taken))
    {
      ghost var before := View();
      var rest := taken;
      ghost var done: set<PendingVoice> := {};
      assert RemoveAll(before, Claims({})).pending == before.pending;
      while rest != {}
        invariant Valid() && rest <= taken && done == taken - rest
        invariant View() == RemoveAll(before, Claims(done))
        decreases rest
      {
        var entry :| entry in rest;
        RemoveEntry(entry);
        RemoveExtends(before, Claims(done), entry.claim);
        ClaimsExtend(done, entry);
        rest, done := rest - {entry}, done + {entry};
      }
      assert done == taken;
    }

    method ProtectClaim(claim: Option<Claim>)
      requires Valid()
      modifies this`activeCancellations
      ensures Valid() && View() == Protect(old(View()), claim)
    {
      if claim.Some? {
        var count := if claim.value in activeCancellations then activeCancellations[claim.value] else 0;
        activeCancellations := activeCancellations[claim.value := count + 1];
      }
      assert View().pending == old(View()).pending && View().info == old(View()).info;
    }

    // Only a protected claim can be unprotected.
    method UnprotectClaim(claim: Option<Claim>)
      requires Valid() && (claim.Some? ==> claim.value in activeCancellations && 0 < activeCancellations[claim.value])
      modifies this`activeCancellations
      ensures Valid() && View() == Unprotect(old(View()), claim)
    {
      if claim.Some? {
        var remaining := activeCancellations[claim.value] - 1;
        if 0 < remaining {
          activeCancellations := activeCancellations[claim.value := remaining];
        } else {
          activeCancellations := activeCancellations - {claim.value};
        }
      }
      assert View().pending == old(View()).pending && View().info == old(View()).info;
    }
  }

  ghost function Claims(entries: set<PendingVoice>): set<Claim> {
    set e | e in entries :: e.claim
  }

  lemma TakingEndsOwnership(r: Registry, scope: Option<Scope>, current: Option<Claim>)
    requires IndexOk(r)
    ensures forall c :: c in SelectScope(r, scope, current) <==>
              && c in r.info && Owns(r, c) && (scope.None? || c.scope == scope.value)
              && current != Some(c) && Protection(r, c) == 0
    ensures var taken := SelectScope(r, scope, current);
            forall c :: Owns(RemoveAll(r, taken), c) <==> Owns(r, c) && c !in taken
  {
    RemoveAllKeepsIndex(r, SelectScope(r, scope, current));
    forall c ensures c in SelectScope(r, scope, current) <==>
                       && c in r.info && Owns(r, c) && (scope.None? || c.scope == scope.value)
                       && current != Some(c) && Protection(r, c) == 0
    {
      ScopeSelectsExactly(r, scope, current, c);
    }
  }

  lemma ClaimsExtend(done: set<PendingVoice>, entry: PendingVoice)
    ensures Claims(done + {entry}) == Claims(done) + {entry.claim}
  {
  }

  // Entries can be removed one by one, in any order.
  lemma RemoveExtends(r: Registry, done: set<Claim>, c: Claim)
    requires IndexOk(r) && c in r.info
    ensures Remove(RemoveAll(r, done), c) == RemoveAll(r, done + {c})
  {
    RemoveAllKeepsIndex(r, done);
    RemoveIsByIdentity(RemoveAll(r, done), c);
    assert RemoveAll(RemoveAll(r, done), {c}).pending == RemoveAll(r, done + {c}).pending;
  }
}
