// The lock-protected sections of the pending voice registry, as functions on values.
module VoiceProtocol {
  import opened Wrappers

  type Scope = string
  type MessageId = string
  type Key = (Scope, MessageId)

  // One pending voice-note generation; `claimId` tells apart generations of one message.
  datatype Claim = Claim(scope: Scope, voiceId: MessageId, claimId: nat) {
    function VoiceKey(): Key {
      (scope, voiceId)
    }
  }

  datatype Info = Info(status: Option<MessageId>, handoff: bool)

  // `pending` is the index from voice and status messages to live entries, an entry being known
  // by its claim; `info` keeps what every entry ever made holds; `protection` counts the
  // cancellations running under each claim.
  datatype Registry = Registry(pending: map<Key, Claim>, info: map<Claim, Info>, protection: map<Claim, nat>)

  predicate Owns(r: Registry, c: Claim) {
    c.VoiceKey() in r.pending && r.pending[c.VoiceKey()] == c
  }

  // The keys of one entry.
  function KeysOf(c: Claim, info: Info): set<Key> {
    {c.VoiceKey()} + if info.status.Some? then {(c.scope, info.status.value)} else {}
  }

  function Reserve(r: Registry, scope: Scope, voiceId: MessageId, claimId: nat): (Registry, Option<Claim>) {
    if (scope, voiceId) in r.pending then (r, None)
    else
      var c := Claim(scope, voiceId, claimId);
      (r.(pending := r.pending[(scope, voiceId) := c], info := r.info[c := Info(None, false)]), Some(c))
  }

  function BindStatus(r: Registry, c: Claim, status: MessageId): (Registry, bool) {
    if !Owns(r, c) || c !in r.info then (r, false)
    else if r.info[c].status.Some? then (r, r.info[c].status.value == status)
    else
      var key := (c.scope, status);
      if key in r.pending && r.pending[key] != c then (r, false)
      else (r.(pending := r.pending[key := c], info := r.info[c := r.info[c].(status := Some(status))]), true)
  }

  function BeginHandoff(r: Registry, c: Claim): (Registry, bool) {
    if !Owns(r, c) || c !in r.info || r.info[c].status.None? || r.info[c].handoff then (r, false)
    else (r.(info := r.info[c := r.info[c].(handoff := true)]), true)
  }

  // Drops an entry's keys, as far as they are its own.
  function Remove(r: Registry, c: Claim): Registry
    requires c in r.info
  {
    r.(pending := map k | k in r.pending && !(k in KeysOf(c, r.info[c]) && r.pending[k] == c) :: r.pending[k])
  }

  // One key of an entry is dropped, if it is the entry's own.
  function Drop(r: Registry, key: Key, c: Claim): Registry {
    r.(pending := map k | k in r.pending && !(k == key && r.pending[k] == c) :: r.pending[k])
  }

  lemma DropsMakeRemove(r: Registry, c: Claim)
    requires c in r.info
    ensures var first := Drop(r, c.VoiceKey(), c);
            Remove(r, c) == if r.info[c].status.Some? then Drop(first, (c.scope, r.info[c].status.value), c) else first
  {
  }

  // Shared by `discard` and the completion of a handoff.
  function Release(r: Registry, c: Claim): (Registry, bool) {
    if Owns(r, c) && c in r.info then (Remove(r, c), true) else (r, false)
  }

  function Protection(r: Registry, c: Claim): nat {
    if c in r.protection then r.protection[c] else 0
  }

  predicate Excluded(r: Registry, c: Claim, current: Option<Claim>) {
    current == Some(c) || 0 < Protection(r, c)
  }

  function Protect(r: Registry, current: Option<Claim>): Registry {
    if current.None? then r
    else r.(protection := r.protection[current.value := Protection(r, current.value) + 1])
  }

  function Unprotect(r: Registry, current: Option<Claim>): Registry {
    if current.None? || current.value !in r.protection then r
    else if 1 < r.protection[current.value] then
      r.(protection := r.protection[current.value := r.protection[current.value] - 1])
    else r.(protection := r.protection - {current.value})
  }

  // The entries a cancellation running under `current` takes over: by reply, or by scope (None: all).
  function SelectReply(r: Registry, scope: Scope, replyId: MessageId, current: Option<Claim>): set<Claim> {
    if (scope, replyId) in r.pending && !Excluded(r, r.pending[(scope, replyId)], current)
    then {r.pending[(scope, replyId)]} else {}
  }

  function SelectScope(r: Registry, scope: Option<Scope>, current: Option<Claim>): set<Claim> {
    set k | k in r.pending && (scope.None? || scope.value == k.0) && !Excluded(r, r.pending[k], current) :: r.pending[k]
  }

  function RemoveAll(r: Registry, claims: set<Claim>): Registry {
    r.(pending := map k | k in r.pending && !(r.pending[k] in claims) :: r.pending[k])
  }

  // What the canceller is told to delete.
  function DeletedMessages(c: Claim, info: Info, reference: Option<MessageId>): set<MessageId> {
    (if reference.Some? && reference.value != c.voiceId then {} else {c.voiceId})
    + if info.status.Some? then {info.status.value} else {}
  }

  // ----- the index -----

  // Every key leads to a live entry that has it, and a live entry is found under all its keys.
  predicate IndexOk(r: Registry) {
    && (forall k | k in r.pending ::
          r.pending[k] in r.info && Owns(r, r.pending[k]) && k in KeysOf(r.pending[k], r.info[r.pending[k]]))
    && (forall c | c in r.info && Owns(r, c) ::
          forall k | k in KeysOf(c, r.info[c]) :: k in r.pending && r.pending[k] == c)
    && (forall c | c in r.info && r.info[c].handoff :: r.info[c].status.Some?)
  }

  lemma ReserveKeepsIndex(r: Registry, scope: Scope, voiceId: MessageId, claimId: nat)
    requires IndexOk(r) && Claim(scope, voiceId, claimId) !in r.info
    ensures IndexOk(Reserve(r, scope, voiceId, claimId).0)
  {
  }

  lemma BindKeepsIndex(r: Registry, c: Claim, status: MessageId)
    requires IndexOk(r)
    ensures IndexOk(BindStatus(r, c, status).0)
  {
  }

  lemma HandoffKeepsIndex(r: Registry, c: Claim)
    requires IndexOk(r)
    ensures IndexOk(BeginHandoff(r, c).0)
  {
  }

  // In a consistent index, removing an entry key by key removes exactly the keys leading to it.
  lemma RemoveIsByIdentity(r: Registry, c: Claim)
    requires IndexOk(r) && c in r.info
    ensures Remove(r, c) == RemoveAll(r, {c})
  {
  }

  lemma RemoveAllKeepsIndex(r: Registry, claims: set<Claim>)
    requires IndexOk(r)
    ensures IndexOk(RemoveAll(r, claims))
    ensures forall c :: Owns(RemoveAll(r, claims), c) <==> Owns(r, c) && c !in claims
  {
  }

  // Whichever of its messages a live entry is cancelled by, the message replied to is among the
  // deleted ones, and only the entry's own messages are deleted.
  lemma CancelDeletesOwnMessages(r: Registry, scope: Scope, replyId: MessageId, current: Option<Claim>, c: Claim)
    requires IndexOk(r) && c in SelectReply(r, scope, replyId, current)
    ensures c in r.info && c.scope == scope
    ensures replyId in DeletedMessages(c, r.info[c], Some(replyId))
    ensures forall m | m in DeletedMessages(c, r.info[c], Some(replyId)) ::
              (scope, m) in r.pending && r.pending[(scope, m)] == c
  {
  }

  // An operation presenting a claim that is not live leaves the registry alone.
  lemma StaleClaimChangesNothing(r: Registry, c: Claim, status: MessageId)
    requires !Owns(r, c)
    ensures BindStatus(r, c, status) == (r, false)
    ensures BeginHandoff(r, c) == (r, false)
    ensures Release(r, c) == (r, false)
  {
  }

  // ----- what each section does to whom -----

  // A reservation succeeds exactly while no live entry has the message as a key, and then makes the
  // new claim live and no other.
  lemma ReserveMakesLive(r: Registry, scope: Scope, voiceId: MessageId, claimId: nat, c: Claim)
    ensures var (z, claim) := Reserve(r, scope, voiceId, claimId);
            && (claim.Some? <==> (scope, voiceId) !in r.pending)
            && (claim.Some? ==> claim.value == Claim(scope, voiceId, claimId) && claim.value in z.info
                                && z.info[claim.value] == Info(None, false))
            && (claim.None? ==> z == r)
            && (Owns(z, c) <==> Owns(r, c) || claim == Some(c))
            && (c in r.info && claim != Some(c) ==> c in z.info && z.info[c] == r.info[c])
  {
  }

  // Binding succeeds exactly for a live claim that has this very status message, or none yet while no
  // other entry has it as a key; then it has it. Whose entry is live does not change.
  lemma BindAnswers(r: Registry, c: Claim, status: MessageId, d: Claim)
    requires IndexOk(r)
    ensures var (z, bound) := BindStatus(r, c, status);
            && (bound <==>
                  && Owns(r, c) && c in r.info
                  && if r.info[c].status.Some? then r.info[c].status.value == status
                     else (c.scope, status) in r.pending ==> r.pending[(c.scope, status)] == c)
            && (bound ==> z.info[c].status == Some(status) && z.pending[(c.scope, status)] == c)
            && (!bound ==> z == r)
            && (d in r.info ==> d in z.info && z.info[d].handoff == r.info[d].handoff
                                && (d != c ==> z.info[d] == r.info[d]))
            && (d in r.info ==> (Owns(z, d) <==> Owns(r, d)))
  {
  }

  // A handoff is accepted exactly for a live claim with a status message and no handoff so far.
  lemma HandoffAnswers(r: Registry, c: Claim)
    ensures var (z, accepted) := BeginHandoff(r, c);
            && (accepted <==> Owns(r, c) && c in r.info && r.info[c].status.Some? && !r.info[c].handoff)
            && z.pending == r.pending
            && (accepted ==> z.info == r.info[c := Info(r.info[c].status, true)])
            && (!accepted ==> z == r)
  {
  }

  // A release ends the ownership of the claim, if it is live, and nobody else's.
  lemma ReleaseEndsOwnership(r: Registry, c: Claim, d: Claim)
    requires IndexOk(r) && c in r.info
    ensures var (z, released) := Release(r, c);
            && (released <==> Owns(r, c))
            && (Owns(z, d) <==> Owns(r, d) && d != c)
            && z.info == r.info
  {
    RemoveIsByIdentity(r, c);
    RemoveAllKeepsIndex(r, {c});
  }

  // A cancellation by reply takes exactly the live, unprotected entry that has the message, unless it
  // is the canceller's own.
  lemma ReplySelectsExactly(r: Registry, scope: Scope, replyId: MessageId, current: Option<Claim>, c: Claim)
    requires IndexOk(r)
    ensures c in SelectReply(r, scope, replyId, current) <==>
              && c in r.info && Owns(r, c) && c.scope == scope
              && (c.voiceId == replyId || r.info[c].status == Some(replyId))
              && current != Some(c) && Protection(r, c) == 0
  {
  }

  // A cancellation by scope takes exactly the live, unprotected entries of the scope, and of every
  // scope if there is none, but the canceller's own.
  lemma ScopeSelectsExactly(r: Registry, scope: Option<Scope>, current: Option<Claim>, c: Claim)
    requires IndexOk(r)
    ensures c in SelectScope(r, scope, current) <==>
              && c in r.info && Owns(r, c) && (scope.None? || c.scope == scope.value)
              && current != Some(c) && Protection(r, c) == 0
  {
    if c in r.info && Owns(r, c) && (scope.None? || c.scope == scope.value) && !Excluded(r, c, current) {
      assert c.VoiceKey() in r.pending && r.pending[c.VoiceKey()] == c;
    }
  }

  // The user's voice message is deleted unless the cancellation replied to another message; the
  // status message always, if there is one; nothing else.
  lemma CancelDeletesExactly(c: Claim, info: Info, reference: Option<MessageId>, m: MessageId)
    ensures m in DeletedMessages(c, info, reference) <==>
              (m == c.voiceId && (reference.None? || reference.value == c.voiceId)) || info.status == Some(m)
  {
  }
}
