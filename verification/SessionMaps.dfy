// The managed session pool: pending and registered sessions, the two id maps between them, and
// the sessions being closed, all changed together under one lock.
module SessionMaps {
  import opened Wrappers

  type Id = string

  // Only its identity matters here.
  class ManagedClaudeSession {
    constructor () {
    }
  }

  datatype Pool = Pool(
    sessions: map<Id, ManagedClaudeSession>,    // by real id
    pending: map<Id, ManagedClaudeSession>,     // by temporary id
    tempToReal: map<Id, Id>,
    realToTemp: map<Id, Id>,
    closing: set<ManagedClaudeSession>)

  function Resolved(p: Pool, id: Id): Id {
    if id in p.tempToReal then p.tempToReal[id] else id
  }

  // The session an id leads to.
  function Lookup(p: Pool, id: Id): Option<ManagedClaudeSession> {
    var key := Resolved(p, id);
    if key in p.sessions then Some(p.sessions[key])
    else if key in p.pending then Some(p.pending[key])
    else None
  }

  function Owned(p: Pool): set<ManagedClaudeSession> {
    p.sessions.Values + p.pending.Values
  }

  // The id maps are mutual inverses over exactly the registered real ids.
  predicate IdsInverse(p: Pool) {
    && p.realToTemp.Keys == p.sessions.Keys
    && (forall r | r in p.realToTemp :: p.realToTemp[r] in p.tempToReal && p.tempToReal[p.realToTemp[r]] == r)
    && (forall t | t in p.tempToReal :: p.tempToReal[t] in p.realToTemp && p.realToTemp[p.tempToReal[t]] == t)
  }

  // No id means two things: not pending and registered, and a real id resolves to itself.
  predicate IdsApart(p: Pool) {
    && p.pending.Keys !! p.sessions.Keys
    && p.pending.Keys !! p.tempToReal.Keys
    && (forall t | t in p.tempToReal && t in p.sessions :: p.tempToReal[t] == t)
  }

  // Each session has one owning key across pending and registered.
  predicate OneOwner(p: Pool) {
    && (forall i, j | i in p.sessions && j in p.sessions && p.sessions[i] == p.sessions[j] :: i == j)
    && (forall i, j | i in p.pending && j in p.pending && p.pending[i] == p.pending[j] :: i == j)
    && (forall i, j | i in p.sessions && j in p.pending :: p.sessions[i] != p.pending[j])
  }

  predicate Consistent(p: Pool) {
    IdsInverse(p) && IdsApart(p) && OneOwner(p) && p.closing <= Owned(p)
  }

  // A real id is registered only for a pending session that is not closing, and only if the id
  // does not already lead to another session.
  function Register(p: Pool, temp: Id, realId: Id): (Pool, bool) {
    if temp !in p.pending then (p, false)
    else
      var s := p.pending[temp];
      if s in p.closing then (p, false)
      else if Lookup(p, realId).Some? && Lookup(p, realId).value != s then (p, false)
      else (Registered(p, temp, realId), true)
  }

  function Registered(p: Pool, temp: Id, realId: Id): Pool
    requires temp in p.pending
  {
    p.(pending := p.pending - {temp}, sessions := p.sessions[realId := p.pending[temp]],
       tempToReal := p.tempToReal[temp := realId], realToTemp := p.realToTemp[realId := temp])
  }

  // A session leaves all maps.
  function Forget(p: Pool, s: ManagedClaudeSession): Pool {
    var reals := set r | r in p.sessions && p.sessions[r] == s;
    p.(pending := map k | k in p.pending && p.pending[k] != s :: p.pending[k],
       sessions := p.sessions - reals,
       realToTemp := p.realToTemp - reals,
       tempToReal := map t | t in p.tempToReal && !(exists r | r in reals :: r in p.realToTemp && p.realToTemp[r] == t)
                       :: p.tempToReal[t],
       closing := p.closing - {s})
  }

  // ----- what the sections keep -----

  lemma CreateKeepsConsistent(p: Pool, id: Id, s: ManagedClaudeSession)
    requires Consistent(p) && s !in Owned(p) && Lookup(p, id).None?
    ensures Consistent(p.(pending := p.pending[id := s]))
  {
    var q := p.(pending := p.pending[id := s]);
    assert id !in p.tempToReal && id !in p.sessions && id !in p.pending;
    forall o | o in p.pending.Values ensures o in q.pending.Values {
      var t :| t in p.pending && p.pending[t] == o;
      assert q.pending[t] == o;
    }
  }

  // A registration that is let through uses an id that means nothing else yet.
  lemma RegisteredIdIsFree(p: Pool, temp: Id, realId: Id)
    requires Consistent(p) && Register(p, temp, realId).1
    ensures temp in p.pending && temp !in p.tempToReal && temp !in p.sessions
    ensures realId !in p.sessions && realId !in p.tempToReal && (realId == temp || realId !in p.pending)
  {
    LookupFindsOwned(p, realId);
  }

  // A registration is let through exactly if the temporary id has a pending session that is not
  // closing, and the real id leads to no other session; otherwise nothing changes.
  lemma RegisterAnswers(p: Pool, temp: Id, realId: Id)
    ensures var (q, ok) := Register(p, temp, realId);
            && (ok <==>
                  && temp in p.pending && p.pending[temp] !in p.closing
                  && (Lookup(p, realId).Some? ==> Lookup(p, realId).value == p.pending[temp]))
            && (!ok ==> q == p)
            && (ok ==> temp !in q.pending && realId in q.sessions && q.sessions[realId] == p.pending[temp]
                       && temp in q.tempToReal && q.tempToReal[temp] == realId
                       && realId in q.realToTemp && q.realToTemp[realId] == temp && q.closing == p.closing)
  {
  }

  lemma RegisterKeepsIds(p: Pool, temp: Id, realId: Id)
    requires IdsInverse(p) && IdsApart(p) && temp in p.pending && temp !in p.tempToReal && temp !in p.sessions
    requires realId !in p.sessions && realId !in p.tempToReal && (realId == temp || realId !in p.pending)
    ensures IdsInverse(Registered(p, temp, realId)) && IdsApart(Registered(p, temp, realId))
  {
  }

  lemma RegisterKeepsOwners(p: Pool, temp: Id, realId: Id)
    requires OneOwner(p) && temp in p.pending && realId !in p.sessions
    ensures OneOwner(Registered(p, temp, realId))
    ensures Owned(p) <= Owned(Registered(p, temp, realId))
  {
    var q := Registered(p, temp, realId);
    forall s | s in Owned(p) ensures s in Owned(q) {
      if s in p.sessions.Values {
        var r :| r in p.sessions && p.sessions[r] == s;
        assert q.sessions[r] == s;
      } else {
        var t :| t in p.pending && p.pending[t] == s;
        assert if t == temp then q.sessions[realId] == s else q.pending[t] == s;
      }
    }
  }

  lemma RegisterKeepsConsistent(p: Pool, temp: Id, realId: Id)
    requires Consistent(p)
    ensures Consistent(Register(p, temp, realId).0)
  {
    if Register(p, temp, realId).1 {
      RegisteredIdIsFree(p, temp, realId);
      RegisterKeepsIds(p, temp, realId);
      RegisterKeepsOwners(p, temp, realId);
    }
  }

  lemma ForgetRemovesExactly(p: Pool, s: ManagedClaudeSession)
    requires Consistent(p)
    ensures Owned(Forget(p, s)) == Owned(p) - {s}
  {
    var q := Forget(p, s);
    forall o | o in Owned(p) && o != s ensures o in Owned(q) {
      if o in p.sessions.Values {
        var r :| r in p.sessions && p.sessions[r] == o;
        assert q.sessions[r] == o;
      } else {
        var t :| t in p.pending && p.pending[t] == o;
        assert q.pending[t] == o;
      }
    }
  }

  lemma ForgetKeepsConsistent(p: Pool, s: ManagedClaudeSession)
    requires Consistent(p)
    ensures Consistent(Forget(p, s))
  {
    ForgetRemovesExactly(p, s);
    var q := Forget(p, s);
    assert IdsInverse(q);
    assert IdsApart(q);
    assert OneOwner(q);
  }

  // Registering changes no lookup but that of the new real id: by its temporary id a session is
  // found before and after, and now also by the real one.
  lemma LookupSurvivesRegistration(p: Pool, temp: Id, realId: Id, id: Id)
    requires Consistent(p) && Register(p, temp, realId).1
    ensures Lookup(Register(p, temp, realId).0, temp) == Some(p.pending[temp]) == Lookup(p, temp)
    ensures Lookup(Register(p, temp, realId).0, realId) == Some(p.pending[temp])
    ensures id != realId ==> Lookup(Register(p, temp, realId).0, id) == Lookup(p, id)
  {
    RegisteredIdIsFree(p, temp, realId);
    if id in p.tempToReal {
      assert p.tempToReal[id] in p.sessions;
    }
  }

  // Every session is found by its owning key, and a lookup finds owned sessions only.
  lemma LookupFindsOwned(p: Pool, id: Id)
    requires Consistent(p)
    ensures id in p.sessions ==> Lookup(p, id) == Some(p.sessions[id])
    ensures id in p.pending ==> Lookup(p, id) == Some(p.pending[id])
    ensures Lookup(p, id).Some? ==> Lookup(p, id).value in Owned(p)
  {
  }

  // An id map without the entries leading to `targets`.
  function WithoutTargets(ids: map<Id, Id>, targets: set<Id>): map<Id, Id> {
    map t | t in ids && ids[t] !in targets :: ids[t]
  }

  lemma OneMoreTarget(p: Pool, done: set<Id>, realId: Id)
    requires IdsInverse(p) && realId in p.realToTemp
    ensures WithoutTargets(p.tempToReal, done) - {p.realToTemp[realId]} == WithoutTargets(p.tempToReal, done + {realId})
  {
  }

  lemma ForgetById(p: Pool, s: ManagedClaudeSession)
    requires IdsInverse(p)
    ensures Forget(p, s).tempToReal == WithoutTargets(p.tempToReal, set r | r in p.sessions && p.sessions[r] == s)
    ensures Forget(p, s).pending == p.pending - set k | k in p.pending && p.pending[k] == s
  {
  }

  // ----- the manager -----

  datatype Got = Got(session: ManagedClaudeSession, id: Id, isNew: bool) | IsClosing

  class ManagedClaudeSessionManager {
    var sessions: map<Id, ManagedClaudeSession>
    var pendingSessions: map<Id, ManagedClaudeSession>
    var tempToReal: map<Id, Id>
    var realToTemp: map<Id, Id>
    var closingSessions: set<ManagedClaudeSession>

    function View(): Pool
      reads this
    {
      Pool(sessions, pendingSessions, tempToReal, realToTemp, closingSessions)
    }

    ghost predicate Valid()
      reads this
    {
      Consistent(View())
    }

    constructor ()
      ensures Valid() && View() == Pool(map[], map[], map[], map[], {})
    {
      sessions, pendingSessions, tempToReal, realToTemp, closingSessions := map[], map[], map[], map[], {};
    }

    // An empty or missing id asks for a new session under `freshId`, a newly drawn one.
    method GetOrCreate(sessionId: Option<Id>, freshId: Id) returns (got: Got)
      requires Valid() && Lookup(View(), freshId).None?
      modifies this`pendingSessions
      ensures Valid()
      ensures var asked := sessionId.Some? && sessionId.value != "";
              var found := if asked then Lookup(old(View()), sessionId.value) else None;
              && (got.IsClosing? <==> found.Some? && found.value in closingSessions)
              && (got.Got? && found.Some? ==> got == Got(found.value, Resolved(old(View()), sessionId.value), false))
              && (found.Some? ==> View() == old(View()))
              && (found.None? ==>
                    && got.Got? && got.isNew && fresh(got.session)
                    && got.id == (if asked then sessionId.value else freshId)
                    && View() == old(View()).(pending := old(View()).pending[got.id := got.session]))
    {
      if sessionId.Some? && sessionId.value != "" {
        var key := if sessionId.value in tempToReal then tempToReal[sessionId.value] else sessionId.value;
        if key in sessions {
          if sessions[key] in closingSessions {
            return IsClosing;
          }
          return Got(sessions[key], key, false);
        }
        if key in pendingSessions {
          if pendingSessions[key] in closingSessions {
            return IsClosing;
          }
          return Got(pendingSessions[key], key, false);
        }
      }
      var id := if sessionId.Some? && sessionId.value != "" then sessionId.value else freshId;
      var created := new ManagedClaudeSession();
      CreateKeepsConsistent(View(), id, created);
      pendingSessions := pendingSessions[id := created];
      return Got(created, id, true);
    }

    method RegisterRealSessionId(temp: Id, realId: Id) returns (ok: bool)
      requires Valid()
      modifies this
      ensures Valid() && (View(), ok) == Register(old(View()), temp, realId)
    {
      RegisterKeepsConsistent(View(), temp, realId);
      if temp !in pendingSessions {
        return false;
      }
      var session := pendingSessions[temp];
      if session in closingSessions {
        return false;
      }
      var existing := Lookup(View(), realId);
      if existing.Some? && existing.value != session {
        return false;
      }
      pendingSessions := pendingSessions - {temp};
      sessions := sessions[realId := session];
      tempToReal := tempToReal[temp := realId];
      realToTemp := realToTemp[realId := temp];
      return true;
    }

    method ForgetSession(session: ManagedClaudeSession)
      requires Valid()
      modifies this
      ensures Valid() && View() == Forget(old(View()), session)
    {
      ghost var before := View();
      ForgetKeepsConsistent(before, session);
      var pendingIds := set k | k in pendingSessions && pendingSessions[k] == session;
      var realIds := set r | r in sessions && sessions[r] == session;
      pendingSessions := pendingSessions - pendingIds;
      ForgetRealIds(realIds);
      closingSessions := closingSessions - {session};
      ForgetById(before, session);
    }

    // Drops registered ids with their entries in both id maps.
    method ForgetRealIds(realIds: set<Id>)
      requires IdsInverse(View()) && realIds <= sessions.Keys
      modifies this`sessions, this`realToTemp, this`tempToReal
      ensures sessions == old(sessions) - realIds && realToTemp == old(realToTemp) - realIds
      ensures tempToReal == WithoutTargets(old(tempToReal), realIds)
    {
      ghost var p := View();
      var rest := realIds;
      ghost var done: set<Id> := {};
      while rest != {}
        invariant rest <= realIds && done == realIds - rest
        invariant sessions == p.sessions - done && realToTemp == p.realToTemp - done
        invariant tempToReal == WithoutTargets(p.tempToReal, done)
        decreases rest
      {
        var realId :| realId in rest;
        sessions := sessions - {realId};
        var temp := realToTemp[realId];
        realToTemp := realToTemp - {realId};
        OneMoreTarget(p, done, realId);
        tempToReal := tempToReal - {temp};
        rest, done := rest - {realId}, done + {realId};
      }
    }

    // Success means the session was found and stopped. A session whose stop reports failure, or
    // raises past this method, stays owned, marked closing.
    method RemoveSession(id: Id, stopped: bool) returns (removed: bool)
      requires Valid()
      modifies this
      ensures Valid()
      ensures var found := Lookup(old(View()), id);
              && removed == (found.Some? && stopped)
              && (found.None? ==> View() == old(View()))
              && (found.Some? ==> View() == var marked := old(View()).(closing := old(View()).closing + {found.value});
                                            if stopped then Forget(marked, found.value) else marked)
    {
      var found := Lookup(View(), id);
      if found.None? {
        return false;
      }
      LookupFindsOwned(View(), id);
      MarkClosing(found.value);
      if !stopped {
        return false;
      }
      ForgetSession(found.value);
      return true;
    }

    method MarkClosing(session: ManagedClaudeSession)
      requires Valid() && session in Owned(View())
      modifies this`closingSessions
      ensures Valid() && View() == old(View()).(closing := old(View()).closing + {session})
    {
      closingSessions := closingSessions + {session};
    }

    // Every session is being closed.
    ghost predicate AllClosing()
      reads this
    {
      Valid() && closingSessions == Owned(View())
    }

    method ForgetStopped(session: ManagedClaudeSession)
      requires AllClosing()
      modifies this
      ensures AllClosing() && closingSessions == old(closingSessions) - {session}
    {
      ForgetRemovesExactly(View(), session);
      ForgetSession(session);
    }

    // Stops every session once; `stoppable` are those whose stop would succeed and `cancelling`
    // those in whose stop the caller would be cancelled, every other stop fails. What is left
    // afterwards is exactly the sessions whose stop did not succeed, all of them closing; if the
    // caller is cancelled on the way, also those it had not come to yet.
    method StopAll(stoppable: set<ManagedClaudeSession>, cancelling: set<ManagedClaudeSession>)
      returns (failures: nat, interrupted: bool, reached: set<ManagedClaudeSession>)
      requires Valid() && stoppable !! cancelling
      modifies this
      ensures Valid() && reached <= Owned(old(View()))
      ensures Owned(View()) == Owned(old(View())) - reached * stoppable
      ensures closingSessions == Owned(View())
      ensures interrupted <==> reached * cancelling != {}
      ensures !interrupted ==> reached == Owned(old(View())) && failures == |Owned(View())|
    {
      MarkAllClosing();
      failures, interrupted, reached := StopEach(stoppable, cancelling);
    }

    method MarkAllClosing()
      requires Valid()
      modifies this`closingSessions
      ensures AllClosing() && Owned(View()) == Owned(old(View()))
    {
      var all := sessions.Values + pendingSessions.Values + closingSessions;
      assert all == Owned(View());
      closingSessions := closingSessions + all;
    }

    method StopEach(stoppable: set<ManagedClaudeSession>, cancelling: set<ManagedClaudeSession>)
      returns (failures: nat, interrupted: bool, reached: set<ManagedClaudeSession>)
      requires AllClosing() && stoppable !! cancelling
      modifies this
      ensures AllClosing() && reached <= old(closingSessions)
      ensures forall s :: s in closingSessions <==> s in old(closingSessions) && !(s in reached && s in stoppable)
      ensures interrupted <==> reached * cancelling != {}
      ensures !interrupted ==> reached == old(closingSessions) && failures == |closingSessions|
    {
      failures := 0;
      ghost var failed := {};
      var all := closingSessions;
      var rest := closingSessions;
      while rest != {}
        invariant AllClosing()
        invariant failures == |failed|
        invariant forall s :: s in closingSessions <==> s in rest || s in failed
        invariant forall s | s in rest || s in failed :: s in all
        invariant forall s | s in all && s !in rest :: s !in cancelling && (s in failed <==> s !in stoppable)
        invariant forall s | s in failed :: s !in rest
        decreases rest
      {
        var session :| session in rest;
        rest := rest - {session};
        if session in cancelling {
          assert session in all - rest;
          return failures, true, all - rest;
        }
        if session in stoppable {
          ForgetStopped(session);
        } else {
          failures, failed := failures + 1, failed + {session};
        }
      }
      assert closingSessions == failed;
      return failures, false, all;
    }
  }
}
