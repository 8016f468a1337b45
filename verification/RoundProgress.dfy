/** The completion protocol gets somewhere: a transaction that nothing stands against commits as if it ran alone, and
    no run is ever so entangled that the members could not all finish. */
module RoundProgress {

  import opened RoundCompletion

  lemma {:induction false} ExecuteSnoc(s: System, steps: seq<Step>, step: Step)
    ensures Execute(s, steps + [step]) == Next(Execute(s, steps), step)
  {
    assert (steps + [step])[..|steps|] == steps;
  }

  lemma {:induction false} ExecuteOne(s: System, step: Step)
    ensures Execute(s, [step]) == Next(s, step)
  {
    ExecuteSnoc(s, [], step);
    assert [] + [step] == [step];
  }

  lemma AppendSnoc<T>(a: seq<T>, b: seq<T>)
    requires b != []
    ensures a + b == a + b[..|b| - 1] + [b[|b| - 1]]
  {
  }

  lemma {:induction false} ExecuteAppend(s: System, a: seq<Step>, b: seq<Step>)
    ensures Execute(s, a + b) == Execute(Execute(s, a), b)
    decreases |b|
  {
    if b == [] {
      assert a + b == a;
    } else {
      ExecuteAppend(s, a, b[..|b| - 1]);
      ExecuteSnoc(s, a + b[..|b| - 1], b[|b| - 1]);
      AppendSnoc(a, b);
    }
  }

  // ---- One transaction -------------------------------------------------------------------------

  /** The call is about to start, and no open transaction holds the round document or the caller's completion. */
  ghost predicate Unhindered(s: System, id: CallId) {
    && id in s.txns && s.txns[id].phase.Idle?
    && forall o {:trigger s.txns[o]} :: o in s.txns && o != id ==>
         !HoldsRound(s.txns[o]) && !(HoldsCompletion(s.txns[o]) && s.txns[o].call.user == s.txns[id].call.user)
  }

  function Attempt(id: CallId): seq<Step> {
    [Begin(id)] + [Insert(id)] + [Lock(id)] + [Count(id)] + [Commit(id)]
  }

  /** `s` with the call at another point of its transaction. */
  function At(s: System, id: CallId, phase: Phase): System
    requires id in s.txns
  {
    s.(txns := s.txns[id := s.txns[id].(phase := phase)])
  }

  lemma AtAgain(s: System, id: CallId, p: Phase, q: Phase)
    requires id in s.txns
    ensures At(At(s, id, p), id, q) == At(s, id, q)
  {
    assert s.txns[id := s.txns[id].(phase := p)][id := s.txns[id].(phase := q)] == s.txns[id := s.txns[id].(phase := q)];
  }

  /** Where the call stands once it has been inserted, or found to be there. */
  function AfterInsert(db: Db, call: Call): Phase {
    if call.user in db.finished then Ready(db, false, false, Reply(false, false)) else Inserted(db)
  }

  function AfterLock(db: Db, call: Call): Phase {
    if call.user in db.finished then AfterInsert(db, call)
    else if db.status == Decided then Locked(db, true)
    else Ready(db, true, false, Reply(true, false))
  }

  function AfterCount(db: Db, call: Call): Phase {
    if call.user in db.finished || db.status != Decided then AfterLock(db, call)
    else Ready(db, true, true, Reply(true, call.members <= db.finished + {call.user}))
  }

  lemma {:induction false} InsertGoesOn(s: System, id: CallId)
    requires Unhindered(s, id)
    ensures Next(At(s, id, Begun(s.db)), Insert(id)) == At(s, id, AfterInsert(s.db, s.txns[id].call))
  {
    var f := At(s, id, Begun(s.db));
    forall o | o in f.txns && o != id
      ensures !(HoldsCompletion(f.txns[o]) && f.txns[o].call.user == f.txns[id].call.user)
    {
      assert f.txns[o] == s.txns[o];
    }
    AtAgain(s, id, Begun(s.db), AfterInsert(s.db, s.txns[id].call));
  }

  lemma {:induction false} LockGoesOn(s: System, id: CallId)
    requires Unhindered(s, id) && DbOk(s.db)
    ensures Next(At(s, id, AfterInsert(s.db, s.txns[id].call)), Lock(id)) == At(s, id, AfterLock(s.db, s.txns[id].call))
  {
    var f := At(s, id, AfterInsert(s.db, s.txns[id].call));
    forall o | o in f.txns && o != id ensures !HoldsRound(f.txns[o]) {
      assert f.txns[o] == s.txns[o];
    }
    AtAgain(s, id, AfterInsert(s.db, s.txns[id].call), AfterLock(s.db, s.txns[id].call));
  }

  lemma {:induction false} CountGoesOn(s: System, id: CallId)
    requires id in s.txns
    ensures Next(At(s, id, AfterLock(s.db, s.txns[id].call)), Count(id)) == At(s, id, AfterCount(s.db, s.txns[id].call))
  {
    var call := s.txns[id].call;
    CountIsSubset(s.db.finished + {call.user}, call.members);
    AtAgain(s, id, AfterLock(s.db, call), AfterCount(s.db, call));
  }

  /** The state after the call has been recorded as if it ran alone. */
  function Recorded(s: System, id: CallId): System
    requires id in s.txns
  {
    var (db, reply) := Record(s.db, s.txns[id].call);
    System(db, s.txns[id := Txn(s.txns[id].call, Committed(reply))], s.history + [Outcome(s.txns[id].call, reply)])
  }

  lemma {:induction false} CommitGoesOn(s: System, id: CallId)
    requires id in s.txns
    ensures Next(At(s, id, AfterCount(s.db, s.txns[id].call)), Commit(id)) == Recorded(s, id)
  {
    var f := At(s, id, AfterCount(s.db, s.txns[id].call));
    var t := f.txns[id];
    assert f.txns[id := t.(phase := Committed(t.phase.reply))] == Recorded(s, id).txns;
  }

  /** In every state in which no other open transaction holds the round or the caller's completion, the five steps of a
      call commit it, with the documents and the reply of the call run alone. */
  lemma {:induction false} UnhinderedCommits(s: System, id: CallId)
    requires DbOk(s.db) && Unhindered(s, id)
    ensures Execute(s, Attempt(id)) == Recorded(s, id)
  {
    var a, b, c, d, e := Begin(id), Insert(id), Lock(id), Count(id), Commit(id);
    ExecuteOne(s, a);
    ExecuteSnoc(s, [a], b);
    InsertGoesOn(s, id);
    ExecuteSnoc(s, [a] + [b], c);
    LockGoesOn(s, id);
    ExecuteSnoc(s, [a] + [b] + [c], d);
    CountGoesOn(s, id);
    ExecuteSnoc(s, [a] + [b] + [c] + [d], e);
    CommitGoesOn(s, id);
  }

  // ---- All of them -----------------------------------------------------------------------------

  function OpenCalls(s: System): set<CallId> {
    set o | o in s.txns && Open(s.txns[o].phase)
  }

  lemma {:induction false} CommittedStays(s: System, step: Step, m: User)
    requires HasCommitted(s, m)
    ensures HasCommitted(Next(s, step), m)
  {
    var id :| id in s.txns && s.txns[id].phase.Committed? && s.txns[id].call.user == m;
    assert id in Next(s, step).txns && Next(s, step).txns[id] == s.txns[id];
  }

  lemma {:induction false} CommittedForGood(s: System, steps: seq<Step>, m: User)
    requires HasCommitted(s, m)
    ensures HasCommitted(Execute(s, steps), m)
    decreases |steps|
  {
    if steps != [] {
      CommittedForGood(s, steps[..|steps| - 1], m);
      CommittedStays(Execute(s, steps[..|steps| - 1]), steps[|steps| - 1], m);
    }
  }

  /** Every open transaction may be aborted; no document changes. */
  lemma {:induction false} CanSettleDown(s: System) returns (steps: seq<Step>)
    ensures var s' := Execute(s, steps); s'.db == s.db && OpenCalls(s') == {}
    ensures forall j :: 0 <= j < |steps| ==> steps[j].Abort?
    decreases OpenCalls(s)
  {
    steps := [];
    if OpenCalls(s) != {} {
      var id :| id in OpenCalls(s);
      var s1 := Next(s, Abort(id));
      assert OpenCalls(s1) == OpenCalls(s) - {id};
      var rest := CanSettleDown(s1);
      ExecuteOne(s, Abort(id));
      ExecuteAppend(s, [Abort(id)], rest);
      steps := [Abort(id)] + rest;
    }
  }

  lemma NewCall(s: System) returns (id: CallId)
    ensures id !in s.txns
  {
    id := Above(s.txns.Keys);
  }

  lemma Above(ids: set<CallId>) returns (n: CallId)
    ensures forall id :: id in ids ==> id < n
  {
    n := 0;
    if ids != {} {
      var id :| id in ids;
      var rest := Above(ids - {id});
      n := if id < rest then rest else id + 1;
      forall x | x in ids ensures x < n {
        assert x == id || x in ids - {id};
      }
    }
  }

  /** The steps are aborts, or belong to calls of members that carry the member set. */
  ghost predicate Proper(steps: seq<Step>, members: set<User>) {
    AllCarry(steps, members) && AllCallersIn(steps, members)
  }

  lemma ProperJoins(a: seq<Step>, b: seq<Step>, members: set<User>)
    requires Proper(a, members) && Proper(b, members)
    ensures Proper(a + b, members)
  {
  }

  lemma {:induction false} MemberCanCommit(s: System, m: User, members: set<User>) returns (steps: seq<Step>)
    requires DbOk(s.db) && OpenCalls(s) == {} && m in members
    ensures var s' := Execute(s, steps); DbOk(s'.db) && OpenCalls(s') == {} && HasCommitted(s', m)
    ensures Proper(steps, members)
  {
    var id := NewCall(s);
    var invoke := Invoke(id, Call(m, members));
    var s1 := Next(s, invoke);
    assert Unhindered(s1, id) by {
      forall o | o in s1.txns && o != id ensures !Open(s1.txns[o].phase) {
        assert o !in OpenCalls(s);
      }
    }
    UnhinderedCommits(s1, id);
    ExecuteOne(s, invoke);
    ExecuteAppend(s, [invoke], Attempt(id));
    steps := [invoke] + Attempt(id);
    var s2 := Recorded(s1, id);
    assert s2.txns[id].phase.Committed? && s2.txns[id].call.user == m;
    forall o | o in s2.txns ensures !Open(s2.txns[o].phase) {
      assert o != id ==> o !in OpenCalls(s);
    }
  }

  lemma {:induction false} MembersCanCommit(s: System, todo: set<User>, members: set<User>) returns (steps: seq<Step>)
    requires DbOk(s.db) && OpenCalls(s) == {} && todo <= members
    ensures forall m :: m in todo ==> HasCommitted(Execute(s, steps), m)
    ensures Proper(steps, members)
    decreases todo
  {
    steps := [];
    if todo != {} {
      var m :| m in todo;
      var first := MemberCanCommit(s, m, members);
      var s1 := Execute(s, first);
      var rest := MembersCanCommit(s1, todo - {m}, members);
      ExecuteAppend(s, first, rest);
      ProperJoins(first, rest, members);
      steps := first + rest;
      CommittedForGood(s1, rest, m);
    }
  }

  /** No run gets stuck: every interleaving can be continued so that all members have a committed call, and then the
      round is concluded if it was not complete from the start. */
  lemma {:induction false} EveryRunCanConclude(db0: Db, steps: seq<Step>, members: set<User>) returns (more: seq<Step>)
    requires DbOk(db0) && db0.status == Decided && AllCarry(steps, members) && AllCallersIn(steps, members)
    ensures var s := Execute(System(db0, map[], []), steps + more);
      && (forall m :: m in members ==> HasCommitted(s, m))
      && (s.db.status == Concluded <==> !(members <= db0.finished))
  {
    var s0 := System(db0, map[], []);
    EveryRunKeeps(db0, steps);
    var s := Execute(s0, steps);
    var settle := CanSettleDown(s);
    var rest := MembersCanCommit(Execute(s, settle), members, members);
    more := settle + rest;
    ExecuteAppend(s, settle, rest);
    ExecuteAppend(s0, steps, more);
    ProperJoins(settle, rest, members);
    ProperJoins(steps, more, members);
    NoMissedConclusion(db0, steps + more, members);
  }
}
