/** Finishing a round while members come and go: services/round.py reads the members before each completion, so the
    set a call carries is the membership of that moment, not of its commit. */
module RoundMembership {

  import opened RoundCompletion

  /** The club's members and the round with its open calls. */
  datatype World = World(members: set<User>, round: System)

  datatype Move =
    | Join(user: User)
    | Leave(user: User)
    | Finish(id: CallId, user: User)
    | Proceed(step: Step)

  /** `Finish` reads the members and makes the call; whether its user still is one was checked earlier. */
  function Act(w: World, move: Move): World {
    match move
    case Join(u) => w.(members := w.members + {u})
    case Leave(u) => w.(members := w.members - {u})
    case Finish(id, u) => w.(round := Next(w.round, Invoke(id, Call(u, w.members))))
    case Proceed(step) => if step.Invoke? then w else w.(round := Next(w.round, step))
  }

  function Play(w: World, moves: seq<Move>): World
    decreases |moves|
  {
    if moves == [] then w else Act(Play(w, moves[..|moves| - 1]), moves[|moves| - 1])
  }

  function Start(db0: Db, members: set<User>): World {
    World(members, System(db0, map[], []))
  }

  lemma PlaySnoc(w: World, moves: seq<Move>, move: Move)
    ensures Play(w, moves + [move]) == Act(Play(w, moves), move)
  {
    assert (moves + [move])[..|moves|] == moves;
  }

  // ---- A game is a run of the protocol ---------------------------------------------------------

  function MembersAfter(members: set<User>, moves: seq<Move>): set<User>
    decreases |moves|
  {
    if moves == [] then members
    else
      var before, last := MembersAfter(members, moves[..|moves| - 1]), moves[|moves| - 1];
      if last.Join? then before + {last.user} else if last.Leave? then before - {last.user} else before
  }

  /** The protocol's steps among the moves, each call with the members it reads. */
  function StepsOf(members: set<User>, moves: seq<Move>): seq<Step>
    decreases |moves|
  {
    if moves == [] then []
    else
      var init, last := moves[..|moves| - 1], moves[|moves| - 1];
      StepsOf(members, init) + StepOf(MembersAfter(members, init), last)
  }

  function StepOf(members: set<User>, move: Move): seq<Step> {
    match move
    case Finish(id, u) => [Invoke(id, Call(u, members))]
    case Proceed(step) => if step.Invoke? then [] else [step]
    case _ => []
  }

  lemma {:induction false} ExecuteMore(s: System, steps: seq<Step>, more: seq<Step>)
    requires |more| <= 1
    ensures RoundCompletion.Execute(s, steps + more)
      == var before := RoundCompletion.Execute(s, steps); if more == [] then before else Next(before, more[0])
  {
    if more == [] {
      assert steps + more == steps;
    } else {
      assert (steps + more)[..|steps|] == steps;
    }
  }

  /** A move is at most one step of the protocol, under the members of its moment. */
  lemma {:induction false} ActIsStep(w: World, move: Move)
    ensures var steps := StepOf(w.members, move);
      Act(w, move).round == if steps == [] then w.round else Next(w.round, steps[0])
  {
  }

  lemma {:induction false} StepsSnoc(members: set<User>, moves: seq<Move>, move: Move)
    ensures StepsOf(members, moves + [move]) == StepsOf(members, moves) + StepOf(MembersAfter(members, moves), move)
  {
    assert (moves + [move])[..|moves|] == moves;
  }

  lemma {:induction false} MembersSnoc(w: World, members: set<User>, moves: seq<Move>, move: Move)
    requires w.members == MembersAfter(members, moves)
    ensures Act(w, move).members == MembersAfter(members, moves + [move])
  {
    assert (moves + [move])[..|moves|] == moves;
  }

  lemma {:induction false} PlayStep(db0: Db, members: set<User>, moves: seq<Move>, move: Move)
    requires var w := Play(Start(db0, members), moves);
      && w.members == MembersAfter(members, moves)
      && w.round == RoundCompletion.Execute(System(db0, map[], []), StepsOf(members, moves))
    ensures var w := Play(Start(db0, members), moves + [move]);
      && w.members == MembersAfter(members, moves + [move])
      && w.round == RoundCompletion.Execute(System(db0, map[], []), StepsOf(members, moves + [move]))
  {
    var w := Play(Start(db0, members), moves);
    PlaySnoc(Start(db0, members), moves, move);
    MembersSnoc(w, members, moves, move);
    StepsSnoc(members, moves, move);
    ActIsStep(w, move);
    ExecuteMore(System(db0, map[], []), StepsOf(members, moves), StepOf(w.members, move));
  }

  lemma SplitLast(moves: seq<Move>) returns (init: seq<Move>, last: Move)
    requires moves != []
    ensures moves == init + [last]
  {
    init, last := moves[..|moves| - 1], moves[|moves| - 1];
  }

  lemma {:induction false} PlayIsRun(db0: Db, members: set<User>, moves: seq<Move>)
    ensures var w := Play(Start(db0, members), moves);
      && w.members == MembersAfter(members, moves)
      && w.round == RoundCompletion.Execute(System(db0, map[], []), StepsOf(members, moves))
    decreases |moves|
  {
    if moves == [] {
      assert StepsOf(members, moves) == [];
    } else {
      var init, last := SplitLast(moves);
      PlayIsRun(db0, members, init);
      PlayStep(db0, members, init, last);
    }
  }

  /** The call was made by a move of the game and carries the members of that moment. */
  ghost predicate ReadAt(members: set<User>, moves: seq<Move>, j: nat, call: Call) {
    && j < |moves| && moves[j].Finish? && moves[j].user == call.user
    && call.members == MembersAfter(members, moves[..j])
  }

  lemma {:induction false} InvokedWasRead(members: set<User>, moves: seq<Move>, id: CallId, call: Call) returns (j: nat)
    requires Invoke(id, call) in StepsOf(members, moves)
    ensures ReadAt(members, moves, j, call)
    decreases |moves|
  {
    var init, k := moves[..|moves| - 1], |moves| - 1;
    if Invoke(id, call) in StepsOf(members, init) {
      j := InvokedWasRead(members, init, id, call);
      assert init[..j] == moves[..j];
    } else {
      j := k;
    }
  }

  // ---- When a round stays open -----------------------------------------------------------------

  ghost predicate First(db0: Db, history: seq<Outcome>, k: nat)
    requires k < |history|
  {
    history[k].call.user !in Replay(db0, history[..k]).finished
  }

  /** When the call at position `k` committed, a member it had read had no completion yet. */
  ghost predicate SomeoneMissing(db0: Db, history: seq<Outcome>, k: nat)
    requires k < |history|
  {
    exists m :: m in history[k].call.members && m != history[k].call.user && m !in Replay(db0, history[..k]).finished
  }

  ghost predicate MadeTooEarly(db0: Db, history: seq<Outcome>, k: nat) {
    k < |history| && First(db0, history, k) ==> SomeoneMissing(db0, history, k)
  }

  ghost predicate WasRead(members: set<User>, moves: seq<Move>, history: seq<Outcome>, k: nat) {
    k < |history| ==> exists j {:trigger ReadAt(members, moves, j, history[k].call)} ::
      0 <= j && ReadAt(members, moves, j, history[k].call)
  }

  lemma NotClosing(db0: Db, history: seq<Outcome>, k: nat)
    requires k < |history|
    ensures MadeTooEarly(db0, history, k) <==> !ClosesAt(db0, history, k)
  {
  }

  lemma {:induction false} HistoryWasRead(db0: Db, members: set<User>, moves: seq<Move>, k: nat)
    ensures WasRead(members, moves, Play(Start(db0, members), moves).round.history, k)
  {
    PlayIsRun(db0, members, moves);
    var steps := StepsOf(members, moves);
    CommittedCallsAreListed(db0, steps);
    var s := RoundCompletion.Execute(System(db0, map[], []), steps);
    if k < |s.history| {
      assert Made(s, s.history[k].call);
      var id :| id in s.txns && s.txns[id].call == s.history[k].call;
      assert Invoked(steps, id, s.txns[id].call);
      var i :| 0 <= i < |steps| && steps[i] == Invoke(id, s.history[k].call);
      var j := InvokedWasRead(members, moves, id, s.history[k].call);
    }
  }

  /** Whoever joins, leaves and finishes, in every interleaving: the round is open exactly when every first completion
      so far was made while somebody was missing of the members read for it, whoever has left since. */
  lemma {:induction false} OpenExactlyWhenAllWereTooEarly(db0: Db, members: set<User>, moves: seq<Move>)
    requires DbOk(db0) && db0.status == Decided
    ensures var s := Play(Start(db0, members), moves).round;
      && (forall k {:trigger WasRead(members, moves, s.history, k)} :: 0 <= k ==> WasRead(members, moves, s.history, k))
      && (s.db.status == Decided <==>
            forall k {:trigger MadeTooEarly(db0, s.history, k)} :: 0 <= k ==> MadeTooEarly(db0, s.history, k))
      && Conclusions(s.history) == (if s.db.status == Concluded then 1 else 0)
  {
    PlayIsRun(db0, members, moves);
    Serializable(db0, StepsOf(members, moves));
    var s := Play(Start(db0, members), moves).round;
    ConcludedExactlyWhen(db0, s.history);
    forall k: nat ensures WasRead(members, moves, s.history, k) {
      HistoryWasRead(db0, members, moves, k);
    }
    forall k: nat | k < |s.history| ensures MadeTooEarly(db0, s.history, k) <==> !ClosesAt(db0, s.history, k) {
      NotClosing(db0, s.history, k);
    }
  }

  ghost predicate OnlyCaller(moves: seq<Move>, u: User) {
    forall j :: 0 <= j < |moves| && moves[j].Finish? ==> moves[j].user == u
  }

  lemma HistoryStep(s: System, step: Step)
    ensures s.history <= Next(s, step).history
  {
  }

  lemma {:induction false} HistoryGrows(w: World, moves: seq<Move>)
    ensures w.round.history <= Play(w, moves).round.history
    decreases |moves|
  {
    if moves != [] {
      var init, last := moves[..|moves| - 1], moves[|moves| - 1];
      HistoryGrows(w, init);
      var before := Play(w, init);
      if last.Finish? {
        HistoryStep(before.round, Invoke(last.id, Call(last.user, before.members)));
      } else if last.Proceed? {
        HistoryStep(before.round, last.step);
      }
    }
  }

  lemma {:induction false} PlayAppend(w: World, a: seq<Move>, b: seq<Move>)
    ensures Play(w, a + b) == Play(Play(w, a), b)
    decreases |b|
  {
    if b == [] {
      assert a + b == a;
    } else {
      var init := b[..|b| - 1];
      PlayAppend(w, a, init);
      assert a + b == a + init + [b[|b| - 1]];
      PlaySnoc(w, a + init, b[|b| - 1]);
    }
  }

  lemma CallerIsOnly(moves: seq<Move>, u: User, members: set<User>, history: seq<Outcome>, k: nat)
    requires OnlyCaller(moves, u) && WasRead(members, moves, history, k) && k < |history|
    ensures history[k].call.user == u
  {
    var j :| 0 <= j && ReadAt(members, moves, j, history[k].call);
  }

  // ---- A departure that leaves the round open --------------------------------------------------

  /** Two members; one finishes, and the other leaves before that completion commits. */
  function Departure(u: User, v: User): seq<Move> {
    [Finish(0, u), Proceed(Begin(0)), Proceed(Insert(0)), Proceed(Lock(0)), Proceed(Count(0)), Leave(v), Proceed(Commit(0))]
  }

  const NEW := Db(Decided, None, {}, 0)

  function Open(u: User, v: User, members: set<User>, phase: Phase): World {
    World(members, System(NEW, map[0 := Txn(Call(u, {u, v}), phase)], []))
  }

  lemma BeginsAndInserts(u: User, v: User)
    requires u != v
    ensures Play(Start(NEW, {u, v}), Departure(u, v)[..3]) == Open(u, v, {u, v}, Inserted(NEW))
  {
    var w, d := Start(NEW, {u, v}), Departure(u, v);
    assert d[..1] == [] + [d[0]] && d[..2] == d[..1] + [d[1]] && d[..3] == d[..2] + [d[2]];
    PlaySnoc(w, [], d[0]);
    assert Play(w, d[..1]) == Open(u, v, {u, v}, Idle);
    PlaySnoc(w, d[..1], d[1]);
    assert Play(w, d[..2]) == Open(u, v, {u, v}, Begun(NEW));
    PlaySnoc(w, d[..2], d[2]);
  }

  lemma LocksAndCounts(u: User, v: User)
    requires u != v
    ensures Play(Start(NEW, {u, v}), Departure(u, v)[..5]) == Open(u, v, {u, v}, Ready(NEW, true, true, Reply(true, false)))
  {
    var w, d := Start(NEW, {u, v}), Departure(u, v);
    BeginsAndInserts(u, v);
    assert d[..4] == d[..3] + [d[3]] && d[..5] == d[..4] + [d[4]];
    PlaySnoc(w, d[..3], d[3]);
    assert Play(w, d[..4]) == Open(u, v, {u, v}, Locked(NEW, true));
    PlaySnoc(w, d[..4], d[4]);
    assert ({} + {u}) * {u, v} == {u};
    assert |{u, v}| == 2;
  }

  lemma LeavesAndCommits(u: User, v: User)
    requires u != v
    ensures var w := Play(Start(NEW, {u, v}), Departure(u, v));
      && w.members == {u} && w.round.db == Db(Decided, Some(u), {u}, 1)
      && w.round.history == [Outcome(Call(u, {u, v}), Reply(true, false))]
  {
    var w, d := Start(NEW, {u, v}), Departure(u, v);
    LocksAndCounts(u, v);
    assert d[..6] == d[..5] + [d[5]] && d == d[..6] + [d[6]];
    PlaySnoc(w, d[..5], d[5]);
    assert {u, v} - {v} == {u};
    PlaySnoc(w, d[..6], d[6]);
    assert {} + {u} == {u};
  }

  /** After that run all who remain have finished, and the round is open; and it stays open through every later run,
      whoever joins or leaves, until somebody other than the first finisher finishes. */
  lemma {:induction false} DepartureLeavesRoundOpen(u: User, v: User, more: seq<Move>)
    requires u != v && OnlyCaller(more, u)
    ensures var w := Play(Start(NEW, {u, v}), Departure(u, v));
      && w.members <= w.round.db.finished && w.round.db.status == Decided
      && Play(w, more).round.db.status == Decided
  {
    LeavesAndCommits(u, v);
    var moves := Departure(u, v) + more;
    PlayAppend(Start(NEW, {u, v}), Departure(u, v), more);
    HistoryGrows(Play(Start(NEW, {u, v}), Departure(u, v)), more);
    var history := Play(Start(NEW, {u, v}), moves).round.history;
    OpenExactlyWhenAllWereTooEarly(NEW, {u, v}, moves);
    forall k: nat ensures MadeTooEarly(NEW, history, k) {
      if 0 < k < |history| {
        assert OnlyCaller(moves, u);
        CallerIsOnly(moves, u, {u, v}, history, k);
        FinishedAreCallers(NEW, history[..k], u);
        assert history[..k][0].call.user == u;
      } else if k == 0 {
        assert history[..0] == [] && v in history[0].call.members;
      }
    }
  }
}
