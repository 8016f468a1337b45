/** `record_completion` of repositories/beanie/round_completion.py: many calls, each a transaction under
    snapshot isolation, race to finish one reading round.

    A transaction reads the snapshot of its start.  Writing a document that another open transaction has
    written, or that was committed after the snapshot, is a write conflict: the attempt aborts and the call
    starts over.  An update that changes nothing is not a write. */
module RoundCompletion {

  type User = nat
  type CallId = nat

  datatype Status = Decided | Concluded

  datatype Option<T> = None | Some(value: T)

  /** The committed state of one round: the round document and the users with a completion document.
      `version` counts the committed writes of the round document. */
  datatype Db = Db(status: Status, lastBy: Option<User>, finished: set<User>, version: nat)

  datatype Call = Call(user: User, members: set<User>)

  datatype Reply = Reply(isNew: bool, roundConcluded: bool)

  /** Where an open transaction stands.  `inserted` and `locked` are its uncommitted writes of the
      completion document and of the round document, `concluded` its write of the round's status. */
  datatype Phase =
    | Idle
    | Begun(snapshot: Db)
    | Inserted(snapshot: Db)
    | Locked(snapshot: Db, wrote: bool)
    | Ready(snapshot: Db, inserted: bool, wrote: bool, reply: Reply)
    | Committed(reply: Reply)

  datatype Txn = Txn(call: Call, phase: Phase)

  datatype Outcome = Outcome(call: Call, reply: Reply)

  /** `history` lists the committed calls in commit order. */
  datatype System = System(db: Db, txns: map<CallId, Txn>, history: seq<Outcome>)

  datatype Step =
    | Invoke(id: CallId, call: Call)
    | Begin(id: CallId)
    | Insert(id: CallId)
    | Lock(id: CallId)
    | Count(id: CallId)
    | Commit(id: CallId)
    | Abort(id: CallId)

  predicate Open(p: Phase) {
    !p.Idle? && !p.Committed?
  }

  predicate HoldsCompletion(t: Txn) {
    t.phase.Inserted? || t.phase.Locked? || (t.phase.Ready? && t.phase.inserted)
  }

  predicate HoldsRound(t: Txn) {
    (t.phase.Locked? || t.phase.Ready?) && t.phase.wrote
  }

  predicate CompletionConflict(s: System, id: CallId)
    requires id in s.txns
  {
    var user := s.txns[id].call.user;
    || user in s.db.finished
    || exists o :: o in s.txns && o != id && HoldsCompletion(s.txns[o]) && s.txns[o].call.user == user
  }

  predicate RoundConflict(s: System, id: CallId, snapshot: Db) {
    || s.db.version != snapshot.version
    || exists o :: o in s.txns && o != id && HoldsRound(s.txns[o])
  }

  function SetPhase(s: System, id: CallId, phase: Phase): System
    requires id in s.txns
  {
    s.(txns := s.txns[id := s.txns[id].(phase := phase)])
  }

  /** The upsert of the completion document. */
  function InsertPhase(s: System, id: CallId, snapshot: Db): Phase
    requires id in s.txns
  {
    if s.txns[id].call.user in snapshot.finished then Ready(snapshot, false, false, Reply(false, false))
    else if CompletionConflict(s, id) then Idle
    else Inserted(snapshot)
  }

  /** The write of the round document that makes finishers meet. */
  function LockPhase(s: System, id: CallId, snapshot: Db): Phase
    requires id in s.txns
  {
    if snapshot.status != Decided then Ready(snapshot, true, false, Reply(true, false))
    else if snapshot.lastBy == Some(s.txns[id].call.user) then Locked(snapshot, false)
    else if RoundConflict(s, id, snapshot) then Idle
    else Locked(snapshot, true)
  }

  /** Count the finishers among the members the caller read, and conclude when nobody is missing. */
  function CountReply(call: Call, snapshot: Db): Reply {
    var finishers := (snapshot.finished + {call.user}) * call.members;
    if |finishers| < |call.members| then Reply(true, false) else Reply(true, true)
  }

  function Apply(db: Db, call: Call, phase: Phase): Db
    requires phase.Ready?
  {
    Db(if phase.reply.roundConcluded then Concluded else db.status,
       if phase.wrote then Some(call.user) else db.lastBy,
       if phase.inserted then db.finished + {call.user} else db.finished,
       if phase.wrote || phase.reply.roundConcluded then db.version + 1 else db.version)
  }

  predicate Enabled(s: System, step: Step) {
    match step
    case Invoke(id, _) => id !in s.txns
    case Begin(id) => id in s.txns && s.txns[id].phase.Idle?
    case Insert(id) => id in s.txns && s.txns[id].phase.Begun?
    case Lock(id) => id in s.txns && s.txns[id].phase.Inserted?
    case Count(id) => id in s.txns && s.txns[id].phase.Locked?
    case Commit(id) => id in s.txns && s.txns[id].phase.Ready?
    case Abort(id) => id in s.txns && Open(s.txns[id].phase)
  }

  function Next(s: System, step: Step): System {
    if !Enabled(s, step) then s else
      match step
      case Invoke(id, call) => s.(txns := s.txns[id := Txn(call, Idle)])
      case Begin(id) => SetPhase(s, id, Begun(s.db))
      case Insert(id) => SetPhase(s, id, InsertPhase(s, id, s.txns[id].phase.snapshot))
      case Lock(id) => SetPhase(s, id, LockPhase(s, id, s.txns[id].phase.snapshot))
      case Count(id) =>
        var t := s.txns[id];
        SetPhase(s, id, Ready(t.phase.snapshot, true, t.phase.wrote, CountReply(t.call, t.phase.snapshot)))
      case Commit(id) =>
        var t := s.txns[id];
        System(Apply(s.db, t.call, t.phase),
               s.txns[id := t.(phase := Committed(t.phase.reply))],
               s.history + [Outcome(t.call, t.phase.reply)])
      case Abort(id) => SetPhase(s, id, Idle)
  }

  function Execute(s: System, steps: seq<Step>): System
    decreases |steps|
  {
    if steps == [] then s else Next(Execute(s, steps[..|steps| - 1]), steps[|steps| - 1])
  }

  // ---- One call at a time ----------------------------------------------------------------------

  /** What one call does when nothing runs beside it. */
  function Record(db: Db, call: Call): (Db, Reply) {
    if call.user in db.finished then (db, Reply(false, false))
    else
      var finished := db.finished + {call.user};
      if db.status != Decided then (db.(finished := finished), Reply(true, false))
      else
        var done := call.members <= finished;
        (Db(if done then Concluded else Decided, Some(call.user), finished, db.version + 1), Reply(true, done))
  }

  /** The calls of a history, one after the other. */
  function Replay(db: Db, history: seq<Outcome>): Db
    decreases |history|
  {
    if history == [] then db
    else Record(Replay(db, history[..|history| - 1]), history[|history| - 1].call).0
  }

  /** The reply at position `k` is the one its call gets in its turn. */
  ghost predicate AsSerial(db: Db, history: seq<Outcome>, k: nat)
    requires k < |history|
  {
    history[k].reply == Record(Replay(db, history[..k]), history[k].call).1
  }

  ghost predicate RepliesAsSerial(db: Db, history: seq<Outcome>) {
    forall k {:trigger AsSerial(db, history, k)} :: 0 <= k < |history| ==> AsSerial(db, history, k)
  }

  /** The body of `record_completion` on documents that nobody else touches meanwhile. */
  class RoundStore {
    var status: Status
    var lastBy: Option<User>
    var finished: set<User>
    ghost var version: nat

    ghost function Value(): Db
      reads this
    {
      Db(status, lastBy, finished, version)
    }

    constructor (db: Db)
      ensures Value() == db
    {
      status, lastBy, finished, version := db.status, db.lastBy, db.finished, db.version;
    }

    method RecordCompletion(call: Call) returns (reply: Reply)
      modifies this
      ensures (Value(), reply) == Record(old(Value()), call)
    {
      var isNew := call.user !in finished;
      if !isNew {
        return Reply(false, false);
      }
      finished := finished + {call.user};
      if status != Decided {
        return Reply(true, false);
      }
      lastBy, version := Some(call.user), version + 1;
      CountIsSubset(finished, call.members);
      if |finished * call.members| < |call.members| {
        return Reply(true, false);
      }
      status := Concluded;
      return Reply(true, true);
    }
  }

  lemma CountIsSubset(finished: set<User>, members: set<User>)
    ensures |finished * members| < |members| <==> !(members <= finished)
  {
    if members <= finished {
      assert finished * members == members;
    } else {
      var m :| m in members && m !in finished;
      assert finished * members <= members - {m};
      SubsetSize(finished * members, members - {m});
    }
  }

  lemma SubsetSize(a: set<User>, b: set<User>)
    requires a <= b
    ensures |a| <= |b|
  {
    assert b == a + (b - a);
  }

  // ---- The invariant ---------------------------------------------------------------------------

  ghost predicate DbOk(db: Db) {
    db.lastBy.Some? ==> db.lastBy.value in db.finished
  }

  /** What a snapshot still says about the committed state. */
  ghost predicate SnapshotOk(db: Db, snapshot: Db) {
    && DbOk(snapshot)
    && snapshot.version <= db.version
    && snapshot.finished <= db.finished
    && (snapshot.status == Concluded ==> db.status == Concluded)
    && (snapshot.version == db.version ==> snapshot.status == db.status)
    && (snapshot.version == db.version && db.status == Decided ==> snapshot.finished == db.finished)
  }

  ghost predicate TxnOk(db: Db, t: Txn) {
    match t.phase
    case Idle => true
    case Begun(snapshot) => SnapshotOk(db, snapshot)
    case Inserted(snapshot) =>
      SnapshotOk(db, snapshot) && t.call.user !in db.finished
    case Locked(snapshot, wrote) =>
      && SnapshotOk(db, snapshot) && t.call.user !in db.finished
      && wrote && snapshot.status == Decided && snapshot.version == db.version
    case Ready(snapshot, inserted, wrote, reply) =>
      && SnapshotOk(db, snapshot)
      && (if !inserted then t.call.user in snapshot.finished && !wrote && reply == Reply(false, false)
          else
            && t.call.user !in db.finished
            && if wrote then snapshot.status == Decided && snapshot.version == db.version
                             && reply == CountReply(t.call, snapshot)
               else snapshot.status == Concluded && reply == Reply(true, false))
    case Committed(_) => true
  }

  /** Two open transactions never hold the same document. */
  ghost predicate Apart(s: System, a: CallId, b: CallId)
    requires a in s.txns && b in s.txns
  {
    && !(HoldsRound(s.txns[a]) && HoldsRound(s.txns[b]))
    && (HoldsCompletion(s.txns[a]) && HoldsCompletion(s.txns[b]) ==> s.txns[a].call.user != s.txns[b].call.user)
  }

  ghost predicate TxnsOk(s: System) {
    forall id {:trigger TxnOk(s.db, s.txns[id])} :: id in s.txns ==> TxnOk(s.db, s.txns[id])
  }

  ghost predicate AllApart(s: System) {
    forall a, b {:trigger Apart(s, a, b)} :: a in s.txns && b in s.txns && a != b ==> Apart(s, a, b)
  }

  ghost predicate Inv(db0: Db, s: System) {
    && DbOk(s.db)
    && TxnsOk(s)
    && AllApart(s)
    && s.db == Replay(db0, s.history)
    && RepliesAsSerial(db0, s.history)
  }

  /** A transaction that is ready writes and answers exactly as if it ran alone now. */
  lemma CommitIsSerial(db: Db, t: Txn)
    requires t.phase.Ready? && DbOk(db) && TxnOk(db, t)
    ensures (Apply(db, t.call, t.phase), t.phase.reply) == Record(db, t.call)
  {
    CountIsSubset(t.phase.snapshot.finished + {t.call.user}, t.call.members);
  }

  /** The other open transactions still satisfy their facts after a commit. */
  lemma CommitKeepsOther(db: Db, t: Txn, o: Txn)
    requires t.phase.Ready? && DbOk(db) && TxnOk(db, t) && TxnOk(db, o)
    requires !(HoldsRound(t) && HoldsRound(o))
    requires HoldsCompletion(t) && HoldsCompletion(o) ==> t.call.user != o.call.user
    ensures TxnOk(Apply(db, t.call, t.phase), o)
  {
    if o.phase.Locked? {
      assert !t.phase.wrote;
    }
  }

  lemma SetPhaseKeeps(db0: Db, s: System, id: CallId, phase: Phase)
    requires Inv(db0, s) && id in s.txns
    requires TxnOk(s.db, s.txns[id].(phase := phase))
    requires forall o :: o in s.txns && o != id ==>
      !(HoldsRound(s.txns[id].(phase := phase)) && HoldsRound(s.txns[o]))
    requires forall o :: o in s.txns && o != id && HoldsCompletion(s.txns[id].(phase := phase)) && HoldsCompletion(s.txns[o]) ==>
      s.txns[o].call.user != s.txns[id].call.user
    ensures Inv(db0, SetPhase(s, id, phase))
  {
    var s' := SetPhase(s, id, phase);
    forall o | o in s'.txns ensures TxnOk(s'.db, s'.txns[o]) {
      assert o != id ==> TxnOk(s.db, s.txns[o]);
    }
    forall a, b | a in s'.txns && b in s'.txns && a != b ensures Apart(s', a, b) {
      assert Apart(s, a, b);
    }
  }

  lemma CommitKeepsTxns(db0: Db, s: System, id: CallId)
    requires Inv(db0, s) && Enabled(s, Commit(id))
    ensures TxnsOk(Next(s, Commit(id))) && AllApart(Next(s, Commit(id)))
  {
    var t, s' := s.txns[id], Next(s, Commit(id));
    assert TxnOk(s.db, t);
    forall o | o in s'.txns ensures TxnOk(s'.db, s'.txns[o]) {
      if o != id {
        assert TxnOk(s.db, s.txns[o]) && Apart(s, id, o);
        CommitKeepsOther(s.db, t, s.txns[o]);
      }
    }
    forall a, b | a in s'.txns && b in s'.txns && a != b ensures Apart(s', a, b) {
      assert Apart(s, a, b);
    }
  }

  lemma SerialSnoc(db0: Db, db: Db, history: seq<Outcome>, o: Outcome)
    requires db == Replay(db0, history) && RepliesAsSerial(db0, history) && o.reply == Record(db, o.call).1
    ensures Replay(db0, history + [o]) == Record(db, o.call).0 && RepliesAsSerial(db0, history + [o])
  {
    var history' := history + [o];
    assert history'[..|history|] == history;
    forall k | 0 <= k < |history'| ensures AsSerial(db0, history', k) {
      if k < |history| {
        assert AsSerial(db0, history, k) && history'[..k] == history[..k];
      }
    }
  }

  lemma CommitKeeps(db0: Db, s: System, id: CallId)
    requires Inv(db0, s) && Enabled(s, Commit(id))
    ensures Inv(db0, Next(s, Commit(id)))
  {
    var t := s.txns[id];
    assert TxnOk(s.db, t);
    CommitIsSerial(s.db, t);
    CommitKeepsTxns(db0, s, id);
    SerialSnoc(db0, s.db, s.history, Outcome(t.call, t.phase.reply));
  }

  lemma InvokeKeeps(db0: Db, s: System, id: CallId, call: Call)
    requires Inv(db0, s) && id !in s.txns
    ensures Inv(db0, Next(s, Invoke(id, call)))
  {
    var s' := Next(s, Invoke(id, call));
    forall o | o in s'.txns ensures TxnOk(s'.db, s'.txns[o]) {
      assert o != id ==> TxnOk(s.db, s.txns[o]);
    }
    forall a, b | a in s'.txns && b in s'.txns && a != b ensures Apart(s', a, b) {
      assert a != id && b != id ==> Apart(s, a, b);
    }
  }

  lemma NextKeeps(db0: Db, s: System, step: Step)
    requires Inv(db0, s)
    ensures Inv(db0, Next(s, step))
  {
    if Enabled(s, step) {
      if step.Invoke? {
        InvokeKeeps(db0, s, step.id, step.call);
      } else if step.Commit? {
        CommitKeeps(db0, s, step.id);
      } else {
        var id := step.id;
        assert TxnOk(s.db, s.txns[id]);
        forall o | o in s.txns && o != id ensures Apart(s, id, o) {
        }
        SetPhaseKeeps(db0, s, id, Next(s, step).txns[id].phase);
      }
    }
  }

  lemma {:induction false} EveryRunKeeps(db0: Db, steps: seq<Step>)
    requires DbOk(db0)
    ensures Inv(db0, Execute(System(db0, map[], []), steps))
    decreases |steps|
  {
    if steps != [] {
      EveryRunKeeps(db0, steps[..|steps| - 1]);
      NextKeeps(db0, Execute(System(db0, map[], []), steps[..|steps| - 1]), steps[|steps| - 1]);
    }
  }

  // ---- What every run keeps --------------------------------------------------------------------

  /** Every interleaving is serial: the committed calls, run one at a time in commit order, leave the same
      documents and give the same replies. */
  lemma Serializable(db0: Db, steps: seq<Step>)
    requires DbOk(db0)
    ensures var s := Execute(System(db0, map[], []), steps);
      s.db == Replay(db0, s.history) && RepliesAsSerial(db0, s.history)
  {
    EveryRunKeeps(db0, steps);
  }

  /** The call that transaction `id` made, if committed, stands in the history with its reply. */
  ghost predicate Listed(s: System, id: CallId)
    requires id in s.txns
  {
    var t := s.txns[id];
    t.phase.Committed? ==> exists k :: 0 <= k < |s.history| && s.history[k] == Outcome(t.call, t.phase.reply)
  }

  ghost predicate Invoked(steps: seq<Step>, id: CallId, call: Call) {
    exists j :: 0 <= j < |steps| && steps[j] == Invoke(id, call)
  }

  ghost predicate Made(s: System, call: Call) {
    exists id :: id in s.txns && s.txns[id].call == call
  }

  ghost predicate Traced(s: System, steps: seq<Step>) {
    && (forall id {:trigger Listed(s, id)} :: id in s.txns ==> Listed(s, id))
    && (forall id {:trigger Invoked(steps, id, s.txns[id].call)} :: id in s.txns ==> Invoked(steps, id, s.txns[id].call))
    && (forall k {:trigger Made(s, s.history[k].call)} :: 0 <= k < |s.history| ==> Made(s, s.history[k].call))
  }

  lemma NextInvoked(s: System, steps: seq<Step>, step: Step, id: CallId)
    requires Traced(s, steps) && id in Next(s, step).txns
    ensures Invoked(steps + [step], id, Next(s, step).txns[id].call)
  {
    var s', steps' := Next(s, step), steps + [step];
    if id in s.txns {
      assert Invoked(steps, id, s.txns[id].call);
      var j :| 0 <= j < |steps| && steps[j] == Invoke(id, s.txns[id].call);
      assert steps'[j] == steps[j];
    } else {
      assert steps'[|steps|] == Invoke(id, s'.txns[id].call);
    }
  }

  lemma NextListed(s: System, steps: seq<Step>, step: Step, id: CallId)
    requires Traced(s, steps) && id in Next(s, step).txns
    ensures Listed(Next(s, step), id)
  {
    var s' := Next(s, step);
    if id in s.txns && s.txns[id].phase.Committed? {
      assert Listed(s, id) && s'.txns[id] == s.txns[id];
      var k :| 0 <= k < |s.history| && s.history[k] == Outcome(s.txns[id].call, s.txns[id].phase.reply);
      assert s'.history[k] == s.history[k];
    } else if s'.txns[id].phase.Committed? {
      assert s'.history[|s.history|] == Outcome(s'.txns[id].call, s'.txns[id].phase.reply);
    }
  }

  lemma NextMade(s: System, steps: seq<Step>, step: Step, k: nat)
    requires Traced(s, steps) && k < |Next(s, step).history|
    ensures Made(Next(s, step), Next(s, step).history[k].call)
  {
    var s' := Next(s, step);
    if k < |s.history| {
      assert s'.history[k] == s.history[k] && Made(s, s.history[k].call);
      var id :| id in s.txns && s.txns[id].call == s.history[k].call;
      assert id in s'.txns && s'.txns[id].call == s.txns[id].call;
    } else {
      assert step.id in s'.txns && s'.txns[step.id].call == s'.history[k].call;
    }
  }

  lemma NextTraces(s: System, steps: seq<Step>, step: Step)
    requires Traced(s, steps)
    ensures Traced(Next(s, step), steps + [step])
  {
    var s' := Next(s, step);
    forall id | id in s'.txns ensures Listed(s', id) && Invoked(steps + [step], id, s'.txns[id].call) {
      NextListed(s, steps, step, id);
      NextInvoked(s, steps, step, id);
    }
    forall k | 0 <= k < |s'.history| ensures Made(s', s'.history[k].call) {
      NextMade(s, steps, step, k);
    }
  }

  /** A call that has committed stands in the history with the reply it got, and the history lists only
      calls that were invoked. */
  lemma {:induction false} CommittedCallsAreListed(db0: Db, steps: seq<Step>)
    ensures Traced(Execute(System(db0, map[], []), steps), steps)
    decreases |steps|
  {
    if steps != [] {
      var init, last := steps[..|steps| - 1], steps[|steps| - 1];
      CommittedCallsAreListed(db0, init);
      assert init + [last] == steps;
      NextTraces(Execute(System(db0, map[], []), init), init, last);
    }
  }

  /** The call at position `k` is its user's first, finds the round undecided no longer than it takes, and
      completes the member set it was given. */
  ghost predicate ClosesAt(db0: Db, history: seq<Outcome>, k: nat)
    requires k < |history|
  {
    var before := Replay(db0, history[..k]);
    history[k].call.user !in before.finished && history[k].call.members <= before.finished + {history[k].call.user}
  }

  function Conclusions(history: seq<Outcome>): nat {
    if history == [] then 0
    else Conclusions(history[..|history| - 1]) + if history[|history| - 1].reply.roundConcluded then 1 else 0
  }

  /** Some committed call completed the member set it was given. */
  ghost predicate Closed(db0: Db, history: seq<Outcome>) {
    exists k :: 0 <= k < |history| && ClosesAt(db0, history, k)
  }

  lemma ClosedUnrolls(db0: Db, history: seq<Outcome>)
    requires history != []
    ensures Closed(db0, history)
       <==> Closed(db0, history[..|history| - 1]) || ClosesAt(db0, history, |history| - 1)
  {
    var init := history[..|history| - 1];
    forall k | 0 <= k < |init| ensures ClosesAt(db0, init, k) <==> ClosesAt(db0, history, k) {
      assert init[..k] == history[..k];
    }
    if Closed(db0, init) {
      var k :| 0 <= k < |init| && ClosesAt(db0, init, k);
      assert ClosesAt(db0, history, k);
    }
    if Closed(db0, history) && !ClosesAt(db0, history, |history| - 1) {
      var k :| 0 <= k < |history| && ClosesAt(db0, history, k);
      assert ClosesAt(db0, init, k);
    }
  }

  lemma SerialPrefix(db0: Db, history: seq<Outcome>)
    requires RepliesAsSerial(db0, history) && history != []
    ensures RepliesAsSerial(db0, history[..|history| - 1])
  {
    var init := history[..|history| - 1];
    forall k | 0 <= k < |init| ensures AsSerial(db0, init, k) {
      assert AsSerial(db0, history, k) && init[..k] == history[..k];
    }
  }

  /** Whatever member sets the calls carry: the round is concluded exactly when some committed call completed
      its own set, and then exactly one call was told so. */
  lemma {:induction false} ConcludedExactlyWhen(db0: Db, history: seq<Outcome>)
    requires db0.status == Decided && RepliesAsSerial(db0, history)
    ensures Replay(db0, history).status == Concluded <==> Closed(db0, history)
    ensures Conclusions(history) == if Replay(db0, history).status == Concluded then 1 else 0
    decreases |history|
  {
    if history != [] {
      SerialPrefix(db0, history);
      ConcludedExactlyWhen(db0, history[..|history| - 1]);
      assert AsSerial(db0, history, |history| - 1);
      ClosedUnrolls(db0, history);
    }
  }

  ghost predicate Called(history: seq<Outcome>, u: User) {
    exists k :: 0 <= k < |history| && history[k].call.user == u
  }

  /** The finishers are the initial ones and every user with a committed call. */
  lemma {:induction false} FinishedAreCallers(db0: Db, history: seq<Outcome>, u: User)
    ensures u in Replay(db0, history).finished <==> u in db0.finished || Called(history, u)
    decreases |history|
  {
    if history != [] {
      var init := history[..|history| - 1];
      FinishedAreCallers(db0, init, u);
      if Called(init, u) {
        var k :| 0 <= k < |init| && init[k].call.user == u;
        assert history[k].call.user == u;
      }
      if Called(history, u) {
        var k :| 0 <= k < |history| && history[k].call.user == u;
        if k < |init| {
          assert init[k].call.user == u;
        }
      }
    }
  }

  /** What each call of a serial history is told: it is new exactly if its user had no completion and makes no earlier
      call, and it has concluded the round exactly if it is new, completes the member set it was given, and no earlier
      call of the history has done so. */
  lemma {:induction false} RepliesTell(db0: Db, history: seq<Outcome>, k: nat)
    requires db0.status == Decided && RepliesAsSerial(db0, history) && k < |history|
    ensures var (call, reply, before) := (history[k].call, history[k].reply, Replay(db0, history[..k]));
      && (reply.isNew <==> call.user !in db0.finished && !Called(history[..k], call.user))
      && (reply.roundConcluded <==> ClosesAt(db0, history, k) && !Closed(db0, history[..k]))
  {
    assert AsSerial(db0, history, k);
    FinishedAreCallers(db0, history[..k], history[k].call.user);
    SerialUpTo(db0, history, k);
    ConcludedExactlyWhen(db0, history[..k]);
  }

  lemma {:induction false} SerialUpTo(db0: Db, history: seq<Outcome>, k: nat)
    requires RepliesAsSerial(db0, history) && k <= |history|
    ensures RepliesAsSerial(db0, history[..k])
  {
    forall j | 0 <= j < k ensures AsSerial(db0, history[..k], j) {
      assert AsSerial(db0, history, j) && history[..k][..j] == history[..j];
    }
  }

  /** With one member set, the round is concluded exactly when all of it has finished and somebody finished since
      the start: the call that completes the set concludes, and so does any first call after it was complete. */
  lemma {:induction false} ConcludedIffAllFinished(db0: Db, history: seq<Outcome>, members: set<User>)
    requires db0.status == Decided
    requires forall k :: 0 <= k < |history| ==> history[k].call.members == members
    ensures db0.finished <= Replay(db0, history).finished
    ensures Replay(db0, history).status == Concluded <==>
      members <= Replay(db0, history).finished && Replay(db0, history).finished != db0.finished
    decreases |history|
  {
    if history != [] {
      ConcludedIffAllFinished(db0, history[..|history| - 1], members);
    }
  }

  /** User `m` has a call that has committed. */
  ghost predicate HasCommitted(s: System, m: User) {
    exists id :: id in s.txns && s.txns[id].phase.Committed? && s.txns[id].call.user == m
  }

  ghost predicate AllCarry(steps: seq<Step>, members: set<User>) {
    forall j {:trigger steps[j]} :: 0 <= j < |steps| && steps[j].Invoke? ==> steps[j].call.members == members
  }

  lemma HistoryCarries(s: System, steps: seq<Step>, members: set<User>, k: nat)
    requires Traced(s, steps) && AllCarry(steps, members) && k < |s.history|
    ensures s.history[k].call.members == members
  {
    assert Made(s, s.history[k].call);
    var id :| id in s.txns && s.txns[id].call == s.history[k].call;
    assert Invoked(steps, id, s.txns[id].call);
    var j :| 0 <= j < |steps| && steps[j] == Invoke(id, s.txns[id].call);
  }

  lemma CommittedHasFinished(db0: Db, s: System, steps: seq<Step>, m: User)
    requires Traced(s, steps) && s.db == Replay(db0, s.history) && HasCommitted(s, m)
    ensures m in s.db.finished
  {
    var id :| id in s.txns && s.txns[id].phase.Committed? && s.txns[id].call.user == m;
    assert Listed(s, id);
    var k :| 0 <= k < |s.history| && s.history[k] == Outcome(s.txns[id].call, s.txns[id].phase.reply);
    assert s.history[k].call.user == m;
    FinishedAreCallers(db0, s.history, m);
  }

  ghost predicate AllCallersIn(steps: seq<Step>, members: set<User>) {
    forall j {:trigger steps[j]} :: 0 <= j < |steps| && steps[j].Invoke? ==> steps[j].call.user in members
  }

  ghost predicate CallerIn(history: seq<Outcome>, k: nat, members: set<User>) {
    k < |history| ==> history[k].call.user in members
  }

  lemma HistoryCalledBy(s: System, steps: seq<Step>, members: set<User>, k: nat)
    requires Traced(s, steps) && AllCallersIn(steps, members)
    ensures CallerIn(s.history, k, members)
  {
    if k < |s.history| {
      assert Made(s, s.history[k].call);
      var id :| id in s.txns && s.txns[id].call == s.history[k].call;
      assert Invoked(steps, id, s.txns[id].call);
      var j :| 0 <= j < |steps| && steps[j] == Invoke(id, s.txns[id].call);
    }
  }

  lemma {:induction false} ReplayAddsCallers(db0: Db, history: seq<Outcome>, members: set<User>)
    requires forall k {:trigger CallerIn(history, k, members)} :: 0 <= k ==> CallerIn(history, k, members)
    ensures Replay(db0, history).finished <= db0.finished + members
    decreases |history|
  {
    if history != [] {
      var init := history[..|history| - 1];
      forall k | 0 <= k ensures CallerIn(init, k, members) {
        assert CallerIn(history, k, members);
      }
      assert CallerIn(history, |init|, members);
      ReplayAddsCallers(db0, init, members);
    }
  }

  lemma {:induction false} CallersStay(db0: Db, s: System, steps: seq<Step>, members: set<User>)
    requires Traced(s, steps) && s.db == Replay(db0, s.history) && AllCallersIn(steps, members)
    ensures s.db.finished <= db0.finished + members
  {
    forall k: nat ensures CallerIn(s.history, k, members) {
      HistoryCalledBy(s, steps, members, k);
    }
    ReplayAddsCallers(db0, s.history, members);
  }

  /** With a fixed member set, in every interleaving and from every start: the round is concluded exactly when every
      member has a completion and at least one was made since the start, and then exactly one call reported it. */
  lemma {:induction false} ConclusionIsExact(db0: Db, steps: seq<Step>, members: set<User>)
    requires DbOk(db0) && db0.status == Decided && AllCarry(steps, members)
    ensures var s := Execute(System(db0, map[], []), steps);
      && Traced(s, steps) && s.db == Replay(db0, s.history) && db0.finished <= s.db.finished
      && (s.db.status == Concluded <==> members <= s.db.finished && s.db.finished != db0.finished)
      && Conclusions(s.history) == (if s.db.status == Concluded then 1 else 0)
  {
    var s := Execute(System(db0, map[], []), steps);
    Serializable(db0, steps);
    CommittedCallsAreListed(db0, steps);
    forall k | 0 <= k < |s.history| ensures s.history[k].call.members == members {
      HistoryCarries(s, steps, members, k);
    }
    ConcludedIffAllFinished(db0, s.history, members);
    ConcludedExactlyWhen(db0, s.history);
  }

  /** No missed conclusion, and its one exception.  When the members are the callers and all of them have a committed
      call, the round is concluded if and only if they had not all finished before the first call: a round whose
      members have all finished is never closed by them. */
  lemma {:induction false} NoMissedConclusion(db0: Db, steps: seq<Step>, members: set<User>)
    requires DbOk(db0) && db0.status == Decided && AllCarry(steps, members) && AllCallersIn(steps, members)
    ensures var s := Execute(System(db0, map[], []), steps);
      && ((forall m :: m in members ==> HasCommitted(s, m)) ==>
            (s.db.status == Concluded <==> !(members <= db0.finished)))
      && (members <= db0.finished ==> s.db.status == Decided)
      && (s.db.status == Concluded ==> members <= s.db.finished && Conclusions(s.history) == 1)
  {
    var s := Execute(System(db0, map[], []), steps);
    ConclusionIsExact(db0, steps, members);
    CallersStay(db0, s, steps, members);
    forall m | HasCommitted(s, m) ensures m in s.db.finished {
      CommittedHasFinished(db0, s, steps, m);
    }
  }
}
