/** `@transactional` of hoodie/transactions.py together with the deferred search-sync batch of hoodie/sync.py.

    A decorated body is a program over one database.  What the driver and other writers do is given from
    outside: each outermost call draws one script, which says attempt by attempt what lands in the database
    meanwhile, which write fails and how, and how the commit ends. */
module Transactions {

  type Key = nat
  type Value = nat
  type Entry = nat
  type Db = map<Key, Value>

  datatype Option<T> = None | Some(value: T)

  /** `Conflict` is `TransactionError` or a subclass; `Transient` carries the driver's retry label;
      `SyncFailed` is the exception group of a wait that did not settle. */
  datatype Error = Conflict(tag: nat) | Transient | Failure(tag: nat) | SyncFailed | Unmanaged

  datatype Outcome = Returned(value: Value) | Raised(error: Error)

  datatype Handles = TransactionErrors | AnyError

  datatype Prog =
    | Yield(value: Value)
    | Put(key: Key, value: Value, entries: seq<Entry>)
    | Throw(error: Error)
    | Then(first: Prog, second: Prog)
    | IfHolds(key: Key, value: Value, yes: Prog, no: Prog)
    | Try(body: Prog, handles: Handles, handler: Prog)
    | Transactional(onConflict: Option<Value>, body: Prog)

  datatype Write = Write(key: Key, value: Value, entries: seq<Entry>)

  /** How a write fails: against another writer, which the driver labels transient, or on its own account, such as on
      a unique index.  The server gives the transaction up either way. */
  datatype Fault = WriteConflict | Refused(tag: nat)

  function ErrorOf(fault: Fault): Error {
    if fault.WriteConflict? then Transient else Failure(fault.tag)
  }

  /** An open transaction: its view of the database, its writes so far, how many more writes succeed and how the
      next one fails, and whether the server has given it up. */
  datatype Txn = Txn(view: Db, writes: seq<Write>, writesLeft: Option<nat>, fault: Fault, broken: bool)

  /** `CommitUnknown` is a commit the server has applied although the driver raises: its answer was lost and the
      driver's time to ask again was up. */
  datatype CommitFate = CommitOk | CommitTransient | CommitRefused | CommitUnknown

  datatype Attempt = Attempt(before: Db, writesLeft: Option<nat>, fault: Fault, during: Db, commit: CommitFate)

  type Script = seq<Attempt>

  /** `session` and `batch` are the two context variables; `waited` lists the batches waited on;
      `syncs` says how the coming waits end. */
  datatype State = State(
    db: Db,
    session: Option<Txn>,
    batch: Option<seq<Entry>>,
    waited: seq<seq<Entry>>,
    scripts: seq<Script>,
    syncs: seq<bool>)

  function ApplyWrites(db: Db, writes: seq<Write>): Db {
    if writes == [] then db
    else ApplyWrites(db, writes[..|writes| - 1])[writes[|writes| - 1].key := writes[|writes| - 1].value]
  }

  function EntriesOf(writes: seq<Write>): seq<Entry> {
    if writes == [] then [] else EntriesOf(writes[..|writes| - 1]) + writes[|writes| - 1].entries
  }

  predicate Caught(handles: Handles, e: Error) {
    handles.AnyError? || e.Conflict?
  }

  /** `_wait_all`: nothing to wait for, or one wait that may fail. */
  function WaitAll(s: State, entries: seq<Entry>, value: Value): (State, Outcome) {
    if entries == [] then (s, Returned(value))
    else
      var settles := s.syncs == [] || s.syncs[0];
      (s.(waited := s.waited + [entries], syncs := if s.syncs == [] then [] else s.syncs[1..]),
       if settles then Returned(value) else Raised(SyncFailed))
  }

  /** A write: directly with its own wait outside a transaction, into the transaction and its batch inside.  A
      transaction the server has given up answers every further read and write with a transient error. */
  function DoPut(s: State, w: Write): (State, Outcome) {
    match s.session
    case None => WaitAll(s.(db := s.db[w.key := w.value]), w.entries, w.value)
    case Some(t) =>
      if t.broken then (s, Raised(Transient))
      else if t.writesLeft == Some(0) then
        (s.(session := Some(t.(broken := true))), Raised(ErrorOf(t.fault)))
      else if w.entries != [] && s.batch.None? then
        (s.(session := Some(Written(t, w))), Raised(Unmanaged))
      else
        (s.(session := Some(Written(t, w)),
            batch := if s.batch.None? then None else Some(s.batch.value + w.entries)),
         Returned(w.value))
  }

  function Written(t: Txn, w: Write): Txn {
    t.(view := t.view[w.key := w.value],
       writes := t.writes + [w],
       writesLeft := if t.writesLeft.None? || t.writesLeft.value == 0 then t.writesLeft else Some(t.writesLeft.value - 1))
  }

  function Visible(s: State): Db {
    if s.session.None? then s.db else s.session.value.view
  }

  predicate GivenUp(s: State) {
    s.session.Some? && s.session.value.broken
  }

  /** What running `p` does and replies. */
  function Eval(p: Prog, s: State): (State, Outcome)
    decreases p, 0, 0
  {
    match p
    case Yield(v) => (s, Returned(v))
    case Put(k, v, entries) => DoPut(s, Write(k, v, entries))
    case Throw(e) => (s, Raised(e))
    case Then(first, second) =>
      var (s1, o) := Eval(first, s);
      if o.Raised? then (s1, o) else Eval(second, s1)
    case IfHolds(k, v, yes, no) =>
      var db := Visible(s);
      if GivenUp(s) then (s, Raised(Transient))
      else if k in db && db[k] == v then Eval(yes, s) else Eval(no, s)
    case Try(body, handles, handler) =>
      var (s1, o) := Eval(body, s);
      if o.Raised? && Caught(handles, o.error) then Eval(handler, s1) else (s1, o)
    case Transactional(onConflict, body) =>
      if s.session.Some? then Eval(body, s)
      else
        var script := if s.scripts == [] then [] else s.scripts[0];
        var rest := if s.scripts == [] then [] else s.scripts[1..];
        var (s1, o) := Attempts(body, script, s.(scripts := rest, batch := Some([])));
        Leave(s1, s.batch, o, onConflict)
  }

  /** The end of the outermost call: the batch variable is reset, a committed batch is waited on, and a
      transaction error becomes the declared fallback. */
  function Leave(s: State, batch: Option<seq<Entry>>, o: Outcome, onConflict: Option<Value>): (State, Outcome) {
    var pending := if s.batch.None? then [] else s.batch.value;
    var s' := s.(batch := batch);
    match o
    case Returned(v) => WaitAll(s', pending, v)
    case Raised(e) => if e.Conflict? && onConflict.Some? then (s', Returned(onConflict.value)) else (s', o)
  }

  /** The state in which an attempt runs the body: cleared batch, ambient session, fresh snapshot. */
  function Opened(s: State, a: Attempt): State {
    var base := s.db + a.before;
    s.(db := base, batch := Some([]), session := Some(Txn(base, [], a.writesLeft, a.fault, false)))
  }

  /** Whether the attempt is rolled back and tried again. */
  predicate Retried(a: Attempt, t: Option<Txn>, o: Outcome) {
    match o
    case Raised(e) => e.Transient?
    case Returned(_) => (t.Some? && t.value.broken) || a.commit.CommitTransient?
  }

  function Committed(s: State, a: Attempt, t: Option<Txn>): Db {
    if t.None? then s.db else ApplyWrites(s.db + a.during, t.value.writes)
  }

  /** One attempt: its end state and reply, and whether the driver tries again. */
  function TryOnce(body: Prog, a: Attempt, s: State): (State, Outcome, bool)
    decreases body, 1, 0
  {
    var (s1, o) := Eval(body, Opened(s, a));
    var s2 := s1.(session := None);
    if Retried(a, s1.session, o) then (s2, Raised(Transient), true)
    else if o.Raised? then (s2, o, false)
    else if a.commit.CommitRefused? then (s2, Raised(Failure(0)), false)
    else (s2.(db := Committed(s2, a, s1.session)), if a.commit.CommitUnknown? then Raised(Failure(1)) else o, false)
  }

  /** `with_transaction`: attempts until one is not retried, or the driver's time is up. */
  function Attempts(body: Prog, script: Script, s: State): (State, Outcome)
    decreases body, 2, |script|
  {
    if script == [] then (s, Raised(Transient))
    else
      var (s1, o, again) := TryOnce(body, script[0], s);
      if again then Attempts(body, script[1..], s1) else (s1, o)
  }

  // ---- The context variables -------------------------------------------------------------------

  class Runtime {
    var db: Db
    var session: Option<Txn>
    var batch: Option<seq<Entry>>
    var waited: seq<seq<Entry>>
    var scripts: seq<Script>
    var syncs: seq<bool>

    ghost function Value(): State
      reads this
    {
      State(db, session, batch, waited, scripts, syncs)
    }

    constructor (s: State)
      ensures Value() == s
    {
      db, session, batch, waited, scripts, syncs := s.db, s.session, s.batch, s.waited, s.scripts, s.syncs;
    }

    method Wait(entries: seq<Entry>, value: Value) returns (o: Outcome)
      modifies this
      ensures (Value(), o) == WaitAll(old(Value()), entries, value)
    {
      if entries == [] {
        return Returned(value);
      }
      waited := waited + [entries];
      o := if syncs == [] || syncs[0] then Returned(value) else Raised(SyncFailed);
      syncs := if syncs == [] then [] else syncs[1..];
    }

    method Save(w: Write) returns (o: Outcome)
      modifies this
      ensures (Value(), o) == DoPut(old(Value()), w)
    {
      if session.None? {
        db := db[w.key := w.value];
        o := Wait(w.entries, w.value);
      } else if session.value.broken {
        o := Raised(Transient);
      } else if session.value.writesLeft == Some(0) {
        session := Some(session.value.(broken := true));
        o := Raised(ErrorOf(session.value.fault));
      } else {
        session := Some(Written(session.value, w));
        if w.entries != [] && batch.None? {
          return Raised(Unmanaged);
        }
        if batch.Some? {
          batch := Some(batch.value + w.entries);
        }
        o := Returned(w.value);
      }
    }

    /** Run a program; the decorated parts go through `RunInTransaction`. */
    method Run(p: Prog) returns (o: Outcome)
      modifies this
      ensures (Value(), o) == Eval(p, old(Value()))
      decreases p, 0
    {
      match p
      case Yield(v) => o := Returned(v);
      case Put(k, v, entries) => o := Save(Write(k, v, entries));
      case Throw(e) => o := Raised(e);
      case Then(first, second) =>
        o := Run(first);
        if o.Returned? {
          o := Run(second);
        }
      case IfHolds(k, v, yes, no) =>
        var visible := if session.None? then db else session.value.view;
        if session.Some? && session.value.broken {
          o := Raised(Transient);
        } else if k in visible && visible[k] == v {
          o := Run(yes);
        } else {
          o := Run(no);
        }
      case Try(body, handles, handler) =>
        o := Run(body);
        if o.Raised? && Caught(handles, o.error) {
          o := Run(handler);
        }
      case Transactional(onConflict, body) =>
        var isNested := session.Some?;
        o := RunInTransaction(body);
        if o.Raised? && o.error.Conflict? && !isNested && onConflict.Some? {
          o := Returned(onConflict.value);
        }
    }

    /** Clear the batch, set the session, run the body, reset the session, then commit or roll back. */
    method RunAttempt(body: Prog, a: Attempt) returns (o: Outcome, again: bool)
      modifies this
      ensures (Value(), o, again) == TryOnce(body, a, old(Value()))
      decreases body, 1
    {
      db := db + a.before;
      batch := Some([]);
      session := Some(Txn(db, [], a.writesLeft, a.fault, false));
      o := Run(body);
      var t := session;
      session := None;
      again := Retried(a, t, o);
      if again {
        o := Raised(Transient);
      } else if o.Returned? && a.commit.CommitRefused? {
        o := Raised(Failure(0));
      } else if o.Returned? && t.Some? {
        db := ApplyWrites(db + a.during, t.value.writes);
      }
      if !again && o.Returned? && a.commit.CommitUnknown? {
        o := Raised(Failure(1));
      }
    }

    method RunAttempts(body: Prog, script: Script) returns (o: Outcome)
      modifies this
      ensures (Value(), o) == Attempts(body, script, old(Value()))
      decreases body, 2
    {
      o := Raised(Transient);
      var i, again := 0, true;
      while i < |script| && again
        invariant 0 <= i <= |script|
        invariant again ==> o == Raised(Transient)
        invariant if again then Attempts(body, script[i..], Value()) == Attempts(body, script, old(Value()))
                  else (Value(), o) == Attempts(body, script, old(Value()))
        decreases |script| - i
      {
        assert script[i..][0] == script[i] && script[i..][1..] == script[i + 1..];
        o, again := RunAttempt(body, script[i]);
        i := i + 1;
      }
    }

    /** The outermost call runs attempts and waits on what the committed attempt left in the batch. */
    method RunOutermost(body: Prog) returns (o: Outcome)
      requires session.None?
      modifies this
      ensures (Value(), o) == Eval(Transactional(None, body), old(Value()))
      decreases body, 3
    {
      var outer := batch;
      var script := if scripts == [] then [] else scripts[0];
      scripts := if scripts == [] then [] else scripts[1..];
      batch := Some([]);
      o := RunAttempts(body, script);
      var pending := if batch.None? then [] else batch.value;
      batch := outer;
      if o.Returned? {
        o := Wait(pending, o.value);
      }
    }

    /** A nested call shares the open transaction. */
    method RunInTransaction(body: Prog) returns (o: Outcome)
      modifies this
      ensures old(session).Some? ==> (Value(), o) == Eval(body, old(Value()))
      ensures old(session).None? ==> (Value(), o) == Eval(Transactional(None, body), old(Value()))
      decreases body, 4
    {
      if session.Some? {
        o := Run(body);
      } else {
        o := RunOutermost(body);
      }
    }
  }

  // ---- Nested decorators erase -----------------------------------------------------------------

  /** The program without any decorator. */
  function Undecorated(p: Prog): Prog {
    match p
    case Then(a, b) => Then(Undecorated(a), Undecorated(b))
    case IfHolds(k, v, a, b) => IfHolds(k, v, Undecorated(a), Undecorated(b))
    case Try(a, h, b) => Try(Undecorated(a), h, Undecorated(b))
    case Transactional(_, body) => Undecorated(body)
    case _ => p
  }

  /** The program with only its outermost decorators left. */
  function OutermostOnly(p: Prog): Prog {
    match p
    case Then(a, b) => Then(OutermostOnly(a), OutermostOnly(b))
    case IfHolds(k, v, a, b) => IfHolds(k, v, OutermostOnly(a), OutermostOnly(b))
    case Try(a, h, b) => Try(OutermostOnly(a), h, OutermostOnly(b))
    case Transactional(f, body) => Transactional(f, Undecorated(body))
    case _ => p
  }

  /** A body that starts inside a transaction ends inside it, and does nothing outside of it. */
  lemma {:induction false} StaysInside(p: Prog, s: State)
    requires s.session.Some?
    ensures var s' := Eval(p, s).0;
      && s'.session.Some? && (s'.batch.Some? <==> s.batch.Some?)
      && s'.db == s.db && s'.waited == s.waited && s'.scripts == s.scripts && s'.syncs == s.syncs
  {
    match p
    case Then(a, b) =>
      StaysInside(a, s);
      StaysInside(b, Eval(a, s).0);
    case IfHolds(_, _, a, b) =>
      StaysInside(a, s);
      StaysInside(b, s);
    case Try(a, h, b) =>
      StaysInside(a, s);
      StaysInside(b, Eval(a, s).0);
    case Transactional(_, body) => StaysInside(body, s);
    case _ =>
  }

  lemma {:induction false} InsideDecoratorsErase(p: Prog, s: State)
    requires s.session.Some?
    ensures Eval(Undecorated(p), s) == Eval(p, s)
  {
    match p
    case Then(a, b) =>
      StaysInside(a, s);
      InsideDecoratorsErase(a, s);
      InsideDecoratorsErase(b, Eval(a, s).0);
    case IfHolds(_, _, a, b) =>
      InsideDecoratorsErase(a, s);
      InsideDecoratorsErase(b, s);
    case Try(a, h, b) =>
      StaysInside(a, s);
      InsideDecoratorsErase(a, s);
      InsideDecoratorsErase(b, Eval(a, s).0);
    case Transactional(_, body) => InsideDecoratorsErase(body, s);
    case _ =>
  }

  lemma {:induction false} AttemptsErase(body: Prog, script: Script, s: State)
    ensures Attempts(Undecorated(body), script, s) == Attempts(body, script, s)
    decreases |script|
  {
    if script != [] {
      InsideDecoratorsErase(body, Opened(s, script[0]));
      AttemptsErase(body, script[1..], Eval(body, Opened(s, script[0])).0.(session := None));
    }
  }

  /** Nested decorators erase: for every program, in every state, with every script, deleting the inner
      decorators (fallbacks included) changes nothing: same reply, same database, same waits, same pending
      batch, same ambient session. */
  lemma {:induction false} NestedDecoratorsErase(p: Prog, s: State)
    ensures Eval(OutermostOnly(p), s) == Eval(p, s)
  {
    match p
    case Then(a, b) =>
      NestedDecoratorsErase(a, s);
      NestedDecoratorsErase(b, Eval(a, s).0);
    case IfHolds(_, _, a, b) =>
      NestedDecoratorsErase(a, s);
      NestedDecoratorsErase(b, s);
    case Try(a, h, b) =>
      NestedDecoratorsErase(a, s);
      NestedDecoratorsErase(b, Eval(a, s).0);
    case Transactional(f, body) =>
      if s.session.Some? {
        InsideDecoratorsErase(body, s);
      } else {
        var script := if s.scripts == [] then [] else s.scripts[0];
        var rest := if s.scripts == [] then [] else s.scripts[1..];
        AttemptsErase(body, script, s.(scripts := rest, batch := Some([])));
      }
    case _ =>
  }

  /** Every exit of every program leaves the ambient session and batch as they were. */
  lemma {:induction false} AmbientRestored(p: Prog, s: State)
    requires s.session.None?
    ensures var s' := Eval(p, s).0; s'.session.None? && s'.batch == s.batch
  {
    match p
    case Then(a, b) =>
      AmbientRestored(a, s);
      AmbientRestored(b, Eval(a, s).0);
    case IfHolds(_, _, a, b) =>
      AmbientRestored(a, s);
      AmbientRestored(b, s);
    case Try(a, h, b) =>
      AmbientRestored(a, s);
      AmbientRestored(b, Eval(a, s).0);
    case Transactional(f, body) =>
      var script := if s.scripts == [] then [] else s.scripts[0];
      var rest := if s.scripts == [] then [] else s.scripts[1..];
      AttemptsCloseSession(body, script, s.(scripts := rest, batch := Some([])));
    case _ =>
  }

  lemma {:induction false} AttemptsCloseSession(body: Prog, script: Script, s: State)
    requires s.session.None?
    ensures Attempts(body, script, s).0.session.None?
    decreases |script|
  {
    if script != [] {
      AttemptsCloseSession(body, script[1..], Eval(body, Opened(s, script[0])).0.(session := None));
    }
  }

  // ---- The batch mirrors the transaction's writes ----------------------------------------------

  ghost predicate Mirrors(s: State, base: Db) {
    && s.session.Some?
    && s.batch == Some(EntriesOf(s.session.value.writes))
    && s.session.value.view == ApplyWrites(base, s.session.value.writes)
  }

  lemma PutMirrors(s: State, base: Db, w: Write)
    requires Mirrors(s, base)
    ensures Mirrors(DoPut(s, w).0, base)
  {
    var t := s.session.value;
    assert (t.writes + [w])[..|t.writes|] == t.writes;
  }

  /** Whatever a body does, raises or catches, the batch holds the entries of exactly the writes its
      transaction holds, in their order, and the body reads its own writes. */
  lemma {:induction false} BatchMirrorsWrites(p: Prog, s: State, base: Db)
    requires Mirrors(s, base)
    ensures Mirrors(Eval(p, s).0, base)
  {
    match p
    case Put(k, v, entries) => PutMirrors(s, base, Write(k, v, entries));
    case Then(a, b) =>
      BatchMirrorsWrites(a, s, base);
      BatchMirrorsWrites(b, Eval(a, s).0, base);
    case IfHolds(_, _, a, b) =>
      BatchMirrorsWrites(a, s, base);
      BatchMirrorsWrites(b, s, base);
    case Try(a, h, b) =>
      BatchMirrorsWrites(a, s, base);
      BatchMirrorsWrites(b, Eval(a, s).0, base);
    case Transactional(_, body) => BatchMirrorsWrites(body, s, base);
    case _ =>
  }

  /** Once the server has given a transaction up, a body may catch what it likes: it writes nothing more. */
  lemma {:induction false} GivenUpForGood(p: Prog, s: State)
    requires GivenUp(s)
    ensures Eval(p, s).0 == s
  {
    match p
    case Then(a, b) =>
      GivenUpForGood(a, s);
      GivenUpForGood(b, s);
    case Try(a, h, b) =>
      GivenUpForGood(a, s);
      GivenUpForGood(b, s);
    case Transactional(_, body) => GivenUpForGood(body, s);
    case _ =>
  }

  // ---- All of one attempt, or nothing ----------------------------------------------------------

  /** The database with what other writers did before the first `k` attempts, and nothing else. */
  function Untouched(db: Db, script: Script, k: nat): Db
    requires k <= |script|
  {
    if k == 0 then db else Untouched(db, script, k - 1) + script[k - 1].before
  }

  /** Attempt `k` of a call, run on its own from the state the call started in. */
  function Alone(body: Prog, script: Script, s: State, k: nat): (State, Outcome)
    requires k < |script|
  {
    Eval(body, Opened(s.(db := Untouched(s.db, script, k)), script[k]))
  }

  /** Attempt `k` is tried again: its body raised a transient error, or returned although the server had given the
      transaction up or then failed the commit with a transient error. */
  ghost predicate RetriedAt(body: Prog, script: Script, s: State, k: nat)
    requires k < |script|
  {
    var (t, r) := Alone(body, script, s, k);
    || r == Raised(Transient)
    || (r.Returned? && (GivenUp(t) || script[k].commit == CommitTransient))
  }

  /** The first attempt that is not rolled back for a retry. */
  ghost predicate Decisive(body: Prog, script: Script, s: State, k: nat)
    requires k <= |script|
  {
    && (forall j {:trigger RetriedAt(body, script, s, j)} :: 0 <= j < k ==> RetriedAt(body, script, s, j))
    && (k < |script| ==> !RetriedAt(body, script, s, k))
  }

  /** The server applies attempt `k`; whether the driver hears of it is another matter. */
  ghost predicate AppliedAt(body: Prog, script: Script, s: State, k: nat)
    requires k <= |script|
  {
    && k < |script|
    && Alone(body, script, s, k).1.Returned?
    && (script[k].commit.CommitOk? || script[k].commit.CommitUnknown?)
  }

  /** What `with_transaction` leaves when attempt `k` decides: that attempt's writes and batch, or nothing. */
  ghost predicate AttemptsEnd(body: Prog, script: Script, s: State, k: nat, s': State, o: Outcome)
    requires k <= |script|
  {
    && s'.session.None? && s'.waited == s.waited && s'.scripts == s.scripts && s'.syncs == s.syncs
    && if AppliedAt(body, script, s, k) then
         var (t, r) := Alone(body, script, s, k);
         && o == (if script[k].commit.CommitOk? then r else Raised(Failure(1))) && t.session.Some?
         && s'.db == ApplyWrites(Untouched(s.db, script, k + 1) + script[k].during, t.session.value.writes)
         && s'.batch == Some(EntriesOf(t.session.value.writes))
       else
         && o.Raised?
         && s'.db == Untouched(s.db, script, if k < |script| then k + 1 else k)
         && (k < |script| ==> o == if Alone(body, script, s, k).1.Raised? then Alone(body, script, s, k).1 else Raised(Failure(0)))
         && (k == |script| ==> o == Raised(Transient))
  }

  lemma {:induction false} UntouchedShifts(db: Db, script: Script, k: nat)
    requires 1 <= k <= |script|
    ensures Untouched(db, script, k) == Untouched(db + script[0].before, script[1..], k - 1)
  {
    if k > 1 {
      UntouchedShifts(db, script, k - 1);
    }
  }

  lemma OneAttempt(body: Prog, s: State, a: Attempt)
    requires s.session.None?
    ensures var t := Eval(body, Opened(s, a)).0;
      && t.session.Some? && t.batch == Some(EntriesOf(t.session.value.writes))
      && t.db == s.db + a.before && t.waited == s.waited && t.scripts == s.scripts && t.syncs == s.syncs
  {
    StaysInside(body, Opened(s, a));
    BatchMirrorsWrites(body, Opened(s, a), s.db + a.before);
  }

  /** `s1` is the state after the first attempt of `script` was rolled back. */
  ghost predicate RolledBack(s: State, script: Script, s1: State) {
    && script != []
    && s1.db == s.db + script[0].before
    && s1.session == s.session && s1.waited == s.waited && s1.scripts == s.scripts && s1.syncs == s.syncs
  }

  lemma AloneShifts(body: Prog, script: Script, s: State, s1: State, i: nat)
    requires RolledBack(s, script, s1) && i + 1 < |script|
    ensures Alone(body, script, s, i + 1) == Alone(body, script[1..], s1, i)
  {
    UntouchedShifts(s.db, script, i + 1);
    assert Opened(s.(db := Untouched(s.db, script, i + 1)), script[i + 1])
        == Opened(s1.(db := Untouched(s1.db, script[1..], i)), script[1..][i]);
  }

  lemma RetriedShifts(body: Prog, script: Script, s: State, s1: State, i: nat)
    requires RolledBack(s, script, s1) && i + 1 < |script|
    ensures RetriedAt(body, script, s, i + 1) == RetriedAt(body, script[1..], s1, i)
  {
    AloneShifts(body, script, s, s1, i);
  }

  lemma DecisiveShifts(body: Prog, script: Script, s: State, s1: State, k: nat)
    requires RolledBack(s, script, s1) && RetriedAt(body, script, s, 0)
    requires k < |script| && Decisive(body, script[1..], s1, k)
    ensures Decisive(body, script, s, k + 1)
  {
    forall i | 0 <= i <= k ensures RetriedAt(body, script, s, i) {
      if i > 0 {
        RetriedShifts(body, script, s, s1, i - 1);
      }
    }
    if k + 1 < |script| {
      RetriedShifts(body, script, s, s1, k);
    }
  }

  lemma AppliedShifts(body: Prog, script: Script, s: State, s1: State, k: nat)
    requires RolledBack(s, script, s1) && k < |script|
    ensures AppliedAt(body, script, s, k + 1) == AppliedAt(body, script[1..], s1, k)
    ensures Untouched(s.db, script, k + 1) == Untouched(s1.db, script[1..], k)
    ensures k + 1 < |script| ==> Untouched(s.db, script, k + 2) == Untouched(s1.db, script[1..], k + 1)
  {
    UntouchedShifts(s.db, script, k + 1);
    if k + 1 < |script| {
      AloneShifts(body, script, s, s1, k);
      UntouchedShifts(s.db, script, k + 2);
    }
  }

  lemma AttemptsEndShifts(body: Prog, script: Script, s: State, s1: State, k: nat, s': State, o: Outcome)
    requires RolledBack(s, script, s1) && k < |script| && AttemptsEnd(body, script[1..], s1, k, s', o)
    ensures AttemptsEnd(body, script, s, k + 1, s', o)
  {
    AppliedShifts(body, script, s, s1, k);
    if k + 1 < |script| {
      AloneShifts(body, script, s, s1, k);
      assert script[k + 1] == script[1..][k];
    }
  }

  lemma FirstAttempt(body: Prog, script: Script, s: State)
    requires s.session.None? && script != []
    ensures Alone(body, script, s, 0) == Eval(body, Opened(s, script[0]))
    ensures Untouched(s.db, script, 1) == s.db + script[0].before
  {
    assert s.(db := Untouched(s.db, script, 0)) == s;
  }

  lemma FirstIsRetried(body: Prog, script: Script, s: State) returns (s1: State)
    requires s.session.None? && script != [] && RetriedAt(body, script, s, 0)
    ensures RolledBack(s, script, s1) && Attempts(body, script, s) == Attempts(body, script[1..], s1)
  {
    FirstAttempt(body, script, s);
    OneAttempt(body, s, script[0]);
    s1 := Eval(body, Opened(s, script[0])).0.(session := None);
    assert TryOnce(body, script[0], s) == (s1, Raised(Transient), true);
  }

  lemma {:induction false} FirstIsFinal(body: Prog, script: Script, s: State)
    requires s.session.None? && script != [] && !RetriedAt(body, script, s, 0)
    ensures var (s', o) := Attempts(body, script, s); AttemptsEnd(body, script, s, 0, s', o)
  {
    FirstAttempt(body, script, s);
    OneAttempt(body, s, script[0]);
    assert !TryOnce(body, script[0], s).2;
  }

  lemma {:induction false} AttemptsDecide(body: Prog, script: Script, s: State) returns (k: nat)
    requires s.session.None?
    ensures k <= |script| && Decisive(body, script, s, k)
    ensures var (s', o) := Attempts(body, script, s); AttemptsEnd(body, script, s, k, s', o)
    decreases |script|
  {
    k := 0;
    if script != [] && RetriedAt(body, script, s, 0) {
      var s1 := FirstIsRetried(body, script, s);
      var j := AttemptsDecide(body, script[1..], s1);
      var (s', o) := Attempts(body, script, s);
      DecisiveShifts(body, script, s, s1, j);
      AttemptsEndShifts(body, script, s, s1, j, s', o);
      k := j + 1;
    } else if script != [] {
      FirstIsFinal(body, script, s);
    }
  }

  function ScriptOf(s: State): Script {
    if s.scripts == [] then [] else s.scripts[0]
  }

  /** The state once the outermost call has drawn its script. */
  function Drawn(s: State): State {
    s.(scripts := if s.scripts == [] then [] else s.scripts[1..])
  }

  /** What attempt `k` of a call leaves behind when the server applies it. */
  ghost predicate LeavesAll(body: Prog, script: Script, s: State, k: nat, s': State, o: Outcome)
    requires k < |script|
  {
    var (t, r) := Alone(body, script, s, k);
    && t.session.Some? && !t.session.value.broken
    && var writes := t.session.value.writes;
    && s'.db == ApplyWrites(Untouched(s.db, script, k + 1) + script[k].during, writes)
    && if script[k].commit.CommitOk? then
         && s'.waited == s.waited + (if EntriesOf(writes) == [] then [] else [EntriesOf(writes)])
         && o == (if EntriesOf(writes) != [] && s.syncs != [] && !s.syncs[0] then Raised(SyncFailed) else r)
       else
         s'.waited == s.waited && o == Raised(Failure(1))
  }

  /** What it leaves behind when the server does not. */
  ghost predicate LeavesNothing(body: Prog, script: Script, s: State, k: nat, onConflict: Option<Value>,
                                s': State, o: Outcome)
    requires k <= |script|
  {
    && s'.db == Untouched(s.db, script, if k < |script| then k + 1 else k)
    && s'.waited == s.waited
    && if k == |script| then o == Raised(Transient)
       else
         var r := Alone(body, script, s, k).1;
         && (r.Raised? && r.error.Conflict? && onConflict.Some? ==> o == Returned(onConflict.value))
         && (r.Raised? && !(r.error.Conflict? && onConflict.Some?) ==> o == r)
         && (r.Returned? ==> o == Raised(Failure(0)))
  }

  /** The end of the outermost call changes no document; it waits on the batch of a normal return only. */
  lemma LeaveOnlyWaits(s: State, batch: Option<seq<Entry>>, o: Outcome, onConflict: Option<Value>)
    ensures var (s', o') := Leave(s, batch, o, onConflict);
      && s'.db == s.db && s'.session == s.session && s'.batch == batch && s'.scripts == s.scripts
      && (o.Raised? ==> s'.waited == s.waited)
      && (o.Raised? ==>
            o' == if o.error.Conflict? && onConflict.Some? then Returned(onConflict.value) else o)
      && (o.Returned? && s.batch.Some? ==>
            && s'.waited == s.waited + (if s.batch.value == [] then [] else [s.batch.value])
            && o' == if s.batch.value != [] && s.syncs != [] && !s.syncs[0] then Raised(SyncFailed) else o)
  {
    assert s.waited + [] == s.waited;
  }

  /** The outermost call is all or nothing.  Some attempt decides it.  If the server applies that attempt, the
      database gets all its writes and those of no other, and nothing the body caught had made the server give the
      transaction up; if the driver hears of it, what is waited on is exactly the entries of those writes in their
      order, and the reply is the body's unless the wait fails; if not, nothing is waited on and the driver's error
      is the reply.  Otherwise the database is as other writers left it, nothing is waited on, and the reply is the
      body's own error, or for a conflict the fallback if one was declared, or the driver's.  Either way both context variables are restored. */
  lemma {:induction false} AllOrNothing(onConflict: Option<Value>, body: Prog, s: State) returns (k: nat)
    requires s.session.None?
    ensures k <= |ScriptOf(s)| && Decisive(body, ScriptOf(s), Drawn(s), k)
    ensures var (s', o) := Eval(Transactional(onConflict, body), s);
      && s'.session.None? && s'.batch == s.batch && s'.scripts == Drawn(s).scripts
      && if AppliedAt(body, ScriptOf(s), Drawn(s), k) then LeavesAll(body, ScriptOf(s), Drawn(s), k, s', o)
         else LeavesNothing(body, ScriptOf(s), Drawn(s), k, onConflict, s', o)
  {
    var script, s0 := ScriptOf(s), Drawn(s);
    k := AttemptsDecide(body, script, Cleared(s0));
    var (s1, o) := Attempts(body, script, Cleared(s0));
    DecisionIgnoresBatch(body, script, s0, k);
    EndIgnoresBatch(body, script, s0, k, s1, o);
    LeaveOnlyWaits(s1, s.batch, o, onConflict);
  }

  /** With the empty batch of the outermost call. */
  function Cleared(s: State): State {
    s.(batch := Some([]))
  }

  /** An attempt clears the batch it finds. */
  lemma AloneIgnoresBatch(body: Prog, script: Script, s: State, k: nat)
    requires k < |script|
    ensures Alone(body, script, Cleared(s), k) == Alone(body, script, s, k)
    ensures RetriedAt(body, script, Cleared(s), k) == RetriedAt(body, script, s, k)
  {
    var db := Untouched(s.db, script, k);
    assert Opened(Cleared(s).(db := db), script[k]) == Opened(s.(db := db), script[k]);
  }

  lemma {:induction false} DecisionIgnoresBatch(body: Prog, script: Script, s: State, k: nat)
    requires k <= |script| && Decisive(body, script, Cleared(s), k)
    ensures Decisive(body, script, s, k)
  {
    forall j | 0 <= j < k ensures RetriedAt(body, script, s, j) {
      AloneIgnoresBatch(body, script, s, j);
    }
    if k < |script| {
      AloneIgnoresBatch(body, script, s, k);
    }
  }

  lemma {:induction false} EndIgnoresBatch(body: Prog, script: Script, s: State, k: nat, s': State, o: Outcome)
    requires k <= |script| && AttemptsEnd(body, script, Cleared(s), k, s', o)
    ensures AttemptsEnd(body, script, s, k, s', o)
  {
    if k < |script| {
      AloneIgnoresBatch(body, script, s, k);
    }
  }

  lemma OneDecides(body: Prog, script: Script, s: State, j: nat, k: nat)
    requires j <= |script| && k <= |script| && Decisive(body, script, s, j) && Decisive(body, script, s, k)
    ensures j == k
  {
    var a, b := j < |script| && RetriedAt(body, script, s, j), k < |script| && RetriedAt(body, script, s, k);
  }

  /** When the deciding attempt's own reply is a conflict, the outermost call gives the declared fallback for it, and
      without one the very conflict; either way the database is as other writers left it. */
  lemma {:induction false} ConflictGetsTheFallback(onConflict: Option<Value>, body: Prog, s: State, k: nat)
    requires s.session.None? && k < |ScriptOf(s)| && Decisive(body, ScriptOf(s), Drawn(s), k)
    requires Alone(body, ScriptOf(s), Drawn(s), k).1.Raised? && Alone(body, ScriptOf(s), Drawn(s), k).1.error.Conflict?
    ensures var (s', o) := Eval(Transactional(onConflict, body), s);
      && o == (if onConflict.Some? then Returned(onConflict.value) else Alone(body, ScriptOf(s), Drawn(s), k).1)
      && s'.db == Untouched(s.db, ScriptOf(s), k + 1) && s'.waited == s.waited
  {
    var j := AllOrNothing(onConflict, body, s);
    OneDecides(body, ScriptOf(s), Drawn(s), j, k);
  }

  // ---- A transaction nobody disturbs -----------------------------------------------------------

  /** The entries waited on, in their order, however they were batched. */
  function AllEntries(waited: seq<seq<Entry>>): seq<Entry> {
    if waited == [] then [] else AllEntries(waited[..|waited| - 1]) + waited[|waited| - 1]
  }

  lemma {:induction false} AllEntriesSnoc(waited: seq<seq<Entry>>, entries: seq<Entry>)
    ensures AllEntries(waited + [entries]) == AllEntries(waited) + entries
  {
    assert (waited + [entries])[..|waited|] == waited;
  }

  /** `inside` is an undisturbed transaction that has come as far as `plain` has without one. */
  ghost predicate InStep(plain: State, inside: State, before: seq<Entry>) {
    && plain.session.None? && plain.syncs == []
    && inside.session.Some? && !GivenUp(inside) && inside.session.value.writesLeft.None?
    && inside.session.value.view == plain.db
    && inside.batch.Some? && AllEntries(plain.waited) == before + inside.batch.value
  }

  lemma PlainPut(w: Write, plain: State)
    requires plain.session.None? && plain.syncs == []
    ensures DoPut(plain, w)
      == (plain.(db := plain.db[w.key := w.value],
                 waited := plain.waited + if w.entries == [] then [] else [w.entries]), Returned(w.value))
  {
    assert plain.waited + [] == plain.waited;
  }

  lemma InsidePut(w: Write, inside: State)
    requires inside.session.Some? && !GivenUp(inside) && inside.session.value.writesLeft.None? && inside.batch.Some?
    ensures DoPut(inside, w)
      == (inside.(session := Some(Written(inside.session.value, w)), batch := Some(inside.batch.value + w.entries)),
          Returned(w.value))
  {
  }

  lemma {:induction false} PutInStep(w: Write, plain: State, inside: State, before: seq<Entry>)
    requires InStep(plain, inside, before)
    ensures InStep(DoPut(plain, w).0, DoPut(inside, w).0, before) && DoPut(plain, w).1 == DoPut(inside, w).1
  {
    PlainPut(w, plain);
    InsidePut(w, inside);
    MoreEntries(plain.waited, w.entries, before, inside.batch.value);
  }

  lemma {:induction false} MoreEntries(waited: seq<seq<Entry>>, entries: seq<Entry>, before: seq<Entry>, batch: seq<Entry>)
    requires AllEntries(waited) == before + batch
    ensures AllEntries(waited + if entries == [] then [] else [entries]) == before + (batch + entries)
  {
    AllEntriesSnoc(waited, entries);
    assert waited + [] == waited;
    assert before + (batch + entries) == before + batch + entries;
  }

  lemma {:induction false} RunsInStep(p: Prog, plain: State, inside: State, before: seq<Entry>)
    requires InStep(plain, inside, before)
    ensures var (a, b) := (Eval(Undecorated(p), plain), Eval(Undecorated(p), inside));
      InStep(a.0, b.0, before) && a.1 == b.1
  {
    match p
    case Put(k, v, entries) => PutInStep(Write(k, v, entries), plain, inside, before);
    case Then(a, b) =>
      RunsInStep(a, plain, inside, before);
      RunsInStep(b, Eval(Undecorated(a), plain).0, Eval(Undecorated(a), inside).0, before);
    case IfHolds(_, _, a, b) =>
      RunsInStep(a, plain, inside, before);
      RunsInStep(b, plain, inside, before);
    case Try(a, h, b) =>
      RunsInStep(a, plain, inside, before);
      RunsInStep(b, Eval(Undecorated(a), plain).0, Eval(Undecorated(a), inside).0, before);
    case Transactional(_, body) => RunsInStep(body, plain, inside, before);
    case _ =>
  }

  /** An attempt in which nobody else writes and nothing goes wrong. */
  predicate Undisturbed(a: Attempt) {
    a.before == map[] && a.writesLeft.None? && a.during == map[] && a.commit.CommitOk?
  }

  lemma {:induction false} UndisturbedRuns(body: Prog, s: State)
    requires s.session.None? && s.syncs == [] && ScriptOf(s) != [] && Undisturbed(ScriptOf(s)[0])
    ensures var (a, o) := Eval(Undecorated(body), s);
      var (t, r) := Alone(body, ScriptOf(s), Drawn(s), 0);
      && r == o && t.session.Some? && !GivenUp(t)
      && AllEntries(a.waited) == AllEntries(s.waited) + EntriesOf(t.session.value.writes)
      && ApplyWrites(s.db, t.session.value.writes) == a.db
  {
    var start := Opened(Drawn(s), ScriptOf(s)[0]);
    assert s.db + map[] == s.db;
    RunsInStep(body, s, start, AllEntries(s.waited));
    InsideDecoratorsErase(body, start);
    BatchMirrorsWrites(body, start, s.db);
    assert Drawn(s).(db := Untouched(s.db, ScriptOf(s), 0)) == Drawn(s);
  }

  /** A transaction that nobody disturbs does what its body does without any decorator: if that returns, the same
      documents are written, the same reply is given, and the same entries are waited on in the same order, only all
      at once at the end. */
  lemma {:induction false} UndisturbedIsPlain(onConflict: Option<Value>, body: Prog, s: State)
    requires s.session.None? && s.syncs == []
    requires ScriptOf(s) != [] && Undisturbed(ScriptOf(s)[0])
    requires Eval(Undecorated(body), s).1.Returned?
    ensures var (a, o) := Eval(Undecorated(body), s);
      var (b, o') := Eval(Transactional(onConflict, body), s);
      && b.db == a.db && o' == o && AllEntries(b.waited) == AllEntries(a.waited)
      && |b.waited| <= |s.waited| + 1
  {
    var script, s0 := ScriptOf(s), Drawn(s);
    UndisturbedRuns(body, s);
    assert Decisive(body, script, s0, 0) && AppliedAt(body, script, s0, 0);
    var k := AllOrNothing(onConflict, body, s);
    OneDecides(body, script, s0, 0, k);
    UntouchedOnce(s.db, script);
    MoreEntries(s.waited, EntriesOf(Alone(body, script, s0, 0).0.session.value.writes), AllEntries(s.waited), []);
  }

  lemma UntouchedOnce(db: Db, script: Script)
    requires script != [] && Undisturbed(script[0])
    ensures Untouched(db, script, 1) + script[0].during == db
  {
    assert Untouched(db, script, 0) == db;
  }
}
