/** Rounds and catalog under concurrency: every read a service call makes, and the single write it ends with, is a step
    of its own, with any number of steps of other calls between. */
module RoundRaces {

  import opened Weighting
  import opened Rounds
  import opened RoundRuns

  datatype Write =
    | Save(round: Round)
    | SettleAs(i: nat, status: Status, decided: Option<Book>)
    | FinishAt(i: nat, user: User, members: set<User>)
    | Add(entry: Entry)
    | Delete(book: Book)

  function Land(s: State, w: Write): (State, Reply) {
    match w
    case Save(r) => (s.(rounds := s.rounds + [r]), Started(r))
    case SettleAs(i, status, book) =>
      var settled := if i < |s.rounds| then Settle(s.rounds, i, status, book) else None;
      if settled.None? then (s, Failed(RoundAlreadyFinalized))
      else (s.(rounds := settled.value), if book.Some? then Drawn(book.value) else VotingOpened)
    case FinishAt(i, user, members) =>
      if i >= |s.rounds| then (s, Failed(RoundNotFound))
      else
        var (r, reply) := Complete(s.rounds[i], user, members);
        (s.(rounds := s.rounds[i := r]), Completed(reply.isNew, reply.roundConcluded))
    case Add(e) =>
      if e.book in Books(s.catalog) then (s, AlreadyExists) else (s.(catalog := s.catalog + [e]), Suggested)
    case Delete(b) => (s.(catalog := OfBooks(s.catalog, Books(s.catalog) - {b})), Removed)
  }

  /** How far a call has come: what it has read of the club so far, then the write it goes on to make, then its
      reply. */
  datatype Progress =
    | Asked(call: Call, now: Time)
    | StartAllowed(mode: SelectionMode, weights: map<Book, real>, luck: Luck)
    | StartUnopposed(mode: SelectionMode, weights: map<Book, real>, luck: Luck)
    | StartCounted(mode: SelectionMode, weights: map<Book, real>, luck: Luck, members: set<User>)
    | StartBarring(mode: SelectionMode, weights: map<Book, real>, luck: Luck, excluded: set<Book>)
    | FinalizeAllowed(how: ResolutionMethod, weights: map<Book, real>, luck: Luck)
    | DrawOver(i: nat, pool: seq<Book>, weights: map<Book, real>, luck: Luck)
    | FinishAllowed(user: User)
    | FinishFound(user: User, i: nat)
    | SuggestAllowed(entry: Entry)
    | RemoveFound(user: User, entry: Entry)
    | RemoveAllowed(book: Book)
    | Ready(write: Write)
    | Over(reply: Reply)

  function Begin(m: Membership, call: Call, now: Time, catalog: seq<Entry>): Progress {
    match call
    case Start(caller, mode, weights, luck) =>
      if IsPrivileged(m, caller) then StartAllowed(mode, weights, luck) else Over(Failed(Unauthorized))
    case Finalize(caller, how, weights, luck) =>
      if IsPrivileged(m, caller) then FinalizeAllowed(how, weights, luck) else Over(Failed(Unauthorized))
    case MarkFinished(caller) => if caller in m.roles then FinishAllowed(caller) else Over(Failed(Unauthorized))
    case Suggest(user, book) =>
      if user in m.roles then SuggestAllowed(Entry(book, user, now)) else Over(Failed(Unauthorized))
    case RemoveBook(user, book) =>
      var entry := FindEntry(catalog, book);
      if entry.Some? then RemoveFound(user, entry.value) else Over(Failed(BookNotFound))
  }

  function StartWith(eligible: seq<Entry>, mode: SelectionMode, weights: map<Book, real>, luck: Luck): Progress {
    if eligible == [] then Over(Failed(NoEligibleCatalog))
    else
      match NewRound(eligible, mode, weights, luck)
      case None => Over(Failed(NothingToDraw))
      case Some(r) => Ready(Save(r))
  }

  function FinalizeFound(rounds: seq<Round>, how: ResolutionMethod, weights: map<Book, real>, luck: Luck): Progress {
    var active := FindActive(rounds);
    if active.None? then Over(Failed(RoundNotFound))
    else if rounds[active.value].status != SETUP then Over(Failed(RoundAlreadyFinalized))
    else if how == VOTE then Ready(SettleAs(active.value, VOTING, None))
    else DrawOver(active.value, rounds[active.value].pool, weights, luck)
  }

  /** The next read of a call, of the documents and the membership as they are at that moment. */
  function Read(s: State, m: Membership, p: Progress): Progress {
    match p
    case Asked(call, now) => Begin(m, call, now, s.catalog)
    case StartAllowed(mode, weights, luck) =>
      if FindActive(s.rounds).Some? then Over(Failed(ActiveRoundAlreadyExists)) else StartUnopposed(mode, weights, luck)
    case StartUnopposed(mode, weights, luck) => StartCounted(mode, weights, luck, m.roles.Keys)
    case StartCounted(mode, weights, luck, members) =>
      StartBarring(mode, weights, luck, Excluded(s.rounds, members))
    case StartBarring(mode, weights, luck, excluded) =>
      StartWith(OfBooks(s.catalog, Books(s.catalog) - excluded), mode, weights, luck)
    case FinalizeAllowed(how, weights, luck) => FinalizeFound(s.rounds, how, weights, luck)
    case DrawOver(i, pool, weights, luck) =>
      var book := WeightedDraw(OfBooks(s.catalog, PoolBooks(pool)), weights, luck);
      if book.Some? then Ready(SettleAs(i, DECIDED, book)) else Over(Failed(NothingToDraw))
    case FinishAllowed(user) =>
      var active := FindActive(s.rounds);
      if active.Some? && s.rounds[active.value].status == DECIDED then FinishFound(user, active.value)
      else Over(Failed(RoundNotFound))
    case FinishFound(user, i) => Ready(FinishAt(i, user, m.roles.Keys))
    case SuggestAllowed(e) => if m.suggestionsAllowed then Ready(Add(e)) else Over(Failed(SuggestionsClosed))
    case RemoveFound(user, e) =>
      if IsPrivileged(m, user) || e.suggester == user then RemoveAllowed(e.book) else Over(Failed(Unauthorized))
    case RemoveAllowed(b) =>
      var active := FindActive(s.rounds);
      if active.Some? && LockedBy(s.rounds[active.value], b) then Over(Failed(BookLockedInActiveRound))
      else Ready(Delete(b))
    case Ready(_) => p
    case Over(_) => p
  }

  function Advance(s: State, m: Membership, p: Progress): (State, Progress) {
    if p.Ready? then var (s', reply) := Land(s, p.write); (s', Over(reply)) else (s, Read(s, m, p))
  }

  // ---- A call run alone ------------------------------------------------------------------------

  /** The first `n` steps of a call between which nothing else happens. */
  function Alone(s: State, m: Membership, p: Progress, n: nat): (State, Progress) {
    if n == 0 then (s, p)
    else
      var (s1, p1) := Alone(s, m, p, n - 1);
      Advance(s1, m, p1)
  }

  /** No call has more than six steps. */
  const STEPS := 6

  /** Before its write a start makes five reads, and a removal three. */
  const START_READS := 5
  const REMOVE_READS := 3

  predicate AnswersAlone(s: State, m: Membership, call: Call, now: Time) {
    Alone(s, m, Asked(call, now), STEPS) == (Serve(s, m, call, now).0, Over(Serve(s, m, call, now).1))
  }

  lemma {:induction false} Thereupon(s: State, m: Membership, p: Progress, n: nat, s1: State, p1: Progress)
    requires Alone(s, m, p, n) == (s1, p1)
    ensures Alone(s, m, p, n + 1) == Advance(s1, m, p1)
  {
  }

  lemma {:induction false} OverRests(s: State, m: Membership, p: Progress, n: nat, s': State, reply: Reply)
    requires Alone(s, m, p, n) == (s', Over(reply))
    ensures Alone(s, m, p, n + 1) == (s', Over(reply))
  {
  }

  lemma {:induction false} StaysOver(s: State, m: Membership, p: Progress, k: nat, n: nat, s': State, reply: Reply)
    requires k <= n && Alone(s, m, p, k) == (s', Over(reply))
    ensures Alone(s, m, p, n) == (s', Over(reply))
    decreases n - k
  {
    if k < n {
      OverRests(s, m, p, k, s', reply);
      StaysOver(s, m, p, k + 1, n, s', reply);
    }
  }

  /** From a write that is ready, its landing and its reply. */
  lemma {:induction false} LandsAlone(s: State, m: Membership, p: Progress, k: nat, n: nat, w: Write)
    requires k < n && Alone(s, m, p, k) == (s, Ready(w))
    ensures Alone(s, m, p, n) == (Land(s, w).0, Over(Land(s, w).1))
  {
    Thereupon(s, m, p, k, s, Ready(w));
    StaysOver(s, m, p, k + 1, n, Land(s, w).0, Land(s, w).1);
  }

  lemma {:induction false} FirstRead(s: State, m: Membership, call: Call, now: Time)
    ensures Alone(s, m, Asked(call, now), 1) == (s, Begin(m, call, now, s.catalog))
  {
    Thereupon(s, m, Asked(call, now), 0, s, Asked(call, now));
  }

  lemma {:induction false} StartReads(s: State, m: Membership, call: Call, now: Time)
    requires call.Start? && IsPrivileged(m, call.caller) && FindActive(s.rounds).None?
    ensures Alone(s, m, Asked(call, now), START_READS)
      == (s, StartWith(Eligible(s, m.roles.Keys), call.mode, call.weights, call.luck))
  {
    var p, members := Asked(call, now), m.roles.Keys;
    FirstRead(s, m, call, now);
    Thereupon(s, m, p, 1, s, StartAllowed(call.mode, call.weights, call.luck));
    Thereupon(s, m, p, 2, s, StartUnopposed(call.mode, call.weights, call.luck));
    Thereupon(s, m, p, 3, s, StartCounted(call.mode, call.weights, call.luck, members));
    Thereupon(s, m, p, 4, s, StartBarring(call.mode, call.weights, call.luck, Excluded(s.rounds, members)));
  }

  lemma {:induction false} StartAlone(s: State, m: Membership, call: Call, now: Time)
    requires call.Start?
    ensures AnswersAlone(s, m, call, now)
  {
    var p := Asked(call, now);
    FirstRead(s, m, call, now);
    if !IsPrivileged(m, call.caller) {
      StaysOver(s, m, p, 1, STEPS, s, Failed(Unauthorized));
    } else if FindActive(s.rounds).Some? {
      Thereupon(s, m, p, 1, s, StartAllowed(call.mode, call.weights, call.luck));
      StaysOver(s, m, p, 2, STEPS, s, Failed(ActiveRoundAlreadyExists));
    } else {
      StartReads(s, m, call, now);
      var next := StartWith(Eligible(s, m.roles.Keys), call.mode, call.weights, call.luck);
      if next.Ready? {
        LandsAlone(s, m, p, 5, STEPS, next.write);
      } else {
        StaysOver(s, m, p, 5, STEPS, s, next.reply);
      }
    }
  }

  /** What a finalisation goes on to, once it has read the round and, for a draw, the pool's entries. */
  lemma {:induction false} FinalizeReads(s: State, m: Membership, call: Call, now: Time, i: nat)
    requires call.Finalize? && IsPrivileged(m, call.caller)
    requires FindActive(s.rounds) == Some(i) && s.rounds[i].status == SETUP
    ensures call.how == VOTE ==> Alone(s, m, Asked(call, now), 2) == (s, Ready(SettleAs(i, VOTING, None)))
    ensures call.how == DRAW ==>
      var book := WeightedDraw(Candidates(s, i), call.weights, call.luck);
      Alone(s, m, Asked(call, now), 3)
        == (s, if book.Some? then Ready(SettleAs(i, DECIDED, book)) else Over(Failed(NothingToDraw)))
  {
    var p := Asked(call, now);
    FirstRead(s, m, call, now);
    Thereupon(s, m, p, 1, s, FinalizeAllowed(call.how, call.weights, call.luck));
    if call.how == DRAW {
      Thereupon(s, m, p, 2, s, DrawOver(i, s.rounds[i].pool, call.weights, call.luck));
    }
  }

  lemma {:induction false} FinalizeAlone(s: State, m: Membership, call: Call, now: Time)
    requires call.Finalize?
    ensures AnswersAlone(s, m, call, now)
  {
    var p, active := Asked(call, now), FindActive(s.rounds);
    FirstRead(s, m, call, now);
    if !IsPrivileged(m, call.caller) {
      StaysOver(s, m, p, 1, STEPS, s, Failed(Unauthorized));
    } else if active.None? || s.rounds[active.value].status != SETUP {
      Thereupon(s, m, p, 1, s, FinalizeAllowed(call.how, call.weights, call.luck));
      StaysOver(s, m, p, 2, STEPS, s, Failed(if active.None? then RoundNotFound else RoundAlreadyFinalized));
    } else {
      FinalizeReads(s, m, call, now, active.value);
      var book := WeightedDraw(Candidates(s, active.value), call.weights, call.luck);
      if call.how == VOTE {
        LandsAlone(s, m, p, 2, STEPS, SettleAs(active.value, VOTING, None));
      } else if book.Some? {
        LandsAlone(s, m, p, 3, STEPS, SettleAs(active.value, DECIDED, book));
      } else {
        StaysOver(s, m, p, 3, STEPS, s, Failed(NothingToDraw));
      }
    }
  }

  lemma {:induction false} FinishAlone(s: State, m: Membership, call: Call, now: Time)
    requires call.MarkFinished?
    ensures AnswersAlone(s, m, call, now)
  {
    var p, active := Asked(call, now), FindActive(s.rounds);
    FirstRead(s, m, call, now);
    if call.caller !in m.roles {
      StaysOver(s, m, p, 1, STEPS, s, Failed(Unauthorized));
    } else {
      Thereupon(s, m, p, 1, s, FinishAllowed(call.caller));
      if active.None? || s.rounds[active.value].status != DECIDED {
        StaysOver(s, m, p, 2, STEPS, s, Failed(RoundNotFound));
      } else {
        Thereupon(s, m, p, 2, s, FinishFound(call.caller, active.value));
        LandsAlone(s, m, p, 3, STEPS, FinishAt(active.value, call.caller, m.roles.Keys));
      }
    }
  }

  lemma {:induction false} SuggestReads(s: State, m: Membership, call: Call, now: Time)
    requires call.Suggest? && call.user in m.roles && m.suggestionsAllowed
    ensures Alone(s, m, Asked(call, now), 2) == (s, Ready(Add(Entry(call.book, call.user, now))))
  {
    FirstRead(s, m, call, now);
    Thereupon(s, m, Asked(call, now), 1, s, SuggestAllowed(Entry(call.book, call.user, now)));
  }

  lemma {:induction false} SuggestAlone(s: State, m: Membership, call: Call, now: Time)
    requires call.Suggest?
    ensures AnswersAlone(s, m, call, now)
  {
    var p, e := Asked(call, now), Entry(call.book, call.user, now);
    FirstRead(s, m, call, now);
    if call.user !in m.roles {
      StaysOver(s, m, p, 1, STEPS, s, Failed(Unauthorized));
    } else if !m.suggestionsAllowed {
      Thereupon(s, m, p, 1, s, SuggestAllowed(e));
      StaysOver(s, m, p, 2, STEPS, s, Failed(SuggestionsClosed));
    } else {
      SuggestReads(s, m, call, now);
      LandsAlone(s, m, p, 2, STEPS, Add(e));
    }
  }

  lemma {:induction false} RemoveReads(s: State, m: Membership, call: Call, now: Time, e: Entry)
    requires call.RemoveBook? && FindEntry(s.catalog, call.book) == Some(e)
    requires IsPrivileged(m, call.user) || e.suggester == call.user
    ensures Alone(s, m, Asked(call, now), REMOVE_READS) == (s, Read(s, m, RemoveAllowed(call.book)))
  {
    var p := Asked(call, now);
    FirstRead(s, m, call, now);
    Thereupon(s, m, p, 1, s, RemoveFound(call.user, e));
    Thereupon(s, m, p, 2, s, RemoveAllowed(call.book));
  }

  lemma {:induction false} RemoveAlone(s: State, m: Membership, call: Call, now: Time)
    requires call.RemoveBook?
    ensures AnswersAlone(s, m, call, now)
  {
    var p, entry := Asked(call, now), FindEntry(s.catalog, call.book);
    FirstRead(s, m, call, now);
    if entry.None? {
      StaysOver(s, m, p, 1, STEPS, s, Failed(BookNotFound));
    } else if !IsPrivileged(m, call.user) && entry.value.suggester != call.user {
      Thereupon(s, m, p, 1, s, RemoveFound(call.user, entry.value));
      StaysOver(s, m, p, 2, STEPS, s, Failed(Unauthorized));
    } else {
      RemoveReads(s, m, call, now, entry.value);
      var next := Read(s, m, RemoveAllowed(call.book));
      if next.Ready? {
        LandsAlone(s, m, p, 3, STEPS, Delete(call.book));
      } else {
        StaysOver(s, m, p, 3, STEPS, s, Failed(BookLockedInActiveRound));
      }
    }
  }

  /** A call that nothing comes between is `Serve`: its reads and its write leave the same state and give the same
      reply. */
  lemma {:induction false} ServeIsReadsThenWrite(s: State, m: Membership, call: Call, now: Time)
    ensures AnswersAlone(s, m, call, now)
  {
    match call
    case Start(_, _, _, _) => StartAlone(s, m, call, now);
    case Finalize(_, _, _, _) => FinalizeAlone(s, m, call, now);
    case MarkFinished(_) => FinishAlone(s, m, call, now);
    case Suggest(_, _) => SuggestAlone(s, m, call, now);
    case RemoveBook(_, _) => RemoveAlone(s, m, call, now);
  }

  // ---- Calls that interleave -------------------------------------------------------------------

  /** The documents, and every call made so far with how far it has come. */
  datatype Floor = Floor(db: State, calls: seq<Progress>)

  datatype Step =
    | Arrive(call: Call, now: Time)
    | Proceed(k: nat, membership: Membership)

  function Next(f: Floor, step: Step): Floor {
    match step
    case Arrive(call, now) => f.(calls := f.calls + [Asked(call, now)])
    case Proceed(k, m) =>
      if k >= |f.calls| then f
      else
        var (db, p) := Advance(f.db, m, f.calls[k]);
        Floor(db, f.calls[k := p])
  }

  function Run(f: Floor, steps: seq<Step>): Floor
    decreases |steps|
  {
    if steps == [] then f else Next(Run(f, steps[..|steps| - 1]), steps[|steps| - 1])
  }

  lemma {:induction false} RunSnoc(f: Floor, steps: seq<Step>, step: Step)
    ensures Run(f, steps + [step]) == Next(Run(f, steps), step)
  {
    assert (steps + [step])[..|steps|] == steps;
  }

  /** The write that lands with the step, if one does. */
  function Landing(f: Floor, step: Step): Option<Write> {
    if step.Proceed? && step.k < |f.calls| && f.calls[step.k].Ready? then Some(f.calls[step.k].write) else None
  }

  lemma NextLands(f: Floor, step: Step)
    ensures Next(f, step).db == if Landing(f, step).Some? then Land(f.db, Landing(f, step).value).0 else f.db
  {
  }

  // ---- What every interleaving keeps -----------------------------------------------------------

  predicate Decided(r: Round) {
    r.status == DECIDED || r.status == CONCLUDED
  }

  ghost predicate WriteOk(s: State, w: Write) {
    match w
    case Save(r) => RoundOk(r) && IsActive(r)
    case SettleAs(i, status, book) =>
      && i < |s.rounds|
      && (status == VOTING || status == DECIDED) && (status == VOTING <==> book.None?)
      && (book.Some? ==> book.value in s.rounds[i].pool)
    case FinishAt(i, _, _) => i < |s.rounds| && Decided(s.rounds[i])
    case Add(_) => true
    case Delete(_) => true
  }

  ghost predicate ProgressOk(s: State, p: Progress) {
    match p
    case DrawOver(i, pool, _, _) => i < |s.rounds| && s.rounds[i].pool == pool
    case FinishFound(_, i) => i < |s.rounds| && Decided(s.rounds[i])
    case Ready(w) => WriteOk(s, w)
    case _ => true
  }

  ghost predicate AllRoundsOk(rounds: seq<Round>) {
    forall i {:trigger rounds[i]} :: 0 <= i < |rounds| ==> RoundOk(rounds[i])
  }

  ghost predicate FloorOk(f: Floor) {
    && DistinctBooks(f.db.catalog) && AllRoundsOk(f.db.rounds)
    && forall k {:trigger f.calls[k]} :: 0 <= k < |f.calls| ==> ProgressOk(f.db, f.calls[k])
  }

  /** What an interleaving may make of a round: its pool is fixed, its stage never goes back, its decision is final,
      and its finishers stay on record. */
  ghost predicate Ages(a: Round, b: Round) {
    && b.pool == a.pool && Stage(a.status) <= Stage(b.status) && (Decided(a) ==> Decided(b))
    && (a.book.Some? && a.status != SETUP ==> b.book == a.book)
    && a.finished <= b.finished
  }

  ghost predicate AllAge(a: seq<Round>, b: seq<Round>) {
    |a| <= |b| && forall i {:trigger a[i]} {:trigger b[i]} :: 0 <= i < |a| ==> Ages(a[i], b[i])
  }

  /** When a start reads the entries, what it goes on to save depends on books that are in the catalog then. */
  lemma {:induction false} StartFindsItsBooks(s: State, eligible: seq<Entry>, mode: SelectionMode,
                                              weights: map<Book, real>, luck: Luck, excluded: set<Book>, r: Round)
    requires DistinctBooks(s.catalog) && eligible == OfBooks(s.catalog, Books(s.catalog) - excluded)
    requires StartWith(eligible, mode, weights, luck) == Ready(Save(r))
    ensures RoundOk(r) && IsActive(r) && Held(r, s.catalog)
  {
    OfBooksDistinct(s.catalog, Books(s.catalog) - excluded);
    NewRoundFits(eligible, mode, weights, luck);
    assert Books(eligible) <= Books(s.catalog);
  }

  lemma {:induction false} DrawFindsPoolBook(s: State, pool: seq<Book>, weights: map<Book, real>, luck: Luck)
    requires WeightedDraw(OfBooks(s.catalog, PoolBooks(pool)), weights, luck).Some?
    ensures WeightedDraw(OfBooks(s.catalog, PoolBooks(pool)), weights, luck).value in pool
  {
    var book := WeightedDraw(OfBooks(s.catalog, PoolBooks(pool)), weights, luck).value;
    assert book in Books(OfBooks(s.catalog, PoolBooks(pool)));
  }

  lemma {:induction false} ReadKeeps(s: State, m: Membership, p: Progress)
    requires DistinctBooks(s.catalog) && ProgressOk(s, p)
    ensures ProgressOk(s, Read(s, m, p))
  {
    match p
    case StartBarring(mode, weights, luck, excluded) =>
      var eligible := OfBooks(s.catalog, Books(s.catalog) - excluded);
      var next := StartWith(eligible, mode, weights, luck);
      if next.Ready? {
        StartFindsItsBooks(s, eligible, mode, weights, luck, excluded, next.write.round);
      }
    case DrawOver(i, pool, weights, luck) =>
      if Read(s, m, p).Ready? {
        DrawFindsPoolBook(s, pool, weights, luck);
      }
    case _ =>
  }

  lemma LandKeepsCatalog(s: State, w: Write)
    requires DistinctBooks(s.catalog)
    ensures DistinctBooks(Land(s, w).0.catalog)
  {
    if w.Delete? {
      OfBooksDistinct(s.catalog, Books(s.catalog) - {w.book});
    } else if w.Add? {
      forall i | 0 <= i < |s.catalog| && w.entry.book !in Books(s.catalog) ensures s.catalog[i].book != w.entry.book {
        assert s.catalog[i] in s.catalog;
      }
    }
  }

  lemma CompletedRound(r: Round, user: User, members: set<User>)
    requires RoundOk(r) && Decided(r)
    ensures var r' := Complete(r, user, members).0;
      RoundOk(r') && Ages(r, r') && r'.book == r.book && (IsActive(r') ==> IsActive(r))
  {
  }

  lemma LandOnRound(s: State, w: Write, i: nat)
    requires AllRoundsOk(s.rounds) && WriteOk(s, w) && i < |s.rounds|
    ensures i < |Land(s, w).0.rounds|
    ensures var r, r' := s.rounds[i], Land(s, w).0.rounds[i];
      && RoundOk(r') && Ages(r, r') && (IsActive(r') ==> IsActive(r))
      && forall b :: LockedBy(r', b) ==> LockedBy(r, b)
  {
    if w.FinishAt? && w.i == i {
      CompletedRound(s.rounds[i], w.user, w.members);
    }
  }

  lemma LandAges(s: State, w: Write)
    requires AllRoundsOk(s.rounds) && WriteOk(s, w)
    ensures AllRoundsOk(Land(s, w).0.rounds) && AllAge(s.rounds, Land(s, w).0.rounds)
    ensures |Land(s, w).0.rounds| == |s.rounds| + if w.Save? then 1 else 0
    ensures forall i :: 0 <= i < |s.rounds| && IsActive(Land(s, w).0.rounds[i]) ==> IsActive(s.rounds[i])
  {
    forall i | 0 <= i < |s.rounds|
      ensures Ages(s.rounds[i], Land(s, w).0.rounds[i]) && RoundOk(Land(s, w).0.rounds[i])
      ensures IsActive(Land(s, w).0.rounds[i]) ==> IsActive(s.rounds[i])
    {
      LandOnRound(s, w, i);
    }
  }

  lemma ProgressStays(s: State, s': State, p: Progress)
    requires ProgressOk(s, p) && AllAge(s.rounds, s'.rounds)
    ensures ProgressOk(s', p)
  {
  }

  lemma {:induction false} NextKeeps(f: Floor, step: Step)
    requires FloorOk(f)
    ensures FloorOk(Next(f, step)) && AllAge(f.db.rounds, Next(f, step).db.rounds)
  {
    if step.Proceed? && step.k < |f.calls| {
      var k, f' := step.k, Next(f, step);
      if f.calls[k].Ready? {
        LandAges(f.db, f.calls[k].write);
        LandKeepsCatalog(f.db, f.calls[k].write);
      } else {
        ReadKeeps(f.db, step.membership, f.calls[k]);
      }
      forall j | 0 <= j < |f'.calls| ensures ProgressOk(f'.db, f'.calls[j]) {
        if j != k {
          ProgressStays(f.db, f'.db, f.calls[j]);
        }
      }
    }
  }

  lemma {:induction false} RunKeeps(f: Floor, steps: seq<Step>)
    requires FloorOk(f)
    ensures FloorOk(Run(f, steps))
    decreases |steps|
  {
    if steps != [] {
      RunKeeps(f, steps[..|steps| - 1]);
      NextKeeps(Run(f, steps[..|steps| - 1]), steps[|steps| - 1]);
    }
  }

  lemma AgesFurther(a: seq<Round>, b: seq<Round>, c: seq<Round>)
    requires AllAge(a, b) && AllAge(b, c)
    ensures AllAge(a, c)
  {
    forall i | 0 <= i < |a| ensures Ages(a[i], c[i]) {
      assert Ages(a[i], b[i]) && Ages(b[i], c[i]);
    }
  }

  /** In every interleaving rounds only go forward and stay as their status says; of several finalisations only the
      first changes anything. */
  lemma {:induction false} RacesNeverTakeBack(f: Floor, steps: seq<Step>)
    requires FloorOk(f)
    ensures AllAge(f.db.rounds, Run(f, steps).db.rounds) && AllRoundsOk(Run(f, steps).db.rounds)
    decreases |steps|
  {
    if steps != [] {
      var init := steps[..|steps| - 1];
      RacesNeverTakeBack(f, init);
      RunKeeps(f, init);
      NextKeeps(Run(f, init), steps[|steps| - 1]);
      AgesFurther(f.db.rounds, Run(f, init).db.rounds, Run(f, steps).db.rounds);
    }
  }

  // ---- One active round ------------------------------------------------------------------------

  ghost predicate AtMostOneActive(s: State) {
    forall i, j {:trigger s.rounds[i], s.rounds[j]} ::
      0 <= i < |s.rounds| && 0 <= j < |s.rounds| && IsActive(s.rounds[i]) && IsActive(s.rounds[j]) ==> i == j
  }

  /** If a new round lands with this step, no other is active then. */
  predicate LandsFree(f: Floor, step: Step) {
    var w := Landing(f, step);
    w.Some? && w.value.Save? ==> FindActive(f.db.rounds).None?
  }

  lemma OneActiveStep(f: Floor, step: Step)
    requires FloorOk(f) && AtMostOneActive(f.db)
    ensures AtMostOneActive(Next(f, step).db) <==> LandsFree(f, step)
  {
    var w := Landing(f, step);
    if w.Some? {
      LandAges(f.db, w.value);
      var s' := Land(f.db, w.value).0;
      if w.value.Save? {
        var n := |f.db.rounds|;
        assert IsActive(s'.rounds[n]);
        var active := FindActive(f.db.rounds);
        if active.Some? {
          assert IsActive(s'.rounds[active.value]) && active.value != n;
        }
      }
    }
  }

  ghost predicate OneActiveAt(f: Floor, steps: seq<Step>, k: nat) {
    k <= |steps| ==> AtMostOneActive(Run(f, steps[..k]).db)
  }

  ghost predicate LandsFreeAt(f: Floor, steps: seq<Step>, k: nat) {
    k < |steps| ==> LandsFree(Run(f, steps[..k]), steps[k])
  }

  ghost predicate AlwaysOneActive(f: Floor, steps: seq<Step>) {
    forall k {:trigger OneActiveAt(f, steps, k)} :: 0 <= k ==> OneActiveAt(f, steps, k)
  }

  ghost predicate EverySaveLandsFree(f: Floor, steps: seq<Step>) {
    forall k {:trigger LandsFreeAt(f, steps, k)} :: 0 <= k ==> LandsFreeAt(f, steps, k)
  }

  lemma {:induction false} OneActiveAtEnd(f: Floor, steps: seq<Step>)
    requires AlwaysOneActive(f, steps)
    ensures AtMostOneActive(Run(f, steps).db)
  {
    assert steps[..|steps|] == steps && OneActiveAt(f, steps, |steps|);
  }

  lemma {:induction false} OneActiveSnoc(f: Floor, steps: seq<Step>)
    requires steps != []
    ensures var init := steps[..|steps| - 1];
      && (AlwaysOneActive(f, steps) <==> AlwaysOneActive(f, init) && AtMostOneActive(Run(f, steps).db))
      && (EverySaveLandsFree(f, steps) <==> EverySaveLandsFree(f, init) && LandsFree(Run(f, init), steps[|init|]))
  {
    var init := steps[..|steps| - 1];
    assert steps[..|steps|] == steps;
    forall k: nat ensures OneActiveAt(f, steps, k) <==>
      OneActiveAt(f, init, k) && (k == |steps| ==> AtMostOneActive(Run(f, steps).db))
    {
      if k <= |init| { assert init[..k] == steps[..k]; }
    }
    forall k: nat ensures LandsFreeAt(f, steps, k) <==>
      LandsFreeAt(f, init, k) && (k == |init| ==> LandsFree(Run(f, init), steps[|init|]))
    {
      if k <= |init| { assert init[..k] == steps[..k]; }
    }
    assert OneActiveAt(f, steps, |steps|) <==> AtMostOneActive(Run(f, steps).db);
    assert LandsFreeAt(f, steps, |init|) <==> LandsFree(Run(f, init), steps[|init|]);
  }

  /** For every interleaving: at most one round is active at every moment if and only if each new round is saved at a
      moment when none is. */
  lemma {:induction false} OneActiveIffEverySaveLandsFree(f: Floor, steps: seq<Step>)
    requires FloorOk(f) && AtMostOneActive(f.db)
    ensures AlwaysOneActive(f, steps) <==> EverySaveLandsFree(f, steps)
    decreases |steps|
  {
    if steps == [] {
      forall k: nat ensures OneActiveAt(f, [], k) && LandsFreeAt(f, [], k) {
      }
    } else {
      var init := steps[..|steps| - 1];
      OneActiveIffEverySaveLandsFree(f, init);
      OneActiveSnoc(f, steps);
      RunKeeps(f, init);
      if AlwaysOneActive(f, init) {
        OneActiveAtEnd(f, init);
        OneActiveStep(Run(f, init), steps[|init|]);
      }
    }
  }

  // ---- A pool that stays whole -----------------------------------------------------------------

  /** A draw over round `i` would see every book of its pool. */
  ghost predicate FullyDrawable(s: State, i: nat)
    requires i < |s.rounds|
  {
    Books(Candidates(s, i)) == PoolBooks(s.rounds[i].pool)
  }

  lemma DrawableIsHeld(s: State, i: nat)
    requires i < |s.rounds|
    ensures FullyDrawable(s, i) <==> PoolBooks(s.rounds[i].pool) <= Books(s.catalog)
  {
    var es, pool := Candidates(s, i), PoolBooks(s.rounds[i].pool);
    forall b | b in pool && b in Books(s.catalog) ensures b in Books(es) {
      var e: Entry :| e in s.catalog && e.book == b;
      assert e in es;
    }
    forall b | b in Books(es) ensures b in pool && b in Books(s.catalog) {
      var e: Entry :| e in es && e.book == b;
    }
  }

  lemma LandedBooks(s: State, w: Write, books: set<Book>)
    requires books <= Books(s.catalog)
    ensures books <= Books(Land(s, w).0.catalog) <==> !(w.Delete? && w.book in books)
  {
    var after := Land(s, w).0.catalog;
    if w.Delete? {
      forall b | b in books && b != w.book ensures b in Books(after) {
        var e: Entry :| e in s.catalog && e.book == b;
        assert e in after;
      }
      assert w.book !in Books(after);
    } else if w.Add? {
      assert forall e :: e in s.catalog ==> e in after;
    }
  }

  /** While the round is being set up, a book of its pool leaves the catalog with this step. */
  predicate TakesFromPool(f: Floor, step: Step, i: nat) {
    var w := Landing(f, step);
    && i < |f.db.rounds| && f.db.rounds[i].status == SETUP
    && w.Some? && w.value.Delete? && w.value.book in f.db.rounds[i].pool
  }

  ghost predicate DrawableWhileSetUp(s: State, i: nat) {
    i < |s.rounds| && (s.rounds[i].status == SETUP ==> FullyDrawable(s, i))
  }

  lemma LandDrawable(s: State, w: Write, i: nat)
    requires AllRoundsOk(s.rounds) && WriteOk(s, w) && i < |s.rounds| && s.rounds[i].status == SETUP && FullyDrawable(s, i)
    ensures i < |Land(s, w).0.rounds| && Land(s, w).0.rounds[i].pool == s.rounds[i].pool
    ensures FullyDrawable(Land(s, w).0, i) <==> !(w.Delete? && w.book in s.rounds[i].pool)
  {
    LandAges(s, w);
    assert Ages(s.rounds[i], Land(s, w).0.rounds[i]);
    DrawableIsHeld(s, i);
    DrawableIsHeld(Land(s, w).0, i);
    LandedBooks(s, w, PoolBooks(s.rounds[i].pool));
  }

  lemma DrawableStep(f: Floor, step: Step, i: nat)
    requires FloorOk(f) && DrawableWhileSetUp(f.db, i)
    ensures DrawableWhileSetUp(Next(f, step).db, i) <==> !TakesFromPool(f, step, i)
  {
    var w := Landing(f, step);
    if w.Some? {
      if f.db.rounds[i].status == SETUP {
        LandDrawable(f.db, w.value, i);
      } else {
        LandAges(f.db, w.value);
        assert Ages(f.db.rounds[i], Land(f.db, w.value).0.rounds[i]);
      }
    }
  }

  ghost predicate DrawableAt(f: Floor, steps: seq<Step>, k: nat, i: nat) {
    k <= |steps| ==> DrawableWhileSetUp(Run(f, steps[..k]).db, i)
  }

  ghost predicate TakesAt(f: Floor, steps: seq<Step>, k: nat, i: nat) {
    k < |steps| && TakesFromPool(Run(f, steps[..k]), steps[k], i)
  }

  ghost predicate AlwaysDrawable(f: Floor, steps: seq<Step>, i: nat) {
    forall k {:trigger DrawableAt(f, steps, k, i)} :: 0 <= k ==> DrawableAt(f, steps, k, i)
  }

  ghost predicate NothingTaken(f: Floor, steps: seq<Step>, i: nat) {
    forall k {:trigger TakesAt(f, steps, k, i)} :: 0 <= k ==> !TakesAt(f, steps, k, i)
  }

  lemma {:induction false} DrawableAtEnd(f: Floor, steps: seq<Step>, i: nat)
    requires AlwaysDrawable(f, steps, i)
    ensures DrawableWhileSetUp(Run(f, steps).db, i)
  {
    assert steps[..|steps|] == steps && DrawableAt(f, steps, |steps|, i);
  }

  lemma {:induction false} DrawableSnoc(f: Floor, steps: seq<Step>, i: nat)
    requires steps != []
    ensures var init := steps[..|steps| - 1];
      && (AlwaysDrawable(f, steps, i) <==> AlwaysDrawable(f, init, i) && DrawableWhileSetUp(Run(f, steps).db, i))
      && (NothingTaken(f, steps, i) <==> NothingTaken(f, init, i) && !TakesFromPool(Run(f, init), steps[|init|], i))
  {
    var init := steps[..|steps| - 1];
    assert steps[..|steps|] == steps;
    forall k: nat ensures DrawableAt(f, steps, k, i) <==>
      DrawableAt(f, init, k, i) && (k == |steps| ==> DrawableWhileSetUp(Run(f, steps).db, i))
    {
      if k <= |init| { assert init[..k] == steps[..k]; }
    }
    forall k: nat ensures TakesAt(f, steps, k, i) <==>
      TakesAt(f, init, k, i) || (k == |init| && TakesFromPool(Run(f, init), steps[|init|], i))
    {
      if k <= |init| { assert init[..k] == steps[..k]; }
    }
    assert DrawableAt(f, steps, |steps|, i) <==> DrawableWhileSetUp(Run(f, steps).db, i);
    assert TakesAt(f, steps, |init|, i) <==> TakesFromPool(Run(f, init), steps[|init|], i);
  }

  /** For every interleaving: a round that can be drawn in full stays so for as long as it is being set up, if and only
      if no removal of a book of its pool lands meanwhile. */
  lemma {:induction false} DrawableIffNothingTaken(f: Floor, steps: seq<Step>, i: nat)
    requires FloorOk(f) && DrawableWhileSetUp(f.db, i)
    ensures AlwaysDrawable(f, steps, i) <==> NothingTaken(f, steps, i)
    decreases |steps|
  {
    if steps == [] {
      forall k: nat ensures DrawableAt(f, [], k, i) && !TakesAt(f, [], k, i) {
      }
    } else {
      var init := steps[..|steps| - 1];
      DrawableIffNothingTaken(f, init, i);
      DrawableSnoc(f, steps, i);
      RunKeeps(f, init);
      if AlwaysDrawable(f, init, i) {
        DrawableAtEnd(f, init, i);
        DrawableStep(Run(f, init), steps[|init|], i);
      }
    }
  }

  /** When a start reads the entries, its pool is in the catalog; a round saved right then can be drawn in full. */
  lemma StartFindsItsPool(s: State, m: Membership, p: Progress, r: Round)
    requires DistinctBooks(s.catalog) && p.StartBarring? && Read(s, m, p) == Ready(Save(r))
    ensures PoolBooks(r.pool) <= Books(s.catalog)
    ensures FullyDrawable(Land(s, Save(r)).0, |s.rounds|)
  {
    var eligible := OfBooks(s.catalog, Books(s.catalog) - p.excluded);
    StartFindsItsBooks(s, eligible, p.mode, p.weights, p.luck, p.excluded, r);
    forall b | b in PoolBooks(r.pool) ensures b in Books(s.catalog) {
      assert LockedBy(r, b);
    }
    DrawableIsHeld(Land(s, Save(r)).0, |s.rounds|);
  }

  /** A round that can be drawn in full is: with the weights computed for its candidates the draw never fails.  With
      none of its pool left it always does. */
  lemma {:induction false} DrawableIsDrawn(s: State, i: nat, m: Membership, caller: User, weights: map<Book, real>,
                                           facts: Facts, now: Time, luck: Luck)
    requires DistinctBooks(s.catalog) && FindActive(s.rounds) == Some(i) && s.rounds[i].status == SETUP
    requires s.rounds[i].pool != [] && IsPrivileged(m, caller) && RatedInScale(facts)
    requires IsFinal(weights, Candidates(s, i), facts, now)
    ensures var reply := DoFinalize(s, m, caller, DRAW, weights, luck).1;
      && (FullyDrawable(s, i) ==> reply.Drawn? && reply.book in PoolBooks(s.rounds[i].pool))
      && (reply == Failed(NothingToDraw) <==> PoolBooks(s.rounds[i].pool) !! Books(s.catalog))
  {
    var es, pool := Candidates(s, i), PoolBooks(s.rounds[i].pool);
    DrawOutcome(s, i, m, caller, weights, luck);
    OfBooksDistinct(s.catalog, pool);
    assert s.rounds[i].pool[0] in pool;
    if es == [] {
      forall e | e in s.catalog ensures e.book !in pool {
        assert e in es <==> e.book in pool;
      }
    } else {
      DrawNeverFails(es, facts, now, weights, luck);
      assert es[0] in es && es[0].book in pool && es[0].book in Books(s.catalog);
    }
  }
}
