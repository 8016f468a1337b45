/** Runs of the round and catalog services of a live club. */
module RoundRuns {

  import opened Weighting
  import opened Rounds
  import Club
  import RoundCompletion

  datatype Event = Event(membership: Membership, call: Call, at: Time)

  function Execute(s: State, events: seq<Event>): State
    decreases |events|
  {
    if events == [] then s
    else
      var last := events[|events| - 1];
      Serve(Execute(s, events[..|events| - 1]), last.membership, last.call, last.at).0
  }

  // ---- The invariant ---------------------------------------------------------------------------

  ghost predicate DistinctPool(pool: seq<Book>) {
    forall i, j :: 0 <= i < j < |pool| ==> pool[i] != pool[j]
  }

  /** Before a decision there is a pool of two to five books and no reader; a decision leaves a book, of the pool if
      there is one; a conclusion means that somebody read it. */
  ghost predicate RoundOk(r: Round) {
    && DistinctPool(r.pool)
    && (r.status == SETUP || r.status == VOTING ==> r.book.None? && 2 <= |r.pool| <= POOL_MAX && r.finished == {})
    && (r.status == DECIDED || r.status == CONCLUDED ==>
          r.book.Some? && (r.pool != [] ==> r.book.value in r.pool))
    && (r.status == CONCLUDED ==> r.finished != {})
  }

  /** Every book an active round depends on is still in the catalog. */
  ghost predicate Held(r: Round, catalog: seq<Entry>) {
    IsActive(r) ==> forall b {:trigger LockedBy(r, b)} :: LockedBy(r, b) ==> b in Books(catalog)
  }

  ghost predicate Inv(s: State) {
    && DistinctBooks(s.catalog)
    && (forall i {:trigger s.rounds[i]} :: 0 <= i < |s.rounds| ==>
          RoundOk(s.rounds[i]) && Held(s.rounds[i], s.catalog) && (i < |s.rounds| - 1 ==> !IsActive(s.rounds[i])))
  }

  lemma {:induction false} OfBooksDistinct(catalog: seq<Entry>, books: set<Book>)
    requires DistinctBooks(catalog)
    ensures DistinctBooks(OfBooks(catalog, books))
  {
    if catalog != [] {
      OfBooksDistinct(catalog[1..], books);
      forall e | e in OfBooks(catalog[1..], books) ensures e.book != catalog[0].book {
        assert e in catalog[1..];
      }
    }
  }

  lemma NewRoundFits(es: seq<Entry>, mode: SelectionMode, weights: map<Book, real>, luck: Luck)
    requires DistinctBooks(es) && es != [] && NewRound(es, mode, weights, luck).Some?
    ensures var r := NewRound(es, mode, weights, luck).value;
      RoundOk(r) && IsActive(r) && forall b :: LockedBy(r, b) ==> b in Books(es)
  {
    PoolIsDistinct(es, weights, POOL_MAX);
    assert es[0] in es;
  }

  lemma {:induction false} NewRoundOk(s: State, m: Membership, mode: SelectionMode, weights: map<Book, real>, luck: Luck)
    requires DistinctBooks(s.catalog) && Eligible(s, m.roles.Keys) != []
    requires NewRound(Eligible(s, m.roles.Keys), mode, weights, luck).Some?
    ensures var r := NewRound(Eligible(s, m.roles.Keys), mode, weights, luck).value;
      RoundOk(r) && IsActive(r) && Held(r, s.catalog)
      && forall b :: LockedBy(r, b) ==> b in Books(Eligible(s, m.roles.Keys))
  {
    var es := Eligible(s, m.roles.Keys);
    OfBooksDistinct(s.catalog, Books(s.catalog) - Excluded(s.rounds, m.roles.Keys));
    NewRoundFits(es, mode, weights, luck);
    assert Books(es) <= Books(s.catalog);
  }

  lemma StartKeeps(s: State, m: Membership, caller: User, mode: SelectionMode, weights: map<Book, real>, luck: Luck)
    requires Inv(s)
    ensures Inv(DoStart(s, m, caller, mode, weights, luck).0)
  {
    if DoStart(s, m, caller, mode, weights, luck).1.Started? {
      NewRoundOk(s, m, mode, weights, luck);
    }
  }

  /** The draw is made from entries of exactly the pool's books. */
  lemma DrawEntries(s: State, r: Round)
    requires Inv(s) && r in s.rounds && r.status == SETUP
    ensures Books(OfBooks(s.catalog, PoolBooks(r.pool))) == PoolBooks(r.pool)
    ensures OfBooks(s.catalog, PoolBooks(r.pool)) != []
  {
    var es := OfBooks(s.catalog, PoolBooks(r.pool));
    forall b | b in r.pool ensures b in Books(es) {
      assert LockedBy(r, b);
      var e: Entry :| e in s.catalog && e.book == b;
      assert e in es;
    }
    assert r.pool[0] in Books(es);
  }

  /** The active round may move on, as long as it stays well formed and depends on no further book. */
  lemma {:induction false} ActiveMoves(s: State, i: nat, r: Round)
    requires Inv(s) && FindActive(s.rounds) == Some(i) && RoundOk(r)
    requires forall b :: LockedBy(r, b) ==> LockedBy(s.rounds[i], b)
    ensures Inv(s.(rounds := s.rounds[i := r]))
  {
    OnlyOneActive(s, i);
    forall b | LockedBy(r, b) ensures b in Books(s.catalog) {
      assert LockedBy(s.rounds[i], b);
    }
  }

  lemma {:induction false} FinalizeKeeps(s: State, m: Membership, caller: User, how: ResolutionMethod,
                                         weights: map<Book, real>, luck: Luck)
    requires Inv(s)
    ensures Inv(DoFinalize(s, m, caller, how, weights, luck).0)
  {
    var (s', reply) := DoFinalize(s, m, caller, how, weights, luck);
    if reply.Drawn? {
      var i := FindActive(s.rounds).value;
      DrawEntries(s, s.rounds[i]);
      assert reply.book in PoolBooks(s.rounds[i].pool);
      ActiveMoves(s, i, s.rounds[i].(status := DECIDED, book := Some(reply.book)));
    } else if reply.VotingOpened? {
      var i := FindActive(s.rounds).value;
      ActiveMoves(s, i, s.rounds[i].(status := VOTING));
    }
  }

  lemma MarkFinishedKeeps(s: State, m: Membership, caller: User)
    requires Inv(s)
    ensures Inv(DoMarkFinished(s, m, caller).0)
  {
    var (s', reply) := DoMarkFinished(s, m, caller);
    if reply.Completed? {
      var i := FindActive(s.rounds).value;
      assert caller in s'.rounds[i].finished;
      ActiveMoves(s, i, s'.rounds[i]);
    }
  }

  lemma CatalogKeeps(s: State, catalog: seq<Entry>)
    requires Inv(s) && DistinctBooks(catalog)
    requires forall i :: 0 <= i < |s.rounds| ==> Held(s.rounds[i], catalog)
    ensures Inv(s.(catalog := catalog))
  {
  }

  lemma SuggestKeeps(s: State, m: Membership, user: User, book: Book, now: Time)
    requires Inv(s)
    ensures Inv(DoSuggest(s, m, user, book, now).0)
  {
    var (s', reply) := DoSuggest(s, m, user, book, now);
    if reply.Suggested? {
      assert Books(s'.catalog) == Books(s.catalog) + {book};
      forall i | 0 <= i < |s.catalog| ensures s.catalog[i].book != book {
        assert s.catalog[i] in s.catalog;
      }
      CatalogKeeps(s, s'.catalog);
    }
  }

  lemma RemoveBookKeeps(s: State, m: Membership, user: User, book: Book)
    requires Inv(s)
    ensures Inv(DoRemoveBook(s, m, user, book).0)
  {
    var (s', reply) := DoRemoveBook(s, m, user, book);
    if reply.Removed? {
      OfBooksDistinct(s.catalog, Books(s.catalog) - {book});
      forall i | 0 <= i < |s.rounds| ensures Held(s.rounds[i], s'.catalog) {
        if IsActive(s.rounds[i]) {
          OnlyOneActive(s, i);
          forall b | LockedBy(s.rounds[i], b) ensures b in Books(s'.catalog) {
            var e: Entry :| e in s.catalog && e.book == b;
            assert e.book in Books(s.catalog) - {book};
            assert e in s'.catalog;
          }
        }
      }
      CatalogKeeps(s, s'.catalog);
    }
  }

  lemma OnlyOneActive(s: State, i: nat)
    requires Inv(s) && i < |s.rounds| && IsActive(s.rounds[i])
    ensures FindActive(s.rounds) == Some(i) && i == |s.rounds| - 1
  {
  }

  lemma ServeKeeps(s: State, m: Membership, call: Call, now: Time)
    requires Inv(s)
    ensures Inv(Serve(s, m, call, now).0)
  {
    match call
    case Start(caller, mode, weights, luck) => StartKeeps(s, m, caller, mode, weights, luck);
    case Finalize(caller, how, weights, luck) => FinalizeKeeps(s, m, caller, how, weights, luck);
    case MarkFinished(caller) => MarkFinishedKeeps(s, m, caller);
    case Suggest(user, book) => SuggestKeeps(s, m, user, book, now);
    case RemoveBook(user, book) => RemoveBookKeeps(s, m, user, book);
  }

  lemma {:induction false} EveryRunKeeps(s: State, events: seq<Event>)
    requires Inv(s)
    ensures Inv(Execute(s, events))
    decreases |events|
  {
    if events != [] {
      var k := |events| - 1;
      EveryRunKeeps(s, events[..k]);
      ServeKeeps(Execute(s, events[..k]), events[k].membership, events[k].call, events[k].at);
    }
  }

  const NEW_CLUB := State([], [])

  /** Whatever is called, by whomever, with whatever membership, weights and luck: at most one round is active, the
      last; rounds are as their status says; and the catalog has every book the active round depends on. */
  lemma {:induction false} RoundsAndCatalogAgree(events: seq<Event>)
    ensures var s := Execute(NEW_CLUB, events);
      && Inv(s)
      && forall i, j :: 0 <= i < |s.rounds| && 0 <= j < |s.rounds| && IsActive(s.rounds[i]) && IsActive(s.rounds[j])
                        ==> i == j
  {
    EveryRunKeeps(NEW_CLUB, events);
  }

  // ---- What the draw sees ----------------------------------------------------------------------

  lemma {:induction false} CountBooks(es: seq<Entry>)
    requires DistinctBooks(es)
    ensures |Books(es)| == |es|
  {
    if es != [] {
      CountBooks(es[1..]);
      assert es == [es[0]] + es[1..];
      assert Books(es) == {es[0].book} + Books(es[1..]);
    }
  }

  lemma {:induction false} CountPool(pool: seq<Book>)
    requires DistinctPool(pool)
    ensures |PoolBooks(pool)| == |pool|
  {
    if pool != [] {
      CountPool(pool[1..]);
      assert pool == [pool[0]] + pool[1..];
      assert PoolBooks(pool) == {pool[0]} + PoolBooks(pool[1..]);
      assert pool[0] !in PoolBooks(pool[1..]);
    }
  }

  /** The entries a draw over the pool of round `i` sees. */
  function Candidates(s: State, i: nat): seq<Entry>
    requires i < |s.rounds|
  {
    OfBooks(s.catalog, PoolBooks(s.rounds[i].pool))
  }

  lemma PoolIsSeen(s: State, i: nat)
    requires Inv(s) && i < |s.rounds| && s.rounds[i].status == SETUP
    ensures DistinctBooks(Candidates(s, i)) && Candidates(s, i) != []
    ensures |Candidates(s, i)| == |s.rounds[i].pool| >= 2 && Books(Candidates(s, i)) == PoolBooks(s.rounds[i].pool)
    ensures FindActive(s.rounds) == Some(i)
  {
    var r := s.rounds[i];
    DrawEntries(s, r);
    OfBooksDistinct(s.catalog, PoolBooks(r.pool));
    CountBooks(Candidates(s, i));
    CountPool(r.pool);
    OnlyOneActive(s, i);
  }

  /** The outcome of a draw over the pool of the active round, whatever the catalog still has of it. */
  lemma DrawOutcome(s: State, i: nat, m: Membership, caller: User, weights: map<Book, real>, luck: Luck)
    requires FindActive(s.rounds) == Some(i) && s.rounds[i].status == SETUP && IsPrivileged(m, caller)
    ensures var (s', reply) := DoFinalize(s, m, caller, DRAW, weights, luck);
      match WeightedDraw(Candidates(s, i), weights, luck)
      case None => s' == s && reply == Failed(NothingToDraw)
      case Some(b) => reply == Drawn(b) && s' == s.(rounds := s.rounds[i := s.rounds[i].(status := DECIDED, book := Some(b))])
  {
  }

  /** In every run, a draw sees one entry for each book of the pool, no fewer than two.  With the weights computed for
      them it never fails; it decides on one of them, each on a stretch of luck in proportion to its weight, and
      changes nothing else. */
  lemma {:induction false} DrawSeesWholePool(events: seq<Event>, i: nat, m: Membership, caller: User,
                                             weights: map<Book, real>, facts: Facts, now: Time, luck: Luck)
    requires i < |Execute(NEW_CLUB, events).rounds| && Execute(NEW_CLUB, events).rounds[i].status == SETUP
    requires IsPrivileged(m, caller) && RatedInScale(facts)
    requires IsFinal(weights, Candidates(Execute(NEW_CLUB, events), i), facts, now)
    ensures var s := Execute(NEW_CLUB, events);
      && |Candidates(s, i)| == |s.rounds[i].pool| >= 2 && Books(Candidates(s, i)) == PoolBooks(s.rounds[i].pool)
      && var (s', reply) := DoFinalize(s, m, caller, DRAW, weights, luck);
         && reply.Drawn? && reply.book in PoolBooks(s.rounds[i].pool)
         && WeightedDraw(Candidates(s, i), weights, luck) == Some(reply.book)
         && s' == s.(rounds := s.rounds[i := s.rounds[i].(status := DECIDED, book := Some(reply.book))])
  {
    EveryRunKeeps(NEW_CLUB, events);
    var s := Execute(NEW_CLUB, events);
    PoolIsSeen(s, i);
    DrawNeverFails(Candidates(s, i), facts, now, weights, luck);
    DrawOutcome(s, i, m, caller, weights, luck);
  }

  lemma DrawNeverFails(es: seq<Entry>, facts: Facts, now: Time, weights: map<Book, real>, luck: Luck)
    requires DistinctBooks(es) && es != [] && IsFinal(weights, es, facts, now) && RatedInScale(facts)
    ensures WeightedDraw(es, weights, luck).Some?
  {
    CandidatesCanBeDrawn(es, facts, now, weights, es[0]);
  }

  /** And every book of the pool can be the one. */
  lemma {:induction false} EveryPoolBookCanBeDrawn(events: seq<Event>, i: nat, weights: map<Book, real>, facts: Facts,
                                                   now: Time, b: Book)
    requires i < |Execute(NEW_CLUB, events).rounds| && Execute(NEW_CLUB, events).rounds[i].status == SETUP
    requires RatedInScale(facts) && IsFinal(weights, Candidates(Execute(NEW_CLUB, events), i), facts, now)
    requires b in Execute(NEW_CLUB, events).rounds[i].pool
    ensures exists luck: Luck :: WeightedDraw(Candidates(Execute(NEW_CLUB, events), i), weights, luck) == Some(b)
  {
    var s := Execute(NEW_CLUB, events);
    EveryRunKeeps(NEW_CLUB, events);
    var es := Candidates(s, i);
    DrawEntries(s, s.rounds[i]);
    OfBooksDistinct(s.catalog, PoolBooks(s.rounds[i].pool));
    assert b in Books(es);
    var e: Entry :| e in es && e.book == b;
    CandidatesCanBeDrawn(es, facts, now, weights, e);
  }

  // ---- Rounds only go forward ------------------------------------------------------------------

  function Stage(status: Status): nat {
    match status case SETUP => 0 case VOTING => 1 case DECIDED => 1 case CONCLUDED => 2
  }

  /** `b` is what time may make of `a`. */
  ghost predicate Advances(a: Round, b: Round) {
    && b.pool == a.pool
    && Stage(a.status) <= Stage(b.status)
    && (a.status == VOTING ==> b == a)
    && (a.book.Some? ==> b.book == a.book)
    && a.finished <= b.finished
    && (a.status == CONCLUDED ==> b == a)
  }

  ghost predicate HistoryAdvances(a: seq<Round>, b: seq<Round>) {
    |a| <= |b| && forall i {:trigger a[i]} {:trigger b[i]} :: 0 <= i < |a| ==> Advances(a[i], b[i])
  }

  lemma OneAdvances(rounds: seq<Round>, i: nat, r: Round)
    requires i < |rounds| && Advances(rounds[i], r)
    ensures HistoryAdvances(rounds, rounds[i := r])
  {
  }

  lemma FinalizeAdvances(s: State, m: Membership, call: Call, now: Time)
    requires Inv(s) && call.Finalize?
    ensures HistoryAdvances(s.rounds, Serve(s, m, call, now).0.rounds)
  {
    var (s', reply) := Serve(s, m, call, now);
    if reply.Drawn? || reply.VotingOpened? {
      var i := FindActive(s.rounds).value;
      assert RoundOk(s.rounds[i]);
      OneAdvances(s.rounds, i, s'.rounds[i]);
    }
  }

  lemma FinishAdvances(s: State, m: Membership, call: Call, now: Time)
    requires Inv(s) && call.MarkFinished?
    ensures HistoryAdvances(s.rounds, Serve(s, m, call, now).0.rounds)
  {
    var (s', reply) := Serve(s, m, call, now);
    if reply.Completed? {
      var i := FindActive(s.rounds).value;
      OneAdvances(s.rounds, i, s'.rounds[i]);
    }
  }

  lemma ServeAdvances(s: State, m: Membership, call: Call, now: Time)
    requires Inv(s)
    ensures HistoryAdvances(s.rounds, Serve(s, m, call, now).0.rounds)
  {
    if call.Finalize? {
      FinalizeAdvances(s, m, call, now);
    } else if call.MarkFinished? {
      FinishAdvances(s, m, call, now);
    }
  }

  /** No run takes a round back: its pool is fixed, its book once decided is final, finishers stay on record, and a
      concluded round is closed for good. */
  lemma {:induction false} RoundsOnlyAdvance(s: State, events: seq<Event>)
    requires Inv(s)
    ensures HistoryAdvances(s.rounds, Execute(s, events).rounds)
    decreases |events|
  {
    if events != [] {
      var k := |events| - 1;
      RoundsOnlyAdvance(s, events[..k]);
      EveryRunKeeps(s, events[..k]);
      ServeAdvances(Execute(s, events[..k]), events[k].membership, events[k].call, events[k].at);
    }
  }

  /** Nothing ever closes a vote: once voting is open, that round stays as it is and no other can start. */
  lemma {:induction false} VotingNeverEnds(s: State, events: seq<Event>, i: nat, m: Membership, call: Call, now: Time)
    requires Inv(s) && i < |s.rounds| && s.rounds[i].status == VOTING && call.Start?
    ensures var s' := Execute(s, events);
      && i < |s'.rounds| && s'.rounds[i] == s.rounds[i]
      && Serve(s', m, call, now) ==
           (s', Failed(if IsPrivileged(m, call.caller) then ActiveRoundAlreadyExists else Unauthorized))
  {
    RoundsOnlyAdvance(s, events);
    assert Advances(s.rounds[i], Execute(s, events).rounds[i]);
  }

  /** What a start decides: the only eligible book at once, whatever the mode; at random one of several, by weight;
      else a pool of the five that sort first, or of all. */
  lemma {:induction false} StartOutcomes(s: State, m: Membership, caller: User, mode: SelectionMode,
                                         weights: map<Book, real>, luck: Luck)
    requires Inv(s) && DoStart(s, m, caller, mode, weights, luck).1.Started?
    ensures var (es, r) := (Eligible(s, m.roles.Keys), DoStart(s, m, caller, mode, weights, luck).1.round);
      && (r.status == DECIDED <==> |es| == 1 || mode == RANDOM)
      && (r.status == DECIDED ==> r.book.Some? && r.book.value in Books(es) && r.pool == [])
      && (r.status == DECIDED && |es| > 1 ==> r.book == WeightedDraw(es, weights, luck))
      && (r.status != DECIDED ==> r.status == SETUP && |r.pool| == Min(|es|, POOL_MAX))
      && (r.status != DECIDED ==>
            forall kept, out :: kept in es && out in es && kept.book in r.pool && out.book !in r.pool
                                ==> NoLater(weights, kept, out))
  {
    var es := Eligible(s, m.roles.Keys);
    OfBooksDistinct(s.catalog, Books(s.catalog) - Excluded(s.rounds, m.roles.Keys));
    assert es[0] in es;
    forall kept, out | kept in es && out in es && kept.book in SelectTopNPool(es, weights, POOL_MAX)
                       && out.book !in SelectTopNPool(es, weights, POOL_MAX)
      ensures NoLater(weights, kept, out)
    {
      PoolIsTheTop(es, weights, POOL_MAX, kept, out);
    }
  }

  function Min(a: nat, b: nat): nat {
    if a < b then a else b
  }

  lemma {:induction false} WithoutLast(catalog: seq<Entry>, e: Entry, books: set<Book>)
    requires e.book !in books && forall x :: x in catalog ==> x.book in books
    ensures OfBooks(catalog + [e], books) == catalog
  {
    if catalog == [] {
      assert catalog + [e] == [e] && [e][1..] == [];
    } else {
      assert (catalog + [e])[1..] == catalog[1..] + [e];
      WithoutLast(catalog[1..], e, books);
      assert catalog == [catalog[0]] + catalog[1..];
      assert catalog[0] in catalog;
    }
  }

  /** A suggestion can at once be taken back by its suggester, even after leaving the club, and the catalog is then
      as it was: no round can hold a book that was not in the catalog before. */
  lemma SuggestionCanBeTakenBack(s: State, m: Membership, m': Membership, user: User, book: Book, now: Time)
    requires Inv(s) && DoSuggest(s, m, user, book, now).1 == Suggested
    ensures DoRemoveBook(DoSuggest(s, m, user, book, now).0, m', user, book) == (s, Removed)
  {
    var s1 := DoSuggest(s, m, user, book, now).0;
    var e := Entry(book, user, now);
    assert e in s1.catalog;
    FindsIt(s.catalog, e);
    var active := FindActive(s.rounds);
    if active.Some? {
      assert Held(s.rounds[active.value], s.catalog);
    }
    assert Books(s1.catalog) - {book} == Books(s.catalog);
    WithoutLast(s.catalog, e, Books(s.catalog));
  }

  lemma {:induction false} FindsIt(catalog: seq<Entry>, e: Entry)
    requires e.book !in Books(catalog)
    ensures FindEntry(catalog + [e], e.book) == Some(e)
  {
    if catalog == [] {
      assert catalog + [e] == [e];
    } else {
      assert catalog[0] in catalog;
      assert (catalog + [e])[1..] == catalog[1..] + [e];
      FindsIt(catalog[1..], e);
    }
  }

  /** A round never starts on a book that most of its readers, still members, have finished before. */
  lemma NoRepeatForTheMajority(s: State, m: Membership, caller: User, mode: SelectionMode, weights: map<Book, real>,
                               luck: Luck, past: Round)
    requires Inv(s) && past in s.rounds && past.book.Some? && MajorityStays(past, m.roles.Keys)
    ensures var reply := DoStart(s, m, caller, mode, weights, luck).1;
      reply.Started? ==> !LockedBy(reply.round, past.book.value)
  {
    if DoStart(s, m, caller, mode, weights, luck).1.Started? {
      NewRoundOk(s, m, mode, weights, luck);
      assert past.book.value in Excluded(s.rounds, m.roles.Keys);
    }
  }

  /** A call of `mark_finished` concludes the round exactly when it is the caller's first and no member is missing. */
  lemma {:induction false} ConcludesWithTheLastReader(s: State, m: Membership, caller: User)
    requires Inv(s) && DoMarkFinished(s, m, caller).1.Completed?
    ensures var (i, s') := (FindActive(s.rounds).value, DoMarkFinished(s, m, caller).0);
      && s'.rounds[i].finished == s.rounds[i].finished + {caller}
      && (s'.rounds[i].status == CONCLUDED <==>
            caller !in s.rounds[i].finished && m.roles.Keys <= s'.rounds[i].finished)
  {
  }
}
