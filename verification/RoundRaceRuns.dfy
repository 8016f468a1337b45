/** Two races of rounds and catalog, step by step from an empty club. */
module RoundRaceRuns {

  import opened Weighting
  import opened Rounds
  import opened RoundRuns
  import opened RoundRaces
  import Club

  const OWNERS := Membership(map[0 := Club.OWNER], true)

  const EMPTY := Floor(NEW_CLUB, [])

  lemma {:induction false} RunAppend(f: Floor, a: seq<Step>, b: seq<Step>)
    ensures Run(f, a + b) == Run(Run(f, a), b)
    decreases |b|
  {
    if b == [] {
      assert a + b == a;
    } else {
      var init, last := b[..|b| - 1], b[|b| - 1];
      RunAppend(f, a, init);
      RunSnoc(f, a + init, last);
      AppendSnoc(a, b);
    }
  }

  lemma AppendSnoc<T>(a: seq<T>, b: seq<T>)
    requires b != []
    ensures a + b == a + b[..|b| - 1] + [b[|b| - 1]]
  {
  }

  /** `n` steps of call `k` under one membership. */
  function Going(k: nat, m: Membership, n: nat): seq<Step> {
    seq(n, _ => Proceed(k, m))
  }

  /** A call that arrives and gets `n` steps, of which none is another's. */
  function Made(k: nat, m: Membership, call: Call, now: Time, n: nat): seq<Step> {
    [Arrive(call, now)] + Going(k, m, n)
  }

  lemma {:induction false} NextAt(s: State, calls: seq<Progress>, k: nat, m: Membership, p: Progress)
    requires k < |calls|
    ensures var (s', p') := Advance(s, m, p);
      Next(Floor(s, calls[k := p]), Proceed(k, m)) == Floor(s', calls[k := p'])
  {
    var p' := Advance(s, m, p).1;
    assert calls[k := p][k := p'] == calls[k := p'];
  }

  lemma {:induction false} GoesOn(f: Floor, k: nat, m: Membership, n: nat, s: State, p: Progress)
    requires k < |f.calls| && Alone(f.db, m, f.calls[k], n) == (s, p)
    requires Run(f, Going(k, m, n)) == Floor(s, f.calls[k := p])
    ensures var (s', p') := Alone(f.db, m, f.calls[k], n + 1);
      Run(f, Going(k, m, n + 1)) == Floor(s', f.calls[k := p'])
  {
    assert Going(k, m, n + 1) == Going(k, m, n) + [Proceed(k, m)];
    RunSnoc(f, Going(k, m, n), Proceed(k, m));
    NextAt(s, f.calls, k, m, p);
    Thereupon(f.db, m, f.calls[k], n, s, p);
  }

  lemma {:induction false} GoingIsAlone(f: Floor, k: nat, m: Membership, n: nat)
    requires k < |f.calls|
    ensures var (s, p) := Alone(f.db, m, f.calls[k], n);
      Run(f, Going(k, m, n)) == Floor(s, f.calls[k := p])
  {
    if n == 0 {
      assert f.calls[k := f.calls[k]] == f.calls;
    } else {
      GoingIsAlone(f, k, m, n - 1);
      var before := Alone(f.db, m, f.calls[k], n - 1);
      GoesOn(f, k, m, n - 1, before.0, before.1);
    }
  }

  lemma {:induction false} MadeIsAlone(f: Floor, m: Membership, call: Call, now: Time, n: nat)
    ensures var (s, p) := Alone(f.db, m, Asked(call, now), n);
      Run(f, Made(|f.calls|, m, call, now, n)) == Floor(s, f.calls + [p])
  {
    var k, step := |f.calls|, Arrive(call, now);
    RunSnoc(f, [], step);
    assert [] + [step] == [step];
    RunAppend(f, [step], Going(k, m, n));
    GoingIsAlone(Run(f, [step]), k, m, n);
  }

  lemma {:induction false} Chain(f: Floor, a: seq<Step>, f1: Floor, b: seq<Step>, f2: Floor)
    requires Run(f, a) == f1 && Run(f1, b) == f2
    ensures Run(f, a + b) == f2
  {
    RunAppend(f, a, b);
  }

  /** A call that reads and does not write yet. */
  lemma {:induction false} Reads(f: Floor, k: nat, m: Membership, call: Call, now: Time, n: nat, p: Progress)
    requires k == |f.calls| && Alone(f.db, m, Asked(call, now), n) == (f.db, p)
    ensures Run(f, Made(k, m, call, now, n)) == Floor(f.db, f.calls + [p])
  {
    MadeIsAlone(f, m, call, now, n);
  }

  lemma {:induction false} Goes(f: Floor, k: nat, m: Membership, w: Write)
    requires k < |f.calls| && f.calls[k] == Ready(w)
    ensures Run(f, [Proceed(k, m)]) == Floor(Land(f.db, w).0, f.calls[k := Over(Land(f.db, w).1)])
  {
    RunSnoc(f, [], Proceed(k, m));
    assert [] + [Proceed(k, m)] == [Proceed(k, m)];
  }

  // ---- A club of two suggestions ---------------------------------------------------------------

  /** The owner's suggestion, made and landed. */
  function Suggesting(k: nat, b: Book): seq<Step> {
    Made(k, OWNERS, Suggest(0, b), 0, STEPS)
  }

  function TwoSuggestions(a: Book, b: Book): seq<Step> {
    Suggesting(0, a) + Suggesting(1, b)
  }

  /** A club whose owner has suggested two books. */
  function Stocked(a: Book, b: Book): State {
    State([], [Entry(a, 0, 0), Entry(b, 0, 0)])
  }

  function StockedFloor(a: Book, b: Book): Floor {
    Floor(Stocked(a, b), [Over(Suggested), Over(Suggested)])
  }

  lemma {:induction false} SuggestionLands(f: Floor, b: Book)
    requires b !in Books(f.db.catalog)
    ensures Run(f, Suggesting(|f.calls|, b))
      == Floor(f.db.(catalog := f.db.catalog + [Entry(b, 0, 0)]), f.calls + [Over(Suggested)])
  {
    MadeIsAlone(f, OWNERS, Suggest(0, b), 0, STEPS);
    ServeIsReadsThenWrite(f.db, OWNERS, Suggest(0, b), 0);
  }

  lemma {:induction false} SuggestionsLand(f: Floor, k: nat, a: Book, b: Book)
    requires k == |f.calls| && a != b && a !in Books(f.db.catalog) && b !in Books(f.db.catalog)
    ensures Run(f, Suggesting(k, a) + Suggesting(k + 1, b))
      == Floor(f.db.(catalog := f.db.catalog + [Entry(a, 0, 0)] + [Entry(b, 0, 0)]),
               f.calls + [Over(Suggested)] + [Over(Suggested)])
  {
    SuggestionLands(f, a);
    var f1 := Run(f, Suggesting(k, a));
    SuggestionLands(f1, b);
    Chain(f, Suggesting(k, a), f1, Suggesting(k + 1, b), Run(f1, Suggesting(k + 1, b)));
  }

  lemma {:induction false} StockedIsReached(a: Book, b: Book)
    requires a != b
    ensures Run(EMPTY, TwoSuggestions(a, b)) == StockedFloor(a, b)
  {
    SuggestionsLand(EMPTY, 0, a, b);
    assert [] + [Entry(a, 0, 0)] + [Entry(b, 0, 0)] == Stocked(a, b).catalog;
    assert [] + [Over(Suggested)] + [Over(Suggested)] == StockedFloor(a, b).calls;
  }

  function NewPool(a: Book, b: Book, weights: map<Book, real>): Round {
    Round(SETUP, SelectTopNPool(Stocked(a, b).catalog, weights, POOL_MAX), None, {})
  }

  lemma StockedIsEligible(a: Book, b: Book)
    requires a != b
    ensures Eligible(Stocked(a, b), OWNERS.roles.Keys) == Stocked(a, b).catalog && DistinctBooks(Stocked(a, b).catalog)
  {
    var s := Stocked(a, b);
    assert Excluded(s.rounds, OWNERS.roles.Keys) == {};
    assert Books(s.catalog) - {} == Books(s.catalog);
    KeepsAll(s.catalog, Books(s.catalog));
    assert s.catalog[0].book == a && s.catalog[1].book == b;
  }

  lemma {:induction false} PoolOfTwo(a: Book, b: Book, weights: map<Book, real>)
    requires a != b
    ensures PoolBooks(NewPool(a, b, weights).pool) == {a, b}
  {
    var es, pool := Stocked(a, b).catalog, NewPool(a, b, weights).pool;
    StockedIsEligible(a, b);
    PoolIsDistinct(es, weights, POOL_MAX);
    assert es[0] in es && es[1] in es;
    assert Books(es) == {a, b};
    assert a in pool && b in pool;
  }

  /** The owner's start of a curated round. */
  function Curated(weights: map<Book, real>, luck: Luck): Call {
    Start(0, CURATED, weights, luck)
  }

  lemma {:induction false} StartPasses(a: Book, b: Book, weights: map<Book, real>, luck: Luck)
    requires a != b
    ensures Alone(Stocked(a, b), OWNERS, Asked(Curated(weights, luck), 0), START_READS)
         == (Stocked(a, b), Ready(Save(NewPool(a, b, weights))))
  {
    StockedIsEligible(a, b);
    StartReads(Stocked(a, b), OWNERS, Curated(weights, luck), 0);
  }

  // ---- Two starts ------------------------------------------------------------------------------

  /** Both starts read all they need before either saves. */
  function TwoReads(k: nat, m1: Membership, call1: Call, m2: Membership, call2: Call, now: Time): seq<Step> {
    Made(k, m1, call1, now, START_READS) + Made(k + 1, m2, call2, now, START_READS)
  }

  function TwoStarts(k: nat, m1: Membership, call1: Call, m2: Membership, call2: Call, now: Time): seq<Step> {
    TwoReads(k, m1, call1, m2, call2, now) + ([Proceed(k, m1)] + [Proceed(k + 1, m2)])
  }

  lemma {:induction false} BothRead(f: Floor, k: nat, m1: Membership, call1: Call, m2: Membership, call2: Call,
                                    now: Time, p1: Progress, p2: Progress)
    requires k == |f.calls|
    requires Alone(f.db, m1, Asked(call1, now), START_READS) == (f.db, p1)
    requires Alone(f.db, m2, Asked(call2, now), START_READS) == (f.db, p2)
    ensures Run(f, TwoReads(k, m1, call1, m2, call2, now)) == Floor(f.db, f.calls + [p1] + [p2])
  {
    var f1, f2 := Floor(f.db, f.calls + [p1]), Floor(f.db, f.calls + [p1] + [p2]);
    Reads(f, k, m1, call1, now, START_READS, p1);
    Reads(f1, k + 1, m2, call2, now, START_READS, p2);
    Chain(f, Made(k, m1, call1, now, START_READS), f1, Made(k + 1, m2, call2, now, START_READS), f2);
  }

  /** Wherever each of two starts would be granted, both save. */
  lemma {:induction false} BothSave(f: Floor, m1: Membership, call1: Call, m2: Membership, call2: Call, now: Time,
                                    r1: Round, r2: Round)
    requires Alone(f.db, m1, Asked(call1, now), START_READS) == (f.db, Ready(Save(r1)))
    requires Alone(f.db, m2, Asked(call2, now), START_READS) == (f.db, Ready(Save(r2)))
    ensures Run(f, TwoStarts(|f.calls|, m1, call1, m2, call2, now))
      == Floor(f.db.(rounds := f.db.rounds + [r1, r2]), f.calls + [Over(Started(r1)), Over(Started(r2))])
  {
    var k := |f.calls|;
    var f2 := Floor(f.db, f.calls + [Ready(Save(r1))] + [Ready(Save(r2))]);
    BothRead(f, k, m1, call1, m2, call2, now, Ready(Save(r1)), Ready(Save(r2)));
    var f4 := BothLand(f2, f.calls, m1, m2, r1, r2);
    Chain(f, TwoReads(k, m1, call1, m2, call2, now), f2, [Proceed(k, m1)] + [Proceed(k + 1, m2)], f4);
  }

  lemma {:induction false} BothLand(f: Floor, earlier: seq<Progress>, m1: Membership, m2: Membership,
                                    r1: Round, r2: Round) returns (f': Floor)
    requires f.calls == earlier + [Ready(Save(r1))] + [Ready(Save(r2))]
    ensures f' == Floor(f.db.(rounds := f.db.rounds + [r1, r2]), earlier + [Over(Started(r1)), Over(Started(r2))])
    ensures Run(f, [Proceed(|earlier|, m1)] + [Proceed(|earlier| + 1, m2)]) == f'
  {
    var k := |earlier|;
    Goes(f, k, m1, Save(r1));
    var f1 := Run(f, [Proceed(k, m1)]);
    Goes(f1, k + 1, m2, Save(r2));
    f' := Run(f1, [Proceed(k + 1, m2)]);
    Chain(f, [Proceed(k, m1)], f1, [Proceed(k + 1, m2)], f');
    assert f.db.rounds + [r1] + [r2] == f.db.rounds + [r1, r2];
    assert f'.calls == earlier + [Over(Started(r1)), Over(Started(r2))];
  }

  /** The run ends with two active rounds. */
  lemma {:induction false} RacingStartsLeaveTwoRounds(a: Book, b: Book, weights: map<Book, real>, luck: Luck)
    requires a != b
    ensures var call := Curated(weights, luck);
      var f := Run(EMPTY, TwoSuggestions(a, b) + TwoStarts(2, OWNERS, call, OWNERS, call, 0));
      && |f.db.rounds| == 2 && IsActive(f.db.rounds[0]) && IsActive(f.db.rounds[1])
      && |f.calls| == 4 && f.calls[2] == Over(Started(f.db.rounds[0])) && f.calls[3] == Over(Started(f.db.rounds[1]))
  {
    var call, r := Curated(weights, luck), NewPool(a, b, weights);
    StockedIsReached(a, b);
    StartPasses(a, b, weights, luck);
    var f := StockedFloor(a, b);
    BothSave(f, OWNERS, call, OWNERS, call, 0, r, r);
    var f' := Floor(f.db.(rounds := f.db.rounds + [r, r]), f.calls + [Over(Started(r)), Over(Started(r))]);
    Chain(EMPTY, TwoSuggestions(a, b), f, TwoStarts(2, OWNERS, call, OWNERS, call, 0), f');
  }

  // ---- A start and two removals ----------------------------------------------------------------

  /** A start reads the catalog, and the removals of both books find no active round; */
  function ReadsOfAll(a: Book, b: Book, weights: map<Book, real>, luck: Luck): seq<Step> {
    Made(2, OWNERS, Curated(weights, luck), 0, START_READS)
      + (Made(3, OWNERS, RemoveBook(0, a), 0, REMOVE_READS) + Made(4, OWNERS, RemoveBook(0, b), 0, REMOVE_READS))
  }

  /** only then all three write. */
  const WRITES := [Proceed(2, OWNERS)] + [Proceed(3, OWNERS)] + [Proceed(4, OWNERS)]

  function StartAndRemovals(a: Book, b: Book, weights: map<Book, real>, luck: Luck): seq<Step> {
    ReadsOfAll(a, b, weights, luck) + WRITES
  }

  lemma {:induction false} RemovalPasses(s: State, x: Book)
    requires s.rounds == [] && x in Books(s.catalog)
    ensures Alone(s, OWNERS, Asked(RemoveBook(0, x), 0), REMOVE_READS) == (s, Ready(Delete(x)))
  {
    RemoveReads(s, OWNERS, RemoveBook(0, x), 0, FindEntry(s.catalog, x).value);
  }

  function AllReady(a: Book, b: Book, r: Round): Floor {
    Floor(Stocked(a, b), StockedFloor(a, b).calls + [Ready(Save(r))] + [Ready(Delete(a))] + [Ready(Delete(b))])
  }

  lemma {:induction false} RemovalsRead(f: Floor, k: nat, a: Book, b: Book)
    requires k == |f.calls| && f.db.rounds == [] && a in Books(f.db.catalog) && b in Books(f.db.catalog)
    ensures Run(f, Made(k, OWNERS, RemoveBook(0, a), 0, REMOVE_READS)
                   + Made(k + 1, OWNERS, RemoveBook(0, b), 0, REMOVE_READS))
         == Floor(f.db, f.calls + [Ready(Delete(a))] + [Ready(Delete(b))])
  {
    RemovalPasses(f.db, a);
    RemovalPasses(f.db, b);
    var f1 := Floor(f.db, f.calls + [Ready(Delete(a))]);
    var f2 := Floor(f.db, f.calls + [Ready(Delete(a))] + [Ready(Delete(b))]);
    Reads(f, k, OWNERS, RemoveBook(0, a), 0, REMOVE_READS, Ready(Delete(a)));
    Reads(f1, k + 1, OWNERS, RemoveBook(0, b), 0, REMOVE_READS, Ready(Delete(b)));
    Chain(f, Made(k, OWNERS, RemoveBook(0, a), 0, REMOVE_READS), f1,
          Made(k + 1, OWNERS, RemoveBook(0, b), 0, REMOVE_READS), f2);
  }

  lemma {:induction false} AllRead(a: Book, b: Book, weights: map<Book, real>, luck: Luck)
    requires a != b
    ensures Run(StockedFloor(a, b), ReadsOfAll(a, b, weights, luck)) == AllReady(a, b, NewPool(a, b, weights))
  {
    var f, r := StockedFloor(a, b), NewPool(a, b, weights);
    StartPasses(a, b, weights, luck);
    Reads(f, 2, OWNERS, Curated(weights, luck), 0, START_READS, Ready(Save(r)));
    var f1 := Floor(f.db, f.calls + [Ready(Save(r))]);
    assert f.db.catalog[0] in f.db.catalog && f.db.catalog[1] in f.db.catalog;
    RemovalsRead(f1, 3, a, b);
    Chain(f, Made(2, OWNERS, Curated(weights, luck), 0, START_READS), f1,
          Made(3, OWNERS, RemoveBook(0, a), 0, REMOVE_READS) + Made(4, OWNERS, RemoveBook(0, b), 0, REMOVE_READS),
          AllReady(a, b, r));
  }

  lemma {:induction false} AllLand(a: Book, b: Book, r: Round)
    requires a != b
    ensures var s := Run(AllReady(a, b, r), WRITES).db; s.rounds == [r] && Books(s.catalog) == {}
  {
    var f := AllReady(a, b, r);
    Goes(f, 2, OWNERS, Save(r));
    var f1 := Run(f, [Proceed(2, OWNERS)]);
    Goes(f1, 3, OWNERS, Delete(a));
    var f2 := Run(f1, [Proceed(3, OWNERS)]);
    Goes(f2, 4, OWNERS, Delete(b));
    var f3 := Run(f2, [Proceed(4, OWNERS)]);
    Chain(f, [Proceed(2, OWNERS)], f1, [Proceed(3, OWNERS)], f2);
    Chain(f, [Proceed(2, OWNERS)] + [Proceed(3, OWNERS)], f2, [Proceed(4, OWNERS)], f3);
    BooksAfter(f1.db.catalog, a);
    BooksAfter(f2.db.catalog, b);
    assert Books(f1.db.catalog) <= {a, b};
  }

  lemma BooksAfter(catalog: seq<Entry>, b: Book)
    ensures Books(OfBooks(catalog, Books(catalog) - {b})) <= Books(catalog) - {b}
  {
  }

  lemma NoBooksNoEntries(catalog: seq<Entry>)
    requires Books(catalog) == {}
    ensures catalog == []
  {
    assert catalog != [] ==> catalog[0].book in Books(catalog);
  }

  /** The run ends with a round in its setup phase that no draw can decide, whatever the weights and the luck. */
  lemma {:induction false} RacingRemovalsEmptyTheDraw(a: Book, b: Book, weights: map<Book, real>, luck: Luck,
                                                      w: map<Book, real>, l: Luck)
    requires a != b
    ensures var s := Run(EMPTY, TwoSuggestions(a, b) + StartAndRemovals(a, b, weights, luck)).db;
      && |s.rounds| == 1 && s.rounds[0].status == SETUP && PoolBooks(s.rounds[0].pool) == {a, b}
      && DoFinalize(s, OWNERS, 0, DRAW, w, l).1 == Failed(NothingToDraw)
  {
    var f, r := StockedFloor(a, b), NewPool(a, b, weights);
    StockedIsReached(a, b);
    AllRead(a, b, weights, luck);
    AllLand(a, b, r);
    PoolOfTwo(a, b, weights);
    var f' := Run(AllReady(a, b, r), WRITES);
    Chain(f, ReadsOfAll(a, b, weights, luck), AllReady(a, b, r), WRITES, f');
    Chain(EMPTY, TwoSuggestions(a, b), f, StartAndRemovals(a, b, weights, luck), f');
    EmptyDraw(f'.db, r, w, l);
  }

  lemma EmptyDraw(s: State, r: Round, w: map<Book, real>, l: Luck)
    requires s.rounds == [r] && r.status == SETUP && Books(s.catalog) == {}
    ensures DoFinalize(s, OWNERS, 0, DRAW, w, l).1 == Failed(NothingToDraw)
  {
    NoBooksNoEntries(s.catalog);
    assert IsActive(s.rounds[0]) && FindActive(s.rounds) == Some(0);
    DrawOutcome(s, 0, OWNERS, 0, w, l);
  }
}
