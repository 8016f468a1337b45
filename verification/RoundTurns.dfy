/** What callers can arrange: starts that take their turns, and removals kept apart from them. */
module RoundTurns {

  import opened Weighting
  import opened Rounds
  import opened RoundRuns
  import opened RoundRaces

  // ---- Starts take their turns -----------------------------------------------------------------

  /** A start that has found the club without an active round and has not saved its own yet. */
  predicate Starting(p: Progress) {
    p.StartUnopposed? || p.StartCounted? || p.StartBarring? || (p.Ready? && p.write.Save?)
  }

  ghost predicate OneStarts(calls: seq<Progress>) {
    forall j, k {:trigger calls[j], calls[k]} ::
      0 <= j < |calls| && 0 <= k < |calls| && Starting(calls[j]) && Starting(calls[k]) ==> j == k
  }

  /** At no moment are two starts between their look for an active round and their save. */
  ghost predicate StartsTakeTurns(f: Floor, steps: seq<Step>)
    decreases |steps|
  {
    OneStarts(Run(f, steps).calls) && (steps != [] ==> StartsTakeTurns(f, steps[..|steps| - 1]))
  }

  ghost predicate NoneStarts(calls: seq<Progress>) {
    forall k {:trigger calls[k]} :: 0 <= k < |calls| ==> !Starting(calls[k])
  }

  /** While a start is on its way no round is active. */
  ghost predicate StartsAreFree(f: Floor) {
    FindActive(f.db.rounds).None? || NoneStarts(f.calls)
  }

  lemma ReadStarts(s: State, m: Membership, p: Progress)
    requires !p.Ready? && !Starting(p) && FindActive(s.rounds).Some?
    ensures !Starting(Read(s, m, p))
  {
  }

  lemma LandedIsOver(s: State, m: Membership, p: Progress)
    requires p.Ready?
    ensures Advance(s, m, p).1.Over?
  {
  }

  lemma {:induction false} ReadTurn(f: Floor, k: nat, m: Membership)
    requires StartsAreFree(f) && k < |f.calls| && !f.calls[k].Ready?
    ensures StartsAreFree(Next(f, Proceed(k, m)))
  {
    var f' := Next(f, Proceed(k, m));
    if FindActive(f.db.rounds).Some? {
      forall j | 0 <= j < |f'.calls| ensures !Starting(f'.calls[j]) {
        assert !Starting(f.calls[j]);
        if j == k {
          ReadStarts(f.db, m, f.calls[k]);
        }
      }
    }
  }

  lemma NoneBecomesActive(s: State, w: Write)
    requires AllRoundsOk(s.rounds) && WriteOk(s, w) && !w.Save? && FindActive(s.rounds).None?
    ensures FindActive(Land(s, w).0.rounds).None?
  {
    LandAges(s, w);
    forall i | 0 <= i < |s.rounds| ensures !IsActive(Land(s, w).0.rounds[i]) {
      assert !IsActive(s.rounds[i]);
    }
  }

  lemma {:induction false} LandTurn(f: Floor, k: nat, m: Membership)
    requires FloorOk(f) && StartsAreFree(f) && OneStarts(f.calls) && k < |f.calls| && f.calls[k].Ready?
    ensures StartsAreFree(Next(f, Proceed(k, m)))
  {
    var f', w := Next(f, Proceed(k, m)), f.calls[k].write;
    LandedIsOver(f.db, m, f.calls[k]);
    if w.Save? {
      forall j | 0 <= j < |f'.calls| ensures !Starting(f'.calls[j]) {
        assert j != k ==> f'.calls[j] == f.calls[j];
      }
    } else if FindActive(f.db.rounds).None? {
      assert ProgressOk(f.db, f.calls[k]);
      NoneBecomesActive(f.db, w);
    } else {
      forall j | 0 <= j < |f'.calls| ensures !Starting(f'.calls[j]) {
        assert !Starting(f.calls[j]);
      }
    }
  }

  lemma {:induction false} TurnStep(f: Floor, step: Step)
    requires FloorOk(f) && StartsAreFree(f) && OneStarts(f.calls) && AtMostOneActive(f.db)
    ensures StartsAreFree(Next(f, step)) && AtMostOneActive(Next(f, step).db)
  {
    OneActiveStep(f, step);
    match step
    case Arrive(call, now) =>
      var calls := Next(f, step).calls;
      forall k | 0 <= k < |calls| && NoneStarts(f.calls) ensures !Starting(calls[k]) {
        assert k < |f.calls| ==> calls[k] == f.calls[k];
      }
    case Proceed(k, m) =>
      if k < |f.calls| && f.calls[k].Ready? {
        LandTurn(f, k, m);
        assert f.calls[k].write.Save? ==> Starting(f.calls[k]);
      } else if k < |f.calls| {
        ReadTurn(f, k, m);
      }
  }

  /** For every interleaving: if no start looks for an active round while another is between its look and its save,
      there is at most one active round at every moment. */
  lemma {:induction false} StartsInTurnKeepOneActive(f: Floor, steps: seq<Step>)
    requires FloorOk(f) && StartsAreFree(f) && AtMostOneActive(f.db) && StartsTakeTurns(f, steps)
    ensures AtMostOneActive(Run(f, steps).db) && StartsAreFree(Run(f, steps))
    decreases |steps|
  {
    if steps != [] {
      var init := steps[..|steps| - 1];
      StartsInTurnKeepOneActive(f, init);
      RunKeeps(f, init);
      assert StartsTakeTurns(f, init) && OneStarts(Run(f, init).calls);
      TurnStep(Run(f, init), steps[|steps| - 1]);
    }
  }

  // ---- Removals keep away ----------------------------------------------------------------------

  predicate Saving(p: Progress) {
    p.Ready? && p.write.Save?
  }

  predicate Removing(p: Progress) {
    p.Ready? && p.write.Delete?
  }

  /** No removal that has seen its book free is about to delete it while a start that has read the catalog is about to
      save its round. */
  ghost predicate KeepApart(calls: seq<Progress>) {
    forall j, k {:trigger calls[j], calls[k]} ::
      0 <= j < |calls| && 0 <= k < |calls| && Saving(calls[j]) ==> !Removing(calls[k])
  }

  ghost predicate AlwaysApart(f: Floor, steps: seq<Step>)
    decreases |steps|
  {
    KeepApart(Run(f, steps).calls) && (steps != [] ==> AlwaysApart(f, steps[..|steps| - 1]))
  }

  ghost predicate AllHeld(s: State) {
    forall i {:trigger s.rounds[i]} :: 0 <= i < |s.rounds| ==> Held(s.rounds[i], s.catalog)
  }

  ghost predicate NotLocked(rounds: seq<Round>, b: Book) {
    forall i {:trigger rounds[i]} :: 0 <= i < |rounds| && IsActive(rounds[i]) ==> !LockedBy(rounds[i], b)
  }

  /** A round about to be saved depends on books in the catalog; a book about to go is one that no active round depends
      on. */
  ghost predicate Sound(s: State, p: Progress) {
    && (Saving(p) ==> Held(p.write.round, s.catalog))
    && (Removing(p) ==> NotLocked(s.rounds, p.write.book))
  }

  ghost predicate AllSound(f: Floor) {
    forall k {:trigger f.calls[k]} :: 0 <= k < |f.calls| ==> Sound(f.db, f.calls[k])
  }

  lemma {:induction false} ReadIsSound(s: State, m: Membership, p: Progress)
    requires DistinctBooks(s.catalog) && AtMostOneActive(s) && !p.Ready?
    ensures Sound(s, Read(s, m, p))
  {
    match p
    case StartBarring(mode, weights, luck, excluded) =>
      var eligible := OfBooks(s.catalog, Books(s.catalog) - excluded);
      var next := StartWith(eligible, mode, weights, luck);
      if next.Ready? {
        StartFindsItsBooks(s, eligible, mode, weights, luck, excluded, next.write.round);
      }
    case RemoveAllowed(b) =>
      var active := FindActive(s.rounds);
      forall i | 0 <= i < |s.rounds| && IsActive(s.rounds[i]) ensures active == Some(i) {
        assert IsActive(s.rounds[active.value]);
      }
    case _ =>
  }

  /** The books an active round depends on survive every write but the removal of one of them. */
  lemma HeldSurvives(s: State, w: Write, r: Round)
    requires Held(r, s.catalog)
    requires w.Delete? && IsActive(r) ==> !LockedBy(r, w.book)
    ensures Held(r, Land(s, w).0.catalog)
  {
    if IsActive(r) {
      forall b | LockedBy(r, b) ensures b in Books(Land(s, w).0.catalog) {
        LandedBooks(s, w, {b});
      }
    }
  }

  lemma HeldPasses(r: Round, r': Round, catalog: seq<Entry>)
    requires Held(r, catalog) && (IsActive(r') ==> IsActive(r)) && forall b :: LockedBy(r', b) ==> LockedBy(r, b)
    ensures Held(r', catalog)
  {
  }

  lemma {:induction false} LandKeepsHeld(s: State, w: Write)
    requires AllRoundsOk(s.rounds) && WriteOk(s, w) && AllHeld(s) && Sound(s, Ready(w))
    ensures AllHeld(Land(s, w).0)
  {
    var s' := Land(s, w).0;
    LandAges(s, w);
    forall i | 0 <= i < |s'.rounds| ensures Held(s'.rounds[i], s'.catalog) {
      if i < |s.rounds| {
        LandOnRound(s, w, i);
        HeldSurvives(s, w, s.rounds[i]);
        HeldPasses(s.rounds[i], s'.rounds[i], s'.catalog);
      }
    }
  }

  /** Another call stays sound, unless one of the two saves what the other removes. */
  lemma {:induction false} LandKeepsSound(s: State, w: Write, p: Progress)
    requires AllRoundsOk(s.rounds) && WriteOk(s, w) && Sound(s, p)
    requires !(w.Save? && Removing(p)) && !(w.Delete? && Saving(p))
    ensures Sound(Land(s, w).0, p)
  {
    var s' := Land(s, w).0;
    if Saving(p) {
      HeldSurvives(s, w, p.write.round);
    }
    if Removing(p) {
      LandAges(s, w);
      forall i | 0 <= i < |s'.rounds| && IsActive(s'.rounds[i]) ensures !LockedBy(s'.rounds[i], p.write.book) {
        LandOnRound(s, w, i);
      }
    }
  }

  lemma {:induction false} LandApart(f: Floor, k: nat, m: Membership)
    requires FloorOk(f) && KeepApart(f.calls) && AllHeld(f.db) && AllSound(f)
    requires k < |f.calls| && f.calls[k].Ready?
    ensures AllHeld(Next(f, Proceed(k, m)).db) && AllSound(Next(f, Proceed(k, m)))
  {
    var f', w := Next(f, Proceed(k, m)), f.calls[k].write;
    assert ProgressOk(f.db, f.calls[k]) && Sound(f.db, f.calls[k]);
    LandedIsOver(f.db, m, f.calls[k]);
    LandKeepsHeld(f.db, w);
    forall j | 0 <= j < |f'.calls| ensures Sound(f'.db, f'.calls[j]) {
      if j != k {
        LandKeepsSound(f.db, w, f.calls[j]);
      }
    }
  }

  lemma {:induction false} ApartStep(f: Floor, step: Step)
    requires FloorOk(f) && KeepApart(f.calls) && AtMostOneActive(f.db) && AllHeld(f.db) && AllSound(f)
    ensures AllHeld(Next(f, step).db) && AllSound(Next(f, step))
  {
    if step.Proceed? && step.k < |f.calls| {
      if f.calls[step.k].Ready? {
        LandApart(f, step.k, step.membership);
      } else {
        ReadIsSound(f.db, step.membership, f.calls[step.k]);
      }
    }
  }

  /** For every interleaving: if starts take their turns, and no removal is about to delete while a start is about to
      save, then at every moment the catalog has every book an active round depends on. */
  lemma {:induction false} RemovalsApartKeepTheBooks(f: Floor, steps: seq<Step>)
    requires FloorOk(f) && StartsAreFree(f) && AtMostOneActive(f.db) && AllHeld(f.db) && AllSound(f)
    requires StartsTakeTurns(f, steps) && AlwaysApart(f, steps)
    ensures AtMostOneActive(Run(f, steps).db) && AllHeld(Run(f, steps).db) && AllSound(Run(f, steps))
    decreases |steps|
  {
    StartsInTurnKeepOneActive(f, steps);
    if steps != [] {
      var init := steps[..|steps| - 1];
      RemovalsApartKeepTheBooks(f, init);
      RunKeeps(f, init);
      assert AlwaysApart(f, init) && KeepApart(Run(f, init).calls);
      ApartStep(Run(f, init), steps[|steps| - 1]);
    }
  }

  /** So from a new club a round being set up can at every moment be drawn in full. */
  lemma {:induction false} ArrangedClubsDrawInFull(steps: seq<Step>, i: nat)
    requires var f := Floor(NEW_CLUB, []); StartsTakeTurns(f, steps) && AlwaysApart(f, steps)
    requires i < |Run(Floor(NEW_CLUB, []), steps).db.rounds|
    ensures var s := Run(Floor(NEW_CLUB, []), steps).db;
      IsActive(s.rounds[i]) ==> FindActive(s.rounds) == Some(i) && FullyDrawable(s, i)
  {
    var f := Floor(NEW_CLUB, []);
    RemovalsApartKeepTheBooks(f, steps);
    var s := Run(f, steps).db;
    if IsActive(s.rounds[i]) {
      assert Held(s.rounds[i], s.catalog);
      forall b | b in PoolBooks(s.rounds[i].pool) ensures b in Books(s.catalog) {
        assert LockedBy(s.rounds[i], b);
      }
      DrawableIsHeld(s, i);
      assert IsActive(s.rounds[FindActive(s.rounds).value]);
    }
  }
}
