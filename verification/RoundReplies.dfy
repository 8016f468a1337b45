/** When each round or catalog call succeeds, and with which error it fails, read off the stored documents: every
    reply by an if and only if, in every state in which rounds and catalog agree. */
module RoundReplies {

  import opened Weighting
  import opened Rounds
  import opened RoundRuns
  import Club

  /** The member is owner or admin. */
  predicate Leads(m: Membership, u: User) {
    u in m.roles && m.roles[u] in {Club.OWNER, Club.ADMIN}
  }

  /** A round that is not concluded has decided on the book, or has it in its pool. */
  predicate NeedsBook(r: Round, b: Book) {
    r.status in {SETUP, VOTING, DECIDED} && (r.book == Some(b) || b in r.pool)
  }

  /** A round stands at the given stage and is not over. */
  ghost predicate Current(s: State, i: nat, status: Status) {
    i < |s.rounds| && s.rounds[i].status == status && status != CONCLUDED
  }

  ghost predicate NoneCurrent(s: State) {
    forall i :: 0 <= i < |s.rounds| ==> s.rounds[i].status == CONCLUDED
  }

  // ---- What may be read next -------------------------------------------------------------------

  /** Most of those who finished a round on the book are members. */
  ghost predicate Barred(s: State, members: set<User>, b: Book) {
    exists i :: 0 <= i < |s.rounds| && s.rounds[i].book == Some(b)
                && |s.rounds[i].finished * members| > |s.rounds[i].finished - members|
  }

  lemma MajorityByCount(r: Round, members: set<User>)
    ensures MajorityStays(r, members) <==> |r.finished * members| > |r.finished - members|
  {
    assert r.finished == r.finished * members + (r.finished - members);
  }

  lemma {:induction false} ExcludedIsBarred(s: State, members: set<User>, b: Book)
    ensures b in Excluded(s.rounds, members) <==> Barred(s, members, b)
  {
    forall i | 0 <= i < |s.rounds|
      ensures MajorityStays(s.rounds[i], members) <==>
        |s.rounds[i].finished * members| > |s.rounds[i].finished - members|
    {
      MajorityByCount(s.rounds[i], members);
    }
    if b in Excluded(s.rounds, members) {
      var r: Round :| r in s.rounds && r.book == Some(b) && MajorityStays(r, members);
      var i :| 0 <= i < |s.rounds| && s.rounds[i] == r;
      assert Barred(s, members, b);
    }
  }

  /** Eligible are exactly the entries whose book is not barred by a past round, in the order of the catalog. */
  lemma {:induction false} EligibleExactly(s: State, members: set<User>, e: Entry)
    ensures e in Eligible(s, members) <==> e in s.catalog && !Barred(s, members, e.book)
  {
    ExcludedIsBarred(s, members, e.book);
  }

  // ---- The replies -----------------------------------------------------------------------------

  /** Whether a round is current is what the query for the active round finds. */
  lemma {:induction false} ActiveIsCurrent(s: State)
    requires Inv(s)
    ensures FindActive(s.rounds).None? <==> NoneCurrent(s)
    ensures FindActive(s.rounds).Some? ==>
      var i := FindActive(s.rounds).value;
      Current(s, i, s.rounds[i].status) && forall j: nat, status :: Current(s, j, status) ==> j == i
  {
    forall j: nat, status | Current(s, j, status) ensures FindActive(s.rounds) == Some(j) {
      OnlyOneActive(s, j);
    }
    if FindActive(s.rounds).None? {
      forall j | 0 <= j < |s.rounds| ensures s.rounds[j].status == CONCLUDED {
        assert !IsActive(s.rounds[j]);
      }
    }
  }

  /** A start succeeds exactly for owner or admin, with no round current and a book left to read, unless a random draw
      among several fails. */
  lemma {:induction false} StartReplies(s: State, m: Membership, caller: User, mode: SelectionMode,
                                        weights: map<Book, real>, luck: Luck)
    requires Inv(s)
    ensures var (s', r) := DoStart(s, m, caller, mode, weights, luck);
      var es := Eligible(s, m.roles.Keys);
      var drawn := |es| > 1 && mode == RANDOM && WeightedDraw(es, weights, luck).None?;
      && (r == Failed(Unauthorized) <==> !Leads(m, caller))
      && (r == Failed(ActiveRoundAlreadyExists) <==> Leads(m, caller) && !NoneCurrent(s))
      && (r == Failed(NoEligibleCatalog) <==>
            Leads(m, caller) && NoneCurrent(s) && forall e :: e in s.catalog ==> Barred(s, m.roles.Keys, e.book))
      && (r == Failed(NothingToDraw) <==> Leads(m, caller) && NoneCurrent(s) && drawn)
      && (r.Started? <==>
            Leads(m, caller) && NoneCurrent(s) && !drawn
            && exists e :: e in s.catalog && !Barred(s, m.roles.Keys, e.book))
      && (if r.Started? then s' == s.(rounds := s.rounds + [r.round]) else s' == s)
  {
    ActiveIsCurrent(s);
    NothingEligible(s, m.roles.Keys);
  }

  lemma {:induction false} NothingEligible(s: State, members: set<User>)
    ensures Eligible(s, members) == [] <==> forall e :: e in s.catalog ==> Barred(s, members, e.book)
  {
    var es := Eligible(s, members);
    forall e ensures e in es <==> e in s.catalog && !Barred(s, members, e.book) {
      EligibleExactly(s, members, e);
    }
    if es != [] {
      assert es[0] in es;
    }
  }

  lemma {:induction false} FinalizeReplies(s: State, m: Membership, caller: User, how: ResolutionMethod,
                                           weights: map<Book, real>, luck: Luck, i: nat)
    requires Inv(s)
    ensures var (s', r) := DoFinalize(s, m, caller, how, weights, luck);
      && (r == Failed(Unauthorized) <==> !Leads(m, caller))
      && (r == Failed(RoundNotFound) <==> Leads(m, caller) && NoneCurrent(s))
      && (Current(s, i, VOTING) || Current(s, i, DECIDED) ==>
            (r == Failed(RoundAlreadyFinalized) <==> Leads(m, caller)))
      && (Current(s, i, SETUP) && Leads(m, caller) ==>
            && (how == VOTE ==>
                  r == VotingOpened && s' == s.(rounds := s.rounds[i := s.rounds[i].(status := VOTING)]))
            && (how == DRAW ==>
                  match WeightedDraw(Candidates(s, i), weights, luck)
                  case None => r == Failed(NothingToDraw) && s' == s
                  case Some(b) =>
                    r == Drawn(b) && s' == s.(rounds := s.rounds[i := s.rounds[i].(status := DECIDED, book := Some(b))])))
      && (r == VotingOpened || r.Drawn? ==> Leads(m, caller) && exists j: nat :: Current(s, j, SETUP))
      && (r.Failed? ==> s' == s)
  {
    ActiveIsCurrent(s);
    if FindActive(s.rounds).Some? {
      var k := FindActive(s.rounds).value;
      assert Current(s, k, s.rounds[k].status);
      assert s.rounds[k].status == SETUP ==> s.rounds[k].book == None;
    }
  }

  lemma {:induction false} FinishReplies(s: State, m: Membership, caller: User, i: nat)
    requires Inv(s)
    ensures var (s', r) := DoMarkFinished(s, m, caller);
      && (r == Failed(Unauthorized) <==> caller !in m.roles)
      && (r == Failed(RoundNotFound) <==> caller in m.roles && forall j: nat :: !Current(s, j, DECIDED))
      && (r.Completed? <==> caller in m.roles && exists j: nat :: Current(s, j, DECIDED))
      && (Current(s, i, DECIDED) && r.Completed? ==>
            && (r.isNew <==> caller !in s.rounds[i].finished)
            && (r.concluded <==> r.isNew && m.roles.Keys <= s.rounds[i].finished + {caller})
            && s' == s.(rounds := s.rounds[i := s.rounds[i].(finished := s.rounds[i].finished + {caller},
                                                             status := if r.concluded then CONCLUDED else DECIDED)]))
      && (r.Failed? ==> s' == s)
  {
    ActiveIsCurrent(s);
    if Current(s, i, DECIDED) && caller in s.rounds[i].finished {
      assert s.rounds[i].finished + {caller} == s.rounds[i].finished;
    }
  }

  lemma SuggestReplies(s: State, m: Membership, user: User, book: Book, now: Time)
    ensures var (s', r) := DoSuggest(s, m, user, book, now);
      var there := exists e :: e in s.catalog && e.book == book;
      && (r == Failed(Unauthorized) <==> user !in m.roles)
      && (r == Failed(SuggestionsClosed) <==> user in m.roles && !m.suggestionsAllowed)
      && (r == AlreadyExists <==> user in m.roles && m.suggestionsAllowed && there)
      && (r == Suggested <==> user in m.roles && m.suggestionsAllowed && !there)
      && s' == (if r == Suggested then s.(catalog := s.catalog + [Entry(book, user, now)]) else s)
  {
  }

  /** The user may take the book out: as owner or admin, or as the one who suggested it. */
  ghost predicate MayTakeOut(s: State, m: Membership, user: User, book: Book) {
    Leads(m, user) || exists e :: e in s.catalog && e.book == book && e.suggester == user
  }

  ghost predicate Needed(s: State, book: Book) {
    exists i :: 0 <= i < |s.rounds| && NeedsBook(s.rounds[i], book)
  }

  lemma {:induction false} RemoveBookReplies(s: State, m: Membership, user: User, book: Book)
    requires Inv(s)
    ensures var (s', r) := DoRemoveBook(s, m, user, book);
      var there := exists e :: e in s.catalog && e.book == book;
      var needed := Needed(s, book);
      && (r == Failed(BookNotFound) <==> !there)
      && (r == Failed(Unauthorized) <==> there && !MayTakeOut(s, m, user, book))
      && (r == Failed(BookLockedInActiveRound) <==> there && MayTakeOut(s, m, user, book) && needed)
      && (r == Removed <==> there && MayTakeOut(s, m, user, book) && !needed)
      && (r == Removed ==> s'.rounds == s.rounds && forall e :: e in s'.catalog <==> e in s.catalog && e.book != book)
      && (r != Removed ==> s' == s)
  {
    ActiveIsCurrent(s);
    var entry := FindEntry(s.catalog, book);
    if entry.Some? {
      forall e | e in s.catalog && e.book == book ensures e == entry.value {
        OneEntryPerBook(s.catalog, e, entry.value);
      }
    }
    forall i | 0 <= i < |s.rounds| ensures NeedsBook(s.rounds[i], book) <==>
      FindActive(s.rounds) == Some(i) && LockedBy(s.rounds[i], book)
    {
      assert IsActive(s.rounds[i]) ==> Current(s, i, s.rounds[i].status);
    }
    if FindActive(s.rounds).Some? && LockedBy(s.rounds[FindActive(s.rounds).value], book) {
      assert NeedsBook(s.rounds[FindActive(s.rounds).value], book);
    }
  }

  lemma OneEntryPerBook(catalog: seq<Entry>, e: Entry, f: Entry)
    requires DistinctBooks(catalog) && e in catalog && f in catalog && e.book == f.book
    ensures e == f
  {
    var i :| 0 <= i < |catalog| && catalog[i] == e;
    var j :| 0 <= j < |catalog| && catalog[j] == f;
    SamePosition(catalog, i, j);
  }

  lemma SamePosition(catalog: seq<Entry>, i: nat, j: nat)
    requires DistinctBooks(catalog) && i < |catalog| && j < |catalog| && catalog[i].book == catalog[j].book
    ensures i == j
  {
  }
}
