/** The round and catalog services over the stored documents of a live club: what each call guarantees its caller
    while rounds and catalog agree. */
module RoundService {

  import opened Weighting
  import opened Rounds
  import opened RoundRuns
  import opened RoundReplies

  /** Nothing but round `i` differs. */
  ghost predicate OnlyRound(s: State, s': State, i: nat) {
    && s'.catalog == s.catalog && |s'.rounds| == |s.rounds|
    && forall j {:trigger s'.rounds[j]} :: 0 <= j < |s.rounds| && j != i ==> s'.rounds[j] == s.rounds[j]
  }

  lemma FinalizeGuarantee(s: State, m: Membership, caller: User, how: ResolutionMethod, weights: map<Book, real>,
                          luck: Luck)
    requires Inv(s)
    ensures var (s', reply) := DoFinalize(s, m, caller, how, weights, luck);
      && Inv(s')
      && (reply.Drawn? || reply.VotingOpened? ==>
            && FindActive(s.rounds).Some?
            && var i := FindActive(s.rounds).value;
            && s.rounds[i].status == SETUP && OnlyRound(s, s', i) && s'.rounds[i].pool == s.rounds[i].pool
            && (reply.VotingOpened? ==> s'.rounds[i].status == VOTING)
            && (reply.Drawn? ==>
                  s'.rounds[i].status == DECIDED && s'.rounds[i].book == Some(reply.book)
                  && reply.book in s.rounds[i].pool))
  {
    FinalizeKeeps(s, m, caller, how, weights, luck);
    if DoFinalize(s, m, caller, how, weights, luck).1.Drawn? {
      DrawEntries(s, s.rounds[FindActive(s.rounds).value]);
    }
  }

  class Service {
    const repo: Repository

    constructor (repo: Repository)
      ensures this.repo == repo
    {
      this.repo := repo;
    }

    /** A start adds one active round where there was none, on books the catalog has, and touches nothing else. */
    method StartRound(m: Membership, caller: User, mode: SelectionMode, weights: map<Book, real>, luck: Luck)
      returns (reply: Reply)
      requires Inv(repo.Value())
      modifies repo
      ensures Inv(repo.Value()) && repo.catalog == old(repo.catalog)
      ensures reply.Started? ==>
        && IsPrivileged(m, caller) && FindActive(old(repo.rounds)).None?
        && repo.rounds == old(repo.rounds) + [reply.round] && IsActive(reply.round)
        && forall b :: LockedBy(reply.round, b) ==> b in Books(repo.catalog) - Excluded(old(repo.rounds), m.roles.Keys)
      ensures !reply.Started? ==> reply.Failed? && repo.Value() == old(repo.Value())
      ensures (repo.Value(), reply) == DoStart(old(repo.Value()), m, caller, mode, weights, luck)
    {
      StartKeeps(repo.Value(), m, caller, mode, weights, luck);
      if !IsPrivileged(m, caller) {
        return Failed(Unauthorized);
      }
      var active := repo.FindActiveByClubId();
      if active.Some? {
        return Failed(ActiveRoundAlreadyExists);
      }
      var eligible := Eligible(repo.Value(), m.roles.Keys);
      if eligible == [] {
        return Failed(NoEligibleCatalog);
      }
      var r;
      if |eligible| == 1 {
        r := Round(DECIDED, [], Some(eligible[0].book), {});
      } else if mode == RANDOM {
        var book := WeightedDraw(eligible, weights, luck);
        if book.None? {
          return Failed(NothingToDraw);
        }
        r := Round(DECIDED, [], book, {});
      } else {
        r := Round(SETUP, SelectTopNPool(eligible, weights, POOL_MAX), None, {});
      }
      NewRoundOk(repo.Value(), m, mode, weights, luck);
      repo.SaveNewRound(r);
      return Started(r);
    }

    /** A finalisation moves exactly the round being set up, to a book of its pool or to the vote. */
    method FinalizeRound(m: Membership, caller: User, how: ResolutionMethod, weights: map<Book, real>, luck: Luck)
      returns (reply: Reply)
      requires Inv(repo.Value())
      modifies repo
      ensures Inv(repo.Value())
      ensures reply.Drawn? || reply.VotingOpened? ==>
        && FindActive(old(repo.rounds)).Some?
        && var i := FindActive(old(repo.rounds)).value;
        && old(repo.rounds)[i].status == SETUP && OnlyRound(old(repo.Value()), repo.Value(), i)
        && repo.rounds[i].pool == old(repo.rounds)[i].pool
        && (reply.VotingOpened? ==> repo.rounds[i].status == VOTING)
        && (reply.Drawn? ==> repo.rounds[i].status == DECIDED && repo.rounds[i].book == Some(reply.book)
                             && reply.book in repo.rounds[i].pool)
      ensures !reply.Drawn? && !reply.VotingOpened? ==> reply.Failed? && repo.Value() == old(repo.Value())
      ensures (repo.Value(), reply) == DoFinalize(old(repo.Value()), m, caller, how, weights, luck)
    {
      FinalizeGuarantee(repo.Value(), m, caller, how, weights, luck);
      if !IsPrivileged(m, caller) {
        return Failed(Unauthorized);
      }
      var active := repo.FindActiveByClubId();
      if active.None? {
        return Failed(RoundNotFound);
      }
      var i := active.value;
      if repo.rounds[i].status != SETUP {
        return Failed(RoundAlreadyFinalized);
      }
      ghost var before := repo.rounds;
      if how == VOTE {
        var changed := repo.FinalizeWithVote(i);
        assert repo.rounds == before[i := before[i].(status := VOTING)];
        return if changed then VotingOpened else Failed(RoundAlreadyFinalized);
      }
      var book := WeightedDraw(OfBooks(repo.catalog, PoolBooks(repo.rounds[i].pool)), weights, luck);
      if book.None? {
        return Failed(NothingToDraw);
      }
      var changed := repo.FinalizeWithDraw(i, book.value);
      assert repo.rounds == before[i := before[i].(status := DECIDED, book := book)];
      return if changed then Drawn(book.value) else Failed(RoundAlreadyFinalized);
    }

    /** The caller is on record as a finisher of the decided round; it concludes exactly with the last one missing. */
    method MarkFinished(m: Membership, caller: User) returns (reply: Reply)
      requires Inv(repo.Value())
      modifies repo
      ensures Inv(repo.Value())
      ensures reply.Completed? ==>
        && caller in m.roles && FindActive(old(repo.rounds)).Some?
        && var i := FindActive(old(repo.rounds)).value;
        && OnlyRound(old(repo.Value()), repo.Value(), i) && repo.rounds[i].book == old(repo.rounds)[i].book
        && repo.rounds[i].finished == old(repo.rounds)[i].finished + {caller}
        && (reply.isNew <==> caller !in old(repo.rounds)[i].finished)
        && (reply.concluded <==> repo.rounds[i].status == CONCLUDED)
        && (reply.concluded <==> reply.isNew && m.roles.Keys <= repo.rounds[i].finished)
      ensures !reply.Completed? ==> reply.Failed? && repo.Value() == old(repo.Value())
      ensures (repo.Value(), reply) == DoMarkFinished(old(repo.Value()), m, caller)
    {
      MarkFinishedKeeps(repo.Value(), m, caller);
      if caller !in m.roles {
        return Failed(Unauthorized);
      }
      var active := repo.FindActiveByClubId();
      if active.None? || repo.rounds[active.value].status != DECIDED {
        return Failed(RoundNotFound);
      }
      var result := repo.RecordCompletion(active.value, caller, m.roles.Keys);
      return Completed(result.isNew, result.roundConcluded);
    }

    /** A suggestion adds one entry, under its suggester, for a book that had none. */
    method SuggestBook(m: Membership, user: User, book: Book, now: Time) returns (reply: Reply)
      requires Inv(repo.Value())
      modifies repo
      ensures Inv(repo.Value()) && repo.rounds == old(repo.rounds)
      ensures reply == Suggested ==>
        user in m.roles && book !in Books(old(repo.catalog)) && repo.catalog == old(repo.catalog) + [Entry(book, user, now)]
      ensures reply == AlreadyExists ==> book in Books(repo.catalog)
      ensures reply != Suggested ==> repo.Value() == old(repo.Value())
      ensures (repo.Value(), reply) == DoSuggest(old(repo.Value()), m, user, book, now)
    {
      SuggestKeeps(repo.Value(), m, user, book, now);
      if user !in m.roles {
        return Failed(Unauthorized);
      }
      if !m.suggestionsAllowed {
        return Failed(SuggestionsClosed);
      }
      var added := repo.AddEntry(Entry(book, user, now));
      return if added then Suggested else AlreadyExists;
    }

    /** A removal takes out exactly the book's entry, and no active round needed it.  It is granted to owner and admin
        and to the entry's suggester, and refused to them only if there is no such book or an active round needs it. */
    method RemoveBook(m: Membership, user: User, book: Book) returns (reply: Reply)
      requires Inv(repo.Value())
      modifies repo
      ensures Inv(repo.Value()) && repo.rounds == old(repo.rounds)
      ensures reply == Removed ==>
        && book in Books(old(repo.catalog)) && book !in Books(repo.catalog)
        && (forall e :: e in repo.catalog <==> e in old(repo.catalog) && e.book != book)
        && (forall i :: 0 <= i < |repo.rounds| && IsActive(repo.rounds[i]) ==> !LockedBy(repo.rounds[i], book))
      ensures reply == Removed ==> MayTakeOut(old(repo.Value()), m, user, book)
      ensures MayTakeOut(old(repo.Value()), m, user, book) ==>
        (reply != Removed <==> book !in Books(old(repo.catalog)) || Needed(old(repo.Value()), book))
      ensures reply != Removed ==> reply.Failed? && repo.Value() == old(repo.Value())
      ensures (repo.Value(), reply) == DoRemoveBook(old(repo.Value()), m, user, book)
    {
      RemoveBookKeeps(repo.Value(), m, user, book);
      RemoveBookReplies(repo.Value(), m, user, book);
      var entry := FindEntry(repo.catalog, book);
      if entry.None? {
        return Failed(BookNotFound);
      }
      if !IsPrivileged(m, user) && entry.value.suggester != user {
        return Failed(Unauthorized);
      }
      var active := repo.FindActiveByClubId();
      if active.Some? && LockedBy(repo.rounds[active.value], book) {
        return Failed(BookLockedInActiveRound);
      }
      repo.DeleteEntry(book);
      return Removed;
    }
  }
}
