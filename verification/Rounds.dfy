/** Reading rounds and the catalog of one club: services/round.py and services/catalog.py over their repositories.

    A step is one service call, run to its end.  Who belongs to the club, the weights and the random choice are
    whatever they are at that moment: they come with the call. */
module Rounds {

  import opened Weighting
  import Club
  import RoundCompletion

  datatype Status = SETUP | VOTING | DECIDED | CONCLUDED

  datatype SelectionMode = RANDOM | CURATED

  datatype ResolutionMethod = DRAW | VOTE

  /** A round document together with the users whose completion of it is on record; every completion carries the
      round's book. */
  datatype Round = Round(status: Status, pool: seq<Book>, book: Option<Book>, finished: set<User>)

  /** The rounds in the order they were saved, and the catalog in the order its entries were added. */
  datatype State = State(rounds: seq<Round>, catalog: seq<Entry>)

  /** The active members with their roles, and whether the club takes suggestions. */
  datatype Membership = Membership(roles: map<User, Club.Role>, suggestionsAllowed: bool)

  datatype Call =
    | Start(caller: User, mode: SelectionMode, weights: map<Book, real>, luck: Luck)
    | Finalize(caller: User, how: ResolutionMethod, weights: map<Book, real>, luck: Luck)
    | MarkFinished(caller: User)
    | Suggest(user: User, book: Book)
    | RemoveBook(user: User, book: Book)

  datatype Reply =
    | Started(round: Round)
    | Drawn(book: Book)
    | VotingOpened
    | Completed(isNew: bool, concluded: bool)
    | Suggested
    | AlreadyExists
    | Removed
    | Failed(error: Error)

  datatype Error =
    | Unauthorized
    | ActiveRoundAlreadyExists
    | NoEligibleCatalog
    | RoundNotFound
    | RoundAlreadyFinalized
    | BookNotFound
    | BookLockedInActiveRound
    | SuggestionsClosed
    | NothingToDraw

  // ---- Reading the documents -------------------------------------------------------------------

  predicate IsActive(r: Round) {
    r.status != CONCLUDED
  }

  /** `find_active_by_club_id`: the first active round. */
  function FindActive(rounds: seq<Round>): (i: Option<nat>)
    ensures i.Some? ==> i.value < |rounds| && IsActive(rounds[i.value])
    ensures i.Some? ==> forall j :: 0 <= j < i.value ==> !IsActive(rounds[j])
    ensures i.None? ==> forall j :: 0 <= j < |rounds| ==> !IsActive(rounds[j])
  {
    if rounds == [] then None
    else if IsActive(rounds[0]) then Some(0)
    else
      var rest := FindActive(rounds[1..]);
      assert forall j :: 1 <= j < |rounds| ==> rounds[j] == rounds[1..][j - 1];
      if rest.None? then None else Some(rest.value + 1)
  }

  /** The entry of a book, if it is in the catalog. */
  function FindEntry(catalog: seq<Entry>, b: Book): (e: Option<Entry>)
    ensures e.Some? ==> e.value in catalog && e.value.book == b
    ensures e.None? ==> b !in Books(catalog)
  {
    if catalog == [] then None
    else if catalog[0].book == b then Some(catalog[0])
    else
      assert catalog == [catalog[0]] + catalog[1..];
      FindEntry(catalog[1..], b)
  }

  /** The entries whose books are among `books`, in order. */
  function OfBooks(catalog: seq<Entry>, books: set<Book>): (r: seq<Entry>)
    ensures forall e :: e in r <==> e in catalog && e.book in books
  {
    if catalog == [] then []
    else
      assert catalog == [catalog[0]] + catalog[1..];
      (if catalog[0].book in books then [catalog[0]] else []) + OfBooks(catalog[1..], books)
  }

  /** More than half of those who finished the round are members today. */
  predicate MajorityStays(r: Round, members: set<User>) {
    2 * |r.finished * members| > |r.finished|
  }

  /** `find_majority_excluded_book_ids`. */
  function Excluded(rounds: seq<Round>, members: set<User>): set<Book> {
    set r | r in rounds && r.book.Some? && MajorityStays(r, members) :: r.book.value
  }

  function Eligible(s: State, members: set<User>): seq<Entry> {
    OfBooks(s.catalog, Books(s.catalog) - Excluded(s.rounds, members))
  }

  predicate IsPrivileged(m: Membership, u: User) {
    u in m.roles && (m.roles[u] == Club.OWNER || m.roles[u] == Club.ADMIN)
  }

  function PoolBooks(pool: seq<Book>): set<Book> {
    set b | b in pool
  }

  predicate LockedBy(r: Round, b: Book) {
    r.book == Some(b) || b in r.pool
  }

  // ---- The service calls -----------------------------------------------------------------------

  /** The round started from the eligible entries; None if the draw raises. */
  function NewRound(eligible: seq<Entry>, mode: SelectionMode, weights: map<Book, real>, luck: Luck): Option<Round>
    requires eligible != []
  {
    if |eligible| == 1 then Some(Round(DECIDED, [], Some(eligible[0].book), {}))
    else if mode == RANDOM then
      var book := WeightedDraw(eligible, weights, luck);
      if book.None? then None else Some(Round(DECIDED, [], book, {}))
    else Some(Round(SETUP, SelectTopNPool(eligible, weights, POOL_MAX), None, {}))
  }

  function DoStart(s: State, m: Membership, caller: User, mode: SelectionMode, weights: map<Book, real>, luck: Luck)
    : (State, Reply)
  {
    var eligible := Eligible(s, m.roles.Keys);
    if !IsPrivileged(m, caller) then (s, Failed(Unauthorized))
    else if FindActive(s.rounds).Some? then (s, Failed(ActiveRoundAlreadyExists))
    else if eligible == [] then (s, Failed(NoEligibleCatalog))
    else
      match NewRound(eligible, mode, weights, luck)
      case None => (s, Failed(NothingToDraw))
      case Some(r) => (s.(rounds := s.rounds + [r]), Started(r))
  }

  /** The compare-and-set of the repository: a round that is still being set up gets its status, and its book. */
  function Settle(rounds: seq<Round>, i: nat, status: Status, book: Option<Book>): Option<seq<Round>>
    requires i < |rounds|
  {
    if rounds[i].status != SETUP then None
    else Some(rounds[i := rounds[i].(status := status, book := if book.Some? then book else rounds[i].book)])
  }

  function DoFinalize(s: State, m: Membership, caller: User, how: ResolutionMethod, weights: map<Book, real>, luck: Luck)
    : (State, Reply)
  {
    var active := FindActive(s.rounds);
    if !IsPrivileged(m, caller) then (s, Failed(Unauthorized))
    else if active.None? then (s, Failed(RoundNotFound))
    else if s.rounds[active.value].status != SETUP then (s, Failed(RoundAlreadyFinalized))
    else if how == VOTE then
      match Settle(s.rounds, active.value, VOTING, None)
      case None => (s, Failed(RoundAlreadyFinalized))
      case Some(rounds) => (s.(rounds := rounds), VotingOpened)
    else
      match WeightedDraw(OfBooks(s.catalog, PoolBooks(s.rounds[active.value].pool)), weights, luck)
      case None => (s, Failed(NothingToDraw))
      case Some(book) =>
        match Settle(s.rounds, active.value, DECIDED, Some(book))
        case None => (s, Failed(RoundAlreadyFinalized))
        case Some(rounds) => (s.(rounds := rounds), Drawn(book))
  }

  /** `record_completion` on the round, run alone. */
  function Complete(r: Round, user: User, members: set<User>): (Round, RoundCompletion.Reply) {
    var status := if r.status == DECIDED then RoundCompletion.Decided else RoundCompletion.Concluded;
    var (db, reply) := RoundCompletion.Record(RoundCompletion.Db(status, RoundCompletion.None, r.finished, 0),
                                              RoundCompletion.Call(user, members));
    (r.(finished := db.finished, status := if reply.roundConcluded then CONCLUDED else r.status), reply)
  }

  function DoMarkFinished(s: State, m: Membership, caller: User): (State, Reply) {
    var active := FindActive(s.rounds);
    if caller !in m.roles then (s, Failed(Unauthorized))
    else if active.None? || s.rounds[active.value].status != DECIDED then (s, Failed(RoundNotFound))
    else
      var (r, reply) := Complete(s.rounds[active.value], caller, m.roles.Keys);
      (s.(rounds := s.rounds[active.value := r]), Completed(reply.isNew, reply.roundConcluded))
  }

  function DoSuggest(s: State, m: Membership, user: User, book: Book, now: Time): (State, Reply) {
    if user !in m.roles then (s, Failed(Unauthorized))
    else if !m.suggestionsAllowed then (s, Failed(SuggestionsClosed))
    else if book in Books(s.catalog) then (s, AlreadyExists)
    else (s.(catalog := s.catalog + [Entry(book, user, now)]), Suggested)
  }

  function DoRemoveBook(s: State, m: Membership, user: User, book: Book): (State, Reply) {
    var entry, active := FindEntry(s.catalog, book), FindActive(s.rounds);
    if entry.None? then (s, Failed(BookNotFound))
    else if !IsPrivileged(m, user) && entry.value.suggester != user then (s, Failed(Unauthorized))
    else if active.Some? && LockedBy(s.rounds[active.value], book) then (s, Failed(BookLockedInActiveRound))
    else (s.(catalog := OfBooks(s.catalog, Books(s.catalog) - {book})), Removed)
  }

  function Serve(s: State, m: Membership, call: Call, now: Time): (State, Reply) {
    match call
    case Start(caller, mode, weights, luck) => DoStart(s, m, caller, mode, weights, luck)
    case Finalize(caller, how, weights, luck) => DoFinalize(s, m, caller, how, weights, luck)
    case MarkFinished(caller) => DoMarkFinished(s, m, caller)
    case Suggest(user, book) => DoSuggest(s, m, user, book, now)
    case RemoveBook(user, book) => DoRemoveBook(s, m, user, book)
  }

  // ---- The stored documents, updated in place --------------------------------------------------

  /** The rounds and the catalog of one club. */
  class Repository {
    var rounds: seq<Round>
    var catalog: seq<Entry>

    function Value(): State
      reads this
    {
      State(rounds, catalog)
    }

    constructor ()
      ensures Value() == State([], [])
    {
      rounds, catalog := [], [];
    }

    method FindActiveByClubId() returns (active: Option<nat>)
      ensures active == FindActive(rounds)
    {
      var i := 0;
      while i < |rounds|
        invariant 0 <= i <= |rounds|
        invariant forall j :: 0 <= j < i ==> !IsActive(rounds[j])
      {
        if IsActive(rounds[i]) {
          return Some(i);
        }
        i := i + 1;
      }
      return None;
    }

    method SaveNewRound(r: Round)
      modifies this`rounds
      ensures rounds == old(rounds) + [r]
    {
      rounds := rounds + [r];
    }

    /** The status guard is part of the update: whoever reads SETUP, only the first to write changes the round, and
        nothing else is ever touched. */
    method FinalizeWithDraw(i: nat, book: Book) returns (changed: bool)
      requires i < |rounds|
      modifies this`rounds
      ensures changed <==> old(rounds)[i].status == SETUP
      ensures |rounds| == |old(rounds)|
      ensures changed ==> rounds[i].status == DECIDED && rounds[i].book == Some(book)
      ensures rounds[i].pool == old(rounds)[i].pool
      ensures rounds[i].finished == old(rounds)[i].finished
      ensures forall j :: 0 <= j < |rounds| && (j != i || !changed) ==> rounds[j] == old(rounds)[j]
    {
      changed := rounds[i].status == SETUP;
      if changed {
        rounds := rounds[i := rounds[i].(status := DECIDED, book := Some(book))];
      }
    }

    method FinalizeWithVote(i: nat) returns (changed: bool)
      requires i < |rounds|
      modifies this`rounds
      ensures changed <==> old(rounds)[i].status == SETUP
      ensures |rounds| == |old(rounds)|
      ensures changed ==> rounds[i].status == VOTING && rounds[i].book == old(rounds)[i].book
      ensures rounds[i].pool == old(rounds)[i].pool
      ensures rounds[i].finished == old(rounds)[i].finished
      ensures forall j :: 0 <= j < |rounds| && (j != i || !changed) ==> rounds[j] == old(rounds)[j]
    {
      changed := rounds[i].status == SETUP;
      if changed {
        rounds := rounds[i := rounds[i].(status := VOTING)];
      }
    }

    /** One completion, through the repository's transaction run alone. */
    method RecordCompletion(i: nat, user: User, members: set<User>) returns (reply: RoundCompletion.Reply)
      requires i < |rounds|
      modifies this`rounds
      ensures var (r, answer) := Complete(old(rounds[i]), user, members);
        rounds == old(rounds)[i := r] && reply == answer
    {
      var r := rounds[i];
      var status := if r.status == DECIDED then RoundCompletion.Decided else RoundCompletion.Concluded;
      var store := new RoundCompletion.RoundStore(RoundCompletion.Db(status, RoundCompletion.None, r.finished, 0));
      reply := store.RecordCompletion(RoundCompletion.Call(user, members));
      rounds := rounds[i := r.(finished := store.finished,
                               status := if reply.roundConcluded then CONCLUDED else r.status)];
    }

    /** The unique index on the book refuses a second entry. */
    method AddEntry(e: Entry) returns (added: bool)
      modifies this`catalog
      ensures added == (e.book !in Books(old(catalog)))
      ensures catalog == if added then old(catalog) + [e] else old(catalog)
    {
      added := FindEntry(catalog, e.book).None?;
      if added {
        catalog := catalog + [e];
      }
    }

    /** Takes out the one entry of the book, if there is one. */
    method DeleteEntry(b: Book)
      requires DistinctBooks(catalog)
      modifies this`catalog
      ensures catalog == OfBooks(old(catalog), Books(old(catalog)) - {b})
    {
      var i := 0;
      while i < |catalog| && catalog[i].book != b
        invariant 0 <= i <= |catalog| && forall j :: 0 <= j < i ==> catalog[j].book != b
      {
        i := i + 1;
      }
      TakenOut(catalog, i, b, Books(catalog) - {b});
      if i < |catalog| {
        catalog := catalog[..i] + catalog[i + 1..];
      }
    }
  }

  lemma {:induction false} OfBooksJoin(a: seq<Entry>, b: seq<Entry>, books: set<Book>)
    ensures OfBooks(a + b, books) == OfBooks(a, books) + OfBooks(b, books)
  {
    if a == [] {
      assert a + b == b;
    } else {
      assert (a + b)[1..] == a[1..] + b;
      OfBooksJoin(a[1..], b, books);
    }
  }

  lemma {:induction false} SkipsOther(e: Entry, back: seq<Entry>, others: set<Book>)
    requires e.book !in others
    ensures OfBooks([e] + back, others) == OfBooks(back, others)
  {
    assert ([e] + back)[1..] == back;
  }

  lemma {:induction false} WithoutOne(front: seq<Entry>, e: Entry, back: seq<Entry>, others: set<Book>)
    requires forall x :: x in front ==> x.book in others
    requires forall x :: x in back ==> x.book in others
    requires e.book !in others
    ensures OfBooks(front + ([e] + back), others) == front + back
  {
    OfBooksJoin(front, [e] + back, others);
    SkipsOther(e, back, others);
    KeepsAll(front, others);
    KeepsAll(back, others);
  }

  lemma {:induction false} TakenOut(catalog: seq<Entry>, i: nat, b: Book, others: set<Book>)
    requires DistinctBooks(catalog) && i <= |catalog| && (i < |catalog| ==> catalog[i].book == b)
    requires forall j :: 0 <= j < i ==> catalog[j].book != b
    requires others == Books(catalog) - {b}
    ensures OfBooks(catalog, others) == if i < |catalog| then catalog[..i] + catalog[i + 1..] else catalog
  {
    if i < |catalog| {
      assert catalog == catalog[..i] + ([catalog[i]] + catalog[i + 1..]);
      WithoutOne(catalog[..i], catalog[i], catalog[i + 1..], others);
    } else {
      KeepsAll(catalog, others);
    }
  }

  lemma {:induction false} KeepsAll(catalog: seq<Entry>, books: set<Book>)
    requires forall e :: e in catalog ==> e.book in books
    ensures OfBooks(catalog, books) == catalog
  {
    if catalog != [] {
      assert catalog[0] in catalog && catalog == [catalog[0]] + catalog[1..];
      KeepsAll(catalog[1..], books);
    }
  }
}
