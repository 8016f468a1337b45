/** External book search of services/book.py: pages cut out of provider chunks, sorted and cached chunk by chunk. */
module Paging {

  import Sorting

  type Book = nat
  type Provider = nat
  type Time = int

  datatype Option<T> = None | Some(value: T)

  const MAX_PROVIDER_CHUNK := 40
  const CACHE_SECONDS := 300

  // ---- Chunk arithmetic ------------------------------------------------------------------------

  /** `math.ceil` of the quotient. */
  function ChunkPage(page: nat, limit: nat): nat
    requires page >= 1 && limit >= 1
  {
    Positive(page, limit);
    (page * limit + MAX_PROVIDER_CHUNK - 1) / MAX_PROVIDER_CHUNK
  }

  /** It is the one chunk that reaches to the page's end and is needed for it. */
  lemma ChunkReachesPageEnd(page: nat, limit: nat, c: nat)
    requires page >= 1 && limit >= 1
    ensures ChunkPage(page, limit) == c
       <==> (c - 1) * MAX_PROVIDER_CHUNK < page * limit <= c * MAX_PROVIDER_CHUNK
  {
  }

  lemma Positive(a: nat, b: nat)
    requires a >= 1 && b >= 1
    ensures a * b >= 1
  {
  }

  function ChunkStart(page: nat, limit: nat): nat
    requires page >= 1 && limit >= 1
  {
    Positive(page, limit);
    (ChunkPage(page, limit) - 1) * MAX_PROVIDER_CHUNK
  }

  function SliceStart(page: nat, limit: nat): nat
    requires page >= 1 && limit >= 1
  {
    Positive(page, limit);
    ((page - 1) * limit) % MAX_PROVIDER_CHUNK
  }

  /** Python's slice: past the end there is nothing. */
  function Slice<T>(s: seq<T>, from: nat, until: nat): seq<T>
    requires from <= until
  {
    s[if from < |s| then from else |s|..if until < |s| then until else |s|]
  }

  function PageOf<T>(books: seq<T>, page: nat, limit: nat): seq<T>
    requires page >= 1 && limit >= 1
  {
    Slice(books, SliceStart(page, limit), SliceStart(page, limit) + limit)
  }

  /** The page is cut out at its place: chunk and slice together start where the pages before it end, and the page
      lies within its chunk. */
  ghost predicate InPlace(page: nat, limit: nat)
    requires page >= 1 && limit >= 1
  {
    && ChunkStart(page, limit) + SliceStart(page, limit) == (page - 1) * limit
    && SliceStart(page, limit) + limit <= MAX_PROVIDER_CHUNK
  }

  lemma CeilingAndRemainder(x: nat, limit: nat, c: nat)
    requires limit >= 1 && c >= 1
    requires (c - 1) * MAX_PROVIDER_CHUNK < x + limit <= c * MAX_PROVIDER_CHUNK
    ensures x % MAX_PROVIDER_CHUNK + limit <= MAX_PROVIDER_CHUNK
       <==> (c - 1) * MAX_PROVIDER_CHUNK + x % MAX_PROVIDER_CHUNK == x
            && x % MAX_PROVIDER_CHUNK + limit <= MAX_PROVIDER_CHUNK
  {
  }

  /** A page is in place exactly when it does not reach over the end of the chunk it starts in. */
  lemma InPlaceIffInsideChunk(page: nat, limit: nat)
    requires page >= 1 && limit >= 1
    ensures InPlace(page, limit) <==> SliceStart(page, limit) + limit <= MAX_PROVIDER_CHUNK
  {
    Positive(page, limit);
    var x := (page - 1) * limit;
    assert x + limit == page * limit;
    ChunkReachesPageEnd(page, limit, ChunkPage(page, limit));
    CeilingAndRemainder(x, limit, ChunkPage(page, limit));
  }

  ghost predicate AllInPlace(limit: nat)
    requires limit >= 1
  {
    forall page: nat {:trigger InPlace(page, limit)} :: page >= 1 ==> InPlace(page, limit)
  }

  lemma Spread(q: nat, m: nat, r: nat, limit: nat)
    ensures (q * m + r) * limit == q * (m * limit) + r * limit
  {
  }

  lemma BelowChunk(r: nat, m: nat, limit: nat)
    requires r < m && limit >= 1
    ensures 0 <= r * limit < m * limit
  {
    assert (r + 1) * limit <= m * limit;
  }

  lemma {:induction false} MultipleRemainder(p: nat, limit: nat, m: nat)
    requires m * limit == MAX_PROVIDER_CHUNK && m >= 1 && limit >= 1
    ensures (p * limit) % MAX_PROVIDER_CHUNK == (p % m) * limit
  {
    var q, r := p / m, p % m;
    assert p == q * m + r;
    Spread(q, m, r, limit);
    BelowChunk(r, m, limit);
    Wrapped(q, r * limit);
  }

  lemma Wrapped(q: nat, r: nat)
    requires r < MAX_PROVIDER_CHUNK
    ensures (q * MAX_PROVIDER_CHUNK + r) % MAX_PROVIDER_CHUNK == r
  {
  }

  lemma DividingLimitIsInPlace(page: nat, limit: nat, m: nat)
    requires page >= 1 && limit >= 1 && m >= 1 && m * limit == MAX_PROVIDER_CHUNK
    ensures SliceStart(page, limit) == ((page - 1) % m) * limit && InPlace(page, limit)
  {
    MultipleRemainder(page - 1, limit, m);
    assert ((page - 1) % m + 1) * limit <= m * limit;
    InPlaceIffInsideChunk(page, limit);
  }

  /** The page that starts in the first chunk and does not end in it. */
  lemma CrossingPage(limit: nat) returns (page: nat)
    requires limit >= 1 && MAX_PROVIDER_CHUNK % limit != 0
    ensures page >= 1 && !InPlace(page, limit)
  {
    var q := MAX_PROVIDER_CHUNK / limit;
    assert q * limit + MAX_PROVIDER_CHUNK % limit == MAX_PROVIDER_CHUNK;
    page := q + 1;
    assert (page - 1) * limit == q * limit < MAX_PROVIDER_CHUNK;
    InPlaceIffInsideChunk(page, limit);
  }

  /** Paging is right for every page exactly when the page size divides the chunk size. */
  lemma AllInPlaceIffDivides(limit: nat)
    requires limit >= 1
    ensures AllInPlace(limit) <==> MAX_PROVIDER_CHUNK % limit == 0
  {
    if MAX_PROVIDER_CHUNK % limit == 0 {
      var m := MAX_PROVIDER_CHUNK / limit;
      assert m * limit == MAX_PROVIDER_CHUNK;
      forall page: nat | page >= 1 ensures InPlace(page, limit) {
        DividingLimitIsInPlace(page, limit, m);
      }
    } else {
      var page := CrossingPage(limit);
    }
  }

  // ---- The pages of one chunk ------------------------------------------------------------------

  /** The first `n` pages of chunk `c`, one after the other. */
  function PagesOfChunk<T>(books: seq<T>, c: nat, limit: nat, m: nat, n: nat): seq<T>
    requires limit >= 1 && m >= 1 && c >= 1
  {
    if n == 0 then []
    else PagesOfChunk(books, c, limit, m, n - 1) + PageOf(books, (c - 1) * m + n, limit)
  }

  /** Those are the pages whose chunk is `c`. */
  lemma PagesInChunk(page: nat, limit: nat, m: nat, c: nat)
    requires page >= 1 && limit >= 1 && m >= 1 && c >= 1 && m * limit == MAX_PROVIDER_CHUNK
    ensures ChunkPage(page, limit) == c <==> (c - 1) * m < page <= c * m
  {
    assert ((c - 1) * m) * limit == (c - 1) * MAX_PROVIDER_CHUNK by { Regroup(c - 1, m, limit); }
    assert (c * m) * limit == c * MAX_PROVIDER_CHUNK by { Regroup(c, m, limit); }
    Order(page, (c - 1) * m, limit);
    Order(page, c * m, limit);
    ChunkReachesPageEnd(page, limit, c);
  }

  lemma Regroup(a: int, b: int, c: int)
    ensures (a * b) * c == a * (b * c)
  {
  }

  lemma Order(a: nat, b: int, c: nat)
    requires c >= 1
    ensures a <= b <==> a * c <= b * c
  {
    if a <= b { assert a * c <= b * c; } else { assert (b + 1) * c <= a * c; }
  }

  lemma NthSlice(c: nat, n: nat, limit: nat, m: nat)
    requires limit >= 1 && m >= 1 && c >= 1 && 1 <= n <= m && m * limit == MAX_PROVIDER_CHUNK
    ensures SliceStart((c - 1) * m + n, limit) == (n - 1) * limit
  {
    var page := (c - 1) * m + n;
    DividingLimitIsInPlace(page, limit, m);
    Remainder(c - 1, m, n - 1);
  }

  lemma NearestMultiple(d: int, m: nat)
    ensures (d >= 1 ==> d * m >= m) && (d <= -1 ==> d * m + m <= 0)
  {
  }

  lemma Remainder(q: nat, m: nat, r: nat)
    requires r < m
    ensures (q * m + r) % m == r
  {
    var x := q * m + r;
    var d := x / m - q;
    assert x == (x / m) * m + x % m;
    assert d * m == r - x % m by { assert (x / m) * m - q * m == d * m; }
    NearestMultiple(d, m);
  }

  function Min(a: nat, b: nat): nat {
    if a < b then a else b
  }

  lemma SlicesJoin<T>(books: seq<T>, from: nat, until: nat)
    requires from <= until
    ensures books[..Min(from, |books|)] + Slice(books, from, until) == books[..Min(until, |books|)]
  {
  }

  /** The first n pages of a chunk are its first n times `limit` books, in the chunk's order. */
  lemma {:induction false} PagesTile<T>(books: seq<T>, c: nat, limit: nat, m: nat, n: nat)
    requires limit >= 1 && m >= 1 && c >= 1 && n <= m && m * limit == MAX_PROVIDER_CHUNK
    ensures PagesOfChunk(books, c, limit, m, n) == books[..Min(n * limit, |books|)]
  {
    if n > 0 {
      PagesTile(books, c, limit, m, n - 1);
      NthSlice(c, n, limit, m);
      assert (n - 1) * limit + limit == n * limit;
      SlicesJoin(books, (n - 1) * limit, n * limit);
    }
  }

  /** The pages of a chunk show every one of its books, once and in order, exactly when it has no more than forty. */
  lemma PagesShowWholeChunk<T>(books: seq<T>, c: nat, limit: nat, m: nat)
    requires limit >= 1 && m >= 1 && c >= 1 && m * limit == MAX_PROVIDER_CHUNK
    ensures PagesOfChunk(books, c, limit, m, m) == books <==> |books| <= MAX_PROVIDER_CHUNK
  {
    PagesTile(books, c, limit, m, m);
    assert |books| > MAX_PROVIDER_CHUNK ==> |books[..MAX_PROVIDER_CHUNK]| < |books|;
  }

  // ---- The search ------------------------------------------------------------------------------

  /** A book found, under the provider that found it. */
  datatype Hit = Hit(provider: Provider, book: Book)

  /** What one provider task came back with: an exception or no dictionary at all, or totals and records, of which
      the malformed ones are None. */
  datatype Response = Nothing | Volumes(total: int, books: seq<Option<Book>>)

  datatype Cached = Corrupt | Chunk(total: int, books: seq<Hit>)

  /** `Criteria` stands for title, author, isbn and languages as they go into the cache key. */
  datatype Criteria = Criteria(id: nat, given: bool)

  datatype Key = Key(criteria: Criteria, chunk: nat)

  datatype Entry = Entry(value: Cached, expiresAt: Time)

  datatype Reply =
    | Page(items: seq<Hit>, total: int, page: nat, limit: nat)
    | CriteriaMissing
    | NotConfigured

  /** One request: `responses` is what the providers would answer now, in their order; `score` says of a book how
      well it matches, an isbn match first. */
  datatype Search = Search(criteria: Criteria, page: nat, limit: nat, providers: seq<Provider>,
                           responses: seq<Response>, isbnMatch: set<Hit>, score: map<Hit, real>)

  predicate Served(q: Search) {
    q.page >= 1 && q.limit >= 1 && |q.responses| == |q.providers|
  }

  function Tagged(provider: Provider, books: seq<Option<Book>>): seq<Hit> {
    if books == [] then []
    else (if books[0].Some? then [Hit(provider, books[0].value)] else []) + Tagged(provider, books[1..])
  }

  function Collected(providers: seq<Provider>, responses: seq<Response>): seq<Hit>
    requires |responses| <= |providers|
  {
    if responses == [] then []
    else
      var n := |responses| - 1;
      Collected(providers, responses[..n])
        + (if responses[n].Volumes? then Tagged(providers[n], responses[n].books) else [])
  }

  function TotalOf(responses: seq<Response>): int {
    if responses == [] then 0
    else
      var n := |responses| - 1;
      TotalOf(responses[..n]) + (if responses[n].Volumes? then responses[n].total else 0)
  }

  function Score(q: Search, h: Hit): real {
    if h in q.score then q.score[h] else 0.0
  }

  /** `a` sorts no later than `b`: isbn matches first, then by score, both descending. */
  predicate NoLater(q: Search, a: Hit, b: Hit) {
    || (a in q.isbnMatch && b !in q.isbnMatch)
    || ((a in q.isbnMatch <==> b in q.isbnMatch) && Score(q, a) >= Score(q, b))
  }

  function Ranked(q: Search): seq<Hit>
    requires Served(q)
  {
    Sorting.Sorted((a, b) => NoLater(q, a, b), Collected(q.providers, q.responses))
  }

  function KeyOf(q: Search): Key
    requires Served(q)
  {
    Key(q.criteria, ChunkPage(q.page, q.limit))
  }

  function PageReply(q: Search, total: int, books: seq<Hit>): Reply
    requires Served(q)
  {
    Page(PageOf(books, q.page, q.limit), total, q.page, q.limit)
  }

  type Cache = map<Key, Entry>

  /** The readable, unexpired chunk under a key. */
  function Lookup(cache: Cache, key: Key, now: Time): Option<Cached> {
    if key in cache && now < cache[key].expiresAt && cache[key].value.Chunk? then Some(cache[key].value) else None
  }

  function DoSearch(cache: Cache, q: Search, now: Time): (Cache, Reply)
    requires Served(q)
  {
    if !q.criteria.given then (cache, CriteriaMissing)
    else if q.providers == [] then (cache, NotConfigured)
    else
      var key := KeyOf(q);
      var hit := Lookup(cache, key, now);
      if hit.Some? then (cache, PageReply(q, hit.value.total, hit.value.books))
      else if Collected(q.providers, q.responses) == [] then (cache, Page([], 0, q.page, q.limit))
      else
        var total, books := TotalOf(q.responses), Ranked(q);
        (cache[key := Entry(Chunk(total, books), now + CACHE_SECONDS)], PageReply(q, total, books))
  }

  /** The service and its cache, updated in place. */
  class BookService {
    var cache: Cache

    constructor ()
      ensures cache == map[]
    {
      cache := map[];
    }

    method Tag(provider: Provider, books: seq<Option<Book>>) returns (hits: seq<Hit>)
      ensures hits == Tagged(provider, books)
    {
      hits := [];
      var i := 0;
      while i < |books|
        invariant 0 <= i <= |books|
        invariant hits + Tagged(provider, books[i..]) == Tagged(provider, books)
      {
        assert books[i..][0] == books[i] && books[i..][1..] == books[i + 1..];
        if books[i].Some? {
          hits := hits + [Hit(provider, books[i].value)];
        }
        i := i + 1;
      }
    }

    method AggregateProviderResults(providers: seq<Provider>, responses: seq<Response>)
      returns (raw: seq<Hit>, total: int)
      requires |responses| == |providers|
      ensures raw == Collected(providers, responses) && total == TotalOf(responses)
    {
      raw, total := [], 0;
      for i := 0 to |responses|
        invariant raw == Collected(providers, responses[..i]) && total == TotalOf(responses[..i])
      {
        assert responses[..i + 1][..i] == responses[..i];
        if responses[i].Volumes? {
          total := total + responses[i].total;
          var hits := Tag(providers[i], responses[i].books);
          raw := raw + hits;
        }
      }
      assert responses[..|responses|] == responses;
    }

    method SearchExternalBooks(q: Search, now: Time) returns (reply: Reply)
      requires Served(q)
      modifies this
      ensures (cache, reply) == DoSearch(old(cache), q, now)
    {
      if !q.criteria.given {
        return CriteriaMissing;
      }
      if q.providers == [] {
        return NotConfigured;
      }
      var key := KeyOf(q);
      var hit := Lookup(cache, key, now);
      if hit.Some? {
        return PageReply(q, hit.value.total, hit.value.books);
      }
      var raw, total := AggregateProviderResults(q.providers, q.responses);
      if raw == [] {
        return Page([], 0, q.page, q.limit);
      }
      var books := Sorting.Sorted((a, b) => NoLater(q, a, b), raw);
      cache := cache[key := Entry(Chunk(total, books), now + CACHE_SECONDS)];
      return PageReply(q, total, books);
    }
  }

  // ---- What a reply and a key are about --------------------------------------------------------

  /** A reply shows the requested page: its number and size, the total, and from the list, in order, the books from
      the page's place in its chunk on, `limit` of them or what is left. */
  lemma {:induction false} ReplyShowsThePage(q: Search, total: int, books: seq<Hit>)
    requires Served(q)
    ensures var start := ((q.page - 1) * q.limit) % MAX_PROVIDER_CHUNK;
      && PageReply(q, total, books).Page?
      && var Page(items, t, page, limit) := PageReply(q, total, books);
      && t == total && page == q.page && limit == q.limit
      && |items| == (if |books| <= start then 0 else if |books| - start < q.limit then |books| - start else q.limit)
      && forall i :: 0 <= i < |items| ==> items[i] == books[start + i]
  {
    Positive(q.page, q.limit);
  }

  /** When a search replies what, and when it saves: a miss that found something is ranked, saved for five minutes and
      shown; everything else leaves the cache alone. */
  lemma {:induction false} SearchReplies(cache: Cache, q: Search, now: Time)
    requires Served(q)
    ensures var (cache', reply) := DoSearch(cache, q, now);
      && (reply == CriteriaMissing <==> !q.criteria.given)
      && (reply == NotConfigured <==> q.criteria.given && q.providers == [])
      && (reply.Page? ==>
            match Lookup(cache, KeyOf(q), now)
            case Some(chunk) => reply == PageReply(q, chunk.total, chunk.books) && cache' == cache
            case None =>
              var raw := Collected(q.providers, q.responses);
              if raw == [] then reply.items == [] && reply.total == 0 && cache' == cache
              else
                && reply == PageReply(q, TotalOf(q.responses), Ranked(q))
                && KeyOf(q) in cache' && cache' == cache[KeyOf(q) := cache'[KeyOf(q)]]
                && Lookup(cache', KeyOf(q), now + CACHE_SECONDS - 1) == Some(Chunk(TotalOf(q.responses), Ranked(q)))
                && Lookup(cache', KeyOf(q), now + CACHE_SECONDS).None?)
      && (!reply.Page? ==> cache' == cache)
  {
  }

  /** The total is the sum of what the providers that answered say. */
  lemma {:induction false} TotalAddsUp(responses: seq<Response>, r: Response)
    ensures TotalOf([]) == 0
    ensures TotalOf(responses + [r]) == TotalOf(responses) + if r.Volumes? then r.total else 0
  {
    assert (responses + [r])[..|responses|] == responses;
  }

  /** The pages' last books stand in the same run of forty. */
  ghost predicate SameChunk(q: Search, q': Search)
    requires Served(q) && Served(q')
  {
    exists c :: (c - 1) * MAX_PROVIDER_CHUNK < q.page * q.limit <= c * MAX_PROVIDER_CHUNK
                && (c - 1) * MAX_PROVIDER_CHUNK < q'.page * q'.limit <= c * MAX_PROVIDER_CHUNK
  }

  /** Two searches share a cached list exactly if they ask for the same and their pages end in the same chunk. */
  lemma {:induction false} KeysTellChunksApart(q: Search, q': Search)
    requires Served(q) && Served(q')
    ensures KeyOf(q) == KeyOf(q') <==> q.criteria == q'.criteria && SameChunk(q, q')
  {
    var c, c' := ChunkPage(q.page, q.limit), ChunkPage(q'.page, q'.limit);
    ChunkReachesPageEnd(q.page, q.limit, c);
    ChunkReachesPageEnd(q'.page, q'.limit, c');
    if SameChunk(q, q') {
      var k :| (k - 1) * MAX_PROVIDER_CHUNK < q.page * q.limit <= k * MAX_PROVIDER_CHUNK
               && (k - 1) * MAX_PROVIDER_CHUNK < q'.page * q'.limit <= k * MAX_PROVIDER_CHUNK;
      Positive(q.page, q.limit);
      ChunkReachesPageEnd(q.page, q.limit, k);
      ChunkReachesPageEnd(q'.page, q'.limit, k);
    }
  }

  /** Provider number `i` answered with a well-formed record of the book. */
  predicate FoundBy(providers: seq<Provider>, responses: seq<Response>, i: int, h: Hit)
    requires |responses| <= |providers|
  {
    0 <= i < |responses| && responses[i].Volumes? && h.provider == providers[i] && Some(h.book) in responses[i].books
  }

  /** Collected are exactly the well-formed records of the providers that answered, each under its provider. */
  lemma {:induction false} CollectedExactly(providers: seq<Provider>, responses: seq<Response>, h: Hit)
    requires |responses| <= |providers|
    ensures h in Collected(providers, responses) <==> exists i :: FoundBy(providers, responses, i, h)
  {
    if responses != [] {
      var n := |responses| - 1;
      CollectedExactly(providers, responses[..n], h);
      if responses[n].Volumes? {
        TaggedExactly(providers[n], responses[n].books, h);
      }
      FoundByMore(providers, responses, h);
    }
  }

  lemma {:induction false} FoundByMore(providers: seq<Provider>, responses: seq<Response>, h: Hit)
    requires responses != [] && |responses| <= |providers|
    ensures var n := |responses| - 1;
      (exists i :: FoundBy(providers, responses, i, h))
      <==> (exists i :: FoundBy(providers, responses[..n], i, h)) || FoundBy(providers, responses, n, h)
  {
    var n := |responses| - 1;
    if i: nat :| FoundBy(providers, responses[..n], i, h) {
      assert FoundBy(providers, responses, i, h);
    }
    if i: nat :| FoundBy(providers, responses, i, h) {
      assert i < n ==> FoundBy(providers, responses[..n], i, h);
    }
  }

  lemma {:induction false} TaggedExactly(provider: Provider, books: seq<Option<Book>>, h: Hit)
    ensures h in Tagged(provider, books) <==> h.provider == provider && Some(h.book) in books
  {
    if books != [] {
      TaggedExactly(provider, books[1..], h);
      assert books == [books[0]] + books[1..];
    }
  }

  // ---- What a cached chunk is worth ------------------------------------------------------------

  datatype Event = Event(search: Search, at: Time)

  function Execute(cache: Cache, events: seq<Event>): Cache
    requires forall i :: 0 <= i < |events| ==> Served(events[i].search)
    decreases |events|
  {
    if events == [] then cache
    else
      var last := events[|events| - 1];
      DoSearch(Execute(cache, events[..|events| - 1]), last.search, last.at).0
  }

  lemma {:induction false} ChunkStays(cache: Cache, events: seq<Event>, key: Key, entry: Entry)
    requires forall i :: 0 <= i < |events| ==> Served(events[i].search) && events[i].at < entry.expiresAt
    requires key in cache && cache[key] == entry && entry.value.Chunk?
    ensures key in Execute(cache, events) && Execute(cache, events)[key] == entry
    decreases |events|
  {
    if events != [] {
      ChunkStays(cache, events[..|events| - 1], key, entry);
    }
  }

  /** For five minutes after a miss that found something, whatever else is searched and whatever the providers would
      now answer, every page of that chunk, of any size, is cut from the list the miss ranked; the page of the miss
      itself is the same page again. */
  lemma {:induction false} HitEqualsMiss(cache: Cache, q: Search, now: Time, events: seq<Event>,
                                         q': Search, later: Time)
    requires Served(q) && Served(q') && q.criteria.given && q.providers != [] && q'.providers != []
    requires Lookup(cache, KeyOf(q), now).None? && Collected(q.providers, q.responses) != []
    requires forall i :: 0 <= i < |events| ==> Served(events[i].search) && events[i].at < now + CACHE_SECONDS
    requires KeyOf(q') == KeyOf(q) && later < now + CACHE_SECONDS
    ensures var (filled, first) := DoSearch(cache, q, now);
      var (same, again) := DoSearch(Execute(filled, events), q', later);
      && same == Execute(filled, events)
      && again == PageReply(q', TotalOf(q.responses), Ranked(q))
      && (q'.page == q.page && q'.limit == q.limit ==> again == first)
  {
    var filled := DoSearch(cache, q, now).0;
    ChunkStays(filled, events, KeyOf(q), filled[KeyOf(q)]);
  }

  /** A miss ranks what the providers found: every record once, isbn matches before the others, higher scores first,
      and records that tie in the order they came in. */
  lemma RankedIsSorted(q: Search, i: nat, j: nat)
    requires Served(q) && i < j < |Ranked(q)|
    ensures NoLater(q, Ranked(q)[i], Ranked(q)[j])
    ensures multiset(Ranked(q)) == multiset(Collected(q.providers, q.responses))
  {
    Sorting.SortedInOrder((a, b) => NoLater(q, a, b), Collected(q.providers, q.responses));
  }

  // ---- Searches that overlap -------------------------------------------------------------------

  /** The cache, and the searches that have missed it and ranked what they fetched but not saved it yet. */
  datatype Desk = Desk(cache: Cache, fetched: seq<Search>)

  /** A search reads the cache when it is asked; a miss saves its chunk at some later moment. */
  datatype Move = Ask(search: Search, at: Time) | Save(k: nat, at: Time)

  predicate Fetches(cache: Cache, q: Search, at: Time) {
    && Served(q) && q.criteria.given && q.providers != []
    && Lookup(cache, KeyOf(q), at).None? && Collected(q.providers, q.responses) != []
  }

  function ChunkOf(q: Search): Cached
    requires Served(q)
  {
    Chunk(TotalOf(q.responses), Ranked(q))
  }

  /** One move, and the reply it gives to the search it belongs to, if any. */
  function Act(d: Desk, move: Move): (Desk, Option<Reply>) {
    match move
    case Ask(q, at) =>
      if !Served(q) then (d, None)
      else if Fetches(d.cache, q, at) then (d.(fetched := d.fetched + [q]), None)
      else (d, Some(Unfetched(d.cache, q, at)))
    case Save(k, at) =>
      if k < |d.fetched| && Served(d.fetched[k]) then
        var q := d.fetched[k];
        (Desk(d.cache[KeyOf(q) := Entry(ChunkOf(q), at + CACHE_SECONDS)], d.fetched[..k] + d.fetched[k + 1..]),
         Some(PageReply(q, TotalOf(q.responses), Ranked(q))))
      else (d, None)
  }

  /** The reply of a search that has nothing to save. */
  function Unfetched(cache: Cache, q: Search, at: Time): Reply
    requires Served(q)
  {
    if !q.criteria.given then CriteriaMissing
    else if q.providers == [] then NotConfigured
    else
      match Lookup(cache, KeyOf(q), at)
      case Some(chunk) => PageReply(q, chunk.total, chunk.books)
      case None => Page([], 0, q.page, q.limit)
  }

  /** A search that nothing comes between is `DoSearch`: its one or two moves leave the same cache and give the same
      reply. */
  lemma AloneIsDoSearch(d: Desk, q: Search, at: Time)
    requires Served(q)
    ensures var (asked, reply) := Act(d, Ask(q, at));
      var (saved, late) := Act(asked, Save(|d.fetched|, at));
      var (cache, answer) := DoSearch(d.cache, q, at);
      if reply.Some? then asked == d.(cache := cache) && reply == Some(answer)
      else saved == d.(cache := cache) && late == Some(answer)
  {
    assert (d.fetched + [q])[..|d.fetched|] + [] == d.fetched;
  }

  function Play(moves: seq<Move>): Desk
    decreases |moves|
  {
    if moves == [] then Desk(map[], []) else Act(Play(moves[..|moves| - 1]), moves[|moves| - 1]).0
  }

  /** The search whose chunk the move saves, and when. */
  function SavedBy(d: Desk, move: Move): Option<Event> {
    if move.Save? && move.k < |d.fetched| && Served(d.fetched[move.k]) then Some(Event(d.fetched[move.k], move.at)) else None
  }

  predicate SavesUnder(d: Desk, move: Move, key: Key) {
    SavedBy(d, move).Some? && KeyOf(SavedBy(d, move).value.search) == key
  }

  /** The latest save under a key. */
  function LastSave(moves: seq<Move>, key: Key): (e: Option<Event>)
    ensures e.Some? ==> Served(e.value.search) && KeyOf(e.value.search) == key
    decreases |moves|
  {
    if moves == [] then None
    else
      var d, move := Play(moves[..|moves| - 1]), moves[|moves| - 1];
      if SavesUnder(d, move, key) then SavedBy(d, move) else LastSave(moves[..|moves| - 1], key)
  }

  /** The cache has the chunk of the search that saved last, or nothing under the key. */
  ghost predicate Holds(cache: Cache, key: Key, last: Option<Event>)
    requires last.Some? ==> Served(last.value.search)
  {
    if last.None? then key !in cache
    else key in cache && cache[key] == Entry(ChunkOf(last.value.search), last.value.at + CACHE_SECONDS)
  }

  lemma {:induction false} PutHolds(cache: Cache, at: Key, saved: Event, key: Key, last: Option<Event>)
    requires Served(saved.search) && (last.Some? ==> Served(last.value.search))
    requires Holds(cache, key, last)
    ensures Holds(cache[at := Entry(ChunkOf(saved.search), saved.at + CACHE_SECONDS)], key,
                  if at == key then Some(saved) else last)
  {
  }

  lemma {:induction false} ActHolds(d: Desk, move: Move, key: Key, last: Option<Event>)
    requires last.Some? ==> Served(last.value.search)
    requires Holds(d.cache, key, last)
    ensures Holds(Act(d, move).0.cache, key, if SavesUnder(d, move, key) then SavedBy(d, move) else last)
  {
    var saved := SavedBy(d, move);
    if saved.Some? {
      PutHolds(d.cache, KeyOf(saved.value.search), saved.value, key, last);
    }
  }

  lemma {:induction false} CacheHoldsLastSave(moves: seq<Move>, key: Key)
    ensures Holds(Play(moves).cache, key, LastSave(moves, key))
    decreases |moves|
  {
    if moves != [] {
      var init := moves[..|moves| - 1];
      CacheHoldsLastSave(init, key);
      ActHolds(Play(init), moves[|moves| - 1], key, LastSave(init, key));
    }
  }

  /** However searches overlap: what a key gives at `now` is exactly the list ranked by the last search to save under
      it, for five minutes from that save, and nothing otherwise; so every page cut from it in that time is cut from
      that one list. */
  lemma {:induction false} HitIsTheLastSave(moves: seq<Move>, key: Key, now: Time)
    ensures var last := LastSave(moves, key);
      Lookup(Play(moves).cache, key, now) ==
        if last.Some? && now < last.value.at + CACHE_SECONDS then Some(ChunkOf(last.value.search)) else None
  {
    CacheHoldsLastSave(moves, key);
  }

  lemma {:induction false} LastSaveSnoc(moves: seq<Move>, move: Move, key: Key)
    ensures LastSave(moves + [move], key)
      == if SavesUnder(Play(moves), move, key) then SavedBy(Play(moves), move) else LastSave(moves, key)
  {
    assert (moves + [move])[..|moves|] == moves;
  }

  lemma JoinSnoc<T>(a: seq<T>, b: seq<T>)
    requires b != []
    ensures a + b == a + b[..|b| - 1] + [b[|b| - 1]]
  {
  }

  /** Nothing is saved under the key. */
  predicate NoSaveOf(before: seq<Move>, moves: seq<Move>, key: Key)
    decreases |moves|
  {
    moves == [] ||
    var k := |moves| - 1;
    NoSaveOf(before, moves[..k], key) && !SavesUnder(Play(before + moves[..k]), moves[k], key)
  }

  /** Pages agree until the next save: with none under their key in between, two hits are cut from one list. */
  lemma {:induction false} PagesAgreeUntilNextSave(before: seq<Move>, moves: seq<Move>, key: Key)
    requires NoSaveOf(before, moves, key)
    ensures LastSave(before + moves, key) == LastSave(before, key)
    decreases |moves|
  {
    if moves == [] {
      assert before + moves == before;
    } else {
      var k := |moves| - 1;
      PagesAgreeUntilNextSave(before, moves[..k], key);
      LastSaveSnoc(before + moves[..k], moves[k], key);
      JoinSnoc(before, moves);
    }
  }

  lemma {:induction false} PlaySnoc(moves: seq<Move>, move: Move)
    ensures Play(moves + [move]) == Act(Play(moves), move).0
  {
    assert (moves + [move])[..|moves|] == moves;
  }

  lemma {:induction false} SaveReplies(d: Desk, q: Search, at: Time)
    requires d.fetched != [] && d.fetched[0] == q && Served(q)
    ensures var (d', reply) := Act(d, Save(0, at));
      && reply == Some(PageReply(q, TotalOf(q.responses), Ranked(q)))
      && d'.fetched == d.fetched[1..]
      && d'.cache == d.cache[KeyOf(q) := Entry(ChunkOf(q), at + CACHE_SECONDS)]
  {
    assert d.fetched[..0] + d.fetched[1..] == d.fetched[1..];
  }

  lemma {:induction false} HitReplies(d: Desk, q: Search, again: Search, at: Time, now: Time)
    requires Served(q) && Served(again) && again.criteria.given && again.providers != [] && now < at + CACHE_SECONDS
    requires KeyOf(again) in d.cache && d.cache[KeyOf(again)] == Entry(ChunkOf(q), at + CACHE_SECONDS)
    ensures Act(d, Ask(again, now)).1 == Some(PageReply(again, TotalOf(q.responses), Ranked(q)))
  {
  }

  lemma {:induction false} BothFetch(d: Desk, q: Search, q': Search, at: Time)
    requires d.fetched == [] && Fetches(d.cache, q, at) && Fetches(d.cache, q', at)
    ensures Act(Act(d, Ask(q, at)).0, Ask(q', at)).0 == d.(fetched := [q, q'])
  {
  }

  /** Two searches that miss on one key overwrite each other: each answers from its own list, and every page asked for
      afterwards is cut from the list saved last. */
  lemma {:induction false} OverlappingMissesOverwrite(moves: seq<Move>, q: Search, q': Search, at: Time, later: Time,
                                                      again: Search, now: Time)
    requires Play(moves).fetched == [] && Fetches(Play(moves).cache, q, at) && Fetches(Play(moves).cache, q', at)
    requires KeyOf(q') == KeyOf(q) && now < later + CACHE_SECONDS
    requires Served(again) && again.criteria.given && again.providers != [] && KeyOf(again) == KeyOf(q)
    ensures var asked := Play(moves + [Ask(q, at)] + [Ask(q', at)]);
      var (once, first) := Act(asked, Save(0, at));
      var (twice, second) := Act(once, Save(0, later));
      && first == Some(PageReply(q, TotalOf(q.responses), Ranked(q)))
      && second == Some(PageReply(q', TotalOf(q'.responses), Ranked(q')))
      && (now < at + CACHE_SECONDS ==>
            Act(once, Ask(again, now)).1 == Some(PageReply(again, TotalOf(q.responses), Ranked(q))))
      && Act(twice, Ask(again, now)).1 == Some(PageReply(again, TotalOf(q'.responses), Ranked(q')))
  {
    PlaySnoc(moves, Ask(q, at));
    PlaySnoc(moves + [Ask(q, at)], Ask(q', at));
    BothFetch(Play(moves), q, q', at);
    var asked := Play(moves).(fetched := [q, q']);
    SaveReplies(asked, q, at);
    var once := Act(asked, Save(0, at)).0;
    SaveReplies(once, q', later);
    if now < at + CACHE_SECONDS {
      HitReplies(once, q, again, at, now);
    }
    HitReplies(Act(once, Save(0, later)).0, q', again, later, now);
  }
}
