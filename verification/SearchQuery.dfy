/** The clause builder of hoodie/query.py and the one query that hoodie/sync.py sends for a whole snapshot. */
module SearchQueries {

  type DocId = nat

  datatype Option<T> = None | Some(value: T)

  /** An Atlas Search clause; `Nested` wraps a query of its own. */
  datatype Clause =
    | InIds(ids: seq<DocId>)
    | EqualsId(id: DocId)
    | Phrase(path: string, query: string)
    | Nested(compound: Compound)

  /** A `compound` operator; `minimum` is left out when there is no `should` clause. */
  datatype Compound = Compound(
    must: seq<Clause>,
    filter: seq<Clause>,
    mustNot: seq<Clause>,
    should: seq<Clause>,
    minimum: Option<nat>)

  /** An indexed document: its id, and the phrases its analysed fields match. */
  datatype Doc = Doc(id: DocId, phrases: set<(string, string)>)

  // ---- What a query matches --------------------------------------------------------------------

  predicate Matches(d: Doc, c: Clause)
    decreases c
  {
    match c
    case InIds(ids) => d.id in ids
    case EqualsId(id) => d.id == id
    case Phrase(path, query) => (path, query) in d.phrases
    case Nested(q) =>
      && (forall i :: 0 <= i < |q.must| ==> Matches(d, q.must[i]))
      && (forall i :: 0 <= i < |q.filter| ==> Matches(d, q.filter[i]))
      && (forall i :: 0 <= i < |q.mustNot| ==> !Matches(d, q.mustNot[i]))
      && (q.minimum.Some? ==> q.minimum.value <= HowMany(d, q.should))
  }

  function HowMany(d: Doc, clauses: seq<Clause>): nat
    decreases clauses
  {
    if clauses == [] then 0 else (if Matches(d, clauses[0]) then 1 else 0) + HowMany(d, clauses[1..])
  }

  type Index = map<DocId, Doc>

  ghost predicate ValidIndex(index: Index) {
    forall id :: id in index ==> index[id].id == id
  }

  /** The ids that a search returns. */
  function Search(index: Index, q: Compound): set<DocId> {
    set id | id in index && Matches(index[id], Nested(q))
  }

  // ---- The builder -----------------------------------------------------------------------------

  class SearchQuery {
    var must: seq<Clause>
    var filter: seq<Clause>
    var mustNot: seq<Clause>
    var should: seq<Clause>
    var minimumShouldMatch: nat

    constructor ()
      ensures must == [] && filter == [] && mustNot == [] && should == [] && minimumShouldMatch == 1
    {
      must, filter, mustNot, should, minimumShouldMatch := [], [], [], [], 1;
    }

    function Value(): Compound
      reads this
    {
      Compound(must, filter, mustNot, should, if should == [] then None else Some(minimumShouldMatch))
    }

    method AddPhrase(path: string, query: string)
      modifies this`must
      ensures must == old(must) + [Phrase(path, query)]
    {
      must := must + [Phrase(path, query)];
    }

    method FilterEquals(id: DocId)
      modifies this`filter
      ensures filter == old(filter) + [EqualsId(id)]
    {
      filter := filter + [EqualsId(id)];
    }

    method Should(clauses: seq<Clause>, minimum: nat)
      modifies this`should, this`minimumShouldMatch
      ensures should == old(should) + clauses && minimumShouldMatch == minimum
    {
      var i := 0;
      while i < |clauses|
        invariant 0 <= i <= |clauses| && should == old(should) + clauses[..i]
      {
        should := should + [clauses[i]];
        i := i + 1;
      }
      assert clauses[..i] == clauses;
      minimumShouldMatch := minimum;
    }

    method ToCompound() returns (q: Compound)
      ensures q == Value()
    {
      q := Compound(must, filter, mustNot, should, None);
      if should != [] {
        q := q.(minimum := Some(minimumShouldMatch));
      }
    }
  }

  // ---- Entries ---------------------------------------------------------------------------------

  datatype Item = StrItem(s: string) | OtherItem

  datatype Expected = StrValue(s: string) | ItemsValue(items: seq<Item>) | OtherValue

  /** A pending sync: the document, and the field values the index has to show. */
  datatype Entry = Entry(docId: DocId, expected: seq<(string, Expected)>)

  function ItemPhrases(path: string, items: seq<Item>): seq<Clause> {
    if items == [] then []
    else
      var last := items[|items| - 1];
      ItemPhrases(path, items[..|items| - 1]) + if last.StrItem? && last.s != "" then [Phrase(path, last.s)] else []
  }

  function ValuePhrases(path: string, v: Expected): seq<Clause> {
    match v
    case StrValue(s) => if s != "" then [Phrase(path, s)] else []
    case ItemsValue(items) => ItemPhrases(path, items)
    case OtherValue => []
  }

  function EntryPhrases(expected: seq<(string, Expected)>): seq<Clause> {
    if expected == [] then []
    else
      var last := expected[|expected| - 1];
      EntryPhrases(expected[..|expected| - 1]) + ValuePhrases(last.0, last.1)
  }

  /** The phrases of one expected value. */
  method AddPhrases(query: SearchQuery, path: string, value: Expected)
    modifies query`must
    ensures query.must == old(query.must) + ValuePhrases(path, value)
  {
    match value {
      case ItemsValue(items) =>
        var j := 0;
        while j < |items|
          invariant 0 <= j <= |items| && query.must == old(query.must) + ItemPhrases(path, items[..j])
        {
          assert items[..j + 1][..j] == items[..j];
          if items[j].StrItem? && items[j].s != "" {
            query.AddPhrase(path, items[j].s);
          }
          j := j + 1;
        }
        assert items[..j] == items;
      case StrValue(s) =>
        if s != "" {
          query.AddPhrase(path, s);
        }
      case OtherValue =>
    }
  }

  /** `_match_clauses`. */
  method MatchClauses(entry: Entry) returns (query: SearchQuery)
    ensures fresh(query)
    ensures query.Value() == Compound(EntryPhrases(entry.expected), [EqualsId(entry.docId)], [], [], None)
  {
    query := new SearchQuery();
    query.FilterEquals(entry.docId);
    var i := 0;
    while i < |entry.expected|
      invariant 0 <= i <= |entry.expected| && fresh(query)
      invariant query.must == EntryPhrases(entry.expected[..i]) && query.filter == [EqualsId(entry.docId)]
      invariant query.mustNot == [] && query.should == []
    {
      var (path, value) := entry.expected[i];
      assert entry.expected[..i + 1][..i] == entry.expected[..i];
      AddPhrases(query, path, value);
      i := i + 1;
    }
    assert entry.expected[..i] == entry.expected;
  }

  function EntryQuery(entry: Entry): Compound {
    Compound(EntryPhrases(entry.expected), [EqualsId(entry.docId)], [], [], None)
  }

  function SimpleIds(entries: seq<Entry>): seq<DocId> {
    if entries == [] then []
    else
      var last := entries[|entries| - 1];
      SimpleIds(entries[..|entries| - 1]) + if last.expected == [] then [last.docId] else []
  }

  function CheckedClauses(entries: seq<Entry>): seq<Clause> {
    if entries == [] then []
    else
      var last := entries[|entries| - 1];
      CheckedClauses(entries[..|entries| - 1]) + if last.expected != [] then [Nested(EntryQuery(last))] else []
  }

  function BatchClauses(entries: seq<Entry>): seq<Clause> {
    (if SimpleIds(entries) != [] then [InIds(SimpleIds(entries))] else []) + CheckedClauses(entries)
  }

  lemma {:induction false} BatchSnoc(entries: seq<Entry>, i: nat)
    requires i < |entries|
    ensures SimpleIds(entries[..i + 1])
      == SimpleIds(entries[..i]) + if entries[i].expected == [] then [entries[i].docId] else []
    ensures CheckedClauses(entries[..i + 1])
      == CheckedClauses(entries[..i]) + if entries[i].expected != [] then [Nested(EntryQuery(entries[i]))] else []
  {
    assert entries[..i + 1][..i] == entries[..i];
  }

  /** The query of `_matched_ids`. */
  method BatchQuery(entries: seq<Entry>) returns (q: Compound)
    ensures q == Compound([], [], [], BatchClauses(entries), if BatchClauses(entries) == [] then None else Some(1))
  {
    var simple: seq<DocId> := [];
    var checked: seq<Clause> := [];
    var i := 0;
    while i < |entries|
      invariant 0 <= i <= |entries|
      invariant simple == SimpleIds(entries[..i]) && checked == CheckedClauses(entries[..i])
    {
      BatchSnoc(entries, i);
      if entries[i].expected == [] {
        simple := simple + [entries[i].docId];
      } else {
        var entryQuery := MatchClauses(entries[i]);
        var compound := entryQuery.ToCompound();
        checked := checked + [Nested(compound)];
      }
      i := i + 1;
    }
    assert entries[..i] == entries;
    var query := new SearchQuery();
    query.Should((if simple != [] then [InIds(simple)] else []) + checked, 1);
    q := query.ToCompound();
  }

  // ---- One query for the snapshot is one check per entry ----------------------------------------

  predicate Asks(pair: (string, Expected), path: string, s: string) {
    && s != ""
    && pair.0 == path
    && (pair.1 == StrValue(s) || (pair.1.ItemsValue? && StrItem(s) in pair.1.items))
  }

  /** The phrases an entry insists on: its non-empty strings, alone or as items. */
  ghost predicate Wants(entry: Entry, path: string, s: string) {
    exists i :: 0 <= i < |entry.expected| && Asks(entry.expected[i], path, s)
  }

  /** The index shows the entry's document with every expected phrase. */
  ghost predicate Satisfies(d: Doc, entry: Entry) {
    d.id == entry.docId && forall path, s :: Wants(entry, path, s) ==> (path, s) in d.phrases
  }

  lemma {:induction false} ItemPhrasesAre(path: string, items: seq<Item>, c: Clause)
    ensures c in ItemPhrases(path, items) <==> c.Phrase? && c.path == path && c.query != "" && StrItem(c.query) in items
  {
    if items != [] {
      var init, last := items[..|items| - 1], items[|items| - 1];
      ItemPhrasesAre(path, init, c);
      assert items == init + [last];
    }
  }

  lemma ValuePhrasesAre(pair: (string, Expected), c: Clause)
    ensures c in ValuePhrases(pair.0, pair.1) <==> c.Phrase? && Asks(pair, c.path, c.query)
  {
    if pair.1.ItemsValue? {
      ItemPhrasesAre(pair.0, pair.1.items, c);
    }
  }

  lemma WantsSnoc(docId: DocId, expected: seq<(string, Expected)>, path: string, s: string)
    requires expected != []
    ensures Wants(Entry(docId, expected), path, s)
       <==> Wants(Entry(docId, expected[..|expected| - 1]), path, s) || Asks(expected[|expected| - 1], path, s)
  {
    var init := expected[..|expected| - 1];
    if Wants(Entry(docId, init), path, s) {
      var i :| 0 <= i < |init| && Asks(init[i], path, s);
      assert Asks(expected[i], path, s);
    }
    if Wants(Entry(docId, expected), path, s) {
      var i :| 0 <= i < |expected| && Asks(expected[i], path, s);
      assert i < |init| ==> Asks(init[i], path, s);
    }
  }

  lemma {:induction false} EntryPhrasesAre(docId: DocId, expected: seq<(string, Expected)>, c: Clause)
    ensures c in EntryPhrases(expected) <==> c.Phrase? && Wants(Entry(docId, expected), c.path, c.query)
  {
    if expected != [] {
      EntryPhrasesAre(docId, expected[..|expected| - 1], c);
      ValuePhrasesAre(expected[|expected| - 1], c);
      if c.Phrase? {
        WantsSnoc(docId, expected, c.path, c.query);
      }
    }
  }

  /** An entry's own query matches exactly the documents that satisfy the entry. */
  lemma EntryQueryIsSatisfaction(d: Doc, entry: Entry)
    ensures Matches(d, Nested(EntryQuery(entry))) <==> Satisfies(d, entry)
  {
    var q := EntryQuery(entry);
    assert Matches(d, q.filter[0]) <==> d.id == entry.docId;
    if Matches(d, Nested(q)) {
      forall path, s | Wants(entry, path, s) ensures (path, s) in d.phrases {
        EntryPhrasesAre(entry.docId, entry.expected, Phrase(path, s));
        var i :| 0 <= i < |q.must| && q.must[i] == Phrase(path, s);
        assert Matches(d, q.must[i]);
      }
    }
    if Satisfies(d, entry) {
      forall i | 0 <= i < |q.must| ensures Matches(d, q.must[i]) {
        EntryPhrasesAre(entry.docId, entry.expected, q.must[i]);
      }
    }
  }

  lemma {:induction false} SomeMatches(d: Doc, clauses: seq<Clause>)
    ensures HowMany(d, clauses) >= 1 <==> exists c :: c in clauses && Matches(d, c)
  {
    if clauses != [] {
      SomeMatches(d, clauses[1..]);
      assert clauses == [clauses[0]] + clauses[1..];
      if Matches(d, clauses[0]) {
        assert clauses[0] in clauses;
      } else if HowMany(d, clauses) >= 1 {
        var c :| c in clauses[1..] && Matches(d, c);
        assert c in clauses;
      }
    }
  }

  predicate Simple(e: Entry, id: DocId) {
    e.expected == [] && e.docId == id
  }

  predicate Checked(e: Entry, c: Clause) {
    e.expected != [] && c == Nested(EntryQuery(e))
  }

  lemma InSnoc<T>(s: seq<T>)
    requires s != []
    ensures forall x :: x in s <==> x in s[..|s| - 1] || x == s[|s| - 1]
  {
    assert s == s[..|s| - 1] + [s[|s| - 1]];
  }

  lemma {:induction false} SimpleMembers(entries: seq<Entry>, id: DocId)
    ensures id in SimpleIds(entries) <==> exists e :: e in entries && Simple(e, id)
  {
    if entries != [] {
      var init, last := entries[..|entries| - 1], entries[|entries| - 1];
      SimpleMembers(init, id);
      InSnoc(entries);
      assert id in SimpleIds(entries) <==> id in SimpleIds(init) || Simple(last, id);
    }
  }

  lemma {:induction false} CheckedMembers(entries: seq<Entry>, c: Clause)
    ensures c in CheckedClauses(entries) <==> exists e :: e in entries && Checked(e, c)
  {
    if entries != [] {
      var init, last := entries[..|entries| - 1], entries[|entries| - 1];
      CheckedMembers(init, c);
      InSnoc(entries);
      assert c in CheckedClauses(entries) <==> c in CheckedClauses(init) || Checked(last, c);
    }
  }

  /** The batched query matches a document exactly when some entry of the snapshot is satisfied by it. */
  lemma {:induction false} BatchIsDisjunction(d: Doc, entries: seq<Entry>)
    ensures HowMany(d, BatchClauses(entries)) >= 1 <==> exists e :: e in entries && Satisfies(d, e)
  {
    var clauses := BatchClauses(entries);
    SomeMatches(d, clauses);
    if exists c :: c in clauses && Matches(d, c) {
      var c :| c in clauses && Matches(d, c);
      SimpleMembers(entries, d.id);
      CheckedMembers(entries, c);
      if c in CheckedClauses(entries) {
        var e :| e in entries && Checked(e, c);
        EntryQueryIsSatisfaction(d, e);
      } else {
        var e :| e in entries && Simple(e, d.id);
        assert Satisfies(d, e);
      }
    }
    if exists e :: e in entries && Satisfies(d, e) {
      var e :| e in entries && Satisfies(d, e);
      if e.expected == [] {
        SimpleMembers(entries, d.id);
        assert Simple(e, d.id);
        assert d.id in SimpleIds(entries) && clauses[0] == InIds(SimpleIds(entries));
        assert clauses[0] in clauses && Matches(d, clauses[0]);
      } else {
        CheckedMembers(entries, Nested(EntryQuery(e)));
        assert Checked(e, Nested(EntryQuery(e)));
        EntryQueryIsSatisfaction(d, e);
        assert Nested(EntryQuery(e)) in clauses;
      }
    }
  }

  /** The batched match refines the per-entry check: for a snapshot with distinct ids, the single query returns
      only ids of the snapshot, and each entry's id exactly when the index satisfies that very entry. */
  lemma {:induction false} BatchedMatchIsPerEntry(index: Index, entries: seq<Entry>, q: Compound)
    requires ValidIndex(index) && entries != []
    requires forall i, j :: 0 <= i < j < |entries| ==> entries[i].docId != entries[j].docId
    requires q == Compound([], [], [], BatchClauses(entries), if BatchClauses(entries) == [] then None else Some(1))
    ensures forall id :: id in Search(index, q) ==> exists i :: 0 <= i < |entries| && entries[i].docId == id
    ensures forall i :: 0 <= i < |entries| ==>
      (entries[i].docId in Search(index, q) <==>
        entries[i].docId in index && Satisfies(index[entries[i].docId], entries[i]))
  {
    BatchIsNotEmpty(entries);
    forall id | id in index ensures id in Search(index, q) <==> exists e :: e in entries && Satisfies(index[id], e) {
      BatchIsDisjunction(index[id], entries);
    }
    forall id | id in Search(index, q) ensures exists i :: 0 <= i < |entries| && entries[i].docId == id {
      var e :| e in entries && Satisfies(index[id], e);
      var i :| 0 <= i < |entries| && entries[i] == e;
    }
    forall i | 0 <= i < |entries|
      ensures entries[i].docId in Search(index, q) <==>
        entries[i].docId in index && Satisfies(index[entries[i].docId], entries[i])
    {
      var id := entries[i].docId;
      if id in Search(index, q) {
        var e :| e in entries && Satisfies(index[id], e);
        var j :| 0 <= j < |entries| && entries[j] == e;
        assert j == i;
      }
    }
  }

  lemma {:induction false} BatchIsNotEmpty(entries: seq<Entry>)
    requires entries != []
    ensures BatchClauses(entries) != []
  {
    var e := entries[0];
    if e.expected == [] {
      SimpleMembers(entries, e.docId);
      assert e in entries && Simple(e, e.docId);
      assert e.docId in SimpleIds(entries);
    } else {
      CheckedMembers(entries, Nested(EntryQuery(e)));
      assert e in entries && Checked(e, Nested(EntryQuery(e)));
      assert Nested(EntryQuery(e)) in CheckedClauses(entries);
    }
  }
}
