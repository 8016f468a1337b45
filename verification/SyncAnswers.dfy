/** The protocol and its query together: what a wait group credits when the answer is the real one. */
module SearchSyncAnswers {

  import opened SearchSync
  import Queries = SearchQueries
  import Runs = SearchSyncRuns
  import Results = SearchSyncResults

  /** What each registered entry expects of the index. */
  type Contents = map<Ticket, Queries.Entry>

  /** The snapshot's entries, each document once, in the order of the dictionary. */
  ghost predicate Lists(entries: seq<Queries.Entry>, snapshot: map<DocId, Ticket>, contents: Contents) {
    && (forall i, j :: 0 <= i < j < |entries| ==> entries[i].docId != entries[j].docId)
    && (forall e {:trigger e in entries} :: e in entries ==> IsEntryOf(e.docId, e, snapshot, contents))
    && snapshot.Keys == DocIds(entries)
  }

  ghost function DocIds(entries: seq<Queries.Entry>): set<DocId> {
    set e | e in entries :: e.docId
  }

  ghost predicate IsEntryOf(d: DocId, e: Queries.Entry, snapshot: map<DocId, Ticket>, contents: Contents) {
    d in snapshot && snapshot[d] in contents && contents[snapshot[d]] == e && e.docId == d
  }

  /** The index shows what the entry registered as `t` expects. */
  ghost predicate Shows(index: Queries.Index, d: DocId, t: Ticket, contents: Contents) {
    t in contents && d in index && Queries.Satisfies(index[d], contents[t])
  }

  function Batch(entries: seq<Queries.Entry>): Queries.Compound {
    var should := Queries.BatchClauses(entries);
    Queries.Compound([], [], [], should, if should == [] then Queries.None else Queries.Some(1))
  }

  lemma PositionOf(entries: seq<Queries.Entry>, d: DocId) returns (i: nat)
    requires d in DocIds(entries)
    ensures i < |entries| && entries[i].docId == d
  {
    var e: Queries.Entry :| e in entries && e.docId == d;
    i :| 0 <= i < |entries| && entries[i] == e;
  }

  lemma {:induction false} MatchedIsListed(index: Queries.Index, entries: seq<Queries.Entry>, d: DocId)
    requires Queries.ValidIndex(index) && entries != []
    requires forall i, j :: 0 <= i < j < |entries| ==> entries[i].docId != entries[j].docId
    requires d in Queries.Search(index, Batch(entries))
    ensures d in DocIds(entries)
  {
    Queries.BatchedMatchIsPerEntry(index, entries, Batch(entries));
    var i :| 0 <= i < |entries| && entries[i].docId == d;
    assert entries[i] in entries;
  }

  lemma {:induction false} MatchedAt(index: Queries.Index, entries: seq<Queries.Entry>, i: nat)
    requires Queries.ValidIndex(index) && i < |entries|
    requires forall i, j :: 0 <= i < j < |entries| ==> entries[i].docId != entries[j].docId
    ensures entries[i].docId in Queries.Search(index, Batch(entries)) <==>
      entries[i].docId in index && Queries.Satisfies(index[entries[i].docId], entries[i])
  {
    Queries.BatchedMatchIsPerEntry(index, entries, Batch(entries));
  }

  lemma {:induction false} MatchedExactlyWhenShown(index: Queries.Index, entries: seq<Queries.Entry>,
                                                   snapshot: map<DocId, Ticket>, contents: Contents, d: DocId)
    requires Queries.ValidIndex(index) && Lists(entries, snapshot, contents) && snapshot != map[]
    ensures d in Queries.Search(index, Batch(entries)) <==> d in snapshot && Shows(index, d, snapshot[d], contents)
  {
    assert entries != [] by {
      assert entries == [] ==> snapshot.Keys == {};
    }
    if d in Queries.Search(index, Batch(entries)) {
      MatchedIsListed(index, entries, d);
    }
    if d in snapshot {
      var i := PositionOf(entries, d);
      MatchedAt(index, entries, i);
      assert entries[i] in entries && IsEntryOf(d, entries[i], snapshot, contents);
    }
  }

  /** An answer inside the snapshot is credited to its end, to the documents whose entry is still the one asked for. */
  lemma CreditedOfAnswer(g: Group, matched: set<DocId>, order: seq<DocId>, d: DocId)
    requires g.phase.InFlight? && matched <= g.phase.snapshot.Keys
    requires (set x | x in order) == SettledIds(g.key.kind, g.phase.snapshot, matched)
    ensures KnownPrefix(order, g.phase.snapshot) == |order|
    ensures d in CreditedBy(g, order) <==>
      && d in g.pending && d in g.phase.snapshot && g.pending[d] == g.phase.snapshot[d]
      && (g.key.kind.Write? <==> d in matched)
  {
    var settled := SettledIds(g.key.kind, g.phase.snapshot, matched);
    forall i | 0 <= i < |order| ensures order[i] in g.phase.snapshot {
      assert order[i] in settled;
    }
    assert order[..|order|] == order;
    assert d in order <==> d in settled;
  }

  /** End to end: when the index has answered, nothing raises, and a document is credited exactly when its entry has
      not been replaced since the query was sent and the index showed what that very entry expects; for a deletion,
      when it did not. */
  lemma {:induction false} CreditedExactlyWhenShown(g: Group, index: Queries.Index, entries: seq<Queries.Entry>,
                                                    contents: Contents, matched: set<DocId>, order: seq<DocId>, d: DocId)
    requires g.phase.InFlight? && g.phase.snapshot != map[]
    requires Queries.ValidIndex(index) && Lists(entries, g.phase.snapshot, contents)
    requires matched == Queries.Search(index, Batch(entries))
    requires (set x | x in order) == SettledIds(g.key.kind, g.phase.snapshot, matched)
    ensures KnownPrefix(order, g.phase.snapshot) == |order|
    ensures d in CreditedBy(g, order) <==>
      && d in g.pending && d in g.phase.snapshot && g.pending[d] == g.phase.snapshot[d]
      && (g.key.kind.Write? <==> Shows(index, d, g.pending[d], contents))
  {
    forall x ensures x in matched <==> x in g.phase.snapshot && Shows(index, x, g.phase.snapshot[x], contents) {
      MatchedExactlyWhenShown(index, entries, g.phase.snapshot, contents, x);
    }
    CreditedOfAnswer(g, matched, order, d);
  }

  /** So, in every state of the protocol: when the index has answered, a waiting future succeeds exactly if its
      document's entry was not replaced since the query was sent and the index showed what that very entry expects, or
      for a deletion did not; if not it waits on while attempts are left, and times out with the last. */
  lemma {:induction false} FutureSucceedsExactlyWhenShown(s: System, g: GroupId, index: Queries.Index,
                                                          entries: seq<Queries.Entry>, contents: Contents,
                                                          matched: set<DocId>, order: seq<DocId>, t: Ticket, d: DocId)
    requires Runs.Inv(s) && Enabled(s, Return(g, matched, order)) && Results.WaitsFor(s, t, g, d)
    requires s.groups[g].phase.snapshot != map[] && Queries.ValidIndex(index)
    requires Lists(entries, s.groups[g].phase.snapshot, contents) && matched == Queries.Search(index, Batch(entries))
    ensures var (group, s') := (s.groups[g], Next(s, Return(g, matched, order)));
      && d in group.pending
      && var shown := d in group.phase.snapshot && group.pending[d] == group.phase.snapshot[d]
                      && (group.key.kind.Write? <==> Shows(index, d, group.pending[d], contents));
      t in s'.futures && s'.futures[t] ==
        if shown then Settled(|s.log|)
        else if group.phase.attempt < group.phase.budget then Waiting
        else TimedOut(|s.log| + 1)
  {
    var group := s.groups[g];
    Results.WaiterIsListed(s, t, g, d);
    forall x ensures x in matched <==> x in group.phase.snapshot && Shows(index, x, group.phase.snapshot[x], contents) {
      MatchedExactlyWhenShown(index, entries, group.phase.snapshot, contents, x);
    }
    forall i | 0 <= i < |order| ensures order[i] in group.phase.snapshot {
      assert order[i] in SettledIds(group.key.kind, group.phase.snapshot, matched) by {
        assert order[i] in (set x | x in order);
      }
      assert group.key.kind.Write? ==> order[i] in matched;
    }
    Results.AnswerDecides(s, g, matched, order, t, d);
  }
}
