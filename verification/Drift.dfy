/** The schema drift test of hoodie/indexes.py: the compiled definition against what the server echoes back. */
module Drift {
  import opened Paths
  import opened Fields
  import opened Indexes

  /** A JSON value; `json.dumps(..., sort_keys=True)` is taken to tell distinct values apart. */
  datatype Json = Text(s: string) | Flag(b: bool) | List(items: seq<Json>) | Obj(entries: map<string, Json>)

  const INJECTED: set<string> := {"indexOptions", "norms", "store", "dynamic"}

  /** `_strip_server_defaults`. */
  function Strip(node: Json): Json {
    match node
    case List(items) => List(seq(|items|, i requires 0 <= i < |items| => Strip(items[i])))
    case Obj(entries) =>
      var stripped := map k | k in entries :: Strip(entries[k]);
      Obj(if "type" in entries then stripped - INJECTED else stripped)
    case _ => node
  }

  /** `_has_schema_drifted`. */
  predicate Drifted(current: Json, target: Json) {
    Strip(current) != Strip(target)
  }

  /** `to_atlas_mapping`. */
  function MappingJson(m: Mapping): Json {
    match m
    case IdMapping(t) => Obj(map["type" := Text(t)])
    case StringMapping(analyzer, facetable) =>
      if !facetable then Obj(map["type" := Text("string"), "analyzer" := Text(analyzer)])
      else
        var keyword := Obj(map["type" := Text("string"), "analyzer" := Text("lucene.keyword")]);
        List([Obj(map["type" := Text("string"), "analyzer" := Text(analyzer), "multi" := Obj(map["keyword" := keyword])]),
              Obj(map["type" := Text("stringFacet")])])
  }

  function TreeJson(t: Tree): Json {
    match t
    case Leaf(m) => MappingJson(m)
    case Node(fields) => Obj(map["type" := Text("document"), "fields" := Obj(map k | k in fields :: TreeJson(fields[k]))])
  }

  function TableJson(table: Table): Json {
    Obj(map k | k in table :: TreeJson(table[k]))
  }

  function Definition(table: Table): Json {
    Obj(map["mappings" := Obj(map["dynamic" := Flag(false), "fields" := TableJson(table)])])
  }

  /** What the server may send back for a value: the same, with injected keys added to objects that carry `type`. */
  predicate Echoes(sent: Json, echoed: Json)
    decreases sent
  {
    match sent
    case List(items) =>
      && echoed.List? && |echoed.items| == |items|
      && forall i :: 0 <= i < |items| ==> Echoes(items[i], echoed.items[i])
    case Obj(entries) =>
      && echoed.Obj?
      && entries.Keys <= echoed.entries.Keys
      && (forall k :: k in echoed.entries && k !in entries ==> "type" in entries && k in INJECTED)
      && (forall k :: k in entries ==> Echoes(entries[k], echoed.entries[k]))
    case _ => echoed == sent
  }

  /** Stripping twice is stripping once. */
  lemma {:induction false} StripIsIdempotent(node: Json)
    ensures Strip(Strip(node)) == Strip(node)
  {
    match node
    case List(items) =>
      forall i | 0 <= i < |items| ensures Strip(Strip(items[i])) == Strip(items[i]) {
        StripIsIdempotent(items[i]);
      }
    case Obj(entries) =>
      forall k | k in entries ensures Strip(Strip(entries[k])) == Strip(entries[k]) {
        StripIsIdempotent(entries[k]);
      }
      var once := Strip(node).entries;
      assert forall k :: k in once ==> k in entries && once[k] == Strip(entries[k]);
      assert Strip(Strip(node)).entries == once;
    case _ =>
  }

  /** Whatever the server injects, stripping takes out again. */
  lemma {:induction false} StripUndoesEcho(sent: Json, echoed: Json)
    requires Echoes(sent, echoed)
    ensures Strip(echoed) == Strip(sent)
    decreases sent
  {
    match sent
    case List(items) =>
      forall i | 0 <= i < |items| ensures Strip(echoed.items[i]) == Strip(items[i]) {
        StripUndoesEcho(items[i], echoed.items[i]);
      }
    case Obj(entries) =>
      forall k | k in entries ensures Strip(echoed.entries[k]) == Strip(entries[k]) {
        StripUndoesEcho(entries[k], echoed.entries[k]);
      }
      assert "type" in echoed.entries <==> "type" in entries;
      assert Strip(echoed).entries == Strip(sent).entries;
    case _ =>
  }

  // ---- What stripping does to a compiled definition --------------------------------------------

  /** A table without the fields that stripping mistakes for injected keys: those beside a field named `type`. */
  function Pruned(table: Table): Table
    decreases Node(table)
  {
    map k | k in table && !("type" in table && k in INJECTED) :: PrunedTree(table[k])
  }

  function PrunedTree(t: Tree): Tree
    decreases t
  {
    match t
    case Leaf(_) => t
    case Node(fields) =>
      Node(map k | k in fields && !("type" in fields && k in INJECTED) :: PrunedTree(fields[k]))
  }

  /** An object whose values are stripped already keeps all its keys unless it carries `type` and injected ones. */
  lemma StripKeeps(entries: map<string, Json>)
    requires forall k :: k in entries ==> Strip(entries[k]) == entries[k]
    requires "type" in entries ==> forall k :: k in INJECTED ==> k !in entries
    ensures Strip(Obj(entries)) == Obj(entries)
  {
    assert Strip(Obj(entries)).entries == entries;
  }

  lemma StripPair(a: Json, b: Json)
    requires Strip(a) == a && Strip(b) == b
    ensures Strip(List([a, b])) == List([a, b])
  {
    assert Strip(List([a, b])).items == [a, b];
  }

  lemma StripSingle(key: string, value: Json)
    requires Strip(value) == value && key !in INJECTED
    ensures Strip(Obj(map[key := value])) == Obj(map[key := value])
  {
    StripKeeps(map[key := value]);
  }

  lemma StripAnalyzer(kind: string, analyzer: string)
    ensures var e := map["type" := Text(kind), "analyzer" := Text(analyzer)]; Strip(Obj(e)) == Obj(e)
  {
    StripKeeps(map["type" := Text(kind), "analyzer" := Text(analyzer)]);
  }

  lemma StripMulti(kind: string, analyzer: string, multi: Json)
    requires Strip(multi) == multi
    ensures var e := map["type" := Text(kind), "analyzer" := Text(analyzer), "multi" := multi]; Strip(Obj(e)) == Obj(e)
  {
    StripKeeps(map["type" := Text(kind), "analyzer" := Text(analyzer), "multi" := multi]);
  }

  lemma StripFacetable(kind: string, analyzer: string, inner: string, facet: string)
    ensures var keyword := Obj(map["type" := Text(kind), "analyzer" := Text(inner)]);
      var multi := Obj(map["keyword" := keyword]);
      var both := List([Obj(map["type" := Text(kind), "analyzer" := Text(analyzer), "multi" := multi]),
                        Obj(map["type" := Text(facet)])]);
      Strip(both) == both
  {
    var keyword := Obj(map["type" := Text(kind), "analyzer" := Text(inner)]);
    StripAnalyzer(kind, inner);
    var multi := Obj(map["keyword" := keyword]);
    StripSingle("keyword", keyword);
    StripMulti(kind, analyzer, multi);
    StripSingle("type", Text(facet));
    StripPair(Obj(map["type" := Text(kind), "analyzer" := Text(analyzer), "multi" := multi]), Obj(map["type" := Text(facet)]));
  }

  lemma StripMapping(m: Mapping)
    ensures Strip(MappingJson(m)) == MappingJson(m)
  {
    match m
    case IdMapping(t) => StripSingle("type", Text(t));
    case StringMapping(analyzer, facetable) =>
      StripAnalyzer("string", analyzer);
      StripFacetable("string", analyzer, "lucene.keyword", "stringFacet");
  }

  /** An object without injected keys is stripped value by value. */
  lemma {:induction false} StripEach(entries: map<string, Json>, stripped: map<string, Json>)
    requires stripped.Keys == entries.Keys && forall k :: k in entries ==> Strip(entries[k]) == stripped[k]
    requires forall k :: k in INJECTED ==> k !in entries
    ensures Strip(Obj(entries)) == Obj(stripped)
  {
    assert Strip(Obj(entries)).entries == stripped;
  }

  lemma {:induction false} StripNode(kind: string, fields: Json)
    ensures Strip(Obj(map["type" := Text(kind), "fields" := fields]))
         == Obj(map["type" := Text(kind), "fields" := Strip(fields)])
  {
    StripEach(map["type" := Text(kind), "fields" := fields], map["type" := Text(kind), "fields" := Strip(fields)]);
  }

  lemma {:induction false} StripTree(t: Tree)
    ensures Strip(TreeJson(t)) == TreeJson(PrunedTree(t))
    decreases t
  {
    match t
    case Leaf(m) => StripMapping(m);
    case Node(fields) =>
      forall k | k in fields ensures Strip(TreeJson(fields[k])) == TreeJson(PrunedTree(fields[k])) {
        StripTree(fields[k]);
      }
      StripFields(fields);
      StripNode("document", TableJson(fields));
      assert PrunedTree(t) == Node(Pruned(fields));
  }

  lemma StripFields(table: Table)
    requires forall k :: k in table ==> Strip(TreeJson(table[k])) == TreeJson(PrunedTree(table[k]))
    ensures Strip(TableJson(table)) == TableJson(Pruned(table))
  {
    var entries := TableJson(table).entries;
    assert forall k :: k in entries ==> k in table && Strip(entries[k]) == TreeJson(PrunedTree(table[k]));
    assert Strip(TableJson(table)).entries == TableJson(Pruned(table)).entries;
  }

  /** An object without `type` keeps its keys. */
  lemma StripUntyped(entries: map<string, Json>)
    requires "type" !in entries
    ensures Strip(Obj(entries)) == Obj(map k | k in entries :: Strip(entries[k]))
  {
  }

  lemma StripTable(table: Table)
    ensures Strip(TableJson(table)) == TableJson(Pruned(table))
  {
    forall k | k in table ensures Strip(TreeJson(table[k])) == TreeJson(PrunedTree(table[k])) {
      StripTree(table[k]);
    }
    StripFields(table);
  }

  lemma StripInner(table: Table)
    ensures Strip(Obj(map["dynamic" := Flag(false), "fields" := TableJson(table)]))
         == Obj(map["dynamic" := Flag(false), "fields" := TableJson(Pruned(table))])
  {
    StripTable(table);
    var inner := map["dynamic" := Flag(false), "fields" := TableJson(table)];
    StripUntyped(inner);
    assert (map k | k in inner :: Strip(inner[k])) == map["dynamic" := Flag(false), "fields" := TableJson(Pruned(table))];
  }

  lemma StripOuter(key: string, value: Json)
    requires key != "type"
    ensures Strip(Obj(map[key := value])) == Obj(map[key := Strip(value)])
  {
    StripUntyped(map[key := value]);
    assert (map k | k in map[key := value] :: Strip(map[key := value][k])) == map[key := Strip(value)];
  }

  lemma StripDefinition(table: Table)
    ensures Strip(Definition(table)) == Definition(Pruned(table))
  {
    StripInner(table);
    StripOuter("mappings", Obj(map["dynamic" := Flag(false), "fields" := TableJson(table)]));
  }

  lemma MappingShape(m: Mapping)
    ensures MappingJson(m).List? <==> m.StringMapping? && m.facetable
    ensures MappingJson(m).List? || MappingJson(m).Obj?
    ensures MappingJson(m).Obj? ==>
      && "fields" !in MappingJson(m).entries
      && "type" in MappingJson(m).entries
      && ("analyzer" in MappingJson(m).entries <==> m.StringMapping?)
  {
  }

  lemma MappingJsonInjective(a: Mapping, b: Mapping)
    requires MappingJson(a) == MappingJson(b)
    ensures a == b
  {
    MappingShape(a);
    MappingShape(b);
    if a.IdMapping? {
      assert MappingJson(a).entries["type"] == MappingJson(b).entries["type"];
    } else if a.facetable {
      assert MappingJson(a).items[0].entries["analyzer"] == MappingJson(b).items[0].entries["analyzer"];
    } else {
      assert MappingJson(a).entries["analyzer"] == MappingJson(b).entries["analyzer"];
    }
  }

  lemma NodeShape(fields: Table)
    ensures TreeJson(Node(fields)).Obj? && "fields" in TreeJson(Node(fields)).entries
    ensures TreeJson(Node(fields)).entries["fields"] == TableJson(fields)
  {
  }

  lemma {:induction false} TreeJsonInjective(a: Tree, b: Tree)
    requires TreeJson(a) == TreeJson(b)
    ensures a == b
    decreases a, 1
  {
    match (a, b)
    case (Leaf(m), Leaf(n)) => MappingJsonInjective(m, n);
    case (Node(f), Node(g)) =>
      NodeShape(f);
      NodeShape(g);
      TableJsonInjective(f, g);
    case (Leaf(m), Node(g)) =>
      MappingShape(m);
      NodeShape(g);
    case (Node(f), Leaf(n)) =>
      MappingShape(n);
      NodeShape(f);
  }

  lemma {:induction false} TableJsonInjective(a: Table, b: Table)
    requires TableJson(a) == TableJson(b)
    ensures a == b
    decreases Node(a), 0
  {
    var fa, fb := TableJson(a).entries, TableJson(b).entries;
    assert fa.Keys == a.Keys && fb.Keys == b.Keys;
    forall k | k in a ensures k in b && a[k] == b[k] {
      assert k in fa && fa[k] == fb[k];
      TreeJsonInjective(a[k], b[k]);
    }
  }

  lemma DefinitionInjective(a: Table, b: Table)
    requires Definition(a) == Definition(b)
    ensures a == b
  {
    assert Definition(a).entries["mappings"].entries["fields"] == Definition(b).entries["mappings"].entries["fields"];
    TableJsonInjective(a, b);
  }

  /** The test compares pruned tables: for any echo of `a`'s definition, it reports drift against `b`'s exactly
      when the two tables differ after pruning. */
  lemma DriftComparesPruned(a: Table, b: Table, echoed: Json)
    requires Echoes(Definition(a), echoed)
    ensures Drifted(echoed, Definition(b)) <==> Pruned(a) != Pruned(b)
  {
    StripUndoesEcho(Definition(a), echoed);
    StripDefinition(a);
    StripDefinition(b);
    if Definition(Pruned(a)) == Definition(Pruned(b)) {
      DefinitionInjective(Pruned(a), Pruned(b));
    }
  }

  /** No mapping has a field named `type` beside one named like an injected key. */
  predicate Tidy(table: Table)
    decreases Node(table)
  {
    && ("type" in table ==> forall k :: k in INJECTED ==> k !in table)
    && forall k :: k in table && table[k].Node? ==> Tidy(table[k].fields)
  }

  lemma {:induction false} TidyIsUnpruned(table: Table)
    ensures Tidy(table) <==> Pruned(table) == table
    decreases Node(table)
  {
    forall k | k in table && table[k].Node?
      ensures Tidy(table[k].fields) <==> PrunedTree(table[k]) == table[k]
    {
      TidyIsUnpruned(table[k].fields);
      assert PrunedTree(table[k]) == Node(Pruned(table[k].fields));
    }
    if Pruned(table) == table {
      forall k | k in table && table[k].Node? ensures Tidy(table[k].fields) {
        assert Pruned(table)[k] == PrunedTree(table[k]);
      }
      forall k | "type" in table && k in INJECTED ensures k !in table {
        assert k !in Pruned(table);
      }
    }
  }

  lemma {:induction false} PrunedIsTidy(table: Table)
    ensures Tidy(Pruned(table))
    decreases Node(table)
  {
    var p := Pruned(table);
    forall k | k in p && p[k].Node? ensures Tidy(p[k].fields) {
      PrunedIsTidy(table[k].fields);
      assert p[k] == Node(Pruned(table[k].fields));
    }
    assert "type" !in INJECTED;
  }

  /** Against `b`, the test is right about every echo of `a`. */
  ghost predicate TellsApart(a: Table, b: Table) {
    forall echoed {:trigger Echoes(Definition(a), echoed)} ::
      Echoes(Definition(a), echoed) ==> (Drifted(echoed, Definition(b)) <==> a != b)
  }

  lemma TidyTablesToldApart(a: Table, b: Table)
    requires Tidy(a) && Tidy(b)
    ensures TellsApart(a, b)
  {
    TidyIsUnpruned(a);
    TidyIsUnpruned(b);
    forall echoed | Echoes(Definition(a), echoed) ensures Drifted(echoed, Definition(b)) <==> a != b {
      DriftComparesPruned(a, b, echoed);
    }
  }

  lemma UntidyTableMissesDrift(a: Table)
    requires !Tidy(a)
    ensures Tidy(Pruned(a)) && !TellsApart(a, Pruned(a))
  {
    TidyIsUnpruned(a);
    PrunedIsTidy(a);
    TidyIsUnpruned(Pruned(a));
    EchoItself(Definition(a));
    DriftComparesPruned(a, Pruned(a), Definition(a));
  }

  /** The drift test is exact on a table precisely when the table is tidy: then, and only then, every echo of it
      is told apart from every tidy table that differs. */
  lemma DriftIsExactIffTidy(a: Table)
    ensures Tidy(a) <==> forall b {:trigger TellsApart(a, b)} :: Tidy(b) ==> TellsApart(a, b)
  {
    if Tidy(a) {
      forall b | Tidy(b) ensures TellsApart(a, b) {
        TidyTablesToldApart(a, b);
      }
    } else {
      UntidyTableMissesDrift(a);
    }
  }

  lemma {:induction false} EchoItself(node: Json)
    ensures Echoes(node, node)
  {
    match node
    case List(items) =>
      forall i | 0 <= i < |items| ensures Echoes(items[i], items[i]) {
        EchoItself(items[i]);
      }
    case Obj(entries) =>
      forall k | k in entries ensures Echoes(entries[k], entries[k]) {
        EchoItself(entries[k]);
      }
    case _ =>
  }

  /** The two sets give every path the same mapping. */
  ghost predicate SameFields(fs: set<SearchableField>, gs: set<SearchableField>) {
    forall parts, m {:trigger HasField(fs, parts, m)} {:trigger HasField(gs, parts, m)} ::
      HasField(fs, parts, m) <==> HasField(gs, parts, m)
  }

  lemma SameTableIffSameFields(a: Table, fs: set<SearchableField>, b: Table, gs: set<SearchableField>)
    requires Grown(a) && Holds(a, fs) && Grown(b) && Holds(b, gs)
    ensures a == b <==> SameFields(fs, gs)
  {
    if SameFields(fs, gs) {
      forall parts ensures Lookup(a, parts) == Lookup(b, parts) {
        if Lookup(a, parts).Some? {
          assert HasField(fs, parts, Lookup(a, parts).value);
        } else if Lookup(b, parts).Some? {
          assert HasField(gs, parts, Lookup(b, parts).value);
        }
      }
      LeavesDetermineTable(a, b);
    }
  }

  // ---- Tidiness, seen from the field paths -----------------------------------------------------

  /** Some leaf lies at or below `q`. */
  ghost predicate Reaches(table: Table, q: seq<string>) {
    exists parts {:trigger Lookup(table, parts)} :: q <= parts && Lookup(table, parts).Some?
  }

  lemma ReachesInside(table: Table, k: string, q: seq<string>)
    requires q != []
    ensures Reaches(table, [k] + q) <==> k in table && table[k].Node? && Reaches(table[k].fields, q)
  {
    var path := [k] + q;
    if Reaches(table, path) {
      var parts :| path <= parts && Lookup(table, parts).Some?;
      assert parts[0] == path[0] == k && parts[1] == path[1];
      assert q == path[1..] <= parts[1..];
      assert Lookup(table[k].fields, parts[1..]) == Lookup(table, parts);
    }
    if k in table && table[k].Node? && Reaches(table[k].fields, q) {
      var parts :| q <= parts && Lookup(table[k].fields, parts).Some?;
      assert ([k] + parts)[1..] == parts && path <= [k] + parts;
      assert Lookup(table, [k] + parts) == Lookup(table[k].fields, parts);
    }
  }

  lemma ReachesKey(table: Table, k: string)
    requires Grown(table)
    ensures Reaches(table, [k]) <==> k in table
  {
    if k in table {
      if table[k].Leaf? {
        assert Lookup(table, [k]).Some?;
      } else {
        var rest := GrownHasLeaf(table[k].fields);
        assert ([k] + rest)[1..] == rest && rest != [] && [k] <= [k] + rest;
        assert Lookup(table, [k] + rest) == Lookup(table[k].fields, rest);
      }
    }
    if Reaches(table, [k]) {
      var parts :| [k] <= parts && Lookup(table, parts).Some?;
      assert parts[0] == [k][0];
    }
  }

  /** At `p`, a leaf lies under `type` and another under the injected key `k`. */
  ghost predicate Clash(table: Table, p: seq<string>, k: string) {
    k in INJECTED && Reaches(table, p + ["type"]) && Reaches(table, p + [k])
  }

  lemma ClashInside(table: Table, head: string, p: seq<string>, k: string)
    ensures Clash(table, [head] + p, k) <==> head in table && table[head].Node? && Clash(table[head].fields, p, k)
  {
    assert [head] + p + ["type"] == [head] + (p + ["type"]);
    assert [head] + p + [k] == [head] + (p + [k]);
    ReachesInside(table, head, p + ["type"]);
    ReachesInside(table, head, p + [k]);
  }

  lemma ClashHere(table: Table, k: string)
    requires Grown(table)
    ensures Clash(table, [], k) <==> k in INJECTED && "type" in table && k in table
  {
    assert [] + ["type"] == ["type"] && [] + [k] == [k];
    ReachesKey(table, "type");
    ReachesKey(table, k);
  }

  ghost predicate ClashFree(table: Table) {
    forall p, k {:trigger Clash(table, p, k)} :: !Clash(table, p, k)
  }

  lemma {:induction false} TidyIsClashFree(table: Table)
    requires Grown(table)
    ensures Tidy(table) <==> ClashFree(table)
    decreases Node(table)
  {
    forall head | head in table && table[head].Node?
      ensures Tidy(table[head].fields) <==> ClashFree(table[head].fields)
    {
      TidyIsClashFree(table[head].fields);
    }
    if Tidy(table) {
      forall p, k ensures !Clash(table, p, k) {
        if p == [] {
          ClashHere(table, k);
        } else {
          assert p == [p[0]] + p[1..];
          ClashInside(table, p[0], p[1..], k);
        }
      }
    }
    if ClashFree(table) {
      forall k | k in INJECTED && "type" in table ensures k !in table {
        ClashHere(table, k);
        assert !Clash(table, [], k);
      }
      forall head | head in table && table[head].Node? ensures ClashFree(table[head].fields) {
        forall p, k ensures !Clash(table[head].fields, p, k) {
          ClashInside(table, head, p, k);
          assert !Clash(table, [head] + p, k);
        }
      }
    }
  }

  /** Some field's path is `q` or goes on from it. */
  predicate Continues(fields: set<SearchableField>, q: seq<string>) {
    exists f :: f in fields && q <= Split(f.path)
  }

  /** No prefix of the paths is continued both by `type` and by an injected key. */
  ghost predicate TidyPaths(fields: set<SearchableField>) {
    forall p: seq<string>, k: string {:trigger Continues(fields, p + [k])} ::
      k in INJECTED ==> !(Continues(fields, p + ["type"]) && Continues(fields, p + [k]))
  }

  lemma ReachesIsContinues(table: Table, fields: set<SearchableField>, q: seq<string>)
    requires Holds(table, fields)
    ensures Reaches(table, q) <==> Continues(fields, q)
  {
    if Reaches(table, q) {
      var parts :| q <= parts && Lookup(table, parts).Some?;
      assert HasField(fields, parts, Lookup(table, parts).value);
    }
    if Continues(fields, q) {
      var f :| f in fields && q <= Split(f.path);
      assert HasField(fields, Split(f.path), MappingOf(f));
      assert Lookup(table, Split(f.path)) == Some(MappingOf(f));
    }
  }

  /** Whether a table is tidy can be read off the field paths before anything is built. */
  lemma TidyExactlyByPaths(table: Table, fields: set<SearchableField>)
    requires Grown(table) && Holds(table, fields)
    ensures Tidy(table) <==> TidyPaths(fields)
  {
    TidyIsClashFree(table);
    forall p: seq<string>, k: string
      ensures Clash(table, p, k) <==> k in INJECTED && Continues(fields, p + ["type"]) && Continues(fields, p + [k])
    {
      ReachesIsContinues(table, fields, p + ["type"]);
      ReachesIsContinues(table, fields, p + [k]);
    }
    if TidyPaths(fields) {
      forall p, k ensures !Clash(table, p, k) {
        assert k in INJECTED ==> !(Continues(fields, p + ["type"]) && Continues(fields, p + [k]));
      }
    }
    if ClashFree(table) {
      forall p: seq<string>, k: string | k in INJECTED
        ensures !(Continues(fields, p + ["type"]) && Continues(fields, p + [k]))
      {
        assert !Clash(table, p, k);
      }
    }
  }

  /** End to end, by what a caller can check beforehand: for two compatible sets of fields with tidy paths, and any
      echo of the first one's definition, drift is reported exactly when some path has a different mapping in the two
      sets. */
  lemma {:induction false} DriftSeesFields(fs: seq<SearchableField>, gs: seq<SearchableField>, echoed: Json)
    requires Compatible(Elements(fs)) && Compatible(Elements(gs))
    requires TidyPaths(Elements(fs)) && TidyPaths(Elements(gs))
    requires BuildFrom(fs).Some? && Echoes(Definition(BuildFrom(fs).value), echoed)
    ensures BuildFrom(gs).Some?
    ensures Drifted(echoed, Definition(BuildFrom(gs).value)) <==> !SameFields(Elements(fs), Elements(gs))
  {
    BuildHolds(fs);
    BuildHolds(gs);
    var a, b := BuildFrom(fs).value, BuildFrom(gs).value;
    TidyExactlyByPaths(a, Elements(fs));
    TidyExactlyByPaths(b, Elements(gs));
    SameTableIffSameFields(a, Elements(fs), b, Elements(gs));
    TidyTablesToldApart(a, b);
  }

  // ---- What the definition says of a field -----------------------------------------------------

  /** The entry of an object; None if there is none, or no object. */
  function Entry(j: Json, key: string): Option<Json> {
    if j.Obj? && key in j.entries then Some(j.entries[key]) else None
  }

  /** The mapping that the nested `fields` objects give for a path. */
  function MappingAt(fields: Json, parts: seq<string>): Option<Json>
    decreases |parts|
  {
    if parts == [] then None
    else
      match Entry(fields, parts[0])
      case None => None
      case Some(j) =>
        if |parts| == 1 then Some(j)
        else match Entry(j, "fields")
          case None => None
          case Some(inner) => if Entry(j, "type") == Some(Text("document")) then MappingAt(inner, parts[1..]) else None
  }

  /** A string mapping under an analyzer. */
  predicate IsString(j: Json, analyzer: string) {
    Entry(j, "type") == Some(Text("string")) && Entry(j, "analyzer") == Some(Text(analyzer))
  }

  /** What Atlas Search is told of a field: the type of the identifier; a string under the declared analyzer; and for
      a facetable field besides that its unanalyzed twin and a facet. */
  predicate Tells(j: Json, f: SearchableField) {
    if f.kind.ID? then j.Obj? && j.entries.Keys == {"type"} && Entry(j, "type") == Some(Text(f.atlasType))
    else if !f.config.facetable then j.Obj? && j.entries.Keys == {"type", "analyzer"} && IsString(j, f.config.analyzer)
    else
      && j.List? && |j.items| == 2
      && IsString(j.items[0], f.config.analyzer)
      && (match Entry(j.items[0], "multi")
          case None => false
          case Some(multi) =>
            match Entry(multi, "keyword")
            case None => false
            case Some(keyword) => IsString(keyword, "lucene.keyword"))
      && Entry(j.items[1], "type") == Some(Text("stringFacet"))
  }

  lemma MappingTells(f: SearchableField)
    ensures Tells(MappingJson(MappingOf(f)), f)
  {
  }

  lemma {:induction false} LeafIsMappedAt(table: Table, parts: seq<string>)
    requires Lookup(table, parts).Some?
    ensures MappingAt(TableJson(table), parts) == Some(MappingJson(Lookup(table, parts).value))
    decreases |parts|
  {
    var t := table[parts[0]];
    assert Entry(TableJson(table), parts[0]) == Some(TreeJson(t));
    if t.Node? {
      assert parts[1..] != [];
      LeafIsMappedAt(t.fields, parts[1..]);
    }
  }

  /** The definition compiled from compatible fields says of every field, under the parts of its path, what it was
      declared to be, and leaves nothing to dynamic mapping. */
  lemma {:induction false} DefinitionIndexesFields(order: seq<SearchableField>, f: SearchableField)
    requires Compatible(Elements(order)) && f in order
    ensures BuildFrom(order).Some?
    ensures match Entry(Definition(BuildFrom(order).value), "mappings")
      case None => false
      case Some(mappings) =>
        && Entry(mappings, "dynamic") == Some(Flag(false))
        && (match Entry(mappings, "fields")
            case None => false
            case Some(fields) =>
              var j := MappingAt(fields, Split(f.path));
              j.Some? && Tells(j.value, f))
  {
    BuildHolds(order);
    var table := BuildFrom(order).value;
    assert HasField(Elements(order), Split(f.path), MappingOf(f));
    LeafIsMappedAt(table, Split(f.path));
    MappingTells(f);
  }
}
