/** The search-index compiler of hoodie/indexes.py: field paths become one nested mapping, and that mapping is
    compared with what the server echoes back. */
module Indexes {
  import opened Paths
  import opened Fields

  datatype Mapping = IdMapping(atlasType: string) | StringMapping(analyzer: string, facetable: bool)

  /** A `Node` is the mapping `{"type": "document", "fields": ...}`. */
  datatype Tree = Leaf(mapping: Mapping) | Node(fields: map<string, Tree>)

  type Table = map<string, Tree>

  function MappingOf(f: SearchableField): Mapping {
    if f.kind.ID? then IdMapping(f.atlasType) else StringMapping(f.config.analyzer, f.config.facetable)
  }

  // ---- Building the nested mapping -------------------------------------------------------------

  /** `_insert_field_mapping`; None is the error of descending into something that is not a document node. */
  function Insert(table: Table, parts: seq<string>, m: Mapping): Option<Table>
    requires parts != []
    decreases |parts|
  {
    var head := parts[0];
    if |parts| == 1 then Some(table[head := Leaf(m)])
    else if head in table && table[head].Leaf? then None
    else
      var inner := if head in table then table[head].fields else map[];
      match Insert(inner, parts[1..], m)
      case None => None
      case Some(inner') => Some(table[head := Node(inner')])
  }

  /** The leaf mapping that a path leads to. */
  function Lookup(table: Table, parts: seq<string>): Option<Mapping>
    decreases |parts|
  {
    if parts == [] || parts[0] !in table then None
    else match table[parts[0]]
      case Leaf(m) => if |parts| == 1 then Some(m) else None
      case Node(fields) => Lookup(fields, parts[1..])
  }

  /** No document node is empty. */
  predicate Grown(table: Table)
    decreases Node(table)
  {
    forall k :: k in table && table[k].Node? ==> table[k].fields != map[] && Grown(table[k].fields)
  }

  lemma {:induction false} GrownHasLeaf(table: Table) returns (parts: seq<string>)
    requires Grown(table) && table != map[]
    ensures Lookup(table, parts).Some?
    decreases Node(table)
  {
    var k :| k in table;
    if table[k].Leaf? {
      parts := [k];
    } else {
      var rest := GrownHasLeaf(table[k].fields);
      parts := [k] + rest;
    }
  }

  ghost predicate SameLeaves(a: Table, b: Table) {
    forall parts {:trigger Lookup(a, parts)} {:trigger Lookup(b, parts)} :: Lookup(a, parts) == Lookup(b, parts)
  }

  lemma {:induction false} SameLeavesHaveKey(a: Table, b: Table, k: string)
    requires Grown(a) && SameLeaves(a, b) && k in a
    ensures k in b && b[k].Leaf? == a[k].Leaf? && (a[k].Leaf? ==> a[k] == b[k])
  {
    if a[k].Leaf? {
      assert Lookup(a, [k]) == Lookup(b, [k]);
      assert [k][1..] == [];
    } else {
      var rest := GrownHasLeaf(a[k].fields);
      assert ([k] + rest)[1..] == rest && rest != [];
      assert Lookup(a, [k] + rest) == Lookup(b, [k] + rest);
    }
  }

  /** A nested mapping is determined by its leaves. */
  lemma {:induction false} LeavesDetermineTable(a: Table, b: Table)
    requires Grown(a) && Grown(b) && SameLeaves(a, b)
    ensures a == b
    decreases Node(a)
  {
    forall k | k in a ensures k in b && a[k] == b[k] {
      SameLeavesHaveKey(a, b, k);
      if a[k].Node? {
        forall parts ensures Lookup(a[k].fields, parts) == Lookup(b[k].fields, parts) {
          assert ([k] + parts)[1..] == parts;
          assert Lookup(a, [k] + parts) == Lookup(b, [k] + parts);
        }
        LeavesDetermineTable(a[k].fields, b[k].fields);
      }
    }
    forall k | k in b ensures k in a {
      SameLeavesHaveKey(b, a, k);
    }
  }

  /** `parts` is new to the table, or leads to `m` already; no other leaf lies above or below it. */
  ghost predicate Fits(table: Table, parts: seq<string>, m: Mapping) {
    forall q {:trigger Lookup(table, q)} ::
      Lookup(table, q).Some? && (q <= parts || parts <= q) ==> q == parts && Lookup(table, q) == Some(m)
  }

  lemma InsertHere(table: Table, head: string, m: Mapping)
    requires Grown(table) && Fits(table, [head], m)
    ensures var r := table[head := Leaf(m)];
      Grown(r) && forall q :: Lookup(r, q) == if q == [head] then Some(m) else Lookup(table, q)
  {
    if head in table && table[head].Node? {
      var rest := GrownHasLeaf(table[head].fields);
      var q := [head] + rest;
      assert q[1..] == rest && rest != [] && [head] <= q && [head] != q;
      assert Lookup(table, q).Some?;
    }
    var r := table[head := Leaf(m)];
    forall q ensures Lookup(r, q) == if q == [head] then Some(m) else Lookup(table, q) {
      if q != [] && q[0] == head && |q| == 1 {
        assert q == [head];
      }
    }
  }

  lemma InnerFits(table: Table, parts: seq<string>, m: Mapping, inner: Table)
    requires Fits(table, parts, m) && |parts| > 1
    requires inner == if parts[0] in table && table[parts[0]].Node? then table[parts[0]].fields else map[]
    ensures !(parts[0] in table && table[parts[0]].Leaf?)
    ensures Fits(inner, parts[1..], m)
  {
    var head := parts[0];
    if head in table && table[head].Leaf? {
      assert [head] <= parts && [head] != parts;
      assert Lookup(table, [head]).Some?;
    }
    forall q | Lookup(inner, q).Some? && (q <= parts[1..] || parts[1..] <= q)
      ensures q == parts[1..] && Lookup(inner, q) == Some(m)
    {
      assert ([head] + q)[1..] == q && [head] + parts[1..] == parts;
      assert Lookup(table, [head] + q) == Lookup(inner, q);
    }
  }

  /** Inserting a path that fits never fails, adds exactly that leaf and leaves the others alone. */
  lemma {:induction false} InsertAddsLeaf(table: Table, parts: seq<string>, m: Mapping)
    requires Grown(table) && parts != [] && Fits(table, parts, m)
    ensures var r := Insert(table, parts, m);
      && r.Some? && Grown(r.value)
      && forall q :: Lookup(r.value, q) == if q == parts then Some(m) else Lookup(table, q)
    decreases |parts|
  {
    var head := parts[0];
    if |parts| == 1 {
      assert parts == [head];
      InsertHere(table, head, m);
    } else {
      var inner := if head in table && table[head].Node? then table[head].fields else map[];
      InnerFits(table, parts, m, inner);
      InsertAddsLeaf(inner, parts[1..], m);
      var inner' := Insert(inner, parts[1..], m).value;
      assert Lookup(inner', parts[1..]).Some?;
      var r := table[head := Node(inner')];
      forall q ensures Lookup(r, q) == if q == parts then Some(m) else Lookup(table, q) {
        if q != [] && q[0] == head {
          assert q == [head] + q[1..] && parts == [head] + parts[1..];
          assert head !in table ==> Lookup(inner, q[1..]).None?;
        }
      }
    }
  }

  /** The fields in the order in which the set hands them out. */
  function BuildFrom(order: seq<SearchableField>): Option<Table> {
    if order == [] then Some(map[])
    else
      match BuildFrom(order[..|order| - 1])
      case None => None
      case Some(table) =>
        var f := order[|order| - 1];
        Insert(table, Split(f.path), MappingOf(f))
  }

  /** Fields with comparable paths have the same path and mapping. */
  ghost predicate Compatible(fields: set<SearchableField>) {
    forall e, f :: e in fields && f in fields && Split(e.path) <= Split(f.path) ==>
      Split(e.path) == Split(f.path) && MappingOf(e) == MappingOf(f)
  }

  ghost predicate HasField(fields: set<SearchableField>, parts: seq<string>, m: Mapping) {
    exists f :: f in fields && Split(f.path) == parts && MappingOf(f) == m
  }

  /** The table holds exactly the fields. */
  ghost predicate Holds(table: Table, fields: set<SearchableField>) {
    forall parts, m {:trigger HasField(fields, parts, m)} :: Lookup(table, parts) == Some(m) <==> HasField(fields, parts, m)
  }

  lemma HoldsFits(table: Table, fields: set<SearchableField>, f: SearchableField)
    requires Holds(table, fields) && Compatible(fields + {f})
    ensures Fits(table, Split(f.path), MappingOf(f))
  {
    var parts := Split(f.path);
    forall q | Lookup(table, q).Some? && (q <= parts || parts <= q)
      ensures q == parts && Lookup(table, q) == Some(MappingOf(f))
    {
      assert HasField(fields, q, Lookup(table, q).value);
      var e :| e in fields && Split(e.path) == q && MappingOf(e) == Lookup(table, q).value;
      assert e in fields + {f} && f in fields + {f};
    }
  }

  lemma HoldsExtends(table: Table, table': Table, fields: set<SearchableField>, f: SearchableField)
    requires Holds(table, fields) && Compatible(fields + {f})
    requires forall q :: Lookup(table', q) == if q == Split(f.path) then Some(MappingOf(f)) else Lookup(table, q)
    ensures Holds(table', fields + {f})
  {
    forall parts, m ensures Lookup(table', parts) == Some(m) <==> HasField(fields + {f}, parts, m) {
      assert Lookup(table, parts) == Some(m) <==> HasField(fields, parts, m);
      if HasField(fields + {f}, parts, m) {
        var e :| e in fields + {f} && Split(e.path) == parts && MappingOf(e) == m;
        if e != f {
          assert HasField(fields, parts, m);
          assert f in fields + {f};
        }
      }
      if Lookup(table', parts) == Some(m) {
        if parts == Split(f.path) {
          assert f in fields + {f};
        } else {
          var e :| e in fields && Split(e.path) == parts && MappingOf(e) == m;
          assert e in fields + {f};
        }
      }
    }
  }

  function Elements(order: seq<SearchableField>): set<SearchableField> {
    set f | f in order
  }

  lemma {:induction false} BuildHolds(order: seq<SearchableField>)
    requires Compatible(Elements(order))
    ensures BuildFrom(order).Some? && Grown(BuildFrom(order).value) && Holds(BuildFrom(order).value, Elements(order))
  {
    if order == [] {
      assert forall parts, m :: !HasField(Elements([]), parts, m);
    } else {
      var init, f := order[..|order| - 1], order[|order| - 1];
      assert Elements(order) == Elements(init) + {f} by {
        assert order == init + [f];
      }
      BuildHolds(init);
      HoldsFits(BuildFrom(init).value, Elements(init), f);
      InsertAddsLeaf(BuildFrom(init).value, Split(f.path), MappingOf(f));
      HoldsExtends(BuildFrom(init).value, BuildFrom(order).value, Elements(init), f);
    }
  }

  /** No leaf lies below another, whatever the table. */
  lemma {:induction false} LeavesArePrefixFree(table: Table, p: seq<string>, q: seq<string>)
    requires Lookup(table, p).Some? && Lookup(table, q).Some? && p <= q
    ensures p == q
    decreases |p|
  {
    assert p[0] == q[0];
    if table[p[0]].Node? {
      LeavesArePrefixFree(table[p[0]].fields, p[1..], q[1..]);
      assert p == [p[0]] + p[1..] && q == [q[0]] + q[1..];
    }
  }

  /** The build round-trips exactly when the fields are compatible, in whatever order the set yields them:
      no insertion fails, none overwrites, and the leaves are precisely the fields. */
  lemma BuildRoundTrips(order: seq<SearchableField>)
    ensures BuildFrom(order).Some? && Holds(BuildFrom(order).value, Elements(order)) <==> Compatible(Elements(order))
  {
    if Compatible(Elements(order)) {
      BuildHolds(order);
    }
    if BuildFrom(order).Some? && Holds(BuildFrom(order).value, Elements(order)) {
      var table := BuildFrom(order).value;
      forall e, f | e in Elements(order) && f in Elements(order) && Split(e.path) <= Split(f.path)
        ensures Split(e.path) == Split(f.path) && MappingOf(e) == MappingOf(f)
      {
        assert HasField(Elements(order), Split(e.path), MappingOf(e));
        assert HasField(Elements(order), Split(f.path), MappingOf(f));
        LeavesArePrefixFree(table, Split(e.path), Split(f.path));
      }
    }
  }

  /** The order does not matter. */
  lemma BuildIgnoresOrder(a: seq<SearchableField>, b: seq<SearchableField>)
    requires Elements(a) == Elements(b) && Compatible(Elements(a))
    ensures BuildFrom(a) == BuildFrom(b)
  {
    BuildHolds(a);
    BuildHolds(b);
    var s, t := BuildFrom(a).value, BuildFrom(b).value;
    forall parts ensures Lookup(s, parts) == Lookup(t, parts) {
      forall m ensures Lookup(s, parts) == Some(m) <==> Lookup(t, parts) == Some(m) {
        assert HasField(Elements(a), parts, m) <==> HasField(Elements(b), parts, m);
      }
      if Lookup(s, parts).Some? {
        assert Lookup(t, parts) == Some(Lookup(s, parts).value);
      }
    }
    LeavesDetermineTable(s, t);
  }

  /** `_build_atlas_index_definition`: the loop over the set. */
  method BuildTable(fields: set<SearchableField>) returns (table: Option<Table>)
    ensures table.Some? && Holds(table.value, fields) <==> Compatible(fields)
    ensures Compatible(fields) ==> Grown(table.value)
  {
    table := Some(map[]);
    var todo := fields;
    ghost var order := [];
    while todo != {} && table.Some?
      invariant table == BuildFrom(order)
      invariant todo <= fields && Elements(order) == fields - todo
    {
      var f :| f in todo;
      table := Insert(table.value, Split(f.path), MappingOf(f));
      assert (order + [f])[..|order|] == order;
      assert Elements(order + [f]) == Elements(order) + {f};
      order := order + [f];
      todo := todo - {f};
    }
    if table.Some? {
      assert Elements(order) == fields;
      BuildRoundTrips(order);
      if Compatible(fields) {
        BuildHolds(order);
      }
    } else if Compatible(fields) {
      SubsetCompatible(fields, Elements(order));
      BuildHolds(order);
    }
  }

  lemma SubsetCompatible(fields: set<SearchableField>, some: set<SearchableField>)
    requires Compatible(fields) && some <= fields
    ensures Compatible(some)
  {
  }

  /** What discovery finds without overrides always builds and round-trips. */
  lemma DiscoveredFieldsCompatible(g: Graph, root: ModelId, atlasType: string)
    requires WellFormed(g) && NoOverrides(g) && root in g
    ensures Compatible({IdField(atlasType)} + Found(g, Item(root, "", [root]), 0))
  {
    DiscoveredPathsPrefixFree(g, root, atlasType);
  }

  // ---- What any build does, order by order -----------------------------------------------------

  predicate Below(p: seq<string>, q: seq<string>) {
    p < q
  }

  ghost predicate Blocked(table: Table, parts: seq<string>) {
    exists q {:trigger Below(q, parts)} :: Below(q, parts) && Lookup(table, q).Some?
  }

  lemma BlockedInside(table: Table, parts: seq<string>, inner: Table)
    requires |parts| > 1 && !(parts[0] in table && table[parts[0]].Leaf?)
    requires inner == if parts[0] in table then table[parts[0]].fields else map[]
    ensures Blocked(table, parts) <==> Blocked(inner, parts[1..])
  {
    var head := [parts[0]];
    assert parts == head + parts[1..];
    if Blocked(table, parts) {
      var q :| Below(q, parts) && Lookup(table, q).Some?;
      assert q == head + q[1..] && Lookup(inner, q[1..]) == Lookup(table, q);
      assert Below(q[1..], parts[1..]);
    }
    if Blocked(inner, parts[1..]) {
      var q :| Below(q, parts[1..]) && Lookup(inner, q).Some?;
      assert (head + q)[1..] == q && Lookup(table, head + q) == Lookup(inner, q);
      assert Below(head + q, parts);
    }
  }

  /** Inserting fails exactly below an existing leaf.  Otherwise the path leads to the new mapping, everything that lay
      below the path is gone, and all other leaves are as before. */
  lemma {:induction false} InsertEffect(table: Table, parts: seq<string>, m: Mapping)
    requires parts != []
    ensures Insert(table, parts, m).None? <==> Blocked(table, parts)
    ensures Insert(table, parts, m).Some? ==> forall q {:trigger Lookup(Insert(table, parts, m).value, q)} ::
      Lookup(Insert(table, parts, m).value, q) ==
        if q == parts then Some(m) else if parts <= q then None else Lookup(table, q)
    decreases |parts|
  {
    var head := parts[0];
    if |parts| == 1 {
      assert parts == [head];
      assert !Blocked(table, parts) by {
        forall q | Below(q, parts) ensures Lookup(table, q).None? {
          assert q == [];
        }
      }
      LeafReplaces(table, head, m);
    } else if head in table && table[head].Leaf? {
      assert Below([head], parts) && Lookup(table, [head]).Some?;
    } else {
      var inner := if head in table then table[head].fields else map[];
      BlockedInside(table, parts, inner);
      InsertEffect(inner, parts[1..], m);
      if Insert(inner, parts[1..], m).Some? {
        NodeReplaces(table, parts, m, inner, Insert(inner, parts[1..], m).value);
      }
    }
  }

  lemma LeafReplaces(table: Table, head: string, m: Mapping)
    ensures forall q {:trigger Lookup(table[head := Leaf(m)], q)} ::
      Lookup(table[head := Leaf(m)], q) == if q == [head] then Some(m) else if [head] <= q then None else Lookup(table, q)
  {
    var r := table[head := Leaf(m)];
    forall q ensures Lookup(r, q) == if q == [head] then Some(m) else if [head] <= q then None else Lookup(table, q) {
      if q != [] && q[0] == head {
        assert [head] <= q && (|q| == 1 ==> q == [head]);
      }
    }
  }

  lemma NodeReplaces(table: Table, parts: seq<string>, m: Mapping, inner: Table, inner': Table)
    requires |parts| > 1 && !(parts[0] in table && table[parts[0]].Leaf?)
    requires inner == if parts[0] in table then table[parts[0]].fields else map[]
    requires forall q {:trigger Lookup(inner', q)} ::
      Lookup(inner', q) == if q == parts[1..] then Some(m) else if parts[1..] <= q then None else Lookup(inner, q)
    ensures forall q {:trigger Lookup(table[parts[0] := Node(inner')], q)} ::
      Lookup(table[parts[0] := Node(inner')], q) ==
        if q == parts then Some(m) else if parts <= q then None else Lookup(table, q)
  {
    var head := [parts[0]];
    var r := table[parts[0] := Node(inner')];
    assert parts == head + parts[1..];
    forall q ensures Lookup(r, q) == if q == parts then Some(m) else if parts <= q then None else Lookup(table, q) {
      if q != [] && q[0] == parts[0] {
        assert q == head + q[1..];
        assert Lookup(r, q) == Lookup(inner', q[1..]);
        assert parts <= q <==> parts[1..] <= q[1..];
      }
    }
  }

  function PathOf(order: seq<SearchableField>, i: nat): seq<string>
    requires i < |order|
  {
    Split(order[i].path)
  }

  /** Field `i` is where an earlier field `j` would have to be passed through. */
  ghost predicate Stops(order: seq<SearchableField>, j: nat, i: nat) {
    j < i < |order| && Below(PathOf(order, j), PathOf(order, i))
  }

  /** Some field comes after another whose path lies above its own. */
  ghost predicate Raises(order: seq<SearchableField>) {
    exists j, i {:trigger Stops(order, j, i)} :: 0 <= j && 0 <= i && Stops(order, j, i)
  }

  /** Field `i` is overwritten or cut off by the later field `j`. */
  ghost predicate Loses(order: seq<SearchableField>, i: nat, j: nat) {
    i < j < |order| && PathOf(order, j) <= PathOf(order, i)
  }

  /** No later field lies at or above field `i`. */
  ghost predicate Survives(order: seq<SearchableField>, i: nat) {
    i < |order| && forall j {:trigger Loses(order, i, j)} :: 0 <= j ==> !Loses(order, i, j)
  }

  /** Field `i` survives and has this path and mapping. */
  ghost predicate Left(order: seq<SearchableField>, i: nat, parts: seq<string>, m: Mapping) {
    Survives(order, i) && PathOf(order, i) == parts && MappingOf(order[i]) == m
  }

  ghost predicate SomeLeft(order: seq<SearchableField>, parts: seq<string>, m: Mapping) {
    exists i {:trigger Left(order, i, parts, m)} :: 0 <= i && Left(order, i, parts, m)
  }

  /** The table's leaves are exactly the surviving fields. */
  ghost predicate HoldsSurvivors(table: Table, order: seq<SearchableField>) {
    forall parts, m {:trigger SomeLeft(order, parts, m)} :: Lookup(table, parts) == Some(m) <==> SomeLeft(order, parts, m)
  }

  lemma SurvivesSnoc(order: seq<SearchableField>, f: SearchableField, i: nat)
    requires i < |order|
    ensures Survives(order + [f], i) <==> Survives(order, i) && !(Split(f.path) <= PathOf(order, i))
  {
    var longer := order + [f];
    assert PathOf(longer, i) == PathOf(order, i);
    forall j: nat | j < |order| ensures Loses(longer, i, j) <==> Loses(order, i, j) {
    }
    assert Loses(longer, i, |order|) <==> Split(f.path) <= PathOf(order, i);
    if Survives(longer, i) {
      forall j: nat ensures !Loses(order, i, j) {
        assert j < |order| ==> !Loses(longer, i, j);
      }
    }
    if Survives(order, i) && !(Split(f.path) <= PathOf(order, i)) {
      forall j: nat ensures !Loses(longer, i, j) {
        assert j < |order| ==> !Loses(order, i, j);
      }
    }
  }

  lemma LastSurvives(order: seq<SearchableField>, f: SearchableField)
    ensures Survives(order + [f], |order|) && PathOf(order + [f], |order|) == Split(f.path)
  {
  }

  lemma SomeLeftSnoc(order: seq<SearchableField>, f: SearchableField, parts: seq<string>, m: Mapping)
    ensures SomeLeft(order + [f], parts, m) <==>
      if parts == Split(f.path) then m == MappingOf(f) else !(Split(f.path) <= parts) && SomeLeft(order, parts, m)
  {
    var longer := order + [f];
    LastSurvives(order, f);
    forall i: nat | i < |order|
      ensures Left(longer, i, parts, m) <==> Left(order, i, parts, m) && !(Split(f.path) <= parts)
    {
      SurvivesSnoc(order, f, i);
    }
    if SomeLeft(longer, parts, m) {
      var i: nat :| Left(longer, i, parts, m);
      assert i < |order| ==> Left(order, i, parts, m);
    }
    if parts == Split(f.path) && m == MappingOf(f) {
      assert Left(longer, |order|, parts, m);
    } else if !(Split(f.path) <= parts) && SomeLeft(order, parts, m) {
      var i: nat :| Left(order, i, parts, m);
      assert Left(longer, i, parts, m);
    }
  }

  lemma RaisesSnoc(order: seq<SearchableField>, f: SearchableField)
    ensures Raises(order + [f]) <==> Raises(order) || exists j :: 0 <= j < |order| && Below(PathOf(order, j), Split(f.path))
  {
    var longer := order + [f];
    forall j: nat, i: nat | i < |order| ensures Stops(longer, j, i) <==> Stops(order, j, i) {
    }
    forall j: nat | j < |order| ensures Stops(longer, j, |order|) <==> Below(PathOf(order, j), Split(f.path)) {
    }
    if Raises(longer) {
      var j: nat, i: nat :| Stops(longer, j, i);
      assert i < |order| ==> Stops(order, j, i);
    }
    if Raises(order) {
      var j: nat, i: nat :| Stops(order, j, i);
      assert Stops(longer, j, i);
    }
    if exists j :: 0 <= j < |order| && Below(PathOf(order, j), Split(f.path)) {
      var j :| 0 <= j < |order| && Below(PathOf(order, j), Split(f.path));
      assert Stops(longer, j, |order|);
    }
  }

  /** Above every field there is a survivor, or the field itself is one. */
  lemma {:induction false} SurvivorAtOrAbove(order: seq<SearchableField>, j: nat) returns (i: nat)
    requires j < |order|
    ensures i < |order| && Survives(order, i) && PathOf(order, i) <= PathOf(order, j)
    decreases |order| - j
  {
    if Survives(order, j) {
      i := j;
    } else {
      var k: nat :| Loses(order, j, k);
      i := SurvivorAtOrAbove(order, k);
    }
  }

  lemma BlockedExactly(table: Table, order: seq<SearchableField>, f: SearchableField)
    requires HoldsSurvivors(table, order)
    ensures Blocked(table, Split(f.path)) <==> exists j :: 0 <= j < |order| && Below(PathOf(order, j), Split(f.path))
  {
    var parts := Split(f.path);
    if Blocked(table, parts) {
      var q :| Below(q, parts) && Lookup(table, q).Some?;
      assert SomeLeft(order, q, Lookup(table, q).value);
      var i: nat :| Left(order, i, q, Lookup(table, q).value);
      assert Below(PathOf(order, i), parts);
    }
    if exists j :: 0 <= j < |order| && Below(PathOf(order, j), parts) {
      var j :| 0 <= j < |order| && Below(PathOf(order, j), parts);
      var i := SurvivorAtOrAbove(order, j);
      var q, m := PathOf(order, i), MappingOf(order[i]);
      assert Left(order, i, q, m) && SomeLeft(order, q, m);
      assert Below(q, parts) && Lookup(table, q) == Some(m);
    }
  }

  lemma SurvivorsSnoc(table: Table, order: seq<SearchableField>, f: SearchableField)
    requires HoldsSurvivors(table, order) && Insert(table, Split(f.path), MappingOf(f)).Some?
    ensures HoldsSurvivors(Insert(table, Split(f.path), MappingOf(f)).value, order + [f])
  {
    InsertEffect(table, Split(f.path), MappingOf(f));
    forall parts, m ensures
      Lookup(Insert(table, Split(f.path), MappingOf(f)).value, parts) == Some(m) <==> SomeLeft(order + [f], parts, m)
    {
      SomeLeftSnoc(order, f, parts, m);
      assert SomeLeft(order, parts, m) <==> Lookup(table, parts) == Some(m);
    }
  }

  /** Every order has its outcome: the build fails exactly if some field comes after one whose path lies above its own;
      otherwise it leaves exactly the fields that no later field overwrites or cuts off. */
  lemma {:induction false} BuildOutcome(order: seq<SearchableField>)
    ensures BuildFrom(order).None? <==> Raises(order)
    ensures BuildFrom(order).Some? ==> HoldsSurvivors(BuildFrom(order).value, order)
    decreases |order|
  {
    if order == [] {
      forall parts, m ensures !SomeLeft([], parts, m) {
      }
    } else {
      var init, f := order[..|order| - 1], order[|order| - 1];
      assert order == init + [f];
      BuildOutcome(init);
      RaisesSnoc(init, f);
      if BuildFrom(init).Some? {
        var table := BuildFrom(init).value;
        InsertEffect(table, Split(f.path), MappingOf(f));
        BlockedExactly(table, init, f);
        if BuildFrom(order).Some? {
          SurvivorsSnoc(table, init, f);
        }
      }
    }
  }

  /** One declaration, two outcomes: with one field's path above another's, the order in which the set yields them
      decides between an error and the silent loss of the lower field. */
  lemma OrderDecides(a: SearchableField, b: SearchableField)
    requires Below(Split(a.path), Split(b.path))
    ensures BuildFrom([a, b]).None?
    ensures BuildFrom([b, a]).Some?
    ensures forall parts, m :: Lookup(BuildFrom([b, a]).value, parts) == Some(m) <==>
      parts == Split(a.path) && m == MappingOf(a)
  {
    BuildOutcome([a, b]);
    assert Stops([a, b], 0, 1);
    var order := [b, a];
    BuildOutcome(order);
    assert [b] + [a] == order && PathOf(order, 0) == Split(b.path) && PathOf(order, 1) == Split(a.path);
    forall j: nat, i: nat ensures !Stops(order, j, i) {
      assert !(Split(b.path) < Split(a.path));
    }
    assert !Raises(order);
    LastSurvives([b], a);
    assert Loses(order, 0, 1);
    var table := BuildFrom(order).value;
    forall parts, m ensures Lookup(table, parts) == Some(m) <==> parts == Split(a.path) && m == MappingOf(a) {
      assert Lookup(table, parts) == Some(m) <==> SomeLeft(order, parts, m);
      if parts == Split(a.path) && m == MappingOf(a) {
        assert Left(order, 1, parts, m);
      }
    }
  }

  /** A model with two string fields, the one's declared path above the other's. */
  function Overriding(x: string, y: string): seq<FieldDecl> {
    [FieldDecl("a", Str, Some(Config(false, "lucene.standard", x))),
     FieldDecl("b", Str, Some(Config(false, "lucene.standard", x + "." + y)))]
  }

  lemma {:induction false} OverridesAreDiscovered(x: string, y: string, f: SearchableField)
    requires IsName(x) && IsName(y)
    ensures var g: Graph := map[0 := Overriding(x, y)];
      && WellFormed(g) && !RaisesOnChain(g, 0)
      && (f == SearchableField("a", STRING, Config(false, "lucene.standard", x), x, "")
          || f == SearchableField("b", STRING, Config(false, "lucene.standard", x + "." + y), x + "." + y, "")
          ==> DeclaredOnChain(g, 0, f))
  {
    var g: Graph := map[0 := Overriding(x, y)];
    assert FieldOn(g, [0], [], 0) && FieldOn(g, [0], [], 1);
    assert Peels(Str, Str) && OfKind(Str, STRING);
    forall models, names, i | FieldOn(g, models, names, i) ensures !Unsupported(DeclOn(g, models, names, i)) {
      assert models[|models| - 1] == 0;
    }
    if f.name == "a" {
      assert DeclOn(g, [0], [], 0) == Overriding(x, y)[0];
    } else {
      assert DeclOn(g, [0], [], 1) == Overriding(x, y)[1];
    }
  }

  /** Path overrides make such declarations: this model's fields are discovered under the declared paths, and then the
      order decides between an error and the loss of one of them. */
  lemma {:induction false} OverridesCanCollide(x: string, y: string) returns (a: SearchableField, b: SearchableField)
    requires IsName(x) && IsName(y)
    ensures var g: Graph := map[0 := Overriding(x, y)];
      WellFormed(g) && !RaisesOnChain(g, 0) && DeclaredOnChain(g, 0, a) && DeclaredOnChain(g, 0, b)
    ensures a.name == "a" && b.name == "b" && a.path == x && b.path == x + "." + y
    ensures BuildFrom([a, b]).None? && BuildFrom([b, a]).Some?
    ensures Lookup(BuildFrom([b, a]).value, Split(b.path)).None?
  {
    a := SearchableField("a", STRING, Config(false, "lucene.standard", x), x, "");
    b := SearchableField("b", STRING, Config(false, "lucene.standard", x + "." + y), x + "." + y, "");
    OverridesAreDiscovered(x, y, a);
    OverridesAreDiscovered(x, y, b);
    SplitName(x);
    SplitExtend(x, y);
    assert Below(Split(a.path), Split(b.path));
    OrderDecides(a, b);
    assert Split(b.path) != Split(a.path);
  }
}
