/** Field discovery of hoodie/fields.py: the breadth-first walk over a possibly cyclic graph of models. */
module Fields {
  import opened Paths

  type ModelId = nat

  datatype Option<T> = None | Some(value: T)

  datatype Result<T> = Ok(value: T) | Err(at: string)

  /** A type annotation.  `Wrapped` is a type alias or an `Annotated`; `Opaque` is any other type. */
  datatype Ann =
    | Str
    | NoneType
    | Model(id: ModelId)
    | Wrapped(inner: Ann)
    | Union(args: seq<Ann>)
    | Container(args: seq<Ann>)
    | Tuple(args: seq<Ann>, variadic: bool)
    | Opaque

  datatype SearchableType = STRING | STRING_LIST | ID

  datatype Config = Config(facetable: bool, analyzer: string, path: string)

  /** A declared field; `config.path` is empty unless it overrides the field's own path. */
  datatype FieldDecl = FieldDecl(name: string, ann: Ann, config: Option<Config>)

  datatype SearchableField = SearchableField(name: string, kind: SearchableType, config: Config, path: string, atlasType: string)

  type Graph = map<ModelId, seq<FieldDecl>>

  /** A queue entry: a model, the path to it, and the models on the way to it, itself included. */
  datatype Item = Item(model: ModelId, prefix: string, ancestors: seq<ModelId>)

  // ---- Annotations -----------------------------------------------------------------------------

  function WithoutNone(args: seq<Ann>): (r: seq<Ann>)
    ensures forall i :: 0 <= i < |r| ==> r[i] in args
  {
    if args == [] then []
    else (if args[0].NoneType? then [] else [args[0]]) + WithoutNone(args[1..])
  }

  /** `_unwrap_optional`; None stands for the ValueError of a complex union. */
  function Unwrapped(a: Ann): Option<Ann> {
    match a
    case Wrapped(inner) => Unwrapped(inner)
    case Union(args) =>
      var rest := WithoutNone(args);
      if |rest| == 1 then Unwrapped(rest[0]) else None
    case _ => Some(a)
  }

  method UnwrapOptional(ann: Ann) returns (r: Option<Ann>)
    ensures r == Unwrapped(ann)
  {
    var a := ann;
    while true
      invariant Unwrapped(a) == Unwrapped(ann)
      decreases a
    {
      if a.Wrapped? {
        a := a.inner;
      } else if a.Union? {
        var rest := WithoutNone(a.args);
        if |rest| != 1 {
          return None;
        }
        a := rest[0];
      } else {
        return Some(a);
      }
    }
  }

  predicate IsStr(a: Ann) {
    Unwrapped(a) == Some(Str)
  }

  /** The built-in resolvers: strings, and containers of strings. */
  function ResolvedType(a: Ann): Option<SearchableType> {
    match Unwrapped(a)
    case None => None
    case Some(u) =>
      match u
      case Str => Some(STRING)
      case Container(args) => if args != [] && IsStr(args[0]) then Some(STRING_LIST) else None
      case Tuple(args, variadic) =>
        if args == [] then None
        else if variadic then (if IsStr(args[0]) then Some(STRING_LIST) else None)
        else if forall i :: 0 <= i < |args| ==> IsStr(args[i]) then Some(STRING_LIST)
        else None
      case _ => None
  }

  function NestedModel(a: Ann): Option<ModelId> {
    match Unwrapped(a)
    case Some(Model(id)) => Some(id)
    case _ => None
  }

  /** A field that raises: it is declared searchable with an unsupported type, or it is a complex union. */
  predicate Raises(d: FieldDecl) {
    Unwrapped(d.ann).None? || (d.config.Some? && ResolvedType(d.ann).None?)
  }

  function Built(d: FieldDecl, prefix: string): SearchableField
    requires d.config.Some? && ResolvedType(d.ann).Some?
  {
    SearchableField(d.name, ResolvedType(d.ann).value, d.config.value,
                    if d.config.value.path != "" then d.config.value.path else Extend(prefix, d.name), "")
  }

  function IdField(atlasType: string): SearchableField {
    SearchableField("_id", ID, Config(false, "lucene.standard", ""), "_id", atlasType)
  }

  // ---- What annotations mean -------------------------------------------------------------------

  /** `u` is what is left of the annotation without its wrappers and its one optional type. */
  ghost predicate Peels(a: Ann, u: Ann) {
    match a
    case Wrapped(inner) => Peels(inner, u)
    case Union(args) =>
      exists i :: 0 <= i < |args| && args[i] != NoneType && Peels(args[i], u)
                  && forall j :: 0 <= j < |args| && j != i ==> args[j] == NoneType
    case _ => u == a
  }

  lemma {:induction false} NoneLeft(args: seq<Ann>)
    ensures WithoutNone(args) == [] <==> forall j :: 0 <= j < |args| ==> args[j] == NoneType
  {
    if args != [] {
      NoneLeft(args[1..]);
      assert forall j :: 1 <= j < |args| ==> args[j] == args[1..][j - 1];
    }
  }

  /** One type is left of a union exactly if the others are None. */
  lemma {:induction false} OneLeft(args: seq<Ann>, i: nat)
    requires i < |args| && args[i] != NoneType
    ensures |WithoutNone(args)| == 1 <==> forall j :: 0 <= j < |args| && j != i ==> args[j] == NoneType
    ensures |WithoutNone(args)| == 1 ==> WithoutNone(args)[0] == args[i]
  {
    var rest := args[1..];
    assert forall j :: 1 <= j < |args| ==> args[j] == rest[j - 1];
    if i > 0 {
      OneLeft(rest, i - 1);
      NoneLeft(rest);
      assert args[0] == NoneType || rest[i - 1] != NoneType;
    } else {
      NoneLeft(rest);
    }
  }

  lemma {:induction false} SomeLeftOfUnion(args: seq<Ann>) returns (i: nat)
    requires WithoutNone(args) != []
    ensures i < |args| && args[i] != NoneType
  {
    if args[0] != NoneType {
      i := 0;
    } else {
      var k := SomeLeftOfUnion(args[1..]);
      i := k + 1;
    }
  }

  /** `_unwrap_optional` peels wrappers and optionals off, and fails exactly on a union of any other kind. */
  lemma {:induction false} UnwrappedIsPeeled(a: Ann, u: Ann)
    ensures Unwrapped(a) == Some(u) <==> Peels(a, u)
  {
    match a
    case Wrapped(inner) => UnwrappedIsPeeled(inner, u);
    case Union(args) =>
      var rest := WithoutNone(args);
      if rest != [] {
        var i := SomeLeftOfUnion(args);
        OneLeft(args, i);
        UnwrappedIsPeeled(args[i], u);
      } else {
        NoneLeft(args);
      }
    case _ =>
  }

  /** The annotation is a string, or a container of strings. */
  ghost predicate OfKind(a: Ann, kind: SearchableType) {
    match kind
    case STRING => Peels(a, Str)
    case STRING_LIST =>
      || (exists args :: Peels(a, Container(args)) && args != [] && Peels(args[0], Str))
      || (exists args :: Peels(a, Tuple(args, true)) && args != [] && Peels(args[0], Str))
      || (exists args :: Peels(a, Tuple(args, false)) && args != [] && forall i :: 0 <= i < |args| ==> Peels(args[i], Str))
    case ID => false
  }

  lemma {:induction false} PeelsOneWay(a: Ann, u: Ann)
    requires Unwrapped(a) == Some(u)
    ensures forall v :: Peels(a, v) <==> v == u
  {
    forall v ensures Peels(a, v) <==> v == u {
      UnwrappedIsPeeled(a, v);
    }
  }

  /** The same of an annotation that is peeled already. */
  ghost predicate PeeledKind(u: Ann, kind: SearchableType) {
    match u
    case Str => kind == STRING
    case Container(args) => kind == STRING_LIST && args != [] && Peels(args[0], Str)
    case Tuple(args, variadic) =>
      kind == STRING_LIST && args != []
      && if variadic then Peels(args[0], Str) else forall i :: 0 <= i < |args| ==> Peels(args[i], Str)
    case _ => false
  }

  lemma {:induction false} KindOfPeeled(a: Ann, u: Ann, kind: SearchableType)
    requires forall v :: Peels(a, v) <==> v == u
    ensures OfKind(a, kind) <==> PeeledKind(u, kind)
  {
    if PeeledKind(u, kind) && u.Container? {
      assert Peels(a, Container(u.args));
    }
    if PeeledKind(u, kind) && u.Tuple? {
      assert Peels(a, Tuple(u.args, u.variadic));
    }
  }

  lemma {:induction false} ResolvedKind(a: Ann, u: Ann, kind: SearchableType)
    requires Unwrapped(a) == Some(u)
    ensures ResolvedType(a) == Some(kind) <==> PeeledKind(u, kind)
  {
    if u.Container? || u.Tuple? {
      forall i | 0 <= i < |u.args| ensures IsStr(u.args[i]) <==> Peels(u.args[i], Str) {
        UnwrappedIsPeeled(u.args[i], Str);
      }
    }
  }

  lemma {:induction false} ResolvedIsOfKind(a: Ann, kind: SearchableType)
    ensures ResolvedType(a) == Some(kind) <==> OfKind(a, kind)
  {
    if Unwrapped(a).None? {
      forall u ensures !Peels(a, u) {
        UnwrappedIsPeeled(a, u);
      }
    } else {
      var u := Unwrapped(a).value;
      PeelsOneWay(a, u);
      KindOfPeeled(a, u, kind);
      ResolvedKind(a, u, kind);
    }
  }

  lemma {:induction false} NestedIsPeeled(a: Ann, id: ModelId)
    ensures NestedModel(a) == Some(id) <==> Peels(a, Model(id))
  {
    UnwrappedIsPeeled(a, Model(id));
  }

  // ---- What a declaration declares -------------------------------------------------------------

  /** `f` is the searchable field that the declaration makes at the end of a chain of names: with its name, its
      configuration and its kind, under the declared path if there is one, and else under the names joined. */
  ghost predicate Declares(d: FieldDecl, names: seq<string>, f: SearchableField) {
    && d.config == Some(f.config) && f.name == d.name && f.atlasType == ""
    && OfKind(d.ann, f.kind)
    && f.path == if f.config.path == "" then Join(names + [d.name]) else f.config.path
  }

  /** The declaration cannot be indexed: its annotation is a union that is not optional, or it is declared searchable
      and is neither a string nor a container of strings. */
  ghost predicate Unsupported(d: FieldDecl) {
    (forall u :: !Peels(d.ann, u)) || (d.config.Some? && forall kind :: !OfKind(d.ann, kind))
  }

  lemma {:induction false} RaisesIsUnsupported(d: FieldDecl)
    ensures Raises(d) <==> Unsupported(d)
  {
    forall kind ensures ResolvedType(d.ann) == Some(kind) <==> OfKind(d.ann, kind) {
      ResolvedIsOfKind(d.ann, kind);
    }
    forall u ensures Unwrapped(d.ann) == Some(u) <==> Peels(d.ann, u) {
      UnwrappedIsPeeled(d.ann, u);
    }
    if Unwrapped(d.ann).Some? {
      assert Peels(d.ann, Unwrapped(d.ann).value);
    }
    if ResolvedType(d.ann).Some? {
      assert OfKind(d.ann, ResolvedType(d.ann).value);
    }
  }

  lemma {:induction false} BuiltIsDeclared(d: FieldDecl, names: seq<string>, f: SearchableField)
    ensures !Raises(d) && d.config.Some? && f == Built(d, Join(names)) <==> Declares(d, names, f)
  {
    assert (names + [d.name])[..|names|] == names;
    ResolvedIsOfKind(d.ann, f.kind);
    if ResolvedType(d.ann).Some? {
      ResolvedIsOfKind(d.ann, ResolvedType(d.ann).value);
    }
  }

  // ---- What the walk finds, as a recursion -----------------------------------------------------

  /** Models only refer to models of the graph, and a model's field names are distinct identifiers. */
  ghost predicate WellFormed(g: Graph) {
    forall m, i :: m in g && 0 <= i < |g[m]| ==>
      && IsName(g[m][i].name)
      && (NestedModel(g[m][i].ann).Some? ==> NestedModel(g[m][i].ann).value in g)
      && forall j :: 0 <= j < |g[m]| && g[m][j].name == g[m][i].name ==> j == i
  }

  function Seen(models: seq<ModelId>): set<ModelId> {
    set m | m in models
  }

  ghost function Unseen(g: Graph, models: seq<ModelId>): nat {
    |g.Keys - Seen(models)|
  }

  function Child(item: Item, d: FieldDecl): Option<Item> {
    match NestedModel(d.ann)
    case None => None
    case Some(m) =>
      if m in item.ancestors then None else Some(Item(m, Extend(item.prefix, d.name), item.ancestors + [m]))
  }

  lemma ChildSeesLess(g: Graph, item: Item, d: FieldDecl)
    requires Child(item, d).Some? && Child(item, d).value.model in g
    ensures Unseen(g, Child(item, d).value.ancestors) < Unseen(g, item.ancestors)
  {
    var m := Child(item, d).value.model;
    assert Seen(item.ancestors + [m]) == Seen(item.ancestors) + {m};
    var rest := g.Keys - Seen(item.ancestors);
    assert g.Keys - Seen(item.ancestors + [m]) == rest - {m} && m in rest;
  }

  /** The fields found at and below an item, from its field number `k` on. */
  ghost function Found(g: Graph, item: Item, k: nat): set<SearchableField>
    requires WellFormed(g) && item.model in g && k <= |g[item.model]|
    decreases Unseen(g, item.ancestors), |g[item.model]| - k
  {
    if k == |g[item.model]| then {}
    else
      var d := g[item.model][k];
      (if !Raises(d) && d.config.Some? then {Built(d, item.prefix)} else {})
      + (if Child(item, d).Some? then (ChildSeesLess(g, item, d); Found(g, Child(item, d).value, 0)) else {})
      + Found(g, item, k + 1)
  }

  /** No field at or below the item raises, from its field number `k` on. */
  ghost predicate Clean(g: Graph, item: Item, k: nat)
    requires WellFormed(g) && item.model in g && k <= |g[item.model]|
    decreases Unseen(g, item.ancestors), |g[item.model]| - k
  {
    k < |g[item.model]| ==>
      var d := g[item.model][k];
      && !Raises(d)
      && (Child(item, d).Some? ==> (ChildSeesLess(g, item, d); Clean(g, Child(item, d).value, 0)))
      && Clean(g, item, k + 1)
  }

  /** How many items the walk takes off the queue at and below an item. */
  ghost function Work(g: Graph, item: Item, k: nat): (n: nat)
    requires WellFormed(g) && item.model in g && k <= |g[item.model]|
    ensures n > 0
    decreases Unseen(g, item.ancestors), |g[item.model]| - k
  {
    if k == |g[item.model]| then 1
    else
      var d := g[item.model][k];
      (if Child(item, d).Some? then (ChildSeesLess(g, item, d); Work(g, Child(item, d).value, 0)) else 0)
      + Work(g, item, k + 1)
  }

  // ---- The same over a queue -------------------------------------------------------------------

  ghost predicate QueueIn(g: Graph, queue: seq<Item>) {
    forall i :: 0 <= i < |queue| ==> queue[i].model in g
  }

  ghost function FoundAll(g: Graph, queue: seq<Item>): set<SearchableField>
    requires WellFormed(g) && QueueIn(g, queue)
  {
    if queue == [] then {} else Found(g, queue[0], 0) + FoundAll(g, queue[1..])
  }

  ghost predicate CleanAll(g: Graph, queue: seq<Item>)
    requires WellFormed(g) && QueueIn(g, queue)
  {
    queue == [] || (Clean(g, queue[0], 0) && CleanAll(g, queue[1..]))
  }

  ghost function WorkAll(g: Graph, queue: seq<Item>): nat
    requires WellFormed(g) && QueueIn(g, queue)
  {
    if queue == [] then 0 else Work(g, queue[0], 0) + WorkAll(g, queue[1..])
  }

  lemma {:induction false} QueueAppend(g: Graph, queue: seq<Item>, item: Item)
    requires WellFormed(g) && QueueIn(g, queue) && item.model in g
    ensures QueueIn(g, queue + [item])
    ensures FoundAll(g, queue + [item]) == FoundAll(g, queue) + Found(g, item, 0)
    ensures CleanAll(g, queue + [item]) <==> CleanAll(g, queue) && Clean(g, item, 0)
    ensures WorkAll(g, queue + [item]) == WorkAll(g, queue) + Work(g, item, 0)
  {
    if queue == [] {
      assert queue + [item] == [item] && [item][1..] == [];
    } else {
      QueueAppend(g, queue[1..], item);
      assert (queue + [item])[1..] == queue[1..] + [item] && (queue + [item])[0] == queue[0];
    }
  }

  /** The queue and the result after field `d` of `item`. */
  function QueueAfter(queue: seq<Item>, item: Item, d: FieldDecl): seq<Item> {
    queue + if Child(item, d).Some? then [Child(item, d).value] else []
  }

  function FoundAfter(found: set<SearchableField>, item: Item, d: FieldDecl): set<SearchableField> {
    found + if !Raises(d) && d.config.Some? then {Built(d, item.prefix)} else {}
  }

  /** `_enqueue_nested_model`; no value stands for the ValueError of a complex union. */
  method EnqueueNestedModel(queue: seq<Item>, d: FieldDecl, item: Item) returns (r: Option<seq<Item>>)
    ensures r.None? <==> Unwrapped(d.ann).None?
    ensures r.Some? ==> r.value == QueueAfter(queue, item, d)
  {
    var unwrapped := UnwrapOptional(d.ann);
    if unwrapped.None? {
      return None;
    }
    if unwrapped.value.Model? && unwrapped.value.id !in item.ancestors {
      return Some(queue + [Item(unwrapped.value.id, Extend(item.prefix, d.name), item.ancestors + [unwrapped.value.id])]);
    }
    assert queue + [] == queue;
    return Some(queue);
  }

  /** One field moves its share of the work from the item to the result and the queue. */
  lemma FieldStep(g: Graph, item: Item, k: nat, queue: seq<Item>, found: set<SearchableField>)
    requires WellFormed(g) && item.model in g && k < |g[item.model]| && QueueIn(g, queue) && !Raises(g[item.model][k])
    ensures var d := g[item.model][k];
      var queue', found' := QueueAfter(queue, item, d), FoundAfter(found, item, d);
      && QueueIn(g, queue')
      && found' + FoundAll(g, queue') + Found(g, item, k + 1) == found + FoundAll(g, queue) + Found(g, item, k)
      && WorkAll(g, queue') + Work(g, item, k + 1) == WorkAll(g, queue) + Work(g, item, k)
      && (CleanAll(g, queue') && Clean(g, item, k + 1) <==> CleanAll(g, queue) && Clean(g, item, k))
  {
    var d := g[item.model][k];
    if Child(item, d).Some? {
      QueueAppend(g, queue, Child(item, d).value);
    } else {
      assert queue + [] == queue;
    }
  }

  /** What was to be found, done and refused at the start is what still is, once the first `k` fields have moved on. */
  ghost predicate Moved(g: Graph, item: Item, k: nat, queue0: seq<Item>, found0: set<SearchableField>,
                        queue: seq<Item>, found: set<SearchableField>)
    requires WellFormed(g) && item.model in g && k <= |g[item.model]| && QueueIn(g, queue0) && QueueIn(g, queue)
  {
    && found + FoundAll(g, queue) + Found(g, item, k) == found0 + FoundAll(g, queue0) + Found(g, item, 0)
    && WorkAll(g, queue) + Work(g, item, k) == WorkAll(g, queue0) + Work(g, item, 0)
    && (CleanAll(g, queue) && Clean(g, item, k) <==> CleanAll(g, queue0) && Clean(g, item, 0))
  }

  lemma FieldMoves(g: Graph, item: Item, k: nat, queue0: seq<Item>, found0: set<SearchableField>,
                   queue: seq<Item>, found: set<SearchableField>)
    requires WellFormed(g) && item.model in g && k < |g[item.model]| && QueueIn(g, queue0) && QueueIn(g, queue)
    requires Moved(g, item, k, queue0, found0, queue, found) && !Raises(g[item.model][k])
    ensures var d := g[item.model][k];
      && QueueIn(g, QueueAfter(queue, item, d))
      && Moved(g, item, k + 1, queue0, found0, QueueAfter(queue, item, d), FoundAfter(found, item, d))
    ensures Clean(g, item, k) ==> Clean(g, item, k + 1)
  {
    FieldStep(g, item, k, queue, found);
  }

  /** The body of the walk's inner loop: the field is built if it is searchable, and its model queued. */
  method VisitField(queue: seq<Item>, d: FieldDecl, item: Item, found: set<SearchableField>)
      returns (r: Option<seq<Item>>, found': set<SearchableField>)
    ensures r.None? <==> Raises(d)
    ensures r.Some? ==> r.value == QueueAfter(queue, item, d) && found' == FoundAfter(found, item, d)
  {
    found' := found;
    if d.config.Some? {
      if ResolvedType(d.ann).None? {
        return None, found';
      }
      found' := found' + {Built(d, item.prefix)};
    }
    r := EnqueueNestedModel(queue, d, item);
  }

  lemma AllMoved(g: Graph, item: Item, queue0: seq<Item>, found0: set<SearchableField>,
                 queue: seq<Item>, found: set<SearchableField>)
    requires WellFormed(g) && item.model in g && QueueIn(g, queue0) && QueueIn(g, queue)
    requires Moved(g, item, |g[item.model]|, queue0, found0, queue, found)
    ensures found + FoundAll(g, queue) == found0 + FoundAll(g, queue0) + Found(g, item, 0)
    ensures WorkAll(g, queue) + 1 == WorkAll(g, queue0) + Work(g, item, 0)
    ensures CleanAll(g, queue) <==> CleanAll(g, queue0) && Clean(g, item, 0)
  {
  }

  lemma RaisingIsUnclean(g: Graph, item: Item, k: nat)
    requires WellFormed(g) && item.model in g && k < |g[item.model]| && Raises(g[item.model][k])
    ensures !Clean(g, item, k)
  {
  }

  /** The body of the walk's outer loop: all fields of one model. */
  method VisitModel(g: Graph, item: Item, queue: seq<Item>, found: set<SearchableField>)
      returns (r: Result<set<SearchableField>>, queue': seq<Item>)
    requires WellFormed(g) && item.model in g && QueueIn(g, queue)
    ensures QueueIn(g, queue')
    ensures r.Ok? ==>
      && r.value + FoundAll(g, queue') == found + FoundAll(g, queue) + Found(g, item, 0)
      && WorkAll(g, queue') + 1 == WorkAll(g, queue) + Work(g, item, 0)
      && (CleanAll(g, queue') <==> CleanAll(g, queue) && Clean(g, item, 0))
    ensures r.Err? ==> !Clean(g, item, 0)
  {
    queue' := queue;
    var out := found;
    for k := 0 to |g[item.model]|
      invariant QueueIn(g, queue')
      invariant Moved(g, item, k, queue, found, queue', out)
      invariant Clean(g, item, 0) ==> Clean(g, item, k)
    {
      var d := g[item.model][k];
      var extended, added := VisitField(queue', d, item, out);
      if extended.None? {
        RaisingIsUnclean(g, item, k);
        r := Err(Extend(item.prefix, d.name));
        return;
      }
      FieldMoves(g, item, k, queue, found, queue', out);
      queue', out := extended.value, added;
    }
    AllMoved(g, item, queue, found, queue', out);
    r := Ok(out);
  }

  /** `get_searchable_fields`.  It ends on every finite graph, cyclic ones included: a queue entry is replaced
      by entries with strictly longer repeat-free ancestor chains.  It fails exactly when the primary key has no
      mapping or a field on a repeat-free chain from the root raises, and otherwise returns exactly `_id` and the
      searchable fields on those chains. */
  method GetSearchableFields(g: Graph, root: ModelId, idType: Option<string>) returns (r: Result<set<SearchableField>>)
    requires WellFormed(g) && root in g
    ensures r.Ok? <==> idType.Some? && !RaisesOnChain(g, root)
    ensures r.Ok? ==> forall f :: f in r.value <==>
      f == SearchableField("_id", ID, Config(false, "lucene.standard", ""), "_id", idType.value)
      || DeclaredOnChain(g, root, f)
  {
    if idType.None? {
      return Err("id");
    }
    var found := {IdField(idType.value)};
    var start := Item(root, "", [root]);
    var queue := [start];
    assert queue[1..] == [];
    DiscoveryIsExact(g, root, IdField(idType.value));
    while queue != []
      invariant QueueIn(g, queue)
      invariant found + FoundAll(g, queue) == {IdField(idType.value)} + Found(g, start, 0)
      invariant CleanAll(g, queue) <==> Clean(g, start, 0)
      decreases WorkAll(g, queue)
    {
      var item := queue[0];
      assert queue == [item] + queue[1..];
      r, queue := VisitModel(g, item, queue[1..], found);
      if r.Err? {
        return;
      }
      found := r.value;
    }
    r := Ok(found);
    forall f ensures f in found <==> f == IdField(idType.value) || DeclaredOnChain(g, root, f) {
      DiscoveryIsExact(g, root, f);
    }
  }

  // ---- Exactness -------------------------------------------------------------------------------

  ghost predicate Link(g: Graph, a: ModelId, name: string, b: ModelId) {
    a in g && exists i :: 0 <= i < |g[a]| && g[a][i].name == name && NestedModel(g[a][i].ann) == Some(b)
  }

  /** A chain of models of the graph, joined by named fields, that never comes back to a model. */
  ghost predicate Chain(g: Graph, models: seq<ModelId>, names: seq<string>) {
    && |models| == |names| + 1
    && (forall i :: 0 <= i < |models| ==> models[i] in g)
    && (forall i, j :: 0 <= i < j < |models| ==> models[i] != models[j])
    && (forall i :: 0 <= i < |names| ==> Link(g, models[i], names[i], models[i + 1]))
  }

  /** Field number `i` of the last model of a chain. */
  ghost predicate FieldOn(g: Graph, models: seq<ModelId>, names: seq<string>, i: nat) {
    Chain(g, models, names) && i < |g[models[|models| - 1]]|
  }

  ghost function DeclOn(g: Graph, models: seq<ModelId>, names: seq<string>, i: nat): FieldDecl
    requires FieldOn(g, models, names, i)
  {
    g[models[|models| - 1]][i]
  }

  /** The item stands at the end of the chain that its ancestors and `names` make. */
  ghost predicate StandsOn(g: Graph, item: Item, names: seq<string>) {
    && Chain(g, item.ancestors, names)
    && item.model == item.ancestors[|item.ancestors| - 1]
    && item.prefix == Join(names)
  }

  lemma ChildStandsOn(g: Graph, item: Item, names: seq<string>, k: nat)
    requires WellFormed(g) && StandsOn(g, item, names) && k < |g[item.model]| && Child(item, g[item.model][k]).Some?
    ensures StandsOn(g, Child(item, g[item.model][k]).value, names + [g[item.model][k].name])
  {
    var d := g[item.model][k];
    var names', child := names + [d.name], Child(item, d).value;
    assert names'[..|names|] == names;
    forall i | 0 <= i < |names'| ensures Link(g, child.ancestors[i], names'[i], child.ancestors[i + 1]) {
      if i < |names| {
        assert Link(g, item.ancestors[i], names[i], item.ancestors[i + 1]);
      }
    }
  }

  ghost predicate FoundBelow(g: Graph, item: Item, k: nat, f: SearchableField)
    requires WellFormed(g) && item.model in g && k < |g[item.model]|
  {
    Child(item, g[item.model][k]).Some? && f in Found(g, Child(item, g[item.model][k]).value, 0)
  }

  lemma {:induction false} FoundSplits(g: Graph, item: Item, k: nat, f: SearchableField)
    requires WellFormed(g) && item.model in g && k <= |g[item.model]| && f in Found(g, item, k)
    ensures k < |g[item.model]|
    ensures var d := g[item.model][k];
      || (!Raises(d) && d.config.Some? && f == Built(d, item.prefix))
      || FoundBelow(g, item, k, f) || f in Found(g, item, k + 1)
  {
  }

  /** Everything the walk finds lies on a chain. */
  lemma {:induction false} FoundLiesOnChain(g: Graph, item: Item, names0: seq<string>, k: nat, f: SearchableField)
      returns (models: seq<ModelId>, names: seq<string>, i: nat)
    requires WellFormed(g) && StandsOn(g, item, names0) && k <= |g[item.model]| && f in Found(g, item, k)
    ensures FieldOn(g, models, names, i) && item.ancestors <= models
    ensures var d := DeclOn(g, models, names, i);
      !Raises(d) && d.config.Some? && f == Built(d, Join(names))
    decreases Unseen(g, item.ancestors), |g[item.model]| - k
  {
    FoundSplits(g, item, k, f);
    var d := g[item.model][k];
    if !Raises(d) && d.config.Some? && f == Built(d, item.prefix) {
      return item.ancestors, names0, k;
    }
    if FoundBelow(g, item, k, f) {
      ChildSeesLess(g, item, d);
      ChildStandsOn(g, item, names0, k);
      models, names, i := FoundLiesOnChain(g, Child(item, d).value, names0 + [d.name], 0, f);
    } else {
      models, names, i := FoundLiesOnChain(g, item, names0, k + 1, f);
    }
  }

  /** A field of an item, and what is below its child, is part of what is found at the item. */
  lemma {:induction false} FoundHas(g: Graph, item: Item, k: nat, i: nat)
    requires WellFormed(g) && item.model in g && k <= i < |g[item.model]|
    ensures var d := g[item.model][i];
      && (!Raises(d) && d.config.Some? ==> Built(d, item.prefix) in Found(g, item, k))
      && (Child(item, d).Some? ==> Found(g, Child(item, d).value, 0) <= Found(g, item, k))
      && (Clean(g, item, k) ==> !Raises(d) && (Child(item, d).Some? ==> Clean(g, Child(item, d).value, 0)))
    decreases |g[item.model]| - k
  {
    if k < i {
      FoundHas(g, item, k + 1, i);
    }
  }

  lemma PrefixGrows<T>(a: seq<T>, b: seq<T>)
    requires a < b
    ensures a + [b[|a|]] <= b && a == b[..|a|]
  {
  }

  /** The next item on a chain that continues past this one. */
  lemma {:induction false} NextOnChain(g: Graph, item: Item, names0: seq<string>, models: seq<ModelId>, names: seq<string>) returns (k: nat)
    requires WellFormed(g) && StandsOn(g, item, names0) && Chain(g, models, names)
    requires item.ancestors < models && names0 < names
    ensures k < |g[item.model]| && Child(item, g[item.model][k]).Some?
    ensures var child := Child(item, g[item.model][k]).value;
      child.ancestors <= models && names0 + [g[item.model][k].name] <= names
      && StandsOn(g, child, names0 + [g[item.model][k].name])
  {
    var n := |names0|;
    assert Link(g, models[n], names[n], models[n + 1]);
    k :| 0 <= k < |g[models[n]]| && g[models[n]][k].name == names[n] && NestedModel(g[models[n]][k].ann) == Some(models[n + 1]);
    assert item.model == models[n];
    assert models[n + 1] !in item.ancestors;
    ChildStandsOn(g, item, names0, k);
    PrefixGrows(item.ancestors, models);
    PrefixGrows(names0, names);
  }

  /** Every field on a chain is found, and a clean walk means that none of them raises. */
  lemma {:induction false} ChainIsFound(g: Graph, item: Item, names0: seq<string>, models: seq<ModelId>,
                                        names: seq<string>, i: nat)
    requires WellFormed(g) && StandsOn(g, item, names0) && FieldOn(g, models, names, i)
    requires item.ancestors <= models && names0 <= names
    ensures var d := DeclOn(g, models, names, i);
      && (!Raises(d) && d.config.Some? ==> Built(d, Join(names)) in Found(g, item, 0))
      && (Clean(g, item, 0) ==> !Raises(d))
    decreases |models| - |item.ancestors|
  {
    if |item.ancestors| == |models| {
      assert item.ancestors == models && names0 == names;
      FoundHas(g, item, 0, i);
    } else {
      var k := NextOnChain(g, item, names0, models, names);
      ChainIsFound(g, Child(item, g[item.model][k]).value, names0 + [g[item.model][k].name], models, names, i);
      FoundHas(g, item, 0, k);
    }
  }

  ghost predicate UncleanBelow(g: Graph, item: Item, k: nat)
    requires WellFormed(g) && item.model in g && k < |g[item.model]|
  {
    Child(item, g[item.model][k]).Some? && !Clean(g, Child(item, g[item.model][k]).value, 0)
  }

  lemma {:induction false} UncleanSplits(g: Graph, item: Item, k: nat)
    requires WellFormed(g) && item.model in g && k <= |g[item.model]| && !Clean(g, item, k)
    ensures k < |g[item.model]|
    ensures Raises(g[item.model][k]) || UncleanBelow(g, item, k) || !Clean(g, item, k + 1)
  {
  }

  /** A walk that is not clean meets a field that raises, on a chain. */
  lemma {:induction false} UncleanHasChain(g: Graph, item: Item, names0: seq<string>, k: nat)
      returns (models: seq<ModelId>, names: seq<string>, i: nat)
    requires WellFormed(g) && StandsOn(g, item, names0) && k <= |g[item.model]| && !Clean(g, item, k)
    ensures FieldOn(g, models, names, i) && item.ancestors <= models && Raises(DeclOn(g, models, names, i))
    decreases Unseen(g, item.ancestors), |g[item.model]| - k
  {
    UncleanSplits(g, item, k);
    var d := g[item.model][k];
    if Raises(d) {
      return item.ancestors, names0, k;
    }
    if UncleanBelow(g, item, k) {
      ChildSeesLess(g, item, d);
      ChildStandsOn(g, item, names0, k);
      models, names, i := UncleanHasChain(g, Child(item, d).value, names0 + [d.name], 0);
    } else {
      models, names, i := UncleanHasChain(g, item, names0, k + 1);
    }
  }

  /** `f` is the searchable field declared at the end of a repeat-free chain from the root. */
  ghost predicate DeclaredOnChain(g: Graph, root: ModelId, f: SearchableField) {
    exists models, names, i ::
      FieldOn(g, models, names, i) && models[0] == root && Declares(DeclOn(g, models, names, i), names, f)
  }

  ghost predicate RaisesOnChain(g: Graph, root: ModelId) {
    exists models, names, i ::
      FieldOn(g, models, names, i) && models[0] == root && Unsupported(DeclOn(g, models, names, i))
  }

  lemma {:induction false} DeclaredIsBuilt(g: Graph, root: ModelId, f: SearchableField)
      returns (models: seq<ModelId>, names: seq<string>, i: nat)
    requires DeclaredOnChain(g, root, f)
    ensures FieldOn(g, models, names, i) && models[0] == root
    ensures var d := DeclOn(g, models, names, i); !Raises(d) && d.config.Some? && f == Built(d, Join(names))
  {
    models, names, i :|
      FieldOn(g, models, names, i) && models[0] == root && Declares(DeclOn(g, models, names, i), names, f);
    BuiltIsDeclared(DeclOn(g, models, names, i), names, f);
  }

  /** Discovery is exact: it finds precisely the searchable fields on chains from the root that never revisit
      a model, and it fails precisely when a field on such a chain raises. */
  lemma DiscoveryIsExact(g: Graph, root: ModelId, f: SearchableField)
    requires WellFormed(g) && root in g
    ensures f in Found(g, Item(root, "", [root]), 0) <==> DeclaredOnChain(g, root, f)
    ensures Clean(g, Item(root, "", [root]), 0) <==> !RaisesOnChain(g, root)
  {
    var start := Item(root, "", [root]);
    assert StandsOn(g, start, []);
    if f in Found(g, start, 0) {
      var models, names, i := FoundLiesOnChain(g, start, [], 0, f);
      assert models[0] == start.ancestors[0];
      BuiltIsDeclared(DeclOn(g, models, names, i), names, f);
    }
    if DeclaredOnChain(g, root, f) {
      var models, names, i := DeclaredIsBuilt(g, root, f);
      ChainIsFound(g, start, [], models, names, i);
    }
    if !Clean(g, start, 0) {
      var models, names, i := UncleanHasChain(g, start, [], 0);
      assert models[0] == start.ancestors[0];
      RaisesIsUnsupported(DeclOn(g, models, names, i));
    }
    if RaisesOnChain(g, root) {
      var models, names, i :|
        FieldOn(g, models, names, i) && models[0] == root && Unsupported(DeclOn(g, models, names, i));
      RaisesIsUnsupported(DeclOn(g, models, names, i));
      ChainIsFound(g, start, [], models, names, i);
    }
  }

  // ---- The paths are distinct, and none is a prefix of another ---------------------------------

  /** No searchable field of the graph overrides its path. */
  ghost predicate NoOverrides(g: Graph) {
    forall m, i :: m in g && 0 <= i < |g[m]| && g[m][i].config.Some? ==> g[m][i].config.value.path == ""
  }

  lemma ChainNames(g: Graph, models: seq<ModelId>, names: seq<string>)
    requires WellFormed(g) && Chain(g, models, names)
    ensures AreNames(names)
  {
    forall i | 0 <= i < |names| ensures IsName(names[i]) {
      assert Link(g, models[i], names[i], models[i + 1]);
    }
  }

  /** Names decide the models: two chains from one root that start with the same names start with the same models. */
  lemma {:induction false} NamesDecideModels(g: Graph, a: seq<ModelId>, an: seq<string>, b: seq<ModelId>, bn: seq<string>, k: nat)
    requires WellFormed(g) && Chain(g, a, an) && Chain(g, b, bn) && a[0] == b[0]
    requires k <= |an| && k <= |bn| && an[..k] == bn[..k]
    ensures a[..k + 1] == b[..k + 1]
  {
    if k > 0 {
      assert an[..k - 1] == an[..k][..k - 1] && bn[..k - 1] == bn[..k][..k - 1];
      NamesDecideModels(g, a, an, b, bn, k - 1);
      assert an[..k][k - 1] == an[k - 1] && bn[..k][k - 1] == bn[k - 1];
      assert a[..k][k - 1] == a[k - 1] && b[..k][k - 1] == b[k - 1];
      assert Link(g, a[k - 1], an[k - 1], a[k]) && Link(g, b[k - 1], bn[k - 1], b[k]);
      assert a[..k + 1] == a[..k] + [a[k]] && b[..k + 1] == b[..k] + [b[k]];
    }
  }

  /** A field that is searchable is not a nested model, so no chain goes through it. */
  lemma SearchableIsLeaf(d: FieldDecl)
    requires ResolvedType(d.ann).Some?
    ensures NestedModel(d.ann).None?
  {
  }

  /** The path of a field found without overrides splits into the chain's names and its own. */
  lemma PathOnChain(g: Graph, models: seq<ModelId>, names: seq<string>, i: nat)
    requires WellFormed(g) && NoOverrides(g) && FieldOn(g, models, names, i)
    requires DeclOn(g, models, names, i).config.Some? && !Raises(DeclOn(g, models, names, i))
    ensures var d := DeclOn(g, models, names, i);
      Split(Built(d, Join(names)).path) == names + [d.name] && AreNames(names + [d.name])
  {
    var d := DeclOn(g, models, names, i);
    ChainNames(g, models, names);
    var all := names + [d.name];
    assert all[..|all| - 1] == names;
    SplitJoin(all);
  }

  /** A searchable field's path does not go on: no chain from the same root passes through it. */
  lemma NoChainThrough(g: Graph, a: seq<ModelId>, an: seq<string>, i: nat, b: seq<ModelId>, bn: seq<string>)
    requires WellFormed(g) && FieldOn(g, a, an, i) && Chain(g, b, bn) && a[0] == b[0]
    requires ResolvedType(DeclOn(g, a, an, i).ann).Some?
    ensures !(an + [DeclOn(g, a, an, i).name] <= bn)
  {
    var d, n := DeclOn(g, a, an, i), |an|;
    if an + [d.name] <= bn {
      assert Link(g, b[n], bn[n], b[n + 1]);
      assert an[..n] == (an + [d.name])[..n] == bn[..n] && bn[n] == (an + [d.name])[n] == d.name;
      NamesDecideModels(g, a, an, b, bn, n);
      assert a[..n + 1][n] == b[..n + 1][n];
      SearchableIsLeaf(d);
    }
  }

  /** Two chains from one root with the same names are the same chain. */
  lemma SameNamesSameChain(g: Graph, a: seq<ModelId>, b: seq<ModelId>, names: seq<string>)
    requires WellFormed(g) && Chain(g, a, names) && Chain(g, b, names) && a[0] == b[0]
    ensures a == b
  {
    NamesDecideModels(g, a, names, b, names, |names|);
    assert a[..|names| + 1] == a && b[..|names| + 1] == b;
  }

  lemma PrefixOfSnoc(a: seq<string>, x: string, b: seq<string>, y: string)
    requires a + [x] <= b + [y]
    ensures (a == b && x == y) || a + [x] <= b
  {
    if |a| == |b| {
      assert a == (a + [x])[..|a|] == (b + [y])[..|a|] == b;
      assert (a + [x])[|a|] == (b + [y])[|a|];
    } else {
      assert (b + [y])[..|a| + 1] == b[..|a| + 1];
    }
  }

  lemma {:induction false} ComparableChainsAreEqual(g: Graph, a: seq<ModelId>, an: seq<string>, i: nat,
                                                    b: seq<ModelId>, bn: seq<string>, j: nat)
    requires WellFormed(g) && NoOverrides(g) && FieldOn(g, a, an, i) && FieldOn(g, b, bn, j) && a[0] == b[0]
    requires var (d, d') := (DeclOn(g, a, an, i), DeclOn(g, b, bn, j));
      && !Raises(d) && d.config.Some? && !Raises(d') && d'.config.Some?
      && Split(Built(d, Join(an)).path) <= Split(Built(d', Join(bn)).path)
    ensures Built(DeclOn(g, a, an, i), Join(an)) == Built(DeclOn(g, b, bn, j), Join(bn))
  {
    PathOnChain(g, a, an, i);
    PathOnChain(g, b, bn, j);
    PrefixOfSnoc(an, DeclOn(g, a, an, i).name, bn, DeclOn(g, b, bn, j).name);
    NoChainThrough(g, a, an, i, b, bn);
    SameNamesSameChain(g, a, b, an);
  }

  /** Two discovered fields whose paths are equal, or one a prefix of the other, are the same field. */
  lemma {:induction false} ComparablePathsAreEqual(g: Graph, root: ModelId, e: SearchableField, f: SearchableField)
    requires WellFormed(g) && NoOverrides(g) && root in g
    requires DeclaredOnChain(g, root, e) && DeclaredOnChain(g, root, f) && Split(e.path) <= Split(f.path)
    ensures e == f
  {
    var a, an, i := DeclaredIsBuilt(g, root, e);
    var b, bn, j := DeclaredIsBuilt(g, root, f);
    ComparableChainsAreEqual(g, a, an, i, b, bn, j);
  }

  ghost predicate PrefixFree(fields: set<SearchableField>) {
    forall e, f :: e in fields && f in fields && Split(e.path) <= Split(f.path) ==> e == f
  }

  /** Without path overrides, the discovered fields together with `_id` have pairwise distinct paths, none a
      prefix of another. */
  lemma DiscoveredPathsPrefixFree(g: Graph, root: ModelId, atlasType: string)
    requires WellFormed(g) && NoOverrides(g) && root in g
    ensures PrefixFree({IdField(atlasType)} + Found(g, Item(root, "", [root]), 0))
  {
    var found := Found(g, Item(root, "", [root]), 0);
    SplitName("_id");
    forall e, f | e in {IdField(atlasType)} + found && f in {IdField(atlasType)} + found && Split(e.path) <= Split(f.path)
      ensures e == f
    {
      DiscoveryIsExact(g, root, e);
      DiscoveryIsExact(g, root, f);
      if e in found && f in found {
        ComparablePathsAreEqual(g, root, e, f);
      } else if e in found || f in found {
        IdIsApart(g, root, if e in found then e else f);
      }
    }
  }

  lemma IdIsApart(g: Graph, root: ModelId, f: SearchableField)
    requires WellFormed(g) && NoOverrides(g) && root in g && DeclaredOnChain(g, root, f)
    ensures Split(f.path)[0] != "_id"
  {
    var b, bn, j := DeclaredIsBuilt(g, root, f);
    PathOnChain(g, b, bn, j);
    assert IsName((bn + [DeclOn(g, b, bn, j).name])[0]);
  }
}
