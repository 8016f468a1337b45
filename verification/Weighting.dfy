/** Fair-share weights of candidate books: utils/weighting.py, over real arithmetic. */
module Weighting {

  import Sorting

  type User = nat
  type Book = nat

  /** Times are whole seconds. */
  type Time = int

  datatype Option<T> = None | Some(value: T)

  datatype Entry = Entry(book: Book, suggester: User, suggestedAt: Time)

  datatype RatingStats = RatingStats(average: Option<real>, count: nat)

  type Language = nat

  const AGE_WEIGHT_FLOOR := 1
  const PREFERRED_LANGUAGE_BOOST := 2.0
  const RATING_BOOST_MIN := 0.6
  const RATING_BOOST_MAX := 1.5
  const RATING_BOOST_MIN_COUNT := 3
  const RATING_SCALE_MIN := 0.5
  const RATING_SCALE_MAX := 5.0
  const FAMILIARITY_FLOOR := 0.2
  const POOL_MAX := 5
  const DAY := 86400

  /** One catalog entry per book: the club's unique index. */
  ghost predicate DistinctBooks(es: seq<Entry>) {
    forall i, j :: 0 <= i < j < |es| ==> es[i].book != es[j].book
  }

  // ---- Base weights ----------------------------------------------------------------------------

  /** Whole days, rounded down, and at least one. */
  function AgeWeight(suggestedAt: Time, now: Time): (w: nat)
    ensures now - suggestedAt >= DAY ==> w * DAY <= now - suggestedAt < (w + 1) * DAY
    ensures now - suggestedAt < DAY ==> w == 1
  {
    var days := (now - suggestedAt) / DAY;
    if days < AGE_WEIGHT_FLOOR then AGE_WEIGHT_FLOOR else days
  }

  function Suggesters(es: seq<Entry>): set<User> {
    set e | e in es :: e.suggester
  }

  /** The entries of the given suggesters, in order. */
  function From(es: seq<Entry>, us: set<User>): seq<Entry> {
    if es == [] then []
    else (if es[0].suggester in us then [es[0]] else []) + From(es[1..], us)
  }

  function TotalAge(es: seq<Entry>, now: Time): (t: nat)
    ensures t >= |es|
  {
    if es == [] then 0 else AgeWeight(es[0].suggestedAt, now) + TotalAge(es[1..], now)
  }

  lemma {:induction false} FromMembers(es: seq<Entry>, us: set<User>)
    ensures forall e :: e in From(es, us) <==> e in es && e.suggester in us
  {
    if es != [] {
      FromMembers(es[1..], us);
      assert es == [es[0]] + es[1..];
    }
  }

  lemma {:induction false} FromAppend(es: seq<Entry>, e: Entry, us: set<User>)
    ensures From(es + [e], us) == From(es, us) + (if e.suggester in us then [e] else [])
  {
    if es == [] {
      assert es + [e] == [e] && [e][1..] == [];
    } else {
      FromAppend(es[1..], e, us);
      assert (es + [e])[1..] == es[1..] + [e];
    }
  }

  lemma {:induction false} TotalAgeAppend(es: seq<Entry>, e: Entry, now: Time)
    ensures TotalAge(es + [e], now) == TotalAge(es, now) + AgeWeight(e.suggestedAt, now)
  {
    if es == [] {
      assert es + [e] == [e] && [e][1..] == [];
    } else {
      TotalAgeAppend(es[1..], e, now);
      assert (es + [e])[1..] == es[1..] + [e];
    }
  }

  /** The entries of one suggester. */
  function Group(es: seq<Entry>, u: User): seq<Entry> {
    From(es, {u})
  }

  lemma GroupHasAge(es: seq<Entry>, now: Time, e: Entry)
    requires e in es
    ensures e.suggester in Suggesters(es) && |Suggesters(es)| > 0
    ensures 1 <= AgeWeight(e.suggestedAt, now) <= TotalAge(Group(es, e.suggester), now)
  {
    assert e.suggester in Suggesters(es);
    FromMembers(es, {e.suggester});
    AgeWithin(Group(es, e.suggester), now, e);
  }

  lemma {:induction false} AgeWithin(es: seq<Entry>, now: Time, e: Entry)
    requires e in es
    ensures 1 <= AgeWeight(e.suggestedAt, now) <= TotalAge(es, now)
  {
    if e != es[0] {
      AgeWithin(es[1..], now, e);
    }
  }

  /** `age` parts in `total` of an equal share among `k`. */
  function Share(k: nat, age: nat, total: nat): real
    requires k > 0 && total > 0
  {
    (1.0 / k as real) * (age as real / total as real)
  }

  lemma ShareAdds(k: nat, a: nat, b: nat, total: nat)
    requires k > 0 && total > 0
    ensures Share(k, a, total) + Share(k, b, total) == Share(k, a + b, total)
  {
    var s, t := 1.0 / k as real, total as real;
    assert a as real / t + b as real / t == (a + b) as real / t;
    assert s * (a as real / t) + s * (b as real / t) == s * (a as real / t + b as real / t);
  }

  lemma WholeOf(k: nat)
    requires k > 0
    ensures k as real * (1.0 / k as real) == 1.0
  {
  }

  lemma ShareOfAll(k: nat, total: nat)
    requires k > 0 && total > 0
    ensures Share(k, total, total) == 1.0 / k as real
  {
  }

  lemma ShareBounds(k: nat, age: nat, total: nat)
    requires k > 0 && 0 < age <= total
    ensures 0.0 < Share(k, age, total) <= 1.0
  {
    var s, part := 1.0 / k as real, age as real / total as real;
    assert 0.0 < s <= 1.0 && 0.0 < part <= 1.0;
    assert s * part <= 1.0 * part;
  }

  /** What the weights say of one entry's book. */
  function Weight(w: map<Book, real>, e: Entry): real {
    if e.book in w then w[e.book] else 0.0
  }

  /** The weights of the books of `es`, summed. */
  function Total(w: map<Book, real>, es: seq<Entry>): real {
    if es == [] then 0.0 else Weight(w, es[0]) + Total(w, es[1..])
  }

  function Books(es: seq<Entry>): set<Book> {
    set e | e in es :: e.book
  }

  /** Every entry has its age's part of its suggester's equal share. */
  ghost predicate HasFairShare(w: map<Book, real>, es: seq<Entry>, now: Time, e: Entry)
    requires e in es
  {
    GroupHasAge(es, now, e);
    e.book in w && w[e.book] ==
      Share(|Suggesters(es)|, AgeWeight(e.suggestedAt, now), TotalAge(Group(es, e.suggester), now))
  }

  ghost predicate IsFair(w: map<Book, real>, es: seq<Entry>, now: Time) {
    w.Keys == Books(es) && forall e {:trigger HasFairShare(w, es, now, e)} :: e in es ==> HasFairShare(w, es, now, e)
  }

  // ---- The base weights are a fair distribution ------------------------------------------------

  lemma {:induction false} GroupTotal(w: map<Book, real>, part: seq<Entry>, now: Time, k: nat, total: nat)
    requires k > 0 && total > 0
    requires forall e :: e in part ==> Weight(w, e) == Share(k, AgeWeight(e.suggestedAt, now), total)
    ensures Total(w, part) == Share(k, TotalAge(part, now), total)
  {
    if part != [] {
      GroupTotal(w, part[1..], now, k, total);
      ShareAdds(k, AgeWeight(part[0].suggestedAt, now), TotalAge(part[1..], now), total);
    }
  }

  /** Each of the k suggesters weighs 1/k, however many books they suggested and however old. */
  lemma SuggestersShareEqually(w: map<Book, real>, es: seq<Entry>, now: Time, u: User)
    requires IsFair(w, es, now) && u in Suggesters(es)
    ensures Total(w, Group(es, u)) == 1.0 / |Suggesters(es)| as real
  {
    var e: Entry :| e in es && e.suggester == u;
    GroupHasAge(es, now, e);
    var k, total := |Suggesters(es)|, TotalAge(Group(es, u), now);
    forall x | x in Group(es, u) ensures Weight(w, x) == Share(k, AgeWeight(x.suggestedAt, now), total) {
      FromMembers(es, {u});
      assert HasFairShare(w, es, now, x);
    }
    GroupTotal(w, Group(es, u), now, k, total);
    ShareOfAll(k, total);
  }

  /** Within a suggester's share the books count by their age: twice the days, twice the weight. */
  lemma {:induction false} SharesFollowAge(w: map<Book, real>, es: seq<Entry>, now: Time, e: Entry, f: Entry)
    requires IsFair(w, es, now) && e in es && f in es && e.suggester == f.suggester
    ensures e.book in w && f.book in w
    ensures w[e.book] * AgeWeight(f.suggestedAt, now) as real == w[f.book] * AgeWeight(e.suggestedAt, now) as real
  {
    GroupHasAge(es, now, e);
    assert HasFairShare(w, es, now, e) && HasFairShare(w, es, now, f);
    ShareFollowsAge(|Suggesters(es)|, AgeWeight(e.suggestedAt, now), AgeWeight(f.suggestedAt, now),
                    TotalAge(Group(es, e.suggester), now));
  }

  lemma ShareFollowsAge(k: nat, a: nat, b: nat, total: nat)
    requires k > 0 && total > 0
    ensures Share(k, a, total) * b as real == Share(k, b, total) * a as real
  {
    Proportional(1.0 / k as real, a as real, b as real, total as real);
  }

  lemma Proportional(s: real, a: real, b: real, total: real)
    requires total > 0.0
    ensures (s * (a / total)) * b == (s * (b / total)) * a
  {
    var u := 1.0 / total;
    assert a / total == a * u && b / total == b * u;
    Regroup(s, a, u, b);
    Regroup(s, b, u, a);
  }

  lemma Regroup(s: real, a: real, u: real, b: real)
    ensures (s * (a * u)) * b == s * u * (a * b)
  {
  }

  lemma {:induction false} TotalSplits(w: map<Book, real>, es: seq<Entry>, us: set<User>, u: User)
    requires u in us
    ensures Total(w, From(es, us)) == Total(w, From(es, us - {u})) + Total(w, From(es, {u}))
  {
    if es != [] {
      TotalSplits(w, es[1..], us, u);
      TotalFrom(w, es, us);
      TotalFrom(w, es, us - {u});
      TotalFrom(w, es, {u});
    }
  }

  lemma TotalFrom(w: map<Book, real>, es: seq<Entry>, us: set<User>)
    requires es != []
    ensures Total(w, From(es, us)) ==
      (if es[0].suggester in us then Weight(w, es[0]) else 0.0) + Total(w, From(es[1..], us))
  {
    var rest := From(es[1..], us);
    assert ([es[0]] + rest)[1..] == rest && [] + rest == rest;
  }

  lemma {:induction false} FromNobody(es: seq<Entry>, us: set<User>)
    requires forall e :: e in es ==> e.suggester !in us
    ensures From(es, us) == []
  {
    if es != [] {
      FromNobody(es[1..], us);
      assert es[0] in es;
    }
  }

  function Times(n: nat, share: real): real {
    n as real * share
  }

  lemma AddShare(n: nat, share: real)
    ensures Times(n, share) + share == Times(n + 1, share)
  {
  }

  lemma {:induction false} SharesAddUp(w: map<Book, real>, es: seq<Entry>, us: set<User>, share: real)
    requires forall u {:trigger Group(es, u)} :: u in us ==> Total(w, Group(es, u)) == share
    ensures Total(w, From(es, us)) == Times(|us|, share)
    decreases |us|
  {
    if us == {} {
      FromNobody(es, us);
    } else {
      var u: User :| u in us;
      TotalSplits(w, es, us, u);
      var rest := us - {u};
      SharesAddUp(w, es, rest, share);
      assert |us| == |rest| + 1 && Total(w, Group(es, u)) == share;
      AddShare(|rest|, share);
    }
  }

  lemma {:induction false} FromAll(es: seq<Entry>, us: set<User>)
    requires forall e :: e in es ==> e.suggester in us
    ensures From(es, us) == es
  {
    if es != [] {
      FromAll(es[1..], us);
      assert es == [es[0]] + es[1..];
    }
  }

  lemma {:induction false} EqualSharesTotalOne(w: map<Book, real>, es: seq<Entry>, share: real)
    requires forall u {:trigger Group(es, u)} :: u in Suggesters(es) ==> Total(w, Group(es, u)) == share
    requires Times(|Suggesters(es)|, share) == 1.0
    ensures Total(w, es) == 1.0
  {
    SharesAddUp(w, es, Suggesters(es), share);
    FromAll(es, Suggesters(es));
  }

  lemma PartsMakeOne(k: nat)
    requires k > 0
    ensures Times(k, OnePart(k)) == 1.0
  {
    WholeOf(k);
  }

  /** The base weights of all entries total one. */
  lemma {:induction false} BaseTotalsOne(w: map<Book, real>, es: seq<Entry>, now: Time)
    requires IsFair(w, es, now) && es != []
    ensures Total(w, es) == 1.0
  {
    GroupHasAge(es, now, es[0]);
    var part := OnePart(|Suggesters(es)|);
    PartsMakeOne(|Suggesters(es)|);
    forall u | u in Suggesters(es) ensures Total(w, Group(es, u)) == part {
      SuggestersShareEqually(w, es, now, u);
    }
    EqualSharesTotalOne(w, es, part);
  }

  lemma BaseIsPositive(w: map<Book, real>, es: seq<Entry>, now: Time, e: Entry)
    requires IsFair(w, es, now) && e in es
    ensures 0.0 < w[e.book] <= 1.0
  {
    assert HasFairShare(w, es, now, e);
    GroupHasAge(es, now, e);
    ShareBounds(|Suggesters(es)|, AgeWeight(e.suggestedAt, now), TotalAge(Group(es, e.suggester), now));
  }

  /** The suggesters of `es` in the order of their first entries, with their entries. */
  ghost predicate Grouped(es: seq<Entry>, order: seq<User>, groups: map<User, seq<Entry>>) {
    && groups.Keys == Suggesters(es)
    && (forall u :: u in order <==> u in groups)
    && (forall i, j :: 0 <= i < j < |order| ==> order[i] != order[j])
    && (forall u {:trigger groups[u]} :: u in groups ==> groups[u] == Group(es, u))
  }

  lemma SuggestersSnoc(es: seq<Entry>, e: Entry)
    ensures Suggesters(es + [e]) == Suggesters(es) + {e.suggester}
  {
  }

  lemma {:induction false} GroupSnoc(es: seq<Entry>, e: Entry, u: User)
    ensures Group(es + [e], u) == if e.suggester == u then Group(es, u) + [e] else Group(es, u)
  {
    FromAppend(es, e, {u});
  }

  lemma {:induction false} GroupedOld(es: seq<Entry>, e: Entry, order: seq<User>, groups: map<User, seq<Entry>>)
    requires Grouped(es, order, groups) && e.suggester in groups
    ensures Grouped(es + [e], order, groups[e.suggester := groups[e.suggester] + [e]])
  {
    SuggestersSnoc(es, e);
    var after := groups[e.suggester := groups[e.suggester] + [e]];
    forall u | u in after ensures after[u] == Group(es + [e], u) {
      GroupSnoc(es, e, u);
    }
  }

  lemma {:induction false} GroupedNew(es: seq<Entry>, e: Entry, order: seq<User>, groups: map<User, seq<Entry>>)
    requires Grouped(es, order, groups) && e.suggester !in groups
    ensures Grouped(es + [e], order + [e.suggester], groups[e.suggester := []][e.suggester := [] + [e]])
  {
    SuggestersSnoc(es, e);
    NobodysGroup(es, e.suggester);
    var after := groups[e.suggester := []][e.suggester := [] + [e]];
    forall u | u in after ensures after[u] == Group(es + [e], u) {
      GroupSnoc(es, e, u);
    }
  }

  method GroupBySuggester(es: seq<Entry>) returns (order: seq<User>, groups: map<User, seq<Entry>>)
    ensures Grouped(es, order, groups)
  {
    order, groups := [], map[];
    for i := 0 to |es|
      invariant Grouped(es[..i], order, groups)
    {
      var e := es[i];
      assert es[..i + 1] == es[..i] + [e];
      if e.suggester !in groups {
        GroupedNew(es[..i], e, order, groups);
        order := order + [e.suggester];
        groups := groups[e.suggester := []];
      } else {
        GroupedOld(es[..i], e, order, groups);
      }
      groups := groups[e.suggester := groups[e.suggester] + [e]];
    }
    assert es[..|es|] == es;
  }

  lemma NobodysGroup(es: seq<Entry>, u: User)
    requires u !in Suggesters(es)
    ensures Group(es, u) == []
  {
    FromNobody(es, {u});
  }

  lemma {:induction false} FromDistinct(es: seq<Entry>, us: set<User>)
    requires DistinctBooks(es)
    ensures DistinctBooks(From(es, us))
  {
    if es != [] {
      FromDistinct(es[1..], us);
      FromMembers(es[1..], us);
    }
  }

  lemma SameBook(es: seq<Entry>, a: Entry, b: Entry)
    requires DistinctBooks(es) && a in es && b in es && a.book == b.book
    ensures a == b
  {
    var i :| 0 <= i < |es| && es[i] == a;
    var j :| 0 <= j < |es| && es[j] == b;
  }

  /** The first `n` entries of `es` weigh what `weigh` says; the rest is untouched. */
  ghost predicate Weighed(before: map<Book, real>, after: map<Book, real>, es: seq<Entry>, n: nat, weigh: Entry -> real)
    requires n <= |es|
  {
    && after.Keys == before.Keys + Books(es[..n])
    && (forall e {:trigger weigh(e)} :: e in es[..n] ==> after[e.book] == weigh(e))
    && (forall b {:trigger after[b]} :: b in before && b !in Books(es[..n]) ==> after[b] == before[b])
  }

  lemma WeighOne(before: map<Book, real>, after: map<Book, real>, es: seq<Entry>, n: nat, weigh: Entry -> real)
    requires n < |es| && DistinctBooks(es) && Weighed(before, after, es, n, weigh)
    ensures Weighed(before, after[es[n].book := weigh(es[n])], es, n + 1, weigh)
  {
    assert es[..n + 1] == es[..n] + [es[n]];
    assert Books(es[..n + 1]) == Books(es[..n]) + {es[n].book};
    assert es[n].book !in Books(es[..n]);
  }

  /** The inner loop: one suggester's share spread over that suggester's entries. */
  method WeighGroup(weights: map<Book, real>, group: seq<Entry>, weigh: Entry -> real) returns (out: map<Book, real>)
    requires DistinctBooks(group)
    ensures Weighed(weights, out, group, |group|, weigh)
  {
    out := weights;
    for i := 0 to |group|
      invariant Weighed(weights, out, group, i, weigh)
    {
      WeighOne(weights, out, group, i, weigh);
      out := out[group[i].book := weigh(group[i])];
    }
  }

  /** The entries of the first `n` suggesters have their fair share. */
  ghost predicate FairUpTo(w: map<Book, real>, es: seq<Entry>, now: Time, us: set<User>) {
    && w.Keys == Books(From(es, us))
    && forall e {:trigger HasFairShare(w, es, now, e)} :: e in es && e.suggester in us ==> HasFairShare(w, es, now, e)
  }

  lemma {:induction false} BooksFromMore(es: seq<Entry>, us: set<User>, u: User)
    ensures Books(From(es, us + {u})) == Books(From(es, us)) + Books(Group(es, u))
  {
    FromMembers(es, us);
    FromMembers(es, us + {u});
    FromMembers(es, {u});
  }

  lemma {:induction false} JoinsFairly(w: map<Book, real>, w': map<Book, real>, es: seq<Entry>, now: Time,
                                       us: set<User>, u: User, weigh: Entry -> real, e: Entry)
    requires DistinctBooks(es) && FairUpTo(w, es, now, us) && u !in us && e in es && e.suggester in us + {u}
    requires Weighed(w, w', Group(es, u), |Group(es, u)|, weigh)
    requires |Suggesters(es)| > 0 && TotalAge(Group(es, u), now) > 0
    requires forall e ::
      weigh(e) == Share(|Suggesters(es)|, AgeWeight(e.suggestedAt, now), TotalAge(Group(es, u), now))
    ensures HasFairShare(w', es, now, e)
  {
    var g := Group(es, u);
    assert g[..|g|] == g;
    GroupHasAge(es, now, e);
    if e.suggester == u {
      FromMembers(es, {u});
      assert w'[e.book] == weigh(e);
    } else {
      assert HasFairShare(w, es, now, e);
      NotInGroup(es, u, e);
      assert w'[e.book] == w[e.book];
    }
  }

  lemma {:induction false} GroupJoins(w: map<Book, real>, w': map<Book, real>, es: seq<Entry>, now: Time,
                                      us: set<User>, u: User, weigh: Entry -> real)
    requires DistinctBooks(es) && FairUpTo(w, es, now, us) && u in Suggesters(es) && u !in us
    requires Weighed(w, w', Group(es, u), |Group(es, u)|, weigh)
    requires |Suggesters(es)| > 0 && TotalAge(Group(es, u), now) > 0
    requires forall e ::
      weigh(e) == Share(|Suggesters(es)|, AgeWeight(e.suggestedAt, now), TotalAge(Group(es, u), now))
    ensures FairUpTo(w', es, now, us + {u})
  {
    var g := Group(es, u);
    BooksFromMore(es, us, u);
    assert g[..|g|] == g;
    forall e | e in es && e.suggester in us + {u} ensures HasFairShare(w', es, now, e) {
      JoinsFairly(w, w', es, now, us, u, weigh, e);
    }
  }

  lemma NotInGroup(es: seq<Entry>, u: User, e: Entry)
    requires DistinctBooks(es) && e in es && e.suggester != u
    ensures e.book !in Books(Group(es, u))
  {
    FromMembers(es, {u});
    forall x | x in Group(es, u) ensures x.book != e.book {
      if x.book == e.book { SameBook(es, x, e); }
    }
  }

  /** What each of `k` suggesters gets. */
  function OnePart(k: nat): real {
    if k == 0 then 0.0 else 1.0 / k as real
  }

  /** The outer loop's body: one suggester's turn. */
  method WeighSuggester(w: map<Book, real>, es: seq<Entry>, now: Time, share: real, group: seq<Entry>,
                        ghost us: set<User>, ghost u: User)
    returns (out: map<Book, real>)
    requires DistinctBooks(es) && FairUpTo(w, es, now, us) && u in Suggesters(es) && u !in us
    requires group == Group(es, u) && |Suggesters(es)| > 0 && share == OnePart(|Suggesters(es)|)
    ensures FairUpTo(out, es, now, us + {u})
  {
    ghost var e: Entry :| e in es && e.suggester == u;
    GroupHasAge(es, now, e);
    FromDistinct(es, {u});
    var total := TotalAge(group, now);
    var weigh := (e: Entry) => share * (AgeWeight(e.suggestedAt, now) as real / total as real);
    out := WeighGroup(w, group, weigh);
    GroupJoins(w, out, es, now, us, u, weigh);
  }

  method BaseWeights(es: seq<Entry>, now: Time) returns (weights: map<Book, real>)
    requires DistinctBooks(es)
    ensures IsFair(weights, es, now)
  {
    var order, groups := GroupBySuggester(es);
    var share := OnePart(|groups|);
    weights := map[];
    ghost var seen: set<User> := {};
    FromNobody(es, seen);
    for n := 0 to |order|
      invariant seen <= Suggesters(es)
      invariant forall i :: 0 <= i < |order| ==> (order[i] in seen <==> i < n)
      invariant FairUpTo(weights, es, now, seen)
    {
      weights := WeighSuggester(weights, es, now, share, groups[order[n]], seen, order[n]);
      seen := seen + {order[n]};
    }
    assert seen == Suggesters(es);
    FromAll(es, Suggesters(es));
  }

  // ---- The multipliers -------------------------------------------------------------------------

  function LanguageBoost(languages: set<Language>, preferred: set<Language>): (m: real)
    ensures m == 1.0 || m == 2.0
    ensures m == 2.0 <==> exists l :: l in languages && l in preferred
  {
    if preferred == {} then 1.0
    else if languages * preferred != {} then
      assert exists l :: l in languages * preferred;
      PREFERRED_LANGUAGE_BOOST
    else
      assert forall l :: l in languages && l in preferred ==> l in languages * preferred;
      1.0
  }

  function FamiliarityMultiplier(readers: nat, members: int): (m: real)
    ensures FAMILIARITY_FLOOR <= m <= 1.0
  {
    if members <= 0 then 1.0
    else
      var fraction := readers as real / members as real;
      var m := 1.0 - fraction * (1.0 - FAMILIARITY_FLOOR);
      if m < FAMILIARITY_FLOOR then FAMILIARITY_FLOOR else m
  }

  /** Ratings are stored between half a star and five. */
  predicate RatingsInScale(stats: Option<RatingStats>) {
    stats.Some? && stats.value.average.Some? ==>
      RATING_SCALE_MIN <= stats.value.average.value <= RATING_SCALE_MAX
  }

  function RatingBoost(stats: Option<RatingStats>): (m: real)
    ensures RatingsInScale(stats) ==> RATING_BOOST_MIN <= m <= RATING_BOOST_MAX
    ensures stats.None? || stats.value.average.None? || stats.value.count < 3 ==> m == 1.0
  {
    if stats.None? || stats.value.average.None? then 1.0
    else if stats.value.count < RATING_BOOST_MIN_COUNT then 1.0
    else
      var scale := (stats.value.average.value - RATING_SCALE_MIN) / (RATING_SCALE_MAX - RATING_SCALE_MIN);
      RATING_BOOST_MIN + scale * (RATING_BOOST_MAX - RATING_BOOST_MIN)
  }

  /** With as many readers as members at most, the floor only marks the end of the line: each further reader costs
      the same, down to one fifth when everybody has read the book. */
  lemma FamiliarityIsLinear(readers: nat, members: nat)
    requires readers <= members && members > 0
    ensures FamiliarityMultiplier(readers, members) == 1.0 - 0.8 * (readers as real / members as real)
    ensures FamiliarityMultiplier(members, members) == 0.2 && FamiliarityMultiplier(0, members) == 1.0
    ensures readers > 0 ==> FamiliarityMultiplier(readers, members) < FamiliarityMultiplier(readers - 1, members)
  {
    var r, m := readers as real, members as real;
    assert 0.0 <= r / m <= 1.0;
    if readers > 0 {
      assert (r - 1.0) / m == r / m - 1.0 / m;
      assert 0.0 < 1.0 / m;
    }
  }

  /** Beyond that a further reader changes nothing, and neither does anything in a club without members. */
  lemma FamiliarityEnds(readers: nat, members: int)
    ensures members <= 0 ==> FamiliarityMultiplier(readers, members) == 1.0
    ensures members > 0 && readers >= members ==> FamiliarityMultiplier(readers, members) == 0.2
  {
    if members > 0 && readers >= members {
      assert readers as real / members as real >= 1.0;
    }
  }

  /** Three ratings or more count, on a straight line: from half a star, 0.6, every further star adds a fifth, up to
      1.5 for five. */
  lemma RatingIsLinear(average: real, count: nat)
    requires count >= 3
    ensures RatingBoost(Some(RatingStats(Some(average), count))) == 0.6 + (average - 0.5) / 5.0
    ensures RatingBoost(Some(RatingStats(Some(0.5), count))) == 0.6
    ensures RatingBoost(Some(RatingStats(Some(5.0), count))) == 1.5
  {
  }

  /** What the final weight of a book is worth over its base weight. */
  function Boost(facts: Facts, b: Book): real {
    Product(facts.Language(b), facts.Familiarity(b), facts.Rating(b))
  }

  /** What `compute_candidate_weights` is told about the club and the books. */
  datatype Facts = Facts(
    preferred: set<Language>,
    languages: map<Book, set<Language>>,
    readers: map<Book, nat>,
    members: int,
    stats: map<Book, RatingStats>)
  {
    function Language(b: Book): (m: real)
      ensures 1.0 <= m <= 2.0
    {
      LanguageBoost(if b in languages then languages[b] else {}, preferred)
    }

    function Familiarity(b: Book): (m: real)
      ensures 0.2 <= m <= 1.0
    {
      FamiliarityMultiplier(if b in readers then readers[b] else 0, members)
    }

    function Rating(b: Book): (m: real)
      ensures RatedInScale(this) ==> 0.6 <= m <= 1.5
    {
      RatingBoost(if b in stats then Some(stats[b]) else None)
    }
  }

  function Product(l: real, f: real, r: real): real {
    l * f * r
  }

  predicate RatedInScale(facts: Facts) {
    forall b :: b in facts.stats ==> RatingsInScale(Some(facts.stats[b]))
  }

  lemma Products(l: real, f: real, r: real)
    requires 1.0 <= l <= 2.0 && 0.2 <= f <= 1.0 && 0.6 <= r <= 1.5
    ensures 0.12 <= Product(l, f, r) <= 3.0
  {
    assert 0.2 <= l * 0.2 <= l * f && l * f <= l * 1.0 <= 2.0;
    var lf := l * f;
    assert 0.12 == 0.2 * 0.6 <= lf * 0.6 <= lf * r && lf * r <= lf * 1.5 <= 3.0;
  }

  /** No book is worth less than 0.12 or more than 3 times its base weight, and both are reached. */
  lemma BoostBounds(facts: Facts, b: Book)
    requires RatedInScale(facts)
    ensures 0.12 <= Boost(facts, b) <= 3.0
  {
    Products(facts.Language(b), facts.Familiarity(b), facts.Rating(b));
  }

  /** What is known of a book, in the numbers of the three multipliers: a language the club prefers doubles; readers
      among the members cost up to four fifths; and three ratings or more count by their average. */
  lemma {:induction false} BoostFormula(facts: Facts, b: Book)
    ensures facts.Language(b)
      == if b in facts.languages && exists l :: l in facts.languages[b] && l in facts.preferred then 2.0 else 1.0
    ensures var readers := if b in facts.readers then facts.readers[b] else 0;
      facts.Familiarity(b)
        == if facts.members <= 0 then 1.0 else if readers >= facts.members then 0.2
           else 1.0 - 0.8 * (readers as real / facts.members as real)
    ensures facts.Rating(b)
      == if b in facts.stats && facts.stats[b].average.Some? && facts.stats[b].count >= 3
         then 0.6 + (facts.stats[b].average.value - 0.5) / 5.0 else 1.0
    ensures Boost(facts, b) == facts.Language(b) * facts.Familiarity(b) * facts.Rating(b)
  {
    FamiliarityFormula(if b in facts.readers then facts.readers[b] else 0, facts.members);
    RatingFormula(if b in facts.stats then Some(facts.stats[b]) else None);
    ProductOfThree(facts.Language(b), facts.Familiarity(b), facts.Rating(b));
  }

  lemma ProductOfThree(l: real, f: real, r: real)
    ensures Product(l, f, r) == l * f * r
  {
  }

  lemma RatingFormula(stats: Option<RatingStats>)
    ensures RatingBoost(stats)
      == if stats.Some? && stats.value.average.Some? && stats.value.count >= 3
         then 0.6 + (stats.value.average.value - 0.5) / 5.0 else 1.0
  {
    if stats.Some? && stats.value.average.Some? && stats.value.count >= 3 {
      RatingIsLinear(stats.value.average.value, stats.value.count);
    }
  }

  lemma FamiliarityFormula(readers: nat, members: int)
    ensures FamiliarityMultiplier(readers, members)
      == if members <= 0 then 1.0 else if readers >= members then 0.2
         else 1.0 - 0.8 * (readers as real / members as real)
  {
    FamiliarityEnds(readers, members);
    if 0 < members && readers <= members {
      FamiliarityIsLinear(readers, members);
    }
  }

  lemma BoostBoundsAreReached(languages: map<Book, set<Language>>, stats: map<Book, RatingStats>)
    requires languages == map[0 := {7}, 1 := {8}]
    requires stats == map[0 := RatingStats(Some(5.0), 3), 1 := RatingStats(Some(0.5), 3)]
    ensures Boost(Facts({7}, languages, map[1 := 4], 4, stats), 0) == 3.0
    ensures Boost(Facts({7}, languages, map[1 := 4], 4, stats), 1) == 0.12
  {
    assert LanguageBoost({7}, {7}) == 2.0;
    assert LanguageBoost({8}, {7}) == 1.0;
    FamiliarityIsLinear(4, 4);
    FamiliarityIsLinear(0, 4);
  }

  // ---- The final weights -----------------------------------------------------------------------

  /** The books of the first `n` entries have been multiplied by what `boost` says; the rest is untouched. */
  ghost predicate Boosted(base: map<Book, real>, w: map<Book, real>, es: seq<Entry>, n: nat, boost: Book -> real)
    requires n <= |es| && base.Keys == Books(es)
  {
    && w.Keys == base.Keys
    && forall i {:trigger es[i]} :: 0 <= i < |es| ==>
         es[i].book in base &&
         w[es[i].book] == (if i < n then base[es[i].book] * boost(es[i].book) else base[es[i].book])
  }

  ghost predicate Boosts(boost: Book -> real, facts: Facts) {
    forall b {:trigger Boost(facts, b)} :: boost(b) == Boost(facts, b)
  }

  lemma ThreeFactors(w: real, l: real, f: real, r: real, w1: real, w2: real, w3: real, product: real)
    requires w1 == w * l && w2 == w1 * f && w3 == w2 * r && product == Product(l, f, r)
    ensures w3 == w * product
  {
  }

  lemma BoostOne(base: map<Book, real>, w: map<Book, real>, es: seq<Entry>, n: nat, boost: Book -> real, value: real)
    requires n < |es| && DistinctBooks(es) && base.Keys == Books(es) && Boosted(base, w, es, n, boost)
    requires es[n].book in w && value == w[es[n].book] * boost(es[n].book)
    ensures Boosted(base, w[es[n].book := value], es, n + 1, boost)
  {
  }

  /** The weight of `b`, multiplied three times in place. */
  method Multiply(w: map<Book, real>, b: Book, l: real, f: real, r: real, ghost product: real)
    returns (out: map<Book, real>)
    requires b in w && product == Product(l, f, r)
    ensures b in out && out == w[b := out[b]] && out[b] == w[b] * product
  {
    var once := w[b := w[b] * l];
    var twice := once[b := once[b] * f];
    out := twice[b := twice[b] * r];
    ThreeFactors(w[b], l, f, r, once[b], twice[b], out[b], product);
  }

  /** The loop's body. */
  method BoostEntry(w: map<Book, real>, facts: Facts, b: Book, ghost boost: Book -> real) returns (out: map<Book, real>)
    requires b in w && Boosts(boost, facts)
    ensures b in out && out == w[b := out[b]] && out[b] == w[b] * boost(b)
  {
    assert boost(b) == Boost(facts, b);
    out := Multiply(w, b, facts.Language(b), facts.Familiarity(b), facts.Rating(b), boost(b));
  }

  method BoostAll(es: seq<Entry>, facts: Facts, base: map<Book, real>, ghost boost: Book -> real)
    returns (weights: map<Book, real>)
    requires DistinctBooks(es) && base.Keys == Books(es) && Boosts(boost, facts)
    ensures Boosted(base, weights, es, |es|, boost)
  {
    weights := base;
    for i := 0 to |es|
      invariant Boosted(base, weights, es, i, boost)
    {
      ghost var before := weights;
      weights := BoostEntry(weights, facts, es[i].book, boost);
      BoostOne(base, before, es, i, boost, weights[es[i].book]);
    }
  }

  lemma Within(base: real, boost: real)
    requires 0.0 < base && 0.12 <= boost <= 3.0
    ensures 0.0 < 0.12 * base <= base * boost <= 3.0 * base
  {
  }

  ghost predicate StaysFair(base: map<Book, real>, weights: map<Book, real>, es: seq<Entry>) {
    forall i {:trigger es[i]} :: 0 <= i < |es| ==>
      && es[i].book in base && es[i].book in weights
      && 0.0 < 0.12 * base[es[i].book] <= weights[es[i].book] <= 3.0 * base[es[i].book]
  }

  lemma BoostedStaysFair(base: map<Book, real>, weights: map<Book, real>, es: seq<Entry>, boost: Book -> real)
    requires base.Keys == Books(es) && Boosted(base, weights, es, |es|, boost)
    requires forall e :: e in es ==> 0.0 < base[e.book] && 0.12 <= boost(e.book) <= 3.0
    ensures StaysFair(base, weights, es)
  {
    forall i | 0 <= i < |es|
      ensures 0.0 < 0.12 * base[es[i].book] <= weights[es[i].book] <= 3.0 * base[es[i].book]
    {
      assert es[i] in es;
      Within(base[es[i].book], boost(es[i].book));
    }
  }

  /** The final weight of each book is its fair base weight times its boost.  With ratings in scale every candidate
      keeps a chance, and no boost moves a fair share by more than 0.12 to 3. */
  ghost predicate IsFinal(weights: map<Book, real>, es: seq<Entry>, facts: Facts, now: Time) {
    exists base: map<Book, real>, boost: Book -> real {:trigger Boosted(base, weights, es, |es|, boost)} ::
      && IsFair(base, es, now) && Boosts(boost, facts) && Boosted(base, weights, es, |es|, boost)
      && (RatedInScale(facts) ==> StaysFair(base, weights, es))
  }

  method ComputeCandidateWeights(es: seq<Entry>, facts: Facts, now: Time) returns (weights: map<Book, real>)
    requires DistinctBooks(es) && Books(es) <= facts.languages.Keys
    ensures IsFinal(weights, es, facts, now)
  {
    ghost var boost := (b: Book) => Boost(facts, b);
    weights := BaseWeights(es, now);
    ghost var base := weights;
    weights := BoostAll(es, facts, weights, boost);
    if RatedInScale(facts) {
      forall e | e in es ensures 0.0 < base[e.book] && 0.12 <= boost(e.book) <= 3.0 {
        BaseIsPositive(base, es, now, e);
        BoostBounds(facts, e.book);
        assert boost(e.book) == Boost(facts, e.book);
      }
      BoostedStaysFair(base, weights, es, boost);
    }
  }

  // ---- The pool --------------------------------------------------------------------------------

  /** `a` sorts no later than `b`: heavier first, and of equals the one suggested earlier. */
  predicate NoLater(weights: map<Book, real>, a: Entry, b: Entry) {
    || Weight(weights, a) > Weight(weights, b)
    || (Weight(weights, a) == Weight(weights, b) && a.suggestedAt <= b.suggestedAt)
  }

  /** The entries by descending weight, then by date. */
  function Ordered(weights: map<Book, real>, es: seq<Entry>): (r: seq<Entry>)
    ensures multiset(r) == multiset(es)
  {
    Sorting.Sorted((a, b) => NoLater(weights, a, b), es)
  }

  lemma OrderedInOrder(weights: map<Book, real>, es: seq<Entry>, i: nat, j: nat)
    requires i < j < |Ordered(weights, es)|
    ensures NoLater(weights, Ordered(weights, es)[i], Ordered(weights, es)[j])
  {
    Sorting.SortedInOrder((a, b) => NoLater(weights, a, b), es);
  }

  /** The entries kept for the pool. */
  function TopN(es: seq<Entry>, weights: map<Book, real>, n: nat): (r: seq<Entry>)
    ensures |r| == if n < |es| then n else |es|
  {
    var ordered := Ordered(weights, es);
    Sorting.SamePlaces(es, ordered);
    if n < |ordered| then ordered[..n] else ordered
  }

  function SelectTopNPool(es: seq<Entry>, weights: map<Book, real>, n: nat): (r: seq<Book>)
    ensures |r| == if n < |es| then n else |es|
  {
    var top := TopN(es, weights, n);
    seq(|top|, i requires 0 <= i < |top| => top[i].book)
  }

  /** The pool's books are entries' books, once each; and an entry left out never outweighs one kept, nor, at the
      same weight, was it suggested earlier. */
  lemma PoolIsTheTop(es: seq<Entry>, weights: map<Book, real>, n: nat, kept: Entry, out: Entry)
    requires DistinctBooks(es) && kept in es && out in es
    requires kept.book in SelectTopNPool(es, weights, n) && out.book !in SelectTopNPool(es, weights, n)
    ensures NoLater(weights, kept, out)
    ensures Weight(weights, kept) >= Weight(weights, out)
    ensures Weight(weights, kept) == Weight(weights, out) ==> kept.suggestedAt <= out.suggestedAt
  {
    var ordered, pool := Ordered(weights, es), SelectTopNPool(es, weights, n);
    Sorting.SamePlaces(es, ordered);
    var i :| 0 <= i < |pool| && pool[i] == kept.book;
    assert ordered[i] in es && ordered[i].book == kept.book;
    SameBook(es, ordered[i], kept);
    var j :| 0 <= j < |ordered| && ordered[j] == out;
    assert forall k :: 0 <= k < |pool| ==> ordered[k].book == pool[k] != out.book;
    assert j >= |pool|;
    OrderedInOrder(weights, es, i, j);
  }

  lemma {:induction false} PermutationKeepsDistinct(es: seq<Entry>, fs: seq<Entry>)
    requires DistinctBooks(es) && multiset(es) == multiset(fs)
    ensures DistinctBooks(fs)
  {
    forall i, j | 0 <= i < j < |fs| ensures fs[i].book != fs[j].book {
      assert fs[i] in multiset(fs) && fs[j] in multiset(fs);
      if fs[i].book == fs[j].book {
        SameBook(es, fs[i], fs[j]);
        TwicePresent(fs, i, j);
        OncePresent(es, fs[i]);
      }
    }
  }

  lemma TwicePresent(fs: seq<Entry>, i: nat, j: nat)
    requires i < j < |fs| && fs[i] == fs[j]
    ensures multiset(fs)[fs[i]] >= 2
  {
    assert fs == fs[..j] + fs[j..];
    assert fs[i] in fs[..j] && fs[j] in fs[j..];
  }

  lemma {:induction false} OncePresent(es: seq<Entry>, e: Entry)
    requires DistinctBooks(es)
    ensures multiset(es)[e] <= 1
  {
    if es != [] {
      OncePresent(es[1..], e);
      assert es == [es[0]] + es[1..];
      assert forall i :: 0 <= i < |es[1..]| ==> es[1..][i].book != es[0].book;
      assert e == es[0] ==> e !in es[1..];
    }
  }

  /** The pool holds distinct books of the entries: all of them when there are no more than `n`. */
  lemma PoolIsDistinct(es: seq<Entry>, weights: map<Book, real>, n: nat)
    requires DistinctBooks(es)
    ensures var pool := SelectTopNPool(es, weights, n);
      && (forall i, j :: 0 <= i < j < |pool| ==> pool[i] != pool[j])
      && (forall b :: b in pool ==> b in Books(es))
      && (|es| <= n ==> forall b :: b in Books(es) ==> b in pool)
  {
    var ordered, pool := Ordered(weights, es), SelectTopNPool(es, weights, n);
    PermutationKeepsDistinct(es, ordered);
    Sorting.SamePlaces(es, ordered);
    forall b | b in pool ensures b in Books(es) {
      var i :| 0 <= i < |pool| && pool[i] == b;
      assert ordered[i] in es;
    }
    if |es| <= n {
      forall e | e in es ensures e.book in pool {
        var j :| 0 <= j < |ordered| && ordered[j] == e;
        assert pool[j] == e.book;
      }
    }
  }

  // ---- The draw --------------------------------------------------------------------------------

  lemma {:induction false} FromShorter(es: seq<Entry>, us: set<User>)
    ensures |From(es, us)| <= |es|
  {
    if es != [] {
      FromShorter(es[1..], us);
    }
  }

  function Rest(es: seq<Entry>, u: User): (r: seq<Entry>)
    ensures es != [] && es[0].suggester == u ==> |r| < |es|
  {
    var others := Suggesters(es) - {u};
    if es != [] then FromShorter(es[1..], others); From(es, others) else []
  }

  lemma {:induction false} SplitOne(es: seq<Entry>, us: set<User>, u: User)
    requires u !in us && forall e :: e in es ==> e.suggester in us + {u}
    ensures multiset(From(es, {u})) + multiset(From(es, us)) == multiset(es)
  {
    if es != [] {
      assert es == [es[0]] + es[1..] && es[0] in es;
      SplitOne(es[1..], us, u);
    }
  }

  /** The entries in the order in which their books enter the weights: suggester by suggester. */
  function DrawOrder(es: seq<Entry>): seq<Entry>
    decreases |es|
  {
    if es == [] then [] else Group(es, es[0].suggester) + DrawOrder(Rest(es, es[0].suggester))
  }

  lemma {:induction false} DrawOrderPermutes(es: seq<Entry>)
    ensures multiset(DrawOrder(es)) == multiset(es)
    decreases |es|
  {
    if es != [] {
      var u := es[0].suggester;
      DrawOrderPermutes(Rest(es, u));
      assert forall e :: e in es ==> e.suggester in Suggesters(es);
      SplitOne(es, Suggesters(es) - {u}, u);
    }
  }

  /** `random.choices` for one value: the first entry at which the accumulated weights pass `x`, or the last. */
  function Pick(weights: map<Book, real>, order: seq<Entry>, x: real): (e: Entry)
    requires order != []
    ensures e in order
  {
    if |order| == 1 || x < Weight(weights, order[0]) then order[0]
    else Pick(weights, order[1..], x - Weight(weights, order[0]))
  }

  /** The weight accumulated before entry `i`. */
  function Before(weights: map<Book, real>, order: seq<Entry>, i: nat): real
    requires i <= |order|
  {
    if i == 0 then 0.0 else Weight(weights, order[0]) + Before(weights, order[1..], i - 1)
  }

  ghost predicate NoNegative(weights: map<Book, real>, es: seq<Entry>) {
    forall e :: e in es ==> Weight(weights, e) >= 0.0
  }

  lemma {:induction false} BeforeWithin(weights: map<Book, real>, order: seq<Entry>, i: nat)
    requires NoNegative(weights, order) && i < |order|
    ensures 0.0 <= Before(weights, order, i)
    ensures Before(weights, order, i) + Weight(weights, order[i]) <= Total(weights, order)
    decreases |order|
  {
    assert order[0] in order;
    if i > 0 {
      BeforeWithin(weights, order[1..], i - 1);
    } else {
      TotalNotNegative(weights, order[1..]);
    }
  }

  lemma {:induction false} TotalNotNegative(weights: map<Book, real>, es: seq<Entry>)
    requires NoNegative(weights, es)
    ensures Total(weights, es) >= 0.0
  {
    if es != [] {
      assert es[0] in es;
      TotalNotNegative(weights, es[1..]);
    }
  }

  /** For a value below the total, entry `i` is picked exactly on its own stretch of the accumulated weights. */
  lemma {:induction false} PickedExactlyOnItsStretch(weights: map<Book, real>, order: seq<Entry>, x: real, i: nat)
    requires NoNegative(weights, order) && DistinctBooks(order) && i < |order|
    requires 0.0 <= x < Total(weights, order)
    ensures Pick(weights, order, x) == order[i] <==>
      Before(weights, order, i) <= x < Before(weights, order, i) + Weight(weights, order[i])
    decreases |order|
  {
    var w, rest := Weight(weights, order[0]), order[1..];
    assert order[0] in order;
    if |order| == 1 {
      assert Total(weights, rest) == 0.0;
    } else if x < w {
      if i > 0 {
        BeforeWithin(weights, rest, i - 1);
        assert order[0].book != order[i].book;
      }
    } else {
      var e := Pick(weights, rest, x - w);
      assert e in rest && e != order[0];
      if i > 0 {
        PickedExactlyOnItsStretch(weights, rest, x - w, i - 1);
      }
    }
  }

  /** A random number of Python's `random()`. */
  type Luck = x: real | 0.0 <= x < 1.0 witness 0.0

  /** The random number, spread over the total weight. */
  function Spread(luck: Luck, total: real): real {
    luck * total
  }

  lemma SpreadWithin(luck: Luck, total: real)
    requires total > 0.0
    ensures 0.0 <= Spread(luck, total) < total
  {
  }

  lemma LuckFor(x: real, total: real) returns (luck: Luck)
    requires 0.0 <= x < total
    ensures Spread(luck, total) == x
  {
    luck := x / total;
  }

  /** `weighted_random_draw`: None is the error for no candidates, or none with any weight. */
  function WeightedDraw(es: seq<Entry>, weights: map<Book, real>, luck: Luck): (b: Option<Book>)
    ensures b.Some? ==> b.value in Books(es)
    ensures b.Some? <==> es != [] && Total(weights, DrawOrder(es)) > 0.0
  {
    var order := DrawOrder(es);
    DrawOrderPermutes(es);
    Sorting.SamePlaces(es, order);
    if es == [] || Total(weights, order) <= 0.0 then None
    else Some(Pick(weights, order, Spread(luck, Total(weights, order))).book)
  }

  lemma {:induction false} TotalAppend(w: map<Book, real>, a: seq<Entry>, b: seq<Entry>)
    ensures Total(w, a + b) == Total(w, a) + Total(w, b)
  {
    if a == [] {
      assert a + b == b;
    } else {
      assert (a + b)[1..] == a[1..] + b;
      TotalAppend(w, a[1..], b);
    }
  }

  lemma {:induction false} DrawOrderTotal(w: map<Book, real>, es: seq<Entry>)
    ensures Total(w, DrawOrder(es)) == Total(w, es)
    decreases |es|
  {
    if es != [] {
      var u := es[0].suggester;
      assert es[0] in es;
      DrawOrderTotal(w, Rest(es, u));
      TotalAppend(w, Group(es, u), DrawOrder(Rest(es, u)));
      TotalSplits(w, es, Suggesters(es), u);
      FromAll(es, Suggesters(es));
    }
  }

  lemma OrderKeeps(es: seq<Entry>, weights: map<Book, real>, e: Entry) returns (i: nat)
    requires DistinctBooks(es) && e in es && NoNegative(weights, es)
    ensures DistinctBooks(DrawOrder(es)) && NoNegative(weights, DrawOrder(es))
    ensures Total(weights, DrawOrder(es)) == Total(weights, es)
    ensures i < |DrawOrder(es)| && DrawOrder(es)[i] == e
  {
    var order := DrawOrder(es);
    DrawOrderPermutes(es);
    DrawOrderTotal(weights, es);
    Sorting.SamePlaces(es, order);
    PermutationKeepsDistinct(es, order);
    i :| 0 <= i < |order| && order[i] == e;
  }

  ghost predicate DrawnFrom(es: seq<Entry>, weights: map<Book, real>, e: Entry, from: real, luck: Luck) {
    WeightedDraw(es, weights, luck) == Some(e.book) <==>
      from <= Spread(luck, Total(weights, es)) < from + Weight(weights, e)
  }

  lemma PickedBook(weights: map<Book, real>, order: seq<Entry>, x: real, i: nat)
    requires NoNegative(weights, order) && DistinctBooks(order) && i < |order|
    requires 0.0 <= x < Total(weights, order)
    ensures Pick(weights, order, x).book == order[i].book <==>
      Before(weights, order, i) <= x < Before(weights, order, i) + Weight(weights, order[i])
  {
    PickedExactlyOnItsStretch(weights, order, x, i);
    if Pick(weights, order, x).book == order[i].book {
      SameBook(order, Pick(weights, order, x), order[i]);
    }
  }

  lemma DrawnOnItsStretchFor(es: seq<Entry>, weights: map<Book, real>, e: Entry, i: nat, luck: Luck, x: real)
    requires NoNegative(weights, DrawOrder(es)) && DistinctBooks(DrawOrder(es)) && es != []
    requires Total(weights, DrawOrder(es)) == Total(weights, es) > 0.0
    requires i < |DrawOrder(es)| && DrawOrder(es)[i] == e && x == Spread(luck, Total(weights, es)) < Total(weights, es)
    requires 0.0 <= x
    ensures DrawnFrom(es, weights, e, Before(weights, DrawOrder(es), i), luck)
  {
    PickedBook(weights, DrawOrder(es), x, i);
  }

  /** A candidate is drawn exactly when the random value, spread over the total weight, falls on a stretch as long as
      the candidate's own weight. */
  lemma DrawnInProportion(es: seq<Entry>, weights: map<Book, real>, e: Entry) returns (from: real)
    requires DistinctBooks(es) && e in es && NoNegative(weights, es) && Total(weights, es) > 0.0
    ensures 0.0 <= from && from + Weight(weights, e) <= Total(weights, es)
    ensures forall luck: Luck {:trigger DrawnFrom(es, weights, e, from, luck)} :: DrawnFrom(es, weights, e, from, luck)
  {
    var i := OrderKeeps(es, weights, e);
    from := Before(weights, DrawOrder(es), i);
    BeforeWithin(weights, DrawOrder(es), i);
    forall luck: Luck ensures DrawnFrom(es, weights, e, from, luck) {
      SpreadWithin(luck, Total(weights, es));
      DrawnOnItsStretchFor(es, weights, e, i, luck, Spread(luck, Total(weights, es)));
    }
  }

  /** Hence it can be drawn at all exactly when it has any weight. */
  lemma DrawableIffWeighty(es: seq<Entry>, weights: map<Book, real>, e: Entry)
    requires DistinctBooks(es) && e in es && NoNegative(weights, es) && Total(weights, es) > 0.0
    ensures (exists luck: Luck :: WeightedDraw(es, weights, luck) == Some(e.book)) <==> Weight(weights, e) > 0.0
  {
    var from := DrawnInProportion(es, weights, e);
    if Weight(weights, e) > 0.0 {
      var luck := LuckFor(from, Total(weights, es));
      assert DrawnFrom(es, weights, e, from, luck);
    }
    if exists luck: Luck :: WeightedDraw(es, weights, luck) == Some(e.book) {
      var luck: Luck :| WeightedDraw(es, weights, luck) == Some(e.book);
      assert DrawnFrom(es, weights, e, from, luck);
    }
  }

  ghost predicate AllPositive(weights: map<Book, real>, es: seq<Entry>) {
    forall e :: e in es ==> Weight(weights, e) > 0.0
  }

  lemma {:induction false} PositiveTotal(weights: map<Book, real>, es: seq<Entry>)
    requires AllPositive(weights, es) && es != []
    ensures Total(weights, es) > 0.0 && NoNegative(weights, es)
  {
    assert es[0] in es;
    if |es| > 1 {
      PositiveTotal(weights, es[1..]);
    }
  }

  /** Among candidates weighed by `compute_candidate_weights` every one can be drawn, and a draw never fails. */
  lemma CandidatesCanBeDrawn(es: seq<Entry>, facts: Facts, now: Time, weights: map<Book, real>, e: Entry)
    requires DistinctBooks(es) && IsFinal(weights, es, facts, now) && RatedInScale(facts) && e in es
    ensures AllPositive(weights, es)
    ensures forall luck: Luck :: WeightedDraw(es, weights, luck).Some?
    ensures exists luck: Luck :: WeightedDraw(es, weights, luck) == Some(e.book)
  {
    FinalIsPositive(weights, es, facts, now);
    PositiveTotal(weights, es);
    DrawOrderTotal(weights, es);
    DrawableIffWeighty(es, weights, e);
  }

  lemma FinalIsPositive(weights: map<Book, real>, es: seq<Entry>, facts: Facts, now: Time)
    requires IsFinal(weights, es, facts, now) && RatedInScale(facts)
    ensures AllPositive(weights, es)
  {
    var base: map<Book, real>, boost: Book -> real :|
      && IsFair(base, es, now) && Boosts(boost, facts) && Boosted(base, weights, es, |es|, boost)
      && StaysFair(base, weights, es);
    forall e | e in es ensures Weight(weights, e) > 0.0 {
      var i :| 0 <= i < |es| && es[i] == e;
    }
  }
}
