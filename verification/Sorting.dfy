/** The stable sort that Python's `sorted` promises, for any total preorder. */
module Sorting {

  ghost predicate Total<T(!new)>(le: (T, T) -> bool) {
    forall a, b {:trigger le(a, b)} :: le(a, b) || le(b, a)
  }

  ghost predicate Transitive<T(!new)>(le: (T, T) -> bool) {
    forall a, b, c {:trigger le(a, b), le(b, c)} :: le(a, b) && le(b, c) ==> le(a, c)
  }

  ghost predicate InOrder<T>(le: (T, T) -> bool, s: seq<T>) {
    forall i, j {:trigger s[i], s[j]} :: 0 <= i < j < |s| ==> le(s[i], s[j])
  }

  /** `x` put before the first element it may stand before. */
  function Insert<T>(le: (T, T) -> bool, x: T, s: seq<T>): (r: seq<T>)
    ensures multiset(r) == multiset{x} + multiset(s)
  {
    if s == [] || le(x, s[0]) then [x] + s
    else
      assert s == [s[0]] + s[1..];
      [s[0]] + Insert(le, x, s[1..])
  }

  /** Elements that may stand either way keep their order: each is put before those that follow it. */
  function Sorted<T>(le: (T, T) -> bool, s: seq<T>): (r: seq<T>)
    ensures multiset(r) == multiset(s)
  {
    if s == [] then []
    else
      assert s == [s[0]] + s[1..];
      Insert(le, s[0], Sorted(le, s[1..]))
  }

  lemma SamePlaces<T>(s: seq<T>, r: seq<T>)
    requires multiset(s) == multiset(r)
    ensures |r| == |s| && forall x :: x in r <==> x in s
  {
    assert |r| == |multiset(r)| == |multiset(s)| == |s|;
    forall x ensures x in r <==> x in s {
      assert x in r <==> x in multiset(r);
      assert x in s <==> x in multiset(s);
    }
  }

  lemma {:induction false} InsertInOrder<T(!new)>(le: (T, T) -> bool, x: T, s: seq<T>)
    requires Total(le) && Transitive(le) && InOrder(le, s)
    ensures InOrder(le, Insert(le, x, s))
  {
    if s != [] {
      if le(x, s[0]) {
        var r := [x] + s;
        forall j | 0 <= j < |s| ensures le(x, s[j]) {
          assert j > 0 ==> le(s[0], s[j]);
        }
      } else {
        var rest := Insert(le, x, s[1..]);
        InsertInOrder(le, x, s[1..]);
        assert le(s[0], x);
        forall j | 0 <= j < |rest| ensures le(s[0], rest[j]) {
          assert rest[j] in multiset(rest);
          assert rest[j] == x || rest[j] in s[1..];
        }
      }
    }
  }

  lemma {:induction false} SortedInOrder<T(!new)>(le: (T, T) -> bool, s: seq<T>)
    requires Total(le) && Transitive(le)
    ensures InOrder(le, Sorted(le, s))
  {
    if s != [] {
      SortedInOrder(le, s[1..]);
      InsertInOrder(le, s[0], Sorted(le, s[1..]));
    }
  }

  predicate Level<T>(le: (T, T) -> bool, x: T, y: T) {
    le(x, y) && le(y, x)
  }

  /** The elements that stand level with `x`, in order. */
  function Peers<T>(le: (T, T) -> bool, x: T, s: seq<T>): seq<T> {
    if s == [] then []
    else (if Level(le, x, s[0]) then [s[0]] else []) + Peers(le, x, s[1..])
  }

  lemma PeersCons<T>(le: (T, T) -> bool, x: T, y: T, s: seq<T>)
    ensures Peers(le, x, [y] + s) == (if Level(le, x, y) then [y] else []) + Peers(le, x, s)
  {
    assert ([y] + s)[1..] == s;
  }

  lemma {:induction false} InsertIsStable<T(!new)>(le: (T, T) -> bool, x: T, y: T, s: seq<T>)
    requires Transitive(le)
    ensures Peers(le, x, Insert(le, y, s)) == (if Level(le, x, y) then [y] else []) + Peers(le, x, s)
  {
    PeersCons(le, x, y, s);
    if s != [] && !le(y, s[0]) {
      InsertIsStable(le, x, y, s[1..]);
      PeersCons(le, x, s[0], Insert(le, y, s[1..]));
      assert !(le(y, x) && le(x, s[0]));
    }
  }

  /** Sorting never swaps two elements that stand level. */
  lemma {:induction false} SortedIsStable<T(!new)>(le: (T, T) -> bool, x: T, s: seq<T>)
    requires Transitive(le)
    ensures Peers(le, x, Sorted(le, s)) == Peers(le, x, s)
  {
    if s != [] {
      SortedIsStable(le, x, s[1..]);
      InsertIsStable(le, x, s[0], Sorted(le, s[1..]));
    }
  }
}
