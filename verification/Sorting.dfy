/** Sorting by a comparison, and when its result is unique. */
module Sorting {
  import Text

  ghost predicate Ordering<T(!new)>(le: (T, T) -> bool) {
    && (forall a, b :: le(a, b) || le(b, a))
    && (forall a, b, c :: le(a, b) && le(b, c) ==> le(a, c))
  }

  ghost predicate SortedBy<T>(s: seq<T>, le: (T, T) -> bool) {
    forall i, j :: 0 <= i < j < |s| ==> le(s[i], s[j])
  }

  /** sort.Slice: the elements in increasing order. */
  function Arrange<T(!new)>(s: seq<T>, le: (T, T) -> bool): (sorted: seq<T>)
    requires Ordering(le)
    ensures multiset(sorted) == multiset(s) && SortedBy(sorted, le)
  {
    if s == [] then []
    else
      assert s == s[..|s| - 1] + [s[|s| - 1]];
      Insert(Arrange(s[..|s| - 1], le), s[|s| - 1], le)
  }

  function Insert<T(!new)>(s: seq<T>, e: T, le: (T, T) -> bool): (r: seq<T>)
    requires Ordering(le) && SortedBy(s, le)
    ensures multiset(r) == multiset(s) + multiset{e} && SortedBy(r, le)
  {
    if s == [] || le(e, s[0]) then [e] + s
    else
      var rest := Insert(s[1..], e, le);
      assert s == [s[0]] + s[1..];
      InsertedBehind(s, e, rest, le);
      [s[0]] + rest
  }

  lemma InsertedBehind<T(!new)>(s: seq<T>, e: T, rest: seq<T>, le: (T, T) -> bool)
    requires Ordering(le) && SortedBy(s, le) && s != [] && !le(e, s[0])
    requires multiset(rest) == multiset(s[1..]) + multiset{e} && SortedBy(rest, le)
    ensures SortedBy([s[0]] + rest, le)
  {
    forall k | 0 <= k < |rest| ensures le(s[0], rest[k]) {
      assert rest[k] in multiset(rest);
      if rest[k] != e {
        assert rest[k] in s[1..];
      }
    }
  }

  /** The order that compares text keys. */
  function ByText<T>(key: T -> string): (T, T) -> bool {
    (a, b) => Text.Le(key(a), key(b))
  }

  lemma ByTextOrders<T(!new)>(key: T -> string)
    ensures Ordering(ByText(key))
  {
    forall a: T, b: T ensures ByText(key)(a, b) || ByText(key)(b, a) {
      Text.LeTotal(key(a), key(b));
    }
    forall a: T, b: T, c: T | ByText(key)(a, b) && ByText(key)(b, c) ensures ByText(key)(a, c) {
      Text.LeTransitive(key(a), key(b), key(c));
    }
  }

  method SortByText<T(!new)>(s: seq<T>, key: T -> string) returns (sorted: seq<T>)
    ensures multiset(sorted) == multiset(s)
    ensures forall i, j :: 0 <= i < j < |sorted| ==> Text.Le(key(sorted[i]), key(sorted[j]))
  {
    ByTextOrders(key);
    sorted := Arrange(s, ByText(key));
    assert forall i, j :: 0 <= i < j < |sorted| ==> ByText(key)(sorted[i], sorted[j]);
  }

  /** Sequences sorted by text keys agree when they hold the same elements and no key repeats. */
  lemma SortedByTextUnique<T(!new)>(a: seq<T>, b: seq<T>, key: T -> string)
    requires multiset(a) == multiset(b)
    requires forall i, j :: 0 <= i < j < |a| ==> Text.Le(key(a[i]), key(a[j]))
    requires forall i, j :: 0 <= i < j < |b| ==> Text.Le(key(b[i]), key(b[j]))
    requires forall x, y :: x in a && y in a && key(x) == key(y) ==> x == y
    ensures a == b
  {
    ByTextOrders(key);
    forall x, y | x in a && y in a && ByText(key)(x, y) && ByText(key)(y, x) ensures x == y {
      Text.LeTotal(key(x), key(y));
    }
    SortedUnique(a, b, ByText(key));
  }

  /** No two different elements compare equal. */
  ghost predicate Strict<T>(s: seq<T>, le: (T, T) -> bool) {
    forall a, b :: a in s && b in s && le(a, b) && le(b, a) ==> a == b
  }

  /** With no ties there is only one way to sort. */
  lemma {:induction false} SortedUnique<T(!new)>(a: seq<T>, b: seq<T>, le: (T, T) -> bool)
    requires Ordering(le) && multiset(a) == multiset(b)
    requires SortedBy(a, le) && SortedBy(b, le) && Strict(a, le)
    ensures a == b
    decreases |a|
  {
    hide Ordering, SortedBy, Strict;
    SameLength(a, b);
    if a != [] {
      SameHead(a, b, le);
      Tail(a, le);
      Tail(b, le);
      SortedUnique(a[1..], b[1..], le);
      Rebuilt(a, b);
    }
  }

  lemma SameLength<T>(a: seq<T>, b: seq<T>)
    requires multiset(a) == multiset(b)
    ensures |a| == |b|
  {
    assert |multiset(a)| == |a| && |multiset(b)| == |b|;
  }

  lemma Rebuilt<T>(a: seq<T>, b: seq<T>)
    requires a != [] && b != [] && a[0] == b[0] && a[1..] == b[1..]
    ensures a == b
  {
    assert a == [a[0]] + a[1..] && b == [b[0]] + b[1..];
  }

  lemma Tail<T(!new)>(s: seq<T>, le: (T, T) -> bool)
    requires s != [] && SortedBy(s, le)
    ensures multiset(s[1..]) == multiset(s) - multiset{s[0]}
    ensures SortedBy(s[1..], le) && (Strict(s, le) ==> Strict(s[1..], le))
  {
    assert s == [s[0]] + s[1..];
    assert forall x :: x in s[1..] ==> x in s;
  }

  lemma SameHead<T(!new)>(a: seq<T>, b: seq<T>, le: (T, T) -> bool)
    requires Ordering(le) && a != [] && b != [] && multiset(a) == multiset(b)
    requires SortedBy(a, le) && SortedBy(b, le) && Strict(a, le)
    ensures a[0] == b[0]
  {
    assert a[0] in multiset(a) && b[0] in multiset(b);
    assert a[0] in b && b[0] in a;
    HeadIsLeast(a, b[0], le);
    HeadIsLeast(b, a[0], le);
  }

  lemma HeadIsLeast<T(!new)>(s: seq<T>, x: T, le: (T, T) -> bool)
    requires Ordering(le) && s != [] && SortedBy(s, le) && x in s
    ensures le(s[0], x)
  {
    var k :| 0 <= k < |s| && s[k] == x;
    assert le(x, x);
  }

  /** Removing one occurrence. */
  lemma RemoveAt<T>(s: seq<T>, k: nat)
    requires k < |s|
    ensures multiset(s[..k] + s[k + 1..]) == multiset(s) - multiset{s[k]}
  {
    assert s == s[..k] + [s[k]] + s[k + 1..];
  }

  /** The elements that satisfy a condition, in order. */
  function Keep<T(!new)>(s: seq<T>, p: T -> bool): (r: seq<T>)
    ensures forall x :: multiset(r)[x] == if p(x) then multiset(s)[x] else 0
    ensures forall x :: x in r <==> x in s && p(x)
  {
    if s == [] then []
    else
      var front, last := s[..|s| - 1], s[|s| - 1];
      assert s == front + [last];
      Keep(front, p) + if p(last) then [last] else []
  }

  function Map<T, U>(f: T -> U, s: seq<T>): (r: seq<U>)
    ensures |r| == |s| && forall i :: 0 <= i < |s| ==> r[i] == f(s[i])
  {
    seq(|s|, i requires 0 <= i < |s| => f(s[i]))
  }

  lemma {:induction false} MapPermuted<T, U>(f: T -> U, a: seq<T>, b: seq<T>)
    requires multiset(a) == multiset(b)
    ensures multiset(Map(f, a)) == multiset(Map(f, b))
    decreases |a|
  {
    assert |multiset(a)| == |a| && |multiset(b)| == |b|;
    if a != [] {
      var n := |a| - 1;
      assert a[n] in multiset(b);
      var k :| 0 <= k < |b| && b[k] == a[n];
      RemoveAt(a, n);
      RemoveAt(b, k);
      assert a[..n] + a[n + 1..] == a[..n];
      MapPermuted(f, a[..n], b[..k] + b[k + 1..]);
      MapRemove(f, a, n);
      MapRemove(f, b, k);
    }
  }

  lemma MapRemove<T, U>(f: T -> U, s: seq<T>, k: nat)
    requires k < |s|
    ensures multiset(Map(f, s)) == multiset(Map(f, s[..k] + s[k + 1..])) + multiset{f(s[k])}
  {
    assert Map(f, s) == Map(f, s[..k]) + [f(s[k])] + Map(f, s[k + 1..]);
    assert Map(f, s[..k] + s[k + 1..]) == Map(f, s[..k]) + Map(f, s[k + 1..]);
  }

  /** Two places of a rearrangement come from two different places. */
  lemma TwoPlaces<T>(a: seq<T>, b: seq<T>, i: nat, j: nat) returns (x: nat, y: nat)
    requires multiset(a) == multiset(b) && i < j < |b|
    ensures x < |a| && y < |a| && x != y && a[x] == b[i] && a[y] == b[j]
  {
    assert b[i] in multiset(a);
    x :| 0 <= x < |a| && a[x] == b[i];
    RemoveAt(a, x);
    RemoveAt(b, i);
    var a', b' := a[..x] + a[x + 1..], b[..i] + b[i + 1..];
    assert b'[j - 1] == b[j];
    assert b[j] in multiset(a');
    var k :| 0 <= k < |a'| && a'[k] == b[j];
    y := if k < x then k else k + 1;
  }

  // ------------------------------------------------------------ place by place

  ghost predicate Related<T(!new)>(a: seq<T>, b: seq<T>, rel: (T, T) -> bool) {
    |a| == |b| && forall i :: 0 <= i < |a| ==> rel(a[i], b[i])
  }

  lemma RelatedAppend<T(!new)>(a: seq<T>, b: seq<T>, c: seq<T>, d: seq<T>, rel: (T, T) -> bool)
    requires Related(a, b, rel) && Related(c, d, rel)
    ensures Related(a + c, b + d, rel)
  {
  }

  lemma RelatedParts<T(!new)>(a: seq<T>, b: seq<T>, rel: (T, T) -> bool, k: nat)
    requires Related(a, b, rel) && k < |a|
    ensures |b| == |a| && rel(a[k], b[k])
    ensures Related(a[..k], b[..k], rel) && Related(a[k + 1..], b[k + 1..], rel)
  {
  }

  lemma {:induction false} KeepRelated<T(!new)>(a: seq<T>, b: seq<T>, p: T -> bool, rel: (T, T) -> bool)
    requires Related(a, b, rel) && forall x, y :: rel(x, y) ==> p(x) == p(y)
    ensures Related(Keep(a, p), Keep(b, p), rel)
    decreases |a|
  {
    if a != [] {
      var n := |a| - 1;
      RelatedParts(a, b, rel, n);
      KeepRelated(a[..n], b[..n], p, rel);
      var x, y := if p(a[n]) then [a[n]] else [], if p(b[n]) then [b[n]] else [];
      assert Related(x, y, rel);
      hide Related;
      RelatedAppend(Keep(a[..n], p), Keep(b[..n], p), x, y, rel);
    }
  }

  /** The relation does not touch what the order looks at. */
  ghost predicate Respects<T(!new)>(le: (T, T) -> bool, rel: (T, T) -> bool) {
    forall x, y, x', y' :: rel(x, x') && rel(y, y') ==> le(x, y) == le(x', y')
  }

  lemma RespectsAt<T(!new)>(le: (T, T) -> bool, rel: (T, T) -> bool, x: T, y: T, x': T, y': T)
    requires Respects(le, rel) && rel(x, x') && rel(y, y')
    ensures le(x, y) == le(x', y')
  {
  }

  lemma {:induction false} InsertRelated<T(!new)>(a: seq<T>, b: seq<T>, e: T, f: T, le: (T, T) -> bool, rel: (T, T) -> bool)
    requires Ordering(le) && SortedBy(a, le) && SortedBy(b, le) && Respects(le, rel)
    requires Related(a, b, rel) && rel(e, f)
    ensures Related(Insert(a, e, le), Insert(b, f, le), rel)
    decreases |a|
  {
    hide Ordering, SortedBy, Respects;
    assert Related([e], [f], rel);
    if a == [] {
      assert b == [];
      assert Insert(a, e, le) == [e] + a && Insert(b, f, le) == [f] + b;
    } else {
      RelatedParts(a, b, rel, 0);
      assert Related([a[0]], [b[0]], rel);
      RespectsAt(le, rel, e, a[0], f, b[0]);
      Tail(a, le);
      Tail(b, le);
      hide Related;
      if le(e, a[0]) {
        RelatedAppend([e], [f], a, b, rel);
      } else {
        InsertRelated(a[1..], b[1..], e, f, le, rel);
        RelatedAppend([a[0]], [b[0]], Insert(a[1..], e, le), Insert(b[1..], f, le), rel);
      }
    }
  }

  lemma {:induction false} ArrangeRelated<T(!new)>(a: seq<T>, b: seq<T>, le: (T, T) -> bool, rel: (T, T) -> bool)
    requires Ordering(le) && Respects(le, rel) && Related(a, b, rel)
    ensures Related(Arrange(a, le), Arrange(b, le), rel)
    decreases |a|
  {
    hide Ordering, Respects, Insert;
    if a != [] {
      var n := |a| - 1;
      ArrangeRelated(a[..n], b[..n], le, rel);
      assert rel(a[n], b[n]);
      InsertRelated(Arrange(a[..n], le), Arrange(b[..n], le), a[n], b[n], le, rel);
    }
  }
}
