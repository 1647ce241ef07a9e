/** Byte-wise string order, sorting and joining. */
module Text {

  predicate Le(a: string, b: string) {
    if a == "" then true
    else if b == "" then false
    else if a[0] != b[0] then a[0] < b[0]
    else Le(a[1..], b[1..])
  }

  lemma {:induction false} LeTotal(a: string, b: string)
    ensures Le(a, b) || Le(b, a)
    ensures Le(a, b) && Le(b, a) ==> a == b
  {
    if a != "" && b != "" && a[0] == b[0] {
      LeTotal(a[1..], b[1..]);
      assert a == [a[0]] + a[1..] && b == [b[0]] + b[1..];
    }
  }

  lemma {:induction false} LeTransitive(a: string, b: string, c: string)
    requires Le(a, b) && Le(b, c)
    ensures Le(a, c)
  {
    if a != "" && b != "" && c != "" && a[0] == b[0] == c[0] {
      LeTransitive(a[1..], b[1..], c[1..]);
    }
  }

  predicate Less(a: string, b: string) {
    Le(a, b) && a != b
  }

  predicate Sorted(s: seq<string>) {
    forall i, j :: 0 <= i < j < |s| ==> Less(s[i], s[j])
  }

  /** sort.Strings over the keys of a map: every key once, in increasing order. */
  method SortKeys(keys: set<string>) returns (sorted: seq<string>)
    ensures Sorted(sorted)
    ensures forall k :: k in sorted <==> k in keys
  {
    sorted := [];
    var rest := keys;
    while rest != {}
      invariant rest <= keys
      invariant forall k :: k in sorted <==> k in keys - rest
      invariant Sorted(sorted)
      invariant forall i, k :: 0 <= i < |sorted| && k in rest ==> Less(sorted[i], k)
      decreases |rest|
    {
      var least := Least(rest);
      sorted := sorted + [least];
      rest := rest - {least};
    }
  }

  method Least(keys: set<string>) returns (least: string)
    requires keys != {}
    ensures least in keys && forall k :: k in keys ==> Le(least, k)
  {
    least :| least in keys;
    LeTotal(least, least);
    var rest := keys - {least};
    while rest != {}
      invariant rest <= keys && least in keys - rest
      invariant forall k :: k in keys - rest ==> Le(least, k)
      decreases |rest|
    {
      var k :| k in rest;
      ghost var before := least;
      LeTotal(least, k);
      if !Le(least, k) {
        forall j | j in keys - rest ensures Le(k, j) {
          LeTransitive(k, before, j);
        }
        least := k;
        LeTotal(k, k);
      }
      rest := rest - {k};
    }
  }

  /** strings.Join. */
  function Join(parts: seq<string>, separator: string): string {
    if parts == [] then ""
    else if |parts| == 1 then parts[0]
    else parts[0] + separator + Join(parts[1..], separator)
  }

  lemma JoinEmpty(parts: seq<string>)
    ensures Join(parts, ".") == "" <==> parts == [] || parts == [""]
  {
    if |parts| >= 2 {
      assert |Join(parts, ".")| >= 1;
    }
  }

  /** strings.Split by one character. */
  function Split(s: string, c: char): (parts: seq<string>)
    ensures parts != [] && forall i :: 0 <= i < |parts| ==> c !in parts[i]
    ensures Join(parts, [c]) == s
  {
    if s == "" then [""]
    else
      var rest := Split(s[1..], c);
      if s[0] == c then
        assert ([""] + rest)[1..] == rest;
        [""] + rest
      else
        var parts := [[s[0]] + rest[0]] + rest[1..];
        assert parts[1..] == rest[1..];
        parts
  }

  lemma {:induction false} SplitPart(a: string, c: char, rest: string)
    requires c !in a
    ensures Split(a + [c] + rest, c) == [a] + Split(rest, c)
    decreases |a|
  {
    var s := a + [c] + rest;
    if a == "" {
      assert s[1..] == rest;
    } else {
      assert s[1..] == a[1..] + [c] + rest;
      SplitPart(a[1..], c, rest);
      assert [a[0]] + a[1..] == a;
    }
  }

  lemma {:induction false} SplitWhole(a: string, c: char)
    requires c !in a
    ensures Split(a, c) == [a]
    decreases |a|
  {
    if a != "" {
      SplitWhole(a[1..], c);
      assert [a[0]] + a[1..] == a;
    }
  }

  /** Joining and splitting again gives the parts back. */
  lemma {:induction false} SplitJoin(parts: seq<string>, c: char)
    requires parts != [] && forall i :: 0 <= i < |parts| ==> c !in parts[i]
    ensures Split(Join(parts, [c]), c) == parts
    decreases |parts|
  {
    if |parts| == 1 {
      SplitWhole(parts[0], c);
    } else {
      SplitJoin(parts[1..], c);
      SplitPart(parts[0], c, Join(parts[1..], [c]));
      assert [parts[0]] + parts[1..] == parts;
    }
  }

  /** Strictly sorted sequences are determined by their members. */
  lemma {:induction false} SortedUnique(a: seq<string>, b: seq<string>)
    requires Sorted(a) && Sorted(b) && forall x :: x in a <==> x in b
    ensures a == b
    decreases |a|
  {
    Inhabited(b);
    if a != [] {
      assert a[0] in b;
      HeadLeast(a, b);
      HeadLeast(b, a);
      LeTotal(a[0], b[0]);
      assert a[0] == b[0];
      forall x ensures x in a[1..] <==> x in b[1..] {
        TailMember(a, x);
        TailMember(b, x);
      }
      SortedUnique(a[1..], b[1..]);
      assert a == [a[0]] + a[1..] && b == [b[0]] + b[1..];
    }
  }

  lemma Inhabited(s: seq<string>)
    ensures s == [] || exists x :: x in s
  {
    if s != [] {
      assert s[0] in s;
    }
  }

  lemma HeadLeast(a: seq<string>, b: seq<string>)
    requires a != [] && b != [] && Sorted(a) && b[0] in a
    ensures Le(a[0], b[0])
  {
    LeTotal(a[0], a[0]);
  }

  lemma TailMember(a: seq<string>, x: string)
    requires a != [] && Sorted(a)
    ensures x in a[1..] <==> x in a && x != a[0]
  {
    if x in a && x != a[0] {
      var k :| 0 <= k < |a| && a[k] == x;
      assert a[1..][k - 1] == x;
    }
  }

  lemma {:induction false} JoinSnoc(parts: seq<string>, last: string, separator: string)
    requires parts != []
    ensures Join(parts + [last], separator) == Join(parts, separator) + separator + last
    decreases |parts|
  {
    var all := parts + [last];
    if |parts| == 1 {
      assert all[1..] == [last];
    } else {
      assert all[1..] == parts[1..] + [last];
      JoinSnoc(parts[1..], last, separator);
      assert parts[0] + separator + (Join(parts[1..], separator) + separator + last)
          == parts[0] + separator + Join(parts[1..], separator) + separator + last;
    }
  }

  // ------------------------------------------------------------------- parts of a text

  /** strings.Contains. */
  predicate Contains(s: string, part: string) {
    exists i :: 0 <= i <= |s| && part <= s[i..]
  }

  lemma PartWithin(s: string, i: nat, j: nat, part: string)
    requires i <= j <= |s| && Contains(s[i..j], part)
    ensures Contains(s, part)
  {
    var k :| 0 <= k <= j - i && part <= s[i..j][k..];
    assert s[i + k..][..|part|] == s[i..j][k..][..|part|];
  }

  /** Text that lacks the part's first character adds no occurrence in front. */
  lemma PartBehind(front: string, s: string, part: string)
    requires part != "" && part[0] !in front && Contains(front + s, part)
    ensures Contains(s, part)
  {
    var all := front + s;
    var k :| 0 <= k <= |all| && part <= all[k..];
    assert all[k] == part[0];
    assert k >= |front|;
    assert all[k..] == s[k - |front|..];
  }

  /** Text that lacks the part's last character adds no occurrence behind. */
  lemma PartBefore(s: string, back: string, part: string)
    requires part != "" && part[|part| - 1] !in back && Contains(s + back, part)
    ensures Contains(s, part)
  {
    var all, n := s + back, |part|;
    var k :| 0 <= k <= |all| && part <= all[k..];
    assert all[k + n - 1] == all[k..][n - 1] == part[n - 1];
    assert k + n <= |s|;
    assert s[k..][..n] == all[k..][..n];
  }

  /** Text before the first separator determines where a text splits. */
  lemma {:induction false} CutSplits(a: string, x: string, b: string, y: string, c: char)
    requires c !in a && c !in b && a + ([c] + x) == b + ([c] + y)
    ensures a == b && x == y
    decreases |a|
  {
    var s, t := a + ([c] + x), b + ([c] + y);
    assert s[0] == t[0];
    if a == "" || b == "" {
      assert a == "" && b == "";
      assert s[1..] == x && t[1..] == y;
    } else {
      assert s[1..] == a[1..] + ([c] + x) && t[1..] == b[1..] + ([c] + y);
      CutSplits(a[1..], x, b[1..], y, c);
      assert a == [a[0]] + a[1..] && b == [b[0]] + b[1..];
    }
  }
}
