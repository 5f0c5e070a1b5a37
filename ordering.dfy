/** Python's ordering of `str` values (lexicographic by code point) and the
    sort that `list.sort()` and `sorted()` perform on lists of strings. */
module Ordering {

  /** `a <= b` for Python strings. */
  predicate Below(a: string, b: string)
    decreases |a|
  {
    |a| == 0 || (|b| > 0 && (a[0] < b[0] || (a[0] == b[0] && Below(a[1..], b[1..]))))
  }

  /** `a < b` for Python strings. */
  predicate StrictlyBelow(a: string, b: string) {
    Below(a, b) && a != b
  }

  lemma {:induction false} BelowReflexive(a: string)
    ensures Below(a, a)
    decreases |a|
  {
    if |a| > 0 {
      BelowReflexive(a[1..]);
    }
  }

  lemma {:induction false} BelowTotal(a: string, b: string)
    ensures Below(a, b) || Below(b, a)
    decreases |a|
  {
    if |a| > 0 && |b| > 0 && a[0] == b[0] {
      BelowTotal(a[1..], b[1..]);
    }
  }

  lemma {:induction false} BelowAntisymmetric(a: string, b: string)
    requires Below(a, b) && Below(b, a)
    ensures a == b
    decreases |a|
  {
    if |a| > 0 {
      BelowAntisymmetric(a[1..], b[1..]);
      assert a == [a[0]] + a[1..];
      assert b == [b[0]] + b[1..];
    }
  }

  lemma {:induction false} BelowTransitive(a: string, b: string, c: string)
    requires Below(a, b) && Below(b, c)
    ensures Below(a, c)
    decreases |a|
  {
    if |a| > 0 && a[0] == b[0] && b[0] == c[0] {
      BelowTransitive(a[1..], b[1..], c[1..]);
    }
  }

  /** A common prefix does not change how two strings compare. */
  lemma {:induction false} BelowCommonPrefix(p: string, a: string, b: string)
    ensures Below(p + a, p + b) <==> Below(a, b)
    decreases |p|
  {
    if |p| == 0 {
      assert p + a == a && p + b == b;
    } else {
      assert (p + a)[1..] == p[1..] + a;
      assert (p + b)[1..] == p[1..] + b;
      BelowCommonPrefix(p[1..], a, b);
    }
  }

  /** Ascending order, as `list.sort()` leaves a list of strings. */
  predicate Sorted(s: seq<string>) {
    forall i, j | 0 <= i < j < |s| :: Below(s[i], s[j])
  }

  /** Strictly ascending: ascending and free of repeats. */
  predicate StrictlySorted(s: seq<string>) {
    forall i, j | 0 <= i < j < |s| :: StrictlyBelow(s[i], s[j])
  }

  /** Inserts `x` into a sorted list in front of the first larger element. */
  function Insert(x: string, s: seq<string>): (r: seq<string>)
    requires Sorted(s)
    ensures Sorted(r)
    ensures |r| == |s| + 1
    ensures multiset(r) == multiset(s) + multiset{x}
    decreases |s|
  {
    if |s| == 0 then [x]
    else if Below(x, s[0]) then
      InsertFront(x, s);
      [x] + s
    else
      assert Sorted(s[1..]);
      var tail := Insert(x, s[1..]);
      InsertBehind(x, s, tail);
      [s[0]] + tail
  }

  lemma InsertFront(x: string, s: seq<string>)
    requires Sorted(s) && |s| > 0 && Below(x, s[0])
    ensures Sorted([x] + s)
  {
    forall j | 0 < j < |s|
      ensures Below(x, s[j])
    {
      BelowTransitive(x, s[0], s[j]);
    }
  }

  lemma InsertBehind(x: string, s: seq<string>, tail: seq<string>)
    requires Sorted(s) && |s| > 0 && !Below(x, s[0])
    requires Sorted(tail) && multiset(tail) == multiset(s[1..]) + multiset{x}
    ensures Sorted([s[0]] + tail)
    ensures multiset([s[0]] + tail) == multiset(s) + multiset{x}
  {
    BelowTotal(x, s[0]);
    forall j | 0 <= j < |tail|
      ensures Below(s[0], tail[j])
    {
      assert tail[j] in multiset(tail);
      assert tail[j] == x || tail[j] in s[1..];
    }
    assert s == [s[0]] + s[1..];
  }

  /** The sorted arrangement of `s`. */
  function Sort(s: seq<string>): (r: seq<string>)
    ensures Sorted(r)
    ensures |r| == |s|
    ensures multiset(r) == multiset(s)
    decreases |s|
  {
    if |s| == 0 then []
    else
      assert s == [s[0]] + s[1..];
      Insert(s[0], Sort(s[1..]))
  }

  /** Elements of a sorted list that are no larger than its head are equal to it. */
  lemma SortedHeadIsLeast(s: seq<string>, x: string)
    requires Sorted(s) && |s| > 0 && x in multiset(s)
    ensures Below(s[0], x)
  {
    var i :| 0 <= i < |s| && s[i] == x;
    if i == 0 {
      BelowReflexive(x);
    }
  }

  /** A list of strings has one sorted arrangement, so any correct sort
      (Python's Timsort included) returns `Sort(s)`. */
  lemma {:induction false} SortedUnique(a: seq<string>, b: seq<string>)
    requires Sorted(a) && Sorted(b) && multiset(a) == multiset(b)
    ensures a == b
    decreases |a|
  {
    if |a| > 0 {
      assert |b| == |multiset(b)| == |a|;
      SortedSameHead(a, b);
      DropHead(a);
      DropHead(b);
      SortedUnique(a[1..], b[1..]);
      assert a == [a[0]] + a[1..];
      assert b == [b[0]] + b[1..];
    }
  }

  /** Two sorted arrangements of the same elements start alike. */
  lemma SortedSameHead(a: seq<string>, b: seq<string>)
    requires Sorted(a) && Sorted(b) && multiset(a) == multiset(b) && |a| > 0 && |b| > 0
    ensures a[0] == b[0]
  {
    assert a[0] in multiset(b) && b[0] in multiset(a);
    SortedHeadIsLeast(b, a[0]);
    SortedHeadIsLeast(a, b[0]);
    BelowAntisymmetric(a[0], b[0]);
  }

  /** Dropping the head keeps a list sorted and removes one copy of it. */
  lemma DropHead(a: seq<string>)
    requires Sorted(a) && |a| > 0
    ensures Sorted(a[1..]) && multiset(a[1..]) == multiset(a) - multiset{a[0]}
  {
    assert a == [a[0]] + a[1..];
  }

  /** Sorting a sorted list leaves it as it is. */
  lemma SortIdempotent(s: seq<string>)
    ensures Sort(Sort(s)) == Sort(s)
  {
    SortedUnique(Sort(Sort(s)), Sort(s));
  }
}
