/** Python's `list.sort(key=...)` / `sorted(..., key=...)`: a stable sort by a
    numeric key, written as insertion sort.  CENSO sorts conformers by id and by
    energy, backup names by suffix, and positions by value (`rank_simple`). */
module Sorting {

  /** `[f(x) for x in s]`. */
  function Map<T, U>(f: T -> U, s: seq<T>): (r: seq<U>)
    ensures |r| == |s|
    ensures forall i :: 0 <= i < |s| ==> r[i] == f(s[i])
  {
    seq(|s|, i requires 0 <= i < |s| => f(s[i]))
  }

  predicate SortedBy<T>(s: seq<T>, key: T -> real)
  {
    forall i, j :: 0 <= i < j < |s| ==> key(s[i]) <= key(s[j])
  }

  /** Inserts x before the first element whose key is larger: after every element
      with an equal key, which is what keeps the sort stable. */
  function Insert<T>(x: T, s: seq<T>, key: T -> real): (r: seq<T>)
    requires SortedBy(s, key)
    ensures SortedBy(r, key)
    ensures |r| == |s| + 1
    ensures multiset(r) == multiset(s) + multiset{x}
    ensures r[0] == x || (|s| > 0 && r[0] == s[0])
    decreases |s|
  {
    if |s| == 0 then [x]
    else if key(x) < key(s[0]) then
      ConsSorted(x, s, key);
      [x] + s
    else
      var rest := Insert(x, s[1..], key);
      assert s == [s[0]] + s[1..];
      assert key(s[0]) <= key(rest[0]);
      ConsSorted(s[0], rest, key);
      [s[0]] + rest
  }

  /** An element no larger than the head of a sorted sequence can go in front. */
  lemma ConsSorted<T>(a: T, s: seq<T>, key: T -> real)
    requires SortedBy(s, key)
    requires |s| > 0 ==> key(a) <= key(s[0])
    ensures SortedBy([a] + s, key)
  {
    var r := [a] + s;
    assert forall j :: 0 < j < |r| ==> r[j] == s[j - 1];
  }

  /** `sorted(s, key=key)`. */
  function SortBy<T>(s: seq<T>, key: T -> real): (r: seq<T>)
    ensures SortedBy(r, key)
    ensures multiset(r) == multiset(s)
    ensures |r| == |s|
    decreases |s|
  {
    if |s| == 0 then []
    else
      var init := s[..|s| - 1];
      assert s == init + [s[|s| - 1]];
      Insert(s[|s| - 1], SortBy(init, key), key)
  }

  /** Inserting x and then mapping adds g(x) to the mapped multiset. */
  lemma {:induction false} MapInsert<T, U>(g: T -> U, x: T, s: seq<T>, key: T -> real)
    requires SortedBy(s, key)
    ensures multiset(Map(g, Insert(x, s, key))) == multiset(Map(g, s)) + multiset{g(x)}
    decreases |s|
  {
    if |s| == 0 {
    } else if key(x) < key(s[0]) {
      MapConcat(g, [x], s);
    } else {
      var rest := Insert(x, s[1..], key);
      assert s == [s[0]] + s[1..];
      calc {
        multiset(Map(g, Insert(x, s, key)));
        multiset(Map(g, [s[0]] + rest));
        { MapConcat(g, [s[0]], rest); }
        multiset(Map(g, [s[0]])) + multiset(Map(g, rest));
        { MapInsert(g, x, s[1..], key); }
        multiset(Map(g, [s[0]])) + multiset(Map(g, s[1..])) + multiset{g(x)};
        { MapConcat(g, [s[0]], s[1..]); }
        multiset(Map(g, s)) + multiset{g(x)};
      }
    }
  }

  /** Mapping distributes over concatenation. */
  lemma MapConcat<T, U>(g: T -> U, a: seq<T>, b: seq<T>)
    ensures Map(g, a + b) == Map(g, a) + Map(g, b)
  {
    assert forall i :: 0 <= i < |a| + |b| ==> Map(g, a + b)[i] == (Map(g, a) + Map(g, b))[i];
  }

  /** Sorting permutes the elements, so any projection of them keeps its multiset. */
  lemma {:induction false} MapSortBy<T, U>(g: T -> U, s: seq<T>, key: T -> real)
    ensures multiset(Map(g, SortBy(s, key))) == multiset(Map(g, s))
    decreases |s|
  {
    if |s| > 0 {
      var init, last := s[..|s| - 1], s[|s| - 1];
      assert s == init + [last];
      MapConcat(g, init, [last]);
      assert Map(g, [last]) == [g(last)];
      calc {
        multiset(Map(g, SortBy(s, key)));
        multiset(Map(g, Insert(last, SortBy(init, key), key)));
        { MapInsert(g, last, SortBy(init, key), key); }
        multiset(Map(g, SortBy(init, key))) + multiset{g(last)};
        { MapSortBy(g, init, key); }
        multiset(Map(g, init)) + multiset{g(last)};
        multiset(Map(g, init) + [g(last)]);
      }
    }
  }

  /** `range(n)`. */
  function Range(n: nat): (r: seq<nat>)
    ensures |r| == n && forall i :: 0 <= i < n ==> r[i] == i
  {
    seq(n, i => i)
  }
}
