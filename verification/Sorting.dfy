/** Byte-wise string order and sorting by a string key: what `sort.Slice` and `sort.Strings` promise their callers. */
module Sorting {

  // Go's `<=` on strings: lexicographic, a proper prefix comes first.
  predicate Leq(a: string, b: string) {
    a == [] || (b != [] && (a[0] < b[0] || (a[0] == b[0] && Leq(a[1..], b[1..]))))
  }

  lemma {:induction false} LeqTotal(a: string, b: string)
    ensures Leq(a, b) || Leq(b, a)
  {
    if a != [] && b != [] && a[0] == b[0] {
      LeqTotal(a[1..], b[1..]);
    }
  }

  lemma {:induction false} LeqAntisymmetric(a: string, b: string)
    requires Leq(a, b) && Leq(b, a)
    ensures a == b
  {
    if a != [] {
      LeqAntisymmetric(a[1..], b[1..]);
      assert a == [a[0]] + a[1..] && b == [b[0]] + b[1..];
    }
  }

  lemma {:induction false} LeqTransitive(a: string, b: string, c: string)
    requires Leq(a, b) && Leq(b, c)
    ensures Leq(a, c)
  {
    if a != [] && a[0] == b[0] == c[0] {
      LeqTransitive(a[1..], b[1..], c[1..]);
    }
  }

  ghost predicate Ordered<T>(xs: seq<T>, key: T -> string) {
    forall i, j :: 0 <= i < j < |xs| ==> Leq(key(xs[i]), key(xs[j]))
  }

  // `ys` is one of the results an unstable sort of `xs` by `key` may return.
  ghost predicate IsSorting<T>(xs: seq<T>, ys: seq<T>, key: T -> string) {
    multiset(ys) == multiset(xs) && Ordered(ys, key)
  }

  // Elements that compare equal are equal, so an unstable sort has no choice to make.
  ghost predicate KeyDetermines<T>(xs: seq<T>, key: T -> string) {
    forall x, y :: x in xs && y in xs && key(x) == key(y) ==> x == y
  }

  function Insert<T(==)>(x: T, xs: seq<T>, key: T -> string): (r: seq<T>)
    ensures multiset(r) == multiset(xs) + multiset{x}
  {
    if xs == [] || Leq(key(x), key(xs[0])) then
      assert multiset([x] + xs) == multiset{x} + multiset(xs);
      [x] + xs
    else
      var rest := Insert(x, xs[1..], key);
      assert xs == [xs[0]] + xs[1..];
      [xs[0]] + rest
  }

  lemma {:induction false} InsertOrdered<T>(x: T, xs: seq<T>, key: T -> string)
    requires Ordered(xs, key)
    ensures Ordered(Insert(x, xs, key), key)
  {
    var r := Insert(x, xs, key);
    if xs == [] {
    } else if Leq(key(x), key(xs[0])) {
      forall i, j | 0 <= i < j < |r| ensures Leq(key(r[i]), key(r[j])) {
        if i == 0 && j > 1 {
          LeqTransitive(key(x), key(xs[0]), key(xs[j - 1]));
        }
      }
    } else {
      LeqTotal(key(x), key(xs[0]));
      var rest := Insert(x, xs[1..], key);
      InsertOrdered(x, xs[1..], key);
      forall j | 0 <= j < |rest| ensures Leq(key(xs[0]), key(rest[j])) {
        assert rest[j] in multiset(rest);
        assert rest[j] == x || rest[j] in xs[1..];
      }
    }
  }

  function Sort<T(==)>(xs: seq<T>, key: T -> string): (r: seq<T>)
    ensures multiset(r) == multiset(xs)
  {
    if xs == [] then []
    else
      assert xs == [xs[0]] + xs[1..];
      Insert(xs[0], Sort(xs[1..], key), key)
  }

  lemma {:induction false} SortIsSorting<T>(xs: seq<T>, key: T -> string)
    ensures IsSorting(xs, Sort(xs, key), key)
  {
    if xs != [] {
      SortIsSorting(xs[1..], key);
      InsertOrdered(xs[0], Sort(xs[1..], key), key);
    }
  }

  lemma SameElements<T>(xs: seq<T>, ys: seq<T>)
    requires multiset(xs) == multiset(ys)
    ensures forall x :: x in xs <==> x in ys
    ensures |xs| == |ys|
  {
    forall x ensures x in xs <==> x in ys {
      assert x in xs <==> x in multiset(xs);
      assert x in ys <==> x in multiset(ys);
    }
    assert |multiset(xs)| == |xs|;
  }

  // The least key is at the head of either sorting.
  lemma HeadsAgree<T>(s: seq<T>, t: seq<T>, key: T -> string)
    requires multiset(s) == multiset(t) && Ordered(s, key) && Ordered(t, key)
    requires KeyDetermines(s, key) && s != []
    ensures t != [] && s[0] == t[0]
  {
    SameElements(s, t);
    assert s[0] in t && t[0] in s;
    LeqTotal(key(s[0]), key(s[0]));
    assert Leq(key(t[0]), key(s[0])) by {
      var j :| 0 <= j < |t| && t[j] == s[0];
    }
    assert Leq(key(s[0]), key(t[0])) by {
      var j :| 0 <= j < |s| && s[j] == t[0];
    }
    LeqAntisymmetric(key(s[0]), key(t[0]));
  }

  lemma TailsAreSorted<T>(s: seq<T>, key: T -> string)
    requires Ordered(s, key) && s != []
    ensures Ordered(s[1..], key) && multiset(s[1..]) == multiset(s) - multiset{s[0]}
    ensures KeyDetermines(s, key) ==> KeyDetermines(s[1..], key)
  {
    assert s == [s[0]] + s[1..];
    assert forall i :: 0 <= i < |s[1..]| ==> s[1..][i] == s[i + 1];
  }

  // When the key determines the element, all sortings of a list coincide.
  lemma {:induction false} SortingIsUnique<T>(s: seq<T>, t: seq<T>, key: T -> string)
    requires multiset(s) == multiset(t) && Ordered(s, key) && Ordered(t, key)
    requires KeyDetermines(s, key)
    ensures s == t
  {
    if s == [] {
      assert |t| == |multiset(t)| == 0;
    } else {
      HeadsAgree(s, t, key);
      var s', t' := s[1..], t[1..];
      assert s' == t' by {
        TailsAreSorted(s, key);
        TailsAreSorted(t, key);
        SortingIsUnique(s', t', key);
      }
      assert s == [s[0]] + s' && t == [t[0]] + t';
    }
  }
}
