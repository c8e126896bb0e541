/** The combined hash of a render (internal/daemon/provision.go): sort by path, print one line a file, digest. */
module CombinedHash {
  import opened Sorting
  import opened Texts

  datatype RenderResult = RenderResult(relPath: string, hash: string)

  function PathOf(r: RenderResult): string { r.relPath }

  function Line(r: RenderResult): string {
    r.relPath + ":" + r.hash + "\n"
  }

  function Text(rs: seq<RenderResult>): string {
    if rs == [] then "" else Line(rs[0]) + Text(rs[1..])
  }

  predicate IsHex(s: string) {
    forall i :: 0 <= i < |s| ==> '0' <= s[i] <= '9' || 'a' <= s[i] <= 'f'
  }

  // Paths hold no newline and hashes are lower-case hex.
  predicate Readable(rs: seq<RenderResult>) {
    forall i :: 0 <= i < |rs| ==> '\n' !in rs[i].relPath && IsHex(rs[i].hash)
  }

  ghost predicate Consistent(rs: seq<RenderResult>) {
    KeyDetermines(rs, PathOf)
  }

  lemma Associative(a: string, b: string, c: string)
    ensures (a + b) + c == a + (b + c)
  {
  }

  lemma {:induction false} TextAppend(a: seq<RenderResult>, b: seq<RenderResult>)
    ensures Text(a + b) == Text(a) + Text(b)
  {
    if a == [] {
      assert a + b == b;
    } else {
      TextAppend(a[1..], b);
      assert (a + b)[0] == a[0] && (a + b)[1..] == a[1..] + b;
      Associative(Line(a[0]), Text(a[1..]), Text(b));
    }
  }

  method ComputeCombinedHash(results: seq<RenderResult>, digest: string -> string) returns (h: string)
    ensures h == digest(Text(Sort(results, PathOf)))
  {
    var sorted := Sort(results, PathOf);
    var hashed := "";
    for i := 0 to |sorted|
      invariant hashed == Text(sorted[..i])
    {
      hashed := hashed + Line(sorted[i]);
      TextAppend(sorted[..i], [sorted[i]]);
      assert sorted[..i + 1] == sorted[..i] + [sorted[i]];
      assert Text([sorted[i]]) == Line(sorted[i]);
    }
    assert sorted[..|sorted|] == sorted;
    h := digest(hashed);
  }

  // ---- Reading the hashed text back ----

  function DecodeLine(l: string): RenderResult {
    var i := Last(l, ':');
    if i < |l| then RenderResult(l[..i], l[i + 1..]) else RenderResult(l, "")
  }

  function Decode(text: string): seq<RenderResult> {
    var n := First(text, '\n');
    if n == |text| then [] else [DecodeLine(text[..n])] + Decode(text[n + 1..])
  }

  lemma DecodeOneLine(r: RenderResult)
    requires IsHex(r.hash)
    ensures DecodeLine(r.relPath + ":" + r.hash) == r
  {
    var l := r.relPath + ":" + r.hash;
    LastAt(l, ':', |r.relPath|);
    assert l[..|r.relPath|] == r.relPath && l[|r.relPath| + 1..] == r.hash;
  }

  lemma DecodeFirstLine(r: RenderResult, rest: string)
    requires '\n' !in r.relPath && IsHex(r.hash)
    ensures Decode(Line(r) + rest) == [r] + Decode(rest)
  {
    var l, text := r.relPath + ":" + r.hash, Line(r) + rest;
    assert text == l + ("\n" + rest);
    FirstAt(text, '\n', |l|);
    assert text[..|l|] == l && text[|l| + 1..] == rest;
    DecodeOneLine(r);
  }

  // Whatever was printed is read back, file by file.
  lemma {:induction false} DecodeText(rs: seq<RenderResult>)
    requires Readable(rs)
    ensures Decode(Text(rs)) == rs
  {
    if rs != [] {
      DecodeFirstLine(rs[0], Text(rs[1..]));
      DecodeText(rs[1..]);
      assert rs == [rs[0]] + rs[1..];
    }
  }

  // ---- Canonical form ----

  lemma SameReadable(xs: seq<RenderResult>, ys: seq<RenderResult>)
    requires multiset(xs) == multiset(ys) && Readable(xs)
    ensures Readable(ys)
  {
    SameElements(xs, ys);
    forall i | 0 <= i < |ys| ensures '\n' !in ys[i].relPath && IsHex(ys[i].hash) {
      assert ys[i] in xs;
    }
  }

  // In an ordered list two different files with one path show up as neighbours somewhere.
  lemma {:induction false} ClashingNeighbours(s: seq<RenderResult>, a: nat, b: nat) returns (i: nat)
    requires a < b < |s| && Ordered(s, PathOf)
    requires s[a].relPath == s[b].relPath && s[a] != s[b]
    ensures i + 1 < |s| && s[i].relPath == s[i + 1].relPath && s[i] != s[i + 1]
    decreases b - a
  {
    if a + 1 == b {
      i := a;
    } else {
      assert Leq(PathOf(s[a]), PathOf(s[a + 1])) && Leq(PathOf(s[a + 1]), PathOf(s[b]));
      LeqAntisymmetric(s[a].relPath, s[a + 1].relPath);
      if s[a] != s[a + 1] {
        i := a;
      } else {
        i := ClashingNeighbours(s, a + 1, b);
      }
    }
  }

  // Exchanging two neighbours with one path gives another sorting.
  lemma SwapNeighbours(s: seq<RenderResult>, i: nat) returns (t: seq<RenderResult>)
    requires i + 1 < |s| && Ordered(s, PathOf) && s[i].relPath == s[i + 1].relPath
    ensures multiset(t) == multiset(s) && Ordered(t, PathOf)
    ensures |t| == |s| && t[i] == s[i + 1]
  {
    t := s[..i] + [s[i + 1], s[i]] + s[i + 2..];
    assert s == s[..i] + [s[i], s[i + 1]] + s[i + 2..];
    forall k | 0 <= k < |s| ensures PathOf(t[k]) == PathOf(s[k]) {
    }
    forall a, b | 0 <= a < b < |t| ensures Leq(PathOf(t[a]), PathOf(t[b])) {
      assert Leq(PathOf(s[a]), PathOf(s[b]));
    }
  }

  // A list with one path bound to two hashes has two sortings whose hashed texts differ.
  lemma ClashGivesTwoTexts(xs: seq<RenderResult>) returns (s: seq<RenderResult>, t: seq<RenderResult>)
    requires Readable(xs) && !Consistent(xs)
    ensures IsSorting(xs, s, PathOf) && IsSorting(xs, t, PathOf) && Text(s) != Text(t)
  {
    s := Sort(xs, PathOf);
    SortIsSorting(xs, PathOf);
    SameElements(xs, s);
    var x, y :| x in xs && y in xs && PathOf(x) == PathOf(y) && x != y;
    assert x in s && y in s;
    var a :| 0 <= a < |s| && s[a] == x;
    var b :| 0 <= b < |s| && s[b] == y;
    var i := ClashingNeighbours(s, if a < b then a else b, if a < b then b else a);
    t := SwapNeighbours(s, i);
    SameReadable(xs, s);
    SameReadable(s, t);
    DecodeText(s);
    DecodeText(t);
  }

  // Whatever the order of the results and however the unstable sort breaks ties: with one hash a path, the text is
  // the same.
  lemma OrderIsIrrelevant(
    xs: seq<RenderResult>, ys: seq<RenderResult>, s: seq<RenderResult>, t: seq<RenderResult>)
    requires Consistent(xs) && multiset(xs) == multiset(ys)
    requires IsSorting(xs, s, PathOf) && IsSorting(ys, t, PathOf)
    ensures Text(s) == Text(t)
  {
    SameElements(xs, s);
    SortingIsUnique(s, t, PathOf);
  }

  ghost predicate Canonical(xs: seq<RenderResult>) {
    forall s, t :: IsSorting(xs, s, PathOf) && IsSorting(xs, t, PathOf) ==> Text(s) == Text(t)
  }

  // One hash a path makes the text canonical; for readable results it takes that.
  lemma CanonicalIff(xs: seq<RenderResult>)
    ensures Consistent(xs) ==> Canonical(xs)
    ensures Readable(xs) ==> (Canonical(xs) <==> Consistent(xs))
  {
    if Consistent(xs) {
      forall s, t | IsSorting(xs, s, PathOf) && IsSorting(xs, t, PathOf) ensures Text(s) == Text(t) {
        OrderIsIrrelevant(xs, xs, s, t);
      }
    } else if Readable(xs) {
      var s, t := ClashGivesTwoTexts(xs);
    }
  }

  ghost predicate Injective(digest: string -> string) {
    forall a, b :: digest(a) == digest(b) ==> a == b
  }

  // The order of the render results never matters to the combined hash; and for readable results with a
  // collision-free digest equal hashes mean equal file sets. The hash of any sorting the library may return is meant.
  lemma CombinedHashIdentifiesFiles(
    xs: seq<RenderResult>, ys: seq<RenderResult>, s: seq<RenderResult>, t: seq<RenderResult>, digest: string -> string)
    requires Consistent(xs) && IsSorting(xs, s, PathOf) && IsSorting(ys, t, PathOf)
    ensures multiset(xs) == multiset(ys) ==> digest(Text(s)) == digest(Text(t))
    ensures Readable(xs) && Readable(ys) && Injective(digest) ==>
              (digest(Text(s)) == digest(Text(t)) <==> multiset(xs) == multiset(ys))
  {
    if multiset(xs) == multiset(ys) {
      OrderIsIrrelevant(xs, ys, s, t);
    }
    if Readable(xs) && Readable(ys) {
      SameReadable(xs, s);
      SameReadable(ys, t);
      DecodeText(s);
      DecodeText(t);
    }
  }

  // Without the readability condition one file can spell the lines of two.
  lemma NewlineInPathCollides()
    ensures var one := [RenderResult("a:0\nb", "1")];
            var two := [RenderResult("a", "0"), RenderResult("b", "1")];
            multiset(one) != multiset(two) && Consistent(one) && Consistent(two)
            && IsSorting(one, one, PathOf) && IsSorting(two, two, PathOf) && Text(one) == Text(two)
  {
    var one := [RenderResult("a:0\nb", "1")];
    var two := [RenderResult("a", "0"), RenderResult("b", "1")];
    assert |multiset(one)| == 1 && |multiset(two)| == 2;
    assert Text(two) == Line(two[0]) + Text(two[1..]) && two[1..] == [two[1]];
    assert Text([two[1]]) == Line(two[1]) + Text([]);
    assert Text(one) == Line(one[0]) + Text([]);
    assert Text(one) == "a:0\nb:1\n";
    assert Text(two) == "a:0\nb:1\n";
  }
}
