/** Finding characters in texts. */
module Texts {

  function First(s: string, c: char): (i: nat)
    ensures i <= |s| && c !in s[..i] && (i < |s| ==> s[i] == c)
  {
    if s == [] || s[0] == c then 0
    else
      var i := First(s[1..], c) + 1;
      assert s[..i] == [s[0]] + s[1..][..i - 1];
      i
  }

  function Last(s: string, c: char): (i: nat)
    ensures i <= |s| && (i < |s| ==> s[i] == c && c !in s[i + 1..]) && (i == |s| ==> c !in s)
  {
    if s == [] then 0
    else
      var i := Last(s[1..], c);
      if i < |s| - 1 then i + 1
      else if s[0] == c then 0
      else |s|
  }

  lemma {:induction false} FirstAt(s: string, c: char, i: nat)
    requires i < |s| && s[i] == c && forall k :: 0 <= k < i ==> s[k] != c
    ensures First(s, c) == i
  {
    if i > 0 {
      FirstAt(s[1..], c, i - 1);
    }
  }

  lemma {:induction false} LastAt(s: string, c: char, i: nat)
    requires i < |s| && s[i] == c && forall k :: i < k < |s| ==> s[k] != c
    ensures Last(s, c) == i
  {
    if i > 0 {
      LastAt(s[1..], c, i - 1);
    }
  }

  // The first occurrence of a separator splits a text in one way only.
  lemma SplitUnique(a: string, b: string, c: string, d: string, sep: char)
    requires sep !in a && sep !in c && a + [sep] + b == c + [sep] + d
    ensures a == c && b == d
  {
    var l, r := a + [sep] + b, c + [sep] + d;
    FirstAt(l, sep, |a|);
    FirstAt(r, sep, |c|);
    assert a == l[..|a|] && c == r[..|c|] && b == l[|a| + 1..] && d == r[|c| + 1..];
  }

  lemma SuffixCancels(a: string, b: string, suffix: string)
    requires a + suffix == b + suffix
    ensures a == b
  {
    assert |a| == |b| && a == (a + suffix)[..|a|] && b == (b + suffix)[..|b|];
  }
}
