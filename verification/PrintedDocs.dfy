/** A faithful codec exists: what module Migrate asks of the YAML library can be met. Documents are printed key by
    key in a prefix code; parsing is the inverse. */
module PrintedDocs {
  import opened Projects
  import opened Migrate

  function Unary(n: nat): string {
    if n == 0 then "." else "1" + Unary(n - 1)
  }

  function Sign(i: int): char { if i < 0 then '-' else '+' }

  function Abs(i: int): nat { if i < 0 then -i else i }

  function PrintInt(i: int): string {
    [Sign(i)] + Unary(Abs(i))
  }

  function PrintString(s: string): string {
    Unary(|s|) + s
  }

  function Tag(v: Value): char {
    if v.Int? then 'i' else if v.Float? then 'f' else 's'
  }

  function Payload(v: Value): string {
    match v
    case Int(i) => PrintInt(i)
    case Float(f) => PrintInt(f.mantissa) + PrintInt(f.exponent)
    case Other(s) => PrintString(s)
  }

  function PrintValue(v: Value): string {
    [Tag(v)] + Payload(v)
  }

  function PrintEntry(k: string, v: Value, rest: string): string {
    ['k'] + (PrintString(k) + (PrintValue(v) + rest))
  }

  ghost function PrintDoc(d: Doc): string
    decreases |d|
  {
    if d == map[] then "."
    else
      var k :| k in d;
      PrintEntry(k, d[k], PrintDoc(d - {k}))
  }

  ghost function ParseDoc(s: string): Option<Doc> {
    if exists d :: PrintDoc(d) == s then
      var d :| PrintDoc(d) == s;
      Some(d)
    else None
  }

  lemma {:induction false} UnaryCancels(m: nat, n: nat, a: string, b: string)
    requires Unary(m) + a == Unary(n) + b
    ensures m == n && a == b
  {
    var l, r := Unary(m) + a, Unary(n) + b;
    assert l[0] == (if m == 0 then '.' else '1') && r[0] == (if n == 0 then '.' else '1');
    if m == 0 {
      assert l[1..] == a && r[1..] == b;
    } else {
      assert l[1..] == Unary(m - 1) + a && r[1..] == Unary(n - 1) + b;
      UnaryCancels(m - 1, n - 1, a, b);
    }
  }

  lemma HeadCancels(c: char, x: string, a: string, d: char, y: string, b: string)
    requires ([c] + x) + a == ([d] + y) + b
    ensures c == d && x + a == y + b
  {
    var l, r := ([c] + x) + a, ([d] + y) + b;
    assert l[0] == c && r[0] == d && l[1..] == x + a && r[1..] == y + b;
  }

  lemma Associative(x: string, y: string, a: string)
    ensures (x + y) + a == x + (y + a)
  {
  }

  lemma IntCancels(i: int, j: int, a: string, b: string)
    requires PrintInt(i) + a == PrintInt(j) + b
    ensures i == j && a == b
  {
    HeadCancels(Sign(i), Unary(Abs(i)), a, Sign(j), Unary(Abs(j)), b);
    UnaryCancels(Abs(i), Abs(j), a, b);
  }

  lemma StringCancels(s: string, t: string, a: string, b: string)
    requires PrintString(s) + a == PrintString(t) + b
    ensures s == t && a == b
  {
    Associative(Unary(|s|), s, a);
    Associative(Unary(|t|), t, b);
    UnaryCancels(|s|, |t|, s + a, t + b);
    assert (s + a)[..|s|] == s && (s + a)[|s|..] == a && (t + b)[..|s|] == t && (t + b)[|s|..] == b;
  }

  lemma FloatCancels(f: Float64, g: Float64, a: string, b: string)
    requires (PrintInt(f.mantissa) + PrintInt(f.exponent)) + a == (PrintInt(g.mantissa) + PrintInt(g.exponent)) + b
    ensures f == g && a == b
  {
    Associative(PrintInt(f.mantissa), PrintInt(f.exponent), a);
    Associative(PrintInt(g.mantissa), PrintInt(g.exponent), b);
    IntCancels(f.mantissa, g.mantissa, PrintInt(f.exponent) + a, PrintInt(g.exponent) + b);
    IntCancels(f.exponent, g.exponent, a, b);
  }

  lemma ValueCancels(v: Value, w: Value, a: string, b: string)
    requires PrintValue(v) + a == PrintValue(w) + b
    ensures v == w && a == b
  {
    HeadCancels(Tag(v), Payload(v), a, Tag(w), Payload(w), b);
    match v
    case Int(i) => IntCancels(i, w.i, a, b);
    case Float(f) => FloatCancels(f, w.f, a, b);
    case Other(s) => StringCancels(s, w.s, a, b);
  }

  lemma EntryCancels(k: string, v: Value, a: string, l: string, w: Value, b: string)
    requires PrintEntry(k, v, a) == PrintEntry(l, w, b)
    ensures k == l && v == w && a == b
  {
    var x, y := PrintString(k) + (PrintValue(v) + a), PrintString(l) + (PrintValue(w) + b);
    assert PrintEntry(k, v, a)[1..] == x && PrintEntry(l, w, b)[1..] == y;
    StringCancels(k, l, PrintValue(v) + a, PrintValue(w) + b);
    ValueCancels(v, w, a, b);
  }

  // The entry that a printed document starts with.
  lemma PrintedHead(d: Doc) returns (k: string)
    requires d != map[]
    ensures k in d && PrintDoc(d) == PrintEntry(k, d[k], PrintDoc(d - {k}))
  {
    var key :| key in d && PrintDoc(d) == PrintEntry(key, d[key], PrintDoc(d - {key}));
    k := key;
  }

  lemma PrintedStart(d: Doc)
    ensures PrintDoc(d) != "" && PrintDoc(d)[0] == if d == map[] then '.' else 'k'
  {
  }

  lemma SameDoc(d: Doc, e: Doc, k: string)
    requires k in d && k in e && d[k] == e[k] && d - {k} == e - {k}
    ensures d == e
  {
    assert d == (d - {k})[k := d[k]] && e == (e - {k})[k := e[k]];
  }

  lemma {:induction false} DocsAreDistinct(d: Doc, e: Doc)
    requires PrintDoc(d) == PrintDoc(e)
    ensures d == e
    decreases |d|
  {
    PrintedStart(d);
    PrintedStart(e);
    if d != map[] {
      var k := PrintedHead(d);
      var l := PrintedHead(e);
      EntryCancels(k, d[k], PrintDoc(d - {k}), l, e[l], PrintDoc(e - {l}));
      DocsAreDistinct(d - {k}, e - {k});
      SameDoc(d, e, k);
    }
  }

  lemma FaithfulCodecExists() returns (c: Codec)
    ensures Faithful(c)
  {
    c := Codec((s: string) => ParseDoc(s), (d: Doc) => PrintDoc(d));
    forall d: Doc ensures c.parse(c.format(d)) == Some(d) {
      assert c.format(d) == PrintDoc(d);
      var e := ParseDoc(PrintDoc(d)).value;
      DocsAreDistinct(d, e);
    }
  }
}
