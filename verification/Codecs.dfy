/**
  A codec that keeps the laws the round trips ask for: no token is a number, and a module is
  written as its fields, one after the other, each character marked and each string ended.

  The texts need not be JSON; they need only be read back. `QuoteIsPrefixFree` says that a
  string ends where it ends, so a text is that of one module only (`BodyIsInjective`), and
  reading it is choosing that module (`LoadsWhatIsDumped`).

  That there is such a codec means that what is proved of every lawful codec, the round
  trips above all, is proved of something (`LawfulCodecsExist`).
 */
module Codecs {
  import opened Options
  import opened Cli

  type Fields = map<string, string>

  function Quote(s: string): string { if s == "" then "." else "'" + [s[0]] + Quote(s[1..]) }

  ghost function FieldOf(m: Fields): (k: string)
    requires m != map[]
    ensures k in m
  {
    var k :| k in m;
    k
  }

  ghost function Body(m: Fields): string
    decreases |m|
  {
    if m == map[] then "}" else var k := FieldOf(m); "," + (Quote(k) + (Quote(m[k]) + Body(m - {k})))
  }

  ghost function Dump(m: Fields): string { "{" + Body(m) }

  function AsModule(m: Fields): Module { map k | k in m :: Some(m[k]) }

  ghost predicate Writes(m: Fields, t: string) { Dump(m) == t && Named(AsModule(m)) }

  ghost function Load(t: string): Option<Module> {
    if exists m :: Writes(m, t) then var m :| Writes(m, t); Some(AsModule(m)) else None
  }

  lemma {:induction false} QuoteIsPrefixFree(a: string, b: string, x: string, y: string)
    requires Quote(a) + x == Quote(b) + y
    ensures a == b && x == y
  {
    var s, t := Quote(a) + x, Quote(b) + y;
    assert s[0] == if a == "" then '.' else '\'';
    assert t[0] == if b == "" then '.' else '\'';
    if a == "" {
      assert s[1..] == x && t[1..] == y;
    } else {
      assert s[1] == a[0] && t[1] == b[0];
      assert s[2..] == Quote(a[1..]) + x && t[2..] == Quote(b[1..]) + y;
      QuoteIsPrefixFree(a[1..], b[1..], x, y);
      assert a == [a[0]] + a[1..] && b == [b[0]] + b[1..];
    }
  }

  lemma {:induction false} BodyIsInjective(m: Fields, n: Fields)
    requires Body(m) == Body(n)
    ensures m == n
    decreases |m|
  {
    assert Body(m)[0] == if m == map[] then '}' else ',';
    assert Body(n)[0] == if n == map[] then '}' else ',';
    if m != map[] {
      var j, k := FieldOf(m), FieldOf(n);
      var after, other := Quote(m[j]) + Body(m - {j}), Quote(n[k]) + Body(n - {k});
      assert Body(m)[1..] == Quote(j) + after && Body(n)[1..] == Quote(k) + other;
      QuoteIsPrefixFree(j, k, after, other);
      QuoteIsPrefixFree(m[j], n[k], Body(m - {j}), Body(n - {k}));
      BodyIsInjective(m - {j}, n - {k});
      assert m == (m - {j})[j := m[j]] && n == (n - {k})[k := n[k]];
    }
  }

  lemma {:induction false} BodyIsLong(m: Fields, a: string, b: string)
    requires a in m
    ensures |Body(m)| > |m[a]| + 1 && Body(m)[|Body(m)| - 1] == '}'
    ensures b in m && a != b ==> |Body(m)| > |m[a]| + |m[b]| + 1
    decreases |m|
  {
    var k := FieldOf(m);
    var rest := m - {k};
    QuoteIsLonger(k);
    QuoteIsLonger(m[k]);
    assert a != k ==> a in rest;
    if rest == map[] {
      assert Body(rest) == "}";
    } else if k == a {
      var other := if b in rest then b else FieldOf(rest);
      BodyIsLong(rest, other, other);
    } else {
      BodyIsLong(rest, a, b);
    }
  }

  lemma {:induction false} QuoteIsLonger(s: string)
    ensures |Quote(s)| > |s|
  {
    if s != "" { QuoteIsLonger(s[1..]); }
  }

  lemma LoadsWhatIsDumped(m: Fields)
    requires Named(AsModule(m))
    ensures Load(Dump(m)) == Some(AsModule(m))
  {
    assert Writes(m, Dump(m));
    forall n | Writes(n, Dump(m)) ensures n == m {
      assert Dump(n)[1..] == Body(n) && Dump(m)[1..] == Body(m);
      BodyIsInjective(n, m);
    }
  }

  ghost function Plain(): Codec { Codec(_ => None, _ => false, m => Dump(m), t => Load(t)) }

  lemma DumpIsTrimmed(m: Fields)
    requires m != map[]
    ensures StartsWith(Dump(m), "{") && Strip(Dump(m)) == Dump(m)
  {
    BodyIsLong(m, FieldOf(m), FieldOf(m));
    BracedIsTrimmed(Body(m));
  }

  lemma BracedIsTrimmed(s: string)
    requires s != "" && s[|s| - 1] == '}'
    ensures StartsWith("{" + s, "{") && Strip("{" + s) == "{" + s
  {
    var j := "{" + s;
    assert j[..1] == "{" && j[|j| - 1] == s[|s| - 1];
    assert Trimmed(j);
    StripTrims(j);
  }

  /** So the laws can be kept. */
  lemma LawfulCodecsExist()
    ensures Lawful(Plain()) && JsonIsLonger(Plain())
  {
    forall m: Module | Named(m)
      ensures var j := Dump(DropNulls(m));
              && StartsWith(j, "{") && Strip(j) == j && Load(j).Some?
              && Named(Load(j).value) && DropNulls(Load(j).value) == DropNulls(m)
    {
      var d := DropNulls(m);
      assert "name" in d && Named(AsModule(d));
      DumpIsTrimmed(d);
      LoadsWhatIsDumped(d);
      assert DropNulls(AsModule(d)) == d;
    }
    forall t | Load(t).Some? && HasPath(Load(t).value)
      ensures |Load(t).value["name"].value| + |Load(t).value["path"].value| + 1 < |t|
    {
      var m :| Writes(m, t) && Load(t) == Some(AsModule(m));
      BodyIsLong(m, "name", "path");
    }
  }
}
