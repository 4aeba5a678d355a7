/**
  What the launch-command printers and parsers share: tokens, how a command line groups
  them into flags, typed values and their texts.

  Float and integer texts, JSON and quoting are left to a `Codec`; `Lawful` says what is
  assumed of it. A command line is the list of its tokens, already split.

  A printer gives every item of a configuration at most one flag (`Printer`, `PrintAll`). A
  parser goes through the tokens with an index (`ParseFlags`) and keeps its findings in a
  dictionary (`Flags`), whose keys it then writes in snake_case (`Norm`).
 */
module Cli {
  import opened Options
  import opened Dicts
  import opened Sequences

  // ---- Text ------------------------------------------------------------------------

  predicate StartsWith(s: string, p: string) {
    |p| <= |s| && s[..|p|] == p
  }

  predicate IsFlag(t: string) { StartsWith(t, "--") }

  /** str.replace for one character. */
  function Swap(s: string, from: char, to: char): (r: string)
    ensures |r| == |s|
    ensures forall i :: 0 <= i < |s| ==> r[i] == if s[i] == from then to else s[i]
  {
    seq(|s|, i requires 0 <= i < |s| => if s[i] == from then to else s[i])
  }

  function Kebab(s: string): string { Swap(s, '_', '-') }

  function Snake(s: string): string { Swap(s, '-', '_') }

  lemma KebabOfSnake(s: string)
    requires '_' !in s
    ensures Kebab(Snake(s)) == s
  {
    assert forall i :: 0 <= i < |s| ==> s[i] in s;
  }

  lemma SnakeOfKebab(s: string)
    requires '-' !in s
    ensures Snake(Kebab(s)) == s
  {
    assert forall i :: 0 <= i < |s| ==> s[i] in s;
  }

  lemma KebabChars(s: string)
    ensures '_' !in Kebab(s)
    ensures '=' in Kebab(s) ==> '=' in s
  {
  }

  function Lower(s: string): string {
    seq(|s|, i requires 0 <= i < |s| => if 'A' <= s[i] <= 'Z' then s[i] - 'A' + 'a' else s[i])
  }

  predicate BoolWord(s: string) { Lower(s) == "true" || Lower(s) == "false" }

  predicate IsSpace(c: char) { c in {' ', '\t', '\n', '\r'} }

  function LeftStrip(s: string): (r: string)
    ensures |r| <= |s| && (r != [] ==> !IsSpace(r[0]) && r[|r| - 1] == s[|s| - 1])
  {
    if s != [] && IsSpace(s[0]) then LeftStrip(s[1..]) else s
  }

  function RightStrip(s: string): (r: string)
    ensures |r| <= |s| && (r != [] ==> !IsSpace(r[|r| - 1]) && r[0] == s[0])
  {
    if s != [] && IsSpace(s[|s| - 1]) then RightStrip(s[..|s| - 1]) else s
  }

  function Strip(s: string): string { RightStrip(LeftStrip(s)) }

  /** Not empty, and no white space at either end. */
  predicate Trimmed(s: string) { s != "" && !IsSpace(s[0]) && !IsSpace(s[|s| - 1]) }

  lemma StripTrims(s: string)
    ensures Strip(s) == "" || Trimmed(Strip(s))
    ensures Trimmed(s) ==> Strip(s) == s
  {
  }

  /** Position of the first occurrence of c, or |s|. */
  function IndexOf(s: string, c: char): (r: nat)
    ensures r <= |s|
    ensures r < |s| ==> s[r] == c
    ensures forall i :: 0 <= i < r ==> s[i] != c
  {
    if s == [] then 0 else if s[0] == c then 0 else 1 + IndexOf(s[1..], c)
  }

  /** str.partition, without the separator. */
  function Before(s: string, c: char): string { s[..IndexOf(s, c)] }

  function After(s: string, c: char): string { if c in s then s[IndexOf(s, c) + 1..] else "" }

  // ---- Values ------------------------------------------------------------------------

  /** A LoRA adapter description: field name to text, None for a null field. */
  type Module = map<string, Option<string>>

  /** A configuration value. Numbers carry their canonical text; lists carry the texts of
      their items and their JSON form; dicts their JSON form. */
  datatype Value =
    | Null
    | Bool(b: bool)
    | Num(text: string)
    | Text(text: string)
    | List(items: seq<string>, json: string)
    | Object(json: string, empty: bool)
    | Modules(modules: seq<Module>)

  type Config = Dict<Value>

  /** number: canonical text of a token that int() or float() accepts; isZero: of a canonical
      text; dump/load: JSON of a module. */
  datatype Codec = Codec(
    number: string -> Option<string>,
    isZero: string -> bool,
    dump: map<string, string> -> string,
    load: string -> Option<Module>)

  predicate Named(m: Module) {
    "name" in m && m["name"].Some? && m["name"].value != ""
  }

  predicate HasPath(m: Module) {
    Named(m) && "path" in m && m["path"].Some? && m["path"].value != ""
  }

  function DropNulls(m: Module): map<string, string> {
    map k | k in m && m[k].Some? :: m[k].value
  }

  ghost predicate Lawful(c: Codec) {
    && (forall t :: c.number(t).Some? ==>
          c.number(c.number(t).value) == c.number(t) && !BoolWord(c.number(t).value) && !IsFlag(c.number(t).value))
    && (forall m: Module :: Named(m) ==>
          var j := c.dump(DropNulls(m));
          && StartsWith(j, "{") && Strip(j) == j && c.load(j).Some?
          && Named(c.load(j).value) && DropNulls(c.load(j).value) == DropNulls(m))
  }

  /** A JSON object is longer than the two fields it holds. */
  ghost predicate JsonIsLonger(c: Codec) {
    forall t :: c.load(t).Some? && HasPath(c.load(t).value) ==>
      |c.load(t).value["name"].value| + |c.load(t).value["path"].value| + 1 < |t|
  }

  predicate Truthy(c: Codec, v: Value) {
    match v
    case Null => false
    case Bool(b) => b
    case Num(t) => !c.isZero(t)
    case Text(t) => t != ""
    case List(items, _) => items != []
    case Object(_, empty) => !empty
    case Modules(ms) => ms != []
  }

  /** _coerce */
  function Coerce(c: Codec, t: string): Value {
    if BoolWord(t) then Bool(Lower(t) == "true")
    else if c.number(t).Some? then Num(c.number(t).value)
    else Text(t)
  }

  /** _parse_lora_module */
  function ParseModule(c: Codec, value: string): Module {
    var text := Strip(value);
    if StartsWith(text, "{") && c.load(text).Some? && Named(c.load(text).value) then c.load(text).value
    else if '=' in text then map["name" := Some(Strip(Before(text, '='))), "path" := Some(Strip(After(text, '=')))]
    else map["name" := Some(text), "path" := Some("")]
  }

  function ParseModules(c: Codec, values: seq<string>): (r: seq<Module>)
    ensures |r| == |values|
  {
    seq(|values|, i requires 0 <= i < |values| => ParseModule(c, values[i]))
  }

  // ---- A command line as flags -------------------------------------------------------

  /** A flag's name without its dashes and the tokens that follow it up to the next flag. */
  datatype Entry = Entry(name: string, args: seq<string>)

  /** The position of the first flag from i on, or the end. */
  function NextFlag(ts: seq<string>, i: nat): (n: nat)
    requires i <= |ts|
    ensures i <= n <= |ts|
    ensures forall k :: i <= k < n ==> !IsFlag(ts[k])
    ensures n < |ts| ==> IsFlag(ts[n])
    decreases |ts| - i
  {
    if i == |ts| || IsFlag(ts[i]) then i else NextFlag(ts, i + 1)
  }

  function EntryAt(ts: seq<string>, i: nat): Entry
    requires i < |ts| && IsFlag(ts[i])
  {
    Entry(ts[i][2..], ts[i + 1..NextFlag(ts, i + 1)])
  }

  function EntriesFrom(ts: seq<string>, i: nat): seq<Entry>
    requires i <= |ts|
    decreases |ts| - i
  {
    if i == |ts| then []
    else if !IsFlag(ts[i]) then EntriesFrom(ts, i + 1)
    else [EntryAt(ts, i)] + EntriesFrom(ts, NextFlag(ts, i + 1))
  }

  function Entries(ts: seq<string>): seq<Entry> { EntriesFrom(ts, 0) }

  function Tokens(e: Entry): seq<string> { ["--" + e.name] + e.args }

  function Flat(es: seq<Entry>): seq<string> {
    if es == [] then [] else Tokens(es[0]) + Flat(es[1..])
  }

  /** A later flag of the same name overrides an earlier one. */
  function LastWins(es: seq<Entry>): map<string, seq<string>> {
    if es == [] then map[] else LastWins(es[..|es| - 1])[es[|es| - 1].name := es[|es| - 1].args]
  }

  /** What a command line says: flag to arguments. */
  function FlagMap(ts: seq<string>): map<string, seq<string>> { LastWins(Entries(ts)) }

  /** No argument could be taken for a flag. */
  predicate Legible(es: seq<Entry>) {
    forall i, k :: 0 <= i < |es| && 0 <= k < |es[i].args| ==> !IsFlag(es[i].args[k])
  }

  /** Printed entries are read back as they were printed, whatever was printed before them. */
  lemma {:induction false} EntriesOfFlat(pre: seq<string>, es: seq<Entry>)
    requires Legible(es)
    ensures EntriesFrom(pre + Flat(es), |pre|) == es
    decreases es
  {
    if es != [] {
      var e, tail := es[0], Flat(es[1..]);
      var ts, more := pre + Flat(es), pre + Tokens(e);
      Reassociate(pre, Tokens(e), tail);
      assert ts == more + tail;
      EntriesOfFlat(more, es[1..]);
      FlatStartsWithFlag(es[1..]);
      EntryOfTokens(pre, e, tail);
      assert EntriesFrom(ts, |pre|) == [e] + EntriesFrom(ts, |more|);
      assert es == [e] + es[1..];
    }
  }

  /** One entry is read back from its tokens, up to the next flag. */
  lemma EntryOfTokens(pre: seq<string>, e: Entry, tail: seq<string>)
    requires forall k :: 0 <= k < |e.args| ==> !IsFlag(e.args[k])
    requires tail == [] || IsFlag(tail[0])
    ensures var ts, n := pre + Tokens(e) + tail, |pre| + |Tokens(e)|;
            IsFlag(ts[|pre|]) && NextFlag(ts, |pre| + 1) == n && EntryAt(ts, |pre|) == e
  {
    var ts, n := pre + Tokens(e) + tail, |pre| + |Tokens(e)|;
    TokensStand(pre, e, tail, ts);
    NextFlagIs(ts, |pre| + 1, n);
    EntryStands(ts, |pre|, e);
  }

  /** Where the tokens of an entry stand. */
  lemma TokensStand(pre: seq<string>, e: Entry, tail: seq<string>, ts: seq<string>)
    requires ts == pre + Tokens(e) + tail
    ensures var first := |pre| + 1;
            && |ts| == first + |e.args| + |tail| && ts[|pre|] == "--" + e.name
            && (forall k :: 0 <= k < |e.args| ==> ts[first + k] == e.args[k])
            && (tail != [] ==> ts[first + |e.args|] == tail[0])
  {
    forall k | 0 <= k < |e.args| ensures ts[|pre| + 1 + k] == e.args[k] {
      assert Tokens(e)[1 + k] == e.args[k];
    }
  }

  lemma EntryStands(ts: seq<string>, p: nat, e: Entry)
    requires p + 1 + |e.args| <= |ts| && ts[p] == "--" + e.name && NextFlag(ts, p + 1) == p + 1 + |e.args|
    requires forall k :: 0 <= k < |e.args| ==> ts[p + 1 + k] == e.args[k]
    ensures IsFlag(ts[p]) && EntryAt(ts, p) == e
  {
    assert ts[p + 1..p + 1 + |e.args|] == e.args;
    assert ts[p][2..] == e.name;
  }

  lemma {:induction false} NextFlagIs(ts: seq<string>, i: nat, n: nat)
    requires i <= n <= |ts|
    requires forall k :: i <= k < n ==> !IsFlag(ts[k])
    requires n < |ts| ==> IsFlag(ts[n])
    ensures NextFlag(ts, i) == n
    decreases n - i
  {
    if i < n {
      NextFlagIs(ts, i + 1, n);
    }
  }

  lemma FlatStartsWithFlag(es: seq<Entry>)
    ensures Flat(es) == [] || IsFlag(Flat(es)[0])
  {
    if es != [] {
      assert Flat(es)[0] == "--" + es[0].name;
    }
  }

  lemma {:induction false} FlatOfSum(a: seq<Entry>, b: seq<Entry>)
    ensures Flat(a + b) == Flat(a) + Flat(b)
  {
    if a == [] {
      assert a + b == b;
    } else {
      assert (a + b)[1..] == a[1..] + b;
      FlatOfSum(a[1..], b);
    }
  }

  lemma FlatOfOne(e: Entry)
    ensures Flat([e]) == Tokens(e)
  {
    assert Flat([e][1..]) == [];
  }

  lemma {:induction false} LastWinsSource(es: seq<Entry>, f: string) returns (i: nat)
    requires f in LastWins(es)
    ensures i < |es| && es[i].name == f && es[i].args == LastWins(es)[f]
  {
    i := |es| - 1;
    if es[i].name != f {
      i := LastWinsSource(es[..i], f);
    }
  }

  lemma {:induction false} LastWinsHas(es: seq<Entry>, i: nat)
    requires i < |es|
    ensures es[i].name in LastWins(es)
  {
    if i < |es| - 1 {
      LastWinsHas(es[..|es| - 1], i);
    }
  }

  // ---- Reading one flag ---------------------------------------------------------------

  /** The value a flag is given by the tokens after it. */
  function ReadArgs(c: Codec, args: seq<string>): Value {
    if args == [] || StartsWith(args[0], "-") then Bool(true) else Coerce(c, args[0])
  }

  /** Arguments that a flag keeps when its value is read and printed again. */
  predicate Stable(c: Codec, args: seq<string>) {
    || args == []
    || (&& |args| == 1
        && !StartsWith(args[0], "-")
        && !BoolWord(args[0])
        && (c.number(args[0]).None? || c.number(args[0]).value == args[0]))
  }

  // ---- The parsers' flag loop ----------------------------------------------------------

  /** One turn of the loop. `lora` is the multi-value LoRA flag of the engine; SGLang's parser
      also marks the configuration as LoRA-enabled when it meets it. */
  function AddFlag(c: Codec, lora: string, marks: bool, flags: Config, e: Entry): Config {
    if e.name == lora || e.name == Snake(lora) then
      var d := Set(flags, "lora_modules", Modules(ParseModules(c, e.args)));
      if marks then Set(d, "enable_lora", Bool(true)) else d
    else if '=' in e.name then Set(flags, Before(e.name, '='), Coerce(c, After(e.name, '=')))
    else Set(flags, e.name, ReadArgs(c, e.args))
  }

  function Flags(c: Codec, lora: string, marks: bool, es: seq<Entry>): Config {
    if es == [] then [] else AddFlag(c, lora, marks, Flags(c, lora, marks, es[..|es| - 1]), es[|es| - 1])
  }

  /** {k.replace("-", "_"): v for k, v in flags.items()} */
  function Norm(flags: Config): Config {
    if flags == [] then [] else Set(Norm(flags[..|flags| - 1]), Snake(flags[|flags| - 1].0), flags[|flags| - 1].1)
  }

  /** The nargs='+' loop: the values from position i up to the next flag. */
  method TakeValues(rest: seq<string>, i: nat) returns (values: seq<string>, j: nat)
    requires i <= |rest|
    ensures j == NextFlag(rest, i) && values == rest[i..j]
  {
    values, j := [], i;
    while j < |rest| && !IsFlag(rest[j])
      invariant i <= j <= NextFlag(rest, i)
      invariant values == rest[i..j]
    {
      values := values + [rest[j]];
      j := j + 1;
    }
  }

  /** One turn of the index loop, at a flag: where it stops reading, only stray tokens follow. */
  method TakeFlag(c: Codec, lora: string, marks: bool, rest: seq<string>, i: nat, flags: Config)
      returns (d: Config, j: nat)
    requires i < |rest| && IsFlag(rest[i])
    ensures d == AddFlag(c, lora, marks, flags, EntryAt(rest, i))
    ensures i < j <= NextFlag(rest, i + 1)
  {
    var name := rest[i][2..];
    if name == lora || name == Snake(lora) {
      var values;
      values, j := TakeValues(rest, i + 1);
      d := Set(flags, "lora_modules", Modules(ParseModules(c, values)));
      if marks {
        d := Set(d, "enable_lora", Bool(true));
      }
    } else if '=' in name {
      d, j := Set(flags, Before(name, '='), Coerce(c, After(name, '='))), i + 1;
    } else if i + 1 < |rest| && !StartsWith(rest[i + 1], "-") {
      if IsFlag(rest[i + 1]) {
        FlagDash(rest[i + 1]);
      }
      d, j := Set(flags, name, Coerce(c, rest[i + 1])), i + 2;
    } else {
      d, j := Set(flags, name, Bool(true)), i + 1;
    }
  }

  /** The parsers' index loop over the tokens computes `Flags` of the entries. */
  method ParseFlags(c: Codec, lora: string, marks: bool, rest: seq<string>) returns (flags: Config)
    ensures flags == Flags(c, lora, marks, Entries(rest))
  {
    flags := [];
    ghost var seen: seq<Entry> := [];
    var i := 0;
    while i < |rest|
      invariant 0 <= i <= |rest|
      invariant flags == Flags(c, lora, marks, seen)
      invariant seen + EntriesFrom(rest, i) == Entries(rest)
    {
      if IsFlag(rest[i]) {
        var j;
        ghost var e := EntryAt(rest, i);
        flags, j := TakeFlag(c, lora, marks, rest, i, flags);
        FlagsOfMore(c, lora, marks, seen, e);
        SkipStray(rest, i + 1, j);
        assert EntriesFrom(rest, i) == [e] + EntriesFrom(rest, j);
        Reassociate(seen, [e], EntriesFrom(rest, j));
        i, seen := j, seen + [e];
      } else {
        i := i + 1;
      }
    }
    assert seen + [] == seen;
  }

  lemma FlagsOfMore(c: Codec, lora: string, marks: bool, seen: seq<Entry>, e: Entry)
    ensures Flags(c, lora, marks, seen + [e]) == AddFlag(c, lora, marks, Flags(c, lora, marks, seen), e)
  {
    assert (seen + [e])[..|seen|] == seen;
  }

  lemma FlagDash(t: string)
    requires IsFlag(t)
    ensures StartsWith(t, "-")
  {
    assert t[..1] == t[..2][..1];
  }

  /** Tokens before the next flag contribute no entry. */
  lemma {:induction false} SkipStray(rest: seq<string>, i: nat, j: nat)
    requires i <= j <= |rest| && j <= NextFlag(rest, i)
    ensures EntriesFrom(rest, j) == EntriesFrom(rest, NextFlag(rest, i))
    decreases NextFlag(rest, i) - j
  {
    if j < NextFlag(rest, i) {
      SkipStray(rest, i, j + 1);
    }
  }

  // ---- Configurations ---------------------------------------------------------------------

  /** LoRA modules are lists of objects under their own key, and only there. */
  predicate Typed(cfg: Config) {
    forall i :: 0 <= i < |cfg| ==>
      && (cfg[i].1.Modules? ==> cfg[i].0 == "lora_modules")
      && (cfg[i].0 == "lora_modules" ==> cfg[i].1.Modules? || cfg[i].1.Null?)
  }

  predicate HasTag(cfg: Config) {
    var t := Find(cfg, "model_tag");
    t.Some? && t.value.Text? && t.value.text != ""
  }

  function Tag(cfg: Config): string
    requires HasTag(cfg)
  {
    Find(cfg, "model_tag").value.text
  }

  // ---- The printers' loop and the parsers' result ------------------------------------------

  /** How one configuration item is printed: as one flag, or not at all. */
  type Printer = (string, Value) -> seq<Entry>

  function PrintAll(f: Printer, cfg: Config): seq<Entry> {
    if cfg == [] then [] else PrintAll(f, cfg[..|cfg| - 1]) + f(cfg[|cfg| - 1].0, cfg[|cfg| - 1].1)
  }

  lemma PrintPrefix(f: Printer, cfg: Config, i: nat)
    requires i < |cfg|
    ensures Flat(PrintAll(f, cfg[..i + 1])) == Flat(PrintAll(f, cfg[..i])) + Flat(f(cfg[i].0, cfg[i].1))
  {
    assert cfg[..i + 1][..i] == cfg[..i];
    FlatOfSum(PrintAll(f, cfg[..i]), f(cfg[i].0, cfg[i].1));
  }

  /** `config` is the group's settings; host and port belong to the instance. */
  datatype Parsed = Parsed(tag: Value, host: Value, port: Value, config: Config)

  function OrElse(v: Option<Value>, default: Value): Value {
    if v.Some? then v.value else default
  }

  /** Leading tokens that are no options (the interpreter) are dropped. */
  function FromFirstDash(ts: seq<string>): seq<string> {
    if ts != [] && !StartsWith(ts[0], "-") then FromFirstDash(ts[1..]) else ts
  }

  method DropLeading(ts: seq<string>) returns (rest: seq<string>)
    ensures rest == FromFirstDash(ts)
  {
    rest := ts;
    while rest != [] && !StartsWith(rest[0], "-")
      invariant FromFirstDash(rest) == FromFirstDash(ts)
    {
      rest := rest[1..];
    }
  }

  method Normalise(flags: Config) returns (norm: Config)
    ensures norm == Norm(flags)
  {
    norm := [];
    for i := 0 to |flags|
      invariant norm == Norm(flags[..i])
    {
      assert flags[..i + 1][..i] == flags[..i];
      norm := Set(norm, Snake(flags[i].0), flags[i].1);
    }
    assert flags[..|flags|] == flags;
  }

  /** What the launcher prints next: the group's settings overlaid with the instance's fields. */
  function Relaunched(p: Parsed): Config {
    Set(Set(p.config, "host", p.host), "port", p.port)
  }

  /** The instance's fields and the served name leave the group's settings. */
  function Peeled(norm: Config): Config {
    Remove(Remove(Remove(norm, "port"), "host"), "served_model_name")
  }
}
