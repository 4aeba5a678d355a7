/**
  What the flags of a command line say, told token by token, without the parsers: which keys
  a token sets, to what, and which of several flags for one setting prevails.

  A key may be spelled with dashes or underscores. The parsers collect flags by their
  spelling and then merge the spellings in the order in which they first came up, so of two
  spellings of a setting the newer one prevails, even if the older one is said again later
  (`IsSaid`). `FlagsSay` proves that of the parsers' dictionary: its items, in the order in
  which they were set, stand at the tokens that set them (`ItemsStand`), and what prevails
  among the items (`BuiltSetting`) prevails among the tokens (`SaidIsKept`).
 */
module FlagTokens {
  import opened Options
  import opened Dicts
  import opened Sequences
  import opened Cli

  // ---- One value ----------------------------------------------------------------------------

  /** t is w, which is in lower case, in any case. */
  ghost predicate AnyCase(t: string, w: string) {
    |t| == |w| && forall i :: 0 <= i < |t| ==> t[i] == w[i] || ('A' <= t[i] <= 'Z' && t[i] as int + 32 == w[i] as int)
  }

  /** A token is true or false in any case, else a number, else a text. */
  ghost predicate IsRead(c: Codec, t: string, v: Value) {
    if AnyCase(t, "true") then v == Bool(true)
    else if AnyCase(t, "false") then v == Bool(false)
    else v == match c.number(t) case Some(n) => Num(n) case None => Text(t)
  }

  lemma LowerIsAnyCase(t: string, w: string)
    requires forall i :: 0 <= i < |w| ==> 'a' <= w[i] <= 'z'
    ensures Lower(t) == w <==> AnyCase(t, w)
  {
    if Lower(t) == w {
      forall i | 0 <= i < |t| ensures t[i] == w[i] || ('A' <= t[i] <= 'Z' && t[i] as int + 32 == w[i] as int) {
        assert Lower(t)[i] == w[i];
      }
    }
  }

  lemma CoerceReads(c: Codec, t: string)
    ensures IsRead(c, t, Coerce(c, t))
  {
    LowerIsAnyCase(t, "true");
    LowerIsAnyCase(t, "false");
  }

  ghost predicate AllSpace(s: string) { forall i :: 0 <= i < |s| ==> s[i] in {' ', '\t', '\n', '\r'} }

  /** r is s without the white space at its ends. */
  ghost predicate IsStripped(s: string, r: string) {
    && (r == "" || (r[0] !in {' ', '\t', '\n', '\r'} && r[|r| - 1] !in {' ', '\t', '\n', '\r'}))
    && exists a: nat, b: nat :: Between(s, a, b, r)
  }

  ghost predicate Between(s: string, a: nat, b: nat, r: string) {
    a <= b <= |s| && r == s[a..b] && AllSpace(s[..a]) && AllSpace(s[b..])
  }

  lemma SpaceMore(c: char, s: string)
    requires IsSpace(c) && AllSpace(s)
    ensures AllSpace([c] + s)
  {
  }

  lemma {:induction false} LeftStripCuts(s: string)
    ensures var r := LeftStrip(s); var n := |s| - |r|; r == s[n..] && AllSpace(s[..n])
  {
    if s != "" && IsSpace(s[0]) {
      var rest, n := s[1..], |s| - |LeftStrip(s)|;
      LeftStripCuts(rest);
      assert rest[n - 1..] == s[n..];
      SpaceMore(s[0], rest[..n - 1]);
      assert s[..n] == [s[0]] + rest[..n - 1];
    }
  }

  lemma {:induction false} RightStripCuts(s: string)
    ensures var n := |RightStrip(s)|; RightStrip(s) == s[..n] && AllSpace(s[n..])
  {
    if s != "" && IsSpace(s[|s| - 1]) {
      var front := s[..|s| - 1];
      RightStripCuts(front);
      var n := |RightStrip(s)|;
      assert s[n..] == front[n..] + [s[|s| - 1]];
    }
  }

  lemma Inside(s: string, a: nat, n: nat)
    requires a + n <= |s|
    ensures s[a..][..n] == s[a..a + n] && s[a..][n..] == s[a + n..]
  {
  }

  lemma StripCuts(s: string) returns (a: nat, b: nat)
    ensures Between(s, a, b, Strip(s))
  {
    var l, r := LeftStrip(s), Strip(s);
    a, b := |s| - |l|, |s| - |l| + |r|;
    LeftStripCuts(s);
    RightStripCuts(l);
    Inside(s, a, |r|);
  }

  lemma StripIs(s: string)
    ensures IsStripped(s, Strip(s))
  {
    StripTrims(s);
    var a, b := StripCuts(s);
  }

  /** A LoRA value is a JSON object with a name, or name=path, or a name. */
  ghost predicate IsModule(c: Codec, value: string, m: Module) {
    exists text :: IsStripped(value, text) && IsModuleText(c, text, m)
  }

  ghost predicate IsModuleText(c: Codec, text: string, m: Module) {
    var json := if "{" <= text then c.load(text) else None;
    if json.Some? && "name" in json.value && json.value["name"].Some? && json.value["name"].value != "" then
      m == json.value
    else if '=' in text then IsNamePath(text, m)
    else m == map["name" := Some(text), "path" := Some("")]
  }

  /** The fields are what stands around the first equals sign, without white space. */
  ghost predicate IsNamePath(text: string, m: Module) {
    exists n, p, name, path ::
      IsSplit(text, n, p) && IsStripped(n, name) && IsStripped(p, path)
      && m == map["name" := Some(name), "path" := Some(path)]
  }

  /** The text before its first equals sign, and the text after it. */
  ghost predicate IsSplit(text: string, before: string, after: string) {
    '=' !in before && text == before + "=" + after
  }

  lemma PartitionSplits(s: string)
    requires '=' in s
    ensures IsSplit(s, Before(s, '='), After(s, '='))
  {
    var n := IndexOf(s, '=');
    assert n < |s|;
    assert s == s[..n] + [s[n]] + s[n + 1..];
  }

  lemma NamePathReads(text: string)
    requires '=' in text
    ensures IsNamePath(text, map["name" := Some(Strip(Before(text, '='))), "path" := Some(Strip(After(text, '=')))])
  {
    PartitionSplits(text);
    StripIs(Before(text, '='));
    StripIs(After(text, '='));
  }

  lemma ModuleTextReads(c: Codec, value: string)
    ensures IsModuleText(c, Strip(value), ParseModule(c, value))
  {
    var text := Strip(value);
    assert StartsWith(text, "{") <==> "{" <= text;
    if '=' in text { NamePathReads(text); }
  }

  lemma ModuleReads(c: Codec, value: string)
    ensures IsModule(c, value, ParseModule(c, value))
  {
    StripIs(value);
    ModuleTextReads(c, value);
  }

  // ---- One token ----------------------------------------------------------------------------

  /** Token i is a flag and sets key k; `lora` are the engine's names of its LoRA flag. */
  ghost predicate Touches(lora: set<string>, marks: bool, ts: seq<string>, i: int, k: string) {
    && 0 <= i < |ts| && "--" <= ts[i]
    && var name := ts[i][2..];
       if name in lora then k == "lora_modules" || (marks && k == "enable_lora")
       else if '=' in name then exists after :: IsSplit(name, k, after)
       else k == name
  }

  /** What it sets k to: what follows its equals sign or else the next token, unless that begins
      with a dash or is missing; a LoRA flag takes every token up to the next flag. */
  ghost predicate Gives(c: Codec, lora: set<string>, ts: seq<string>, i: int, k: string, v: Value)
    requires 0 <= i < |ts| && "--" <= ts[i]
  {
    var name := ts[i][2..];
    if name in lora then
      if k == "lora_modules" then v.Modules? && AreModules(c, ts, i + 1, v.modules) else v == Bool(true)
    else if '=' in name then exists after :: IsSplit(name, k, after) && IsRead(c, after, v)
    else if i + 1 < |ts| && !("-" <= ts[i + 1]) then IsRead(c, ts[i + 1], v)
    else v == Bool(true)
  }

  ghost predicate AreModules(c: Codec, ts: seq<string>, i: int, ms: seq<Module>)
    requires 0 <= i <= |ts|
  {
    var end := i + |ms|;
    && end <= |ts| && (end == |ts| || "--" <= ts[end])
    && forall n :: 0 <= n < |ms| ==> !("--" <= ts[i + n]) && IsModule(c, ts[i + n], ms[n])
  }

  // ---- One setting ----------------------------------------------------------------------------

  /** The setting is what the flags say: nothing if no flag sets it in any spelling. Otherwise,
      of the spellings in use, that which came up last prevails, with what its last flag says. */
  ghost predicate IsSaid(c: Codec, lora: set<string>, marks: bool, ts: seq<string>, setting: string,
                         found: Option<Value>) {
    match found
    case None => forall i, k :: Touches(lora, marks, ts, i, k) ==> Snake(k) != setting
    case Some(v) => exists k, first, last ::
      && Snake(k) == setting && IsNewest(lora, marks, ts, setting, k, first) && IsLast(lora, marks, ts, k, last)
      && Gives(c, lora, ts, last, k, v)
  }

  ghost predicate IsLast(lora: set<string>, marks: bool, ts: seq<string>, k: string, last: int) {
    Touches(lora, marks, ts, last, k) && forall i :: last < i ==> !Touches(lora, marks, ts, i, k)
  }

  /** Spelling k comes up first at token `first`, and every other of the setting has by then. */
  ghost predicate IsNewest(lora: set<string>, marks: bool, ts: seq<string>, setting: string, k: string, first: int) {
    && Touches(lora, marks, ts, first, k) && (forall i :: i < first ==> !Touches(lora, marks, ts, i, k))
    && forall i, other :: Touches(lora, marks, ts, i, other) && Snake(other) == setting ==>
         CameUp(lora, marks, ts, first, other)
  }

  ghost predicate CameUp(lora: set<string>, marks: bool, ts: seq<string>, upTo: int, k: string) {
    exists h :: h <= upTo && Touches(lora, marks, ts, h, k)
  }

  /** A dictionary of all that the flags say. */
  ghost predicate Says(c: Codec, lora: set<string>, marks: bool, ts: seq<string>, norm: Config) {
    forall setting :: IsSaid(c, lora, marks, ts, setting, Find(norm, setting))
  }

  // ---- The items that flags set, in order -------------------------------------------------------

  function ItemsOf(c: Codec, lora: string, marks: bool, e: Entry): Config {
    if e.name == lora || e.name == Snake(lora) then
      [("lora_modules", Modules(ParseModules(c, e.args)))] + if marks then [("enable_lora", Bool(true))] else []
    else if '=' in e.name then [(Before(e.name, '='), Coerce(c, After(e.name, '=')))]
    else [(e.name, ReadArgs(c, e.args))]
  }

  function Built(items: Config): Config {
    if items == [] then [] else Set(Built(items[..|items| - 1]), items[|items| - 1].0, items[|items| - 1].1)
  }

  lemma BuiltMore(items: Config, k: string, v: Value)
    ensures Built(items + [(k, v)]) == Set(Built(items), k, v)
  {
    assert (items + [(k, v)])[..|items|] == items;
  }

  lemma BuiltTwoMore(items: Config, a: (string, Value), b: (string, Value))
    ensures Built(items + [a]) == Set(Built(items), a.0, a.1)
    ensures Built(items + ([a] + [b])) == Set(Built(items + [a]), b.0, b.1)
  {
    BuiltMore(items, a.0, a.1);
    BuiltMore(items + [a], b.0, b.1);
    assert items + ([a] + [b]) == items + [a] + [b];
  }

  lemma AddFlagSets(c: Codec, lora: string, marks: bool, items: Config, e: Entry)
    ensures AddFlag(c, lora, marks, Built(items), e) == Built(items + ItemsOf(c, lora, marks, e))
  {
    var new_ := ItemsOf(c, lora, marks, e);
    BuiltTwoMore(items, new_[0], ("enable_lora", Bool(true)));
    assert |new_| == 1 ==> new_ == [new_[0]];
  }

  lemma {:induction false} BuiltFind(items: Config, k: string)
    ensures var found := Find(Built(items), k);
            && (found.None? ==> forall j :: 0 <= j < |items| ==> items[j].0 != k)
            && (found.Some? ==> exists j :: LastItem(items, j, k, found.value))
  {
    if items != [] {
      var n := |items| - 1;
      BuiltFind(items[..n], k);
      SetThenFind(Built(items[..n]), items[n].0, items[n].1, k);
      if items[n].0 == k {
        assert LastItem(items, n, k, items[n].1);
      } else if Find(Built(items[..n]), k).Some? {
        var v := Find(Built(items[..n]), k).value;
        var j :| LastItem(items[..n], j, k, v);
        assert LastItem(items, j, k, v);
      } else {
        assert forall j :: 0 <= j < n ==> items[..n][j] == items[j];
      }
    }
  }

  ghost predicate LastItem(items: Config, j: int, k: string, v: Value) {
    0 <= j < |items| && items[j] == (k, v) && forall i :: j < i < |items| ==> items[i].0 != k
  }

  /** Keys stand in a dictionary in the order in which they were first set. */
  ghost predicate FirstSet(items: Config, d: Config, first: seq<nat>) {
    && |first| == |d| && (forall a, b :: 0 <= a < b < |d| ==> first[a] < first[b])
    && forall a :: 0 <= a < |d| ==> FirstItem(items, first[a], d[a].0)
  }

  ghost predicate FirstItem(items: Config, j: int, k: string) {
    0 <= j < |items| && items[j].0 == k && forall i :: 0 <= i < j ==> items[i].0 != k
  }

  lemma {:induction false} SetAt(d: Config, k: string, v: Value)
    ensures var r := Set(d, k, v);
            && (Find(d, k).Some? ==> |r| == |d| && forall a :: 0 <= a < |d| ==> r[a].0 == d[a].0)
            && (Find(d, k).None? ==> r == d + [(k, v)])
  {
    if d != [] && d[0].0 != k {
      SetAt(d[1..], k, v);
      if Find(d, k).Some? {
        assert forall a :: 0 < a < |d| ==> Set(d, k, v)[a] == Set(d[1..], k, v)[a - 1];
      }
    }
  }

  lemma FirstSetMore(items: Config, d: Config, r: Config, first: seq<nat>, more: seq<nat>)
    requires items != [] && FirstSet(items[..|items| - 1], d, first)
    requires forall a :: 0 <= a < |d| ==> a < |r| && r[a].0 == d[a].0
    requires if |r| == |d| then more == first
             else |r| == |d| + 1 && more == first + [|items| - 1] && FirstItem(items, |items| - 1, r[|d|].0)
    ensures FirstSet(items, r, more)
  {
    forall a | 0 <= a < |d| ensures FirstItem(items, first[a], d[a].0) {
      assert FirstItem(items[..|items| - 1], first[a], d[a].0);
    }
  }

  lemma {:induction false} BuiltOrder(items: Config) returns (first: seq<nat>)
    ensures FirstSet(items, Built(items), first) && UniqueKeys(Built(items))
  {
    first := [];
    if items != [] {
      var n := |items| - 1;
      var (k, v) := items[n];
      var d := Built(items[..n]);
      var was := BuiltOrder(items[..n]);
      SetKeepsUnique(d, k, v);
      SetAt(d, k, v);
      BuiltFind(items[..n], k);
      first := if Find(d, k).None? then was + [n] else was;
      FirstSetMore(items, d, Set(d, k, v), was, first);
    }
  }

  lemma {:induction false} NormFind(d: Config, setting: string)
    ensures var found := Find(Norm(d), setting);
            && (found.None? ==> forall a :: 0 <= a < |d| ==> Snake(d[a].0) != setting)
            && (found.Some? ==> exists a :: LastSpelling(d, a, setting, found.value))
  {
    if d != [] {
      var n := |d| - 1;
      NormFind(d[..n], setting);
      SetThenFind(Norm(d[..n]), Snake(d[n].0), d[n].1, setting);
      if Snake(d[n].0) == setting {
        assert LastSpelling(d, n, setting, d[n].1);
      } else if Find(Norm(d[..n]), setting).Some? {
        var v := Find(Norm(d[..n]), setting).value;
        var a :| LastSpelling(d[..n], a, setting, v);
        assert LastSpelling(d, a, setting, v);
      } else {
        assert forall a :: 0 <= a < n ==> d[..n][a] == d[a];
      }
    }
  }

  ghost predicate LastSpelling(d: Config, a: int, setting: string, v: Value) {
    && 0 <= a < |d| && Snake(d[a].0) == setting && d[a].1 == v
    && forall b :: a < b < |d| ==> Snake(d[b].0) != setting
  }

  /** The same for items as `IsSaid` for tokens. */
  ghost predicate ItemPrevails(items: Config, setting: string, k: string, first: int, last: int, v: Value) {
    && Snake(k) == setting && FirstItem(items, first, k) && LastItem(items, last, k, v)
    && forall j :: 0 <= j < |items| && Snake(items[j].0) == setting ==>
         exists h :: 0 <= h <= first && items[h].0 == items[j].0
  }

  lemma BuiltSetting(items: Config, setting: string)
    ensures var found := Find(Norm(Built(items)), setting);
            && (found.None? ==> forall j :: 0 <= j < |items| ==> Snake(items[j].0) != setting)
            && (found.Some? ==> exists k, first, last :: ItemPrevails(items, setting, k, first, last, found.value))
  {
    var d := Built(items);
    var at := BuiltOrder(items);
    NormFind(d, setting);
    match Find(Norm(d), setting) {
      case None =>
        forall j | 0 <= j < |items| ensures Snake(items[j].0) != setting {
          var a := PlaceOf(items, j);
        }
      case Some(v) =>
        var a :| LastSpelling(d, a, setting, v);
        var k := d[a].0;
        FindsItem(d, a);
        BuiltFind(items, k);
        var last :| LastItem(items, last, k, v);
        forall j | 0 <= j < |items| && Snake(items[j].0) == setting
          ensures exists h :: 0 <= h <= at[a] && items[h].0 == items[j].0
        {
          var b := PlaceOf(items, j);
          assert b <= a && FirstItem(items, at[b], d[b].0);
          assert at[b] <= at[a] && items[at[b]].0 == items[j].0;
        }
        assert ItemPrevails(items, setting, k, at[a], last, v);
    }
  }

  lemma PlaceOf(items: Config, j: int) returns (a: nat)
    requires 0 <= j < |items|
    ensures a < |Built(items)| && Built(items)[a].0 == items[j].0
  {
    BuiltFind(items, items[j].0);
    a := FoundAt(Built(items), items[j].0);
  }

  // ---- From tokens to items --------------------------------------------------------------------------

  lemma LoraTakes(c: Codec, ts: seq<string>, i: nat)
    requires i < |ts| && IsFlag(ts[i])
    ensures AreModules(c, ts, i + 1, ParseModules(c, EntryAt(ts, i).args))
  {
    var args := EntryAt(ts, i).args;
    var ms := ParseModules(c, args);
    forall n | 0 <= n < |ms| ensures IsModule(c, ts[i + 1 + n], ms[n]) {
      ModuleReads(c, args[n]);
    }
  }

  lemma SplitIsUnique(s: string, before: string, after: string)
    requires IsSplit(s, before, after)
    ensures '=' in s && before == Before(s, '=') && after == After(s, '=')
  {
    assert s[|before|] == '=';
    assert forall i :: 0 <= i < |before| ==> s[i] == before[i] && s[i] in before;
    assert IndexOf(s, '=') == |before|;
  }

  lemma FirstArg(c: Codec, ts: seq<string>, i: nat)
    requires i < |ts| && IsFlag(ts[i])
    ensures var v := ReadArgs(c, EntryAt(ts, i).args);
            if i + 1 < |ts| && !("-" <= ts[i + 1]) then IsRead(c, ts[i + 1], v) else v == Bool(true)
  {
    if i + 1 < |ts| {
      CoerceReads(c, ts[i + 1]);
      if IsFlag(ts[i + 1]) { FlagDash(ts[i + 1]); }
    }
  }

  /** The items of a flag are what its token sets. */
  lemma ItemsTouch(c: Codec, lora: string, marks: bool, ts: seq<string>, i: nat)
    requires i < |ts| && IsFlag(ts[i])
    ensures var items, names := ItemsOf(c, lora, marks, EntryAt(ts, i)), {lora, Snake(lora)};
            && (forall j :: 0 <= j < |items| ==>
                  Touches(names, marks, ts, i, items[j].0) && Gives(c, names, ts, i, items[j].0, items[j].1))
            && (forall k :: Touches(names, marks, ts, i, k) ==> exists j :: 0 <= j < |items| && items[j].0 == k)
  {
    var items, names, name := ItemsOf(c, lora, marks, EntryAt(ts, i)), {lora, Snake(lora)}, ts[i][2..];
    if name in names {
      LoraTakes(c, ts, i);
      assert items[0].0 == "lora_modules" && (marks ==> items[1].0 == "enable_lora");
    } else if '=' in name {
      PartitionSplits(name);
      CoerceReads(c, After(name, '='));
      forall k | Touches(names, marks, ts, i, k) ensures items[0].0 == k {
        var after :| IsSplit(name, k, after);
        SplitIsUnique(name, k, after);
      }
    } else {
      FirstArg(c, ts, i);
      assert items[0].0 == name;
    }
  }

  /** The entries of a command line stand at its flags. */
  ghost predicate Stand(ts: seq<string>, i: nat, es: seq<Entry>, at: seq<nat>) {
    |at| == |es| && AtFlags(ts, i, at) && forall n :: 0 <= n < |at| ==> StandsAt(ts, es[n], at[n])
  }

  ghost predicate AtFlags(ts: seq<string>, i: nat, at: seq<nat>) {
    && (forall n :: 0 <= n < |at| ==> i <= at[n])
    && (forall m, n :: 0 <= m < n < |at| ==> at[m] < at[n])
    && (forall p :: i <= p < |ts| && IsFlag(ts[p]) ==> p in at)
  }

  ghost predicate StandsAt(ts: seq<string>, e: Entry, p: nat) {
    p < |ts| && IsFlag(ts[p]) && e == EntryAt(ts, p)
  }

  lemma AtMore(ts: seq<string>, i: nat, next: nat, at: seq<nat>)
    requires i < next <= |ts| && AtFlags(ts, next, at) && forall p :: i < p < next ==> !IsFlag(ts[p])
    ensures AtFlags(ts, i, [i] + at)
  {
    forall p | i <= p < |ts| && IsFlag(ts[p]) ensures p in [i] + at {
      assert p != i ==> p in at;
    }
  }

  lemma {:induction false} EntriesStand(ts: seq<string>, i: nat) returns (at: seq<nat>)
    requires i <= |ts|
    ensures Stand(ts, i, EntriesFrom(ts, i), at)
    decreases |ts| - i
  {
    if i == |ts| {
      at := [];
    } else if !IsFlag(ts[i]) {
      at := EntriesStand(ts, i + 1);
    } else {
      var next := NextFlag(ts, i + 1);
      var rest := EntriesStand(ts, next);
      AtMore(ts, i, next, rest);
      at := [i] + rest;
      assert StandsAt(ts, EntryAt(ts, i), i);
    }
  }

  function AllItems(c: Codec, lora: string, marks: bool, es: seq<Entry>): Config {
    if es == [] then []
    else AllItems(c, lora, marks, es[..|es| - 1]) + ItemsOf(c, lora, marks, es[|es| - 1])
  }

  lemma {:induction false} FlagsAreBuilt(c: Codec, lora: string, marks: bool, es: seq<Entry>)
    ensures Flags(c, lora, marks, es) == Built(AllItems(c, lora, marks, es))
  {
    if es != [] {
      var n := |es| - 1;
      FlagsAreBuilt(c, lora, marks, es[..n]);
      AddFlagSets(c, lora, marks, AllItems(c, lora, marks, es[..n]), es[n]);
    }
  }

  /** Items stand at tokens that set them, in order, and none is missing before token `end`. */
  ghost predicate Placed(c: Codec, names: set<string>, marks: bool, ts: seq<string>, end: nat, items: Config,
                         place: seq<nat>) {
    && |place| == |items|
    && (forall j :: 0 <= j < |items| ==> SetsItem(c, names, marks, ts, place[j], items[j]) && place[j] < end)
    && (forall j, l :: 0 <= j < l < |items| ==> place[j] <= place[l])
    && (forall i, k :: i < end && Touches(names, marks, ts, i, k) ==> HasItem(items, place, i, k))
  }

  ghost predicate SetsItem(c: Codec, names: set<string>, marks: bool, ts: seq<string>, i: nat, item: (string, Value)) {
    Touches(names, marks, ts, i, item.0) && Gives(c, names, ts, i, item.0, item.1)
  }

  ghost predicate HasItem(items: Config, place: seq<nat>, i: int, k: string) {
    exists j :: 0 <= j < |items| && j < |place| && place[j] == i && items[j].0 == k
  }

  ghost function End(ts: seq<string>, at: seq<nat>, n: nat): nat
    requires n <= |at|
  {
    if n < |at| then at[n] else |ts|
  }

  /** Between two flags no token sets anything. */
  lemma OnlyFlagsTouch(names: set<string>, marks: bool, ts: seq<string>, at: seq<nat>, n: nat, i: int, k: string)
    requires AtFlags(ts, 0, at) && n <= |at| && i < End(ts, at, n) && Touches(names, marks, ts, i, k)
    ensures n > 0 && i <= at[n - 1]
  {
    assert IsFlag(ts[i]);
    var m :| 0 <= m < |at| && at[m] == i;
  }

  lemma PlacedMore(c: Codec, names: set<string>, marks: bool, ts: seq<string>, end: nat, items: Config, place: seq<nat>,
                   next: nat, new_: Config, here: seq<nat>)
    requires Placed(c, names, marks, ts, end, items, place) && end < next && |here| == |new_|
    requires forall j :: 0 <= j < |new_| ==> here[j] == end && SetsItem(c, names, marks, ts, end, new_[j])
    requires forall k :: Touches(names, marks, ts, end, k) ==> exists j :: 0 <= j < |new_| && new_[j].0 == k
    requires forall i, k :: end < i < next ==> !Touches(names, marks, ts, i, k)
    ensures Placed(c, names, marks, ts, next, items + new_, place + here)
  {
    var all, places := items + new_, place + here;
    forall i, k | i < next && Touches(names, marks, ts, i, k) ensures HasItem(all, places, i, k) {
      if i < end {
        HasItemStill(items, place, new_, here, i, k);
      } else {
        var j :| 0 <= j < |new_| && new_[j].0 == k;
        assert places[|items| + j] == i && all[|items| + j].0 == k;
      }
    }
  }

  lemma HasItemStill(items: Config, place: seq<nat>, new_: Config, here: seq<nat>, i: int, k: string)
    requires HasItem(items, place, i, k)
    ensures HasItem(items + new_, place + here, i, k)
  {
    var j :| 0 <= j < |items| && j < |place| && place[j] == i && items[j].0 == k;
    assert (items + new_)[j] == items[j] && (place + here)[j] == i;
  }

  lemma {:induction false} ItemsStand(c: Codec, lora: string, marks: bool, ts: seq<string>, at: seq<nat>, n: nat)
    returns (place: seq<nat>)
    requires Stand(ts, 0, Entries(ts), at) && n <= |at|
    ensures Placed(c, {lora, Snake(lora)}, marks, ts, End(ts, at, n), AllItems(c, lora, marks, Entries(ts)[..n]), place)
  {
    var es, names := Entries(ts), {lora, Snake(lora)};
    if n == 0 {
      place := [];
      forall i, k | i < End(ts, at, 0) ensures !Touches(names, marks, ts, i, k) {
        if Touches(names, marks, ts, i, k) { OnlyFlagsTouch(names, marks, ts, at, 0, i, k); }
      }
    } else {
      var before := ItemsStand(c, lora, marks, ts, at, n - 1);
      var p := at[n - 1];
      assert StandsAt(ts, es[n - 1], p);
      assert es[..n][..n - 1] == es[..n - 1];
      var new_ := ItemsOf(c, lora, marks, EntryAt(ts, p));
      ItemsTouch(c, lora, marks, ts, p);
      var here := seq(|new_|, _ => p);
      forall i, k | p < i < End(ts, at, n) ensures !Touches(names, marks, ts, i, k) {
        if Touches(names, marks, ts, i, k) { OnlyFlagsTouch(names, marks, ts, at, n, i, k); }
      }
      PlacedMore(c, names, marks, ts, p, AllItems(c, lora, marks, es[..n - 1]), before, End(ts, at, n), new_, here);
      place := before + here;
    }
  }

  // ---- The dictionary of the parsers -------------------------------------------------------------------

  lemma SaidIsKept(c: Codec, names: set<string>, marks: bool, ts: seq<string>, items: Config, place: seq<nat>,
                   setting: string)
    requires Placed(c, names, marks, ts, |ts|, items, place)
    ensures IsSaid(c, names, marks, ts, setting, Find(Norm(Built(items)), setting))
  {
    BuiltSetting(items, setting);
    var found := Find(Norm(Built(items)), setting);
    if found.None? {
      forall i, k | Touches(names, marks, ts, i, k) ensures Snake(k) != setting {
        assert HasItem(items, place, i, k);
      }
    } else {
      var k, first, last :| ItemPrevails(items, setting, k, first, last, found.value);
      LastStands(c, names, marks, ts, items, place, k, last, found.value);
      NewestStands(c, names, marks, ts, items, place, setting, k, first, last, found.value);
      assert SetsItem(c, names, marks, ts, place[last], items[last]);
    }
  }

  lemma ItemThatSets(c: Codec, names: set<string>, marks: bool, ts: seq<string>, items: Config, place: seq<nat>,
                     i: int, k: string) returns (j: nat)
    requires Placed(c, names, marks, ts, |ts|, items, place) && Touches(names, marks, ts, i, k)
    ensures j < |items| && place[j] == i && items[j].0 == k
  {
    assert HasItem(items, place, i, k);
    j :| 0 <= j < |items| && j < |place| && place[j] == i && items[j].0 == k;
  }

  lemma LastStands(c: Codec, names: set<string>, marks: bool, ts: seq<string>, items: Config, place: seq<nat>,
                   k: string, last: int, v: Value)
    requires Placed(c, names, marks, ts, |ts|, items, place) && LastItem(items, last, k, v)
    ensures IsLast(names, marks, ts, k, place[last])
  {
    assert SetsItem(c, names, marks, ts, place[last], items[last]);
    forall i | place[last] < i ensures !Touches(names, marks, ts, i, k) {
      if Touches(names, marks, ts, i, k) {
        var j := ItemThatSets(c, names, marks, ts, items, place, i, k);
      }
    }
  }

  lemma FirstStands(c: Codec, names: set<string>, marks: bool, ts: seq<string>, items: Config, place: seq<nat>,
                    k: string, first: int)
    requires Placed(c, names, marks, ts, |ts|, items, place) && FirstItem(items, first, k)
    ensures Touches(names, marks, ts, place[first], k)
    ensures forall i :: i < place[first] ==> !Touches(names, marks, ts, i, k)
  {
    assert SetsItem(c, names, marks, ts, place[first], items[first]);
    forall i | i < place[first] ensures !Touches(names, marks, ts, i, k) {
      if Touches(names, marks, ts, i, k) {
        var j := ItemThatSets(c, names, marks, ts, items, place, i, k);
      }
    }
  }

  lemma NewestStands(c: Codec, names: set<string>, marks: bool, ts: seq<string>, items: Config, place: seq<nat>,
                     setting: string, k: string, first: int, last: int, v: Value)
    requires Placed(c, names, marks, ts, |ts|, items, place) && ItemPrevails(items, setting, k, first, last, v)
    ensures IsNewest(names, marks, ts, setting, k, place[first])
  {
    FirstStands(c, names, marks, ts, items, place, k, first);
    forall i, other | Touches(names, marks, ts, i, other) && Snake(other) == setting
      ensures CameUp(names, marks, ts, place[first], other)
    {
      var j := ItemThatSets(c, names, marks, ts, items, place, i, other);
      var h :| 0 <= h <= first && items[h].0 == other;
      CameUpByThen(c, names, marks, ts, items, place, h, first);
    }
  }

  lemma CameUpByThen(c: Codec, names: set<string>, marks: bool, ts: seq<string>, items: Config, place: seq<nat>,
                     h: int, first: int)
    requires Placed(c, names, marks, ts, |ts|, items, place) && 0 <= h <= first < |items|
    ensures CameUp(names, marks, ts, place[first], items[h].0)
  {
    assert SetsItem(c, names, marks, ts, place[h], items[h]);
  }

  /** What the parsers make of the flags is what the tokens say. */
  lemma FlagsSay(c: Codec, lora: string, marks: bool, ts: seq<string>)
    ensures Says(c, {lora, Snake(lora)}, marks, ts, Norm(Flags(c, lora, marks, Entries(ts))))
    ensures UniqueKeys(Flags(c, lora, marks, Entries(ts)))
  {
    var es := Entries(ts);
    var at := EntriesStand(ts, 0);
    var place := ItemsStand(c, lora, marks, ts, at, |es|);
    assert es[..|es|] == es;
    var items := AllItems(c, lora, marks, es);
    FlagsAreBuilt(c, lora, marks, es);
    forall setting ensures IsSaid(c, {lora, Snake(lora)}, marks, ts, setting, Find(Norm(Built(items)), setting)) {
      SaidIsKept(c, {lora, Snake(lora)}, marks, ts, items, place, setting);
    }
    var first := BuiltOrder(items);
  }

  lemma {:induction false} NormIsUnique(d: Config)
    ensures UniqueKeys(Norm(d))
  {
    if d != [] {
      var n := |d| - 1;
      NormIsUnique(d[..n]);
      SetKeepsUnique(Norm(d[..n]), Snake(d[n].0), d[n].1);
    }
  }

  /** Normalising one item more at the front. */
  lemma {:induction false} NormFindFront(x: (string, Value), d: Config, k: string)
    ensures Find(Norm([x] + d), k)
         == if Find(Norm(d), k).Some? then Find(Norm(d), k) else if Snake(x.0) == k then Some(x.1) else None
  {
    var all := [x] + d;
    if d == [] {
      assert all[..0] == [];
    } else {
      var n := |d| - 1;
      NormFindFront(x, d[..n], k);
      assert all[..|all| - 1] == [x] + d[..n] && all[|all| - 1] == d[n];
      SetThenFind(Norm([x] + d[..n]), Snake(d[n].0), d[n].1, k);
      SetThenFind(Norm(d[..n]), Snake(d[n].0), d[n].1, k);
    }
  }

  /** Taking out a key changes no setting but its own. */
  lemma {:induction false} NormWithout(d: Config, key: string, k: string)
    requires Snake(key) != k
    ensures Find(Norm(Remove(d, key)), k) == Find(Norm(d), k)
  {
    if d != [] {
      assert d == [d[0]] + d[1..];
      NormFindFront(d[0], d[1..], k);
      if d[0].0 != key {
        NormWithout(d[1..], key, k);
        NormFindFront(d[0], Remove(d[1..], key), k);
      }
    }
  }

  /** A key that is spelled in one way only is found before and after normalising. */
  lemma {:induction false} NormKeeps(d: Config, key: string)
    requires UniqueKeys(d) && forall i :: 0 <= i < |d| ==> (Snake(d[i].0) == key <==> d[i].0 == key)
    ensures Find(Norm(d), key) == Find(d, key)
  {
    if d != [] {
      assert d == [d[0]] + d[1..];
      NormFindFront(d[0], d[1..], key);
      NormKeeps(d[1..], key);
      if d[0].0 == key { AbsentIsNone(d[1..], key); }
    }
  }

  // ---- The commands ----------------------------------------------------------------------------------

  /** Tokens before the first that begins with a dash are dropped. */
  ghost predicate IsFromDash(ts: seq<string>, rest: seq<string>) {
    exists p: nat :: DashAt(ts, p) && rest == ts[p..]
  }

  ghost predicate DashAt(ts: seq<string>, p: nat) {
    p <= |ts| && (p < |ts| ==> "-" <= ts[p]) && forall i :: 0 <= i < p ==> !("-" <= ts[i])
  }

  /** The tag is the token after "serve", if there is one without a dash; flags come after it. */
  ghost predicate IsSplitAtServe(ts: seq<string>, tag: Option<string>, rest: seq<string>) {
    exists p: nat :: ServeAt(ts, p, tag, rest)
  }

  ghost predicate ServeAt(ts: seq<string>, p: nat, tag: Option<string>, rest: seq<string>) {
    && p < |ts| && ts[p] == "serve" && "serve" !in ts[..p]
    && if p + 1 < |ts| && !("-" <= ts[p + 1]) then tag == Some(ts[p + 1]) && rest == ts[p + 2..]
       else tag == None && rest == ts[p + 1..]
  }

  /** What a vLLM command is parsed to: the tag stands after "serve" or is that of --model, the
      address has its defaults, and the configuration has every other setting the flags say. */
  ghost predicate VllmParsed(c: Codec, ts: seq<string>, p: Parsed) {
    exists tag, rest, said ::
      && (if "serve" in ts then IsSplitAtServe(ts, tag, rest) else tag == None && IsFromDash(ts, rest))
      && Says(c, {"lora-modules", "lora_modules"}, false, rest, said) && VllmSettles(tag, said, p)
  }

  ghost predicate VllmSettles(tag: Option<string>, said: Config, p: Parsed) {
    var model, host, port := Find(said, "model"), Find(said, "host"), Find(said, "port");
    && p.tag == (if tag.Some? then Text(tag.value) else if model.Some? then model.value else Null)
    && p.host == (if host.Some? then host.value else Text("localhost"))
    && p.port == (if port.Some? then port.value else Num("8000"))
    && forall k :: Find(p.config, k)
         == if k in {"host", "port", "served_model_name"} || (tag.None? && k == "model") then None
            else if k == "model_tag" && Find(said, k).None? then Some(p.tag)
            else Find(said, k)
  }

  /** A SGLang command: the tag is that of --model-path, or of --model if that is empty or not
      there, and SGLang's names of three settings prevail over the neutral ones. */
  ghost predicate SglangParsed(c: Codec, ts: seq<string>, p: Parsed) {
    exists rest, said ::
      IsFromDash(ts, rest) && Says(c, {"lora-paths", "lora_paths"}, true, rest, said) && SglangSettles(c, said, p)
  }

  ghost predicate SglangSettles(c: Codec, said: Config, p: Parsed) {
    var path, model, host, port :=
      Find(said, "model_path"), Find(said, "model"), Find(said, "host"), Find(said, "port");
    var byPath := path.Some? && Truthy(c, path.value);
    && p.tag == (if byPath then path.value else if model.Some? then model.value else Null)
    && p.host == (if host.Some? then host.value else Text("localhost"))
    && p.port == (if port.Some? then port.value else Num("30000"))
    && forall k :: Find(p.config, k) == SglangFind(said, byPath, p.tag, k)
  }

  ghost function SglangFind(said: Config, byPath: bool, tag: Value, k: string): Option<Value> {
    if k in {"model_path", "host", "port", "served_model_name", "context_length", "mem_fraction_static", "tp_size"}
       || (!byPath && k == "model") then None
    else if k == "model_tag" && Find(said, k).None? then Some(tag)
    else if k == "engine" && Find(said, k).None? then Some(Text("sglang"))
    else Neutral(said, k)
  }

  /** A setting that SGLang has another name for is the one said by that name, if any. */
  ghost function Neutral(said: Config, k: string): Option<Value> {
    var other := if k == "max_model_len" then "context_length"
                 else if k == "gpu_memory_utilization" then "mem_fraction_static"
                 else if k == "tensor_parallel_size" then "tp_size"
                 else k;
    if Find(said, other).Some? then Find(said, other) else Find(said, k)
  }

  lemma {:induction false} FirstDash(ts: seq<string>) returns (p: nat)
    ensures DashAt(ts, p) && FromFirstDash(ts) == ts[p..]
  {
    if ts != [] && !StartsWith(ts[0], "-") {
      var n := FirstDash(ts[1..]);
      p := n + 1;
      assert ts[1..][n..] == ts[p..];
      assert forall i :: 0 < i < p ==> ts[i] == ts[1..][i - 1];
    } else {
      p := 0;
    }
  }

  lemma FromDash(ts: seq<string>)
    ensures IsFromDash(ts, FromFirstDash(ts))
  {
    var p := FirstDash(ts);
  }
}
