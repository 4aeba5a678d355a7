/**
  What the parsers' dictionaries answer, as a function of what the command line says.

  A command line as the printers write it has plain names: kebab-case, no equals sign, and
  no flag twice. So what it says is a map from flags to arguments, and each lookup in the
  parsers' dictionary is a lookup in that map: by the flag's own name before the keys are
  normalised (`FlagsFind`), by the one name that becomes the key afterwards (`ParsedFind`).

  The other way, every flag of a printed line comes from an item (`PrintedFrom`), and every
  item that is printed has its flag there (`PrintedHas`).
 */
module CliLookup {
  import opened Options
  import opened Dicts
  import opened Cli

  /** Names as the printers write them: kebab-case, without an equals sign. */
  predicate PlainNames(es: seq<Entry>) {
    forall i :: 0 <= i < |es| ==> '_' !in es[i].name && '=' !in es[i].name
  }

  predicate LoraFlag(lora: string) { lora == "lora-modules" || lora == "lora-paths" }

  /** flags.get(n) */
  function FlagValue(c: Codec, lora: string, marks: bool, said: map<string, seq<string>>, n: string): Option<Value> {
    if n == lora then None
    else if n == "lora_modules" then (if lora in said then Some(Modules(ParseModules(c, said[lora]))) else None)
    else if n == "enable_lora" then (if lora in said && marks then Some(Bool(true)) else None)
    else if n in said then Some(ReadArgs(c, said[n])) else None
  }

  lemma {:induction false} FlagsFind(c: Codec, lora: string, marks: bool, es: seq<Entry>, n: string)
    requires PlainNames(es) && LoraFlag(lora)
    ensures Find(Flags(c, lora, marks, es), n) == FlagValue(c, lora, marks, LastWins(es), n)
    ensures UniqueKeys(Flags(c, lora, marks, es))
  {
    if es != [] {
      var e := es[|es| - 1];
      var d := Flags(c, lora, marks, es[..|es| - 1]);
      FlagsFind(c, lora, marks, es[..|es| - 1], n);
      PlainIsNoLoraKey(e.name, lora);
      if e.name == lora {
        LoraKeysSet(d, Modules(ParseModules(c, e.args)), n);
      } else {
        SetKeepsUnique(d, e.name, ReadArgs(c, e.args));
        SetThenFind(d, e.name, ReadArgs(c, e.args), n);
      }
    }
  }

  lemma PlainIsNoLoraKey(name: string, lora: string)
    requires '_' !in name && LoraFlag(lora)
    ensures name != "lora_modules" && name != "enable_lora" && name != Snake(lora)
  {
    assert "lora_modules"[4] == '_' && "enable_lora"[6] == '_' && Snake(lora)[4] == '_';
  }

  lemma LoraKeysSet(d: Config, m: Value, n: string)
    requires UniqueKeys(d)
    ensures var one, two := Set(d, "lora_modules", m), Set(Set(d, "lora_modules", m), "enable_lora", Bool(true));
            && UniqueKeys(one) && UniqueKeys(two)
            && Find(one, n) == (if n == "lora_modules" then Some(m) else Find(d, n))
            && Find(two, n) == if n == "enable_lora" then Some(Bool(true)) else Find(one, n)
  {
    SetKeepsUnique(d, "lora_modules", m);
    SetThenFind(d, "lora_modules", m, n);
    SetKeepsUnique(Set(d, "lora_modules", m), "enable_lora", Bool(true));
    SetThenFind(Set(d, "lora_modules", m), "enable_lora", Bool(true), n);
  }

  lemma {:induction false} NormFind(flags: Config, k: string, v: Value)
    requires forall i :: 0 <= i < |flags| && Snake(flags[i].0) == k ==> flags[i].1 == v
    ensures Find(Norm(flags), k) == if exists i :: 0 <= i < |flags| && Snake(flags[i].0) == k then Some(v) else None
    ensures UniqueKeys(Norm(flags))
  {
    if flags != [] {
      var last := flags[|flags| - 1];
      var front := flags[..|flags| - 1];
      NormFind(front, k, v);
      SetThenFind(Norm(front), Snake(last.0), last.1, k);
      SetKeepsUnique(Norm(front), Snake(last.0), last.1);
      if Find(Norm(front), k).Some? {
        var i :| 0 <= i < |front| && Snake(front[i].0) == k;
        assert flags[i] == front[i];
      }
      if exists i :: 0 <= i < |flags| && Snake(flags[i].0) == k {
        var i :| 0 <= i < |flags| && Snake(flags[i].0) == k;
        assert i < |front| ==> front[i] == flags[i];
      }
    }
  }

  /** What must hold of a SGLang command line for the LoRA marks to be unambiguous. */
  predicate LoraAgrees(lora: string, marks: bool, said: map<string, seq<string>>) {
    && (lora != "lora-modules" ==> "lora-modules" !in said)
    && (marks && "enable-lora" in said ==> said["enable-lora"] == [])
  }

  /** norm.get(k) */
  function NormValue(c: Codec, lora: string, marks: bool, said: map<string, seq<string>>, k: string): Option<Value> {
    if '-' in k || (k == Snake(lora) && k != "lora_modules") then None
    else if k == "lora_modules" then (if lora in said then Some(Modules(ParseModules(c, said[lora]))) else None)
    else if k == "enable_lora" && marks && lora in said then Some(Bool(true))
    else if Kebab(k) in said then Some(ReadArgs(c, said[Kebab(k)])) else None
  }

  lemma {:induction false} NamesSaid(es: seq<Entry>, n: string)
    requires PlainNames(es) && n in LastWins(es)
    ensures '_' !in n && '=' !in n
  {
    var i := LastWinsSource(es, n);
  }

  /** Which key of `flags` an underscore key comes from. */
  lemma OnlySource(c: Codec, lora: string, marks: bool, es: seq<Entry>, k: string, i: nat)
    requires PlainNames(es) && LoraFlag(lora)
    requires var flags := Flags(c, lora, marks, es); i < |flags| && Snake(flags[i].0) == k
    ensures var (n, v) := Flags(c, lora, marks, es)[i];
            && FlagValue(c, lora, marks, LastWins(es), n) == Some(v)
            && (|| n == k == "lora_modules"
                || n == k == "enable_lora"
                || (n == Kebab(k) && n != lora && n in LastWins(es)))
            && '-' !in k
  {
    var flags := Flags(c, lora, marks, es);
    var (n, v) := flags[i];
    FlagsFind(c, lora, marks, es, n);
    FindsItem(flags, i);
    if n == "lora_modules" || n == "enable_lora" {
      assert '-' !in n;
      assert Snake(n) == n;
    } else {
      NamesSaid(es, n);
      KebabOfSnake(n);
    }
  }

  /** The key of `flags` that answers for an underscore key. */
  function SourceKey(lora: string, marks: bool, said: map<string, seq<string>>, k: string): string {
    if k == "lora_modules" || (k == "enable_lora" && marks && lora in said) then k else Kebab(k)
  }

  lemma SourceKeyValue(c: Codec, lora: string, marks: bool, said: map<string, seq<string>>, k: string)
    requires LoraFlag(lora) && NormValue(c, lora, marks, said, k).Some?
    ensures FlagValue(c, lora, marks, said, SourceKey(lora, marks, said, k)) == NormValue(c, lora, marks, said, k)
    ensures Snake(SourceKey(lora, marks, said, k)) == k
  {
    var n := SourceKey(lora, marks, said, k);
    assert lora[4] == '-' && "lora_modules"[4] == '_' && "enable_lora"[6] == '_';
    if n == Kebab(k) {
      SnakeOfKebab(k);
      KebabChars(k);
      assert n != "lora_modules" && n != "enable_lora";
      assert n == lora ==> k == Snake(lora);
    } else {
      assert Snake(k) == k;
      assert n != lora;
    }
  }

  lemma SourceExists(c: Codec, lora: string, marks: bool, es: seq<Entry>, k: string)
    requires PlainNames(es) && LoraFlag(lora)
    requires NormValue(c, lora, marks, LastWins(es), k).Some?
    ensures var flags := Flags(c, lora, marks, es);
            exists i :: 0 <= i < |flags| && Snake(flags[i].0) == k
  {
    var flags := Flags(c, lora, marks, es);
    var n := SourceKey(lora, marks, LastWins(es), k);
    SourceKeyValue(c, lora, marks, LastWins(es), k);
    FlagsFind(c, lora, marks, es, n);
    var i := FoundAt(flags, n);
    assert Snake(flags[i].0) == k;
  }

  lemma ValueAgrees(c: Codec, lora: string, marks: bool, said: map<string, seq<string>>, k: string, n: string, v: Value)
    requires LoraFlag(lora) && LoraAgrees(lora, marks, said) && '-' !in k
    requires FlagValue(c, lora, marks, said, n) == Some(v)
    requires n == k == "lora_modules" || n == k == "enable_lora" || (n == Kebab(k) && n != lora && n in said)
    ensures NormValue(c, lora, marks, said, k) == Some(v)
  {
    if n == Kebab(k) {
      KebabChars(k);
      KebabOfSnake(lora);
      assert "lora_modules"[4] == '_' && "enable_lora"[6] == '_';
      assert n != "lora_modules" && n != "enable_lora";
      assert Kebab("lora_modules") == "lora-modules" && Kebab("enable_lora") == "enable-lora";
    }
  }

  lemma SourceAgrees(c: Codec, lora: string, marks: bool, es: seq<Entry>, k: string, i: nat)
    requires PlainNames(es) && LoraFlag(lora) && LoraAgrees(lora, marks, LastWins(es))
    requires var flags := Flags(c, lora, marks, es); i < |flags| && Snake(flags[i].0) == k
    ensures NormValue(c, lora, marks, LastWins(es), k) == Some(Flags(c, lora, marks, es)[i].1)
  {
    OnlySource(c, lora, marks, es, k, i);
    var (n, v) := Flags(c, lora, marks, es)[i];
    ValueAgrees(c, lora, marks, LastWins(es), k, n, v);
  }

  lemma ParsedFind(c: Codec, lora: string, marks: bool, es: seq<Entry>, k: string)
    requires PlainNames(es) && LoraFlag(lora) && LoraAgrees(lora, marks, LastWins(es))
    ensures Find(Norm(Flags(c, lora, marks, es)), k) == NormValue(c, lora, marks, LastWins(es), k)
    ensures UniqueKeys(Norm(Flags(c, lora, marks, es)))
  {
    var flags := Flags(c, lora, marks, es);
    var want := NormValue(c, lora, marks, LastWins(es), k);
    forall i | 0 <= i < |flags| && Snake(flags[i].0) == k
      ensures want == Some(flags[i].1)
    {
      SourceAgrees(c, lora, marks, es, k, i);
    }
    NormFind(flags, k, if want.Some? then want.value else Null);
    if want.Some? {
      SourceExists(c, lora, marks, es, k);
    }
  }

  // ---- Where a printed flag comes from ----------------------------------------------

  type Line = map<string, seq<string>>

  ghost predicate OneEach(f: Printer) {
    forall k, v :: |f(k, v)| <= 1
  }

  lemma {:induction false} PrintedFrom(f: Printer, cfg: Config, i: nat) returns (j: nat)
    requires OneEach(f) && i < |PrintAll(f, cfg)|
    ensures j < |cfg| && f(cfg[j].0, cfg[j].1) == [PrintAll(f, cfg)[i]]
  {
    j := |cfg| - 1;
    var front := cfg[..|cfg| - 1];
    if i < |PrintAll(f, front)| {
      j := PrintedFrom(f, front, i);
    }
  }

  lemma {:induction false} PrintedHas(f: Printer, cfg: Config, j: nat) returns (i: nat)
    requires j < |cfg| && f(cfg[j].0, cfg[j].1) != []
    ensures i < |PrintAll(f, cfg)| && PrintAll(f, cfg)[i] == f(cfg[j].0, cfg[j].1)[0]
  {
    var front := cfg[..|cfg| - 1];
    if j == |cfg| - 1 {
      i := |PrintAll(f, front)|;
    } else {
      i := PrintedHas(f, front, j);
    }
  }

  lemma OwnFind(key: string, v: Value, k: string)
    ensures Find([(key, v)], k) == if k == key then Some(v) else None
  {
    assert [(key, v)][1..] == [];
  }

  /** The configuration that comes back from a parse: first the instance's address, then what
      was parsed, then what the parser itself put there. */
  lemma RelaunchedFind(own: Config, p: Parsed, rest: Config, k: string)
    requires UniqueKeys(own) && UniqueKeys(rest) && p.config == Update(own, rest)
    ensures UniqueKeys(Relaunched(p))
    ensures Find(Relaunched(p), k) == if k == "host" then Some(p.host) else if k == "port" then Some(p.port)
                                      else if Find(rest, k).Some? then Find(rest, k) else Find(own, k)
  {
    UpdateThenFind(own, rest, k);
    SetKeepsUnique(p.config, "host", p.host);
    SetThenFind(p.config, "host", p.host, k);
    SetKeepsUnique(Set(p.config, "host", p.host), "port", p.port);
    SetThenFind(Set(p.config, "host", p.host), "port", p.port, k);
  }

  lemma PeeledFind(norm: Config, k: string)
    requires UniqueKeys(norm)
    ensures Find(Peeled(norm), k) == if k in {"port", "host", "served_model_name"} then None else Find(norm, k)
    ensures UniqueKeys(Peeled(norm))
  {
    var a := Remove(norm, "port");
    var b := Remove(a, "host");
    RemoveThenFind(norm, "port", k);
    RemoveThenFind(a, "host", k);
    RemoveThenFind(b, "served_model_name", k);
  }
}
