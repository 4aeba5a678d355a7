/**
  `vllm serve`: printing a configuration as command-line tokens, and parsing such a command.

  The printer's loop is `AppendAll`, and `Said` is the flags it writes; `CliArgs` is the
  whole command. The parser takes the tag from behind "serve" (`SplitTag`), groups the other
  tokens into flags and peels off what belongs to the instance (`Parse`).

  Both methods are proved equal to these functions, and to what the command says token by
  token, for which see `CommandTokens` and `FlagTokens`.
 */
module VllmCommand {
  import opened Options
  import opened Dicts
  import opened Sequences
  import opened Cli
  import CliLookup
  import CommandTokens
  import FlagTokens

  const DEFAULT_MAX_LORAS := "4"
  const DEFAULT_PORT := "8000"
  const LORA := "lora-modules"

  predicate SkipKey(k: string) {
    k in {"model_tag", "allow_runtime_lora", "routing_strategy", "kind", "engine"}
  }

  // ---- Printing ----------------------------------------------------------------------

  /** One JSON text per module that has a name; null fields are dropped. */
  function ModuleTexts(c: Codec, ms: seq<Module>): seq<string> {
    if ms == [] then []
    else ModuleTexts(c, ms[..|ms| - 1]) + (if Named(ms[|ms| - 1]) then [c.dump(DropNulls(ms[|ms| - 1]))] else [])
  }

  /** The flag for one item, or nothing. */
  function Printed(c: Codec, k: string, v: Value): seq<Entry> {
    if SkipKey(k) then []
    else match v
      case Null => []
      case Modules(ms) => var texts := ModuleTexts(c, ms); if texts == [] then [] else [Entry(Kebab(k), texts)]
      case Bool(b) => [Entry(if b then Kebab(k) else "no-" + Kebab(k), [])]
      case Num(t) => [Entry(Kebab(k), [t])]
      case Text(t) => [Entry(Kebab(k), [t])]
      case List(_, json) => [Entry(Kebab(k), [json])]
      case Object(json, _) => [Entry(Kebab(k), [json])]
  }

  function ItemPrinter(c: Codec): Printer { (k, v) => Printed(c, k, v) }

  predicate NeedsMaxLoras(c: Codec, cfg: Config) {
    var v := Find(cfg, "enable_lora");
    v.Some? && Truthy(c, v.value) && Find(cfg, "max_loras").None?
  }

  /** LoRA headroom: an enabled LoRA never runs with vLLM's own default. */
  function WithMaxLoras(c: Codec, cfg: Config): Config {
    if NeedsMaxLoras(c, cfg) then cfg + [("max_loras", Num(DEFAULT_MAX_LORAS))] else cfg
  }

  /** What the printer says, and the flags it says it with. */
  function Said(c: Codec, cfg: Config): seq<Entry> { PrintAll(ItemPrinter(c), WithMaxLoras(c, cfg)) }

  /** The whole argument list; None stands for the ValueError of a missing tag. */
  function CliArgs(c: Codec, cfg: Config): Option<seq<string>> {
    if HasTag(cfg) then Some(["serve", Tag(cfg)] + Flat(Said(c, cfg))) else None
  }

  method AppendModules(c: Codec, flag: string, modules: seq<Module>, args: seq<string>) returns (r: seq<string>)
    ensures r == args + (if ModuleTexts(c, modules) == [] then [] else [flag] + ModuleTexts(c, modules))
  {
    var texts := [];
    for i := 0 to |modules|
      invariant texts == ModuleTexts(c, modules[..i])
    {
      assert modules[..i + 1][..i] == modules[..i];
      if Named(modules[i]) {
        texts := texts + [c.dump(DropNulls(modules[i]))];
      }
    }
    assert modules[..|modules|] == modules;
    r := if texts == [] then args else args + [flag] + texts;
  }

  /** The loop body: append what one item is printed as. */
  method AppendItem(c: Codec, k: string, v: Value, out: seq<string>) returns (r: seq<string>)
    ensures r == out + Flat(Printed(c, k, v))
  {
    r := out;
    if SkipKey(k) || v.Null? {
      return;
    }
    var flag := "--" + Kebab(k);
    match v
    case Modules(ms) =>
      r := AppendModules(c, flag, ms, r);
      if ModuleTexts(c, ms) != [] {
        FlatOfOne(Entry(Kebab(k), ModuleTexts(c, ms)));
      }
    case Bool(b) =>
      FlatOfOne(Entry(if b then Kebab(k) else "no-" + Kebab(k), []));
      assert "--" + ("no-" + Kebab(k)) == "--no-" + Kebab(k);
      r := r + [if b then flag else "--no-" + Kebab(k)];
    case List(_, json) =>
      FlatOfOne(Entry(Kebab(k), [json]));
      r := r + [flag, json];
    case Object(json, _) =>
      FlatOfOne(Entry(Kebab(k), [json]));
      r := r + [flag, json];
    case Num(t) =>
      FlatOfOne(Entry(Kebab(k), [t]));
      r := r + [flag, t];
    case Text(t) =>
      FlatOfOne(Entry(Kebab(k), [t]));
      r := r + [flag, t];
  }

  /** The printer's loop over the configuration items. */
  method AppendAll(c: Codec, cfg: Config, head: seq<string>) returns (out: seq<string>)
    ensures out == head + Flat(PrintAll(ItemPrinter(c), cfg))
  {
    out := head;
    for i := 0 to |cfg|
      invariant out == head + Flat(PrintAll(ItemPrinter(c), cfg[..i]))
    {
      PrintPrefix(ItemPrinter(c), cfg, i);
      Reassociate(head, Flat(PrintAll(ItemPrinter(c), cfg[..i])), Flat(ItemPrinter(c)(cfg[i].0, cfg[i].1)));
      out := AppendItem(c, cfg[i].0, cfg[i].1, out);
    }
    assert cfg[..|cfg|] == cfg;
  }

  lemma {:induction false} NamedTextsAre(c: Codec, ms: seq<Module>)
    ensures CommandTokens.Texts(ms, CommandTokens.HasName(), CommandTokens.JsonText(c), ModuleTexts(c, ms))
  {
    if ms == [] {
      assert CommandTokens.Picks(ms, CommandTokens.HasName(), []);
      assert CommandTokens.TextsAt(ms, CommandTokens.JsonText(c), [], []);
    } else {
      var front, last := ms[..|ms| - 1], ms[|ms| - 1];
      NamedTextsAre(c, front);
      CommandTokens.TextsMore(ms, CommandTokens.HasName(), CommandTokens.JsonText(c), ModuleTexts(c, front));
      assert Named(last) == CommandTokens.HasName()(last);
      assert c.dump(DropNulls(last)) == CommandTokens.JsonText(c)(last);
      assert ModuleTexts(c, front) + [] == ModuleTexts(c, front);
    }
  }

  lemma RunOfItem(c: Codec, k: string, v: Value)
    ensures CommandTokens.VllmRun(c, k, v, Flat(Printed(c, k, v)))
  {
    if Printed(c, k, v) != [] {
      FlatOfOne(Printed(c, k, v)[0]);
    }
    if v.Modules? {
      NamedTextsAre(c, v.modules);
    } else if v.Bool? && !v.b {
      assert "--" + ("no-" + Kebab(k)) == "--no-" + Kebab(k);
    }
  }

  lemma {:induction false} RunsOfItems(c: Codec, items: Config) returns (runs: seq<seq<string>>)
    ensures |runs| == |items| && CommandTokens.Concat(runs) == Flat(PrintAll(ItemPrinter(c), items))
    ensures forall i :: 0 <= i < |items| ==> CommandTokens.VllmRun(c, items[i].0, items[i].1, runs[i])
  {
    runs := [];
    if items != [] {
      var n := |items| - 1;
      var before := RunsOfItems(c, items[..n]);
      var (k, v) := items[n];
      RunOfItem(c, k, v);
      FlatOfSum(PrintAll(ItemPrinter(c), items[..n]), Printed(c, k, v));
      runs := before + [Flat(Printed(c, k, v))];
      assert runs[..n] == before;
    }
  }

  lemma TokensOfArgs(c: Codec, cfg: Config) returns (runs: seq<seq<string>>)
    requires HasTag(cfg)
    ensures CommandTokens.VllmTokens(c, cfg, CliArgs(c, cfg).value, runs)
  {
    runs := RunsOfItems(c, WithMaxLoras(c, cfg));
    assert cfg + [] == cfg;
  }

  /** The command is the runs of its items; it fails exactly without a tag. */
  method BuildCliArgs(c: Codec, modelCfg: Config) returns (args: Option<seq<string>>)
    requires Typed(modelCfg)
    ensures args == CliArgs(c, modelCfg)
    ensures args.Some? ==> exists runs :: CommandTokens.VllmTokens(c, modelCfg, args.value, runs)
    ensures var tag := Find(modelCfg, "model_tag"); args.Some? <==> tag.Some? && tag.value.Text? && tag.value.text != ""
  {
    if !HasTag(modelCfg) {
      return None;
    }
    ghost var runs := TokensOfArgs(c, modelCfg);
    var cfg := modelCfg;
    if NeedsMaxLoras(c, cfg) {
      cfg := cfg + [("max_loras", Num(DEFAULT_MAX_LORAS))];
    }
    var out := AppendAll(c, cfg, ["serve", Tag(modelCfg)]);
    args := Some(out);
  }

  // ---- Parsing -----------------------------------------------------------------------

  function IndexOfToken(ts: seq<string>, t: string): (n: nat)
    ensures n <= |ts|
    ensures n < |ts| ==> ts[n] == t
    ensures forall i :: 0 <= i < n ==> ts[i] != t
  {
    if ts == [] || ts[0] == t then 0 else 1 + IndexOfToken(ts[1..], t)
  }

  /** The positional model tag, if any, and the tokens that hold the flags. */
  function SplitTag(ts: seq<string>): (Option<string>, seq<string>) {
    if "serve" in ts then
      var rest := ts[IndexOfToken(ts, "serve") + 1..];
      if rest != [] && !StartsWith(rest[0], "-") then (Some(rest[0]), rest[1..]) else (None, rest)
    else (None, FromFirstDash(ts))
  }

  function Parse(c: Codec, ts: seq<string>): Parsed {
    var (tag, rest) := SplitTag(ts);
    var flags := Flags(c, LORA, false, Entries(rest));
    var model := if tag.Some? then Text(tag.value) else OrElse(Find(flags, "model"), Null);
    var norm := Norm(if tag.Some? then flags else Remove(flags, "model"));
    Parsed(model, OrElse(Find(norm, "host"), Text("localhost")), OrElse(Find(norm, "port"), Num(DEFAULT_PORT)),
           Update([("model_tag", model)], Peeled(norm)))
  }

  lemma SplitIs(ts: seq<string>)
    ensures var (tag, rest) := SplitTag(ts);
            if "serve" in ts then FlagTokens.IsSplitAtServe(ts, tag, rest)
            else tag == None && FlagTokens.IsFromDash(ts, rest)
  {
    if "serve" in ts {
      var p := IndexOfToken(ts, "serve");
      assert p < |ts| && ts[p] == "serve" && "serve" !in ts[..p];
      var rest := ts[p + 1..];
      if rest != [] {
        assert rest[0] == ts[p + 1] && rest[1..] == ts[p + 2..];
        assert StartsWith(rest[0], "-") <==> "-" <= rest[0];
      }
      var (tag, flags) := SplitTag(ts);
      assert FlagTokens.ServeAt(ts, p, tag, flags);
    } else {
      FlagTokens.FromDash(ts);
    }
  }

  lemma LoraNames()
    ensures {LORA, Snake(LORA)} == {"lora-modules", "lora_modules"}
  {
    assert Snake(LORA) == "lora_modules";
  }

  lemma OneSpelling(k: string)
    ensures Snake("model") == "model" && (Snake(k) == "model" <==> k == "model")
  {
    if Snake(k) == "model" {
      assert forall i :: 0 <= i < |k| ==> Snake(k)[i] == "model"[i] && k[i] != '-';
      assert k == "model";
    }
  }

  /** Whether the model is popped from the flags before normalising or after makes no difference. */
  lemma WithoutModel(flags: Config, k: string)
    requires UniqueKeys(flags)
    ensures Find(flags, "model") == Find(Norm(flags), "model")
    ensures k != "model" ==> Find(Norm(Remove(flags, "model")), k) == Find(Norm(flags), k)
    ensures Find(Norm(Remove(flags, "model")), "model").None?
  {
    forall i | 0 <= i < |flags| ensures Snake(flags[i].0) == "model" <==> flags[i].0 == "model" {
      OneSpelling(flags[i].0);
    }
    FlagTokens.NormKeeps(flags, "model");
    OneSpelling(k);
    if k != "model" { FlagTokens.NormWithout(flags, "model", k); }
    var less := Remove(flags, "model");
    RemoveThenFind(flags, "model", "model");
    forall i | 0 <= i < |less| ensures Snake(less[i].0) == "model" <==> less[i].0 == "model" {
      OneSpelling(less[i].0);
    }
    FlagTokens.NormKeeps(less, "model");
  }

  lemma Settles(flags: Config, tag: Option<string>, p: Parsed, model: Value, norm: Config)
    requires UniqueKeys(flags)
    requires model == if tag.Some? then Text(tag.value) else OrElse(Find(flags, "model"), Null)
    requires norm == Norm(if tag.Some? then flags else Remove(flags, "model"))
    requires p == Parsed(model, OrElse(Find(norm, "host"), Text("localhost")),
                         OrElse(Find(norm, "port"), Num(DEFAULT_PORT)), Update([("model_tag", model)], Peeled(norm)))
    ensures FlagTokens.VllmSettles(tag, Norm(flags), p)
  {
    WithoutModel(flags, "host");
    WithoutModel(flags, "port");
    FlagTokens.NormIsUnique(if tag.Some? then flags else Remove(flags, "model"));
    forall k ensures Find(p.config, k)
         == if k in {"host", "port", "served_model_name"} || (tag.None? && k == "model") then None
            else if k == "model_tag" && Find(Norm(flags), k).None? then Some(p.tag)
            else Find(Norm(flags), k)
    {
      CliLookup.PeeledFind(norm, k);
      UpdateThenFind([("model_tag", model)], Peeled(norm), k);
      CliLookup.OwnFind("model_tag", model, k);
      WithoutModel(flags, k);
    }
  }

  lemma ParseSays(c: Codec, ts: seq<string>)
    ensures FlagTokens.VllmParsed(c, ts, Parse(c, ts))
  {
    var (tag, rest) := SplitTag(ts);
    var flags := Flags(c, LORA, false, Entries(rest));
    SplitIs(ts);
    LoraNames();
    FlagTokens.FlagsSay(c, LORA, false, rest);
    var model := if tag.Some? then Text(tag.value) else OrElse(Find(flags, "model"), Null);
    Settles(flags, tag, Parse(c, ts), model, Norm(if tag.Some? then flags else Remove(flags, "model")));
  }

  method ParseCommand(c: Codec, tokens: seq<string>) returns (p: Parsed)
    ensures p == Parse(c, tokens) && FlagTokens.VllmParsed(c, tokens, p)
  {
    ParseSays(c, tokens);
    var modelTag: Option<string> := None;
    var rest := tokens;
    if "serve" in rest {
      rest := rest[IndexOfToken(rest, "serve") + 1..];
      if rest != [] && !StartsWith(rest[0], "-") {
        modelTag, rest := Some(rest[0]), rest[1..];
      }
    } else {
      rest := DropLeading(rest);
    }
    var flags := ParseFlags(c, LORA, false, rest);
    var tag := if modelTag.Some? then Text(modelTag.value) else Null;
    if modelTag.None? {
      tag := OrElse(Find(flags, "model"), Null);
      flags := Remove(flags, "model");
    }
    var norm := Normalise(flags);
    var port := OrElse(Find(norm, "port"), Num(DEFAULT_PORT));
    var host := OrElse(Find(norm, "host"), Text("localhost"));
    norm := Remove(Remove(norm, "port"), "host");
    norm := Remove(norm, "served_model_name");
    p := Parsed(tag, host, port, Update([("model_tag", tag)], norm));
  }
}
