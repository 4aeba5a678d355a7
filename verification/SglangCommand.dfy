/**
  `python -m sglang.launch_server`: printing and parsing for the second engine. The model is
  a flag, three parameters are renamed, a False is not printed at all, and LoRA modules are
  NAME=PATH tokens.

  Here the parser tries two flags for the tag (`PopTag`), and it maps the renamed flags back
  one after the other (`Neutral`). As for the first engine, both methods are proved equal to
  functions and to what the command says token by token.
 */
module SglangCommand {
  import opened Options
  import opened Dicts
  import opened Sequences
  import opened Cli
  import CliLookup
  import CommandTokens
  import FlagTokens

  const DEFAULT_PORT := "30000"
  const LORA := "lora-paths"

  predicate SkipKey(k: string) {
    k in {"model_tag", "served_model_name", "id", "cuda_device", "enable_lora", "lora_modules", "enable_metrics",
          "allow_runtime_lora", "routing_strategy", "kind", "engine"}
  }

  /** Engine-neutral parameter to SGLang's flag. */
  function FlagOf(k: string): string {
    if k == "max_model_len" then "context-length"
    else if k == "gpu_memory_utilization" then "mem-fraction-static"
    else if k == "tensor_parallel_size" then "tp-size"
    else Kebab(k)
  }

  // ---- Printing ----------------------------------------------------------------------

  function PathTexts(ms: seq<Module>): seq<string> {
    if ms == [] then []
    else PathTexts(ms[..|ms| - 1])
         + (var m := ms[|ms| - 1]; if HasPath(m) then [m["name"].value + "=" + m["path"].value] else [])
  }

  function Printed(k: string, v: Value): seq<Entry> {
    if SkipKey(k) then []
    else match v
      case Null => []
      case Modules(_) => []
      case Bool(b) => if b then [Entry(FlagOf(k), [])] else []
      case Num(t) => [Entry(FlagOf(k), [t])]
      case Text(t) => [Entry(FlagOf(k), [t])]
      case List(items, _) => [Entry(FlagOf(k), items)]
      case Object(json, _) => [Entry(FlagOf(k), [json])]
  }

  function ItemPrinter(): Printer { (k, v) => Printed(k, v) }

  /** The name the server answers to: the tag unless the configuration says otherwise. */
  function Served(cfg: Config): string
    requires HasTag(cfg)
  {
    var s := Find(cfg, "served_model_name");
    if s.Some? && s.value.Text? && s.value.text != "" then s.value.text else Tag(cfg)
  }

  function LoraModules(cfg: Config): seq<Module> {
    var m := Find(cfg, "lora_modules");
    if m.Some? && m.value.Modules? then m.value.modules else []
  }

  predicate IsOn(c: Codec, cfg: Config, k: string) {
    Find(cfg, k).Some? && Truthy(c, Find(cfg, k).value)
  }

  function LoraEntries(c: Codec, cfg: Config): seq<Entry> {
    if IsOn(c, cfg, "enable_lora") || IsOn(c, cfg, "allow_runtime_lora") || LoraModules(cfg) != [] then
      var paths := PathTexts(LoraModules(cfg));
      [Entry("enable-lora", [])] + (if paths == [] then [] else [Entry(LORA, paths)])
    else []
  }

  function HeadEntries(c: Codec, cfg: Config): seq<Entry>
    requires HasTag(cfg)
  {
    [Entry("model-path", [Tag(cfg)]), Entry("served-model-name", [Served(cfg)]), Entry("enable-metrics", [])]
    + LoraEntries(c, cfg)
  }

  function Said(c: Codec, cfg: Config): seq<Entry>
    requires HasTag(cfg)
  {
    HeadEntries(c, cfg) + PrintAll(ItemPrinter(), cfg)
  }

  function CliArgs(c: Codec, cfg: Config): Option<seq<string>> {
    if HasTag(cfg) then Some(Flat(Said(c, cfg))) else None
  }

  method AppendItem(k: string, v: Value, out: seq<string>) returns (r: seq<string>)
    ensures r == out + Flat(Printed(k, v))
  {
    r := out;
    if SkipKey(k) || v.Null? {
      return;
    }
    var flag := "--" + FlagOf(k);
    match v
    case Modules(_) =>
    case Bool(b) =>
      if b {
        FlatOfOne(Entry(FlagOf(k), []));
        r := r + [flag];
      }
    case List(items, _) =>
      FlatOfOne(Entry(FlagOf(k), items));
      r := r + [flag] + items;
    case Object(json, _) =>
      FlatOfOne(Entry(FlagOf(k), [json]));
      r := r + [flag, json];
    case Num(t) =>
      FlatOfOne(Entry(FlagOf(k), [t]));
      r := r + [flag, t];
    case Text(t) =>
      FlatOfOne(Entry(FlagOf(k), [t]));
      r := r + [flag, t];
  }

  method AppendAll(cfg: Config, head: seq<string>) returns (out: seq<string>)
    ensures out == head + Flat(PrintAll(ItemPrinter(), cfg))
  {
    out := head;
    for i := 0 to |cfg|
      invariant out == head + Flat(PrintAll(ItemPrinter(), cfg[..i]))
    {
      PrintPrefix(ItemPrinter(), cfg, i);
      Reassociate(head, Flat(PrintAll(ItemPrinter(), cfg[..i])), Flat(ItemPrinter()(cfg[i].0, cfg[i].1)));
      out := AppendItem(cfg[i].0, cfg[i].1, out);
    }
    assert cfg[..|cfg|] == cfg;
  }

  method AppendLora(c: Codec, cfg: Config, head: seq<string>) returns (out: seq<string>)
    ensures out == head + Flat(LoraEntries(c, cfg))
  {
    out := head;
    var modules := LoraModules(cfg);
    if IsOn(c, cfg, "enable_lora") || IsOn(c, cfg, "allow_runtime_lora") || modules != [] {
      var paths := [];
      for i := 0 to |modules|
        invariant paths == PathTexts(modules[..i])
      {
        assert modules[..i + 1][..i] == modules[..i];
        if HasPath(modules[i]) {
          paths := paths + [modules[i]["name"].value + "=" + modules[i]["path"].value];
        }
      }
      assert modules[..|modules|] == modules;
      LoraTokens(paths);
      out := out + ["--enable-lora"];
      if paths != [] {
        out := out + ["--lora-paths"] + paths;
      }
    }
  }

  lemma LoraTokens(paths: seq<string>)
    ensures Flat([Entry("enable-lora", [])] + []) == ["--enable-lora"]
    ensures Flat([Entry("enable-lora", [])] + [Entry(LORA, paths)]) == ["--enable-lora"] + (["--lora-paths"] + paths)
  {
    assert [Entry("enable-lora", [])] + [] == [Entry("enable-lora", [])];
    assert "--" + "enable-lora" == "--enable-lora" && "--" + LORA == "--lora-paths";
    FlatOfOne(Entry("enable-lora", []));
    FlatOfOne(Entry(LORA, paths));
    FlatOfSum([Entry("enable-lora", [])], [Entry(LORA, paths)]);
  }

  lemma {:induction false} PathTextsAre(ms: seq<Module>)
    ensures CommandTokens.Texts(ms, CommandTokens.HasBoth(), CommandTokens.PathText(), PathTexts(ms))
  {
    if ms == [] {
      assert CommandTokens.Picks(ms, CommandTokens.HasBoth(), []);
      assert CommandTokens.TextsAt(ms, CommandTokens.PathText(), [], []);
    } else {
      var front, last := ms[..|ms| - 1], ms[|ms| - 1];
      PathTextsAre(front);
      CommandTokens.TextsMore(ms, CommandTokens.HasBoth(), CommandTokens.PathText(), PathTexts(front));
      assert HasPath(last) == CommandTokens.HasBoth()(last);
      assert PathTexts(front) + [] == PathTexts(front);
    }
  }

  lemma RunOfItem(k: string, v: Value)
    ensures CommandTokens.SglangRun(k, v, Flat(Printed(k, v)))
  {
    if Printed(k, v) != [] {
      FlatOfOne(Printed(k, v)[0]);
    }
    assert "--" + "context-length" == "--context-length" && "--" + "tp-size" == "--tp-size";
    assert "--" + "mem-fraction-static" == "--mem-fraction-static";
  }

  lemma {:induction false} RunsOfItems(items: Config) returns (runs: seq<seq<string>>)
    ensures |runs| == |items| && CommandTokens.Concat(runs) == Flat(PrintAll(ItemPrinter(), items))
    ensures forall i :: 0 <= i < |items| ==> CommandTokens.SglangRun(items[i].0, items[i].1, runs[i])
  {
    runs := [];
    if items != [] {
      var n := |items| - 1;
      var before := RunsOfItems(items[..n]);
      var (k, v) := items[n];
      RunOfItem(k, v);
      FlatOfSum(PrintAll(ItemPrinter(), items[..n]), Printed(k, v));
      runs := before + [Flat(Printed(k, v))];
      assert runs[..n] == before;
    }
  }

  lemma LoraIsLora(c: Codec, cfg: Config)
    ensures CommandTokens.SglangLora(c, cfg, Flat(LoraEntries(c, cfg)))
  {
    var paths := PathTexts(LoraModules(cfg));
    PathTextsAre(LoraModules(cfg));
    LoraTokens(paths);
    if LoraEntries(c, cfg) != [] {
      assert CommandTokens.SglangPaths(paths, Flat(LoraEntries(c, cfg)));
    }
  }

  lemma TokensOfArgs(c: Codec, cfg: Config) returns (front: seq<string>, runs: seq<seq<string>>)
    requires HasTag(cfg)
    ensures CommandTokens.SglangTokens(c, cfg, CliArgs(c, cfg).value, front, Flat(LoraEntries(c, cfg)), runs)
  {
    var tag, served := Tag(cfg), Served(cfg);
    var head := [Entry("model-path", [tag]), Entry("served-model-name", [served]), Entry("enable-metrics", [])];
    front := Flat(head);
    HeadTokens(tag, served);
    assert CommandTokens.SglangFront(cfg, front);
    LoraIsLora(c, cfg);
    runs := RunsOfItems(cfg);
    FlatOfSum(head, LoraEntries(c, cfg));
    FlatOfSum(HeadEntries(c, cfg), PrintAll(ItemPrinter(), cfg));
  }

  /** The command is its front, LoRA and the runs of its items; it fails exactly without a tag. */
  method BuildCliArgs(c: Codec, modelCfg: Config) returns (args: Option<seq<string>>)
    requires Typed(modelCfg)
    ensures args == CliArgs(c, modelCfg)
    ensures args.Some? ==>
              exists front, lora, runs :: CommandTokens.SglangTokens(c, modelCfg, args.value, front, lora, runs)
    ensures var tag := Find(modelCfg, "model_tag"); args.Some? <==> tag.Some? && tag.value.Text? && tag.value.text != ""
  {
    if !HasTag(modelCfg) {
      return None;
    }
    ghost var front, runs := TokensOfArgs(c, modelCfg);
    var tag, served := Tag(modelCfg), Served(modelCfg);
    var out := ["--model-path", tag] + ["--served-model-name", served];
    out := out + ["--enable-metrics"];
    HeadTokens(tag, served);
    ghost var head := [Entry("model-path", [tag]), Entry("served-model-name", [served]), Entry("enable-metrics", [])];
    out := AppendLora(c, modelCfg, out);
    FlatOfSum(head, LoraEntries(c, modelCfg));
    out := AppendAll(modelCfg, out);
    FlatOfSum(HeadEntries(c, modelCfg), PrintAll(ItemPrinter(), modelCfg));
    args := Some(out);
  }

  lemma HeadTokens(tag: string, served: string)
    ensures Flat([Entry("model-path", [tag]), Entry("served-model-name", [served]), Entry("enable-metrics", [])])
            == ["--model-path", tag] + ["--served-model-name", served] + ["--enable-metrics"]
  {
    var a, b, d := Entry("model-path", [tag]), Entry("served-model-name", [served]), Entry("enable-metrics", []);
    assert [a, b, d][1..] == [b, d] && [b, d][1..] == [d];
    FlatOfOne(d);
    assert Flat([b, d]) == Tokens(b) + Flat([d]);
    assert Flat([a, b, d]) == Tokens(a) + Flat([b, d]);
    assert "--" + "model-path" == "--model-path" && "--" + "served-model-name" == "--served-model-name";
    assert "--" + "enable-metrics" == "--enable-metrics";
  }

  // ---- Parsing -----------------------------------------------------------------------

  /** norm[to] = norm.pop(from), if it is there. */
  function Rename(norm: Config, from: string, to: string): Config {
    var v := Find(norm, from);
    if v.Some? then Set(Remove(norm, from), to, v.value) else norm
  }

  function Neutral(norm: Config): Config {
    Rename(Rename(Rename(norm, "context_length", "max_model_len"),
                  "mem_fraction_static", "gpu_memory_utilization"),
           "tp_size", "tensor_parallel_size")
  }

  function PopTag(c: Codec, norm: Config): (Value, Config) {
    var first := OrElse(Find(norm, "model_path"), Null);
    var rest := Remove(norm, "model_path");
    if Truthy(c, first) then (first, rest) else (OrElse(Find(rest, "model"), Null), Remove(rest, "model"))
  }

  function Parse(c: Codec, ts: seq<string>): Parsed {
    var norm := Norm(Flags(c, LORA, true, Entries(FromFirstDash(ts))));
    var (tag, rest) := PopTag(c, norm);
    Parsed(tag, OrElse(Find(rest, "host"), Text("localhost")), OrElse(Find(rest, "port"), Num(DEFAULT_PORT)),
           Update([("model_tag", tag), ("engine", Text("sglang"))], Neutral(Peeled(rest))))
  }

  lemma RenameFind(norm: Config, from: string, to: string, k: string)
    requires UniqueKeys(norm) && from != to
    ensures UniqueKeys(Rename(norm, from, to))
    ensures Find(Rename(norm, from, to), k) ==
              if k == to && Find(norm, from).Some? then Find(norm, from) else if k == from then None else Find(norm, k)
  {
    var v := Find(norm, from);
    RemoveThenFind(norm, from, k);
    if v.Some? {
      SetKeepsUnique(Remove(norm, from), to, v.value);
      SetThenFind(Remove(norm, from), to, v.value, k);
    }
  }

  /** Neutral(norm).get(k) in terms of norm. */
  function NeutralValue(norm: Config, k: string): Option<Value> {
    if k == "max_model_len" && Find(norm, "context_length").Some? then Find(norm, "context_length")
    else if k == "gpu_memory_utilization" && Find(norm, "mem_fraction_static").Some? then
      Find(norm, "mem_fraction_static")
    else if k == "tensor_parallel_size" && Find(norm, "tp_size").Some? then Find(norm, "tp_size")
    else if k in {"context_length", "mem_fraction_static", "tp_size"} then None
    else Find(norm, k)
  }

  lemma RenamesDiffer()
    ensures "context_length" != "max_model_len" && "mem_fraction_static" != "gpu_memory_utilization"
    ensures "tp_size" != "tensor_parallel_size"
    ensures "mem_fraction_static" != "max_model_len" && "mem_fraction_static" != "context_length"
    ensures "tp_size" !in {"max_model_len", "context_length", "gpu_memory_utilization", "mem_fraction_static"}
    ensures "max_model_len" !in {"gpu_memory_utilization", "tensor_parallel_size"}
    ensures "gpu_memory_utilization" != "tensor_parallel_size"
  {
    assert "context_length"[0] == 'c' && "mem_fraction_static"[1] == 'e' && "tp_size"[0] == 't' && "tp_size"[1] == 'p';
    assert "max_model_len"[1] == 'a' && "gpu_memory_utilization"[0] == 'g' && "tensor_parallel_size"[1] == 'e';
    assert "tensor_parallel_size"[0] == 't' && "max_model_len"[0] == 'm';
  }

  lemma NeutralFind(norm: Config, k: string)
    requires UniqueKeys(norm)
    ensures UniqueKeys(Neutral(norm)) && Find(Neutral(norm), k) == NeutralValue(norm, k)
  {
    RenamesDiffer();
    var a := Rename(norm, "context_length", "max_model_len");
    var b := Rename(a, "mem_fraction_static", "gpu_memory_utilization");
    RenameFind(norm, "context_length", "max_model_len", k);
    RenameFind(norm, "context_length", "max_model_len", "mem_fraction_static");
    RenameFind(norm, "context_length", "max_model_len", "tp_size");
    RenameFind(a, "mem_fraction_static", "gpu_memory_utilization", k);
    RenameFind(a, "mem_fraction_static", "gpu_memory_utilization", "tp_size");
    RenameFind(b, "tp_size", "tensor_parallel_size", k);
  }

  lemma LoraNames()
    ensures {LORA, Snake(LORA)} == {"lora-paths", "lora_paths"}
  {
    assert Snake(LORA) == "lora_paths";
  }

  lemma OwnKeys(tag: Value, k: string)
    ensures var own: Config := [("model_tag", tag), ("engine", Text("sglang"))];
            && UniqueKeys(own)
            && Find(own, k) == if k == "model_tag" then Some(tag)
                               else if k == "engine" then Some(Text("sglang")) else None
  {
    var own: Config := [("model_tag", tag), ("engine", Text("sglang"))];
    assert own[1..] == [("engine", Text("sglang"))];
    CliLookup.OwnFind("engine", Text("sglang"), k);
    assert "model_tag"[0] != "engine"[0];
  }

  /** Taking out the tag leaves the other settings. */
  lemma PopTagFind(c: Codec, norm: Config, k: string)
    requires UniqueKeys(norm)
    ensures var (tag, rest) := PopTag(c, norm);
            var path := Find(norm, "model_path");
            var byPath := path.Some? && Truthy(c, path.value);
            && UniqueKeys(rest)
            && tag == (if byPath then path.value else OrElse(Find(norm, "model"), Null))
            && Find(rest, k) == if k == "model_path" || (!byPath && k == "model") then None else Find(norm, k)
  {
    var rest := Remove(norm, "model_path");
    RemoveThenFind(norm, "model_path", k);
    RemoveThenFind(norm, "model_path", "model");
    RemoveThenFind(rest, "model", k);
    assert "model_path"[5] == '_' && |"model"| == 5;
  }

  lemma ConfigFind(c: Codec, norm: Config, p: Parsed, k: string)
    requires UniqueKeys(norm)
    requires var (tag, rest) := PopTag(c, norm);
             p.tag == tag && p.config == Update([("model_tag", tag), ("engine", Text("sglang"))], Neutral(Peeled(rest)))
    ensures var (_, rest) := PopTag(c, norm);
            Find(p.config, k) ==
              if NeutralValue(Peeled(rest), k).Some? then NeutralValue(Peeled(rest), k)
              else if k == "model_tag" then Some(p.tag) else if k == "engine" then Some(Text("sglang")) else None
    ensures UniqueKeys(PopTag(c, norm).1)
  {
    var (tag, rest) := PopTag(c, norm);
    PopTagFind(c, norm, k);
    CliLookup.PeeledFind(rest, k);
    NeutralFind(Peeled(rest), k);
    OwnKeys(tag, k);
    UpdateThenFind([("model_tag", tag), ("engine", Text("sglang"))], Neutral(Peeled(rest)), k);
  }

  lemma KeysDiffer()
    ensures {"max_model_len", "gpu_memory_utilization", "tensor_parallel_size", "context_length",
             "mem_fraction_static", "tp_size"}
         !! {"model_path", "host", "port", "served_model_name", "model", "model_tag", "engine"}
    ensures {"model_tag", "host", "port"} !! {"model_path", "model"} && "engine" != "model"
  {
    assert |"max_model_len"| == 13 && |"gpu_memory_utilization"| == 22 && |"tensor_parallel_size"| == 20;
    assert |"context_length"| == 14 && |"mem_fraction_static"| == 19 && |"tp_size"| == 7;
    assert |"model_path"| == 10 && |"served_model_name"| == 17 && |"model_tag"| == 9 && |"model"| == 5;
    assert |"engine"| == 6 && |"host"| == 4 && |"port"| == 4;
  }

  lemma AfterTagFind(c: Codec, norm: Config, k: string)
    requires UniqueKeys(norm)
    ensures var path := Find(norm, "model_path");
            Find(Peeled(PopTag(c, norm).1), k) ==
              if k in {"model_path", "host", "port", "served_model_name"}
                 || (k == "model" && !(path.Some? && Truthy(c, path.value))) then None
              else Find(norm, k)
  {
    PopTagFind(c, norm, k);
    CliLookup.PeeledFind(PopTag(c, norm).1, k);
  }

  lemma NeutralIs(c: Codec, norm: Config, k: string)
    requires UniqueKeys(norm) && k in {"max_model_len", "gpu_memory_utilization", "tensor_parallel_size"}
    ensures NeutralValue(Peeled(PopTag(c, norm).1), k) == FlagTokens.Neutral(norm, k)
  {
    KeysDiffer();
    RenamesDiffer();
    AfterTagFind(c, norm, k);
    AfterTagFind(c, norm, "context_length");
    AfterTagFind(c, norm, "mem_fraction_static");
    AfterTagFind(c, norm, "tp_size");
  }

  lemma OthersAre(c: Codec, norm: Config, k: string)
    requires UniqueKeys(norm) && k !in {"max_model_len", "gpu_memory_utilization", "tensor_parallel_size"}
    ensures NeutralValue(Peeled(PopTag(c, norm).1), k) ==
              if k in {"context_length", "mem_fraction_static", "tp_size"} then None
              else Find(Peeled(PopTag(c, norm).1), k)
  {
  }

  /** One lookup in the configuration. */
  lemma SettlesAt(c: Codec, norm: Config, p: Parsed, k: string)
    requires UniqueKeys(norm)
    requires var (tag, rest) := PopTag(c, norm);
             p.tag == tag && p.config == Update([("model_tag", tag), ("engine", Text("sglang"))], Neutral(Peeled(rest)))
    ensures var path := Find(norm, "model_path");
            Find(p.config, k) == FlagTokens.SglangFind(norm, path.Some? && Truthy(c, path.value), p.tag, k)
  {
    KeysDiffer();
    ConfigFind(c, norm, p, k);
    if k in {"max_model_len", "gpu_memory_utilization", "tensor_parallel_size"} {
      NeutralIs(c, norm, k);
    } else {
      OthersAre(c, norm, k);
      AfterTagFind(c, norm, k);
    }
  }

  lemma ParseSays(c: Codec, ts: seq<string>)
    ensures FlagTokens.SglangParsed(c, ts, Parse(c, ts))
  {
    var p, rest := Parse(c, ts), FromFirstDash(ts);
    var norm := Norm(Flags(c, LORA, true, Entries(rest)));
    FlagTokens.FromDash(ts);
    LoraNames();
    FlagTokens.FlagsSay(c, LORA, true, rest);
    FlagTokens.NormIsUnique(Flags(c, LORA, true, Entries(rest)));
    KeysDiffer();
    PopTagFind(c, norm, "host");
    PopTagFind(c, norm, "port");
    forall k {
      SettlesAt(c, norm, p, k);
    }
    assert FlagTokens.SglangSettles(c, norm, p);
  }

  method ParseCommand(c: Codec, tokens: seq<string>) returns (p: Parsed)
    ensures p == Parse(c, tokens) && FlagTokens.SglangParsed(c, tokens, p)
  {
    ParseSays(c, tokens);
    var rest := DropLeading(tokens);
    var flags := ParseFlags(c, LORA, true, rest);
    var norm := Normalise(flags);
    var tag := OrElse(Find(norm, "model_path"), Null);
    norm := Remove(norm, "model_path");
    if !Truthy(c, tag) {
      tag := OrElse(Find(norm, "model"), Null);
      norm := Remove(norm, "model");
    }
    var port := OrElse(Find(norm, "port"), Num(DEFAULT_PORT));
    var host := OrElse(Find(norm, "host"), Text("localhost"));
    norm := Remove(Remove(norm, "port"), "host");
    norm := Remove(norm, "served_model_name");
    var pairs := [("context_length", "max_model_len"), ("mem_fraction_static", "gpu_memory_utilization"),
                  ("tp_size", "tensor_parallel_size")];
    ghost var peeled := norm;
    for i := 0 to 3
      invariant i == 0 ==> norm == peeled
      invariant i == 1 ==> norm == Rename(peeled, pairs[0].0, pairs[0].1)
      invariant i == 2 ==> norm == Rename(Rename(peeled, pairs[0].0, pairs[0].1), pairs[1].0, pairs[1].1)
      invariant i == 3 ==> norm == Neutral(peeled)
    {
      var v := Find(norm, pairs[i].0);
      if v.Some? {
        norm := Set(Remove(norm, pairs[i].0), pairs[i].1, v.value);
      }
    }
    p := Parsed(tag, host, port, Update([("model_tag", tag), ("engine", Text("sglang"))], norm));
  }
}
