/**
  What a SGLang launch command keeps when it is parsed and printed again: exactly the
  commands that serve the model under its own tag, whose values are stable (a list of
  several values is not) and whose LoRA paths are plain NAME=PATH tokens.

  The proof follows the trip, as for the other engine, with three things more. The printer
  writes flags of its own before the items, and no item writes them (`HeadLine`,
  `SaidFrom`). Three flags carry the names of other keys, which the parser maps back
  (`NeutralFind`, `KeyOfFlag`). And the LoRA paths of the second command are texts put
  together from what was read, which could read as flags (`IllegiblePathShows`) or lose what
  made them a module (`PlainPathReads`, `KeptPathsArePlain`).

  `LineKeptExactly` puts the two directions together for legible commands, and
  `RoundTripExactly` does away with that assumption. The last part gives the commands that
  are not kept.
 */
module SglangRoundTrip {
  import opened Options
  import opened Dicts
  import opened Cli
  import opened CliLookup
  import opened SglangCommand

  // ---- The printed line ---------------------------------------------------------------

  /** The flags the printer writes on its own account. */
  predicate HeadFlag(f: string) {
    f in {"model-path", "served-model-name", "enable-metrics", "enable-lora", "lora-paths"}
  }

  ghost predicate KeysFree(cfg: Config) {
    forall i :: 0 <= i < |cfg| ==>
      '-' !in cfg[i].0 && '=' !in cfg[i].0 && cfg[i].0 != "model_path" && cfg[i].0 != "lora_paths"
  }

  /** A configuration as the launcher hands it to the printer: a dict with snake_case keys
      that do not write the printer's own flags, a tag that reads as text, and no value
      that reads as a flag. */
  ghost predicate Printable(c: Codec, cfg: Config) {
    && Typed(cfg) && UniqueKeys(cfg) && KeysFree(cfg)
    && HasTag(cfg) && !StartsWith(Tag(cfg), "-") && Coerce(c, Tag(cfg)) == Text(Tag(cfg))
    && Legible(Said(c, cfg))
  }

  function SaidLine(c: Codec, cfg: Config): Line
    requires HasTag(cfg)
  {
    LastWins(Said(c, cfg))
  }

  lemma Spellings()
    ensures Kebab("model_path") == "model-path" && Kebab("lora_paths") == "lora-paths"
    ensures Kebab("enable_lora") == "enable-lora"
    ensures Kebab("lora_modules") == "lora-modules" && Snake(LORA) == "lora_paths"
    ensures Kebab("context_length") == "context-length" && Kebab("mem_fraction_static") == "mem-fraction-static"
    ensures Kebab("tp_size") == "tp-size"
    ensures Kebab("host") == "host" && Kebab("port") == "port" && Kebab("model_tag") == "model-tag"
  {
  }

  lemma HeadSpellings()
    ensures Snake("model-path") == "model_path" && Snake("served-model-name") == "served_model_name"
    ensures Snake("enable-metrics") == "enable_metrics" && Snake("enable-lora") == "enable_lora"
    ensures Snake("lora-paths") == "lora_paths"
    ensures Snake("lora-modules") == "lora_modules" && Snake("model-tag") == "model_tag"
    ensures Snake("allow-runtime-lora") == "allow_runtime_lora"
    ensures Snake("max-model-len") == "max_model_len" && Snake("gpu-memory-utilization") == "gpu_memory_utilization"
    ensures Snake("tensor-parallel-size") == "tensor_parallel_size"
  {
  }

  /** Flags that no item is printed as: withheld keys, and the neutral names of renamed ones. */
  predicate NeverPrinted(f: string) {
    f in {"lora-modules", "model-tag", "allow-runtime-lora",
          "max-model-len", "gpu-memory-utilization", "tensor-parallel-size"}
  }

  lemma RenamedFlags(k: string)
    ensures FlagOf(k) == Kebab(k) || FlagOf(k) in {"context-length", "mem-fraction-static", "tp-size"}
    ensures !HeadFlag("context-length") && !HeadFlag("mem-fraction-static") && !HeadFlag("tp-size")
    ensures !NeverPrinted("context-length") && !NeverPrinted("mem-fraction-static") && !NeverPrinted("tp-size")
  {
    assert "allow-runtime-lora"[0] == 'a' && "max-model-len"[1] == 'a';
    assert "gpu-memory-utilization"[0] == 'g' && "tensor-parallel-size"[1] == 'e';
    assert "context-length"[0] == 'c' && "mem-fraction-static"[1] == 'e' && "tp-size"[0] == 't';
    assert "model-path"[1] == 'o' && "served-model-name"[0] == 's' && "enable-metrics"[0] == 'e';
    assert "enable-lora"[0] == 'e' && "lora-paths"[0] == 'l' && "lora-modules"[0] == 'l' && "model-tag"[1] == 'o';
  }

  /** An item never prints one of the printer's own flags. */
  lemma ItemName(k: string, v: Value)
    requires '-' !in k && '=' !in k && k != "model_path" && k != "lora_paths" && Printed(k, v) != []
    ensures Printed(k, v)[0].name == FlagOf(k)
    ensures '_' !in FlagOf(k) && '=' !in FlagOf(k) && !HeadFlag(FlagOf(k)) && !NeverPrinted(FlagOf(k))
  {
    KebabChars(k);
    SnakeOfKebab(k);
    HeadSpellings();
    RenamedFlags(k);
    assert forall i :: 0 <= i < |"context-length"| ==> "context-length"[i] != '_' && "context-length"[i] != '=';
    assert forall i :: 0 <= i < |"mem-fraction-static"| ==>
             "mem-fraction-static"[i] != '_' && "mem-fraction-static"[i] != '=';
    assert forall i :: 0 <= i < |"tp-size"| ==> "tp-size"[i] != '_' && "tp-size"[i] != '=';
  }

  lemma PrinterIsSingle()
    ensures OneEach(ItemPrinter())
  {
  }

  ghost predicate HeadFree(cfg: Config) {
    forall i :: 0 <= i < |cfg| && Printed(cfg[i].0, cfg[i].1) != [] ==> !HeadFlag(Printed(cfg[i].0, cfg[i].1)[0].name)
  }

  lemma KeysFreeIsHeadFree(cfg: Config)
    requires KeysFree(cfg)
    ensures HeadFree(cfg)
  {
    forall i | 0 <= i < |cfg| && Printed(cfg[i].0, cfg[i].1) != []
      ensures !HeadFlag(Printed(cfg[i].0, cfg[i].1)[0].name)
    {
      ItemName(cfg[i].0, cfg[i].1);
    }
  }

  /** A flag of the line is one of the printer's own or comes from an item. */
  lemma SaidFrom(c: Codec, cfg: Config, f: string) returns (i: nat)
    requires HasTag(cfg) && HeadFree(cfg) && f in SaidLine(c, cfg)
    ensures HeadFlag(f) ==> i < |HeadEntries(c, cfg)| && HeadEntries(c, cfg)[i] == Entry(f, SaidLine(c, cfg)[f])
    ensures !HeadFlag(f) ==> i < |cfg| && Printed(cfg[i].0, cfg[i].1) == [Entry(f, SaidLine(c, cfg)[f])]
  {
    i := LastWinsSource(Said(c, cfg), f);
    var n := |HeadEntries(c, cfg)|;
    if i >= n {
      PrinterIsSingle();
      var e := PrintAll(ItemPrinter(), cfg)[i - n];
      assert e == Said(c, cfg)[i];
      i := PrintedFrom(ItemPrinter(), cfg, i - n);
      assert Printed(cfg[i].0, cfg[i].1) == [e];
    } else {
      assert HeadEntries(c, cfg)[i] == Said(c, cfg)[i];
      HeadIsHead(c, cfg, i);
    }
  }

  lemma HeadIsHead(c: Codec, cfg: Config, i: nat)
    requires HasTag(cfg) && i < |HeadEntries(c, cfg)|
    ensures HeadFlag(HeadEntries(c, cfg)[i].name)
    ensures var e := HeadEntries(c, cfg)[i];
            && (e.name == "model-path" ==> e.args == [Tag(cfg)])
            && (e.name == "served-model-name" ==> e.args == [Served(cfg)])
            && (e.name == "enable-metrics" || e.name == "enable-lora" ==> e.args == [])
            && (e.name == "enable-lora" || e.name == LORA ==> LoraEntries(c, cfg) != [])
            && (e.name == LORA ==> e.args == PathTexts(LoraModules(cfg)) && e.args != [])
  {
    var e := HeadEntries(c, cfg)[i];
    assert "model-path"[0] == 'm' && "served-model-name"[0] == 's' && "lora-paths"[0] == 'l';
    assert "enable-metrics"[7] == 'm' && "enable-lora"[7] == 'l';
    assert i >= 3 ==> e == LoraEntries(c, cfg)[i - 3];
  }

  /** What a line says about the printer's own flags. */
  ghost predicate HeadSays(c: Codec, cfg: Config, said: Line)
    requires HasTag(cfg)
  {
    && "model-path" in said && said["model-path"] == [Tag(cfg)]
    && "served-model-name" in said && said["served-model-name"] == [Served(cfg)]
    && "enable-metrics" in said && said["enable-metrics"] == []
    && ("enable-lora" in said <==> LoraEntries(c, cfg) != [])
    && ("enable-lora" in said ==> said["enable-lora"] == [])
    && (LORA in said <==> LoraEntries(c, cfg) != [] && PathTexts(LoraModules(cfg)) != [])
    && (LORA in said ==> said[LORA] == PathTexts(LoraModules(cfg)))
  }

  lemma HeadFound(c: Codec, cfg: Config, i: nat)
    requires HasTag(cfg) && i < |HeadEntries(c, cfg)|
    ensures HeadEntries(c, cfg)[i].name in SaidLine(c, cfg)
  {
    assert Said(c, cfg)[i] == HeadEntries(c, cfg)[i];
    LastWinsHas(Said(c, cfg), i);
  }

  lemma HeadLine(c: Codec, cfg: Config)
    requires HasTag(cfg) && HeadFree(cfg)
    ensures HeadSays(c, cfg, SaidLine(c, cfg))
  {
    HeadFound(c, cfg, 0);
    HeadFound(c, cfg, 1);
    HeadFound(c, cfg, 2);
    if LoraEntries(c, cfg) != [] {
      assert HeadEntries(c, cfg)[3] == LoraEntries(c, cfg)[0];
      HeadFound(c, cfg, 3);
      if PathTexts(LoraModules(cfg)) != [] {
        assert HeadEntries(c, cfg)[4] == LoraEntries(c, cfg)[1];
        HeadFound(c, cfg, 4);
      }
    }
    HeadValue(c, cfg, "model-path");
    HeadValue(c, cfg, "served-model-name");
    HeadValue(c, cfg, "enable-metrics");
    if "enable-lora" in SaidLine(c, cfg) { HeadValue(c, cfg, "enable-lora"); }
    if LORA in SaidLine(c, cfg) { HeadValue(c, cfg, LORA); }
  }

  lemma HeadValue(c: Codec, cfg: Config, f: string)
    requires HasTag(cfg) && HeadFree(cfg) && HeadFlag(f) && f in SaidLine(c, cfg)
    ensures var args := SaidLine(c, cfg)[f];
            && (f == "model-path" ==> args == [Tag(cfg)])
            && (f == "served-model-name" ==> args == [Served(cfg)])
            && (f == "enable-metrics" || f == "enable-lora" ==> args == [])
            && (f == "enable-lora" || f == LORA ==> LoraEntries(c, cfg) != [])
            && (f == LORA ==> args == PathTexts(LoraModules(cfg)) && args != [])
  {
    var i := SaidFrom(c, cfg, f);
    HeadIsHead(c, cfg, i);
  }

  lemma SaidNames(c: Codec, cfg: Config)
    requires Printable(c, cfg)
    ensures HeadFree(cfg) && HeadSays(c, cfg, SaidLine(c, cfg))
    ensures PlainNames(Said(c, cfg)) && LoraAgrees(LORA, true, SaidLine(c, cfg))
    ensures forall f :: f in SaidLine(c, cfg) ==> !NeverPrinted(f)
  {
    KeysFreeIsHeadFree(cfg);
    HeadLine(c, cfg);
    forall f | f in SaidLine(c, cfg)
      ensures !NeverPrinted(f)
    {
      SaidIsOther(c, cfg, f);
    }
    var es := Said(c, cfg);
    forall i | 0 <= i < |es|
      ensures '_' !in es[i].name && '=' !in es[i].name
    {
      SaidIsPlain(c, cfg, i);
    }
  }

  lemma HeadIsNoOther(f: string)
    requires HeadFlag(f)
    ensures !NeverPrinted(f)
  {
    assert "lora-modules"[5] == 'm' && "model-tag"[6] == 't' && "model-path"[6] == 'p' && "lora-paths"[5] == 'p';
    assert "allow-runtime-lora"[0] == 'a' && "max-model-len"[1] == 'a' && "gpu-memory-utilization"[0] == 'g';
    assert "tensor-parallel-size"[0] == 't' && "served-model-name"[0] == 's';
    assert "enable-metrics"[0] == 'e' && "enable-lora"[0] == 'e';
    assert "lora-modules"[0] == 'l' && "model-tag"[0] == 'm' && "model-path"[1] == 'o';
  }

  lemma SaidIsOther(c: Codec, cfg: Config, f: string)
    requires HasTag(cfg) && KeysFree(cfg) && HeadFree(cfg) && f in SaidLine(c, cfg)
    ensures !NeverPrinted(f)
  {
    var i := SaidFrom(c, cfg, f);
    if HeadFlag(f) {
      HeadIsNoOther(f);
    } else {
      ItemName(cfg[i].0, cfg[i].1);
    }
  }

  lemma SaidIsPlain(c: Codec, cfg: Config, i: nat)
    requires HasTag(cfg) && KeysFree(cfg) && i < |Said(c, cfg)|
    ensures '_' !in Said(c, cfg)[i].name && '=' !in Said(c, cfg)[i].name
  {
    var n := |HeadEntries(c, cfg)|;
    if i >= n {
      PrinterIsSingle();
      var e := PrintAll(ItemPrinter(), cfg)[i - n];
      assert e == Said(c, cfg)[i];
      var j := PrintedFrom(ItemPrinter(), cfg, i - n);
      ItemName(cfg[j].0, cfg[j].1);
      assert Printed(cfg[j].0, cfg[j].1)[0] == e;
    } else {
      HeadIsHead(c, cfg, i);
      assert HeadEntries(c, cfg)[i] == Said(c, cfg)[i];
      HeadIsPlain(Said(c, cfg)[i].name);
    }
  }

  lemma HeadIsPlain(f: string)
    requires HeadFlag(f)
    ensures '_' !in f && '=' !in f
  {
    assert forall i :: 0 <= i < |"model-path"| ==> "model-path"[i] != '_' && "model-path"[i] != '=';
    assert forall i :: 0 <= i < |"served-model-name"| ==>
             "served-model-name"[i] != '_' && "served-model-name"[i] != '=';
    assert forall i :: 0 <= i < |"enable-metrics"| ==> "enable-metrics"[i] != '_' && "enable-metrics"[i] != '=';
    assert forall i :: 0 <= i < |"enable-lora"| ==> "enable-lora"[i] != '_' && "enable-lora"[i] != '=';
    assert forall i :: 0 <= i < |"lora-paths"| ==> "lora-paths"[i] != '_' && "lora-paths"[i] != '=';
  }

  // ---- The configuration that comes back ------------------------------------------------

  const LAUNCH := ["python", "-m", "sglang.launch_server"]

  function Back(c: Codec, cfg: Config): Config
    requires HasTag(cfg)
  {
    Relaunched(Parse(c, LAUNCH + CliArgs(c, cfg).value))
  }

  /** What the parser has for an underscore key once the tag and the address are taken out. */
  function RestValue(c: Codec, said: Line, k: string): Option<Value> {
    if k in {"model_path", "host", "port", "served_model_name"} then None else NormValue(c, LORA, true, said, k)
  }

  /** The same after the renamed flags have got their neutral names back. */
  function SettledValue(c: Codec, said: Line, k: string): Option<Value> {
    if k == "max_model_len" && RestValue(c, said, "context_length").Some? then RestValue(c, said, "context_length")
    else if k == "gpu_memory_utilization" && RestValue(c, said, "mem_fraction_static").Some? then
      RestValue(c, said, "mem_fraction_static")
    else if k == "tensor_parallel_size" && RestValue(c, said, "tp_size").Some? then RestValue(c, said, "tp_size")
    else if k in {"context_length", "mem_fraction_static", "tp_size"} then None
    else RestValue(c, said, k)
  }

  /** Back(cfg).get(k), in terms of what the command line said. */
  function BackValue(c: Codec, tag: string, said: Line, k: string): Option<Value> {
    if k == "host" then Some(OrElse(NormValue(c, LORA, true, said, k), Text("localhost")))
    else if k == "port" then Some(OrElse(NormValue(c, LORA, true, said, k), Num(DEFAULT_PORT)))
    else if SettledValue(c, said, k).Some? then SettledValue(c, said, k)
    else if k == "model_tag" then Some(Text(tag))
    else if k == "engine" then Some(Text("sglang"))
    else None
  }

  lemma Launches(es: seq<Entry>)
    requires Legible(es)
    ensures Entries(FromFirstDash(LAUNCH + Flat(es))) == es
  {
    var ts := LAUNCH + Flat(es);
    assert !StartsWith(ts[0], "-") by { assert ts[0] == "python" && "python"[..1] == "p"; }
    var tail := ["-m", "sglang.launch_server"] + Flat(es);
    assert ts[1..] == tail;
    assert StartsWith("-m", "-") by { assert "-m"[..1] == "-"; }
    assert tail[0] == "-m";
    assert FromFirstDash(ts) == FromFirstDash(tail) == tail;
    assert !IsFlag(tail[0]) by { assert "-m"[1] == 'm'; }
    assert !IsFlag(tail[1]) by { assert "sglang.launch_server"[0] == 's'; }
    EntriesOfFlat(["-m", "sglang.launch_server"], es);
    assert EntriesFrom(tail, 1) == EntriesFrom(tail, 2);
    assert EntriesFrom(tail, 0) == EntriesFrom(tail, 1);
  }

  lemma ParsedIs(c: Codec, cfg: Config)
    requires Printable(c, cfg)
    ensures var norm := Norm(Flags(c, LORA, true, Said(c, cfg)));
            var rest := Remove(norm, "model_path");
            Parse(c, LAUNCH + CliArgs(c, cfg).value) ==
              Parsed(Text(Tag(cfg)),
                     OrElse(Find(rest, "host"), Text("localhost")), OrElse(Find(rest, "port"), Num(DEFAULT_PORT)),
                     Update([("model_tag", Text(Tag(cfg))), ("engine", Text("sglang"))], Neutral(Peeled(rest))))
  {
    Launches(Said(c, cfg));
    SaidNames(c, cfg);
    TagIsRead(c, cfg);
  }

  lemma TagIsRead(c: Codec, cfg: Config)
    requires Printable(c, cfg) && PlainNames(Said(c, cfg)) && LoraAgrees(LORA, true, SaidLine(c, cfg))
    requires HeadSays(c, cfg, SaidLine(c, cfg))
    ensures Find(Norm(Flags(c, LORA, true, Said(c, cfg))), "model_path") == Some(Text(Tag(cfg)))
  {
    ParsedFind(c, LORA, true, Said(c, cfg), "model_path");
    PathKey(c, SaidLine(c, cfg));
  }

  lemma PathKey(c: Codec, said: Line)
    requires "model-path" in said
    ensures NormValue(c, LORA, true, said, "model_path") == Some(ReadArgs(c, said["model-path"]))
  {
    Spellings();
    assert "model_path"[0] == 'm' && "lora_paths"[0] == 'l' && "lora_modules"[0] == 'l' && "enable_lora"[0] == 'e';
  }

  lemma RestFind(c: Codec, cfg: Config, k: string)
    requires Printable(c, cfg)
    ensures var rest := Remove(Norm(Flags(c, LORA, true, Said(c, cfg))), "model_path");
            && UniqueKeys(rest) && UniqueKeys(Peeled(rest))
            && Find(Peeled(rest), k) == RestValue(c, SaidLine(c, cfg), k)
            && (k != "model_path" ==> Find(rest, k) == NormValue(c, LORA, true, SaidLine(c, cfg), k))
  {
    var norm := Norm(Flags(c, LORA, true, Said(c, cfg)));
    SaidNames(c, cfg);
    ParsedFind(c, LORA, true, Said(c, cfg), k);
    RemoveThenFind(norm, "model_path", k);
    PeeledFind(Remove(norm, "model_path"), k);
  }

  lemma SettledFind(c: Codec, cfg: Config, k: string)
    requires Printable(c, cfg)
    ensures var rest := Remove(Norm(Flags(c, LORA, true, Said(c, cfg))), "model_path");
            UniqueKeys(Neutral(Peeled(rest))) && Find(Neutral(Peeled(rest)), k) == SettledValue(c, SaidLine(c, cfg), k)
  {
    var rest := Remove(Norm(Flags(c, LORA, true, Said(c, cfg))), "model_path");
    RestFind(c, cfg, k);
    RestFind(c, cfg, "context_length");
    RestFind(c, cfg, "mem_fraction_static");
    RestFind(c, cfg, "tp_size");
    NeutralFind(Peeled(rest), k);
  }

  lemma BackFind(c: Codec, cfg: Config, k: string)
    requires Printable(c, cfg)
    ensures UniqueKeys(Back(c, cfg)) && Find(Back(c, cfg), k) == BackValue(c, Tag(cfg), SaidLine(c, cfg), k)
  {
    var rest := Remove(Norm(Flags(c, LORA, true, Said(c, cfg))), "model_path");
    ParsedIs(c, cfg);
    SettledFind(c, cfg, k);
    AddressFind(c, cfg);
    OwnKeys(Text(Tag(cfg)), k);
    RelaunchedFind([("model_tag", Text(Tag(cfg))), ("engine", Text("sglang"))],
                   Parse(c, LAUNCH + CliArgs(c, cfg).value),
                   Neutral(Peeled(rest)), k);
  }

  lemma AddressFind(c: Codec, cfg: Config)
    requires Printable(c, cfg)
    ensures var rest := Remove(Norm(Flags(c, LORA, true, Said(c, cfg))), "model_path");
            && Find(rest, "host") == NormValue(c, LORA, true, SaidLine(c, cfg), "host")
            && Find(rest, "port") == NormValue(c, LORA, true, SaidLine(c, cfg), "port")
  {
    assert "host"[0] == 'h' && "port"[0] == 'p' && "model_path"[0] == 'm';
    RestFind(c, cfg, "host");
    RestFind(c, cfg, "port");
  }

  // ---- The line printed again -------------------------------------------------------------

  /** What the second printing has for the keys it prints. */
  lemma ValueShape(c: Codec, tag: string, said: Line, k: string, v: Value)
    requires BackValue(c, tag, said, k) == Some(v) && !SkipKey(k)
    requires forall f :: f in said ==> !NeverPrinted(f)
    ensures '-' !in k && k != "model_path" && k != "lora_paths"
    ensures || (FlagOf(k) in said && v == ReadArgs(c, said[FlagOf(k)]))
            || (k == "host" && "host" !in said && v == Text("localhost"))
            || (k == "port" && "port" !in said && v == Num(DEFAULT_PORT))
  {
    Spellings();
    NeutralSpellings();
  }

  lemma NeutralSpellings()
    ensures Kebab("max_model_len") == "max-model-len" && Kebab("gpu_memory_utilization") == "gpu-memory-utilization"
    ensures Kebab("tensor_parallel_size") == "tensor-parallel-size"
    ensures NeverPrinted("max-model-len") && NeverPrinted("gpu-memory-utilization")
    ensures NeverPrinted("tensor-parallel-size")
    ensures FlagOf("host") == "host" && FlagOf("port") == "port" && !SkipKey("host") && !SkipKey("port")
  {
    assert "host"[0] == 'h' && "port"[0] == 'p';
    Spellings();
  }

  /** The key that carries a printed flag when the command is parsed. */
  function KeyOf(f: string): string {
    if f == "context-length" then "max_model_len"
    else if f == "mem-fraction-static" then "gpu_memory_utilization"
    else if f == "tp-size" then "tensor_parallel_size"
    else Snake(f)
  }

  lemma KeyOfFlag(k: string)
    requires '-' !in k && !SkipKey(k)
    ensures FlagOf(KeyOf(FlagOf(k))) == FlagOf(k) && !SkipKey(KeyOf(FlagOf(k)))
    ensures KeyOf(FlagOf(k)) == k || FlagOf(k) in {"context-length", "mem-fraction-static", "tp-size"}
  {
    SnakeOfKebab(k);
    NeutralNotSkipped();
  }

  lemma NeutralNotSkipped()
    ensures !SkipKey("max_model_len") && !SkipKey("gpu_memory_utilization") && !SkipKey("tensor_parallel_size")
  {
    assert "max_model_len"[1] == 'a' && "gpu_memory_utilization"[0] == 'g' && "tensor_parallel_size"[0] == 't';
    assert "model_tag"[1] == 'o' && "lora_modules"[0] == 'l';
  }

  /** Every printed item flag has a key in the configuration that comes back. */
  lemma SaidIsFound(c: Codec, cfg: Config, f: string) returns (k: string)
    requires Printable(c, cfg) && f in SaidLine(c, cfg) && !HeadFlag(f)
    ensures FlagOf(k) == f && !SkipKey(k)
    ensures BackValue(c, Tag(cfg), SaidLine(c, cfg), k) == Some(ReadArgs(c, SaidLine(c, cfg)[f]))
  {
    SaidNames(c, cfg);
    var i := SaidFrom(c, cfg, f);
    var k0 := cfg[i].0;
    ItemName(k0, cfg[i].1);
    KeyOfFlag(k0);
    k := KeyOf(f);
    KeyValue(c, Tag(cfg), SaidLine(c, cfg), k0, f);
  }

  lemma KeyValue(c: Codec, tag: string, said: Line, k0: string, f: string)
    requires '-' !in k0 && k0 != "model_path" && k0 != "lora_paths" && !SkipKey(k0) && f == FlagOf(k0) && f in said
    ensures BackValue(c, tag, said, KeyOf(f)) == Some(ReadArgs(c, said[f]))
  {
    Spellings();
    SnakeOfKebab(k0);
    if f in {"context-length", "mem-fraction-static", "tp-size"} {
      RenamedValue(c, said);
      RenamesDiffer();
      NeutralAreNoAddress();
    } else {
      assert KeyOf(f) == k0 && f == Kebab(k0);
    }
  }

  lemma NeutralAreNoAddress()
    ensures "max_model_len" !in {"host", "port"} && "gpu_memory_utilization" !in {"host", "port"}
    ensures "tensor_parallel_size" !in {"host", "port"}
  {
    assert "max_model_len"[0] == 'm' && "gpu_memory_utilization"[0] == 'g' && "tensor_parallel_size"[0] == 't';
  }

  lemma RenamedValue(c: Codec, said: Line)
    ensures "context-length" in said ==>
              RestValue(c, said, "context_length") == Some(ReadArgs(c, said["context-length"]))
    ensures "mem-fraction-static" in said ==>
              RestValue(c, said, "mem_fraction_static") == Some(ReadArgs(c, said["mem-fraction-static"]))
    ensures "tp-size" in said ==> RestValue(c, said, "tp_size") == Some(ReadArgs(c, said["tp-size"]))
  {
    Spellings();
    assert "context_length"[0] == 'c' && "mem_fraction_static"[1] == 'e' && "tp_size"[0] == 't';
    assert "model_path"[1] == 'o' && "host"[0] == 'h' && "port"[0] == 'p' && "served_model_name"[0] == 's';
    assert "lora_modules"[0] == 'l' && "enable_lora"[0] == 'e' && "lora_paths"[0] == 'l';
  }

  /** Reading a flag's arguments and printing the value gives them back exactly when they are stable. */
  lemma StableExactly(c: Codec, k: string, args: seq<string>)
    requires Lawful(c) && !SkipKey(k)
    ensures Printed(k, ReadArgs(c, args)) == [Entry(FlagOf(k), args)] <==> Stable(c, args)
  {
    if args != [] && !StartsWith(args[0], "-") && !BoolWord(args[0]) {
      assert args == [args[0]] <==> |args| == 1;
    }
  }

  lemma BackKeys(c: Codec, cfg: Config, i: nat)
    requires Printable(c, cfg) && i < |Back(c, cfg)|
    ensures BackValue(c, Tag(cfg), SaidLine(c, cfg), Back(c, cfg)[i].0) == Some(Back(c, cfg)[i].1)
  {
    BackFind(c, cfg, Back(c, cfg)[i].0);
    FindsItem(Back(c, cfg), i);
  }

  lemma BackIsHeadFree(c: Codec, cfg: Config)
    requires Printable(c, cfg)
    ensures HeadFree(Back(c, cfg))
  {
    var back := Back(c, cfg);
    SaidNames(c, cfg);
    forall i | 0 <= i < |back| && Printed(back[i].0, back[i].1) != []
      ensures !HeadFlag(Printed(back[i].0, back[i].1)[0].name)
    {
      BackKeys(c, cfg, i);
      BackItemName(c, cfg, back[i].0, back[i].1);
    }
  }

  lemma BackItemName(c: Codec, cfg: Config, k: string, v: Value)
    requires Printable(c, cfg) && BackValue(c, Tag(cfg), SaidLine(c, cfg), k) == Some(v) && Printed(k, v) != []
    ensures Printed(k, v)[0].name == FlagOf(k) && !HeadFlag(FlagOf(k))
  {
    BackKeyIsPlain(c, cfg, k, v);
    ItemName(k, v);
  }

  lemma BackKeyIsPlain(c: Codec, cfg: Config, k: string, v: Value)
    requires Printable(c, cfg) && BackValue(c, Tag(cfg), SaidLine(c, cfg), k) == Some(v) && Printed(k, v) != []
    ensures '-' !in k && '=' !in k && k != "model_path" && k != "lora_paths"
  {
    SaidNames(c, cfg);
    ValueShape(c, Tag(cfg), SaidLine(c, cfg), k, v);
    NeutralSpellings();
    if FlagOf(k) in SaidLine(c, cfg) {
      NamesSaid(Said(c, cfg), FlagOf(k));
      EqualsStays(k);
    } else {
      assert "host"[1] == 'o' && '=' !in "host" && '=' !in "port";
    }
  }

  lemma EqualsStays(k: string)
    ensures '=' in k ==> '=' in FlagOf(k)
  {
    assert '=' !in "max_model_len" && '=' !in "gpu_memory_utilization" && '=' !in "tensor_parallel_size";
    if '=' in k {
      var i :| 0 <= i < |k| && k[i] == '=';
      assert Kebab(k)[i] == '=';
    }
  }

  // ---- LoRA paths ---------------------------------------------------------------------------

  predicate IsJsonModule(c: Codec, a: string) {
    StartsWith(Strip(a), "{") && c.load(Strip(a)).Some? && Named(c.load(Strip(a)).value)
  }

  /** A NAME=PATH token whose two halves are neither empty nor padded. */
  predicate PlainPath(c: Codec, a: string) {
    '=' in a && Trimmed(Before(a, '=')) && Trimmed(After(a, '=')) && !IsJsonModule(c, a)
  }

  lemma SplitAtEquals(a: string)
    requires '=' in a
    ensures Before(a, '=') + "=" + After(a, '=') == a && '=' !in Before(a, '=')
  {
  }

  lemma JoinedSplits(name: string, path: string)
    requires '=' !in name
    ensures '=' in name + "=" + path
    ensures Before(name + "=" + path, '=') == name && After(name + "=" + path, '=') == path
  {
    var a := name + "=" + path;
    assert a[|name|] == '=';
    assert forall i :: 0 <= i < |name| ==> a[i] == name[i];
    assert IndexOf(a, '=') == |name|;
  }

  lemma StripKeepsAbsent(s: string, x: char)
    requires x !in s
    ensures x !in Strip(s)
  {
    LeftStripPart(s);
    RightStripPart(LeftStrip(s));
  }

  lemma {:induction false} LeftStripPart(s: string)
    ensures forall x :: x in LeftStrip(s) ==> x in s
  {
    if s != [] && IsSpace(s[0]) {
      LeftStripPart(s[1..]);
    }
  }

  lemma {:induction false} RightStripPart(s: string)
    ensures forall x :: x in RightStrip(s) ==> x in s
  {
    if s != [] && IsSpace(s[|s| - 1]) {
      RightStripPart(s[..|s| - 1]);
    }
  }

  /** The token a parsed LoRA token is printed as, if any. */
  function ReadBack(c: Codec, a: string): Option<string> {
    var m := ParseModule(c, a);
    if HasPath(m) then Some(m["name"].value + "=" + m["path"].value) else None
  }

  lemma PlainPathReads(c: Codec, a: string)
    requires PlainPath(c, a)
    ensures ReadBack(c, a) == Some(a)
  {
    SplitAtEquals(a);
    StripTrims(a);
    StripTrims(Before(a, '='));
    StripTrims(After(a, '='));
    assert a[0] == Before(a, '=')[0] && a[|a| - 1] == After(a, '=')[|After(a, '=')| - 1];
  }

  lemma HalvesArePlain(text: string)
    requires '=' in text
    ensures var name, path := Strip(Before(text, '=')), Strip(After(text, '='));
            var a := name + "=" + path;
            '=' in a && Before(a, '=') == name && After(a, '=') == path
            && (name != "" ==> Trimmed(name)) && (path != "" ==> Trimmed(path))
  {
    SplitAtEquals(text);
    StripTrims(Before(text, '='));
    StripTrims(After(text, '='));
    StripKeepsAbsent(Before(text, '='), '=');
    JoinedSplits(Strip(Before(text, '=')), Strip(After(text, '=')));
  }

  lemma ReadPathIsPlain(c: Codec, a: string)
    requires JsonIsLonger(c) && ReadBack(c, a) == Some(a)
    ensures PlainPath(c, a)
  {
    assert !IsJsonModule(c, a);
    HalvesArePlain(Strip(a));
  }

  lemma {:induction false} PathsShrink(ms: seq<Module>)
    ensures |PathTexts(ms)| <= |ms|
  {
    if ms != [] {
      PathsShrink(ms[..|ms| - 1]);
    }
  }

  lemma LastPath(c: Codec, args: seq<string>)
    requires args != []
    ensures var n := |args| - 1;
            PathTexts(ParseModules(c, args)) ==
              PathTexts(ParseModules(c, args[..n]))
              + (if ReadBack(c, args[n]).Some? then [ReadBack(c, args[n]).value] else [])
  {
    var n := |args| - 1;
    assert ParseModules(c, args)[..n] == ParseModules(c, args[..n]);
  }

  predicate Returns(c: Codec, a: string) { ReadBack(c, a) == Some(a) }

  lemma OneMoreReturns(c: Codec, args: seq<string>, n: nat)
    requires n < |args| && Returns(c, args[n])
    ensures PathTexts(ParseModules(c, args[..n + 1])) == PathTexts(ParseModules(c, args[..n])) + [args[n]]
  {
    var more := args[..n + 1];
    assert more[..n] == args[..n] && more[n] == args[n] && |more| == n + 1;
    LastPath(c, more);
  }

  lemma {:induction false} ReturnedAreKept(c: Codec, args: seq<string>)
    requires forall i :: 0 <= i < |args| ==> Returns(c, args[i])
    ensures PathTexts(ParseModules(c, args)) == args
  {
    if args != [] {
      var n := |args| - 1;
      ReturnedAreKept(c, args[..n]);
      OneMoreReturns(c, args, n);
      assert args[..n + 1] == args == args[..n] + [args[n]];
    }
  }

  lemma PlainPathsAreKept(c: Codec, args: seq<string>)
    requires forall i :: 0 <= i < |args| ==> PlainPath(c, args[i])
    ensures PathTexts(ParseModules(c, args)) == args
  {
    forall i | 0 <= i < |args|
      ensures Returns(c, args[i])
    {
      PlainPathReads(c, args[i]);
    }
    ReturnedAreKept(c, args);
  }

  lemma KeptLast(c: Codec, args: seq<string>)
    requires args != [] && PathTexts(ParseModules(c, args)) == args
    ensures var n := |args| - 1;
            PathTexts(ParseModules(c, args[..n])) == args[..n] && ReadBack(c, args[n]) == Some(args[n])
  {
    LastPath(c, args);
    PathsShrink(ParseModules(c, args[..|args| - 1]));
  }

  lemma {:induction false} KeptPathsArePlain(c: Codec, args: seq<string>)
    requires JsonIsLonger(c) && PathTexts(ParseModules(c, args)) == args
    ensures forall i :: 0 <= i < |args| ==> PlainPath(c, args[i])
  {
    if args != [] {
      KeptLast(c, args);
      ReadPathIsPlain(c, args[|args| - 1]);
      KeptPathsArePlain(c, args[..|args| - 1]);
    }
  }

  // ---- The theorem -----------------------------------------------------------------------------

  /** The commands to be kept. */
  predicate Faithful(c: Codec, said: Line) {
    && "host" in said && "port" in said
    && (forall f :: f in said && !HeadFlag(f) ==> Stable(c, said[f]))
    && HeadFaithful(c, said)
  }

  lemma AbsentKeys(c: Codec, tag: string, said: Line)
    requires forall f :: f in said ==> !NeverPrinted(f)
    ensures BackValue(c, tag, said, "served_model_name").None? && BackValue(c, tag, said, "allow_runtime_lora").None?
  {
    assert Kebab("allow_runtime_lora") == "allow-runtime-lora" && NeverPrinted("allow-runtime-lora");
    assert "served_model_name"[0] == 's' && "allow_runtime_lora"[0] == 'a';
  }

  lemma LoraKeys(c: Codec, tag: string, said: Line)
    requires LoraAgrees(LORA, true, said)
    requires LORA in said ==> "enable-lora" in said
    ensures BackValue(c, tag, said, "enable_lora") == if "enable-lora" in said then Some(Bool(true)) else None
    ensures BackValue(c, tag, said, "lora_modules")
         == if LORA in said then Some(Modules(ParseModules(c, said[LORA]))) else None
  {
    Spellings();
    assert "enable_lora"[0] == 'e' && "lora_modules"[0] == 'l' && "lora_modules"[5] == 'm' && "lora_paths"[5] == 'p';
    assert "enable_lora"[1] == 'n' && "engine"[2] == 'g' && "enable_lora"[2] == 'a';
  }

  lemma TagKey(c: Codec, tag: string, said: Line)
    requires forall f :: f in said ==> !NeverPrinted(f)
    ensures BackValue(c, tag, said, "model_tag") == Some(Text(tag))
  {
    Spellings();
    assert NeverPrinted("model-tag");
    assert "model_tag"[6] == 't' && "model_path"[6] == 'p' && "model_tag"[0] == 'm';
    assert "host"[0] == 'h' && "port"[0] == 'p';
    assert "lora_modules"[0] == 'l' && "enable_lora"[0] == 'e' && "lora_paths"[0] == 'l';
  }

  /** What the second printing says about the printer's own flags. */
  lemma BackHead(c: Codec, cfg: Config)
    requires Printable(c, cfg)
    ensures var back := Back(c, cfg);
            var said := SaidLine(c, cfg);
            && HasTag(back) && Tag(back) == Tag(cfg) && Served(back) == Tag(cfg)
            && (LoraEntries(c, back) != [] <==> "enable-lora" in said)
            && LoraModules(back) == (if LORA in said then ParseModules(c, said[LORA]) else [])
  {
    SaidNames(c, cfg);
    BackTag(c, cfg);
    BackLora(c, cfg);
  }

  lemma BackTag(c: Codec, cfg: Config)
    requires Printable(c, cfg) && forall f :: f in SaidLine(c, cfg) ==> !NeverPrinted(f)
    ensures HasTag(Back(c, cfg)) && Tag(Back(c, cfg)) == Tag(cfg) && Served(Back(c, cfg)) == Tag(cfg)
  {
    AbsentKeys(c, Tag(cfg), SaidLine(c, cfg));
    TagKey(c, Tag(cfg), SaidLine(c, cfg));
    BackFind(c, cfg, "model_tag");
    BackFind(c, cfg, "served_model_name");
  }

  lemma BackLora(c: Codec, cfg: Config)
    requires Printable(c, cfg) && (forall f :: f in SaidLine(c, cfg) ==> !NeverPrinted(f))
    requires LoraAgrees(LORA, true, SaidLine(c, cfg))
    requires (LORA in SaidLine(c, cfg) ==> "enable-lora" in SaidLine(c, cfg))
    ensures IsOn(c, Back(c, cfg), "enable_lora") <==> "enable-lora" in SaidLine(c, cfg)
    ensures !IsOn(c, Back(c, cfg), "allow_runtime_lora")
    ensures LoraModules(Back(c, cfg))
         == if LORA in SaidLine(c, cfg) then ParseModules(c, SaidLine(c, cfg)[LORA]) else []
  {
    BackOption(c, cfg, "enable_lora");
    BackOption(c, cfg, "allow_runtime_lora");
    BackOption(c, cfg, "lora_modules");
  }

  lemma BackOption(c: Codec, cfg: Config, k: string)
    requires Printable(c, cfg) && (forall f :: f in SaidLine(c, cfg) ==> !NeverPrinted(f))
    requires LoraAgrees(LORA, true, SaidLine(c, cfg))
    requires (LORA in SaidLine(c, cfg) ==> "enable-lora" in SaidLine(c, cfg))
    ensures var v, said := Find(Back(c, cfg), k), SaidLine(c, cfg);
            && (k == "enable_lora" ==> v == if "enable-lora" in said then Some(Bool(true)) else None)
            && (k == "allow_runtime_lora" ==> v.None?)
            && (k == "lora_modules" ==> v == if LORA in said then Some(Modules(ParseModules(c, said[LORA]))) else None)
  {
    AbsentKeys(c, Tag(cfg), SaidLine(c, cfg));
    LoraKeys(c, Tag(cfg), SaidLine(c, cfg));
    BackFind(c, cfg, k);
  }

  lemma AgainFrom(c: Codec, cfg: Config, f: string) returns (k: string, v: Value)
    requires Printable(c, cfg) && HasTag(Back(c, cfg)) && f in SaidLine(c, Back(c, cfg)) && !HeadFlag(f)
    ensures BackValue(c, Tag(cfg), SaidLine(c, cfg), k) == Some(v)
    ensures Printed(k, v) == [Entry(f, SaidLine(c, Back(c, cfg))[f])] && f == FlagOf(k) && !SkipKey(k)
  {
    BackIsHeadFree(c, cfg);
    var i := SaidFrom(c, Back(c, cfg), f);
    BackKeys(c, cfg, i);
    k, v := Back(c, cfg)[i].0, Back(c, cfg)[i].1;
    BackItemName(c, cfg, k, v);
  }

  lemma ItemIsSaid(c: Codec, cfg: Config, j: nat)
    requires HasTag(cfg) && j < |cfg| && Printed(cfg[j].0, cfg[j].1) != []
    ensures Printed(cfg[j].0, cfg[j].1)[0].name in SaidLine(c, cfg)
  {
    var i := PrintedHas(ItemPrinter(), cfg, j);
    var n := |HeadEntries(c, cfg)|;
    assert Said(c, cfg)[n + i] == PrintAll(ItemPrinter(), cfg)[i];
    LastWinsHas(Said(c, cfg), n + i);
  }

  lemma AgainHas(c: Codec, cfg: Config, k: string, v: Value)
    requires Printable(c, cfg) && HasTag(Back(c, cfg)) && BackValue(c, Tag(cfg), SaidLine(c, cfg), k) == Some(v)
    requires Printed(k, v) != []
    ensures Printed(k, v)[0].name in SaidLine(c, Back(c, cfg))
  {
    BackFind(c, cfg, k);
    var j := FoundAt(Back(c, cfg), k);
    ItemIsSaid(c, Back(c, cfg), j);
  }

  lemma FaithfulFlag(c: Codec, cfg: Config, f: string)
    requires Lawful(c) && Printable(c, cfg) && HasTag(Back(c, cfg)) && Faithful(c, SaidLine(c, cfg)) && !HeadFlag(f)
    ensures f in SaidLine(c, Back(c, cfg)) <==> f in SaidLine(c, cfg)
    ensures f in SaidLine(c, cfg) ==> SaidLine(c, Back(c, cfg))[f] == SaidLine(c, cfg)[f]
  {
    var said := SaidLine(c, cfg);
    SaidNames(c, cfg);
    if f in said {
      var k := SaidIsFound(c, cfg, f);
      StableExactly(c, k, said[f]);
      AgainHas(c, cfg, k, ReadArgs(c, said[f]));
    }
    if f in SaidLine(c, Back(c, cfg)) {
      var k, v := AgainFrom(c, cfg, f);
      ValueShape(c, Tag(cfg), said, k, v);
      NeutralSpellings();
      StableExactly(c, k, said[f]);
    }
  }

  predicate AgreeOn(f: string, said: Line, again: Line) {
    (f in again <==> f in said) && (f in said ==> again[f] == said[f])
  }

  predicate HeadFaithful(c: Codec, said: Line) {
    && "model-path" in said && "served-model-name" in said && said["served-model-name"] == said["model-path"]
    && (LORA in said ==> forall i :: 0 <= i < |said[LORA]| ==> PlainPath(c, said[LORA][i]))
  }

  lemma SameHead(c: Codec, cfg: Config)
    requires JsonIsLonger(c) && Printable(c, cfg) && HasTag(Back(c, cfg))
    ensures var said, again := SaidLine(c, cfg), SaidLine(c, Back(c, cfg));
            && AgreeOn("model-path", said, again) && AgreeOn("enable-metrics", said, again)
            && AgreeOn("enable-lora", said, again)
            && (HeadFaithful(c, said) <==> AgreeOn("served-model-name", said, again) && AgreeOn(LORA, said, again))
  {
    var said, again := SaidLine(c, cfg), SaidLine(c, Back(c, cfg));
    SaidNames(c, cfg);
    BackHead(c, cfg);
    BackIsHeadFree(c, cfg);
    HeadLine(c, Back(c, cfg));
    SamePaths(c, cfg, Back(c, cfg), said, again);
  }

  lemma SamePaths(c: Codec, cfg: Config, back: Config, said: Line, again: Line)
    requires JsonIsLonger(c) && HasTag(cfg) && HasTag(back)
    requires HeadSays(c, cfg, said) && HeadSays(c, back, again)
    requires LoraEntries(c, back) != [] <==> "enable-lora" in said
    requires LoraModules(back) == if LORA in said then ParseModules(c, said[LORA]) else []
    ensures AgreeOn(LORA, said, again) <==>
              (LORA in said ==> forall i :: 0 <= i < |said[LORA]| ==> PlainPath(c, said[LORA][i]))
  {
    if LORA in said {
      var args := said[LORA];
      if PathTexts(ParseModules(c, args)) == args {
        KeptPathsArePlain(c, args);
      }
      if forall i :: 0 <= i < |args| ==> PlainPath(c, args[i]) {
        PlainPathsAreKept(c, args);
      }
    }
  }

  lemma LineKeptExactly(c: Codec, cfg: Config)
    requires Lawful(c) && JsonIsLonger(c) && Printable(c, cfg) && HasTag(Back(c, cfg))
    ensures SaidLine(c, Back(c, cfg)) == SaidLine(c, cfg) <==> Faithful(c, SaidLine(c, cfg))
  {
    if Faithful(c, SaidLine(c, cfg)) {
      FaithfulIsKept(c, cfg);
    }
    if SaidLine(c, Back(c, cfg)) == SaidLine(c, cfg) {
      SameHead(c, cfg);
      AddressSaid(c, cfg);
      forall f | f in SaidLine(c, cfg) && !HeadFlag(f)
        ensures Stable(c, SaidLine(c, cfg)[f])
      {
        KeptIsStable(c, cfg, f);
      }
    }
  }

  lemma FaithfulIsKept(c: Codec, cfg: Config)
    requires Lawful(c) && JsonIsLonger(c) && Printable(c, cfg) && HasTag(Back(c, cfg)) && Faithful(c, SaidLine(c, cfg))
    ensures SaidLine(c, Back(c, cfg)) == SaidLine(c, cfg)
  {
    var said, again := SaidLine(c, cfg), SaidLine(c, Back(c, cfg));
    SameHead(c, cfg);
    forall f
      ensures AgreeOn(f, said, again)
    {
      if !HeadFlag(f) { FaithfulFlag(c, cfg, f); }
    }
    SameLines(said, again);
  }

  lemma SameLines(said: Line, again: Line)
    requires forall f :: AgreeOn(f, said, again)
    ensures again == said
  {
    forall f
      ensures f in again <==> f in said
      ensures f in said ==> again[f] == said[f]
    {
      assert AgreeOn(f, said, again);
    }
  }

  /** The defaults the parser fills in are printed. */
  lemma DefaultIsPrinted(c: Codec, cfg: Config, k: string, v: Value, t: string)
    requires Printable(c, cfg) && HasTag(Back(c, cfg)) && !SkipKey(k) && (v == Text(t) || v == Num(t))
    requires BackValue(c, Tag(cfg), SaidLine(c, cfg), k) == Some(v)
    ensures FlagOf(k) in SaidLine(c, Back(c, cfg))
  {
    AgainHas(c, cfg, k, v);
  }

  lemma AddressValue(c: Codec, tag: string, said: Line)
    ensures "host" !in said ==> BackValue(c, tag, said, "host") == Some(Text("localhost"))
    ensures "port" !in said ==> BackValue(c, tag, said, "port") == Some(Num(DEFAULT_PORT))
  {
    Spellings();
    assert "host"[0] == 'h' && "port"[0] == 'p' && "lora_modules"[0] == 'l' && "enable_lora"[0] == 'e';
  }

  lemma AddressSaid(c: Codec, cfg: Config)
    requires Printable(c, cfg) && HasTag(Back(c, cfg)) && SaidLine(c, Back(c, cfg)) == SaidLine(c, cfg)
    ensures "host" in SaidLine(c, cfg) && "port" in SaidLine(c, cfg)
  {
    NeutralSpellings();
    AddressValue(c, Tag(cfg), SaidLine(c, cfg));
    if "host" !in SaidLine(c, cfg) {
      DefaultIsPrinted(c, cfg, "host", Text("localhost"), "localhost");
    }
    if "port" !in SaidLine(c, cfg) {
      DefaultIsPrinted(c, cfg, "port", Num(DEFAULT_PORT), DEFAULT_PORT);
    }
  }

  lemma KeptIsStable(c: Codec, cfg: Config, f: string)
    requires Lawful(c) && Printable(c, cfg) && HasTag(Back(c, cfg)) && SaidLine(c, Back(c, cfg)) == SaidLine(c, cfg)
    requires f in SaidLine(c, cfg) && !HeadFlag(f)
    ensures Stable(c, SaidLine(c, cfg)[f])
  {
    SaidNames(c, cfg);
    var k, v := AgainFrom(c, cfg, f);
    ValueShape(c, Tag(cfg), SaidLine(c, cfg), k, v);
    NeutralSpellings();
    StableExactly(c, k, SaidLine(c, cfg)[f]);
  }

  // ---- The trip -----------------------------------------------------------------------------------

  /** Printing, parsing and printing again gives the same command: every flag, the model's
      path among them, with the same arguments. */
  ghost predicate RoundTrips(c: Codec, cfg: Config)
    requires HasTag(cfg)
  {
    var again := CliArgs(c, Back(c, cfg));
    again.Some? && FlagMap(again.value) == FlagMap(CliArgs(c, cfg).value)
  }

  lemma ReadIsLegible(c: Codec, k: string, args: seq<string>)
    requires Lawful(c)
    ensures Legible(Printed(k, ReadArgs(c, args)))
  {
    if args != [] && IsFlag(args[0]) {
      FlagDash(args[0]);
    }
  }

  lemma DefaultsAreNoFlags()
    ensures !IsFlag("localhost") && !IsFlag(DEFAULT_PORT)
  {
    assert "localhost"[0] == 'l' && DEFAULT_PORT[0] == '3';
  }

  lemma ItemIsLegible(c: Codec, cfg: Config, k: string, v: Value)
    requires Lawful(c) && Printable(c, cfg) && BackValue(c, Tag(cfg), SaidLine(c, cfg), k) == Some(v) && !SkipKey(k)
    ensures Legible(Printed(k, v))
  {
    SaidNames(c, cfg);
    ValueShape(c, Tag(cfg), SaidLine(c, cfg), k, v);
    if FlagOf(k) in SaidLine(c, cfg) && v == ReadArgs(c, SaidLine(c, cfg)[FlagOf(k)]) {
      ReadIsLegible(c, k, SaidLine(c, cfg)[FlagOf(k)]);
    } else {
      DefaultsAreNoFlags();
    }
  }

  lemma ItemsAreLegible(c: Codec, cfg: Config)
    requires Lawful(c) && Printable(c, cfg)
    ensures Legible(PrintAll(ItemPrinter(), Back(c, cfg)))
  {
    var back := Back(c, cfg);
    var es := PrintAll(ItemPrinter(), back);
    forall i, n | 0 <= i < |es| && 0 <= n < |es[i].args|
      ensures !IsFlag(es[i].args[n])
    {
      PrinterIsSingle();
      var j := PrintedFrom(ItemPrinter(), back, i);
      assert Printed(back[j].0, back[j].1) == [es[i]];
      BackKeys(c, cfg, j);
      ItemIsLegible(c, cfg, back[j].0, back[j].1);
      assert [es[i]][0] == es[i];
    }
  }

  /** Of what is printed again, only a LoRA path can turn into a flag: by losing leading blanks. */
  lemma OnlyPathsAreIllegible(c: Codec, cfg: Config)
    requires Lawful(c) && Printable(c, cfg) && HasTag(Back(c, cfg))
    requires Tag(Back(c, cfg)) == Served(Back(c, cfg)) == Tag(cfg)
    requires var texts := PathTexts(LoraModules(Back(c, cfg)));
             forall j :: 0 <= j < |texts| ==> !IsFlag(texts[j])
    ensures Legible(Said(c, Back(c, cfg)))
  {
    ItemsAreLegible(c, cfg);
    if IsFlag(Tag(cfg)) {
      FlagDash(Tag(cfg));
    }
    var head := HeadEntries(c, Back(c, cfg));
    forall i, n | 0 <= i < |head| && 0 <= n < |head[i].args|
      ensures !IsFlag(head[i].args[n])
    {
      HeadIsHead(c, Back(c, cfg), i);
    }
    LegibleSum(head, PrintAll(ItemPrinter(), Back(c, cfg)));
  }

  lemma LegibleSum(a: seq<Entry>, b: seq<Entry>)
    requires Legible(a) && Legible(b)
    ensures Legible(a + b)
  {
  }

  lemma {:induction false} ArgIsToken(es: seq<Entry>, i: nat, n: nat) returns (p: nat)
    requires i < |es| && n < |es[i].args|
    ensures p < |Flat(es)| && Flat(es)[p] == es[i].args[n]
  {
    if i == 0 {
      p := n + 1;
    } else {
      p := ArgIsToken(es[1..], i - 1, n);
      p := |Tokens(es[0])| + p;
    }
  }

  lemma {:induction false} FlagIsEntry(ts: seq<string>, i: nat, p: nat) returns (m: nat)
    requires i <= p < |ts| && IsFlag(ts[p])
    ensures m < |EntriesFrom(ts, i)| && EntriesFrom(ts, i)[m].name == ts[p][2..]
    decreases p - i
  {
    if i == p {
      m := 0;
    } else if !IsFlag(ts[i]) {
      m := FlagIsEntry(ts, i + 1, p);
    } else {
      m := FlagIsEntry(ts, NextFlag(ts, i + 1), p);
      m := m + 1;
    }
  }

  lemma {:induction false} PathHasEquals(ms: seq<Module>, j: nat)
    requires j < |PathTexts(ms)| && IsFlag(PathTexts(ms)[j])
    ensures '=' in PathTexts(ms)[j][2..]
  {
    var front := ms[..|ms| - 1];
    if j < |PathTexts(front)| {
      PathHasEquals(front, j);
    } else {
      var name := ms[|ms| - 1]["name"].value;
      var t := PathTexts(ms)[j];
      assert t[|name|] == '=';
      assert t[0] == '-' && t[1] == '-' by { assert t[..2] == "--"; }
      assert t[2..][|name| - 2] == '=';
    }
  }

  /** An argument that looks like a flag is read as one. */
  lemma FlagInLine(es: seq<Entry>, i: nat, n: nat)
    requires i < |es| && n < |es[i].args| && IsFlag(es[i].args[n])
    ensures es[i].args[n][2..] in FlagMap(Flat(es))
  {
    var p := ArgIsToken(es, i, n);
    var m := FlagIsEntry(Flat(es), 0, p);
    LastWinsHas(Entries(Flat(es)), m);
  }

  lemma PathsEntry(c: Codec, cfg: Config)
    requires HasTag(cfg) && LoraEntries(c, cfg) != [] && PathTexts(LoraModules(cfg)) != []
    ensures |Said(c, cfg)| > 4 && Said(c, cfg)[4] == Entry(LORA, PathTexts(LoraModules(cfg)))
  {
    assert LoraEntries(c, cfg)[1] == Entry(LORA, PathTexts(LoraModules(cfg)));
  }

  /** If one does, the second command has a flag the first one does not have. */
  lemma IllegiblePathShows(c: Codec, cfg: Config, j: nat)
    requires Printable(c, cfg) && HasTag(Back(c, cfg)) && LoraEntries(c, Back(c, cfg)) != []
    requires j < |PathTexts(LoraModules(Back(c, cfg)))| && IsFlag(PathTexts(LoraModules(Back(c, cfg)))[j])
    ensures FlagMap(CliArgs(c, Back(c, cfg)).value) != SaidLine(c, cfg)
  {
    var t := PathTexts(LoraModules(Back(c, cfg)))[j];
    PathsEntry(c, Back(c, cfg));
    FlagInLine(Said(c, Back(c, cfg)), 4, j);
    PathHasEquals(LoraModules(Back(c, cfg)), j);
    SaidNames(c, cfg);
    if t[2..] in SaidLine(c, cfg) {
      NamesSaid(Said(c, cfg), t[2..]);
    }
  }

  lemma LineOfArgs(c: Codec, cfg: Config)
    requires HasTag(cfg) && Legible(Said(c, cfg))
    ensures FlagMap(CliArgs(c, cfg).value) == SaidLine(c, cfg)
  {
    EntriesOfFlat([], Said(c, cfg));
    assert [] + Flat(Said(c, cfg)) == Flat(Said(c, cfg));
  }

  lemma FaithfulPathsAreLegible(c: Codec, cfg: Config, j: nat)
    requires JsonIsLonger(c) && Printable(c, cfg) && HasTag(Back(c, cfg)) && Faithful(c, SaidLine(c, cfg))
    requires LoraModules(Back(c, cfg))
          == if LORA in SaidLine(c, cfg) then ParseModules(c, SaidLine(c, cfg)[LORA]) else []
    requires j < |PathTexts(LoraModules(Back(c, cfg)))|
    ensures !IsFlag(PathTexts(LoraModules(Back(c, cfg)))[j])
  {
    var said := SaidLine(c, cfg);
    assert PathTexts([]) == [];
    PlainPathsAreKept(c, said[LORA]);
    var i := LastWinsSource(Said(c, cfg), LORA);
    assert Said(c, cfg)[i].args[j] == said[LORA][j];
  }

  /** A command survives the trip if and only if its flags are faithful. */
  lemma RoundTripExactly(c: Codec, cfg: Config)
    requires Lawful(c) && JsonIsLonger(c) && Printable(c, cfg)
    ensures RoundTrips(c, cfg) <==> Faithful(c, FlagMap(CliArgs(c, cfg).value))
  {
    BackHead(c, cfg);
    LineOfArgs(c, cfg);
    SaidNames(c, cfg);
    var back := Back(c, cfg);
    var texts := PathTexts(LoraModules(back));
    if j: nat :| j < |texts| && IsFlag(texts[j]) {
      assert LORA in SaidLine(c, cfg) by { assert PathTexts([]) == []; }
      IllegiblePathShows(c, cfg, j);
      if Faithful(c, SaidLine(c, cfg)) {
        FaithfulPathsAreLegible(c, cfg, j);
      }
    } else {
      OnlyPathsAreIllegible(c, cfg);
      LineOfArgs(c, back);
      LineKeptExactly(c, cfg);
    }
  }

  // ---- What is lost, and that it can be ---------------------------------------------------------

  /** Every command whose served name is not its model loses the name. */
  lemma ServedNameIsLost(c: Codec, cfg: Config)
    requires Lawful(c) && JsonIsLonger(c) && Printable(c, cfg) && Served(cfg) != Tag(cfg)
    ensures !RoundTrips(c, cfg)
  {
    KeysFreeIsHeadFree(cfg);
    HeadLine(c, cfg);
    LineOfArgs(c, cfg);
    RoundTripExactly(c, cfg);
  }

  /** A launch with an address and a served name. */
  function ServedAs(tag: string, name: string): Config {
    [("model_tag", Text(tag)), ("served_model_name", Text(name)),
     ("host", Text("localhost")), ("port", Num(DEFAULT_PORT))]
  }

  lemma PlainIsLegible(c: Codec, cfg: Config)
    requires HasTag(cfg) && !IsFlag(Tag(cfg)) && !IsFlag(Served(cfg)) && LoraModules(cfg) == []
    requires forall i :: 0 <= i < |cfg| ==> (cfg[i].1.Num? || cfg[i].1.Text?) && !IsFlag(cfg[i].1.text)
    ensures Legible(Said(c, cfg))
  {
    PrinterIsSingle();
    var es, n := Said(c, cfg), |HeadEntries(c, cfg)|;
    forall i, k | 0 <= i < |es| && 0 <= k < |es[i].args| ensures !IsFlag(es[i].args[k]) {
      if i < n {
        assert es[i] == HeadEntries(c, cfg)[i];
        HeadIsHead(c, cfg, i);
        assert PathTexts([]) == [];
      } else {
        var j := PrintedFrom(ItemPrinter(), cfg, i - n);
        assert es[i] == PrintAll(ItemPrinter(), cfg)[i - n];
      }
    }
  }

  predicate PlainKey(k: string) {
    '-' !in k && '=' !in k && k != "model_path" && k != "lora_paths" && k != "lora_modules"
  }

  lemma PlainKeys()
    ensures PlainKey("model_tag") && PlainKey("served_model_name") && PlainKey("host") && PlainKey("port")
  {
    assert |"model_tag"| == 9 && |"lora_modules"| == 12 && |"served_model_name"| == 17;
    assert |"model_path"| == |"lora_paths"| == 10;
  }

  lemma KeysDiffer(i: nat, j: nat)
    requires i < j < 4
    ensures ServedAs("", "")[i].0 != ServedAs("", "")[j].0
  {
    assert |"host"| == |"port"| == 4 && "host"[0] == 'h' && "port"[0] == 'p';
    assert |"model_tag"| == 9 && |"served_model_name"| == 17;
  }

  /** A dict of plain keys and texts, with a tag that reads as text, is printable. */
  lemma PlainIsPrintable(c: Codec, cfg: Config)
    requires UniqueKeys(cfg) && HasTag(cfg) && !IsFlag(Served(cfg))
    requires !StartsWith(Tag(cfg), "-") && Coerce(c, Tag(cfg)) == Text(Tag(cfg))
    requires forall i :: 0 <= i < |cfg| ==>
               PlainKey(cfg[i].0) && (cfg[i].1.Num? || cfg[i].1.Text?) && !IsFlag(cfg[i].1.text)
    ensures Printable(c, cfg)
  {
    AbsentIsNone(cfg, "lora_modules");
    PlainIsLegible(c, cfg);
  }

  lemma ServedAsIsPrintable(c: Codec, tag: string, name: string)
    requires tag != "" && !StartsWith(tag, "-") && Coerce(c, tag) == Text(tag) && name != "" && !IsFlag(name)
    ensures Printable(c, ServedAs(tag, name)) && Tag(ServedAs(tag, name)) == tag && Served(ServedAs(tag, name)) == name
  {
    var cfg := ServedAs(tag, name);
    forall i, j | 0 <= i < j < 4 ensures cfg[i].0 != cfg[j].0 {
      assert cfg[i].0 == ServedAs("", "")[i].0 && cfg[j].0 == ServedAs("", "")[j].0;
      KeysDiffer(i, j);
    }
    PlainKeys();
    DefaultsAreNoFlags();
    FindsItem(cfg, 0);
    FindsItem(cfg, 1);
    PlainIsPrintable(c, cfg);
  }

  /** Such commands exist, for every model that reads as text and every other name. */
  lemma LossyCommandsExist(c: Codec, tag: string, name: string)
    requires Lawful(c) && JsonIsLonger(c)
    requires tag != "" && !StartsWith(tag, "-") && Coerce(c, tag) == Text(tag) && name != "" && !IsFlag(name)
    requires name != tag
    ensures Printable(c, ServedAs(tag, name)) && !RoundTrips(c, ServedAs(tag, name))
  {
    ServedAsIsPrintable(c, tag, name);
    ServedNameIsLost(c, ServedAs(tag, name));
  }
}
