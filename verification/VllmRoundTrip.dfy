/**
  What a `vllm serve` command keeps when it is parsed and printed again: exactly the
  commands whose every value is printed the way it is read.

  The proof follows the trip. A configuration is printed as a list of entries, whose last
  ones win: its line. Parsing the printed tokens gives those entries back, so that what
  comes back, key by key, is a function of the line alone (`BackFind`). Printing that again
  says a flag only if the line said it, the address, or the LoRA headroom (`ItemShape`).

  The two directions of the theorem are then about one flag at a time: a faithful line is
  said again with the same arguments (`FaithfulIsKept`), and a line said again the same is
  faithful (`KeptIsFaithful`). The last part gives the commands that are not kept.
 */
module VllmRoundTrip {
  import opened Options
  import opened Dicts
  import opened Cli
  import opened CliLookup
  import opened VllmCommand

  // ---- Spellings ---------------------------------------------------------------------

  lemma Spellings()
    ensures Kebab("host") == "host" && Kebab("port") == "port" && Kebab("max_loras") == "max-loras"
    ensures Kebab("lora_modules") == LORA && Kebab("model_tag") == "model-tag"
    ensures Kebab("served_model_name") == "served-model-name"
    ensures Snake(LORA) == "lora_modules" && Snake("served-model-name") == "served_model_name"
    ensures Snake("model-tag") == "model_tag"
  {
  }

  lemma AddressNotSkipped()
    ensures !SkipKey("host") && !SkipKey("port") && !SkipKey("max_loras") && !SkipKey("lora_modules")
  {
    assert "host"[0] == 'h' && "port"[0] == 'p' && "max_loras"[1] == 'a' && "lora_modules"[0] == 'l';
  }

  // ---- The printed line ---------------------------------------------------------------

  /** A configuration as the launcher hands it to the printer: a dict with snake_case keys,
      a tag that is not itself an option, and no value that reads as a flag. */
  ghost predicate Printable(c: Codec, cfg: Config) {
    && Typed(cfg) && UniqueKeys(cfg)
    && HasTag(cfg) && !StartsWith(Tag(cfg), "-")
    && (forall i :: 0 <= i < |cfg| ==> '-' !in cfg[i].0 && '=' !in cfg[i].0)
    && Legible(Said(c, cfg))
  }

  function SaidLine(c: Codec, cfg: Config): Line { LastWins(Said(c, cfg)) }

  lemma NegatedName(k: string)
    requires '-' !in k
    ensures Snake("no-" + Kebab(k)) == "no_" + k
    ensures '_' !in "no-" + Kebab(k)
  {
    KebabChars(k);
    SnakeOfKebab(k);
    assert Snake("no-" + Kebab(k)) == Snake("no-") + Snake(Kebab(k));
    assert Snake("no-") == "no_";
  }

  lemma NegatedNotSkipped(k: string)
    ensures !SkipKey("no_" + k) && "no_" + k != "lora_modules"
  {
    var n := "no_" + k;
    assert n[0] == 'n' && n[1] == 'o';
    assert "model_tag"[0] == 'm' && "allow_runtime_lora"[0] == 'a' && "routing_strategy"[0] == 'r';
    assert "kind"[0] == 'k' && "engine"[0] == 'e' && "lora_modules"[0] == 'l';
  }

  /** A printed flag is a kebab-cased key, negated or not, that is not withheld. */
  lemma ItemName(c: Codec, k: string, v: Value, e: Entry)
    requires '-' !in k && '=' !in k && Printed(c, k, v) == [e]
    ensures '_' !in e.name && '=' !in e.name && !SkipKey(Snake(e.name))
    ensures e.name == LORA ==> k == "lora_modules" && e.name == Kebab(k)
  {
    if v.Bool? && !v.b {
      NegatedName(k);
      NegatedNotSkipped(k);
      KebabChars(k);
      assert Snake(LORA) == "lora_modules";
    } else {
      KebabChars(k);
      SnakeOfKebab(k);
      assert Snake(LORA) == "lora_modules";
    }
  }

  /** The item a printed flag comes from. */
  lemma SaidSource(c: Codec, cfg: Config, i: nat) returns (k: string, v: Value)
    requires Printable(c, cfg) && i < |Said(c, cfg)|
    ensures '-' !in k && '=' !in k && (k == "lora_modules" ==> v.Modules?) && Printed(c, k, v) == [Said(c, cfg)[i]]
  {
    var all := WithMaxLoras(c, cfg);
    PrinterIsSingle(c);
    var j := PrintedFrom(ItemPrinter(c), all, i);
    k, v := all[j].0, all[j].1;
    if j < |cfg| {
      assert all[j] == cfg[j];
    } else {
      MaxLorasKey();
    }
  }

  lemma SaidName(c: Codec, cfg: Config, i: nat)
    requires Printable(c, cfg) && i < |Said(c, cfg)|
    ensures var e := Said(c, cfg)[i];
            && '_' !in e.name && '=' !in e.name && !SkipKey(Snake(e.name))
            && (e.name == LORA ==> exists ms :: e.args == ModuleTexts(c, ms) && e.args != [])
  {
    var k, v := SaidSource(c, cfg, i);
    ItemName(c, k, v, Said(c, cfg)[i]);
    if k == "lora_modules" {
      assert Said(c, cfg)[i].args == ModuleTexts(c, v.modules);
    }
  }

  lemma SaidNames(c: Codec, cfg: Config)
    requires Printable(c, cfg)
    ensures PlainNames(Said(c, cfg))
    ensures forall f :: f in SaidLine(c, cfg) ==> !SkipKey(Snake(f))
    ensures LORA in SaidLine(c, cfg) ==>
              exists ms :: SaidLine(c, cfg)[LORA] == ModuleTexts(c, ms) && ModuleTexts(c, ms) != []
  {
    forall i | 0 <= i < |Said(c, cfg)|
      ensures '_' !in Said(c, cfg)[i].name && '=' !in Said(c, cfg)[i].name
    {
      SaidName(c, cfg, i);
    }
    forall f | f in SaidLine(c, cfg)
      ensures !SkipKey(Snake(f))
      ensures f == LORA ==> exists ms :: SaidLine(c, cfg)[LORA] == ModuleTexts(c, ms) && ModuleTexts(c, ms) != []
    {
      var i := LastWinsSource(Said(c, cfg), f);
      SaidName(c, cfg, i);
    }
  }

  // ---- LoRA modules -------------------------------------------------------------------

  lemma {:induction false} TextsRead(c: Codec, ms: seq<Module>)
    requires Lawful(c)
    ensures ModuleTexts(c, ParseModules(c, ModuleTexts(c, ms))) == ModuleTexts(c, ms)
  {
    if ms != [] {
      var front := ms[..|ms| - 1];
      var m := ms[|ms| - 1];
      TextsRead(c, front);
      if Named(m) {
        var t := c.dump(DropNulls(m));
        var read := ParseModules(c, ModuleTexts(c, ms));
        assert read[..|read| - 1] == ParseModules(c, ModuleTexts(c, front));
        assert ModuleTexts(c, ms)[|read| - 1] == t;
        assert read[|read| - 1] == ParseModule(c, t);
        assert ParseModule(c, t) == c.load(t).value;
        assert c.dump(DropNulls(c.load(t).value)) == t;
      } else {
        assert ModuleTexts(c, ms) == ModuleTexts(c, front);
      }
    }
  }

  // ---- The configuration that comes back ------------------------------------------------

  function Back(c: Codec, cfg: Config): Config
    requires HasTag(cfg)
  {
    Relaunched(Parse(c, ["vllm"] + CliArgs(c, cfg).value))
  }

  /** Back(cfg).get(k), in terms of what the command line said. */
  function BackValue(c: Codec, tag: string, said: Line, k: string): Option<Value> {
    var v := NormValue(c, LORA, false, said, k);
    if k == "host" then Some(OrElse(v, Text("localhost")))
    else if k == "port" then Some(OrElse(v, Num(DEFAULT_PORT)))
    else if k == "served_model_name" then None
    else if k == "model_tag" then Some(OrElse(v, Text(tag)))
    else v
  }

  lemma SplitsOff(c: Codec, cfg: Config)
    requires HasTag(cfg) && !StartsWith(Tag(cfg), "-")
    ensures SplitTag(["vllm"] + CliArgs(c, cfg).value) == (Some(Tag(cfg)), Flat(Said(c, cfg)))
  {
    var tag := Tag(cfg);
    var ts := ["vllm"] + CliArgs(c, cfg).value;
    assert ts[0] == "vllm" && ts[1] == "serve" && ts[2] == tag;
    assert "vllm" != "serve" by { assert "vllm"[0] != "serve"[0]; }
    assert IndexOfToken(ts, "serve") == 1;
    assert ts[2..][0] == tag && ts[2..][1..] == Flat(Said(c, cfg));
  }

  /** What the parser makes of the printed line. */
  lemma ParsedIs(c: Codec, cfg: Config)
    requires Printable(c, cfg)
    ensures var norm := Norm(Flags(c, LORA, false, Said(c, cfg)));
            var tag := Find(cfg, "model_tag").value;
            Parse(c, ["vllm"] + CliArgs(c, cfg).value) ==
              Parsed(tag, OrElse(Find(norm, "host"), Text("localhost")), OrElse(Find(norm, "port"), Num(DEFAULT_PORT)),
                     Update([("model_tag", tag)], Peeled(norm)))
  {
    var es := Said(c, cfg);
    SplitsOff(c, cfg);
    EntriesOfFlat([], es);
    assert [] + Flat(es) == Flat(es);
  }

  lemma BackFind(c: Codec, cfg: Config, k: string)
    requires Printable(c, cfg)
    ensures UniqueKeys(Back(c, cfg))
    ensures Find(Back(c, cfg), k) == BackValue(c, Tag(cfg), SaidLine(c, cfg), k)
  {
    var tag := Find(cfg, "model_tag").value;
    var norm := Norm(Flags(c, LORA, false, Said(c, cfg)));
    ParsedIs(c, cfg);
    SaidNames(c, cfg);
    ParsedFind(c, LORA, false, Said(c, cfg), k);
    ParsedFind(c, LORA, false, Said(c, cfg), "host");
    ParsedFind(c, LORA, false, Said(c, cfg), "port");
    PeeledFind(norm, k);
    OwnFind("model_tag", tag, k);
    RelaunchedFind([("model_tag", tag)], Parse(c, ["vllm"] + CliArgs(c, cfg).value), Peeled(norm), k);
  }

  // ---- The line printed again -------------------------------------------------------------

  /** The items the second printing works from. */
  ghost predicate BackItem(c: Codec, cfg: Config, k: string, v: Value)
    requires HasTag(cfg)
  {
    || BackValue(c, Tag(cfg), SaidLine(c, cfg), k) == Some(v)
    || (k == "max_loras" && v == Num(DEFAULT_MAX_LORAS) && NeedsMaxLoras(c, Back(c, cfg)))
  }

  lemma PrinterIsSingle(c: Codec)
    ensures OneEach(ItemPrinter(c))
  {
  }

  lemma AgainFrom(c: Codec, cfg: Config, i: nat) returns (k: string, v: Value)
    requires Printable(c, cfg) && i < |Said(c, Back(c, cfg))|
    ensures BackItem(c, cfg, k, v) && Printed(c, k, v) == [Said(c, Back(c, cfg))[i]]
  {
    var back := Back(c, cfg);
    var all := WithMaxLoras(c, back);
    PrinterIsSingle(c);
    var j := PrintedFrom(ItemPrinter(c), all, i);
    k, v := all[j].0, all[j].1;
    BackFind(c, cfg, k);
    if j < |back| {
      FindsItem(back, j);
    }
  }

  lemma AgainHas(c: Codec, cfg: Config, k: string, v: Value)
    requires Printable(c, cfg) && BackItem(c, cfg, k, v) && Printed(c, k, v) != []
    ensures Printed(c, k, v)[0].name in SaidLine(c, Back(c, cfg))
  {
    var back := Back(c, cfg);
    var all := WithMaxLoras(c, back);
    BackFind(c, cfg, k);
    var j;
    if Find(back, k) == Some(v) {
      j := FoundAt(back, k);
    } else {
      j := |back|;
    }
    assert all[j] == (k, v);
    var i := PrintedHas(ItemPrinter(c), all, j);
    LastWinsHas(Said(c, back), i);
  }

  /** Reading a flag's arguments and printing the value gives them back exactly when they are stable. */
  lemma StableExactly(c: Codec, k: string, args: seq<string>)
    requires Lawful(c) && !SkipKey(k)
    ensures Printed(c, k, ReadArgs(c, args)) == [Entry(Kebab(k), args)] <==> Stable(c, args)
  {
    if args != [] && !StartsWith(args[0], "-") && !BoolWord(args[0]) {
      assert args == [args[0]] <==> |args| == 1;
    }
  }

  lemma ValueShape(c: Codec, tag: string, said: Line, k: string, v: Value)
    requires BackValue(c, tag, said, k) == Some(v)
    ensures '-' !in k && k != "served_model_name"
    ensures || (k == "lora_modules" && LORA in said && v == Modules(ParseModules(c, said[LORA])))
            || (k != "lora_modules" && Kebab(k) in said && v == ReadArgs(c, said[Kebab(k)]))
            || (k == "host" && "host" !in said && v == Text("localhost"))
            || (k == "port" && "port" !in said && v == Num(DEFAULT_PORT))
            || k == "model_tag"
  {
    Spellings();
  }

  lemma MaxLorasKey()
    ensures '-' !in "max_loras" && "max_loras" != "served_model_name"
  {
    assert "max_loras"[0] == 'm' && "served_model_name"[0] == 's';
  }

  lemma ItemShape(c: Codec, cfg: Config, k: string, v: Value)
    requires Printable(c, cfg) && BackItem(c, cfg, k, v)
    ensures '-' !in k && k != "served_model_name"
    ensures var said := SaidLine(c, cfg);
            || (k == "lora_modules" && LORA in said && v == Modules(ParseModules(c, said[LORA])))
            || (k != "lora_modules" && Kebab(k) in said && v == ReadArgs(c, said[Kebab(k)]))
            || (k == "host" && "host" !in said && v == Text("localhost"))
            || (k == "port" && "port" !in said && v == Num(DEFAULT_PORT))
            || k == "model_tag"
            || (k == "max_loras" && v == Num(DEFAULT_MAX_LORAS) && NeedsMaxLoras(c, Back(c, cfg)))
  {
    if BackValue(c, Tag(cfg), SaidLine(c, cfg), k) == Some(v) {
      ValueShape(c, Tag(cfg), SaidLine(c, cfg), k, v);
    } else {
      MaxLorasKey();
    }
  }

  /** The flags to be kept: each value stable, the instance's address there, no served name
      (the parser drops it), and no LoRA headroom left for the second printing to add. */
  predicate Faithful(c: Codec, said: Line) {
    && "host" in said && "port" in said && "served-model-name" !in said
    && (forall f :: f in said && f != LORA ==> Stable(c, said[f]))
    && ("enable-lora" in said && Truthy(c, ReadArgs(c, said["enable-lora"])) ==> "max-loras" in said)
  }

  lemma BackOfLoraOptions(c: Codec, tag: string, said: Line)
    ensures BackValue(c, tag, said, "enable_lora") ==
              if "enable-lora" in said then Some(ReadArgs(c, said["enable-lora"])) else None
    ensures BackValue(c, tag, said, "max_loras") ==
              if "max-loras" in said then Some(ReadArgs(c, said["max-loras"])) else None
  {
    assert Kebab("enable_lora") == "enable-lora" && Kebab("max_loras") == "max-loras";
    assert "enable_lora"[0] == 'e' && "max_loras"[1] == 'a';
  }

  lemma NeedsExactly(c: Codec, cfg: Config)
    requires Printable(c, cfg)
    ensures var said := SaidLine(c, cfg);
            NeedsMaxLoras(c, Back(c, cfg)) <==>
              "enable-lora" in said && Truthy(c, ReadArgs(c, said["enable-lora"])) && "max-loras" !in said
  {
    BackFind(c, cfg, "enable_lora");
    BackFind(c, cfg, "max_loras");
    BackOfLoraOptions(c, Tag(cfg), SaidLine(c, cfg));
  }

  lemma PrintedModules(c: Codec, k: string, ms: seq<Module>)
    requires !SkipKey(k)
    ensures Printed(c, k, Modules(ms)) == if ModuleTexts(c, ms) == [] then [] else [Entry(Kebab(k), ModuleTexts(c, ms))]
  {
  }

  lemma TextsPrintedAgain(c: Codec, k: string, ms: seq<Module>)
    requires Lawful(c) && ModuleTexts(c, ms) != [] && !SkipKey(k)
    ensures Printed(c, k, Modules(ParseModules(c, ModuleTexts(c, ms)))) == [Entry(Kebab(k), ModuleTexts(c, ms))]
  {
    var texts := ModuleTexts(c, ms);
    TextsRead(c, ms);
    assert ModuleTexts(c, ParseModules(c, texts)) == texts;
    PrintedModules(c, k, ParseModules(c, texts));
  }

  lemma LoraKept(c: Codec, cfg: Config)
    requires Lawful(c) && Printable(c, cfg) && LORA in SaidLine(c, cfg)
    ensures var args := SaidLine(c, cfg)[LORA];
            Printed(c, "lora_modules", Modules(ParseModules(c, args))) == [Entry(LORA, args)]
  {
    SaidNames(c, cfg);
    Spellings();
    AddressNotSkipped();
    var ms :| SaidLine(c, cfg)[LORA] == ModuleTexts(c, ms) && ModuleTexts(c, ms) != [];
    TextsPrintedAgain(c, "lora_modules", ms);
  }

  lemma FaithfulShape(c: Codec, cfg: Config, k: string, v: Value)
    requires Printable(c, cfg) && Faithful(c, SaidLine(c, cfg)) && BackItem(c, cfg, k, v)
    ensures '-' !in k
    ensures var said := SaidLine(c, cfg);
            || (k == "lora_modules" && LORA in said && v == Modules(ParseModules(c, said[LORA])))
            || (k != "lora_modules" && Kebab(k) in said && v == ReadArgs(c, said[Kebab(k)]))
            || SkipKey(k)
  {
    ItemShape(c, cfg, k, v);
    NeedsExactly(c, cfg);
  }

  lemma ReadItem(c: Codec, said: Line, k: string)
    requires Lawful(c) && Faithful(c, said) && k != "lora_modules" && '-' !in k && Kebab(k) in said && !SkipKey(k)
    ensures Printed(c, k, ReadArgs(c, said[Kebab(k)])) == [Entry(Kebab(k), said[Kebab(k)])]
  {
    SnakeOfKebab(k);
    assert Snake(LORA) == "lora_modules";
    StableExactly(c, k, said[Kebab(k)]);
  }

  lemma FaithfulItem(c: Codec, cfg: Config, k: string, v: Value)
    requires Lawful(c) && Printable(c, cfg) && Faithful(c, SaidLine(c, cfg)) && BackItem(c, cfg, k, v)
    ensures Printed(c, k, v) != [] ==>
              var f := Kebab(k); f in SaidLine(c, cfg) && Printed(c, k, v) == [Entry(f, SaidLine(c, cfg)[f])]
  {
    FaithfulShape(c, cfg, k, v);
    if SkipKey(k) {
    } else if k == "lora_modules" {
      LoraKept(c, cfg);
      assert Kebab("lora_modules") == LORA;
    } else {
      ReadItem(c, SaidLine(c, cfg), k);
    }
  }

  lemma FaithfulIsKept(c: Codec, cfg: Config)
    requires Lawful(c) && Printable(c, cfg) && Faithful(c, SaidLine(c, cfg))
    ensures SaidLine(c, Back(c, cfg)) == SaidLine(c, cfg)
  {
    var said, again := SaidLine(c, cfg), SaidLine(c, Back(c, cfg));
    forall f | f in again
      ensures f in said && again[f] == said[f]
    {
      var i := LastWinsSource(Said(c, Back(c, cfg)), f);
      var k, v := AgainFrom(c, cfg, i);
      FaithfulItem(c, cfg, k, v);
    }
    forall f | f in said
      ensures f in again
    {
      SaidIsPrintedAgain(c, cfg, f);
    }
  }

  lemma BackOfKey(c: Codec, tag: string, said: Line, k: string)
    requires '-' !in k && k != "served_model_name" && Kebab(k) in said
    ensures BackValue(c, tag, said, k) ==
              Some(if k == "lora_modules" then Modules(ParseModules(c, said[Kebab(k)]))
                   else ReadArgs(c, said[Kebab(k)]))
  {
    Spellings();
  }

  /** The value the second printing has for a flag of the first. */
  lemma SaidIsFound(c: Codec, cfg: Config, f: string) returns (k: string, v: Value)
    requires Printable(c, cfg) && f in SaidLine(c, cfg) && f != "served-model-name"
    ensures k == Snake(f) && Kebab(k) == f && !SkipKey(k) && BackItem(c, cfg, k, v)
    ensures v == if f == LORA then Modules(ParseModules(c, SaidLine(c, cfg)[f])) else ReadArgs(c, SaidLine(c, cfg)[f])
  {
    var said := SaidLine(c, cfg);
    SaidNames(c, cfg);
    NamesSaid(Said(c, cfg), f);
    KebabOfSnake(f);
    k := Snake(f);
    Spellings();
    v := if f == LORA then Modules(ParseModules(c, said[f])) else ReadArgs(c, said[f]);
    BackOfKey(c, Tag(cfg), said, k);
  }

  lemma SaidIsPrintedAgain(c: Codec, cfg: Config, f: string)
    requires Lawful(c) && Printable(c, cfg) && Faithful(c, SaidLine(c, cfg)) && f in SaidLine(c, cfg)
    ensures f in SaidLine(c, Back(c, cfg))
  {
    var k, v := SaidIsFound(c, cfg, f);
    Spellings();
    if f == LORA {
      LoraKept(c, cfg);
    } else {
      StableExactly(c, k, SaidLine(c, cfg)[f]);
    }
    AgainHas(c, cfg, k, v);
  }

  // ---- And only those ------------------------------------------------------------------------

  lemma BackOfAddress(c: Codec, tag: string, said: Line)
    ensures BackValue(c, tag, said, "host")
         == Some(if "host" in said then ReadArgs(c, said["host"]) else Text("localhost"))
    ensures BackValue(c, tag, said, "port")
         == Some(if "port" in said then ReadArgs(c, said["port"]) else Num(DEFAULT_PORT))
  {
    Spellings();
    assert "host"[0] == 'h' && "port"[0] == 'p' && Snake(LORA)[0] == 'l' && "enable_lora"[0] == 'e';
  }

  /** What a kept flag was printed from. */
  lemma KeptShape(c: Codec, cfg: Config, k: string, v: Value, f: string)
    requires Printable(c, cfg) && BackItem(c, cfg, k, v)
    requires f in SaidLine(c, cfg) && Printed(c, k, v) == [Entry(f, SaidLine(c, cfg)[f])]
    ensures '-' !in k && k != "served_model_name"
    ensures v == Bool(false) || f == Kebab(k)
    ensures v == Bool(false) || f == LORA || v == ReadArgs(c, SaidLine(c, cfg)[f])
  {
    ItemShape(c, cfg, k, v);
    NeedsExactly(c, cfg);
    Spellings();
  }

  lemma KeptEntryIsStable(c: Codec, cfg: Config, k: string, v: Value, f: string)
    requires Lawful(c) && Printable(c, cfg) && BackItem(c, cfg, k, v)
    requires f in SaidLine(c, cfg) && Printed(c, k, v) == [Entry(f, SaidLine(c, cfg)[f])]
    ensures f != LORA ==> Stable(c, SaidLine(c, cfg)[f])
    ensures f != "served-model-name"
  {
    KeptShape(c, cfg, k, v, f);
    if v == Bool(false) {
      assert f[0] == 'n' && "served-model-name"[0] == 's';
    } else {
      SnakeOfKebab(k);
      Spellings();
      if f != LORA {
        StableExactly(c, k, SaidLine(c, cfg)[f]);
      }
    }
  }

  /** The defaults the parser fills in are printed. */
  lemma DefaultIsPrinted(c: Codec, cfg: Config, k: string, v: Value, t: string)
    requires Printable(c, cfg) && !SkipKey(k) && (v == Text(t) || v == Num(t))
    requires BackValue(c, Tag(cfg), SaidLine(c, cfg), k) == Some(v)
    ensures Kebab(k) in SaidLine(c, Back(c, cfg))
  {
    AgainHas(c, cfg, k, v);
  }

  lemma AddressSaid(c: Codec, cfg: Config)
    requires Lawful(c) && Printable(c, cfg) && SaidLine(c, Back(c, cfg)) == SaidLine(c, cfg)
    ensures "host" in SaidLine(c, cfg) && "port" in SaidLine(c, cfg)
  {
    var said := SaidLine(c, cfg);
    BackOfAddress(c, Tag(cfg), said);
    Spellings();
    AddressNotSkipped();
    if "host" !in said {
      DefaultIsPrinted(c, cfg, "host", Text("localhost"), "localhost");
    }
    if "port" !in said {
      DefaultIsPrinted(c, cfg, "port", Num(DEFAULT_PORT), DEFAULT_PORT);
    }
  }

  lemma HeadroomSaid(c: Codec, cfg: Config)
    requires Lawful(c) && Printable(c, cfg) && SaidLine(c, Back(c, cfg)) == SaidLine(c, cfg)
    ensures var said := SaidLine(c, cfg);
            "enable-lora" in said && Truthy(c, ReadArgs(c, said["enable-lora"])) ==> "max-loras" in said
  {
    NeedsExactly(c, cfg);
    Spellings();
    AddressNotSkipped();
    if NeedsMaxLoras(c, Back(c, cfg)) {
      AgainHas(c, cfg, "max_loras", Num(DEFAULT_MAX_LORAS));
    }
  }

  lemma KeptIsFaithful(c: Codec, cfg: Config)
    requires Lawful(c) && Printable(c, cfg) && SaidLine(c, Back(c, cfg)) == SaidLine(c, cfg)
    ensures Faithful(c, SaidLine(c, cfg))
  {
    var said := SaidLine(c, cfg);
    AddressSaid(c, cfg);
    HeadroomSaid(c, cfg);
    forall f | f in said
      ensures f != LORA ==> Stable(c, said[f])
      ensures f != "served-model-name"
    {
      var i := LastWinsSource(Said(c, Back(c, cfg)), f);
      var k, v := AgainFrom(c, cfg, i);
      KeptEntryIsStable(c, cfg, k, v, f);
    }
  }

  // ---- The theorem -----------------------------------------------------------------------------

  lemma {:induction false} TextsAreNoFlags(c: Codec, ms: seq<Module>)
    requires Lawful(c)
    ensures forall i :: 0 <= i < |ModuleTexts(c, ms)| ==> !IsFlag(ModuleTexts(c, ms)[i])
  {
    if ms != [] {
      TextsAreNoFlags(c, ms[..|ms| - 1]);
      var m := ms[|ms| - 1];
      if Named(m) {
        var t := c.dump(DropNulls(m));
        assert t[0] == '{' by { assert t[..1] == "{"; }
      }
    }
  }

  lemma ReadIsLegible(c: Codec, args: seq<string>, k: string)
    requires Lawful(c)
    ensures Legible(Printed(c, k, ReadArgs(c, args)))
  {
    if args != [] && IsFlag(args[0]) {
      FlagDash(args[0]);
    }
  }

  lemma DefaultsAreNoFlags()
    ensures !IsFlag("localhost") && !IsFlag(DEFAULT_PORT) && !IsFlag(DEFAULT_MAX_LORAS)
  {
    assert "localhost"[0] == 'l' && DEFAULT_PORT[0] == '8' && DEFAULT_MAX_LORAS[0] == '4';
  }

  lemma TagNotPrinted()
    ensures SkipKey("model_tag")
  {
  }

  lemma ItemIsLegible(c: Codec, cfg: Config, k: string, v: Value)
    requires Lawful(c) && Printable(c, cfg) && BackItem(c, cfg, k, v)
    ensures Legible(Printed(c, k, v))
  {
    ItemShape(c, cfg, k, v);
    var said := SaidLine(c, cfg);
    if SkipKey(k) {
      assert Printed(c, k, v) == [];
    } else if v.Modules? {
      PrintedModules(c, k, v.modules);
      TextsAreNoFlags(c, v.modules);
    } else if Kebab(k) in said && v == ReadArgs(c, said[Kebab(k)]) {
      ReadIsLegible(c, said[Kebab(k)], k);
    } else {
      DefaultsAreNoFlags();
      TagNotPrinted();
    }
  }

  lemma AgainIsLegible(c: Codec, cfg: Config)
    requires Lawful(c) && Printable(c, cfg)
    ensures Legible(Said(c, Back(c, cfg)))
  {
    var es := Said(c, Back(c, cfg));
    forall i, j | 0 <= i < |es| && 0 <= j < |es[i].args|
      ensures !IsFlag(es[i].args[j])
    {
      var k, v := AgainFrom(c, cfg, i);
      ItemIsLegible(c, cfg, k, v);
      assert Printed(c, k, v)[0] == es[i];
    }
  }

  lemma BackOfTag(c: Codec, tag: string, said: Line)
    requires "model-tag" !in said
    ensures BackValue(c, tag, said, "model_tag") == Some(Text(tag))
  {
    Spellings();
    assert "model_tag"[0] == 'm' && "host"[0] == 'h' && "port"[0] == 'p' && "lora_modules"[0] == 'l';
  }

  lemma BackHasTag(c: Codec, cfg: Config)
    requires Printable(c, cfg)
    ensures HasTag(Back(c, cfg)) && Find(Back(c, cfg), "model_tag") == Find(cfg, "model_tag")
  {
    BackFind(c, cfg, "model_tag");
    SaidNames(c, cfg);
    Spellings();
    BackOfTag(c, Tag(cfg), SaidLine(c, cfg));
  }

  /** Printing, parsing and printing again gives the same command: the same model, and every
      flag with the same arguments. */
  ghost predicate RoundTrips(c: Codec, cfg: Config)
    requires HasTag(cfg)
  {
    var first := CliArgs(c, cfg).value;
    var again := CliArgs(c, Back(c, cfg));
    again.Some? && again.value[..2] == first[..2] && FlagMap(again.value[2..]) == FlagMap(first[2..])
  }

  lemma LineOfArgs(c: Codec, cfg: Config)
    requires HasTag(cfg) && Legible(Said(c, cfg))
    ensures var args := CliArgs(c, cfg).value;
            && args[..2] == ["serve", Tag(cfg)]
            && FlagMap(args[2..]) == SaidLine(c, cfg)
  {
    var args := CliArgs(c, cfg).value;
    var es := Said(c, cfg);
    assert args[2..] == Flat(es);
    EntriesOfFlat([], es);
    assert [] + Flat(es) == Flat(es);
  }

  /** A command survives the trip if and only if its flags are faithful. */
  lemma RoundTripExactly(c: Codec, cfg: Config)
    requires Lawful(c) && Printable(c, cfg)
    ensures RoundTrips(c, cfg) <==> Faithful(c, FlagMap(CliArgs(c, cfg).value[2..]))
  {
    BackHasTag(c, cfg);
    AgainIsLegible(c, cfg);
    LineOfArgs(c, cfg);
    LineOfArgs(c, Back(c, cfg));
    if Faithful(c, SaidLine(c, cfg)) {
      FaithfulIsKept(c, cfg);
    }
    if RoundTrips(c, cfg) {
      KeptIsFaithful(c, cfg);
    }
  }

  // ---- What is lost, and that it can be ---------------------------------------------------------

  /** Every command that names its served model loses the name. */
  lemma ServedNameIsLost(c: Codec, cfg: Config, i: nat, name: string)
    requires Lawful(c) && Printable(c, cfg)
    requires i < |cfg| && cfg[i] == ("served_model_name", Text(name))
    ensures !RoundTrips(c, cfg)
  {
    var all := WithMaxLoras(c, cfg);
    assert all[i] == cfg[i];
    ServedNameSpelling();
    var n := PrintedHas(ItemPrinter(c), all, i);
    LastWinsHas(Said(c, cfg), n);
    LineOfArgs(c, cfg);
    RoundTripExactly(c, cfg);
  }

  lemma ServedNameSpelling()
    ensures Kebab("served_model_name") == "served-model-name" && !SkipKey("served_model_name")
  {
    Spellings();
    assert "served_model_name"[0] == 's';
    assert "model_tag"[0] == 'm' && "allow_runtime_lora"[0] == 'a' && "routing_strategy"[0] == 'r';
    assert "kind"[0] == 'k' && "engine"[0] == 'e';
  }

  lemma LoraSpellings()
    ensures Kebab("enable_lora") == "enable-lora" && Kebab("max_loras") == "max-loras"
    ensures Snake("enable-lora") == "enable_lora" && Snake("max-loras") == "max_loras"
    ensures !SkipKey("enable_lora")
  {
    assert "enable_lora"[1] == 'n' && |"enable_lora"| == 11 && |"engine"| == 6;
    assert "model_tag"[0] == 'm' && "allow_runtime_lora"[0] == 'a' && "routing_strategy"[0] == 'r' && "kind"[0] == 'k';
  }

  /** A flag that does not begin with "no" is printed for the key it spells. */
  lemma SourceOfFlag(c: Codec, cfg: Config, f: string) returns (j: nat)
    requires Printable(c, cfg) && WithMaxLoras(c, cfg) == cfg && f in SaidLine(c, cfg)
    requires f != "" && f[0] != 'n'
    ensures j < |cfg| && cfg[j].0 == Snake(f) && Printed(c, cfg[j].0, cfg[j].1) == [Entry(f, SaidLine(c, cfg)[f])]
  {
    var i := LastWinsSource(Said(c, cfg), f);
    PrinterIsSingle(c);
    j := PrintedFrom(ItemPrinter(c), cfg, i);
    var k := cfg[j].0;
    assert ("no-" + Kebab(k))[0] == 'n';
    SnakeOfKebab(k);
  }

  lemma LoraIsSaid(c: Codec, cfg: Config, i: nat)
    requires Printable(c, cfg) && WithMaxLoras(c, cfg) == cfg
    requires i < |cfg| && cfg[i] == ("enable_lora", Bool(true))
    ensures "enable-lora" in SaidLine(c, cfg) && SaidLine(c, cfg)["enable-lora"] == []
  {
    LoraSpellings();
    assert Printed(c, "enable_lora", Bool(true)) == [Entry("enable-lora", [])];
    var n := PrintedHas(ItemPrinter(c), cfg, i);
    LastWinsHas(Said(c, cfg), n);
    assert "enable-lora"[0] == 'e';
    var j := SourceOfFlag(c, cfg, "enable-lora");
    assert cfg[j].0 == cfg[i].0;
  }

  lemma HeadroomIsNotSaid(c: Codec, cfg: Config, j: nat)
    requires Printable(c, cfg) && WithMaxLoras(c, cfg) == cfg
    requires j < |cfg| && cfg[j] == ("max_loras", Null)
    ensures "max-loras" !in SaidLine(c, cfg)
  {
    LoraSpellings();
    assert "max-loras"[0] == 'm' && Printed(c, "max_loras", Null) == [];
    if "max-loras" in SaidLine(c, cfg) {
      var i := SourceOfFlag(c, cfg, "max-loras");
    }
  }

  /** Every command with LoRA enabled and an explicit null for max_loras gains a default. */
  lemma NullHeadroomIsNotKept(c: Codec, cfg: Config, i: nat, j: nat)
    requires Lawful(c) && Printable(c, cfg)
    requires i < |cfg| && cfg[i] == ("enable_lora", Bool(true)) && j < |cfg| && cfg[j] == ("max_loras", Null)
    ensures !RoundTrips(c, cfg)
  {
    FindsItem(cfg, j);
    LoraIsSaid(c, cfg, i);
    HeadroomIsNotSaid(c, cfg, j);
    LineOfArgs(c, cfg);
    RoundTripExactly(c, cfg);
  }

  /** Plain values that are no flags print legibly. */
  lemma PlainIsLegible(c: Codec, cfg: Config)
    requires forall i :: 0 <= i < |cfg| ==> PlainValue(cfg[i].1)
    ensures Legible(Said(c, cfg))
  {
    var all := WithMaxLoras(c, cfg);
    PrinterIsSingle(c);
    forall i, k | 0 <= i < |Said(c, cfg)| && 0 <= k < |Said(c, cfg)[i].args| ensures !IsFlag(Said(c, cfg)[i].args[k]) {
      var j := PrintedFrom(ItemPrinter(c), all, i);
      assert j < |cfg| ==> all[j] == cfg[j];
      DefaultsAreNoFlags();
    }
  }

  predicate PlainValue(v: Value) {
    match v
    case Null => true
    case Bool(_) => true
    case Num(t) => !IsFlag(t)
    case Text(t) => !IsFlag(t)
    case _ => false
  }

  /** A launch with an address, LoRA enabled, and a null for its headroom. */
  function NullHeadroom(tag: string): Config {
    [("model_tag", Text(tag)), ("host", Text("localhost")), ("port", Num(DEFAULT_PORT)),
     ("enable_lora", Bool(true)), ("max_loras", Null)]
  }

  /** A launch with an address and a served name. */
  function ServedAs(tag: string, name: string): Config {
    [("model_tag", Text(tag)), ("host", Text("localhost")), ("port", Num(DEFAULT_PORT)),
     ("served_model_name", Text(name))]
  }

  predicate PlainKey(k: string) { '-' !in k && '=' !in k && k != "lora_modules" }

  lemma PlainKeys()
    ensures PlainKey("model_tag") && PlainKey("host") && PlainKey("port") && PlainKey("enable_lora")
    ensures PlainKey("max_loras") && PlainKey("served_model_name")
  {
    assert |"model_tag"| == |"max_loras"| == 9 && |"enable_lora"| == 11 && |"lora_modules"| == 12;
  }

  lemma KeysDiffer(i: nat, j: nat)
    ensures i < j < 5 ==> NullHeadroom("")[i].0 != NullHeadroom("")[j].0
    ensures i < j < 4 ==> ServedAs("", "")[i].0 != ServedAs("", "")[j].0
  {
    assert |"host"| == |"port"| == 4 && "host"[0] == 'h' && "port"[0] == 'p';
    assert |"model_tag"| == |"max_loras"| == 9 && "model_tag"[1] == 'o' && "max_loras"[1] == 'a';
    assert |"enable_lora"| == 11 && |"served_model_name"| == 17;
  }

  /** A dict of plain keys and values, with a tag that is no option, is printable. */
  lemma PlainIsPrintable(c: Codec, cfg: Config)
    requires UniqueKeys(cfg) && HasTag(cfg) && !StartsWith(Tag(cfg), "-")
    requires forall i :: 0 <= i < |cfg| ==> PlainKey(cfg[i].0) && PlainValue(cfg[i].1)
    ensures Printable(c, cfg)
  {
    PlainIsLegible(c, cfg);
  }

  lemma NullHeadroomIsPrintable(c: Codec, tag: string)
    requires tag != "" && !StartsWith(tag, "-")
    ensures Printable(c, NullHeadroom(tag))
  {
    var cfg := NullHeadroom(tag);
    forall i, j | 0 <= i < j < 5 ensures cfg[i].0 != cfg[j].0 {
      assert cfg[i].0 == NullHeadroom("")[i].0 && cfg[j].0 == NullHeadroom("")[j].0;
      KeysDiffer(i, j);
    }
    PlainKeys();
    DefaultsAreNoFlags();
    FindsItem(cfg, 0);
    PlainIsPrintable(c, cfg);
  }

  lemma ServedAsIsPrintable(c: Codec, tag: string, name: string)
    requires tag != "" && !StartsWith(tag, "-") && !IsFlag(name)
    ensures Printable(c, ServedAs(tag, name))
  {
    var cfg := ServedAs(tag, name);
    forall i, j | 0 <= i < j < 4 ensures cfg[i].0 != cfg[j].0 {
      assert cfg[i].0 == ServedAs("", "")[i].0 && cfg[j].0 == ServedAs("", "")[j].0;
      KeysDiffer(i, j);
    }
    PlainKeys();
    DefaultsAreNoFlags();
    FindsItem(cfg, 0);
    PlainIsPrintable(c, cfg);
  }

  /** Both kinds of command exist, for every model. */
  lemma LossyCommandsExist(c: Codec, tag: string, name: string)
    requires Lawful(c) && tag != "" && !StartsWith(tag, "-") && !IsFlag(name)
    ensures Printable(c, NullHeadroom(tag)) && !RoundTrips(c, NullHeadroom(tag))
    ensures Printable(c, ServedAs(tag, name)) && !RoundTrips(c, ServedAs(tag, name))
  {
    NullHeadroomIsPrintable(c, tag);
    ServedAsIsPrintable(c, tag, name);
    NullHeadroomIsNotKept(c, NullHeadroom(tag), 3, 4);
    ServedNameIsLost(c, ServedAs(tag, name), 3, name);
  }
}
