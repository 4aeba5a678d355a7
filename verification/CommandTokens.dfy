/**
  The tokens of a launch command told item by item, without the printers: what run of tokens
  each item of a configuration is given, for either engine.
 */
module CommandTokens {
  import opened Options
  import opened Dicts
  import opened Cli

  function Concat(runs: seq<seq<string>>): seq<string> {
    if runs == [] then [] else Concat(runs[..|runs| - 1]) + runs[|runs| - 1]
  }

  /** The run stands somewhere among the tokens. */
  ghost predicate Shows(ts: seq<string>, run: seq<string>) {
    exists p: nat :: p + |run| <= |ts| && Stands(ts, p, run)
  }

  ghost predicate Stands(ts: seq<string>, p: nat, run: seq<string>)
    requires p + |run| <= |ts|
  {
    ts[p..p + |run|] == run
  }

  lemma {:induction false} RunShows(head: seq<string>, runs: seq<seq<string>>, i: nat)
    requires i < |runs|
    ensures Shows(head + Concat(runs), runs[i])
  {
    var n := |runs| - 1;
    var ts, before := head + Concat(runs), head + Concat(runs[..n]);
    assert ts == before + runs[n];
    if i == n {
      assert Stands(ts, |before|, runs[n]);
    } else {
      RunShows(head, runs[..n], i);
      var p: nat :| p + |runs[i]| <= |before| && Stands(before, p, runs[i]);
      assert ts[p..p + |runs[i]|] == before[p..p + |runs[i]|];
      assert Stands(ts, p, runs[i]);
    }
  }

  // ---- LoRA modules ---------------------------------------------------------------------------

  /** The places `at` pick those elements of a list that `keep` keeps, in order. */
  ghost predicate Picks<T(!new)>(ms: seq<T>, keep: T -> bool, at: seq<nat>) {
    && (forall n :: 0 <= n < |at| ==> at[n] < |ms| && keep(ms[at[n]]))
    && (forall n, o :: 0 <= n < o < |at| ==> at[n] < at[o])
    && (forall i :: 0 <= i < |ms| && keep(ms[i]) ==> i in at)
  }

  ghost function HasName(): Module -> bool {
    (m: Module) => "name" in m && m["name"].Some? && m["name"].value != ""
  }

  ghost function HasBoth(): Module -> bool {
    (m: Module) => && "name" in m && m["name"].Some? && m["name"].value != ""
                   && "path" in m && m["path"].Some? && m["path"].value != ""
  }

  /** One text per module that is kept, in order: text(m) of each. */
  ghost predicate Texts(ms: seq<Module>, keep: Module -> bool, text: Module -> string, texts: seq<string>) {
    exists at :: Picks(ms, keep, at) && TextsAt(ms, text, texts, at)
  }

  ghost predicate TextsAt(ms: seq<Module>, text: Module -> string, texts: seq<string>, at: seq<nat>) {
    |texts| == |at| && forall n :: 0 <= n < |at| ==> at[n] < |ms| && texts[n] == text(ms[at[n]])
  }

  /** The JSON text of a module's fields that are not null. */
  ghost function JsonText(c: Codec): Module -> string {
    (m: Module) => c.dump(map k | k in m && m[k].Some? :: m[k].value)
  }

  ghost function PathText(): Module -> string {
    (m: Module) => if HasBoth()(m) then m["name"].value + "=" + m["path"].value else ""
  }

  lemma TextsMore(ms: seq<Module>, keep: Module -> bool, text: Module -> string, texts: seq<string>)
    requires ms != [] && Texts(ms[..|ms| - 1], keep, text, texts)
    ensures var m := ms[|ms| - 1]; Texts(ms, keep, text, if keep(m) then texts + [text(m)] else texts)
  {
    var last := |ms| - 1;
    var at :| Picks(ms[..last], keep, at) && TextsAt(ms[..last], text, texts, at);
    PicksMore(ms, keep, at);
    TextsAtMore(ms, text, texts, at);
    var more := if keep(ms[last]) then at + [last] else at;
    assert TextsAt(ms, text, if keep(ms[last]) then texts + [text(ms[last])] else texts, more);
  }

  lemma TextsAtMore(ms: seq<Module>, text: Module -> string, texts: seq<string>, at: seq<nat>)
    requires ms != [] && TextsAt(ms[..|ms| - 1], text, texts, at)
    ensures TextsAt(ms, text, texts, at) && TextsAt(ms, text, texts + [text(ms[|ms| - 1])], at + [|ms| - 1])
  {
    forall n | 0 <= n < |at| ensures at[n] < |ms| && texts[n] == text(ms[at[n]]) {
      assert ms[..|ms| - 1][at[n]] == ms[at[n]];
    }
  }

  lemma PicksMore<T(!new)>(ms: seq<T>, keep: T -> bool, at: seq<nat>)
    requires ms != [] && Picks(ms[..|ms| - 1], keep, at)
    ensures Picks(ms, keep, if keep(ms[|ms| - 1]) then at + [|ms| - 1] else at)
  {
    var last := |ms| - 1;
    var more := if keep(ms[last]) then at + [last] else at;
    forall i | 0 <= i < |ms| && keep(ms[i]) ensures i in more {
      if i < last { assert ms[..last][i] == ms[i]; }
    }
  }

  // ---- vLLM -----------------------------------------------------------------------------------

  /** What an item is given: nothing if it is null or not for the command line; a flag with its
      value; a flag alone for True and its negation for False; one JSON text for a list or a
      dict; and for LoRA modules the flag with their texts, if there are any. */
  ghost predicate VllmRun(c: Codec, k: string, v: Value, run: seq<string>) {
    var flag := "--" + Kebab(k);
    if k in {"model_tag", "allow_runtime_lora", "routing_strategy", "kind", "engine"} then run == []
    else match v
      case Null => run == []
      case Bool(b) => run == [if b then flag else "--no-" + Kebab(k)]
      case Num(t) => run == [flag, t]
      case Text(t) => run == [flag, t]
      case List(_, json) => run == [flag, json]
      case Object(json, _) => run == [flag, json]
      case Modules(ms) =>
        exists texts :: Texts(ms, HasName(), JsonText(c), texts) && run == if texts == [] then [] else [flag] + texts
  }

  /** A vLLM command: "serve", the tag, and the runs of the items in order, the LoRA headroom
      after them if LoRA is on and the configuration has no max_loras. */
  ghost predicate VllmTokens(c: Codec, cfg: Config, args: seq<string>, runs: seq<seq<string>>) {
    var lora, tag := Find(cfg, "enable_lora"), Find(cfg, "model_tag");
    var headroom := lora.Some? && Truthy(c, lora.value) && Find(cfg, "max_loras").None?;
    var items := cfg + if headroom then [("max_loras", Num("4"))] else [];
    && |runs| == |items| && (forall i :: 0 <= i < |items| ==> VllmRun(c, items[i].0, items[i].1, runs[i]))
    && tag.Some? && tag.value.Text? && args == ["serve", tag.value.text] + Concat(runs)
  }

  /** So every item stands in the command as it should, whatever else the configuration holds. */
  lemma VllmItemShows(c: Codec, cfg: Config, args: seq<string>, runs: seq<seq<string>>, i: nat)
    requires VllmTokens(c, cfg, args, runs) && i < |cfg|
    requires cfg[i].0 !in {"model_tag", "allow_runtime_lora", "routing_strategy", "kind", "engine"}
    ensures var (k, v) := cfg[i];
            var flag := "--" + Kebab(k);
            && (v.Bool? ==> Shows(args, [if v.b then flag else "--no-" + Kebab(k)]))
            && (v.Num? || v.Text? ==> Shows(args, [flag, v.text]))
            && (v.List? || v.Object? ==> Shows(args, [flag, v.json]))
            && (v.Modules? ==>
                  exists texts ::
                    Texts(v.modules, HasName(), JsonText(c), texts) && (texts != [] ==> Shows(args, [flag] + texts)))
  {
    RunShows(["serve", Find(cfg, "model_tag").value.text], runs, i);
    assert VllmRun(c, cfg[i].0, cfg[i].1, runs[i]);
  }

  // ---- SGLang ---------------------------------------------------------------------------------

  /** SGLang's name for a flag. */
  ghost function SglangFlag(k: string): string {
    if k == "max_model_len" then "--context-length"
    else if k == "gpu_memory_utilization" then "--mem-fraction-static"
    else if k == "tensor_parallel_size" then "--tp-size"
    else "--" + Kebab(k)
  }

  /** As for vLLM, but that False and LoRA modules are given nothing, and a list its items. */
  ghost predicate SglangRun(k: string, v: Value, run: seq<string>) {
    var flag := SglangFlag(k);
    if k in {"model_tag", "served_model_name", "id", "cuda_device", "enable_lora", "lora_modules", "enable_metrics",
             "allow_runtime_lora", "routing_strategy", "kind", "engine"} then run == []
    else match v
      case Null => run == []
      case Bool(b) => run == if b then [flag] else []
      case Num(t) => run == [flag, t]
      case Text(t) => run == [flag, t]
      case List(items, _) => run == [flag] + items
      case Object(json, _) => run == [flag, json]
      case Modules(_) => run == []
  }

  /** The model, the name it is served by, and metrics. */
  ghost predicate SglangFront(cfg: Config, front: seq<string>) {
    var tag, served := Find(cfg, "model_tag"), Find(cfg, "served_model_name");
    var named := served.Some? && served.value.Text? && served.value.text != "";
    && tag.Some? && tag.value.Text?
    && front == ["--model-path", tag.value.text]
                + ["--served-model-name", if named then served.value.text else tag.value.text]
                + ["--enable-metrics"]
  }

  /** LoRA is on if the configuration says so or has modules; then come the paths of those that
      have a name and a path, if any. */
  ghost predicate SglangLora(c: Codec, cfg: Config, lora: seq<string>) {
    var enabled, runtime, ms := Find(cfg, "enable_lora"), Find(cfg, "allow_runtime_lora"), Find(cfg, "lora_modules");
    var modules := if ms.Some? && ms.value.Modules? then ms.value.modules else [];
    var on := || (enabled.Some? && Truthy(c, enabled.value))
              || (runtime.Some? && Truthy(c, runtime.value))
              || modules != [];
    if on then exists paths :: Texts(modules, HasBoth(), PathText(), paths) && SglangPaths(paths, lora)
    else lora == []
  }

  ghost predicate SglangPaths(paths: seq<string>, lora: seq<string>) {
    lora == if paths == [] then ["--enable-lora"] else ["--enable-lora"] + (["--lora-paths"] + paths)
  }

  /** A SGLang command: the front, LoRA, and the runs of the items in order. */
  ghost predicate SglangTokens(c: Codec, cfg: Config, args: seq<string>, front: seq<string>, lora: seq<string>,
                               runs: seq<seq<string>>) {
    && |runs| == |cfg| && (forall i :: 0 <= i < |cfg| ==> SglangRun(cfg[i].0, cfg[i].1, runs[i]))
    && SglangFront(cfg, front) && SglangLora(c, cfg, lora) && args == front + lora + Concat(runs)
  }

  lemma SglangItemShows(c: Codec, cfg: Config, args: seq<string>, front: seq<string>, lora: seq<string>,
                        runs: seq<seq<string>>, i: nat)
    requires SglangTokens(c, cfg, args, front, lora, runs) && i < |cfg|
    requires cfg[i].0 !in {"model_tag", "served_model_name", "id", "cuda_device", "enable_lora", "lora_modules",
                           "enable_metrics", "allow_runtime_lora", "routing_strategy", "kind", "engine"}
    ensures var (k, v) := cfg[i];
            var flag := SglangFlag(k);
            && (v.Bool? && v.b ==> Shows(args, [flag]))
            && (v.Num? || v.Text? ==> Shows(args, [flag, v.text]))
            && (v.List? ==> Shows(args, [flag] + v.items))
            && (v.Object? ==> Shows(args, [flag, v.json]))
  {
    RunShows(front + lora, runs, i);
    assert SglangRun(cfg[i].0, cfg[i].1, runs[i]);
  }
}
