/** The groups a requested model may be served by: it, then its fallbacks. */
module RouteChain {
  import opened Options
  import opened Dicts

  datatype Engine = Engine(tag: Option<string>, loras: seq<string>, kind: string, fallback: seq<string>)

  datatype Target = Target(routeKey: string, engine: Engine, forwardName: string, isLora: bool, kind: string)

  type Config = Dict<Engine>

  /** The first group that serves an adapter of that name. */
  function FirstWithLora(c: Config, name: string): Option<Target> {
    if c == [] then None
    else if name in c[0].1.loras then Some(Target(c[0].0, c[0].1, name, true, c[0].1.kind))
    else FirstWithLora(c[1..], name)
  }

  function Resolve(c: Config, requested: string): Option<Target> {
    match Find(c, requested)
    case Some(engine) =>
      Some(Target(requested, engine, if engine.tag.Some? then engine.tag.value else requested, false, engine.kind))
    case None => FirstWithLora(c, requested)
  }

  method ResolveModel(c: Config, requested: string) returns (t: Option<Target>)
    requires UniqueKeys(c)
    ensures t == Resolve(c, requested)
  {
    var engine := Find(c, requested);
    if engine.Some? {
      var e := engine.value;
      return Some(Target(requested, e, if e.tag.Some? then e.tag.value else requested, false, e.kind));
    }
    for i := 0 to |c|
      invariant FirstWithLora(c, requested) == FirstWithLora(c[i..], requested)
    {
      for j := 0 to |c[i].1.loras|
        invariant requested !in c[i].1.loras[..j]
      {
        if c[i].1.loras[j] == requested {
          return Some(Target(c[i].0, c[i].1, requested, true, c[i].1.kind));
        }
      }
      assert c[i].1.loras == c[i].1.loras[..|c[i].1.loras|];
      assert c[i..][1..] == c[i + 1..];
    }
    return None;
  }

  /** The target a fallback may add: one that resolves and serves the kind of the primary. */
  function Usable(c: Config, primary: Target, name: string): Option<Target> {
    var t := Resolve(c, name);
    if t.None? || t.value.kind != primary.kind then None else t
  }

  function Fallbacks(c: Config, primary: Target): seq<string> {
    var e := Find(c, primary.routeKey);
    if e.Some? then e.value.fallback else []
  }

  /** The targets that the names from the i-th on add to a chain. */
  function Chained(c: Config, primary: Target, names: seq<string>, seen: set<string>, i: nat): seq<Target>
    requires i <= |names|
    decreases |names| - i
  {
    if i == |names| then []
    else
      var t := Usable(c, primary, names[i]);
      if names[i] in seen || t.None? then Chained(c, primary, names, seen, i + 1)
      else [t.value] + Chained(c, primary, names, seen + {t.value.routeKey}, i + 1)
  }

  function Chain(c: Config, primary: Target): seq<Target> {
    [primary] + Chained(c, primary, Fallbacks(c, primary), {primary.routeKey}, 0)
  }

  method BuildRouteChain(c: Config, primary: Target) returns (chain: seq<Target>)
    requires UniqueKeys(c)
    ensures chain == Chain(c, primary)
  {
    chain := [primary];
    var seen := {primary.routeKey};
    var engine := Find(c, primary.routeKey);
    var names := if engine.Some? then engine.value.fallback else [];
    for i := 0 to |names|
      invariant chain + Chained(c, primary, names, seen, i) == Chain(c, primary)
    {
      if names[i] !in seen {
        var target := ResolveModel(c, names[i]);
        if target.Some? && target.value.kind == primary.kind {
          assert (chain + [target.value]) + Chained(c, primary, names, seen + {target.value.routeKey}, i + 1)
              == chain + Chained(c, primary, names, seen, i);
          seen := seen + {target.value.routeKey};
          chain := chain + [target.value];
        }
      }
    }
  }

  // ---- Which fallbacks are in a chain -----------------------------------------------------------

  /** The targets that the chosen of the names lead to, in the order of the names. */
  ghost predicate InOrder(c: Config, names: seq<string>, i: nat, chosen: seq<nat>, ts: seq<Target>) {
    && |chosen| == |ts|
    && (forall n :: 0 <= n < |chosen| ==> i <= chosen[n] < |names| && Resolve(c, names[chosen[n]]) == Some(ts[n]))
    && (forall m, n :: 0 <= m < n < |chosen| ==> chosen[m] < chosen[n])
  }

  /** Name j resolves to a target of the kind, and is not the group of a target before it. */
  ghost predicate Adds(c: Config, names: seq<string>, kind: string, seen: set<string>, chosen: seq<nat>,
                       ts: seq<Target>, j: nat)
    requires j < |names| && |chosen| == |ts|
  {
    var t := Resolve(c, names[j]);
    t.Some? && t.value.kind == kind && names[j] !in seen && !AddedBefore(chosen, ts, j, names[j])
  }

  ghost predicate AddedBefore(chosen: seq<nat>, ts: seq<Target>, j: nat, group: string)
    requires |chosen| == |ts|
  {
    exists n :: 0 <= n < |chosen| && chosen[n] < j && ts[n].routeKey == group
  }

  lemma OrderOneMore(c: Config, names: seq<string>, i: nat, chosen: seq<nat>, ts: seq<Target>, t: Target)
    requires i < |names| && Resolve(c, names[i]) == Some(t) && InOrder(c, names, i + 1, chosen, ts)
    ensures InOrder(c, names, i, [i] + chosen, [t] + ts)
  {
  }

  /** Beyond i it is the same whether the target of i is listed or known. */
  lemma AddedOneMore(i: nat, chosen: seq<nat>, ts: seq<Target>, t: Target, j: nat, group: string)
    requires i < j && |chosen| == |ts|
    ensures AddedBefore([i] + chosen, [t] + ts, j, group) <==> t.routeKey == group || AddedBefore(chosen, ts, j, group)
  {
    var chosen', ts' := [i] + chosen, [t] + ts;
    if AddedBefore(chosen, ts, j, group) {
      var n :| 0 <= n < |chosen| && chosen[n] < j && ts[n].routeKey == group;
      assert chosen'[n + 1] < j && ts'[n + 1].routeKey == group;
    }
    assert chosen'[0] < j && ts'[0] == t;
  }

  lemma {:induction false} ChainedInOrder(c: Config, primary: Target, names: seq<string>, seen: set<string>, i: nat)
    returns (chosen: seq<nat>)
    requires i <= |names|
    ensures var ts := Chained(c, primary, names, seen, i);
            && InOrder(c, names, i, chosen, ts)
            && forall j :: i <= j < |names| ==> (j in chosen <==> Adds(c, names, primary.kind, seen, chosen, ts, j))
    decreases |names| - i
  {
    if i == |names| {
      chosen := [];
    } else {
      var t := Usable(c, primary, names[i]);
      if names[i] in seen || t.None? {
        chosen := ChainedInOrder(c, primary, names, seen, i + 1);
      } else {
        var now := seen + {t.value.routeKey};
        var rest := ChainedInOrder(c, primary, names, now, i + 1);
        var more := Chained(c, primary, names, now, i + 1);
        chosen := [i] + rest;
        OrderOneMore(c, names, i, rest, more, t.value);
        forall j | i < j < |names|
          ensures j in chosen <==> Adds(c, names, primary.kind, seen, chosen, [t.value] + more, j)
        {
          AddedOneMore(i, rest, more, t.value, j, names[j]);
        }
      }
    }
  }

  /** A chain is the primary target, then those of its group's fallbacks in the order of the list:
      a fallback is in it if and only if it resolves to a group of the primary's kind and is not
      the name of the primary's group or of a group that a fallback before it added. */
  lemma ChainIsExactly(c: Config, primary: Target) returns (chosen: seq<nat>)
    ensures var own := Find(c, primary.routeKey);
            var names := if own.Some? then own.value.fallback else [];
            var chain := Chain(c, primary);
            && chain != [] && chain[0] == primary && InOrder(c, names, 0, chosen, chain[1..])
            && forall j :: 0 <= j < |names| ==>
                 (j in chosen <==> Adds(c, names, primary.kind, {primary.routeKey}, chosen, chain[1..], j))
  {
    chosen := ChainedInOrder(c, primary, Fallbacks(c, primary), {primary.routeKey}, 0);
  }

  // ---- Are the groups of a chain distinct? ------------------------------------------------------

  ghost predicate Distinct(ts: seq<Target>) {
    forall i, j :: 0 <= i < j < |ts| ==> ts[i].routeKey != ts[j].routeKey
  }

  /** The groups that the names before the i-th lead to, and that of the primary. */
  ghost function Known(c: Config, primary: Target, names: seq<string>, i: nat): set<string>
    requires i <= |names|
  {
    {primary.routeKey}
    + set j | 0 <= j < i && Usable(c, primary, names[j]).Some? :: Usable(c, primary, names[j]).value.routeKey
  }

  /** Fallback i is the name of an adapter of a group the chain leads to anyway. */
  ghost predicate Doubles(c: Config, primary: Target, names: seq<string>, i: nat)
    requires i < |names|
  {
    var t := Usable(c, primary, names[i]);
    t.Some? && t.value.isLora && t.value.routeKey in Known(c, primary, names, i)
  }

  lemma {:induction false} LoraIsOfAGroup(c: Config, name: string)
    requires UniqueKeys(c)
    ensures var t := FirstWithLora(c, name);
            t.Some? ==>
              && t.value.isLora && t.value.kind == t.value.engine.kind
              && Find(c, t.value.routeKey) == Some(t.value.engine)
  {
    if c != [] && name !in c[0].1.loras {
      LoraIsOfAGroup(c[1..], name);
      var t := FirstWithLora(c[1..], name);
      if t.Some? {
        var n := FoundAt(c[1..], t.value.routeKey);
        assert c[n + 1].0 != c[0].0;
      }
    }
  }

  /** A group's own name comes before any adapter's and is rewritten to its tag; an adapter keeps
      its name and routes over the first group that serves it; nothing else resolves. */
  lemma ResolveMeans(c: Config, requested: string, i: nat)
    requires UniqueKeys(c) && i < |c|
    ensures var t := Resolve(c, requested);
            && (c[i].0 == requested ==>
                  t.Some? && t.value.routeKey == requested && t.value.engine == c[i].1 && !t.value.isLora
                  && t.value.forwardName == if c[i].1.tag.Some? then c[i].1.tag.value else requested)
            && (requested in c[i].1.loras && (forall j :: 0 <= j < |c| ==> c[j].0 != requested)
                && (forall j :: 0 <= j < i ==> requested !in c[j].1.loras) ==>
                  && t.Some? && t.value.routeKey == c[i].0 && t.value.engine == c[i].1
                  && t.value.isLora && t.value.forwardName == requested)
            && (t.Some? ==> exists j :: 0 <= j < |c| && (c[j].0 == requested || requested in c[j].1.loras))
  {
    if Find(c, requested).Some? {
      var n := FoundAt(c, requested);
      assert n != i ==> c[n].0 != c[i].0;
    } else {
      if c[i].0 == requested { FindsItem(c, i); }
      if FirstWithLora(c, requested).Some? {
        var j := LoraIsServed(c, requested);
      }
      if requested in c[i].1.loras && forall j :: 0 <= j < i ==> requested !in c[j].1.loras {
        LoraIsFirst(c, requested, i);
      }
    }
  }

  lemma {:induction false} LoraIsFirst(c: Config, name: string, i: nat)
    requires i < |c| && name in c[i].1.loras && forall j :: 0 <= j < i ==> name !in c[j].1.loras
    ensures FirstWithLora(c, name) == Some(Target(c[i].0, c[i].1, name, true, c[i].1.kind))
  {
    if i > 0 {
      LoraIsFirst(c[1..], name, i - 1);
    }
  }

  lemma {:induction false} LoraIsServed(c: Config, name: string) returns (j: nat)
    requires FirstWithLora(c, name).Some?
    ensures j < |c| && name in c[j].1.loras
  {
    if name in c[0].1.loras {
      j := 0;
    } else {
      j := LoraIsServed(c[1..], name);
      j := j + 1;
    }
  }

  /** A known name is that of a group, and leads to that group. */
  lemma KnownAreGroups(c: Config, primary: Target, requested: string, names: seq<string>, i: nat, k: string)
    requires UniqueKeys(c) && Resolve(c, requested) == Some(primary)
    requires i <= |names| && k in Known(c, primary, names, i)
    ensures Find(c, k).Some?
  {
    LoraIsOfAGroup(c, requested);
    if k != primary.routeKey {
      var j :| 0 <= j < i && Usable(c, primary, names[j]).Some? && Usable(c, primary, names[j]).value.routeKey == k;
      LoraIsOfAGroup(c, names[j]);
    }
  }

  lemma KnownGrows(c: Config, primary: Target, names: seq<string>, i: nat)
    requires i < |names|
    ensures var t := Usable(c, primary, names[i]);
            Known(c, primary, names, i + 1) == Known(c, primary, names, i) + if t.Some? then {t.value.routeKey} else {}
  {
    var t := Usable(c, primary, names[i]);
    forall k | k in Known(c, primary, names, i + 1) && k != primary.routeKey
      ensures k in Known(c, primary, names, i) || (t.Some? && k == t.value.routeKey)
    {
      var j :| 0 <= j < i + 1 && Usable(c, primary, names[j]).Some? && Usable(c, primary, names[j]).value.routeKey == k;
      assert j == i || j < i;
    }
  }

  /** All of ts lead to groups outside `known`, and no two to the same. */
  ghost predicate AllNew(ts: seq<Target>, known: set<string>) {
    Distinct(ts) && forall m :: 0 <= m < |ts| ==> ts[m].routeKey !in known
  }

  lemma AllNewOneMore(t: Target, ts: seq<Target>, known: set<string>)
    ensures AllNew([t] + ts, known) <==> t.routeKey !in known && AllNew(ts, known + {t.routeKey})
  {
    var all := [t] + ts;
    assert all[1..] == ts;
    if AllNew(all, known) {
      forall m | 0 <= m < |ts| ensures ts[m].routeKey !in known + {t.routeKey} {
        assert ts[m] == all[m + 1] && all[0] == t;
      }
      forall i, j | 0 <= i < j < |ts| ensures ts[i].routeKey != ts[j].routeKey {
        assert ts[i] == all[i + 1] && ts[j] == all[j + 1];
      }
      assert all[0].routeKey !in known;
    }
  }

  lemma {:induction false} AddsNewKeysExactly(c: Config, primary: Target, requested: string, names: seq<string>, i: nat)
    requires UniqueKeys(c) && Resolve(c, requested) == Some(primary) && i <= |names|
    ensures AllNew(Chained(c, primary, names, Known(c, primary, names, i), i), Known(c, primary, names, i))
       <==> forall j :: i <= j < |names| ==> !Doubles(c, primary, names, j)
    decreases |names| - i
  {
    if i < |names| {
      AddsNewKeysExactly(c, primary, requested, names, i + 1);
      KnownGrows(c, primary, names, i);
      var known, t := Known(c, primary, names, i), Usable(c, primary, names[i]);
      if names[i] in known {
        KnownAreGroups(c, primary, requested, names, i, names[i]);
        assert Known(c, primary, names, i + 1) == known;
      } else if t.Some? {
        AllNewOneMore(t.value, Chained(c, primary, names, known + {t.value.routeKey}, i + 1), known);
        LoraIsOfAGroup(c, names[i]);
        assert Known(c, primary, names, i + 1) == known + {t.value.routeKey};
        assert Doubles(c, primary, names, i) <==> t.value.routeKey in known;
      } else {
        assert Known(c, primary, names, i + 1) == known;
      }
    }
  }

  /** The groups of a chain are distinct if and only if no fallback names an adapter of a
      group the chain leads to anyway. */
  lemma ChainIsDistinctExactly(c: Config, requested: string, primary: Target)
    requires UniqueKeys(c) && Resolve(c, requested) == Some(primary)
    ensures var names := Fallbacks(c, primary);
            Distinct(Chain(c, primary)) <==> forall i :: 0 <= i < |names| ==> !Doubles(c, primary, names, i)
  {
    var names := Fallbacks(c, primary);
    assert Known(c, primary, names, 0) == {primary.routeKey};
    AddsNewKeysExactly(c, primary, requested, names, 0);
    var ts := Chained(c, primary, names, {primary.routeKey}, 0);
    AllNewOneMore(primary, ts, {});
    assert {} + {primary.routeKey} == {primary.routeKey};
  }

  /** For any group and adapter: falling back to an adapter of its own doubles the group. */
  lemma AFallbackToItsOwnAdapterDoubles(group: string, adapter: string, kind: string)
    requires group != adapter
    ensures var c: Config := [(group, Engine(None, [adapter], kind, [adapter]))];
            UniqueKeys(c) && Resolve(c, group).Some? && !Distinct(Chain(c, Resolve(c, group).value))
  {
    var c: Config := [(group, Engine(None, [adapter], kind, [adapter]))];
    var primary := Resolve(c, group).value;
    assert Fallbacks(c, primary) == [adapter];
    assert Find(c[1..], adapter).None? && Find(c, adapter).None?;
    assert Usable(c, primary, adapter) == FirstWithLora(c, adapter);
    assert Doubles(c, primary, [adapter], 0);
    ChainIsDistinctExactly(c, group, primary);
  }

  /** So they are when the fallbacks are names of groups. */
  lemma GroupFallbacksAreDistinct(c: Config, requested: string, primary: Target)
    requires UniqueKeys(c) && Resolve(c, requested) == Some(primary)
    requires forall n :: n in Fallbacks(c, primary) ==> Find(c, n).Some?
    ensures Distinct(Chain(c, primary))
  {
    var names := Fallbacks(c, primary);
    forall i | 0 <= i < |names| ensures !Doubles(c, primary, names, i) {
      assert names[i] in names;
    }
    ChainIsDistinctExactly(c, requested, primary);
  }

  /** Every target of a chain serves the primary's kind, and routes over the group it names. */
  lemma {:induction false} TargetsServeTheKind(c: Config, primary: Target, names: seq<string>, seen: set<string>,
                                               i: nat, t: Target)
    requires UniqueKeys(c) && i <= |names| && t in Chained(c, primary, names, seen, i)
    ensures t.kind == primary.kind == t.engine.kind && Find(c, t.routeKey) == Some(t.engine)
    ensures exists j :: i <= j < |names| && names[j] !in seen && Resolve(c, names[j]) == Some(t)
    decreases |names| - i
  {
    var u := Usable(c, primary, names[i]);
    if names[i] in seen || u.None? {
      TargetsServeTheKind(c, primary, names, seen, i + 1, t);
    } else if t == u.value {
      LoraIsOfAGroup(c, names[i]);
    } else {
      TargetsServeTheKind(c, primary, names, seen + {u.value.routeKey}, i + 1, t);
    }
  }
}
