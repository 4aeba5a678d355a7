/**
  Layering the overlay of user-added models onto the configuration: the backend's loops, the
  router's, and what they compute, key by key.

  A JSON value that the merge only copies is a string. The deep copies of the original are the
  value semantics of this model.
 */
module OverlayMerge {
  import opened Options
  import opened Dicts
  import opened Sequences

  datatype Instance = Instance(id: Option<string>, body: string)

  /** A group; None is a key that is missing. */
  datatype Group = Group(settings: Option<Dict<string>>, autoscale: Option<string>, fallback: Option<string>,
                         instances: Option<seq<Instance>>, rest: string)

  datatype Model = Params(params: Dict<string>) | Plain(value: string)
  datatype Field = Models(models: Dict<Model>) | Scalar(text: string)

  type Server = Dict<Field>

  datatype Config = Config(engines: Dict<Group>, server: Option<Server>)

  // ---- Merging a dict item by item -------------------------------------------------------------

  /** for k, v in e: d[k] = f(d.get(k), k, v), from the i-th item on. */
  function MergedWith<V>(f: (Option<V>, string, V) -> V, d: Dict<V>, e: Dict<V>, i: nat): Dict<V>
    requires i <= |e|
    decreases |e| - i
  {
    if i == |e| then d else MergedWith(f, Set(d, e[i].0, f(Find(d, e[i].0), e[i].0, e[i].1)), e, i + 1)
  }

  /** Looking a key up: merged if the overlay has it, the base's otherwise. */
  lemma {:induction false} MergedFind<V>(f: (Option<V>, string, V) -> V, d: Dict<V>, e: Dict<V>, i: nat, k: string)
    requires i <= |e| && UniqueKeys(d) && UniqueKeys(e)
    ensures UniqueKeys(MergedWith(f, d, e, i))
    ensures Find(MergedWith(f, d, e, i), k)
         == match Find(e[i..], k)
            case Some(v) => Some(f(Find(d, k), k, v))
            case None => Find(d, k)
    decreases |e| - i
  {
    if i < |e| {
      var (key, v) := e[i];
      var next := Set(d, key, f(Find(d, key), key, v));
      SetKeepsUnique(d, key, f(Find(d, key), key, v));
      SetThenFind(d, key, f(Find(d, key), key, v), k);
      MergedFind(f, next, e, i + 1, k);
      assert e[i..][1..] == e[i + 1..];
      if key == k {
        AbsentIsNone(e[i + 1..], k);
      }
    }
  }

  function Keys<V>(d: Dict<V>): (ks: seq<string>)
    ensures |ks| == |d|
  {
    if d == [] then [] else [d[0].0] + Keys(d[1..])
  }

  /** The keys of e from the i-th on that d lacks, in order. */
  function NewKeys<V>(d: Dict<V>, e: Dict<V>, i: nat): seq<string>
    requires i <= |e|
    decreases |e| - i
  {
    if i == |e| then [] else (if Find(d, e[i].0).None? then [e[i].0] else []) + NewKeys(d, e, i + 1)
  }

  lemma {:induction false} SetKeys<V>(d: Dict<V>, k: string, v: V)
    ensures Keys(Set(d, k, v)) == Keys(d) + if Find(d, k).None? then [k] else []
  {
    if d == [] || d[0].0 == k {
      assert Keys(Set(d, k, v)) == [k] + Keys(if d == [] then [] else d[1..]);
    } else {
      SetKeys(d[1..], k, v);
      assert Set(d, k, v)[1..] == Set(d[1..], k, v);
    }
  }

  lemma {:induction false} NewKeysIgnore<V>(d: Dict<V>, e: Dict<V>, i: nat, k: string, v: V)
    requires i <= |e| && forall j :: i <= j < |e| ==> e[j].0 != k
    ensures NewKeys(Set(d, k, v), e, i) == NewKeys(d, e, i)
    decreases |e| - i
  {
    if i < |e| {
      SetThenFind(d, k, v, e[i].0);
      NewKeysIgnore(d, e, i + 1, k, v);
    }
  }

  /** The order of keys: the base's, then the new ones of the overlay. */
  lemma {:induction false} MergedKeys<V>(f: (Option<V>, string, V) -> V, d: Dict<V>, e: Dict<V>, i: nat)
    requires i <= |e| && UniqueKeys(e)
    ensures Keys(MergedWith(f, d, e, i)) == Keys(d) + NewKeys(d, e, i)
    decreases |e| - i
  {
    if i < |e| {
      var (key, v) := e[i];
      var merged := f(Find(d, key), key, v);
      SetKeys(d, key, merged);
      NewKeysIgnore(d, e, i + 1, key, merged);
      MergedKeys(f, Set(d, key, merged), e, i + 1);
      var one, rest := if Find(d, key).None? then [key] else [], NewKeys(d, e, i + 1);
      assert Keys(MergedWith(f, d, e, i)) == (Keys(d) + one) + rest;
      Reassociate(Keys(d), one, rest);
    }
  }

  /** Merging item v for key k into what it has been merged into already changes nothing. */
  ghost predicate Absorbs<V(!new)>(f: (Option<V>, string, V) -> V, old_: Option<V>, k: string, v: V) {
    f(Some(f(old_, k, v)), k, v) == f(old_, k, v)
  }

  lemma {:induction false} SetSame<V>(d: Dict<V>, k: string, v: V)
    requires Find(d, k) == Some(v)
    ensures Set(d, k, v) == d
  {
    if d[0].0 != k {
      SetSame(d[1..], k, v);
    }
  }

  lemma {:induction false} MergeOfMerged<V>(f: (Option<V>, string, V) -> V, m: Dict<V>, e: Dict<V>, i: nat)
    requires i <= |e|
    requires forall j :: i <= j < |e| ==>
               Find(m, e[j].0).Some? && f(Find(m, e[j].0), e[j].0, e[j].1) == Find(m, e[j].0).value
    ensures MergedWith(f, m, e, i) == m
    decreases |e| - i
  {
    if i < |e| {
      SetSame(m, e[i].0, f(Find(m, e[i].0), e[i].0, e[i].1));
      MergeOfMerged(f, m, e, i + 1);
    }
  }

  /** Merging twice is merging once if and only if each item absorbs itself. */
  lemma MergeTwiceExactly<V(!new)>(f: (Option<V>, string, V) -> V, d: Dict<V>, e: Dict<V>)
    requires UniqueKeys(d) && UniqueKeys(e)
    ensures MergedWith(f, MergedWith(f, d, e, 0), e, 0) == MergedWith(f, d, e, 0)
       <==> forall j :: 0 <= j < |e| ==> Absorbs(f, Find(d, e[j].0), e[j].0, e[j].1)
  {
    var m := MergedWith(f, d, e, 0);
    assert e[0..] == e;
    forall j | 0 <= j < |e|
      ensures var k, v := e[j].0, e[j].1;
              Find(m, k) == Some(f(Find(d, k), k, v)) && Find(MergedWith(f, m, e, 0), k) == Some(f(Find(m, k), k, v))
    {
      FindsItem(e, j);
      MergedFind(f, d, e, 0, e[j].0);
      MergedFind(f, m, e, 0, e[j].0);
    }
    if forall j :: 0 <= j < |e| ==> Absorbs(f, Find(d, e[j].0), e[j].0, e[j].1) {
      forall j | 0 <= j < |e| ensures f(Find(m, e[j].0), e[j].0, e[j].1) == Find(m, e[j].0).value {
        assert Absorbs(f, Find(d, e[j].0), e[j].0, e[j].1);
      }
      MergeOfMerged(f, m, e, 0);
    }
  }

  // ---- Instances ----------------------------------------------------------------------------------

  predicate IsLast(base: seq<Instance>, n: nat)
    requires n < |base|
  {
    forall m :: n < m < |base| ==> base[m].id != base[n].id
  }

  function LastWith(ov: seq<Instance>, id: Option<string>): Option<Instance> {
    if ov == [] then None
    else if ov[|ov| - 1].id == id then Some(ov[|ov| - 1])
    else LastWith(ov[..|ov| - 1], id)
  }

  predicate HasId(base: seq<Instance>, id: Option<string>) { exists n :: 0 <= n < |base| && base[n].id == id }

  /** The overlay's instances with ids the base lacks, in order. */
  function Strangers(base: seq<Instance>, ov: seq<Instance>): seq<Instance> {
    if ov == [] then []
    else Strangers(base, ov[..|ov| - 1]) + if HasId(base, ov[|ov| - 1].id) then [] else [ov[|ov| - 1]]
  }

  /** What stands at the n-th place of the base: the overlay's latest for its id, if it has one
      and no later place of the base has that id. */
  function InPlace(base: seq<Instance>, ov: seq<Instance>, n: nat): Instance
    requires n < |base|
  {
    if IsLast(base, n) && LastWith(ov, base[n].id).Some? then LastWith(ov, base[n].id).value else base[n]
  }

  function MergedInstances(base: seq<Instance>, ov: seq<Instance>): seq<Instance> {
    seq(|base|, n requires 0 <= n < |base| => InPlace(base, ov, n)) + Strangers(base, ov)
  }

  method MergeInstances(base: seq<Instance>, ov: seq<Instance>) returns (r: seq<Instance>)
    ensures r == MergedInstances(base, ov)
  {
    var idxById: map<Option<string>, nat> := map[];
    for n := 0 to |base|
      invariant Indexes(idxById, base[..n])
    {
      IndexesMore(idxById, base, n);
      idxById := idxById[base[n].id := n];
    }
    assert base[..|base|] == base;
    r := base;
    for i := 0 to |ov|
      invariant r == MergedInstances(base, ov[..i])
    {
      MergedOneMore(base, ov, i, idxById);
      if ov[i].id in idxById {
        r := r[idxById[ov[i].id] := ov[i]];
      } else {
        r := r + [ov[i]];
      }
    }
    assert ov[..|ov|] == ov;
  }

  /** The index holds the last place of each id. */
  ghost predicate Indexes(idx: map<Option<string>, nat>, base: seq<Instance>) {
    && (forall n :: 0 <= n < |base| ==> base[n].id in idx)
    && (forall id :: id in idx ==> idx[id] < |base| && base[idx[id]].id == id && IsLast(base, idx[id]))
  }

  lemma IndexesMore(idx: map<Option<string>, nat>, base: seq<Instance>, n: nat)
    requires n < |base| && Indexes(idx, base[..n])
    ensures Indexes(idx[base[n].id := n], base[..n + 1])
  {
    var more, b := idx[base[n].id := n], base[..n + 1];
    forall id | id in more ensures more[id] < |b| && b[more[id]].id == id && IsLast(b, more[id]) {
      if id != base[n].id {
        assert IsLast(base[..n], idx[id]);
      }
    }
  }

  lemma MergedOneMore(base: seq<Instance>, ov: seq<Instance>, i: nat, idx: map<Option<string>, nat>)
    requires i < |ov| && Indexes(idx, base)
    ensures var r, inst := MergedInstances(base, ov[..i]), ov[i];
            && (inst.id in idx ==> idx[inst.id] < |r|)
            && MergedInstances(base, ov[..i + 1]) == if inst.id in idx then r[idx[inst.id] := inst] else r + [inst]
  {
    var inst := ov[i];
    var before, after := ov[..i], ov[..i + 1];
    assert after[..i] == before && after[i] == inst;
    assert HasId(base, inst.id) <==> inst.id in idx;
    forall n | 0 <= n < |base|
      ensures InPlace(base, after, n) == if inst.id in idx && n == idx[inst.id] then inst else InPlace(base, before, n)
    {
      assert IsLast(base, n) && base[n].id == inst.id ==> n == idx[inst.id];
    }
  }

  /** The n-th instance is that of the base, unless the overlay has its id and it is the last in the
      base to have it: then it is the overlay's latest of that id. */
  ghost predicate StaysOrIsReplaced(base: seq<Instance>, ov: seq<Instance>, n: nat, now: Instance)
    requires n < |base|
  {
    if (exists i :: 0 <= i < |ov| && ov[i].id == base[n].id)
       && forall m :: n < m < |base| ==> base[m].id != base[n].id
    then exists i :: 0 <= i < |ov| && ov[i] == now && now.id == base[n].id
                     && forall j :: i < j < |ov| ==> ov[j].id != now.id
    else now == base[n]
  }

  /** The chosen are those of the overlay with an id that the base has not, each once, in order. */
  ghost predicate AreStrangers(base: seq<Instance>, ov: seq<Instance>, chosen: seq<nat>, added: seq<Instance>) {
    && |chosen| == |added|
    && (forall k :: 0 <= k < |chosen| ==> chosen[k] < |ov| && ov[chosen[k]] == added[k])
    && (forall k, l :: 0 <= k < l < |chosen| ==> chosen[k] < chosen[l])
    && forall i :: 0 <= i < |ov| ==> (i in chosen <==> IsStranger(base, ov[i]))
  }

  ghost predicate IsStranger(base: seq<Instance>, inst: Instance) {
    forall n :: 0 <= n < |base| ==> base[n].id != inst.id
  }

  lemma StrangersOneMore(base: seq<Instance>, ov: seq<Instance>, chosen: seq<nat>, added: seq<Instance>, last: Instance)
    requires AreStrangers(base, ov, chosen, added)
    ensures if IsStranger(base, last) then AreStrangers(base, ov + [last], chosen + [|ov|], added + [last])
            else AreStrangers(base, ov + [last], chosen, added)
  {
  }

  lemma {:induction false} StrangersAre(base: seq<Instance>, ov: seq<Instance>) returns (chosen: seq<nat>)
    ensures AreStrangers(base, ov, chosen, Strangers(base, ov))
  {
    chosen := [];
    if ov != [] {
      var n := |ov| - 1;
      chosen := StrangersAre(base, ov[..n]);
      StrangersOneMore(base, ov[..n], chosen, Strangers(base, ov[..n]), ov[n]);
      assert ov[..n] + [ov[n]] == ov;
      if !HasId(base, ov[n].id) {
        chosen := chosen + [n];
      }
    }
  }

  lemma {:induction false} LatestIs(ov: seq<Instance>, id: Option<string>)
    ensures var l := LastWith(ov, id);
            if l.None? then forall i :: 0 <= i < |ov| ==> ov[i].id != id
            else l.value.id == id && exists i :: 0 <= i < |ov| && ov[i] == l.value
                                                 && forall j :: i < j < |ov| ==> ov[j].id != id
  {
    if ov != [] && ov[|ov| - 1].id != id {
      var n := |ov| - 1;
      LatestIs(ov[..n], id);
      assert forall i :: 0 <= i < n ==> ov[..n][i] == ov[i];
      var l := LastWith(ov, id);
      if l.Some? {
        var i :| 0 <= i < n && ov[..n][i] == l.value && forall j :: i < j < n ==> ov[..n][j].id != id;
        assert ov[i] == l.value && forall j :: i < j < |ov| ==> ov[j].id != id;
      }
    }
  }

  /** Merged instances are the base's, place by place, some replaced, then the overlay's own. */
  lemma MergedInstancesAre(base: seq<Instance>, ov: seq<Instance>) returns (chosen: seq<nat>)
    ensures var m := MergedInstances(base, ov);
            && |m| >= |base| && (forall n :: 0 <= n < |base| ==> StaysOrIsReplaced(base, ov, n, m[n]))
            && AreStrangers(base, ov, chosen, m[|base|..])
  {
    var m := MergedInstances(base, ov);
    forall n | 0 <= n < |base| ensures StaysOrIsReplaced(base, ov, n, m[n]) {
      LatestIs(ov, base[n].id);
      assert m[n] == InPlace(base, ov, n);
    }
    chosen := StrangersAre(base, ov);
    assert m[|base|..] == Strangers(base, ov);
  }

  // ---- Groups -------------------------------------------------------------------------------------

  function OrEmpty<T>(o: Option<seq<T>>): seq<T> { if o.Some? then o.value else [] }

  function Replaced<V>(old_: Option<V>, k: string, v: V): V { v }

  function Updated<V>(d: Dict<V>, e: Dict<V>): Dict<V> { MergedWith(Replaced<V>, d, e, 0) }

  /** What a group of the base becomes under the overlay's entry. */
  function MergedGroup(b: Group, e: Group): Group {
    Group(if OrEmpty(e.settings) != [] then Some(Updated(OrEmpty(b.settings), e.settings.value)) else b.settings,
          if e.autoscale.Some? then e.autoscale else b.autoscale,
          if e.fallback.Some? then e.fallback else b.fallback,
          Some(MergedInstances(OrEmpty(b.instances), OrEmpty(e.instances))),
          b.rest)
  }

  function LayeredGroup(old_: Option<Group>, name: string, entry: Group): Group {
    if old_.None? then entry else MergedGroup(old_.value, entry)
  }

  /** The engines of the merged configuration. */
  function MergedEngines(base: Dict<Group>, ov: Dict<Group>): Dict<Group> { MergedWith(LayeredGroup, base, ov, 0) }

  method UpdateDict<V>(d: Dict<V>, e: Dict<V>) returns (r: Dict<V>)
    ensures r == Updated(d, e)
  {
    r := d;
    for i := 0 to |e|
      invariant MergedWith(Replaced<V>, r, e, i) == Updated(d, e)
    {
      r := Set(r, e[i].0, e[i].1);
    }
  }

  // ---- The backend's merge ------------------------------------------------------------------------

  method BackendMergeInto(base: Config, overlay: Config) returns (merged: Config, raised: bool)
    requires overlay.server.Some? ==> UniqueKeys(overlay.server.value)
    ensures raised <==>
              && overlay.server.Some? && base.server.Some? && base.server.value != []
              && exists j :: 0 <= j < |overlay.server.value| &&
                   var (key, val) := overlay.server.value[j];
                   var was := Find(base.server.value, key);
                   && (key == "embedding_models" || key == "reranking_models") && val.Models? && val.models != []
                   && was.Some? && was.value.Scalar?
    ensures !raised ==> merged == Merged(base, overlay)
  {
    raised := false;
    var engines := base.engines;
    var ov := overlay.engines;
    for i := 0 to |ov|
      invariant MergedWith(LayeredGroup, engines, ov, i) == MergedEngines(base.engines, ov)
    {
      var (name, entry) := ov[i];
      var old_ := Find(engines, name);
      if old_.None? {
        engines := Set(engines, name, entry);
        continue;
      }
      var group := old_.value;
      if entry.settings.Some? && entry.settings.value != [] {
        var settings := UpdateDict(OrEmpty(group.settings), entry.settings.value);
        group := group.(settings := Some(settings));
      }
      if entry.autoscale.Some? {
        group := group.(autoscale := entry.autoscale);
      }
      if entry.fallback.Some? {
        group := group.(fallback := entry.fallback);
      }
      var instances := MergeInstances(OrEmpty(group.instances), OrEmpty(entry.instances));
      group := group.(instances := Some(instances));
      engines := Set(engines, name, group);
    }
    merged := Config(engines, base.server);
    if overlay.server.Some? && overlay.server.value != [] && base.server.Some? && base.server.value != [] {
      var server: Server;
      server, raised := MergeServer(base.server.value, overlay.server.value);
      merged := merged.(server := Some(server));
    }
  }

  /** The router's merge: the same engines, by its own loop; it leaves the embedding server. */
  method RouterMergeInto(base: Config, overlay: Config) returns (merged: Config)
    ensures merged == base.(engines := MergedEngines(base.engines, overlay.engines))
  {
    var engines := base.engines;
    var ov := overlay.engines;
    for i := 0 to |ov|
      invariant MergedWith(LayeredGroup, engines, ov, i) == MergedEngines(base.engines, ov)
    {
      var (name, entry) := ov[i];
      var old_ := Find(engines, name);
      if old_.None? {
        engines := Set(engines, name, entry);
        continue;
      }
      var group := old_.value;
      if entry.settings.Some? && entry.settings.value != [] {
        var settings := UpdateDict(OrEmpty(group.settings), entry.settings.value);
        group := group.(settings := Some(settings));
      }
      if entry.fallback.Some? {
        group := group.(fallback := entry.fallback);
      }
      if entry.autoscale.Some? {
        group := group.(autoscale := entry.autoscale);
      }
      var instances := MergeInstances(OrEmpty(group.instances), OrEmpty(entry.instances));
      group := group.(instances := Some(instances));
      engines := Set(engines, name, group);
    }
    return base.(engines := engines);
  }

  // ---- The embedding server -------------------------------------------------------------------------

  predicate ModelMap(key: string) { key == "embedding_models" || key == "reranking_models" }

  function LayeredModel(old_: Option<Model>, name: string, params: Model): Model {
    if old_.Some? && old_.value.Params? && params.Params? then Params(Updated(old_.value.params, params.params))
    else params
  }

  /** Looking a model up in a map that is no map raises; there must be one to look up. */
  predicate FieldFaults(old_: Option<Field>, key: string, val: Field) {
    ModelMap(key) && val.Models? && val.models != [] && old_.Some? && old_.value.Scalar?
  }

  function LayeredField(old_: Option<Field>, key: string, val: Field): Field {
    if !ModelMap(key) || !val.Models? then val
    else if old_.None? then Models(MergedWith(LayeredModel, [], val.models, 0))
    else if old_.value.Scalar? then old_.value
    else Models(MergedWith(LayeredModel, old_.value.models, val.models, 0))
  }

  predicate ServerFaults(base: Server, ov: Server, i: nat) {
    exists j :: i <= j < |ov| && FieldFaults(Find(base, ov[j].0), ov[j].0, ov[j].1)
  }

  function Merged(base: Config, overlay: Config): Config {
    Config(MergedEngines(base.engines, overlay.engines),
           if overlay.server.Some? && OrEmpty(base.server) != []
           then Some(MergedWith(LayeredField, base.server.value, overlay.server.value, 0)) else base.server)
  }

  method MergeServer(base: Server, ov: Server) returns (server: Server, raised: bool)
    requires UniqueKeys(ov)
    ensures raised <==> ServerFaults(base, ov, 0)
    ensures !raised ==> server == MergedWith(LayeredField, base, ov, 0)
  {
    server, raised := base, false;
    for i := 0 to |ov|
      invariant ServerFaults(base, ov, 0) <==> ServerFaults(base, ov, i)
      invariant forall j :: i <= j < |ov| ==> Find(server, ov[j].0) == Find(base, ov[j].0)
      invariant MergedWith(LayeredField, server, ov, i) == MergedWith(LayeredField, base, ov, 0)
    {
      var (key, val) := ov[i];
      if (key == "embedding_models" || key == "reranking_models") && val.Models? {
        var dest := Find(server, key);
        if dest.Some? && dest.value.Scalar? {
          if val.models != [] {
            assert FieldFaults(Find(base, ov[i].0), ov[i].0, ov[i].1);
            return server, true;
          }
          SetSame(server, key, dest.value);
          continue;
        }
        var models := MergeModels(if dest.None? then [] else dest.value.models, val.models);
        OthersStay(server, ov, i, Models(models));
        server := Set(server, key, Models(models));
      } else {
        OthersStay(server, ov, i, val);
        server := Set(server, key, val);
      }
    }
  }

  /** The inner loop, over the models of one map. */
  method MergeModels(dest: Dict<Model>, val: Dict<Model>) returns (models: Dict<Model>)
    ensures models == MergedWith(LayeredModel, dest, val, 0)
  {
    models := dest;
    for n := 0 to |val|
      invariant MergedWith(LayeredModel, models, val, n) == MergedWith(LayeredModel, dest, val, 0)
    {
      var (name, params) := val[n];
      var known := Find(models, name);
      if known.Some? && known.value.Params? && params.Params? {
        var updated := UpdateDict(known.value.params, params.params);
        models := Set(models, name, Params(updated));
      } else {
        models := Set(models, name, params);
      }
    }
  }

  lemma OthersStay(server: Server, ov: Server, i: nat, v: Field)
    requires UniqueKeys(ov) && i < |ov|
    ensures forall j :: i < j < |ov| ==> Find(Set(server, ov[i].0, v), ov[j].0) == Find(server, ov[j].0)
  {
    forall j | i < j < |ov| ensures Find(Set(server, ov[i].0, v), ov[j].0) == Find(server, ov[j].0) {
      SetThenFind(server, ov[i].0, v, ov[j].0);
    }
  }

  // ---- What the merge means --------------------------------------------------------------------------

  lemma LookupOfTheBase(base: seq<Instance>, ov: seq<Instance>, n: nat)
    requires n < |base| && IsLast(base, n)
    ensures LastWith(MergedInstances(base, ov), base[n].id) == Some(InPlace(base, ov, n))
  {
    var m, id := MergedInstances(base, ov), base[n].id;
    LastWithIs(ov, id);
    assert m[n] == InPlace(base, ov, n) && m[n].id == id;
    forall k | n < k < |m| ensures m[k].id != id {
      if k < |base| {
        assert m[k] == InPlace(base, ov, k);
        LastWithIs(ov, base[k].id);
      } else {
        assert m[k] == Strangers(base, ov)[k - |base|];
        StrangerLookup(base, ov, id);
      }
    }
    LastWithAt(m, n);
  }

  lemma LookupOfAStranger(base: seq<Instance>, ov: seq<Instance>, id: Option<string>)
    requires !HasId(base, id)
    ensures LastWith(MergedInstances(base, ov), id) == LastWith(ov, id)
  {
    var kept := seq(|base|, n requires 0 <= n < |base| => InPlace(base, ov, n));
    StrangerLookup(base, ov, id);
    forall n | 0 <= n < |kept| ensures kept[n].id != id {
      LastWithIs(ov, base[n].id);
      assert base[n].id != id;
    }
    LastWithIs(kept, id);
    LastWithOfSum(kept, Strangers(base, ov), id);
  }

  lemma {:induction false} LastWithOfSum(a: seq<Instance>, b: seq<Instance>, id: Option<string>)
    ensures LastWith(a + b, id) == if LastWith(b, id).Some? then LastWith(b, id) else LastWith(a, id)
  {
    if b == [] {
      assert a + b == a;
    } else {
      var n := |b| - 1;
      assert (a + b)[..|a + b| - 1] == a + b[..n];
      LastWithOfSum(a, b[..n], id);
    }
  }

  /** Looking an instance up by id: the overlay's latest if it has one, else the base's. */
  lemma InstanceLookup(base: seq<Instance>, ov: seq<Instance>, id: Option<string>)
    ensures LastWith(MergedInstances(base, ov), id)
         == if LastWith(ov, id).Some? then LastWith(ov, id) else LastWith(base, id)
  {
    LastWithIs(base, id);
    if HasId(base, id) {
      var n :| 0 <= n < |base| && base[n].id == id && IsLast(base, n);
      LookupOfTheBase(base, ov, n);
      LastWithAt(base, n);
    } else {
      LookupOfAStranger(base, ov, id);
    }
  }

  lemma {:induction false} LastWithIs(s: seq<Instance>, id: Option<string>)
    ensures LastWith(s, id).Some? <==> HasId(s, id)
    ensures LastWith(s, id).Some? ==> LastWith(s, id).value.id == id
    ensures HasId(s, id) ==> exists n :: 0 <= n < |s| && s[n].id == id && IsLast(s, n)
  {
    if s != [] {
      var n := |s| - 1;
      if s[n].id == id {
        assert IsLast(s, n);
      } else {
        LastWithIs(s[..n], id);
        if HasId(s, id) {
          var k :| 0 <= k < |s| && s[k].id == id;
          assert s[..n][k].id == id;
          var j :| 0 <= j < n && s[..n][j].id == id && IsLast(s[..n], j);
          assert s[j].id == id && IsLast(s, j) by {
            forall m | j < m < |s| ensures s[m].id != s[j].id { if m < n { assert s[..n][m].id != id; } }
          }
        }
        if HasId(s[..n], id) {
          var k :| 0 <= k < n && s[..n][k].id == id;
          assert s[k].id == id;
        }
      }
    }
  }

  lemma {:induction false} LastWithAt(s: seq<Instance>, n: nat)
    requires n < |s| && IsLast(s, n)
    ensures LastWith(s, s[n].id) == Some(s[n])
  {
    var last := |s| - 1;
    if n < last {
      assert IsLast(s[..last], n);
      LastWithAt(s[..last], n);
    }
  }

  lemma {:induction false} StrangerLookup(base: seq<Instance>, ov: seq<Instance>, id: Option<string>)
    ensures LastWith(Strangers(base, ov), id) == if HasId(base, id) then None else LastWith(ov, id)
    ensures forall k :: 0 <= k < |Strangers(base, ov)| ==> !HasId(base, Strangers(base, ov)[k].id)
  {
    if ov != [] {
      var n := |ov| - 1;
      StrangerLookup(base, ov[..n], id);
      if !HasId(base, ov[n].id) {
        var st := Strangers(base, ov);
        assert st[..|st| - 1] == Strangers(base, ov[..n]);
      } else {
        assert Strangers(base, ov) == Strangers(base, ov[..n]);
      }
    }
  }

  lemma MergeInstancesTwice(base: seq<Instance>, ov: seq<Instance>)
    ensures MergedInstances(MergedInstances(base, ov), ov) == MergedInstances(base, ov)
  {
    var m := MergedInstances(base, ov);
    StrangersOfMerged(base, ov, |ov|);
    assert ov[..|ov|] == ov;
    forall n | 0 <= n < |m| ensures InPlace(m, ov, n) == m[n] {
      if IsLast(m, n) && LastWith(ov, m[n].id).Some? {
        InstanceLookup(base, ov, m[n].id);
        LastWithAt(m, n);
      }
    }
  }

  lemma {:induction false} StrangersOfMerged(base: seq<Instance>, ov: seq<Instance>, i: nat)
    requires i <= |ov|
    ensures Strangers(MergedInstances(base, ov), ov[..i]) == []
  {
    if i > 0 {
      StrangersOfMerged(base, ov, i - 1);
      assert ov[..i][..i - 1] == ov[..i - 1] && ov[..i][i - 1] == ov[i - 1];
      LastWithIs(ov, ov[i - 1].id);
      InstanceLookup(base, ov, ov[i - 1].id);
      LastWithIs(MergedInstances(base, ov), ov[i - 1].id);
    }
  }

  lemma MergeInstancesWithItself(s: seq<Instance>)
    ensures MergedInstances(s, s) == s
  {
    forall n | 0 <= n < |s| ensures InPlace(s, s, n) == s[n] {
      if IsLast(s, n) { LastWithAt(s, n); }
    }
    NoStrangers(s, |s|);
    assert s[..|s|] == s;
  }

  lemma {:induction false} NoStrangers(s: seq<Instance>, i: nat)
    requires i <= |s|
    ensures Strangers(s, s[..i]) == []
  {
    if i > 0 {
      NoStrangers(s, i - 1);
      assert s[..i][..i - 1] == s[..i - 1] && s[..i][i - 1] == s[i - 1];
    }
  }

  // ---- Idempotence -----------------------------------------------------------------------------------

  ghost predicate ProperGroup(g: Group) { UniqueKeys(OrEmpty(g.settings)) }

  ghost predicate ProperModel(m: Model) { m.Params? ==> UniqueKeys(m.params) }

  ghost predicate ProperField(f: Field) {
    f.Models? ==> UniqueKeys(f.models) && forall i :: 0 <= i < |f.models| ==> ProperModel(f.models[i].1)
  }

  /** No dict has a key twice. */
  ghost predicate Proper(c: Config) {
    && UniqueKeys(c.engines) && (forall i :: 0 <= i < |c.engines| ==> ProperGroup(c.engines[i].1))
    && UniqueKeys(OrEmpty(c.server))
    && (forall i :: 0 <= i < |OrEmpty(c.server)| ==> ProperField(OrEmpty(c.server)[i].1))
  }

  lemma UpdateTwice<V(!new)>(d: Dict<V>, e: Dict<V>)
    requires UniqueKeys(d) && UniqueKeys(e)
    ensures Updated(Updated(d, e), e) == Updated(d, e)
  {
    forall j | 0 <= j < |e| ensures Absorbs(Replaced<V>, Find(d, e[j].0), e[j].0, e[j].1) {}
    MergeTwiceExactly(Replaced<V>, d, e);
  }

  lemma UpdateWithItself<V>(e: Dict<V>)
    requires UniqueKeys(e)
    ensures Updated(e, e) == e
  {
    forall j | 0 <= j < |e| ensures Find(e, e[j].0) == Some(e[j].1) {
      FindsItem(e, j);
    }
    MergeOfMerged(Replaced<V>, e, e, 0);
  }

  /** A group of the overlay absorbs itself unless it is new and carries no list of instances. */
  lemma GroupAbsorbsExactly(old_: Option<Group>, name: string, entry: Group)
    requires ProperGroup(entry) && (old_.Some? ==> ProperGroup(old_.value))
    ensures Absorbs(LayeredGroup, old_, name, entry) <==> old_.Some? || entry.instances.Some?
  {
    var ov := OrEmpty(entry.instances);
    if old_.None? {
      UpdateWithItself(OrEmpty(entry.settings));
      MergeInstancesWithItself(ov);
    } else {
      UpdateTwice(OrEmpty(old_.value.settings), OrEmpty(entry.settings));
      MergeInstancesTwice(OrEmpty(old_.value.instances), ov);
    }
  }

  lemma ModelAbsorbs(old_: Option<Model>, name: string, params: Model)
    requires ProperModel(params) && (old_.Some? ==> ProperModel(old_.value))
    ensures Absorbs(LayeredModel, old_, name, params)
  {
    if params.Params? {
      UpdateWithItself(params.params);
      if old_.Some? && old_.value.Params? {
        UpdateTwice(old_.value.params, params.params);
      }
    }
  }

  lemma FieldAbsorbs(old_: Option<Field>, key: string, val: Field)
    requires ProperField(val) && (old_.Some? ==> ProperField(old_.value))
    ensures Absorbs(LayeredField, old_, key, val)
  {
    if ModelMap(key) && val.Models? && !(old_.Some? && old_.value.Scalar?) {
      var dest := if old_.None? then [] else old_.value.models;
      forall j | 0 <= j < |val.models|
        ensures Absorbs(LayeredModel, Find(dest, val.models[j].0), val.models[j].0, val.models[j].1)
      {
        FoundIsProper(dest, val.models[j].0);
        ModelAbsorbs(Find(dest, val.models[j].0), val.models[j].0, val.models[j].1);
      }
      MergeTwiceExactly(LayeredModel, dest, val.models);
    }
  }

  lemma FoundIsProper(dest: Dict<Model>, k: string)
    requires forall i :: 0 <= i < |dest| ==> ProperModel(dest[i].1)
    ensures Find(dest, k).Some? ==> ProperModel(Find(dest, k).value)
  {
    if Find(dest, k).Some? {
      var i := FoundAt(dest, k);
    }
  }

  /** Layering the overlay a second time changes nothing if and only if every group that it adds
      whole carries a list of instances. */
  lemma MergeIsIdempotentExactly(base: Config, ov: Config)
    requires Proper(base) && Proper(ov)
    ensures Merged(Merged(base, ov), ov) == Merged(base, ov)
       <==> forall j :: 0 <= j < |ov.engines| && Find(base.engines, ov.engines[j].0).None? ==>
              ov.engines[j].1.instances.Some?
  {
    EnginesTwiceExactly(base.engines, ov.engines);
    if ov.server.Some? && OrEmpty(base.server) != [] {
      var b, o := base.server.value, ov.server.value;
      forall j | 0 <= j < |o| ensures Absorbs(LayeredField, Find(b, o[j].0), o[j].0, o[j].1) {
        if Find(b, o[j].0).Some? {
          var i := FoundAt(b, o[j].0);
        }
        FieldAbsorbs(Find(b, o[j].0), o[j].0, o[j].1);
      }
      MergeTwiceExactly(LayeredField, b, o);
      MergedKeys(LayeredField, b, o, 0);
      assert |Keys(b)| <= |Keys(Merged(base, ov).server.value)|;
    }
  }

  /** For every group without a list of instances: layering it onto a configuration that lacks it
      changes the result the second time. */
  lemma AGroupWithoutInstancesIsNotIdempotent(base: Config, name: string, group: Group)
    requires Proper(base) && ProperGroup(group) && group.instances.None? && Find(base.engines, name).None?
    ensures var ov := Config([(name, group)], None); Proper(ov) && Merged(Merged(base, ov), ov) != Merged(base, ov)
  {
    var ov := Config([(name, group)], None);
    assert ov.engines[0] == (name, group);
    MergeIsIdempotentExactly(base, ov);
  }

  lemma EnginesTwiceExactly(b: Dict<Group>, o: Dict<Group>)
    requires UniqueKeys(b) && UniqueKeys(o)
    requires (forall i :: 0 <= i < |b| ==> ProperGroup(b[i].1)) && (forall i :: 0 <= i < |o| ==> ProperGroup(o[i].1))
    ensures MergedEngines(MergedEngines(b, o), o) == MergedEngines(b, o)
       <==> forall j :: 0 <= j < |o| && Find(b, o[j].0).None? ==> o[j].1.instances.Some?
  {
    forall j | 0 <= j < |o|
      ensures Absorbs(LayeredGroup, Find(b, o[j].0), o[j].0, o[j].1) <==>
                Find(b, o[j].0).Some? || o[j].1.instances.Some?
    {
      if Find(b, o[j].0).Some? {
        var i := FoundAt(b, o[j].0);
      }
      GroupAbsorbsExactly(Find(b, o[j].0), o[j].0, o[j].1);
    }
    MergeTwiceExactly(LayeredGroup, b, o);
  }

  /** The merged engines, group by group and key by key: right-biased, in the base's order with
      what is new at the end. */
  lemma MergeIsRightBiased(base: Config, ov: Config, name: string, key: string, id: Option<string>)
    requires Proper(base) && Proper(ov)
    ensures var m, b, o := Merged(base, ov).engines, Find(base.engines, name), Find(ov.engines, name);
            && Keys(m) == Keys(base.engines) + NewKeys(base.engines, ov.engines, 0)
            && (o.None? ==> Find(m, name) == b)
            && (o.Some? && b.None? ==> Find(m, name) == o)
            && (o.Some? && b.Some? ==>
                  Find(m, name).Some? && GroupIsRightBiased(b.value, o.value, Find(m, name).value, key, id))
  {
    var b, o := Find(base.engines, name), Find(ov.engines, name);
    assert ov.engines[0..] == ov.engines;
    MergedFind(LayeredGroup, base.engines, ov.engines, 0, name);
    MergedKeys(LayeredGroup, base.engines, ov.engines, 0);
    if o.Some? && b.Some? {
      var i := FoundAt(base.engines, name);
      var j := FoundAt(ov.engines, name);
      assert ProperGroup(base.engines[i].1) && ProperGroup(ov.engines[j].1);
      UpdatedFind(OrEmpty(b.value.settings), OrEmpty(o.value.settings), key);
      InstanceLookup(OrEmpty(b.value.instances), OrEmpty(o.value.instances), id);
    }
  }

  /** Group g has each setting, policy, fallback list and instance from o if o has it, else from b. */
  ghost predicate GroupIsRightBiased(b: Group, o: Group, g: Group, key: string, id: Option<string>) {
    && Find(OrEmpty(g.settings), key)
       == (if Find(OrEmpty(o.settings), key).Some? then Find(OrEmpty(o.settings), key)
           else Find(OrEmpty(b.settings), key))
    && g.autoscale == (if o.autoscale.Some? then o.autoscale else b.autoscale)
    && g.fallback == (if o.fallback.Some? then o.fallback else b.fallback)
    && g.rest == b.rest
    && LastWith(OrEmpty(g.instances), id)
       == (if LastWith(OrEmpty(o.instances), id).Some? then LastWith(OrEmpty(o.instances), id)
           else LastWith(OrEmpty(b.instances), id))
  }

  lemma UpdatedFind<V>(d: Dict<V>, e: Dict<V>, k: string)
    requires UniqueKeys(d) && UniqueKeys(e)
    ensures Find(Updated(d, e), k) == if Find(e, k).Some? then Find(e, k) else Find(d, k)
  {
    assert e[0..] == e;
    MergedFind(Replaced<V>, d, e, 0, k);
  }

  /** The embedding server: a model's parameters merge key by key, anything else is the overlay's
      if it has it. */
  lemma ServerIsRightBiased(base: Config, ov: Config, key: string, model: string, param: string)
    requires Proper(base) && Proper(ov) && ov.server.Some? && OrEmpty(base.server) != []
    ensures var m, b, o := Merged(base, ov).server.value, Find(base.server.value, key), Find(ov.server.value, key);
            var nested := key == "embedding_models" || key == "reranking_models";
            && (o.None? ==> Find(m, key) == b)
            && (o.Some? && !(nested && o.value.Models?) ==> Find(m, key) == o)
            && (o.Some? && nested && o.value.Models? && !(b.Some? && b.value.Scalar?) ==>
                  && Find(m, key).Some? && Find(m, key).value.Models?
                  && var was := if b.None? then [] else b.value.models;
                     ModelsAreRightBiased(was, o.value.models, Find(m, key).value.models, model, param))
  {
    var b, o := Find(base.server.value, key), Find(ov.server.value, key);
    assert ov.server.value[0..] == ov.server.value;
    MergedFind(LayeredField, base.server.value, ov.server.value, 0, key);
    if o.Some? && ModelMap(key) && o.value.Models? && !(b.Some? && b.value.Scalar?) {
      var j := FoundAt(ov.server.value, key);
      assert ProperField(ov.server.value[j].1);
      if b.Some? {
        var i := FoundAt(base.server.value, key);
        assert ProperField(base.server.value[i].1);
      }
      ModelsMerge(if b.None? then [] else b.value.models, o.value.models, model, param);
    }
  }

  ghost predicate ModelsAreRightBiased(d: Dict<Model>, e: Dict<Model>, m: Dict<Model>, model: string, param: string) {
    var b, o := Find(d, model), Find(e, model);
    && (o.None? ==> Find(m, model) == b)
    && (o.Some? && !(b.Some? && b.value.Params? && o.value.Params?) ==> Find(m, model) == o)
    && (o.Some? && b.Some? && b.value.Params? && o.value.Params? ==>
          && Find(m, model).Some? && Find(m, model).value.Params?
          && Find(Find(m, model).value.params, param)
             == if Find(o.value.params, param).Some? then Find(o.value.params, param) else Find(b.value.params, param))
  }

  lemma ModelsMerge(d: Dict<Model>, e: Dict<Model>, model: string, param: string)
    requires ProperField(Models(d)) && ProperField(Models(e))
    ensures ModelsAreRightBiased(d, e, MergedWith(LayeredModel, d, e, 0), model, param)
  {
    assert e[0..] == e;
    MergedFind(LayeredModel, d, e, 0, model);
    FoundIsProper(d, model);
    FoundIsProper(e, model);
    var b, o := Find(d, model), Find(e, model);
    if o.Some? && b.Some? && b.value.Params? && o.value.Params? {
      UpdatedFind(b.value.params, o.value.params, param);
    }
  }
}
