/**
  Which node runs an instance: one placement pass over the live nodes, and what an assignment
  makes foreign to a node.
 */
module Placement {
  import opened Options
  import opened Ordering

  /** The engines a node advertises; a node that names none runs any. */
  datatype Engines = AnyEngine | Only(names: set<string>)

  /** A live node. A GPU is its total and its used memory; unknown capacity is no GPU. */
  datatype Node = Node(id: string, gpus: seq<(int, int)>, engines: Engines)

  type Assignments = map<string, string>

  function FreeVram(gpus: seq<(int, int)>): nat {
    if gpus == [] then 0
    else (if gpus[0].0 - gpus[0].1 > 0 then gpus[0].0 - gpus[0].1 else 0) + FreeVram(gpus[1..])
  }

  /** Free memory adds up, GPU by GPU; one that uses more than it has adds nothing. */
  lemma {:induction false} FreeVramAddsUp(a: seq<(int, int)>, b: seq<(int, int)>, total: int, used: int)
    ensures FreeVram(a + b) == FreeVram(a) + FreeVram(b)
    ensures FreeVram([]) == 0 && FreeVram([(total, used)]) == if total > used then total - used else 0
    decreases a
  {
    assert [(total, used)][1..] == [];
    if a == [] {
      assert a + b == b;
    } else {
      assert (a + b)[1..] == a[1..] + b;
      FreeVramAddsUp(a[1..], b, total, used);
    }
  }

  predicate Supports(n: Node, engine: string) { n.engines.AnyEngine? || engine in n.engines.names }

  function EngineOf(engines: map<string, string>, key: string): string {
    if key in engines then engines[key] else "vllm"
  }

  ghost predicate UniqueIds(nodes: seq<Node>) {
    forall i, j :: 0 <= i < j < |nodes| ==> nodes[i].id != nodes[j].id
  }

  /** Node a is preferred to node b: it is emptier, or as empty and first by id. */
  predicate Before(a: Node, b: Node) {
    FreeVram(a.gpus) > FreeVram(b.gpus) || (FreeVram(a.gpus) == FreeVram(b.gpus) && Less(a.id, b.id))
  }

  // ---- The pass -----------------------------------------------------------------------------

  /** The first of the preferred order. */
  function Best(nodes: seq<Node>): Node
    requires nodes != []
  {
    if |nodes| == 1 then nodes[0]
    else
      var m := Best(nodes[1..]);
      if Before(m, nodes[0]) then m else nodes[0]
  }

  lemma {:induction false} BestIsFirst(nodes: seq<Node>)
    requires nodes != []
    ensures Best(nodes) in nodes && forall n :: n in nodes ==> !Before(n, Best(nodes))
  {
    if |nodes| == 1 {
      BeforeIsAnOrder(nodes[0], nodes[0], nodes[0]);
    } else {
      var m := Best(nodes[1..]);
      BestIsFirst(nodes[1..]);
      forall n | n in nodes ensures !Before(n, Best(nodes)) {
        assert n == nodes[0] || n in nodes[1..];
        BeforeIsAnOrder(n, nodes[0], m);
        BeforeIsAnOrder(m, nodes[0], n);
      }
    }
  }

  lemma BeforeIsAnOrder(a: Node, b: Node, c: Node)
    ensures !(Before(a, b) && Before(b, a)) && !Before(a, a)
    ensures a.id != b.id ==> Before(a, b) || Before(b, a)
    ensures Before(a, b) && Before(b, c) ==> Before(a, c)
    ensures Before(a, b) ==> Before(c, b) || Before(a, c)
  {
    LessIsTotal(a.id, a.id);
    LessIsTotal(a.id, b.id);
    LessIsTotal(b.id, c.id);
    LessIsTotal(a.id, c.id);
    if Less(a.id, b.id) && Less(b.id, c.id) { LessIsTransitive(a.id, b.id, c.id); }
    if Less(a.id, b.id) && Less(c.id, a.id) { LessIsTransitive(c.id, a.id, b.id); }
  }

  function Supporting(nodes: seq<Node>, engine: string): seq<Node> {
    if nodes == [] then []
    else (if Supports(nodes[0], engine) then [nodes[0]] else []) + Supporting(nodes[1..], engine)
  }

  lemma {:induction false} SupportingIs(nodes: seq<Node>, engine: string)
    ensures forall n :: n in Supporting(nodes, engine) <==> n in nodes && Supports(n, engine)
  {
    if nodes != [] {
      SupportingIs(nodes[1..], engine);
      assert nodes == [nodes[0]] + nodes[1..];
    }
  }

  /** The key is on a live node that runs its engine. */
  predicate WellPlaced(nodes: seq<Node>, a: Assignments, engine: string, key: string) {
    key in a && exists n :: n in nodes && n.id == a[key] && Supports(n, engine)
  }

  /** Some live node runs the engine. */
  predicate Placeable(nodes: seq<Node>, engine: string) { exists n :: n in nodes && Supports(n, engine) }

  /** Which keys a pass moves. */
  predicate Moves(nodes: seq<Node>, a: Assignments, engine: string, key: string) {
    Placeable(nodes, engine) && !WellPlaced(nodes, a, engine, key)
  }

  method IndexById(nodes: seq<Node>) returns (byId: map<string, Node>)
    requires UniqueIds(nodes)
    ensures Indexes(byId, nodes, |nodes|)
  {
    byId := map[];
    for i := 0 to |nodes|
      invariant Indexes(byId, nodes, i)
    {
      byId := byId[nodes[i].id := nodes[i]];
    }
  }

  method Place(desired: set<string>, nodes: seq<Node>, a: Assignments, engines: map<string, string>)
    returns (changes: Assignments)
    requires UniqueIds(nodes)
    ensures changes == Placed(desired, nodes, a, engines)
  {
    if nodes == [] { return map[]; }
    var byId := IndexById(nodes);
    changes := map[];
    var todo := desired;
    while todo != {}
      invariant todo <= desired && changes == Placed(desired - todo, nodes, a, engines)
      decreases |todo|
    {
      var key :| key in todo;
      var change := PlaceKey(key, nodes, byId, a, EngineOf(engines, key));
      PlacedOneMore(desired, todo, key, nodes, a, engines);
      todo := todo - {key};
      if change.Some? {
        changes := changes[key := change.value];
      }
    }
    assert desired - {} == desired;
  }

  /** The body of the loop: keep the key where it is, leave it, or choose the preferred node. */
  method PlaceKey(key: string, nodes: seq<Node>, byId: map<string, Node>, a: Assignments, engine: string)
    returns (change: Option<string>)
    requires UniqueIds(nodes) && Indexes(byId, nodes, |nodes|)
    ensures change == Change(nodes, a, engine, key)
  {
    ChangeIs(nodes, byId, a, engine, key);
    var candidates := Supporting(nodes, engine);
    if candidates == [] { return None; }
    var current := if key in a && a[key] in byId then Some(byId[a[key]]) else None;
    if current.Some? && Supports(current.value, engine) { return None; }
    return Some(Best(candidates).id);
  }

  /** byId holds the first i nodes. */
  ghost predicate Indexes(byId: map<string, Node>, nodes: seq<Node>, i: nat)
    requires i <= |nodes|
  {
    && (forall id :: id in byId <==> exists j :: 0 <= j < i && nodes[j].id == id)
    && (forall j :: 0 <= j < i ==> nodes[j].id in byId && byId[nodes[j].id] == nodes[j])
  }

  lemma PlacedOneMore(desired: set<string>, todo: set<string>, key: string, nodes: seq<Node>, a: Assignments,
                      engines: map<string, string>)
    requires key in todo && todo <= desired
    ensures var change := Change(nodes, a, EngineOf(engines, key), key);
            var before := Placed(desired - todo, nodes, a, engines);
            var after := Placed(desired - (todo - {key}), nodes, a, engines);
            after == if change.Some? then before[key := change.value] else before
  {
    assert desired - (todo - {key}) == (desired - todo) + {key};
  }

  lemma ChangeIs(nodes: seq<Node>, byId: map<string, Node>, a: Assignments, engine: string, key: string)
    requires UniqueIds(nodes) && Indexes(byId, nodes, |nodes|)
    ensures Change(nodes, a, engine, key)
         == if Supporting(nodes, engine) == [] then None
            else if key in a && a[key] in byId && Supports(byId[a[key]], engine) then None
            else Some(Best(Supporting(nodes, engine)).id)
  {
    CandidatesAre(nodes, engine);
    CurrentIs(nodes, byId, a, engine, key);
  }

  lemma CandidatesAre(nodes: seq<Node>, engine: string)
    ensures Supporting(nodes, engine) != [] <==> Placeable(nodes, engine)
  {
    var r := Supporting(nodes, engine);
    SupportingIs(nodes, engine);
    if r != [] { assert r[0] in r; }
    if Placeable(nodes, engine) {
      var n :| n in nodes && Supports(n, engine);
      assert n in r;
    }
  }

  lemma CurrentIs(nodes: seq<Node>, byId: map<string, Node>, a: Assignments, engine: string, key: string)
    requires UniqueIds(nodes) && Indexes(byId, nodes, |nodes|)
    ensures WellPlaced(nodes, a, engine, key) <==> key in a && a[key] in byId && Supports(byId[a[key]], engine)
  {
    if WellPlaced(nodes, a, engine, key) {
      var n :| n in nodes && n.id == a[key] && Supports(n, engine);
      var j :| 0 <= j < |nodes| && nodes[j] == n;
    }
    if key in a && a[key] in byId {
      var j :| 0 <= j < |nodes| && nodes[j].id == a[key];
      assert nodes[j] in nodes;
    }
  }

  /** The changes of a pass, key by key. */
  function Placed(desired: set<string>, nodes: seq<Node>, a: Assignments, engines: map<string, string>): Assignments {
    map key | key in desired && Change(nodes, a, EngineOf(engines, key), key).Some?
      :: Change(nodes, a, EngineOf(engines, key), key).value
  }

  /** Where the pass moves a key to, if it moves it. */
  function Change(nodes: seq<Node>, a: Assignments, engine: string, key: string): Option<string> {
    if Moves(nodes, a, engine, key) then Some(Target(nodes, engine)) else None
  }

  function Target(nodes: seq<Node>, engine: string): string
    requires Placeable(nodes, engine)
  {
    CandidatesAre(nodes, engine);
    Best(Supporting(nodes, engine)).id
  }

  // ---- What a pass achieves -------------------------------------------------------------------

  /** The target is a live node that runs the engine, and no such node is preferred to it. */
  lemma TargetIsEmptiest(nodes: seq<Node>, engine: string) returns (t: Node)
    requires Placeable(nodes, engine)
    ensures t in nodes && Supports(t, engine) && t.id == Target(nodes, engine)
    ensures forall n :: n in nodes && Supports(n, engine) ==> !Before(n, t)
  {
    CandidatesAre(nodes, engine);
    SupportingIs(nodes, engine);
    BestIsFirst(Supporting(nodes, engine));
    t := Best(Supporting(nodes, engine));
    forall m | m in nodes && Supports(m, engine) ensures !Before(m, t) {
      assert m in Supporting(nodes, engine);
    }
  }

  /** A pass moves a key if and only if it is desired, some live node runs its engine ("vllm" if
      none is known), and it is not assigned to such a node; it moves it to one with the most
      free memory and, among those, the first id. */
  lemma PassMovesExactly(desired: set<string>, nodes: seq<Node>, a: Assignments, engines: map<string, string>,
                         key: string)
    ensures var engine := if key in engines then engines[key] else "vllm";
            var can := set n | n in nodes && (n.engines.AnyEngine? || engine in n.engines.names);
            var changes := Placed(desired, nodes, a, engines);
            && (key in changes <==>
                  key in desired && can != {} && !(key in a && exists n :: n in can && n.id == a[key]))
            && (key in changes ==> exists t :: t in can && t.id == changes[key] && forall n :: n in can ==>
                  FreeVram(n.gpus) < FreeVram(t.gpus) || (FreeVram(n.gpus) == FreeVram(t.gpus) && !Less(n.id, t.id)))
  {
    var engine := if key in engines then engines[key] else "vllm";
    var can := set n | n in nodes && (n.engines.AnyEngine? || engine in n.engines.names);
    assert forall n :: n in can <==> n in nodes && Supports(n, engine);
    if Placeable(nodes, engine) {
      var t := TargetIsEmptiest(nodes, engine);
      assert t in can;
    }
  }

  /** After a pass every desired key that any live node can run is well placed; a key that was
      is where it was. */
  lemma PassPlacesAll(desired: set<string>, nodes: seq<Node>, a: Assignments, engines: map<string, string>, key: string)
    requires key in desired && Placeable(nodes, EngineOf(engines, key))
    ensures var b := a + Placed(desired, nodes, a, engines);
            && WellPlaced(nodes, b, EngineOf(engines, key), key)
            && (WellPlaced(nodes, a, EngineOf(engines, key), key) ==> b[key] == a[key])
  {
    var t := TargetIsEmptiest(nodes, EngineOf(engines, key));
  }

  /** One pass is enough: a second one changes nothing. */
  lemma OnePassSuffices(desired: set<string>, nodes: seq<Node>, a: Assignments, engines: map<string, string>)
    ensures Placed(desired, nodes, a + Placed(desired, nodes, a, engines), engines) == map[]
  {
    var b := a + Placed(desired, nodes, a, engines);
    forall key | key in desired ensures !Moves(nodes, b, EngineOf(engines, key), key) {
      if Placeable(nodes, EngineOf(engines, key)) {
        PassPlacesAll(desired, nodes, a, engines, key);
      }
    }
  }

  /** A pass does not depend on the order in which the nodes are listed. */
  lemma OrderOfNodesIsIrrelevant(desired: set<string>, nodes: seq<Node>, other: seq<Node>, a: Assignments,
                                 engines: map<string, string>)
    requires UniqueIds(nodes) && forall n :: n in nodes <==> n in other
    ensures Placed(desired, nodes, a, engines) == Placed(desired, other, a, engines)
  {
    forall key | key in desired
      ensures var e := EngineOf(engines, key);
              && Moves(nodes, a, e, key) == Moves(other, a, e, key)
              && (Placeable(nodes, e) ==> Placeable(other, e) && Target(nodes, e) == Target(other, e))
    {
      var e := EngineOf(engines, key);
      if Placeable(nodes, e) {
        var t := TargetIsEmptiest(nodes, e);
        assert Placeable(other, e);
        var u := TargetIsEmptiest(other, e);
        BeforeIsAnOrder(t, u, t);
      }
    }
  }

  // ---- What is foreign --------------------------------------------------------------------------

  predicate Alive(nodes: seq<Node>, id: string) { exists n :: n in nodes && n.id == id }

  function AliveIds(nodes: seq<Node>): set<string> { set n | n in nodes :: n.id }

  /** The keys assigned to another node that is alive. */
  function Foreign(a: Assignments, alive: set<string>, me: string): set<string> {
    set k | k in a && a[k] != me && a[k] in alive
  }

  /** A key on a live node is foreign to every node but that one; any other key is foreign to none. */
  lemma ForeignExactly(a: Assignments, nodes: seq<Node>, key: string, me: string)
    ensures key !in Foreign(a, AliveIds(nodes), me) <==> (key in a && Alive(nodes, a[key]) ==> me == a[key])
  {
  }

  /** So after a pass, each desired key that can run is non-foreign to exactly one live node. */
  lemma ExactlyOneNodeActuates(desired: set<string>, nodes: seq<Node>, a: Assignments, engines: map<string, string>,
                               key: string)
    returns (owner: Node)
    requires key in desired && Placeable(nodes, EngineOf(engines, key))
    ensures owner in nodes && Supports(owner, EngineOf(engines, key))
    ensures var b := a + Placed(desired, nodes, a, engines);
            forall me :: key !in Foreign(b, AliveIds(nodes), me) <==> me == owner.id
  {
    PassPlacesAll(desired, nodes, a, engines, key);
    var b := a + Placed(desired, nodes, a, engines);
    owner :| owner in nodes && owner.id == b[key] && Supports(owner, EngineOf(engines, key));
    forall me ensures key !in Foreign(b, AliveIds(nodes), me) <==> me == owner.id {
      ForeignExactly(b, nodes, key, me);
    }
  }
}
