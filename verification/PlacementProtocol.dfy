/**
  Scheduler passes and node-agents' converge passes over the shared tables, interleaved at
  every read and write.

  A pass reads the tables one after another and then acts key by key on what it read. Nodes
  may join and report new capacity meanwhile; none leaves. The state of an agent's own
  instances is not part of the world: an agent may act on any key it does not skip.
 */
module PlacementProtocol {
  import opened Placement

  datatype Want = Running | Asleep | Stopped

  type Desired = map<string, Want>

  /** A scheduler pass: the desired keys are read, then the nodes, then the assignments. */
  datatype Pass =
    | HasDesired(desired: set<string>)
    | HasNodes(desired: set<string>, nodes: seq<Node>)
    | Writing(changes: Assignments)

  /** A converge pass: the assignments are read, then the live nodes, then the desired states. */
  datatype Agent =
    | HasAssignments(read: Assignments)
    | HasForeign(foreign: set<string>)
    | Acting(foreign: set<string>, todo: Desired)

  datatype World = World(
    nodes: seq<Node>, desired: Desired, homes: Assignments, engines: map<string, string>,
    runs: set<(string, string)>,       // (node, engine): what each agent can run, alive or not
    passes: map<nat, Pass>, agents: map<string, Agent>,
    acts: seq<(string, string)>)       // (node, key): who actuated what so far

  datatype Event =
    | Join(node: Node)
    | Capacity(i: nat, gpus: seq<(int, int)>)
    | BeginPass(p: nat)
    | ReadNodes(p: nat)
    | ReadAssignments(p: nat)
    | Write(p: nat, key: string)
    | EndPass(p: nat)
    | BeginAgent(me: string)
    | ReadAlive(me: string)
    | AliveUnread(me: string)          // the read failed: nothing counts as foreign
    | ReadDesired(me: string)
    | Act(me: string, key: string)     // start, wake, sleep or stop succeeded
    | Skip(me: string, key: string)    // nothing to do for this key, or it failed
    | EndAgent(me: string)

  predicate Enabled(w: World, e: Event) {
    match e
    case Join(node) => !Alive(w.nodes, node.id)
    case Capacity(i, _) => i < |w.nodes|
    case BeginPass(p) => p !in w.passes
    case ReadNodes(p) => p in w.passes && w.passes[p].HasDesired?
    case ReadAssignments(p) => p in w.passes && w.passes[p].HasNodes?
    case Write(p, key) => p in w.passes && w.passes[p].Writing? && key in w.passes[p].changes
    case EndPass(p) => p in w.passes && w.passes[p].Writing? && w.passes[p].changes == map[]
    case BeginAgent(me) => me !in w.agents
    case ReadAlive(me) => me in w.agents && w.agents[me].HasAssignments?
    case AliveUnread(me) => me in w.agents && w.agents[me].HasAssignments?
    case ReadDesired(me) => me in w.agents && w.agents[me].HasForeign?
    case Act(me, key) =>
      me in w.agents && w.agents[me].Acting? && key in w.agents[me].todo && key !in w.agents[me].foreign
    case Skip(me, key) => me in w.agents && w.agents[me].Acting? && key in w.agents[me].todo
    case EndAgent(me) => me in w.agents && w.agents[me].Acting? && w.agents[me].todo == map[]
  }

  function WantRunning(d: Desired): set<string> { set k | k in d && d[k].Running? }

  /** What acting on a key writes to the tables: the state wanted, and for a live state the
      claim of the node, or, if it cannot run the engine, the loss of the assignment. */
  function Persisted(w: World, me: string, key: string, want: Want): World {
    var v := w.(desired := w.desired[key := want]);
    if want.Stopped? then v
    else if (me, EngineOf(w.engines, key)) in w.runs then v.(homes := v.homes[key := me])
    else v.(homes := v.homes - {key})
  }

  function Next(w: World, e: Event): World
    requires Enabled(w, e)
  {
    match e
    case Join(node) => w.(nodes := w.nodes + [node])
    case Capacity(i, gpus) => w.(nodes := w.nodes[i := w.nodes[i].(gpus := gpus)])
    case BeginPass(p) => w.(passes := w.passes[p := HasDesired(WantRunning(w.desired))])
    case ReadNodes(p) => w.(passes := w.passes[p := HasNodes(w.passes[p].desired, w.nodes)])
    case ReadAssignments(p) =>
      var q := w.passes[p];
      w.(passes := w.passes[p := Writing(Placed(q.desired, q.nodes, w.homes, w.engines))])
    case Write(p, key) =>
      var changes := w.passes[p].changes;
      w.(homes := w.homes[key := changes[key]], passes := w.passes[p := Writing(changes - {key})])
    case EndPass(p) => w.(passes := w.passes - {p})
    case BeginAgent(me) => w.(agents := w.agents[me := HasAssignments(w.homes)])
    case ReadAlive(me) => w.(agents := w.agents[me := HasForeign(Foreign(w.agents[me].read, AliveIds(w.nodes), me))])
    case AliveUnread(me) => w.(agents := w.agents[me := HasForeign({})])
    case ReadDesired(me) => w.(agents := w.agents[me := Acting(w.agents[me].foreign, w.desired)])
    case Act(me, key) =>
      var a := w.agents[me];
      Persisted(w, me, key, a.todo[key]).(agents := w.agents[me := Acting(a.foreign, a.todo - {key})],
                                          acts := w.acts + [(me, key)])
    case Skip(me, key) =>
      var a := w.agents[me];
      w.(agents := w.agents[me := Acting(a.foreign, a.todo - {key})])
    case EndAgent(me) => w.(agents := w.agents - {me})
  }

  predicate Admissible(w: World, es: seq<Event>)
    decreases es
  {
    es == [] || (Enabled(w, es[0]) && Admissible(Next(w, es[0]), es[1..]))
  }

  function Final(w: World, es: seq<Event>): World
    requires Admissible(w, es)
    decreases es
  {
    if es == [] then w else Final(Next(w, es[0]), es[1..])
  }

  // ---- Settled fleets -------------------------------------------------------------------------

  /** The key is wanted running or asleep. */
  predicate Wanted(w: World, key: string) { key in w.desired && !w.desired[key].Stopped? }

  /** The key is assigned to a live node that advertises its engine and can run it. */
  predicate AtHome(w: World, nodes: seq<Node>, key: string) {
    && WellPlaced(nodes, w.homes, EngineOf(w.engines, key), key)
    && (w.homes[key], EngineOf(w.engines, key)) in w.runs
  }

  /** Every wanted key is at home. */
  ghost predicate Settled(w: World) {
    forall k :: Wanted(w, k) ==> AtHome(w, w.nodes, k)
  }

  /** The keys of `s` are assigned to live nodes, and every wanted key is among them. */
  ghost predicate Anchors(w: World, s: set<string>) {
    && (forall k :: k in s ==> k in w.homes && Alive(w.nodes, w.homes[k]))
    && (forall k :: Wanted(w, k) ==> k in s)
  }

  /** What a pass under way has read agrees with the tables on every wanted key. */
  ghost predicate PassAgrees(w: World, q: Pass) {
    match q
    case HasDesired(desired) => desired <= WantRunning(w.desired)
    case HasNodes(desired, nodes) =>
      desired <= WantRunning(w.desired) && forall k :: k in desired ==> AtHome(w, nodes, k)
    case Writing(changes) => changes == map[]
  }

  /** A key of `s` that is not foreign to me is mine. */
  ghost predicate Respects(w: World, s: set<string>, me: string, foreign: set<string>) {
    forall k :: k in s && k !in foreign ==> k in w.homes && me == w.homes[k]
  }

  ghost predicate AgentAgrees(w: World, s: set<string>, me: string, a: Agent) {
    match a
    case HasAssignments(read) => read == w.homes
    case HasForeign(foreign) => Respects(w, s, me, foreign)
    case Acting(foreign, todo) =>
      Respects(w, s, me, foreign) && forall k :: k in todo ==> k in w.desired && todo[k] == w.desired[k]
  }

  ghost predicate Calm(w: World, s: set<string>) {
    && Settled(w) && Anchors(w, s)
    && (forall p :: p in w.passes ==> PassAgrees(w, w.passes[p]))
    && (forall me :: me in w.agents ==> AgentAgrees(w, s, me, w.agents[me]))
  }

  /** A failed read does no harm where every key of `s` is the reader's own. */
  ghost predicate Harmless(w: World, s: set<string>, e: Event) { e.AliveUnread? ==> Respects(w, s, e.me, {}) }

  /** In a settled fleet a step writes what is there already, so the tables stay, and who acts
      on a key of `s` is the node it is assigned to. */
  lemma StepKeepsTables(w: World, s: set<string>, e: Event)
    requires Calm(w, s) && Enabled(w, e)
    ensures var v := Next(w, e);
            && v.homes == w.homes && v.desired == w.desired && v.engines == w.engines && v.runs == w.runs
            && !e.Write?
            && (e.Act? && e.key in s ==> e.key in w.homes && e.me == w.homes[e.key])
  {
    match e
    case Act(me, key) =>
      assert AgentAgrees(w, s, me, w.agents[me]);
      if Wanted(w, key) { assert AtHome(w, w.nodes, key); }
    case _ =>
  }

  lemma StepStaysSettled(w: World, s: set<string>, e: Event)
    requires Calm(w, s) && Enabled(w, e)
    ensures Settled(Next(w, e)) && Anchors(Next(w, e), s)
  {
    StepKeepsTables(w, s, e);
    var v := Next(w, e);
    forall k | Wanted(v, k) ensures AtHome(v, v.nodes, k) {
      assert AtHome(w, w.nodes, k);
      if e.Join? || e.Capacity? { NodesOnlyGrow(w, e, k); }
    }
    forall k | k in s ensures Alive(v.nodes, v.homes[k]) {
      if e.Join? || e.Capacity? { AliveStays(w, e, w.homes[k]); }
    }
  }

  lemma StepKeepsPasses(w: World, s: set<string>, e: Event, p: nat)
    requires Calm(w, s) && Enabled(w, e) && p in Next(w, e).passes
    ensures PassAgrees(Next(w, e), Next(w, e).passes[p])
  {
    StepKeepsTables(w, s, e);
    var v := Next(w, e);
    if p in w.passes { assert PassAgrees(w, w.passes[p]); }
    if e.ReadAssignments? && e.p == p {
      AtHomeDoNotMove(w, w.passes[p]);
      assert v.passes[p] == Writing(map[]);
    } else if e.ReadNodes? && e.p == p {
      forall k | k in v.passes[p].desired ensures AtHome(v, v.passes[p].nodes, k) {
        assert Wanted(w, k) && AtHome(w, w.nodes, k);
      }
    }
  }

  lemma AtHomeDoNotMove(w: World, q: Pass)
    requires q.HasNodes? && PassAgrees(w, q)
    ensures Placed(q.desired, q.nodes, w.homes, w.engines) == map[]
  {
    forall k | k in q.desired ensures !Moves(q.nodes, w.homes, EngineOf(w.engines, k), k) {
      assert AtHome(w, q.nodes, k);
    }
  }

  lemma StepKeepsAgents(w: World, s: set<string>, e: Event, me: string)
    requires Calm(w, s) && Enabled(w, e) && Harmless(w, s, e) && me in Next(w, e).agents
    ensures AgentAgrees(Next(w, e), s, me, Next(w, e).agents[me])
  {
    StepKeepsTables(w, s, e);
    if me in w.agents { assert AgentAgrees(w, s, me, w.agents[me]); }
  }

  lemma StepStaysCalm(w: World, s: set<string>, e: Event)
    requires Calm(w, s) && Enabled(w, e) && Harmless(w, s, e)
    ensures Calm(Next(w, e), s)
  {
    var v := Next(w, e);
    StepStaysSettled(w, s, e);
    forall p | p in v.passes ensures PassAgrees(v, v.passes[p]) { StepKeepsPasses(w, s, e, p); }
    forall me | me in v.agents ensures AgentAgrees(v, s, me, v.agents[me]) { StepKeepsAgents(w, s, e, me); }
  }

  lemma NodesOnlyGrow(w: World, e: Event, key: string)
    requires (e.Join? || e.Capacity?) && Enabled(w, e) && AtHome(w, w.nodes, key)
    ensures AtHome(Next(w, e), Next(w, e).nodes, key)
  {
    var v := Next(w, e);
    var n :| n in w.nodes && n.id == w.homes[key] && Supports(n, EngineOf(w.engines, key));
    var i :| 0 <= i < |w.nodes| && w.nodes[i] == n;
    assert v.nodes[i] in v.nodes;
  }

  lemma AliveStays(w: World, e: Event, id: string)
    requires (e.Join? || e.Capacity?) && Enabled(w, e) && Alive(w.nodes, id)
    ensures Alive(Next(w, e).nodes, id)
  {
    var v := Next(w, e);
    var n :| n in w.nodes && n.id == id;
    var i :| 0 <= i < |w.nodes| && w.nodes[i] == n;
    assert v.nodes[i] in v.nodes && v.nodes[i].id == id;
  }

  /** Only the agents of `u` ever fail to read the live nodes. */
  predicate FailuresWithin(es: seq<Event>, u: set<string>) {
    forall i :: 0 <= i < |es| && es[i].AliveUnread? ==> es[i].me in u
  }

  /** Every actuation since `from` of a key of `s` is by the node it is assigned to. */
  ghost predicate OwnersAct(w: World, s: set<string>, from: nat) {
    forall i :: from <= i < |w.acts| ==>
      var (me, key) := w.acts[i]; key in s ==> key in w.homes && me == w.homes[key]
  }

  lemma {:induction false} CalmRun(w: World, s: set<string>, u: set<string>, es: seq<Event>, from: nat)
    requires Calm(w, s) && Admissible(w, es) && OwnersAct(w, s, from)
    requires FailuresWithin(es, u) && forall me :: me in u ==> Respects(w, s, me, {})
    ensures var v := Final(w, es); v.homes == w.homes && v.desired == w.desired && OwnersAct(v, s, from)
    decreases es
  {
    if es != [] {
      StepKeepsTables(w, s, es[0]);
      StepStaysCalm(w, s, es[0]);
      CalmRun(Next(w, es[0]), s, u, es[1..], from);
    }
  }

  /** From a settled fleet with no pass under way, along every interleaving of scheduler and
      converge passes, with nodes joining and capacities changing: no assignment and no desired
      state ever changes, and a key on a node that is alive from the start, whatever its desired
      state, is actuated by that node only. */
  lemma SettledFleetIsStable(w: World, es: seq<Event>)
    requires Settled(w) && w.passes == map[] && w.agents == map[]
    requires Admissible(w, es) && FailuresWithin(es, {})
    ensures var v := Final(w, es);
            && v.homes == w.homes && v.desired == w.desired
            && forall i :: |w.acts| <= i < |v.acts| ==>
                 var (me, key) := v.acts[i];
                 key in w.homes && Alive(w.nodes, w.homes[key]) ==> me == w.homes[key]
  {
    var s := set k | k in w.homes && Alive(w.nodes, w.homes[k]);
    forall k | Wanted(w, k) ensures k in s {
      assert AtHome(w, w.nodes, k);
    }
    CalmRun(w, s, {}, es, |w.acts|);
  }

  // ---- Reads that fail ------------------------------------------------------------------------

  /** An agent that cannot read the live nodes takes every key for its own. Where the reads of
      the agents of `u` may fail, the assignments of a settled fleet stay along every run if and
      only if each of these agents is the home of every wanted key. */
  lemma UnreadNodesAreHarmlessExactly(w: World, u: set<string>)
    requires Settled(w) && w.passes == map[] && w.agents == map[]
    ensures (forall es :: Admissible(w, es) && FailuresWithin(es, u) ==> Final(w, es).homes == w.homes)
       <==> forall me, k :: me in u && Wanted(w, k) ==> k in w.homes && w.homes[k] == me
  {
    if me: string, k: string :| me in u && Wanted(w, k) && !(k in w.homes && w.homes[k] == me) {
      assert AtHome(w, w.nodes, k);
      var es := UnreadNodesMoveAKey(w, me, k);
      assert Final(w, es).homes != w.homes;
    } else {
      var s := set k | k in w.desired && Wanted(w, k);
      forall k | k in s ensures k in w.homes && Alive(w.nodes, w.homes[k]) {
        assert AtHome(w, w.nodes, k);
      }
      forall es | Admissible(w, es) && FailuresWithin(es, u) ensures Final(w, es).homes == w.homes {
        CalmRun(w, s, u, es, |w.acts|);
      }
    }
  }

  /** Four events after which another agent has claimed a wanted key, or thrown its assignment
      away if it cannot run it. */
  lemma UnreadNodesMoveAKey(w: World, me: string, key: string) returns (es: seq<Event>)
    requires w.agents == map[] && Wanted(w, key) && key in w.homes && w.homes[key] != me
    ensures Admissible(w, es) && FailuresWithin(es, {me})
    ensures var v := Final(w, es);
            v.homes == if (me, EngineOf(w.engines, key)) in w.runs then w.homes[key := me] else w.homes - {key}
  {
    es := [BeginAgent(me), AliveUnread(me), ReadDesired(me), Act(me, key)];
    var w1 := Next(w, es[0]);
    var w2 := Next(w1, es[1]);
    var w3 := Next(w2, es[2]);
    assert w3.agents[me] == Acting({}, w.desired);
    RunOf4(w, es);
  }

  // ---- A pass that nothing interrupts ------------------------------------------------------------

  /** The tables that pass p has yet to leave behind are those of `goal`. */
  ghost predicate Towards(w: World, p: nat, was: World, goal: Assignments) {
    && p in w.passes && w == was.(homes := w.homes, passes := was.passes[p := w.passes[p]])
    && match w.passes[p]
       case HasDesired(desired) => w.homes == was.homes && desired == WantRunning(was.desired)
       case HasNodes(desired, nodes) =>
         w.homes == was.homes && desired == WantRunning(was.desired) && nodes == was.nodes
       case Writing(changes) => w.homes + changes == goal
  }

  /** Steps of pass p up to its end. */
  predicate RunsToItsEnd(p: nat, es: seq<Event>) {
    && es != [] && es[|es| - 1] == EndPass(p)
    && forall i :: 0 <= i < |es| - 1 ==> StepsPass(p, es[i])
  }

  ghost function Goal(w: World): Assignments {
    w.homes + Placed(WantRunning(w.desired), w.nodes, w.homes, w.engines)
  }

  predicate StepsPass(p: nat, e: Event) { (e.ReadNodes? || e.ReadAssignments? || e.Write?) && e.p == p }

  lemma StepGoesTowards(w: World, p: nat, was: World, e: Event)
    requires Towards(w, p, was, Goal(was)) && Enabled(w, e) && StepsPass(p, e)
    ensures Towards(Next(w, e), p, was, Goal(was))
  {
    if e.Write? {
      WriteGoesTowards(w, p, was, e.key);
    } else {
      var v := Next(w, e);
      assert v.passes == was.passes[p := v.passes[p]];
    }
  }

  lemma WriteGoesTowards(w: World, p: nat, was: World, key: string)
    requires Towards(w, p, was, Goal(was)) && Enabled(w, Write(p, key))
    ensures Towards(Next(w, Write(p, key)), p, was, Goal(was))
  {
    var v, changes := Next(w, Write(p, key)), w.passes[p].changes;
    OneMoreWritten(w.homes, changes, key);
    assert v.passes == was.passes[p := Writing(changes - {key})];
  }

  lemma OneMoreWritten(homes: Assignments, changes: Assignments, key: string)
    requires key in changes
    ensures homes[key := changes[key]] + (changes - {key}) == homes + changes
  {
  }

  lemma EndIsGoal(w: World, p: nat, was: World)
    requires p !in was.passes && Towards(w, p, was, Goal(was)) && Enabled(w, EndPass(p))
    ensures Next(w, EndPass(p)) == was.(homes := Goal(was))
  {
    var v := Next(w, EndPass(p));
    assert was.passes[p := w.passes[p]] - {p} == was.passes;
    assert v == w.(passes := was.passes);
    assert w.homes == w.homes + w.passes[p].changes;
  }

  lemma {:induction false} PassReachesGoal(w: World, p: nat, was: World, es: seq<Event>)
    requires p !in was.passes && Towards(w, p, was, Goal(was))
    requires Admissible(w, es) && RunsToItsEnd(p, es)
    ensures Final(w, es) == was.(homes := Goal(was))
    decreases es
  {
    var v := Next(w, es[0]);
    if |es| == 1 {
      EndIsGoal(w, p, was);
      assert Final(v, es[1..]) == v;
    } else {
      StepGoesTowards(w, p, was, es[0]);
      PassReachesGoal(v, p, was, es[1..]);
    }
  }

  /** A scheduler pass whose reads and writes nothing interrupts, in whatever order it writes,
      leaves the assignments of one placement, and settles a fleet whose keys wanted asleep are
      at home, if each key wanted running runs on some live node and nodes advertise what they
      run. */
  lemma PassSettles(w: World, p: nat, es: seq<Event>)
    requires p !in w.passes && es != [] && es[0] == BeginPass(p) && RunsToItsEnd(p, es[1..]) && Admissible(w, es)
    requires forall k :: k in w.desired && w.desired[k].Asleep? ==> AtHome(w, w.nodes, k)
    requires forall k :: k in WantRunning(w.desired) ==> Placeable(w.nodes, EngineOf(w.engines, k))
    requires forall n, engine :: n in w.nodes && Supports(n, engine) ==> (n.id, engine) in w.runs
    ensures Final(w, es) == w.(homes := Goal(w)) && Settled(Final(w, es))
  {
    PassReachesGoal(Next(w, es[0]), p, w, es[1..]);
    PlacementSettles(w);
  }

  lemma PlacementSettles(w: World)
    requires forall k :: k in w.desired && w.desired[k].Asleep? ==> AtHome(w, w.nodes, k)
    requires forall k :: k in WantRunning(w.desired) ==> Placeable(w.nodes, EngineOf(w.engines, k))
    requires forall n, engine :: n in w.nodes && Supports(n, engine) ==> (n.id, engine) in w.runs
    ensures Settled(w.(homes := Goal(w)))
  {
    var v := w.(homes := Goal(w));
    forall k | Wanted(v, k) ensures AtHome(v, v.nodes, k) {
      if k in WantRunning(w.desired) {
        PassPlacesAll(WantRunning(w.desired), w.nodes, w.homes, w.engines, k);
      } else {
        assert AtHome(w, w.nodes, k);
      }
    }
  }

  /** Such a pass can always run. */
  lemma PassCanRun(w: World, p: nat) returns (es: seq<Event>)
    requires p !in w.passes
    ensures es != [] && es[0] == BeginPass(p) && RunsToItsEnd(p, es[1..]) && Admissible(w, es)
  {
    var w1 := Next(w, BeginPass(p));
    var w2 := Next(w1, ReadNodes(p));
    var w3 := Next(w2, ReadAssignments(p));
    var writes := WritesCanRun(w3, p, w3.passes[p].changes);
    var three := [BeginPass(p), ReadNodes(p), ReadAssignments(p)];
    es := three + writes;
    assert es[1..][1..] == es[2..] && es[2..][1..] == es[3..] == writes;
    assert es[1..][0] == ReadNodes(p) && es[2..][0] == ReadAssignments(p);
    assert Admissible(w2, es[2..]);
    assert Admissible(w1, es[1..]);
    var tail := es[1..];
    forall i | 0 <= i < |tail| - 1 && i >= 2 ensures tail[i] == writes[i - 2] {}
  }

  lemma {:induction false} WritesCanRun(w: World, p: nat, changes: Assignments) returns (es: seq<Event>)
    requires p in w.passes && w.passes[p] == Writing(changes)
    ensures Admissible(w, es) && RunsToItsEnd(p, es)
    ensures forall i :: 0 <= i < |es| - 1 ==> es[i].Write? && es[i].p == p
    decreases |changes|
  {
    if changes == map[] {
      es := [EndPass(p)];
      assert es[1..] == [] && Admissible(Next(w, EndPass(p)), []);
    } else {
      var key :| key in changes;
      var e := Write(p, key);
      var rest := WritesCanRun(Next(w, e), p, changes - {key});
      es := [e] + rest;
      assert es[1..] == rest;
    }
  }

  lemma RunOf4(w: World, es: seq<Event>)
    requires |es| == 4 && Enabled(w, es[0]) && Enabled(Next(w, es[0]), es[1])
    requires var w2 := Next(Next(w, es[0]), es[1]); Enabled(w2, es[2]) && Enabled(Next(w2, es[2]), es[3])
    ensures Admissible(w, es) && Final(w, es) == Next(Next(Next(Next(w, es[0]), es[1]), es[2]), es[3])
  {
    var w1 := Next(w, es[0]);
    var w2 := Next(w1, es[1]);
    var w3 := Next(w2, es[2]);
    var w4 := Next(w3, es[3]);
    assert Admissible(w4, es[4..]) && Final(w4, es[4..]) == w4;
    assert es[3..][0] == es[3] && es[3..][1..] == es[4..];
    assert Admissible(w3, es[3..]) && Final(w3, es[3..]) == w4;
    assert es[2..][0] == es[2] && es[2..][1..] == es[3..];
    assert Admissible(w2, es[2..]) && Final(w2, es[2..]) == w4;
    assert es[1..][0] == es[1] && es[1..][1..] == es[2..];
    assert Admissible(w1, es[1..]) && Final(w1, es[1..]) == w4;
  }
}
