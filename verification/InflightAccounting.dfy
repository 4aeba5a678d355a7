/**
  Any number of proxied requests over one table of in-flight counters.

  A counter is right if it is the number of requests counted on its backend. Every step of
  every request keeps that, but for two that are pinned down exactly: a `finally` interrupted
  while it closes the upstream response, and the stream made of a left-over, closed 5xx.
 */
module InflightAccounting {
  import opened Options
  import opened Failover

  datatype Request = Request(chain: seq<Group>, phase: Phase)

  datatype World = World(inflight: Counters, reqs: map<nat, Request>)

  datatype Event = Arrive(r: nat, chain: seq<Group>) | Do(r: nat, e: Failover.Event)

  ghost predicate Formed(w: World) { forall r :: r in w.reqs ==> Placed(w.reqs[r].chain, w.reqs[r].phase) }

  predicate Enabled(w: World, e: Event) {
    match e
    case Arrive(r, chain) => r !in w.reqs && chain != []
    case Do(r, f) => r in w.reqs && Failover.Enabled(w.reqs[r].chain, w.reqs[r].phase, f)
  }

  function Next(w: World, e: Event): World
    requires Enabled(w, e)
  {
    match e
    case Arrive(r, chain) => w.(reqs := w.reqs[r := Request(chain, Start())])
    case Do(r, f) =>
      var q := w.reqs[r];
      World(Applied(w.inflight, EffectOf(q.chain, q.phase, f)),
            w.reqs[r := q.(phase := Step(q.chain, q.phase, f))])
  }

  function Owner(q: Request): Option<string>
    requires Placed(q.chain, q.phase)
  {
    CountedOn(q.chain, q.phase)
  }

  ghost function Owing(w: World, k: string): set<nat>
    requires Formed(w)
  {
    set r | r in w.reqs && Owner(w.reqs[r]) == Some(k)
  }

  /** Each counter is the number of requests counted on that backend, and no zero is stored. */
  ghost predicate Exact(w: World) {
    && Formed(w)
    && (forall k :: Get(w.inflight, k) == |Owing(w, k)|)
    && forall k :: k in w.inflight ==> w.inflight[k] > 0
  }

  /** The two ways to get a counter wrong. */
  predicate Breaks(w: World, e: Event)
    requires Enabled(w, e)
  {
    e.Do? && match w.reqs[e.r].phase
             case Unwinding(_) => e.e.CloseRaises?
             case Streaming(key, live) => !live && Get(w.inflight, key) > 0
             case _ => false
  }

  // ---- One step -----------------------------------------------------------------------------

  /** How a step moves what a request owes, beside what it does to the counters. */
  lemma EffectMovesOwner(chain: seq<Group>, ph: Phase, e: Failover.Event)
    requires Failover.Enabled(chain, ph, e)
    ensures Placed(chain, Step(chain, ph, e))
    ensures var before, after := CountedOn(chain, ph), CountedOn(chain, Step(chain, ph, e));
            match EffectOf(chain, ph, e)
            case Up(k) => before.None? && after == Some(k)
            case Down(k) => after.None? && before == if ph.Streaming? && !ph.live then None else Some(k)
            case Nothing => if ph.Unwinding? then before == Some(ph.key) && after.None? else after == before
  {
  }

  lemma OwingAfter(w: World, r: nat, q: Request, k: string)
    requires Formed(w) && Placed(q.chain, q.phase)
    requires r in w.reqs || Owner(q).None?
    ensures var v := World(w.inflight, w.reqs[r := q]);
            && Formed(v)
            && |Owing(v, k)| == |Owing(w, k)|
                                - (if r in w.reqs && Owner(w.reqs[r]) == Some(k) then 1 else 0)
                                + (if Owner(q) == Some(k) then 1 else 0)
  {
    var v := World(w.inflight, w.reqs[r := q]);
    forall i ensures i in Owing(v, k) <==> if i == r then Owner(q) == Some(k) else i in Owing(w, k) {}
    SizeAfter(Owing(w, k), r, Owing(v, k));
  }

  /** Two sets that differ in at most r. */
  lemma SizeAfter(s: set<nat>, r: nat, t: set<nat>)
    requires forall i :: i != r ==> (i in s <==> i in t)
    ensures |t| == |s| - (if r in s then 1 else 0) + if r in t then 1 else 0
  {
    SizeWithout(s, r);
    SizeWithout(t, r);
    assert s - {r} == t - {r};
  }

  lemma SizeWithout(s: set<nat>, r: nat)
    ensures |s - {r}| == |s| - if r in s then 1 else 0
  {
    assert r !in s ==> s - {r} == s;
  }

  /** How many owe a decrement on k after a step. */
  lemma OwingAfterStep(w: World, e: Event, k: string)
    requires Formed(w) && Enabled(w, e)
    ensures var v := Next(w, e);
            && Formed(v)
            && |Owing(v, k)| == |Owing(w, k)|
                                - (if e.r in w.reqs && Owner(w.reqs[e.r]) == Some(k) then 1 else 0)
                                + (if Owner(v.reqs[e.r]) == Some(k) then 1 else 0)
  {
    var v := Next(w, e);
    if e.Do? { EffectMovesOwner(w.reqs[e.r].chain, w.reqs[e.r].phase, e.e); }
    OwingAfter(w, e.r, v.reqs[e.r], k);
    assert Owing(World(w.inflight, v.reqs), k) == Owing(v, k);
  }

  lemma BreaksExactness(w: World, e: Event)
    requires Exact(w) && Enabled(w, e) && Breaks(w, e)
    ensures !Exact(Next(w, e))
  {
    var k := w.reqs[e.r].phase.key;
    OwingAfterStep(w, e, k);
    assert Get(Next(w, e).inflight, k) != |Owing(Next(w, e), k)|;
  }

  /** A step keeps the counters exact if and only if it is not one of the two. */
  lemma StepKeepsExact(w: World, e: Event)
    requires Exact(w) && Enabled(w, e)
    ensures Exact(Next(w, e)) <==> !Breaks(w, e)
  {
    var v := Next(w, e);
    if Breaks(w, e) {
      BreaksExactness(w, e);
    } else {
      if e.Do? { EffectMovesOwner(w.reqs[e.r].chain, w.reqs[e.r].phase, e.e); }
      OwingAfterStep(w, e, "");
      forall k ensures Get(v.inflight, k) == |Owing(v, k)| {
        OwingAfterStep(w, e, k);
      }
    }
  }

  /** Where the counters are exact, a decrement finds a positive counter, unless it belongs
      to the stream of a left-over. */
  lemma DecrementsArePositive(w: World, r: nat, e: Failover.Event)
    requires Exact(w) && Enabled(w, Do(r, e))
    requires var q := w.reqs[r]; EffectOf(q.chain, q.phase, e).Down? && !(q.phase.Streaming? && !q.phase.live)
    ensures var q := w.reqs[r]; Get(w.inflight, EffectOf(q.chain, q.phase, e).key) > 0
  {
    var q := w.reqs[r];
    EffectMovesOwner(q.chain, q.phase, e);
    assert r in Owing(w, EffectOf(q.chain, q.phase, e).key);
  }

  // ---- Whole runs -----------------------------------------------------------------------------

  predicate Admissible(w: World, es: seq<Event>)
    decreases es
  {
    es == [] || (Enabled(w, es[0]) && Admissible(Next(w, es[0]), es[1..]))
  }

  function Final(w: World, es: seq<Event>): World
    requires Admissible(w, es)
    decreases es
  {
    if es == [] then w else Final(Next(w, es[0]), es[1..])
  }

  const Init: World := World(map[], map[])

  /** The counters are exact at the start, after every event, and so at the end. */
  ghost predicate ExactThroughout(w: World, es: seq<Event>)
    requires Admissible(w, es)
    decreases es
  {
    Exact(w) && (es == [] || ExactThroughout(Next(w, es[0]), es[1..]))
  }

  predicate NeverBreaks(w: World, es: seq<Event>)
    requires Admissible(w, es)
    decreases es
  {
    es == [] || (!Breaks(w, es[0]) && NeverBreaks(Next(w, es[0]), es[1..]))
  }

  lemma {:induction false} ThroughoutExactly(w: World, es: seq<Event>)
    requires Exact(w) && Admissible(w, es)
    ensures ExactThroughout(w, es) <==> NeverBreaks(w, es)
    decreases es
  {
    if es != [] {
      StepKeepsExact(w, es[0]);
      if Exact(Next(w, es[0])) {
        ThroughoutExactly(Next(w, es[0]), es[1..]);
      }
    }
  }

  lemma InitIsExact()
    ensures Exact(Init)
  {
    forall k ensures Owing(Init, k) == {} {}
  }

  /** Along every interleaving of requests, the counters are exact after each step if and only
      if no step is one of the two that break them. */
  lemma CountersStayExactExactly(es: seq<Event>)
    requires Admissible(Init, es)
    ensures ExactThroughout(Init, es) <==> NeverBreaks(Init, es)
  {
    InitIsExact();
    ThroughoutExactly(Init, es);
  }

  /** A request gives up its last group with an event stream left over. */
  predicate StreamsLeftOver(q: Request, e: Failover.Event)
    requires Failover.Enabled(q.chain, q.phase, e)
  {
    e.NoPick? && q.phase.left.Some? && q.phase.left.value.sse && q.phase.g + 1 == |q.chain|
  }

  /** Nobody interrupts a `finally`, and no stream is made of a left-over. */
  predicate Calm(w: World, e: Event)
    requires Enabled(w, e)
  {
    e.Do? ==> !e.e.CloseRaises? && !StreamsLeftOver(w.reqs[e.r], e.e)
  }

  predicate AllCalm(w: World, es: seq<Event>)
    requires Admissible(w, es)
    decreases es
  {
    es == [] || (Calm(w, es[0]) && AllCalm(Next(w, es[0]), es[1..]))
  }

  /** The request is not about to stream a left-over. */
  predicate NotLeftOver(ph: Phase) {
    (ph.Serving? && ph.response.sse ==> ph.live) && (ph.Streaming? ==> ph.live)
  }

  ghost predicate NoLeftOvers(w: World) { forall r :: r in w.reqs ==> NotLeftOver(w.reqs[r].phase) }

  lemma CalmMakesNoLeftOver(q: Request, e: Failover.Event)
    requires Failover.Enabled(q.chain, q.phase, e) && NotLeftOver(q.phase) && !StreamsLeftOver(q, e)
    ensures NotLeftOver(Step(q.chain, q.phase, e))
  {
  }

  lemma {:induction false} RunKeepsExact(w: World, es: seq<Event>)
    requires Exact(w) && NoLeftOvers(w) && Admissible(w, es) && AllCalm(w, es)
    ensures Exact(Final(w, es)) && NoLeftOvers(Final(w, es))
    decreases es
  {
    if es != [] {
      var e := es[0];
      StepKeepsExact(w, e);
      if e.Do? {
        CalmMakesNoLeftOver(w.reqs[e.r], e.e);
      }
      RunKeepsExact(Next(w, e), es[1..]);
    }
  }

  /** In every interleaving in which no `finally` is interrupted and no left-over is streamed,
      whatever fails over to the next group after a 5xx, the counters are exact, every
      decrement finds a positive counter, and when all requests have ended none is left. */
  lemma CountersAreExact(es: seq<Event>)
    requires Admissible(Init, es) && AllCalm(Init, es)
    ensures var w := Final(Init, es);
            && Exact(w)
            && (forall r, e :: Enabled(w, Do(r, e)) ==>
                  match EffectOf(w.reqs[r].chain, w.reqs[r].phase, e)
                  case Down(k) => Get(w.inflight, k) > 0
                  case _ => true)
            && ((forall r :: r in w.reqs ==> w.reqs[r].phase.Ended?) ==> w.inflight == map[])
  {
    InitIsExact();
    RunKeepsExact(Init, es);
    var w := Final(Init, es);
    forall r, e | Enabled(w, Do(r, e)) && EffectOf(w.reqs[r].chain, w.reqs[r].phase, e).Down?
      ensures Get(w.inflight, EffectOf(w.reqs[r].chain, w.reqs[r].phase, e).key) > 0
    {
      DecrementsArePositive(w, r, e);
    }
    if forall r :: r in w.reqs ==> w.reqs[r].phase.Ended? {
      forall k ensures k !in w.inflight {
        assert Owing(w, k) == {};
      }
    }
  }

  // ---- When a left-over arises -------------------------------------------------------------------

  /** A request has tried one instance per attempt, and a left-over is of an earlier attempt. */
  ghost predicate Counted(chain: seq<Group>, ph: Phase) {
    && Placed(chain, ph)
    && (ph.Choosing? ==> |ph.tried| == ph.attempt && (ph.left.Some? ==> ph.attempt > 0))
    && (ph.Connecting? || ph.Closing? ==> |ph.tried| == ph.attempt + 1)
    && (ph.Connecting? ==> ph.left.Some? ==> ph.attempt > 0)
  }

  lemma StepKeepsCounted(chain: seq<Group>, ph: Phase, e: Failover.Event)
    requires Counted(chain, ph) && Failover.Enabled(chain, ph, e)
    ensures Counted(chain, Step(chain, ph, e))
  {
    if e.Pick? {
      assert |ph.tried + {e.id}| == |ph.tried| + 1;
    }
  }

  ghost predicate AllCounted(w: World) { forall r :: r in w.reqs ==> Counted(w.reqs[r].chain, w.reqs[r].phase) }

  lemma StepKeepsAllCounted(w: World, e: Event)
    requires AllCounted(w) && Enabled(w, e)
    ensures AllCounted(Next(w, e))
  {
    if e.Do? {
      StepKeepsCounted(w.reqs[e.r].chain, w.reqs[e.r].phase, e.e);
    }
  }

  lemma {:induction false} RunKeepsAllCounted(w: World, es: seq<Event>)
    requires AllCounted(w) && Admissible(w, es)
    ensures AllCounted(Final(w, es))
    decreases es
  {
    if es != [] {
      StepKeepsAllCounted(w, es[0]);
      RunKeepsAllCounted(Next(w, es[0]), es[1..]);
    }
  }

  ghost predicate DistinctIds(g: Group) { forall i, j :: 0 <= i < j < |g.ids| ==> g.ids[i] != g.ids[j] }

  lemma SleeperExists(chain: seq<Group>, ph: Phase, asleep: set<string>)
    requires Counted(chain, ph) && ph.Choosing? && ph.left.Some? && DistinctIds(chain[ph.g])
    requires Failover.Enabled(chain, ph, NoPick(asleep))
    ensures exists id :: id in chain[ph.g].ids && id !in ph.tried && id in asleep
  {
    var ids := chain[ph.g].ids;
    var all := set id | id in ids;
    DistinctSize(ids);
    if all <= ph.tried {
      SubsetSize(all, ph.tried);
      assert false;
    }
    var id :| id in all && id !in ph.tried;
    assert id in ids;
  }

  /** In every run: a request gives up a group whose instances have distinct ids with a
      left-over only if one of these instances is asleep and was not tried. */
  lemma LeftOverNeedsASleeper(es: seq<Event>, r: nat, asleep: set<string>)
    requires Admissible(Init, es) && Enabled(Final(Init, es), Do(r, NoPick(asleep)))
    requires var q := Final(Init, es).reqs[r]; q.phase.left.Some? && DistinctIds(q.chain[q.phase.g])
    ensures var q := Final(Init, es).reqs[r];
            exists id :: id in q.chain[q.phase.g].ids && id !in q.phase.tried && id in asleep
  {
    RunKeepsAllCounted(Init, es);
    var q := Final(Init, es).reqs[r];
    SleeperExists(q.chain, q.phase, asleep);
  }

  /** The instances of a group have distinct ids and are awake, and no `finally` is interrupted. */
  ghost predicate Sleepless(es: seq<Event>) {
    forall i :: 0 <= i < |es| ==>
      match es[i]
      case Arrive(_, chain) => forall g :: g in chain ==> DistinctIds(g)
      case Do(_, e) => !e.CloseRaises? && (e.NoPick? ==> e.asleep == {})
  }

  ghost predicate AllDistinct(w: World) { forall r, g :: r in w.reqs && g in w.reqs[r].chain ==> DistinctIds(g) }

  lemma {:induction false} SleeplessIsCalm(w: World, es: seq<Event>)
    requires AllCounted(w) && AllDistinct(w) && Admissible(w, es) && Sleepless(es)
    ensures AllCalm(w, es)
    decreases es
  {
    if es != [] {
      var e := es[0];
      if e.Do? && e.e.NoPick? && w.reqs[e.r].phase.left.Some? {
        SleeperExists(w.reqs[e.r].chain, w.reqs[e.r].phase, e.e.asleep);
      }
      StepKeepsAllCounted(w, e);
      SleeplessIsCalm(Next(w, e), es[1..]);
    }
  }

  /** So where nothing sleeps and ids are distinct, the counters are exact without more ado. */
  lemma AwakeFleetIsExact(es: seq<Event>)
    requires Admissible(Init, es) && Sleepless(es)
    ensures Exact(Final(Init, es))
  {
    SleeplessIsCalm(Init, es);
    CountersAreExact(es);
  }

  lemma {:induction false} DistinctSize(ids: seq<string>)
    requires forall i, j :: 0 <= i < j < |ids| ==> ids[i] != ids[j]
    ensures |set id | id in ids| == |ids|
  {
    if ids != [] {
      DistinctSize(ids[1..]);
      assert (set id | id in ids) == {ids[0]} + set id | id in ids[1..];
    }
  }

  lemma {:induction false} SubsetSize<T>(a: set<T>, b: set<T>)
    requires a <= b
    ensures |a| <= |b|
  {
    assert b == a + (b - a);
  }

  // ---- The left-over stream, step by step -----------------------------------------------------------

  /** A run in which no `finally` is interrupted. */
  ghost predicate RunsTo(w: World, es: seq<Event>, end: World) {
    && Admissible(w, es) && Final(w, es) == end
    && forall i :: 0 <= i < |es| && es[i].Do? ==> !es[i].e.CloseRaises?
  }

  /** One event before a run. */
  lemma Before(w: World, e: Event, next: World, es: seq<Event>, end: World) returns (more: seq<Event>)
    requires Enabled(w, e) && Next(w, e) == next && (e.Do? ==> !e.e.CloseRaises?) && RunsTo(next, es, end)
    ensures RunsTo(w, more, end)
  {
    more := [e] + es;
    assert more[1..] == es;
  }

  lemma FirstPick(chain: seq<Group>, g: string, a: string)
    requires |chain| == 1 && chain[0].name == g && a in chain[0].ids
    ensures Failover.Enabled(chain, Start(), Pick(a, {}))
    ensures Step(chain, Start(), Pick(a, {})) == Connecting(0, 0, {a}, None, a)
    ensures Applied(map[], EffectOf(chain, Start(), Pick(a, {}))) == map[Key(g, a) := 1]
  {
    assert {} + {a} == {a};
  }

  /** Four events: the first instance answers 500 with an event stream and is closed for a retry. */
  lemma AttemptFails(chain: seq<Group>, g: string, a: string, b: string, es: seq<Event>, end: World)
    returns (all: seq<Event>)
    requires a != b && chain == [Group(g, [a, b])]
    requires RunsTo(World(map[], map[0 := Request(chain, Choosing(0, 1, {a}, Some(Response(500, true)), a))]), es, end)
    ensures RunsTo(Init, all, end)
  {
    var r, k := Response(500, true), Key(g, a);
    var w1 := World(map[], map[0 := Request(chain, Start())]);
    var w2 := World(map[k := 1], map[0 := Request(chain, Connecting(0, 0, {a}, None, a))]);
    var w3 := World(map[k := 1], map[0 := Request(chain, Closing(0, 0, {a}, r, a))]);
    var w4 := World(map[], map[0 := Request(chain, Choosing(0, 1, {a}, Some(r), a))]);
    assert Applied(w3.inflight, Down(k)) == map[];
    all := Before(w3, Do(0, Closed), w4, es, end);
    all := Before(w2, Do(0, Connected(r)), w3, all, end);
    FirstPick(chain, g, a);
    all := Before(w1, Do(0, Pick(a, {})), w2, all, end);
    all := Before(Init, Arrive(0, chain), w1, all, end);
  }

  /** Two events: the only group is given up with the left-over, whose stream is handed over. */
  lemma LeftOverIsHandedOver(chain: seq<Group>, g: string, a: string, b: string, es: seq<Event>, end: World)
    returns (all: seq<Event>)
    requires a != b && chain == [Group(g, [a, b])]
    requires RunsTo(World(map[], map[0 := Request(chain, Streaming(Key(g, a), false))]), es, end)
    ensures RunsTo(World(map[], map[0 := Request(chain, Choosing(0, 1, {a}, Some(Response(500, true)), a))]), all, end)
  {
    var r, k := Response(500, true), Key(g, a);
    var w4 := World(map[], map[0 := Request(chain, Choosing(0, 1, {a}, Some(r), a))]);
    var w5 := World(map[], map[0 := Request(chain, Serving(k, r, false))]);
    var w6 := World(map[], map[0 := Request(chain, Streaming(k, false))]);
    all := Before(w5, Do(0, Deliver), w6, es, end);
    all := Before(w4, Do(0, NoPick({b})), w5, all, end);
  }

  /** Three events: another request is counted on the instance, and the stream uncounts it. */
  lemma AnotherIsUncounted(chain: seq<Group>, g: string, a: string) returns (es: seq<Event>, end: World)
    requires |chain| == 1 && chain[0].name == g && a in chain[0].ids
    ensures RunsTo(World(map[], map[0 := Request(chain, Streaming(Key(g, a), false))]), es, end) && !Exact(end)
  {
    var w := World(map[], map[0 := Request(chain, Streaming(Key(g, a), false))]);
    var w1 := w.(reqs := w.reqs[1 := Request(chain, Start())]);
    FirstPick(chain, g, a);
    var other := Request(chain, Connecting(0, 0, {a}, None, a));
    var w2 := World(map[Key(g, a) := 1], w1.reqs[1 := other]);
    end := Next(w2, Do(0, Finish));
    FinishUndercounts(w2, Key(g, a), other);
    es := Before(w2, Do(0, Finish), end, [], end);
    es := Before(w1, Do(1, Pick(a, {})), w2, es, end);
    es := Before(w, Arrive(1, chain), w1, es, end);
  }

  lemma FinishUndercounts(w: World, k: string, other: Request)
    requires Placed(other.chain, other.phase) && CountedOn(other.chain, other.phase) == Some(k)
    requires 0 in w.reqs && 1 in w.reqs && w.inflight == map[k := 1]
    requires w.reqs[0].phase == Streaming(k, false) && w.reqs[1] == other
    ensures !Exact(Next(w, Do(0, Finish)))
  {
    var v := Next(w, Do(0, Finish));
    assert Get(v.inflight, k) == 0 && v.reqs[1] == other;
    assert Formed(v) ==> 1 in Owing(v, k);
  }

  /** For every group and two of its instances: nine events, of which no closing is interrupted,
      that take the counter of an instance below the one request still on it. Request 0 hands
      over the stream of a left-over, whose decrement takes what request 1 has counted. */
  lemma ALeftOverStreamUndercounts(g: string, a: string, b: string)
    requires a != b
    ensures exists es, w :: RunsTo(Init, es, w) && !Exact(w)
  {
    var chain := [Group(g, [a, b])];
    var es, end := AnotherIsUncounted(chain, g, a);
    es := LeftOverIsHandedOver(chain, g, a, b, es, end);
    es := AttemptFails(chain, g, a, b, es, end);
  }
}
