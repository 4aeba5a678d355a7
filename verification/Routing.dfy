/**
  Which instance of a group takes a request: the filters every strategy shares, and the
  strategies.

  An instance is its id. What the router knows of the instances of one group is a view; the
  hash of a key and the draws of the random strategies are parameters.
 */
module Routing {
  import opened Options
  import opened Ordering

  datatype View = View(load: map<string, real>, inflight: map<string, nat>,
                       cooling: set<string>, asleep: set<string>, draining: set<string>)

  datatype Strategy = RoundRobin | Random | LeastInflight | LeastLoad | P2c | Affinity(key: Option<string>)

  datatype Refusal = NoInstances | NothingToTry | AllAsleep

  datatype Choice = Chosen(id: string) | Refused(why: Refusal)

  /** The draws of a request: one index, and two distinct ones. */
  datatype Draw = Draw(one: nat, first: nat, second: nat)

  const INFLIGHT_WEIGHT: real := 5.0
  const FAIL_OPEN_PENALTY: real := 1000000000.0

  // ---- Scores -------------------------------------------------------------------------------

  function Inflight(v: View, id: string): nat { if id in v.inflight then v.inflight[id] else 0 }

  function InflightScore(v: View, id: string): real {
    Inflight(v, id) as real * INFLIGHT_WEIGHT + if id in v.cooling then FAIL_OPEN_PENALTY else 0.0
  }

  /** A missing metric counts as idle. */
  function Score(v: View, id: string): real {
    (if id in v.load then v.load[id] else 0.0) + InflightScore(v, id)
  }

  function ScoreOf(v: View): string -> real { id => Score(v, id) }

  function InflightOf(v: View): string -> real { id => InflightScore(v, id) }

  function Outside(ids: set<string>): string -> bool { id => id !in ids }

  function Least(score: string -> real, candidates: seq<string>): string
    requires candidates != []
  {
    var n := |candidates| - 1;
    if n == 0 then candidates[0]
    else
      var m := Least(score, candidates[..n]);
      if score(candidates[n]) < score(m) then candidates[n] else m
  }

  method LeastBy(score: string -> real, candidates: seq<string>) returns (best: string)
    requires candidates != []
    ensures best == Least(score, candidates)
  {
    best := candidates[0];
    var bestScore := score(best);
    assert candidates[..1] == [best];
    for i := 1 to |candidates|
      invariant best == Least(score, candidates[..i]) && bestScore == score(best)
    {
      assert candidates[..i + 1][..i] == candidates[..i];
      var s := score(candidates[i]);
      if s < bestScore {
        best, bestScore := candidates[i], s;
      }
    }
    assert candidates[..|candidates|] == candidates;
  }

  /** It is the first of those with the least score. */
  lemma {:induction false} LeastIsFirst(score: string -> real, candidates: seq<string>) returns (k: nat)
    requires candidates != []
    ensures k < |candidates| && Least(score, candidates) == candidates[k]
    ensures forall j :: 0 <= j < |candidates| ==> score(candidates[k]) <= score(candidates[j])
    ensures forall j :: 0 <= j < k ==> score(candidates[k]) < score(candidates[j])
  {
    var n := |candidates| - 1;
    if n == 0 {
      k := 0;
    } else {
      k := LeastIsFirst(score, candidates[..n]);
      assert forall j :: 0 <= j < n ==> candidates[..n][j] == candidates[j];
      if score(candidates[n]) < score(candidates[k]) {
        k := n;
      }
    }
  }

  // ---- Affinity -------------------------------------------------------------------------------

  function Insert(id: string, ring: seq<string>): (r: seq<string>) {
    if ring == [] || Less(id, ring[0]) then [id] + ring else [ring[0]] + Insert(id, ring[1..])
  }

  function SortIds(ids: seq<string>): seq<string> {
    if ids == [] then [] else Insert(ids[|ids| - 1], SortIds(ids[..|ids| - 1]))
  }

  lemma {:induction false} InsertSize(id: string, ring: seq<string>)
    ensures |Insert(id, ring)| == |ring| + 1
  {
    if ring != [] && !Less(id, ring[0]) { InsertSize(id, ring[1..]); }
  }

  lemma {:induction false} SortSize(ids: seq<string>)
    ensures |SortIds(ids)| == |ids|
  {
    if ids != [] {
      SortSize(ids[..|ids| - 1]);
      InsertSize(ids[|ids| - 1], SortIds(ids[..|ids| - 1]));
    }
  }

  function Home(hash: string -> nat, key: string, roster: seq<string>): string
    requires roster != []
  {
    SortSize(roster);
    var ring := SortIds(roster);
    ring[hash(key) % |ring|]
  }

  function AffinePick(hash: string -> nat, key: Option<string>, roster: seq<string>, candidates: seq<string>, v: View,
                      margin: real): string
    requires candidates != []
  {
    var best := Least(ScoreOf(v), candidates);
    if key.None? || key.value == "" then best
    else
      var home := Home(hash, key.value, if roster != [] then roster else candidates);
      if home in candidates && home !in v.cooling && Score(v, home) <= Score(v, best) + margin then home else best
  }

  method Affine(hash: string -> nat, key: Option<string>, roster: seq<string>, candidates: seq<string>, v: View,
                margin: real)
    returns (pick: string)
    requires candidates != []
    ensures pick == AffinePick(hash, key, roster, candidates, v, margin)
  {
    var best := LeastBy(ScoreOf(v), candidates);
    if key.None? || key.value == "" {
      return best;
    }
    var members := if roster != [] then roster else candidates;
    SortSize(members);
    var ring := SortIds(members);
    var home := ring[hash(key.value) % |ring|];
    if home in candidates && home !in v.cooling {
      var homeScore := Score(v, home);
      var bestScore := Score(v, best);
      if homeScore <= bestScore + margin {
        return home;
      }
    }
    return best;
  }

  // ---- The filters ------------------------------------------------------------------------------

  function Keep(ids: seq<string>, p: string -> bool): seq<string> {
    if ids == [] then [] else (if p(ids[0]) then [ids[0]] else []) + Keep(ids[1..], p)
  }

  lemma {:induction false} KeepIs(ids: seq<string>, p: string -> bool)
    ensures forall id :: id in Keep(ids, p) <==> id in ids && p(id)
  {
    if ids != [] {
      KeepIs(ids[1..], p);
      assert ids == [ids[0]] + ids[1..];
    }
  }

  function Awake(v: View, instances: seq<string>, exclude: set<string>): seq<string> {
    Keep(Keep(instances, Outside(exclude)), Outside(v.asleep))
  }

  /** The pool a strategy picks from. */
  function Pool(v: View, instances: seq<string>, exclude: set<string>): seq<string> {
    var awake := Awake(v, instances, exclude);
    var staying := Keep(awake, Outside(v.draining));
    if staying != [] then staying else awake
  }

  function Picked(s: Strategy, counter: nat, pool: seq<string>, instances: seq<string>, v: View, hash: string -> nat,
                  draw: Draw, margin: real): string
    requires pool != []
  {
    match s
    case RoundRobin => pool[counter % |pool|]
    case Random => pool[draw.one % |pool|]
    case LeastInflight => Least(InflightOf(v), pool)
    case LeastLoad => Least(ScoreOf(v), pool)
    case P2c => Least(ScoreOf(v), [pool[draw.first % |pool|], pool[draw.second % |pool|]])
    case Affinity(key) => AffinePick(hash, key, instances, pool, v, margin)
  }

  function Selected(s: Strategy, counter: nat, instances: seq<string>, exclude: set<string>, v: View,
                    hash: string -> nat, draw: Draw, margin: real): Choice {
    var pool := Pool(v, instances, exclude);
    if instances == [] then Refused(NoInstances)
    else if Keep(instances, Outside(exclude)) == [] then Refused(NothingToTry)
    else if pool == [] then Refused(AllAsleep)
    else if |pool| == 1 then Chosen(pool[0])
    else Chosen(Picked(s, counter, pool, instances, v, hash, draw, margin))
  }

  class Router {
    var rrCounters: map<string, nat>

    ghost function Counter(group: string): nat
      reads this
    {
      if group in rrCounters then rrCounters[group] else 0
    }

    constructor ()
      ensures rrCounters == map[]
    {
      rrCounters := map[];
    }

    method PickRoundRobin(group: string, candidates: seq<string>) returns (pick: string)
      requires candidates != []
      modifies this
      ensures pick == candidates[old(Counter(group)) % |candidates|]
      ensures rrCounters == old(rrCounters)[group := old(Counter(group)) + 1]
    {
      var n := if group in rrCounters then rrCounters[group] else 0;
      rrCounters := rrCounters[group := n + 1];
      return candidates[n % |candidates|];
    }

    method SelectInstance(group: string, s: Strategy, instances: seq<string>, exclude: set<string>, v: View,
                          hash: string -> nat, draw: Draw, margin: real) returns (c: Choice)
      modifies this
      ensures c == Selected(s, old(Counter(group)), instances, exclude, v, hash, draw, margin)
      ensures rrCounters == if s.RoundRobin? && |Pool(v, instances, exclude)| > 1
                            then old(rrCounters)[group := old(Counter(group)) + 1] else old(rrCounters)
    {
      if instances == [] { return Refused(NoInstances); }
      var candidates := Keep(instances, Outside(exclude));
      if candidates == [] { return Refused(NothingToTry); }
      var awake := Keep(candidates, Outside(v.asleep));
      if awake == [] { return Refused(AllAsleep); }
      candidates := awake;
      var notDraining := Keep(candidates, Outside(v.draining));
      if notDraining != [] {
        candidates := notDraining;
      }
      if |candidates| == 1 { return Chosen(candidates[0]); }
      var pick: string;
      match s {
        case RoundRobin => pick := PickRoundRobin(group, candidates);
        case Random => pick := candidates[draw.one % |candidates|];
        case LeastInflight => pick := LeastBy(InflightOf(v), candidates);
        case LeastLoad => pick := LeastBy(ScoreOf(v), candidates);
        case P2c =>
          pick := LeastBy(ScoreOf(v), [candidates[draw.first % |candidates|], candidates[draw.second % |candidates|]]);
        case Affinity(key) => pick := Affine(hash, key, instances, candidates, v, margin);
      }
      return Chosen(pick);
    }
  }

  // ---- What a choice guarantees -------------------------------------------------------------------

  /** An instance that may take the request. */
  predicate Eligible(v: View, instances: seq<string>, exclude: set<string>, id: string) {
    id in instances && id !in exclude && id !in v.asleep
  }

  lemma AwakeIs(v: View, instances: seq<string>, exclude: set<string>)
    ensures forall id :: id in Awake(v, instances, exclude) <==> Eligible(v, instances, exclude, id)
  {
    KeepIs(instances, Outside(exclude));
    KeepIs(Keep(instances, Outside(exclude)), Outside(v.asleep));
  }

  lemma PoolIs(v: View, instances: seq<string>, exclude: set<string>, id: string)
    ensures id in Pool(v, instances, exclude) ==> Eligible(v, instances, exclude, id)
    ensures Eligible(v, instances, exclude, id) && id !in v.draining ==> id in Pool(v, instances, exclude)
    ensures id in Pool(v, instances, exclude) && id in v.draining ==>
              forall other :: Eligible(v, instances, exclude, other) ==> other in v.draining
    ensures Pool(v, instances, exclude) == [] ==> !Eligible(v, instances, exclude, id)
  {
    var awake := Awake(v, instances, exclude);
    var staying := Keep(awake, Outside(v.draining));
    AwakeIs(v, instances, exclude);
    KeepIs(awake, Outside(v.draining));
    if staying != [] { assert staying[0] in staying; }
  }

  lemma PickedIsInPool(s: Strategy, counter: nat, pool: seq<string>, instances: seq<string>, v: View,
                       hash: string -> nat, draw: Draw, margin: real)
    requires pool != []
    ensures Picked(s, counter, pool, instances, v, hash, draw, margin) in pool
  {
    match s
    case LeastInflight => var k := LeastIsFirst(InflightOf(v), pool);
    case P2c => var k := LeastIsFirst(ScoreOf(v), [pool[draw.first % |pool|], pool[draw.second % |pool|]]);
    case LeastLoad => var k := LeastIsFirst(ScoreOf(v), pool);
    case Affinity(_) => var k := LeastIsFirst(ScoreOf(v), pool);
    case _ =>
  }

  /** Under every strategy and draw: a request is refused if and only if no instance that was
      not tried is awake; otherwise the instance chosen is one of those, and it drains only if
      they all drain. */
  lemma ChoiceIsEligible(s: Strategy, counter: nat, instances: seq<string>, exclude: set<string>, v: View,
                         hash: string -> nat, draw: Draw, margin: real)
    ensures var c := Selected(s, counter, instances, exclude, v, hash, draw, margin);
            && (c.Refused? <==> forall id :: id in instances ==> !Eligible(v, instances, exclude, id))
            && (c.Chosen? ==> Eligible(v, instances, exclude, c.id))
            && (c.Chosen? && c.id in v.draining ==>
                  forall id :: Eligible(v, instances, exclude, id) ==> id in v.draining)
  {
    var pool := Pool(v, instances, exclude);
    var c := Selected(s, counter, instances, exclude, v, hash, draw, margin);
    if c.Refused? {
      forall id | id in instances ensures !Eligible(v, instances, exclude, id) {
        if Keep(instances, Outside(exclude)) == [] {
          KeepIs(instances, Outside(exclude));
        } else {
          PoolIs(v, instances, exclude, id);
        }
      }
    } else {
      if |pool| > 1 { PickedIsInPool(s, counter, pool, instances, v, hash, draw, margin); }
      PoolIs(v, instances, exclude, c.id);
    }
  }

  ghost predicate Sane(v: View, id: string) {
    0.0 <= (if id in v.load then v.load[id] else 0.0) + Inflight(v, id) as real * INFLIGHT_WEIGHT < FAIL_OPEN_PENALTY
  }

  /** With loads below the penalty, least_load takes an instance in cooldown only if every
      instance it could have taken is in cooldown. */
  lemma LeastLoadAvoidsCooldown(counter: nat, instances: seq<string>, exclude: set<string>, v: View,
                                hash: string -> nat, draw: Draw, margin: real)
    requires forall id :: id in instances ==> Sane(v, id)
    ensures var c := Selected(LeastLoad, counter, instances, exclude, v, hash, draw, margin);
            c.Chosen? && c.id in v.cooling ==> forall id :: id in Pool(v, instances, exclude) ==> id in v.cooling
  {
    var c := Selected(LeastLoad, counter, instances, exclude, v, hash, draw, margin);
    var pool := Pool(v, instances, exclude);
    if c.Chosen? && c.id in v.cooling && |pool| > 1 {
      var k := LeastIsFirst(ScoreOf(v), pool);
      PoolIs(v, instances, exclude, c.id);
      forall id | id in pool ensures id in v.cooling {
        PoolIs(v, instances, exclude, id);
        var j :| 0 <= j < |pool| && pool[j] == id;
        assert Score(v, c.id) <= Score(v, id);
        assert Sane(v, c.id) && Sane(v, id);
      }
    }
  }

  // ---- The home of a key ----------------------------------------------------------------------------

  ghost predicate Distinct(ids: seq<string>) { forall i, j :: 0 <= i < j < |ids| ==> ids[i] != ids[j] }

  ghost predicate Ascending(ids: seq<string>) { forall i, j :: 0 <= i < j < |ids| ==> Less(ids[i], ids[j]) }

  lemma {:induction false} InsertKeeps(id: string, ring: seq<string>)
    requires Ascending(ring) && id !in ring
    ensures Ascending(Insert(id, ring)) && forall x :: x in Insert(id, ring) <==> x == id || x in ring
  {
    if ring == [] {
    } else if Less(id, ring[0]) {
      forall j | 0 <= j < |ring| ensures Less(id, ring[j]) {
        if j > 0 { LessIsTransitive(id, ring[0], ring[j]); }
      }
    } else {
      assert ring[0] in ring;
      LessIsTotal(id, ring[0]);
      InsertKeeps(id, ring[1..]);
      var rest := Insert(id, ring[1..]);
      forall j | 0 <= j < |rest| ensures Less(ring[0], rest[j]) {
        assert rest[j] in rest;
        if rest[j] != id {
          var i :| 0 <= i < |ring[1..]| && ring[1..][i] == rest[j];
          assert Less(ring[0], ring[i + 1]);
        }
      }
    }
  }

  lemma {:induction false} SortKeeps(ids: seq<string>)
    requires Distinct(ids)
    ensures Ascending(SortIds(ids)) && forall x :: x in SortIds(ids) <==> x in ids
  {
    if ids != [] {
      var n := |ids| - 1;
      SortKeeps(ids[..n]);
      assert ids[n] !in ids[..n];
      InsertKeeps(ids[n], SortIds(ids[..n]));
      assert ids == ids[..n] + [ids[n]];
    }
  }

  lemma {:induction false} AscendingIsUnique(a: seq<string>, b: seq<string>)
    requires Ascending(a) && Ascending(b) && forall x :: x in a <==> x in b
    ensures a == b
  {
    assert (a != [] ==> a[0] in b) && (b != [] ==> b[0] in a);
    if a != [] && b != [] {
      FirstIsLeast(a, b);
      FirstIsLeast(b, a);
      LessIsTotal(a[0], b[0]);
      forall x ensures x in a[1..] <==> x in b[1..] {
        InTail(a, x);
        InTail(b, x);
      }
      AscendingIsUnique(a[1..], b[1..]);
    }
  }

  lemma FirstIsLeast(a: seq<string>, b: seq<string>)
    requires a != [] && b != [] && Ascending(a) && b[0] in a
    ensures a[0] == b[0] || Less(a[0], b[0])
  {
  }

  lemma InTail(a: seq<string>, x: string)
    requires a != [] && Ascending(a)
    ensures x in a[1..] <==> x in a && x != a[0]
  {
    LessIsTotal(a[0], a[0]);
    if x in a[1..] {
      var i :| 0 <= i < |a[1..]| && a[1..][i] == x;
      assert Less(a[0], a[i + 1]);
    }
  }

  /** The home of a key depends on the set of ids only, not on how the roster lists them. */
  lemma HomeIsStable(hash: string -> nat, key: string, roster: seq<string>, other: seq<string>)
    requires roster != [] && other != [] && Distinct(roster) && Distinct(other)
    requires forall x :: x in roster <==> x in other
    ensures Home(hash, key, roster) == Home(hash, key, other)
    ensures Home(hash, key, roster) in roster
  {
    SortKeeps(roster);
    SortKeeps(other);
    AscendingIsUnique(SortIds(roster), SortIds(other));
    SortSize(roster);
    assert SortIds(roster)[hash(key) % |SortIds(roster)|] in SortIds(roster);
  }

  /** The instance scores within the margin of everything in the pool. */
  ghost predicate WithinMargin(v: View, id: string, pool: seq<string>, margin: real) {
    forall other :: other in pool ==> Score(v, id) <= Score(v, other) + margin
  }

  /** However the roster is listed and whichever other instances a request excludes, a key goes
      home as long as its home may take it, is not in cooldown, and is within the margin; and if
      it goes elsewhere, it goes to a candidate of least score. */
  lemma AffinityGoesHome(hash: string -> nat, key: string, roster: seq<string>, instances: seq<string>,
                         exclude: set<string>, v: View,
                         counter: nat, draw: Draw, margin: real)
    requires key != "" && instances != [] && Distinct(roster) && Distinct(instances)
    requires forall x :: x in roster <==> x in instances
    requires |Pool(v, instances, exclude)| > 1
    ensures roster != []
    ensures var home, pool := Home(hash, key, roster), Pool(v, instances, exclude);
            var c := Selected(Affinity(Some(key)), counter, instances, exclude, v, hash, draw, margin);
            c.Chosen?
            && (if home in pool && home !in v.cooling && WithinMargin(v, home, pool, margin) then c.id == home
                else c.id in pool && forall id :: id in pool ==> Score(v, c.id) <= Score(v, id))
  {
    assert instances[0] in roster;
    var pool := Pool(v, instances, exclude);
    SomeAreLeft(v, instances, exclude);
    HomeIsStable(hash, key, roster, instances);
    AffinePickIs(hash, key, instances, pool, v, margin);
  }

  lemma SomeAreLeft(v: View, instances: seq<string>, exclude: set<string>)
    requires Pool(v, instances, exclude) != []
    ensures Keep(instances, Outside(exclude)) != []
  {
  }

  lemma AffinePickIs(hash: string -> nat, key: string, instances: seq<string>, pool: seq<string>, v: View, margin: real)
    requires key != "" && instances != [] && pool != []
    ensures var home, pick := Home(hash, key, instances), AffinePick(hash, Some(key), instances, pool, v, margin);
            if home in pool && home !in v.cooling && WithinMargin(v, home, pool, margin) then pick == home
            else pick in pool && (forall id :: id in pool ==> Score(v, pick) <= Score(v, id))
  {
    var k := LeastIsFirst(ScoreOf(v), pool);
    assert pool[k] in pool;
    forall id | id in pool ensures Score(v, pool[k]) <= Score(v, id) {
      var j :| 0 <= j < |pool| && pool[j] == id;
      assert ScoreOf(v)(pool[k]) <= ScoreOf(v)(pool[j]);
    }
  }

  /** What affinity picks scores within the margin of every candidate. */
  lemma AffinityIsWithinMargin(hash: string -> nat, key: Option<string>, roster: seq<string>, candidates: seq<string>,
                               v: View, margin: real, id: string)
    requires id in candidates
    ensures var pick := AffinePick(hash, key, roster, candidates, v, margin);
            Score(v, pick) <= Score(v, id) + if margin > 0.0 then margin else 0.0
  {
    var k := LeastIsFirst(ScoreOf(v), candidates);
  }

  // ---- Round robin is fair -----------------------------------------------------------------------------

  /** How many of the m picks from the counter on fall on place k of n. */
  function PicksOf(counter: nat, m: nat, n: nat, k: nat): nat
    requires n > 0
    decreases m
  {
    if m == 0 then 0 else PicksOf(counter, m - 1, n, k) + if (counter + m - 1) % n == k then 1 else 0
  }

  lemma ModPlus(c: nat, n: nat)
    requires n > 0
    ensures (c + n) % n == c % n
  {
    var q, r := c / n, c % n;
    assert c + n == n * (q + 1) + r;
    ModUnique(c + n, n, q + 1, r);
  }

  lemma ModUnique(a: nat, n: nat, q: nat, r: nat)
    requires n > 0 && a == n * q + r && r < n
    ensures a % n == r && a / n == q
  {
    assert a == n * (a / n) + a % n;
    assert n * (a / n - q) == r - a % n;
    NoMultipleBetween(n, a / n - q);
  }

  lemma NoMultipleBetween(n: int, d: int)
    requires n > 0 && -n < n * d < n
    ensures d == 0
  {
    if d > 0 {
      TimesGrows(n, d);
    } else if d < 0 {
      TimesGrows(n, -d);
    }
  }

  lemma TimesGrows(n: int, d: int)
    requires n > 0 && d > 0
    ensures n * d >= n
  {
    assert n * d == n + n * (d - 1);
  }

  lemma {:induction false} PicksSplit(counter: nat, m: nat, l: nat, n: nat, k: nat)
    requires n > 0
    ensures PicksOf(counter, m + l, n, k) == PicksOf(counter, m, n, k) + PicksOf(counter + m, l, n, k)
    decreases l
  {
    if l > 0 {
      PicksSplit(counter, m, l - 1, n, k);
      assert counter + (m + l) - 1 == (counter + m) + l - 1;
    }
  }

  lemma {:induction false} FewPicks(m: nat, n: nat, k: nat)
    requires n > 0 && m <= n
    ensures PicksOf(0, m, n, k) == if k < m then 1 else 0
    decreases m
  {
    if m > 0 {
      FewPicks(m - 1, n, k);
      ModUnique(m - 1, n, 0, m - 1);
    }
  }

  /** In a full turn each place is picked once, wherever the counter stands. */
  lemma {:induction false} FullTurn(counter: nat, n: nat, k: nat)
    requires k < n
    ensures PicksOf(counter, n, n, k) == 1
    decreases counter
  {
    if counter == 0 {
      FewPicks(n, n, k);
    } else {
      FullTurn(counter - 1, n, k);
      PicksSplit(counter - 1, 1, n - 1, n, k);
      PicksSplit(counter, n - 1, 1, n, k);
      ModPlus(counter - 1, n);
      OnePick(counter - 1, n, k);
      OnePick(counter + n - 1, n, k);
    }
  }

  lemma OnePick(counter: nat, n: nat, k: nat)
    requires n > 0
    ensures PicksOf(counter, 1, n, k) == if counter % n == k then 1 else 0
  {
    assert PicksOf(counter, 0, n, k) == 0;
  }

  /** Over a fixed candidate list, any m consecutive picks of round robin fall on each place
      floor(m / n) or ceil(m / n) times. */
  lemma {:induction false} RoundRobinIsFair(counter: nat, m: nat, n: nat, k: nat)
    requires k < n
    ensures m / n <= PicksOf(counter, m, n, k) <= (m + n - 1) / n
    decreases m
  {
    if m >= n {
      PicksSplit(counter, n, m - n, n, k);
      FullTurn(counter, n, k);
      RoundRobinIsFair(counter + n, m - n, n, k);
      DivPlus(m - n, n);
      DivPlus(m - 1, n);
    } else {
      PicksSplit(counter, m, n - m, n, k);
      FullTurn(counter, n, k);
      ModUnique(m, n, 0, m);
      if m == 0 { ModUnique(n - 1, n, 0, n - 1); } else { ModUnique(m + n - 1, n, 1, m - 1); }
    }
  }

  lemma DivPlus(a: nat, n: nat)
    requires n > 0
    ensures (a + n) / n == a / n + 1
  {
    var q, r := a / n, a % n;
    assert a + n == n * (q + 1) + r;
    ModUnique(a + n, n, q + 1, r);
  }

  /** A run of picks by the counter is what the method makes, one call after another. */
  function Run(counter: nat, m: nat, candidates: seq<string>): seq<string>
    requires candidates != []
  {
    seq(m, i requires 0 <= i < m => candidates[(counter + i) % |candidates|])
  }

  function Times(picks: seq<string>, id: string): nat {
    if picks == [] then 0 else Times(picks[..|picks| - 1], id) + if picks[|picks| - 1] == id then 1 else 0
  }

  lemma {:induction false} TimesIsPicksOf(counter: nat, m: nat, candidates: seq<string>, k: nat)
    requires k < |candidates| && Distinct(candidates)
    ensures Times(Run(counter, m, candidates), candidates[k]) == PicksOf(counter, m, |candidates|, k)
    decreases m
  {
    if m > 0 {
      var picks := Run(counter, m, candidates);
      assert picks[..m - 1] == Run(counter, m - 1, candidates);
      TimesIsPicksOf(counter, m - 1, candidates, k);
    }
  }

  /** So each of n candidates gets floor(m / n) or ceil(m / n) of m consecutive requests. */
  lemma EachCandidateGetsItsShare(counter: nat, m: nat, candidates: seq<string>, k: nat)
    requires k < |candidates| && Distinct(candidates)
    ensures var n, times := |candidates|, Times(Run(counter, m, candidates), candidates[k]);
            m / n <= times <= (m + n - 1) / n
  {
    TimesIsPicksOf(counter, m, candidates, k);
    RoundRobinIsFair(counter, m, |candidates|, k);
  }
}
