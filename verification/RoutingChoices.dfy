/** What each routing strategy picks, told by the instances of the group and their marks. */
module RoutingChoices {
  import opened Options
  import opened Ordering
  import opened Routing

  /** The instance may take the request, and drains only if all that may do. */
  ghost predicate MayTake(v: View, instances: seq<string>, exclude: set<string>, id: string) {
    Eligible(v, instances, exclude, id)
    && (id in v.draining ==> forall other :: Eligible(v, instances, exclude, other) ==> other in v.draining)
  }

  // ---- The pool, place by place -----------------------------------------------------------------

  lemma {:induction false} KeepSplits(ids: seq<string>, p: string -> bool, n: nat)
    requires n <= |ids|
    ensures Keep(ids, p) == Keep(ids[..n], p) + Keep(ids[n..], p)
  {
    if n > 0 {
      KeepSplits(ids[1..], p, n - 1);
      assert ids[1..][..n - 1] == ids[..n][1..] && ids[1..][n - 1..] == ids[n..];
    } else {
      assert ids[..n] == [] && ids[n..] == ids;
    }
  }

  lemma {:induction false} KeepTwice(ids: seq<string>, p: string -> bool, q: string -> bool, both: string -> bool)
    requires forall id :: id in ids ==> (both(id) <==> p(id) && q(id))
    ensures Keep(Keep(ids, p), q) == Keep(ids, both)
  {
    if ids != [] {
      KeepTwice(ids[1..], p, q, both);
      assert ids[0] in ids;
      var rest := Keep(ids[1..], p);
      if p(ids[0]) {
        assert Keep(ids, p) == [ids[0]] + rest && ([ids[0]] + rest)[1..] == rest;
      } else {
        assert Keep(ids, p) == rest;
      }
    }
  }

  /** The first `n` instances that may take the request stand at these places. */
  ghost function PlacesBefore(v: View, instances: seq<string>, exclude: set<string>, n: nat): set<nat>
    requires n <= |instances|
  {
    set j: nat | j < n && MayTake(v, instances, exclude, instances[j])
  }

  ghost function Taking(v: View, instances: seq<string>, exclude: set<string>): string -> bool {
    id => MayTake(v, instances, exclude, id)
  }

  lemma PoolTakes(v: View, instances: seq<string>, exclude: set<string>)
    ensures Pool(v, instances, exclude) == Keep(instances, Taking(v, instances, exclude))
  {
    var awake, able := Awake(v, instances, exclude), (id: string) => id !in exclude && id !in v.asleep;
    AwakeIs(v, instances, exclude);
    KeepTwice(instances, Outside(exclude), Outside(v.asleep), able);
    var staying := Keep(awake, Outside(v.draining));
    KeepIs(awake, Outside(v.draining));
    if staying == [] {
      AllMayTake(v, instances, exclude);
      KeepTwice(instances, able, Taking(v, instances, exclude), Taking(v, instances, exclude));
      KeepAll(awake, Taking(v, instances, exclude));
    } else {
      assert staying[0] in staying;
      KeepTwice(instances, able, Outside(v.draining), Taking(v, instances, exclude));
    }
  }

  lemma AllMayTake(v: View, instances: seq<string>, exclude: set<string>)
    requires Keep(Awake(v, instances, exclude), Outside(v.draining)) == []
    ensures forall id :: id in Awake(v, instances, exclude) ==> MayTake(v, instances, exclude, id)
  {
    AwakeIs(v, instances, exclude);
    KeepIs(Awake(v, instances, exclude), Outside(v.draining));
  }

  lemma {:induction false} KeepAll(ids: seq<string>, p: string -> bool)
    requires forall id :: id in ids ==> p(id)
    ensures Keep(ids, p) == ids
  {
    if ids != [] {
      KeepAll(ids[1..], p);
    }
  }

  /** Place i holds the instance with k that may take the request before it. */
  ghost predicate StandsAt(v: View, instances: seq<string>, exclude: set<string>, i: nat, k: nat, id: string) {
    && i < |instances| && instances[i] == id && MayTake(v, instances, exclude, id)
    && |PlacesBefore(v, instances, exclude, i)| == k
  }

  ghost predicate Stands(v: View, instances: seq<string>, exclude: set<string>, k: nat, id: string) {
    exists i :: StandsAt(v, instances, exclude, i, k, id)
  }

  lemma {:induction false} KeepPlaces(v: View, instances: seq<string>, exclude: set<string>, n: nat)
    requires n <= |instances|
    ensures var kept := Keep(instances[..n], Taking(v, instances, exclude));
            && |kept| == |PlacesBefore(v, instances, exclude, n)|
            && forall k :: 0 <= k < |kept| ==> Stands(v, instances, exclude, k, kept[k])
  {
    if n > 0 {
      var p, last := Taking(v, instances, exclude), instances[n - 1];
      KeepPlaces(v, instances, exclude, n - 1);
      KeepSplits(instances[..n], p, n - 1);
      assert instances[..n][..n - 1] == instances[..n - 1] && instances[..n][n - 1..] == [last];
      var before, kept := Keep(instances[..n - 1], p), Keep(instances[..n], p);
      assert kept == before + if p(last) then [last] else [];
      assert PlacesBefore(v, instances, exclude, n)
          == PlacesBefore(v, instances, exclude, n - 1) + if p(last) then {n - 1} else {};
      forall k | 0 <= k < |kept| ensures Stands(v, instances, exclude, k, kept[k]) {
        if k < |before| {
          assert kept[k] == before[k];
        } else {
          assert StandsAt(v, instances, exclude, n - 1, k, last);
        }
      }
    } else {
      assert instances[..0] == [] && PlacesBefore(v, instances, exclude, 0) == {};
    }
  }

  // ---- What is picked ------------------------------------------------------------------------------

  /** Of the n instances that may take the request, the one with k % n of them before it. */
  ghost predicate IsInTurn(v: View, instances: seq<string>, exclude: set<string>, k: nat, id: string) {
    var n := |PlacesBefore(v, instances, exclude, |instances|)|;
    n > 0 && Stands(v, instances, exclude, k % n, id)
  }

  /** Of those that may take the request it costs least, and less than each that stands before. */
  ghost predicate IsCheapest(v: View, instances: seq<string>, exclude: set<string>, cost: string -> real, id: string) {
    exists i :: CheapestAt(v, instances, exclude, cost, |instances|, i, id)
  }

  ghost predicate CheapestAt(v: View, instances: seq<string>, exclude: set<string>, cost: string -> real, n: nat,
                             i: nat, id: string)
    requires n <= |instances|
  {
    && i < n && instances[i] == id && MayTake(v, instances, exclude, id)
    && (forall j :: 0 <= j < n && MayTake(v, instances, exclude, instances[j]) ==>
          if j < i then cost(id) < cost(instances[j]) else cost(id) <= cost(instances[j]))
  }

  lemma PoolInTurn(v: View, instances: seq<string>, exclude: set<string>, k: nat)
    requires Pool(v, instances, exclude) != []
    ensures var pool := Pool(v, instances, exclude); IsInTurn(v, instances, exclude, k, pool[k % |pool|])
  {
    PoolTakes(v, instances, exclude);
    KeepPlaces(v, instances, exclude, |instances|);
    assert instances[..|instances|] == instances;
  }

  lemma {:induction false} LeastIsCheapest(v: View, instances: seq<string>, exclude: set<string>, cost: string -> real,
                                           n: nat)
    requires n <= |instances|
    ensures var kept := Keep(instances[..n], Taking(v, instances, exclude));
            if kept == [] then forall j :: 0 <= j < n ==> !MayTake(v, instances, exclude, instances[j])
            else exists i :: CheapestAt(v, instances, exclude, cost, n, i, Least(cost, kept))
  {
    if n > 0 {
      var p, last := Taking(v, instances, exclude), instances[n - 1];
      LeastIsCheapest(v, instances, exclude, cost, n - 1);
      KeepSplits(instances[..n], p, n - 1);
      assert instances[..n][..n - 1] == instances[..n - 1] && instances[..n][n - 1..] == [last];
      var before, kept := Keep(instances[..n - 1], p), Keep(instances[..n], p);
      assert kept == before + if p(last) then [last] else [];
      if p(last) {
        assert kept[..|kept| - 1] == before;
        if before == [] || cost(last) < cost(Least(cost, before)) {
          assert Least(cost, kept) == last;
          assert CheapestAt(v, instances, exclude, cost, n, n - 1, last);
        } else {
          assert Least(cost, kept) == Least(cost, before);
          var i: nat :| CheapestAt(v, instances, exclude, cost, n - 1, i, Least(cost, before));
          assert CheapestAt(v, instances, exclude, cost, n, i, Least(cost, kept));
        }
      } else if before != [] {
        assert kept == before;
        var i: nat :| CheapestAt(v, instances, exclude, cost, n - 1, i, Least(cost, before));
        assert CheapestAt(v, instances, exclude, cost, n, i, Least(cost, kept));
      }
    }
  }

  /** The least of the pool is the cheapest under any cost that agrees with the score. */
  lemma PoolCheapest(v: View, instances: seq<string>, exclude: set<string>, score: string -> real,
                     cost: string -> real)
    requires Pool(v, instances, exclude) != [] && forall id :: score(id) == cost(id)
    ensures IsCheapest(v, instances, exclude, cost, Least(score, Pool(v, instances, exclude)))
  {
    PoolTakes(v, instances, exclude);
    LeastIsCheapest(v, instances, exclude, score, |instances|);
    assert instances[..|instances|] == instances;
    var i: nat :| CheapestAt(v, instances, exclude, score, |instances|, i, Least(score, Pool(v, instances, exclude)));
    assert CheapestAt(v, instances, exclude, cost, |instances|, i, Least(score, Pool(v, instances, exclude)));
  }

  /** It is the one in turn of the first draw, unless that of the second costs less. */
  ghost predicate IsBetterOfTwo(v: View, instances: seq<string>, exclude: set<string>, cost: string -> real,
                                first: nat, second: nat, id: string) {
    exists a, b ::
      && IsInTurn(v, instances, exclude, first, a) && IsInTurn(v, instances, exclude, second, b)
      && id == if cost(b) < cost(a) then b else a
  }

  lemma BetterOfTwo(v: View, instances: seq<string>, exclude: set<string>, cost: string -> real,
                    first: nat, second: nat)
    requires Pool(v, instances, exclude) != [] && forall id :: ScoreOf(v)(id) == cost(id)
    ensures var pool := Pool(v, instances, exclude);
            IsBetterOfTwo(v, instances, exclude, cost, first, second,
                          Least(ScoreOf(v), [pool[first % |pool|], pool[second % |pool|]]))
  {
    var pool := Pool(v, instances, exclude);
    PoolInTurn(v, instances, exclude, first);
    PoolInTurn(v, instances, exclude, second);
    LeastOfTwo(ScoreOf(v), pool[first % |pool|], pool[second % |pool|]);
  }

  lemma LeastOfTwo(score: string -> real, a: string, b: string)
    ensures Least(score, [a, b]) == if score(b) < score(a) then b else a
  {
    assert [a, b][..1] == [a];
  }

  /** A lone candidate is what every strategy would pick. */
  lemma SelectedIsPicked(s: Strategy, counter: nat, instances: seq<string>, exclude: set<string>, v: View,
                         hash: string -> nat, draw: Draw, margin: real)
    requires Selected(s, counter, instances, exclude, v, hash, draw, margin).Chosen?
    ensures var pool := Pool(v, instances, exclude);
            && pool != []
            && Selected(s, counter, instances, exclude, v, hash, draw, margin).id
               == Picked(s, counter, pool, instances, v, hash, draw, margin)
  {
    var pool := Pool(v, instances, exclude);
    if |pool| == 1 {
      PickedIsInPool(s, counter, pool, instances, v, hash, draw, margin);
    }
  }

  /** Who is picked, among those that may take the request: round robin and random take the one in
      turn of the counter or the draw; least_inflight the one with the least requests in flight and
      least_load the least of load plus five per request, each a billion worse in cooldown; p2c the
      better of two draws, and affinity without a key the least loaded. */
  lemma StrategyPicksExactly(s: Strategy, counter: nat, instances: seq<string>, exclude: set<string>, v: View,
                             hash: string -> nat, draw: Draw, margin: real)
    ensures var inflight := (id: string) =>
              5.0 * (if id in v.inflight then v.inflight[id] else 0) as real
              + if id in v.cooling then 1000000000.0 else 0.0;
            var load := (id: string) => inflight(id) + if id in v.load then v.load[id] else 0.0;
            var c := Selected(s, counter, instances, exclude, v, hash, draw, margin);
            c.Chosen? ==>
              match s
              case RoundRobin => IsInTurn(v, instances, exclude, counter, c.id)
              case Random => IsInTurn(v, instances, exclude, draw.one, c.id)
              case LeastInflight => IsCheapest(v, instances, exclude, inflight, c.id)
              case LeastLoad => IsCheapest(v, instances, exclude, load, c.id)
              case P2c => IsBetterOfTwo(v, instances, exclude, load, draw.first, draw.second, c.id)
              case Affinity(key) => key.None? || key.value == "" ==> IsCheapest(v, instances, exclude, load, c.id)
  {
    var inflight := (id: string) =>
      5.0 * (if id in v.inflight then v.inflight[id] else 0) as real
      + if id in v.cooling then 1000000000.0 else 0.0;
    var load := (id: string) => inflight(id) + if id in v.load then v.load[id] else 0.0;
    var c := Selected(s, counter, instances, exclude, v, hash, draw, margin);
    if c.Chosen? {
      SelectedIsPicked(s, counter, instances, exclude, v, hash, draw, margin);
      match s
      case RoundRobin => PoolInTurn(v, instances, exclude, counter);
      case Random => PoolInTurn(v, instances, exclude, draw.one);
      case LeastInflight => PoolCheapest(v, instances, exclude, InflightOf(v), inflight);
      case LeastLoad => PoolCheapest(v, instances, exclude, ScoreOf(v), load);
      case P2c => BetterOfTwo(v, instances, exclude, load, draw.first, draw.second);
      case Affinity(key) => PoolCheapest(v, instances, exclude, ScoreOf(v), load);
    }
  }

  // ---- Where home is ---------------------------------------------------------------------------------

  lemma {:induction false} AscendingSize(ring: seq<string>)
    requires Ascending(ring)
    ensures |set x | x in ring| == |ring|
  {
    if ring != [] {
      var n := |ring| - 1;
      AscendingSize(ring[..n]);
      forall x | x in ring[..n] ensures x != ring[n] {
        var i :| 0 <= i < n && ring[i] == x;
        LessIsTotal(x, ring[n]);
      }
      assert ring == ring[..n] + [ring[n]];
      assert (set x | x in ring) == (set x | x in ring[..n]) + {ring[n]};
    }
  }

  lemma SmallerStandBefore(ring: seq<string>, k: nat, x: string)
    requires Ascending(ring) && k < |ring|
    ensures x in ring && Less(x, ring[k]) <==> x in ring[..k]
  {
    if x in ring && Less(x, ring[k]) {
      var i :| 0 <= i < |ring| && ring[i] == x;
      LessIsTotal(x, ring[k]);
      assert ring[..k][i] == x;
    }
  }

  ghost function Smaller(ids: seq<string>, id: string): set<string> { set x | x in ids && Less(x, id) }

  lemma SmallerSize(ring: seq<string>, k: nat)
    requires Ascending(ring) && k < |ring|
    ensures |Smaller(ring, ring[k])| == k
  {
    forall x ensures x in Smaller(ring, ring[k]) <==> x in ring[..k] {
      SmallerStandBefore(ring, k, x);
    }
    AscendingSize(ring[..k]);
    assert Smaller(ring, ring[k]) == set x | x in ring[..k];
  }

  /** The home of a key is the instance of the roster with hash modulo its size of smaller ids. */
  lemma HomeIsNth(hash: string -> nat, key: string, roster: seq<string>)
    requires roster != [] && Distinct(roster)
    ensures var home := Home(hash, key, roster);
            home in roster && |Smaller(roster, home)| == hash(key) % |roster|
  {
    SortKeeps(roster);
    SortSize(roster);
    var ring := SortIds(roster);
    var k := hash(key) % |ring|;
    assert ring[k] in ring;
    SmallerSize(ring, k);
    assert Smaller(ring, ring[k]) == Smaller(roster, ring[k]);
  }
}
