/** Python's insertion-ordered dict, as the sequence of its items. */
module Dicts {
  import opened Options

  type Dict<V> = seq<(string, V)>

  /** d[k] = v: in place if k is there, else at the end. */
  function Set<V>(d: Dict<V>, k: string, v: V): (r: Dict<V>) {
    if d == [] then [(k, v)]
    else if d[0].0 == k then [(k, v)] + d[1..]
    else [d[0]] + Set(d[1..], k, v)
  }

  /** d.get(k) */
  function Find<V>(d: Dict<V>, k: string): Option<V> {
    if d == [] then None
    else if d[0].0 == k then Some(d[0].1)
    else Find(d[1..], k)
  }

  /** d.pop(k, None), keeping what is left. */
  function Remove<V>(d: Dict<V>, k: string): (r: Dict<V>) {
    if d == [] then []
    else if d[0].0 == k then d[1..]
    else [d[0]] + Remove(d[1..], k)
  }

  ghost predicate UniqueKeys<V>(d: Dict<V>) {
    forall i, j :: 0 <= i < j < |d| ==> d[i].0 != d[j].0
  }

  lemma {:induction false} FindsItem<V>(d: Dict<V>, i: nat)
    requires UniqueKeys(d) && i < |d|
    ensures Find(d, d[i].0) == Some(d[i].1)
  {
    if i > 0 {
      assert d[0].0 != d[i].0;
      FindsItem(d[1..], i - 1);
    }
  }

  lemma {:induction false} FoundAt<V>(d: Dict<V>, k: string) returns (i: nat)
    requires Find(d, k).Some?
    ensures i < |d| && d[i] == (k, Find(d, k).value)
  {
    if d[0].0 == k {
      i := 0;
    } else {
      i := FoundAt(d[1..], k);
      i := i + 1;
    }
  }

  lemma {:induction false} AbsentIsNone<V>(d: Dict<V>, k: string)
    requires forall i :: 0 <= i < |d| ==> d[i].0 != k
    ensures Find(d, k).None?
  {
    if d != [] {
      AbsentIsNone(d[1..], k);
    }
  }

  lemma {:induction false} SetThenFind<V>(d: Dict<V>, k: string, v: V, other: string)
    ensures Find(Set(d, k, v), other) == if other == k then Some(v) else Find(d, other)
  {
    if d != [] && d[0].0 != k {
      SetThenFind(d[1..], k, v, other);
    }
  }

  /** Setting a key adds no other key. */
  lemma {:induction false} SetKeys<V>(d: Dict<V>, k: string, v: V, i: nat)
    requires i < |Set(d, k, v)|
    ensures Set(d, k, v)[i].0 == k || exists j :: 0 <= j < |d| && d[j].0 == Set(d, k, v)[i].0
  {
    if d != [] && d[0].0 != k {
      var r := Set(d, k, v);
      assert r == [d[0]] + Set(d[1..], k, v);
      if i == 0 {
        assert d[0].0 == r[0].0;
      } else {
        SetKeys(d[1..], k, v, i - 1);
        if r[i].0 != k {
          var j :| 0 <= j < |d[1..]| && d[1..][j].0 == r[i].0;
          assert d[j + 1].0 == r[i].0;
        }
      }
    } else if i > 0 {
      assert Set(d, k, v)[i] == d[i];
    }
  }

  lemma {:induction false} SetKeepsUnique<V>(d: Dict<V>, k: string, v: V)
    requires UniqueKeys(d)
    ensures UniqueKeys(Set(d, k, v))
    ensures forall i :: 0 <= i < |Set(d, k, v)| ==>
              Set(d, k, v)[i].0 == k || exists j :: 0 <= j < |d| && d[j].0 == Set(d, k, v)[i].0
  {
    var r := Set(d, k, v);
    forall i | 0 <= i < |r| ensures r[i].0 == k || exists j :: 0 <= j < |d| && d[j].0 == r[i].0 {
      SetKeys(d, k, v, i);
    }
    if d != [] && d[0].0 != k {
      SetKeepsUnique(d[1..], k, v);
      FirstStaysUnique(d, k, v);
    }
  }

  lemma FirstStaysUnique<V>(d: Dict<V>, k: string, v: V)
    requires UniqueKeys(d) && d != [] && d[0].0 != k && UniqueKeys(Set(d[1..], k, v))
    ensures UniqueKeys([d[0]] + Set(d[1..], k, v))
  {
    var t := Set(d[1..], k, v);
    forall i | 0 <= i < |t| ensures t[i].0 != d[0].0 {
      SetKeys(d[1..], k, v, i);
      if t[i].0 != k {
        var j :| 0 <= j < |d[1..]| && d[1..][j].0 == t[i].0;
        assert d[j + 1].0 == t[i].0;
      }
    }
  }

  lemma {:induction false} RemoveThenFind<V>(d: Dict<V>, k: string, other: string)
    requires UniqueKeys(d)
    ensures Find(Remove(d, k), other) == if other == k then None else Find(d, other)
    ensures UniqueKeys(Remove(d, k))
    ensures forall i :: 0 <= i < |Remove(d, k)| ==> Remove(d, k)[i] in d
  {
    if d != [] {
      if d[0].0 == k {
        AbsentIsNone(d[1..], k);
      } else {
        RemoveThenFind(d[1..], k, other);
        var r := Remove(d, k);
        assert r[1..] == Remove(d[1..], k);
        forall i | 0 < i < |r|
          ensures r[i] in d && r[i].0 != r[0].0
        {
          assert r[i] in d[1..];
        }
      }
    }
  }

  /** d.update(e) */
  function Update<V>(d: Dict<V>, e: Dict<V>): Dict<V>
    decreases e
  {
    if e == [] then d else Update(Set(d, e[0].0, e[0].1), e[1..])
  }

  lemma {:induction false} UpdateThenFind<V>(d: Dict<V>, e: Dict<V>, k: string)
    requires UniqueKeys(d) && UniqueKeys(e)
    ensures Find(Update(d, e), k) == if Find(e, k).Some? then Find(e, k) else Find(d, k)
    ensures UniqueKeys(Update(d, e))
    decreases e
  {
    if e != [] {
      SetKeepsUnique(d, e[0].0, e[0].1);
      SetThenFind(d, e[0].0, e[0].1, k);
      UpdateThenFind(Set(d, e[0].0, e[0].1), e[1..], k);
      if e[0].0 == k {
        AbsentIsNone(e[1..], k);
      }
    }
  }
}
