/** The sliding-window request limiter of an API key. */
module RateLimiter {
  import opened Options

  /** Drop from the front what has left the window. */
  function Trimmed(dq: seq<real>, now: real): seq<real> {
    if dq != [] && dq[0] <= now - 60.0 then Trimmed(dq[1..], now) else dq
  }

  /** One request: the queue after it, and whether it is admitted. */
  function Checked(dq: seq<real>, limit: int, now: real): (seq<real>, bool) {
    var t := Trimmed(dq, now);
    if |t| >= limit then (t, false) else (t + [now], true)
  }

  class Limiter {
    var hits: map<string, seq<real>>

    constructor ()
      ensures hits == map[]
    {
      hits := map[];
    }

    /** A limit that is missing or zero is none. */
    method CheckRate(name: string, limit: Option<int>, now: real) returns (admitted: bool)
      modifies this
      ensures limit.None? || limit.value == 0 ==> admitted && hits == old(hits)
      ensures limit.Some? && limit.value != 0 ==>
                var dq := if name in old(hits) then old(hits)[name] else [];
                && admitted == Checked(dq, limit.value, now).1
                && hits == old(hits)[name := Checked(dq, limit.value, now).0]
    {
      if limit.None? || limit.value == 0 { return true; }
      ghost var start := if name in hits then hits[name] else [];
      var dq := if name in hits then hits[name] else [];
      while dq != [] && dq[0] <= now - 60.0
        invariant Trimmed(dq, now) == Trimmed(start, now)
        decreases |dq|
      {
        dq := dq[1..];
      }
      if |dq| >= limit.value {
        hits := hits[name := dq];
        return false;
      }
      hits := hits[name := dq + [now]];
      return true;
    }
  }

  // ---- A history of requests ------------------------------------------------------------------

  /** The queue after a history of arrivals, and the times admitted. */
  function Run(limit: int, arrivals: seq<real>): (r: (seq<real>, seq<real>)) {
    if arrivals == [] then ([], [])
    else
      var n := |arrivals| - 1;
      var (dq, admitted) := Run(limit, arrivals[..n]);
      var (after, ok) := Checked(dq, limit, arrivals[n]);
      (after, if ok then admitted + [arrivals[n]] else admitted)
  }

  function AdmittedOf(limit: int, arrivals: seq<real>): seq<real> { Run(limit, arrivals).1 }

  ghost predicate Sorted(ts: seq<real>) { forall i, j :: 0 <= i <= j < |ts| ==> ts[i] <= ts[j] }

  predicate InWindow(u: real, t: real) { t - 60.0 < u <= t }

  /** How many of the times lie in (t - 60, t]. */
  function Within(ts: seq<real>, t: real): nat {
    if ts == [] then 0 else Within(ts[..|ts| - 1], t) + if InWindow(ts[|ts| - 1], t) then 1 else 0
  }

  /** Of `limit` + 1 times in a row, the last is at least a window after the first. */
  ghost predicate Spaced(ts: seq<real>, limit: nat) {
    forall i, j :: 0 <= i && i + limit <= j < |ts| ==> ts[i] <= ts[j] - 60.0
  }

  /** The queue is what was admitted from the p-th on, and what came before has left. */
  ghost predicate Tail(dq: seq<real>, admitted: seq<real>, p: nat, now: real) {
    p <= |admitted| && dq == admitted[p..] && forall i :: 0 <= i < p ==> admitted[i] <= now - 60.0
  }

  lemma {:induction false} TrimmedIsTail(dq: seq<real>, admitted: seq<real>, p: nat, now: real) returns (q: nat)
    requires Tail(dq, admitted, p, now)
    ensures p <= q && Tail(Trimmed(dq, now), admitted, q, now)
    ensures q < |admitted| ==> admitted[q] > now - 60.0
    decreases |dq|
  {
    if dq != [] && dq[0] <= now - 60.0 {
      assert dq[1..] == admitted[p + 1..] && admitted[p] == dq[0];
      q := TrimmedIsTail(dq[1..], admitted, p + 1, now);
    } else {
      q := p;
      assert q < |admitted| ==> dq != [] && dq[0] == admitted[q];
    }
  }

  ghost predicate Fine(admitted: seq<real>, limit: nat, now: real) {
    Sorted(admitted) && Spaced(admitted, limit) && forall i :: 0 <= i < |admitted| ==> admitted[i] <= now
  }

  lemma OneMore(limit: nat, dq: seq<real>, admitted: seq<real>, p0: nat, now: real) returns (p: nat)
    requires limit > 0 && Fine(admitted, limit, now) && Tail(dq, admitted, p0, now)
    ensures var (after, ok) := Checked(dq, limit, now);
            var more := if ok then admitted + [now] else admitted;
            Fine(more, limit, now) && Tail(after, more, p, now)
  {
    p := TrimmedIsTail(dq, admitted, p0, now);
    var t := Trimmed(dq, now);
    if |t| < limit {
      NewIsFine(t, admitted, limit, p, now);
    }
  }

  lemma NewIsFine(t: seq<real>, admitted: seq<real>, limit: nat, p: nat, now: real)
    requires limit > |t| && Fine(admitted, limit, now) && Tail(t, admitted, p, now)
    ensures Fine(admitted + [now], limit, now) && Tail(t + [now], admitted + [now], p, now)
  {
    var more := admitted + [now];
    var n := |admitted|;
    assert more[p..] == t + [now];
    assert forall i :: 0 <= i < n ==> more[i] == admitted[i];
    forall i, j | 0 <= i && i + limit <= j < |more| ensures more[i] <= more[j] - 60.0 {
      if j == n { assert i < p; }
    }
  }

  lemma {:induction false} RunKeeps(limit: nat, arrivals: seq<real>, now: real) returns (p: nat)
    requires Sorted(arrivals) && limit > 0 && forall i :: 0 <= i < |arrivals| ==> arrivals[i] <= now
    ensures Fine(AdmittedOf(limit, arrivals), limit, now)
    ensures Tail(Run(limit, arrivals).0, AdmittedOf(limit, arrivals), p, now)
  {
    p := 0;
    if arrivals != [] {
      var n := |arrivals| - 1;
      var last := arrivals[n];
      var p0 := RunKeeps(limit, arrivals[..n], last);
      p := OneMore(limit, Run(limit, arrivals[..n]).0, AdmittedOf(limit, arrivals[..n]), p0, last);
    }
  }

  // ---- Counting in a window ---------------------------------------------------------------------

  /** Of sorted times up to t, those after the first m, which have left the window, are counted. */
  lemma {:induction false} WithinIsSuffix(ts: seq<real>, t: real, m: nat)
    requires m <= |ts| && Sorted(ts)
    requires forall i :: 0 <= i < m ==> ts[i] <= t - 60.0
    ensures Within(ts, t) <= |ts| - m
    ensures (m < |ts| ==> t - 60.0 < ts[m]) && (forall i :: 0 <= i < |ts| ==> ts[i] <= t) ==> Within(ts, t) == |ts| - m
    decreases |ts|
  {
    if ts != [] {
      var n := |ts| - 1;
      if m == |ts| {
        assert ts[n] <= t - 60.0;
        WithinIsSuffix(ts[..n], t, n);
      } else {
        assert Sorted(ts[..n]);
        WithinIsSuffix(ts[..n], t, m);
        assert ts[m] <= ts[n];
      }
    }
  }

  lemma {:induction false} SpacedIsSparse(ts: seq<real>, limit: nat, t: real)
    requires Sorted(ts) && Spaced(ts, limit)
    ensures Within(ts, t) <= limit
    decreases |ts|
  {
    if ts != [] {
      var n := |ts| - 1;
      if !InWindow(ts[n], t) {
        assert Spaced(ts[..n], limit) && Sorted(ts[..n]);
        SpacedIsSparse(ts[..n], limit, t);
      } else if |ts| > limit {
        var m := |ts| - limit;
        forall i | 0 <= i < m ensures ts[i] <= t - 60.0 {
          assert i + limit <= n;
        }
        WithinIsSuffix(ts, t, m);
      } else {
        WithinIsSuffix(ts, t, 0);
      }
    }
  }

  /** For arrivals that never go back in time: in every window of 60 s, wherever it ends, at
      most `limit` requests are admitted. */
  lemma AtMostLimitPerWindow(limit: nat, arrivals: seq<real>, t: real)
    requires Sorted(arrivals) && limit > 0
    ensures Within(AdmittedOf(limit, arrivals), t) <= limit
  {
    var p := RunKeeps(limit, arrivals, if arrivals == [] then t else arrivals[|arrivals| - 1]);
    SpacedIsSparse(AdmittedOf(limit, arrivals), limit, t);
  }

  /** A request is rejected if and only if the limit is used up by those admitted in the window
      that ends with it. */
  lemma RejectedExactly(limit: nat, arrivals: seq<real>, now: real)
    requires Sorted(arrivals + [now]) && limit > 0
    ensures AdmittedOf(limit, arrivals + [now]) == AdmittedOf(limit, arrivals) <==>
              Within(AdmittedOf(limit, arrivals), now) == limit
    ensures AdmittedOf(limit, arrivals + [now]) in [AdmittedOf(limit, arrivals), AdmittedOf(limit, arrivals) + [now]]
  {
    var all := arrivals + [now];
    assert all[..|arrivals|] == arrivals;
    forall i, j | 0 <= i <= j < |arrivals| ensures arrivals[i] <= arrivals[j] <= now {
      assert all[i] <= all[j] <= all[|arrivals|];
    }
    var p := RunKeeps(limit, arrivals, now);
    var (dq, admitted) := Run(limit, arrivals);
    var q := TrimmedIsTail(dq, admitted, p, now);
    WithinIsSuffix(admitted, now, q);
    SpacedIsSparse(admitted, limit, now);
    assert |Trimmed(dq, now)| == Within(admitted, now);
    assert |admitted + [now]| != |admitted|;
  }
}
