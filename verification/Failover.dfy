/**
  Forwarding one request: the retry loop over the groups of a fallback chain and over the
  instances of a group, and who owes the decrement of a backend's in-flight counter.

  A request is a small machine; an event of it is one stretch of code that ends at an
  await. `InflightAccounting` runs any number of these machines over one table of counters.
 */
module Failover {
  import opened Options

  // ---- The counters ---------------------------------------------------------------------

  type Counters = map<string, nat>

  function Key(group: string, id: string): string { group + "::" + id }

  function Get(m: Counters, k: string): nat { if k in m then m[k] else 0 }

  function Incremented(m: Counters, k: string): Counters { m[k := Get(m, k) + 1] }

  /** The decrement saturates: a counter at one or below is removed. */
  function Decremented(m: Counters, k: string): Counters {
    if Get(m, k) <= 1 then m - {k} else m[k := m[k] - 1]
  }

  class BackendState {
    var inflight: Counters

    constructor ()
      ensures inflight == map[]
    {
      inflight := map[];
    }

    method Incr(group: string, id: string)
      modifies this
      ensures inflight == Incremented(old(inflight), Key(group, id))
      ensures var k := group + "::" + id;
              inflight == old(inflight)[k := if k in old(inflight) then old(inflight)[k] + 1 else 1]
    {
      var key := group + "::" + id;
      inflight := inflight[key := (if key in inflight then inflight[key] else 0) + 1];
    }

    method Decr(group: string, id: string)
      modifies this
      ensures inflight == Decremented(old(inflight), Key(group, id))
      ensures var k := group + "::" + id;
              inflight == if k in old(inflight) && old(inflight)[k] > 1 then old(inflight)[k := old(inflight)[k] - 1]
                          else old(inflight) - {k}
    {
      var key := group + "::" + id;
      var current := if key in inflight then inflight[key] else 0;
      if current <= 1 {
        inflight := inflight - {key};
      } else {
        inflight := inflight[key := current - 1];
      }
    }
  }

  // ---- One request ------------------------------------------------------------------------

  datatype Response = Response(status: nat, sse: bool)

  datatype Group = Group(name: string, ids: seq<string>)

  function MaxAttempts(g: Group): (n: nat)
    ensures 1 <= n <= 3 && (|g.ids| >= 1 ==> n <= |g.ids|)
  {
    if |g.ids| >= 3 then 3 else if |g.ids| <= 1 then 1 else |g.ids|
  }

  /** Where a request stands. `left` is what the variable `response` still holds from an
      earlier, closed 5xx of the same group; `id` is the instance picked last. A request is
      `live` if the response it serves is open and counted, and not such a left-over. */
  datatype Phase =
    | Choosing(g: nat, attempt: nat, tried: set<string>, left: Option<Response>, id: string)
    | Connecting(g: nat, attempt: nat, tried: set<string>, left: Option<Response>, id: string)
    | Closing(g: nat, attempt: nat, tried: set<string>, response: Response, id: string)
    | Serving(key: string, response: Response, live: bool)
    | Streaming(key: string, live: bool)
    | Unwinding(key: string)      // in the `finally`, closing the upstream response
    | Ended

  datatype Event =
    | Pick(id: string, asleep: set<string>)   // select_instance returned
    | NoPick(asleep: set<string>)             // select_instance raised
    | Connected(response: Response)
    | ConnectFailed
    | Closed                                  // the 5xx response is closed, retry
    | CloseFailed                             // closing the 5xx response raised
    | Deliver                                 // hand the stream over, or the body is read (or fails)
    | Finish                                  // the stream's generator runs its `finally`
    | CloseDone                               // the `finally` closed the response
    | CloseRaises                             // the `finally` is interrupted while closing it
    | Cancel

  /** After a group that served nothing: the next one, or the end of the chain, where a
      left-over response passes for one. */
  function NextGroup(chain: seq<Group>, g: nat, left: Option<Response>, id: string): Phase
    requires g < |chain|
  {
    if g + 1 < |chain| then Choosing(g + 1, 0, {}, None, "")
    else if left.Some? then Serving(Key(chain[g].name, id), left.value, false)
    else Ended
  }

  predicate Placed(chain: seq<Group>, ph: Phase) {
    (ph.Choosing? || ph.Connecting? || ph.Closing?) ==> ph.g < |chain| && ph.attempt < MaxAttempts(chain[ph.g])
  }

  /** Which events a phase can meet. An instance may be picked unless it was tried or sleeps,
      and none may be if there is no such instance. */
  predicate Enabled(chain: seq<Group>, ph: Phase, e: Event) {
    && Placed(chain, ph)
    && match ph
       case Choosing(g, _, tried, _, _) =>
         || (e.Pick? && e.id in chain[g].ids && e.id !in tried && e.id !in e.asleep)
         || (e.NoPick? && forall i :: i in chain[g].ids ==> i in tried || i in e.asleep)
         || e.Cancel?
       case Connecting(_, _, _, _, _) => e.Connected? || e.ConnectFailed? || e.Cancel?
       case Closing(_, attempt, _, _, _) =>
         attempt + 1 < MaxAttempts(chain[ph.g]) && (e.Closed? || e.CloseFailed? || e.Cancel?)
       case Serving(_, response, _) => e.Deliver? || (e.Cancel? && !response.sse)
       case Streaming(_, _) => e.Finish?
       case Unwinding(_) => e.CloseDone? || e.CloseRaises?
       case Ended => false
  }

  function Step(chain: seq<Group>, ph: Phase, e: Event): Phase
    requires Enabled(chain, ph, e)
  {
    match ph
    case Choosing(g, attempt, tried, left, id) =>
      if e.Pick? then Connecting(g, attempt, tried + {e.id}, left, e.id)
      else if e.NoPick? then NextGroup(chain, g, left, id)
      else Ended
    case Connecting(g, attempt, tried, left, id) =>
      if e.Connected? then
        if e.response.status >= 500 && attempt + 1 < MaxAttempts(chain[g]) then
          Closing(g, attempt, tried, e.response, id)
        else Serving(Key(chain[g].name, id), e.response, true)
      else if e.ConnectFailed? then
        if attempt + 1 < MaxAttempts(chain[g]) then Choosing(g, attempt + 1, tried, left, id)
        else NextGroup(chain, g, None, id)
      else Ended
    case Closing(g, attempt, tried, response, id) =>
      if e.Closed? then Choosing(g, attempt + 1, tried, Some(response), id)
      else Unwinding(Key(chain[g].name, id))
    case Serving(key, response, live) =>
      if e.Deliver? && response.sse then Streaming(key, live)
      else if live then Unwinding(key)
      else Ended
    case Streaming(_, _) => Ended
    case Unwinding(_) => Ended
    case Ended => Ended
  }

  /** What an event does to the counters. */
  datatype Effect = Up(key: string) | Down(key: string) | Nothing

  function EffectOf(chain: seq<Group>, ph: Phase, e: Event): Effect
    requires Enabled(chain, ph, e)
  {
    match ph
    case Choosing(g, _, _, _, _) => if e.Pick? then Up(Key(chain[g].name, e.id)) else Nothing
    case Connecting(g, _, _, _, id) => if e.Connected? then Nothing else Down(Key(chain[g].name, id))
    case Closing(g, _, _, _, id) => if e.Closed? then Down(Key(chain[g].name, id)) else Nothing
    case Streaming(key, _) => Down(key)
    case Unwinding(key) => if e.CloseDone? then Down(key) else Nothing
    case _ => Nothing
  }

  function Applied(m: Counters, f: Effect): Counters {
    match f
    case Up(k) => Incremented(m, k)
    case Down(k) => Decremented(m, k)
    case Nothing => m
  }

  /** The backend a request is counted on: it, or its stream's generator, owes one decrement. */
  function CountedOn(chain: seq<Group>, ph: Phase): Option<string>
    requires Placed(chain, ph)
  {
    match ph
    case Connecting(g, _, _, _, id) => Some(Key(chain[g].name, id))
    case Closing(g, _, _, _, id) => Some(Key(chain[g].name, id))
    case Serving(key, _, live) => if live then Some(key) else None
    case Streaming(key, live) => if live then Some(key) else None
    case Unwinding(key) => Some(key)
    case _ => None
  }

  // ---- The loop -----------------------------------------------------------------------------

  /** What one attempt of an undisturbed request meets. */
  datatype Answer = NoInstance | Dead(id: string) | Replied(id: string, response: Response)

  /** The phase after one attempt. */
  function Answered(chain: seq<Group>, ph: Phase, a: Answer): Phase
    requires ph.Choosing? && Placed(chain, ph)
  {
    var more := ph.attempt + 1 < MaxAttempts(chain[ph.g]);
    match a
    case NoInstance => NextGroup(chain, ph.g, ph.left, ph.id)
    case Dead(id) =>
      if more then Choosing(ph.g, ph.attempt + 1, ph.tried + {id}, ph.left, id) else NextGroup(chain, ph.g, None, id)
    case Replied(id, r) =>
      if r.status >= 500 && more then Choosing(ph.g, ph.attempt + 1, ph.tried + {id}, Some(r), id)
      else Serving(Key(chain[ph.g].name, id), r, true)
  }

  /** An attempt is a sequence of events of the machine. */
  lemma AnsweredBySteps(chain: seq<Group>, ph: Phase, a: Answer, asleep: set<string>)
    requires ph.Choosing? && Placed(chain, ph)
    requires a.NoInstance? ==> Enabled(chain, ph, NoPick(asleep))
    requires !a.NoInstance? ==> Enabled(chain, ph, Pick(a.id, asleep))
    ensures match a
            case NoInstance => Answered(chain, ph, a) == Step(chain, ph, NoPick(asleep))
            case Dead(id) => Answered(chain, ph, a) == Step(chain, Step(chain, ph, Pick(id, asleep)), ConnectFailed)
            case Replied(id, r) =>
              var open := Step(chain, Step(chain, ph, Pick(id, asleep)), Connected(r));
              Answered(chain, ph, a) == if open.Closing? then Step(chain, open, Closed) else open
  {
  }

  /** All attempts of an undisturbed request: the i-th one meets answers(i). */
  function Driven(chain: seq<Group>, ph: Phase, answers: nat -> Answer, i: nat): Phase
    requires Placed(chain, ph)
    decreases if ph.Choosing? then |chain| - ph.g else 0,
              if ph.Choosing? then MaxAttempts(chain[ph.g]) - ph.attempt else 0
  {
    if ph.Choosing? then Driven(chain, Answered(chain, ph, answers(i)), answers, i + 1) else ph
  }

  function Start(): Phase { Choosing(0, 0, {}, None, "") }

  // ---- What a request's answers lead to ----------------------------------------------------------

  /** The answers from a up to b are retried: dead instances and 5xx replies. */
  ghost predicate Retried(answers: nat -> Answer, a: nat, b: nat) {
    forall i: nat :: a <= i < b ==> answers(i).Dead? || (answers(i).Replied? && answers(i).response.status >= 500)
  }

  /** max(1, min(|instances|, 3)) */
  ghost function Most(g: Group): nat { if |g.ids| < 1 then 1 else if |g.ids| > 3 then 3 else |g.ids| }

  /** The group that meets the answers from a up to b is given up: selection refuses, or the last
      of all its attempts fails to connect. */
  ghost predicate GivenUp(g: Group, answers: nat -> Answer, a: nat, b: nat) {
    && a < b <= a + Most(g) && Retried(answers, a, b - 1)
    && (answers(b - 1).NoInstance? || (answers(b - 1).Dead? && b == a + Most(g)))
  }

  /** The groups before the last start are given up one after another, from the first answer on. */
  ghost predicate GivenUpInTurn(chain: seq<Group>, answers: nat -> Answer, starts: seq<nat>) {
    && 1 <= |starts| <= |chain| + 1 && starts[0] == 0
    && forall g :: 0 <= g < |starts| - 1 ==> GivenUp(chain[g], answers, starts[g], starts[g + 1])
  }

  /** The k-th answer serves: a reply below 500, or one to the last attempt of its group. */
  ghost predicate Serves(chain: seq<Group>, answers: nat -> Answer, starts: seq<nat>, k: nat) {
    && GivenUpInTurn(chain, answers, starts) && |starts| <= |chain|
    && var g, a := |starts| - 1, starts[|starts| - 1];
       && a <= k < a + Most(chain[g]) && Retried(answers, a, k)
       && answers(k).Replied? && (answers(k).response.status < 500 || k + 1 == a + Most(chain[g]))
  }

  /** The latest reply among the answers from a up to b. */
  ghost function LatestReply(answers: nat -> Answer, a: nat, b: nat): Option<Response>
    requires a <= b
  {
    if a == b then None
    else if answers(b - 1).Replied? then Some(answers(b - 1).response)
    else LatestReply(answers, a, b - 1)
  }

  /** No group serves: the request ends without a response, unless the last group was given up
      by selection after a reply, which is then left over. */
  ghost predicate NoneServes(chain: seq<Group>, answers: nat -> Answer, starts: seq<nat>, ph: Phase) {
    && GivenUpInTurn(chain, answers, starts) && |starts| == |chain| + 1 > 1
    && var a, b := starts[|chain| - 1], starts[|chain|];
       var left := LatestReply(answers, a, b - 1);
       if answers(b - 1).NoInstance? && left.Some? then
         && b >= 2 && !answers(b - 2).NoInstance?
         && ph == Serving(Key(chain[|chain| - 1].name, answers(b - 2).id), left.value, false)
       else ph == Ended
  }

  /** What comes of a request, told by its answers alone. */
  ghost predicate IsOutcome(chain: seq<Group>, answers: nat -> Answer, ph: Phase) {
    || (exists starts, k ::
          && Serves(chain, answers, starts, k)
          && ph == Serving(Key(chain[|starts| - 1].name, answers(k).id), answers(k).response, true))
    || (exists starts :: NoneServes(chain, answers, starts, ph))
  }

  lemma {:induction false} Within(chain: seq<Group>, g: nat, answers: nat -> Answer, a: nat, n: nat)
    returns (tried: set<string>, id: string)
    requires g < |chain| && a <= n < a + Most(chain[g]) && Retried(answers, a, n)
    ensures var here := Choosing(g, n - a, tried, LatestReply(answers, a, n), id);
            && Placed(chain, here)
            && Driven(chain, Choosing(g, 0, {}, None, ""), answers, a) == Driven(chain, here, answers, n)
            && (n > a ==> !answers(n - 1).NoInstance? && id == answers(n - 1).id)
    decreases n
  {
    tried, id := {}, "";
    if a < n {
      tried, id := Within(chain, g, answers, a, n - 1);
      tried, id := tried + {answers(n - 1).id}, answers(n - 1).id;
    }
  }

  lemma GivenUpGoesOn(chain: seq<Group>, g: nat, answers: nat -> Answer, a: nat, b: nat)
    requires g + 1 < |chain| && GivenUp(chain[g], answers, a, b)
    ensures Driven(chain, Choosing(g, 0, {}, None, ""), answers, a)
         == Driven(chain, Choosing(g + 1, 0, {}, None, ""), answers, b)
  {
    var tried, id := Within(chain, g, answers, a, b - 1);
  }

  lemma {:induction false} GroupsAreGivenUp(chain: seq<Group>, answers: nat -> Answer, starts: seq<nat>, g: nat)
    requires GivenUpInTurn(chain, answers, starts) && g < |starts| && g < |chain|
    ensures Driven(chain, Start(), answers, 0) == Driven(chain, Choosing(g, 0, {}, None, ""), answers, starts[g])
    decreases g
  {
    if g > 0 {
      GroupsAreGivenUp(chain, answers, starts, g - 1);
      GivenUpGoesOn(chain, g - 1, answers, starts[g - 1], starts[g]);
    }
  }

  /** Groups are tried in turn, and the first reply below 500 is served, whatever came before it;
      so is any reply to the last attempt of a group. */
  lemma FirstGoodReplyIsServed(chain: seq<Group>, answers: nat -> Answer, starts: seq<nat>, k: nat)
    requires Serves(chain, answers, starts, k)
    ensures Driven(chain, Start(), answers, 0)
         == Serving(Key(chain[|starts| - 1].name, answers(k).id), answers(k).response, true)
  {
    var g := |starts| - 1;
    GroupsAreGivenUp(chain, answers, starts, g);
    var tried, id := Within(chain, g, answers, starts[g], k);
  }

  lemma LastGivenUp(chain: seq<Group>, answers: nat -> Answer, starts: seq<nat>)
    requires GivenUpInTurn(chain, answers, starts) && |starts| == |chain| + 1 > 1
    ensures NoneServes(chain, answers, starts, Driven(chain, Start(), answers, 0))
  {
    var g := |chain| - 1;
    GroupsAreGivenUp(chain, answers, starts, g);
    assert GivenUp(chain[g], answers, starts[g], starts[g + 1]);
    var tried, id := Within(chain, g, answers, starts[g], starts[g + 1] - 1);
  }

  /** The visit of a group ends: with an answer that is not retried, or with the last attempt. */
  lemma VisitEnds(g: Group, answers: nat -> Answer, a: nat) returns (n: nat)
    ensures a <= n < a + Most(g) && Retried(answers, a, n)
    ensures n + 1 < a + Most(g) ==> answers(n).NoInstance? || (answers(n).Replied? && answers(n).response.status < 500)
  {
    n := a;
    while n + 1 < a + Most(g) && (answers(n).Dead? || (answers(n).Replied? && answers(n).response.status >= 500))
      invariant a <= n < a + Most(g) && Retried(answers, a, n)
      decreases a + Most(g) - n
    {
      n := n + 1;
    }
  }

  lemma {:induction false} OutcomeFrom(chain: seq<Group>, answers: nat -> Answer, starts: seq<nat>)
    requires GivenUpInTurn(chain, answers, starts) && |starts| <= |chain|
    ensures IsOutcome(chain, answers, Driven(chain, Start(), answers, 0))
    decreases |chain| - |starts|
  {
    var g := |starts| - 1;
    var n := VisitEnds(chain[g], answers, starts[g]);
    if answers(n).Replied? {
      assert Serves(chain, answers, starts, n);
      FirstGoodReplyIsServed(chain, answers, starts, n);
    } else {
      var more := starts + [n + 1];
      assert forall h :: 0 <= h < |more| - 1 ==> GivenUp(chain[h], answers, more[h], more[h + 1]);
      if |more| <= |chain| {
        OutcomeFrom(chain, answers, more);
      } else {
        LastGivenUp(chain, answers, more);
      }
    }
  }

  /** Every request comes to the outcome its answers spell. */
  lemma OutcomeIs(chain: seq<Group>, answers: nat -> Answer)
    requires chain != []
    ensures IsOutcome(chain, answers, Driven(chain, Start(), answers, 0))
  {
    OutcomeFrom(chain, answers, [0]);
  }

  /** It ends without a response only after every group, the last one included, was given up. */
  lemma UnservedMeansAllGivenUp(chain: seq<Group>, answers: nat -> Answer)
    requires chain != [] && !Driven(chain, Start(), answers, 0).Serving?
    ensures exists starts :: GivenUpInTurn(chain, answers, starts) && |starts| == |chain| + 1
  {
    OutcomeIs(chain, answers);
    var starts :| NoneServes(chain, answers, starts, Driven(chain, Start(), answers, 0));
  }

  /** Every counter is what it was, plus one for the backend in `owed`. */
  ghost predicate Owes(was: Counters, now: Counters, owed: Option<string>) {
    forall k :: Get(now, k) == Get(was, k) + if owed == Some(k) then 1 else 0
  }

  lemma OwesMore(was: Counters, now: Counters, key: string)
    requires Owes(was, now, None)
    ensures Owes(was, Incremented(now, key), Some(key))
    ensures Owes(was, Decremented(Incremented(now, key), key), None)
  {
  }

  /** The nested retry loops. The counters end up as they were, but for the one the served
      response is counted on. */
  method Forward(state: BackendState, chain: seq<Group>, answers: nat -> Answer) returns (ph: Phase)
    requires chain != []
    modifies state
    ensures !ph.Choosing? && Placed(chain, ph) && ph == Driven(chain, Start(), answers, 0)
    ensures IsOutcome(chain, answers, ph)
    ensures Owes(old(state.inflight), state.inflight, CountedOn(chain, ph))
  {
    ghost var goal := Driven(chain, Start(), answers, 0);
    OutcomeIs(chain, answers);
    var response: Option<Response> := None;
    var instanceId, modelKey := "", "";
    var served := false;
    var g, n := 0, 0;
    while g < |chain| && !served
      invariant 0 <= g <= |chain|
      invariant !served && g < |chain| ==> Driven(chain, Choosing(g, 0, {}, None, ""), answers, n) == goal
      invariant !served && g == |chain| ==>
                  goal == if response.Some? then Serving(Key(modelKey, instanceId), response.value, false) else Ended
      invariant served ==> response.Some? && goal == Serving(Key(modelKey, instanceId), response.value, true)
      invariant Owes(old(state.inflight), state.inflight, if served then Some(Key(modelKey, instanceId)) else None)
      decreases |chain| - g, if served then 0 else 1
    {
      modelKey := chain[g].name;
      var maxAttempts := if |chain[g].ids| <= 1 then 1 else if |chain[g].ids| < 3 then |chain[g].ids| else 3;
      var tried: set<string> := {};
      response := None;
      instanceId := "";
      var exhausted := false;
      var attempt := 0;
      while attempt < maxAttempts && !exhausted && !served
        invariant 0 <= attempt <= maxAttempts == MaxAttempts(chain[g])
        invariant !exhausted && !served ==> attempt < maxAttempts
        invariant !exhausted && !served ==>
                    Driven(chain, Choosing(g, attempt, tried, response, instanceId), answers, n) == goal
        invariant exhausted ==> !served
        invariant exhausted ==> Driven(chain, NextGroup(chain, g, response, instanceId), answers, n) == goal
        invariant served ==> response.Some? && goal == Serving(Key(modelKey, instanceId), response.value, true)
        invariant Owes(old(state.inflight), state.inflight, if served then Some(Key(modelKey, instanceId)) else None)
        decreases maxAttempts - attempt, if exhausted || served then 0 else 1
      {
        var a := answers(n);
        ghost var here := Choosing(g, attempt, tried, response, instanceId);
        assert goal == Driven(chain, Answered(chain, here, a), answers, n + 1);
        n := n + 1;
        if a.NoInstance? {
          exhausted := true;
        } else {
          instanceId := a.id;
          tried := tried + {a.id};
          OwesMore(old(state.inflight), state.inflight, Key(modelKey, instanceId));
          state.Incr(modelKey, instanceId);
          if a.Dead? {
            state.Decr(modelKey, instanceId);
            if attempt < maxAttempts - 1 {
              attempt := attempt + 1;
            } else {
              exhausted := true;
              response := None;
            }
          } else {
            response := Some(a.response);
            if a.response.status >= 500 && attempt < maxAttempts - 1 {
              state.Decr(modelKey, instanceId);
              attempt := attempt + 1;
            } else {
              served := true;
            }
          }
        }
      }
      if !served {
        g := g + 1;
      }
    }
    ph := if response.None? then Ended else Serving(Key(modelKey, instanceId), response.value, served);
  }
}
