/** How often and where one request is tried: every chain, every run of the machine. */
module FailoverBounds {
  import opened Failover
  import Routing

  predicate Admissible(chain: seq<Group>, ph: Phase, es: seq<Event>)
    decreases es
  {
    es == [] || (Enabled(chain, ph, es[0]) && Admissible(chain, Step(chain, ph, es[0]), es[1..]))
  }

  function Final(chain: seq<Group>, ph: Phase, es: seq<Event>): Phase
    requires Admissible(chain, ph, es)
    decreases es
  {
    if es == [] then ph else Final(chain, Step(chain, ph, es[0]), es[1..])
  }

  /** The instances tried, each with the place of its group in the chain. */
  function Tries(chain: seq<Group>, ph: Phase, es: seq<Event>): seq<(nat, string)>
    requires Admissible(chain, ph, es)
    decreases es
  {
    if es == [] then []
    else (if es[0].Pick? then [(ph.g, es[0].id)] else []) + Tries(chain, Step(chain, ph, es[0]), es[1..])
  }

  /** What is tried from here on is new: it is not in an earlier group, nor tried before in
      this one. */
  ghost predicate IsNew(ph: Phase, t: (nat, string)) {
    (ph.Choosing? || ph.Connecting? || ph.Closing?) && ph.g <= t.0 && (ph.g == t.0 ==> t.1 !in ph.tried)
  }

  lemma NewStaysNew(chain: seq<Group>, ph: Phase, e: Event, t: (nat, string))
    requires Enabled(chain, ph, e) && IsNew(Step(chain, ph, e), t)
    ensures IsNew(ph, t) && (e.Pick? ==> t != (ph.g, e.id))
  {
  }

  lemma {:induction false} TriesAreNew(chain: seq<Group>, ph: Phase, es: seq<Event>, t: (nat, string))
    requires Admissible(chain, ph, es) && t in Tries(chain, ph, es)
    ensures IsNew(ph, t) && t.0 < |chain| && t.1 in chain[t.0].ids
    decreases es
  {
    var next := Step(chain, ph, es[0]);
    if !es[0].Pick? || t != (ph.g, es[0].id) {
      TriesAreNew(chain, next, es[1..], t);
      NewStaysNew(chain, ph, es[0], t);
    }
  }

  lemma {:induction false} TriesAreDistinct(chain: seq<Group>, ph: Phase, es: seq<Event>)
    requires Admissible(chain, ph, es)
    ensures var ts := Tries(chain, ph, es);
            forall i, j :: 0 <= i < j < |ts| ==> ts[i] != ts[j] && ts[i].0 <= ts[j].0
    decreases es
  {
    if es != [] {
      var next := Step(chain, ph, es[0]);
      TriesAreDistinct(chain, next, es[1..]);
      if es[0].Pick? {
        forall t | t in Tries(chain, next, es[1..]) ensures t != (ph.g, es[0].id) && ph.g <= t.0 {
          TriesAreNew(chain, next, es[1..], t);
          NewStaysNew(chain, ph, es[0], t);
        }
      } else {
        assert Tries(chain, ph, es) == Tries(chain, next, es[1..]);
      }
    }
  }

  function TotalAttempts(chain: seq<Group>, g: nat): nat
    requires g <= |chain|
    decreases |chain| - g
  {
    if g == |chain| then 0 else MaxAttempts(chain[g]) + TotalAttempts(chain, g + 1)
  }

  /** The attempts a request has left. */
  function AttemptsLeft(chain: seq<Group>, ph: Phase): int
    requires Placed(chain, ph)
  {
    if ph.Choosing? then TotalAttempts(chain, ph.g) - ph.attempt
    else if ph.Connecting? || ph.Closing? then TotalAttempts(chain, ph.g) - ph.attempt - 1
    else 0
  }

  /** Events a request has left, at most: three to an attempt, one to give up a group, three
      to serve. */
  function EventsLeft(chain: seq<Group>, ph: Phase): int
    requires Placed(chain, ph)
  {
    match ph
    case Choosing(g, _, _, _, _) => 4 * AttemptsLeft(chain, ph) + 3
    case Connecting(g, _, _, _, _) => 4 * AttemptsLeft(chain, ph) + 6
    case Closing(g, _, _, _, _) => 4 * AttemptsLeft(chain, ph) + 5
    case Serving(_, _, _) => 2
    case Streaming(_, _) => 1
    case Unwinding(_) => 1
    case Ended => 0
  }

  lemma StepSpends(chain: seq<Group>, ph: Phase, e: Event)
    requires Enabled(chain, ph, e)
    ensures Placed(chain, Step(chain, ph, e))
    ensures 0 <= AttemptsLeft(chain, Step(chain, ph, e)) <= AttemptsLeft(chain, ph) - if e.Pick? then 1 else 0
    ensures 0 <= EventsLeft(chain, Step(chain, ph, e)) < EventsLeft(chain, ph)
  {
    if ph.Choosing? || ph.Connecting? || ph.Closing? {
      assert TotalAttempts(chain, ph.g) == MaxAttempts(chain[ph.g]) + TotalAttempts(chain, ph.g + 1);
    }
  }

  lemma {:induction false} RunSpends(chain: seq<Group>, ph: Phase, es: seq<Event>)
    requires Placed(chain, ph) && Admissible(chain, ph, es)
    ensures |Tries(chain, ph, es)| <= AttemptsLeft(chain, ph)
    ensures |es| <= EventsLeft(chain, ph)
    decreases es
  {
    if es != [] {
      StepSpends(chain, ph, es[0]);
      RunSpends(chain, Step(chain, ph, es[0]), es[1..]);
    } else if ph.Choosing? || ph.Connecting? || ph.Closing? {
      assert TotalAttempts(chain, ph.g) == MaxAttempts(chain[ph.g]) + TotalAttempts(chain, ph.g + 1);
    }
  }

  function Summed(chain: seq<Group>): nat
  {
    if chain == [] then 0
    else (if |chain[0].ids| < 1 then 1 else if |chain[0].ids| > 3 then 3 else |chain[0].ids|) + Summed(chain[1..])
  }

  lemma {:induction false} TotalIsSum(chain: seq<Group>, g: nat)
    requires g <= |chain|
    ensures TotalAttempts(chain, g) == Summed(chain[g..])
    decreases |chain| - g
  {
    if g < |chain| {
      TotalIsSum(chain, g + 1);
      assert chain[g..][1..] == chain[g + 1..];
    }
  }

  /** In every run of a request, whatever its backends do: no instance of a group is tried
      twice, the groups are tried in order, there are at most as many attempts as the sum of
      max(1, min(instances, 3)) over the chain, and the run ends. */
  lemma FailoverIsBounded(chain: seq<Group>, es: seq<Event>)
    requires chain != [] && Admissible(chain, Start(), es)
    ensures var ts := Tries(chain, Start(), es);
            && (forall i, j :: 0 <= i < j < |ts| ==> ts[i] != ts[j] && ts[i].0 <= ts[j].0)
            && (forall t :: t in ts ==> t.0 < |chain| && t.1 in chain[t.0].ids)
            && |ts| <= Summed(chain)
    ensures |es| <= 4 * Summed(chain) + 3
  {
    forall t | t in Tries(chain, Start(), es) ensures t.0 < |chain| && t.1 in chain[t.0].ids {
      TriesAreNew(chain, Start(), es, t);
    }
    TriesAreDistinct(chain, Start(), es);
    RunSpends(chain, Start(), es);
    TotalIsSum(chain, 0);
    assert chain[0..] == chain;
  }

  /** The machine meets what selecting an instance does, under every strategy: an instance
      chosen is one it can pick, and a refusal is a pick it cannot make. */
  lemma SelectionIsAnEvent(chain: seq<Group>, ph: Phase, s: Routing.Strategy, counter: nat, v: Routing.View,
                           hash: string -> nat, draw: Routing.Draw, margin: real)
    requires Placed(chain, ph) && ph.Choosing?
    ensures match Routing.Selected(s, counter, chain[ph.g].ids, ph.tried, v, hash, draw, margin)
            case Chosen(id) => Enabled(chain, ph, Pick(id, v.asleep)) && !Enabled(chain, ph, NoPick(v.asleep))
            case Refused(_) =>
              Enabled(chain, ph, NoPick(v.asleep)) && forall id :: !Enabled(chain, ph, Pick(id, v.asleep))
  {
    Routing.ChoiceIsEligible(s, counter, chain[ph.g].ids, ph.tried, v, hash, draw, margin);
  }
}
