/**
  Crash recovery of one instance: what a reconcile pass does to it, the budget and the backoff
  of automatic restarts, and the alerts an episode raises.

  An episode runs from one reset of the budget to the next: a start that a user (or the
  converge step) asks for, or the instance coming up. Starting, stopping, and a reconcile step
  with the alert for its transition, are single steps.
 */
module RestartBudget {
  import opened Options

  datatype State = Stopped | Starting | Ready | Failed | Stopping

  datatype Settings = Settings(autoRestart: bool, maxRestarts: int, base: real, startTimeout: real)

  datatype Alert = ModelFailed | ModelGaveUp | ModelRecovered

  /** What a reconcile pass sees: whether the process has exited, whether the probe answers, and
      how long the log is. */
  datatype Probe = Probe(exited: bool, ready: bool, logSize: nat)

  /** How an attempt to start ends: a pre-flight check refuses, the process cannot be spawned,
      or it is spawned. */
  datatype Outcome = Refused | SpawnFails | Spawned

  datatype Inst = Inst(
    wanted: bool,                     // desired == running
    state: State, hasProc: bool, managed: bool,
    startedAt: Option<real>, restarts: nat, nextRestartAt: Option<real>, wasFailed: bool,
    logSize: nat, progressAt: Option<real>)

  function Pow2(n: nat): nat { if n == 0 then 1 else 2 * Pow2(n - 1) }

  function Backoff(s: Settings, n: nat): real { s.base * Pow2(n) as real }

  /** The delay before the first restart is the base, and each delay is twice the one before. */
  lemma BackoffDoubles(s: Settings, n: nat)
    ensures Backoff(s, 0) == s.base && Backoff(s, n + 1) == 2.0 * Backoff(s, n)
  {
    assert Pow2(0) == 1 && Pow2(n + 1) as real == 2.0 * Pow2(n) as real;
  }

  // ---- The steps as functions ---------------------------------------------------------------

  predicate Restartable(x: Inst, s: Settings) { x.wanted && x.managed && s.autoRestart && x.restarts < s.maxRestarts }

  function Scheduled(x: Inst, s: Settings, now: real): Inst {
    if Restartable(x, s) then x.(nextRestartAt := Some(now + Backoff(s, x.restarts))) else x
  }

  function Progressed(x: Inst, probe: Probe, now: real): Inst {
    if probe.logSize > x.logSize then x.(logSize := probe.logSize, progressAt := Some(now)) else x
  }

  function QuietSince(x: Inst, now: real): real {
    if x.progressAt.Some? then x.progressAt.value else if x.startedAt.Some? then x.startedAt.value else now
  }

  /** One pass over the instance, and the state it moved to. */
  function Reconciled(x: Inst, s: Settings, probe: Probe, now: real): (Inst, Option<State>) {
    if x.managed && x.hasProc && probe.exited then
      if x.state.Stopping? then (x.(state := Stopped, hasProc := false), Some(Stopped))
      else (Scheduled(x.(wasFailed := true, state := Failed, hasProc := false), s, now), Some(Failed))
    else if x.state.Starting? && probe.ready then
      (x.(restarts := 0, nextRestartAt := None, state := Ready), Some(Ready))
    else if x.state.Starting? then
      var y := Progressed(x, probe, now);
      if now - QuietSince(y, now) > s.startTimeout then
        (Scheduled(y.(wasFailed := true, state := Failed, hasProc := false), s, now), Some(Failed))
      else (y, None)
    else (x, None)
  }

  predicate GaveUp(x: Inst, s: Settings) {
    x.managed && x.wanted && s.autoRestart && x.restarts >= s.maxRestarts && x.nextRestartAt.None?
  }

  function Classified(x: Inst, to: State, s: Settings): Option<Alert> {
    if to.Failed? then Some(if GaveUp(x, s) then ModelGaveUp else ModelFailed)
    else if to.Ready? && x.wasFailed then Some(ModelRecovered)
    else None
  }

  function Emitted(x: Inst, to: State): Inst { if to.Ready? then x.(wasFailed := false) else x }

  predicate Due(x: Inst, s: Settings, now: real) {
    && x.state.Failed? && x.wanted && x.managed && x.nextRestartAt.Some? && now >= x.nextRestartAt.value
    && x.restarts < s.maxRestarts && s.autoRestart
  }

  function Started(x: Inst, outcome: Outcome, reset: bool, now: real): Inst {
    match outcome
    case Refused => x
    case _ =>
      var y := x.(wanted := true, managed := true, startedAt := Some(now), logSize := 0, progressAt := Some(now),
                  restarts := if reset then 0 else x.restarts, nextRestartAt := None, state := Starting);
      if outcome.Spawned? then y.(hasProc := true) else y.(managed := false, state := Failed)
  }

  /** The five cases of a pass, field by field: y and `to` are what it makes of x. */
  ghost predicate IsReconciled(x: Inst, s: Settings, probe: Probe, now: real, y: Inst, to: Option<State>) {
    var exited := x.managed && x.hasProc && probe.exited;
    var grew := probe.logSize > x.logSize;
    var since := if grew then now else if x.progressAt.Some? then x.progressAt.value
                 else if x.startedAt.Some? then x.startedAt.value else now;
    var again := x.wanted && x.managed && s.autoRestart && x.restarts < s.maxRestarts;
    var next := if again then Some(now + Backoff(s, x.restarts)) else x.nextRestartAt;
    var watched := if grew then x.(logSize := probe.logSize, progressAt := Some(now)) else x;
    && (exited && x.state.Stopping? ==> to == Some(Stopped) && y == x.(state := Stopped, hasProc := false))
    && (exited && !x.state.Stopping? ==>
          to == Some(Failed) && y == x.(state := Failed, hasProc := false, wasFailed := true, nextRestartAt := next))
    && (!exited && x.state.Starting? && probe.ready ==>
          to == Some(Ready) && y == x.(state := Ready, restarts := 0, nextRestartAt := None))
    && (!exited && x.state.Starting? && !probe.ready && now - since > s.startTimeout ==>
          && to == Some(Failed)
          && y == watched.(state := Failed, hasProc := false, wasFailed := true, nextRestartAt := next))
    && (!exited && x.state.Starting? && !probe.ready && now - since <= s.startTimeout ==> to == None && y == watched)
    && (!exited && !x.state.Starting? ==> to == None && y == x)
  }

  lemma ReconciledIs(x: Inst, s: Settings, probe: Probe, now: real)
    ensures var (y, to) := Reconciled(x, s, probe, now); IsReconciled(x, s, probe, now, y, to)
  {
  }

  // ---- The instance --------------------------------------------------------------------------

  class ModelInstance {
    var wanted: bool
    var state: State
    var hasProc: bool
    var managed: bool
    var startedAt: Option<real>
    var restartCount: nat
    var nextRestartAt: Option<real>
    var wasFailed: bool
    var lastLogSize: nat
    var lastProgressAt: Option<real>

    ghost function Value(): Inst
      reads this
    {
      Inst(wanted, state, hasProc, managed, startedAt, restartCount, nextRestartAt, wasFailed,
           lastLogSize, lastProgressAt)
    }

    constructor ()
      ensures Value() == Fresh
    {
      wanted, state, hasProc, managed := false, Stopped, false, false;
      startedAt, restartCount, nextRestartAt, wasFailed := None, 0, None, false;
      lastLogSize, lastProgressAt := 0, None;
    }

    method MaybeScheduleRestart(s: Settings, now: real)
      modifies this
      ensures Value() == Scheduled(old(Value()), s, now)
      ensures var armed := Some(now + Backoff(s, old(restartCount)));
              var due := old(wanted) && old(managed) && s.autoRestart && old(restartCount) < s.maxRestarts;
              Value() == old(Value()).(nextRestartAt := if due then armed else old(nextRestartAt))
    {
      if wanted && managed && s.autoRestart && restartCount < s.maxRestarts {
        var backoff := Backoff(s, restartCount);
        nextRestartAt := Some(now + backoff);
      }
    }

    method CheckProcessExit(exited: bool) returns (to: Option<State>)
      modifies this
      ensures var x := old(Value());
              if x.managed && x.hasProc && exited then
                && to == Some(if x.state.Stopping? then Stopped else Failed)
                && Value() == x.(hasProc := false, state := to.value, wasFailed := x.wasFailed || to.value.Failed?)
              else to.None? && Value() == x
    {
      if !managed || !hasProc { return None; }
      if !exited { return None; }
      if state.Stopping? {
        state := Stopped;
      } else {
        wasFailed := true;
        state := Failed;
      }
      hasProc := false;
      return Some(state);
    }

    method Reconcile(s: Settings, probe: Probe, now: real) returns (to: Option<State>)
      modifies this
      ensures (Value(), to) == Reconciled(old(Value()), s, probe, now)
      ensures IsReconciled(old(Value()), s, probe, now, Value(), to)
    {
      ReconciledIs(Value(), s, probe, now);
      to := CheckProcessExit(probe.exited);
      if to.Some? {
        if to.value.Failed? {
          MaybeScheduleRestart(s, now);
        }
        return;
      }
      if state.Starting? {
        to := WatchStart(s, probe, now);
      }
    }

    /** The readiness probe of a starting instance, and its startup timeout. */
    method WatchStart(s: Settings, probe: Probe, now: real) returns (to: Option<State>)
      requires state.Starting?
      modifies this
      ensures (Value(), to) == Reconciled(old(Value()), s, probe.(exited := false), now)
    {
      if probe.ready {
        restartCount := 0;
        nextRestartAt := None;
        state := Ready;
        return Some(Ready);
      }
      if probe.logSize > lastLogSize {
        lastLogSize := probe.logSize;
        lastProgressAt := Some(now);
      }
      var idleSince := if lastProgressAt.Some? then lastProgressAt.value
                       else if startedAt.Some? then startedAt.value else now;
      if now - idleSince > s.startTimeout {
        wasFailed := true;
        hasProc := false;
        state := Failed;
        MaybeScheduleRestart(s, now);
        return Some(Failed);
      }
      to := None;
    }

    method Emit(to: State, s: Settings) returns (alert: Option<Alert>)
      modifies this
      ensures alert == Classified(old(Value()), to, s) && Value() == Emitted(old(Value()), to)
      ensures alert == Some(ModelGaveUp) <==>
                && to.Failed? && managed && wanted && s.autoRestart
                && restartCount >= s.maxRestarts && nextRestartAt.None?
      ensures alert == Some(ModelFailed) <==> to.Failed? && alert != Some(ModelGaveUp)
      ensures alert == Some(ModelRecovered) <==> to.Ready? && old(wasFailed)
      ensures Value() == old(Value()).(wasFailed := old(wasFailed) && !to.Ready?)
    {
      alert := None;
      if to.Failed? {
        var gaveUp := managed && wanted && s.autoRestart && restartCount >= s.maxRestarts && nextRestartAt.None?;
        alert := Some(if gaveUp then ModelGaveUp else ModelFailed);
      } else if to.Ready? && wasFailed {
        alert := Some(ModelRecovered);
      }
      if to.Ready? {
        wasFailed := false;
      }
    }

    /** The manager's start; the alert is that of a failed spawn. */
    method Start(outcome: Outcome, reset: bool, s: Settings, now: real) returns (alert: Option<Alert>)
      modifies this
      ensures Value() == Started(old(Value()), outcome, reset, now)
      ensures outcome.Refused? ==> Value() == old(Value())
      ensures !outcome.Refused? ==>
                && wanted && startedAt == Some(now) && nextRestartAt == None
                && lastLogSize == 0 && lastProgressAt == Some(now)
                && restartCount == (if reset then 0 else old(restartCount)) && wasFailed == old(wasFailed)
      ensures outcome.Spawned? ==> state == Starting && hasProc && managed
      ensures outcome.SpawnFails? ==> state == Failed && !managed && hasProc == old(hasProc)
      ensures alert == if outcome.SpawnFails? then Some(ModelFailed) else None
    {
      if outcome.Refused? { return None; }
      wanted := true;
      managed := true;
      startedAt := Some(now);
      lastLogSize := 0;
      lastProgressAt := startedAt;
      if reset {
        restartCount := 0;
      }
      nextRestartAt := None;
      state := Starting;
      alert := Emit(state, s);
      if outcome.SpawnFails? {
        managed := false;
        state := Failed;
        alert := Emit(state, s);
        return;
      }
      hasProc := true;
    }

    /** An instance that another node owns is left to that node. */
    method ProcessRestart(s: Settings, foreign: bool, outcome: Outcome, now: real) returns (alert: Option<Alert>)
      modifies this
      ensures Value() == if foreign then old(Value()) else RestartProcessed(old(Value()), s, outcome, now)
      ensures alert == if !foreign && Due(old(Value()), s, now) && outcome.SpawnFails? then Some(ModelFailed) else None
      ensures var tried := && s.autoRestart && !foreign && old(state).Failed? && old(wanted) && old(managed)
                           && old(nextRestartAt).Some? && old(nextRestartAt).value <= now
                           && old(restartCount) < s.maxRestarts;
              && restartCount == (if tried then old(restartCount) + 1 else old(restartCount))
              && (!tried ==> Value() == old(Value()))
              && (tried ==> nextRestartAt.None?)
              && (tried && outcome.Spawned? ==> state == Starting && hasProc && managed && wanted)
    {
      alert := None;
      if && s.autoRestart && !foreign && state.Failed? && wanted && managed
         && nextRestartAt.Some? && now >= nextRestartAt.value && restartCount < s.maxRestarts
      {
        nextRestartAt := None;
        restartCount := restartCount + 1;
        alert := Start(outcome, false, s, now);
      }
    }
  }

  const Fresh: Inst := Inst(false, Stopped, false, false, None, 0, None, false, 0, None)

  function RestartProcessed(x: Inst, s: Settings, outcome: Outcome, now: real): Inst {
    if Due(x, s, now) then Started(x.(nextRestartAt := None, restarts := x.restarts + 1), outcome, false, now) else x
  }

  // ---- Runs -------------------------------------------------------------------------------------

  /** The instance, the clock, and the episode so far: when it began, when restarts were tried,
      the alerts of its failures, and whether an attempt to start was refused or failed; and
      how often it crashed or timed out since it was last up. */
  datatype World = World(x: Inst, now: real, since: real, tries: seq<real>, alerts: seq<Alert>,
                         mishap: bool, crashes: nat)

  datatype Event =
    | Pass(now: real, probe: Probe)
    | Restart(now: real, foreign: bool, outcome: Outcome)
    | UserStart(now: real, outcome: Outcome)
    | UserStop(now: real)

  predicate Enabled(w: World, e: Event) {
    w.now <= e.now && (e.UserStart? ==> !w.x.state.Starting? && !w.x.state.Ready?)
  }

  function Next(w: World, s: Settings, e: Event): World
    requires Enabled(w, e)
  {
    match e
    case Pass(now, probe) =>
      var (y, to) := Reconciled(w.x, s, probe, now);
      if to.None? then w.(x := y, now := now)
      else if to.value.Ready? then World(Emitted(y, Ready), now, now, [], [], false, 0)
      else
        var alert := Classified(y, to.value, s);
        w.(x := Emitted(y, to.value), now := now, alerts := if alert.Some? then w.alerts + [alert.value] else w.alerts,
            crashes := if to.value.Failed? then w.crashes + 1 else w.crashes)
    case Restart(now, foreign, outcome) =>
      if foreign || !Due(w.x, s, now) then w.(now := now)
      else World(RestartProcessed(w.x, s, outcome, now), now, w.since, w.tries + [now],
                 if outcome.SpawnFails? then w.alerts + [ModelFailed] else w.alerts,
                 w.mishap || !outcome.Spawned?, w.crashes)
    case UserStart(now, outcome) =>
      if outcome.Refused? then w.(now := now)
      else World(Started(w.x, outcome, true, now), now, now, [],
                 if outcome.SpawnFails? then [ModelFailed] else [], outcome.SpawnFails?, w.crashes)
    case UserStop(now) =>
      var state := if w.x.state.Ready? && !w.x.managed then Ready else Stopped;
      w.(x := w.x.(wanted := false, hasProc := false, state := state), now := now)
  }

  predicate Admissible(w: World, s: Settings, es: seq<Event>)
    decreases es
  {
    es == [] || (Enabled(w, es[0]) && Admissible(Next(w, s, es[0]), s, es[1..]))
  }

  function Final(w: World, s: Settings, es: seq<Event>): World
    requires Admissible(w, s, es)
    decreases es
  {
    if es == [] then w else Final(Next(w, s, es[0]), s, es[1..])
  }

  function Init(now: real): World { World(Fresh, now, now, [], [], false, 0) }

  // ---- What every run keeps -----------------------------------------------------------------------

  function Largest(a: int, b: int): int { if a >= b then a else b }

  /** The earliest time of the (i+1)-th restart. */
  function Earliest(since: real, s: Settings, n: nat): real { since + s.base * (Pow2(n) - 1) as real }

  /** The restarts tried are those counted, within the budget, and none came too early. */
  ghost predicate Budgeted(w: World, s: Settings) {
    && |w.tries| == w.x.restarts <= Largest(s.maxRestarts, 0)
    && w.now >= Earliest(w.since, s, w.x.restarts)
    && (w.x.nextRestartAt.Some? ==> w.x.nextRestartAt.value >= Earliest(w.since, s, w.x.restarts + 1))
    && (forall i :: 0 <= i < |w.tries| ==> w.tries[i] >= Earliest(w.since, s, i + 1))
  }

  /** The alerts of the episode are as many as its failures; each but the one past the budget
      says failed, and that one says gave up unless an attempt to start went wrong. */
  ghost predicate Alerted(w: World, s: Settings) {
    && (w.x.state.Starting? || w.x.state.Ready? ==>
          && w.x.wanted && w.x.managed && w.x.hasProc && w.x.nextRestartAt.None?
          && !w.mishap && |w.alerts| == w.x.restarts)
    && (w.x.state.Ready? ==> w.x.restarts == 0)
    && (w.x.state.Failed? ==> w.x.wanted && !w.x.hasProc)
    && (w.x.state.Failed? && !w.mishap ==>
          w.x.managed && |w.alerts| == w.x.restarts + 1 && (w.x.nextRestartAt.Some? <==> Restartable(w.x, s)))
    && (w.mishap && w.x.state.Failed? ==> w.x.nextRestartAt.None?)
    && !w.x.state.Stopping?
    && (w.x.state.Stopped? ==> !w.x.wanted && !w.x.hasProc)
    && |w.alerts| <= Largest(s.maxRestarts, 0) + 1
    && (forall i :: 0 <= i < |w.alerts| ==>
          w.alerts[i] == if i >= s.maxRestarts && s.autoRestart && !w.mishap then ModelGaveUp else ModelFailed)
  }

  lemma EarliestNext(since: real, s: Settings, n: nat)
    ensures Earliest(since, s, n + 1) == Earliest(since, s, n) + Backoff(s, n)
    ensures Earliest(since, s, 0) == since
  {
    assert Pow2(0) == 1;
    var a, b := (Pow2(n) - 1) as real, Pow2(n) as real;
    assert (Pow2(n + 1) - 1) as real == a + b;
    assert s.base * (a + b) == s.base * a + s.base * b;
  }

  /** A pass that does not bring the instance up leaves the count, and arms after the backoff or not at all. */
  lemma ReconciledArms(x: Inst, s: Settings, probe: Probe, now: real)
    ensures var (y, to) := Reconciled(x, s, probe, now);
            if to == Some(Ready) then y.restarts == 0 && y.nextRestartAt.None?
            else y.restarts == x.restarts
                 && (y.nextRestartAt == x.nextRestartAt || y.nextRestartAt == Some(now + Backoff(s, x.restarts)))
  {
  }

  lemma PassKeepsBudget(w: World, s: Settings, e: Event)
    requires Budgeted(w, s) && Enabled(w, e) && e.Pass?
    ensures Budgeted(Next(w, s, e), s)
  {
    ReconciledArms(w.x, s, e.probe, e.now);
    var (y, to) := Reconciled(w.x, s, e.probe, e.now);
    var v := Next(w, s, e);
    assert v.x.restarts == y.restarts && v.x.nextRestartAt == y.nextRestartAt && v.now == e.now;
    if to == Some(Ready) {
      EarliestNext(e.now, s, 0);
    } else {
      EarliestNext(w.since, s, w.x.restarts);
      assert v.since == w.since && v.tries == w.tries;
    }
  }

  lemma RestartKeepsBudget(w: World, s: Settings, e: Event)
    requires Budgeted(w, s) && Enabled(w, e) && e.Restart?
    ensures Budgeted(Next(w, s, e), s)
  {
    var v := Next(w, s, e);
    if !e.foreign && Due(w.x, s, e.now) {
      assert v.since == w.since && v.x.restarts == w.x.restarts + 1 && v.x.nextRestartAt.None?;
      assert e.now >= Earliest(w.since, s, w.x.restarts + 1);
    }
  }

  lemma StepKeepsBudget(w: World, s: Settings, e: Event)
    requires Budgeted(w, s) && Enabled(w, e)
    ensures Budgeted(Next(w, s, e), s)
  {
    match e
    case Pass(_, _) => PassKeepsBudget(w, s, e);
    case Restart(_, _, _) => RestartKeepsBudget(w, s, e);
    case UserStart(now, _) => EarliestNext(now, s, 0);
    case UserStop(_) =>
  }

  lemma PassKeepsAlerts(w: World, s: Settings, e: Event)
    requires Budgeted(w, s) && Alerted(w, s) && Enabled(w, e) && e.Pass?
    ensures Alerted(Next(w, s, e), s)
  {
  }

  lemma StartKeepsAlerts(w: World, s: Settings, e: Event)
    requires Budgeted(w, s) && Alerted(w, s) && Enabled(w, e) && !e.Pass?
    ensures Alerted(Next(w, s, e), s)
  {
  }

  lemma {:induction false} RunKeeps(w: World, s: Settings, es: seq<Event>)
    requires Budgeted(w, s) && Alerted(w, s) && Admissible(w, s, es)
    ensures Budgeted(Final(w, s, es), s) && Alerted(Final(w, s, es), s)
    decreases es
  {
    if es != [] {
      StepKeepsBudget(w, s, es[0]);
      if es[0].Pass? { PassKeepsAlerts(w, s, es[0]); } else { StartKeepsAlerts(w, s, es[0]); }
      RunKeeps(Next(w, s, es[0]), s, es[1..]);
    }
  }

  /** In every run, and for the episode it is in: at most max_restarts automatic restarts; n of
      them took at least base * (2^n - 1); the alerts are max_restarts times model_failed and
      then one model_gave_up, as far as the episode got. */
  lemma EpisodesAreBounded(now: real, s: Settings, es: seq<Event>)
    requires Admissible(Init(now), s, es)
    ensures var w := Final(Init(now), s, es);
            && |w.tries| <= Largest(s.maxRestarts, 0)
            && (forall i :: 0 <= i < |w.tries| ==> w.tries[i] - w.since >= s.base * (Pow2(i + 1) - 1) as real)
            && |w.alerts| <= Largest(s.maxRestarts, 0) + 1
            && (!w.mishap && s.autoRestart ==> forall i :: 0 <= i < |w.alerts| ==>
                  w.alerts[i] == if i < s.maxRestarts then ModelFailed else ModelGaveUp)
  {
    RunKeeps(Init(now), s, es);
  }

  // ---- How an episode ends --------------------------------------------------------------------------

  /** Failed, and nothing armed. */
  predicate AtRest(w: World) { w.x.state.Failed? && w.x.nextRestartAt.None? }

  /** A failed instance with nothing armed stays as it is until somebody starts or stops it. */
  lemma {:induction false} RestsUntilAsked(w: World, s: Settings, es: seq<Event>)
    requires AtRest(w) && !w.x.hasProc && Admissible(w, s, es)
    requires forall i :: 0 <= i < |es| ==> es[i].Pass? || es[i].Restart?
    ensures Final(w, s, es).x == w.x && Final(w, s, es).alerts == w.alerts
    decreases es
  {
    if es != [] {
      RestsUntilAsked(Next(w, s, es[0]), s, es[1..]);
    }
  }

  /** With automatic restarts on, an instance that has come to rest has been given up with an
      alert if and only if no attempt to start it was refused or failed; then it has used up
      its budget. Otherwise it rests with nobody told that it was given up. */
  lemma GivenUpExactly(now: real, s: Settings, es: seq<Event>)
    requires s.autoRestart && Admissible(Init(now), s, es)
    requires AtRest(Final(Init(now), s, es))
    ensures var w := Final(Init(now), s, es);
            && (ModelGaveUp in w.alerts <==> !w.mishap)
            && (!w.mishap ==> w.x.restarts == Largest(s.maxRestarts, 0) && |w.alerts| == Largest(s.maxRestarts, 0) + 1)
  {
    RunKeeps(Init(now), s, es);
    var w := Final(Init(now), s, es);
    if !w.mishap {
      assert w.alerts[|w.alerts| - 1] == ModelGaveUp;
    }
  }

  /** For every policy with a budget: three events after which an instance rests with no alert
      but that it failed, because the one restart that was due was refused. */
  lemma ARefusedRestartGivesUpSilently(now: real, s: Settings)
    requires s.autoRestart && s.maxRestarts >= 1 && s.base >= 0.0
    ensures var due := now + Backoff(s, 0);
            var es := [UserStart(now, Spawned), Pass(now, Probe(true, false, 0)), Restart(due, false, Refused)];
            && Admissible(Init(now), s, es)
            && var w := Final(Init(now), s, es);
               AtRest(w) && w.mishap && w.alerts == [ModelFailed]
  {
    var due := now + Backoff(s, 0);
    assert Pow2(0) == 1 && due >= now;
    var es := [UserStart(now, Spawned), Pass(now, Probe(true, false, 0)), Restart(due, false, Refused)];
    var w1 := Next(Init(now), s, es[0]);
    var w2 := Next(w1, s, es[1]);
    assert w2.x.nextRestartAt == Some(due) && Due(w2.x, s, due);
    var w3 := Next(w2, s, es[2]);
    assert es[2..][1..] == [] && es[1..][1..] == es[2..];
    assert Admissible(w3, s, []) && Final(w3, s, []) == w3;
    assert Admissible(w2, s, es[2..]) && Final(w2, s, es[2..]) == w3;
    assert Admissible(w1, s, es[1..]) && Final(w1, s, es[1..]) == w3;
  }

  // ---- Every restart of the budget happens -----------------------------------------------------------

  /** A restart is tried if and only if the instance is failed, wanted, managed and its own
      node's, armed at or before now, and below the budget, with automatic restarts on. */
  lemma RestartIsTriedExactly(w: World, s: Settings, now: real, foreign: bool, outcome: Outcome)
    requires w.now <= now
    ensures var v, x := Next(w, s, Restart(now, foreign, outcome)), w.x;
            var tried := && s.autoRestart && !foreign && x.state.Failed? && x.wanted && x.managed
                         && x.nextRestartAt.Some? && x.nextRestartAt.value <= now && x.restarts < s.maxRestarts;
            && v.tries == (if tried then w.tries + [now] else w.tries)
            && v.x.restarts == (if tried then x.restarts + 1 else x.restarts)
            && (tried && outcome.Spawned? ==>
                  v.x.state.Starting? && v.x.hasProc && v.x.managed && v.x.nextRestartAt.None?)
            && (!tried ==> v.x == x)
  {
  }

  /** A started instance that has crashed and been restarted k times. */
  ghost predicate Crashing(w: World, k: nat) {
    && w.x.state.Starting? && w.x.wanted && w.x.managed && w.x.hasProc && w.x.nextRestartAt.None?
    && w.x.restarts == |w.tries| == k && !w.mishap && w.alerts == seq(k, _ => ModelFailed)
  }

  lemma {:induction false} CrashesOn(w: World, s: Settings, k: nat, n: nat) returns (es: seq<Event>)
    requires s.autoRestart && s.base >= 0.0 && Crashing(w, k) && k <= n <= s.maxRestarts
    ensures Admissible(w, s, es)
    ensures var v := Final(w, s, es);
            && |v.tries| == v.x.restarts == n && v.x.state.Failed?
            && v.alerts == seq(n, _ => ModelFailed) + [if n == s.maxRestarts then ModelGaveUp else ModelFailed]
            && (n == s.maxRestarts <==> v.x.nextRestartAt.None?)
    decreases n - k
  {
    var crash := Pass(w.now, Probe(true, false, 0));
    var w1 := Next(w, s, crash);
    if k == n {
      es := [crash];
      assert es[1..] == [] && Admissible(w1, s, []) && Final(w1, s, []) == w1;
    } else {
      var due := w.now + Backoff(s, k);
      assert w1.x.nextRestartAt == Some(due) && w1.alerts == seq(k + 1, _ => ModelFailed);
      BackoffIsForward(w.now, s, k);
      var again := Restart(due, false, Spawned);
      var w2 := Next(w1, s, again);
      var rest := CrashesOn(w2, s, k + 1, n);
      es := [crash, again] + rest;
      assert es[1..][1..] == rest && es[1..][0] == again;
      assert Admissible(w1, s, es[1..]) && Final(w1, s, es[1..]) == Final(w2, s, rest);
    }
  }

  lemma BackoffIsForward(now: real, s: Settings, k: nat)
    requires s.base >= 0.0
    ensures now + Backoff(s, k) >= now
  {
  }

  /** For every policy and every n up to its budget, there is a run of crashes with exactly n
      automatic restarts and n times model_failed; the crash after the last one is announced as
      given up if n is the budget, and armed again if not. */
  lemma EveryRestartHappens(now: real, s: Settings, n: nat) returns (es: seq<Event>)
    requires s.autoRestart && s.base >= 0.0 && n <= s.maxRestarts
    ensures Admissible(Init(now), s, es)
    ensures var v := Final(Init(now), s, es);
            && |v.tries| == v.x.restarts == n && v.x.state.Failed?
            && v.alerts == seq(n, _ => ModelFailed) + [if n == s.maxRestarts then ModelGaveUp else ModelFailed]
            && (n == s.maxRestarts <==> v.x.nextRestartAt.None?)
  {
    var start := UserStart(now, Spawned);
    var w := Next(Init(now), s, start);
    assert w.alerts == seq(0, _ => ModelFailed);
    var rest := CrashesOn(w, s, 0, n);
    es := [start] + rest;
    assert es[1..] == rest;
  }

  // ---- Recovery ---------------------------------------------------------------------------------------

  lemma {:induction false} MarkedIfCrashed(w: World, s: Settings, es: seq<Event>)
    requires Admissible(w, s, es) && (w.x.wasFailed <==> w.crashes > 0)
    ensures var v := Final(w, s, es); v.x.wasFailed <==> v.crashes > 0
    decreases es
  {
    if es != [] {
      MarkedIfCrashed(Next(w, s, es[0]), s, es[1..]);
    }
  }

  /** In every run, an instance that comes up is announced as recovered if and only if it has
      crashed or timed out since it was last up; starts that were refused do not count. */
  lemma RecoveryIsAnnouncedExactly(now: real, s: Settings, es: seq<Event>, probe: Probe, t: real)
    requires Admissible(Init(now), s, es)
    requires Reconciled(Final(Init(now), s, es).x, s, probe, t).1 == Some(Ready)
    ensures var w := Final(Init(now), s, es);
            Classified(Reconciled(w.x, s, probe, t).0, Ready, s) == if w.crashes > 0 then Some(ModelRecovered) else None
  {
    MarkedIfCrashed(Init(now), s, es);
  }

  // ---- The startup timeout ------------------------------------------------------------------------------

  /** A look at a starting instance whose process lives and whose probe stays silent. */
  datatype Look = Look(now: real, logSize: nat)

  /** The instance after the first n looks, as long as none fails it. */
  function Watched(x: Inst, s: Settings, looks: seq<Look>, n: nat): Inst
    requires n <= |looks|
  {
    if n == 0 then x
    else
      var look := looks[n - 1];
      Reconciled(Watched(x, s, looks, n - 1), s, Probe(false, false, look.logSize), look.now).0
  }

  /** The longest log seen in the first n looks. */
  function Longest(looks: seq<Look>, n: nat): nat
    requires n <= |looks|
  {
    if n == 0 then 0
    else if looks[n - 1].logSize > Longest(looks, n - 1) then looks[n - 1].logSize
    else Longest(looks, n - 1)
  }

  /** When the log last grew in the first n looks, or the start. */
  function LastGrowth(start: real, looks: seq<Look>, n: nat): real
    requires n <= |looks|
  {
    if n == 0 then start
    else if looks[n - 1].logSize > Longest(looks, n - 1) then looks[n - 1].now
    else LastGrowth(start, looks, n - 1)
  }

  /** No look so far came more than start_timeout after the last growth. */
  ghost predicate Growing(start: real, s: Settings, looks: seq<Look>, n: nat)
    requires n <= |looks|
  {
    forall i :: 0 < i <= n ==> looks[i - 1].now - LastGrowth(start, looks, i) <= s.startTimeout
  }

  /** A started instance is still starting after n looks if and only if none of them came more
      than start_timeout after its log had last grown; the first that does fails it. */
  lemma {:induction false} TimesOutExactly(x: Inst, s: Settings, start: real, looks: seq<Look>, n: nat)
    requires n <= |looks|
    ensures var y := Watched(Started(x, Spawned, true, start), s, looks, n);
            && (y.state.Starting? <==> Growing(start, s, looks, n))
            && (y.state.Starting? || y.state.Failed?)
            && (y.state.Starting? ==>
                  && y.hasProc && y.managed && y.logSize == Longest(looks, n)
                  && y.progressAt == Some(LastGrowth(start, looks, n)))
  {
    if n > 0 {
      TimesOutExactly(x, s, start, looks, n - 1);
      var before := Watched(Started(x, Spawned, true, start), s, looks, n - 1);
      assert Growing(start, s, looks, n) <==>
             Growing(start, s, looks, n - 1) && looks[n - 1].now - LastGrowth(start, looks, n) <= s.startTimeout;
    }
  }
}
