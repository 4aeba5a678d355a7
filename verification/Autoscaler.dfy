/**
  The autoscaler of one group: a policy with timers, and the loop it closes with the states
  of the group's instances.

  An instance is named by its place in the group. Times and loads are reals.
 */
module Autoscaler {
  import opened Options

  datatype State = Stopped | Starting | Ready | Sleeping | Failed | Stopping

  datatype Config = Config(enabled: bool, minReady: int, minWarm: int, maxReady: Option<int>,
                           threshold: real, window: real, sleepAfter: real, stopAfter: real, cooldown: real)

  datatype Load = Load(perReplica: real, running: real, waiting: real)

  datatype Verb = Wake | Start | Sleep | Stop

  datatype Action = Action(verb: Verb, i: nat)

  datatype Timing = Timing(overSince: Option<real>, idleSince: Option<real>, lastScaleUp: real)

  type Group = seq<State>

  // ---- Counting -----------------------------------------------------------------------------

  function Where(g: Group, s: State): seq<nat> { WhereFrom(g, s, 0) }

  function WhereFrom(g: Group, s: State, i: nat): seq<nat>
    requires i <= |g|
    decreases |g| - i
  {
    if i == |g| then [] else (if g[i] == s then [i] else []) + WhereFrom(g, s, i + 1)
  }

  function Count(g: Group, s: State): nat { CountFrom(g, s, 0) }

  function CountFrom(g: Group, s: State, i: nat): nat
    requires i <= |g|
    decreases |g| - i
  {
    if i == |g| then 0 else (if g[i] == s then 1 else 0) + CountFrom(g, s, i + 1)
  }

  lemma {:induction false} WhereIs(g: Group, s: State, i: nat)
    requires i <= |g|
    ensures var r := WhereFrom(g, s, i);
            && |r| == CountFrom(g, s, i) <= |g| - i
            && (r != [] ==> i <= r[0] <= r[|r| - 1] < |g| && g[r[0]] == s && g[r[|r| - 1]] == s)
    decreases |g| - i
  {
    if i < |g| {
      WhereIs(g, s, i + 1);
    }
  }

  lemma WhereCounts(g: Group)
    ensures |Where(g, Ready)| == Count(g, Ready) && |Where(g, Starting)| == Count(g, Starting)
    ensures |Where(g, Sleeping)| == Count(g, Sleeping) && |Where(g, Stopped)| == Count(g, Stopped)
  {
    WhereIs(g, Ready, 0);
    WhereIs(g, Starting, 0);
    WhereIs(g, Sleeping, 0);
    WhereIs(g, Stopped, 0);
  }

  /** The first and the last of them bound all of them. */
  lemma {:induction false} WhereBounds(g: Group, s: State, i: nat, j: nat)
    requires i <= j < |g| && g[j] == s
    ensures var r := WhereFrom(g, s, i); r != [] && r[0] <= j <= r[|r| - 1]
    decreases j - i
  {
    var rest := WhereFrom(g, s, i + 1);
    assert WhereFrom(g, s, i) == (if g[i] == s then [i] else []) + rest;
    if i < j {
      WhereBounds(g, s, i + 1, j);
    } else if rest != [] {
      WhereIs(g, s, i + 1);
    }
  }

  lemma {:induction false} CountFromAfter(g: Group, i: nat, to: State, s: State, k: nat)
    requires i < |g| && k <= |g|
    ensures CountFrom(g[i := to], s, k)
         == CountFrom(g, s, k) - (if k <= i && g[i] == s then 1 else 0) + (if k <= i && to == s then 1 else 0)
    decreases |g| - k
  {
    if k < |g| {
      CountFromAfter(g, i, to, s, k + 1);
    }
  }

  lemma CountAfter(g: Group, i: nat, to: State, s: State)
    requires i < |g|
    ensures Count(g[i := to], s) == Count(g, s) - (if g[i] == s then 1 else 0) + (if to == s then 1 else 0)
  {
    CountFromAfter(g, i, to, s, 0);
  }

  function Serving(g: Group): nat { Count(g, Ready) + Count(g, Starting) }

  function Resident(g: Group): nat { Count(g, Ready) + Count(g, Sleeping) }

  function MaxReady(cfg: Config, g: Group): int { if cfg.maxReady.Some? then cfg.maxReady.value else |g| }

  // ---- The policy -----------------------------------------------------------------------------

  predicate Pressed(cfg: Config, load: Load) { load.perReplica > cfg.threshold }

  predicate Idle(load: Load) { load.running == 0.0 && load.waiting == 0.0 }

  /** The floor rule applies. */
  predicate BelowFloor(cfg: Config, g: Group) { Serving(g) < cfg.minReady }

  /** Something to bring up: asleep first, then stopped. */
  function BringUp(g: Group): Option<Action> {
    var asleep, stopped := Where(g, Sleeping), Where(g, Stopped);
    if asleep != [] then Some(Action(Wake, asleep[0]))
    else if stopped != [] then Some(Action(Start, stopped[0]))
    else None
  }

  /** Taking the last of no ready instances raises, which only a negative min_ready allows. */
  predicate Raises(cfg: Config, g: Group, idleFor: real) {
    idleFor >= cfg.sleepAfter && 0 == Count(g, Ready) > cfg.minReady
  }

  predicate RaisesOn(cfg: Config, load: Load, g: Group, t: Timing, now: real) {
    && cfg.enabled && Count(g, Ready) + Count(g, Starting) >= cfg.minReady
    && load.perReplica <= cfg.threshold && load.running == 0.0 && load.waiting == 0.0
    && Count(g, Ready) == 0 > cfg.minReady
    && now - (if t.idleSince.Some? then t.idleSince.value else now) >= cfg.sleepAfter
  }

  /** The policy can raise for a group if and only if min_ready is negative and nothing is ready. */
  lemma RaisesExactly(cfg: Config, g: Group)
    requires cfg.enabled
    ensures (exists load, t, now :: RaisesOn(cfg, load, g, t, now)) <==> cfg.minReady < 0 && Count(g, Ready) == 0
  {
    if cfg.minReady < 0 && Count(g, Ready) == 0 {
      var delay := if cfg.sleepAfter >= 0.0 then cfg.sleepAfter else 0.0;
      assert RaisesOn(cfg, Load(cfg.threshold, 0.0, 0.0), g, Timing(None, Some(0.0), 0.0), delay);
    }
  }

  /** The last ready instance goes down, or the last sleeping one. */
  function BringDown(cfg: Config, g: Group, sleepCapable: bool, idleFor: real): Option<Action> {
    var ready, asleep := Where(g, Ready), Where(g, Sleeping);
    if idleFor >= cfg.sleepAfter && |ready| > cfg.minReady then
      if ready == [] then None
      else Some(Action(if sleepCapable then Sleep else Stop, ready[|ready| - 1]))
    else if idleFor >= cfg.stopAfter && Resident(g) > cfg.minWarm && asleep != [] then
      Some(Action(Stop, asleep[|asleep| - 1]))
    else None
  }

  /** A pressure scale-up is due at `now`. */
  predicate ScalesUp(cfg: Config, load: Load, g: Group, t: Timing, now: real) {
    && cfg.enabled && !BelowFloor(cfg, g) && Pressed(cfg, load)
    && now - (if t.overSince.Some? then t.overSince.value else now) >= cfg.window
    && now - t.lastScaleUp >= cfg.cooldown
    && Serving(g) < MaxReady(cfg, g)
  }

  function Decided(cfg: Config, load: Load, g: Group, sleepCapable: bool, t: Timing, now: real)
    : (Timing, Option<Action>)
  {
    if !cfg.enabled then (t, None)
    else if BelowFloor(cfg, g) then (t, BringUp(g))
    else if ScalesUp(cfg, load, g, t, now) then (Timing(None, None, now), BringUp(g))
    else if Pressed(cfg, load) then
      var over := if t.overSince.Some? then t.overSince.value else now;
      (t.(overSince := Some(over), idleSince := None), None)
    else if !Idle(load) then (t.(overSince := None, idleSince := None), None)
    else
      var since := if t.idleSince.Some? then t.idleSince.value else now;
      (t.(overSince := None, idleSince := Some(since)), BringDown(cfg, g, sleepCapable, now - since))
  }

  /** What is decided in terms of the load's numbers, the timers and the counts of states: y is
      what becomes of the timers, a the action. */
  ghost predicate IsDecision(cfg: Config, load: Load, g: Group, sleepCapable: bool, t: Timing, now: real,
                             y: Timing, a: Option<Action>) {
    var serving := Count(g, Ready) + Count(g, Starting);
    var over := if t.overSince.Some? then t.overSince.value else now;
    var since := if t.idleSince.Some? then t.idleSince.value else now;
    var most := if cfg.maxReady.Some? then cfg.maxReady.value else |g|;
    var due := now - over >= cfg.window && now - t.lastScaleUp >= cfg.cooldown && serving < most;
    var idle := load.running == 0.0 && load.waiting == 0.0;
    var sleeps := now - since >= cfg.sleepAfter && Count(g, Ready) > cfg.minReady;
    var stops := now - since >= cfg.stopAfter && Count(g, Ready) + Count(g, Sleeping) > cfg.minWarm;
    && (!cfg.enabled ==> y == t && a == None)
    && (cfg.enabled && serving < cfg.minReady ==> y == t && BringsUp(g, a))
    && (cfg.enabled && serving >= cfg.minReady && load.perReplica > cfg.threshold && due ==>
          y == Timing(None, None, now) && BringsUp(g, a))
    && (cfg.enabled && serving >= cfg.minReady && load.perReplica > cfg.threshold && !due ==>
          y == Timing(Some(over), None, t.lastScaleUp) && a == None)
    && (cfg.enabled && serving >= cfg.minReady && load.perReplica <= cfg.threshold && !idle ==>
          y == Timing(None, None, t.lastScaleUp) && a == None)
    && (cfg.enabled && serving >= cfg.minReady && load.perReplica <= cfg.threshold && idle ==>
          && y == Timing(None, Some(since), t.lastScaleUp)
          && (sleeps && Count(g, Ready) > 0 ==> TakesDown(g, a, Ready, if sleepCapable then Sleep else Stop))
          && (sleeps && Count(g, Ready) == 0 ==> a == None)
          && (!sleeps && stops && Count(g, Sleeping) > 0 ==> TakesDown(g, a, Sleeping, Stop))
          && (!sleeps && !(stops && Count(g, Sleeping) > 0) ==> a == None))
  }

  /** The first sleeper is woken; without one, the first stopped instance is started; else nothing. */
  ghost predicate BringsUp(g: Group, a: Option<Action>) {
    && (Count(g, Sleeping) > 0 ==> a.Some? && a.value.verb == Wake && IsFirst(g, a.value.i, Sleeping))
    && (Count(g, Sleeping) == 0 < Count(g, Stopped) ==>
          a.Some? && a.value.verb == Start && IsFirst(g, a.value.i, Stopped))
    && (Count(g, Sleeping) == 0 == Count(g, Stopped) ==> a == None)
  }

  ghost predicate TakesDown(g: Group, a: Option<Action>, s: State, verb: Verb) {
    && a.Some? && a.value.verb == verb && a.value.i < |g| && g[a.value.i] == s
    && forall j :: a.value.i < j < |g| ==> g[j] != s
  }

  ghost predicate IsFirst(g: Group, i: nat, s: State) { i < |g| && g[i] == s && forall j :: 0 <= j < i ==> g[j] != s }

  lemma WhereEnds(g: Group, s: State)
    ensures var r := Where(g, s);
            && |r| == Count(g, s)
            && (r != [] ==> IsFirst(g, r[0], s) && r[|r| - 1] < |g| && g[r[|r| - 1]] == s)
            && (r != [] ==> forall j :: r[|r| - 1] < j < |g| ==> g[j] != s)
  {
    var r := Where(g, s);
    WhereIs(g, s, 0);
    forall j | 0 <= j < |g| && g[j] == s ensures r != [] && r[0] <= j <= r[|r| - 1] {
      WhereBounds(g, s, 0, j);
    }
  }

  lemma BringUpIsFirst(g: Group)
    ensures BringsUp(g, BringUp(g))
  {
    WhereEnds(g, Sleeping);
    WhereEnds(g, Stopped);
  }

  lemma BringDownIsLast(cfg: Config, g: Group, sleepCapable: bool, idleFor: real)
    ensures var a := BringDown(cfg, g, sleepCapable, idleFor);
            var sleeps := idleFor >= cfg.sleepAfter && Count(g, Ready) > cfg.minReady;
            var stops := idleFor >= cfg.stopAfter && Count(g, Ready) + Count(g, Sleeping) > cfg.minWarm;
            && (sleeps && Count(g, Ready) > 0 ==> TakesDown(g, a, Ready, if sleepCapable then Sleep else Stop))
            && (sleeps && Count(g, Ready) == 0 ==> a == None)
            && (!sleeps && stops && Count(g, Sleeping) > 0 ==> TakesDown(g, a, Sleeping, Stop))
            && (!sleeps && !(stops && Count(g, Sleeping) > 0) ==> a == None)
  {
    WhereEnds(g, Ready);
    WhereEnds(g, Sleeping);
  }

  /** The policy, for every load, group and timers. */
  lemma DecisionIs(cfg: Config, load: Load, g: Group, sleepCapable: bool, t: Timing, now: real)
    ensures var (y, a) := Decided(cfg, load, g, sleepCapable, t, now);
            IsDecision(cfg, load, g, sleepCapable, t, now, y, a)
  {
    BringUpIsFirst(g);
    BringDownIsLast(cfg, g, sleepCapable, now - if t.idleSince.Some? then t.idleSince.value else now);
  }

  /** An instance is taken down only if nothing runs, nothing waits and there is no pressure; any
      other look at the load clears the idle clock. */
  lemma TakesDownOnlyIdle(cfg: Config, load: Load, g: Group, sleepCapable: bool, t: Timing, now: real)
    requires cfg.enabled && Count(g, Ready) + Count(g, Starting) >= cfg.minReady
    ensures var (y, a) := Decided(cfg, load, g, sleepCapable, t, now);
            && (a.Some? && (a.value.verb.Sleep? || a.value.verb.Stop?) ==>
                  load.running == 0.0 && load.waiting == 0.0 && load.perReplica <= cfg.threshold)
            && (y.idleSince.Some? <==> load.running == 0.0 && load.waiting == 0.0 && load.perReplica <= cfg.threshold)
  {
    DecisionIs(cfg, load, g, sleepCapable, t, now);
  }

  /** At or above the floor, an instance is brought up if and only if the pressure is above the
      threshold and has been for the window, the cooldown is over, fewer than max_ready serve, and
      one sleeps or is stopped. */
  lemma BringsUpExactly(cfg: Config, load: Load, g: Group, sleepCapable: bool, t: Timing, now: real)
    requires cfg.enabled && Count(g, Ready) + Count(g, Starting) >= cfg.minReady
    ensures var a := Decided(cfg, load, g, sleepCapable, t, now).1;
            a.Some? && (a.value.verb.Wake? || a.value.verb.Start?) <==>
              && load.perReplica > cfg.threshold
              && now - (if t.overSince.Some? then t.overSince.value else now) >= cfg.window
              && now - t.lastScaleUp >= cfg.cooldown
              && Count(g, Ready) + Count(g, Starting) < (if cfg.maxReady.Some? then cfg.maxReady.value else |g|)
              && Count(g, Sleeping) + Count(g, Stopped) > 0
  {
    DecisionIs(cfg, load, g, sleepCapable, t, now);
  }

  class GroupTiming {
    var overSince: Option<real>
    var idleSince: Option<real>
    var lastScaleUp: real

    ghost function Value(): Timing reads this { Timing(overSince, idleSince, lastScaleUp) }

    constructor ()
      ensures Value() == Timing(None, None, 0.0)
    {
      overSince, idleSince, lastScaleUp := None, None, 0.0;
    }

    /** At most one action for the group this tick. */
    method Decide(cfg: Config, load: Load, g: Group, sleepCapable: bool, now: real)
      returns (actions: seq<Action>, raised: bool)
      modifies this
      ensures (Value(), if actions == [] then None else Some(actions[0]))
           == Decided(cfg, load, g, sleepCapable, old(Value()), now)
      ensures var a := if actions == [] then None else Some(actions[0]);
              IsDecision(cfg, load, g, sleepCapable, old(Value()), now, Value(), a)
      ensures |actions| <= 1 && (raised ==> actions == [])
      ensures raised <==> RaisesOn(cfg, load, g, old(Value()), now)
    {
      DecisionIs(cfg, load, g, sleepCapable, Value(), now);
      if !cfg.enabled { return [], false; }
      var declared := |g|;
      var maxReady := if cfg.maxReady.Some? then cfg.maxReady.value else declared;
      WhereCounts(g);
      var ready, asleep, stopped := Where(g, Ready), Where(g, Sleeping), Where(g, Stopped);
      var effectiveReady := |ready| + |Where(g, Starting)|;

      if effectiveReady < cfg.minReady {
        if asleep != [] { return [Action(Wake, asleep[0])], false; }
        if stopped != [] { return [Action(Start, stopped[0])], false; }
        return [], false;
      }

      if load.perReplica > cfg.threshold {
        idleSince := None;
        if overSince.None? { overSince := Some(now); }
        var sustained := now - overSince.value >= cfg.window;
        var cooled := now - lastScaleUp >= cfg.cooldown;
        if sustained && cooled && effectiveReady < maxReady {
          lastScaleUp := now;
          overSince := None;
          if asleep != [] { return [Action(Wake, asleep[0])], false; }
          if stopped != [] { return [Action(Start, stopped[0])], false; }
        }
        return [], false;
      }
      overSince := None;

      var idle := load.running == 0.0 && load.waiting == 0.0;
      if !idle {
        idleSince := None;
        return [], false;
      }
      if idleSince.None? { idleSince := Some(now); }
      var idleFor := now - idleSince.value;

      actions, raised := TakeDown(cfg, g, ready, asleep, sleepCapable, idleFor);
    }
  }

  /** The last part of the policy: an idle group gives up what it does not need. */
  method TakeDown(cfg: Config, g: Group, ready: seq<nat>, asleep: seq<nat>, sleepCapable: bool, idleFor: real)
    returns (actions: seq<Action>, raised: bool)
    requires ready == Where(g, Ready) && asleep == Where(g, Sleeping)
    ensures (if actions == [] then None else Some(actions[0])) == BringDown(cfg, g, sleepCapable, idleFor)
    ensures |actions| <= 1 && (raised ==> actions == []) && (raised <==> Raises(cfg, g, idleFor))
  {
    WhereCounts(g);
    if idleFor >= cfg.sleepAfter && |ready| > cfg.minReady {
      if ready == [] { return [], true; }
      var victim := ready[|ready| - 1];
      return [Action(if sleepCapable then Sleep else Stop, victim)], false;
    }
    var resident := |ready| + |asleep|;
    if idleFor >= cfg.stopAfter && resident > cfg.minWarm && asleep != [] {
      return [Action(Stop, asleep[|asleep| - 1])], false;
    }
    return [], false;
  }

  // ---- The loop it closes -----------------------------------------------------------------------

  function Target(v: Verb): State {
    match v
    case Wake => Ready
    case Start => Starting
    case Sleep => Sleeping
    case Stop => Stopped
  }

  predicate GoesDown(a: Action) { a.verb.Sleep? || a.verb.Stop? }

  /** How long the group has to be idle before this action takes its instance down. */
  function Delay(cfg: Config, g: Group, a: Action): real {
    if a.i < |g| && g[a.i] == Ready then cfg.sleepAfter else cfg.stopAfter
  }

  /** The manager's rules: what an action may be applied to. */
  predicate Applicable(a: Action, g: Group) {
    a.i < |g| && match a.verb
                 case Wake => g[a.i] == Sleeping
                 case Start => g[a.i] == Stopped
                 case Sleep => g[a.i] == Ready
                 case Stop => g[a.i] == Ready || g[a.i] == Sleeping
  }

  function Apply(a: Action, g: Group): Group
    requires a.i < |g|
  {
    g[a.i := Target(a.verb)]
  }

  /** The loop: the group, its timers, the clock, and what happened: when pressure scale-ups
      were decided and when a load check found no pressure; when an instance was taken down,
      with the delay that applied to it, and when a load check did not find the group idle. */
  datatype Loop = Loop(g: Group, timing: Timing, now: real,
                       ups: seq<real>, calms: seq<real>, downs: seq<(real, real)>, busies: seq<real>)

  function Opened(g: Group, now: real): Loop { Loop(g, Timing(None, None, 0.0), now, [], [], [], []) }

  /** A tick, whose action succeeds or not; or an instance changes by itself: it comes up,
      finishes stopping, or dies. */
  datatype Event = Tick(now: real, load: Load, ok: bool) | Changes(i: nat, to: State)

  predicate Enabled(w: Loop, e: Event) {
    match e
    case Tick(now, _, _) => w.now <= now
    case Changes(i, to) =>
      && i < |w.g|
      && match to
         case Ready => w.g[i] == Starting
         case Stopped => w.g[i] == Stopping
         case Failed => w.g[i] in {Starting, Ready, Sleeping, Stopping}
         case _ => false
  }

  /** A tick looks at the load. */
  predicate Checks(cfg: Config, w: Loop) { cfg.enabled && Count(w.g, Ready) + Count(w.g, Starting) >= cfg.minReady }

  function Acts(cfg: Config, cap: bool, w: Loop, e: Event): Option<Action> {
    if e.Tick? then Decided(cfg, e.load, w.g, cap, w.timing, e.now).1 else None
  }

  lemma BringUpIs(g: Group)
    ensures BringUp(g).None? <==> Count(g, Sleeping) == 0 && Count(g, Stopped) == 0
    ensures BringUp(g).Some? ==> Applicable(BringUp(g).value, g) && !GoesDown(BringUp(g).value)
  {
    WhereIs(g, Sleeping, 0);
    WhereIs(g, Stopped, 0);
  }

  /** What calls for each way of taking an instance down. */
  ghost predicate CallsFor(cfg: Config, g: Group, sleepCapable: bool, a: Action) {
    && Applicable(a, g) && GoesDown(a)
    && (a.verb.Sleep? ==> sleepCapable)
    && (g[a.i].Ready? ==> Count(g, Ready) > cfg.minReady && (a.verb.Stop? ==> !sleepCapable))
    && (g[a.i].Sleeping? ==> Resident(g) > cfg.minWarm)
  }

  lemma BringDownIs(cfg: Config, g: Group, sleepCapable: bool, idleFor: real)
    ensures var a := BringDown(cfg, g, sleepCapable, idleFor);
            a.Some? ==> CallsFor(cfg, g, sleepCapable, a.value) && idleFor >= Delay(cfg, g, a.value)
    ensures idleFor >= cfg.sleepAfter && idleFor >= cfg.stopAfter && BringDown(cfg, g, sleepCapable, idleFor).None? ==>
              Count(g, Ready) == 0 > cfg.minReady ||
              (Count(g, Ready) <= cfg.minReady && (Count(g, Sleeping) == 0 || Resident(g) <= cfg.minWarm))
  {
    WhereIs(g, Ready, 0);
    WhereIs(g, Sleeping, 0);
  }

  /** An action brings up, below the floor or under pressure below the cap, or takes down. */
  lemma ActionIs(cfg: Config, load: Load, g: Group, cap: bool, t: Timing, now: real)
    requires Decided(cfg, load, g, cap, t, now).1.Some?
    ensures var a := Decided(cfg, load, g, cap, t, now).1.value;
            && Applicable(a, g)
            && (if GoesDown(a) then !BelowFloor(cfg, g) && CallsFor(cfg, g, cap, a)
                else BelowFloor(cfg, g) || Serving(g) < MaxReady(cfg, g))
  {
    BringUpIs(g);
    if !BelowFloor(cfg, g) && !Pressed(cfg, load) {
      BringDownIs(cfg, g, cap, now - if t.idleSince.Some? then t.idleSince.value else now);
    }
  }

  function Next(cfg: Config, cap: bool, w: Loop, e: Event): Loop
    requires Enabled(w, e)
  {
    match e
    case Tick(now, load, ok) =>
      var (t, a) := Decided(cfg, load, w.g, cap, w.timing, now);
      Loop(if a.Some? && ok && a.value.i < |w.g| then Apply(a.value, w.g) else w.g, t, now,
           if Checks(cfg, w) && a.Some? && !GoesDown(a.value) then w.ups + [now] else w.ups,
           if Checks(cfg, w) && load.perReplica <= cfg.threshold then w.calms + [now] else w.calms,
           if a.Some? && GoesDown(a.value) then w.downs + [(now, Delay(cfg, w.g, a.value))] else w.downs,
           if Checks(cfg, w) && (load.perReplica > cfg.threshold || load.running != 0.0 || load.waiting != 0.0)
           then w.busies + [now] else w.busies)
    case Changes(i, to) => w.(g := w.g[i := to])
  }

  predicate Admissible(cfg: Config, cap: bool, w: Loop, es: seq<Event>)
    decreases es
  {
    es == [] || (Enabled(w, es[0]) && Admissible(cfg, cap, Next(cfg, cap, w, es[0]), es[1..]))
  }

  function Final(cfg: Config, cap: bool, w: Loop, es: seq<Event>): Loop
    requires Admissible(cfg, cap, w, es)
    decreases es
  {
    if es == [] then w else Final(cfg, cap, Next(cfg, cap, w, es[0]), es[1..])
  }

  // ---- What one action does ------------------------------------------------------------------------

  function Cap(cfg: Config, g: Group): int {
    if MaxReady(cfg, g) >= cfg.minReady then MaxReady(cfg, g) else cfg.minReady
  }

  lemma CountsAfter(a: Action, g: Group)
    requires Applicable(a, g)
    ensures forall s ::
              Count(Apply(a, g), s)
              == Count(g, s) - (if g[a.i] == s then 1 else 0) + (if Target(a.verb) == s then 1 else 0)
  {
    forall s
      ensures Count(Apply(a, g), s)
           == Count(g, s) - (if g[a.i] == s then 1 else 0) + (if Target(a.verb) == s then 1 else 0)
    {
      CountAfter(g, a.i, Target(a.verb), s);
    }
  }

  /** Each action keeps the floor and the cap: one that takes a ready instance away leaves at
      least min_ready, one that brings an instance up stays within the larger of min_ready and
      max_ready, and one that takes an instance down never calls for the floor rule. */
  lemma ActionsKeepBounds(cfg: Config, load: Load, g: Group, cap: bool, t: Timing, now: real)
    requires Decided(cfg, load, g, cap, t, now).1.Some?
    ensures var a := Decided(cfg, load, g, cap, t, now).1.value;
            && Applicable(a, g)
            && (Count(Apply(a, g), Ready) < Count(g, Ready) ==> Count(Apply(a, g), Ready) >= cfg.minReady)
            && (Serving(Apply(a, g)) > Serving(g) ==> Serving(Apply(a, g)) <= Cap(cfg, g))
            && (GoesDown(a) ==> !BelowFloor(cfg, Apply(a, g)))
            && (GoesDown(a) <==> Serving(Apply(a, g)) <= Serving(g))
  {
    ActionIs(cfg, load, g, cap, t, now);
    CountsAfter(Decided(cfg, load, g, cap, t, now).1.value, g);
  }

  /** min_warm is kept by every action that takes an instance down, but for one case that the
      configuration does not promise: a group that cannot sleep stops a ready instance whatever
      min_warm says. */
  lemma MinWarmIsKeptExactly(cfg: Config, load: Load, g: Group, cap: bool, t: Timing, now: real)
    requires var a := Decided(cfg, load, g, cap, t, now).1; a.Some? && GoesDown(a.value)
    requires Resident(g) >= cfg.minWarm
    ensures var a := Decided(cfg, load, g, cap, t, now).1.value;
            && Applicable(a, g)
            && (Resident(Apply(a, g)) >= cfg.minWarm <==> !(!cap && g[a.i] == Ready && Resident(g) == cfg.minWarm))
  {
    ActionIs(cfg, load, g, cap, t, now);
    CountsAfter(Decided(cfg, load, g, cap, t, now).1.value, g);
  }

  /** Every group that cannot sleep, is resident at exactly min_warm, and has more than min_ready
      ready, drops below min_warm once it has been idle long enough. */
  lemma MinWarmIsUndercut(cfg: Config, load: Load, g: Group, t: Timing, now: real)
    requires cfg.enabled && Count(g, Ready) + Count(g, Starting) >= cfg.minReady && QuietLoad(cfg, load)
    requires t.idleSince.Some? && now - t.idleSince.value >= cfg.sleepAfter
    requires Resident(g) == cfg.minWarm && Count(g, Ready) > cfg.minReady && Count(g, Ready) > 0
    ensures var a := Decided(cfg, load, g, false, t, now).1;
            a.Some? && Applicable(a.value, g) && Resident(Apply(a.value, g)) == cfg.minWarm - 1
  {
    WhereIs(g, Ready, 0);
    ActionIs(cfg, load, g, false, t, now);
    CountsAfter(Decided(cfg, load, g, false, t, now).1.value, g);
  }

  /** So does a single ready instance under the default min_warm and a min_ready of zero. */
  lemma ALoneInstanceUndercutsMinWarm(cfg: Config, t: Timing, now: real)
    requires cfg.enabled && cfg.minReady == 0 && cfg.minWarm == 1 && cfg.threshold >= 0.0
    requires t.idleSince.Some? && now - t.idleSince.value >= cfg.sleepAfter
    ensures var a := Decided(cfg, Load(0.0, 0.0, 0.0), [Ready], false, t, now).1;
            a == Some(Action(Stop, 0)) && Resident(Apply(a.value, [Ready])) == 0
  {
    assert CountFrom([Ready], Ready, 1) == 0 && CountFrom([Ready], Sleeping, 1) == 0;
    MinWarmIsUndercut(cfg, Load(0.0, 0.0, 0.0), [Ready], t, now);
    WhereIs([Ready], Ready, 0);
  }

  /** The first instance of its state is brought up. */
  lemma BringsUpTheFirst(g: Group, j: nat)
    requires BringUp(g).Some? && j < |g|
    ensures var a := BringUp(g).value; a.i < |g| && (g[j] == g[a.i] ==> a.i <= j)
  {
    BringUpIs(g);
    if g[j] == Sleeping {
      WhereBounds(g, Sleeping, 0, j);
    } else if g[j] == Stopped {
      WhereBounds(g, Stopped, 0, j);
      WhereIs(g, Sleeping, 0);
    }
  }

  /** The last instance of its state is taken down. */
  lemma TakesDownTheLast(cfg: Config, g: Group, sleepCapable: bool, idleFor: real, j: nat)
    requires BringDown(cfg, g, sleepCapable, idleFor).Some? && j < |g|
    ensures var a := BringDown(cfg, g, sleepCapable, idleFor).value; a.i < |g| && (g[j] == g[a.i] ==> j <= a.i)
  {
    BringDownIs(cfg, g, sleepCapable, idleFor);
    WhereIs(g, Ready, 0);
    WhereIs(g, Sleeping, 0);
    if g[j] == Ready {
      WhereBounds(g, Ready, 0, j);
    } else if g[j] == Sleeping {
      WhereBounds(g, Sleeping, 0, j);
    }
  }

  lemma ChangesKeepServing(w: Loop, i: nat, to: State)
    requires Enabled(w, Changes(i, to))
    ensures Serving(w.g[i := to]) <= Serving(w.g)
  {
    CountAfter(w.g, i, to, Ready);
    CountAfter(w.g, i, to, Starting);
  }

  // ---- Whole runs: the cap, and the pace of scale-ups ---------------------------------------------------

  /** What the timers know about the past. */
  ghost predicate Paced(cfg: Config, w: Loop) {
    && (forall u :: u in w.ups ==> u <= w.timing.lastScaleUp)
    && (forall u :: u in w.ups ==> u <= w.now)
    && (forall c :: c in w.calms ==> c <= w.now)
    && (w.timing.overSince.Some? ==>
          && w.timing.overSince.value <= w.now
          && (forall u :: u in w.ups ==> u <= w.timing.overSince.value)
          && (forall c :: c in w.calms ==> c <= w.timing.overSince.value))
    && (forall i, j :: 0 <= i < j < |w.ups| ==>
          w.ups[j] - w.ups[i] >= cfg.cooldown && w.ups[j] - w.ups[i] >= cfg.window)
    && (forall u, c :: u in w.ups && c in w.calms ==> !(u - cfg.window < c < u))
  }

  lemma ScaleUpKeepsPace(cfg: Config, w: Loop, now: real)
    requires Paced(cfg, w) && w.now <= now
    requires now - (if w.timing.overSince.Some? then w.timing.overSince.value else now) >= cfg.window
    requires now - w.timing.lastScaleUp >= cfg.cooldown
    ensures Paced(cfg, w.(timing := Timing(None, None, now), now := now, ups := w.ups + [now]))
    ensures Paced(cfg, w.(timing := Timing(None, None, now), now := now))
  {
    forall i | 0 <= i < |w.ups|
      ensures w.ups[i] <= now && now - w.ups[i] >= cfg.cooldown && now - w.ups[i] >= cfg.window
    {
      assert w.ups[i] in w.ups;
    }
  }

  lemma CalmKeepsPace(cfg: Config, w: Loop, now: real, idleSince: Option<real>)
    requires Paced(cfg, w) && w.now <= now
    ensures var timing := Timing(None, idleSince, w.timing.lastScaleUp);
            Paced(cfg, w.(timing := timing, now := now, calms := w.calms + [now]))
  {
  }

  lemma PressureKeepsPace(cfg: Config, w: Loop, now: real)
    requires Paced(cfg, w) && w.now <= now
    ensures var over := if w.timing.overSince.Some? then w.timing.overSince.value else now;
            Paced(cfg, w.(timing := Timing(Some(over), None, w.timing.lastScaleUp), now := now))
  {
  }

  /** Pace does not look at the group, nor at when it was taken down or busy. */
  lemma PaceIgnores(cfg: Config, w: Loop, v: Loop)
    requires Paced(cfg, w) && v.timing.overSince == w.timing.overSince && v.timing.lastScaleUp == w.timing.lastScaleUp
    requires w.now <= v.now && v.ups == w.ups && v.calms == w.calms
    ensures Paced(cfg, v)
  {
  }

  lemma StepKeepsPace(cfg: Config, cap: bool, w: Loop, e: Event)
    requires Paced(cfg, w) && Enabled(w, e)
    ensures Paced(cfg, Next(cfg, cap, w, e))
  {
    var v, u := Next(cfg, cap, w, e), w;
    if e.Tick? {
      if ScalesUp(cfg, e.load, w.g, w.timing, e.now) {
        ScaleUpKeepsPace(cfg, w, e.now);
        u := w.(timing := Timing(None, None, e.now), now := e.now, ups := v.ups);
      } else if Checks(cfg, w) && !Pressed(cfg, e.load) {
        CalmKeepsPace(cfg, w, e.now, None);
        u := w.(timing := Timing(None, None, w.timing.lastScaleUp), now := e.now, calms := w.calms + [e.now]);
      } else if Checks(cfg, w) {
        PressureKeepsPace(cfg, w, e.now);
        var over := if w.timing.overSince.Some? then w.timing.overSince.value else e.now;
        u := w.(timing := Timing(Some(over), None, w.timing.lastScaleUp), now := e.now);
      }
    }
    PaceIgnores(cfg, u, v);
  }

  lemma StepKeepsCap(cfg: Config, cap: bool, w: Loop, e: Event)
    requires Enabled(w, e) && Serving(w.g) <= Cap(cfg, w.g)
    ensures var v := Next(cfg, cap, w, e); Serving(v.g) <= Cap(cfg, v.g)
  {
    if e.Changes? {
      ChangesKeepServing(w, e.i, e.to);
    } else if Acts(cfg, cap, w, e).Some? {
      ActionsKeepBounds(cfg, e.load, w.g, cap, w.timing, e.now);
    }
  }

  lemma {:induction false} RunKeepsPace(cfg: Config, cap: bool, w: Loop, es: seq<Event>)
    requires Admissible(cfg, cap, w, es) && Paced(cfg, w)
    ensures Paced(cfg, Final(cfg, cap, w, es))
    decreases es
  {
    if es != [] {
      StepKeepsPace(cfg, cap, w, es[0]);
      RunKeepsPace(cfg, cap, Next(cfg, cap, w, es[0]), es[1..]);
    }
  }

  lemma {:induction false} RunKeepsCap(cfg: Config, cap: bool, w: Loop, es: seq<Event>)
    requires Admissible(cfg, cap, w, es) && Serving(w.g) <= Cap(cfg, w.g)
    ensures Serving(Final(cfg, cap, w, es).g) <= Cap(cfg, w.g)
    decreases es
  {
    if es != [] {
      StepKeepsCap(cfg, cap, w, es[0]);
      RunKeepsCap(cfg, cap, Next(cfg, cap, w, es[0]), es[1..]);
    }
  }

  /** Over every load history from fresh timers: two pressure scale-ups are at least the
      cooldown and the window apart, no load check inside the window before one found the
      pressure at or below the threshold, and the group never serves with more than the larger
      of min_ready and max_ready unless it did at the start. */
  lemma ScaleUpsArePaced(cfg: Config, cap: bool, g: Group, now: real, es: seq<Event>)
    requires Admissible(cfg, cap, Opened(g, now), es)
    ensures var w := Final(cfg, cap, Opened(g, now), es);
            && (forall i, j :: 0 <= i < j < |w.ups| ==>
                  w.ups[j] - w.ups[i] >= cfg.cooldown && w.ups[j] - w.ups[i] >= cfg.window)
            && (forall u, c :: u in w.ups && c in w.calms ==> !(u - cfg.window < c < u))
            && (Serving(g) <= Cap(cfg, g) ==> Serving(w.g) <= Cap(cfg, g))
  {
    var w := Opened(g, now);
    RunKeepsPace(cfg, cap, w, es);
    if Serving(g) <= Cap(cfg, g) {
      RunKeepsCap(cfg, cap, w, es);
    }
  }

  // ---- Whole runs: patience ------------------------------------------------------------------------------

  /** What the idle timer knows about the past. */
  ghost predicate Patient(w: Loop) {
    && (forall b :: b in w.busies ==> b <= w.now)
    && (w.timing.idleSince.Some? ==>
          w.timing.idleSince.value <= w.now && forall b :: b in w.busies ==> b <= w.timing.idleSince.value)
    && (forall d :: d in w.downs ==> d.0 <= w.now)
    && (forall d, b :: d in w.downs && b in w.busies ==> !(d.0 - d.1 < b < d.0))
  }

  lemma StepKeepsPatience(cfg: Config, cap: bool, w: Loop, e: Event)
    requires Patient(w) && Enabled(w, e)
    ensures Patient(Next(cfg, cap, w, e))
  {
    var a := Acts(cfg, cap, w, e);
    if a.Some? && GoesDown(a.value) {
      BringUpIs(w.g);
      var since := if w.timing.idleSince.Some? then w.timing.idleSince.value else e.now;
      BringDownIs(cfg, w.g, cap, e.now - since);
      assert e.now - since >= Delay(cfg, w.g, a.value);
    }
  }

  lemma {:induction false} RunKeepsPatience(cfg: Config, cap: bool, w: Loop, es: seq<Event>)
    requires Admissible(cfg, cap, w, es) && Patient(w)
    ensures Patient(Final(cfg, cap, w, es))
    decreases es
  {
    if es != [] {
      StepKeepsPatience(cfg, cap, w, es[0]);
      RunKeepsPatience(cfg, cap, Next(cfg, cap, w, es[0]), es[1..]);
    }
  }

  /** Over every load history from fresh timers: before an instance is taken down, every load
      check for as long as its delay has found the group idle. */
  lemma ScaleDownsArePatient(cfg: Config, cap: bool, g: Group, now: real, es: seq<Event>)
    requires Admissible(cfg, cap, Opened(g, now), es)
    ensures var w := Final(cfg, cap, Opened(g, now), es);
            forall d, b :: d in w.downs && b in w.busies ==> !(d.0 - d.1 < b < d.0)
  {
    RunKeepsPatience(cfg, cap, Opened(g, now), es);
  }

  // ---- An idle group comes to rest ----------------------------------------------------------------------

  function Deficit(cfg: Config, g: Group): nat {
    if BelowFloor(cfg, g) then cfg.minReady - Serving(g) else 0
  }

  /** What an idle group can still do: it falls with every action and every death. */
  function Weight(cfg: Config, g: Group): nat {
    CountIsBounded(g, Failed);
    4 * (|g| - Count(g, Failed)) + 4 * Deficit(cfg, g) + 2 * Serving(g) + Count(g, Sleeping)
  }

  lemma CountIsBounded(g: Group, s: State)
    ensures Count(g, s) <= |g|
  {
    WhereIs(g, s, 0);
  }

  /** No request runs or waits, and there is no pressure. */
  predicate QuietLoad(cfg: Config, load: Load) {
    load.running == 0.0 && load.waiting == 0.0 && load.perReplica <= cfg.threshold
  }

  predicate Quiet(cfg: Config, es: seq<Event>) {
    forall i :: 0 <= i < |es| && es[i].Tick? ==> QuietLoad(cfg, es[i].load)
  }

  lemma QuietStepSpends(cfg: Config, cap: bool, w: Loop, e: Event)
    requires Enabled(w, e) && (e.Tick? ==> QuietLoad(cfg, e.load))
    ensures Weight(cfg, Next(cfg, cap, w, e).g)
         <= Weight(cfg, w.g) - if Acts(cfg, cap, w, e).Some? && e.ok then 1 else 0
  {
    match e
    case Changes(i, to) =>
      CountAfter(w.g, i, to, Ready);
      CountAfter(w.g, i, to, Starting);
      CountAfter(w.g, i, to, Sleeping);
      CountAfter(w.g, i, to, Failed);
    case Tick(now, load, ok) =>
      if Acts(cfg, cap, w, e).Some? {
        ActionIs(cfg, load, w.g, cap, w.timing, now);
        CountsAfter(Acts(cfg, cap, w, e).value, w.g);
      }
  }

  /** How many actions succeed in a run. */
  function Actions(cfg: Config, cap: bool, w: Loop, es: seq<Event>): nat
    requires Admissible(cfg, cap, w, es)
    decreases es
  {
    if es == [] then 0
    else
      var acts := if Acts(cfg, cap, w, es[0]).Some? && es[0].ok then 1 else 0;
      acts + Actions(cfg, cap, Next(cfg, cap, w, es[0]), es[1..])
  }

  /** While the load stays idle, only finitely many actions succeed, whatever comes up or dies
      in between: at most the weight of the group. */
  lemma {:induction false} IdleActionsAreFinite(cfg: Config, cap: bool, w: Loop, es: seq<Event>)
    requires Admissible(cfg, cap, w, es) && Quiet(cfg, es)
    ensures Actions(cfg, cap, w, es) + Weight(cfg, Final(cfg, cap, w, es).g) <= Weight(cfg, w.g)
    decreases es
  {
    if es != [] {
      QuietStepSpends(cfg, cap, w, es[0]);
      IdleActionsAreFinite(cfg, cap, Next(cfg, cap, w, es[0]), es[1..]);
    }
  }

  /** Nothing left to do for an idle group: below the floor with nothing to bring up, or at
      the floor with no sleeper too many. */
  predicate Settled(cfg: Config, g: Group) {
    if BelowFloor(cfg, g) then Count(g, Sleeping) == 0 && Count(g, Stopped) == 0
    else Count(g, Ready) <= cfg.minReady && (Count(g, Sleeping) == 0 || Resident(g) <= cfg.minWarm)
  }

  /** The group is known to have been idle for both delays. */
  predicate IdleSince(cfg: Config, t: Timing, now: real) {
    && t.idleSince.Some?
    && now - t.idleSince.value >= cfg.sleepAfter && now - t.idleSince.value >= cfg.stopAfter
  }

  /** Once a group has been idle for both delays, a tick does nothing if and only if the group
      is settled; and a settled group is left alone however long it has been idle. */
  lemma RestsExactlyWhenSettled(cfg: Config, load: Load, g: Group, cap: bool, t: Timing, now: real)
    requires cfg.enabled && cfg.minReady >= 0 && QuietLoad(cfg, load)
    ensures Settled(cfg, g) ==> Decided(cfg, load, g, cap, t, now).1.None?
    ensures IdleSince(cfg, t, now) ==> (Settled(cfg, g) <==> Decided(cfg, load, g, cap, t, now).1.None?)
  {
    BringUpIs(g);
    WhereCounts(g);
    BringDownIs(cfg, g, cap, now - if t.idleSince.Some? then t.idleSince.value else now);
  }

  /** If nothing is starting and min_ready is not negative, a settled group serves with exactly
      min_ready, or has nothing left to bring up. */
  lemma SettledMeans(cfg: Config, g: Group)
    requires Settled(cfg, g) && Count(g, Starting) == 0 && cfg.minReady >= 0
    ensures Count(g, Ready) == cfg.minReady || (Count(g, Sleeping) == 0 && Count(g, Stopped) == 0)
    ensures Count(g, Sleeping) == 0 || Count(g, Ready) + Count(g, Sleeping) <= cfg.minWarm
  {
  }

  /** An idle tick of a group whose idleness began at `since` keeps it so. */
  predicate Late(cfg: Config, since: real, es: seq<Event>) {
    forall i :: 0 <= i < |es| ==>
      es[i].Tick? && es[i].ok && es[i].now - since >= cfg.sleepAfter && es[i].now - since >= cfg.stopAfter
  }

  /** After as many successful ticks as its weight, past both delays, an idle group rests. */
  lemma {:induction false} IdleGroupSettles(cfg: Config, cap: bool, w: Loop, since: real, es: seq<Event>)
    requires cfg.enabled && cfg.minReady >= 0 && w.timing.idleSince == Some(since)
    requires Admissible(cfg, cap, w, es) && Quiet(cfg, es) && Late(cfg, since, es)
    requires |es| >= Weight(cfg, w.g) || Settled(cfg, w.g)
    ensures Settled(cfg, Final(cfg, cap, w, es).g)
    decreases es
  {
    if es == [] {
      if !Settled(cfg, w.g) {
        WeightlessIsSettled(cfg, w.g);
      }
    } else {
      var e := es[0];
      RestsExactlyWhenSettled(cfg, e.load, w.g, cap, w.timing, e.now);
      QuietStepSpends(cfg, cap, w, e);
      IdleGroupSettles(cfg, cap, Next(cfg, cap, w, e), since, es[1..]);
    }
  }

  lemma WeightlessIsSettled(cfg: Config, g: Group)
    requires cfg.minReady >= 0 && Weight(cfg, g) == 0
    ensures Settled(cfg, g)
  {
    CountIsBounded(g, Failed);
  }

  /** A group that is not yet known to be idle: an idle tick starts the clock, or is a matter
      of the floor rule, which acts or has nothing to act on. */
  lemma FirstQuietTick(cfg: Config, load: Load, g: Group, cap: bool, t: Timing, now: real)
    requires cfg.enabled && QuietLoad(cfg, load) && t.idleSince.None?
    ensures var (u, a) := Decided(cfg, load, g, cap, t, now);
            if BelowFloor(cfg, g) then u == t && (a.None? <==> Settled(cfg, g))
            else u.idleSince == Some(now)
  {
    BringUpIs(g);
  }
}
