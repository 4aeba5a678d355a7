/**
  The leader lease: replicas contend for one row of a shared table with a conditional
  upsert, read it back in a second statement, and step down before they release it.

  The table and the elector are classes whose methods are the individual statements of
  the source; `World` puts any number of electors side by side, and every statement is
  a step of its own, so that other replicas may act between any two of them.
 */
module LeaderLease {
  import opened Options

  datatype Lease = Lease(holder: string, expiresAt: real)

  // ---- The three SQL statements, as functions of one row -----------------------

  /** INSERT .. ON CONFLICT DO UPDATE .. WHERE expires_at < now OR holder = me. */
  function Upserted(row: Option<Lease>, holder: string, now: real, ttl: real): Option<Lease> {
    if row.None? || row.value.expiresAt < now || row.value.holder == holder
    then Some(Lease(holder, now + ttl))
    else row
  }

  /** The test made on the row that is read back. */
  predicate Holds(row: Option<Lease>, holder: string, now: real) {
    row.Some? && row.value.holder == holder && row.value.expiresAt > now
  }

  /** DELETE .. WHERE holder = me. */
  function Released(row: Option<Lease>, holder: string): Option<Lease> {
    if row.Some? && row.value.holder == holder then None else row
  }

  function Row(leases: map<string, Lease>, name: string): Option<Lease> {
    if name in leases then Some(leases[name]) else None
  }

  class LeaseTable {
    var leases: map<string, Lease>

    constructor ()
      ensures leases == map[]
    {
      leases := map[];
    }

    method Upsert(name: string, holder: string, now: real, ttl: real)
      modifies this
      ensures Row(leases, name) == Upserted(old(Row(leases, name)), holder, now, ttl)
      ensures var was := old(Row(leases, name));
              Row(leases, name) == if was.None? || was.value.expiresAt < now || was.value.holder == holder
                                   then Some(Lease(holder, now + ttl)) else was
      ensures forall other :: other != name ==> Row(leases, other) == old(Row(leases, other))
    {
      if name !in leases || leases[name].expiresAt < now || leases[name].holder == holder {
        leases := leases[name := Lease(holder, now + ttl)];
      }
    }

    method Select(name: string) returns (row: Option<Lease>)
      ensures row == Row(leases, name)
    {
      row := if name in leases then Some(leases[name]) else None;
    }

    method ReleaseLeader(name: string, holder: string) returns (deleted: bool)
      modifies this
      ensures Row(leases, name) == Released(old(Row(leases, name)), holder)
      ensures var was := old(Row(leases, name));
              && (deleted <==> was.Some? && was.value.holder == holder)
              && Row(leases, name) == if deleted then None else was
      ensures forall other :: other != name ==> Row(leases, other) == old(Row(leases, other))
    {
      deleted := name in leases && leases[name].holder == holder;
      if deleted {
        leases := leases - {name};
      }
    }

    /** The uninterrupted call: it writes exactly when the lease was free, expired or ours, and
        succeeds exactly when what it wrote has not expired already. */
    method TryAcquireLeader(name: string, holder: string, ttl: real, now: real) returns (got: bool)
      modifies this
      ensures var was := old(Row(leases, name));
              var available := was.None? || was.value.expiresAt < now || was.value.holder == holder;
              && (got <==> available && ttl > 0.0)
              && Row(leases, name) == if available then Some(Lease(holder, now + ttl)) else was
      ensures forall other :: other != name ==> Row(leases, other) == old(Row(leases, other))
    {
      Upsert(name, holder, now, ttl);
      var row := Select(name);
      got := row.Some? && row.value.holder == holder && row.value.expiresAt > now;
    }
  }

  // ---- One elector ---------------------------------------------------------------

  /** Where an elector stands between two awaits. `now` is the clock reading the check took. */
  datatype Phase =
    | Idle
    | Asked(now: real)              // clock read, upsert not yet executed
    | Wrote(now: real)              // upsert committed, row not yet read back
    | Told(now: real, got: bool)    // answer read, flag not yet updated
    | Stopping                      // stepped down, release not yet executed
    | Gone                          // released or crashed

  /** `last` is the clock reading of the last check that succeeded. */
  datatype Replica = Replica(phase: Phase, isLeader: bool, last: real)

  function Applied(r: Replica): Replica
    requires r.phase.Told?
  {
    if r.phase.got then Replica(Idle, true, r.phase.now) else Replica(Idle, false, r.last)
  }

  class LeaderElector {
    const holder: string
    const ttl: real
    const interval: real
    var phase: Phase
    var isLeader: bool
    var last: real

    function View(): Replica
      reads this
    {
      Replica(phase, isLeader, last)
    }

    constructor (holder: string, requestedTtl: real)
      ensures View() == Replica(Idle, false, 0.0) && this.holder == holder
      ensures ttl >= 2.0 && ttl >= requestedTtl && (ttl == 2.0 || ttl == requestedTtl)
      ensures interval >= 1.0 && 3.0 * interval >= ttl && (interval == 1.0 || 3.0 * interval == ttl)
    {
      this.holder := holder;
      var t := if requestedTtl > 2.0 then requestedTtl else 2.0;
      this.ttl := t;
      this.interval := if t / 3.0 > 1.0 then t / 3.0 else 1.0;
      phase, isLeader, last := Idle, false, 0.0;
    }

    method Ask(now: real)
      requires phase.Idle?
      modifies this
      ensures View() == old(View()).(phase := Asked(now))
    {
      phase := Asked(now);
    }

    method Write(table: LeaseTable, name: string)
      requires phase.Asked?
      modifies this, table
      ensures View() == old(View()).(phase := Wrote(old(phase).now))
      ensures var was, now := old(Row(table.leases, name)), old(phase).now;
              Row(table.leases, name) == if was.None? || was.value.expiresAt < now || was.value.holder == holder
                                         then Some(Lease(holder, now + ttl)) else was
    {
      table.Upsert(name, holder, phase.now, ttl);
      phase := Wrote(phase.now);
    }

    method Read(table: LeaseTable, name: string)
      requires phase.Wrote?
      modifies this
      ensures var row, now := Row(table.leases, name), old(phase).now;
              var got := row.Some? && row.value.holder == holder && row.value.expiresAt > now;
              View() == old(View()).(phase := Told(old(phase).now, got))
    {
      var row := table.Select(name);
      phase := Told(phase.now, row.Some? && row.value.holder == holder && row.value.expiresAt > phase.now);
    }

    /** The body of the heartbeat loop after the await: gain, keep or lose the flag. */
    method Apply()
      requires phase.Told?
      modifies this
      ensures View() == Applied(old(View()))
      ensures var told := old(phase);
              phase == Idle && isLeader == told.got && last == if told.got then told.now else old(last)
    {
      var got := phase.got;
      if got {
        last := phase.now;
      }
      if got && !isLeader {
        isLeader := true;
      } else if !got && isLeader {
        StepDown();
      }
      phase := Idle;
    }

    /** An exception from the store counts as "not leader". */
    method Fault()
      requires phase.Asked? || phase.Wrote?
      modifies this
      ensures View() == old(View()).(phase := Idle, isLeader := false)
    {
      phase := Told(phase.now, false);
      Apply();
    }

    method StepDown()
      modifies this`isLeader
      ensures !isLeader
    {
      if isLeader {
        isLeader := false;
      }
    }

    /** First half of the loop's `finally`: the flag goes down while the row is still ours. */
    method Stop()
      requires !phase.Gone? && !phase.Stopping?
      modifies this
      ensures View() == old(View()).(phase := Stopping, isLeader := false)
    {
      StepDown();
      phase := Stopping;
    }

    /** A release that fails is swallowed: the row stays until it expires. */
    method GiveUp()
      requires phase.Stopping?
      modifies this
      ensures View() == old(View()).(phase := Gone)
    {
      phase := Gone;
    }

    /** Second half: the row goes. */
    method Release(table: LeaseTable, name: string)
      requires phase.Stopping?
      modifies this, table
      ensures View() == old(View()).(phase := Gone)
      ensures var was := old(Row(table.leases, name));
              Row(table.leases, name) == if was.Some? && was.value.holder == holder then None else was
    {
      var _ := table.ReleaseLeader(name, holder);
      phase := Gone;
    }
  }

  /** What a heartbeat of one elector meets: its clock, or a store that fails before or after
      the upsert is committed. */
  datatype Beat = Works(now: real) | FailsToWrite(now: real) | FailsToRead(now: real)

  /** The life of one elector that nobody interleaves with: its heartbeats, then the `finally`.
      Whatever happened, it ends off duty; and unless the release itself fails, which is
      swallowed, the row is not left behind in its name. */
  method RunElector(elector: LeaderElector, table: LeaseTable, name: string, beats: seq<Beat>, releaseFails: bool)
    requires elector.phase.Idle? && !elector.isLeader
    modifies elector, table
    ensures elector.phase.Gone? && !elector.isLeader
    ensures !releaseFails && Row(table.leases, name).Some? ==> Row(table.leases, name).value.holder != elector.holder
  {
    for k := 0 to |beats|
      invariant elector.phase.Idle?
      invariant elector.isLeader ==> Row(table.leases, name) == Some(Lease(elector.holder, elector.last + elector.ttl))
    {
      elector.Ask(beats[k].now);
      if beats[k].FailsToWrite? {
        elector.Fault();
        continue;
      }
      elector.Write(table, name);
      if beats[k].FailsToRead? {
        elector.Fault();
        continue;
      }
      elector.Read(table, name);
      elector.Apply();
    }
    elector.Stop();
    if releaseFails {
      elector.GiveUp();
    } else {
      elector.Release(table, name);
    }
  }

  // ---- Many electors over one row --------------------------------------------------

  /** `skew` bounds how far two clocks are apart; `deadline` bounds how long a leader goes
      on after the clock reading of its last successful check. */
  datatype Config = Config(ttl: real, deadline: real, skew: real)

  datatype World = World(row: Option<Lease>, clock: map<string, real>, reps: map<string, Replica>)

  datatype Event =
    | Tick(clock: map<string, real>)
    | Ask(id: string)
    | Write(id: string)
    | Read(id: string)
    | Apply(id: string)
    | Fault(id: string)
    | Stop(id: string)
    | Release(id: string)
    | Crash(id: string)

  ghost predicate Close(cfg: Config, clock: map<string, real>) {
    forall i, j :: i in clock && j in clock ==> clock[i] <= clock[j] + cfg.skew
  }

  ghost predicate InTime(cfg: Config, clock: map<string, real>, reps: map<string, Replica>) {
    forall i :: i in clock && i in reps && reps[i].isLeader ==> clock[i] <= reps[i].last + cfg.deadline
  }

  /** Which events may happen: the electors' program order, monotone clocks that stay close,
      and no leader that outlives its deadline without having heard back. */
  ghost predicate Enabled(cfg: Config, w: World, e: Event)
  {
    match e
    case Tick(clock) =>
      && clock.Keys == w.clock.Keys
      && (forall i :: i in clock ==> w.clock[i] <= clock[i])
      && Close(cfg, clock)
      && InTime(cfg, clock, w.reps)
    case Ask(i) => i in w.reps && i in w.clock && w.reps[i].phase.Idle?
    case Write(i) => i in w.reps && w.reps[i].phase.Asked?
    case Read(i) => i in w.reps && w.reps[i].phase.Wrote?
    case Apply(i) =>
      && i in w.reps && i in w.clock && w.reps[i].phase.Told?
      && (w.reps[i].phase.got ==> w.clock[i] <= w.reps[i].phase.now + cfg.deadline)
    case Fault(i) => i in w.reps && (w.reps[i].phase.Asked? || w.reps[i].phase.Wrote?)
    case Stop(i) => i in w.reps && !w.reps[i].phase.Gone? && !w.reps[i].phase.Stopping?
    case Release(i) => i in w.reps && w.reps[i].phase.Stopping?
    case Crash(i) => i in w.reps
  }

  ghost function Next(cfg: Config, w: World, e: Event): World
    requires Enabled(cfg, w, e)
  {
    match e
    case Tick(clock) => w.(clock := clock)
    case Ask(i) => w.(reps := w.reps[i := w.reps[i].(phase := Asked(w.clock[i]))])
    case Write(i) =>
      var now := w.reps[i].phase.now;
      w.(row := Upserted(w.row, i, now, cfg.ttl), reps := w.reps[i := w.reps[i].(phase := Wrote(now))])
    case Read(i) =>
      var now := w.reps[i].phase.now;
      w.(reps := w.reps[i := w.reps[i].(phase := Told(now, Holds(w.row, i, now)))])
    case Apply(i) => w.(reps := w.reps[i := Applied(w.reps[i])])
    case Fault(i) => w.(reps := w.reps[i := w.reps[i].(phase := Idle, isLeader := false)])
    case Stop(i) => w.(reps := w.reps[i := w.reps[i].(phase := Stopping, isLeader := false)])
    case Release(i) => w.(row := Released(w.row, i), reps := w.reps[i := w.reps[i].(phase := Gone)])
    case Crash(i) => w.(reps := w.reps[i := w.reps[i].(phase := Gone, isLeader := false)])
  }

  /** Any row may be there at the start, even one naming a replica that has just restarted. */
  ghost predicate Init(cfg: Config, w: World) {
    && w.clock.Keys == w.reps.Keys
    && Close(cfg, w.clock)
    && forall i :: i in w.reps ==> w.reps[i].phase.Idle? && !w.reps[i].isLeader
  }

  ghost predicate Admissible(cfg: Config, w: World, es: seq<Event>)
    decreases es
  {
    es == [] || (Enabled(cfg, w, es[0]) && Admissible(cfg, Next(cfg, w, es[0]), es[1..]))
  }

  ghost function Final(cfg: Config, w: World, es: seq<Event>): World
    requires Admissible(cfg, w, es)
    decreases es
  {
    if es == [] then w else Final(cfg, Next(cfg, w, es[0]), es[1..])
  }

  ghost predicate AtMostOneLeader(w: World) {
    forall i, j :: i in w.reps && j in w.reps && w.reps[i].isLeader && w.reps[j].isLeader ==> i == j
  }

  // ---- Mutual exclusion ---------------------------------------------------------------

  ghost predicate RepInv(cfg: Config, w: World, i: string)
    requires i in w.reps && i in w.clock
  {
    var r := w.reps[i];
    && (r.isLeader ==>
          && r.phase != Gone && r.phase != Stopping
          && w.row.Some? && w.row.value.holder == i && w.row.value.expiresAt >= r.last + cfg.ttl
          && w.clock[i] <= r.last + cfg.deadline)
    && ((r.phase.Asked? || r.phase.Wrote? || r.phase.Told?) ==>
          r.phase.now <= w.clock[i] && (r.isLeader ==> r.last <= r.phase.now))
    && (r.isLeader ==> r.last <= w.clock[i])
    && (r.phase.Wrote? && w.row.Some? && w.row.value.holder == i ==> w.row.value.expiresAt == r.phase.now + cfg.ttl)
    && (r.phase.Told? && r.phase.got ==>
          || w.row == Some(Lease(i, r.phase.now + cfg.ttl))
          || w.clock[i] > r.phase.now + cfg.deadline)
  }

  ghost predicate Inv(cfg: Config, w: World) {
    && w.clock.Keys == w.reps.Keys
    && Close(cfg, w.clock)
    && forall i :: i in w.reps ==> RepInv(cfg, w, i)
  }

  /** A replica can overwrite the row of a leader only past its expiry, and by then the
      leader's own clock, at most `skew` behind, has passed the leader's deadline. */
  lemma WriteSparesLeader(cfg: Config, w: World, i: string, j: string)
    requires cfg.deadline + cfg.skew <= cfg.ttl
    requires Inv(cfg, w) && Enabled(cfg, w, Write(j)) && i in w.reps && i != j
    ensures RepInv(cfg, Next(cfg, w, Write(j)), i)
  {
    var r, q := w.reps[i], w.reps[j];
    assert RepInv(cfg, w, i) && RepInv(cfg, w, j);
    assert q.phase.now <= w.clock[j] <= w.clock[i] + cfg.skew;
    if r.isLeader {
      assert w.row.value.expiresAt >= q.phase.now;
    }
  }

  lemma WriteKeepsOwn(cfg: Config, w: World, i: string)
    requires Inv(cfg, w) && Enabled(cfg, w, Write(i))
    ensures RepInv(cfg, Next(cfg, w, Write(i)), i)
  {
    assert RepInv(cfg, w, i);
  }

  /** Events of `i` that leave the row alone. */
  lemma LocalKeepsOwn(cfg: Config, w: World, e: Event, i: string)
    requires Inv(cfg, w) && Enabled(cfg, w, e) && !e.Tick? && !e.Write? && !e.Release? && e.id == i
    ensures RepInv(cfg, Next(cfg, w, e), i)
  {
    assert RepInv(cfg, w, i);
  }

  lemma TickKeeps(cfg: Config, w: World, clock: map<string, real>, i: string)
    requires Inv(cfg, w) && Enabled(cfg, w, Tick(clock)) && i in w.reps
    ensures RepInv(cfg, Next(cfg, w, Tick(clock)), i)
  {
    assert RepInv(cfg, w, i);
  }

  /** A release deletes the releaser's own row, so only a replica that is not a leader loses it. */
  lemma ReleaseKeeps(cfg: Config, w: World, j: string, i: string)
    requires Inv(cfg, w) && Enabled(cfg, w, Release(j)) && i in w.reps
    ensures RepInv(cfg, Next(cfg, w, Release(j)), i)
  {
    assert RepInv(cfg, w, i) && RepInv(cfg, w, j);
  }

  /** What one replica does to itself does not concern another. */
  lemma LocalSparesOthers(cfg: Config, w: World, e: Event, i: string)
    requires Inv(cfg, w) && Enabled(cfg, w, e) && !e.Tick? && !e.Write? && !e.Release? && i in w.reps && e.id != i
    ensures RepInv(cfg, Next(cfg, w, e), i)
  {
    assert RepInv(cfg, w, i);
    var w' := Next(cfg, w, e);
    assert w'.row == w.row && w'.clock == w.clock && w'.reps[i] == w.reps[i];
  }

  lemma OneKeepsInv(cfg: Config, w: World, e: Event, i: string)
    requires cfg.deadline + cfg.skew <= cfg.ttl
    requires Inv(cfg, w) && Enabled(cfg, w, e) && i in w.reps
    ensures var w' := Next(cfg, w, e); i in w'.reps && i in w'.clock && RepInv(cfg, w', i)
  {
    if e.Tick? {
      TickKeeps(cfg, w, e.clock, i);
    } else if e.Write? {
      if i == e.id { WriteKeepsOwn(cfg, w, i); } else { WriteSparesLeader(cfg, w, i, e.id); }
    } else if e.Release? {
      ReleaseKeeps(cfg, w, e.id, i);
    } else if i == e.id {
      LocalKeepsOwn(cfg, w, e, i);
    } else {
      LocalSparesOthers(cfg, w, e, i);
    }
  }

  /** Every statement of every elector keeps the invariant. */
  lemma StepKeepsInv(cfg: Config, w: World, e: Event)
    requires cfg.deadline + cfg.skew <= cfg.ttl
    requires Inv(cfg, w) && Enabled(cfg, w, e)
    ensures Inv(cfg, Next(cfg, w, e))
  {
    var w' := Next(cfg, w, e);
    assert w'.reps.Keys == w.reps.Keys && w'.clock.Keys == w.clock.Keys && Close(cfg, w'.clock);
    forall i | i in w'.reps
      ensures RepInv(cfg, w', i)
    {
      OneKeepsInv(cfg, w, e, i);
    }
  }

  lemma RunKeepsInv(cfg: Config, w: World, es: seq<Event>)
    requires cfg.deadline + cfg.skew <= cfg.ttl
    requires Inv(cfg, w) && Admissible(cfg, w, es)
    ensures Inv(cfg, Final(cfg, w, es))
    decreases es
  {
    if es != [] {
      StepKeepsInv(cfg, w, es[0]);
      RunKeepsInv(cfg, Next(cfg, w, es[0]), es[1..]);
    }
  }

  ghost predicate Safe(cfg: Config, ids: set<string>) {
    forall w, es :: Init(cfg, w) && w.reps.Keys == ids && Admissible(cfg, w, es) ==>
      AtMostOneLeader(Final(cfg, w, es))
  }

  lemma InvIsSafe(cfg: Config, w: World)
    requires Inv(cfg, w)
    ensures AtMostOneLeader(w)
  {
    forall i, j | i in w.reps && j in w.reps && w.reps[i].isLeader && w.reps[j].isLeader
      ensures i == j
    {
      assert RepInv(cfg, w, i) && RepInv(cfg, w, j);
    }
  }

  lemma WideMarginIsSafe(cfg: Config, ids: set<string>)
    requires cfg.deadline + cfg.skew <= cfg.ttl
    ensures Safe(cfg, ids)
  {
    forall w, es | Init(cfg, w) && w.reps.Keys == ids && Admissible(cfg, w, es)
      ensures AtMostOneLeader(Final(cfg, w, es))
    {
      RunKeepsInv(cfg, w, es);
      InvIsSafe(cfg, Final(cfg, w, es));
    }
  }

  /** A run can be extended at its end. */
  lemma {:induction false} Extend(cfg: Config, w: World, es: seq<Event>, e: Event)
    requires Admissible(cfg, w, es) && Enabled(cfg, Final(cfg, w, es), e)
    ensures Admissible(cfg, w, es + [e]) && Final(cfg, w, es + [e]) == Next(cfg, Final(cfg, w, es), e)
    decreases es
  {
    if es == [] {
      assert Admissible(cfg, Next(cfg, w, e), []);
      assert ([e])[1..] == [];
    } else {
      Extend(cfg, Next(cfg, w, es[0]), es[1..], e);
      assert (es + [e])[0] == es[0] && (es + [e])[1..] == es[1..] + [e];
    }
  }

  ghost function Start(ids: set<string>): World {
    World(None, map i | i in ids :: 0.0, map i | i in ids :: Replica(Idle, false, 0.0))
  }

  /** The events by which one replica makes one complete check. */
  function Check(i: string): seq<Event> {
    [Ask(i), Write(i), Read(i), Apply(i)]
  }

  /** The upsert of a check by `i` at a moment when the row is free or expired. */
  lemma CheckWrites(cfg: Config, w: World, es: seq<Event>, i: string)
    requires cfg.deadline >= 0.0 && cfg.ttl > 0.0 && Admissible(cfg, w, es)
    requires var v := Final(cfg, w, es);
             i in v.reps && i in v.clock && v.reps[i].phase.Idle? && (v.row.None? || v.row.value.expiresAt < v.clock[i])
    ensures var v, more := Final(cfg, w, es), es + [Ask(i)] + [Write(i)];
            && Admissible(cfg, w, more)
            && Final(cfg, w, more) ==
                 v.(row := Some(Lease(i, v.clock[i] + cfg.ttl)),
                    reps := v.reps[i := v.reps[i].(phase := Wrote(v.clock[i]))])
  {
    var v := Final(cfg, w, es);
    Extend(cfg, w, es, Ask(i));
    Extend(cfg, w, es + [Ask(i)], Write(i));
    assert Final(cfg, w, es + [Ask(i)] + [Write(i)]).reps == v.reps[i := v.reps[i].(phase := Wrote(v.clock[i]))];
  }

  /** A complete check by `i` at such a moment makes `i` a leader. */
  lemma CheckGains(cfg: Config, w: World, es: seq<Event>, i: string)
    requires cfg.deadline >= 0.0 && cfg.ttl > 0.0 && Admissible(cfg, w, es)
    requires var v := Final(cfg, w, es);
             i in v.reps && i in v.clock && v.reps[i].phase.Idle? && (v.row.None? || v.row.value.expiresAt < v.clock[i])
    ensures var v := Final(cfg, w, es);
            && Admissible(cfg, w, es + Check(i))
            && Final(cfg, w, es + Check(i)) ==
                 v.(row := Some(Lease(i, v.clock[i] + cfg.ttl)), reps := v.reps[i := Replica(Idle, true, v.clock[i])])
  {
    var v, wrote := Final(cfg, w, es), es + [Ask(i)] + [Write(i)];
    CheckWrites(cfg, w, es, i);
    Extend(cfg, w, wrote, Read(i));
    Extend(cfg, w, wrote + [Read(i)], Apply(i));
    assert wrote + [Read(i)] + [Apply(i)] == es + Check(i);
    assert Final(cfg, w, es + Check(i)).reps == v.reps[i := Replica(Idle, true, v.clock[i])];
  }

  /** `a` has been elected at time zero and its clock has just reached its deadline, while
      `b`'s clock is ahead by the whole skew. */
  lemma LeaderAtDeadline(cfg: Config, ids: set<string>, a: string, b: string) returns (es: seq<Event>)
    requires cfg.ttl > 0.0 && cfg.deadline >= 0.0 && cfg.skew >= 0.0
    requires a in ids && b in ids && a != b
    ensures Admissible(cfg, Start(ids), es)
    ensures var v := Final(cfg, Start(ids), es);
            && v.reps == Start(ids).reps[a := Replica(Idle, true, 0.0)]
            && b in v.clock && v.clock[b] == cfg.deadline + cfg.skew
            && v.row == Some(Lease(a, cfg.ttl))
  {
    var w := Start(ids);
    CheckGains(cfg, w, [], a);
    var led := [] + Check(a);
    var v := Final(cfg, w, led);
    assert v.clock == w.clock && v.row == Some(Lease(a, cfg.ttl));
    var later := map i | i in ids :: if i == b then cfg.deadline + cfg.skew else cfg.deadline;
    assert Close(cfg, later) && InTime(cfg, later, v.reps);
    Extend(cfg, w, led, Tick(later));
    es := led + [Tick(later)];
  }

  /** With a narrower margin there is a run with two leaders: `b` finds the row expired
      before `a` has to check again. */
  lemma NarrowMarginIsUnsafe(cfg: Config, ids: set<string>, a: string, b: string)
    requires cfg.ttl > 0.0 && cfg.deadline >= 0.0 && cfg.skew >= 0.0
    requires cfg.deadline + cfg.skew > cfg.ttl
    requires a in ids && b in ids && a != b
    ensures !Safe(cfg, ids)
  {
    var w := Start(ids);
    var es := LeaderAtDeadline(cfg, ids, a, b);
    CheckGains(cfg, w, es, b);
    var u := Final(cfg, w, es + Check(b));
    assert u.reps[a].isLeader && u.reps[b].isLeader;
    assert !AtMostOneLeader(u);
    assert Init(cfg, w) && w.reps.Keys == ids;
  }

  /** The lease elects at most one leader in every run if and only if the deadline plus the
      clock skew fit into the time to live. */
  lemma MutualExclusionExactly(cfg: Config, ids: set<string>, a: string, b: string)
    requires cfg.ttl > 0.0 && cfg.deadline >= 0.0 && cfg.skew >= 0.0
    requires a in ids && b in ids && a != b
    ensures Safe(cfg, ids) <==> cfg.deadline + cfg.skew <= cfg.ttl
  {
    if cfg.deadline + cfg.skew <= cfg.ttl {
      WideMarginIsSafe(cfg, ids);
    } else {
      NarrowMarginIsUnsafe(cfg, ids, a, b);
    }
  }

  // ---- Take-over ------------------------------------------------------------------------

  ghost predicate SparesReplica(es: seq<Event>, i: string) {
    forall k :: 0 <= k < |es| && !es[k].Tick? ==> es[k].id != i
  }

  ghost predicate ClocksUpTo(w: World, t: real) {
    forall i :: i in w.clock ==> w.clock[i] <= t
  }

  lemma {:induction false} ClocksWereUpTo(cfg: Config, w: World, es: seq<Event>, t: real)
    requires Admissible(cfg, w, es) && ClocksUpTo(Final(cfg, w, es), t)
    ensures ClocksUpTo(w, t)
    decreases es
  {
    if es != [] {
      ClocksWereUpTo(cfg, Next(cfg, w, es[0]), es[1..], t);
    }
  }

  /** A write past the expiry, whoever's row it was, is decisive: whatever the other replicas
      do until the new lease itself expires, the writer reads its own name back. */
  lemma {:induction false} WriterKeepsRow(cfg: Config, w: World, es: seq<Event>, i: string, now: real)
    requires cfg.deadline + cfg.skew <= cfg.ttl
    requires Inv(cfg, w) && i in w.reps && w.reps[i].phase == Wrote(now) && w.row == Some(Lease(i, now + cfg.ttl))
    requires Admissible(cfg, w, es) && SparesReplica(es, i) && ClocksUpTo(Final(cfg, w, es), now + cfg.ttl)
    ensures var v := Final(cfg, w, es);
            v.row == Some(Lease(i, now + cfg.ttl)) && i in v.reps && v.reps[i] == w.reps[i]
    decreases es
  {
    if es != [] {
      var w' := Next(cfg, w, es[0]);
      ClocksWereUpTo(cfg, w, es, now + cfg.ttl);
      if es[0].Write? {
        assert RepInv(cfg, w, es[0].id);
      }
      StepKeepsInv(cfg, w, es[0]);
      WriterKeepsRow(cfg, w', es[1..], i, now);
    }
  }

  /** After a crash, a release or a lapse: the first check that writes past the expiry wins,
      however the other replicas' statements interleave with it. */
  lemma FirstCheckPastExpiryWins(cfg: Config, w: World, i: string, es: seq<Event>)
    requires cfg.deadline + cfg.skew <= cfg.ttl && cfg.ttl > 0.0
    requires Inv(cfg, w) && i in w.reps && w.reps[i].phase.Asked?
    requires w.row.None? || w.row.value.expiresAt < w.reps[i].phase.now || w.row.value.holder == i
    requires Admissible(cfg, Next(cfg, w, Write(i)), es) && SparesReplica(es, i)
    requires ClocksUpTo(Final(cfg, Next(cfg, w, Write(i)), es), w.reps[i].phase.now + cfg.ttl)
    ensures var v := Final(cfg, Next(cfg, w, Write(i)), es);
            && Enabled(cfg, v, Read(i))
            && Next(cfg, v, Read(i)).reps[i].phase == Told(w.reps[i].phase.now, true)
            && (forall j :: j in v.reps && v.reps[j].isLeader ==> j == i)
  {
    var w' := Next(cfg, w, Write(i));
    StepKeepsInv(cfg, w, Write(i));
    WriterKeepsRow(cfg, w', es, i, w.reps[i].phase.now);
    var v := Final(cfg, w', es);
    RunKeepsInv(cfg, w', es);
    forall j | j in v.reps && v.reps[j].isLeader
      ensures j == i
    {
      assert RepInv(cfg, v, j);
    }
  }
}
