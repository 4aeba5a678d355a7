/**
  The admission queue of evaluation runs: first in, first out, under a shared budget of
  concurrent requests, and off while a load test owns the machine.

  `Core` holds the manager's fields; each of its functions is one stretch of code without an
  await. `World` adds the coroutines that are under way and what has happened so far, so
  that every interleaving of starts, pumps, exits and cancels is a sequence of events.
 */
module EvalQueue {
  import opened Options

  datatype Core = Core(
    queued: seq<int>,              // FIFO of waiting run ids
    pending: map<int, string>,     // run id -> request, until launched
    batch: map<int, nat>,          // run id -> eval_batch_size
    procs: seq<int>,               // run ids with a process, in insertion order
    cancelled: set<int>,
    budget: nat)

  const DEFAULT_BATCH: nat := 8

  function BatchOf(batch: map<int, nat>, run: int, default: nat): nat {
    if run in batch then batch[run] else default
  }

  function SumOf(batch: map<int, nat>, runs: seq<int>): nat {
    if runs == [] then 0 else BatchOf(batch, runs[0], 0) + SumOf(batch, runs[1..])
  }

  function Used(c: Core): nat { SumOf(c.batch, c.procs) }

  /** list.remove; also what popping a key does to a dict's key order. */
  function RemoveFirst(s: seq<int>, x: int): (r: seq<int>) {
    if s == [] then [] else if s[0] == x then s[1..] else [s[0]] + RemoveFirst(s[1..], x)
  }

  /** Something runs, and the batches of what runs and of the head together exceed the budget. */
  ghost predicate Overflows(c: Core)
    requires c.queued != []
  {
    var head := c.queued[0];
    c.procs != [] && SumOf(c.batch, c.procs) + (if head in c.batch then c.batch[head] else 8) > c.budget
  }

  // ---- The stretches of code between awaits ------------------------------------------

  function Enqueued(c: Core, run: int, req: string, batch: nat): Core {
    c.(pending := c.pending[run := req], batch := c.batch[run := batch], queued := c.queued + [run])
  }

  predicate Fits(c: Core, run: int) {
    c.procs == [] || Used(c) + BatchOf(c.batch, run, DEFAULT_BATCH) <= c.budget
  }

  /** What one turn of the pump's loop does before its next await. */
  datatype Turn = Leave | Launch(run: int) | Skip(run: int)

  function PumpTurn(c: Core, perfBusy: bool): Turn {
    if c.queued == [] || perfBusy || !Fits(c, c.queued[0]) then Leave
    else if c.queued[0] in c.pending then Launch(c.queued[0])
    else Skip(c.queued[0])
  }

  function Pumped(c: Core, perfBusy: bool): Core {
    match PumpTurn(c, perfBusy)
    case Leave => c
    case Launch(run) => c.(queued := c.queued[1..], pending := c.pending - {run}, procs := c.procs + [run])
    case Skip(_) => c.(queued := c.queued[1..])
  }

  /** All the turns of one uninterrupted pump. */
  function PumpAll(c: Core, perfBusy: bool): Core
    decreases |c.queued|
  {
    if PumpTurn(c, perfBusy).Leave? then c else PumpAll(Pumped(c, perfBusy), perfBusy)
  }

  function Exited(c: Core, run: int): Core {
    c.(procs := RemoveFirst(c.procs, run), batch := c.batch - {run}, cancelled := c.cancelled - {run})
  }

  function Cancelled(c: Core, run: int): Core {
    if run in c.queued then
      c.(queued := RemoveFirst(c.queued, run), pending := c.pending - {run}, batch := c.batch - {run})
    else if run in c.procs then c.(cancelled := c.cancelled + {run})
    else c
  }

  class PerfManager {
    var current: Option<int>

    constructor ()
      ensures current.None?
    {
      current := None;
    }

    method Begin(run: int)
      modifies this
      ensures current == Some(run)
    {
      current := Some(run);
    }

    /** The watcher of a finished load test; it pumps the evaluations if nobody took over. */
    method WatchExit(run: int) returns (pump: bool)
      modifies this
      ensures current == (if old(current) == Some(run) then None else old(current))
      ensures pump <==> current.None?
    {
      if current == Some(run) {
        current := None;
      }
      pump := current.None?;
    }
  }

  class EvalManager {
    var queued: seq<int>
    var pending: map<int, string>
    var batch: map<int, nat>
    var procs: seq<int>
    var cancelled: set<int>
    var budget: nat

    function View(): Core
      reads this
    {
      Core(queued, pending, batch, procs, cancelled, budget)
    }

    constructor (budget: nat)
      ensures View() == Core([], map[], map[], [], {}, budget)
    {
      this.budget := budget;
      queued, pending, batch, procs, cancelled := [], map[], map[], [], {};
    }

    method UsedBudget() returns (sum: nat)
      ensures sum == Used(View())
    {
      sum := 0;
      var i := |procs|;
      while i > 0
        invariant 0 <= i <= |procs|
        invariant sum == SumOf(batch, procs[i..])
      {
        i := i - 1;
        assert procs[i..][1..] == procs[i + 1..];
        sum := sum + if procs[i] in batch then batch[procs[i]] else 0;
      }
    }

    method Enqueue(run: int, req: string, evalBatchSize: nat)
      modifies this
      ensures View() == Enqueued(old(View()), run, req, evalBatchSize)
      ensures queued == old(queued) + [run]
      ensures procs == old(procs) && cancelled == old(cancelled) && budget == old(budget)
      ensures pending == old(pending)[run := req] && batch == old(batch)[run := evalBatchSize]
    {
      pending := pending[run := req];
      batch := batch[run := evalBatchSize];
      queued := queued + [run];
    }

    method Turn(perf: PerfManager) returns (t: Turn)
      requires perf as object != this
      modifies this
      ensures t == PumpTurn(old(View()), perf.current.Some?) && View() == Pumped(old(View()), perf.current.Some?)
      ensures t.Leave? <==> old(queued) == [] || perf.current.Some? || Overflows(old(View()))
      ensures t.Leave? ==> View() == old(View())
      ensures !t.Leave? ==> t == if old(queued)[0] in old(pending) then Launch(old(queued)[0]) else Skip(old(queued)[0])
      ensures !t.Leave? ==> queued == old(queued)[1..] && pending == old(pending) - {t.run}
      ensures !t.Leave? ==> procs == if t.Launch? then old(procs) + [t.run] else old(procs)
      ensures batch == old(batch) && cancelled == old(cancelled) && budget == old(budget)
    {
      if queued == [] || perf.current.Some? {
        return Leave;
      }
      var run := queued[0];
      var size := if run in batch then batch[run] else DEFAULT_BATCH;
      var used := UsedBudget();
      if procs != [] && used + size > budget {
        return Leave;
      }
      queued := queued[1..];
      if run !in pending {
        return Skip(run);
      }
      pending := pending - {run};
      procs := procs + [run];
      t := Launch(run);
    }

    /** The pump's loop, when nobody interferes. It leaves a queue behind only if a load test is
        on or the next run overflows the budget, and takes nothing but runs from the front. */
    method Pump(perf: PerfManager)
      requires perf as object != this
      modifies this
      ensures View() == PumpAll(old(View()), perf.current.Some?)
      ensures queued != [] ==> perf.current.Some? || Overflows(View())
      ensures exists n: nat :: n <= |old(queued)| && queued == old(queued)[n..]
    {
      var t := Turn(perf);
      ghost var taken: nat := if t.Leave? then 0 else 1;
      while !t.Leave?
        invariant t.Leave? ==> View() == PumpAll(old(View()), perf.current.Some?)
        invariant !t.Leave? ==> PumpAll(View(), perf.current.Some?) == PumpAll(old(View()), perf.current.Some?)
        invariant t.Leave? ==> queued == [] || perf.current.Some? || Overflows(View())
        invariant taken <= |old(queued)| && queued == old(queued)[taken..]
        decreases |queued|, if t.Leave? then 0 else 1
      {
        t := Turn(perf);
        taken := if t.Leave? then taken else taken + 1;
      }
    }

    /** First stretch of the watcher, once the process is gone. */
    method WatchExit(run: int)
      modifies this
      ensures View() == Exited(old(View()), run)
      ensures procs == RemoveFirst(old(procs), run)
      ensures batch == old(batch) - {run} && cancelled == old(cancelled) - {run}
      ensures queued == old(queued) && pending == old(pending) && budget == old(budget)
    {
      procs := RemoveFirst(procs, run);
      batch := batch - {run};
      if run in cancelled {
        cancelled := cancelled - {run};
      }
    }

    method Cancel(run: int) returns (found: bool)
      modifies this
      ensures View() == Cancelled(old(View()), run)
      ensures run in old(queued) ==>
                && queued == RemoveFirst(old(queued), run)
                && pending == old(pending) - {run} && batch == old(batch) - {run}
                && cancelled == old(cancelled)
      ensures run !in old(queued) ==>
                && queued == old(queued) && pending == old(pending) && batch == old(batch)
                && cancelled == old(cancelled) + if run in old(procs) then {run} else {}
      ensures procs == old(procs) && budget == old(budget)
      ensures found <==> run in old(queued) || run in old(procs)
    {
      if run in queued {
        queued := RemoveFirst(queued, run);
        pending := pending - {run};
        batch := batch - {run};
        return true;
      }
      if run !in procs {
        return false;
      }
      cancelled := cancelled + {run};
      found := true;
    }
  }

  // ---- Removing, filtering, adding up -------------------------------------------------

  /** A list without the elements of a set. */
  function Without(s: seq<int>, gone: set<int>): seq<int> {
    if s == [] then [] else (if s[0] in gone then [] else [s[0]]) + Without(s[1..], gone)
  }

  ghost predicate Distinct(s: seq<int>) {
    forall i, j :: 0 <= i < j < |s| ==> s[i] != s[j]
  }

  lemma {:induction false} WithoutAbsent(s: seq<int>, gone: set<int>)
    requires forall i :: 0 <= i < |s| ==> s[i] !in gone
    ensures Without(s, gone) == s
  {
    if s != [] {
      WithoutAbsent(s[1..], gone);
      assert Without(s, gone) == [s[0]] + s[1..];
    }
  }

  lemma {:induction false} RemoveFirstHas(s: seq<int>, x: int)
    requires Distinct(s)
    ensures Distinct(RemoveFirst(s, x))
    ensures forall y :: y in RemoveFirst(s, x) <==> y in s && y != x
  {
    if s != [] && s[0] != x {
      RemoveFirstHas(s[1..], x);
      assert s == [s[0]] + s[1..];
      assert s[0] !in RemoveFirst(s[1..], x);
    }
  }

  lemma {:induction false} RemoveFirstIs(s: seq<int>, x: int)
    requires Distinct(s)
    ensures RemoveFirst(s, x) == Without(s, {x})
  {
    if s != [] {
      RemoveFirstIs(s[1..], x);
      if s[0] == x {
        WithoutAbsent(s[1..], {x});
      }
    }
  }

  lemma {:induction false} WithoutSum(a: seq<int>, b: seq<int>, gone: set<int>)
    ensures Without(a + b, gone) == Without(a, gone) + Without(b, gone)
  {
    if a == [] {
      assert a + b == b;
    } else {
      assert (a + b)[1..] == a[1..] + b;
      WithoutSum(a[1..], b, gone);
    }
  }

  lemma {:induction false} WithoutTwice(s: seq<int>, gone: set<int>, more: set<int>)
    ensures Without(s, gone + more) == Without(Without(s, gone), more)
  {
    if s != [] {
      WithoutTwice(s[1..], gone, more);
      var rest := Without(s[1..], gone);
      assert ([s[0]] + rest)[1..] == rest && [] + rest == rest;
    }
  }

  lemma {:induction false} SumWithout(batch: map<int, nat>, runs: seq<int>, run: int)
    requires Distinct(runs) && run in runs
    ensures SumOf(batch - {run}, RemoveFirst(runs, run)) + BatchOf(batch, run, 0) == SumOf(batch, runs)
  {
    if runs[0] == run {
      SumIgnores(batch, runs[1..], run, 0);
    } else {
      SumWithout(batch, runs[1..], run);
      var rest := RemoveFirst(runs[1..], run);
      assert ([runs[0]] + rest)[1..] == rest;
    }
  }

  lemma {:induction false} SumIgnores(batch: map<int, nat>, runs: seq<int>, run: int, n: nat)
    requires run !in runs
    ensures SumOf(batch - {run}, runs) == SumOf(batch, runs) == SumOf(batch[run := n], runs)
  {
    if runs != [] {
      SumIgnores(batch, runs[1..], run, n);
    }
  }

  lemma {:induction false} SumOfMore(batch: map<int, nat>, runs: seq<int>, run: int)
    ensures SumOf(batch, runs + [run]) == SumOf(batch, runs) + BatchOf(batch, run, 0)
  {
    if runs == [] {
      assert [] + [run] == [run];
    } else {
      assert (runs + [run])[1..] == runs[1..] + [run];
      SumOfMore(batch, runs[1..], run);
    }
  }

  // ---- Many coroutines ------------------------------------------------------------------

  /** `atHead` counts the pumps about to take a turn; a run in `starting` has its process but
      its launcher, and the pump behind it, still await the store; a run in `finishing` has
      left the books but its watcher's own pump is still due. `arrivals`, `launched`,
      `dropped` and `done` are the history. */
  datatype World = World(
    core: Core, perf: Option<int>,
    atHead: nat, starting: set<int>, finishing: set<int>,
    arrivals: seq<int>, launched: seq<int>, dropped: set<int>, done: set<int>)

  datatype Event =
    | Start(run: int, req: string, size: nat)
    | PumpOnce
    | Launched(run: int)       // the store has the start; the watcher is created
    | Exit(run: int)           // the process is gone
    | Finished(run: int)       // the final state is stored; the watcher pumps
    | Cancel(run: int)
    | SetBudget(budget: nat)
    | PerfBegin(run: int)
    | PerfExit(run: int)

  /** Run ids come from the store and are never reused; a batch has at least one request. */
  predicate Enabled(w: World, e: Event) {
    match e
    case Start(run, _, size) => run !in w.arrivals && size >= 1
    case PumpOnce => w.atHead > 0
    case Launched(run) => run in w.starting
    case Exit(run) => run in w.core.procs && run !in w.starting
    case Finished(run) => run in w.finishing
    case Cancel(_) => true
    case SetBudget(b) => b >= 1
    case PerfBegin(_) => true
    case PerfExit(_) => true
  }

  function Next(w: World, e: Event): World
    requires Enabled(w, e)
  {
    match e
    case Start(run, req, size) =>
      w.(core := Enqueued(w.core, run, req, size), arrivals := w.arrivals + [run], atHead := w.atHead + 1)
    case PumpOnce =>
      var core := Pumped(w.core, w.perf.Some?);
      (match PumpTurn(w.core, w.perf.Some?)
       case Leave => w.(core := core, atHead := w.atHead - 1)
       case Launch(run) =>
         w.(core := core, atHead := w.atHead - 1, starting := w.starting + {run}, launched := w.launched + [run])
       case Skip(_) => w.(core := core))
    case Launched(run) => w.(starting := w.starting - {run}, atHead := w.atHead + 1)
    case Exit(run) => w.(core := Exited(w.core, run), finishing := w.finishing + {run})
    case Finished(run) => w.(finishing := w.finishing - {run}, done := w.done + {run}, atHead := w.atHead + 1)
    case Cancel(run) =>
      w.(core := Cancelled(w.core, run), dropped := if run in w.core.queued then w.dropped + {run} else w.dropped)
    case SetBudget(b) => w.(core := w.core.(budget := b), atHead := w.atHead + 1)
    case PerfBegin(run) => w.(perf := Some(run))
    case PerfExit(run) =>
      var perf := if w.perf == Some(run) then None else w.perf;
      w.(perf := perf, atHead := if perf.None? then w.atHead + 1 else w.atHead)
  }

  function Init(budget: nat): World {
    World(Core([], map[], map[], [], {}, budget), None, 0, {}, {}, [], [], {}, {})
  }

  predicate Admissible(w: World, es: seq<Event>)
    decreases es
  {
    es == [] || (Enabled(w, es[0]) && Admissible(Next(w, es[0]), es[1..]))
  }

  function Final(w: World, es: seq<Event>): World
    requires Admissible(w, es)
    decreases es
  {
    if es == [] then w else Final(Next(w, es[0]), es[1..])
  }

  // ---- Order and bookkeeping --------------------------------------------------------------

  /** Launched runs, then queued runs, are the arrivals in order, without those cancelled
      while they waited. */
  ghost predicate InOrder(w: World) {
    w.launched + w.core.queued == Without(w.arrivals, w.dropped)
  }

  ghost predicate Books(w: World) {
    && Distinct(w.arrivals) && Distinct(w.launched) && Distinct(w.core.queued) && Distinct(w.core.procs)
    && (forall r :: r in w.core.queued ==> r in w.arrivals && r !in w.launched && r !in w.dropped)
    && (forall r :: r in w.launched ==> r in w.arrivals && r !in w.dropped)
    && (forall r :: r in w.dropped ==> r in w.arrivals)
    && (forall r :: r in w.launched <==> r in w.core.procs || r in w.finishing || r in w.done)
    && (forall r :: r in w.core.procs ==> r !in w.finishing && r !in w.done)
    && (forall r :: r in w.finishing ==> r !in w.done)
    && (forall r :: r in w.starting ==> r in w.core.procs)
    && (forall r :: r in w.core.cancelled ==> r in w.core.procs)
    && (forall r :: r in w.core.pending <==> r in w.core.queued)
    && (forall r :: r in w.core.batch <==> r in w.core.queued || r in w.core.procs)
  }

  lemma InitHolds(budget: nat)
    ensures InOrder(Init(budget)) && Books(Init(budget)) && WithinBudget(Init(budget)) && Moving(Init(budget))
  {
  }

  lemma StartKeeps(w: World, run: int, req: string, size: nat)
    requires InOrder(w) && Books(w) && Enabled(w, Start(run, req, size))
    ensures InOrder(Next(w, Start(run, req, size))) && Books(Next(w, Start(run, req, size)))
  {
    WithoutSum(w.arrivals, [run], w.dropped);
    assert Without([run], w.dropped) == [run] by { assert [run][1..] == []; }
    assert w.launched + (w.core.queued + [run]) == (w.launched + w.core.queued) + [run];
  }

  lemma PumpKeeps(w: World)
    requires InOrder(w) && Books(w) && Enabled(w, PumpOnce)
    ensures InOrder(Next(w, PumpOnce)) && Books(Next(w, PumpOnce))
  {
    PumpNeverSkips(w);
    if PumpTurn(w.core, w.perf.Some?).Launch? {
      LaunchKeepsOrder(w);
      LaunchKeepsBooks(w);
    }
  }

  lemma LaunchKeepsOrder(w: World)
    requires InOrder(w) && Enabled(w, PumpOnce) && PumpTurn(w.core, w.perf.Some?).Launch?
    ensures InOrder(Next(w, PumpOnce))
  {
    var run := w.core.queued[0];
    assert w.launched + [run] + w.core.queued[1..] == w.launched + w.core.queued;
  }

  lemma LaunchKeepsBooks(w: World)
    requires Books(w) && Enabled(w, PumpOnce) && PumpTurn(w.core, w.perf.Some?).Launch?
    ensures Books(Next(w, PumpOnce))
  {
    var run := w.core.queued[0];
    assert w.core.queued == [run] + w.core.queued[1..];
    assert run in w.core.queued && run !in w.core.queued[1..];
  }

  lemma ExitKeeps(w: World, run: int)
    requires InOrder(w) && Books(w) && Enabled(w, Exit(run))
    ensures InOrder(Next(w, Exit(run))) && Books(Next(w, Exit(run)))
  {
    RemoveFirstHas(w.core.procs, run);
    assert run in w.launched;
  }

  lemma CancelKeeps(w: World, run: int)
    requires InOrder(w) && Books(w)
    ensures InOrder(Next(w, Cancel(run))) && Books(Next(w, Cancel(run)))
  {
    if run in w.core.queued {
      RemoveFirstIs(w.core.queued, run);
      RemoveFirstHas(w.core.queued, run);
      WithoutTwice(w.arrivals, w.dropped, {run});
      WithoutSum(w.launched, w.core.queued, {run});
      WithoutAbsent(w.launched, {run});
    }
  }

  lemma StepKeepsBooks(w: World, e: Event)
    requires InOrder(w) && Books(w) && Enabled(w, e)
    ensures InOrder(Next(w, e)) && Books(Next(w, e))
  {
    match e
    case Start(run, req, size) => StartKeeps(w, run, req, size);
    case PumpOnce => PumpKeeps(w);
    case Exit(run) => ExitKeeps(w, run);
    case Cancel(run) => CancelKeeps(w, run);
    case _ =>
  }

  // ---- The budget ------------------------------------------------------------------------------

  /** The running batches fit the budget, unless one oversized run has the machine to itself. */
  ghost predicate WithinBudget(w: World) {
    Used(w.core) <= w.core.budget || |w.core.procs| == 1
  }

  predicate Lowers(w: World, e: Event) {
    e.SetBudget? && e.budget < w.core.budget
  }

  lemma StepKeepsBudget(w: World, e: Event)
    requires Books(w) && WithinBudget(w) && Enabled(w, e) && !Lowers(w, e)
    ensures WithinBudget(Next(w, e))
  {
    var c := w.core;
    match e
    case Start(run, req, size) =>
      SumIgnores(c.batch, c.procs, run, size);
    case PumpOnce =>
      if PumpTurn(c, w.perf.Some?).Launch? {
        assert c.queued[0] in c.queued;
        SumOfMore(c.batch, c.procs, c.queued[0]);
      }
    case Exit(run) =>
      SumWithout(c.batch, c.procs, run);
      RemovedLength(c.procs, run);
    case Cancel(run) =>
      if run in c.queued { SumIgnores(c.batch, c.procs, run, 0); }
    case _ =>
  }

  lemma {:induction false} RemovedLength(s: seq<int>, x: int)
    requires x in s
    ensures |RemoveFirst(s, x)| == |s| - 1
  {
    if s[0] != x {
      RemovedLength(s[1..], x);
    }
  }

  // ---- No stall ----------------------------------------------------------------------------------

  /** Work that waits waits for something: a pump under way, a run that is running or being
      wound up, or a load test. */
  ghost predicate Moving(w: World) {
    w.core.queued != [] ==>
      w.atHead > 0 || w.starting != {} || w.core.procs != [] || w.finishing != {} || w.perf.Some?
  }

  lemma StepKeepsMoving(w: World, e: Event)
    requires Books(w) && Moving(w) && Enabled(w, e)
    ensures Moving(Next(w, e))
  {
    match e
    case Cancel(run) => assert run !in w.core.queued ==> Next(w, e).core.queued == w.core.queued;
    case PumpOnce => PumpNeverSkips(w);
    case _ =>
  }

  lemma PumpNeverSkips(w: World)
    requires Books(w)
    ensures !PumpTurn(w.core, w.perf.Some?).Skip?
  {
    if w.core.queued != [] {
      assert w.core.queued[0] in w.core.queued;
    }
  }

  /** Sharper: when nothing is under way, the head of the queue is one that does not fit. */
  ghost predicate HeadWaits(w: World) {
    w.core.queued != [] ==>
      w.atHead > 0 || w.starting != {} || w.finishing != {} || w.perf.Some? || Overflows(w.core)
  }

  predicate CancelsHead(w: World, e: Event) {
    e.Cancel? && w.core.queued != [] && w.core.queued[0] == e.run
  }

  /** Cancelling the head strands the next run: it fits, and nothing under way will look at it. */
  ghost predicate Strands(w: World, e: Event) {
    && CancelsHead(w, e)
    && w.atHead == 0 && w.starting == {} && w.finishing == {} && w.perf.None?
    && |w.core.queued| > 1 && !Overflows(w.core.(queued := w.core.queued[1..]))
  }

  lemma OtherStepsKeepHeadWaits(w: World, e: Event)
    requires Books(w) && HeadWaits(w) && Enabled(w, e) && !CancelsHead(w, e)
    ensures HeadWaits(Next(w, e))
  {
    match e
    case Cancel(run) =>
      if run in w.core.queued {
        var c := w.core;
        assert RemoveFirst(c.queued, run)[0] == c.queued[0];
        SumIgnores(c.batch, c.procs, run, 0);
      }
    case PumpOnce => PumpNeverSkips(w);
    case _ =>
  }

  /** A step leaves a run that fits waiting, with nothing under way, if and only if it cancels
      the head of the queue, the next run fits, and nothing is under way by then. */
  lemma StepKeepsHeadWaitsExactly(w: World, e: Event)
    requires Books(w) && HeadWaits(w) && Enabled(w, e)
    ensures HeadWaits(Next(w, e)) <==> !Strands(w, e)
  {
    if CancelsHead(w, e) {
      var c := w.core;
      assert c.queued[0] in c.queued;
      var d := Next(w, e).core;
      assert d.queued == c.queued[1..] && d.procs == c.procs;
      if |c.queued| > 1 {
        assert c.queued[1] in c.queued && c.queued[0] != c.queued[1] == d.queued[0];
        SumIgnores(c.batch, c.procs, e.run, 0);
        assert Fits(d, d.queued[0]) == Fits(c, c.queued[1]);
      }
    } else {
      OtherStepsKeepHeadWaits(w, e);
    }
  }

  ghost predicate NeverStrands(w: World, es: seq<Event>)
    requires Admissible(w, es)
    decreases es
  {
    es == [] || (!Strands(w, es[0]) && NeverStrands(Next(w, es[0]), es[1..]))
  }

  /** After every event of the run the head waits for something. */
  ghost predicate HeadWaitsThroughout(w: World, es: seq<Event>)
    requires Admissible(w, es)
    decreases es
  {
    HeadWaits(w) && (es == [] || HeadWaitsThroughout(Next(w, es[0]), es[1..]))
  }

  lemma {:induction false} HeadWaitsAlong(w: World, es: seq<Event>)
    requires InOrder(w) && Books(w) && HeadWaits(w) && Admissible(w, es)
    ensures HeadWaitsThroughout(w, es) <==> NeverStrands(w, es)
    ensures NeverStrands(w, es) ==> HeadWaits(Final(w, es))
    decreases es
  {
    if es != [] {
      StepKeepsBooks(w, es[0]);
      StepKeepsHeadWaitsExactly(w, es[0]);
      if HeadWaits(Next(w, es[0])) {
        HeadWaitsAlong(Next(w, es[0]), es[1..]);
      }
    }
  }

  // ---- A stranded run ------------------------------------------------------------------------

  ghost predicate Reaches(budget: nat, es: seq<Event>, w: World) {
    Admissible(Init(budget), es) && Final(Init(budget), es) == w
  }

  lemma {:induction false} Extends(v: World, es: seq<Event>, e: Event)
    requires Admissible(v, es) && Enabled(Final(v, es), e)
    ensures Admissible(v, es + [e]) && Final(v, es + [e]) == Next(Final(v, es), e)
    decreases es
  {
    if es == [] {
      assert [e][1..] == [] && es + [e] == [e];
      assert Admissible(Next(v, e), []) && Final(Next(v, e), []) == Next(v, e);
    } else {
      assert (es + [e])[0] == es[0] && (es + [e])[1..] == es[1..] + [e];
      Extends(Next(v, es[0]), es[1..], e);
    }
  }

  /** A world in which a run with a process waits for nothing, and others wait behind it. */
  function OneRunning(budget: nat, run: int, waiting: seq<int>, pending: map<int, string>,
                      batch: map<int, nat>): World {
    World(Core(waiting, pending, batch, [run], {}, budget), None, 0, {}, {}, [run] + waiting, [run], {}, {})
  }

  lemma OneStarts(budget: nat, run: int, size: nat) returns (es: seq<Event>)
    requires size >= 1
    ensures Reaches(budget, es, OneRunning(budget, run, [], map[], map[run := size]))
  {
    var w0 := Init(budget);
    var w1 := Next(w0, Start(run, "", size));
    assert w1.core.queued == [run] && PumpTurn(w1.core, false) == Launch(run);
    var w2 := Next(w1, PumpOnce);
    assert w2.core == Core([], map[], map[run := size], [run], {}, budget);
    var w3 := Next(w2, Launched(run));
    assert PumpTurn(w3.core, false).Leave?;
    assert Next(w3, PumpOnce) == OneRunning(budget, run, [], map[], map[run := size]);
    Extends(w0, [], Start(run, "", size));
    Extends(w0, [] + [Start(run, "", size)], PumpOnce);
    Extends(w0, [] + [Start(run, "", size)] + [PumpOnce], Launched(run));
    Extends(w0, [] + [Start(run, "", size)] + [PumpOnce] + [Launched(run)], PumpOnce);
    es := [] + [Start(run, "", size)] + [PumpOnce] + [Launched(run)] + [PumpOnce];
  }

  /** A run arrives behind one that does not fit, or does not fit itself, and waits. */
  lemma AnotherWaits(budget: nat, es: seq<Event>, w: World, run: int, size: nat) returns (more: seq<Event>)
    requires Reaches(budget, es, w) && w.atHead == 0 && w.perf.None?
    requires size >= 1 && run !in w.arrivals && run !in w.core.procs && w.core.procs != []
    requires if w.core.queued == [] then Used(w.core) + size > w.core.budget
             else w.core.queued[0] != run && w.core.queued[0] in w.core.batch && !Fits(w.core, w.core.queued[0])
    ensures Reaches(budget, more, w.(core := Enqueued(w.core, run, "", size), arrivals := w.arrivals + [run]))
  {
    var e := Start(run, "", size);
    var v := Next(w, e);
    SumIgnores(w.core.batch, w.core.procs, run, size);
    assert PumpTurn(v.core, false).Leave?;
    Extends(Init(budget), es, e);
    Extends(Init(budget), es + [e], PumpOnce);
    more := es + [e] + [PumpOnce];
  }

  lemma UsedByOne(c: Core, run: int)
    requires c.procs == [run] && run in c.batch
    ensures Used(c) == c.batch[run]
  {
    assert [run][1..] == [] && SumOf(c.batch, []) == 0;
  }

  /** For every budget and any three runs of which the second does not fit beside the first and
      the third does: nine events after which the third waits and nothing is under way. The
      second, which kept it waiting, was cancelled, and cancelling does not pump. */
  lemma CancellingTheHeadMayStrand(budget: nat, first: int, second: int, third: int, a: nat, b: nat, c: nat)
    requires first != second && second != third && first != third
    requires a >= 1 && b >= 1 && c >= 1 && a + c <= budget < a + b
    ensures exists es :: Admissible(Init(budget), es) && !HeadWaits(Final(Init(budget), es))
  {
    var es := OneStarts(budget, first, a);
    var w1 := OneRunning(budget, first, [], map[], map[first := a]);
    UsedByOne(w1.core, first);
    es := AnotherWaits(budget, es, w1, second, b);
    var w2 := OneRunning(budget, first, [second], map[second := ""], map[first := a, second := b]);
    assert w2 == w1.(core := Enqueued(w1.core, second, "", b), arrivals := w1.arrivals + [second]);
    UsedByOne(w2.core, first);
    es := AnotherWaits(budget, es, w2, third, c);
    var w3 := w2.(core := Enqueued(w2.core, third, "", c), arrivals := w2.arrivals + [third]);
    assert w3.core.queued == [second, third];
    UsedByOne(w3.core, first);
    assert Fits(w3.core, third) && w3.core.procs == [first];
    StrandedAfter(w3, second, third);
    Extends(Init(budget), es, Cancel(second));
    assert !HeadWaits(Final(Init(budget), es + [Cancel(second)]));
  }

  lemma StrandedAfter(w: World, second: int, third: int)
    requires w.core.queued == [second, third] && second != third && second !in w.core.procs
    requires w.atHead == 0 && w.starting == {} && w.finishing == {} && w.perf.None? && Fits(w.core, third)
    ensures !HeadWaits(Next(w, Cancel(second)))
  {
    SumIgnores(w.core.batch, w.core.procs, second, 0);
    assert Next(w, Cancel(second)).core.queued == [third];
  }

  // ---- Whole runs -----------------------------------------------------------------------------------

  predicate NeverLowers(w: World, es: seq<Event>)
    requires Admissible(w, es)
    decreases es
  {
    es == [] || (!Lowers(w, es[0]) && NeverLowers(Next(w, es[0]), es[1..]))
  }

  lemma {:induction false} RunKeeps(w: World, es: seq<Event>)
    requires Admissible(w, es) && InOrder(w) && Books(w) && Moving(w)
    ensures var v := Final(w, es); InOrder(v) && Books(v) && Moving(v)
    ensures WithinBudget(w) && NeverLowers(w, es) ==> WithinBudget(Final(w, es))
    decreases es
  {
    if es != [] {
      StepKeepsBooks(w, es[0]);
      StepKeepsMoving(w, es[0]);
      if WithinBudget(w) && !Lowers(w, es[0]) {
        StepKeepsBudget(w, es[0]);
      }
      RunKeeps(Next(w, es[0]), es[1..]);
    }
  }

  /** In every run from an empty manager: FIFO order, disjoint and complete books, no stall;
      the budget holds as long as nobody lowers it; and whenever nothing is under way the head
      of the queue is one that does not fit, throughout the run if and only if no cancellation
      strands the run behind it. */
  lemma QueueInvariant(budget: nat, es: seq<Event>)
    requires Admissible(Init(budget), es)
    ensures var v := Final(Init(budget), es); InOrder(v) && Books(v) && Moving(v)
    ensures NeverLowers(Init(budget), es) ==> WithinBudget(Final(Init(budget), es))
    ensures HeadWaitsThroughout(Init(budget), es) <==> NeverStrands(Init(budget), es)
    ensures NeverStrands(Init(budget), es) ==> HeadWaits(Final(Init(budget), es))
  {
    InitHolds(budget);
    RunKeeps(Init(budget), es);
    HeadWaitsAlong(Init(budget), es);
  }

  /** A turn leaves a queue alone if and only if it is empty, a load test is on, or the head
      overflows the budget beside what runs; otherwise the head goes. */
  lemma TurnLeavesExactly(c: Core, perfBusy: bool)
    ensures PumpTurn(c, perfBusy).Leave? <==> c.queued == [] || perfBusy || Overflows(c)
    ensures !PumpTurn(c, perfBusy).Leave? ==> PumpTurn(c, perfBusy).run == c.queued[0]
    ensures PumpTurn(c, perfBusy).Launch? ==>
              c.queued[0] in c.pending && Pumped(c, perfBusy).procs == c.procs + [c.queued[0]]
  {
  }

  /** A run is launched from the head of the queue, never while a load test is on, and only
      if nothing runs or it fits beside what runs. */
  lemma LaunchRule(w: World, e: Event)
    requires Books(w) && Enabled(w, e) && Next(w, e).launched != w.launched
    ensures w.perf.None? && w.core.queued != []
    ensures var run := w.core.queued[0];
            && Next(w, e).launched == w.launched + [run]
            && (w.core.procs == [] || SumOf(w.core.batch, w.core.procs + [run]) <= w.core.budget)
  {
    assert w.core.queued[0] in w.core.queued;
    SumOfMore(w.core.batch, w.core.procs, w.core.queued[0]);
  }

  lemma LaunchShape(c: Core, perfBusy: bool)
    requires Distinct(c.queued) && (forall r :: r in c.queued ==> r in c.pending) && !PumpTurn(c, perfBusy).Leave?
    ensures var d := Pumped(c, perfBusy);
            && d.queued == c.queued[1..] && d.procs == c.procs + [c.queued[0]] && d.batch == c.batch
            && Distinct(d.queued) && forall r :: r in d.queued ==> r in d.pending
  {
    assert c.queued == [c.queued[0]] + c.queued[1..];
    assert c.queued[0] in c.queued;
  }

  /** An uninterrupted pump launches a prefix of the queue and then has to stop. */
  lemma {:induction false} PumpLaunchesPrefix(c: Core, perfBusy: bool) returns (n: nat)
    requires Distinct(c.queued) && forall r :: r in c.queued ==> r in c.pending
    ensures n <= |c.queued|
    ensures var d := PumpAll(c, perfBusy);
            && d.queued == c.queued[n..] && d.procs == c.procs + c.queued[..n]
            && d.batch == c.batch && (d.queued == [] || perfBusy || Overflows(d))
    decreases |c.queued|
  {
    if PumpTurn(c, perfBusy).Leave? {
      n := 0;
    } else {
      LaunchShape(c, perfBusy);
      n := PumpLaunchesPrefix(Pumped(c, perfBusy), perfBusy);
      n := n + 1;
      assert c.queued[..n] == [c.queued[0]] + c.queued[1..][..n - 1];
      assert c.queued[1..][n - 1..] == c.queued[n..];
    }
  }
}
