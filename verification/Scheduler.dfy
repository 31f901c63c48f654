/**
 The round-robin scheduler: the process pool, the ready queue threaded through
 `queue_next`, and the traps that move a process between the two (timer tick,
 yield, exit, fork).  `switch_to` is read as "`current` now runs".

 The class at the end is the pointer-level code.  Each of its methods is proved
 equal to a step of the queue-level machine, and the theorems about whole runs are
 proved of that machine.
 */
module Scheduler {
  const NPROC: nat := 32
  const TIME_SLICE_LEN: nat := 2
  const NULL: int := -1

  datatype Status = Free | Ready | Running | Blocked | Zombie

  // ---------------------------------------------------------------------
  // The queue-level machine
  // ---------------------------------------------------------------------

  datatype View = View(status: seq<Status>, ticks: seq<nat>, queue: seq<nat>, current: nat)

  datatype Event = Tick | Yield | Exit | Fork

  datatype Halt = ShutDown | UnfinishedProcesses | NotReady | NoFreeProcess

  datatype Machine = Up(view: View) | Down(why: Halt)

  predicate WellSized(v: View) {
    && |v.status| == |v.ticks| == NPROC
    && v.current < NPROC
    && forall i :: 0 <= i < |v.queue| ==> v.queue[i] < NPROC
  }

  function Insert(v: View, p: nat): (r: View)
    requires WellSized(v) && p < NPROC
    ensures WellSized(r)
  {
    if p in v.queue then v
    else v.(status := v.status[p := Ready], queue := v.queue + [p])
  }

  predicate AllFinished(status: seq<Status>) {
    forall i :: 0 <= i < |status| ==> status[i].Free? || status[i].Zombie?
  }

  function Dispatch(v: View): (m: Machine)
    requires WellSized(v)
    ensures m.Up? ==> WellSized(m.view)
  {
    if v.queue == [] then
      Down(if AllFinished(v.status) then ShutDown else UnfinishedProcesses)
    else if !v.status[v.queue[0]].Ready? then
      Down(NotReady)
    else
      Up(v.(current := v.queue[0], queue := v.queue[1..], status := v.status[v.queue[0] := Running]))
  }

  function FirstFree(status: seq<Status>): (i: nat)
    ensures i <= |status|
    ensures i < |status| ==> status[i].Free?
    ensures forall j :: 0 <= j < i ==> !status[j].Free?
  {
    if status == [] || status[0].Free? then 0
    else
      var k := FirstFree(status[1..]);
      assert forall j :: 0 < j < k + 1 ==> status[j] == status[1..][j - 1];
      k + 1
  }

  // `current` gives up the processor but stays runnable.
  function Requeue(v: View): (r: View)
    requires WellSized(v)
    ensures WellSized(r)
  {
    Insert(v.(status := v.status[v.current := Ready]), v.current)
  }

  function Step(v: View, e: Event): (m: Machine)
    requires WellSized(v)
    ensures m.Up? ==> WellSized(m.view)
  {
    match e
    case Tick =>
      if v.ticks[v.current] + 1 >= TIME_SLICE_LEN then
        Dispatch(Requeue(v.(ticks := v.ticks[v.current := 0])))
      else
        Up(v.(ticks := v.ticks[v.current := v.ticks[v.current] + 1]))
    case Yield => Dispatch(Requeue(v))
    case Exit => Dispatch(v.(status := v.status[v.current := Zombie]))
    case Fork =>
      var child := FirstFree(v.status);
      if child == NPROC then Down(NoFreeProcess)
      else Up(Insert(v.(status := v.status[child := Ready]), child))
  }

  function Steps(m: Machine, es: seq<Event>): (r: Machine)
    requires m.Up? ==> WellSized(m.view)
    ensures r.Up? ==> WellSized(r.view)
    decreases es
  {
    if es == [] || m.Down? then m else Steps(Step(m.view, es[0]), es[1..])
  }

  // The pool after init_proc_pool, and the machine after the first program has
  // been inserted and dispatched.
  function EmptyPool(): (v: View)
    ensures WellSized(v)
  {
    View(seq(NPROC, i => Free), seq(NPROC, i => 0), [], 0)
  }

  function Boot(): (m: Machine)
    ensures m.Up? ==> WellSized(m.view)
  {
    Dispatch(Insert(EmptyPool(), FirstFree(EmptyPool().status)))
  }

  // ---------------------------------------------------------------------
  // What every state at return to user mode satisfies
  // ---------------------------------------------------------------------

  predicate Distinct(q: seq<nat>) {
    forall i, j :: 0 <= i < j < |q| ==> q[i] != q[j]
  }

  predicate Inv(v: View) {
    && WellSized(v)
    // exactly one process runs, and it is `current`
    && v.status[v.current].Running?
    && (forall i :: 0 <= i < NPROC && v.status[i].Running? ==> i == v.current)
    // the queue holds each ready process exactly once and nothing else
    && Distinct(v.queue)
    && (forall i :: 0 <= i < NPROC ==> (i in v.queue <==> v.status[i].Ready?))
    && (forall i :: 0 <= i < NPROC ==> !v.status[i].Blocked?)
    && (forall i :: 0 <= i < NPROC ==> v.ticks[i] < TIME_SLICE_LEN)
  }

  predicate Safe(m: Machine) {
    match m
    case Up(v) => Inv(v)
    case Down(why) => why == ShutDown || why == NoFreeProcess
  }

  // The state between "nobody runs any more" and the dispatch of the next process.
  predicate Idle(v: View) {
    && WellSized(v)
    && (forall i :: 0 <= i < NPROC ==> !v.status[i].Running? && !v.status[i].Blocked?)
    && Distinct(v.queue)
    && (forall i :: 0 <= i < NPROC ==> (i in v.queue <==> v.status[i].Ready?))
    && (forall i :: 0 <= i < NPROC ==> v.ticks[i] < TIME_SLICE_LEN)
  }

  lemma DispatchSafe(v: View)
    requires Idle(v)
    ensures Safe(Dispatch(v))
    ensures Dispatch(v) == Down(ShutDown) <==> v.queue == []
  {
    if v.queue == [] {
      forall i | 0 <= i < |v.status| ensures v.status[i].Free? || v.status[i].Zombie? {
        assert !(i in v.queue);
      }
    } else {
      var q := v.queue;
      assert q[0] in q;
      forall i | 0 <= i < NPROC ensures i in q[1..] <==> i in q && i != q[0] {
        if i in q && i != q[0] {
          var k :| 0 <= k < |q| && q[k] == i;
          assert q[1..][k - 1] == i;
        }
      }
    }
  }

  lemma InsertKeepsQueue(v: View, p: nat)
    requires WellSized(v) && p < NPROC && p !in v.queue && Distinct(v.queue)
    ensures Distinct(Insert(v, p).queue)
    ensures forall i :: i in Insert(v, p).queue <==> i in v.queue || i == p
  {
    var q := v.queue + [p];
    assert q[|v.queue|] == p;
  }

  lemma RequeueIdle(v: View)
    requires Inv(v)
    ensures Idle(Requeue(v))
    ensures Requeue(v).queue == v.queue + [v.current]
    ensures Requeue(v).ticks == v.ticks
  {
    InsertKeepsQueue(v.(status := v.status[v.current := Ready]), v.current);
  }

  lemma StepSafe(v: View, e: Event)
    requires Inv(v)
    ensures Safe(Step(v, e))
  {
    match e
    case Tick =>
      if v.ticks[v.current] + 1 >= TIME_SLICE_LEN {
        var w := v.(ticks := v.ticks[v.current := 0]);
        RequeueIdle(w);
        DispatchSafe(Requeue(w));
      }
    case Yield =>
      RequeueIdle(v);
      DispatchSafe(Requeue(v));
    case Exit =>
      DispatchSafe(v.(status := v.status[v.current := Zombie]));
    case Fork =>
      var child := FirstFree(v.status);
      if child < NPROC {
        InsertKeepsQueue(v.(status := v.status[child := Ready]), child);
      }
  }

  /** Safety over whole runs: neither the READY assertion nor the "unfinished
      processes" panic is reachable from any state that satisfies the invariant. */
  lemma {:induction false} RunSafe(m: Machine, es: seq<Event>)
    requires Safe(m)
    ensures Safe(Steps(m, es))
    decreases es
  {
    if es != [] && m.Up? {
      StepSafe(m.view, es[0]);
      RunSafe(Step(m.view, es[0]), es[1..]);
    }
  }

  lemma BootSafe(es: seq<Event>)
    ensures Boot() == Up(View(seq(NPROC, i => if i == 0 then Running else Free), seq(NPROC, i => 0), [], 0))
    ensures Safe(Steps(Boot(), es))
  {
    var v := Insert(EmptyPool(), FirstFree(EmptyPool().status));
    InsertKeepsQueue(EmptyPool(), FirstFree(EmptyPool().status));
    DispatchSafe(v);
    RunSafe(Boot(), es);
  }

  /** The machine is switched off exactly when the last unfinished process exits. */
  lemma ShutDownExactlyWhenDone(v: View, e: Event)
    requires Inv(v)
    ensures Step(v, e) == Down(ShutDown) <==>
            e == Exit && AllFinished(v.status[v.current := Zombie])
  {
    match e
    case Tick =>
      if v.ticks[v.current] + 1 >= TIME_SLICE_LEN {
        var w := v.(ticks := v.ticks[v.current := 0]);
        RequeueIdle(w);
        DispatchSafe(Requeue(w));
      }
    case Yield =>
      RequeueIdle(v);
      DispatchSafe(Requeue(v));
    case Exit =>
      var w := v.(status := v.status[v.current := Zombie]);
      DispatchSafe(w);
      if w.queue != [] {
        assert w.queue[0] in w.queue;
        assert w.status[w.queue[0]].Ready?;
      }
    case Fork =>
  }

  // ---------------------------------------------------------------------
  // Who runs after each step
  // ---------------------------------------------------------------------

  // The running process waits behind all others and the first of them runs.
  predicate GoesRound(v: View, w: View)
    requires WellSized(v)
  {
    && w.ticks == v.ticks
    && (v.queue == [] ==> w == v)
    && (v.queue != [] ==>
          && w.current == v.queue[0] && w.queue == v.queue[1..] + [v.current]
          && w.status == v.status[v.current := Ready][v.queue[0] := Running])
  }

  lemma RequeueGoesRound(v: View)
    requires Inv(v)
    ensures var m := Dispatch(Requeue(v)); m.Up? && GoesRound(v, m.view)
  {
    RequeueIdle(v);
    var r := Requeue(v);
    assert r.queue[0] in r.queue;
    if v.queue != [] { assert v.queue[0] in v.queue; }
  }

  /** A yield gives the processor to the first in the queue, and the one that yields goes to the
      end; when nobody waits it runs on. */
  lemma YieldGivesWay(v: View)
    requires Inv(v)
    ensures var m := Step(v, Yield); m.Up? && GoesRound(v, m.view)
  {
    RequeueGoesRound(v);
  }

  /** A tick is counted; the one that ends the slice does what a yield does, with the count
      back at 0. */
  lemma TickGivesWay(v: View)
    requires Inv(v)
    ensures var m, t := Step(v, Tick), v.ticks[v.current] + 1;
            && m.Up?
            && (t < 2 ==> m.view == v.(ticks := v.ticks[v.current := t]))
            && (t == 2 ==> GoesRound(v.(ticks := v.ticks[v.current := 0]), m.view))
            && t <= 2
  {
    if v.ticks[v.current] + 1 == 2 { RequeueGoesRound(v.(ticks := v.ticks[v.current := 0])); }
  }

  /** An exit makes a zombie of the running process, and the first in the queue runs. */
  lemma ExitLeaves(v: View)
    requires Inv(v)
    ensures var m, q := Step(v, Exit), v.queue;
            && (q == [] ==> m == Down(ShutDown))
            && (q != [] ==>
                  && m.Up? && m.view.current == q[0] && m.view.queue == q[1..] && m.view.ticks == v.ticks
                  && m.view.status == v.status[v.current := Zombie][q[0] := Running])
  {
    DispatchSafe(v.(status := v.status[v.current := Zombie]));
    if v.queue != [] { assert v.queue[0] in v.queue; }
  }

  /** A fork makes the first free slot ready, at the end of the queue, and changes no other;
      without a free slot it panics. */
  lemma ForkAdds(v: View)
    requires Inv(v)
    ensures (forall i :: 0 <= i < NPROC ==> !v.status[i].Free?) ==> Step(v, Fork) == Down(NoFreeProcess)
    ensures forall c: nat {:trigger v.status[c]} ::
              c < NPROC && v.status[c].Free? && (forall i :: 0 <= i < c ==> !v.status[i].Free?) ==>
              Step(v, Fork) == Up(v.(status := v.status[c := Ready], queue := v.queue + [c]))
  {
    var child := FirstFree(v.status);
    forall c: nat | c < NPROC && v.status[c].Free? && (forall i :: 0 <= i < c ==> !v.status[i].Free?)
      ensures Step(v, Fork) == Up(v.(status := v.status[c := Ready], queue := v.queue + [c]))
    {
      assert child == c;
      assert c !in v.queue;
      var w := v.(status := v.status[c := Ready]);
      assert w.status[c := Ready] == w.status;
    }
  }

  // The running process and those that wait, in the order in which they run.
  function Ring(v: View): seq<nat> { [v.current] + v.queue }

  function Yields(n: nat): seq<Event> { seq(n, _ => Yield) }

  // After n yields, for n up to the number of processes in the ring.
  predicate Turned(v: View, w: View, n: nat)
    requires WellSized(v) && n <= |Ring(v)|
  {
    && Ring(w) == Ring(v)[n..] + Ring(v)[..n] && w.ticks == v.ticks
    && w.current < NPROC && w.status == v.status[v.current := Ready][w.current := Running]
  }

  /** Round robin: with nothing but yields every process of the ring runs in turn, and then
      everything is as before. */
  lemma {:induction false} YieldsGoRound(v: View, n: nat)
    requires Inv(v) && n <= |Ring(v)|
    ensures var m := Steps(Up(v), Yields(n));
            && m.Up? && Inv(m.view) && Turned(v, m.view, n)
            && m.view.current == Ring(v)[if n == |Ring(v)| then 0 else n]
            && (n == |Ring(v)| ==> m.view == v)
  {
    var r := Ring(v);
    if n == 0 {
      assert r[0..] + r[..0] == r;
      assert v.status[v.current := Ready][v.current := Running] == v.status;
    } else {
      YieldsGoRound(v, n - 1);
      var m := Steps(Up(v), Yields(n - 1));
      LastStep(Up(v), Yields(n - 1), Yield);
      assert Yields(n - 1) + [Yield] == Yields(n);
      StepSafe(m.view, Yield);
      YieldGivesWay(m.view);
      TurnOnce(v, m.view, Step(m.view, Yield).view, n);
    }
  }

  lemma TurnOnce(v: View, w: View, x: View, n: nat)
    requires Inv(v) && Inv(w) && 0 < n <= |Ring(v)| && Turned(v, w, n - 1) && GoesRound(w, x)
    ensures Turned(v, x, n) && x.current == Ring(v)[if n == |Ring(v)| then 0 else n] && (n == |Ring(v)| ==> x == v)
  {
    Sized(v);
    Sized(w);
    hide Inv, Ring;
    RingTurns(v, w, x, n);
    WaitsReady(v, w.current, n - 1);
    if w.queue != [] { StatusTurns(v.status[v.current := Ready], w.current, x.current); }
    if n == |Ring(v)| {
      assert Ring(v)[n..] + Ring(v)[..n] == Ring(v);
      OneRing(v, x);
    }
  }

  lemma RingTurns(v: View, w: View, x: View, n: nat)
    requires WellSized(w) && 0 < n <= |Ring(v)| && Ring(w) == Ring(v)[n - 1..] + Ring(v)[..n - 1] && GoesRound(w, x)
    ensures Ring(x) == Ring(v)[n..] + Ring(v)[..n] && x.current == Ring(v)[if n == |Ring(v)| then 0 else n]
    ensures w.current == Ring(v)[n - 1] && (w.queue == [] ==> |Ring(v)| == 1)
  {
    var r := Ring(v);
    Rotate(r, n);
    assert Ring(w)[0] == w.current && Ring(w)[1..] == w.queue;
    if w.queue == [] {
      assert |Ring(w)| == 1 && r[n..] + r[..n] == r;
    } else {
      assert Ring(x) == Ring(w)[1..] + [Ring(w)[0]];
    }
    assert x.current == Ring(x)[0];
  }

  lemma Rotate(r: seq<nat>, n: nat)
    requires 0 < n <= |r|
    ensures var s, t := r[n - 1..] + r[..n - 1], r[n..] + r[..n];
            s[1..] + [s[0]] == t && s[0] == r[n - 1] && t[0] == r[if n == |r| then 0 else n]
  {
    var a, b, c := r[n..], r[..n - 1], r[n - 1];
    assert r[n - 1..] == [c] + a && r[..n] == b + [c];
    assert ([c] + a + b)[1..] == a + b;
    assert a + b + [c] == a + (b + [c]);
  }

  lemma Sized(v: View)
    requires Inv(v)
    ensures WellSized(v)
  {
  }

  // Whoever is in the ring is ready once the running process is.
  lemma WaitsReady(v: View, p: nat, k: nat)
    requires Inv(v) && k < |Ring(v)| && Ring(v)[k] == p
    ensures p < NPROC && v.status[v.current := Ready][p] == Ready
  {
    if k > 0 { assert v.queue[k - 1] == p && p in v.queue; }
  }

  lemma StatusTurns(st: seq<Status>, a: nat, b: nat)
    requires a < |st| && b < |st| && st[a] == Ready
    ensures st[a := Running][a := Ready][b := Running] == st[b := Running]
  {
  }

  lemma OneRing(v: View, x: View)
    requires Inv(v) && Ring(x) == Ring(v) && x.ticks == v.ticks && x.current < NPROC
    requires x.status == v.status[v.current := Ready][x.current := Running]
    ensures x == v
  {
    assert x.current == Ring(x)[0] && v.current == Ring(v)[0] && x.queue == Ring(x)[1..] && v.queue == Ring(v)[1..];
    assert v.status[v.current := Ready][v.current := Running] == v.status;
  }

  lemma {:induction false} LastStep(m: Machine, es: seq<Event>, e: Event)
    requires m.Up? ==> WellSized(m.view)
    ensures var n := Steps(m, es); Steps(m, es + [e]) == if n.Up? then Step(n.view, e) else n
    decreases es
  {
    if es == [] {
      assert ([] + [e])[1..] == [];
    } else if m.Up? {
      assert (es + [e])[1..] == es[1..] + [e];
      LastStep(Step(m.view, es[0]), es[1..], e);
    }
  }

  // ---------------------------------------------------------------------
  // Bounded waiting
  // ---------------------------------------------------------------------

  function TickCount(es: seq<Event>): nat {
    if es == [] then 0 else (if es[0] == Tick then 1 else 0) + TickCount(es[1..])
  }

  // Some prefix of the run ends with p on the processor, or with a fork that found no free slot.
  ghost predicate GetsProcessor(v: View, es: seq<Event>, p: nat)
    requires WellSized(v)
  {
    exists n :: 0 <= n <= |es| && Reached(Steps(Up(v), es[..n]), p)
  }

  predicate Reached(m: Machine, p: nat) {
    m == Down(NoFreeProcess) || (m.Up? && m.view.current == p)
  }

  // One step either puts p on the processor, or leaves it waiting with a smaller bound.
  lemma StepBrings(v: View, e: Event, k: nat)
    requires Inv(v) && k < |v.queue|
    ensures var m := Step(v, e); var p := v.queue[k];
            Reached(m, p) || (k < |m.view.queue| && m.view.queue[k] == p &&
                              m.view.current == v.current &&
                              m.view.ticks[v.current] == v.ticks[v.current] + (if e == Tick then 1 else 0))
                          || (0 < k <= |m.view.queue| && m.view.queue[k - 1] == p)
    ensures e == Tick && v.ticks[v.current] + 1 >= TIME_SLICE_LEN ==>
            var m := Step(v, e); Reached(m, v.queue[k]) ||
                                 (0 < k <= |m.view.queue| && m.view.queue[k - 1] == v.queue[k])
  {
    assert v.queue[k] in v.queue && v.queue[k] != v.current;
    match e
    case Tick =>
      if v.ticks[v.current] + 1 >= TIME_SLICE_LEN {
        RequeueIdle(v.(ticks := v.ticks[v.current := 0]));
      }
    case Yield => RequeueIdle(v);
    case Exit =>
    case Fork =>
  }

  lemma {:induction false} WaitBound(v: View, es: seq<Event>, k: nat)
    requires Inv(v) && k < |v.queue|
    requires TickCount(es) >= TIME_SLICE_LEN * k + (TIME_SLICE_LEN - v.ticks[v.current])
    ensures GetsProcessor(v, es, v.queue[k])
    decreases es
  {
    var p := v.queue[k];
    var m := Step(v, es[0]);
    FirstStep(v, es, 0);
    if !Reached(m, p) {
      StepBrings(v, es[0], k);
      StepSafe(v, es[0]);
      if k < |m.view.queue| && m.view.queue[k] == p && m.view.current == v.current
         && m.view.ticks[v.current] == v.ticks[v.current] + (if es[0] == Tick then 1 else 0) {
        WaitBound(m.view, es[1..], k);
      } else {
        WaitBound(m.view, es[1..], k - 1);
      }
      var n :| 0 <= n <= |es[1..]| && Reached(Steps(Up(m.view), es[1..][..n]), p);
      FirstStep(v, es, n);
    }
  }

  lemma FirstStep(v: View, es: seq<Event>, n: nat)
    requires Inv(v) && n < |es|
    ensures Steps(Up(v), es[..n + 1]) == Steps(Step(v, es[0]), es[1..][..n])
  {
    assert es[..n + 1][1..] == es[1..][..n];
  }

  /** Bounded waiting: the process at queue position k runs after at most
      TIME_SLICE_LEN * (k + 1) timer ticks, whatever else happens in between. */
  lemma BoundedWait(v: View, es: seq<Event>, k: nat)
    requires Inv(v) && k < |v.queue|
    requires TickCount(es) >= TIME_SLICE_LEN * (k + 1)
    ensures GetsProcessor(v, es, v.queue[k])
  {
    WaitBound(v, es, k);
  }

  // ---------------------------------------------------------------------
  // The pointer-level code
  // ---------------------------------------------------------------------

  datatype Verdict = GoOn | Stop(why: Halt)

  datatype Process = Process(status: Status, queueNext: int, tickCount: nat)

  function Statuses(ps: seq<Process>): (r: seq<Status>)
    ensures |r| == |ps|
    ensures forall i :: 0 <= i < |ps| ==> r[i] == ps[i].status
  {
    seq(|ps|, i requires 0 <= i < |ps| => ps[i].status)
  }

  function TickCounts(ps: seq<Process>): (r: seq<nat>)
    ensures |r| == |ps|
    ensures forall i :: 0 <= i < |ps| ==> r[i] == ps[i].tickCount
  {
    seq(|ps|, i requires 0 <= i < |ps| => ps[i].tickCount)
  }

  lemma UpdateProcess(ps: seq<Process>, i: nat, p: Process)
    requires i < |ps|
    ensures Statuses(ps[i := p]) == Statuses(ps)[i := p.status]
    ensures TickCounts(ps[i := p]) == TickCounts(ps)[i := p.tickCount]
    ensures Statuses(ps)[i := ps[i].status] == Statuses(ps)
    ensures TickCounts(ps)[i := ps[i].tickCount] == TickCounts(ps)
  {
  }

  // Following queue_next from head visits exactly q, in order, and ends in NULL.
  predicate Chain(procs: seq<Process>, head: int, q: seq<nat>) {
    && (q == [] <==> head == NULL)
    && (q != [] ==> head == q[0])
    && (forall i :: 0 <= i < |q| ==> q[i] < |procs|)
    && (forall i :: 0 <= i < |q| - 1 ==> procs[q[i]].queueNext == q[i + 1])
    && (q != [] ==> procs[q[|q| - 1]].queueNext == NULL)
  }

  lemma ChainGoesOn(procs: seq<Process>, head: int, q: seq<nat>)
    requires Chain(procs, head, q)
    ensures forall i :: 0 <= i < |q| - 1 ==> procs[q[i]].queueNext != NULL
  {
    forall i | 0 <= i < |q| - 1 ensures procs[q[i]].queueNext != NULL {
      assert procs[q[i]].queueNext == q[i + 1];
    }
  }

  class Kernel {
    var procs: array<Process>
    var readyQueueHead: int
    var current: nat
    ghost var queue: seq<nat>

    ghost predicate Linked()
      reads this, procs
    {
      && procs.Length == NPROC
      && current < NPROC
      && Chain(procs[..], readyQueueHead, queue)
      && Distinct(queue)
    }

    ghost function Abs(): (v: View)
      requires Linked()
      reads this, procs
      ensures WellSized(v)
    {
      View(Statuses(procs[..]), TickCounts(procs[..]), queue, current)
    }

    constructor ()
      ensures Linked() && Abs() == EmptyPool() && fresh(procs)
    {
      procs := new Process[NPROC](i => Process(Free, NULL, 0));
      readyQueueHead, current, queue := NULL, 0, [];
      new;
      assert Abs().status == EmptyPool().status;
      assert Abs().ticks == EmptyPool().ticks;
    }

    method Assign(i: nat, p: Process)
      requires i < procs.Length
      modifies procs
      ensures procs[..] == old(procs[..])[i := p]
      ensures Statuses(procs[..]) == Statuses(old(procs[..]))[i := p.status]
      ensures TickCounts(procs[..]) == TickCounts(old(procs[..]))[i := p.tickCount]
    {
      UpdateProcess(procs[..], i, p);
      procs[i] := p;
    }

    method InsertToReadyQueue(proc: nat)
      requires Linked() && proc < NPROC
      modifies this`readyQueueHead, this`queue, procs
      ensures Linked() && Abs() == Insert(old(Abs()), proc)
    {
      UpdateProcess(procs[..], proc, procs[proc]);
      if readyQueueHead == NULL {
        Assign(proc, procs[proc].(status := Ready, queueNext := NULL));
        readyQueueHead := proc;
        queue := [proc];
        return;
      }
      var p: nat := readyQueueHead;
      ghost var at := 0;
      while procs[p].queueNext != NULL
        invariant 0 <= at < |queue| && p == queue[at]
        invariant proc !in queue[..at]
        decreases |queue| - at
      {
        if p == proc { return; }
        assert at < |queue| - 1;
        assert procs[..][queue[at]].queueNext == queue[at + 1];
        p := procs[p].queueNext;
        at := at + 1;
      }
      ChainGoesOn(procs[..], readyQueueHead, queue);
      if p == proc { return; }
      assert proc !in queue;
      LinkAfter(p, proc);
    }

    // proc goes after the last process of the queue.
    method LinkAfter(last: nat, proc: nat)
      requires Linked() && proc < NPROC && queue != [] && last == queue[|queue| - 1] && proc !in queue
      modifies this`queue, procs
      ensures Linked() && Abs() == Insert(old(Abs()), proc)
    {
      UpdateProcess(procs[..], proc, procs[proc]);
      UpdateProcess(procs[..], last, procs[last]);
      Assign(last, procs[last].(queueNext := proc));
      Assign(proc, procs[proc].(status := Ready, queueNext := NULL));
      queue := queue + [proc];
    }

    // The search over the pool that decides between shutdown and panic.
    method ShouldShutdown() returns (should: bool)
      requires Linked()
      ensures should == AllFinished(Abs().status)
    {
      should := true;
      for i := 0 to NPROC
        invariant should <==> AllFinished(Abs().status[..i])
      {
        assert Abs().status[..i + 1] == Abs().status[..i] + [procs[i].status];
        if !procs[i].status.Free? && !procs[i].status.Zombie? { should := false; }
      }
      assert Abs().status[..NPROC] == Abs().status;
    }

    method Schedule() returns (halt: Verdict)
      requires Linked()
      modifies this, procs
      ensures procs == old(procs)
      ensures halt.GoOn? ==> Linked() && Dispatch(old(Abs())) == Up(Abs())
      ensures halt.Stop? ==> Dispatch(old(Abs())) == Down(halt.why)
    {
      if readyQueueHead == NULL {
        var should := ShouldShutdown();
        halt := Stop(if should then ShutDown else UnfinishedProcesses);
        return;
      }
      current := readyQueueHead;
      if procs[current].status != Ready { halt := Stop(NotReady); return; }
      UpdateProcess(procs[..], current, procs[current]);
      if |queue| > 1 { assert procs[..][queue[0]].queueNext == queue[1]; }
      readyQueueHead := procs[readyQueueHead].queueNext;
      Assign(current, procs[current].(status := Running));
      queue := queue[1..];
      halt := GoOn;
    }

    method SetStatus(i: nat, status: Status)
      requires Linked() && i < NPROC
      modifies procs
      ensures Linked() && Abs() == old(Abs()).(status := old(Abs()).status[i := status])
    {
      UpdateProcess(procs[..], i, procs[i]);
      Assign(i, procs[i].(status := status));
    }

    method SetTick(i: nat, t: nat)
      requires Linked() && i < NPROC
      modifies procs
      ensures Linked() && Abs() == old(Abs()).(ticks := old(Abs()).ticks[i := t])
    {
      UpdateProcess(procs[..], i, procs[i]);
      Assign(i, procs[i].(tickCount := t));
    }

    // `current` goes to the end of the queue and the head of the queue runs.
    method GiveWay() returns (halt: Verdict)
      requires Linked()
      modifies this, procs
      ensures procs == old(procs)
      ensures halt.GoOn? ==> Linked() && Dispatch(Requeue(old(Abs()))) == Up(Abs())
      ensures halt.Stop? ==> Dispatch(Requeue(old(Abs()))) == Down(halt.why)
    {
      hide Dispatch, Insert, Chain, Distinct;
      SetStatus(current, Ready);
      InsertToReadyQueue(current);
      halt := Schedule();
    }

    method Rrsched() returns (halt: Verdict)
      requires Linked()
      modifies this, procs
      ensures halt.GoOn? ==> Linked() && Step(old(Abs()), Tick) == Up(Abs())
      ensures halt.Stop? ==> Step(old(Abs()), Tick) == Down(halt.why)
    {
      hide Dispatch, Requeue, Chain, Distinct;
      SetTick(current, procs[current].tickCount + 1);
      if procs[current].tickCount >= TIME_SLICE_LEN {
        SetTick(current, 0);
        assert Abs() == old(Abs()).(ticks := old(Abs()).ticks[current := 0]);
        halt := GiveWay();
      } else {
        halt := GoOn;
      }
    }

    method SysUserYield() returns (halt: Verdict)
      requires Linked()
      modifies this, procs
      ensures halt.GoOn? ==> Linked() && Step(old(Abs()), Yield) == Up(Abs())
      ensures halt.Stop? ==> Step(old(Abs()), Yield) == Down(halt.why)
    {
      hide Dispatch, Requeue, Chain, Distinct;
      halt := GiveWay();
    }

    method SysUserExit() returns (halt: Verdict)
      requires Linked()
      modifies this, procs
      ensures halt.GoOn? ==> Linked() && Step(old(Abs()), Exit) == Up(Abs())
      ensures halt.Stop? ==> Step(old(Abs()), Exit) == Down(halt.why)
    {
      SetStatus(current, Zombie);
      halt := Schedule();
    }

    // alloc_process: the first FREE slot of the pool.
    method AllocProcess() returns (i: nat)
      requires Linked()
      ensures i == FirstFree(Abs().status)
    {
      i := 0;
      while i < NPROC && procs[i].status != Free
        invariant i <= NPROC
        invariant forall j :: 0 <= j < i ==> !Abs().status[j].Free?
      {
        i := i + 1;
      }
      if i < NPROC { assert Abs().status[i].Free?; }
    }

    method DoFork() returns (halt: Verdict)
      requires Linked()
      modifies this, procs
      ensures halt.GoOn? ==> Linked() && Step(old(Abs()), Fork) == Up(Abs())
      ensures halt.Stop? ==> Step(old(Abs()), Fork) == Down(halt.why)
    {
      var child := AllocProcess();
      if child >= NPROC { halt := Stop(NoFreeProcess); return; }
      SetStatus(child, Ready);
      InsertToReadyQueue(child);
      halt := GoOn;
    }
  }
}
