/**
 Tasks and the round-robin scheduler as a state machine: create a task, a timer
 tick, a fault of the running task, and a live swap of the scheduler.
 */
module Tasks {
  import opened Options

  const QUEUE_SIZE: nat := 32

  /** Saved register frame of a task; its contents play no part. */
  type Frame = nat

  /** Tasks by pid. The master list is in creation order; the queue and the index
      belong to the scheduler. State 0 is dead, 1 a task, 2 the idle task. */
  datatype Kernel = Kernel(list: seq<nat>, state: map<nat, nat>, regs: map<nat, Frame>,
                           queue: seq<nat>, idx: nat, cur: nat, lastPid: nat)

  datatype Event = Create(entry: Frame) | Tick(regs: Frame) | Fault(regs: Frame) | Swap

  predicate Alive(k: Kernel, p: nat) {
    p in k.state && k.state[p] > 0
  }

  /** The idle task runs first. */
  function Boot(frame: Frame): Kernel {
    Kernel([0], map[0 := 2], map[0 := frame], [0], 0, 0, 0)
  }

  function Enqueue(queue: seq<nat>, p: nat): seq<nat> {
    if |queue| < QUEUE_SIZE then queue + [p] else queue
  }

  function Next(idx: nat, n: nat): (i: nat)
    requires n > 0
    ensures i < n && (idx < n ==> i == if idx + 1 == n then 0 else idx + 1)
  {
    NextCases(idx, n);
    (idx + 1) % n
  }

  lemma NextCases(idx: nat, n: nat)
    requires n > 0
    ensures idx < n ==> (idx + 1) % n == if idx + 1 == n then 0 else idx + 1
  {
  }

  /** Round robin: up to `tries` positions after `idx` are looked at for a live task. */
  function Search(queue: seq<nat>, state: map<nat, nat>, idx: nat, tries: nat): (r: (nat, Option<nat>))
    ensures idx < |queue| ==> r.0 < |queue|
    decreases tries
  {
    if tries == 0 || queue == [] then (idx, None)
    else
      var i := Next(idx, |queue|);
      if queue[i] in state && state[queue[i]] > 0 then (i, Some(queue[i])) else Search(queue, state, i, tries - 1)
  }

  /** Saves the running task's registers and picks the next one. */
  function Schedule(k: Kernel, regs: Frame): Kernel {
    var k1 := k.(regs := k.regs[k.cur := regs]);
    if k.queue == [] then k1
    else
      var (i, next) := Search(k.queue, k.state, k.idx, |k.queue|);
      k1.(idx := i, cur := if next.Some? then next.value else k.cur)
  }

  function Live(list: seq<nat>, state: map<nat, nat>): seq<nat> {
    if list == [] then []
    else
      var front, p := Live(list[..|list| - 1], state), list[|list| - 1];
      if p in state && state[p] > 0 then front + [p] else front
  }

  function EnqueueAll(list: seq<nat>): seq<nat> {
    if list == [] then [] else Enqueue(EnqueueAll(list[..|list| - 1]), list[|list| - 1])
  }

  /** A fault of the idle task halts the machine, so it is no event. */
  predicate Possible(k: Kernel, e: Event) {
    e.Fault? ==> k.cur != 0
  }

  function Step(k: Kernel, e: Event): Kernel {
    match e
    case Create(entry) =>
      var p := k.lastPid + 1;
      k.(list := k.list + [p], state := k.state[p := 1], regs := k.regs[p := entry],
         queue := Enqueue(k.queue, p), lastPid := p)
    case Tick(regs) => Schedule(k, regs)
    case Fault(regs) => Schedule(k.(state := k.state[k.cur := 0]), regs)
    case Swap =>
      var live := Live(k.list, k.state);
      k.(list := live, queue := EnqueueAll(live), idx := 0)
  }

  function Run(k: Kernel, es: seq<Event>): Kernel
    decreases |es|
  {
    if es == [] then k else Step(Run(k, es[..|es| - 1]), es[|es| - 1])
  }

  predicate AllPossible(k: Kernel, es: seq<Event>)
    decreases |es|
  {
    es != [] ==> AllPossible(k, es[..|es| - 1]) && Possible(Run(k, es[..|es| - 1]), es[|es| - 1])
  }

  // ----- invariant -----

  function Prefix(s: seq<nat>): seq<nat> {
    if |s| <= QUEUE_SIZE then s else s[..QUEUE_SIZE]
  }

  ghost predicate Distinct(s: seq<nat>) {
    forall i, j :: 0 <= i < j < |s| ==> s[i] != s[j]
  }

  /** The queue is the front of the master list, the idle task comes first and stays
      alive, and the running task is alive and listed. */
  ghost predicate Sane(k: Kernel) {
    && |k.list| > 0 && k.list[0] == 0 && 0 in k.state && k.state[0] == 2
    && Distinct(k.list) && k.queue == Prefix(k.list) && k.idx < |k.queue|
    && (forall p :: p in k.list ==> p in k.state && p in k.regs)
    && (forall p :: p in k.state ==> p <= k.lastPid)
    && k.cur in k.list && Alive(k, k.cur)
  }

  lemma BootSane(frame: Frame)
    ensures Sane(Boot(frame))
  {
  }

  // ----- picking -----

  /** Positions to go from `idx` to `j`, going round: 1 to n. */
  function Dist(idx: nat, j: nat, n: nat): (d: int) {
    if j > idx then j - idx else j - idx + n
  }

  /** With a live task at `j`, the search ends at a live task no further away, and
      comes closer to `j` if it is another one. */
  lemma {:induction false} SearchFacts(queue: seq<nat>, state: map<nat, nat>, idx: nat, tries: nat, j: nat)
    requires idx < |queue| && j < |queue| && Dist(idx, j, |queue|) <= tries
    requires queue[j] in state && state[queue[j]] > 0
    ensures var (i, next) := Search(queue, state, idx, tries);
            && i < |queue| && next == Some(queue[i]) && queue[i] in state && state[queue[i]] > 0
            && (i == j || Dist(i, j, |queue|) < Dist(idx, j, |queue|))
    decreases tries
  {
    hide Next;
    var i := Next(idx, |queue|);
    if !(queue[i] in state && state[queue[i]] > 0) {
      SearchFacts(queue, state, i, tries - 1, j);
    }
  }

  lemma SaneQueue(k: Kernel)
    requires Sane(k)
    ensures |k.queue| > 0 && k.queue[0] == 0 && forall j :: 0 <= j < |k.queue| ==> k.queue[j] == k.list[j]
  {
  }

  lemma ScheduleSane(k: Kernel, regs: Frame)
    requires |k.list| > 0 && k.list[0] == 0 && 0 in k.state && k.state[0] == 2
    requires Distinct(k.list) && k.queue == Prefix(k.list) && k.idx < |k.queue|
    requires (forall p :: p in k.list ==> p in k.state && p in k.regs) && forall p :: p in k.state ==> p <= k.lastPid
    ensures Sane(Schedule(k, regs))
  {
    SearchFacts(k.queue, k.state, k.idx, |k.queue|, 0);
    var r := Schedule(k, regs);
    assert r.cur == k.queue[r.idx] == k.list[r.idx];
  }

  lemma {:induction false} LiveFacts(list: seq<nat>, state: map<nat, nat>)
    requires Distinct(list)
    ensures Distinct(Live(list, state)) && |Live(list, state)| <= |list|
    ensures forall p :: p in Live(list, state) <==> p in list && p in state && state[p] > 0
    ensures |list| > 0 && list[0] in state && state[list[0]] > 0 ==> |Live(list, state)| > 0 && Live(list, state)[0] == list[0]
    decreases |list|
  {
    if list != [] {
      var front := list[..|list| - 1];
      LiveFacts(front, state);
      assert forall p :: p in list <==> p in front || p == list[|list| - 1];
      assert list[|list| - 1] !in front;
      assert |list| > 1 ==> front[0] == list[0];
    }
  }

  lemma {:induction false} EnqueueAllIsPrefix(list: seq<nat>)
    ensures EnqueueAll(list) == Prefix(list)
    decreases |list|
  {
    if list != [] { EnqueueAllIsPrefix(list[..|list| - 1]); }
  }

  lemma StepSane(k: Kernel, e: Event)
    requires Sane(k) && Possible(k, e)
    ensures Sane(Step(k, e))
  {
    hide Search, Live, EnqueueAll, Schedule;
    match e
    case Create(_) => CreateSane(k, e);
    case Tick(regs) => ScheduleSane(k, regs);
    case Fault(regs) => ScheduleSane(k.(state := k.state[k.cur := 0]), regs);
    case Swap =>
      LiveFacts(k.list, k.state);
      EnqueueAllIsPrefix(Live(k.list, k.state));
  }

  lemma CreateSane(k: Kernel, e: Event)
    requires Sane(k) && e.Create?
    ensures Sane(Step(k, e))
  {
    var r := Step(k, e);
    assert forall i :: 0 <= i < |k.list| ==> r.list[i] == k.list[i] && k.list[i] <= k.lastPid by {
      forall i | 0 <= i < |k.list| ensures k.list[i] <= k.lastPid { assert k.list[i] in k.list; }
    }
  }

  lemma {:induction false} RunSane(frame: Frame, es: seq<Event>)
    requires AllPossible(Boot(frame), es)
    ensures Sane(Run(Boot(frame), es))
    decreases |es|
  {
    hide Sane, Step, Boot;
    if es == [] {
      BootSane(frame);
    } else {
      RunSane(frame, es[..|es| - 1]);
      StepSane(Run(Boot(frame), es[..|es| - 1]), es[|es| - 1]);
    }
  }

  /** In every run the task picked is a live one. */
  lemma NextIsLive(frame: Frame, es: seq<Event>)
    requires AllPossible(Boot(frame), es)
    ensures var k := Run(Boot(frame), es); Alive(k, k.cur) && k.cur in k.regs
  {
    RunSane(frame, es);
  }

  // ----- dead tasks -----

  lemma StepKeepsDead(k: Kernel, e: Event, p: nat)
    requires Sane(k) && Possible(k, e) && p in k.state && !Alive(k, p)
    ensures var k' := Step(k, e); p in k'.state && !Alive(k', p)
  {
    hide Search, Live, EnqueueAll;
  }

  /** A faulted task never runs again, whatever happens later. */
  lemma {:induction false} FaultedNeverRuns(k: Kernel, regs: Frame, es: seq<Event>)
    requires Sane(k) && k.cur != 0 && AllPossible(Step(k, Fault(regs)), es)
    ensures var k' := Run(Step(k, Fault(regs)), es);
            Sane(k') && k.cur in k'.state && !Alive(k', k.cur) && k'.cur != k.cur
    decreases |es|
  {
    hide Search, Live, EnqueueAll, Step;
    var k1 := Step(k, Fault(regs));
    if es == [] {
      StepSane(k, Fault(regs));
      FaultKills(k, regs);
    } else {
      var front := es[..|es| - 1];
      FaultedNeverRuns(k, regs, front);
      StepSane(Run(k1, front), es[|es| - 1]);
      StepKeepsDead(Run(k1, front), es[|es| - 1], k.cur);
    }
  }

  lemma FaultKills(k: Kernel, regs: Frame)
    requires Sane(k) && k.cur != 0
    ensures var k' := Step(k, Fault(regs)); k.cur in k'.state && !Alive(k', k.cur)
  {
    hide Search;
  }

  // ----- fairness -----

  function Picks(es: seq<Event>): nat {
    if es == [] then 0 else (if es[0].Tick? || es[0].Fault? then 1 else 0) + Picks(es[1..])
  }

  function Creates(es: seq<Event>): nat {
    if es == [] then 0 else (if es[0].Create? then 1 else 0) + Creates(es[1..])
  }

  predicate NoSwap(es: seq<Event>) {
    forall i :: 0 <= i < |es| ==> !es[i].Swap?
  }

  /** Events one after the other from the front, each possible. */
  predicate Goes(k: Kernel, es: seq<Event>)
    decreases |es|
  {
    es != [] ==> Possible(k, es[0]) && Goes(Step(k, es[0]), es[1..])
  }

  /** Task `p` is picked at some point of the run. */
  predicate Runs(k: Kernel, es: seq<Event>, p: nat)
    decreases |es|
  {
    es != [] && (((es[0].Tick? || es[0].Fault?) && Step(k, es[0]).cur == p) || Runs(Step(k, es[0]), es[1..], p))
  }

  lemma PickCloser(k: Kernel, e: Event, j: nat)
    requires Sane(k) && Possible(k, e) && (e.Tick? || e.Fault?) && j < |k.queue| && Alive(k, k.queue[j]) && k.cur != k.queue[j]
    ensures var k' := Step(k, e);
            && k'.queue == k.queue && (forall p :: p != k.cur ==> Alive(k', p) == Alive(k, p))
            && (k'.cur == k.queue[j] || Dist(k'.idx, j, |k.queue|) < Dist(k.idx, j, |k.queue|))
  {
    hide Search;
    var state := if e.Fault? then k.state[k.cur := 0] else k.state;
    SearchFacts(k.queue, state, k.idx, |k.queue|, j);
  }

  lemma CreateFurther(k: Kernel, e: Event, j: nat)
    requires Sane(k) && e.Create? && j < |k.queue| && Alive(k, k.queue[j])
    ensures var k' := Step(k, e);
            && j < |k'.queue| && k'.queue[j] == k.queue[j] && Alive(k', k.queue[j]) && k'.cur == k.cur
            && Dist(k'.idx, j, |k'.queue|) <= Dist(k.idx, j, |k.queue|) + 1
  {
  }

  /** Fairness: a live queued task runs within as many picks as there are positions
      before it going round, plus one for each task created meanwhile. */
  lemma {:induction false} RunsWithin(k: Kernel, es: seq<Event>, j: nat)
    requires Sane(k) && Goes(k, es) && NoSwap(es) && j < |k.queue| && Alive(k, k.queue[j]) && k.cur != k.queue[j]
    requires Picks(es) >= Dist(k.idx, j, |k.queue|) + Creates(es)
    ensures Runs(k, es, k.queue[j])
    decreases |es|
  {
    hide Step, Sane, Alive;
    DistPositive(k, j);
    var e, k' := es[0], Step(k, es[0]);
    StepSane(k, e);
    if e.Create? {
      CreateFurther(k, e, j);
      RunsWithin(k', es[1..], j);
    } else {
      PickCloser(k, e, j);
      if k'.cur != k.queue[j] { RunsWithin(k', es[1..], j); }
    }
  }

  lemma DistPositive(k: Kernel, j: nat)
    requires Sane(k) && j < |k.queue|
    ensures 1 <= Dist(k.idx, j, |k.queue|) <= |k.queue|
  {
  }

  /** In particular within as many picks as the queue is long. */
  lemma RunsWithinQueue(k: Kernel, es: seq<Event>, j: nat)
    requires Sane(k) && Goes(k, es) && NoSwap(es) && j < |k.queue| && Alive(k, k.queue[j]) && k.cur != k.queue[j]
    requires Picks(es) >= |k.queue| + Creates(es)
    ensures Runs(k, es, k.queue[j])
  {
    DistPositive(k, j);
    RunsWithin(k, es, j);
  }

  // ----- swaps -----

  /** After a swap the master list holds exactly its live members, in order, and with
      at most 32 of them the new queue holds each exactly once, in that order. */
  lemma SwapRebuilds(k: Kernel)
    requires Sane(k)
    ensures var k' := Step(k, Swap);
            && k'.list == Live(k.list, k.state) && Distinct(k'.list) && k'.idx == 0 && k'.cur == k.cur
            && (forall p :: p in k'.list <==> p in k.list && Alive(k, p))
            && k'.queue == Prefix(k'.list) && (|k'.list| <= QUEUE_SIZE ==> k'.queue == k'.list)
  {
    hide Live, EnqueueAll;
    LiveFacts(k.list, k.state);
    EnqueueAllIsPrefix(Live(k.list, k.state));
  }

  /** Which tasks the scheduler can pick: the first 32 of the master list. A task
      further back waits until a swap moves it forward. */
  lemma OnlyTheFrontRuns(frame: Frame, es: seq<Event>, regs: Frame)
    requires AllPossible(Boot(frame), es)
    ensures var k := Run(Boot(frame), es);
            Step(k, Tick(regs)).cur in Prefix(k.list)
  {
    hide Search;
    RunSane(frame, es);
    var k := Run(Boot(frame), es);
    SearchFacts(k.queue, k.state, k.idx, |k.queue|, 0);
  }

  /** Without a swap a listed task that is not queued is not picked. */
  lemma {:induction false} BackNeverRuns(k: Kernel, es: seq<Event>, p: nat)
    requires Sane(k) && Goes(k, es) && NoSwap(es) && p in k.list && p !in k.queue
    ensures !Runs(k, es, p)
    decreases |es|
  {
    hide Step, Sane;
    if es != [] {
      StepSane(k, es[0]);
      BackStays(k, es[0], p);
      BackNeverRuns(Step(k, es[0]), es[1..], p);
    }
  }

  lemma BackStays(k: Kernel, e: Event, p: nat)
    requires Sane(k) && Possible(k, e) && !e.Swap? && p in k.list && p !in k.queue
    ensures var k' := Step(k, e); p in k'.list && p !in k'.queue && (e.Tick? || e.Fault? ==> k'.cur != p)
  {
    hide Search;
    if e.Tick? || e.Fault? {
      SaneQueue(k);
      var state := if e.Fault? then k.state[k.cur := 0] else k.state;
      SearchFacts(k.queue, state, k.idx, |k.queue|, 0);
    }
  }

  /** Given enough picks and no swap, a live task runs exactly when it is queued. */
  lemma RunsIffQueued(k: Kernel, es: seq<Event>, p: nat)
    requires Sane(k) && Goes(k, es) && NoSwap(es) && p in k.list && Alive(k, p) && k.cur != p
    requires Picks(es) >= |k.queue| + Creates(es)
    ensures Runs(k, es, p) <==> p in k.queue
  {
    hide Sane;
    if p in k.queue {
      var j :| 0 <= j < |k.queue| && k.queue[j] == p;
      RunsWithinQueue(k, es, j);
    } else {
      BackNeverRuns(k, es, p);
    }
  }

  function Creations(entry: Frame, n: nat): (es: seq<Event>)
    ensures |es| == n
  {
    if n == 0 then [] else Creations(entry, n - 1) + [Create(entry)]
  }

  lemma {:induction false} CreationsRun(frame: Frame, entry: Frame, n: nat)
    ensures var k := Run(Boot(frame), Creations(entry, n));
            && AllPossible(Boot(frame), Creations(entry, n)) && k.lastPid == n && k.cur == 0
            && |k.list| == n + 1 && (forall i :: 0 <= i <= n ==> k.list[i] == i && Alive(k, i))
  {
    if n > 0 {
      CreationsRun(frame, entry, n - 1);
      var es := Creations(entry, n);
      assert es[..|es| - 1] == Creations(entry, n - 1);
      var before, k := Run(Boot(frame), Creations(entry, n - 1)), Run(Boot(frame), es);
      assert k == Step(before, Create(entry));
      forall i | 0 <= i <= n ensures k.list[i] == i && Alive(k, i) {
        if i < n { assert before.list[i] == i && Alive(before, i); }
      }
    }
  }

  /** With 32 tasks created beside the idle task, the last of them is alive and never
      runs while there is no swap, whatever else happens. */
  lemma LastOfMany(frame: Frame, entry: Frame, es: seq<Event>)
    requires Goes(Run(Boot(frame), Creations(entry, 32)), es) && NoSwap(es)
    ensures var k := Run(Boot(frame), Creations(entry, 32));
            32 in k.list && Alive(k, 32) && !Runs(k, es, 32)
  {
    hide Run, Creations, Sane, Runs, Goes;
    var k := Run(Boot(frame), Creations(entry, 32));
    CreationsRun(frame, entry, 32);
    RunSane(frame, Creations(entry, 32));
    SaneQueue(k);
    QueueBound(k);
    assert k.list[32] == 32;
    BackNeverRuns(k, es, 32);
  }

  lemma QueueBound(k: Kernel)
    requires Sane(k)
    ensures |k.queue| <= QUEUE_SIZE
  {
  }

  // ----- saved registers -----

  /** A task that is not running keeps its saved registers; they are what it resumes
      with when it is picked. */
  lemma {:induction false} SavedUntilResumed(k: Kernel, regs: Frame, es: seq<Event>)
    requires Sane(k) && AllPossible(Step(k, Tick(regs)), es)
    requires forall i :: 0 <= i < |es| ==> Run(Step(k, Tick(regs)), es[..i]).cur != k.cur
    ensures var k' := Run(Step(k, Tick(regs)), es); Sane(k') && k.cur in k'.regs && k'.regs[k.cur] == regs
    decreases |es|
  {
    hide Search, Live, EnqueueAll, Step;
    var k1 := Step(k, Tick(regs));
    if es == [] {
      StepSane(k, Tick(regs));
      TickSaves(k, regs);
    } else {
      var front := es[..|es| - 1];
      forall i | 0 <= i < |front| ensures Run(k1, front[..i]).cur != k.cur { assert front[..i] == es[..i]; }
      SavedUntilResumed(k, regs, front);
      StepSane(Run(k1, front), es[|es| - 1]);
      TickKeepsPids(k, regs, front);
      assert es[..|es| - 1] == front;
      StepKeepsRegs(Run(k1, front), es[|es| - 1], k.cur);
    }
  }

  lemma TickSaves(k: Kernel, regs: Frame)
    requires Sane(k)
    ensures k.cur in Step(k, Tick(regs)).regs && Step(k, Tick(regs)).regs[k.cur] == regs && k.cur <= Step(k, Tick(regs)).lastPid
  {
    hide Search;
  }

  lemma {:induction false} TickKeepsPids(k: Kernel, regs: Frame, es: seq<Event>)
    requires Sane(k)
    ensures k.cur <= Run(Step(k, Tick(regs)), es).lastPid
    decreases |es|
  {
    hide Search, Live, EnqueueAll;
    if es == [] { TickSaves(k, regs); } else { TickKeepsPids(k, regs, es[..|es| - 1]); }
  }

  lemma StepKeepsRegs(k: Kernel, e: Event, p: nat)
    requires Sane(k) && p in k.regs && p != k.cur && p <= k.lastPid
    ensures p in Step(k, e).regs && Step(k, e).regs[p] == k.regs[p]
  {
    hide Search, Live, EnqueueAll;
  }
}
