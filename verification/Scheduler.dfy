/** The task list, the round-robin queue and the scheduler swap as the kernel runs
    them: linked process records updated in place. */
module Scheduler {
  import opened Options
  import opened Tasks

  class Process {
    const pid: nat
    var state: nat
    var reg: Frame
    var next: Process?

    constructor (pid: nat, state: nat, reg: Frame)
      ensures this.pid == pid && this.state == state && this.reg == reg && next == null
    {
      this.pid, this.state, this.reg, next := pid, state, reg, null;
    }
  }

  class RoundRobin {
    const readyQueue: array<Process?>
    var queueCount: nat
    var currentIdx: nat

    ghost predicate Valid()
      reads this
    {
      readyQueue.Length == QUEUE_SIZE && queueCount <= QUEUE_SIZE
    }

    constructor ()
      ensures Valid() && fresh(readyQueue) && queueCount == 0 && currentIdx == 0
    {
      readyQueue := new Process?[QUEUE_SIZE](_ => null);
      queueCount, currentIdx := 0, 0;
    }

    /** A queue that starts over keeps its array. */
    method Reset()
      requires Valid()
      modifies this
      ensures Valid() && queueCount == 0 && currentIdx == 0
    {
      queueCount, currentIdx := 0, 0;
    }

    method AddTask(p: Process)
      requires Valid()
      modifies this`queueCount, readyQueue
      ensures Valid() && queueCount == (if old(queueCount) < QUEUE_SIZE then old(queueCount) + 1 else old(queueCount))
      ensures forall i :: 0 <= i < old(queueCount) ==> readyQueue[i] == old(readyQueue[i])
      ensures old(queueCount) < QUEUE_SIZE ==> readyQueue[old(queueCount)] == p
    {
      if queueCount < QUEUE_SIZE {
        readyQueue[queueCount] := p;
        queueCount := queueCount + 1;
      }
    }

    /** The queue as the state machine sees it. */
    ghost predicate Shows(ids: seq<nat>, state: map<nat, nat>)
      reads this, readyQueue, set i | 0 <= i < readyQueue.Length :: readyQueue[i]
    {
      && Valid() && |ids| == queueCount
      && forall i :: 0 <= i < queueCount ==>
           var p := readyQueue[i];
           p != null && p.pid == ids[i] && ids[i] in state && state[ids[i]] == p.state
    }

    method PickNext(current: Process, ghost ids: seq<nat>, ghost state: map<nat, nat>) returns (next: Process)
      requires Shows(ids, state) && currentIdx < queueCount
      modifies this`currentIdx
      ensures Valid() && currentIdx < queueCount
      ensures var (i, pid) := Search(ids, state, old(currentIdx), queueCount);
              currentIdx == i && next == (if pid.Some? then readyQueue[i] else current) && (pid.Some? ==> next.pid == pid.value)
    {
      hide Tasks.Next;
      for i := 0 to queueCount
        modifies this`currentIdx
        invariant currentIdx < queueCount && Shows(ids, state)
        invariant Search(ids, state, old(currentIdx), queueCount) == Search(ids, state, currentIdx, queueCount - i)
      {
        currentIdx := Tasks.Next(currentIdx, queueCount);
        if readyQueue[currentIdx] != null && readyQueue[currentIdx].state > 0 {
          return readyQueue[currentIdx];
        }
      }
      next := current;
    }
  }

  /** From position `from` on, each record links to the next one, the last to `last`. */
  ghost predicate Chain(s: seq<Process>, from: nat, last: Process?)
    reads s`next
  {
    && (forall i, j :: from <= i < j < |s| && j == i + 1 ==> s[i].next == s[j])
    && (from < |s| ==> s[|s| - 1].next == last)
  }

  /** A record holds what the state machine says of its task. */
  ghost predicate Shown(p: Process, state: map<nat, nat>, regs: map<nat, Frame>)
    reads p`state, p`reg
  {
    p.pid in state && state[p.pid] == p.state && p.pid in regs && regs[p.pid] == p.reg
  }

  lemma ChainNext(s: seq<Process>, i: nat)
    requires i < |s| && Chain(s, i, null)
    ensures Chain(s, i + 1, null) && s[i].next == if i + 1 < |s| then s[i + 1] else null
  {
    if i + 1 < |s| { assert s[i].next == s[i + 1]; }
  }

  lemma ChainEmpty(p: Process?)
    ensures Chain([], 0, p)
  {
  }

  lemma ChainExtends(s: seq<Process>, p: Process)
    requires Chain(s, 0, p)
    ensures Chain(s + [p], 0, p.next)
  {
  }

  class TaskList {
    var listhead: Process?
    var listtail: Process?
    var currTask: Process
    var nextPid: nat
    const sched: RoundRobin
    ghost var list: seq<Process>
    ghost var k: Kernel

    /** The linked list holds `list`, in order. */
    ghost predicate Linked()
      reads this`list, this`listhead, this`listtail, list`next
    {
      && |list| > 0 && listhead == list[0] && listtail == list[|list| - 1] && Chain(list, 0, null)
    }

    ghost predicate Records()
      reads this`list, this`k, list`state, list`reg
    {
      && |list| == |k.list|
      && forall i :: 0 <= i < |list| ==> list[i].pid == k.list[i] && Shown(list[i], k.state, k.regs)
    }

    ghost predicate Queued()
      reads this`list, this`k, sched, sched.readyQueue
    {
      && sched.Valid() && sched.queueCount == |k.queue| <= |list| && sched.currentIdx == k.idx
      && forall i :: 0 <= i < sched.queueCount ==> sched.readyQueue[i] == list[i]
    }

    /** The records represent the state `k` of the state machine. */
    ghost predicate Valid()
      reads this, list, sched, sched.readyQueue
    {
      && Linked() && Records() && Queued() && Sane(k)
      && currTask in list && currTask.pid == k.cur && nextPid == k.lastPid
    }

    constructor (frame: Frame)
      ensures Valid() && k == Boot(frame) && fresh(sched) && fresh(sched.readyQueue) && forall p :: p in list ==> fresh(p)
    {
      var idle := new Process(0, 2, frame);
      var rr := new RoundRobin();
      rr.AddTask(idle);
      currTask, listhead, listtail, nextPid, sched := idle, idle, idle, 0, rr;
      list, k := [idle], Boot(frame);
      new;
      BootSane(frame);
    }

    /** The new record becomes the tail of the list. */
    method LinkAtTail(p: Process)
      requires Linked() && p.next == null && p !in list
      requires forall i, j :: 0 <= i < j < |list| ==> list[i] != list[j]
      modifies this`listtail, this`list, listtail`next
      ensures Linked() && list == old(list) + [p]
    {
      listtail.next := p;
      listtail := p;
      list := list + [p];
    }

    method CreateTask(entry: Frame) returns (p: Process)
      requires Valid()
      modifies this, sched, sched.readyQueue, listtail`next
      ensures Valid() && k == Tasks.Step(old(k), Create(entry)) && fresh(p) && p.pid == k.lastPid
    {
      hide Tasks.Step, Prefix, Sane, Distinct, Chain;
      SaneFacts(k);
      ghost var after := Tasks.Step(k, Create(entry));
      CreateFacts(k, entry);
      StepSane(k, Create(entry));
      SeparateAll();
      nextPid := nextPid + 1;
      p := new Process(nextPid, 1, entry);
      sched.AddTask(p);
      LinkAtTail(p);
      k := after;
    }

    /** The timer interrupt: save, pick, resume. */
    method ScheduleNextTask(regs: Frame) returns (r: Frame)
      requires Valid()
      modifies this`currTask, this`k, sched`currentIdx, currTask`reg
      ensures Valid() && k == Tasks.Step(old(k), Tick(regs)) && r == k.regs[k.cur] && list == old(list)
    {
      StepSane(k, Tick(regs));
      r := Dispatch(regs, Tasks.Step(k, Tick(regs)));
    }

    /** Shared by the timer and the fault path; `k` may hold a dead running task. */
    method Dispatch(regs: Frame, ghost after: Kernel) returns (r: Frame)
      requires Linked() && Records() && Queued() && currTask in list && currTask.pid == k.cur && nextPid == k.lastPid
      requires Distinct(k.list) && k.queue == Prefix(k.list) && k.idx < |k.queue|
      requires after == Schedule(k, regs) && Sane(after)
      modifies this`currTask, this`k, sched`currentIdx, currTask`reg
      ensures Valid() && k == after && r == k.regs[k.cur] && list == old(list)
    {
      hide Search, Sane, Prefix, Schedule, Distinct, Chain;
      ScheduleFacts(k, regs);
      QueueFront(k);
      SeparateAll();
      currTask.reg := regs;
      var next := sched.PickNext(currTask, k.queue, k.state);
      currTask := next;
      k := after;
      r := next.reg;
    }

    /** Different positions hold different records with different pids. */
    lemma SeparateAll()
      requires Records() && Distinct(k.list)
      ensures forall i, j :: 0 <= i < j < |list| ==> list[i] != list[j] && list[i].pid != list[j].pid
    {
      forall i, j | 0 <= i < j < |list| ensures list[i].pid != list[j].pid {
        assert list[i].pid == k.list[i] && list[j].pid == k.list[j];
      }
    }

    lemma SaneSizes(k: Kernel)
      requires Sane(k)
      ensures |k.queue| == if |k.list| <= QUEUE_SIZE then |k.list| else QUEUE_SIZE
    {
    }

    /** A CPU exception in a task other than the idle one kills it. */
    method FaultIsolation(regs: Frame) returns (r: Frame)
      requires Valid() && currTask.pid != 0
      modifies this`currTask, this`k, sched`currentIdx, currTask`reg, currTask`state
      ensures Valid() && k == Tasks.Step(old(k), Fault(regs)) && r == k.regs[k.cur] && list == old(list)
    {
      hide Search, Schedule;
      ghost var c :| 0 <= c < |list| && list[c] == currTask;
      ghost var after := Tasks.Step(k, Fault(regs));
      StepSane(k, Fault(regs));
      SeparateAll();
      currTask.state := 0;
      k := k.(state := k.state[k.cur := 0]);
      r := Dispatch(regs, after);
    }

    /** Takes the record at position `i` out of the list. */
    method Unlink(prev: Process?, curr: Process, ghost all: seq<Process>, ghost kept: seq<Process>, ghost i: nat)
      requires i < |all| && curr == all[i] && Chain(all, i, null) && Chain(kept, 0, curr)
      requires prev == if kept == [] then null else kept[|kept| - 1]
      requires forall j, n :: 0 <= j < n < |kept| ==> kept[j] != kept[n]
      requires forall m :: i <= m < |all| ==> all[m] != prev
      requires if kept == [] then listhead == curr else listhead == kept[0]
      requires listtail == all[|all| - 1] && forall m :: 0 <= m < |all| - 1 ==> all[m] != all[|all| - 1]
      modifies this`listhead, this`listtail, (if prev != null then {prev} else {})`next
      ensures Chain(all, i + 1, null) && Chain(kept, 0, curr.next) && curr.next == old(curr.next)
      ensures if kept == [] then listhead == curr.next else listhead == kept[0]
      ensures listtail == if i + 1 < |all| then all[|all| - 1] else prev
    {
      if prev != null { prev.next := curr.next; } else { listhead := curr.next; }
      if curr == listtail { listtail := prev; }
    }

    /** The walk over the master list: dead records are unlinked on the way, live ones
        go into the new queue. */
    method PruneAndFeed() returns (ghost kept: seq<Process>)
      requires Linked() && Records() && sched.Valid() && sched.queueCount == 0
      requires forall i, j :: 0 <= i < j < |list| ==> list[i] != list[j]
      modifies this`listhead, this`listtail, sched`queueCount, sched.readyQueue, list`next
      ensures Picked(list, kept, k.list, k.state, |list|) && Chain(kept, 0, null) && sched.Valid()
      ensures kept != [] ==> listhead == kept[0] && listtail == kept[|kept| - 1]
      ensures sched.queueCount == if |kept| <= QUEUE_SIZE then |kept| else QUEUE_SIZE
      ensures forall j :: 0 <= j < sched.queueCount ==> sched.readyQueue[j] == kept[j]
    {
      hide Live, Picked, Chain;
      var curr: Process?, prev: Process? := listhead, null;
      ghost var all, ids, i := list, k.list, 0;
      kept := [];
      PickedStart(all, ids, k.state);
      ChainEmpty(curr);
      while curr != null
        modifies this`listhead, this`listtail, sched`queueCount, sched.readyQueue, all`next
        invariant i <= |all| && curr == (if i < |all| then all[i] else null)
        invariant sched.Valid() && Chain(all, i, null) && Chain(kept, 0, curr) && Picked(all, kept, ids, k.state, i)
        invariant prev == if kept == [] then null else kept[|kept| - 1]
        invariant if kept == [] then listhead == curr else listhead == kept[0]
        invariant listtail == if i < |all| then all[|all| - 1] else prev
        invariant sched.queueCount == if |kept| <= QUEUE_SIZE then |kept| else QUEUE_SIZE
        invariant forall j :: 0 <= j < sched.queueCount ==> sched.readyQueue[j] == kept[j]
        decreases |all| - i
      {
        PickedNext(all, kept, ids, k.state, i);
        KeptBefore(all, kept, ids, k.state, i);
        ChainNext(all, i);
        if curr.state == 0 {
          Unlink(prev, curr, all, kept, i);
          curr := curr.next;
        } else {
          ChainExtends(kept, curr);
          sched.AddTask(curr);
          kept := kept + [curr];
          prev := curr;
          curr := curr.next;
        }
        i := i + 1;
      }
    }

    lemma KeptRecords(kept: seq<Process>)
      requires Records() && forall p :: p in kept ==> p in list
      ensures forall j :: 0 <= j < |kept| ==> Shown(kept[j], k.state, k.regs)
    {
      hide Shown;
      forall j | 0 <= j < |kept| ensures Shown(kept[j], k.state, k.regs) {
        assert kept[j] in kept;
      }
    }

    ghost method Install(kept: seq<Process>, after: Kernel)
      requires kept != [] && listhead == kept[0] && listtail == kept[|kept| - 1] && Chain(kept, 0, null)
      requires |kept| == |after.list| && forall j :: 0 <= j < |kept| ==> kept[j].pid == after.list[j]
      requires forall j :: 0 <= j < |kept| ==> Shown(kept[j], after.state, after.regs)
      requires sched.Valid() && sched.queueCount == |after.queue| <= |kept| && sched.currentIdx == after.idx
      requires forall j :: 0 <= j < sched.queueCount ==> sched.readyQueue[j] == kept[j]
      requires Sane(after) && currTask in kept && currTask.pid == after.cur && nextPid == after.lastPid
      modifies this`k, this`list
      ensures Valid() && k == after && list == kept
    {
      hide Sane, Chain, Shown;
      k := after;
      list := kept;
    }

    /** A live swap: the new scheduler starts empty and is fed the live tasks. */
    method SwapScheduler()
      requires Valid()
      modifies this`listhead, this`listtail, this`list, this`k, sched, sched.readyQueue, list`next
      ensures Valid() && k == Tasks.Step(old(k), Swap) && forall p :: p in list ==> p in old(list)
    {
      hide *;
      ValidParts();
      SwapFacts(k);
      SeparateAll();
      sched.Reset();
      ghost var kept := PruneAndFeed();
      PickedAll(list, kept, k.list, k.state);
      CurrentKept(list, kept, Live(k.list, k.state), currTask);
      KeptRecords(kept);
      Install(kept, Tasks.Step(k, Swap));
    }

    lemma ValidParts()
      requires Valid()
      ensures Linked() && Records() && sched.Valid() && Sane(k) && Distinct(k.list)
      ensures currTask in list && currTask.pid == k.cur && nextPid == k.lastPid
    {
    }
  }

  lemma SwapFacts(k: Kernel)
    requires Sane(k)
    ensures var r := Tasks.Step(k, Swap);
            && r.list == Live(k.list, k.state) && r.state == k.state && r.regs == k.regs && r.idx == 0 && r.cur == k.cur
            && r.lastPid == k.lastPid && |r.queue| == (if |r.list| <= QUEUE_SIZE then |r.list| else QUEUE_SIZE)
            && Sane(r) && k.cur in r.list && r.list != []
  {
    hide Live;
    EnqueueAllIsPrefix(Live(k.list, k.state));
    StepSane(k, Swap);
  }

  /** The parts of the state a pick changes. */
  lemma ScheduleFacts(k: Kernel, regs: Frame)
    requires k.queue != []
    ensures var after, (i, next) := Schedule(k, regs), Search(k.queue, k.state, k.idx, |k.queue|);
            after == k.(regs := k.regs[k.cur := regs], idx := i, cur := if next.Some? then next.value else k.cur)
  {
  }

  lemma QueueFront(k: Kernel)
    requires k.queue == Prefix(k.list)
    ensures |k.queue| <= |k.list| && forall i :: 0 <= i < |k.queue| ==> k.queue[i] == k.list[i]
  {
  }

  lemma SaneFacts(k: Kernel)
    requires Sane(k)
    ensures Distinct(k.list) && |k.queue| <= |k.list|
  {
  }

  /** The parts of the state a new task changes. */
  lemma CreateFacts(k: Kernel, entry: Frame)
    requires Sane(k)
    ensures var after, p := Tasks.Step(k, Create(entry)), k.lastPid + 1;
            && after.list == k.list + [p] && after.state == k.state[p := 1] && after.regs == k.regs[p := entry]
            && after.idx == k.idx && after.cur == k.cur && after.lastPid == p
            && |k.queue| <= QUEUE_SIZE && (|k.queue| < QUEUE_SIZE ==> |k.queue| == |k.list|)
            && |after.queue| == if |k.queue| < QUEUE_SIZE then |k.queue| + 1 else |k.queue|
    ensures forall i :: 0 <= i < |k.list| ==> k.list[i] <= k.lastPid
  {
    forall i | 0 <= i < |k.list| ensures k.list[i] <= k.lastPid { assert k.list[i] in k.list; }
  }

  /** The records kept so far are those of the live tasks among the first `i`. */
  ghost predicate Picked(all: seq<Process>, kept: seq<Process>, ids: seq<nat>, state: map<nat, nat>, i: nat) {
    && i <= |ids| == |all| && |kept| == |Live(ids[..i], state)|
    && (forall j :: 0 <= j < |kept| ==> kept[j].pid == Live(ids[..i], state)[j])
    && (forall p :: p in kept ==> p in all[..i])
    && (forall j, n :: 0 <= j < n < |kept| ==> kept[j] != kept[n])
  }

  lemma PickedNext(all: seq<Process>, kept: seq<Process>, ids: seq<nat>, state: map<nat, nat>, i: nat)
    requires Picked(all, kept, ids, state, i) && i < |ids| && all[i].pid == ids[i] && ids[i] in state
    requires forall m, n :: 0 <= m < n < |all| ==> all[m] != all[n]
    ensures state[ids[i]] == 0 ==> Picked(all, kept, ids, state, i + 1)
    ensures state[ids[i]] > 0 ==> Picked(all, kept + [all[i]], ids, state, i + 1)
  {
    hide Live;
    LiveNext(ids, state, i);
    assert all[..i + 1] == all[..i] + [all[i]];
    assert all[i] !in all[..i];
  }

  /** Kept records lie before position `i`. */
  lemma KeptBefore(all: seq<Process>, kept: seq<Process>, ids: seq<nat>, state: map<nat, nat>, i: nat)
    requires Picked(all, kept, ids, state, i)
    requires forall m, n :: 0 <= m < n < |all| ==> all[m] != all[n]
    ensures kept != [] ==> kept[|kept| - 1] in all && forall m :: i <= m < |all| ==> all[m] != kept[|kept| - 1]
    ensures forall j, n :: 0 <= j < n < |kept| ==> kept[j] != kept[n]
  {
    hide Live;
    if kept != [] {
      var p := kept[|kept| - 1];
      assert p in kept;
      var m :| 0 <= m < i && all[..i][m] == p;
      assert all[m] == p;
    }
  }

  lemma PickedStart(all: seq<Process>, ids: seq<nat>, state: map<nat, nat>)
    requires |all| == |ids|
    ensures Picked(all, [], ids, state, 0)
  {
  }

  lemma PickedAll(all: seq<Process>, kept: seq<Process>, ids: seq<nat>, state: map<nat, nat>)
    requires Picked(all, kept, ids, state, |all|)
    ensures |kept| == |Live(ids, state)| && forall j :: 0 <= j < |kept| ==> kept[j].pid == Live(ids, state)[j]
    ensures forall p :: p in kept ==> p in all
  {
    assert ids[..|ids|] == ids && all[..|all|] == all;
  }

  lemma CurrentKept(all: seq<Process>, kept: seq<Process>, live: seq<nat>, p: Process)
    requires p in all && p.pid in live && |kept| == |live| && forall j :: 0 <= j < |kept| ==> kept[j].pid == live[j]
    requires forall q :: q in kept ==> q in all
    requires forall m, n :: 0 <= m < n < |all| ==> all[m].pid != all[n].pid
    ensures p in kept
  {
    var j :| 0 <= j < |live| && live[j] == p.pid;
    assert kept[j] in kept && kept[j].pid == p.pid;
  }

  lemma LiveNext(ids: seq<nat>, state: map<nat, nat>, i: nat)
    requires i < |ids|
    ensures Live(ids[..i + 1], state)
         == if ids[i] in state && state[ids[i]] > 0 then Live(ids[..i], state) + [ids[i]] else Live(ids[..i], state)
  {
    assert ids[..i + 1][..i] == ids[..i];
  }
}
