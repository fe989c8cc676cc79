/** The scheduler in memory: a run queue of task objects whose states and ticks it updates. A
    context switch is an atomic change of the current task. */
module Sched {
  import opened TaskTypes
  import opened SchedSpec

  const QUEUE_SIZE: nat := 8

  lemma CurrentHasTicks(st: St)
    requires Inv(st)
    ensures st.cur < |st.ticks| && st.ticks[st.cur] >= 1
  {
  }

  class Task {
    var state: TaskState
    var ticks: nat

    constructor ()
      ensures state == Ready && ticks == QUANTUM
    {
      state := Ready;
      ticks := QUANTUM;
    }
  }

  class Scheduler {
    var queue: seq<Task>
    var currentIdx: nat
    var current: Task?

    /** The queue entries are distinct and the current task is the one at the current index. */
    ghost predicate Shaped()
      reads this
    {
      && |queue| <= QUEUE_SIZE && currentIdx < |queue| && current == queue[currentIdx]
      && forall i, j | 0 <= i < j < |queue| :: queue[i] != queue[j]
    }

    ghost function View(): (st: St)
      reads this, queue
      ensures |st.states| == |st.ticks| == |queue| && st.cur == currentIdx
      ensures forall i | 0 <= i < |queue| :: st.states[i] == queue[i].state
      ensures forall i | 0 <= i < |queue| :: st.ticks[i] == queue[i].ticks
    {
      St(seq(|queue|, i requires 0 <= i < |queue| reads this, queue => queue[i].state),
         seq(|queue|, i requires 0 <= i < |queue| reads this, queue => queue[i].ticks),
         currentIdx)
    }

    ghost predicate Valid()
      reads this, queue
    {
      Shaped() && Inv(View())
    }

    /** Not yet started, or started and valid. */
    ghost predicate Sound()
      reads this, queue
    {
      && |queue| <= QUEUE_SIZE && (forall i, j | 0 <= i < j < |queue| :: queue[i] != queue[j])
      && (current != null ==> Valid())
    }

    constructor ()
      ensures queue == [] && currentIdx == 0 && current == null
    {
      queue := [];
      currentIdx := 0;
      current := null;
    }

    method Add(t: Task)
      requires |queue| <= QUEUE_SIZE
      modifies this`queue
      ensures queue == if |old(queue)| < QUEUE_SIZE then old(queue) + [t] else old(queue)
    {
      if |queue| >= QUEUE_SIZE {
        return;
      }
      queue := queue + [t];
    }

    /** Searches the queue from the entry after the current one, all the way round. */
    method NextReady() returns (t: Task)
      requires Shaped()
      ensures Next(View()) < |queue| && t == queue[Next(View())]
    {
      NextInRange(View());
      var i := 1;
      while i <= |queue|
        invariant 1 <= i <= |queue| + 1
        invariant ReadyFrom(View(), i) == ReadyFrom(View(), 1)
      {
        AroundIsMod(currentIdx, i, |queue|);
        var idx := (currentIdx + i) % |queue|;
        if queue[idx].state == Ready {
          return queue[idx];
        }
        i := i + 1;
      }
      return current;
    }

    method IdxOf(t: Task) returns (idx: nat)
      requires Shaped()
      ensures idx < |queue|
      ensures t in queue ==> queue[idx] == t
    {
      for i := 0 to |queue|
        invariant forall k | 0 <= k < i :: queue[k] != t
      {
        if queue[i] == t {
          return i;
        }
      }
      return 0;
    }

    /** Makes another task current. */
    method SwitchToTask(next: Task, ghost j: nat)
      requires Shaped() && j < |queue| && next == queue[j] && next != current
      modifies this`currentIdx, this`current, queue
      ensures Shaped() && View() == SwitchTo(old(View()), j)
    {
      var prev := current;
      currentIdx := IdxOf(next);
      current := next;
      prev.state := Ready;
      next.state := Running;
      next.ticks := QUANTUM;
      assert currentIdx == j;
    }

    /** The timer interrupt; before the start it does nothing. */
    method Tick()
      requires Sound()
      modifies this`currentIdx, this`current, queue
      ensures old(current) == null ==> current == null && View() == old(View())
      ensures old(current) != null ==> Valid() && View() == Step(old(View()), SchedSpec.Tick)
    {
      hide Next, SwitchTo, Inv;
      if current == null {
        return;
      }
      StepKeepsInv(View(), SchedSpec.Tick);
      CurrentHasTicks(View());
      ghost var st0 := View();
      if current.ticks > 0 {
        current.ticks := current.ticks - 1;
      }
      assert View() == st0.(ticks := st0.ticks[st0.cur := st0.ticks[st0.cur] - 1]);
      if current.ticks > 0 {
        return;
      }
      Expire();
    }

    /** The quantum is used up: run the next READY task, or start a new quantum. */
    method Expire()
      requires Shaped()
      modifies this`currentIdx, this`current, queue
      ensures Shaped() && Next(old(View())) < |queue|
      ensures var st := old(View());
              View() == if Next(st) == st.cur then st.(ticks := st.ticks[st.cur := QUANTUM]) else SwitchTo(st, Next(st))
    {
      hide Next, SwitchTo, Inv;
      ghost var st0 := View();
      var next := NextReady();
      if next == current {
        current.ticks := QUANTUM;
        assert View() == st0.(ticks := st0.ticks[st0.cur := QUANTUM]);
        return;
      }
      SwitchToTask(next, Next(st0));
    }

    method Yield()
      requires current != null ==> Shaped()
      modifies this`currentIdx, this`current, queue
      ensures old(current) == null ==> current == null && View() == old(View())
      ensures old(current) != null ==> Shaped() && View() == YieldStep(old(View()))
    {
      if current == null {
        return;
      }
      var next := NextReady();
      if next == current {
        return;
      }
      SwitchToTask(next, Next(View()));
    }

    /** Marks a task BLOCKED and, if it is the current one, gives up the CPU. */
    method Block(t: Task?, ghost i: nat)
      requires Sound() && (t != null ==> i < |queue| && t == queue[i])
      modifies this`currentIdx, this`current, queue
      ensures t == null ==> current == old(current) && View() == old(View())
      ensures t != null && old(current) == null ==>
                current == null && View() == old(View()).(states := old(View()).states[i := Blocked])
      ensures t != null && old(current) != null ==> Valid() && View() == Step(old(View()), SchedSpec.Block(i))
    {
      if t == null {
        return;
      }
      if current != null {
        StepKeepsInv(View(), SchedSpec.Block(i));
      }
      ghost var st0 := View();
      t.state := Blocked;
      assert View() == st0.(states := st0.states[i := Blocked]);
      if t == current {
        Yield();
      }
    }

    method Unblock(t: Task?, ghost i: nat)
      requires Sound() && (t != null ==> i < |queue| && t == queue[i])
      modifies queue
      ensures t == null ==> View() == old(View())
      ensures t != null && current == null ==>
                View() == if old(t.state) == Blocked then old(View()).(states := old(View()).states[i := Ready]) else old(View())
      ensures t != null && current != null ==> Valid() && View() == Step(old(View()), SchedSpec.Unblock(i))
    {
      if t == null {
        return;
      }
      if current != null {
        StepKeepsInv(View(), SchedSpec.Unblock(i));
      }
      ghost var st0 := View();
      if t.state == Blocked {
        t.state := Ready;
        assert View() == st0.(states := st0.states[i := Ready]);
      }
    }

    /** Hands the CPU to the second task if it is READY, else to the first. */
    method Start() returns (ok: bool)
      requires |queue| <= QUEUE_SIZE && forall i, j | 0 <= i < j < |queue| :: queue[i] != queue[j]
      requires forall i | 0 <= i < |queue| :: queue[i].state != Running && 1 <= queue[i].ticks <= QUANTUM
      modifies this`currentIdx, this`current, queue
      ensures ok <==> |queue| > 0
      ensures ok ==> Valid() && current.state == Running
      ensures ok ==> currentIdx == if |queue| > 1 && old(queue[1].state) == Ready then 1 else 0
      ensures ok && currentIdx == 1 ==> queue[0].state == Ready && current.ticks == 10
      ensures queue == old(queue) && forall i | 0 <= i < |queue| :: i != currentIdx && i != 0 ==> queue[i].state == old(queue[i].state)
    {
      if |queue| == 0 {
        return false;
      }
      current := queue[0];
      currentIdx := 0;
      current.state := Running;
      if |queue| > 1 && queue[1].state == Ready {
        var first := queue[1];
        var prev := current;
        current := first;
        currentIdx := 1;
        first.state := Running;
        first.ticks := QUANTUM;
        prev.state := Ready;
      }
      return true;
    }
  }
}
