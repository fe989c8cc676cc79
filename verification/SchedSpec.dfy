/** Round-robin scheduling over values: the queue of task states, their remaining ticks and the
    index of the current task. */
module SchedSpec {
  import opened TaskTypes

  const QUANTUM: nat := 10

  datatype St = St(states: seq<TaskState>, ticks: seq<nat>, cur: nat)

  /** Queue position `i` places after `cur`, wrapping around. */
  function Around(cur: nat, i: nat, n: nat): nat
    requires cur < n && i <= n
  {
    if cur + i < n then cur + i else cur + i - n
  }

  lemma AroundIsMod(cur: nat, i: nat, n: nat)
    requires cur < n && i <= n
    ensures Around(cur, i, n) == (cur + i) % n && Around(cur, i, n) < n
  {
    if cur + i >= n {
      assert (cur + i - n) % n == cur + i - n;
      assert (cur + i) % n == (cur + i - n) % n by { ModMinus(cur + i, n); }
    }
  }

  lemma ModMinus(a: nat, n: nat)
    requires 0 < n <= a < 2 * n
    ensures a % n == (a - n) % n
  {
    assert a == n * 1 + (a - n);
  }

  /** How many places after `cur` the position `t` comes, from 1 (next) to `n` (`cur` itself). */
  function Distance(cur: nat, t: nat, n: nat): nat
    requires cur < n && t < n
  {
    if t > cur then t - cur else t + n - cur
  }

  /** The distance to the first READY task at distance `i` or more, or `n + 1` if there is none. */
  function ReadyFrom(st: St, i: nat): nat
    requires st.cur < |st.states| && 1 <= i <= |st.states| + 1
    decreases |st.states| + 1 - i
  {
    if i > |st.states| then i
    else if st.states[Around(st.cur, i, |st.states|)] == Ready then i
    else ReadyFrom(st, i + 1)
  }

  /** Who runs next: the first READY task after the current, else the current. */
  function Next(st: St): (j: nat)
    requires st.cur < |st.states|
  {
    var i := ReadyFrom(st, 1);
    if i > |st.states| then st.cur else Around(st.cur, i, |st.states|)
  }

  function SwitchTo(st: St, j: nat): St
    requires st.cur < |st.states| == |st.ticks| && j < |st.states|
  {
    if j == st.cur then st
    else St(st.states[st.cur := Ready][j := Running], st.ticks[j := QUANTUM], j)
  }

  /** What every event keeps: nothing but the current task is RUNNING. */
  ghost predicate Inv(st: St) {
    && st.cur < |st.states| == |st.ticks|
    && 1 <= st.ticks[st.cur] <= QUANTUM
    && forall i | 0 <= i < |st.states| && i != st.cur :: st.states[i] != Running
  }

  datatype Event = Tick | Yield | Block(task: nat) | Unblock(task: nat)

  function TickStep(st: St): St
    requires st.cur < |st.states| == |st.ticks|
  {
    var left := if st.ticks[st.cur] > 0 then st.ticks[st.cur] - 1 else 0;
    var st' := st.(ticks := st.ticks[st.cur := left]);
    if left > 0 then st'
    else
      NextInRange(st');
      if Next(st') == st.cur then st'.(ticks := st'.ticks[st.cur := QUANTUM])
      else SwitchTo(st', Next(st'))
  }

  function YieldStep(st: St): St
    requires st.cur < |st.states| == |st.ticks|
  {
    NextInRange(st);
    SwitchTo(st, Next(st))
  }

  function Step(st: St, e: Event): St
    requires st.cur < |st.states| == |st.ticks|
  {
    match e
    case Tick => TickStep(st)
    case Yield => YieldStep(st)
    case Block(i) =>
      if i >= |st.states| then st
      else if i == st.cur then YieldStep(st.(states := st.states[i := Blocked]))
      else st.(states := st.states[i := Blocked])
    case Unblock(i) =>
      if i < |st.states| && st.states[i] == Blocked then st.(states := st.states[i := Ready]) else st
  }

  lemma {:induction false} ReadyFromBounds(st: St, i: nat)
    requires st.cur < |st.states| && 1 <= i <= |st.states| + 1
    ensures i <= ReadyFrom(st, i) <= |st.states| + 1
    ensures ReadyFrom(st, i) <= |st.states| ==> st.states[Around(st.cur, ReadyFrom(st, i), |st.states|)] == Ready
    ensures forall k | i <= k < ReadyFrom(st, i) :: st.states[Around(st.cur, k, |st.states|)] != Ready
    decreases |st.states| + 1 - i
  {
    if i <= |st.states| && st.states[Around(st.cur, i, |st.states|)] != Ready {
      ReadyFromBounds(st, i + 1);
    }
  }

  lemma NextInRange(st: St)
    requires st.cur < |st.states|
    ensures Next(st) < |st.states|
  {
    ReadyFromBounds(st, 1);
  }

  /** The next task never lies beyond a READY task. */
  lemma NextIsNotBeyond(st: St, t: nat)
    requires st.cur < |st.states| && t < |st.states| && t != st.cur && st.states[t] == Ready
    ensures Next(st) < |st.states| && Next(st) != st.cur && st.states[Next(st)] == Ready
    ensures Distance(st.cur, Next(st), |st.states|) <= Distance(st.cur, t, |st.states|)
    ensures Next(st) == t
         || Distance(st.cur, t, |st.states|) == Distance(st.cur, Next(st), |st.states|) + Distance(Next(st), t, |st.states|)
  {
    var n := |st.states|;
    ReadyFromBounds(st, 1);
    assert Around(st.cur, Distance(st.cur, t, n), n) == t;
  }

  // ---- Safety ----------------------------------------------------------------------------

  lemma StepKeepsInv(st: St, e: Event)
    requires Inv(st)
    ensures Inv(Step(st, e))
    ensures |Step(st, e).states| == |st.states|
  {
    NextInRange(st);
  }

  function Run(st: St, events: seq<Event>): St
    requires st.cur < |st.states| == |st.ticks|
    decreases events
  {
    if events == [] then st
    else
      StepShape(st, events[0]);
      Run(Step(st, events[0]), events[1..])
  }

  lemma StepShape(st: St, e: Event)
    requires st.cur < |st.states| == |st.ticks|
    ensures Step(st, e).cur < |Step(st, e).states| == |Step(st, e).ticks|
    ensures |Step(st, e).states| == |st.states|
  {
    NextInRange(st);
  }

  /** In every reachable state no task other than the current one is RUNNING. */
  lemma {:induction false} OnlyCurrentRuns(st: St, events: seq<Event>)
    requires Inv(st)
    ensures Inv(Run(st, events))
    decreases events
  {
    if events != [] {
      StepKeepsInv(st, events[0]);
      OnlyCurrentRuns(Step(st, events[0]), events[1..]);
    }
  }

  // ---- Bounded waiting -------------------------------------------------------------------

  /** Ticks that can still pass before `t` runs. */
  function Wait(st: St, t: nat): nat
    requires st.cur < |st.states| == |st.ticks| && t < |st.states|
  {
    QUANTUM * (Distance(st.cur, t, |st.states|) - 1) + st.ticks[st.cur]
  }

  /** Handing the CPU to the next READY task brings `t` nearer, if it is not `t` itself. */
  lemma SwitchShortensWait(st: St, t: nat)
    requires st.cur < |st.states| == |st.ticks| && t < |st.states| && t != st.cur && st.states[t] == Ready
    ensures Next(st) < |st.states| && Next(st) != st.cur
    ensures var st' := SwitchTo(st, Next(st));
            st'.cur == t || (st'.cur != t && st'.states[t] == Ready
                             && Wait(st', t) <= QUANTUM * (Distance(st.cur, t, |st.states|) - 1))
  {
    NextIsNotBeyond(st, t);
  }

  /** While `t` waits, a tick shortens its wait and no other event lengthens it. */
  lemma StepShortensWait(st: St, t: nat, e: Event)
    requires Inv(st) && t < |st.states| && t != st.cur && st.states[t] == Ready && e != Block(t)
    ensures Step(st, e).cur < |st.states| && |Step(st, e).states| == |st.states| == |Step(st, e).ticks|
    ensures Step(st, e).cur != t ==>
              && Step(st, e).states[t] == Ready
              && Wait(Step(st, e), t) + (if e == Tick then 1 else 0) <= Wait(st, t)
  {
    hide Next, Distance;
    match e
    case Tick =>
      var left := st.ticks[st.cur] - 1;
      var st1 := st.(ticks := st.ticks[st.cur := left]);
      if left == 0 {
        SwitchShortensWait(st1, t);
      }
    case Yield => SwitchShortensWait(st, t);
    case Block(i) =>
      if i == st.cur {
        SwitchShortensWait(st.(states := st.states[i := Blocked]), t);
      }
    case Unblock(i) =>
  }

  function Ticks(events: seq<Event>): nat {
    if events == [] then 0 else (if events[0] == Tick then 1 else 0) + Ticks(events[1..])
  }

  /** At some point of the run, possibly at once, `t` is the current task. */
  ghost predicate GetsCpu(st: St, events: seq<Event>, t: nat)
    requires st.cur < |st.states| == |st.ticks|
    decreases events
  {
    st.cur == t
    || (events != [] && (StepShape(st, events[0]); GetsCpu(Step(st, events[0]), events[1..], t)))
  }

  lemma {:induction false} WaitIsEnough(st: St, events: seq<Event>, t: nat)
    requires Inv(st) && t < |st.states| && t != st.cur && st.states[t] == Ready
    requires (forall k | 0 <= k < |events| :: events[k] != Block(t)) && Ticks(events) >= Wait(st, t)
    ensures GetsCpu(st, events, t)
    decreases events
  {
    hide Step, Distance, Inv;
    InvFacts(st, t);
    assert events != [];
    StepShape(st, events[0]);
    StepKeepsInv(st, events[0]);
    StepShortensWait(st, t, events[0]);
    if Step(st, events[0]).cur != t {
      WaitIsEnough(Step(st, events[0]), events[1..], t);
    }
  }

  lemma InvFacts(st: St, t: nat)
    requires Inv(st) && t < |st.states|
    ensures st.cur < |st.states| == |st.ticks| && 1 <= st.ticks[st.cur] <= QUANTUM
    ensures Distance(st.cur, t, |st.states|) >= 1
    ensures Wait(st, t) >= 1
  {
  }

  /** Round robin: a READY task at distance `d` gets the CPU within `10 * d` timer ticks under any
      mix of ticks, yields, blocks and unblocks that does not block that task itself. */
  lemma BoundedWaiting(st: St, events: seq<Event>, t: nat)
    requires Inv(st) && t < |st.states| && t != st.cur && st.states[t] == Ready
    requires forall k | 0 <= k < |events| :: events[k] != Block(t)
    requires Ticks(events) >= QUANTUM * Distance(st.cur, t, |st.states|)
    ensures GetsCpu(st, events, t)
  {
    InvFacts(st, t);
    WaitIsEnough(st, events, t);
  }

  // ---- Switching -------------------------------------------------------------------------

  /** Some task other than the current one is READY. */
  ghost predicate OtherReady(st: St)
    requires st.cur < |st.states|
  {
    exists t :: 0 <= t < |st.states| && t != st.cur && st.states[t] == Ready
  }

  lemma NextAlone(st: St)
    requires st.cur < |st.states| && !OtherReady(st)
    ensures Next(st) == st.cur
  {
    ReadyFromBounds(st, 1);
    var i := ReadyFrom(st, 1);
    if i <= |st.states| && Around(st.cur, i, |st.states|) != st.cur {
      assert false;
    }
  }

  /** Giving up the processor: without another READY task nothing changes; with one, the nearest runs with
      ten ticks, the old one becomes READY, and nothing else changes. */
  lemma YieldMeans(st: St)
    requires st.cur < |st.states| == |st.ticks|
    ensures !OtherReady(st) ==> YieldStep(st) == st
    ensures OtherReady(st) ==>
              var st' := YieldStep(st); var j := st'.cur;
              && j < |st.states| && j != st.cur && st.states[j] == Ready
              && |st'.states| == |st'.ticks| == |st.states|
              && st'.states[j] == Running && st'.ticks[j] == 10 && st'.states[st.cur] == Ready
              && (forall t | 0 <= t < |st.states| && t != st.cur && st.states[t] == Ready ::
                    Distance(st.cur, j, |st.states|) <= Distance(st.cur, t, |st.states|))
              && (forall k | 0 <= k < |st.states| && k != j && k != st.cur :: st'.states[k] == st.states[k])
              && (forall k | 0 <= k < |st.states| && k != j :: st'.ticks[k] == st.ticks[k])
  {
    hide Next, Distance;
    if OtherReady(st) {
      forall t | 0 <= t < |st.states| && t != st.cur && st.states[t] == Ready
        ensures Next(st) < |st.states| && Next(st) != st.cur && st.states[Next(st)] == Ready
        ensures Distance(st.cur, Next(st), |st.states|) <= Distance(st.cur, t, |st.states|)
      {
        NextIsNotBeyond(st, t);
      }
    } else {
      NextAlone(st);
    }
  }

  lemma InvShape(st: St)
    requires Inv(st)
    ensures st.cur < |st.states| == |st.ticks| && 1 <= st.ticks[st.cur]
  {
  }

  /** `k` timer ticks and nothing else. */
  function TickRun(k: nat): (e: seq<Event>)
    ensures |e| == k && forall i | 0 <= i < k :: e[i] == Tick
  {
    if k == 0 then [] else [Tick] + TickRun(k - 1)
  }

  /** A task keeps the processor for the ticks it has left, and the last of them hands over as a yield
      does, or starts ten new ticks when nobody else is READY. */
  lemma {:induction false} QuantumIsUsed(st: St, k: nat)
    requires Inv(st) && 1 <= k <= st.ticks[st.cur]
    ensures k < st.ticks[st.cur] ==> Run(st, TickRun(k)) == st.(ticks := st.ticks[st.cur := st.ticks[st.cur] - k])
    ensures k == st.ticks[st.cur] ==>
              var st0 := st.(ticks := st.ticks[st.cur := 0]);
              Run(st, TickRun(k)) == if OtherReady(st) then YieldStep(st0) else st.(ticks := st.ticks[st.cur := 10])
    decreases k
  {
    hide Next, YieldStep, Inv;
    InvShape(st);
    var left := st.ticks[st.cur] - 1;
    var st1 := st.(ticks := st.ticks[st.cur := left]);
    assert TickRun(k)[1..] == TickRun(k - 1);
    if left == 0 {
      assert st.(ticks := st.ticks[st.cur := 0]) == st1;
      LastTick(st);
      assert k == 1 && TickRun(0) == [];
    } else {
      assert TickStep(st) == st1;
      if k > 1 {
        StepKeepsInv(st, Tick);
        QuantumIsUsed(st1, k - 1);
        assert st1.ticks[st1.cur := st1.ticks[st1.cur] - (k - 1)] == st.ticks[st.cur := st.ticks[st.cur] - k];
        assert st1.ticks[st1.cur := 0] == st.ticks[st.cur := 0] && st1.ticks[st1.cur := 10] == st.ticks[st.cur := 10];
        assert OtherReady(st1) == OtherReady(st);
      } else {
        assert TickRun(0) == [];
      }
    }
  }

  lemma LastTick(st: St)
    requires st.cur < |st.states| == |st.ticks| && st.ticks[st.cur] == 1
    ensures var st0 := st.(ticks := st.ticks[st.cur := 0]);
            TickStep(st) == if OtherReady(st) then YieldStep(st0) else st.(ticks := st.ticks[st.cur := 10])
  {
    hide Next;
    var st0 := st.(ticks := st.ticks[st.cur := 0]);
    if OtherReady(st) {
      var t :| 0 <= t < |st.states| && t != st.cur && st.states[t] == Ready;
      NextIsNotBeyond(st0, t);
    } else {
      assert !OtherReady(st0);
      NextAlone(st0);
      assert st0.ticks[st.cur := 10] == st.ticks[st.cur := 10];
    }
  }

  // ---- Blocking --------------------------------------------------------------------------

  /** An unblocked task is READY, and runs within ten ticks for each place it is away; unblocking a task that is
      not BLOCKED does nothing. */
  lemma UnblockedRuns(st: St, events: seq<Event>, t: nat)
    requires Inv(st) && t < |st.states|
    ensures st.states[t] != Blocked ==> Step(st, Unblock(t)) == st
    ensures st.states[t] == Blocked ==> Step(st, Unblock(t)) == st.(states := st.states[t := Ready])
    ensures && st.states[t] == Blocked && t != st.cur && (forall k | 0 <= k < |events| :: events[k] != Block(t))
            && Ticks(events) >= 10 * Distance(st.cur, t, |st.states|)
            ==> GetsCpu(Step(st, Unblock(t)), events, t)
  {
    hide GetsCpu, Distance;
    StepKeepsInv(st, Unblock(t));
    if && st.states[t] == Blocked && t != st.cur && (forall k | 0 <= k < |events| :: events[k] != Block(t))
       && Ticks(events) >= 10 * Distance(st.cur, t, |st.states|) {
      BoundedWaiting(Step(st, Unblock(t)), events, t);
    }
  }

  lemma BlockedStep(st: St, t: nat, e: Event)
    requires Inv(st) && t < |st.states| && t != st.cur && st.states[t] == Blocked && e != Unblock(t)
    ensures Inv(Step(st, e)) && |Step(st, e).states| == |st.states|
    ensures Step(st, e).cur != t && Step(st, e).states[t] == Blocked
  {
    hide Next;
    StepKeepsInv(st, e);
    NextInRange(st);
    match e
    case Tick =>
      if st.ticks[st.cur] == 1 {
        LastTick(st);
        YieldMeans(st.(ticks := st.ticks[st.cur := 0]));
      }
    case Yield => YieldMeans(st);
    case Block(i) =>
      if i == st.cur {
        YieldMeans(st.(states := st.states[i := Blocked]));
      }
    case Unblock(i) =>
  }

  /** A BLOCKED task that is not the current one stays off the processor until it is unblocked. */
  lemma {:induction false} BlockedStaysOff(st: St, events: seq<Event>, t: nat)
    requires Inv(st) && t < |st.states| && t != st.cur && st.states[t] == Blocked
    requires forall k | 0 <= k < |events| :: events[k] != Unblock(t)
    ensures !GetsCpu(st, events, t) && t < |Run(st, events).states| && Run(st, events).states[t] == Blocked
    decreases events
  {
    hide Step, Inv;
    if events != [] {
      InvFacts(st, t);
      StepShape(st, events[0]);
      BlockedStep(st, t, events[0]);
      BlockedStaysOff(Step(st, events[0]), events[1..], t);
    }
  }

  /** A task that blocks itself: with another READY task it is READY again, behind that task, and without one it
      keeps the processor. */
  lemma SelfBlock(st: St)
    requires Inv(st)
    ensures Inv(Step(st, Block(st.cur))) && |Step(st, Block(st.cur)).states| == |st.states|
    ensures OtherReady(st) ==> Step(st, Block(st.cur)).cur != st.cur && Step(st, Block(st.cur)).states[st.cur] == Ready
    ensures !OtherReady(st) ==> Step(st, Block(st.cur)) == st.(states := st.states[st.cur := Blocked])
  {
    hide Next;
    StepKeepsInv(st, Block(st.cur));
    var st1 := st.(states := st.states[st.cur := Blocked]);
    if OtherReady(st) {
      var t :| 0 <= t < |st.states| && t != st.cur && st.states[t] == Ready;
      assert st1.states[t] == Ready;
      assert OtherReady(st1);
    } else {
      assert !OtherReady(st1);
    }
    YieldMeans(st1);
  }

  lemma {:induction false} TicksOf(k: nat)
    ensures Ticks(TickRun(k)) == k
  {
    if k > 0 {
      TicksOf(k - 1);
      assert TickRun(k)[1..] == TickRun(k - 1);
    }
  }

  /** Without being unblocked, `t` never has the processor. */
  ghost predicate KeptOff(st: St, t: nat)
    requires st.cur < |st.states| == |st.ticks|
  {
    forall events: seq<Event> | (forall k | 0 <= k < |events| :: events[k] != Unblock(t)) :: !GetsCpu(st, events, t)
  }

  /** Blocking keeps a task off the processor until it is unblocked exactly when it is not the current one:
      a task that blocks itself keeps the processor, or is READY and has it again by and by. */
  lemma BlockHoldsIff(st: St, t: nat)
    requires Inv(st) && t < |st.states|
    ensures Inv(Step(st, Block(t)))
    ensures KeptOff(Step(st, Block(t)), t) <==> t != st.cur
  {
    hide Inv, Step, Next, Distance, GetsCpu;
    InvShape(st);
    StepKeepsInv(st, Block(t));
    var st' := Step(st, Block(t));
    if t != st.cur {
      BlockOther(st, t);
      forall events: seq<Event> | (forall k | 0 <= k < |events| :: events[k] != Unblock(t)) ensures !GetsCpu(st', events, t) {
        BlockedStaysOff(st', events, t);
      }
    } else {
      var events := SelfBlockRuns(st);
    }
  }

  lemma BlockOther(st: St, t: nat)
    requires Inv(st) && t < |st.states| && t != st.cur
    ensures Step(st, Block(t)).states[t] == Blocked && Step(st, Block(t)).cur == st.cur
    ensures |Step(st, Block(t)).states| == |st.states|
  {
  }

  /** A run without any unblocking in which a task that blocked itself has the processor. */
  lemma SelfBlockRuns(st: St) returns (events: seq<Event>)
    requires Inv(st)
    ensures Inv(Step(st, Block(st.cur)))
    ensures (forall k | 0 <= k < |events| :: events[k] == Tick) && GetsCpu(Step(st, Block(st.cur)), events, st.cur)
  {
    hide Step, Distance;
    SelfBlock(st);
    var st' := Step(st, Block(st.cur));
    if st'.cur == st.cur {
      events := [];
    } else {
      var d := QUANTUM * Distance(st'.cur, st.cur, |st'.states|);
      events := TickRun(d);
      TicksOf(d);
      assert st'.states[st.cur] == Ready;
      BoundedWaiting(st', events, st.cur);
    }
  }

  /** Two tasks: the first blocks itself, and after ten ticks of the second it runs again. */
  lemma SelfBlockExample()
    ensures var st := St([Running, Ready], [10, 10], 0);
            && Inv(st) && Step(st, Block(0)) == St([Ready, Running], [10, 10], 1)
            && Run(Step(st, Block(0)), TickRun(10)) == St([Running, Ready], [10, 0], 0)
  {
    hide Next, Run, TickRun;
    var st, st' := St([Running, Ready], [10, 10], 0), St([Ready, Running], [10, 10], 1);
    var st1 := St([Blocked, Ready], [10, 10], 0);
    assert st1.states[1] == Ready;
    NextIsNotBeyond(st1, 1);
    assert st.states[0 := Blocked] == st1.states && st1.states[0 := Ready][1 := Running] == st'.states && st1.ticks[1 := 10] == st'.ticks;
    QuantumIsUsed(st', 10);
    var st2 := st'.(ticks := st'.ticks[1 := 0]);
    assert st2.states[0] == Ready;
    NextIsNotBeyond(st2, 0);
    assert st2.states[1 := Ready][0 := Running] == [Running, Ready] && st2.ticks[0 := 10] == [10, 0];
  }
}
