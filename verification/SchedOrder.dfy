/**
 What schedule() runs (src/sched_core.c:154-222, src/ts.c:39-98): processes leave
 the run queue in the order they entered it, a cpu goes idle only when the queue is
 empty, and the process picked is the one that runs when schedule() returns.
 */
module SchedOrder {
  import opened Sched
  import opened SchedSafety

  // ---------- what enters and leaves the run queue ----------

  /** The processes an event puts at the end of the queue: a new one, or the runnable one a switch has left. */
  function Joining(s: State, e: Event): seq<Proc> {
    match e
    case Enqueue(p) => [p]
    case Step(c) =>
      if c < |s.cores| && s.cores[c].phase.OnNext? && s.cores[c].phase.prev.Some?
        && s.cores[c].phase.prev.p != s.cores[c].idle && s.cores[c].phase.prev.p !in s.dead
      then [s.cores[c].phase.prev.p] else []
    case _ => []
  }

  /** Event e is the moment at which schedule() on cpu c decides what to run. */
  predicate Picks(s: State, s': State, e: Event, c: Cpu) {
    && e == Step(c) && c < |s.cores| && c < |s'.cores| && s.cores[c].phase.Deciding? && s'.cores[c].phase.Picked?
  }

  /** The processes an event takes to run them, other than idle ones. */
  function Taking(s: State, s': State, e: Event): seq<Proc> {
    if e.Step? && Picks(s, s', e, e.c) && s'.cores[e.c].phase.next != s.cores[e.c].idle
    then [s'.cores[e.c].phase.next] else []
  }

  function Taken(run: seq<State>, events: seq<Event>, i: nat): seq<Proc>
    requires |run| == |events| + 1 && i < |run|
  {
    if i == 0 then [] else Taken(run, events, i - 1) + Taking(run[i - 1], run[i], events[i - 1])
  }

  /** Everything that entered the queue and was not taken out by sched_dequeue_proc, in order. */
  function Entered(run: seq<State>, events: seq<Event>, i: nat): seq<Proc>
    requires |run| == |events| + 1 && i < |run|
  {
    if i == 0 then []
    else
      var before, n, e := Entered(run, events, i - 1), |Taken(run, events, i - 1)|, events[i - 1];
      if e.Dequeue? && n <= |before| then before[..n] + Without(before[n..], e.p)
      else before + Joining(run[i - 1], e)
  }

  lemma IdleNotQueued(s: State, c: Cpu)
    requires Inv(s) && c < |s.cores|
    ensures s.cores[c].idle !in s.queue
  {
    assert s.cores[c].idle in Own(s.cores[c]);
    forall p | p in s.queue ensures p != s.cores[c].idle { assert QueuedOk(s, p); }
  }

  /** A decision takes the first of the queue, and the idle process only when there is none. */
  lemma PickIs(s: State, s': State, c: Cpu)
    requires Inv(s) && Enabled(s, Step(c)) && s' == Apply(s, Step(c)) && Picks(s, s', Step(c), c)
    ensures var k, k' := s.cores[c], s'.cores[c];
      && (k'.phase.next == k.idle <==> s.queue == [])
      && (s.queue != [] ==> k'.phase.next == s.queue[0] && s'.queue == s.queue[1..])
      && (s.queue == [] ==> s'.queue == []) && !k'.resched && k'.curr == k.curr
  {
    IdleNotQueued(s, c);
  }

  /** What enters and leaves accounts for the queue. */
  ghost predicate Accounts(s: State, s': State, e: Event) {
    if e.Dequeue? then s'.queue == Without(s.queue, e.p) && Taking(s, s', e) == []
    else Taking(s, s', e) + s'.queue == s.queue + Joining(s, e)
  }

  lemma QueueStep(s: State, s': State, e: Event)
    requires Inv(s) && Enabled(s, e) && s' == Apply(s, e)
    ensures Accounts(s, s', e)
  {
    if e.Step? && Picks(s, s', e, e.c) { PickIs(s, s', e.c); }
  }

  lemma TakeOut(entered: seq<Proc>, taken: seq<Proc>, queue: seq<Proc>, p: Proc)
    requires taken + queue == entered
    ensures |taken| <= |entered| && entered[..|taken|] + Without(entered[|taken|..], p) == taken + Without(queue, p)
  {
    assert entered[..|taken|] == taken && entered[|taken|..] == queue;
  }

  lemma Shift(entered: seq<Proc>, taken: seq<Proc>, queue: seq<Proc>, taking: seq<Proc>, queue': seq<Proc>,
    joining: seq<Proc>)
    requires taken + queue == entered && taking + queue' == queue + joining
    ensures taken + taking + queue' == entered + joining
  {
    assert taken + taking + queue' == taken + (taking + queue');
    assert taken + (queue + joining) == taken + queue + joining;
  }

  /** In every run, what was taken and then what is queued is what entered, in order: the processes run in the order in
      which they were enqueued or put back, none is skipped, none runs twice for one entry. */
  lemma {:induction false} FirstComeFirstServed(run: seq<State>, events: seq<Event>, i: nat)
    requires IsRun(run, events) && i < |run|
    ensures Taken(run, events, i) + run[i].queue == Entered(run, events, i)
  {
    if i > 0 {
      FirstComeFirstServed(run, events, i - 1);
      RunInv(run, events, i - 1);
      assert StepAt(run, events, i - 1);
      QueueStep(run[i - 1], run[i], events[i - 1]);
      OrderStep(run, events, i - 1);
    }
  }

  lemma OrderStep(run: seq<State>, events: seq<Event>, i: nat)
    requires |run| == |events| + 1 && i < |events| && Accounts(run[i], run[i + 1], events[i])
    requires Taken(run, events, i) + run[i].queue == Entered(run, events, i)
    ensures Taken(run, events, i + 1) + run[i + 1].queue == Entered(run, events, i + 1)
  {
    var s, s', e := run[i], run[i + 1], events[i];
    var taken, entered, taking, joining := Taken(run, events, i), Entered(run, events, i), Taking(s, s', e),
      Joining(s, e);
    assert Taken(run, events, i + 1) == taken + taking;
    if e.Dequeue? {
      TakeOut(entered, taken, s.queue, e.p);
      assert taken + [] == taken;
    } else {
      assert Entered(run, events, i + 1) == entered + joining;
      Shift(entered, taken, s.queue, taking, s'.queue, joining);
    }
  }

  /** A cpu decides for its idle process exactly when the queue is empty. */
  lemma IdleIffEmpty(run: seq<State>, events: seq<Event>, i: nat, c: Cpu)
    requires IsRun(run, events) && i < |events| && Picks(run[i], run[i + 1], events[i], c)
    ensures run[i + 1].cores[c].phase.next == run[i].cores[c].idle <==> run[i].queue == []
  {
    RunInv(run, events, i);
    assert StepAt(run, events, i);
    PickIs(run[i], run[i + 1], c);
  }

  /** schedule() leaves a process running without a decision only if it is runnable, not the idle one, and nobody asked
      for another. */
  lemma StaysOnlyIf(run: seq<State>, events: seq<Event>, i: nat, c: Cpu)
    requires IsRun(run, events) && i < |events| && c < |run[i].cores| && events[i] == Step(c)
    requires run[i].cores[c].phase.Deciding?
    ensures var k := run[i].cores[c];
      && c < |run[i + 1].cores|
      && (Picks(run[i], run[i + 1], events[i], c) <==>
          k.curr.None? || k.curr.p == k.idle || k.curr.p in run[i].dead || k.resched)
  {
    RunInv(run, events, i);
    RunInv(run, events, i + 1);
    assert StepAt(run, events, i);
    assert CoreOk(run[i], run[i].cores[c]);
  }

  // ---------- what is picked runs ----------

  /** On its way to p, or there. */
  predicate GoesTo(k: Core, p: Proc) {
    if k.phase.Picked? || k.phase.Switching? then k.phase.next == p
    else !k.phase.Deciding? && k.curr == Some(p)
  }

  lemma GoesOn(s: State, s': State, e: Event, c: Cpu, p: Proc)
    requires Inv(s) && Enabled(s, e) && s' == Apply(s, e) && c < |s.cores|
    requires GoesTo(s.cores[c], p) && !s.cores[c].phase.Running?
    ensures c < |s'.cores| && GoesTo(s'.cores[c], p)
  {
    assert CoreOk(s, s.cores[c]);
  }

  /** The process picked at event i is the one cpu c runs when schedule() has returned. */
  lemma {:induction false} PickedRuns(run: seq<State>, events: seq<Event>, i: nat, j: nat, c: Cpu)
    requires IsRun(run, events) && i < j < |run| && Picks(run[i], run[i + 1], events[i], c)
    requires forall x | i < x < j :: c < |run[x].cores| ==> !run[x].cores[c].phase.Running?
    ensures c < |run[j].cores| && GoesTo(run[j].cores[c], run[i + 1].cores[c].phase.next)
    ensures run[j].cores[c].phase.Running? ==> run[j].cores[c].curr == Some(run[i + 1].cores[c].phase.next)
    decreases j
  {
    if j > i + 1 {
      PickedRuns(run, events, i, j - 1, c);
      RunInv(run, events, j - 1);
      assert StepAt(run, events, j - 1);
      GoesOn(run[j - 1], run[j], events[j - 1], c, run[i + 1].cores[c].phase.next);
    }
  }

  // ---------- preemption ----------

  /** How often cpu c called preempt_disable in the first i events, less the calls of preempt_enable. */
  function Depth(events: seq<Event>, i: nat, c: Cpu): int
    requires i <= |events|
  {
    if i == 0 then 0
    else Depth(events, i - 1, c) + if events[i - 1] == Disable(c) then 1 else if events[i - 1] == Enable(c) then -1
      else 0
  }

  lemma HeldStep(s: State, s': State, e: Event, c: Cpu)
    requires Inv(s) && Enabled(s, e) && s' == Apply(s, e) && c < |s.cores|
    ensures |s'.cores| == |s.cores|
    ensures s'.cores[c].held == s.cores[c].held + if e == Disable(c) then 1 else if e == Enable(c) then -1 else 0
  {
    assert CoreOk(s, s.cores[c]);
  }

  lemma {:induction false} HeldIsDepth(run: seq<State>, events: seq<Event>, i: nat, c: Cpu)
    requires IsRun(run, events) && i < |run| && c < |run[0].cores|
    ensures |run[i].cores| == |run[0].cores| && run[i].cores[c].held == Depth(events, i, c)
  {
    if i > 0 {
      HeldIsDepth(run, events, i - 1, c);
      RunInv(run, events, i - 1);
      assert StepAt(run, events, i - 1);
      HeldStep(run[i - 1], run[i], events[i - 1], c);
    }
  }

  predicate SameRunning(k: Core, k': Core) { k'.curr == k.curr && k'.stack == k.stack && k'.phase == k.phase }

  /** What another cpu does to its own state. */
  lemma OtherCpu(s: State, s': State, d: Cpu, c: Cpu)
    requires d < |s.cores| && c < |s.cores| && c != d && s' == Advance(s, d)
    ensures |s'.cores| == |s.cores| && s'.cores[c] == s.cores[c]
  {
  }

  lemma HeldNoSwitch(s: State, s': State, e: Event, c: Cpu)
    requires Inv(s) && Enabled(s, e) && s' == Apply(s, e) && c < |s.cores| && s.cores[c].held > 0
    ensures c < |s'.cores| && SameRunning(s.cores[c], s'.cores[c])
  {
    assert CoreOk(s, s.cores[c]);
    if e.Step? { OtherCpu(s, s', e.c, c); }
  }

  /** Between preempt_disable and the matching preempt_enable the cpu keeps its process and its stack, whatever calls
      schedule(). */
  lemma NoSwitchWhileDisabled(run: seq<State>, events: seq<Event>, i: nat, c: Cpu)
    requires IsRun(run, events) && i < |events| && c < |run[0].cores| && Depth(events, i, c) > 0
    ensures c < |run[i].cores| && c < |run[i + 1].cores|
    ensures run[i + 1].cores[c].curr == run[i].cores[c].curr && run[i + 1].cores[c].stack == run[i].cores[c].stack
  {
    HeldIsDepth(run, events, i, c);
    RunInv(run, events, i);
    assert StepAt(run, events, i);
    HeldNoSwitch(run[i], run[i + 1], events[i], c);
  }

  /** Once interrupts are off, no call of schedule() does anything before they are on again. */
  lemma NoSwitchWithoutIrqs(run: seq<State>, events: seq<Event>, i: nat, c: Cpu)
    requires IsRun(run, events) && i < |events| && events[i] == SetIrqs(c, false) && c < |run[i + 1].cores|
    ensures Apply(run[i + 1], Schedule(c)) == run[i + 1]
  {
    assert StepAt(run, events, i);
  }

  // ---------- a process gets to run ----------

  lemma Push(run: seq<State>, events: seq<Event>, e: Event) returns (run': seq<State>, events': seq<Event>)
    requires IsRun(run, events) && Enabled(run[|events|], e)
    ensures IsRun(run', events') && |events'| == |events| + 1 && run'[|events'|] == Apply(run[|events|], e)
  {
    run', events' := run + [Apply(run[|events|], e)], events + [e];
    forall i | 0 <= i < |events'| ensures StepAt(run', events', i) {
      if i < |events| { assert StepAt(run, events, i); }
    }
  }

  /** One cpu, whose idle process is 0. */
  function Single(curr: Option, stack: Option, ph: Phase, count: nat, irqs: bool, resched: bool, queue: seq<Proc>,
    saved: set<Proc>): State
  {
    State([Core(0, curr, stack, ph, count, 0, irqs, resched)], queue, {}, saved, {7}, NoFault)
  }

  /** Process 7 is enqueued and the cpu calls schedule(). */
  lemma PickedRun() returns (run: seq<State>, events: seq<Event>)
    ensures IsRun(run, events) && run[|events|] == Single(None, None, Picked(7), 1, true, false, [], {0, 7})
  {
    run, events := [Single(None, None, Running, 0, true, false, [], {0}).(placed := {})], [];
    run, events := Push(run, events, Enqueue(7));
    run, events := Push(run, events, Schedule(0));
    run, events := Push(run, events, Step(0));
  }

  lemma SwitchedRun() returns (run: seq<State>, events: seq<Event>)
    ensures IsRun(run, events) && run[|events|] == Single(Some(7), Some(7), OnNext(None), 1, false, false, [], {0})
  {
    run, events := PickedRun();
    run, events := Push(run, events, Step(0));
    run, events := Push(run, events, Step(0));
    assert run[|events|] == Single(Some(7), None, CurrSet(None), 1, false, false, [], {0, 7});
    run, events := Push(run, events, Step(0));
    run, events := Push(run, events, Step(0));
  }

  /** It runs. */
  lemma RunningRun() returns (run: seq<State>, events: seq<Event>)
    ensures IsRun(run, events) && run[|events|] == Single(Some(7), Some(7), Running, 0, true, false, [], {0})
  {
    run, events := SwitchedRun();
    run, events := Push(run, events, Step(0));
    run, events := Push(run, events, Step(0));
  }

  /** After a tick with nothing else to run, the cpu decides for its idle process. */
  lemma PreemptedRun() returns (run: seq<State>, events: seq<Event>)
    ensures IsRun(run, events) && run[|events|] == Single(Some(0), Some(7), CurrSet(Some(7)), 1, false, false, [], {0})
  {
    run, events := RunningRun();
    run, events := Push(run, events, Resched(0));
    run, events := Push(run, events, Schedule(0));
    run, events := Push(run, events, Step(0));
    assert run[|events|] == Single(Some(7), Some(7), Picked(0), 1, true, false, [], {0});
    run, events := Push(run, events, Step(0));
    run, events := Push(run, events, Step(0));
  }

  /** Process 7 is back in the queue once its stack has been left. */
  lemma BackInQueueRun() returns (run: seq<State>, events: seq<Event>)
    ensures IsRun(run, events) && run[|events|] == Single(Some(0), Some(0), Running, 0, true, false, [7], {7})
  {
    run, events := PreemptedRun();
    run, events := Push(run, events, Step(0));
    run, events := Push(run, events, Step(0));
    assert run[|events|] == Single(Some(0), Some(0), OnNext(Some(7)), 1, false, false, [], {7});
    run, events := Push(run, events, Step(0));
    run, events := Push(run, events, Step(0));
  }

  /** Process 7 exits instead, and the cpu has left its stack. */
  lemma ExitedRun() returns (run: seq<State>, events: seq<Event>)
    ensures IsRun(run, events)
    ensures run[|events|] == Single(Some(0), Some(0), OnNext(Some(7)), 1, false, false, [], {7}).(dead := {7})
  {
    run, events := ExitingRun();
    run, events := Push(run, events, Step(0));
    run, events := Push(run, events, Step(0));
    assert run[|events|] == Single(Some(0), Some(7), CurrSet(Some(7)), 1, false, false, [], {0}).(dead := {7});
    run, events := Push(run, events, Step(0));
    run, events := Push(run, events, Step(0));
  }

  lemma ExitingRun() returns (run: seq<State>, events: seq<Event>)
    ensures IsRun(run, events)
    ensures run[|events|] == Single(Some(7), Some(7), Picked(0), 1, true, false, [], {0}).(dead := {7})
  {
    run, events := RunningRun();
    run, events := Push(run, events, Exit(0));
    run, events := Push(run, events, Schedule(0));
    run, events := Push(run, events, Step(0));
  }

  /** A dead process is not put back. */
  lemma DeadRun() returns (run: seq<State>, events: seq<Event>)
    ensures IsRun(run, events)
    ensures run[|events|] ==
      Single(Some(0), Some(0), Running, 0, true, false, [], {7}).(dead := {7}, placed := {})
  {
    run, events := ExitedRun();
    run, events := Push(run, events, Step(0));
    run, events := Push(run, events, Step(0));
  }
}
