/**
 The scheduler (src/sched_core.c, src/ts.c) and the context switch (src/proc.c,
 src/proc_asm.S) as a state machine. Cpus interleave at the grain of single
 accesses to shared state; on one cpu, code that interrupts schedule() runs to
 completion before schedule() goes on.
 */
module Sched {
  type Proc = nat
  type Cpu = nat

  /** Where a cpu is. */
  datatype Phase =
    | Running                         // process or interrupt code
    | Deciding                        // in schedule(), preemption disabled
    | Picked(next: Proc)              // pick_next_proc() done
    | Switching(next: Proc)           // switch_to_proc(): interrupts off
    | CurrSet(prev: Option)           // curr_proc changed, still on the stack of prev
    | Saved(prev: Option)             // stack pointer of prev saved
    | OnNext(prev: Option)            // on the stack of the new process
    | PrevPut                         // sched_put_prev_proc() done

  datatype Option = None | Some(p: Proc)

  /** `count` is preempt_count, `held` how much of it belongs to code other than schedule(). */
  datatype Core = Core(idle: Proc, curr: Option, stack: Option, phase: Phase, count: nat, held: nat, irqs: bool,
    resched: bool)

  datatype Fault = NoFault | NotRunnable | StaleStack | Preemptible | BadReturn

  /** `dead` are the processes that exited, `saved` those whose kernel_stack_ptr is good to load, `placed` those
      enqueued and not gone. */
  datatype State = State(cores: seq<Core>, queue: seq<Proc>, dead: set<Proc>, saved: set<Proc>, placed: set<Proc>,
    fault: Fault)

  predicate CanPreempt(k: Core) { k.count == 0 && k.irqs }

  /** curr_cpu_need_resched. */
  predicate NeedResched(s: State, k: Core) {
    k.curr.None? || k.curr == Some(k.idle) || k.resched || k.curr.p in s.dead
  }

  datatype Event =
    | Enqueue(p: Proc)                // sched_enqueue_proc of a new process
    | Dequeue(p: Proc)                // sched_dequeue_proc
    | Disable(c: Cpu)                 // preempt_disable
    | Enable(c: Cpu)                  // preempt_enable
    | SetIrqs(c: Cpu, on: bool)
    | Resched(c: Cpu)                 // sched_resched
    | Exit(c: Cpu)                    // the current process dies
    | Schedule(c: Cpu)                // a call of schedule()
    | Step(c: Cpu)                    // schedule() goes on

  /** A process that is nowhere yet, or not any more after sched_dequeue_proc. */
  ghost predicate IsNew(s: State, p: Proc) {
    && p !in s.queue && p !in s.placed && p !in s.dead
    && forall c | 0 <= c < |s.cores| :: p !in Own(s.cores[c])
  }

  ghost predicate Enabled(s: State, e: Event) {
    match e
    case Enqueue(p) => IsNew(s, p)
    case Dequeue(p) => p in s.queue
    case Disable(c) => c < |s.cores| && (s.cores[c].phase.Running? || s.cores[c].irqs)
    case Enable(c) => c < |s.cores| && s.cores[c].held > 0
    case SetIrqs(c, on) => c < |s.cores| && s.cores[c].phase.Running?
    case Resched(c) => c < |s.cores| && (s.cores[c].phase.Running? || s.cores[c].irqs)
    case Exit(c) => c < |s.cores| && s.cores[c].phase.Running? && s.cores[c].curr.Some?
      && s.cores[c].curr != Some(s.cores[c].idle)
    case Schedule(c) => c < |s.cores|
    case Step(c) => c < |s.cores| && !s.cores[c].phase.Running? && s.cores[c].held == 0
  }

  function Set(s: State, c: Cpu, k: Core): State
    requires c < |s.cores|
  {
    s.(cores := s.cores[c := k])
  }

  /** The first occurrence of p taken out. */
  function Without(q: seq<Proc>, p: Proc): (r: seq<Proc>)
    ensures forall x :: x in r ==> x in q
  {
    if q == [] then [] else if q[0] == p then q[1..] else [q[0]] + Without(q[1..], p)
  }

  /** pick_next_proc, defaulting to the idle process. */
  function Pick(s: State, c: Cpu): State
    requires c < |s.cores|
  {
    var k := s.cores[c];
    var next := if s.queue == [] then k.idle else s.queue[0];
    var s' := Set(s, c, k.(phase := Picked(next), resched := false)).(queue := if s.queue == [] then []
      else s.queue[1..]);
    if next in s.dead then s'.(fault := NotRunnable) else s'
  }

  /** sched_put_prev_proc. */
  function PutPrev(s: State, c: Cpu, prev: Option): State
    requires c < |s.cores|
  {
    var k := s.cores[c];
    var s' := Set(s, c, k.(phase := PrevPut));
    if prev.None? || prev.p == k.idle then s'
    else if prev.p in s.dead then s'.(placed := s.placed - {prev.p})
    else s'.(queue := s.queue + [prev.p])
  }

  /** The next step of schedule() on cpu c. */
  function Advance(s: State, c: Cpu): State
    requires c < |s.cores|
  {
    var k := s.cores[c];
    match k.phase
    case Running => s
    case Deciding => if NeedResched(s, k) then Pick(s, c) else Return(s, c)
    case Picked(next) => if k.curr == Some(next) then Return(s, c) else Begin(s, c, next)
    case Switching(next) => Set(s, c, k.(phase := CurrSet(k.curr), curr := Some(next)))
    case CurrSet(prev) => Set(s, c, k.(phase := Saved(prev))).(saved := if prev.Some? then s.saved + {prev.p}
      else s.saved)
    case Saved(prev) => Load(s, c, prev)
    case OnNext(prev) => PutPrev(s, c, prev)
    case PrevPut => Return(s, c)
  }

  /** The entry of switch_to_proc, with its ASSERT. */
  function Begin(s: State, c: Cpu, next: Proc): State
    requires c < |s.cores|
  {
    var k := s.cores[c];
    var s' := Set(s, c, k.(phase := Switching(next), irqs := false));
    if CanPreempt(k) then s'.(fault := Preemptible) else s'
  }

  /** Loads the stack pointer of the new process. */
  function Load(s: State, c: Cpu, prev: Option): State
    requires c < |s.cores|
  {
    var k := s.cores[c];
    if k.curr.None? || k.curr.p !in s.saved then s.(fault := StaleStack)
    else Set(s, c, k.(phase := OnNext(prev), stack := k.curr)).(saved := s.saved - {k.curr.p})
  }

  /** preempt_enable_no_resched, interrupts back on after a switch, and the ASSERTs at the end of schedule(). */
  function Return(s: State, c: Cpu): State
    requires c < |s.cores|
  {
    var k := s.cores[c];
    if k.count != 1 || (!k.phase.PrevPut? && !k.irqs) then s.(fault := BadReturn)
    else Set(s, c, k.(phase := Running, count := 0, irqs := true))
  }

  function Apply(s: State, e: Event): State
    requires Enabled(s, e)
  {
    match e
    case Enqueue(p) => s.(queue := s.queue + [p], saved := s.saved + {p}, placed := s.placed + {p})
    case Dequeue(p) => s.(queue := Without(s.queue, p), placed := s.placed - {p})
    case Disable(c) => Set(s, c, s.cores[c].(count := s.cores[c].count + 1, held := s.cores[c].held + 1))
    case Enable(c) => if s.cores[c].count == 0 then s.(fault := BadReturn)
                      else Set(s, c, s.cores[c].(count := s.cores[c].count - 1, held := s.cores[c].held - 1))
    case SetIrqs(c, on) => Set(s, c, s.cores[c].(irqs := on))
    case Resched(c) => Set(s, c, s.cores[c].(resched := true))
    case Exit(c) => s.(dead := s.dead + {s.cores[c].curr.p})
    case Schedule(c) => if CanPreempt(s.cores[c]) then Set(s, c, s.cores[c].(phase := Deciding, count := 1)) else s
    case Step(c) => Advance(s, c)
  }

  // ---------- the invariant ----------

  function Opt(o: Option): set<Proc> { if o.Some? then {o.p} else {} }

  /** The process a switch is leaving. */
  function Leaving(ph: Phase): Option {
    if ph.CurrSet? || ph.Saved? || ph.OnNext? then ph.prev else None
  }

  /** The process a switch is going to but has not made current. */
  function Coming(ph: Phase): set<Proc> {
    if ph.Picked? || ph.Switching? then {ph.next} else {}
  }

  /** The processes that only this cpu may run or queue. */
  function Own(k: Core): set<Proc> {
    {k.idle} + Opt(k.curr) + Coming(k.phase) + Opt(Leaving(k.phase))
  }

  /** Interrupts are off from switch_to_proc to the end of the switch. */
  predicate InSwitch(ph: Phase) { ph.Switching? || ph.CurrSet? || ph.Saved? || ph.OnNext? || ph.PrevPut? }

  ghost predicate CoreOk(s: State, k: Core) {
    && k.count == k.held + (if k.phase.Running? then 0 else 1)
    && (InSwitch(k.phase) ==> !k.irqs && k.held == 0)
    && (k.phase.Deciding? || k.phase.Picked? ==> k.irqs)
    // The stack in use is that of the current process, or of the one being left.
    && k.stack == (if k.phase.CurrSet? || k.phase.Saved? then k.phase.prev else k.curr)
    && (k.phase.CurrSet? || k.phase.Saved? || k.phase.OnNext? || k.phase.PrevPut? ==> k.curr.Some?)
    && (k.phase.CurrSet? || k.phase.Saved? || k.phase.OnNext? ==> k.phase.prev != k.curr)
    && (k.phase.Switching? ==> k.curr != Some(k.phase.next))
    // Every other process it owns can be switched to.
    && (forall p | p in Own(k) && Some(p) != k.stack :: p in s.saved)
    && (k.phase.Saved? && k.phase.prev.Some? ==> k.phase.prev.p in s.saved)
    && k.idle !in s.dead && (forall p | p in Coming(k.phase) :: p !in s.dead)
  }

  ghost predicate QueuedOk(s: State, p: Proc) {
    && p !in s.dead && p in s.saved
    && forall c | 0 <= c < |s.cores| :: p !in Own(s.cores[c])
  }

  ghost predicate Distinct(q: seq<Proc>) {
    forall i, j | 0 <= i < j < |q| :: q[i] != q[j]
  }

  /** p is in the queue or belongs to some cpu. */
  ghost predicate Somewhere(s: State, p: Proc) {
    p in s.queue || exists c :: 0 <= c < |s.cores| && p in Own(s.cores[c])
  }

  predicate IsIdle(s: State, p: Proc) { exists c :: 0 <= c < |s.cores| && s.cores[c].idle == p }

  ghost predicate Inv(s: State) {
    && s.fault == NoFault
    && (forall c | 0 <= c < |s.cores| :: CoreOk(s, s.cores[c]))
    && (forall c, d | 0 <= c < d < |s.cores| :: Own(s.cores[c]) !! Own(s.cores[d]))
    && Distinct(s.queue) && (forall p | p in s.queue :: QueuedOk(s, p))
    && (forall p :: p in s.placed <==> Somewhere(s, p) && !IsIdle(s, p))
  }

  /** sched_init: idle processes of distinct cpus are distinct and ready, nothing runs yet. */
  ghost predicate Boot(s: State) {
    && s.fault == NoFault && s.queue == [] && s.dead == {} && s.placed == {}
    && (forall c | 0 <= c < |s.cores| ::
          var k := s.cores[c];
          k.curr.None? && k.stack.None? && k.phase.Running? && k.count == 0 == k.held && !k.resched
            && k.idle in s.saved)
    && (forall c, d | 0 <= c < d < |s.cores| :: s.cores[c].idle != s.cores[d].idle)
  }

  ghost predicate StepAt(run: seq<State>, events: seq<Event>, i: nat) {
    i < |events| && i + 1 < |run| && Enabled(run[i], events[i]) && run[i + 1] == Apply(run[i], events[i])
  }

  ghost predicate IsRun(run: seq<State>, events: seq<Event>) {
    |run| == |events| + 1 && Boot(run[0]) && forall i {:trigger StepAt(run, events, i)} | 0 <= i < |events| ::
      StepAt(run, events, i)
  }
}
