/** What every step of the reader/writer lock keeps, and mutual exclusion in every run. */
module RwLockSafety {
  import opened RwLock

  // ---------- counting readers ----------

  lemma CountSame(s: State, s': State, t: Tid)
    requires t < |s.threads| && |s'.threads| == |s.threads| && s'.threads == s.threads[t := s'.threads[t]]
    requires Counted(s'.threads[t].pc) == Counted(s.threads[t].pc)
    ensures CountedSet(s') == CountedSet(s)
  {
    forall u: Tid ensures IsCounted(s', u) <==> IsCounted(s, u) { }
  }

  lemma CountUp(s: State, s': State, t: Tid)
    requires t < |s.threads| && |s'.threads| == |s.threads| && s'.threads == s.threads[t := s'.threads[t]]
    requires Counted(s'.threads[t].pc) && !Counted(s.threads[t].pc)
    ensures |CountedSet(s')| == |CountedSet(s)| + 1
  {
    forall u: Tid ensures IsCounted(s', u) <==> IsCounted(s, u) || u == t { }
    assert CountedSet(s') == CountedSet(s) + {t} && t !in CountedSet(s);
  }

  lemma CountDown(s: State, s': State, t: Tid)
    requires t < |s.threads| && |s'.threads| == |s.threads| && s'.threads == s.threads[t := s'.threads[t]]
    requires !Counted(s'.threads[t].pc) && Counted(s.threads[t].pc)
    ensures |CountedSet(s')| == |CountedSet(s)| - 1
  {
    forall u: Tid ensures IsCounted(s, u) <==> IsCounted(s', u) || u == t { }
    assert CountedSet(s) == CountedSet(s') + {t} && t !in CountedSet(s');
  }

  lemma SomeoneCounted(s: State, t: Tid)
    requires t < |s.threads| && Counted(s.threads[t].pc)
    ensures |CountedSet(s)| > 0
  {
    assert IsCounted(s, t);
    assert t in CountedSet(s);
  }

  // ---------- one thread moves ----------

  /** Thread t moves: it touches readers_lock and the count only if it has it or takes it, and writer_lock only if it
      has it, takes it, or acts for all readers. */
  ghost predicate Moves(s: State, s': State, t: Tid) {
    && t < |s.threads| && |s'.threads| == |s.threads| && s'.threads == s.threads[t := s'.threads[t]]
    && (s'.rh == One(t) || s'.rh == Nobody || s'.rh == s.rh)
    && (s'.wh == One(t) || s'.wh == Nobody || s'.wh == Readers || s'.wh == s.wh)
    && (s.rh == One(t) || s.rh == Nobody || (s'.rh == s.rh && s'.readers.owner == s.readers.owner && s'.num == s.num))
    && (s.wh == One(t) || s.wh == Nobody || (s.wh == Readers && s.rh == One(t))
       || (s'.wh == s.wh && s'.writer.owner == s.writer.owner))
    && (s.moved ==> s'.moved)
  }

  lemma OthersOk(s: State, s': State, t: Tid, u: Tid)
    requires LocksOk(s) && Moves(s, s', t) && u < |s.threads| && u != t && ThreadOk(s, u)
    ensures ThreadOk(s', u)
  {
  }

  lemma Keep(s: State, s': State, t: Tid)
    requires Inv(s) && Moves(s, s', t) && LocksOk(s') && s'.num == |CountedSet(s')| && ThreadOk(s', t)
    ensures Inv(s')
  {
    forall u | 0 <= u < |s'.threads| ensures ThreadOk(s', u) {
      assert ThreadOk(s, u);
      if u != t { OthersOk(s, s', t, u); }
    }
  }

  /** A step that does not change who counts. */
  lemma KeepCount(s: State, s': State, t: Tid)
    requires Inv(s) && Moves(s, s', t) && LocksOk(s') && s'.num == s.num && ThreadOk(s', t)
    requires Counted(s'.threads[t].pc) == Counted(s.threads[t].pc)
    ensures Inv(s')
  {
    CountSame(s, s', t);
    Keep(s, s', t);
  }

  // ---------- every step ----------

  /** The thread is about to give back readers_lock on another cpu than it took it on. */
  predicate Strays(s: State, e: Event) {
    e.Step? && e.t < |s.threads| && (s.threads[e.t].pc.RDrop? || s.threads[e.t].pc.UDrop?)
      && s.threads[e.t].home != s.threads[e.t].cpu
  }

  lemma TakeReadersKeeps(s: State, t: Tid, call: Call)
    requires Inv(s) && Enabled(s, Step(t))
    requires s.threads[t].pc.RTake? || s.threads[t].pc.UTake? || s.threads[t].pc.RGot? || s.threads[t].pc.UGot?
    ensures Inv(Next(s, t, call))
  {
    assert ThreadOk(s, t);
    KeepCount(s, Next(s, t, call), t);
  }

  lemma FirstReaderKeeps(s: State, t: Tid, call: Call)
    requires Inv(s) && Enabled(s, Step(t))
    requires s.threads[t].pc.RTest? || s.threads[t].pc.RSti? || s.threads[t].pc.RTakeW? || s.threads[t].pc.RGotW?
    ensures Inv(Next(s, t, call))
  {
    assert ThreadOk(s, t);
    SomeoneCounted(s, t);
    KeepCount(s, Next(s, t, call), t);
  }

  lemma LastReaderKeeps(s: State, t: Tid, call: Call)
    requires Inv(s) && Enabled(s, Step(t))
    requires s.threads[t].pc.UTest? || s.threads[t].pc.UFix? || s.threads[t].pc.UDropW? || s.threads[t].pc.UReleaseW?
    ensures Inv(Next(s, t, call))
  {
    assert ThreadOk(s, t);
    KeepCount(s, Next(s, t, call), t);
  }

  lemma GiveReadersKeeps(s: State, t: Tid, call: Call)
    requires Inv(s) && Enabled(s, Step(t)) && !Strays(s, Step(t))
    requires s.threads[t].pc.RDrop? || s.threads[t].pc.UDrop? || s.threads[t].pc.RRelease? || s.threads[t].pc.URelease?
    ensures Inv(Next(s, t, call))
  {
    assert ThreadOk(s, t);
    if Counted(s.threads[t].pc) { SomeoneCounted(s, t); }
    KeepCount(s, Next(s, t, call), t);
  }

  lemma IncKeeps(s: State, t: Tid, call: Call)
    requires Inv(s) && Enabled(s, Step(t)) && s.threads[t].pc.RInc?
    ensures Inv(Next(s, t, call))
  {
    assert ThreadOk(s, t);
    CountUp(s, Next(s, t, call), t);
    Keep(s, Next(s, t, call), t);
  }

  lemma DecKeeps(s: State, t: Tid, call: Call)
    requires Inv(s) && Enabled(s, Step(t)) && s.threads[t].pc.UDec?
    ensures Inv(Next(s, t, call))
  {
    assert ThreadOk(s, t);
    SomeoneCounted(s, t);
    CountDown(s, Next(s, t, call), t);
    Keep(s, Next(s, t, call), t);
  }

  lemma CallKeeps(s: State, t: Tid, call: Call)
    requires Inv(s) && Enabled(s, Step(t))
    requires s.threads[t].pc.Out? || s.threads[t].pc.Reading? || s.threads[t].pc.Writing?
    ensures Inv(Next(s, t, call))
  {
    assert ThreadOk(s, t);
    KeepCount(s, Next(s, t, call), t);
  }

  lemma WriterKeeps(s: State, t: Tid, call: Call)
    requires Inv(s) && Enabled(s, Step(t))
    requires s.threads[t].pc.WTake? || s.threads[t].pc.WGot? || s.threads[t].pc.XDrop? || s.threads[t].pc.XRelease?
    ensures Inv(Next(s, t, call))
  {
    assert ThreadOk(s, t);
    KeepCount(s, Next(s, t, call), t);
  }

  lemma MigrateKeeps(s: State, t: Tid, c: Cpu, call: Call)
    requires Inv(s) && Enabled(s, Migrate(t, c))
    ensures Inv(Apply(s, Migrate(t, c), call))
  {
    var s' := Apply(s, Migrate(t, c), call);
    assert ThreadOk(s, t);
    CountSame(s, s', t);
    Keep(s, s', t);
  }

  /** Every step keeps the invariant, but one: giving back readers_lock on another cpu panics. */
  lemma InvStep(s: State, e: Event, call: Call)
    requires Inv(s) && Enabled(s, e)
    ensures Strays(s, e) ==> Apply(s, e, call) == Panic(s, NotOwner) && s.moved
    ensures !Strays(s, e) ==> Inv(Apply(s, e, call))
  {
    var pc := s.threads[e.t].pc;
    if Strays(s, e) {
      assert ThreadOk(s, e.t);
    } else if e.Migrate? {
      MigrateKeeps(s, e.t, e.c, call);
    } else if pc.RInc? {
      IncKeeps(s, e.t, call);
    } else if pc.UDec? {
      DecKeeps(s, e.t, call);
    } else if pc.Out? || pc.Reading? || pc.Writing? {
      CallKeeps(s, e.t, call);
    } else if pc.WTake? || pc.WGot? || pc.XDrop? || pc.XRelease? {
      WriterKeeps(s, e.t, call);
    } else if pc.RTake? || pc.UTake? || pc.RGot? || pc.UGot? {
      TakeReadersKeeps(s, e.t, call);
    } else if pc.RTest? || pc.RSti? || pc.RTakeW? || pc.RGotW? {
      FirstReaderKeeps(s, e.t, call);
    } else if pc.UTest? || pc.UFix? || pc.UDropW? || pc.UReleaseW? {
      LastReaderKeeps(s, e.t, call);
    } else {
      GiveReadersKeeps(s, e.t, call);
    }
  }

  // ---------- runs ----------

  /** The invariant, up to the panic of a thread that changed cpu while it had readers_lock. */
  ghost predicate Good(s: State) {
    Inv(s.(fault := NoFault)) && (s.fault != NoFault ==> s.fault == NotOwner && s.moved)
  }

  lemma BootGood(s: State)
    requires Boot(s)
    ensures Good(s)
  {
    forall t: Tid ensures !IsCounted(s, t) { }
    assert CountedSet(s) == {};
    assert s.(fault := NoFault) == s;
  }

  lemma {:induction false} RunGood(run: seq<State>, events: seq<Event>, calls: seq<Call>, i: nat)
    requires IsRun(run, events, calls) && i < |run|
    ensures Good(run[i])
    decreases i
  {
    if i == 0 {
      BootGood(run[0]);
    } else {
      RunGood(run, events, calls, i - 1);
      assert StepAt(run, events, calls, i - 1);
      var s := run[i - 1];
      assert s.(fault := NoFault) == s;
      InvStep(s, events[i - 1], calls[i - 1]);
      assert Panic(s, NotOwner).(fault := NoFault) == s;
      assert !Strays(s, events[i - 1]) ==> run[i].(fault := NoFault) == run[i];
    }
  }

  // ---------- theorems ----------

  /** A writer is alone: no reader and no other writer is inside with it. */
  lemma WriterAlone(run: seq<State>, events: seq<Event>, calls: seq<Call>, i: nat, t: Tid, u: Tid)
    requires IsRun(run, events, calls) && i < |run| && t < |run[i].threads| && u < |run[i].threads| && t != u
    requires run[i].threads[t].pc.Writing?
    ensures !run[i].threads[u].pc.Writing? && !run[i].threads[u].pc.Reading?
  {
    RunGood(run, events, calls, i);
    var s := run[i].(fault := NoFault);
    assert ThreadOk(s, t) && ThreadOk(s, u);
    if s.threads[u].pc.Reading? {
      SomeoneCounted(s, u);
      assert s.rh.One? ==> ThreadOk(s, s.rh.t);
      AnotherCounted(s, u);
    }
  }

  // ---------- exclusion by what was called ----------

  /** What thread t called when it last stepped into the lock. */
  datatype Called = Nothing | By(call: Call)

  /** Event x is the entry of thread t into rwlock_read_lock or rwlock_write_lock. */
  predicate Enters(s: State, e: Event, t: Tid) {
    e == Step(t) && t < |s.threads| && s.threads[t].pc.Out?
  }

  function LastCall(run: seq<State>, events: seq<Event>, calls: seq<Call>, i: nat, t: Tid): Called
    requires |calls| == |events| < |run| && i <= |events|
    decreases i
  {
    if i == 0 then Nothing
    else if Enters(run[i - 1], events[i - 1], t) then By(calls[i - 1])
    else LastCall(run, events, calls, i - 1, t)
  }

  /** The control points of rwlock_write_lock and rwlock_write_unlock, with what lies between. */
  predicate Writes(pc: Pc) { pc.WTake? || HasWriter(pc) }

  /** Between the return of a lock function and the call of the unlock function. */
  predicate Inside(pc: Pc) { pc.Reading? || pc.Writing? }

  /** Thread t moves, and stays a writer or a reader until it is out. */
  predicate Stays(s: State, s': State, t: Tid) {
    && t < |s.threads| == |s'.threads| && s'.threads == s.threads[t := s'.threads[t]]
    && (!s'.threads[t].pc.Out? ==> (Writes(s'.threads[t].pc) <==> Writes(s.threads[t].pc)))
  }

  lemma WriterStays(s: State, t: Tid, call: Call)
    requires t < |s.threads| && Writes(s.threads[t].pc)
    ensures Stays(s, Next(s, t, call), t)
  {
    assert s.threads[t := s.threads[t]] == s.threads;
  }

  lemma LockStays(s: State, t: Tid, call: Call)
    requires t < |s.threads|
    requires var pc := s.threads[t].pc;
      pc.RTake? || pc.RGot? || pc.RInc? || pc.RTest? || pc.RSti? || pc.RTakeW? || pc.RGotW? || pc.RDrop?
      || pc.RRelease?
    ensures Stays(s, Next(s, t, call), t)
  {
    assert s.threads[t := s.threads[t]] == s.threads;
  }

  lemma UnlockStays(s: State, t: Tid, call: Call)
    requires t < |s.threads|
    requires var pc := s.threads[t].pc;
      pc.Reading? || pc.UTake? || pc.UGot? || pc.UDec? || pc.UTest? || pc.UFix? || pc.UDropW? || pc.UReleaseW?
      || pc.UDrop? || pc.URelease?
    ensures Stays(s, Next(s, t, call), t)
  {
    assert s.threads[t := s.threads[t]] == s.threads;
  }

  lemma StepStays(s: State, t: Tid, call: Call)
    requires t < |s.threads| && !s.threads[t].pc.Out?
    ensures Stays(s, Next(s, t, call), t)
  {
    var pc := s.threads[t].pc;
    if Writes(pc) {
      WriterStays(s, t, call);
    } else if pc.Reading? || pc.UTake? || pc.UGot? || pc.UDec? || pc.UTest? || pc.UFix? || pc.UDropW? || pc.UReleaseW?
      || pc.UDrop? || pc.URelease? {
      UnlockStays(s, t, call);
    } else {
      LockStays(s, t, call);
    }
  }

  /** A thread in the lock is where its last call sent it. */
  lemma {:induction false} AsCalled(run: seq<State>, events: seq<Event>, calls: seq<Call>, i: nat, t: Tid)
    requires IsRun(run, events, calls) && i < |run| && t < |run[i].threads|
    ensures |run[i].threads| == |run[0].threads|
    ensures !run[i].threads[t].pc.Out? ==>
      LastCall(run, events, calls, i, t) == By(if Writes(run[i].threads[t].pc) then Write else Read)
    decreases i
  {
    if i > 0 {
      var s, e := run[i - 1], events[i - 1];
      assert StepAt(run, events, calls, i - 1);
      if e.Step? && !s.threads[e.t].pc.Out? { StepStays(s, e.t, calls[i - 1]); }
      AsCalled(run, events, calls, i - 1, t);
    }
  }

  /** Two threads are inside together only if both called rwlock_read_lock: whoever called rwlock_write_lock is inside
      alone. */
  lemma ExclusionByCall(run: seq<State>, events: seq<Event>, calls: seq<Call>, i: nat, t: Tid, u: Tid)
    requires IsRun(run, events, calls) && i < |run| && t < |run[i].threads| && u < |run[i].threads| && t != u
    requires Inside(run[i].threads[t].pc) && Inside(run[i].threads[u].pc)
    ensures LastCall(run, events, calls, i, t) == By(Read) == LastCall(run, events, calls, i, u)
  {
    AsCalled(run, events, calls, i, t);
    AsCalled(run, events, calls, i, u);
    if run[i].threads[t].pc.Writing? { WriterAlone(run, events, calls, i, t, u); }
    if run[i].threads[u].pc.Writing? { WriterAlone(run, events, calls, i, u, t); }
  }

  /** While someone reads, the count is more than what a first or last reader sees. */
  lemma AnotherCounted(s: State, u: Tid)
    requires Inv(s) && u < |s.threads| && s.threads[u].pc.Reading?
    ensures ReadersHave(s)
  {
    SomeoneCounted(s, u);
    assert ThreadOk(s, u);
    if s.rh.One? && FirstWaits(s.threads[s.rh.t].pc, s.num) {
      var t := s.rh.t;
      assert ThreadOk(s, t);
      assert IsCounted(s, t) && IsCounted(s, u);
      assert {t, u} <= CountedSet(s);
      SubsetSize({t, u}, CountedSet(s));
    }
  }

  lemma {:induction false} SubsetSize(a: set<Tid>, b: set<Tid>)
    requires a <= b
    ensures |a| <= |b|
  {
    if a != {} {
      var x :| x in a;
      SubsetSize(a - {x}, b - {x});
    }
  }

  /** num_readers counts the readers that have entered and not left; with readers_lock free, these are the threads
      inside. */
  lemma CountExact(run: seq<State>, events: seq<Event>, calls: seq<Call>, i: nat)
    requires IsRun(run, events, calls) && i < |run|
    ensures run[i].num == |CountedSet(run[i])|
    ensures run[i].rh == Nobody ==>
      forall t | 0 <= t < |run[i].threads| :: Counted(run[i].threads[t].pc) <==>
        run[i].threads[t].pc.Reading? || run[i].threads[t].pc.UTake?
  {
    RunGood(run, events, calls, i);
    var s := run[i].(fault := NoFault);
    forall t: Tid ensures IsCounted(s, t) <==> IsCounted(run[i], t) { }
    assert CountedSet(run[i]) == CountedSet(s);
    forall t | 0 <= t < |run[i].threads| && run[i].rh == Nobody
      ensures Counted(run[i].threads[t].pc) <==> run[i].threads[t].pc.Reading? || run[i].threads[t].pc.UTake? {
      assert ThreadOk(s, t);
    }
  }

  /** The ASSERTs on the owners hold, whichever cpus the first and the last reader are on. */
  lemma OwnersRight(run: seq<State>, events: seq<Event>, calls: seq<Call>, i: nat)
    requires IsRun(run, events, calls) && i < |run| && !run[i].moved
    ensures run[i].fault == NoFault
  {
    RunGood(run, events, calls, i);
  }

  /** Exactly when an ASSERT fails: a thread that had readers_lock was moved, and gives it back elsewhere. */
  lemma PanicIff(run: seq<State>, events: seq<Event>, calls: seq<Call>, i: nat)
    requires IsRun(run, events, calls) && i < |events|
    ensures run[i + 1].fault != NoFault <==> Strays(run[i], events[i])
  {
    RunGood(run, events, calls, i);
    assert StepAt(run, events, calls, i);
    assert run[i].(fault := NoFault) == run[i];
    InvStep(run[i], events[i], calls[i]);
  }

  /** Such a move is possible: the first reader waits for writer_lock with its interrupts on while it has
      readers_lock. */
  lemma FirstReaderMayStray(s: State, t: Tid, c: Cpu, call: Call)
    requires Inv(s) && t < |s.threads| && s.threads[t].pc.RTakeW? && s.threads[t].irqs && !s.writer.locked
    requires c != s.threads[t].home
    ensures Enabled(s, Migrate(t, c))
    ensures var s1 := Apply(s, Migrate(t, c), call);
      var s2 := Next(s1, t, call);
      Next(Next(s2, t, call), t, call).fault == NotOwner
  {
    assert ThreadOk(s, t);
    var s1 := Apply(s, Migrate(t, c), call);
    MigrateKeeps(s, t, c, call);
    FirstReaderKeeps(s1, t, call);
    var s2 := Next(s1, t, call);
    FirstReaderKeeps(s2, t, call);
    var s3 := Next(s2, t, call);
    assert ThreadOk(s3, t);
  }

  /** So can the last reader: giving writer_lock back turns its interrupts on before it gives readers_lock back. */
  lemma LastReaderMayStray(s: State, t: Tid, c: Cpu, call: Call)
    requires Inv(s) && t < |s.threads| && s.threads[t].pc.UDrop? && s.threads[t].irqs && c != s.threads[t].home
    ensures Enabled(s, Migrate(t, c)) && Next(Apply(s, Migrate(t, c), call), t, call).fault == NotOwner
  {
    assert ThreadOk(s, t);
  }

  lemma Extend(run: seq<State>, events: seq<Event>, calls: seq<Call>, e: Event, call: Call := Read)
    returns (run': seq<State>, events': seq<Event>, calls': seq<Call>)
    requires IsRun(run, events, calls) && Enabled(run[|run| - 1], e)
    ensures IsRun(run', events', calls') && run'[|run'| - 1] == Apply(run[|run| - 1], e, call)
    ensures events' == events + [e] && calls' == calls + [call] && run <= run'
  {
    run', events', calls' := run + [Apply(run[|run| - 1], e, call)], events + [e], calls + [call];
    forall i | 0 <= i < |events'| ensures StepAt(run', events', calls', i) {
      if i < |events| { assert StepAt(run, events, calls, i); }
    }
  }

  /** One reader alone, waiting for writer_lock. */
  lemma WaitingRun() returns (run: seq<State>, events: seq<Event>, calls: seq<Call>)
    ensures IsRun(run, events, calls)
    ensures var free := Spin(false, false, None);
      run[|run| - 1] == State(Spin(true, true, Cpu(0)), free, 1, [Thread(RTakeW, 0, true, true, 0)], One(0), Nobody,
        false, NoFault)
  {
    var free := Spin(false, false, None);
    run, events, calls := [State(free, free, 0, [Thread(Out, 0, true, true, 0)], Nobody, Nobody, false, NoFault)], [],
      [];
    run, events, calls := Extend(run, events, calls, Step(0));
    run, events, calls := Extend(run, events, calls, Step(0));
    run, events, calls := Extend(run, events, calls, Step(0));
    assert run[|run| - 1] == State(Spin(true, true, Cpu(0)), free, 0, [Thread(RInc, 0, false, true, 0)], One(0),
      Nobody, false, NoFault);
    run, events, calls := Extend(run, events, calls, Step(0));
    run, events, calls := Extend(run, events, calls, Step(0));
    run, events, calls := Extend(run, events, calls, Step(0));
  }

  /** It is moved to cpu 1 there, and panics. */
  lemma StrayRun() returns (run: seq<State>, events: seq<Event>, calls: seq<Call>)
    ensures IsRun(run, events, calls) && run[|run| - 1].fault == NotOwner
  {
    run, events, calls := WaitingRun();
    run, events, calls := Extend(run, events, calls, Migrate(0, 1));
    run, events, calls := Extend(run, events, calls, Step(0));
    run, events, calls := Extend(run, events, calls, Step(0));
    run, events, calls := Extend(run, events, calls, Step(0));
  }

  /** One reader alone, inside. */
  lemma InsideRun() returns (run: seq<State>, events: seq<Event>, calls: seq<Call>)
    ensures IsRun(run, events, calls)
    ensures var x := Thread(Reading, 0, true, true, 0);
      run[|run| - 1] == State(Spin(false, true, None), Spin(true, true, Cpu(0)), 1, [x], Nobody, Readers, false,
        NoFault)
  {
    run, events, calls := WaitingRun();
    run, events, calls := Extend(run, events, calls, Step(0));
    run, events, calls := Extend(run, events, calls, Step(0));
    var x := Thread(RDrop, 0, false, true, 0);
    assert run[|run| - 1] == State(Spin(true, true, Cpu(0)), Spin(true, true, Cpu(0)), 1, [x], One(0), Readers, false,
      NoFault);
    run, events, calls := Extend(run, events, calls, Step(0));
    run, events, calls := Extend(run, events, calls, Step(0));
  }

  /** It has taken readers_lock again. */
  lemma ReturningRun() returns (run: seq<State>, events: seq<Event>, calls: seq<Call>)
    ensures IsRun(run, events, calls)
    ensures var x := Thread(UDec, 0, false, true, 0);
      run[|run| - 1] ==
        State(Spin(true, true, Cpu(0)), Spin(true, true, Cpu(0)), 1, [x], One(0), Readers, false, NoFault)
  {
    run, events, calls := InsideRun();
    run, events, calls := Extend(run, events, calls, Step(0));
    run, events, calls := Extend(run, events, calls, Step(0));
    run, events, calls := Extend(run, events, calls, Step(0));
  }

  /** It is the last reader and about to give writer_lock back. */
  lemma GivingRun() returns (run: seq<State>, events: seq<Event>, calls: seq<Call>)
    ensures IsRun(run, events, calls)
    ensures var x := Thread(UDropW, 0, false, true, 0);
      run[|run| - 1] ==
        State(Spin(true, true, Cpu(0)), Spin(true, true, Cpu(0)), 0, [x], One(0), Readers, false, NoFault)
  {
    run, events, calls := ReturningRun();
    run, events, calls := Extend(run, events, calls, Step(0));
    run, events, calls := Extend(run, events, calls, Step(0));
    run, events, calls := Extend(run, events, calls, Step(0));
  }

  /** It leaves, has given writer_lock back, and its interrupts are on. */
  lemma LeavingRun() returns (run: seq<State>, events: seq<Event>, calls: seq<Call>)
    ensures IsRun(run, events, calls)
    ensures var x := Thread(UDrop, 0, true, true, 0);
      run[|run| - 1] == State(Spin(true, true, Cpu(0)), Spin(false, true, None), 0, [x], One(0), Nobody, false, NoFault)
  {
    run, events, calls := GivingRun();
    run, events, calls := Extend(run, events, calls, Step(0));
    run, events, calls := Extend(run, events, calls, Step(0));
  }

  /** Moved there, it panics too. */
  lemma LastStrayRun() returns (run: seq<State>, events: seq<Event>, calls: seq<Call>)
    ensures IsRun(run, events, calls) && run[|run| - 1].fault == NotOwner && run[|run| - 1].num == 0
  {
    run, events, calls := LeavingRun();
    run, events, calls := Extend(run, events, calls, Migrate(0, 1));
    run, events, calls := Extend(run, events, calls, Step(0));
  }

  // ---------- the lock can be had ----------

  /** A thread that calls rwlock_write_lock gets inside. */
  lemma WriterInsideRun() returns (run: seq<State>, events: seq<Event>, calls: seq<Call>)
    ensures IsRun(run, events, calls) && LastCall(run, events, calls, |events|, 0) == By(Write)
    ensures run[|run| - 1] ==
      State(Spin(false, false, None), Spin(true, true, Cpu(0)), 0, [Thread(Writing, 0, false, true, 0)], Nobody, One(0),
        false, NoFault)
  {
    var free := Spin(false, false, None);
    run, events, calls := [State(free, free, 0, [Thread(Out, 0, true, true, 0)], Nobody, Nobody, false, NoFault)], [],
      [];
    run, events, calls := Extend(run, events, calls, Step(0), Write);
    run, events, calls := Extend(run, events, calls, Step(0));
    run, events, calls := Extend(run, events, calls, Step(0));
    AsCalled(run, events, calls, |events|, 0);
  }

  /** It leaves the lock as it found it. */
  lemma WriterLeavesRun() returns (run: seq<State>, events: seq<Event>, calls: seq<Call>)
    ensures IsRun(run, events, calls)
    ensures run[|run| - 1] ==
      State(Spin(false, false, None), Spin(false, true, None), 0, [Thread(Out, 0, true, true, 0)], Nobody, Nobody,
        false,
        NoFault)
  {
    run, events, calls := WriterInsideRun();
    run, events, calls := Extend(run, events, calls, Step(0));
    run, events, calls := Extend(run, events, calls, Step(0));
    run, events, calls := Extend(run, events, calls, Step(0));
  }

  /** Two threads and what they have taken of readers_lock. */
  function Two(readers: Spin, num: nat, x: Thread, y: Thread, rh: Holder): State {
    State(readers, Spin(true, true, Cpu(0)), num, [x, y], rh, Readers, false, NoFault)
  }

  lemma FirstInsideRun(y: Thread) returns (run: seq<State>, events: seq<Event>, calls: seq<Call>)
    requires y == Thread(Out, 1, true, true, 1)
    ensures IsRun(run, events, calls)
    ensures run[|run| - 1] == Two(Spin(false, true, None), 1, Thread(Reading, 0, true, true, 0), y, Nobody)
  {
    run, events, calls := FirstCountedRun(y);
    run, events, calls := Extend(run, events, calls, Step(0));
    run, events, calls := Extend(run, events, calls, Step(0));
    run, events, calls := Extend(run, events, calls, Step(0));
    assert run[|run| - 1] == Two(Spin(true, true, Cpu(0)), 1, Thread(RDrop, 0, false, true, 0), y, One(0));
    run, events, calls := Extend(run, events, calls, Step(0));
    run, events, calls := Extend(run, events, calls, Step(0));
  }

  lemma FirstCountedRun(y: Thread) returns (run: seq<State>, events: seq<Event>, calls: seq<Call>)
    requires y == Thread(Out, 1, true, true, 1)
    ensures IsRun(run, events, calls)
    ensures var free := Spin(false, false, None);
      run[|run| - 1] == State(Spin(true, true, Cpu(0)), free, 1, [Thread(RSti, 0, false, true, 0), y], One(0), Nobody,
        false, NoFault)
  {
    var free := Spin(false, false, None);
    run, events, calls := [State(free, free, 0, [Thread(Out, 0, true, true, 0), y], Nobody, Nobody, false, NoFault)],
      [], [];
    run, events, calls := Extend(run, events, calls, Step(0));
    run, events, calls := Extend(run, events, calls, Step(0));
    run, events, calls := Extend(run, events, calls, Step(0));
    assert run[|run| - 1] == State(Spin(true, true, Cpu(0)), free, 0, [Thread(RInc, 0, false, true, 0), y], One(0),
      Nobody, false, NoFault);
    run, events, calls := Extend(run, events, calls, Step(0));
    run, events, calls := Extend(run, events, calls, Step(0));
  }

  lemma SecondCountsRun() returns (run: seq<State>, events: seq<Event>, calls: seq<Call>)
    ensures IsRun(run, events, calls)
    ensures run[|run| - 1] ==
      Two(Spin(true, true, Cpu(1)), 1, Thread(Reading, 0, true, true, 0), Thread(RInc, 1, false, true, 1), One(1))
  {
    run, events, calls := FirstInsideRun(Thread(Out, 1, true, true, 1));
    run, events, calls := Extend(run, events, calls, Step(1));
    run, events, calls := Extend(run, events, calls, Step(1));
    run, events, calls := Extend(run, events, calls, Step(1));
  }

  /** Two readers are inside together. */
  lemma TwoReadersRun() returns (run: seq<State>, events: seq<Event>, calls: seq<Call>)
    ensures IsRun(run, events, calls)
    ensures run[|run| - 1] ==
      Two(Spin(false, true, None), 2, Thread(Reading, 0, true, true, 0), Thread(Reading, 1, true, true, 1), Nobody)
  {
    run, events, calls := SecondCountsRun();
    run, events, calls := Extend(run, events, calls, Step(1));
    run, events, calls := Extend(run, events, calls, Step(1));
    run, events, calls := Extend(run, events, calls, Step(1));
    run, events, calls := Extend(run, events, calls, Step(1));
  }
}
