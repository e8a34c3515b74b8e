/** The interrupt flag: every function of the reader/writer lock gives a thread back the flag it came with. */
module RwLockIrqs {
  import opened RwLock
  import opened RwLockSafety

  /** The thread is about to take a lock, or has none. */
  predicate Free(pc: Pc) { pc.Out? || pc.RTake? || pc.Reading? || pc.UTake? || pc.WTake? }

  /** Its flag is in the local variable of spinlock_lock or spinlock_unlock. */
  predicate InLocal(pc: Pc) {
    pc.RGot? || pc.UGot? || pc.WGot? || pc.RRelease? || pc.URelease? || pc.XRelease?
  }

  /** Where the flag f of thread t is. */
  predicate FlagAt(s: State, t: Tid, f: bool)
    requires t < |s.threads|
  {
    var x := s.threads[t];
    && (Free(x.pc) ==> x.irqs == f)
    && (InLocal(x.pc) ==> x.flag == f)
    && (HasReaders(x.pc) && !InLocal(x.pc) ==> s.readers.irqs == f)
    && (x.pc.Writing? || x.pc.XDrop? ==> s.writer.irqs == f)
  }

  /** The readers have writer_lock while one of them writes its fields. */
  lemma FillsForAll(s: State, u: Tid)
    requires Inv(s) && u < |s.threads| && s.threads[u].pc.RGotW?
    ensures s.wh == Readers
  {
    assert ThreadOk(s, u);
  }

  /** Only the second half of spinlock_lock writes the flag of a lock. */
  predicate FillsOnly(s: State, s': State, u: Tid) {
    && u < |s.threads| == |s'.threads| && s'.threads == s.threads[u := s'.threads[u]]
    && (s.threads[u].pc.RGot? || s.threads[u].pc.UGot? || s'.readers.irqs == s.readers.irqs)
    && (s.threads[u].pc.RGotW? || s.threads[u].pc.WGot? || s'.writer.irqs == s.writer.irqs)
  }

  lemma LockWrites(s: State, u: Tid, call: Call)
    requires u < |s.threads|
    requires var pc := s.threads[u].pc;
      pc.Out? || pc.RTake? || pc.RGot? || pc.RInc? || pc.RTest? || pc.RSti? || pc.RTakeW? || pc.RGotW? || pc.RDrop?
      || pc.RRelease? || pc.Reading?
    ensures FillsOnly(s, Next(s, u, call), u)
  {
    assert s.threads[u := s.threads[u]] == s.threads;
  }

  lemma UnlockWrites(s: State, u: Tid, call: Call)
    requires u < |s.threads|
    requires var pc := s.threads[u].pc;
      pc.UTake? || pc.UGot? || pc.UDec? || pc.UTest? || pc.UFix? || pc.UDropW? || pc.UReleaseW? || pc.UDrop?
      || pc.URelease? || Writes(pc)
    ensures FillsOnly(s, Next(s, u, call), u)
  {
    assert s.threads[u := s.threads[u]] == s.threads;
  }

  /** A step of another thread leaves the flag where it is. */
  lemma OtherStep(s: State, s': State, u: Tid, t: Tid, f: bool)
    requires Inv(s) && t < |s.threads| && u != t && FlagAt(s, t, f) && FillsOnly(s, s', u)
    ensures FlagAt(s', t, f)
  {
    assert ThreadOk(s, u) && ThreadOk(s, t);
    if s.threads[u].pc.RGotW? { FillsForAll(s, u); }
  }

  lemma OwnEntry(s: State, t: Tid, call: Call, f: bool)
    requires t < |s.threads| && FlagAt(s, t, f)
    requires var pc := s.threads[t].pc; pc.Out? || pc.RTake? || pc.RGot? || pc.RInc? || pc.RTest? || pc.RSti?
    ensures t < |Next(s, t, call).threads| && FlagAt(Next(s, t, call), t, f)
  {
  }

  lemma OwnWait(s: State, t: Tid, call: Call, f: bool)
    requires t < |s.threads| && FlagAt(s, t, f)
    requires var pc := s.threads[t].pc; pc.RTakeW? || pc.RGotW? || pc.RDrop? || pc.RRelease? || pc.Reading?
    ensures t < |Next(s, t, call).threads| && FlagAt(Next(s, t, call), t, f)
  {
  }

  lemma OwnUnlock(s: State, t: Tid, call: Call, f: bool)
    requires t < |s.threads| && FlagAt(s, t, f)
    requires var pc := s.threads[t].pc; pc.UTake? || pc.UGot? || pc.UDec? || pc.UTest? || pc.UFix?
    ensures t < |Next(s, t, call).threads| && FlagAt(Next(s, t, call), t, f)
  {
  }

  lemma OwnLeave(s: State, t: Tid, call: Call, f: bool)
    requires t < |s.threads| && FlagAt(s, t, f)
    requires var pc := s.threads[t].pc; pc.UDropW? || pc.UReleaseW? || pc.UDrop? || pc.URelease?
    ensures t < |Next(s, t, call).threads| && FlagAt(Next(s, t, call), t, f)
  {
  }

  lemma OwnWrite(s: State, t: Tid, call: Call, f: bool)
    requires t < |s.threads| && FlagAt(s, t, f) && Writes(s.threads[t].pc)
    ensures t < |Next(s, t, call).threads| && FlagAt(Next(s, t, call), t, f)
  {
  }

  lemma OwnStep(s: State, t: Tid, call: Call, f: bool)
    requires t < |s.threads| && FlagAt(s, t, f)
    ensures t < |Next(s, t, call).threads| && FlagAt(Next(s, t, call), t, f)
  {
    var pc := s.threads[t].pc;
    if Writes(pc) { OwnWrite(s, t, call, f); }
    else if pc.Out? || pc.RTake? || pc.RGot? || pc.RInc? || pc.RTest? || pc.RSti? { OwnEntry(s, t, call, f); }
    else if pc.RTakeW? || pc.RGotW? || pc.RDrop? || pc.RRelease? || pc.Reading? { OwnWait(s, t, call, f); }
    else if pc.UDropW? || pc.UReleaseW? || pc.UDrop? || pc.URelease? { OwnLeave(s, t, call, f); }
    else { OwnUnlock(s, t, call, f); }
  }

  lemma AnyWrites(s: State, u: Tid, call: Call)
    requires u < |s.threads|
    ensures FillsOnly(s, Next(s, u, call), u)
  {
    var pc := s.threads[u].pc;
    if pc.Out? || pc.RTake? || pc.RGot? || pc.RInc? || pc.RTest? || pc.RSti? || pc.RTakeW? || pc.RGotW? || pc.RDrop?
      || pc.RRelease? || pc.Reading? {
      LockWrites(s, u, call);
    } else {
      UnlockWrites(s, u, call);
    }
  }

  lemma FlagStep(s: State, e: Event, call: Call, t: Tid, f: bool)
    requires Inv(s) && Enabled(s, e) && t < |s.threads| && FlagAt(s, t, f)
    ensures t < |Apply(s, e, call).threads| && FlagAt(Apply(s, e, call), t, f)
  {
    if e.Step? {
      if e.t == t {
        OwnStep(s, t, call, f);
      } else {
        AnyWrites(s, e.t, call);
        OtherStep(s, Apply(s, e, call), e.t, t, f);
      }
    }
  }

  lemma {:induction false} FlagKept(run: seq<State>, events: seq<Event>, calls: seq<Call>, i: nat, t: Tid)
    requires IsRun(run, events, calls) && i < |run| && t < |run[0].threads|
    ensures t < |run[i].threads| && FlagAt(run[i], t, run[0].threads[t].irqs)
  {
    if i > 0 {
      FlagKept(run, events, calls, i - 1, t);
      RunGood(run, events, calls, i - 1);
      assert StepAt(run, events, calls, i - 1);
      assert run[i - 1].(fault := NoFault) == run[i - 1];
      FlagStep(run[i - 1], events[i - 1], calls[i - 1], t, run[0].threads[t].irqs);
    }
  }

  /** A thread that has entered or left as a reader, or left as a writer, has its interrupt flag back; inside as a
      writer its interrupts are off. */
  lemma InterruptsRestored(run: seq<State>, events: seq<Event>, calls: seq<Call>, i: nat, t: Tid)
    requires IsRun(run, events, calls) && i < |run| && t < |run[0].threads|
    ensures t < |run[i].threads|
    ensures var x := run[i].threads[t];
      (x.pc.Out? || x.pc.Reading? ==> x.irqs == run[0].threads[t].irqs) && (x.pc.Writing? ==> !x.irqs)
  {
    FlagKept(run, events, calls, i, t);
    RunGood(run, events, calls, i);
    assert ThreadOk(run[i].(fault := NoFault), t);
  }
}
