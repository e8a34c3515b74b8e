/**
 The reader/writer lock over spinlocks (src/rw_lock.c, src/spinlock_def.c) as a
 state machine over threads that interleave at every access to the lock. A thread
 may move to another cpu whenever its interrupts are on.
 */
module RwLock {
  type Cpu = nat
  type Tid = nat

  /** `None` is the owner 0xFF. */
  datatype Owner = None | Cpu(c: Cpu)

  /** The lock bit, the saved interrupt flag and the owner of a spinlock. */
  datatype Spin = Spin(locked: bool, irqs: bool, owner: Owner)

  datatype Pc =
    | Out                                                     // not in the lock
    | RTake | RGot | RInc | RTest | RSti | RTakeW | RGotW | RDrop | RRelease   // rwlock_read_lock
    | Reading
    | UTake | UGot | UDec | UTest | UFix | UDropW | UReleaseW | UDrop | URelease // rwlock_read_unlock
    | WTake | WGot | Writing | XDrop | XRelease               // rwlock_write_lock and rwlock_write_unlock

  /** `flag` is the local of spinlock_lock or spinlock_unlock, `home` the cpu it took readers_lock on. */
  datatype Thread = Thread(pc: Pc, cpu: Cpu, irqs: bool, flag: bool, home: Cpu)

  /** Who has readers_lock, and who has writer_lock. */
  datatype Holder = Nobody | One(t: Tid) | Readers

  datatype Fault = NoFault | OwnerSet | NotOwner

  /** `rh`, `wh` and `moved` are history: `moved` says some thread changed cpu while it had readers_lock. */
  datatype State = State(readers: Spin, writer: Spin, num: nat, threads: seq<Thread>, rh: Holder, wh: Holder,
    moved: bool, fault: Fault)

  datatype Event = Step(t: Tid) | Migrate(t: Tid, c: Cpu)

  predicate NeedsReaders(pc: Pc) { pc.RTake? || pc.UTake? }

  predicate NeedsWriter(pc: Pc) { pc.RTakeW? || pc.WTake? }

  /** A thread spins until the lock it takes is free; a panic stops everything. */
  predicate Enabled(s: State, e: Event) {
    && e.t < |s.threads| && s.fault == NoFault
    && match e
       case Step(t) => (NeedsReaders(s.threads[t].pc) ==> !s.readers.locked)
         && (NeedsWriter(s.threads[t].pc) ==> !s.writer.locked)
       case Migrate(t, c) => s.threads[t].irqs
  }

  // ---------- spinlocks ----------

  /** After _spinlock_lock: the flag and the owner are written. */
  function Fill(l: Spin, irqs: bool, c: Cpu): Spin { l.(irqs := irqs, owner := Cpu(c)) }

  function Panic(s: State, f: Fault): State { s.(fault := f) }

  function At(s: State, t: Tid, x: Thread): State
    requires t < |s.threads|
  {
    s.(threads := s.threads[t := x])
  }

  /** _spinlock_lock on readers_lock, then on writer_lock. */
  function TakeReaders(s: State, t: Tid, pc: Pc): State
    requires t < |s.threads|
  {
    var x := s.threads[t];
    At(s, t, x.(pc := pc, flag := x.irqs, irqs := false, home := x.cpu)).(readers := s.readers.(locked := true),
      rh := One(t))
  }

  function TakeWriter(s: State, t: Tid, pc: Pc, h: Holder): State
    requires t < |s.threads|
  {
    var x := s.threads[t];
    At(s, t, x.(pc := pc, flag := x.irqs, irqs := false)).(writer := s.writer.(locked := true), wh := h)
  }

  /** The rest of spinlock_lock. */
  function FillReaders(s: State, t: Tid, pc: Pc): State
    requires t < |s.threads|
  {
    var x := s.threads[t];
    if s.readers.owner != None then Panic(s, OwnerSet)
      else At(s, t, x.(pc := pc)).(readers := Fill(s.readers, x.flag, x.cpu))
  }

  function FillWriter(s: State, t: Tid, pc: Pc): State
    requires t < |s.threads|
  {
    var x := s.threads[t];
    if s.writer.owner != None then Panic(s, OwnerSet)
      else At(s, t, x.(pc := pc)).(writer := Fill(s.writer, x.flag, x.cpu))
  }

  /** spinlock_unlock up to the owner field. */
  function DropReaders(s: State, t: Tid, pc: Pc): State
    requires t < |s.threads|
  {
    var x := s.threads[t];
    if s.readers.owner != Cpu(x.cpu) then Panic(s, NotOwner)
    else At(s, t, x.(pc := pc, flag := s.readers.irqs)).(readers := s.readers.(owner := None))
  }

  function DropWriter(s: State, t: Tid, pc: Pc): State
    requires t < |s.threads|
  {
    var x := s.threads[t];
    if s.writer.owner != Cpu(x.cpu) then Panic(s, NotOwner)
    else At(s, t, x.(pc := pc, flag := s.writer.irqs)).(writer := s.writer.(owner := None))
  }

  /** _spinlock_unlock and the interrupt flag. */
  function ReleaseReaders(s: State, t: Tid, pc: Pc): State
    requires t < |s.threads|
  {
    var x := s.threads[t];
    At(s, t, x.(pc := pc, irqs := x.flag)).(readers := s.readers.(locked := false), rh := Nobody)
  }

  function ReleaseWriter(s: State, t: Tid, pc: Pc): State
    requires t < |s.threads|
  {
    var x := s.threads[t];
    At(s, t, x.(pc := pc, irqs := x.flag)).(writer := s.writer.(locked := false), wh := Nobody)
  }

  // ---------- rwlock_t ----------

  /** What a thread outside calls next is up to it. */
  datatype Call = Read | Write

  function Go(s: State, t: Tid, pc: Pc): State
    requires t < |s.threads|
  {
    At(s, t, s.threads[t].(pc := pc))
  }

  function Next(s: State, t: Tid, call: Call): State
    requires t < |s.threads|
  {
    var x := s.threads[t];
    match x.pc
    case Out => Go(s, t, if call.Read? then RTake else WTake)
    case RTake => TakeReaders(s, t, RGot)
    case RGot => FillReaders(s, t, RInc)
    case RInc => Go(s, t, RTest).(num := s.num + 1)
    case RTest => Go(s, t, if s.num == 1 then RSti else RDrop)
    case RSti => At(s, t, x.(pc := RTakeW, irqs := true))
    case RTakeW => TakeWriter(s, t, RGotW, Readers)
    case RGotW => FillWriter(s, t, RDrop)
    case RDrop => DropReaders(s, t, RRelease)
    case RRelease => ReleaseReaders(s, t, Reading)
    case Reading => Go(s, t, UTake)
    case UTake => TakeReaders(s, t, UGot)
    case UGot => FillReaders(s, t, UDec)
    case UDec => if s.num == 0 then s else Go(s, t, UTest).(num := s.num - 1)
    case UTest => Go(s, t, if s.num == 0 then UFix else UDrop)
    case UFix => Go(s, t, UDropW).(writer := s.writer.(owner := Cpu(x.cpu)))
    case UDropW => DropWriter(s, t, UReleaseW)
    case UReleaseW => ReleaseWriter(s, t, UDrop)
    case UDrop => DropReaders(s, t, URelease)
    case URelease => ReleaseReaders(s, t, Out)
    case WTake => TakeWriter(s, t, WGot, One(t))
    case WGot => FillWriter(s, t, Writing)
    case Writing => Go(s, t, XDrop)
    case XDrop => DropWriter(s, t, XRelease)
    case XRelease => ReleaseWriter(s, t, Out)
  }

  function Apply(s: State, e: Event, call: Call): State
    requires Enabled(s, e)
  {
    match e
    case Step(t) => Next(s, t, call)
    case Migrate(t, c) => At(s, t, s.threads[t].(cpu := c)).(moved := s.moved || HasReaders(s.threads[t].pc))
  }

  // ---------- the invariant ----------

  /** The thread has readers_lock. */
  predicate HasReaders(pc: Pc) {
    pc.RGot? || pc.RInc? || pc.RTest? || pc.RSti? || pc.RTakeW? || pc.RGotW? || pc.RDrop? || pc.RRelease?
    || pc.UGot? || pc.UDec? || pc.UTest? || pc.UFix? || pc.UDropW? || pc.UReleaseW? || pc.UDrop? || pc.URelease?
  }

  /** The thread has writer_lock as a writer. */
  predicate HasWriter(pc: Pc) { pc.WGot? || pc.Writing? || pc.XDrop? || pc.XRelease? }

  /** The thread has counted itself as a reader and not uncounted itself. */
  predicate Counted(pc: Pc) {
    pc.RTest? || pc.RSti? || pc.RTakeW? || pc.RGotW? || pc.RDrop? || pc.RRelease? || pc.Reading? || pc.UTake?
      || pc.UGot? || pc.UDec?
  }

  predicate IrqsOff(pc: Pc) {
    (HasReaders(pc) && !pc.RSti? && !pc.RTakeW? && !pc.UDrop? && !pc.URelease?) || HasWriter(pc)
  }

  /** The first reader, before it has the writer lock on behalf of all. */
  predicate FirstWaits(pc: Pc, num: nat) { (pc.RTest? && num == 1) || pc.RSti? || pc.RTakeW? }

  /** The last reader, until it gives the writer lock back. */
  predicate LastLeaves(pc: Pc, num: nat) { (pc.UTest? && num == 0) || pc.UFix? || pc.UDropW? || pc.UReleaseW? }

  function CountedSet(s: State): set<Tid> { set t: Tid | t < |s.threads| && IsCounted(s, t) }

  predicate IsCounted(s: State, t: Tid) { t < |s.threads| && Counted(s.threads[t].pc) }

  ghost predicate ThreadOk(s: State, t: Tid)
    requires t < |s.threads|
  {
    var x := s.threads[t];
    && (HasReaders(x.pc) <==> s.rh == One(t))
    && (HasWriter(x.pc) <==> s.wh == One(t))
    && (IrqsOff(x.pc) ==> !x.irqs)
    && (HasReaders(x.pc) ==>
       s.readers.owner == (if x.pc.RGot? || x.pc.UGot? || x.pc.RRelease? || x.pc.URelease? then None else Cpu(x.home)))
    && (HasReaders(x.pc) && (!s.moved || x.pc.RGot? || x.pc.UGot?) ==> x.home == x.cpu)
    && (HasWriter(x.pc) ==> s.writer.owner == (if x.pc.WGot? || x.pc.XRelease? then None else Cpu(x.cpu)))
    && (x.pc.RGotW? || x.pc.UReleaseW? ==> s.writer.owner == None)
    && (x.pc.UDropW? ==> s.writer.owner == Cpu(x.cpu))
    && ((x.pc.RSti? || x.pc.RTakeW? || x.pc.RGotW?) ==> s.num == 1)
    && ((x.pc.UFix? || x.pc.UDropW? || x.pc.UReleaseW?) ==> s.num == 0)
  }

  /** The readers together have writer_lock: someone is counted and the first has taken it, or the last has not given
      it back. */
  predicate ReadersHave(s: State) {
    if s.rh.One? && s.rh.t < |s.threads| then
      var pc := s.threads[s.rh.t].pc;
      (s.num > 0 && !FirstWaits(pc, s.num)) || LastLeaves(pc, s.num)
    else s.num > 0
  }

  ghost predicate LocksOk(s: State) {
    && s.fault == NoFault && s.rh != Readers && (s.rh.One? ==> s.rh.t < |s.threads|)
    && (s.wh.One? ==> s.wh.t < |s.threads|)
    && (s.readers.locked <==> s.rh != Nobody) && (s.writer.locked <==> s.wh != Nobody)
    && (s.rh == Nobody ==> s.readers.owner == None) && (s.wh == Nobody ==> s.writer.owner == None)
    && (s.wh == Readers <==> ReadersHave(s))
  }

  ghost predicate Inv(s: State) {
    LocksOk(s) && s.num == |CountedSet(s)| && forall t | 0 <= t < |s.threads| :: ThreadOk(s, t)
  }

  // ---------- runs ----------

  ghost predicate Boot(s: State) {
    && s.readers == Spin(false, s.readers.irqs, None) && s.writer == Spin(false, s.writer.irqs, None) && s.num == 0
    && s.rh == Nobody == s.wh && !s.moved && s.fault == NoFault
    && forall t | 0 <= t < |s.threads| :: s.threads[t].pc.Out?
  }

  ghost predicate StepAt(run: seq<State>, events: seq<Event>, calls: seq<Call>, i: nat) {
    && i < |events| && i < |calls| && i + 1 < |run|
    && Enabled(run[i], events[i]) && run[i + 1] == Apply(run[i], events[i], calls[i])
  }

  ghost predicate IsRun(run: seq<State>, events: seq<Event>, calls: seq<Call>) {
    && |run| == |events| + 1 && |calls| == |events| && Boot(run[0])
    && forall i {:trigger StepAt(run, events, calls, i)} | 0 <= i < |events| :: StepAt(run, events, calls, i)
  }
}
