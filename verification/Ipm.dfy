/**
 Inter-processor messaging, remote calls and TLB shootdowns (src/ipm.c), as a
 state machine whose events are the atomic steps of the code: a lock-protected
 queue operation, one read or write of shared memory, one atomic instruction.

 Every C activation (an ipm_handler, an exec_tlb_shootdown with the paging
 operation around it, an exec_remote_call) is an activity on some cpu. All
 activities of a cpu may step in any order, which includes every nesting of
 interrupt handlers and every preemption by another thread of the same cpu. An
 activity may be moved to another cpu between any two of its steps, a handler until
 it has disabled preemption.
 */
module Ipm {
  type Cpu = nat
  type ActId = nat
  type CallId = nat
  type Page = nat
  type Frame = nat

  datatype Translation = Translation(page: Page, frame: Frame)

  /** The address of a struct ipm_message: kmalloc'ed, or on the stack of a shootdown. */
  datatype MsgRef = Heap(id: nat) | Stack(act: ActId)

  /** The tag of a message together with its data pointer. */
  datatype Payload = Test | RemoteCall(call: CallId) | TlbShootdown(wait: ActId)

  datatype Msg = Msg(payload: Payload, receiverDealloc: bool)

  /** Parameters of do_send_ipm: the loop bound, whether the destination is IPI_BROADCAST, the caller's `wait`, the
      payload. */
  datatype Request = Request(end: nat, broadcast: bool, wait: bool, payload: Payload)

  datatype Pc =
    // generic_interrupt_handler, up to the preempt_disable of ipm_handler
    | Accepted
    // process_messages
    | Loop                          // about to lock the queue and test it
    | Got(m: MsgRef)                // dequeued, queue unlocked
    | Copied(m: MsgRef, msg: Msg)   // copied on the stack, original not yet freed
    | Flush(wait: ActId)
    | Ack(wait: ActId)
    // handle_remote_call
    | Check(call: CallId)
    | TestSync(call: CallId)
    | CopyCall(call: CallId)
    | Drop(call: CallId)
    | FreeCall(call: CallId)
    | RunAsync(call: CallId)        // the copy of the call is on the stack
    | RunSync(call: CallId)
    | DropSync(call: CallId)
    | Complete(call: CallId)
    // paging_unmap_in, then exec_tlb_shootdown
    | Remove(todo: seq<Page>)
    | LocalFlush
    | Decide
    | NextTarget(target: Cpu)
    | SendTlb(target: Cpu)
    | RaiseTlb(target: Cpu)
    | AwaitTlb(target: Cpu)
    | Returned
    // exec_remote_call, broadcast_remote_call, send_ipm
    | Enqueue(next: Cpu, req: Request)
    | Raise(req: Request)
    | Await(req: Request)
    | CheckRef(call: CallId)
    | FreeSent(call: CallId)

  /** `gone` is history: the pages this activity removed, each with the frames it was mapped to again since. */
  datatype Act = Act(cpu: Cpu, pc: Pc, gone: map<Page, set<Frame>>)

  /** The page of t was removed and t not mapped since. */
  predicate Gone(gone: map<Page, set<Frame>>, t: Translation) { t.page in gone && t.frame !in gone[t.page] }

  /** History: how far a remote call got on one of its targets. */
  datatype Phase =
    Unsent | Queued(m: MsgRef) | Held(h: ActId) | Freeing(h: ActId) | Running(h: ActId) | Dropped(h: ActId) | Done

  /** struct remote_call_data; `freed` counts kfree calls; phase and finished are history: finished says how often the
      function has run on each cpu. A call carries the id of the activity that made it. */
  datatype Call = Call(sync: bool, ref: int, completed: int, freed: nat, phase: map<Cpu, Phase>,
                       finished: multiset<Cpu>)

  /** History: where a message is. */
  datatype Loc = Nowhere | InQueue(cpu: Cpu) | HeldBy(h: ActId)

  datatype Fault = NoFault | UseAfterFree | RefCountPanic | AssertFailed | ListCorrupted

  /** Per-cpu message queues, pending IPIs (an IPI raised twice is pending once), messages and
      the wait counters of shootdowns; loc, sent and received are history. */
  datatype Net = Net(
    queues: map<Cpu, seq<MsgRef>>,
    ipi: set<Cpu>,
    msgs: map<MsgRef, Msg>,
    waits: map<ActId, int>,
    loc: map<MsgRef, Loc>,
    sent: map<Cpu, seq<MsgRef>>,
    received: map<Cpu, seq<MsgRef>>)
  {
    function Queue(c: Cpu): seq<MsgRef> { if c in queues then queues[c] else [] }

    function Sent(c: Cpu): seq<MsgRef> { if c in sent then sent[c] else [] }

    function Received(c: Cpu): seq<MsgRef> { if c in received then received[c] else [] }

    predicate InSomeQueue(m: MsgRef) { exists c | c in queues :: m in queues[c] }
  }

  /** The page table and what each cpu's TLB caches of it. */
  datatype Mmu = Mmu(online: bool, pt: map<Page, Frame>, tlb: map<Cpu, set<Translation>>)
  {
    function Tlb(c: Cpu): set<Translation> { if c in tlb then tlb[c] else {} }

    predicate Mapped(t: Translation) { t.page in pt && pt[t.page] == t.frame }
  }

  /** `strayed` is history: the calls whose sender changed cpu in the middle of the broadcast. */
  datatype State = State(cpus: nat, acts: map<ActId, Act>, nextId: nat, net: Net,
                         calls: map<CallId, Call>, mmu: Mmu, fault: Fault, strayed: set<CallId>)
  {
    function Goto(a: ActId, pc: Pc): State
      requires a in acts
    {
      this.(acts := acts[a := acts[a].(pc := pc)])
    }

    function Exit(a: ActId): State { this.(acts := acts - {a}) }

    function Fail(f: Fault): State { this.(fault := f) }

    predicate Live(k: CallId) { k in calls && calls[k].freed == 0 }

    function SetPhase(k: CallId, c: Cpu, p: Phase): State {
      if k in calls then this.(calls := calls[k := calls[k].(phase := calls[k].phase[c := p])]) else this
    }
  }

  /** The cpus the loop of do_send_ipm still sends to when it is at `first`. */
  function Targets(from: Cpu, first: Cpu, req: Request): set<Cpu> {
    set c | 0 <= c < req.end && IsTarget(from, first, req, c)
  }

  predicate IsTarget(from: Cpu, first: Cpu, req: Request, c: Cpu) {
    first <= c < req.end && !(req.broadcast && c == from)
  }

  /** The cpus the IPI of do_send_ipm reaches. */
  function IpiTargets(from: Cpu, req: Request): set<Cpu> {
    if req.broadcast then Targets(from, 0, req) else if req.end > 0 then {req.end - 1} else {}
  }

  function Expected(req: Request, cpus: nat): int {
    if req.broadcast then cpus - 1 else 1
  }

  // ---------- process_messages (src/ipm.c:110-165) ----------

  function Dequeue(s: State, a: ActId): State
    requires a in s.acts
  {
    var c := s.acts[a].cpu;
    if s.net.Queue(c) == [] then s.Exit(a)
    else
      var m := s.net.Queue(c)[0];
      s.(net := s.net.(queues := s.net.queues[c := s.net.Queue(c)[1..]],
                       received := if m.Heap? then s.net.received[c := s.net.Received(c) + [m]] else s.net.received,
                       loc := s.net.loc[m := HeldBy(a)])).Goto(a, Got(m))
  }

  function CopyMessage(s: State, a: ActId, m: MsgRef): State
    requires a in s.acts
  {
    if m !in s.net.msgs then s.Fail(UseAfterFree) else s.Goto(a, Copied(m, s.net.msgs[m]))
  }

  function FreeAndDispatch(s: State, a: ActId, m: MsgRef, msg: Msg): State
    requires a in s.acts
  {
    if m !in s.net.msgs then s.Fail(UseAfterFree)
    else
      var s1 := if !s.net.msgs[m].receiverDealloc then s
                else s.(net := s.net.(msgs := s.net.msgs - {m}, loc := s.net.loc - {m}));
      match msg.payload
      case Test => s1.Goto(a, Loop)
      case RemoteCall(k) => s1.SetPhase(k, s.acts[a].cpu, Held(a)).Goto(a, Check(k))
      case TlbShootdown(w) => s1.Goto(a, Flush(w))
  }

  function FlushTlb(s: State, a: ActId, next: Pc): State
    requires a in s.acts
  {
    s.(mmu := s.mmu.(tlb := s.mmu.tlb[s.acts[a].cpu := {}])).Goto(a, next)
  }

  function AckShootdown(s: State, a: ActId, w: ActId): State
    requires a in s.acts
  {
    if w !in s.net.waits then s.Fail(UseAfterFree)
    else
      s.(net := s.net.(waits := s.net.waits[w := s.net.waits[w] - 1],
                       loc := s.net.loc[Stack(w) := Nowhere])).Goto(a, Loop)
  }

  // ---------- handle_remote_call (src/ipm.c:48-107) ----------

  function CheckCall(s: State, a: ActId, k: CallId): State
    requires a in s.acts && s.Live(k)
  {
    if s.calls[k].ref == 0 then s.Fail(RefCountPanic) else s.Goto(a, TestSync(k))
  }

  function DropAsync(s: State, a: ActId, k: CallId): State
    requires a in s.acts && s.Live(k)
  {
    var call := s.calls[k];
    var last := call.ref == 1;
    s.(calls := s.calls[k := call.(ref := call.ref - 1,
                                   phase := call.phase[s.acts[a].cpu := if last then Freeing(a) else Running(a)])])
     .Goto(a, if last then FreeCall(k) else RunAsync(k))
  }

  function FreeAsync(s: State, a: ActId, k: CallId): State
    requires a in s.acts && s.Live(k)
  {
    var call := s.calls[k];
    s.(calls := s.calls[k := call.(freed := call.freed + 1, phase := call.phase[s.acts[a].cpu := Running(a)])])
     .Goto(a, RunAsync(k))
  }

  function RunSyncCall(s: State, a: ActId, k: CallId): State
    requires a in s.acts && s.Live(k)
  {
    var call := s.calls[k];
    s.(calls := s.calls[k := call.(finished := call.finished + multiset{s.acts[a].cpu})]).Goto(a, DropSync(k))
  }

  /** The function is called from the copy; the struct may be freed already. */
  function RunAsyncCall(s: State, a: ActId, k: CallId): State
    requires a in s.acts
  {
    if k !in s.calls then s.Goto(a, Loop)
    else
      var call, c := s.calls[k], s.acts[a].cpu;
      s.(calls := s.calls[k := call.(finished := call.finished + multiset{c}, phase := call.phase[c := Done])])
       .Goto(a, Loop)
  }

  function DropSyncCall(s: State, a: ActId, k: CallId): State
    requires a in s.acts && s.Live(k)
  {
    var call := s.calls[k];
    if call.ref - 1 == 0 then s.Fail(AssertFailed)
    else
      s.(calls := s.calls[k := call.(ref := call.ref - 1, phase := call.phase[s.acts[a].cpu := Dropped(a)])])
       .Goto(a, Complete(k))
  }

  function CompleteCall(s: State, a: ActId, k: CallId): State
    requires a in s.acts && s.Live(k)
  {
    var call := s.calls[k];
    s.(calls := s.calls[k := call.(completed := call.completed + 1, phase := call.phase[s.acts[a].cpu := Done])])
     .Goto(a, Loop)
  }

  /** One step of handle_remote_call; every one of them accesses the shared struct. */
  function TickCall(s: State, a: ActId, k: CallId): State
    requires a in s.acts
  {
    if !s.Live(k) then s.Fail(UseAfterFree)
    else
      match s.acts[a].pc
      case Check(_) => CheckCall(s, a, k)
      case TestSync(_) => s.Goto(a, if s.calls[k].sync then RunSync(k) else CopyCall(k))
      case CopyCall(_) => s.Goto(a, Drop(k))
      case Drop(_) => DropAsync(s, a, k)
      case FreeCall(_) => FreeAsync(s, a, k)
      case RunSync(_) => RunSyncCall(s, a, k)
      case DropSync(_) => DropSyncCall(s, a, k)
      case Complete(_) => CompleteCall(s, a, k)
      case _ => s
  }

  // ---------- enqueue_message (src/ipm.c:227-244) ----------

  function EnqueueMessage(net: Net, m: MsgRef, c: Cpu): Net
    requires m in net.msgs
  {
    var tlb := net.msgs[m].payload.TlbShootdown?;
    net.(queues := net.queues[c := if tlb then [m] + net.Queue(c) else net.Queue(c) + [m]],
         sent := if tlb then net.sent else net.sent[c := net.Sent(c) + [m]],
         loc := net.loc[m := InQueue(c)])
  }

  // ---------- paging_unmap_in and exec_tlb_shootdown (src/paging.c:832-841, src/ipm.c:363-422) ----------

  function RemovePage(s: State, a: ActId, todo: seq<Page>): State
    requires a in s.acts
  {
    if todo == [] then s.Goto(a, LocalFlush)
    else if todo[0] !in s.mmu.pt then s   // PANIC: the page is not mapped; this activity never moves again
    else
      s.(mmu := s.mmu.(pt := s.mmu.pt - {todo[0]}),
         acts := s.acts[a := Act(s.acts[a].cpu, Remove(todo[1..]), s.acts[a].gone[todo[0] := {}])])
  }

  function DecideShootdown(s: State, a: ActId): State
    requires a in s.acts
  {
    if !s.mmu.online then s.Goto(a, Returned)
    else
      s.(net := s.net.(msgs := s.net.msgs[Stack(a) := Msg(TlbShootdown(a), false)],
                       loc := s.net.loc[Stack(a) := Nowhere],
                       waits := s.net.waits[a := 0])).Goto(a, NextTarget(0))
  }

  function PickTarget(s: State, a: ActId, t: Cpu): State
    requires a in s.acts
  {
    if t >= s.cpus then
      s.(net := s.net.(msgs := s.net.msgs - {Stack(a)}, loc := s.net.loc - {Stack(a)}, waits := s.net.waits - {a}))
       .Goto(a, Returned)
    else if t == s.acts[a].cpu then s.Goto(a, NextTarget(t + 1))
    else if s.net.InSomeQueue(Stack(a)) then s.Fail(ListCorrupted)   // list_init of a queued node
    else s.(net := s.net.(waits := s.net.waits[a := 1])).Goto(a, SendTlb(t))
  }

  function SendShootdown(s: State, a: ActId, t: Cpu): State
    requires a in s.acts
  {
    if Stack(a) !in s.net.msgs then s.Fail(UseAfterFree)
    else if s.net.InSomeQueue(Stack(a)) then s.Fail(ListCorrupted)
    else s.(net := EnqueueMessage(s.net, Stack(a), t)).Goto(a, RaiseTlb(t))
  }

  function AwaitShootdown(s: State, a: ActId, t: Cpu): State
    requires a in s.acts
  {
    if a !in s.net.waits then s.Fail(UseAfterFree)
    else if s.net.waits[a] != 0 then s else s.Goto(a, NextTarget(t + 1))
  }

  // ---------- do_send_ipm, exec_remote_call, broadcast_remote_call (src/ipm.c:253-361) ----------

  /** alloc_message and enqueue_message; nobody can see the message in between. */
  function SendNext(s: State, a: ActId, i: Cpu, req: Request): State
    requires a in s.acts
  {
    if i >= req.end then s.Goto(a, Raise(req))
    else if req.broadcast && i == s.acts[a].cpu then s.Goto(a, Enqueue(i + 1, req))
    else
      var m := Heap(s.nextId);
      var net1 := s.net.(msgs := s.net.msgs[m := Msg(req.payload, true)]);
      var s1 := s.(nextId := s.nextId + 1, net := EnqueueMessage(net1, m, i)).Goto(a, Enqueue(i + 1, req));
      if req.payload.RemoteCall? then s1.SetPhase(req.payload.call, i, Queued(m)) else s1
  }

  function RaiseIpi(s: State, a: ActId, req: Request): State
    requires a in s.acts
  {
    var s1 := s.(net := s.net.(ipi := s.net.ipi + IpiTargets(s.acts[a].cpu, req)));
    if req.wait && req.payload.RemoteCall? then s1.Goto(a, Await(req)) else s1.Exit(a)
  }

  /** One step of the waiting sender; every one of them accesses the shared struct. */
  function TickWaiter(s: State, a: ActId, k: CallId): State
    requires a in s.acts
  {
    if !s.Live(k) then s.Fail(UseAfterFree)
    else
      match s.acts[a].pc
      case Await(req) =>
        if s.calls[k].completed != Expected(req, s.cpus) then s else s.Goto(a, CheckRef(k))
      case CheckRef(_) =>
        if s.calls[k].ref != 1 then s.Fail(AssertFailed) else s.Goto(a, FreeSent(k))
      case FreeSent(_) =>
        s.(calls := s.calls[k := s.calls[k].(freed := s.calls[k].freed + 1)]).Exit(a)
      case _ => s
  }

  // ---------- events ----------

  datatype Event =
    | Tick(a: ActId)                                          // an activity executes its next step
    | Deliver(cpu: Cpu)                                       // a pending IPI starts an ipm_handler
    | SendTest(cpu: Cpu, first: Cpu, end: Cpu, broadcast: bool)
    | CallOne(cpu: Cpu, dest: Cpu, wait: bool)                // exec_remote_call
    | CallAll(cpu: Cpu, wait: bool)                           // broadcast_remote_call
    | Unmap(cpu: Cpu, pages: seq<Page>)                       // paging_unmap_in
    | MapPage(page: Page, frame: Frame)                       // a page table write adding a translation
    | Load(cpu: Cpu, page: Page)                              // the MMU caches a present translation
    | Evict(cpu: Cpu, t: Translation)                         // the MMU drops one
    | Migrate(a: ActId, cpu: Cpu)                             // the scheduler moves an activity to a cpu
    | BringUp                                                 // the APs come online

  function TickAct(s: State, a: ActId): State
    requires a in s.acts
  {
    match s.acts[a].pc
    case Accepted => s.Goto(a, Loop)
    case Loop => Dequeue(s, a)
    case Got(m) => CopyMessage(s, a, m)
    case Copied(m, msg) => FreeAndDispatch(s, a, m, msg)
    case Flush(w) => FlushTlb(s, a, Ack(w))
    case Ack(w) => AckShootdown(s, a, w)
    case Check(k) => TickCall(s, a, k)
    case TestSync(k) => TickCall(s, a, k)
    case CopyCall(k) => TickCall(s, a, k)
    case Drop(k) => TickCall(s, a, k)
    case FreeCall(k) => TickCall(s, a, k)
    case RunAsync(k) => RunAsyncCall(s, a, k)
    case RunSync(k) => TickCall(s, a, k)
    case DropSync(k) => TickCall(s, a, k)
    case Complete(k) => TickCall(s, a, k)
    case Remove(todo) => RemovePage(s, a, todo)
    case LocalFlush => FlushTlb(s, a, Decide)
    case Decide => DecideShootdown(s, a)
    case NextTarget(t) => PickTarget(s, a, t)
    case SendTlb(t) => SendShootdown(s, a, t)
    case RaiseTlb(t) => s.(net := s.net.(ipi := s.net.ipi + {t})).Goto(a, AwaitTlb(t))
    case AwaitTlb(t) => AwaitShootdown(s, a, t)
    case Returned => s.Exit(a)
    case Enqueue(i, req) => SendNext(s, a, i, req)
    case Raise(req) => RaiseIpi(s, a, req)
    case Await(req) => if req.payload.RemoteCall? then TickWaiter(s, a, req.payload.call) else s
    case CheckRef(k) => TickWaiter(s, a, k)
    case FreeSent(k) => TickWaiter(s, a, k)
  }

  /** In do_send_ipm, or waiting for the call it sent. */
  predicate IsSender(pc: Pc) {
    pc.Enqueue? || pc.Raise? || pc.Await? || pc.CheckRef? || pc.FreeSent?
  }

  /** A broadcast on its way: the loop and the IPI look at the cpu they are executed on. */
  predicate Broadcasting(pc: Pc) {
    (pc.Enqueue? || pc.Raise?) && pc.req.broadcast
  }

  /** A call whose targets depend on where its sender is. */
  predicate BroadcastingCall(pc: Pc) {
    Broadcasting(pc) && pc.req.payload.RemoteCall?
  }

  /** ipm_handler, from the acceptance of its IPI on. */
  predicate IsHandler(pc: Pc) {
    pc.Accepted? || pc.Loop? || pc.Got? || pc.Copied? || pc.Flush? || pc.Ack? || pc.Check? || pc.TestSync?
    || pc.CopyCall? || pc.Drop? || pc.FreeCall? || pc.RunAsync? || pc.RunSync? || pc.DropSync? || pc.Complete?
  }

  /** The scheduler may move everything but a handler that has disabled preemption. */
  predicate Movable(pc: Pc) { pc.Accepted? || !IsHandler(pc) }

  /** The switch to the activity on cpu c reloads cr3, which empties the TLB of c. */
  function MoveTo(s: State, a: ActId, c: Cpu): State
    requires a in s.acts
  {
    s.(acts := s.acts[a := s.acts[a].(cpu := c)], mmu := s.mmu.(tlb := s.mmu.tlb[c := {}]),
       strayed := if BroadcastingCall(s.acts[a].pc) && c != s.acts[a].cpu then s.strayed + {a} else s.strayed)
  }

  /** APs execute nothing before they are brought up. */
  predicate MayRun(s: State, c: Cpu) {
    c < s.cpus && (c == 0 || s.mmu.online)
  }

  predicate Enabled(s: State, e: Event) {
    && s.fault == NoFault
    && match e
       case Tick(a) => a in s.acts
       case Deliver(c) => c in s.net.ipi && MayRun(s, c)
       case SendTest(c, first, end, broadcast) =>
         MayRun(s, c) && (if broadcast then first == 0 && end == s.cpus else end == first + 1 <= s.cpus)
       case CallOne(c, dest, wait) => MayRun(s, c) && dest < s.cpus
       case CallAll(c, wait) => MayRun(s, c)
       case Unmap(c, pages) => MayRun(s, c)
       case MapPage(p, f) => p !in s.mmu.pt
       case Load(c, p) => MayRun(s, c) && p in s.mmu.pt
       case Evict(c, t) => MayRun(s, c)
       case Migrate(a, c) => a in s.acts && Movable(s.acts[a].pc) && MayRun(s, c)
       case BringUp => true
  }

  function Spawn(s: State, c: Cpu, pc: Pc): State {
    s.(acts := s.acts[s.nextId := Act(c, pc, map[])], nextId := s.nextId + 1)
  }

  /** rem_data is allocated and initialised before anyone can see it. */
  function SpawnCall(s: State, c: Cpu, first: Cpu, end: Cpu, broadcast: bool, wait: bool): State {
    var k := s.nextId;
    var req := Request(end, broadcast, wait, RemoteCall(k));
    var ref := if broadcast then s.cpus - (if wait then 0 else 1) else if wait then 2 else 1;
    var call := Call(wait, ref, 0, 0, map t | t in Targets(c, first, req) :: Unsent, multiset{});
    Spawn(s.(calls := s.calls[k := call]), c, Enqueue(first, req))
  }

  function Back(gone: map<Page, set<Frame>>, t: Translation): map<Page, set<Frame>> {
    if t.page in gone then gone[t.page := gone[t.page] + {t.frame}] else gone
  }

  /** A translation mapped again is no longer gone. */
  function Remap(acts: map<ActId, Act>, t: Translation): map<ActId, Act> {
    map a | a in acts :: acts[a].(gone := Back(acts[a].gone, t))
  }

  function Apply(s: State, e: Event): State
    requires Enabled(s, e)
  {
    match e
    case Tick(a) => TickAct(s, a)
    case Deliver(c) => Spawn(s.(net := s.net.(ipi := s.net.ipi - {c})), c, Accepted)
    case SendTest(c, first, end, broadcast) => Spawn(s, c, Enqueue(first, Request(end, broadcast, false, Test)))
    case CallOne(c, dest, wait) => SpawnCall(s, c, dest, dest + 1, false, wait)
    case CallAll(c, wait) => SpawnCall(s, c, 0, s.cpus, true, wait)
    case Unmap(c, pages) => Spawn(s, c, Remove(pages))
    case MapPage(p, f) => s.(mmu := s.mmu.(pt := s.mmu.pt[p := f]), acts := Remap(s.acts, Translation(p, f)))
    case Load(c, p) => s.(mmu := s.mmu.(tlb := s.mmu.tlb[c := s.mmu.Tlb(c) + {Translation(p, s.mmu.pt[p])}]))
    case Evict(c, t) => s.(mmu := s.mmu.(tlb := s.mmu.tlb[c := s.mmu.Tlb(c) - {t}]))
    case Migrate(a, c) => MoveTo(s, a, c)
    case BringUp => s.(mmu := s.mmu.(online := true))
  }

  /** The state after init_ipm on `cpus` cpus, with some page table and cold TLBs. */
  function Boot(cpus: nat, pt: map<Page, Frame>): State {
    State(cpus, map[], 0, Net(map[], {}, map[], map[], map[], map[], map[]), map[], Mmu(false, pt, map[]), NoFault,
      {})
  }

  /** A run: boot, then enabled events in any order. */
  ghost predicate IsRun(run: seq<State>, events: seq<Event>) {
    && |run| == |events| + 1
    && (exists pt :: run[0] == Boot(run[0].cpus, pt))
    && (forall i {:trigger StepAt(run, events, i)} | 0 <= i < |events| :: StepAt(run, events, i))
  }

  predicate StepAt(run: seq<State>, events: seq<Event>, i: nat)
    requires |run| == |events| + 1 && i < |events|
  {
    Enabled(run[i], events[i]) && run[i + 1] == Apply(run[i], events[i])
  }
}
