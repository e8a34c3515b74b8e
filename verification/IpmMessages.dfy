/**
 Message lifetime: every message is in at most one queue or in the hands of one
 handler, and the message on a shootdown's stack is reused only when it is in no
 queue and no handler can still touch it or its wait counter.
 */
module IpmMessages {
  import opened Ipm

  /** The handler at `pc` may still touch message m, or the wait counter m points to. */
  predicate HoldsMsg(pc: Pc, m: MsgRef) {
    match pc
    case Got(x) => x == m
    case Copied(x, _) => x == m
    case Flush(w) => m == Stack(w)
    case Ack(w) => m == Stack(w)
    case _ => false
  }

  /** Inside the loop of exec_tlb_shootdown: the message and the counter exist. */
  predicate InShootdown(pc: Pc) {
    pc.NextTarget? || pc.SendTlb? || pc.RaiseTlb? || pc.AwaitTlb?
  }

  predicate MsgNeutral(pc: Pc) {
    !InShootdown(pc) && !pc.Got? && !pc.Copied? && !pc.Flush? && !pc.Ack?
  }

  /** Where the message of a shootdown at `pc` can be, given its counter. */
  predicate ShootdownOk(s: State, a: ActId) {
    var net := s.net;
    && a in s.acts && a in net.waits && Stack(a) in net.msgs && Stack(a) in net.loc
    && match s.acts[a].pc
       case NextTarget(_) => net.loc[Stack(a)].Nowhere?
       case SendTlb(t) => net.loc[Stack(a)].Nowhere? && net.waits[a] == 1 && t < s.cpus
       case RaiseTlb(t) => t < s.cpus && Delivered(s, a, t)
       case AwaitTlb(t) => t < s.cpus && Delivered(s, a, t)
       case _ => false
  }

  /** The message went to t: counter 1 while it is queued or held there, 0 once it was acknowledged. */
  predicate Delivered(s: State, a: ActId, t: Cpu)
    requires a in s.net.waits && Stack(a) in s.net.loc
  {
    match s.net.loc[Stack(a)]
    case Nowhere => s.net.waits[a] == 0
    case InQueue(c) => s.net.waits[a] == 1 && c == t
    case HeldBy(h) => s.net.waits[a] == 1 && h in s.acts && s.acts[h].cpu == t
  }

  /** What a sends is its own call or a plain message, to cpus that exist. */
  predicate PcOk(a: ActId, cpus: nat, pc: Pc) {
    match pc
    case Enqueue(i, req) =>
      i <= req.end && (req.broadcast || req.end <= i + 1) && RequestOk(cpus, req)
      && (req.payload == Test || req.payload == RemoteCall(a))
    case Raise(req) => RequestOk(cpus, req) && (req.payload == Test || req.payload == RemoteCall(a))
    case Await(req) => RequestOk(cpus, req) && req.wait && req.payload == RemoteCall(a)
    case CheckRef(k) => k == a
    case FreeSent(k) => k == a
    case _ => true
  }

  predicate RequestOk(cpus: nat, req: Request) {
    0 < req.end <= cpus && (req.broadcast ==> req.end == cpus)
  }

  predicate ActOk(s: State, a: ActId)
    requires a in s.acts
  {
    var pc := s.acts[a].pc;
    && a < s.nextId && PcOk(a, s.cpus, pc)
    && s.acts[a].cpu < s.cpus
    && (InShootdown(pc) ==> ShootdownOk(s, a))
    && (pc.Got? || pc.Copied? ==> pc.m in s.net.msgs && pc.m in s.net.loc && s.net.loc[pc.m] == HeldBy(a))
    && (pc.Copied? ==> s.net.msgs[pc.m] == pc.msg)
    && (pc.Flush? || pc.Ack? ==> Stack(pc.wait) in s.net.msgs && Stack(pc.wait) in s.net.loc
                                  && s.net.loc[Stack(pc.wait)] == HeldBy(a))
  }

  predicate MsgOk(s: State, m: MsgRef)
    requires m in s.net.msgs
  {
    var net := s.net;
    && m in net.loc
    && (match m
        case Heap(id) =>
          id < s.nextId && net.msgs[m].receiverDealloc && !net.msgs[m].payload.TlbShootdown? && !net.loc[m].Nowhere?
        case Stack(w) =>
          net.msgs[m] == Msg(TlbShootdown(w), false) && w in s.acts && InShootdown(s.acts[w].pc))
    && (match net.loc[m]
        case Nowhere => true
        case InQueue(c) => m in net.Queue(c) && c < s.cpus
        case HeldBy(h) => h in s.acts && HoldsMsg(s.acts[h].pc, m))
  }

  predicate QueueOk(net: Net, c: Cpu) {
    var q := net.Queue(c);
    && (forall i | 0 <= i < |q| :: q[i] in net.msgs && q[i] in net.loc && net.loc[q[i]] == InQueue(c))
    && (forall i, j | 0 <= i < j < |q| :: q[i] != q[j])
  }

  ghost predicate MsgInv(s: State) {
    && (forall a | a in s.acts :: ActOk(s, a))
    && (forall m | m in s.net.msgs :: MsgOk(s, m))
    && (forall c :: QueueOk(s.net, c))
  }

  /** Same messages, same control points: nothing to show. */
  lemma SameMessages(s: State, s': State)
    requires MsgInv(s)
    requires s'.net == s.net.(ipi := s'.net.ipi) && s'.nextId == s.nextId && s'.cpus == s.cpus
    requires s'.acts.Keys == s.acts.Keys
    requires forall a | a in s.acts :: s'.acts[a].(gone := s.acts[a].gone) == s.acts[a]
    ensures MsgInv(s')
  {
    forall b | b in s'.acts ensures ActOk(s', b) { assert ActOk(s, b); }
    forall m | m in s'.net.msgs ensures MsgOk(s', m) { assert MsgOk(s, m); }
    forall c ensures QueueOk(s'.net, c) { assert QueueOk(s.net, c); }
  }

  /** A step between control points that hold no message. */
  lemma NeutralStep(s: State, s': State, a: ActId, act: Act)
    requires MsgInv(s) && a in s.acts && act.cpu < s.cpus && PcOk(a, s.cpus, act.pc)
    requires s'.net == s.net.(ipi := s'.net.ipi) && s'.nextId == s.nextId && s'.cpus == s.cpus
    requires s'.acts == s.acts[a := act]
    requires MsgNeutral(s.acts[a].pc) && MsgNeutral(act.pc)
    ensures MsgInv(s')
  {
    forall b | b in s'.acts ensures ActOk(s', b) {
      assert b in s.acts && ActOk(s, b);
      if Stack(b) in s.net.msgs { assert MsgOk(s, Stack(b)); }
    }
    forall m | m in s'.net.msgs ensures MsgOk(s', m) { assert MsgOk(s, m); }
    forall c ensures QueueOk(s'.net, c) { assert QueueOk(s.net, c); }
  }

  /** An activity that holds no message is moved to another cpu. */
  lemma MoveStep(s: State, s': State, a: ActId)
    requires MsgInv(s) && a in s.acts && a in s'.acts && s'.acts[a].cpu < s.cpus && Movable(s.acts[a].pc)
    requires s'.net == s.net && s'.nextId == s.nextId && s'.cpus == s.cpus
    requires s'.acts == s.acts[a := s.acts[a].(cpu := s'.acts[a].cpu)]
    ensures MsgInv(s')
  {
    forall b | b in s'.acts ensures ActOk(s', b) {
      assert ActOk(s, b);
      if Stack(b) in s.net.msgs { assert MsgOk(s, Stack(b)); }
    }
    forall m | m in s'.net.msgs ensures MsgOk(s', m) { assert MsgOk(s, m); }
    forall c ensures QueueOk(s'.net, c) { assert QueueOk(s.net, c); }
  }

  lemma NeutralExit(s: State, s': State, a: ActId)
    requires MsgInv(s) && a in s.acts && MsgNeutral(s.acts[a].pc)
    requires s'.net == s.net.(ipi := s'.net.ipi) && s'.nextId == s.nextId && s'.cpus == s.cpus
    requires s'.acts == s.acts - {a}
    ensures MsgInv(s')
  {
    forall b | b in s'.acts ensures ActOk(s', b) { assert b in s.acts && ActOk(s, b); }
    forall m | m in s'.net.msgs ensures MsgOk(s', m) { assert MsgOk(s, m); }
    forall c ensures QueueOk(s'.net, c) { assert QueueOk(s.net, c); }
  }

  lemma SpawnStep(s: State, s': State, act: Act)
    requires MsgInv(s) && MsgNeutral(act.pc) && act.cpu < s.cpus && PcOk(s.nextId, s.cpus, act.pc)
    requires s'.net == s.net.(ipi := s'.net.ipi) && s'.nextId == s.nextId + 1 && s'.cpus == s.cpus
    requires s'.acts == s.acts[s.nextId := act]
    ensures MsgInv(s')
  {
    forall b | b in s.acts ensures b != s.nextId { assert ActOk(s, b); }
    forall b | b in s'.acts ensures ActOk(s', b) { if b != s.nextId { assert ActOk(s, b); } }
    forall m | m in s'.net.msgs ensures MsgOk(s', m) { assert MsgOk(s, m); }
    forall c ensures QueueOk(s'.net, c) { assert QueueOk(s.net, c); }
  }

  lemma DequeueAct(s: State, s': State, a: ActId, b: ActId)
    requires a in s.acts && b in s.acts && s.acts[a].pc == Loop && s' == Dequeue(s, a) && b in s'.acts
    requires QueueOk(s.net, s.acts[a].cpu) && ActOk(s, a) && ActOk(s, b)
    requires Stack(b) in s.net.msgs ==> MsgOk(s, Stack(b))
    ensures ActOk(s', b)
  {
    if s.net.Queue(s.acts[a].cpu) != [] && b != a { assert s'.acts[b] == s.acts[b]; }
  }

  lemma DequeueMsg(s: State, s': State, a: ActId, m: MsgRef)
    requires a in s.acts && s.acts[a].pc == Loop && s' == Dequeue(s, a) && m in s.net.msgs
    requires QueueOk(s.net, s.acts[a].cpu) && MsgOk(s, m)
    ensures MsgOk(s', m)
  {
  }

  lemma DequeueQueue(s: State, s': State, a: ActId, c: Cpu)
    requires a in s.acts && s' == Dequeue(s, a) && QueueOk(s.net, s.acts[a].cpu) && QueueOk(s.net, c)
    ensures QueueOk(s'.net, c)
  {
  }

  lemma StepDequeue(s: State, a: ActId)
    requires MsgInv(s) && a in s.acts && s.acts[a].pc == Loop
    ensures MsgInv(Dequeue(s, a))
  {
    var s' := Dequeue(s, a);
    forall b | b in s'.acts ensures ActOk(s', b) { DequeueAct(s, s', a, b); }
    forall m | m in s'.net.msgs ensures MsgOk(s', m) { DequeueMsg(s, s', a, m); }
    forall c ensures QueueOk(s'.net, c) { DequeueQueue(s, s', a, c); }
  }

  lemma StepCopy(s: State, a: ActId)
    requires MsgInv(s) && a in s.acts && s.acts[a].pc.Got?
    ensures var s' := CopyMessage(s, a, s.acts[a].pc.m); MsgInv(s') && s'.fault == s.fault
  {
    var s' := CopyMessage(s, a, s.acts[a].pc.m);
    assert ActOk(s, a);
    forall b | b in s'.acts ensures ActOk(s', b) { assert ActOk(s, b); }
    forall m | m in s'.net.msgs ensures MsgOk(s', m) { assert MsgOk(s, m); }
    forall c ensures QueueOk(s'.net, c) { assert QueueOk(s.net, c); }
  }

  lemma DispatchedAct(s: State, s': State, a: ActId, m: MsgRef, b: ActId)
    requires a in s.acts && a in s'.acts && b in s.acts && m.Heap? && ActOk(s, b) && s.acts[a].pc.Copied?
    requires s'.net == s.net.(msgs := s.net.msgs - {m}, loc := s.net.loc - {m}) && m in s.net.loc
    requires s.net.loc[m] == HeldBy(a) && s'.nextId == s.nextId && s'.cpus == s.cpus
    requires s'.acts == s.acts[a := s.acts[a].(pc := s'.acts[a].pc)] && b != a
    ensures ActOk(s', b)
  {
  }

  /** The original of a heap message is freed; the copy decides what comes next. */
  lemma StepDispatchHeap(s: State, s': State, a: ActId, pc: Pc)
    requires MsgInv(s) && a in s.acts && s.acts[a].pc.Copied? && s.acts[a].pc.m.Heap?
    requires MsgNeutral(pc) && PcOk(a, s.cpus, pc)
    requires var m := s.acts[a].pc.m; s'.net == s.net.(msgs := s.net.msgs - {m}, loc := s.net.loc - {m})
    requires s'.nextId == s.nextId && s'.cpus == s.cpus && s'.acts == s.acts[a := s.acts[a].(pc := pc)]
    ensures MsgInv(s')
  {
    var m := s.acts[a].pc.m;
    assert ActOk(s, a) && MsgOk(s, m);
    forall b | b in s'.acts ensures ActOk(s', b) { if b != a { DispatchedAct(s, s', a, m, b); } }
    forall m | m in s'.net.msgs ensures MsgOk(s', m) { assert MsgOk(s, m); }
    forall c ensures QueueOk(s'.net, c) { assert QueueOk(s.net, c); }
  }

  lemma StepDispatch(s: State, a: ActId)
    requires MsgInv(s) && a in s.acts && s.acts[a].pc.Copied?
    ensures var s' := FreeAndDispatch(s, a, s.acts[a].pc.m, s.acts[a].pc.msg); MsgInv(s') && s'.fault == s.fault
  {
    var m, msg := s.acts[a].pc.m, s.acts[a].pc.msg;
    var s' := FreeAndDispatch(s, a, m, msg);
    assert ActOk(s, a) && MsgOk(s, m);
    if m.Heap? {
      StepDispatchHeap(s, s', a, s'.acts[a].pc);
    } else {
      StepHold(s, s', a, Flush(m.act));
    }
  }

  /** Activity a changes its control point, and nobody else notices. */
  lemma OtherAct(s: State, s': State, a: ActId, b: ActId)
    requires a in s.acts && b in s.acts && b in s'.acts && b != a && ActOk(s, b)
    requires s'.net == s.net.(ipi := s'.net.ipi) && s'.nextId == s.nextId && s'.cpus == s.cpus
    requires a in s'.acts && s'.acts == s.acts[a := s.acts[a].(pc := s'.acts[a].pc)]
    ensures ActOk(s', b)
  {
  }

  /** The handler keeps holding the same shootdown message: Copied, Flush, Ack. */
  lemma StepHold(s: State, s': State, a: ActId, pc: Pc)
    requires pc.Flush? || pc.Ack?
    requires MsgInv(s) && a in s.acts && HoldsMsg(s.acts[a].pc, Stack(pc.wait))
    requires s'.net == s.net && s'.nextId == s.nextId && s'.cpus == s.cpus
    requires s'.acts == s.acts[a := s.acts[a].(pc := pc)]
    ensures MsgInv(s')
  {
    assert ActOk(s, a);
    forall b | b in s'.acts ensures ActOk(s', b) { if b != a { OtherAct(s, s', a, b); } }
    forall m | m in s'.net.msgs ensures MsgOk(s', m) { assert MsgOk(s, m); }
    forall c ensures QueueOk(s'.net, c) { assert QueueOk(s.net, c); }
  }

  lemma AckAct(s: State, s': State, a: ActId, b: ActId)
    requires MsgInv(s) && a in s.acts && s.acts[a].pc.Ack? && s' == AckShootdown(s, a, s.acts[a].pc.wait)
    requires b in s'.acts
    ensures ActOk(s', b) && s'.fault == s.fault
  {
    var w := s.acts[a].pc.wait;
    assert ActOk(s, a) && ActOk(s, b) && MsgOk(s, Stack(w)) && ActOk(s, w);
  }

  lemma StepAck(s: State, a: ActId)
    requires MsgInv(s) && a in s.acts && s.acts[a].pc.Ack?
    ensures var s' := AckShootdown(s, a, s.acts[a].pc.wait); MsgInv(s') && s'.fault == s.fault
  {
    var w := s.acts[a].pc.wait;
    var s' := AckShootdown(s, a, w);
    assert ActOk(s, a) && MsgOk(s, Stack(w)) && ActOk(s, w);
    forall b | b in s'.acts ensures ActOk(s', b) { AckAct(s, s', a, b); }
    forall m | m in s'.net.msgs ensures MsgOk(s', m) { assert MsgOk(s, m); }
    forall c ensures QueueOk(s'.net, c) { assert QueueOk(s.net, c); }
  }

  lemma DecideAct(s: State, s': State, a: ActId, b: ActId)
    requires a in s.acts && s.acts[a].pc.Decide? && s.mmu.online && s' == DecideShootdown(s, a)
    requires Stack(a) !in s.net.msgs
    requires b in s.acts && ActOk(s, b)
    ensures b in s'.acts && ActOk(s', b)
  {
  }

  lemma StepDecide(s: State, a: ActId)
    requires MsgInv(s) && a in s.acts && s.acts[a].pc.Decide?
    ensures MsgInv(DecideShootdown(s, a))
  {
    var s' := DecideShootdown(s, a);
    assert ActOk(s, a);
    if s.mmu.online {
      forall m | m in s.net.msgs ensures m != Stack(a) { assert MsgOk(s, m); }
      forall b | b in s'.acts ensures ActOk(s', b) { DecideAct(s, s', a, b); }
      forall m | m in s'.net.msgs ensures MsgOk(s', m) { if m != Stack(a) { assert MsgOk(s, m); } }
      forall c ensures QueueOk(s'.net, c) { assert QueueOk(s.net, c); }
    } else {
      NeutralStep(s, s', a, s.acts[a].(pc := Returned));
    }
  }

  /** A message that is nowhere is in no queue. */
  lemma NotQueued(s: State, m: MsgRef)
    requires MsgInv(s) && m in s.net.loc && s.net.loc[m].Nowhere?
    ensures !s.net.InSomeQueue(m)
  {
    forall c | c in s.net.queues ensures m !in s.net.queues[c] {
      assert QueueOk(s.net, c) && s.net.Queue(c) == s.net.queues[c];
    }
  }

  /** The frame of exec_tlb_shootdown is left: message and counter cease to exist. */
  lemma StepRelease(s: State, s': State, a: ActId)
    requires MsgInv(s) && a in s.acts && s.acts[a].pc.NextTarget? && s.acts[a].pc.target >= s.cpus
    requires s' == PickTarget(s, a, s.acts[a].pc.target)
    ensures MsgInv(s')
  {
    assert ActOk(s, a);
    forall b | b in s'.acts ensures ActOk(s', b) { assert ActOk(s, b); }
    forall m | m in s'.net.msgs ensures MsgOk(s', m) { assert MsgOk(s, m); }
    forall c ensures QueueOk(s'.net, c) { assert QueueOk(s.net, c); }
  }

  lemma PickedAct(s: State, s': State, a: ActId, b: ActId)
    requires a in s.acts && b in s.acts && a in s'.acts && b != a && ActOk(s, b) && s.acts[a].pc.NextTarget?
    requires s'.nextId == s.nextId && s'.cpus == s.cpus
    requires s'.acts == s.acts[a := s.acts[a].(pc := s'.acts[a].pc)]
    requires s'.net == s.net || s'.net == s.net.(waits := s.net.waits[a := 1])
    ensures ActOk(s', b)
  {
  }

  /** The loop goes on to the next target, or prepares the message for this one. */
  lemma PickStep(s: State, s': State, a: ActId)
    requires MsgInv(s) && a in s.acts && s.acts[a].pc.NextTarget? && s.acts[a].pc.target < s.cpus && a in s'.acts
    requires s'.nextId == s.nextId && s'.cpus == s.cpus && s'.acts == s.acts[a := s.acts[a].(pc := s'.acts[a].pc)]
    requires || (s'.net == s.net && s'.acts[a].pc.NextTarget?)
             || (s'.net == s.net.(waits := s.net.waits[a := 1]) && s'.acts[a].pc == SendTlb(s.acts[a].pc.target))
    ensures MsgInv(s')
  {
    assert ActOk(s, a);
    forall b | b in s'.acts ensures ActOk(s', b) { if b != a { PickedAct(s, s', a, b); } }
    forall m | m in s'.net.msgs ensures MsgOk(s', m) { assert MsgOk(s, m); }
    forall c ensures QueueOk(s'.net, c) { assert QueueOk(s.net, c); }
  }

  lemma StepPick(s: State, a: ActId)
    requires MsgInv(s) && a in s.acts && s.acts[a].pc.NextTarget?
    ensures var s' := PickTarget(s, a, s.acts[a].pc.target); MsgInv(s') && s'.fault == s.fault
  {
    var t := s.acts[a].pc.target;
    var s' := PickTarget(s, a, t);
    assert ActOk(s, a);
    if t >= s.cpus {
      StepRelease(s, s', a);
    } else {
      NotQueued(s, Stack(a));
      PickStep(s, s', a);
    }
  }

  /** RaiseTlb to AwaitTlb, or AwaitTlb to the next target once the counter is 0. */
  lemma StepWait(s: State, s': State, a: ActId, pc: Pc)
    requires MsgInv(s) && a in s.acts
    requires s'.net == s.net.(ipi := s'.net.ipi) && s'.nextId == s.nextId && s'.cpus == s.cpus
    requires s'.acts == s.acts[a := s.acts[a].(pc := pc)]
    requires || (s.acts[a].pc.RaiseTlb? && pc == AwaitTlb(s.acts[a].pc.target))
             || (s.acts[a].pc.AwaitTlb? && pc.NextTarget? && a in s.net.waits && s.net.waits[a] == 0)
    ensures MsgInv(s')
  {
    assert ActOk(s, a);
    forall b | b in s'.acts ensures ActOk(s', b) { if b != a { OtherAct(s, s', a, b); } }
    forall m | m in s'.net.msgs ensures MsgOk(s', m) { assert MsgOk(s, m); }
    forall c ensures QueueOk(s'.net, c) { assert QueueOk(s.net, c); }
  }

  /** Message m enters queue i; a moves on and holds no message. */
  predicate Enqueued(s: State, s': State, a: ActId, m: MsgRef, i: Cpu) {
    && a in s.acts && a in s'.acts && s'.cpus == s.cpus && s.nextId <= s'.nextId && i < s.cpus
    && s'.acts == s.acts[a := s.acts[a].(pc := s'.acts[a].pc)]
    && (MsgNeutral(s.acts[a].pc) || s.acts[a].pc.SendTlb?) && (MsgNeutral(s'.acts[a].pc) || s'.acts[a].pc.RaiseTlb?)
    && s'.net.waits == s.net.waits
    && s'.net.loc == s.net.loc[m := InQueue(i)]
    && s'.net.queues == s.net.queues[i := s'.net.Queue(i)]
    && (s'.net.Queue(i) == [m] + s.net.Queue(i) || s'.net.Queue(i) == s.net.Queue(i) + [m])
    && m in s'.net.msgs && s'.net.msgs == s.net.msgs[m := s'.net.msgs[m]]
    && (m in s.net.msgs ==> s.net.msgs[m] == s'.net.msgs[m])
  }

  lemma EnqueuedAct(s: State, s': State, a: ActId, b: ActId, m: MsgRef, i: Cpu)
    requires Enqueued(s, s', a, m, i) && b != a && b in s.acts && ActOk(s, b)
    requires m != Stack(b) && !HoldsMsg(s.acts[b].pc, m)
    ensures ActOk(s', b)
  {
  }

  lemma EnqueuedMsg(s: State, s': State, a: ActId, m': MsgRef, m: MsgRef, i: Cpu)
    requires Enqueued(s, s', a, m, i) && m' in s.net.msgs && MsgOk(s, m') && m' != m
    requires InShootdown(s'.acts[a].pc) == InShootdown(s.acts[a].pc)
    ensures MsgOk(s', m')
  {
  }

  lemma EnqueuedQueue(s: State, s': State, a: ActId, m: MsgRef, i: Cpu, c: Cpu)
    requires Enqueued(s, s', a, m, i) && QueueOk(s.net, c) && m !in s.net.Queue(c)
    ensures QueueOk(s'.net, c)
  {
  }

  lemma PostEnqueues(s: State, s': State, a: ActId, i: Cpu, req: Request, m: MsgRef)
    requires a in s.acts && s.acts[a].pc == Enqueue(i, req) && i < req.end && PcOk(a, s.cpus, s.acts[a].pc)
    requires s'.nextId == s.nextId + 1 && s'.cpus == s.cpus && m == Heap(s.nextId) && m !in s.net.msgs
    requires s'.acts == s.acts[a := s.acts[a].(pc := Enqueue(i + 1, req))]
    requires s'.net == EnqueueMessage(s.net.(msgs := s.net.msgs[m := Msg(req.payload, true)]), m, i)
    ensures Enqueued(s, s', a, m, i) && MsgOk(s', m)
  {
  }

  /** A fresh heap message is appended to queue i. */
  lemma StepPost(s: State, s': State, a: ActId, i: Cpu, req: Request)
    requires MsgInv(s) && a in s.acts && s.acts[a].pc == Enqueue(i, req) && i < req.end
    requires s'.nextId == s.nextId + 1 && s'.cpus == s.cpus
    requires s'.acts == s.acts[a := s.acts[a].(pc := Enqueue(i + 1, req))]
    requires var m := Heap(s.nextId);
             s'.net == EnqueueMessage(s.net.(msgs := s.net.msgs[m := Msg(req.payload, true)]), m, i)
    ensures MsgInv(s')
  {
    var m := Heap(s.nextId);
    forall x | x in s.net.msgs ensures x != m { assert MsgOk(s, x); }
    assert ActOk(s, a);
    PostEnqueues(s, s', a, i, req, m);
    forall b | b in s'.acts ensures ActOk(s', b) { if b != a { EnqueuedAct(s, s', a, b, m, i); } }
    forall x | x in s'.net.msgs ensures MsgOk(s', x) { if x != m { EnqueuedMsg(s, s', a, x, m, i); } }
    forall c ensures QueueOk(s'.net, c) { assert QueueOk(s.net, c); EnqueuedQueue(s, s', a, m, i, c); }
  }

  lemma StepSend(s: State, a: ActId)
    requires MsgInv(s) && a in s.acts && s.acts[a].pc.SendTlb?
    ensures var s' := SendShootdown(s, a, s.acts[a].pc.target); MsgInv(s') && s'.fault == s.fault
  {
    var t := s.acts[a].pc.target;
    var s' := SendShootdown(s, a, t);
    assert ActOk(s, a) && MsgOk(s, Stack(a));
    NotQueued(s, Stack(a));
    forall b | b in s'.acts ensures ActOk(s', b) { if b != a { EnqueuedAct(s, s', a, b, Stack(a), t); } }
    forall m | m in s'.net.msgs ensures MsgOk(s', m) { if m != Stack(a) { EnqueuedMsg(s, s', a, m, Stack(a), t); } }
    forall c ensures QueueOk(s'.net, c) { EnqueuedQueue(s, s', a, Stack(a), t, c); }
  }
}
