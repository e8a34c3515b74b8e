/** What every event of the messaging machine keeps, wherever senders are moved: messages, logs and TLBs. */
module IpmBase {
  import opened Ipm
  import M = IpmMessages
  import D = IpmDelivery
  import T = IpmTlb

  ghost predicate Base(s: State) {
    M.MsgInv(s) && D.LogInv(s) && T.TlbInv(s)
  }

  /** Activity a, which holds no message, moves to such a control point, stays or exits. */
  ghost predicate Neutral(s: State, s': State, a: ActId) {
    && a in s.acts && M.MsgNeutral(s.acts[a].pc) && s'.net == s.net.(ipi := s'.net.ipi)
    && s'.mmu == s.mmu && s'.cpus == s.cpus && s'.nextId == s.nextId
    && (if a in s'.acts then
          && s'.acts == s.acts[a := s.acts[a].(pc := s'.acts[a].pc)]
          && M.MsgNeutral(s'.acts[a].pc) && T.Quiet(s'.acts[a].pc) && M.PcOk(a, s.cpus, s'.acts[a].pc)
        else s'.acts == s.acts - {a})
  }

  lemma BaseNeutral(s: State, s': State, a: ActId)
    requires Base(s) && Neutral(s, s', a)
    ensures Base(s')
  {
    if a in s'.acts {
      assert M.ActOk(s, a);
      M.NeutralStep(s, s', a, s'.acts[a]);
    } else {
      M.NeutralExit(s, s', a);
    }
    D.LogFrame(s, s');
    T.TlbStill(s, s', a);
  }

  // ---------- process_messages ----------

  lemma BaseDequeue(s: State, s': State, a: ActId)
    requires Base(s) && a in s.acts && s.acts[a].pc == Loop && s' == Dequeue(s, a)
    ensures Base(s') && s'.fault == s.fault
  {
    M.StepDequeue(s, a);
    if s.net.Queue(s.acts[a].cpu) == [] { D.LogFrame(s, s'); } else { D.LogDequeue(s, s', s.acts[a].cpu); }
    assert M.QueueOk(s.net, s.acts[a].cpu);
    T.TlbStill(s, s', a);
  }

  lemma BaseCopy(s: State, s': State, a: ActId)
    requires Base(s) && a in s.acts && s.acts[a].pc.Got? && s' == CopyMessage(s, a, s.acts[a].pc.m)
    ensures Base(s') && s'.fault == s.fault
  {
    M.StepCopy(s, a);
    assert M.ActOk(s, a);
    D.LogFrame(s, s');
    T.TlbStill(s, s', a);
  }

  lemma DispatchShape(s: State, s': State, a: ActId, m: MsgRef, msg: Msg)
    requires a in s.acts && s.acts[a].pc == Copied(m, msg) && m in s.net.msgs && s' == FreeAndDispatch(s, a, m, msg)
    ensures a in s'.acts && s'.acts == s.acts[a := s.acts[a].(pc := s'.acts[a].pc)]
    ensures IsHandler(s'.acts[a].pc) && T.Quiet(s'.acts[a].pc) && s'.mmu == s.mmu && s'.cpus == s.cpus
  {
  }

  lemma DispatchNet(s: State, s': State, a: ActId, m: MsgRef, msg: Msg)
    requires a in s.acts && s.acts[a].pc == Copied(m, msg) && m in s.net.msgs && s' == FreeAndDispatch(s, a, m, msg)
    ensures s'.nextId == s.nextId && s'.net == s.net.(msgs := s'.net.msgs, loc := s'.net.loc)
    ensures forall x | x in s'.net.loc :: x in s.net.loc && s'.net.loc[x] == s.net.loc[x]
  {
    assert s'.net ==
      if s.net.msgs[m].receiverDealloc then s.net.(msgs := s.net.msgs - {m}, loc := s.net.loc - {m}) else s.net;
  }

  lemma BaseDispatch(s: State, s': State, a: ActId)
    requires Base(s) && a in s.acts && s.acts[a].pc.Copied?
    requires s' == FreeAndDispatch(s, a, s.acts[a].pc.m, s.acts[a].pc.msg)
    ensures Base(s') && s'.fault == s.fault
  {
    var m, msg := s.acts[a].pc.m, s.acts[a].pc.msg;
    M.StepDispatch(s, a);
    assert M.ActOk(s, a);
    DispatchShape(s, s', a, m, msg);
    DispatchNet(s, s', a, m, msg);
    D.LogFrame(s, s');
    T.TlbStill(s, s', a);
  }

  lemma BaseFlush(s: State, s': State, a: ActId, w: ActId)
    requires Base(s) && a in s.acts && s.acts[a].pc == Flush(w) && s' == FlushTlb(s, a, Ack(w))
    ensures Base(s')
  {
    M.StepHold(s, s', a, Ack(w));
    D.LogFrame(s, s');
    FlushSteps(s, s', a, w);
    T.TlbFlush(s, s', a, Ack(w));
  }

  /** Reaching Ack makes only the flushing cpu count as flushed. */
  lemma FlushSteps(s: State, s': State, a: ActId, w: ActId)
    requires M.MsgInv(s) && a in s.acts && s.acts[a].pc == Flush(w)
    requires s'.net == s.net && s'.cpus == s.cpus && s'.acts == s.acts[a := s.acts[a].(pc := Ack(w))]
    ensures forall b: ActId, c: Cpu | b in s.acts && T.Flushed(s', b, c) && c != s.acts[a].cpu :: T.Flushed(s, b, c)
  {
    forall b: ActId, c: Cpu | b in s.acts && T.Flushed(s', b, c) && c != s.acts[a].cpu ensures T.Flushed(s, b, c) {
      assert M.ActOk(s, a) && M.ActOk(s, b);
    }
  }

  lemma BaseAck(s: State, s': State, a: ActId, w: ActId)
    requires Base(s) && a in s.acts && s.acts[a].pc == Ack(w) && s' == AckShootdown(s, a, w)
    ensures Base(s') && s'.fault == s.fault
  {
    M.StepAck(s, a);
    assert M.ActOk(s, a) && M.MsgOk(s, Stack(w)) && M.ActOk(s, w);
    D.LogFrame(s, s');
    AckTlb(s, s', a, w);
  }

  lemma AckTlb(s: State, s': State, a: ActId, w: ActId)
    requires T.TlbInv(s) && a in s.acts && s.acts[a].pc == Ack(w) && w in s.net.waits && s' == AckShootdown(s, a, w)
    requires Stack(w) in s.net.loc && s.net.loc[Stack(w)] == HeldBy(a)
    ensures T.TlbInv(s')
  {
    T.TlbMove(s, s', a);
  }

  /** A step of handle_remote_call touches the call and its own control point only. */
  lemma CallShape(s: State, s': State, a: ActId, k: CallId)
    requires a in s.acts && s' == TickCall(s, a, k) && IsHandler(s.acts[a].pc) && M.MsgNeutral(s.acts[a].pc)
    ensures s'.net == s.net && s'.mmu == s.mmu && s'.cpus == s.cpus && s'.nextId == s.nextId && s'.strayed == s.strayed
    ensures a in s'.acts && s'.acts == s.acts[a := s.acts[a].(pc := s'.acts[a].pc)]
    ensures IsHandler(s'.acts[a].pc) && M.MsgNeutral(s'.acts[a].pc)
  {
    assert s.acts[a := s.acts[a]] == s.acts;
  }

  /** Faulty or not. */
  lemma BaseHandle(s: State, s': State, a: ActId, k: CallId)
    requires Base(s) && a in s.acts && s' == TickCall(s, a, k) && IsHandler(s.acts[a].pc)
    requires M.MsgNeutral(s.acts[a].pc)
    ensures Base(s')
  {
    CallShape(s, s', a, k);
    BaseNeutral(s, s', a);
  }

  // ---------- paging_unmap_in and exec_tlb_shootdown ----------

  lemma BaseRemove(s: State, s': State, a: ActId, todo: seq<Page>)
    requires Base(s) && a in s.acts && s.acts[a].pc == Remove(todo) && s' == RemovePage(s, a, todo)
    ensures Base(s')
  {
    if s' != s {
      assert M.ActOk(s, a);
      M.NeutralStep(s, s', a, s'.acts[a]);
      D.LogFrame(s, s');
    }
    T.TlbRemove(s, s', a, todo);
  }

  lemma BaseLocalFlush(s: State, s': State, a: ActId)
    requires Base(s) && a in s.acts && s.acts[a].pc == LocalFlush && s' == FlushTlb(s, a, Decide)
    ensures Base(s')
  {
    assert M.ActOk(s, a);
    M.NeutralStep(s, s', a, s'.acts[a]);
    D.LogFrame(s, s');
    LocalFlushSteps(s, s', a);
    T.TlbFlush(s, s', a, Decide);
  }

  lemma LocalFlushSteps(s: State, s': State, a: ActId)
    requires a in s.acts && s.acts[a].pc == LocalFlush
    requires s'.net == s.net && s'.cpus == s.cpus && s'.acts == s.acts[a := s.acts[a].(pc := Decide)]
    ensures forall b: ActId, c: Cpu | b in s.acts && T.Flushed(s', b, c) && c != s.acts[a].cpu :: T.Flushed(s, b, c)
  {
  }

  /** Entering and walking the shootdown loop claims no flush that has not happened. */
  lemma DecideTlb(s: State, s': State, a: ActId)
    requires T.TlbInv(s) && a in s.acts && s.acts[a].pc == Decide && s.mmu.online && s' == DecideShootdown(s, a)
    ensures T.TlbInv(s')
  {
    T.TlbMove(s, s', a);
  }

  lemma PickTlb(s: State, s': State, a: ActId, t: Cpu)
    requires T.TlbInv(s) && a in s.acts && s.acts[a].pc == NextTarget(t) && s' == PickTarget(s, a, t)
    requires s'.fault == s.fault == NoFault
    ensures T.TlbInv(s')
  {
    T.TlbMove(s, s', a);
  }

  lemma BaseDecide(s: State, s': State, a: ActId)
    requires Base(s) && a in s.acts && s.acts[a].pc == Decide && s' == DecideShootdown(s, a) && s.fault == NoFault
    ensures Base(s')
  {
    M.StepDecide(s, a);
    D.LogFrame(s, s');
    if s.mmu.online {
      DecideTlb(s, s', a);
    } else {
      assert M.ActOk(s, a);
      T.TlbOffline(s, s', a);
    }
  }

  lemma BasePick(s: State, s': State, a: ActId, t: Cpu)
    requires Base(s) && a in s.acts && s.acts[a].pc == NextTarget(t) && s' == PickTarget(s, a, t) && s.fault == NoFault
    ensures Base(s') && s'.fault == NoFault
  {
    M.StepPick(s, a);
    PickLog(s, s', a, t);
    PickTlb(s, s', a, t);
  }

  lemma PickLog(s: State, s': State, a: ActId, t: Cpu)
    requires D.LogInv(s) && a in s.acts && s' == PickTarget(s, a, t)
    ensures D.LogInv(s')
  {
    D.LogFrame(s, s');
  }

  lemma SendShape(s: State, s': State, a: ActId, t: Cpu)
    requires M.MsgInv(s) && a in s.acts && s.acts[a].pc == SendTlb(t)
    requires s' == SendShootdown(s, a, t) && s'.fault == s.fault == NoFault
    ensures s'.acts == s.acts[a := s.acts[a].(pc := RaiseTlb(t))] && s'.calls == s.calls
    ensures s'.cpus == s.cpus && s'.nextId == s.nextId && s'.mmu == s.mmu
    ensures Stack(a) in s.net.msgs && s.net.msgs[Stack(a)].payload.TlbShootdown? && s'.net.msgs == s.net.msgs
    ensures s'.net.ipi == s.net.ipi && s'.net.queues == s.net.queues[t := [Stack(a)] + s.net.Queue(t)]
    ensures s'.net.sent == s.net.sent && s'.net.received == s.net.received
    ensures s'.net.loc == s.net.loc[Stack(a) := InQueue(t)]
  {
    assert M.ActOk(s, a) && M.MsgOk(s, Stack(a));
  }

  lemma BaseSend(s: State, s': State, a: ActId, t: Cpu)
    requires Base(s) && a in s.acts && s.acts[a].pc == SendTlb(t) && s' == SendShootdown(s, a, t) && s.fault == NoFault
    ensures Base(s') && s'.fault == NoFault
  {
    M.StepSend(s, a);
    SendShape(s, s', a, t);
    D.LogEnqueueTlb(s, s', t, Stack(a));
    assert M.ActOk(s, a);
    T.TlbMove(s, s', a);
  }

  lemma BaseRaiseTlb(s: State, s': State, a: ActId, t: Cpu)
    requires Base(s) && a in s.acts && s.acts[a].pc == RaiseTlb(t)
    requires s' == s.(net := s.net.(ipi := s.net.ipi + {t})).Goto(a, AwaitTlb(t))
    ensures Base(s')
  {
    M.StepWait(s, s', a, AwaitTlb(t));
    D.LogFrame(s, s');
    T.TlbMove(s, s', a);
  }

  lemma BaseAwaitTlb(s: State, s': State, a: ActId, t: Cpu)
    requires Base(s) && a in s.acts && s.acts[a].pc == AwaitTlb(t) && s' == AwaitShootdown(s, a, t)
    ensures Base(s') && s'.fault == s.fault
  {
    assert M.ActOk(s, a);
    if s.net.waits[a] == 0 {
      M.StepWait(s, s', a, NextTarget(t + 1));
      D.LogFrame(s, s');
      T.TlbMove(s, s', a);
    }
  }

  lemma BaseReturn(s: State, s': State, a: ActId)
    requires Base(s) && a in s.acts && s.acts[a].pc == Returned && s' == s.Exit(a)
    ensures Base(s')
  {
    M.NeutralExit(s, s', a);
    D.LogFrame(s, s');
    T.TlbMove(s, s', a);
  }

  // ---------- do_send_ipm and the waiting sender ----------

  lemma PostShape(s: State, s': State, a: ActId, i: Cpu, req: Request)
    requires a in s.acts && i < req.end && !(req.broadcast && i == s.acts[a].cpu) && s' == SendNext(s, a, i, req)
    requires !req.payload.TlbShootdown?
    ensures s'.acts == s.acts[a := s.acts[a].(pc := Enqueue(i + 1, req))]
    ensures s'.cpus == s.cpus && s'.nextId == s.nextId + 1 && s'.mmu == s.mmu && s'.fault == s.fault
    ensures !req.payload.RemoteCall? ==> s'.calls == s.calls
    ensures var m := Heap(s.nextId);
      && s'.net == EnqueueMessage(s.net.(msgs := s.net.msgs[m := Msg(req.payload, true)]), m, i)
      && s'.net.msgs == s.net.msgs[m := Msg(req.payload, true)] && s'.net.loc == s.net.loc[m := InQueue(i)]
      && s'.net.queues == s.net.queues[i := s.net.Queue(i) + [m]] && s'.net.ipi == s.net.ipi
      && s'.net.sent == s.net.sent[i := s.net.Sent(i) + [m]] && s'.net.received == s.net.received
  {
  }

  lemma BasePost(s: State, s': State, a: ActId, i: Cpu, req: Request)
    requires Base(s) && a in s.acts && s.acts[a].pc == Enqueue(i, req)
    requires i < req.end && !(req.broadcast && i == s.acts[a].cpu) && s' == SendNext(s, a, i, req)
    ensures Base(s')
  {
    assert M.ActOk(s, a);
    PostShape(s, s', a, i, req);
    M.StepPost(s, s', a, i, req);
    D.LogEnqueue(s, s', i, Heap(s.nextId));
    T.TlbStill(s, s', a);
  }

  lemma SkipNeutral(s: State, s': State, a: ActId, i: Cpu, req: Request)
    requires a in s.acts && s.acts[a].pc == Enqueue(i, req) && M.PcOk(a, s.cpus, s.acts[a].pc)
    requires s' == SendNext(s, a, i, req)
    requires i >= req.end || (req.broadcast && i == s.acts[a].cpu)
    ensures Neutral(s, s', a)
  {
  }

  lemma RaiseNeutral(s: State, s': State, a: ActId, req: Request)
    requires a in s.acts && s.acts[a].pc == Raise(req) && M.PcOk(a, s.cpus, s.acts[a].pc) && s' == RaiseIpi(s, a, req)
    ensures Neutral(s, s', a)
  {
  }

  lemma WaiterNeutral(s: State, s': State, a: ActId)
    requires a in s.acts && (s.acts[a].pc.Await? || s.acts[a].pc.CheckRef? || s.acts[a].pc.FreeSent?)
    requires M.PcOk(a, s.cpus, s.acts[a].pc) && s' == TickWaiter(s, a, a)
    ensures Neutral(s, s', a)
  {
    assert s.acts[a := s.acts[a]] == s.acts;
  }

  lemma SenderNeutral(s: State, s': State, a: ActId)
    requires a in s.acts && IsSender(s.acts[a].pc) && M.PcOk(a, s.cpus, s.acts[a].pc) && s' == TickAct(s, a)
    requires var pc := s.acts[a].pc;
      pc.Enqueue? ==> pc.next >= pc.req.end || (pc.req.broadcast && pc.next == s.acts[a].cpu)
    ensures Neutral(s, s', a)
  {
    match s.acts[a].pc
    case Enqueue(i, req) => SkipNeutral(s, s', a, i, req);
    case Raise(req) => RaiseNeutral(s, s', a, req);
    case _ => WaiterNeutral(s, s', a);
  }

  lemma BaseSender(s: State, s': State, a: ActId)
    requires Base(s) && a in s.acts && IsSender(s.acts[a].pc) && s' == TickAct(s, a)
    ensures Base(s')
  {
    var pc := s.acts[a].pc;
    assert M.ActOk(s, a);
    if pc.Enqueue? && pc.next < pc.req.end && !(pc.req.broadcast && pc.next == s.acts[a].cpu) {
      BasePost(s, s', a, pc.next, pc.req);
    } else {
      SenderNeutral(s, s', a);
      BaseNeutral(s, s', a);
    }
  }

  // ---------- every event ----------

  predicate IsPager(pc: Pc) {
    M.InShootdown(pc) || pc.Remove? || pc.LocalFlush? || pc.Decide? || pc.Returned?
  }

  lemma BaseHandler(s: State, s': State, a: ActId)
    requires Base(s) && a in s.acts && IsHandler(s.acts[a].pc) && s' == TickAct(s, a)
    ensures Base(s')
  {
    var pc := s.acts[a].pc;
    if pc.Accepted? { BaseNeutral(s, s', a); }
    else if pc.Loop? { BaseDequeue(s, s', a); }
    else if pc.Got? { BaseCopy(s, s', a); }
    else if pc.Copied? { BaseDispatch(s, s', a); }
    else if pc.Flush? { BaseFlush(s, s', a, pc.wait); }
    else if pc.Ack? { BaseAck(s, s', a, pc.wait); }
    else if pc.RunAsync? { BaseNeutral(s, s', a); }
    else { BaseHandle(s, s', a, pc.call); }
  }

  lemma BasePager(s: State, s': State, a: ActId)
    requires Base(s) && a in s.acts && IsPager(s.acts[a].pc) && s' == TickAct(s, a) && s.fault == NoFault
    ensures Base(s')
  {
    var pc := s.acts[a].pc;
    if pc.Remove? { BaseRemove(s, s', a, pc.todo); }
    else if pc.LocalFlush? { BaseLocalFlush(s, s', a); }
    else if pc.Decide? { BaseDecide(s, s', a); }
    else if pc.NextTarget? { BasePick(s, s', a, pc.target); }
    else if pc.SendTlb? { BaseSend(s, s', a, pc.target); }
    else if pc.RaiseTlb? { BaseRaiseTlb(s, s', a, pc.target); }
    else if pc.AwaitTlb? { BaseAwaitTlb(s, s', a, pc.target); }
    else { BaseReturn(s, s', a); }
  }

  /** A new activity. */
  lemma BaseSpawn(s: State, s': State, act: Act)
    requires Base(s) && MayRun(s, act.cpu) && act.gone == map[] && M.PcOk(s.nextId, s.cpus, act.pc)
    requires M.MsgNeutral(act.pc) && s'.net == s.net.(ipi := s'.net.ipi) && s'.mmu == s.mmu
    requires s'.cpus == s.cpus && s'.nextId == s.nextId + 1 && s'.acts == s.acts[s.nextId := act]
    ensures Base(s')
  {
    forall b | b in s.acts ensures b != s.nextId { assert M.ActOk(s, b); }
    M.SpawnStep(s, s', act);
    D.LogFrame(s, s');
    T.TlbFrame(s, s');
  }

  lemma BaseSpawnEvent(s: State, s': State, e: Event)
    requires Base(s) && Enabled(s, e) && (e.Deliver? || e.SendTest? || e.Unmap? || e.CallOne? || e.CallAll?)
    requires s' == Apply(s, e)
    ensures Base(s')
  {
    BaseSpawn(s, s', s'.acts[s.nextId]);
  }

  lemma BaseMigrate(s: State, s': State, a: ActId, c: Cpu)
    requires Base(s) && Enabled(s, Migrate(a, c)) && s' == MoveTo(s, a, c)
    ensures Base(s')
  {
    M.MoveStep(s, s', a);
    D.LogFrame(s, s');
    T.TlbArrive(s, s', a, c);
  }

  /** Events of the MMU. */
  lemma BaseMmu(s: State, s': State)
    requires Base(s) && T.TlbInv(s') && s'.net == s.net
    requires s'.cpus == s.cpus && s'.nextId == s.nextId && s'.acts.Keys == s.acts.Keys
    requires forall a | a in s.acts :: s'.acts[a].(gone := s.acts[a].gone) == s.acts[a]
    ensures Base(s')
  {
    M.SameMessages(s, s');
    D.LogFrame(s, s');
  }

  lemma BaseBringUp(s: State, s': State)
    requires Base(s) && s' == s.(mmu := s.mmu.(online := true))
    ensures Base(s')
  {
    forall a | a in s'.acts ensures T.Clean(s', a) {
      assert T.Clean(s, a);
      forall t, c | Gone(s'.acts[a].gone, t) && T.Flushed(s', a, c) ensures t !in s'.mmu.Tlb(c) {
        assert T.Flushed(s, a, c);
      }
    }
    BaseMmu(s, s');
  }

  lemma BaseMmuEvent(s: State, s': State, e: Event)
    requires Base(s) && Enabled(s, e) && (e.MapPage? || e.Load? || e.Evict? || e.BringUp?) && s' == Apply(s, e)
    ensures Base(s')
  {
    match e
    case MapPage(p, f) => T.TlbMap(s, s', p, f); BaseMmu(s, s');
    case Load(c, p) => T.TlbCache(s, s', c, s.mmu.Tlb(c) + {Translation(p, s.mmu.pt[p])}); BaseMmu(s, s');
    case Evict(c, t) => T.TlbCache(s, s', c, s.mmu.Tlb(c) - {t}); BaseMmu(s, s');
    case BringUp => BaseBringUp(s, s');
  }

  /** Every event keeps messages, logs and TLBs sound, even one that faults. */
  lemma BaseEvent(s: State, s': State, e: Event)
    requires Base(s) && Enabled(s, e) && s' == Apply(s, e)
    ensures Base(s')
  {
    match e
    case Tick(a) =>
      if IsHandler(s.acts[a].pc) { BaseHandler(s, s', a); }
      else if IsPager(s.acts[a].pc) { BasePager(s, s', a); }
      else { BaseSender(s, s', a); }
    case Migrate(a, c) => BaseMigrate(s, s', a, c);
    case MapPage(_, _) => BaseMmuEvent(s, s', e);
    case Load(_, _) => BaseMmuEvent(s, s', e);
    case Evict(_, _) => BaseMmuEvent(s, s', e);
    case BringUp => BaseMmuEvent(s, s', e);
    case _ => BaseSpawnEvent(s, s', e);
  }
}
