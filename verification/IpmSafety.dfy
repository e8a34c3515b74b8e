/**
 Calls: every event keeps the reference counts of those calls exact whose sender
 was not moved in the middle of its broadcast, and as long as there is no other
 call no event faults.
 */
module IpmSafety {
  import opened Ipm
  import opened IpmBase
  import M = IpmMessages
  import C = IpmCalls

  ghost predicate Inv(s: State) {
    Base(s) && Side(s)
  }

  ghost predicate Side(s: State) {
    C.CallInv(s) && (s.strayed == {} ==> s.fault == NoFault)
  }

  /** Every message is somewhere, whoever holds one is about it, and the next id is fresh. */
  ghost predicate Settled(s: State) {
    && (forall m | m in s.net.msgs :: m in s.net.loc && HolderOk(s, m))
    && Heap(s.nextId) !in s.net.msgs && (forall b | b in s.acts :: b < s.nextId)
  }

  predicate HolderOk(s: State, m: MsgRef)
    requires m in s.net.loc
  {
    s.net.loc[m].HeldBy? ==> s.net.loc[m].h in s.acts && !M.MsgNeutral(s.acts[s.net.loc[m].h].pc)
  }

  lemma MessagesSettled(s: State)
    requires M.MsgInv(s)
    ensures Settled(s)
  {
    forall m | m in s.net.msgs ensures m in s.net.loc && HolderOk(s, m) && m != Heap(s.nextId) { assert M.MsgOk(s, m); }
    forall b | b in s.acts ensures b < s.nextId { assert M.ActOk(s, b); }
  }

  // ---------- steps that concern no call ----------

  /** Messages agree except for m, which carries no call. */
  ghost predicate SameBut(s: State, s': State, m: MsgRef) {
    && (forall x | x != m :: x in s.net.msgs <==> x in s'.net.msgs)
    && (forall x | x != m && x in s.net.msgs :: s.net.msgs[x] == s'.net.msgs[x])
    && (forall x | x != m && x in s.net.msgs :: x in s.net.loc && x in s'.net.loc && s.net.loc[x] == s'.net.loc[x])
    && (m in s.net.msgs ==> !s.net.msgs[m].payload.RemoteCall?)
    && (m in s'.net.msgs ==> !s'.net.msgs[m].payload.RemoteCall?)
  }

  predicate SameAct(s: State, s': State, b: ActId) {
    (b in s.acts <==> b in s'.acts) && (b in s.acts ==> s'.acts[b] == s.acts[b])
  }

  /** Activity a appears, moves or exits on its cpu and takes part in no call. */
  ghost predicate Quietly(s: State, s': State, a: ActId) {
    && s'.calls == s.calls && s'.strayed == s.strayed && s'.cpus == s.cpus && s.nextId <= s'.nextId
    && (forall b | b != a :: SameAct(s, s', b))
    && (a in s.acts ==> C.CallNeutral(s.acts[a].pc) && (a in s'.acts || M.MsgNeutral(s.acts[a].pc)))
    && (a in s'.acts ==>
          && C.CallNeutral(s'.acts[a].pc) && s'.acts[a].cpu < s.cpus && M.PcOk(a, s.cpus, s'.acts[a].pc)
          && (if a in s.acts then s'.acts[a].cpu == s.acts[a].cpu else a !in s.calls))
  }

  lemma QuietMessage(s: State, s': State, a: ActId, m: MsgRef, x: MsgRef, c: Cpu)
    requires Quietly(s, s', a) && SameBut(s, s', m) && x in s.net.msgs && x != m && HolderOk(s, x)
    ensures C.MsgAt(s, x, c) <==> C.MsgAt(s', x, c)
  {
    if s.net.loc[x].HeldBy? { assert s.net.loc[x].h != a ==> SameAct(s, s', s.net.loc[x].h); }
  }

  lemma QuietFramed(s: State, s': State, a: ActId, m: MsgRef)
    requires Settled(s) && Quietly(s, s', a) && SameBut(s, s', m)
    ensures C.Framed(s, s')
  {
    forall x, k, c | C.CallMsg(s, x, k) ensures C.MsgAt(s, x, c) <==> C.MsgAt(s', x, c) {
      QuietMessage(s, s', a, m, x, c);
    }
    forall b | b in s.acts && !C.CallNeutral(s.acts[b].pc) ensures b in s'.acts && s'.acts[b] == s.acts[b] {
      assert SameAct(s, s', b);
    }
    forall b | b in s'.acts && !C.CallNeutral(s'.acts[b].pc) ensures b in s.acts && s'.acts[b] == s.acts[b] {
      assert SameAct(s, s', b);
    }
    forall k | k in s.calls && k in s'.acts ensures k in s.acts { if k != a { assert SameAct(s, s', k); } }
  }

  lemma QuietAct(s: State, s': State, a: ActId, b: ActId)
    requires Quietly(s, s', a) && b in s'.acts && C.CallNeutral(s'.acts[b].pc) && (b in s.acts ==> C.ActOk(s, b))
    ensures C.ActOk(s', b)
  {
    if b != a { assert SameAct(s, s', b); }
  }

  lemma CallQuiet(s: State, s': State, a: ActId, m: MsgRef)
    requires Settled(s) && C.CallInv(s) && Quietly(s, s', a) && SameBut(s, s', m)
    ensures C.CallInv(s')
  {
    QuietFramed(s, s', a, m);
    forall b | b in s'.acts && C.CallNeutral(s'.acts[b].pc) ensures C.ActOk(s', b) { QuietAct(s, s', a, b); }
    C.FramedStep(s, s');
  }

  /** No message changes hands either. */
  lemma CallIdle(s: State, s': State, a: ActId)
    requires Settled(s) && C.CallInv(s) && Quietly(s, s', a)
    requires s'.net.msgs == s.net.msgs && s'.net.loc == s.net.loc
    ensures C.CallInv(s')
  {
    CallQuiet(s, s', a, Heap(s.nextId));
  }

  // ---------- process_messages ----------

  predicate IdleHandler(pc: Pc) { pc.Accepted? || pc.Got? || pc.Flush? }

  lemma IdleHandlerShape(s: State, s': State, a: ActId)
    requires a in s.acts && M.ActOk(s, a) && IdleHandler(s.acts[a].pc) && s' == TickAct(s, a)
    ensures Quietly(s, s', a) && s'.net.msgs == s.net.msgs && s'.net.loc == s.net.loc && s'.fault == s.fault
  {
  }

  /** The message moves from the queue of a cpu into the hands of a handler on that cpu. */
  lemma DequeueFramed(s: State, s': State, a: ActId)
    requires a in s.acts && M.QueueOk(s.net, s.acts[a].cpu) && (forall m | m in s.net.msgs :: m in s.net.loc)
    requires s.acts[a].pc == Loop && s.net.Queue(s.acts[a].cpu) != [] && s' == Dequeue(s, a)
    ensures C.Framed(s, s')
  {
    var m := s.net.Queue(s.acts[a].cpu)[0];
    forall x, k, d | C.CallMsg(s, x, k) ensures C.MsgAt(s, x, d) <==> C.MsgAt(s', x, d) {
      assert x != m ==> s'.net.loc[x] == s.net.loc[x];
    }
  }

  lemma TakeCalls(s: State, s': State, a: ActId)
    requires C.CallInv(s) && a in s.acts && s.acts[a].pc == Loop && s.net.Queue(s.acts[a].cpu) != []
    requires C.Framed(s, s') && a in s'.acts && s'.acts == s.acts[a := s.acts[a].(pc := s'.acts[a].pc)]
    requires s'.acts[a].pc.Got?
    ensures C.CallInv(s')
  {
    C.FramedStep(s, s') by {
      forall b | b in s'.acts && C.CallNeutral(s'.acts[b].pc) ensures C.ActOk(s', b) { assert C.ActOk(s, b); }
    }
  }

  lemma DequeueCalls(s: State, s': State, a: ActId)
    requires Settled(s) && C.CallInv(s) && a in s.acts && s.acts[a].pc == Loop && s' == Dequeue(s, a)
    requires M.QueueOk(s.net, s.acts[a].cpu)
    ensures C.CallInv(s')
  {
    if s.net.Queue(s.acts[a].cpu) == [] {
      CallIdle(s, s', a);
    } else {
      DequeueFramed(s, s', a);
      TakeCalls(s, s', a);
    }
  }

  lemma NotASender(s: State, a: ActId)
    requires C.CallInv(s) && a in s.acts && !C.Sends(s.acts[a].pc, a)
    ensures a !in s.calls
  {
    forall k | k in s.calls ensures k != a { assert C.CallOk(s, k); }
  }

  lemma DispatchCall(s: State, s': State, a: ActId, m: MsgRef, k: CallId)
    requires C.CallInv(s) && a in s.acts && s.acts[a].pc.Copied? && C.CallMsg(s, m, k)
    requires (forall x | x in s.net.msgs :: x in s.net.loc) && s.net.loc[m] == HeldBy(a)
    requires s' == s.(net := s.net.(msgs := s.net.msgs - {m}, loc := s.net.loc - {m}))
                    .SetPhase(k, s.acts[a].cpu, Held(a)).Goto(a, Check(k))
    ensures C.CallInv(s')
  {
    NotASender(s, a);
    assert C.MsgOk(s, m) && C.ActOk(s, a);
    if k in s.strayed {
      TakeAstray(s, s', a, m, k);
      C.AstrayStep(s, s', a, k);
    } else {
      C.StepTake(s, s', a, k, m);
      C.HandOverStep(s, s', a, k, s.acts[a].cpu, m);
    }
  }

  lemma TakeAstray(s: State, s': State, a: ActId, m: MsgRef, k: CallId)
    requires a in s.acts && s.acts[a].pc.Copied? && C.CallMsg(s, m, k) && k in s.strayed && k in s.calls
    requires a !in s.calls && C.ActOk(s, a)
    requires s' == s.(net := s.net.(msgs := s.net.msgs - {m}, loc := s.net.loc - {m}))
                    .SetPhase(k, s.acts[a].cpu, Held(a)).Goto(a, Check(k))
    ensures C.Astray(s, s', a, k) && a in s'.acts && C.ActOk(s', a)
  {
  }

  /** What the step does when the message carries no call. */
  lemma DispatchFacts(s: State, s': State, a: ActId, m: MsgRef, msg: Msg)
    requires a in s.acts && s.acts[a].pc == Copied(m, msg) && M.ActOk(s, a) && !msg.payload.RemoteCall?
    requires s' == FreeAndDispatch(s, a, m, msg)
    ensures a in s'.acts && s'.acts == s.acts[a := s.acts[a].(pc := s'.acts[a].pc)]
    ensures s'.acts[a].pc.Loop? || s'.acts[a].pc.Flush?
    ensures s'.calls == s.calls && s'.strayed == s.strayed && s'.cpus == s.cpus && s'.nextId == s.nextId
    ensures (s'.net.msgs == s.net.msgs && s'.net.loc == s.net.loc)
            || (s'.net.msgs == s.net.msgs - {m} && s'.net.loc == s.net.loc - {m})
  {
  }

  lemma DispatchQuiet(s: State, s': State, a: ActId, m: MsgRef)
    requires a in s.acts && s.acts[a].pc.Copied? && s.acts[a].cpu < s.cpus && a in s'.acts
    requires s'.acts == s.acts[a := s.acts[a].(pc := s'.acts[a].pc)]
    requires s'.acts[a].pc.Loop? || s'.acts[a].pc.Flush?
    requires s'.calls == s.calls && s'.strayed == s.strayed && s'.cpus == s.cpus && s'.nextId == s.nextId
    requires (s'.net.msgs == s.net.msgs && s'.net.loc == s.net.loc)
             || (s'.net.msgs == s.net.msgs - {m} && s'.net.loc == s.net.loc - {m})
    requires m in s.net.msgs && !s.net.msgs[m].payload.RemoteCall? && (forall x | x in s.net.msgs :: x in s.net.loc)
    ensures SameBut(s, s', m) && Quietly(s, s', a)
  {
  }

  lemma DispatchCalls(s: State, s': State, a: ActId, m: MsgRef, msg: Msg)
    requires Settled(s) && C.CallInv(s) && a in s.acts && s.acts[a].pc == Copied(m, msg)
    requires M.ActOk(s, a) && (msg.payload.RemoteCall? ==> msg.receiverDealloc)
    requires s' == FreeAndDispatch(s, a, m, msg)
    ensures C.CallInv(s')
  {
    if msg.payload.RemoteCall? {
      DispatchCall(s, s', a, m, msg.payload.call);
    } else {
      DispatchFacts(s, s', a, m, msg);
      DispatchQuiet(s, s', a, m);
      CallQuiet(s, s', a, m);
    }
  }

  lemma AckCalls(s: State, s': State, a: ActId, w: ActId)
    requires Settled(s) && C.CallInv(s) && a in s.acts && s.acts[a].pc == Ack(w) && s' == AckShootdown(s, a, w)
    requires M.ActOk(s, a) && !s.net.msgs[Stack(w)].payload.RemoteCall? && w in s.net.waits
    ensures C.CallInv(s')
  {
    CallQuiet(s, s', a, Stack(w));
  }

  // ---------- handle_remote_call ----------

  predicate InCall(pc: Pc, k: CallId) {
    (C.Executes(pc) && pc.call == k) || pc == FreeCall(k) || pc == Complete(k)
  }

  lemma HandleCalls(s: State, s': State, a: ActId, k: CallId)
    requires C.CallInv(s) && a in s.acts && s' == TickCall(s, a, k) && InCall(s.acts[a].pc, k)
    ensures C.CallInv(s') && (k !in s.strayed ==> s'.fault == s.fault)
  {
    if k !in s.strayed {
      C.StepHandle(s, a, k);
    } else if !s.Live(k) {
      FailKeepsCalls(s, s');
    } else {
      NotASender(s, a);
      assert C.ActOk(s, a);
      CallShape(s, s', a, k);
      CallTouches(s, s', a, k);
      HandleAstray(s, s', a, k);
      C.AstrayStep(s, s', a, k);
    }
  }

  lemma FailKeepsCalls(s: State, s': State)
    requires C.CallInv(s) && s' == s.(fault := s'.fault)
    ensures C.CallInv(s')
  {
    MmuCalls(s, s');
  }

  lemma CallTouches(s: State, s': State, a: ActId, k: CallId)
    requires a in s.acts && s' == TickCall(s, a, k) && InCall(s.acts[a].pc, k) && s.Live(k)
    ensures k in s'.calls && s'.calls == s.calls[k := s'.calls[k]] && a in s'.acts
    ensures InCall(s'.acts[a].pc, k) || s'.acts[a].pc == RunAsync(k) || s'.acts[a].pc.Loop?
  {
    assert s.calls[k := s.calls[k]] == s.calls;
  }

  lemma HandleAstray(s: State, s': State, a: ActId, k: CallId)
    requires a in s.acts && (InCall(s.acts[a].pc, k) || s.acts[a].pc == RunAsync(k))
    requires k in s.strayed && k in s.calls && a !in s.calls && C.ActOk(s, a)
    requires a in s'.acts && s'.acts == s.acts[a := s.acts[a].(pc := s'.acts[a].pc)] && s'.net == s.net
    requires s'.cpus == s.cpus && s'.nextId == s.nextId && s'.strayed == s.strayed
    requires k in s'.calls && s'.calls == s.calls[k := s'.calls[k]]
    requires InCall(s'.acts[a].pc, k) || s'.acts[a].pc == RunAsync(k) || s'.acts[a].pc.Loop?
    ensures C.Astray(s, s', a, k) && C.ActOk(s', a)
  {
  }

  lemma RunAsyncCalls(s: State, s': State, a: ActId, k: CallId)
    requires C.CallInv(s) && a in s.acts && s.acts[a].pc == RunAsync(k) && s' == RunAsyncCall(s, a, k)
    ensures C.CallInv(s') && s'.fault == s.fault
  {
    assert C.ActOk(s, a);
    NotASender(s, a);
    if k !in s.strayed {
      C.StepRunAsync(s, s', a, k);
      C.CallStep(s, s', a, k);
    } else {
      HandleAstray(s, s', a, k);
      C.AstrayStep(s, s', a, k);
    }
  }

  lemma MessageCalls(s: State, s': State, a: ActId)
    requires M.MsgInv(s) && C.CallInv(s) && a in s.acts && s' == TickAct(s, a)
    requires s.acts[a].pc.Loop? || s.acts[a].pc.Copied? || s.acts[a].pc.Ack?
    ensures C.CallInv(s') && s'.fault == s.fault
  {
    var pc := s.acts[a].pc;
    MessagesSettled(s);
    assert M.ActOk(s, a);
    if pc.Loop? {
      assert M.QueueOk(s.net, s.acts[a].cpu);
      DequeueCalls(s, s', a);
    } else if pc.Copied? {
      assert M.MsgOk(s, pc.m);
      DispatchCalls(s, s', a, pc.m, pc.msg);
    } else {
      assert M.MsgOk(s, Stack(pc.wait)) && M.ActOk(s, pc.wait);
      AckCalls(s, s', a, pc.wait);
    }
  }

  lemma SideHandler(s: State, s': State, a: ActId)
    requires Base(s) && Side(s) && a in s.acts && IsHandler(s.acts[a].pc) && s' == TickAct(s, a)
    requires s.fault == NoFault
    ensures Side(s')
  {
    var pc := s.acts[a].pc;
    if IdleHandler(pc) {
      assert M.ActOk(s, a);
      MessagesSettled(s);
      IdleHandlerShape(s, s', a);
      CallIdle(s, s', a);
    } else if pc.Loop? || pc.Copied? || pc.Ack? {
      MessageCalls(s, s', a);
    } else if pc.RunAsync? {
      RunAsyncCalls(s, s', a, pc.call);
    } else {
      HandleCalls(s, s', a, pc.call);
    }
  }

  // ---------- paging_unmap_in and exec_tlb_shootdown ----------

  /** The message of a's shootdown appears, disappears or moves. */
  ghost predicate OwnMessage(s: State, s': State, a: ActId) {
    && (forall x | x != Stack(a) :: x in s.net.msgs <==> x in s'.net.msgs)
    && (forall x | x != Stack(a) && x in s.net.msgs :: s.net.msgs[x] == s'.net.msgs[x])
    && (forall x | x != Stack(a) && x in s.net.loc :: x in s'.net.loc && s'.net.loc[x] == s.net.loc[x])
    && (Stack(a) in s'.net.msgs ==> !s'.net.msgs[Stack(a)].payload.RemoteCall?)
  }

  /** Pager a moves on, and no other activity and no call is touched. */
  ghost predicate Pages(s: State, s': State, a: ActId) {
    && a in s.acts && a in s'.acts && IsPager(s.acts[a].pc) && IsPager(s'.acts[a].pc)
    && s'.acts == s.acts[a := s'.acts[a]] && s'.acts[a].cpu == s.acts[a].cpu
    && s'.calls == s.calls && s'.strayed == s.strayed && s'.cpus == s.cpus && s'.nextId == s.nextId
  }

  lemma PagerCalls(s: State, s': State, a: ActId)
    requires Settled(s) && C.CallInv(s) && Pages(s, s', a) && OwnMessage(s, s', a)
    requires Stack(a) in s.net.msgs ==> !s.net.msgs[Stack(a)].payload.RemoteCall?
    ensures C.CallInv(s')
  {
    assert C.ActOk(s, a);
    PagesQuietly(s, s', a);
    CallQuiet(s, s', a, Stack(a));
  }

  lemma PagesQuietly(s: State, s': State, a: ActId)
    requires Pages(s, s', a) && s.acts[a].cpu < s.cpus
    ensures Quietly(s, s', a)
  {
  }

  lemma RemoveShape(s: State, s': State, a: ActId, todo: seq<Page>)
    requires a in s.acts && s.acts[a].pc == Remove(todo) && s' == RemovePage(s, a, todo)
    ensures Pages(s, s', a) && s'.net == s.net
  {
    assert s.acts[a := s.acts[a]] == s.acts;
  }

  lemma AwaitShape(s: State, s': State, a: ActId, t: Cpu)
    requires a in s.acts && s.acts[a].pc == AwaitTlb(t) && s' == AwaitShootdown(s, a, t)
    ensures Pages(s, s', a) && s'.net == s.net
  {
    assert s.acts[a := s.acts[a]] == s.acts;
  }

  lemma DecideShape(s: State, s': State, a: ActId)
    requires a in s.acts && s.acts[a].pc == Decide && s' == DecideShootdown(s, a)
    requires Stack(a) in s.net.msgs ==> !s.net.msgs[Stack(a)].payload.RemoteCall?
    ensures Pages(s, s', a) && OwnMessage(s, s', a)
  {
  }

  lemma PickPages(s: State, s': State, a: ActId, t: Cpu)
    requires a in s.acts && s.acts[a].pc == NextTarget(t) && s' == PickTarget(s, a, t)
    ensures Pages(s, s', a)
    ensures if t < s.cpus then s'.net.msgs == s.net.msgs && s'.net.loc == s.net.loc
            else s'.net.msgs == s.net.msgs - {Stack(a)} && s'.net.loc == s.net.loc - {Stack(a)}
  {
    assert s.acts[a := s.acts[a]] == s.acts;
  }

  lemma PickShape(s: State, s': State, a: ActId, t: Cpu)
    requires Stack(a) in s.net.msgs ==> !s.net.msgs[Stack(a)].payload.RemoteCall?
    requires if t < s.cpus then s'.net.msgs == s.net.msgs && s'.net.loc == s.net.loc
             else s'.net.msgs == s.net.msgs - {Stack(a)} && s'.net.loc == s.net.loc - {Stack(a)}
    ensures OwnMessage(s, s', a)
  {
  }

  lemma SendTlbShape(s: State, s': State, a: ActId, t: Cpu)
    requires a in s.acts && s.acts[a].pc == SendTlb(t) && s' == SendShootdown(s, a, t)
    requires Stack(a) in s.net.msgs ==> !s.net.msgs[Stack(a)].payload.RemoteCall?
    ensures Pages(s, s', a) && OwnMessage(s, s', a)
  {
    assert s.acts[a := s.acts[a]] == s.acts;
  }

  lemma PagerShape(s: State, s': State, a: ActId)
    requires a in s.acts && IsPager(s.acts[a].pc) && !s.acts[a].pc.Returned? && s' == TickAct(s, a)
    requires Stack(a) in s.net.msgs ==> !s.net.msgs[Stack(a)].payload.RemoteCall?
    ensures Pages(s, s', a) && OwnMessage(s, s', a)
  {
    var pc := s.acts[a].pc;
    if pc.Remove? { RemoveShape(s, s', a, pc.todo); }
    else if pc.Decide? { DecideShape(s, s', a); }
    else if pc.NextTarget? { PickPages(s, s', a, pc.target); PickShape(s, s', a, pc.target); }
    else if pc.SendTlb? { SendTlbShape(s, s', a, pc.target); }
    else if pc.AwaitTlb? { AwaitShape(s, s', a, pc.target); }
  }

  /** Base keeps every step of a pager from faulting. */
  lemma PagerFault(s: State, s': State, a: ActId)
    requires M.MsgInv(s) && a in s.acts && IsPager(s.acts[a].pc) && s' == TickAct(s, a)
    ensures s'.fault == s.fault
  {
    match s.acts[a].pc
    case NextTarget(_) => M.StepPick(s, a);
    case SendTlb(_) => M.StepSend(s, a);
    case AwaitTlb(_) => assert M.ActOk(s, a);
    case _ =>
  }

  lemma SidePager(s: State, s': State, a: ActId)
    requires Base(s) && Side(s) && a in s.acts && IsPager(s.acts[a].pc) && s' == TickAct(s, a)
    ensures Side(s')
  {
    MessagesSettled(s);
    if s.acts[a].pc.Returned? {
      CallIdle(s, s', a);
    } else {
      if Stack(a) in s.net.msgs { assert M.MsgOk(s, Stack(a)); }
      PagerShape(s, s', a);
      PagerCalls(s, s', a);
      PagerFault(s, s', a);
    }
  }

  // ---------- do_send_ipm and the waiting sender ----------

  lemma PostQuiet(s: State, s': State, a: ActId, i: Cpu, req: Request)
    requires Settled(s) && C.CallInv(s) && a in s.acts && s.acts[a].pc == Enqueue(i, req) && !req.payload.RemoteCall?
    requires i < req.end && s'.acts == s.acts[a := s.acts[a].(pc := Enqueue(i + 1, req))] && s'.strayed == s.strayed
    requires s'.calls == s.calls && s'.cpus == s.cpus && s'.nextId == s.nextId + 1
    requires s'.net.msgs == s.net.msgs[Heap(s.nextId) := Msg(req.payload, true)]
    requires s'.net.loc == s.net.loc[Heap(s.nextId) := InQueue(i)]
    ensures C.CallInv(s')
  {
    assert C.ActOk(s, a);
    CallQuiet(s, s', a, Heap(s.nextId));
  }

  lemma PostAstray(s: State, s': State, a: ActId, i: Cpu, req: Request)
    requires Settled(s) && a in s.acts && s.acts[a].pc == Enqueue(i, req) && req.payload == RemoteCall(a)
    requires a in s.calls && a in s.strayed && C.ActOk(s, a)
    requires i < req.end && !(req.broadcast && i == s.acts[a].cpu) && s' == SendNext(s, a, i, req)
    ensures C.Astray(s, s', a, a) && a in s'.acts && C.ActOk(s', a) && C.Sends(s'.acts[a].pc, a)
  {
  }

  lemma PostCall(s: State, s': State, a: ActId, i: Cpu, req: Request)
    requires Settled(s) && C.CallInv(s) && a in s.acts && s.acts[a].pc == Enqueue(i, req)
    requires req.payload == RemoteCall(a)
    requires i < req.end && !(req.broadcast && i == s.acts[a].cpu) && s' == SendNext(s, a, i, req)
    ensures C.CallInv(s')
  {
    assert C.ActOk(s, a);
    if a in s.strayed {
      PostAstray(s, s', a, i, req);
      C.AstrayStep(s, s', a, a);
    } else {
      C.PostTarget(s, s', a, i, req);
      C.PostSound(s, s', a, i, req);
      C.HandOverStep(s, s', a, a, i, Heap(s.nextId));
    }
  }

  lemma PostCalls(s: State, s': State, a: ActId, i: Cpu, req: Request)
    requires Settled(s) && C.CallInv(s) && a in s.acts && s.acts[a].pc == Enqueue(i, req) && M.ActOk(s, a)
    requires i < req.end && !(req.broadcast && i == s.acts[a].cpu) && s' == SendNext(s, a, i, req)
    ensures C.CallInv(s') && s'.fault == s.fault
  {
    PostShape(s, s', a, i, req);
    if req.payload.RemoteCall? { PostCall(s, s', a, i, req); } else { PostQuiet(s, s', a, i, req); }
  }

  lemma HoldsNothing(s: State, a: ActId)
    requires Settled(s) && a in s.acts && M.MsgNeutral(s.acts[a].pc)
    ensures forall m | m in s.net.msgs :: m in s.net.loc && s.net.loc[m] != HeldBy(a)
  {
    forall m | m in s.net.msgs ensures m in s.net.loc && s.net.loc[m] != HeldBy(a) { assert HolderOk(s, m); }
  }

  /** The sender of a strayed call moves on; no message changes. */
  lemma SenderAstray(s: State, s': State, a: ActId)
    requires Settled(s) && a in s.acts && C.ActOk(s, a) && C.Sends(s.acts[a].pc, a) && a in s.strayed
    requires Neutral(s, s', a) && s'.strayed == s.strayed && (a in s'.acts ==> C.Sends(s'.acts[a].pc, a))
    requires a in s'.calls && s'.calls == s.calls[a := s'.calls[a]]
    ensures C.Astray(s, s', a, a) && (a in s'.acts ==> C.ActOk(s', a))
  {
    HoldsNothing(s, a);
  }

  lemma SkipCalls(s: State, s': State, a: ActId, i: Cpu, req: Request)
    requires Settled(s) && C.CallInv(s) && a in s.acts && s.acts[a].pc == Enqueue(i, req) && M.ActOk(s, a)
    requires i >= req.end || (req.broadcast && i == s.acts[a].cpu)
    requires s' == SendNext(s, a, i, req)
    ensures C.CallInv(s') && s'.fault == s.fault
  {
    assert C.ActOk(s, a);
    if !req.payload.RemoteCall? {
      CallIdle(s, s', a);
    } else if a in s.strayed {
      SkipNeutral(s, s', a, i, req);
      SenderAstray(s, s', a);
      C.AstrayStep(s, s', a, a);
    } else {
      assert C.CallOk(s, a);
      C.StepSkip(s, s', a, i, req);
      HoldsNothing(s, a);
      C.SenderStep(s, s', a);
    }
  }

  lemma RaiseCalls(s: State, s': State, a: ActId, req: Request)
    requires Settled(s) && C.CallInv(s) && a in s.acts && s.acts[a].pc == Raise(req) && M.ActOk(s, a)
    requires s' == RaiseIpi(s, a, req)
    ensures C.CallInv(s') && s'.fault == s.fault
  {
    assert C.ActOk(s, a);
    if !req.payload.RemoteCall? {
      CallIdle(s, s', a);
    } else if a in s.strayed {
      RaiseNeutral(s, s', a, req);
      SenderAstray(s, s', a);
      C.AstrayStep(s, s', a, a);
    } else {
      assert C.CallOk(s, a);
      C.StepRaise(s, s', a, req);
      HoldsNothing(s, a);
      C.SenderStep(s, s', a);
    }
  }

  lemma WaiterAstray(s: State, s': State, a: ActId)
    requires Settled(s) && C.CallInv(s) && a in s.acts && s' == TickWaiter(s, a, a) && M.ActOk(s, a) && a in s.strayed
    requires s.acts[a].pc.Await? || s.acts[a].pc.CheckRef? || s.acts[a].pc.FreeSent?
    ensures C.CallInv(s')
  {
    assert C.ActOk(s, a);
    WaiterNeutral(s, s', a);
    WaiterTouches(s, s', a);
    SenderAstray(s, s', a);
    C.AstrayStep(s, s', a, a);
  }

  lemma WaiterTouches(s: State, s': State, a: ActId)
    requires a in s.acts && s' == TickWaiter(s, a, a) && M.PcOk(a, s.cpus, s.acts[a].pc) && a in s.calls
    requires s.acts[a].pc.Await? || s.acts[a].pc.CheckRef? || s.acts[a].pc.FreeSent?
    ensures a in s'.calls && s'.calls == s.calls[a := s'.calls[a]] && s'.strayed == s.strayed
    ensures a in s'.acts ==> C.Sends(s'.acts[a].pc, a)
  {
    assert s.calls[a := s.calls[a]] == s.calls;
  }

  lemma WaiterCalls(s: State, s': State, a: ActId)
    requires Settled(s) && C.CallInv(s) && a in s.acts && s' == TickWaiter(s, a, a) && M.ActOk(s, a) && a !in s.strayed
    requires s.acts[a].pc.Await? || s.acts[a].pc.CheckRef? || s.acts[a].pc.FreeSent?
    ensures C.CallInv(s') && s'.fault == s.fault
  {
    assert C.ActOk(s, a) && C.CallOk(s, a);
    C.StepWaiter(s, s', a);
    HoldsNothing(s, a);
    C.SenderStep(s, s', a);
  }

  lemma EnqueueCalls(s: State, s': State, a: ActId, i: Cpu, req: Request)
    requires Settled(s) && C.CallInv(s) && a in s.acts && s.acts[a].pc == Enqueue(i, req) && M.ActOk(s, a)
    requires s' == SendNext(s, a, i, req)
    ensures C.CallInv(s') && s'.fault == s.fault
  {
    if i >= req.end || (req.broadcast && i == s.acts[a].cpu) {
      SkipCalls(s, s', a, i, req);
    } else {
      PostCalls(s, s', a, i, req);
    }
  }

  lemma SideSender(s: State, s': State, a: ActId)
    requires Base(s) && Side(s) && a in s.acts && IsSender(s.acts[a].pc) && s' == TickAct(s, a)
    ensures Side(s')
  {
    var pc := s.acts[a].pc;
    MessagesSettled(s);
    assert M.ActOk(s, a);
    if pc.Enqueue? { EnqueueCalls(s, s', a, pc.next, pc.req); }
    else if pc.Raise? { RaiseCalls(s, s', a, pc.req); }
    else if a in s.strayed { WaiterAstray(s, s', a); }
    else { WaiterCalls(s, s', a); }
  }

  // ---------- the other events ----------

  lemma SideMigrate(s: State, s': State, a: ActId, c: Cpu)
    requires Base(s) && Side(s) && Enabled(s, Migrate(a, c)) && s' == MoveTo(s, a, c)
    ensures Side(s')
  {
    forall m | m in s.net.msgs ensures m in s.net.loc && s.net.loc[m] != HeldBy(a) { assert M.MsgOk(s, m); }
    C.RelocateStep(s, s', a);
  }

  lemma SideSpawn(s: State, s': State, e: Event)
    requires Base(s) && Side(s) && Enabled(s, e) && (e.Deliver? || e.SendTest? || e.Unmap?) && s' == Apply(s, e)
    ensures Side(s')
  {
    MessagesSettled(s);
    forall k | k in s.calls ensures k != s.nextId { assert C.CallOk(s, k); }
    CallIdle(s, s', s.nextId);
  }

  lemma SideNewCall(s: State, s': State, c: Cpu, first: Cpu, end: Cpu, broadcast: bool, wait: bool)
    requires Base(s) && Side(s) && c < s.cpus && s' == SpawnCall(s, c, first, end, broadcast, wait)
    requires if broadcast then first == 0 && end == s.cpus else end == first + 1 <= s.cpus
    ensures Side(s')
  {
    MessagesSettled(s);
    forall m | m in s.net.msgs ensures m in s.net.loc && s.net.loc[m] != HeldBy(s.nextId) { assert HolderOk(s, m); }
    C.StepNewCall(s, s', c, first, end, broadcast, wait);
  }

  /** Only the MMU and what activities recorded about it differ. */
  ghost predicate SameButMmu(s: State, s': State) {
    && s'.net == s.net && s'.calls == s.calls && s'.strayed == s.strayed && s'.cpus == s.cpus && s'.nextId == s.nextId
    && s'.acts.Keys == s.acts.Keys && forall a | a in s.acts :: s'.acts[a].(gone := s.acts[a].gone) == s.acts[a]
  }

  lemma MmuCall(s: State, s': State, k: CallId)
    requires SameButMmu(s, s') && k in s.calls && C.CallOk(s, k)
    ensures C.CallOk(s', k)
  {
    if k !in s.strayed {
      forall c | c in s'.calls[k].phase ensures C.PhaseOk(s', k, c) { assert C.PhaseOk(s, k, c); }
    }
  }

  lemma MmuAct(s: State, s': State, b: ActId)
    requires SameButMmu(s, s') && b in s.acts && C.ActOk(s, b)
    ensures C.ActOk(s', b)
  {
  }

  lemma MmuMsg(s: State, s': State, m: MsgRef)
    requires SameButMmu(s, s') && m in s.net.msgs && C.MsgOk(s, m)
    ensures C.MsgOk(s', m)
  {
    forall d | C.MsgAt(s', m, d) ensures C.MsgAt(s, m, d) {}
  }

  lemma MmuCalls(s: State, s': State)
    requires C.CallInv(s) && SameButMmu(s, s')
    ensures C.CallInv(s')
  {
    forall k | k in s'.calls ensures C.CallOk(s', k) { MmuCall(s, s', k); }
    forall b | b in s'.acts ensures C.ActOk(s', b) { MmuAct(s, s', b); }
    forall m | m in s'.net.msgs ensures C.MsgOk(s', m) { MmuMsg(s, s', m); }
  }

  lemma SideMmuEvent(s: State, s': State, e: Event)
    requires Side(s) && Enabled(s, e) && (e.MapPage? || e.Load? || e.Evict? || e.BringUp?) && s' == Apply(s, e)
    ensures Side(s')
  {
    MmuCalls(s, s');
  }

  lemma SideTick(s: State, s': State, a: ActId)
    requires Base(s) && Side(s) && a in s.acts && s' == TickAct(s, a) && s.fault == NoFault
    ensures Side(s')
  {
    if IsHandler(s.acts[a].pc) { SideHandler(s, s', a); }
    else if IsPager(s.acts[a].pc) { SidePager(s, s', a); }
    else { SideSender(s, s', a); }
  }

  lemma SideCall(s: State, s': State, e: Event)
    requires Base(s) && Side(s) && Enabled(s, e) && (e.CallOne? || e.CallAll?) && s' == Apply(s, e)
    ensures Side(s')
  {
    match e
    case CallOne(c, d, wait) => SideNewCall(s, s', c, d, d + 1, false, wait);
    case CallAll(c, wait) => SideNewCall(s, s', c, 0, s.cpus, true, wait);
  }

  lemma SideEvent(s: State, s': State, e: Event)
    requires Base(s) && Side(s) && Enabled(s, e) && s' == Apply(s, e)
    ensures Side(s')
  {
    if e.Tick? { SideTick(s, s', e.a); }
    else if e.Migrate? { SideMigrate(s, s', e.a, e.cpu); }
    else if e.CallOne? || e.CallAll? { SideCall(s, s', e); }
    else if e.Deliver? || e.SendTest? || e.Unmap? { SideSpawn(s, s', e); }
    else { SideMmuEvent(s, s', e); }
  }
}
