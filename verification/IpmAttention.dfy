/**
 Who attends a queue (src/ipm.c:110-178, 227-278): IPIs coalesce, so one event may
 be responsible for several messages, and a queue whose last attendant is moved
 away is left alone.
 */
module IpmAttention {
  import opened Ipm
  import opened IpmBase
  import M = IpmMessages

  /** Not yet past its IPI, the sender has posted to cpu c. */
  predicate Posted(pc: Pc, c: Cpu) {
    (pc.Enqueue? && c < pc.next) || pc.Raise?
  }

  /** A handler on c that has yet to see the queue empty, or a sender between the enqueue of a message on c and the IPI
      for it. */
  predicate Attends(act: Act, c: Cpu) {
    || (IsHandler(act.pc) && act.cpu == c)
    || act.pc == RaiseTlb(c)
    || (Posted(act.pc, c) && c in IpiTargets(act.cpu, act.pc.req))
  }

  ghost predicate Attended(s: State, c: Cpu) {
    s.net.Queue(c) != [] ==> c in s.net.ipi || exists a | a in s.acts :: Attends(s.acts[a], c)
  }

  // ---------- what a step does to it ----------

  predicate Covers(s: State, a: ActId, c: Cpu) {
    c in s.net.ipi || (a in s.acts && Attends(s.acts[a], c))
  }

  predicate Untouched(s: State, s': State, b: ActId) {
    (b in s.acts <==> b in s'.acts) && (b in s.acts ==> s'.acts[b].(gone := map[]) == s.acts[b].(gone := map[]))
  }

  ghost predicate OnlyTouches(s: State, s': State, a: ActId) {
    forall b | b != a :: Untouched(s, s', b)
  }

  lemma StillAttended(s: State, s': State, a: ActId, c: Cpu)
    requires OnlyTouches(s, s', a) && (Covers(s, a, c) ==> Covers(s', a, c)) && Attended(s, c)
    requires s'.net.Queue(c) != [] ==> s.net.Queue(c) != [] || Covers(s', a, c)
    ensures Attended(s', c)
  {
    if s'.net.Queue(c) != [] && !Covers(s', a, c) {
      var b :| b in s.acts && Attends(s.acts[b], c);
      assert Untouched(s, s', b);
      assert b in s'.acts && Attends(s'.acts[b], c);
    }
  }

  lemma TouchesBack(s: State, s': State, a: ActId)
    requires OnlyTouches(s, s', a)
    ensures OnlyTouches(s', s, a)
  {
    forall b | b != a ensures Untouched(s', s, b) { assert Untouched(s, s', b); }
  }

  /** Activity a covers c neither more nor less than before. */
  lemma SameAttention(s: State, s': State, a: ActId, c: Cpu)
    requires OnlyTouches(s, s', a) && (Covers(s, a, c) <==> Covers(s', a, c))
    requires Covers(s, a, c) || (s.net.Queue(c) == [] <==> s'.net.Queue(c) == [])
    ensures Attended(s, c) <==> Attended(s', c)
  {
    TouchesBack(s, s', a);
    if Attended(s, c) { StillAttended(s, s', a, c); }
    if Attended(s', c) { StillAttended(s', s, a, c); }
  }

  /** Activity a puts a message for c in its queue. */
  predicate PostsTo(s: State, a: ActId, c: Cpu) {
    && a in s.acts
    && match s.acts[a].pc
       case SendTlb(t) => t == c
       case Enqueue(i, req) => i == c && i < req.end && !(req.broadcast && i == s.acts[a].cpu)
       case _ => false
  }

  lemma DequeueAttention(s: State, s': State, a: ActId, c: Cpu)
    requires a in s.acts && s.acts[a].pc == Loop && s' == Dequeue(s, a)
    ensures Attended(s', c) <==> Attended(s, c)
  {
    if s.net.Queue(c) != [] || c != s.acts[a].cpu { SameAttention(s, s', a, c); }
  }

  /** A handler keeps handling. */
  lemma HandlerAttention(s: State, s': State, a: ActId, c: Cpu)
    requires a in s.acts && IsHandler(s.acts[a].pc) && a in s'.acts && IsHandler(s'.acts[a].pc)
    requires s'.acts == s.acts[a := s.acts[a].(pc := s'.acts[a].pc)]
    requires s'.net.queues == s.net.queues && s'.net.ipi == s.net.ipi
    ensures Attended(s', c) <==> Attended(s, c)
  {
    SameAttention(s, s', a, c);
  }

  lemma HandlerTick(s: State, s': State, a: ActId, c: Cpu)
    requires a in s.acts && M.ActOk(s, a) && IsHandler(s.acts[a].pc) && s' == TickAct(s, a)
    ensures Attended(s', c) <==> Attended(s, c)
  {
    var pc := s.acts[a].pc;
    if pc.Loop? {
      DequeueAttention(s, s', a, c);
    } else if pc.Copied? {
      DispatchShape(s, s', a, pc.m, pc.msg);
      DispatchNet(s, s', a, pc.m, pc.msg);
      HandlerAttention(s, s', a, c);
    } else if pc.Ack? {
      AckAttention(s, s', a, c);
    } else if pc.Accepted? || pc.Got? || pc.Flush? || pc.RunAsync? {
      HandlerAttention(s, s', a, c);
    } else {
      CallShape(s, s', a, pc.call);
      HandlerAttention(s, s', a, c);
    }
  }

  lemma AckAttention(s: State, s': State, a: ActId, c: Cpu)
    requires a in s.acts && s.acts[a].pc.Ack? && s' == AckShootdown(s, a, s.acts[a].pc.wait)
    ensures Attended(s', c) <==> Attended(s, c)
  {
    if s'.acts == s.acts {
      SameAttention(s, s', a, c);
    } else {
      HandlerAttention(s, s', a, c);
    }
  }

  lemma SendTlbAttention(s: State, s': State, a: ActId, t: Cpu, c: Cpu)
    requires a in s.acts && s'.acts == s.acts[a := s.acts[a].(pc := RaiseTlb(t))] && s.acts[a].pc == SendTlb(t)
    requires s'.net.queues == s.net.queues[t := [Stack(a)] + s.net.Queue(t)] && s'.net.ipi == s.net.ipi
    ensures Attended(s', c) <==> Attended(s, c) || c == t
  {
    if c == t { assert a in s'.acts && Attends(s'.acts[a], t); } else { SameAttention(s, s', a, c); }
  }

  lemma PagerTick(s: State, s': State, a: ActId, c: Cpu)
    requires M.MsgInv(s) && a in s.acts && IsPager(s.acts[a].pc) && s' == TickAct(s, a) && s.fault == NoFault
    ensures Attended(s', c) <==> Attended(s, c) || PostsTo(s, a, c)
  {
    if s.acts[a].pc.SendTlb? {
      M.StepSend(s, a);
      SendShape(s, s', a, s.acts[a].pc.target);
      SendTlbAttention(s, s', a, s.acts[a].pc.target, c);
    } else {
      QuietPager(s, s', a, c);
    }
  }

  lemma QuietPager(s: State, s': State, a: ActId, c: Cpu)
    requires a in s.acts && IsPager(s.acts[a].pc) && !s.acts[a].pc.SendTlb? && s' == TickAct(s, a)
    ensures Attended(s', c) <==> Attended(s, c)
  {
    var pc := s.acts[a].pc;
    if pc.RaiseTlb? || pc.Returned? {
      SameAttention(s, s', a, c);
    } else {
      PagerShape(s, s', a);
      PagerAttention(s, s', a, c);
    }
  }

  lemma PagerAttention(s: State, s': State, a: ActId, c: Cpu)
    requires a in s.acts && IsPager(s.acts[a].pc) && !s.acts[a].pc.RaiseTlb?
    requires a in s'.acts && IsPager(s'.acts[a].pc) && !s'.acts[a].pc.RaiseTlb?
    requires s'.acts == s.acts[a := s'.acts[a]] && s'.net.queues == s.net.queues && s'.net.ipi == s.net.ipi
    ensures Attended(s', c) <==> Attended(s, c)
  {
    SameAttention(s, s', a, c);
  }

  lemma PagerShape(s: State, s': State, a: ActId)
    requires a in s.acts && IsPager(s.acts[a].pc) && s' == TickAct(s, a)
    requires !s.acts[a].pc.SendTlb? && !s.acts[a].pc.RaiseTlb? && !s.acts[a].pc.Returned?
    ensures a in s'.acts && s'.acts == s.acts[a := s'.acts[a]]
    ensures s'.net.queues == s.net.queues && s'.net.ipi == s.net.ipi
    ensures IsPager(s'.acts[a].pc) && !s'.acts[a].pc.RaiseTlb?
  {
    assert s.acts[a := s.acts[a]] == s.acts;
  }

  /** The IPI targets of a sender are the cpus it posted to, and those the loop has not reached. */
  lemma PostedIsTarget(from: Cpu, i: Cpu, req: Request)
    requires i < req.end && !(req.broadcast && i == from) && (req.broadcast || req.end == i + 1)
    ensures i in IpiTargets(from, req)
  {
    assert IsTarget(from, 0, req, i);
  }

  lemma PostAttention(s: State, s': State, a: ActId, i: Cpu, req: Request, c: Cpu)
    requires a in s.acts && s.acts[a].pc == Enqueue(i, req) && M.PcOk(a, s.cpus, s.acts[a].pc)
    requires i < req.end && !(req.broadcast && i == s.acts[a].cpu) && s' == SendNext(s, a, i, req)
    ensures Attended(s', c) <==> Attended(s, c) || c == i
  {
    PostShape(s, s', a, i, req);
    PostedIsTarget(s.acts[a].cpu, i, req);
    if c == i { assert a in s'.acts && Attends(s'.acts[a], i); } else { SameAttention(s, s', a, c); }
  }

  lemma SkipAttention(s: State, s': State, a: ActId, i: Cpu, req: Request, c: Cpu)
    requires a in s.acts && s.acts[a].pc == Enqueue(i, req) && M.PcOk(a, s.cpus, s.acts[a].pc)
    requires i >= req.end || (req.broadcast && i == s.acts[a].cpu)
    requires s' == SendNext(s, a, i, req)
    ensures Attended(s', c) <==> Attended(s, c)
  {
    SameAttention(s, s', a, c);
  }

  lemma RaiseAttention(s: State, s': State, a: ActId, req: Request, c: Cpu)
    requires a in s.acts && s.acts[a].pc == Raise(req) && s' == RaiseIpi(s, a, req)
    ensures Attended(s', c) <==> Attended(s, c)
  {
    SameAttention(s, s', a, c);
  }

  lemma WaiterAttention(s: State, s': State, a: ActId, c: Cpu)
    requires a in s.acts && (s.acts[a].pc.Await? || s.acts[a].pc.CheckRef? || s.acts[a].pc.FreeSent?)
    requires Neutral(s, s', a) && s'.net.ipi == s.net.ipi && (a in s'.acts ==> !Posted(s'.acts[a].pc, c))
    requires a in s'.acts ==> IsSender(s'.acts[a].pc)
    ensures Attended(s', c) <==> Attended(s, c)
  {
    SameAttention(s, s', a, c);
  }

  lemma SenderTick(s: State, s': State, a: ActId, c: Cpu)
    requires a in s.acts && M.PcOk(a, s.cpus, s.acts[a].pc) && IsSender(s.acts[a].pc) && s' == TickAct(s, a)
    ensures Attended(s', c) <==> Attended(s, c) || PostsTo(s, a, c)
  {
    var pc := s.acts[a].pc;
    if pc.Enqueue? {
      if pc.next >= pc.req.end || (pc.req.broadcast && pc.next == s.acts[a].cpu) {
        SkipAttention(s, s', a, pc.next, pc.req, c);
      } else {
        PostAttention(s, s', a, pc.next, pc.req, c);
      }
    } else if pc.Raise? {
      RaiseAttention(s, s', a, pc.req, c);
    } else {
      WaiterNeutral(s, s', a);
      WaiterAttention(s, s', a, c);
    }
  }

  lemma TickAttention(s: State, s': State, a: ActId, c: Cpu)
    requires M.MsgInv(s) && a in s.acts && s.fault == NoFault && s' == TickAct(s, a)
    ensures Attended(s', c) <==> Attended(s, c) || PostsTo(s, a, c)
  {
    assert M.ActOk(s, a);
    if IsHandler(s.acts[a].pc) { HandlerTick(s, s', a, c); }
    else if IsPager(s.acts[a].pc) { PagerTick(s, s', a, c); }
    else { SenderTick(s, s', a, c); }
  }

  // ---------- moves ----------

  /** Moved to cpu d, the activity no longer attends c: a handler leaves the cpu whose IPI it accepted, or the IPI of a
      broadcast will leave out the cpu it comes from. */
  predicate Leaves(act: Act, d: Cpu, c: Cpu) {
    || (act.pc.Accepted? && act.cpu == c && d != c)
    || (Broadcasting(act.pc) && act.cpu != c && d == c && Posted(act.pc, c) && c < act.pc.req.end)
  }

  /** Moved to cpu d, the activity attends c and did not before. */
  predicate Joins(act: Act, d: Cpu, c: Cpu) {
    || (act.pc.Accepted? && act.cpu != c && d == c)
    || (Broadcasting(act.pc) && act.cpu == c && d != c && Posted(act.pc, c) && c < act.pc.req.end)
  }

  lemma MoveAttends(act: Act, d: Cpu, c: Cpu)
    requires Movable(act.pc)
    ensures Leaves(act, d, c) <==> Attends(act, c) && !Attends(act.(cpu := d), c)
    ensures Joins(act, d, c) <==> !Attends(act, c) && Attends(act.(cpu := d), c)
  {
    if act.pc.Enqueue? || act.pc.Raise? {
      assert c in Targets(act.cpu, 0, act.pc.req) <==> IsTarget(act.cpu, 0, act.pc.req, c);
      assert c in Targets(d, 0, act.pc.req) <==> IsTarget(d, 0, act.pc.req, c);
    }
  }

  /** Nobody but a attends cpu c, whose queue holds a message. */
  ghost predicate LastAttendant(s: State, a: ActId, c: Cpu) {
    && s.net.Queue(c) != [] && c !in s.net.ipi
    && forall b | b in s.acts && b != a :: !Attends(s.acts[b], c)
  }

  lemma MoveAttention(s: State, s': State, a: ActId, d: Cpu, c: Cpu)
    requires a in s.acts && Movable(s.acts[a].pc) && s' == MoveTo(s, a, d)
    ensures Attended(s', c) <==>
      Joins(s.acts[a], d, c) || (Attended(s, c) && !(Leaves(s.acts[a], d, c) && LastAttendant(s, a, c)))
  {
    MoveAttends(s.acts[a], d, c);
    assert s'.acts[a] == s.acts[a].(cpu := d);
    if Joins(s.acts[a], d, c) {
      assert Attends(s'.acts[a], c);
    } else if !Leaves(s.acts[a], d, c) {
      SameAttention(s, s', a, c);
    } else {
      LeavesAttention(s, s', a, c);
    }
  }

  lemma LeavesAttention(s: State, s': State, a: ActId, c: Cpu)
    requires a in s.acts && a in s'.acts && s'.acts == s.acts[a := s'.acts[a]] && s'.net == s.net
    requires Attends(s.acts[a], c) && !Attends(s'.acts[a], c)
    ensures Attended(s, c) && (Attended(s', c) <==> !LastAttendant(s, a, c))
  {
    if b :| b in s.acts && b != a && Attends(s.acts[b], c) { assert b in s'.acts && Attends(s'.acts[b], c); }
  }

  // ---------- every event ----------

  /** The event takes the last attendant away from a queue with a message. */
  ghost predicate Loses(s: State, e: Event, c: Cpu) {
    e.Migrate? && e.a in s.acts && Leaves(s.acts[e.a], e.cpu, c) && LastAttendant(s, e.a, c)
  }

  /** The event gives the queue an attendant. */
  predicate Regains(s: State, e: Event, c: Cpu) {
    match e
    case Tick(a) => PostsTo(s, a, c)
    case Migrate(a, d) => a in s.acts && Joins(s.acts[a], d, c)
    case _ => false
  }

  /** A new activity; an IPI it consumes is attended by it. */
  lemma SpawnAttention(s: State, s': State, act: Act, c: Cpu)
    requires M.MsgInv(s) && s'.acts == s.acts[s.nextId := act] && s'.net.queues == s.net.queues
    requires c in s.net.ipi <==> c in s'.net.ipi || Attends(act, c)
    ensures Attended(s', c) <==> Attended(s, c)
  {
    forall b | b in s.acts ensures b != s.nextId { assert M.ActOk(s, b); }
    SameAttention(s, s', s.nextId, c);
  }

  lemma SpawnEvent(s: State, s': State, e: Event, c: Cpu)
    requires M.MsgInv(s) && Enabled(s, e) && s' == Apply(s, e)
    requires e.SendTest? || e.Unmap? || e.CallOne? || e.CallAll?
    ensures Attended(s', c) <==> Attended(s, c)
  {
    SpawnAttention(s, s', s'.acts[s.nextId], c) by { if !e.Unmap? { FirstAttendsNone(s'.acts[s.nextId], c); } }
  }

  /** A sender that has posted nothing yet attends nothing, not even below its first target. */
  lemma FirstAttendsNone(act: Act, c: Cpu)
    requires act.pc.Enqueue? && (if act.pc.req.broadcast then act.pc.next == 0 else act.pc.req.end == act.pc.next + 1)
    ensures !Attends(act, c)
  {
  }

  /** Exactly which events change who attends a queue. */
  lemma AttentionStep(s: State, s': State, e: Event, c: Cpu)
    requires M.MsgInv(s) && Enabled(s, e) && s' == Apply(s, e)
    ensures Attended(s', c) <==> Regains(s, e, c) || (Attended(s, c) && !Loses(s, e, c))
  {
    match e
    case Tick(a) => TickAttention(s, s', a, c);
    case Migrate(a, d) => MoveAttention(s, s', a, d, c);
    case MapPage(_, _) => SameAttention(s, s', s.nextId, c);
    case Load(_, _) => SameAttention(s, s', s.nextId, c);
    case Evict(_, _) => SameAttention(s, s', s.nextId, c);
    case BringUp => SameAttention(s, s', s.nextId, c);
    case Deliver(d) => SpawnAttention(s, s', Act(d, Accepted, map[]), c);
    case _ => SpawnEvent(s, s', e, c);
  }
}
