/** What holds in every run of the messaging machine. */
module IpmTheorems {
  import opened Ipm
  import opened IpmBase
  import opened IpmSafety
  import M = IpmMessages
  import C = IpmCalls
  import D = IpmDelivery
  import T = IpmTlb

  // ---------- every event keeps the invariant ----------

  lemma TickStrays(s: State, a: ActId)
    requires a in s.acts
    ensures TickAct(s, a).strayed == s.strayed
  {
    var pc := s.acts[a].pc;
    if C.Executes(pc) || pc.FreeCall? || pc.Complete? { CallShape(s, TickAct(s, a), a, pc.call); }
  }

  lemma SafeEvent(s: State, e: Event)
    requires Inv(s) && Enabled(s, e)
    ensures Inv(Apply(s, e)) && s.strayed <= Apply(s, e).strayed
  {
    var s' := Apply(s, e);
    BaseEvent(s, s', e);
    if e.Tick? { TickStrays(s, e.a); }
    SideEvent(s, s', e);
  }

  /** In every run, every state satisfies the invariant. */
  lemma {:induction false} RunsAreSafe(run: seq<State>, events: seq<Event>, i: nat)
    requires IsRun(run, events) && i < |run|
    ensures Inv(run[i])
  {
    if i == 0 {
      BootIsSafe(run[0]);
    } else {
      RunsAreSafe(run, events, i - 1);
      assert StepAt(run, events, i - 1);
      SafeEvent(run[i - 1], events[i - 1]);
    }
  }

  lemma BootIsSafe(s: State)
    requires exists pt :: s == Boot(s.cpus, pt)
    ensures Inv(s)
  {
    forall c: Cpu ensures D.LogOk(s, c) && M.QueueOk(s.net, c) { assert s.net.Queue(c) == []; }
  }

  // ---------- the theorems ----------

  /** The sender of call k is moved while its broadcast is on its way. */
  predicate MovesBroadcast(s: State, e: Event, k: CallId) {
    e.Migrate? && e.a == k && k in s.acts && BroadcastingCall(s.acts[k].pc) && e.cpu != s.acts[k].cpu
  }

  /** That is what `strayed` records. */
  lemma {:induction false} StrayedIff(run: seq<State>, events: seq<Event>, i: nat, k: CallId)
    requires IsRun(run, events) && i < |run|
    ensures k in run[i].strayed <==> exists x :: 0 <= x < i && MovesBroadcast(run[x], events[x], k)
  {
    if i > 0 {
      var s, e := run[i - 1], events[i - 1];
      StrayedIff(run, events, i - 1, k);
      assert StepAt(run, events, i - 1);
      if e.Tick? { TickStrays(s, e.a); }
      assert k in run[i].strayed <==> k in s.strayed || MovesBroadcast(s, e, k);
      if x :| 0 <= x < i && MovesBroadcast(run[x], events[x], k) { assert x == i - 1 || x < i - 1; }
    }
  }

  lemma {:induction false} StrayedStays(run: seq<State>, events: seq<Event>, i: nat, j: nat)
    requires IsRun(run, events) && i <= j < |run|
    ensures run[i].strayed <= run[j].strayed
  {
    if i < j {
      StrayedStays(run, events, i, j - 1);
      assert StepAt(run, events, j - 1);
      RunsAreSafe(run, events, j - 1);
      SafeEvent(run[j - 1], events[j - 1]);
    }
  }

  /** As long as no sender is moved in the middle of a broadcast call, no run touches freed memory, frees twice,
      re-initialises a queued message, or reaches the PANIC and the ASSERTs on the reference count. */
  lemma NoRunFaults(run: seq<State>, events: seq<Event>, i: nat)
    requires IsRun(run, events) && i < |run| && run[i].strayed == {}
    ensures run[i].fault == NoFault
  {
    RunsAreSafe(run, events, i);
  }

  /** Message m is where loc says, and nowhere else. */
  ghost predicate Placed(s: State, m: MsgRef) {
    && (forall c: Cpu, x: nat | x < |s.net.Queue(c)| && s.net.Queue(c)[x] == m ::
       m in s.net.loc && s.net.loc[m] == InQueue(c))
    && (forall h | h in s.acts && M.HoldsMsg(s.acts[h].pc, m) :: m in s.net.loc && s.net.loc[m] == HeldBy(h))
  }

  lemma MessagesArePlaced(s: State, m: MsgRef)
    requires M.MsgInv(s)
    ensures Placed(s, m)
  {
    forall c: Cpu, x: nat | x < |s.net.Queue(c)| && s.net.Queue(c)[x] == m
      ensures m in s.net.loc && s.net.loc[m] == InQueue(c) {
      assert M.QueueOk(s.net, c);
    }
    forall h | h in s.acts && M.HoldsMsg(s.acts[h].pc, m) ensures m in s.net.loc && s.net.loc[m] == HeldBy(h) {
      assert M.ActOk(s, h);
    }
  }

  /** Every message is in at most one queue, there once, and never both queued and in a handler's hands. */
  lemma OnePlace(run: seq<State>, events: seq<Event>, i: nat, m: MsgRef)
    requires IsRun(run, events) && i < |run|
    ensures forall c: Cpu, d: Cpu, x: nat, y: nat | x < |run[i].net.Queue(c)| && y < |run[i].net.Queue(d)|
              && run[i].net.Queue(c)[x] == m && run[i].net.Queue(d)[y] == m :: c == d && x == y
    ensures forall h | h in run[i].acts && M.HoldsMsg(run[i].acts[h].pc, m) ::
              && (forall c: Cpu :: m !in run[i].net.Queue(c))
              && (forall g | g in run[i].acts && M.HoldsMsg(run[i].acts[g].pc, m) :: g == h)
  {
    RunsAreSafe(run, events, i);
    MessagesArePlaced(run[i], m);
    forall c: Cpu, x: nat, y: nat | x < |run[i].net.Queue(c)| && y < |run[i].net.Queue(c)|
             && run[i].net.Queue(c)[x] == m && run[i].net.Queue(c)[y] == m
               ensures x == y { assert M.QueueOk(run[i].net, c); }
  }

  /** Whoever may still touch the message of a shootdown, or its counter, is on the cpu its sender waits for,
      and the counter is still 1. */
  lemma ShootdownReceiver(run: seq<State>, events: seq<Event>, i: nat, a: ActId, h: ActId)
    requires IsRun(run, events) && i < |run| && h in run[i].acts && M.HoldsMsg(run[i].acts[h].pc, Stack(a))
    ensures a in run[i].acts && run[i].acts[a].pc in {RaiseTlb(run[i].acts[h].cpu), AwaitTlb(run[i].acts[h].cpu)}
    ensures Stack(a) in run[i].net.msgs && a in run[i].net.waits && run[i].net.waits[a] == 1
  {
    var s := run[i];
    RunsAreSafe(run, events, i);
    assert M.ActOk(s, h) && M.MsgOk(s, Stack(a)) && M.ActOk(s, a);
  }

  /** Between two targets, and after the return, the message is in no queue and in nobody's hands. */
  lemma ShootdownReuse(run: seq<State>, events: seq<Event>, i: nat, a: ActId)
    requires IsRun(run, events) && i < |run| && a in run[i].acts
    requires run[i].acts[a].pc.NextTarget? || run[i].acts[a].pc.SendTlb? || run[i].acts[a].pc.Returned?
    ensures forall c: Cpu :: Stack(a) !in run[i].net.Queue(c)
    ensures forall h | h in run[i].acts :: !M.HoldsMsg(run[i].acts[h].pc, Stack(a))
  {
    var s := run[i];
    RunsAreSafe(run, events, i);
    assert M.ActOk(s, a);
    MessagesArePlaced(s, Stack(a));
    if s.acts[a].pc.Returned? { ReturnedHasNone(s, a); }
  }

  lemma ReturnedHasNone(s: State, a: ActId)
    requires M.MsgInv(s) && a in s.acts && s.acts[a].pc.Returned?
    ensures Stack(a) !in s.net.msgs
    ensures forall c: Cpu :: Stack(a) !in s.net.Queue(c)
    ensures forall h | h in s.acts :: !M.HoldsMsg(s.acts[h].pc, Stack(a))
  {
    forall m | m in s.net.msgs ensures m != Stack(a) { assert M.MsgOk(s, m); }
    forall c: Cpu ensures Stack(a) !in s.net.Queue(c) { assert M.QueueOk(s.net, c); }
    forall h | h in s.acts ensures !M.HoldsMsg(s.acts[h].pc, Stack(a)) { assert M.ActOk(s, h); }
  }

  /** Messages other than shootdowns leave a queue in the order they entered it, none is lost, none is
      dequeued twice, and none reaches two cpus. */
  lemma FifoOnce(run: seq<State>, events: seq<Event>, i: nat, c: Cpu)
    requires IsRun(run, events) && i < |run|
    ensures run[i].net.Received(c) + D.HeapOnly(run[i].net.Queue(c)) == run[i].net.Sent(c)
    ensures forall x, y | 0 <= x < y < |run[i].net.Sent(c)| :: run[i].net.Sent(c)[x] != run[i].net.Sent(c)[y]
    ensures forall d: Cpu, m | d != c && m in run[i].net.Received(c) :: m !in run[i].net.Received(d)
  {
    var s := run[i];
    RunsAreSafe(run, events, i);
    assert D.LogOk(s, c);
    forall d: Cpu, m | d != c && m in s.net.Received(c) ensures m !in s.net.Received(d) {
      assert D.LogOk(s, d) && D.Apart(s, c, d) && m in s.net.Sent(c);
      assert forall x | x in s.net.Received(d) :: x in s.net.Sent(d);
    }
  }

  /** Whatever happens to other calls, the reference count of a call that has not strayed is exact, its struct is freed
      at most once, and it is freed exactly when the last asynchronous target dropped it or the waiting sender
      returned. */
  lemma CallLifetime(run: seq<State>, events: seq<Event>, i: nat, k: CallId)
    requires IsRun(run, events) && i < |run| && k in run[i].calls && k !in run[i].strayed
    ensures var call := run[i].calls[k];
      && call.ref == |C.Counting(call)| + (if call.sync then 1 else 0)
      && call.freed <= 1
      && (call.sync ==> (call.freed == 1 <==> k !in run[i].acts))
      && (!call.sync ==> (call.freed == 1 <==> call.phase != map[] && C.AllReleased(call)))
      && (call.freed == 1 && call.sync ==> C.AllDone(call))
  {
    RunsAreSafe(run, events, i);
    assert C.CallOk(run[i], k);
  }

  /** On every target of a call that has not strayed the function has run once if the target is done, and at most once
      before; it runs nowhere else. */
  lemma RunsOnce(run: seq<State>, events: seq<Event>, i: nat, k: CallId, c: Cpu)
    requires IsRun(run, events) && i < |run| && k in run[i].calls && k !in run[i].strayed
    ensures var call := run[i].calls[k];
      && call.finished[c] <= 1 && (c !in call.phase ==> call.finished[c] == 0)
      && (c in call.phase && call.phase[c].Done? ==> call.finished[c] == 1)
      && (C.AllDone(call) ==> call.finished == multiset(call.phase.Keys))
  {
    RunsAreSafe(run, events, i);
    FinishedIs(run[i], k);
  }

  lemma FinishedIs(s: State, k: CallId)
    requires k in s.calls && k !in s.strayed && C.CallOk(s, k)
    ensures var call := s.calls[k];
      && (forall c: Cpu :: call.finished[c] <= 1 && (c !in call.phase ==> call.finished[c] == 0)
            && (c in call.phase && call.phase[c].Done? ==> call.finished[c] == 1))
      && (C.AllDone(call) ==> call.finished == multiset(call.phase.Keys))
  {
    var call := s.calls[k];
    forall c: Cpu
      ensures call.finished[c] <= 1 && (c !in call.phase ==> call.finished[c] == 0)
        && (c in call.phase && call.phase[c].Done? ==> call.finished[c] == 1) {
      if c in call.phase { assert C.PhaseOk(s, k, c); }
    }
    if C.AllDone(call) {
      forall c: Cpu ensures call.finished[c] == multiset(call.phase.Keys)[c] { }
    }
  }

  /** A sender that stopped waiting has every target past the function, which ran there once and nowhere else. */
  lemma WaitingSenderReturns(run: seq<State>, events: seq<Event>, i: nat, a: ActId)
    requires IsRun(run, events) && i < |run| && a in run[i].acts && a !in run[i].strayed
    requires run[i].acts[a].pc.CheckRef? || run[i].acts[a].pc.FreeSent?
    ensures a in run[i].calls && run[i].calls[a].finished == multiset(run[i].calls[a].phase.Keys)
    ensures run[i].calls[a].ref == 1
    ensures forall h | h in run[i].acts && C.Executes(run[i].acts[h].pc) :: run[i].acts[h].pc.call != a
  {
    var s := run[i];
    RunsAreSafe(run, events, i);
    assert C.ActOk(s, a) && C.CallOk(s, a);
    FinishedIs(s, a);
    assert C.Counting(s.calls[a]) == {};
    forall h | h in s.acts && C.Executes(s.acts[h].pc) ensures s.acts[h].pc.call != a { assert C.ActOk(s, h); }
  }

  /** It stops waiting exactly when every target is done. */
  lemma WaitEndsIff(run: seq<State>, events: seq<Event>, i: nat, a: ActId)
    requires IsRun(run, events) && i < |run| && a in run[i].acts && run[i].acts[a].pc.Await? && a !in run[i].strayed
    ensures a in run[i].calls && a in TickAct(run[i], a).acts
    ensures TickAct(run[i], a).acts[a].pc == CheckRef(a) <==> C.AllDone(run[i].calls[a])
  {
    var s, req := run[i], run[i].acts[a].pc.req;
    RunsAreSafe(run, events, i);
    assert C.ActOk(s, a) && C.CallOk(s, a);
    if s.calls[a].completed == Expected(req, s.cpus) { C.AwaitMeansAllDone(s, a, req); }
    if C.AllDone(s.calls[a]) { assert C.Completing(s.calls[a]) == s.calls[a].phase.Keys; }
  }

  /** A queue holds its shootdowns before all other messages, so a handler takes them first. */
  lemma ShootdownsFirst(run: seq<State>, events: seq<Event>, i: nat, c: Cpu)
    requires IsRun(run, events) && i < |run|
    ensures forall x, y | 0 <= x < y < |run[i].net.Queue(c)| && run[i].net.Queue(c)[y].Stack? ::
              run[i].net.Queue(c)[x].Stack?
  {
    RunsAreSafe(run, events, i);
    assert D.LogOk(run[i], c);
  }

  // ---------- the TLB, told by the events alone ----------

  /** A tick moves or ends one activity, which keeps its cpu and forgets nothing it removed. */
  ghost predicate OnlyMoves(s: State, s': State, a: ActId) {
    && a in s.acts && s'.nextId >= s.nextId && s'.cpus == s.cpus
    && (s'.acts == s.acts - {a}
        || (a in s'.acts && s'.acts == s.acts[a := s'.acts[a]] && s'.acts[a].cpu == s.acts[a].cpu
            && forall t | Gone(s.acts[a].gone, t) :: Gone(s'.acts[a].gone, t)))
  }

  lemma HandlerTickShape(s: State, a: ActId)
    requires a in s.acts && IsHandler(s.acts[a].pc)
    ensures OnlyMoves(s, TickAct(s, a), a)
  {
    var pc := s.acts[a].pc;
    if C.Executes(pc) || pc.FreeCall? || pc.Complete? { CallShape(s, TickAct(s, a), a, pc.call); }
  }

  lemma PagerTickShape(s: State, a: ActId)
    requires a in s.acts && IsPager(s.acts[a].pc)
    ensures OnlyMoves(s, TickAct(s, a), a) && (a in TickAct(s, a).acts ==> IsPager(TickAct(s, a).acts[a].pc))
  {
  }

  lemma PostMoves(s: State, a: ActId, i: Cpu, req: Request)
    requires a in s.acts
    ensures SenderMoved(s, SendNext(s, a, i, req), a)
  {
  }

  lemma WaiterMoves(s: State, a: ActId, k: CallId)
    requires a in s.acts && (s.acts[a].pc.Await? || s.acts[a].pc.CheckRef? || s.acts[a].pc.FreeSent?)
    ensures SenderMoved(s, TickWaiter(s, a, k), a)
  {
    assert s.acts[a := s.acts[a]] == s.acts;
  }

  lemma RaiseMoves(s: State, a: ActId, req: Request)
    requires a in s.acts
    ensures SenderMoved(s, RaiseIpi(s, a, req), a)
  {
  }

  lemma SenderTickShape(s: State, a: ActId)
    requires a in s.acts && IsSender(s.acts[a].pc)
    ensures SenderMoved(s, TickAct(s, a), a)
  {
    var pc := s.acts[a].pc;
    if pc.Enqueue? { PostMoves(s, a, pc.next, pc.req); }
    else if pc.Raise? { RaiseMoves(s, a, pc.req); }
    else if pc.Await? { AwaitMoves(s, a, pc.req); }
    else { WaiterMoves(s, a, pc.call); }
  }

  /** The sender moves on or exits, and no shootdown message does. */
  ghost predicate SenderMoved(s: State, s': State, a: ActId) {
    && OnlyMoves(s, s', a) && (a in s'.acts ==> IsSender(s'.acts[a].pc))
    && forall m: MsgRef | m.Stack? :: Stays(s, s', m)
  }

  lemma AwaitMoves(s: State, a: ActId, req: Request)
    requires a in s.acts && s.acts[a].pc == Await(req)
    ensures SenderMoved(s, TickAct(s, a), a)
  {
    if req.payload.RemoteCall? { WaiterMoves(s, a, req.payload.call); }
    else { assert s.acts[a := s.acts[a]] == s.acts; }
  }

  /** Message m stays where it is. */
  predicate Stays(s: State, s': State, m: MsgRef) {
    m in s'.net.loc ==> m in s.net.loc && s'.net.loc[m] == s.net.loc[m]
  }

  lemma TickShape(s: State, a: ActId)
    requires a in s.acts
    ensures OnlyMoves(s, TickAct(s, a), a)
  {
    if IsHandler(s.acts[a].pc) { HandlerTickShape(s, a); }
    else if IsPager(s.acts[a].pc) { PagerTickShape(s, a); }
    else { SenderTickShape(s, a); }
  }

  /** Cpu c empties its TLB on behalf of a: it executes the flush of a's shootdown, or a is moved onto it. */
  predicate FlushesFor(s: State, e: Event, a: ActId, c: Cpu) {
    match e
    case Tick(h) => h in s.acts && s.acts[h].pc == Flush(a) && s.acts[h].cpu == c
    case Migrate(b, d) => b == a && d == c
    case _ => false
  }

  /** The shootdown itself claims no flush that has not happened. */
  lemma FlushedOwnStep(s: State, a: ActId, c: Cpu)
    requires a in s.acts && M.ActOk(s, a) && a in TickAct(s, a).acts
    requires T.Flushed(TickAct(s, a), a, c) && Shooting(s.acts[a].pc)
    ensures T.Flushed(s, a, c)
  {
  }

  /** Another activity b changes what the target of a's shootdown has done only by flushing. */
  lemma FlushedHandlerStep(s: State, b: ActId, a: ActId)
    requires a in s.acts && b in s.acts && a != b && IsHandler(s.acts[b].pc) && M.ActOk(s, b)
    requires T.TargetFlushed(TickAct(s, b), a)
    ensures T.TargetFlushed(s, a) || s.acts[b].pc == Flush(a)
  {
    var pc := s.acts[b].pc;
    if C.Executes(pc) || pc.FreeCall? || pc.Complete? { CallShape(s, TickAct(s, b), b, pc.call); }
  }

  lemma PickStays(s: State, b: ActId, t: Cpu, m: MsgRef)
    requires b in s.acts && m != Stack(b)
    ensures Stays(s, PickTarget(s, b, t), m) && Stays(s, SendShootdown(s, b, t), m)
    ensures Stays(s, DecideShootdown(s, b), m)
  {
  }

  /** A pager moves no shootdown message but its own. */
  lemma ShooterStays(s: State, s': State, b: ActId, m: MsgRef)
    requires b in s.acts && M.InShootdown(s.acts[b].pc) && m != Stack(b) && s' == TickAct(s, b)
    ensures Stays(s, s', m)
  {
    var pc := s.acts[b].pc;
    if pc.NextTarget? || pc.SendTlb? { PickStays(s, b, pc.target, m); }
  }

  lemma PagerStays(s: State, s': State, b: ActId, m: MsgRef)
    requires b in s.acts && IsPager(s.acts[b].pc) && m != Stack(b) && s' == TickAct(s, b)
    ensures Stays(s, s', m)
  {
    if M.InShootdown(s.acts[b].pc) { ShooterStays(s, s', b, m); }
    else if s.acts[b].pc.Decide? { PickStays(s, b, 0, m); }
  }

  lemma FlushedElsewhere(s: State, s': State, b: ActId, a: ActId)
    requires a in s.acts && b in s.acts && a != b && !IsHandler(s.acts[b].pc) && OnlyMoves(s, s', b)
    requires Stays(s, s', Stack(a))
    requires T.TargetFlushed(s', a) && (b in s'.acts ==> !IsHandler(s'.acts[b].pc))
    ensures T.TargetFlushed(s, a)
  {
  }

  lemma FlushedByOther(s: State, b: ActId, a: ActId)
    requires a in s.acts && b in s.acts && a != b && M.ActOk(s, b) && T.TargetFlushed(TickAct(s, b), a)
    ensures T.TargetFlushed(s, a) || s.acts[b].pc == Flush(a)
  {
    if IsHandler(s.acts[b].pc) { FlushedHandlerStep(s, b, a); }
    else {
      var s' := TickAct(s, b);
      if IsPager(s.acts[b].pc) {
        PagerTickShape(s, b);
        PagerStays(s, s', b, Stack(a));
      } else {
        SenderTickShape(s, b);
      }
      FlushedElsewhere(s, s', b, a);
    }
  }

  /** A cpu becomes flushed, from a shootdown's point of view, only by flushing. */
  lemma FlushedStep(s: State, e: Event, a: ActId, c: Cpu)
    requires Enabled(s, e) && a in s.acts && a in Apply(s, e).acts && Shooting(s.acts[a].pc)
    requires a < s.nextId && M.ActOk(s, a) && (e.Tick? && e.a in s.acts ==> M.ActOk(s, e.a))
    requires T.Flushed(Apply(s, e), a, c)
    ensures T.Flushed(s, a, c) || FlushesFor(s, e, a, c)
  {
    if e.Tick? && e.a == a {
      FlushedOwnStep(s, a, c);
    } else if e.Tick? {
      TickShape(s, e.a);
      if T.TargetFlushed(Apply(s, e), a) { FlushedByOther(s, e.a, a); }
    }
  }

  predicate Shooting(pc: Pc) {
    M.InShootdown(pc) || pc.Returned?
  }

  lemma ShootingStays(s: State, e: Event, a: ActId)
    requires Enabled(s, e) && a < s.nextId && (a in s.acts ==> Shooting(s.acts[a].pc))
    ensures a < Apply(s, e).nextId
    ensures a in Apply(s, e).acts ==> a in s.acts && Shooting(Apply(s, e).acts[a].pc)
  {
    if e.Tick? { TickShape(s, e.a); }
  }

  ghost predicate FlushedBetween(run: seq<State>, events: seq<Event>, k: nat, j: nat, a: ActId, c: Cpu)
    requires |run| == |events| + 1 && j < |run|
  {
    exists x | k < x < j :: FlushesFor(run[x], events[x], a, c)
  }

  lemma ActsAreOk(run: seq<State>, events: seq<Event>, i: nat, b: ActId)
    requires IsRun(run, events) && i < |run| && b in run[i].acts
    ensures M.ActOk(run[i], b)
  {
    RunsAreSafe(run, events, i);
  }

  lemma ShootdownStart(run: seq<State>, events: seq<Event>, k: nat, a: ActId, c: Cpu)
    requires IsRun(run, events) && k + 1 < |run| && a in run[k].acts && c != run[k].acts[a].cpu
    requires events[k] == Tick(a) && run[k].acts[a].pc == Decide && run[k].mmu.online
    ensures a < run[k + 1].nextId && a in run[k + 1].acts
    ensures Shooting(run[k + 1].acts[a].pc) && !T.Flushed(run[k + 1], a, c) && !run[k + 1].acts[a].pc.Returned?
  {
    ActsAreOk(run, events, k, a);
    assert StepAt(run, events, k);
  }

  /** One event of a run, seen from a's shootdown. */
  lemma ShootdownStep(run: seq<State>, events: seq<Event>, i: nat, a: ActId, c: Cpu)
    requires IsRun(run, events) && i < |events| && a < run[i].nextId
    requires a in run[i].acts ==> Shooting(run[i].acts[a].pc)
    ensures a < run[i + 1].nextId
    ensures a in run[i + 1].acts ==> a in run[i].acts && Shooting(run[i + 1].acts[a].pc)
    ensures a in run[i + 1].acts && T.Flushed(run[i + 1], a, c) ==>
      T.Flushed(run[i], a, c) || FlushesFor(run[i], events[i], a, c)
  {
    assert StepAt(run, events, i);
    ShootingStays(run[i], events[i], a);
    if a in run[i + 1].acts && T.Flushed(run[i + 1], a, c) {
      ActsAreOk(run, events, i, a);
      if events[i].Tick? { ActsAreOk(run, events, i, events[i].a); }
      FlushedStep(run[i], events[i], a, c);
    }
  }

  /** exec_tlb_shootdown, entered at event k, has returned in state j only if every cpu but the one it was entered on
      emptied its TLB for it in between, however often it was moved. */
  lemma {:induction false} ShootdownFlushes(run: seq<State>, events: seq<Event>, k: nat, j: nat, a: ActId, c: Cpu)
    requires IsRun(run, events) && k < j < |run| && a in run[k].acts && c != run[k].acts[a].cpu
    requires events[k] == Tick(a) && run[k].acts[a].pc == Decide && run[k].mmu.online
    ensures a < run[j].nextId
    ensures a in run[j].acts ==> Shooting(run[j].acts[a].pc)
    ensures a in run[j].acts && T.Flushed(run[j], a, c) ==> FlushedBetween(run, events, k, j, a, c)
    ensures a in run[j].acts && run[j].acts[a].pc == Returned && c < run[j].cpus ==>
      FlushedBetween(run, events, k, j, a, c)
  {
    if j == k + 1 {
      ShootdownStart(run, events, k, a, c);
    } else {
      ShootdownFlushes(run, events, k, j - 1, a, c);
      ShootdownStep(run, events, j - 1, a, c);
    }
  }

  // ---------- the one call that is never freed ----------

  /** Call k keeps its targets and its kind. */
  ghost predicate KeepsTargets(s: State, s': State, k: CallId) {
    k in s.calls && k in s'.calls && s'.calls[k].phase.Keys == s.calls[k].phase.Keys
      && s'.calls[k].sync == s.calls[k].sync
  }

  lemma DispatchKeepsTargets(s: State, a: ActId, k: CallId)
    requires a in s.acts && s.acts[a].pc.Copied? && k in s.calls && k !in s.strayed && M.ActOk(s, a)
    requires C.MsgOk(s, s.acts[a].pc.m)
    ensures KeepsTargets(s, TickAct(s, a), k)
  {
    assert C.MsgAt(s, s.acts[a].pc.m, s.acts[a].cpu);
  }

  lemma CallKeepsTargets(s: State, a: ActId, j: CallId, k: CallId)
    requires a in s.acts && k in s.calls && (j == k ==> s.acts[a].cpu in s.calls[k].phase)
    ensures KeepsTargets(s, TickCall(s, a, j), k)
  {
  }

  lemma RunKeepsTargets(s: State, a: ActId, j: CallId, k: CallId)
    requires a in s.acts && k in s.calls && (j == k ==> s.acts[a].cpu in s.calls[k].phase)
    ensures KeepsTargets(s, RunAsyncCall(s, a, j), k)
  {
  }

  lemma SenderKeepsTargets(s: State, a: ActId, k: CallId)
    requires a in s.acts && C.ActOk(s, a) && IsSender(s.acts[a].pc) && k in s.calls && k !in s.strayed
    ensures KeepsTargets(s, TickAct(s, a), k)
  {
    var pc := s.acts[a].pc;
    if pc.Enqueue? && pc.next < pc.req.end && pc.req.payload == RemoteCall(k)
      && !(pc.req.broadcast && pc.next == s.acts[a].cpu) {
      assert IsTarget(s.acts[a].cpu, if pc.req.broadcast then 0 else pc.req.end - 1, pc.req, pc.next);
      assert pc.next in s.calls[k].phase;
    }
  }

  lemma TickKeepsTargets(s: State, a: ActId, k: CallId)
    requires M.MsgInv(s) && C.CallInv(s) && a in s.acts && k in s.calls && k !in s.strayed
    ensures KeepsTargets(s, TickAct(s, a), k)
  {
    var pc := s.acts[a].pc;
    assert C.ActOk(s, a) && M.ActOk(s, a);
    if pc.Copied? { DispatchKeepsTargets(s, a, k); }
    else if C.Executes(pc) || pc.FreeCall? || pc.Complete? { CallKeepsTargets(s, a, pc.call, k); }
    else if pc.RunAsync? { RunKeepsTargets(s, a, pc.call, k); }
    else if IsSender(pc) { SenderKeepsTargets(s, a, k); }
    else { OthersKeepCalls(s, a); }
  }

  lemma OthersKeepCalls(s: State, a: ActId)
    requires a in s.acts
    requires IsPager(s.acts[a].pc) || IdleHandler(s.acts[a].pc) || s.acts[a].pc.Loop? || s.acts[a].pc.Ack?
    ensures TickAct(s, a).calls == s.calls
  {
  }

  lemma {:induction false} TargetsFixed(run: seq<State>, events: seq<Event>, i: nat, j: nat, k: CallId)
    requires IsRun(run, events) && i <= j < |run| && k in run[i].calls && k !in run[j].strayed
    ensures KeepsTargets(run[i], run[j], k)
  {
    if i < j {
      StrayedStays(run, events, j - 1, j);
      TargetsFixed(run, events, i, j - 1, k);
      TargetsFixedStep(run, events, j - 1, k);
    }
  }

  lemma TargetsFixedStep(run: seq<State>, events: seq<Event>, i: nat, k: CallId)
    requires IsRun(run, events) && i < |events| && k in run[i].calls && k !in run[i].strayed
    ensures KeepsTargets(run[i], run[i + 1], k)
  {
    assert StepAt(run, events, i);
    if events[i].Tick? { TickEventKeepsTargets(run, events, i, k); }
    else { CallsAreOld(run, events, i, k); OtherEventKeepsTargets(run[i], events[i], k); }
  }

  lemma TickEventKeepsTargets(run: seq<State>, events: seq<Event>, i: nat, k: CallId)
    requires IsRun(run, events) && i < |events| && k in run[i].calls && k !in run[i].strayed && events[i].Tick?
    requires events[i].a in run[i].acts
    ensures KeepsTargets(run[i], TickAct(run[i], events[i].a), k)
  {
    RunsAreSafe(run, events, i);
    TickKeepsTargets(run[i], events[i].a, k);
  }

  lemma CallsAreOld(run: seq<State>, events: seq<Event>, i: nat, k: CallId)
    requires IsRun(run, events) && i < |run| && k in run[i].calls
    ensures k < run[i].nextId
  {
    RunsAreSafe(run, events, i);
    assert C.CallOk(run[i], k);
  }

  lemma OtherEventKeepsTargets(s: State, e: Event, k: CallId)
    requires Enabled(s, e) && !e.Tick? && k in s.calls && k < s.nextId
    ensures KeepsTargets(s, Apply(s, e), k)
  {
  }

  /** An asynchronous broadcast made at event i is freed once all its targets are done if and only if the
      machine has another cpu; on a single cpu its struct is never freed. */
  lemma AsyncBroadcastFreed(run: seq<State>, events: seq<Event>, i: nat, j: nat)
    requires IsRun(run, events) && i < j < |run| && events[i].CallAll? && !events[i].wait
    requires run[i].nextId !in run[j].strayed
    ensures var k := run[i].nextId;
      && k in run[j].calls
      && (C.AllDone(run[j].calls[k]) ==> (run[j].calls[k].freed == 1 <==> run[i].cpus >= 2))
      && (run[i].cpus == 1 ==> run[j].calls[k].freed == 0)
  {
    var k := run[i].nextId;
    assert StepAt(run, events, i);
    BroadcastTargets(run[i], events[i].cpu);
    TargetsFixed(run, events, i + 1, j, k);
    CallLifetime(run, events, j, k);
    assert run[j].calls[k].phase == map[] <==> run[j].calls[k].phase.Keys == {};
  }

  lemma BroadcastTargets(s: State, c: Cpu)
    requires c < s.cpus
    ensures var call := SpawnCall(s, c, 0, s.cpus, true, false).calls[s.nextId];
            !call.sync && |call.phase.Keys| == s.cpus - 1
  {
    var req := Request(s.cpus, true, false, RemoteCall(s.nextId));
    C.ExpectedTargets(c, req, s.cpus);
    assert SpawnCall(s, c, 0, s.cpus, true, false).calls[s.nextId].phase.Keys == C.AllTargets(c, req);
  }
}
