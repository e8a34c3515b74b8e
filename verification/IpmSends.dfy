/**
 Where messages and calls go (src/ipm.c:253-361): the messages of a send are put in
 the queues of the cpus it was made for, each once, and the function of a remote
 call runs on those cpus, once on each.
 */
module IpmSends {
  import opened Ipm
  import opened IpmBase
  import opened IpmTheorems
  import opened IpmUnmap
  import M = IpmMessages
  import C = IpmCalls

  predicate IsSend(e: Event) { e.SendTest? || e.CallOne? || e.CallAll? }

  /** The arguments of do_send_ipm for the event e. */
  function RequestOf(s: State, e: Event): Request
    requires IsSend(e)
  {
    match e
    case SendTest(_, _, end, broadcast) => Request(end, broadcast, false, Test)
    case CallOne(_, dest, wait) => Request(dest + 1, false, wait, RemoteCall(s.nextId))
    case CallAll(_, wait) => Request(s.cpus, true, wait, RemoteCall(s.nextId))
  }

  function FirstOf(e: Event): Cpu
    requires IsSend(e)
  {
    match e
    case SendTest(_, first, _, _) => first
    case CallOne(_, dest, _) => dest
    case CallAll(_, _) => 0
  }

  /** Sender k works on request req. */
  predicate Sending(s: State, k: ActId, req: Request, first: Cpu) {
    k < s.nextId && (k in s.acts ==>
      && IsSender(s.acts[k].pc)
      && (s.acts[k].pc.Enqueue? || s.acts[k].pc.Raise? ==> s.acts[k].pc.req == req)
      && (s.acts[k].pc.Enqueue? ==> first <= s.acts[k].pc.next <= req.end))
  }

  /** How far its loop is. */
  function Cursor(s: State, k: ActId, req: Request): Cpu {
    if k in s.acts && s.acts[k].pc.Enqueue? then s.acts[k].pc.next else req.end
  }

  lemma LoopTick(s: State, k: ActId, i: Cpu, req: Request)
    requires k in s.acts && s.acts[k].pc == Enqueue(i, req)
    ensures var s' := TickAct(s, k);
      && k in s'.acts && s'.acts[k].pc == (if i >= req.end then Raise(req) else Enqueue(i + 1, req))
      && s'.nextId == s.nextId + (if i < req.end && !(req.broadcast && i == s.acts[k].cpu) then 1 else 0)
  {
  }

  lemma AfterLoopTick(s: State, k: ActId)
    requires k in s.acts && IsSender(s.acts[k].pc) && !s.acts[k].pc.Enqueue?
    ensures var s' := TickAct(s, k);
      && s'.nextId == s.nextId
      && (k in s'.acts ==> IsSender(s'.acts[k].pc) && !s'.acts[k].pc.Enqueue? && !s'.acts[k].pc.Raise?)
  {
  }

  lemma SendingStep(s: State, e: Event, k: ActId, req: Request, first: Cpu)
    requires Enabled(s, e) && Sending(s, k, req, first)
    ensures Sending(Apply(s, e), k, req, first)
    ensures e != Tick(k) ==> Cursor(Apply(s, e), k, req) == Cursor(s, k, req) || k !in Apply(s, e).acts
  {
    if e != Tick(k) {
      OtherEvent(s, e, k);
    } else if s.acts[k].pc.Enqueue? {
      LoopTick(s, k, s.acts[k].pc.next, req);
    } else {
      AfterLoopTick(s, k);
    }
  }

  lemma {:induction false} StillSending(run: seq<State>, events: seq<Event>, i: nat, j: nat)
    requires IsRun(run, events) && i < j < |run| && IsSend(events[i])
    ensures Sending(run[j], run[i].nextId, RequestOf(run[i], events[i]), FirstOf(events[i]))
  {
    if j == i + 1 {
      assert StepAt(run, events, i);
    } else {
      StillSending(run, events, i, j - 1);
      assert StepAt(run, events, j - 1);
      SendingStep(run[j - 1], events[j - 1], run[i].nextId, RequestOf(run[i], events[i]), FirstOf(events[i]));
    }
  }

  /** An activity is on the cpu of its call until the scheduler moves it. */
  lemma {:induction false} StaysOnCpu(run: seq<State>, events: seq<Event>, i: nat, j: nat)
    requires IsRun(run, events) && i < j < |run| && (IsSend(events[i]) || events[i].Unmap?)
    requires forall x | i < x < j && events[x].Migrate? :: events[x].a != run[i].nextId
    ensures run[i].nextId < run[j].nextId
    ensures run[i].nextId in run[j].acts ==> run[j].acts[run[i].nextId].cpu == events[i].cpu
  {
    if j == i + 1 {
      assert StepAt(run, events, i);
    } else {
      StaysOnCpu(run, events, i, j - 1);
      assert StepAt(run, events, j - 1);
      if events[j - 1].Tick? { TickShape(run[j - 1], events[j - 1].a); }
    }
  }

  // ---------- messages ----------

  /** Event x puts a new message with payload p in the queue of cpu d, and in no other. */
  ghost predicate PutsTo(run: seq<State>, x: nat, d: Cpu, p: Payload)
    requires x + 1 < |run|
  {
    var m := Heap(run[x].nextId);
    && run[x + 1].net.Queue(d) == run[x].net.Queue(d) + [m]
    && run[x + 1].net.Sent(d) == run[x].net.Sent(d) + [m]
    && m in run[x + 1].net.msgs && run[x + 1].net.msgs[m].payload == p
    && (forall c: Cpu | c != d ::
          run[x + 1].net.Queue(c) == run[x].net.Queue(c) && run[x + 1].net.Sent(c) == run[x].net.Sent(c))
  }

  /** A step of sender k is about cpu d: it puts the message there, or finds itself on it in a broadcast. */
  ghost predicate Serves(run: seq<State>, events: seq<Event>, x: nat, k: ActId, req: Request, d: Cpu)
    requires x < |events| == |run| - 1
  {
    && events[x] == Tick(k) && k in run[x].acts
    && (if req.broadcast && run[x].acts[k].cpu == d then run[x + 1].nextId == run[x].nextId
        else PutsTo(run, x, d, req.payload))
  }

  lemma PostPuts(run: seq<State>, x: nat, k: ActId, d: Cpu, req: Request)
    requires x + 1 < |run| && k in run[x].acts && run[x].acts[k].pc == Enqueue(d, req) && d < req.end
    requires !(req.broadcast && d == run[x].acts[k].cpu) && !req.payload.TlbShootdown?
    requires run[x + 1] == SendNext(run[x], k, d, req)
    ensures PutsTo(run, x, d, req.payload)
  {
    PostShape(run[x], run[x + 1], k, d, req);
  }

  lemma LoopServes(run: seq<State>, events: seq<Event>, x: nat, k: ActId, d: Cpu, req: Request)
    requires IsRun(run, events) && x < |events| && events[x] == Tick(k) && k in run[x].acts
    requires run[x].acts[k].pc == Enqueue(d, req) && d < req.end && !req.payload.TlbShootdown?
    ensures Serves(run, events, x, k, req, d)
  {
    assert StepAt(run, events, x);
    LoopTick(run[x], k, d, req);
    if !(req.broadcast && d == run[x].acts[k].cpu) { PostPuts(run, x, k, d, req); }
  }

  /** A message that a step of the sender of event i allocates goes to one cpu of the request, in a broadcast not the
      one the sender is on. */
  lemma MessagesGoTo(run: seq<State>, events: seq<Event>, i: nat, x: nat) returns (d: Cpu)
    requires IsRun(run, events) && i < x < |events| && IsSend(events[i]) && events[x] == Tick(run[i].nextId)
    requires run[x + 1].nextId > run[x].nextId
    ensures FirstOf(events[i]) <= d < RequestOf(run[i], events[i]).end
    ensures PutsTo(run, x, d, RequestOf(run[i], events[i]).payload)
    ensures run[i].nextId in run[x].acts && d == Cursor(run[x], run[i].nextId, RequestOf(run[i], events[i]))
    ensures RequestOf(run[i], events[i]).broadcast ==> d != run[x].acts[run[i].nextId].cpu
  {
    var k, req := run[i].nextId, RequestOf(run[i], events[i]);
    StillSending(run, events, i, x);
    assert StepAt(run, events, x);
    if !run[x].acts[k].pc.Enqueue? { AfterLoopTick(run[x], k); }
    d := run[x].acts[k].pc.next;
    LoopTick(run[x], k, d, req);
    LoopServes(run, events, x, k, d, req);
  }

  ghost predicate ServedBetween(run: seq<State>, events: seq<Event>, i: nat, j: nat, k: ActId, req: Request, d: Cpu)
    requires |run| == |events| + 1 && j < |run|
  {
    exists x: nat :: i < x < j && Serves(run, events, x, k, req, d)
  }

  lemma ServedLater(run: seq<State>, events: seq<Event>, i: nat, j: nat, k: ActId, req: Request, d: Cpu)
    requires |run| == |events| + 1 && j + 1 < |run| && ServedBetween(run, events, i, j, k, req, d)
    ensures ServedBetween(run, events, i, j + 1, k, req, d)
  {
    var x: nat :| i < x < j && Serves(run, events, x, k, req, d);
    assert i < x < j + 1 && Serves(run, events, x, k, req, d);
  }

  /** Every cpu of the request that the loop has passed was served. */
  lemma {:induction false} EachCpuServed(run: seq<State>, events: seq<Event>, i: nat, j: nat, d: Cpu)
    requires IsRun(run, events) && i < j < |run| && IsSend(events[i])
    requires var req := RequestOf(run[i], events[i]);
      FirstOf(events[i]) <= d < req.end && d < Cursor(run[j], run[i].nextId, req)
    ensures ServedBetween(run, events, i, j, run[i].nextId, RequestOf(run[i], events[i]), d)
  {
    var k, req := run[i].nextId, RequestOf(run[i], events[i]);
    assert StepAt(run, events, i);
    if j > i + 1 {
      var x := j - 1;
      StillSending(run, events, i, x);
      assert StepAt(run, events, x);
      if d < Cursor(run[x], k, req) {
        EachCpuServed(run, events, i, x, d);
        ServedLater(run, events, i, x, k, req, d);
      } else {
        CursorPasses(run[x], events[x], k, req, d);
        LoopServes(run, events, x, k, d, req);
        assert i < x < j && Serves(run, events, x, k, req, d);
      }
    }
  }

  /** The loop passes a cpu by serving it. */
  lemma CursorPasses(s: State, e: Event, k: ActId, req: Request, d: Cpu)
    requires Enabled(s, e) && k < s.nextId && k in s.acts && s.acts[k].pc.Enqueue? && s.acts[k].pc.req == req
    requires Cursor(s, k, req) <= d < req.end && d < Cursor(Apply(s, e), k, req)
    ensures e == Tick(k) && s.acts[k].pc == Enqueue(d, req)
  {
    if e != Tick(k) {
      StaysPresent(s, e, k);
      OtherEvent(s, e, k);
    } else {
      LoopTick(s, k, s.acts[k].pc.next, req);
    }
  }

  lemma StaysPresent(s: State, e: Event, k: ActId)
    requires Enabled(s, e) && k in s.acts && e != Tick(k)
    ensures k in Apply(s, e).acts
  {
    if e.Tick? { TickShape(s, e.a); }
  }

  lemma IpiSet(from: Cpu, req: Request)
    requires req.end > 0
    ensures IpiTargets(from, req) == if req.broadcast then C.Below(req.end) - {from} else {req.end - 1}
  {
    if req.broadcast {
      forall d: Cpu ensures d in Targets(from, 0, req) <==> d in C.Below(req.end) - {from} {
        assert IsTarget(from, 0, req, d) <==> d < req.end && d != from;
      }
    }
  }

  /** The IPI of a send reaches the cpus it was made for, in a broadcast all but the one it comes from. */
  lemma RaisedIpis(run: seq<State>, events: seq<Event>, i: nat, x: nat)
    requires IsRun(run, events) && i < x < |events| && IsSend(events[i]) && events[x] == Tick(run[i].nextId)
    requires run[i].nextId in run[x].acts && run[x].acts[run[i].nextId].pc.Raise?
    ensures var req := RequestOf(run[i], events[i]);
      run[x + 1].net.ipi == run[x].net.ipi +
        if req.broadcast then C.Below(req.end) - {run[x].acts[run[i].nextId].cpu} else {FirstOf(events[i])}
  {
    var k, req := run[i].nextId, RequestOf(run[i], events[i]);
    StillSending(run, events, i, x);
    assert StepAt(run, events, i);
    EndOf(run[i], events[i]);
    IpiSet(run[x].acts[k].cpu, req);
    assert StepAt(run, events, x);
    RaiseAdds(run[x], k, req);
  }

  lemma RaiseAdds(s: State, k: ActId, req: Request)
    requires k in s.acts && s.acts[k].pc == Raise(req)
    ensures TickAct(s, k).net.ipi == s.net.ipi + IpiTargets(s.acts[k].cpu, req)
  {
  }

  lemma EndOf(s: State, e: Event)
    requires Enabled(s, e) && IsSend(e)
    ensures var req := RequestOf(s, e); req.end > 0 && (!req.broadcast ==> FirstOf(e) == req.end - 1)
  {
  }

  // ---------- calls ----------

  predicate IsCall(e: Event) { e.CallOne? || e.CallAll? }

  /** The cpus a call is made for. */
  function Callees(e: Event, cpus: nat): set<Cpu>
    requires IsCall(e)
  {
    match e
    case CallOne(_, dest, _) => {dest}
    case CallAll(c, _) => C.Below(cpus) - {c}
  }

  lemma {:induction false} IdsGrow(run: seq<State>, events: seq<Event>, i: nat, j: nat)
    requires IsRun(run, events) && i <= j < |run|
    ensures run[i].nextId <= run[j].nextId && run[i].cpus == run[j].cpus
  {
    if i < j {
      IdsGrow(run, events, i, j - 1);
      assert StepAt(run, events, j - 1);
      if events[j - 1].Tick? { TickShape(run[j - 1], events[j - 1].a); }
    }
  }

  /** exec_remote_call is no broadcast: it does not matter where its sender is. */
  lemma OneNeverStrays(run: seq<State>, events: seq<Event>, i: nat, j: nat)
    requires IsRun(run, events) && i < j < |run| && events[i].CallOne?
    ensures run[i].nextId !in run[j].strayed
  {
    var k := run[i].nextId;
    StrayedIff(run, events, j, k);
    forall x | 0 <= x < j ensures !MovesBroadcast(run[x], events[x], k) {
      if x <= i {
        IdsGrow(run, events, x, i);
        if k in run[x].acts { ActsAreOk(run, events, x, k); }
      } else {
        StillSending(run, events, i, x);
      }
    }
  }

  lemma NewCallees(s: State, e: Event)
    requires Enabled(s, e) && IsCall(e)
    ensures var s' := Apply(s, e);
      && s.nextId in s'.calls && s'.calls[s.nextId].phase.Keys == Callees(e, s.cpus)
      && s'.calls[s.nextId].sync == e.wait && s.nextId in s'.acts && s'.acts[s.nextId].cpu == e.cpu
  {
    match e
    case CallOne(c, dest, wait) =>
      var r := Request(dest + 1, false, wait, RemoteCall(s.nextId));
      forall d ensures d in Targets(c, dest, r) <==> d == dest { assert IsTarget(c, dest, r, d) <==> d == dest; }
    case CallAll(c, wait) =>
      var r := Request(s.cpus, true, wait, RemoteCall(s.nextId));
      forall d: Cpu ensures d in Targets(c, 0, r) <==> d in C.Below(s.cpus) - {c} {
        assert IsTarget(c, 0, r, d) <==> d < s.cpus && d != c;
      }
  }

  /** The targets of a call are the cpus it was made for. */
  lemma CallTargets(run: seq<State>, events: seq<Event>, i: nat, j: nat)
    requires IsRun(run, events) && i < j < |run| && IsCall(events[i]) && run[i].nextId !in run[j].strayed
    ensures run[i].nextId in run[j].calls
    ensures var call := run[j].calls[run[i].nextId];
      call.phase.Keys == Callees(events[i], run[i].cpus) && call.sync == events[i].wait
  {
    assert StepAt(run, events, i);
    NewCallees(run[i], events[i]);
    TargetsFixed(run, events, i + 1, j, run[i].nextId);
  }

  /** A call that was waited for and has returned, or whose targets are all done, has run on every cpu it was made for,
      once on each, and nowhere else. */
  lemma CallRan(run: seq<State>, events: seq<Event>, i: nat, j: nat)
    requires IsRun(run, events) && i < j < |run| && IsCall(events[i]) && run[i].nextId !in run[j].strayed
    requires run[i].nextId in run[j].calls
    requires var k, s := run[i].nextId, run[j];
      || C.AllDone(s.calls[k])
      || (events[i].wait && (k !in s.acts || s.acts[k].pc.CheckRef? || s.acts[k].pc.FreeSent?))
    ensures run[j].calls[run[i].nextId].finished == multiset(Callees(events[i], run[i].cpus))
  {
    var k := run[i].nextId;
    CallTargets(run, events, i, j);
    if events[i].wait && k in run[j].acts && (run[j].acts[k].pc.CheckRef? || run[j].acts[k].pc.FreeSent?) {
      WaitingSenderReturns(run, events, j, k);
    } else {
      CallLifetime(run, events, j, k);
      RunsOnce(run, events, j, k, 0);
    }
  }
}
