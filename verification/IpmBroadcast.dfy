/**
 A broadcast whose sender is moved (src/ipm.c:253-278): the loop looks at cpu_id()
 in every iteration and the IPI leaves out the cpu it is sent from.
 */
module IpmBroadcast {
  import opened Ipm
  import opened IpmBase
  import opened IpmSafety
  import opened IpmTheorems
  import M = IpmMessages
  import C = IpmCalls

  // ---------- how many messages a broadcast call sends ----------

  /** Event x allocates a message that carries call k. */
  predicate PostsFor(run: seq<State>, x: nat, k: CallId)
    requires x + 1 < |run|
  {
    var m := Heap(run[x].nextId);
    m !in run[x].net.msgs && m in run[x + 1].net.msgs && run[x + 1].net.msgs[m].payload == RemoteCall(k)
  }

  /** Event x is an iteration of the loop of call k that finds the sender on the cpu it is about. */
  predicate SkipsFor(run: seq<State>, events: seq<Event>, x: nat, k: CallId)
    requires x < |events| == |run| - 1
  {
    && events[x] == Tick(k) && k in run[x].acts && run[x].acts[k].pc.Enqueue?
    && run[x].acts[k].pc.next < run[x].acts[k].pc.req.end && run[x].acts[k].pc.next == run[x].acts[k].cpu
  }

  function Posts(run: seq<State>, events: seq<Event>, k: CallId, i: nat, j: nat): nat
    requires i <= j < |run| == |events| + 1
    decreases j
  {
    if i == j then 0 else Posts(run, events, k, i, j - 1) + if PostsFor(run, j - 1, k) then 1 else 0
  }

  function Skips(run: seq<State>, events: seq<Event>, k: CallId, i: nat, j: nat): nat
    requires i <= j < |run| == |events| + 1
    decreases j
  {
    if i == j then 0 else Skips(run, events, k, i, j - 1) + if SkipsFor(run, events, j - 1, k) then 1 else 0
  }

  /** Where the loop of call k is; past the end when it is over. */
  function Progress(s: State, k: CallId): nat {
    if k in s.acts && s.acts[k].pc.Enqueue? then s.acts[k].pc.next else s.cpus
  }

  /** While call k is on its way, its sender is in the loop of a broadcast. */
  predicate InLoop(s: State, k: CallId) {
    && k < s.nextId
    && (k in s.acts && (s.acts[k].pc.Enqueue? || s.acts[k].pc.Raise?) ==>
          s.acts[k].pc.req.broadcast && s.acts[k].pc.req.end == s.cpus && s.acts[k].pc.req.payload == RemoteCall(k))
  }

  /** A message is allocated only by the loop of do_send_ipm, with the payload of the request. */
  lemma TickPosts(s: State, b: ActId)
    requires b in s.acts && Heap(s.nextId) !in s.net.msgs && Heap(s.nextId) in TickAct(s, b).net.msgs
    ensures s.acts[b].pc.Enqueue? && TickAct(s, b).net.msgs[Heap(s.nextId)].payload == s.acts[b].pc.req.payload
  {
    if IsHandler(s.acts[b].pc) { HandlerPostsNone(s, b); }
    else if IsPager(s.acts[b].pc) { PagerPostsNone(s, b); }
    else { SenderPosts(s, b); }
  }

  lemma SenderPosts(s: State, b: ActId)
    requires b in s.acts && IsSender(s.acts[b].pc)
    ensures forall m | m in TickAct(s, b).net.msgs && m !in s.net.msgs ::
      s.acts[b].pc.Enqueue? && TickAct(s, b).net.msgs[m].payload == s.acts[b].pc.req.payload
  {
  }

  lemma PagerPostsNone(s: State, b: ActId)
    requires b in s.acts && IsPager(s.acts[b].pc)
    ensures forall m | m in TickAct(s, b).net.msgs && m.Heap? :: m in s.net.msgs
  {
    if M.InShootdown(s.acts[b].pc) { ShooterPostsNone(s, b); }
  }

  lemma ShooterPostsNone(s: State, b: ActId)
    requires b in s.acts && M.InShootdown(s.acts[b].pc)
    ensures forall m | m in TickAct(s, b).net.msgs && m.Heap? :: m in s.net.msgs
  {
  }

  lemma HandlerPostsNone(s: State, b: ActId)
    requires b in s.acts && IsHandler(s.acts[b].pc)
    ensures forall m | m in TickAct(s, b).net.msgs :: m in s.net.msgs
  {
    var pc := s.acts[b].pc;
    if C.Executes(pc) || pc.FreeCall? || pc.Complete? { CallShape(s, TickAct(s, b), b, pc.call); }
  }

  /** One step of the sender of call k. */
  lemma OwnStep(s: State, k: CallId)
    requires M.MsgInv(s) && k in s.acts && InLoop(s, k) && IsSender(s.acts[k].pc)
    ensures var s' := TickAct(s, k);
      var m := Heap(s.nextId);
      var posts := m in s'.net.msgs && s'.net.msgs[m].payload == RemoteCall(k);
      var skips := s.acts[k].pc.Enqueue? && s.acts[k].pc.next < s.acts[k].pc.req.end
        && s.acts[k].pc.next == s.acts[k].cpu;
      && m !in s.net.msgs && InLoop(s', k) && (k in s'.acts ==> IsSender(s'.acts[k].pc)) && !(posts && skips)
      && Progress(s', k) == Progress(s, k) + (if posts then 1 else 0) + (if skips then 1 else 0)
  {
    MessagesSettled(s);
    assert M.ActOk(s, k);
    var s' := TickAct(s, k);
    if Heap(s.nextId) in s'.net.msgs { TickPosts(s, k); }
    TickShape(s, k);
  }

  /** An event that is no step of it. */
  lemma OtherStep(s: State, e: Event, k: CallId)
    requires M.MsgInv(s) && Enabled(s, e) && InLoop(s, k) && e != Tick(k) && (k in s.acts ==> IsSender(s.acts[k].pc))
    ensures var s', m := Apply(s, e), Heap(s.nextId);
      && InLoop(s', k) && (k in s'.acts ==> IsSender(s'.acts[k].pc)) && Progress(s', k) == Progress(s, k)
      && m !in s.net.msgs && (m in s'.net.msgs ==> s'.net.msgs[m].payload != RemoteCall(k))
  {
    MessagesSettled(s);
    if e.Tick? {
      TickShape(s, e.a);
      assert M.ActOk(s, e.a);
      if Heap(s.nextId) in TickAct(s, e.a).net.msgs { TickPosts(s, e.a); }
    }
  }

  /** Each iteration either sends a message or skips; no message of the call comes from anywhere else. */
  lemma {:induction false} LoopCounts(run: seq<State>, events: seq<Event>, i: nat, j: nat)
    requires IsRun(run, events) && i < j < |run| && events[i].CallAll?
    ensures var k := run[i].nextId;
      && InLoop(run[j], k) && (k in run[j].acts ==> IsSender(run[j].acts[k].pc)) && run[j].cpus == run[i].cpus
      && Progress(run[j], k) == Posts(run, events, k, i + 1, j) + Skips(run, events, k, i + 1, j)
  {
    var k := run[i].nextId;
    if j == i + 1 {
      assert StepAt(run, events, i);
    } else {
      LoopCounts(run, events, i, j - 1);
      LoopStep(run, events, j - 1, k);
    }
  }

  lemma LoopStep(run: seq<State>, events: seq<Event>, x: nat, k: CallId)
    requires IsRun(run, events) && x < |events| && InLoop(run[x], k)
    requires k in run[x].acts ==> IsSender(run[x].acts[k].pc)
    ensures InLoop(run[x + 1], k) && (k in run[x + 1].acts ==> IsSender(run[x + 1].acts[k].pc))
    ensures run[x + 1].cpus == run[x].cpus
    ensures Progress(run[x + 1], k) ==
      Progress(run[x], k) + (if PostsFor(run, x, k) then 1 else 0) + (if SkipsFor(run, events, x, k) then 1 else 0)
  {
    RunsAreSafe(run, events, x);
    assert StepAt(run, events, x);
    if events[x] == Tick(k) { TickShape(run[x], k); OwnStep(run[x], k); }
    else {
      if events[x].Tick? { TickShape(run[x], events[x].a); }
      OtherStep(run[x], events[x], k);
    }
  }

  /** A broadcast call made at event i whose loop is over in state j has sent exactly as many messages as its reference
      count has parties besides a waiting sender if and only if exactly one iteration found the sender on its own
      cpu. */
  lemma MessagesMatchIff(run: seq<State>, events: seq<Event>, i: nat, j: nat)
    requires IsRun(run, events) && i < j < |run| && events[i].CallAll?
    requires var k := run[i].nextId; k in run[j].acts ==> !run[j].acts[k].pc.Enqueue?
    ensures var k := run[i].nextId;
      && k in run[i + 1].calls
      && (Posts(run, events, k, i + 1, j) == run[i + 1].calls[k].ref - (if events[i].wait then 1 else 0)
          <==> Skips(run, events, k, i + 1, j) == 1)
  {
    assert StepAt(run, events, i);
    LoopCounts(run, events, i, j);
  }

  /** A sender that stays where it is skips exactly its own cpu. */
  lemma {:induction false} UnmovedSkipsOnce(run: seq<State>, events: seq<Event>, i: nat, j: nat)
    requires IsRun(run, events) && i < j < |run| && events[i].CallAll?
    requires run[i].nextId !in run[j].strayed
    ensures var k, c := run[i].nextId, events[i].cpu;
      && Skips(run, events, k, i + 1, j) == (if Progress(run[j], k) > c then 1 else 0)
      && (k in run[j].acts && (run[j].acts[k].pc.Enqueue? || run[j].acts[k].pc.Raise?) ==>
            run[j].acts[k].cpu == c && run[j].acts[k].pc.req.broadcast)
  {
    var k, c := run[i].nextId, events[i].cpu;
    assert StepAt(run, events, i);
    if j > i + 1 {
      StrayedStays(run, events, j - 1, j);
      UnmovedSkipsOnce(run, events, i, j - 1);
      LoopCounts(run, events, i, j - 1);
      UnmovedStep(run, events, j - 1, k, c);
    }
  }

  lemma UnmovedStep(run: seq<State>, events: seq<Event>, x: nat, k: CallId, c: Cpu)
    requires IsRun(run, events) && x < |events| && k !in run[x + 1].strayed && c < run[x].cpus
    requires InLoop(run[x], k) && (k in run[x].acts ==> IsSender(run[x].acts[k].pc))
    requires k in run[x].acts && (run[x].acts[k].pc.Enqueue? || run[x].acts[k].pc.Raise?) ==>
      run[x].acts[k].cpu == c && run[x].acts[k].pc.req.broadcast
    ensures var s' := run[x + 1];
      && (k in s'.acts && (s'.acts[k].pc.Enqueue? || s'.acts[k].pc.Raise?) ==>
            s'.acts[k].cpu == c && s'.acts[k].pc.req.broadcast)
      && (SkipsFor(run, events, x, k) <==> Progress(run[x], k) == c && Progress(s', k) == c + 1)
      && Progress(run[x], k) <= Progress(s', k) <= Progress(run[x], k) + 1
  {
    LoopStep(run, events, x, k);
    assert StepAt(run, events, x);
    if events[x].Tick? { TickShape(run[x], events[x].a); }
    UnmovedCpu(run[x], events[x], k);
  }

  lemma UnmovedCpu(s: State, e: Event, k: CallId)
    requires Enabled(s, e) && InLoop(s, k) && (k in s.acts ==> IsSender(s.acts[k].pc)) && k !in Apply(s, e).strayed
    requires e.Tick? ==> OnlyMoves(s, Apply(s, e), e.a)
    ensures var s' := Apply(s, e);
      k in s'.acts && (s'.acts[k].pc.Enqueue? || s'.acts[k].pc.Raise?) ==>
        && k in s.acts && (s.acts[k].pc.Enqueue? || s.acts[k].pc.Raise?) && s'.acts[k].pc.req == s.acts[k].pc.req
        && (s.acts[k].pc.req.broadcast ==> s'.acts[k].cpu == s.acts[k].cpu)
  {
  }

  // ---------- a run that goes wrong ----------

  /** One event more. */
  lemma Push(run: seq<State>, events: seq<Event>, e: Event) returns (run': seq<State>, events': seq<Event>)
    requires IsRun(run, events) && Enabled(run[|events|], e)
    ensures IsRun(run', events') && |events'| == |events| + 1 && run <= run'
    ensures run'[|events'|] == Apply(run[|events|], e)
  {
    var pt :| run[0] == Boot(run[0].cpus, pt);
    run', events' := run + [Apply(run[|events|], e)], events + [e];
    assert run'[0] == Boot(run'[0].cpus, pt);
    forall i | 0 <= i < |events'| ensures StepAt(run', events', i) {
      if i < |events| { assert StepAt(run, events, i); }
    }
  }

  const REQ: Request := Request(2, true, false, RemoteCall(0))

  /** Cpu 1 has started an asynchronous broadcast call and sent the message for cpu 0. */
  predicate HalfSent(s: State, c: Cpu) {
    && s.cpus == 2 && s.mmu.online && s.fault == NoFault && s.nextId == 2
    && s.acts == map[0 := Act(c, Enqueue(1, REQ), map[])]
    && s.net.Queue(0) == [Heap(1)] && s.net.Queue(1) == [] && s.net.ipi == {}
    && s.net.msgs == map[Heap(1) := Msg(RemoteCall(0), true)]
    && 0 in s.calls && !s.calls[0].sync && s.calls[0].ref == 1 && s.calls[0].freed == 0
  }

  lemma HalfSentRun() returns (run: seq<State>, events: seq<Event>)
    ensures IsRun(run, events) && HalfSent(run[|events|], 1)
  {
    run, events := [Boot(2, map[])], [];
    assert run[0] == Boot(run[0].cpus, map[]);
    run, events := Push(run, events, BringUp);
    run, events := Push(run, events, CallAll(1, false));
    assert run[|events|].acts == map[0 := Act(1, Enqueue(0, REQ), map[])];
    run, events := Push(run, events, Tick(0));
  }

  /** What all that follows have in common: the message for cpu 0 waits in its queue. */
  predicate Waits(s: State, n: nat) {
    && s.cpus == 2 && s.mmu.online && s.fault == NoFault && s.nextId == n && s.net.Queue(0) != []
    && s.net.Queue(0)[0] == Heap(1)
    && Heap(1) in s.net.msgs && s.net.msgs[Heap(1)] == Msg(RemoteCall(0), true) && 0 in s.calls && !s.calls[0].sync
  }

  /** Moved to cpu 0, the sender has sent a message to cpu 1 too. */
  predicate BothSent(s: State) {
    && Waits(s, 3) && s.acts == map[0 := Act(0, Raise(REQ), map[])] && s.net.Queue(0) == [Heap(1)]
    && s.net.Queue(1) == [Heap(2)]
    && s.net.ipi == {} && Heap(2) in s.net.msgs && s.net.msgs[Heap(2)] == Msg(RemoteCall(0), true)
    && s.calls[0].ref == 1 && s.calls[0].freed == 0
  }

  lemma BothSentRun() returns (run: seq<State>, events: seq<Event>)
    ensures IsRun(run, events) && BothSent(run[|events|])
  {
    run, events := HalfSentRun();
    run, events := Push(run, events, Migrate(0, 0));
    assert HalfSent(run[|events|], 0);
    run, events := Push(run, events, Tick(0));
    assert run[|events|].acts == map[0 := Act(0, Enqueue(2, REQ), map[])];
    run, events := Push(run, events, Tick(0));
  }

  /** The one IPI goes to cpu 1. */
  predicate Raised(s: State) {
    && Waits(s, 3) && s.acts == map[] && s.net.Queue(0) == [Heap(1)] && s.net.Queue(1) == [Heap(2)] && s.net.ipi == {1}
    && Heap(2) in s.net.msgs && s.net.msgs[Heap(2)] == Msg(RemoteCall(0), true) && s.calls[0].ref == 1
    && s.calls[0].freed == 0
  }

  lemma RaisedRun() returns (run: seq<State>, events: seq<Event>)
    ensures IsRun(run, events) && Raised(run[|events|])
  {
    run, events := BothSentRun();
    assert IpiTargets(0, REQ) == {1} by { assert IsTarget(0, 0, REQ, 1); }
    run, events := Push(run, events, Tick(0));
  }

  /** Activity 3 handles the message of cpu 1. */
  predicate Handling(s: State, pc: Pc, ref: int, freed: nat) {
    && Waits(s, 4) && s.net.Queue(0) == [Heap(1)] && s.net.ipi == {} && s.acts == map[3 := Act(1, pc, map[])]
    && s.calls[0].ref == ref && s.calls[0].freed == freed
  }

  lemma TakenRun() returns (run: seq<State>, events: seq<Event>)
    ensures IsRun(run, events) && Handling(run[|events|], Check(0), 1, 0)
  {
    run, events := RaisedRun();
    run, events := Push(run, events, Deliver(1));
    assert Handling(run[|events|], Accepted, 1, 0);
    run, events := Push(run, events, Tick(3));
    assert Handling(run[|events|], Loop, 1, 0);
    run, events := Push(run, events, Tick(3));
    assert Handling(run[|events|], Got(Heap(2)), 1, 0);
    run, events := Push(run, events, Tick(3));
    run, events := Push(run, events, Tick(3));
  }

  lemma DroppingRun() returns (run: seq<State>, events: seq<Event>)
    ensures IsRun(run, events) && Handling(run[|events|], Drop(0), 1, 0)
  {
    run, events := TakenRun();
    run, events := Push(run, events, Tick(3));
    assert Handling(run[|events|], TestSync(0), 1, 0);
    run, events := Push(run, events, Tick(3));
    assert Handling(run[|events|], CopyCall(0), 1, 0);
    run, events := Push(run, events, Tick(3));
  }

  /** It drops the last reference. */
  lemma DroppedRun() returns (run: seq<State>, events: seq<Event>)
    ensures IsRun(run, events) && Handling(run[|events|], FreeCall(0), 0, 0)
  {
    run, events := DroppingRun();
    run, events := Push(run, events, Tick(3));
  }

  /** And frees the call. */
  lemma FreedRun() returns (run: seq<State>, events: seq<Event>)
    ensures IsRun(run, events) && Handling(run[|events|], RunAsync(0), 0, 1)
  {
    run, events := DroppedRun();
    run, events := Push(run, events, Tick(3));
  }

  const TEST: Request := Request(1, false, false, Test)

  /** A plain message to cpu 0 brings its next IPI. */
  predicate Prods(s: State, n: nat, pc: Pc, freed: nat) {
    Waits(s, n) && s.calls[0].ref == 0 && s.calls[0].freed == freed && 4 in s.acts && s.acts[4] == Act(1, pc, map[])
  }

  lemma ProddingRun(was: seq<State>, before: seq<Event>, pc: Pc, freed: nat)
    returns (run: seq<State>, events: seq<Event>)
    requires IsRun(was, before) && Handling(was[|before|], pc, 0, freed)
    ensures IsRun(run, events) && Prods(run[|events|], 6, Enqueue(1, TEST), freed)
  {
    run, events := Push(was, before, SendTest(1, 0, 1, false));
    assert Prods(run[|events|], 5, Enqueue(0, TEST), freed);
    run, events := Push(run, events, Tick(4));
  }

  lemma ProddedRun(was: seq<State>, before: seq<Event>, pc: Pc, freed: nat)
    returns (run: seq<State>, events: seq<Event>)
    requires IsRun(was, before) && Handling(was[|before|], pc, 0, freed)
    ensures IsRun(run, events) && Waits(run[|events|], 6) && run[|events|].calls[0].freed == freed
    ensures 0 in run[|events|].net.ipi && run[|events|].calls[0].ref == 0
  {
    run, events := ProddingRun(was, before, pc, freed);
    run, events := Push(run, events, Tick(4));
    assert Prods(run[|events|], 6, Raise(TEST), freed);
    run, events := Push(run, events, Tick(4));
  }

  /** Activity 6 on cpu 0 is about the stranded message, and nobody has a reference any more. */
  predicate Doomed(s: State, pc: Pc, freed: nat) {
    && s.fault == NoFault && 6 in s.acts && s.acts[6] == Act(0, pc, map[]) && 0 in s.calls && s.calls[0].ref == 0
    && s.calls[0].freed == freed && Heap(1) in s.net.msgs && s.net.msgs[Heap(1)] == Msg(RemoteCall(0), true)
  }

  lemma DoomedRun(was: seq<State>, before: seq<Event>, pc: Pc, freed: nat) returns (run: seq<State>, events: seq<Event>)
    requires IsRun(was, before) && Handling(was[|before|], pc, 0, freed)
    ensures IsRun(run, events) && Doomed(run[|events|], Got(Heap(1)), freed)
  {
    run, events := ProddedRun(was, before, pc, freed);
    run, events := Push(run, events, Deliver(0));
    assert Waits(run[|events|], 7) && Doomed(run[|events|], Accepted, freed);
    run, events := Push(run, events, Tick(6));
    assert Waits(run[|events|], 7) && Doomed(run[|events|], Loop, freed);
    run, events := Push(run, events, Tick(6));
  }

  lemma CheckingRun(was: seq<State>, before: seq<Event>, pc: Pc, freed: nat)
    returns (run: seq<State>, events: seq<Event>)
    requires IsRun(was, before) && Handling(was[|before|], pc, 0, freed)
    ensures IsRun(run, events)
    ensures var s := run[|events|];
      && s.fault == NoFault && 6 in s.acts && s.acts[6] == Act(0, Check(0), map[])
      && 0 in s.calls && s.calls[0].ref == 0 && s.calls[0].freed == freed
  {
    run, events := DoomedRun(was, before, pc, freed);
    run, events := Push(run, events, Tick(6));
    assert Doomed(run[|events|], Copied(Heap(1), Msg(RemoteCall(0), true)), freed);
    run, events := Push(run, events, Tick(6));
  }

  /** When cpu 0 handles it, it uses freed memory. */
  lemma UseAfterFreeRun() returns (run: seq<State>, events: seq<Event>)
    ensures IsRun(run, events) && run[|events|].fault == UseAfterFree
  {
    run, events := FreedRun();
    run, events := CheckingRun(run, events, RunAsync(0), 1);
    run, events := Push(run, events, Tick(6));
  }

  /** If it comes before the call is freed, it panics. */
  lemma PanicRun() returns (run: seq<State>, events: seq<Event>)
    ensures IsRun(run, events) && run[|events|].fault == RefCountPanic
  {
    run, events := DroppedRun();
    run, events := CheckingRun(run, events, FreeCall(0), 0);
    run, events := Push(run, events, Tick(6));
  }
}
