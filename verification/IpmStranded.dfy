/** Stranded messages: exactly which runs leave a message in a queue that nobody attends. */
module IpmStranded {
  import opened Ipm
  import opened IpmTheorems
  import opened IpmAttention
  import opened IpmBroadcast
  import M = IpmMessages

  /** Event x takes the last attendant of c away, and no event up to i brings one. */
  ghost predicate StrandsSince(run: seq<State>, events: seq<Event>, x: nat, i: nat, c: Cpu)
    requires x < i < |run| == |events| + 1
  {
    Loses(run[x], events[x], c) && forall y | x < y < i :: !Regains(run[y], events[y], c)
  }

  lemma AttentionAt(run: seq<State>, events: seq<Event>, i: nat, c: Cpu)
    requires IsRun(run, events) && i < |events|
    ensures Attended(run[i + 1], c) <==>
      Regains(run[i], events[i], c) || (Attended(run[i], c) && !Loses(run[i], events[i], c))
  {
    RunsAreSafe(run, events, i);
    assert StepAt(run, events, i);
    AttentionStep(run[i], run[i + 1], events[i], c);
  }

  lemma {:induction false} UnattendedSince(run: seq<State>, events: seq<Event>, i: nat, c: Cpu) returns (x: nat)
    requires IsRun(run, events) && i < |run| && !Attended(run[i], c)
    ensures x < i && StrandsSince(run, events, x, i, c)
  {
    if i == 0 {
      assert false;
    } else {
      AttentionAt(run, events, i - 1, c);
      if Attended(run[i - 1], c) { x := i - 1; } else { x := UnattendedSince(run, events, i - 1, c); }
    }
  }

  lemma {:induction false} StaysUnattended(run: seq<State>, events: seq<Event>, x: nat, i: nat, c: Cpu)
    requires IsRun(run, events) && x < i < |run| && StrandsSince(run, events, x, i, c)
    ensures !Attended(run[i], c)
  {
    AttentionAt(run, events, i - 1, c);
    if x < i - 1 {
      StaysUnattended(run, events, x, i - 1, c);
    } else {
      LosesIsNoGain(run[x], events[x], c);
    }
  }

  lemma LosesIsNoGain(s: State, e: Event, c: Cpu)
    requires Loses(s, e, c)
    ensures !Regains(s, e, c)
  {
  }

  /** A message is stranded in the queue of c, with no IPI pending, no sender about to raise one and no handler that has
      yet to see the queue empty, if and only if some event moved the last attendant away while the queue held a message
      and since then nobody posted to c and no attendant was moved there. */
  lemma StrandedIff(run: seq<State>, events: seq<Event>, i: nat, c: Cpu)
    requires IsRun(run, events) && i < |run|
    ensures !Attended(run[i], c) <==> exists x: nat :: x < i && StrandsSince(run, events, x, i, c)
  {
    if !Attended(run[i], c) { var x := UnattendedSince(run, events, i, c); }
    if x: nat :| x < i && StrandsSince(run, events, x, i, c) { StaysUnattended(run, events, x, i, c); }
  }

  /** A handler that accepted the IPI of c is moved off c before it disables preemption, or a broadcasting sender that
      has posted to c is moved onto it. */
  predicate MovedAway(s: State, e: Event, c: Cpu) {
    e.Migrate? && e.a in s.acts && Leaves(s.acts[e.a], e.cpu, c)
  }

  predicate Raises(s: State, e: Event, c: Cpu) {
    && e.Tick? && e.a in s.acts
    && (s.acts[e.a].pc == RaiseTlb(c)
        || (s.acts[e.a].pc.Raise? && c in IpiTargets(s.acts[e.a].cpu, s.acts[e.a].pc.req)))
  }

  ghost predicate RaisedSince(run: seq<State>, events: seq<Event>, x: nat, i: nat, c: Cpu)
    requires x < i < |run| == |events| + 1
  {
    exists y: nat | x < y < i :: Raises(run[y], events[y], c)
  }

  /** No message is stranded: a non-empty queue has a pending IPI, a sender about to raise one, or a handler that has
      not yet seen it empty, if after every move that took an attendant away an IPI for that cpu was raised. */
  lemma NothingStranded(run: seq<State>, events: seq<Event>, i: nat, c: Cpu)
    requires IsRun(run, events) && i < |run| && run[i].net.Queue(c) != []
    requires forall x: nat | x < i && MovedAway(run[x], events[x], c) :: RaisedSince(run, events, x, i, c)
    ensures c in run[i].net.ipi || exists a | a in run[i].acts :: Attends(run[i].acts[a], c)
  {
    if !Attended(run[i], c) {
      var x := UnattendedSince(run, events, i, c);
      var y: nat :| x < y < i && Raises(run[y], events[y], c);
      StaysUnattended(run, events, x, y, c);
      assert Attends(run[y].acts[events[y].a], c);
    }
  }

  // ---------- both ways to strand a message ----------

  /** No IPI is pending and nobody is at work, but the queue of c holds a message. */
  predicate Stranded(s: State, c: Cpu) {
    s.net.Queue(c) != [] && s.net.ipi == {} && s.acts == map[] && s.fault == NoFault
  }

  const PLAIN: Request := Request(2, false, false, Test)

  /** Cpu 0 has sent a plain message to cpu 1, whose handler is activity 2. */
  predicate Sent(s: State, ipi: set<Cpu>, acts: map<ActId, Act>) {
    && s.cpus == 2 && s.mmu.online && s.fault == NoFault && s.strayed == {} && s.nextId == (if ipi == {} then 3 else 2)
    && s.net.Queue(0) == [] && s.net.Queue(1) == [Heap(1)] && s.net.ipi == ipi && s.acts == acts
  }

  lemma SentRun() returns (run: seq<State>, events: seq<Event>)
    ensures IsRun(run, events) && Sent(run[|events|], {1}, map[])
  {
    run, events := [Boot(2, map[])], [];
    assert run[0] == Boot(run[0].cpus, map[]);
    run, events := Push(run, events, BringUp);
    run, events := Push(run, events, SendTest(0, 1, 2, false));
    assert run[|events|].acts == map[0 := Act(0, Enqueue(1, PLAIN), map[])];
    run, events := Push(run, events, Tick(0));
    assert run[|events|].acts == map[0 := Act(0, Enqueue(2, PLAIN), map[])];
    run, events := Push(run, events, Tick(0));
    assert run[|events|].acts == map[0 := Act(0, Raise(PLAIN), map[])];
    run, events := Push(run, events, Tick(0));
  }

  /** The handler is moved to cpu 0 before it disables preemption and finds that queue empty. */
  lemma MovedHandlerStrands() returns (run: seq<State>, events: seq<Event>)
    ensures IsRun(run, events) && Stranded(run[|events|], 1) && run[|events|].strayed == {}
  {
    run, events := SentRun();
    run, events := Push(run, events, Deliver(1));
    assert Sent(run[|events|], {}, map[2 := Act(1, Accepted, map[])]);
    run, events := Push(run, events, Migrate(2, 0));
    assert Sent(run[|events|], {}, map[2 := Act(0, Accepted, map[])]);
    run, events := Push(run, events, Tick(2));
    assert Sent(run[|events|], {}, map[2 := Act(0, Loop, map[])]);
    run, events := Push(run, events, Tick(2));
  }

  /** A sender is moved from cpu 1 to cpu 0 in the middle of a broadcast: its IPI leaves out cpu 0. The IPI of cpu 1 is
      still pending. */
  lemma MovedSenderStrands() returns (run: seq<State>, events: seq<Event>)
    ensures IsRun(run, events) && run[|events|].net.Queue(0) != [] && run[|events|].net.ipi == {1}
    ensures run[|events|].acts == map[]
  {
    run, events := RaisedRun();
  }
}
