/** Runs that go well: a remote call that returns, and an unmapping that reaches another cpu. */
module IpmRuns {
  import opened Ipm
  import opened IpmBroadcast

  // ---------- exec_remote_call from cpu 0 to cpu 1, waiting ----------

  const SYNC: Request := Request(2, false, true, RemoteCall(0))

  predicate Called(s: State, acts: map<ActId, Act>, n: nat, ref: int, completed: int) {
    && s.cpus == 2 && s.mmu.online && s.fault == NoFault && s.nextId == n && s.acts == acts
    && 0 in s.calls && s.calls[0].sync && s.calls[0].ref == ref && s.calls[0].completed == completed
    && s.calls[0].freed == 0
  }

  /** Its message is in the queue of cpu 1. */
  predicate Posted(s: State, acts: map<ActId, Act>, n: nat) {
    && Called(s, acts, n, 2, 0) && s.calls[0].finished == multiset{} && s.net.Queue(1) == [Heap(1)]
    && Heap(1) in s.net.msgs && s.net.msgs[Heap(1)] == Msg(RemoteCall(0), true)
  }

  lemma PostedRun() returns (run: seq<State>, events: seq<Event>)
    ensures IsRun(run, events) && Posted(run[|events|], map[0 := Act(0, Enqueue(2, SYNC), map[])], 2)
    ensures run[|events|].net.ipi == {}
  {
    run, events := [Boot(2, map[])], [];
    assert run[0] == Boot(run[0].cpus, map[]);
    run, events := Push(run, events, BringUp);
    run, events := Push(run, events, CallOne(0, 1, true));
    assert run[|events|].acts == map[0 := Act(0, Enqueue(1, SYNC), map[])];
    run, events := Push(run, events, Tick(0));
  }

  lemma NotifiedRun() returns (run: seq<State>, events: seq<Event>)
    ensures IsRun(run, events) && Posted(run[|events|], map[0 := Act(0, Await(SYNC), map[])], 2)
    ensures 1 in run[|events|].net.ipi
  {
    run, events := PostedRun();
    run, events := Push(run, events, Tick(0));
    assert Posted(run[|events|], map[0 := Act(0, Raise(SYNC), map[])], 2) && run[|events|].net.ipi == {};
    run, events := Push(run, events, Tick(0));
  }

  lemma DeliveredRun() returns (run: seq<State>, events: seq<Event>)
    ensures IsRun(run, events)
    ensures Posted(run[|events|], map[0 := Act(0, Await(SYNC), map[]), 2 := Act(1, Accepted, map[])], 3)
  {
    run, events := NotifiedRun();
    run, events := Push(run, events, Deliver(1));
  }

  /** Activity 2 handles it. */
  function Both(pc: Pc): map<ActId, Act> { map[0 := Act(0, Await(SYNC), map[]), 2 := Act(1, pc, map[])] }

  lemma DispatchedRun() returns (run: seq<State>, events: seq<Event>)
    ensures IsRun(run, events) && Called(run[|events|], Both(Check(0)), 3, 2, 0)
    ensures run[|events|].calls[0].finished == multiset{} && run[|events|].net.Queue(1) == []
  {
    run, events := DeliveredRun();
    run, events := Push(run, events, Tick(2));
    assert Posted(run[|events|], Both(Loop), 3);
    run, events := Push(run, events, Tick(2));
    var s := run[|events|];
    assert Called(s, Both(Got(Heap(1))), 3, 2, 0) && s.net.Queue(1) == [] && s.calls[0].finished == multiset{};
    assert Heap(1) in s.net.msgs && s.net.msgs[Heap(1)] == Msg(RemoteCall(0), true);
    run, events := Push(run, events, Tick(2));
    run, events := Push(run, events, Tick(2));
  }

  lemma ExecutedRun() returns (run: seq<State>, events: seq<Event>)
    ensures IsRun(run, events) && Called(run[|events|], Both(DropSync(0)), 3, 2, 0)
    ensures run[|events|].calls[0].finished == multiset{1} && run[|events|].net.Queue(1) == []
  {
    run, events := DispatchedRun();
    run, events := Push(run, events, Tick(2));
    var s := run[|events|];
    assert Called(s, Both(TestSync(0)), 3, 2, 0) && s.net.Queue(1) == [] && s.calls[0].finished == multiset{};
    run, events := Push(run, events, Tick(2));
    run, events := Push(run, events, Tick(2));
  }

  lemma CompletedRun() returns (run: seq<State>, events: seq<Event>)
    ensures IsRun(run, events) && Called(run[|events|], map[0 := Act(0, Await(SYNC), map[])], 3, 1, 1)
    ensures run[|events|].calls[0].finished == multiset{1}
  {
    run, events := ExecutedRun();
    run, events := Push(run, events, Tick(2));
    var s := run[|events|];
    assert Called(s, Both(Complete(0)), 3, 1, 0) && s.net.Queue(1) == [] && s.calls[0].finished == multiset{1};
    run, events := Push(run, events, Tick(2));
    run, events := Push(run, events, Tick(2));
  }

  lemma CheckedRun() returns (run: seq<State>, events: seq<Event>)
    ensures IsRun(run, events) && Called(run[|events|], map[0 := Act(0, FreeSent(0), map[])], 3, 1, 1)
    ensures run[|events|].calls[0].finished == multiset{1}
  {
    run, events := CompletedRun();
    run, events := Push(run, events, Tick(0));
    var s := run[|events|];
    assert Called(s, map[0 := Act(0, CheckRef(0), map[])], 3, 1, 1) && s.calls[0].finished == multiset{1};
    run, events := Push(run, events, Tick(0));
  }

  /** The sender has returned, the function ran on cpu 1 once, the struct is freed once. */
  lemma SyncCallRun() returns (run: seq<State>, events: seq<Event>)
    ensures IsRun(run, events) && run[|events|].fault == NoFault && run[|events|].acts == map[]
    ensures 0 in run[|events|].calls && run[|events|].calls[0].finished == multiset{1}
    ensures run[|events|].calls[0].freed == 1
  {
    run, events := CheckedRun();
    run, events := Push(run, events, Tick(0));
  }

  /** An asynchronous call runs too, after its struct was freed. */
  lemma AsyncCallRun() returns (run: seq<State>, events: seq<Event>)
    ensures IsRun(run, events) && 0 in run[|events|].calls && !run[|events|].calls[0].sync
    ensures 1 in run[|events|].calls[0].finished && run[|events|].calls[0].freed == 1 && run[|events|].fault == NoFault
  {
    run, events := FreedRun();
    run, events := Push(run, events, Tick(3));
  }

  // ---------- paging_unmap_in on cpu 0 of a page that cpu 1 has cached ----------

  const STALE: Translation := Translation(5, 9)

  /** Page 5 is gone from the page table, and cpu 1 still has it in its TLB. */
  predicate Stale(s: State, acts: map<ActId, Act>, n: nat) {
    && s.cpus == 2 && s.mmu.online && s.fault == NoFault && s.nextId == n && s.acts == acts
    && s.mmu.pt == map[] && s.mmu.Tlb(1) == {STALE}
  }

  function Pager(pc: Pc): Act { Act(0, pc, map[5 := {}]) }

  lemma LoadedRun() returns (run: seq<State>, events: seq<Event>)
    ensures IsRun(run, events)
    ensures var s := run[|events|];
      && s == Boot(2, map[]).(mmu := s.mmu) && s.mmu.online && s.mmu.pt == map[5 := 9] && s.mmu.Tlb(1) == {STALE}
  {
    run, events := [Boot(2, map[])], [];
    assert run[0] == Boot(run[0].cpus, map[]);
    run, events := Push(run, events, BringUp);
    run, events := Push(run, events, MapPage(5, 9));
    run, events := Push(run, events, Load(1, 5));
  }

  lemma StaleRun() returns (run: seq<State>, events: seq<Event>)
    ensures IsRun(run, events) && Stale(run[|events|], map[0 := Pager(Remove([]))], 1)
    ensures run[|events|].net.queues == map[] && run[|events|].net.ipi == {}
  {
    run, events := LoadedRun();
    run, events := Push(run, events, Unmap(0, [5]));
    var s := run[|events|];
    assert s.acts == map[0 := Act(0, Remove([5]), map[])] && [5][1..] == [];
    run, events := Push(run, events, Tick(0));
  }

  /** The shootdown is at `pc`, and nothing is queued. */
  predicate Shooting(s: State, pc: Pc) {
    && Stale(s, map[0 := Pager(pc)], 1) && s.net.queues == map[] && s.net.ipi == {}
    && Stack(0) in s.net.msgs && s.net.msgs[Stack(0)] == Msg(TlbShootdown(0), false) && 0 in s.net.waits
  }

  lemma StartedRun() returns (run: seq<State>, events: seq<Event>)
    ensures IsRun(run, events) && Shooting(run[|events|], NextTarget(0))
  {
    run, events := StaleRun();
    run, events := Push(run, events, Tick(0));
    assert Stale(run[|events|], map[0 := Pager(LocalFlush)], 1);
    run, events := Push(run, events, Tick(0));
    assert Stale(run[|events|], map[0 := Pager(Decide)], 1);
    run, events := Push(run, events, Tick(0));
  }

  /** Its message is in the queue of cpu 1. */
  predicate Shot(s: State, acts: map<ActId, Act>, n: nat) {
    && Stale(s, acts, n) && s.net.Queue(1) == [Stack(0)]
    && Stack(0) in s.net.msgs && s.net.msgs[Stack(0)] == Msg(TlbShootdown(0), false)
    && 0 in s.net.waits && s.net.waits[0] == 1
  }

  lemma ShotRun() returns (run: seq<State>, events: seq<Event>)
    ensures IsRun(run, events) && Shot(run[|events|], map[0 := Pager(RaiseTlb(1))], 1) && run[|events|].net.ipi == {}
  {
    run, events := StartedRun();
    run, events := Push(run, events, Tick(0));
    assert Shooting(run[|events|], NextTarget(1));
    run, events := Push(run, events, Tick(0));
    assert Shooting(run[|events|], SendTlb(1)) && run[|events|].net.waits[0] == 1;
    run, events := Push(run, events, Tick(0));
  }

  function Pair(pc: Pc): map<ActId, Act> { map[0 := Pager(AwaitTlb(1)), 1 := Act(1, pc, map[])] }

  lemma ReceivedRun() returns (run: seq<State>, events: seq<Event>)
    ensures IsRun(run, events) && Shot(run[|events|], Pair(Loop), 2)
  {
    run, events := ShotRun();
    run, events := Push(run, events, Tick(0));
    assert Shot(run[|events|], map[0 := Pager(AwaitTlb(1))], 1) && 1 in run[|events|].net.ipi;
    run, events := Push(run, events, Deliver(1));
    assert Shot(run[|events|], Pair(Accepted), 2);
    run, events := Push(run, events, Tick(1));
  }

  /** The handler has it in its hands. */
  predicate Held(s: State, pc: Pc) {
    && Stale(s, Pair(pc), 2) && Stack(0) in s.net.msgs && s.net.msgs[Stack(0)] == Msg(TlbShootdown(0), false)
    && 0 in s.net.waits && s.net.waits[0] == 1
  }

  lemma HeldRun() returns (run: seq<State>, events: seq<Event>)
    ensures IsRun(run, events) && Held(run[|events|], Flush(0))
  {
    run, events := ReceivedRun();
    run, events := Push(run, events, Tick(1));
    assert Held(run[|events|], Got(Stack(0)));
    run, events := Push(run, events, Tick(1));
    assert Held(run[|events|], Copied(Stack(0), Msg(TlbShootdown(0), false)));
    run, events := Push(run, events, Tick(1));
  }

  /** paging_unmap_in has returned, and cpu 1 has forgotten the page. */
  lemma UnmapRun() returns (run: seq<State>, events: seq<Event>)
    ensures IsRun(run, events) && 0 in run[|events|].acts && run[|events|].acts[0].pc == Returned
    ensures run[|events|].fault == NoFault && run[|events|].mmu.pt == map[] && run[|events|].mmu.Tlb(1) == {}
  {
    run, events := AckedRun();
    run, events := Push(run, events, Tick(0));
    var s := run[|events|];
    assert s.acts == map[0 := Pager(NextTarget(2)), 1 := Act(1, Loop, map[])] && s.cpus == 2 && s.fault == NoFault;
    run, events := Push(run, events, Tick(0));
  }

  lemma AckedRun() returns (run: seq<State>, events: seq<Event>)
    ensures IsRun(run, events) && run[|events|].acts == Pair(Loop) && run[|events|].cpus == 2
    ensures run[|events|].fault == NoFault && run[|events|].mmu.pt == map[] && run[|events|].mmu.Tlb(1) == {}
    ensures 0 in run[|events|].net.waits && run[|events|].net.waits[0] == 0
  {
    run, events := HeldRun();
    run, events := Push(run, events, Tick(1));
    var s := run[|events|];
    assert s.acts == Pair(Ack(0)) && s.mmu.pt == map[] && s.mmu.Tlb(1) == {} && s.cpus == 2 && s.fault == NoFault;
    assert 0 in s.net.waits && s.net.waits[0] == 1;
    run, events := Push(run, events, Tick(1));
  }
}
