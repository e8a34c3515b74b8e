/** What every step of the scheduler keeps, and what that means for every run. */
module SchedSafety {
  import opened Sched

  /** Cpu c moves processes between the queue and itself; everything else stays. */
  ghost predicate Moves(s: State, s': State, c: Cpu) {
    && c < |s.cores| && |s'.cores| == |s.cores| && s'.cores == s.cores[c := s'.cores[c]]
    && s'.cores[c].idle == s.cores[c].idle
    && s'.dead == s.dead && s'.fault == NoFault
    && (forall p | p in Own(s'.cores[c]) :: p in Own(s.cores[c]) || p in s.queue)
    && (forall p | p in s'.queue :: p in s.queue || p in Own(s.cores[c]))
    && (forall p | p in s'.queue :: p !in Own(s'.cores[c]) && p !in s.dead && p in s'.saved)
    && (forall p | p in s.saved && p !in Own(s.cores[c]) :: p in s'.saved)
    && (forall p :: p in s'.placed <==>
       p in s.placed && (p in s.queue || p in Own(s.cores[c]) ==> p in s'.queue || p in Own(s'.cores[c])))
  }

  lemma OthersOk(s: State, s': State, c: Cpu, d: Cpu)
    requires Inv(s) && Moves(s, s', c) && d < |s.cores| && d != c
    ensures CoreOk(s', s'.cores[d]) && Own(s'.cores[c]) !! Own(s'.cores[d])
  {
    assert CoreOk(s, s.cores[d]) && s'.cores[d] == s.cores[d];
    assert Own(s.cores[c]) !! Own(s.cores[d]) by {
      assert c < d ==> Own(s.cores[c]) !! Own(s.cores[d]);
      assert d < c ==> Own(s.cores[d]) !! Own(s.cores[c]);
    }
    forall p | p in Own(s.cores[d]) ensures p !in Own(s'.cores[c]) {
      assert p in s.queue ==> QueuedOk(s, p);
    }
  }

  lemma QueueOk(s: State, s': State, c: Cpu, p: Proc)
    requires Inv(s) && Moves(s, s', c) && p in s'.queue
    ensures QueuedOk(s', p)
  {
    forall d | 0 <= d < |s'.cores| ensures p !in Own(s'.cores[d]) {
      if d != c {
        assert s'.cores[d] == s.cores[d];
        if p in s.queue { assert QueuedOk(s, p); }
          else { assert Own(s.cores[if c < d then c else d]) !! Own(s.cores[if c < d then d else c]); }
      }
    }
  }

  lemma SameIdle(s: State, s': State, c: Cpu, p: Proc)
    requires Moves(s, s', c)
    ensures IsIdle(s', p) <==> IsIdle(s, p)
  {
    assert forall d | 0 <= d < |s.cores| :: s'.cores[d].idle == s.cores[d].idle;
  }

  /** A placed process stays somewhere. */
  lemma PlacedOk(s: State, s': State, c: Cpu, p: Proc)
    requires Inv(s) && Moves(s, s', c)
    ensures p in s'.placed <==> Somewhere(s', p) && !IsIdle(s', p)
  {
    SameIdle(s, s', c, p);
    assert p in s.placed <==> Somewhere(s, p) && !IsIdle(s, p);
    if Somewhere(s, p) && p !in s.queue && p !in Own(s.cores[c]) {
      var d :| 0 <= d < |s.cores| && p in Own(s.cores[d]);
      assert p in Own(s'.cores[d]);
    }
    if Somewhere(s', p) && p !in s'.queue && p !in Own(s'.cores[c]) {
      var d :| 0 <= d < |s'.cores| && p in Own(s'.cores[d]);
      assert p in Own(s.cores[d]);
      OthersOk(s, s', c, d);
      assert Own(s.cores[if c < d then c else d]) !! Own(s.cores[if c < d then d else c]);
      assert p in s.queue ==> QueuedOk(s, p);
    }
    assert p in Own(s.cores[c]) ==> Somewhere(s, p);
    assert p in Own(s'.cores[c]) ==> Somewhere(s', p);
  }

  lemma MovesKeep(s: State, s': State, c: Cpu)
    requires Inv(s) && Moves(s, s', c) && CoreOk(s', s'.cores[c]) && Distinct(s'.queue)
    ensures Inv(s')
  {
    forall d | 0 <= d < |s'.cores| ensures CoreOk(s', s'.cores[d]) { if d != c { OthersOk(s, s', c, d); } }
    forall a, b | 0 <= a < b < |s'.cores| ensures Own(s'.cores[a]) !! Own(s'.cores[b]) {
      if a == c { OthersOk(s, s', c, b); } else if b == c { OthersOk(s, s', c, a); }
        else { assert Own(s.cores[a]) !! Own(s.cores[b]); }
    }
    forall p | p in s'.queue ensures QueuedOk(s', p) { QueueOk(s, s', c, p); }
    forall p ensures p in s'.placed <==> Somewhere(s', p) && !IsIdle(s', p) { PlacedOk(s, s', c, p); }
  }

  // ---------- the steps of schedule() ----------

  /** A step that leaves queue, saved and placed alone and gives the cpu no new process. */
  lemma LocalStep(s: State, s': State, c: Cpu, k: Core)
    requires Inv(s) && c < |s.cores| && s' == Set(s, c, k) && CoreOk(s', k) && k.idle == s.cores[c].idle
    requires Own(k) == Own(s.cores[c])
    ensures Inv(s')
  {
    forall p | p in s'.queue ensures p !in Own(k) && p !in s.dead && p in s.saved { assert QueuedOk(s, p); }
    MovesKeep(s, s', c);
  }

  lemma PickKeeps(s: State, c: Cpu)
    requires Inv(s) && c < |s.cores| && s.cores[c].phase.Deciding? && s.cores[c].held == 0
    ensures Inv(Pick(s, c))
  {
    var k, s' := s.cores[c], Pick(s, c);
    assert CoreOk(s, k);
    if s.queue != [] { assert QueuedOk(s, s.queue[0]); }
    forall p | p in s'.queue ensures p in s.queue && p !in Own(s'.cores[c]) && p !in s.dead && p in s.saved {
      assert p in s.queue && QueuedOk(s, p);
      var i :| 0 <= i < |s.queue| - 1 && s.queue[1..][i] == p;
      assert s.queue[i + 1] == p && s.queue[0] != p;
    }
    MovesKeep(s, s', c);
  }

  lemma BeginKeeps(s: State, c: Cpu)
    requires Inv(s) && c < |s.cores| && s.cores[c].held == 0 && s.cores[c].phase.Picked?
    requires s.cores[c].curr != Some(s.cores[c].phase.next)
    ensures Inv(Begin(s, c, s.cores[c].phase.next))
  {
    var k := s.cores[c];
    assert CoreOk(s, k);
    LocalStep(s, Begin(s, c, k.phase.next), c, k.(phase := Switching(k.phase.next), irqs := false));
  }

  lemma SetCurrKeeps(s: State, c: Cpu)
    requires Inv(s) && c < |s.cores| && s.cores[c].phase.Switching?
    ensures Inv(Advance(s, c))
  {
    var k := s.cores[c];
    assert CoreOk(s, k);
    LocalStep(s, Advance(s, c), c, k.(phase := CurrSet(k.curr), curr := Some(k.phase.next)));
  }

  lemma SaveKeeps(s: State, c: Cpu)
    requires Inv(s) && c < |s.cores| && s.cores[c].phase.CurrSet?
    ensures Inv(Advance(s, c))
  {
    var k, s' := s.cores[c], Advance(s, c);
    assert CoreOk(s, k);
    forall p | p in s'.queue ensures p !in Own(s'.cores[c]) && p !in s.dead && p in s'.saved { assert QueuedOk(s, p); }
    MovesKeep(s, s', c);
  }

  lemma LoadKeeps(s: State, c: Cpu)
    requires Inv(s) && c < |s.cores| && s.cores[c].phase.Saved?
    ensures Inv(Advance(s, c))
  {
    var k, s' := s.cores[c], Advance(s, c);
    assert CoreOk(s, k);
    forall p | p in s'.queue ensures p !in Own(s'.cores[c]) && p !in s.dead && p in s'.saved { assert QueuedOk(s, p); }
    MovesKeep(s, s', c);
  }

  /** The process is queued only after its stack has been left. */
  lemma PutKeeps(s: State, c: Cpu)
    requires Inv(s) && c < |s.cores| && s.cores[c].phase.OnNext?
    ensures Inv(Advance(s, c))
  {
    var k, s' := s.cores[c], Advance(s, c);
    assert CoreOk(s, k);
    forall p | p in s'.queue
      ensures (p in s.queue || p in Own(k)) && p !in Own(s'.cores[c]) && p !in s.dead && p in s'.saved {
      if p in s.queue { assert QueuedOk(s, p); }
    }
    forall q | q in Own(k) ensures q !in s.queue { assert q in s.queue ==> QueuedOk(s, q); }
    forall p
      ensures p in s'.placed <==>
        p in s.placed && (p in s.queue || p in Own(k) ==> p in s'.queue || p in Own(s'.cores[c])) {
      assert p in s.queue ==> p in s'.queue;
    }
    MovesKeep(s, s', c);
  }

  lemma ReturnKeeps(s: State, c: Cpu)
    requires Inv(s) && c < |s.cores| && s.cores[c].held == 0
    requires var k := s.cores[c];
      k.phase.Deciding? || k.phase.PrevPut? || (k.phase.Picked? && k.curr == Some(k.phase.next))
    ensures Inv(Return(s, c))
  {
    var k := s.cores[c];
    assert CoreOk(s, k);
    LocalStep(s, Return(s, c), c, k.(phase := Running, count := 0, irqs := true));
  }

  lemma AdvanceKeeps(s: State, c: Cpu)
    requires Inv(s) && Enabled(s, Step(c))
    ensures Inv(Advance(s, c))
  {
    var k := s.cores[c];
    if k.phase.Deciding? {
      if NeedResched(s, k) { PickKeeps(s, c); } else { ReturnKeeps(s, c); }
    } else if k.phase.Picked? {
      if k.curr == Some(k.phase.next) { ReturnKeeps(s, c); } else { BeginKeeps(s, c); }
    } else if k.phase.Switching? {
      SetCurrKeeps(s, c);
    } else if k.phase.CurrSet? {
      SaveKeeps(s, c);
    } else if k.phase.Saved? {
      LoadKeeps(s, c);
    } else if k.phase.OnNext? {
      PutKeeps(s, c);
    } else {
      ReturnKeeps(s, c);
    }
  }

  // ---------- the other events ----------

  lemma EnqueueKeeps(s: State, p: Proc)
    requires Inv(s) && IsNew(s, p)
    ensures Inv(Apply(s, Enqueue(p)))
  {
    var s' := Apply(s, Enqueue(p));
    forall c | 0 <= c < |s'.cores| ensures CoreOk(s', s'.cores[c]) { assert CoreOk(s, s.cores[c]); }
    forall q | q in s'.queue ensures QueuedOk(s', q) { if q != p { assert QueuedOk(s, q); } }
    forall q ensures q in s'.placed <==> Somewhere(s', q) && !IsIdle(s', q) {
      assert q in s.placed <==> Somewhere(s, q) && !IsIdle(s, q);
      assert IsIdle(s', q) <==> IsIdle(s, q);
      assert q in s'.queue <==> q in s.queue || q == p;
      assert forall c | 0 <= c < |s.cores| :: s.cores[c].idle in Own(s.cores[c]);
    }
  }

  lemma {:induction false} WithoutDistinct(q: seq<Proc>, p: Proc)
    requires Distinct(q) && p in q
    ensures Distinct(Without(q, p)) && forall x :: x in Without(q, p) <==> x in q && x != p
  {
    if q[0] != p {
      WithoutDistinct(q[1..], p);
      var r := Without(q[1..], p);
      assert forall x :: x in q <==> x == q[0] || x in q[1..];
      forall i | 0 <= i < |r| ensures r[i] != q[0] { assert r[i] in r && r[i] in q[1..]; }
    } else {
      assert forall x :: x in q <==> x == q[0] || x in q[1..];
      forall i | 0 <= i < |q[1..]| ensures q[1..][i] != p { assert q[1..][i] == q[i + 1]; }
    }
  }

  /** Taking a process out leaves the others in order. */
  lemma {:induction false} WithoutIs(a: seq<Proc>, p: Proc, b: seq<Proc>)
    requires p !in a
    ensures Without(a + [p] + b, p) == a + b
  {
    if a == [] {
      assert [] + [p] + b == [p] + b && ([p] + b)[1..] == b;
    } else {
      assert (a + [p] + b)[1..] == a[1..] + [p] + b;
      WithoutIs(a[1..], p, b);
      assert [a[0]] + (a[1..] + b) == a + b;
    }
  }

  lemma DequeueKeeps(s: State, p: Proc)
    requires Inv(s) && p in s.queue
    ensures Inv(Apply(s, Dequeue(p)))
  {
    var s' := Apply(s, Dequeue(p));
    WithoutDistinct(s.queue, p);
    forall c | 0 <= c < |s'.cores| ensures CoreOk(s', s'.cores[c]) { assert CoreOk(s, s.cores[c]); }
    forall q | q in s'.queue ensures QueuedOk(s', q) { assert QueuedOk(s, q); }
    assert QueuedOk(s, p);
    forall q ensures q in s'.placed <==> Somewhere(s', q) && !IsIdle(s', q) {
      assert q in s.placed <==> Somewhere(s, q) && !IsIdle(s, q);
      assert IsIdle(s', q) <==> IsIdle(s, q);
    }
  }

  lemma ExitKeeps(s: State, c: Cpu)
    requires Inv(s) && Enabled(s, Exit(c))
    ensures Inv(Apply(s, Exit(c)))
  {
    var s', p := Apply(s, Exit(c)), s.cores[c].curr.p;
    assert CoreOk(s, s.cores[c]);
    forall d | 0 <= d < |s'.cores| ensures CoreOk(s', s'.cores[d]) {
      assert CoreOk(s, s.cores[d]);
      if d != c { assert Own(s.cores[if c < d then c else d]) !! Own(s.cores[if c < d then d else c]); }
    }
    forall q | q in s'.queue ensures QueuedOk(s', q) { assert QueuedOk(s, q); }
    forall q ensures q in s'.placed <==> Somewhere(s', q) && !IsIdle(s', q) {
      assert q in s.placed <==> Somewhere(s, q) && !IsIdle(s, q);
      assert Somewhere(s', q) <==> Somewhere(s, q);
      assert IsIdle(s', q) <==> IsIdle(s, q);
    }
  }

  lemma InvStep(s: State, e: Event)
    requires Inv(s) && Enabled(s, e)
    ensures Inv(Apply(s, e))
  {
    match e
    case Enqueue(p) => EnqueueKeeps(s, p);
    case Dequeue(p) => DequeueKeeps(s, p);
    case Exit(c) => ExitKeeps(s, c);
    case Step(c) => AdvanceKeeps(s, c);
    case Disable(c) =>
      assert CoreOk(s, s.cores[c]);
      LocalStep(s, Apply(s, e), c, s.cores[c].(count := s.cores[c].count + 1, held := s.cores[c].held + 1));
    case Enable(c) =>
      assert CoreOk(s, s.cores[c]);
      LocalStep(s, Apply(s, e), c, s.cores[c].(count := s.cores[c].count - 1, held := s.cores[c].held - 1));
    case SetIrqs(c, on) =>
      assert CoreOk(s, s.cores[c]);
      LocalStep(s, Apply(s, e), c, s.cores[c].(irqs := on));
    case Resched(c) =>
      assert CoreOk(s, s.cores[c]);
      LocalStep(s, Apply(s, e), c, s.cores[c].(resched := true));
    case Schedule(c) =>
      assert CoreOk(s, s.cores[c]);
      if CanPreempt(s.cores[c]) { LocalStep(s, Apply(s, e), c, s.cores[c].(phase := Deciding, count := 1)); }
  }

  lemma BootInv(s: State)
    requires Boot(s)
    ensures Inv(s)
  {
    forall p ensures p in s.placed <==> Somewhere(s, p) && !IsIdle(s, p) {
      if Somewhere(s, p) {
        var c :| 0 <= c < |s.cores| && p in Own(s.cores[c]);
        assert s.cores[c].idle == p;
      }
    }
  }

  lemma {:induction false} RunInv(run: seq<State>, events: seq<Event>, i: nat)
    requires IsRun(run, events) && i < |run|
    ensures Inv(run[i])
    decreases i
  {
    if i == 0 {
      BootInv(run[0]);
    } else {
      RunInv(run, events, i - 1);
      assert StepAt(run, events, i - 1);
      InvStep(run[i - 1], events[i - 1]);
    }
  }

  // ---------- theorems ----------

  /** No ASSERT fires: the picked process is runnable, its stack pointer is current, preemption is balanced. */
  lemma NoAssertFires(run: seq<State>, events: seq<Event>, i: nat)
    requires IsRun(run, events) && i < |run|
    ensures run[i].fault == NoFault
  {
    RunInv(run, events, i);
  }

  /** No process is current on two cpus, and no two cpus use the same kernel stack. */
  lemma OneCpuEach(run: seq<State>, events: seq<Event>, i: nat, c: Cpu, d: Cpu)
    requires IsRun(run, events) && i < |run| && c < |run[i].cores| && d < |run[i].cores| && c != d
    ensures var k, l := run[i].cores[c], run[i].cores[d];
      (k.curr.Some? ==> k.curr != l.curr && k.curr != l.stack) && (k.stack.Some? ==> k.stack != l.stack)
  {
    RunInv(run, events, i);
    var s := run[i];
    assert CoreOk(s, s.cores[c]) && CoreOk(s, s.cores[d]);
    assert Own(s.cores[if c < d then c else d]) !! Own(s.cores[if c < d then d else c]);
  }

  /** A process in the run queue is runnable, can be resumed, and no cpu runs it or stands on its stack. */
  lemma QueuedAtRest(run: seq<State>, events: seq<Event>, i: nat, p: Proc)
    requires IsRun(run, events) && i < |run| && p in run[i].queue
    ensures var s := run[i];
      && p !in s.dead && p in s.saved
      && forall c | 0 <= c < |s.cores| :: s.cores[c].curr != Some(p) && s.cores[c].stack != Some(p)
  {
    RunInv(run, events, i);
    var s := run[i];
    assert QueuedOk(s, p);
    forall c | 0 <= c < |s.cores|
      ensures s.cores[c].curr != Some(p) && s.cores[c].stack != Some(p) { assert CoreOk(s, s.cores[c]); }
  }

  /** An enqueued process is in exactly one place: once in the queue, or with exactly one cpu. */
  lemma ExactlyOnePlace(run: seq<State>, events: seq<Event>, i: nat, p: Proc)
    requires IsRun(run, events) && i < |run| && p in run[i].placed
    ensures var s := run[i];
      && (p in s.queue || exists c :: 0 <= c < |s.cores| && p in Own(s.cores[c]))
      && (forall c | 0 <= c < |s.cores| && p in Own(s.cores[c]) :: p !in s.queue)
      && (forall c, d | 0 <= c < |s.cores| && 0 <= d < |s.cores| && p in Own(s.cores[c]) && p in Own(s.cores[d]) ::
         c == d)
      && (forall a, b | 0 <= a < |s.queue| && 0 <= b < |s.queue| && s.queue[a] == p && s.queue[b] == p :: a == b)
  {
    RunInv(run, events, i);
    var s := run[i];
    assert Somewhere(s, p);
    assert p in s.queue ==> QueuedOk(s, p);
    forall c, d | 0 <= c < d < |s.cores| ensures !(p in Own(s.cores[c]) && p in Own(s.cores[d])) {
      assert Own(s.cores[c]) !! Own(s.cores[d]);
    }
  }

  /** schedule() is never entered again on a cpu that is inside it. */
  lemma NotReentered(run: seq<State>, events: seq<Event>, i: nat, c: Cpu)
    requires IsRun(run, events) && i < |run| && c < |run[i].cores| && !run[i].cores[c].phase.Running?
    ensures Apply(run[i], Schedule(c)) == run[i]
  {
    RunInv(run, events, i);
    assert CoreOk(run[i], run[i].cores[c]);
  }
}
