/**
 Lifetime of struct remote_call_data: the reference count is the number of
 targets that have not dropped it, plus one for a waiting sender. Nothing is said
 of a call whose sender was moved in the middle of its broadcast, and the other
 calls do not depend on it.
 */
module IpmCalls {
  import opened Ipm
  import M = IpmMessages

  /** Targets whose reference is still counted. */
  predicate Counted(p: Phase) {
    p.Unsent? || p.Queued? || p.Held?
  }

  function Counting(call: Call): set<Cpu> {
    set c | c in call.phase && Counted(call.phase[c])
  }

  function Completing(call: Call): set<Cpu> {
    set c | c in call.phase && call.phase[c].Done?
  }

  predicate AllDone(call: Call) {
    forall c | c in call.phase :: call.phase[c].Done?
  }

  /** The target does not use the struct any more. */
  predicate Released(p: Phase) { p.Running? || p.Done? }

  predicate AllReleased(call: Call) {
    forall c | c in call.phase :: Released(call.phase[c])
  }

  /** The handler at `pc` executes a call and has not dropped its reference. */
  predicate Executes(pc: Pc) {
    pc.Check? || pc.TestSync? || pc.CopyCall? || pc.Drop? || pc.RunSync? || pc.DropSync?
  }

  /** The sender of call k. */
  predicate Sends(pc: Pc, k: CallId) {
    || ((pc.Enqueue? || pc.Raise? || pc.Await?) && pc.req.payload == RemoteCall(k))
    || ((pc.CheckRef? || pc.FreeSent?) && pc.call == k)
  }

  predicate CallNeutral(pc: Pc) {
    && !Executes(pc) && !pc.FreeCall? && !pc.RunAsync? && !pc.Complete? && !pc.CheckRef? && !pc.FreeSent? && !pc.Await?
    && ((pc.Enqueue? || pc.Raise?) ==> pc.req.payload == Test)
  }

  /** The cpu whose queue or handler has message m is c. */
  predicate MsgAt(s: State, m: MsgRef, c: Cpu) {
    && m in s.net.loc
    && match s.net.loc[m]
       case Nowhere => false
       case InQueue(d) => d == c
       case HeldBy(h) => h in s.acts && s.acts[h].cpu == c
  }

  predicate CallMsg(s: State, m: MsgRef, k: CallId) {
    m in s.net.msgs && s.net.msgs[m].payload == RemoteCall(k)
  }

  /** How often the function has run on a target in phase p. */
  function Times(s: State, p: Phase): nat {
    match p
    case Held(h) => if h in s.acts && s.acts[h].pc.DropSync? then 1 else 0
    case Dropped(_) => 1
    case Done => 1
    case _ => 0
  }

  predicate PhaseOk(s: State, k: CallId, c: Cpu)
    requires k in s.calls && c in s.calls[k].phase
  {
    var call := s.calls[k];
    && call.finished[c] == Times(s, call.phase[c])
    && match call.phase[c]
       case Unsent => k in s.acts && s.acts[k].pc.Enqueue? && s.acts[k].pc.next <= c
       case Queued(m) => CallMsg(s, m, k) && MsgAt(s, m, c)
       case Held(h) =>
         && h in s.acts && s.acts[h].cpu == c && Executes(s.acts[h].pc) && s.acts[h].pc.call == k
         && (if call.sync then !s.acts[h].pc.CopyCall? && !s.acts[h].pc.Drop?
             else !s.acts[h].pc.RunSync? && !s.acts[h].pc.DropSync?)
       case Freeing(h) =>
         && !call.sync && h in s.acts && s.acts[h].cpu == c && s.acts[h].pc == FreeCall(k)
         && (forall d | d in call.phase && d != c :: Released(call.phase[d]))
       case Running(h) => !call.sync && h in s.acts && s.acts[h].cpu == c && s.acts[h].pc == RunAsync(k)
       case Dropped(h) => call.sync && h in s.acts && s.acts[h].cpu == c && s.acts[h].pc == Complete(k)
       case Done => true
  }

  /** ref_count, completed_count and the number of kfree calls, exactly. */
  predicate Counts(s: State, k: CallId)
    requires k in s.calls
  {
    var call := s.calls[k];
    && call.ref == |Counting(call)| + (if call.sync then 1 else 0)
    && (call.sync ==> call.completed == |Completing(call)|)
    && (if call.sync then call.freed == (if k in s.acts then 0 else 1) && (k !in s.acts ==> AllDone(call))
        else call.freed == (if call.phase != map[] && AllReleased(call) then 1 else 0))
  }

  predicate Exact(s: State, k: CallId)
    requires k in s.calls
  {
    && Counts(s, k) && (forall c | c in s.calls[k].phase :: PhaseOk(s, k, c))
    && (forall c | c in s.calls[k].finished :: c in s.calls[k].phase)
  }

  predicate CallOk(s: State, k: CallId)
    requires k in s.calls
  {
    && k < s.nextId
    && (k in s.acts ==> Sends(s.acts[k].pc, k))
    && (k in s.strayed || Exact(s, k))
  }

  function AllTargets(from: Cpu, req: Request): set<Cpu> {
    Targets(from, if req.broadcast || req.end == 0 then 0 else req.end - 1, req)
  }

  /** Unless call k has strayed, its target c is in phase p. */
  predicate InPhase(s: State, k: CallId, c: Cpu, p: Phase) {
    k in s.calls && (k in s.strayed || (c in s.calls[k].phase && s.calls[k].phase[c] == p))
  }

  predicate ActOk(s: State, a: ActId)
    requires a in s.acts
  {
    var act := s.acts[a];
    && act.cpu < s.cpus && M.PcOk(a, s.cpus, act.pc)
    && (Executes(act.pc) ==> InPhase(s, act.pc.call, act.cpu, Held(a)))
    && (act.pc.FreeCall? ==> InPhase(s, act.pc.call, act.cpu, Freeing(a)))
    && (act.pc.Complete? ==> InPhase(s, act.pc.call, act.cpu, Dropped(a)))
    && (act.pc.RunAsync? ==> InPhase(s, act.pc.call, act.cpu, Running(a)))
    && (Sends(act.pc, a) ==> a in s.calls && (a in s.strayed || SenderOk(s, a)))
  }

  /** What the sender of call a knows about it. Once the IPI is out it no longer matters where the sender is. */
  predicate SenderOk(s: State, a: ActId)
    requires a in s.acts && a in s.calls
  {
    var call := s.calls[a];
    match s.acts[a].pc
    case Enqueue(i, req) =>
      && call.sync == req.wait && call.phase.Keys == AllTargets(s.acts[a].cpu, req)
      && (forall c | c in call.phase :: call.phase[c].Unsent? <==> i <= c)
    case Raise(req) => call.sync == req.wait && call.phase.Keys == AllTargets(s.acts[a].cpu, req) && NoneUnsent(call)
    case Await(req) => call.sync && |call.phase.Keys| == Expected(req, s.cpus) && NoneUnsent(call)
    case _ => call.sync && AllDone(call)
  }

  predicate NoneUnsent(call: Call) {
    forall c | c in call.phase :: !call.phase[c].Unsent?
  }

  ghost predicate MsgOk(s: State, m: MsgRef)
    requires m in s.net.msgs
  {
    s.net.msgs[m].payload.RemoteCall? ==>
      var k := s.net.msgs[m].payload.call;
      k in s.calls && forall c {:trigger MsgAt(s, m, c)} | MsgAt(s, m, c) :: InPhase(s, k, c, Queued(m))
  }

  ghost predicate CallsOk(s: State) { forall k | k in s.calls :: CallOk(s, k) }

  ghost predicate ActsOk(s: State) { forall a | a in s.acts :: ActOk(s, a) }

  ghost predicate MsgsOk(s: State) { forall m | m in s.net.msgs :: MsgOk(s, m) }

  ghost predicate CallInv(s: State) { CallsOk(s) && ActsOk(s) && MsgsOk(s) }

  /** From s to s' calls do not change, activities involved in calls do not move, and messages
      carrying calls keep their cpu. */
  ghost predicate Framed(s: State, s': State) {
    && s'.calls == s.calls && s'.strayed == s.strayed && s'.cpus == s.cpus && s.nextId <= s'.nextId
    && (forall b | b in s.acts && !CallNeutral(s.acts[b].pc) :: b in s'.acts && s'.acts[b] == s.acts[b])
    && (forall b | b in s'.acts && !CallNeutral(s'.acts[b].pc) :: b in s.acts && s'.acts[b] == s.acts[b])
    && (forall k | k in s.calls && k in s'.acts :: k in s.acts)
    && (forall m, k :: CallMsg(s, m, k) <==> CallMsg(s', m, k))
    && (forall m, k, c :: CallMsg(s, m, k) ==> (MsgAt(s, m, c) <==> MsgAt(s', m, c)))
  }

  lemma FramedPhase(s: State, s': State, k: CallId, c: Cpu)
    requires Framed(s, s') && k in s.calls && c in s.calls[k].phase && PhaseOk(s, k, c)
    requires k in s.acts ==> Sends(s.acts[k].pc, k)
    ensures PhaseOk(s', k, c)
  {
    var p := s.calls[k].phase[c];
    if p.Queued? { assert CallMsg(s, p.m, k) && MsgAt(s, p.m, c); }
  }

  lemma FramedMsg(s: State, s': State, m: MsgRef)
    requires Framed(s, s') && m in s'.net.msgs
    requires m in s.net.msgs ==> MsgOk(s, m)
    ensures MsgOk(s', m)
  {
    var p := s'.net.msgs[m].payload;
    if p.RemoteCall? {
      assert CallMsg(s', m, p.call) && CallMsg(s, m, p.call);
      forall c | MsgAt(s', m, c) ensures InPhase(s', p.call, c, Queued(m)) { assert MsgAt(s, m, c); }
    }
  }

  lemma FramedCall(s: State, s': State, k: CallId)
    requires Framed(s, s') && k in s.calls && CallOk(s, k)
    ensures CallOk(s', k)
  {
    if k !in s.strayed {
      forall c | c in s'.calls[k].phase ensures PhaseOk(s', k, c) { FramedPhase(s, s', k, c); }
    }
  }

  lemma FramedAct(s: State, s': State, b: ActId)
    requires Framed(s, s') && b in s'.acts && !CallNeutral(s'.acts[b].pc) && (b in s.acts ==> ActOk(s, b))
    ensures ActOk(s', b)
  {
  }

  lemma FramedStep(s: State, s': State)
    requires CallInv(s) && Framed(s, s')
    requires forall b | b in s'.acts && CallNeutral(s'.acts[b].pc) :: ActOk(s', b)
    ensures CallInv(s')
  {
    forall k | k in s'.calls ensures CallOk(s', k) { FramedCall(s, s', k); }
    forall b | b in s'.acts ensures ActOk(s', b) { if !CallNeutral(s'.acts[b].pc) { FramedAct(s, s', b); } }
    forall m | m in s'.net.msgs ensures MsgOk(s', m) { FramedMsg(s, s', m); }
  }

  /** Handler a on cpu c advances call k, which is in its hands, and touches nothing else. */
  ghost predicate Advances(s: State, s': State, a: ActId, k: CallId) {
    && a in s.acts && a in s'.acts && k in s.calls && k in s'.calls
    && s'.net == s.net && s'.nextId == s.nextId && s'.cpus == s.cpus && s'.strayed == s.strayed
    && s'.acts == s.acts[a := s.acts[a].(pc := s'.acts[a].pc)]
    && s'.calls == s.calls[k := s'.calls[k]]
    && (var c := s.acts[a].cpu;
       && c in s.calls[k].phase && c in s'.calls[k].phase
       && s.calls[k].phase[c] in {Held(a), Freeing(a), Dropped(a), Running(a)}
       && !s'.calls[k].phase[c].Unsent? && !s'.calls[k].phase[c].Queued?
       && (Released(s.calls[k].phase[c]) ==> Released(s'.calls[k].phase[c]))
       && s'.calls[k].phase == s.calls[k].phase[c := s'.calls[k].phase[c]]
       && s'.calls[k].sync == s.calls[k].sync
       && s'.calls[k].finished == s.calls[k].finished[c := s'.calls[k].finished[c]])
    && !Sends(s.acts[a].pc, a) && !Sends(s'.acts[a].pc, a)
  }

  lemma AdvancesPhase(s: State, s': State, a: ActId, k: CallId, j: CallId, d: Cpu)
    requires Advances(s, s', a, k) && j in s.calls && d in s.calls[j].phase && PhaseOk(s, j, d)
    requires (j, d) != (k, s.acts[a].cpu) && (j in s.acts ==> Sends(s.acts[j].pc, j)) && PhaseOk(s, k, s.acts[a].cpu)
    ensures PhaseOk(s', j, d)
  {
  }

  lemma AdvancesAct(s: State, s': State, a: ActId, k: CallId, b: ActId)
    requires Advances(s, s', a, k) && b in s.acts && b != a && ActOk(s, b)
    ensures ActOk(s', b)
  {
  }

  lemma AdvancesMsg(s: State, s': State, a: ActId, k: CallId, m: MsgRef)
    requires Advances(s, s', a, k) && m in s.net.msgs && MsgOk(s, m)
    ensures MsgOk(s', m)
  {
    var p := s.net.msgs[m].payload;
    if p.RemoteCall? {
      forall c | MsgAt(s', m, c) ensures InPhase(s', p.call, c, Queued(m)) { assert MsgAt(s, m, c); }
    }
  }

  lemma AdvancesCall(s: State, s': State, a: ActId, k: CallId, j: CallId)
    requires Advances(s, s', a, k) && k !in s.strayed && CallOk(s, k) && j in s.calls && CallOk(s, j)
    requires Counts(s', k) && PhaseOk(s', k, s.acts[a].cpu)
    ensures CallOk(s', j)
  {
    if j !in s.strayed {
      forall d | d in s'.calls[j].phase ensures PhaseOk(s', j, d) {
        if (j, d) != (k, s.acts[a].cpu) { AdvancesPhase(s, s', a, k, j, d); }
      }
    }
  }

  lemma CallStep(s: State, s': State, a: ActId, k: CallId)
    requires CallInv(s) && Advances(s, s', a, k) && k !in s.strayed
    requires Counts(s', k) && PhaseOk(s', k, s.acts[a].cpu) && ActOk(s', a)
    ensures CallInv(s')
  {
    assert CallOk(s, k);
    forall j | j in s'.calls ensures CallOk(s', j) { AdvancesCall(s, s', a, k, j); }
    forall b | b in s'.acts ensures ActOk(s', b) { if b != a { AdvancesAct(s, s', a, k, b); } }
    forall m | m in s'.net.msgs ensures MsgOk(s', m) { AdvancesMsg(s, s', a, k, m); }
  }

  // ---------- the steps of handle_remote_call ----------

  /** Moving one target changes the two cardinalities by what its phase says. */
  lemma CountStep(call: Call, call': Call, c: Cpu)
    requires c in call.phase && c in call'.phase && call'.phase == call.phase[c := call'.phase[c]]
    requires Counted(call.phase[c]) && !call.phase[c].Done?
    ensures Counting(call') == if Counted(call'.phase[c]) then Counting(call) else Counting(call) - {c}
    ensures Completing(call') == if call'.phase[c].Done? then Completing(call) + {c} else Completing(call)
    ensures c in Counting(call) && c !in Completing(call)
  {
  }

  /** Handler a has call k in its hands: it is alive and its counts are exact. */
  ghost predicate Holding(s: State, a: ActId, k: CallId) {
    && a in s.acts && a != k && s.Live(k) && s.acts[a].cpu in s.calls[k].phase && s.acts[a].cpu < s.cpus
    && k !in s.strayed && CallOk(s, k)
    && (Executes(s.acts[a].pc) ==> s.calls[k].phase[s.acts[a].cpu] == Held(a) && s.acts[a].pc.call == k
                                   && s.calls[k].ref >= if s.calls[k].sync then 2 else 1)
    && (s.acts[a].pc.FreeCall? ==> s.calls[k].phase[s.acts[a].cpu] == Freeing(a))
    && (s.acts[a].pc.Complete? ==> s.calls[k].phase[s.acts[a].cpu] == Dropped(a))
  }

  /** Whoever holds a call in its hands holds it alive. */
  lemma HeldIsLive(s: State, a: ActId, k: CallId)
    requires a in s.acts && ActOk(s, a) && (k in s.calls ==> CallOk(s, k)) && k !in s.strayed
    requires (Executes(s.acts[a].pc) && s.acts[a].pc.call == k) || s.acts[a].pc == FreeCall(k)
      || s.acts[a].pc == Complete(k)
    ensures Holding(s, a, k)
  {
    assert PhaseOk(s, k, s.acts[a].cpu);
    if Executes(s.acts[a].pc) {
      assert s.acts[a].cpu in Counting(s.calls[k]);
    }
  }

  /** A local step of the holder, with everything CallStep asks for. */
  ghost predicate Moves(s: State, s': State, a: ActId, k: CallId) {
    Advances(s, s', a, k) && Counts(s', k) && PhaseOk(s', k, s.acts[a].cpu) && ActOk(s', a)
  }

  lemma StepInHands(s: State, s': State, a: ActId, k: CallId, pc: Pc)
    requires Holding(s, a, k) && Executes(s.acts[a].pc) && !s.acts[a].pc.DropSync?
    requires s' == s.Goto(a, pc) && Executes(pc) && pc.call == k && !pc.DropSync?
    requires if s.calls[k].sync then !pc.CopyCall? && !pc.Drop? else !pc.RunSync?
    ensures Moves(s, s', a, k)
  {
    assert PhaseOk(s, k, s.acts[a].cpu);
    assert s.calls[k].finished[s.acts[a].cpu := 0] == s.calls[k].finished;
  }

  /** The cpu whose decrement reaches zero is the only one left. */
  lemma LastDrop(s: State, a: ActId, k: CallId)
    requires Holding(s, a, k) && s.acts[a].pc == Drop(k) && s.calls[k].ref == 1
    ensures forall d | d in s.calls[k].phase && d != s.acts[a].cpu :: Released(s.calls[k].phase[d])
  {
    var call, c := s.calls[k], s.acts[a].cpu;
    assert PhaseOk(s, k, c);
    assert Counting(call) == {c} by {
      assert c in Counting(call) && |Counting(call) - {c}| == 0;
    }
    forall d | d in call.phase && d != c ensures Released(call.phase[d]) {
      assert d !in Counting(call) && PhaseOk(s, k, d);
    }
  }

  lemma StepLastDrop(s: State, s': State, a: ActId, k: CallId)
    requires Holding(s, a, k) && s.acts[a].pc == Drop(k) && s' == DropAsync(s, a, k) && s.calls[k].ref == 1
    ensures Moves(s, s', a, k)
  {
    assert PhaseOk(s, k, s.acts[a].cpu);
    CountStep(s.calls[k], s'.calls[k], s.acts[a].cpu);
    LastDrop(s, a, k);
  }

  lemma StepDrop(s: State, s': State, a: ActId, k: CallId)
    requires Holding(s, a, k) && s.acts[a].pc == Drop(k) && s' == DropAsync(s, a, k)
    ensures Moves(s, s', a, k)
  {
    if s.calls[k].ref == 1 { StepLastDrop(s, s', a, k); } else { StepOtherDrop(s, s', a, k); }
  }

  /** Handler a moves target c of call k, which is in its hands, to the phase p'. */
  ghost predicate Passes(s: State, s': State, a: ActId, k: CallId, c: Cpu, pc: Pc, p': Phase) {
    && a in s.acts && k in s.calls && k in s'.calls && c == s.acts[a].cpu && c in s.calls[k].phase
    && s'.net == s.net && s'.nextId == s.nextId && s'.cpus == s.cpus && s'.strayed == s.strayed
    && s'.acts == s.acts[a := s.acts[a].(pc := pc)] && s'.calls == s.calls[k := s'.calls[k]]
    && s'.calls[k].phase == s.calls[k].phase[c := p'] && s'.calls[k].sync == s.calls[k].sync
  }

  /** It has released the struct. */
  lemma ReleaseMoves(s: State, s': State, a: ActId, k: CallId, c: Cpu)
    requires Passes(s, s', a, k, c, RunAsync(k), Running(a)) && c < s.cpus && !s.calls[k].sync
    requires !Sends(s.acts[a].pc, a) && s.calls[k].phase[c] in {Held(a), Freeing(a)}
    requires s'.calls[k].finished == s.calls[k].finished && s.calls[k].finished[c] == 0
    ensures Advances(s, s', a, k) && PhaseOk(s', k, c) && ActOk(s', a)
  {
    assert s.calls[k].finished[c := 0] == s.calls[k].finished;
  }

  lemma StepOtherDrop(s: State, s': State, a: ActId, k: CallId)
    requires Holding(s, a, k) && s.acts[a].pc == Drop(k) && s' == DropAsync(s, a, k) && s.calls[k].ref != 1
    ensures Moves(s, s', a, k)
  {
    assert PhaseOk(s, k, s.acts[a].cpu);
    CountStep(s.calls[k], s'.calls[k], s.acts[a].cpu);
    OtherCounted(s, a, k);
    DropCounts(s, s', a, k);
    ReleaseMoves(s, s', a, k, s.acts[a].cpu);
  }

  lemma DropCounts(s: State, s': State, a: ActId, k: CallId)
    requires Holding(s, a, k) && !s.calls[k].sync && s.calls[k].ref != 1 && k in s'.calls
    requires var c := s.acts[a].cpu;
      s'.calls[k] == s.calls[k].(ref := s.calls[k].ref - 1, phase := s.calls[k].phase[c := Running(a)])
    requires Counting(s'.calls[k]) == Counting(s.calls[k]) - {s.acts[a].cpu} && s.acts[a].cpu in Counting(s.calls[k])
    requires exists d | d in s.calls[k].phase && d != s.acts[a].cpu :: !Released(s.calls[k].phase[d])
    ensures Counts(s', k)
  {
  }

  /** Somebody else still counts. */
  lemma OtherCounted(s: State, a: ActId, k: CallId)
    requires Holding(s, a, k) && s.acts[a].pc == Drop(k) && s.calls[k].ref != 1
    ensures exists d | d in s.calls[k].phase && d != s.acts[a].cpu :: !Released(s.calls[k].phase[d])
  {
    var call, c := s.calls[k], s.acts[a].cpu;
    assert PhaseOk(s, k, c);
    assert |Counting(call) - {c}| > 0;
    var d :| d in Counting(call) - {c};
  }

  lemma StepFree(s: State, s': State, a: ActId, k: CallId)
    requires Holding(s, a, k) && s.acts[a].pc == FreeCall(k) && s' == FreeAsync(s, a, k)
    ensures Moves(s, s', a, k)
  {
    assert PhaseOk(s, k, s.acts[a].cpu);
    assert Counting(s'.calls[k]) == Counting(s.calls[k]);
    ReleaseMoves(s, s', a, k, s.acts[a].cpu);
  }

  lemma OnceMore(f: multiset<Cpu>, c: Cpu)
    ensures f + multiset{c} == f[c := f[c] + 1]
  {
  }

  lemma StepRunSync(s: State, s': State, a: ActId, k: CallId)
    requires Holding(s, a, k) && s.acts[a].pc == RunSync(k) && s' == RunSyncCall(s, a, k)
    ensures Moves(s, s', a, k)
  {
    assert PhaseOk(s, k, s.acts[a].cpu);
    OnceMore(s.calls[k].finished, s.acts[a].cpu);
    assert Counting(s'.calls[k]) == Counting(s.calls[k]) && Completing(s'.calls[k]) == Completing(s.calls[k]);
  }

  lemma StillReleased(call: Call, call': Call, c: Cpu)
    requires c in call.phase && call'.phase == call.phase[c := Done] && Released(call.phase[c])
    ensures AllReleased(call') <==> AllReleased(call)
  {
    if AllReleased(call') {
      forall d | d in call.phase ensures Released(call.phase[d]) { assert d in call'.phase; }
    }
  }

  /** It is done with the call. */
  lemma DoneMoves(s: State, s': State, a: ActId, k: CallId, c: Cpu)
    requires Passes(s, s', a, k, c, Loop, Done) && c < s.cpus && !Sends(s.acts[a].pc, a)
    requires s.calls[k].phase[c] in {Dropped(a), Running(a)}
    requires s'.calls[k].finished == s.calls[k].finished[c := 1]
    ensures Advances(s, s', a, k) && PhaseOk(s', k, c) && ActOk(s', a)
  {
  }

  lemma RunCounts(s: State, s': State, k: CallId, c: Cpu)
    requires k in s.calls && k in s'.calls && Counts(s, k) && c in s.calls[k].phase && s.calls[k].phase[c].Running?
    requires !s.calls[k].sync
    requires s'.calls[k] == s.calls[k].(phase := s.calls[k].phase[c := Done], finished := s'.calls[k].finished)
    ensures Counts(s', k)
  {
    assert Counting(s'.calls[k]) == Counting(s.calls[k]);
    StillReleased(s.calls[k], s'.calls[k], c);
  }

  /** The function runs after the struct was released, and perhaps freed. */
  lemma StepRunAsync(s: State, s': State, a: ActId, k: CallId)
    requires a in s.acts && s.acts[a].pc == RunAsync(k) && k !in s.strayed && ActOk(s, a) && k in s.calls
    requires CallOk(s, k)
    requires s' == RunAsyncCall(s, a, k)
    ensures Moves(s, s', a, k)
  {
    assert PhaseOk(s, k, s.acts[a].cpu);
    OnceMore(s.calls[k].finished, s.acts[a].cpu);
    RunCounts(s, s', k, s.acts[a].cpu);
    DoneMoves(s, s', a, k, s.acts[a].cpu);
  }

  lemma StepDropSync(s: State, s': State, a: ActId, k: CallId)
    requires Holding(s, a, k) && s.acts[a].pc == DropSync(k) && s' == DropSyncCall(s, a, k)
    ensures Moves(s, s', a, k) && s'.fault == s.fault
  {
    assert PhaseOk(s, k, s.acts[a].cpu);
    CountStep(s.calls[k], s'.calls[k], s.acts[a].cpu);
  }

  lemma StepComplete(s: State, s': State, a: ActId, k: CallId)
    requires Holding(s, a, k) && s.acts[a].pc == Complete(k) && s' == CompleteCall(s, a, k)
    ensures Moves(s, s', a, k)
  {
    var c := s.acts[a].cpu;
    assert PhaseOk(s, k, c);
    DoneStep(s.calls[k], s'.calls[k], c);
    assert s.calls[k].finished[c := 1] == s.calls[k].finished;
    DoneMoves(s, s', a, k, c);
  }

  lemma DoneStep(call: Call, call': Call, c: Cpu)
    requires c in call.phase && call.phase[c].Dropped? && call'.phase == call.phase[c := Done]
    ensures Counting(call') == Counting(call) && Completing(call') == Completing(call) + {c} && c !in Completing(call)
  {
  }

  /** handle_remote_call never faults and keeps the counts. */
  lemma StepHandle(s: State, a: ActId, k: CallId)
    requires CallInv(s) && a in s.acts && k !in s.strayed
    requires (Executes(s.acts[a].pc) && s.acts[a].pc.call == k) || s.acts[a].pc == FreeCall(k)
      || s.acts[a].pc == Complete(k)
    ensures var s' := TickCall(s, a, k); CallInv(s') && s'.fault == s.fault
  {
    var s' := TickCall(s, a, k);
    HeldIsLive(s, a, k);
    TickMoves(s, s', a, k);
    CallStep(s, s', a, k);
  }

  lemma TickMoves(s: State, s': State, a: ActId, k: CallId)
    requires Holding(s, a, k) && s' == TickCall(s, a, k)
    requires Executes(s.acts[a].pc) || s.acts[a].pc == FreeCall(k) || s.acts[a].pc == Complete(k)
    ensures Moves(s, s', a, k) && s'.fault == s.fault
  {
    match s.acts[a].pc
    case Check(_) => StepInHands(s, s', a, k, TestSync(k));
    case TestSync(_) => StepInHands(s, s', a, k, if s.calls[k].sync then RunSync(k) else CopyCall(k));
    case CopyCall(_) => assert PhaseOk(s, k, s.acts[a].cpu); StepInHands(s, s', a, k, Drop(k));
    case Drop(_) => StepDrop(s, s', a, k);
    case FreeCall(_) => StepFree(s, s', a, k);
    case RunSync(_) => StepRunSync(s, s', a, k);
    case DropSync(_) => StepDropSync(s, s', a, k);
    case Complete(_) => StepComplete(s, s', a, k);
  }

  // ---------- message hand-over ----------

  /** Message m enters or leaves the system, and target c of call k moves between Unsent, Queued(m) and Held. */
  ghost predicate HandsOver(s: State, s': State, a: ActId, k: CallId, c: Cpu, m: MsgRef) {
    && a in s.acts && a in s'.acts && k in s.calls && k in s'.calls && c in s.calls[k].phase && c in s'.calls[k].phase
    && s.nextId <= s'.nextId && s'.cpus == s.cpus && s'.strayed == s.strayed && k !in s.strayed
    && s'.acts == s.acts[a := s.acts[a].(pc := s'.acts[a].pc)]
    && s'.calls == s.calls[k := s.calls[k].(phase := s'.calls[k].phase)]
    && s'.calls[k].phase == s.calls[k].phase[c := s'.calls[k].phase[c]]
    && Counted(s.calls[k].phase[c]) && !s.calls[k].phase[c].Held? && Counted(s'.calls[k].phase[c])
    && !Executes(s.acts[a].pc) && !s.acts[a].pc.FreeCall? && !s.acts[a].pc.Complete? && !s.acts[a].pc.RunAsync?
    && (m !in s.net.msgs || (CallMsg(s, m, k) && MsgAt(s, m, c)))
    && (if Sends(s.acts[a].pc, a) then
          k == a && s.acts[a].pc.Enqueue? && s.acts[a].pc.next == c && s'.acts[a].pc == s.acts[a].pc.(next := c + 1)
        else s.calls[k].phase[c] == Queued(m) && !s'.calls[k].phase[c].Unsent?)
    && (forall x | x != m :: x in s.net.msgs <==> x in s'.net.msgs)
    && (forall x | x != m && x in s.net.msgs :: s.net.msgs[x] == s'.net.msgs[x])
    && (forall x | x != m && x in s.net.msgs :: x in s.net.loc && x in s'.net.loc && s.net.loc[x] == s'.net.loc[x])
  }

  lemma HandsOverPhase(s: State, s': State, a: ActId, k: CallId, c: Cpu, m: MsgRef, j: CallId, d: Cpu)
    requires HandsOver(s, s', a, k, c, m) && j in s.calls && d in s.calls[j].phase && PhaseOk(s, j, d)
    requires (j, d) != (k, c) && (j in s.acts ==> Sends(s.acts[j].pc, j))
    ensures PhaseOk(s', j, d)
  {
  }

  lemma HandsOverAct(s: State, s': State, a: ActId, k: CallId, c: Cpu, m: MsgRef, b: ActId)
    requires HandsOver(s, s', a, k, c, m) && b in s.acts && b != a && ActOk(s, b)
    ensures ActOk(s', b)
  {
  }

  lemma HandsOverMsg(s: State, s': State, a: ActId, k: CallId, c: Cpu, m: MsgRef, x: MsgRef)
    requires HandsOver(s, s', a, k, c, m) && x in s.net.msgs && MsgOk(s, x) && x != m
    requires s.calls[k].phase[c] != Queued(x)
    ensures x in s'.net.msgs && MsgOk(s', x)
  {
    var p := s.net.msgs[x].payload;
    if p.RemoteCall? {
      forall d | MsgAt(s', x, d) ensures InPhase(s', p.call, d, Queued(x)) { assert MsgAt(s, x, d); }
    }
  }

  lemma HandsOverCounts(s: State, s': State, a: ActId, k: CallId, c: Cpu, m: MsgRef)
    requires HandsOver(s, s', a, k, c, m) && Counts(s, k)
    ensures Counts(s', k)
  {
    assert Counting(s'.calls[k]) == Counting(s.calls[k]) && Completing(s'.calls[k]) == Completing(s.calls[k]);
    assert !AllReleased(s.calls[k]) && !AllReleased(s'.calls[k]);
    assert !AllDone(s.calls[k]) && !AllDone(s'.calls[k]);
  }

  lemma HandsOverCall(s: State, s': State, a: ActId, k: CallId, c: Cpu, m: MsgRef, j: CallId)
    requires HandsOver(s, s', a, k, c, m) && j in s.calls && CallOk(s, j)
    requires PhaseOk(s', k, c) && (a in s.calls ==> Sends(s'.acts[a].pc, a))
    ensures CallOk(s', j)
  {
    if j == k { HandsOverCounts(s, s', a, k, c, m); }
    if j !in s.strayed {
      forall d | d in s'.calls[j].phase ensures PhaseOk(s', j, d) {
        if (j, d) != (k, c) { HandsOverPhase(s, s', a, k, c, m, j, d); }
      }
    }
  }

  lemma HandOverStep(s: State, s': State, a: ActId, k: CallId, c: Cpu, m: MsgRef)
    requires CallInv(s) && HandsOver(s, s', a, k, c, m)
    requires PhaseOk(s', k, c) && ActOk(s', a) && (m in s'.net.msgs ==> MsgOk(s', m))
    requires a in s.calls ==> Sends(s'.acts[a].pc, a)
    requires m !in s'.net.msgs || m !in s.net.msgs
    ensures CallInv(s')
  {
    forall j | j in s'.calls ensures CallOk(s', j) { HandsOverCall(s, s', a, k, c, m, j); }
    forall b | b in s'.acts ensures ActOk(s', b) { if b != a { HandsOverAct(s, s', a, k, c, m, b); } }
    forall x | x in s'.net.msgs ensures MsgOk(s', x) { if x != m { HandsOverMsg(s, s', a, k, c, m, x); } }
  }

  /** A handler frees the message and starts executing its call. */
  lemma StepTake(s: State, s': State, a: ActId, k: CallId, m: MsgRef)
    requires a in s.acts && s.acts[a].pc.Copied? && CallMsg(s, m, k) && MsgOk(s, m) && ActOk(s, a) && k !in s.strayed
    requires k in s.calls ==> CallOk(s, k)
    requires (forall x | x in s.net.msgs :: x in s.net.loc) && s.net.loc[m] == HeldBy(a)
    requires s' == s.(net := s.net.(msgs := s.net.msgs - {m}, loc := s.net.loc - {m}))
                    .SetPhase(k, s.acts[a].cpu, Held(a)).Goto(a, Check(k))
    ensures HandsOver(s, s', a, k, s.acts[a].cpu, m) && PhaseOk(s', k, s.acts[a].cpu) && ActOk(s', a)
  {
    assert MsgAt(s, m, s.acts[a].cpu);
    assert PhaseOk(s, k, s.acts[a].cpu);
  }

  /** A sender posts the message for target i. */
  ghost predicate Posting(s: State, s': State, a: ActId, i: Cpu, req: Request) {
    && a in s.acts && a !in s.strayed && s.acts[a].pc == Enqueue(i, req) && req.payload.RemoteCall?
    && ActOk(s, a) && (a in s.calls ==> CallOk(s, a))
    && (forall x | x in s.net.msgs :: x in s.net.loc && x != Heap(s.nextId))
    && i < req.end && !(req.broadcast && i == s.acts[a].cpu) && s' == SendNext(s, a, i, req)
  }

  lemma PostTarget(s: State, s': State, a: ActId, i: Cpu, req: Request)
    requires Posting(s, s', a, i, req)
    ensures i in s.calls[a].phase && s.calls[a].phase[i].Unsent? && HandsOver(s, s', a, a, i, Heap(s.nextId))
  {
    assert IsTarget(s.acts[a].cpu, if req.broadcast then 0 else req.end - 1, req, i);
    assert i in s.calls[a].phase;
  }

  lemma PostSound(s: State, s': State, a: ActId, i: Cpu, req: Request)
    requires Posting(s, s', a, i, req) && i in s.calls[a].phase && s.calls[a].phase[i].Unsent?
    ensures a in s'.acts && ActOk(s', a) && PhaseOk(s', a, i) && MsgOk(s', Heap(s.nextId))
  {
    assert s'.calls[a].phase == s.calls[a].phase[i := Queued(Heap(s.nextId))];
    assert PhaseOk(s, a, i);
  }

  // ---------- the sender ----------

  /** Activity a, the sender of call a, moves or exits; messages and other calls do not change. */
  ghost predicate SenderMoves(s: State, s': State, a: ActId) {
    && a in s.acts && Sends(s.acts[a].pc, a) && a in s.calls && a in s'.calls
    && s'.net == s.net.(ipi := s'.net.ipi) && s'.nextId == s.nextId && s'.cpus == s.cpus
    && s'.strayed == s.strayed && a !in s.strayed
    && s'.calls == s.calls[a := s.calls[a].(freed := s'.calls[a].freed)]
    && (if a in s'.acts then s'.acts == s.acts[a := s.acts[a].(pc := s'.acts[a].pc)] && Sends(s'.acts[a].pc, a)
        else s'.acts == s.acts - {a})
    && (forall d | d in s.calls[a].phase && s.calls[a].phase[d].Unsent? ::
          a in s'.acts && s'.acts[a].pc.Enqueue? && s'.acts[a].pc.next <= d)
  }

  lemma SenderPhase(s: State, s': State, a: ActId, j: CallId, d: Cpu)
    requires SenderMoves(s, s', a) && j in s.calls && d in s.calls[j].phase && PhaseOk(s, j, d)
    requires s.calls[j].phase[d].Queued? ==> s.net.loc[s.calls[j].phase[d].m] != HeldBy(a)
    ensures PhaseOk(s', j, d)
  {
  }

  lemma SenderAct(s: State, s': State, a: ActId, b: ActId)
    requires SenderMoves(s, s', a) && b in s.acts && b != a && ActOk(s, b)
    ensures ActOk(s', b)
  {
  }

  lemma SenderMsg(s: State, s': State, a: ActId, m: MsgRef)
    requires SenderMoves(s, s', a) && m in s.net.msgs && MsgOk(s, m)
    requires m in s.net.loc && s.net.loc[m] != HeldBy(a)
    ensures MsgOk(s', m)
  {
    var p := s.net.msgs[m].payload;
    if p.RemoteCall? {
      forall d | MsgAt(s', m, d) ensures InPhase(s', p.call, d, Queued(m)) { assert MsgAt(s, m, d); }
    }
  }

  lemma SenderCall(s: State, s': State, a: ActId, j: CallId)
    requires SenderMoves(s, s', a) && Counts(s', a) && j in s.calls && CallOk(s, j)
    requires forall m | m in s.net.msgs :: m in s.net.loc && s.net.loc[m] != HeldBy(a)
    ensures CallOk(s', j)
  {
    if j !in s.strayed {
      forall d | d in s'.calls[j].phase ensures PhaseOk(s', j, d) { SenderPhase(s, s', a, j, d); }
    }
  }

  lemma SenderStep(s: State, s': State, a: ActId)
    requires CallInv(s) && SenderMoves(s, s', a) && Counts(s', a) && (a in s'.acts ==> ActOk(s', a))
    requires forall m | m in s.net.msgs :: m in s.net.loc && s.net.loc[m] != HeldBy(a)
    ensures CallInv(s')
  {
    forall j | j in s'.calls ensures CallOk(s', j) { SenderCall(s, s', a, j); }
    forall b | b in s'.acts ensures ActOk(s', b) { if b != a { SenderAct(s, s', a, b); } }
    forall m | m in s'.net.msgs ensures MsgOk(s', m) { SenderMsg(s, s', a, m); }
  }

  /** The cpus 0 to n-1. */
  function Below(n: nat): (r: set<Cpu>)
    ensures |r| == n && forall c: Cpu :: c in r <==> c < n
  {
    if n == 0 then {} else Below(n - 1) + {n - 1}
  }

  /** The count the sender waits for is its number of targets. */
  lemma ExpectedTargets(from: Cpu, req: Request, cpus: nat)
    requires from < cpus && 0 < req.end <= cpus && (req.broadcast ==> req.end == cpus)
    ensures |AllTargets(from, req)| == Expected(req, cpus)
  {
    var first := if req.broadcast then 0 else req.end - 1;
    if req.broadcast {
      forall c ensures c in AllTargets(from, req) <==> c in Below(cpus) - {from} {
        assert IsTarget(from, first, req, c) <==> c in Below(cpus) - {from};
      }
      assert AllTargets(from, req) == Below(cpus) - {from};
    } else {
      assert IsTarget(from, first, req, req.end - 1);
      assert AllTargets(from, req) == {req.end - 1};
    }
  }

  lemma SubsetOfSameSize<T>(a: set<T>, b: set<T>)
    requires a <= b && |a| == |b|
    ensures a == b
  {
    assert |b - a| == |b| - |a|;
  }

  /** When the count is reached, every target has finished the function and dropped its reference. */
  lemma AwaitMeansAllDone(s: State, a: ActId, req: Request)
    requires a in s.acts && a !in s.strayed && s.acts[a].pc == Await(req) && ActOk(s, a) && CallOk(s, a)
    requires s.calls[a].completed == Expected(req, s.cpus)
    ensures AllDone(s.calls[a]) && s.calls[a].ref == 1
  {
    var call := s.calls[a];
    SubsetOfSameSize(Completing(call), call.phase.Keys);
    assert Counting(call) == {};
  }

  /** A move of the sender, with everything SenderStep asks for. */
  ghost predicate SenderGoes(s: State, s': State, a: ActId) {
    SenderMoves(s, s', a) && Counts(s', a) && (a in s'.acts ==> ActOk(s', a)) && s'.fault == s.fault
  }

  lemma StepAwait(s: State, s': State, a: ActId, req: Request)
    requires a in s.acts && a in s.calls && s.acts[a].pc == Await(req) && a !in s.strayed && ActOk(s, a) && CallOk(s, a)
    requires s' == TickWaiter(s, a, a)
    ensures SenderGoes(s, s', a)
  {
    if s.calls[a].completed == Expected(req, s.cpus) { AwaitMeansAllDone(s, a, req); }
    assert s.calls[a := s.calls[a]] == s.calls && s.acts[a := s.acts[a]] == s.acts;
  }

  lemma StepCheckRef(s: State, s': State, a: ActId)
    requires a in s.acts && a in s.calls && s.acts[a].pc == CheckRef(a) && a !in s.strayed && ActOk(s, a)
    requires CallOk(s, a)
    requires s' == TickWaiter(s, a, a)
    ensures SenderGoes(s, s', a)
  {
    assert Counting(s.calls[a]) == {};
    assert s.calls[a := s.calls[a]] == s.calls;
  }

  lemma StepFreeSent(s: State, s': State, a: ActId)
    requires a in s.acts && a in s.calls && s.acts[a].pc == FreeSent(a) && a !in s.strayed && ActOk(s, a)
    requires CallOk(s, a)
    requires s' == TickWaiter(s, a, a)
    ensures SenderGoes(s, s', a)
  {
    assert Counting(s'.calls[a]) == Counting(s.calls[a]) && Completing(s'.calls[a]) == Completing(s.calls[a]);
  }

  lemma StepWaiter(s: State, s': State, a: ActId)
    requires a in s.acts && a in s.calls && (s.acts[a].pc.Await? || s.acts[a].pc.CheckRef? || s.acts[a].pc.FreeSent?)
    requires a !in s.strayed && ActOk(s, a) && CallOk(s, a) && s' == TickWaiter(s, a, a)
    ensures SenderGoes(s, s', a)
  {
    var pc := s.acts[a].pc;
    if pc.Await? { StepAwait(s, s', a, pc.req); }
    else if pc.CheckRef? { StepCheckRef(s, s', a); }
    else { StepFreeSent(s, s', a); }
  }

  lemma StepRaise(s: State, s': State, a: ActId, req: Request)
    requires a in s.acts && a in s.calls && a !in s.strayed && s.acts[a].pc == Raise(req) && req.payload.RemoteCall?
    requires ActOk(s, a) && CallOk(s, a) && s' == RaiseIpi(s, a, req)
    ensures SenderGoes(s, s', a)
  {
    ExpectedTargets(s.acts[a].cpu, req, s.cpus);
  }

  // ---------- strayed calls ----------

  /** A step about the strayed call k: whatever it does to it, it touches no other call. */
  ghost predicate Astray(s: State, s': State, a: ActId, k: CallId) {
    && a in s.acts && k in s.strayed && k in s.calls
    && s'.strayed == s.strayed && s'.cpus == s.cpus && s.nextId <= s'.nextId && s'.calls.Keys == s.calls.Keys
    && (forall j | j in s.calls && j != k :: s'.calls[j] == s.calls[j])
    && (if a in s'.acts then s'.acts == s.acts[a := s.acts[a].(pc := s'.acts[a].pc)] else s'.acts == s.acts - {a})
    && (Executes(s.acts[a].pc) || s.acts[a].pc.FreeCall? || s.acts[a].pc.Complete? || s.acts[a].pc.RunAsync? ==>
          s.acts[a].pc.call == k)
    && (a in s.calls ==> a == k)
    && (forall m, j | j != k :: CallMsg(s, m, j) <==> CallMsg(s', m, j))
    && (forall m, j, c | j != k && CallMsg(s, m, j) :: MsgAt(s, m, c) <==> MsgAt(s', m, c))
  }

  lemma AstrayPhase(s: State, s': State, a: ActId, k: CallId, j: CallId, d: Cpu)
    requires Astray(s, s', a, k) && j in s.calls && j != k && d in s.calls[j].phase && PhaseOk(s, j, d)
    ensures PhaseOk(s', j, d)
  {
    var p := s.calls[j].phase[d];
    if p.Queued? { assert CallMsg(s, p.m, j) && MsgAt(s, p.m, d); }
  }

  lemma AstrayAct(s: State, s': State, a: ActId, k: CallId, b: ActId)
    requires Astray(s, s', a, k) && b in s.acts && b != a && ActOk(s, b)
    ensures ActOk(s', b)
  {
  }

  lemma AstrayMsg(s: State, s': State, a: ActId, k: CallId, m: MsgRef)
    requires Astray(s, s', a, k) && m in s'.net.msgs && (m in s.net.msgs ==> MsgOk(s, m))
    ensures MsgOk(s', m)
  {
    var p := s'.net.msgs[m].payload;
    if p.RemoteCall? && p.call != k {
      assert CallMsg(s', m, p.call) && CallMsg(s, m, p.call);
      forall c | MsgAt(s', m, c) ensures InPhase(s', p.call, c, Queued(m)) { assert MsgAt(s, m, c); }
    }
  }

  lemma AstrayCall(s: State, s': State, a: ActId, k: CallId, j: CallId)
    requires Astray(s, s', a, k) && j in s.calls && CallOk(s, j)
    requires a in s'.acts && a in s.calls ==> Sends(s'.acts[a].pc, a)
    ensures j in s'.calls && CallOk(s', j)
  {
    if j !in s.strayed {
      forall d | d in s'.calls[j].phase ensures PhaseOk(s', j, d) { AstrayPhase(s, s', a, k, j, d); }
    }
  }

  lemma AstrayStep(s: State, s': State, a: ActId, k: CallId)
    requires CallInv(s) && Astray(s, s', a, k)
    requires a in s'.acts ==> ActOk(s', a) && (a in s.calls ==> Sends(s'.acts[a].pc, a))
    ensures CallInv(s')
  {
    forall j | j in s'.calls ensures CallOk(s', j) { AstrayCall(s, s', a, k, j); }
    forall b | b in s'.acts ensures ActOk(s', b) { if b != a { AstrayAct(s, s', a, k, b); } }
    forall m | m in s'.net.msgs ensures MsgOk(s', m) { AstrayMsg(s, s', a, k, m); }
  }

  /** An activity that holds nothing is moved to another cpu; a call whose targets depend on the cpu strays. */
  ghost predicate Relocates(s: State, s': State, a: ActId) {
    && a in s.acts && a in s'.acts && Movable(s.acts[a].pc) && s'.acts[a].cpu < s.cpus
    && s'.net == s.net && s'.nextId == s.nextId && s'.cpus == s.cpus && s'.calls == s.calls
    && s'.acts == s.acts[a := s.acts[a].(cpu := s'.acts[a].cpu)]
    && s.strayed <= s'.strayed <= s.strayed + {a}
    && (BroadcastingCall(s.acts[a].pc) ==> s'.acts[a].cpu == s.acts[a].cpu || a in s'.strayed)
  }

  lemma RelocatedAct(s: State, s': State, a: ActId)
    requires Relocates(s, s', a) && ActOk(s, a)
    ensures ActOk(s', a)
  {
    var pc := s.acts[a].pc;
    if (pc.Enqueue? || pc.Raise?) && !pc.req.broadcast {
      SameTargets(s.acts[a].cpu, s'.acts[a].cpu, pc.req);
    }
  }

  lemma SameTargets(from: Cpu, from': Cpu, req: Request)
    requires !req.broadcast
    ensures AllTargets(from, req) == AllTargets(from', req)
  {
    forall c ensures c in AllTargets(from, req) <==> c in AllTargets(from', req) {
      var first := if req.end == 0 then 0 else req.end - 1;
      assert IsTarget(from, first, req, c) <==> IsTarget(from', first, req, c);
    }
  }

  lemma RelocatedCall(s: State, s': State, a: ActId, j: CallId)
    requires Relocates(s, s', a) && j in s.calls && CallOk(s, j)
    requires forall m | m in s.net.msgs :: m in s.net.loc && s.net.loc[m] != HeldBy(a)
    ensures CallOk(s', j)
  {
    if j !in s'.strayed {
      forall d | d in s'.calls[j].phase ensures PhaseOk(s', j, d) { assert PhaseOk(s, j, d); }
    }
  }

  lemma RelocatedMsg(s: State, s': State, a: ActId, m: MsgRef)
    requires Relocates(s, s', a) && m in s.net.msgs && MsgOk(s, m) && m in s.net.loc && s.net.loc[m] != HeldBy(a)
    ensures MsgOk(s', m)
  {
    forall d | MsgAt(s', m, d) ensures MsgAt(s, m, d) {}
  }

  lemma RelocatedOther(s: State, s': State, a: ActId, b: ActId)
    requires Relocates(s, s', a) && b in s.acts && b != a && ActOk(s, b)
    ensures ActOk(s', b)
  {
  }

  lemma RelocateStep(s: State, s': State, a: ActId)
    requires CallInv(s) && Relocates(s, s', a)
    requires forall m | m in s.net.msgs :: m in s.net.loc && s.net.loc[m] != HeldBy(a)
    ensures CallInv(s')
  {
    forall j | j in s'.calls ensures CallOk(s', j) { RelocatedCall(s, s', a, j); }
    forall b | b in s'.acts ensures ActOk(s', b) {
      if b != a { RelocatedOther(s, s', a, b); } else { RelocatedAct(s, s', a); }
    }
    forall m | m in s'.net.msgs ensures MsgOk(s', m) { RelocatedMsg(s, s', a, m); }
  }

  lemma TargetsInRange(from: Cpu, req: Request, c: Cpu)
    requires c in AllTargets(from, req)
    ensures c < req.end && !(req.broadcast && c == from)
  {
  }

  /** The broadcast loop skips its own cpu, or is over. */
  lemma StepSkip(s: State, s': State, a: ActId, i: Cpu, req: Request)
    requires a in s.acts && a in s.calls && a !in s.strayed && s.acts[a].pc == Enqueue(i, req)
    requires req.payload.RemoteCall?
    requires i >= req.end || (req.broadcast && i == s.acts[a].cpu)
    requires ActOk(s, a) && CallOk(s, a) && s' == SendNext(s, a, i, req)
    ensures SenderGoes(s, s', a)
  {
    forall c | c in s.calls[a].phase ensures c < req.end && !(req.broadcast && c == s.acts[a].cpu) {
      TargetsInRange(s.acts[a].cpu, req, c);
    }
    if i >= req.end { LoopOver(s, s', a, i, req); }
  }

  lemma LoopOver(s: State, s': State, a: ActId, i: Cpu, req: Request)
    requires a in s.acts && a in s.calls && a !in s.strayed && s.acts[a].pc == Enqueue(i, req)
    requires req.payload.RemoteCall?
    requires i >= req.end && (forall c | c in s.calls[a].phase :: c < req.end)
    requires ActOk(s, a) && CallOk(s, a) && s' == s.Goto(a, Raise(req))
    ensures SenderGoes(s, s', a)
  {
  }

  lemma NewCall(s: State, s': State, c: Cpu, first: Cpu, end: Cpu, broadcast: bool, wait: bool)
    requires c < s.cpus && s' == SpawnCall(s, c, first, end, broadcast, wait)
    requires if broadcast then first == 0 && end == s.cpus else end == first + 1 <= s.cpus
    ensures CallOk(s', s.nextId) && ActOk(s', s.nextId)
  {
    var k := s.nextId;
    var call, req := s'.calls[k], s'.acts[k].pc.req;
    ExpectedTargets(c, req, s.cpus);
    assert call.phase.Keys == AllTargets(c, req);
    assert Counting(call) == call.phase.Keys && Completing(call) == {};
  }

  lemma StepNewCall(s: State, s': State, c: Cpu, first: Cpu, end: Cpu, broadcast: bool, wait: bool)
    requires CallInv(s) && c < s.cpus && s' == SpawnCall(s, c, first, end, broadcast, wait)
    requires if broadcast then first == 0 && end == s.cpus else end == first + 1 <= s.cpus
    requires forall b | b in s.acts :: b < s.nextId
    requires forall m | m in s.net.msgs :: m in s.net.loc && s.net.loc[m] != HeldBy(s.nextId)
    ensures CallInv(s') && s'.fault == s.fault
  {
    var k := s.nextId;
    NewCall(s, s', c, first, end, broadcast, wait);
    forall j | j in s.calls ensures j < s.nextId { assert CallOk(s, j); }
    forall j | j in s'.calls ensures CallOk(s', j) {
      if j != k { OldCall(s, s', j); }
    }
    forall b | b in s'.acts ensures ActOk(s', b) { if b != k { OldAct(s, s', b); } }
    forall m | m in s'.net.msgs ensures MsgOk(s', m) { OldMsg(s, s', m); }
  }

  lemma OldAct(s: State, s': State, b: ActId)
    requires b in s.acts && b < s.nextId && ActOk(s, b) && s.nextId in s'.acts && s.nextId in s'.calls
    requires s'.acts == s.acts[s.nextId := s'.acts[s.nextId]] && s'.calls == s.calls[s.nextId := s'.calls[s.nextId]]
    requires s'.cpus == s.cpus && s'.strayed == s.strayed && forall k | k in s.calls :: k < s.nextId
    ensures ActOk(s', b)
  {
  }

  lemma OldMsg(s: State, s': State, m: MsgRef)
    requires m in s.net.msgs && MsgOk(s, m) && m in s.net.loc && s.net.loc[m] != HeldBy(s.nextId)
    requires s.nextId in s'.acts && s.nextId in s'.calls && s'.strayed == s.strayed && s'.net == s.net
    requires s'.acts == s.acts[s.nextId := s'.acts[s.nextId]] && s'.calls == s.calls[s.nextId := s'.calls[s.nextId]]
    requires forall k | k in s.calls :: k < s.nextId
    ensures MsgOk(s', m)
  {
    forall d | MsgAt(s', m, d) ensures MsgAt(s, m, d) {}
  }

  lemma OldCall(s: State, s': State, j: CallId)
    requires j in s.calls && CallOk(s, j) && s.nextId !in s.acts && s.nextId in s'.acts && s.nextId in s'.calls
    requires s'.acts == s.acts[s.nextId := s'.acts[s.nextId]] && s'.calls == s.calls[s.nextId := s'.calls[s.nextId]]
    requires s'.net == s.net && s'.nextId == s.nextId + 1 && s'.strayed == s.strayed
    ensures j in s'.calls && CallOk(s', j)
  {
    if j !in s.strayed {
      forall d | d in s'.calls[j].phase ensures PhaseOk(s', j, d) { assert PhaseOk(s, j, d); }
    }
  }
}
