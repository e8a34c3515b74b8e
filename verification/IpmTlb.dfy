/**
 TLB consistency: once paging_unmap_in returns, no cpu caches a translation it
 removed, unless that very translation was mapped again.
 */
module IpmTlb {
  import opened Ipm

  /** Cpu c flushed its TLB after activity a removed its last translation. */
  predicate Flushed(s: State, a: ActId, c: Cpu)
    requires a in s.acts
  {
    var act := s.acts[a];
    && c < s.cpus
    && match act.pc
       case Decide => c == act.cpu
       case NextTarget(t) => c == act.cpu || c < t
       case SendTlb(t) => c == act.cpu || c < t
       case RaiseTlb(t) => c == act.cpu || c < t || (c == t && TargetFlushed(s, a))
       case AwaitTlb(t) => c == act.cpu || c < t || (c == t && TargetFlushed(s, a))
       case Returned => true
       case _ => false
  }

  /** The current target is past its flush: about to acknowledge, or it has. */
  predicate TargetFlushed(s: State, a: ActId) {
    && Stack(a) in s.net.loc
    && match s.net.loc[Stack(a)]
       case Nowhere => true
       case InQueue(_) => false
       case HeldBy(h) => h in s.acts && s.acts[h].pc == Ack(a)
  }

  ghost predicate Clean(s: State, a: ActId)
    requires a in s.acts
  {
    && (forall t | Gone(s.acts[a].gone, t) :: !s.mmu.Mapped(t))
    && (forall t, c | Gone(s.acts[a].gone, t) && Flushed(s, a, c) :: t !in s.mmu.Tlb(c))
  }

  /** Before the APs are online only cpu 0 runs, and only cpu 0 caches anything. */
  ghost predicate Alone(s: State) {
    !s.mmu.online ==>
      (forall c | c in s.mmu.tlb && c != 0 :: s.mmu.tlb[c] == {}) && (forall a | a in s.acts :: s.acts[a].cpu == 0)
  }

  ghost predicate TlbInv(s: State) {
    (forall a | a in s.acts :: Clean(s, a)) && Alone(s)
  }

  /** The MMU does not change; every activity has flushed no more than before. */
  lemma TlbFrame(s: State, s': State)
    requires TlbInv(s) && s'.mmu == s.mmu
    requires forall b | b in s'.acts && s'.acts[b].gone != map[] ::
               b in s.acts && s'.acts[b].gone == s.acts[b].gone && forall c: Cpu | Flushed(s', b, c) :: Flushed(s, b, c)
    requires !s.mmu.online ==> forall b | b in s'.acts :: s'.acts[b].cpu == 0
    ensures TlbInv(s')
  {
    forall b | b in s'.acts ensures Clean(s', b) {
      if s'.acts[b].gone != map[] { assert Clean(s, b); }
    }
  }

  /** Activity a on cpu f flushes the TLB of its cpu. */
  lemma TlbFlush(s: State, s': State, a: ActId, pc: Pc)
    requires TlbInv(s) && a in s.acts && s'.acts == s.acts[a := s.acts[a].(pc := pc)] && s'.cpus == s.cpus
    requires s'.mmu == s.mmu.(tlb := s.mmu.tlb[s.acts[a].cpu := {}])
    requires forall b: ActId, c: Cpu | b in s.acts && Flushed(s', b, c) && c != s.acts[a].cpu :: Flushed(s, b, c)
    ensures TlbInv(s')
  {
    forall b | b in s'.acts ensures Clean(s', b) {
      assert Clean(s, b);
      forall t, c | Gone(s'.acts[b].gone, t) && Flushed(s', b, c) ensures t !in s'.mmu.Tlb(c) {
        assert c != s.acts[a].cpu ==> Flushed(s, b, c);
      }
    }
  }

  lemma TlbRemove(s: State, s': State, a: ActId, todo: seq<Page>)
    requires TlbInv(s) && a in s.acts && s.acts[a].pc == Remove(todo) && s' == RemovePage(s, a, todo)
    ensures TlbInv(s')
  {
    forall b | b in s'.acts ensures Clean(s', b) {
      assert Clean(s, b);
      forall t | Gone(s'.acts[b].gone, t) ensures !s'.mmu.Mapped(t) {
        if t.page in s'.mmu.pt { assert Gone(s.acts[b].gone, t); }
      }
      forall t, c | Gone(s'.acts[b].gone, t) && Flushed(s', b, c) ensures t !in s'.mmu.Tlb(c) {
        assert Flushed(s, b, c);
      }
    }
  }

  lemma BackGone(gone: map<Page, set<Frame>>, u: Translation, t: Translation)
    ensures Gone(Back(gone, u), t) <==> Gone(gone, t) && t != u
  {
  }

  lemma TlbMap(s: State, s': State, p: Page, f: Frame)
    requires TlbInv(s) && p !in s.mmu.pt
    requires s' == s.(mmu := s.mmu.(pt := s.mmu.pt[p := f]), acts := Remap(s.acts, Translation(p, f)))
    ensures TlbInv(s')
  {
    forall b | b in s'.acts ensures Clean(s', b) {
      assert Clean(s, b);
      forall t | Gone(s'.acts[b].gone, t) ensures !s'.mmu.Mapped(t) { BackGone(s.acts[b].gone, Translation(p, f), t); }
      forall t, c | Gone(s'.acts[b].gone, t) && Flushed(s', b, c) ensures t !in s'.mmu.Tlb(c) {
        BackGone(s.acts[b].gone, Translation(p, f), t);
        assert Flushed(s, b, c);
      }
    }
  }

  /** The MMU loads a mapped translation, or drops one. */
  lemma TlbCache(s: State, s': State, c: Cpu, tlb: set<Translation>)
    requires TlbInv(s) && MayRun(s, c) && s' == s.(mmu := s.mmu.(tlb := s.mmu.tlb[c := tlb]))
    requires forall t | t in tlb :: t in s.mmu.Tlb(c) || s.mmu.Mapped(t)
    ensures TlbInv(s')
  {
    forall b | b in s'.acts ensures Clean(s', b) {
      assert Clean(s, b);
      forall t, d | Gone(s'.acts[b].gone, t) && Flushed(s', b, d) ensures t !in s'.mmu.Tlb(d) {
        assert Flushed(s, b, d);
      }
    }
  }

  /** With the APs offline no shootdown is needed. */
  lemma TlbOffline(s: State, s': State, a: ActId)
    requires TlbInv(s) && a in s.acts && s.acts[a].pc == Decide && s.acts[a].cpu < s.cpus && !s.mmu.online
    requires s' == s.Goto(a, Returned)
    ensures TlbInv(s')
  {
    forall b | b in s'.acts ensures Clean(s', b) {
      assert Clean(s, b);
      forall t, c | Gone(s'.acts[b].gone, t) && Flushed(s', b, c) ensures t !in s'.mmu.Tlb(c) {
        if b != a || c == 0 { assert Flushed(s, b, c); }
      }
    }
  }

  /** Activity a is moved; the cpu it arrives on is flushed. */
  lemma TlbArrive(s: State, s': State, a: ActId, c: Cpu)
    requires TlbInv(s) && a in s.acts && MayRun(s, c) && s'.cpus == s.cpus && s'.net == s.net
    requires s'.acts == s.acts[a := s.acts[a].(cpu := c)]
    requires s'.mmu == s.mmu.(tlb := s.mmu.tlb[c := {}])
    ensures TlbInv(s')
  {
    forall b | b in s'.acts ensures Clean(s', b) {
      assert Clean(s, b);
      forall t, d | Gone(s'.acts[b].gone, t) && Flushed(s', b, d) ensures t !in s'.mmu.Tlb(d) {
        assert d != c ==> Flushed(s, b, d);
      }
    }
  }

  /** Activity a moves or exits without touching the MMU; nobody counts as flushed who was not. */
  lemma TlbMove(s: State, s': State, a: ActId)
    requires TlbInv(s) && a in s.acts && s'.mmu == s.mmu && s'.cpus == s.cpus
    requires if a in s'.acts then s'.acts == s.acts[a := s.acts[a].(pc := s'.acts[a].pc)] else s'.acts == s.acts - {a}
    requires forall b | b in s.acts && b != a && TargetFlushed(s', b) :: TargetFlushed(s, b)
    requires a in s'.acts ==> forall c: Cpu | Flushed(s', a, c) :: Flushed(s, a, c)
    ensures TlbInv(s')
  {
    TlbFrame(s, s');
  }

  /** A handler or a sender moves, not to an acknowledgement, or exits. */
  lemma TlbStill(s: State, s': State, a: ActId)
    requires TlbInv(s) && a in s.acts && s'.mmu == s.mmu && s'.cpus == s.cpus
    requires if a in s'.acts then s'.acts == s.acts[a := s.acts[a].(pc := s'.acts[a].pc)] && Quiet(s'.acts[a].pc)
             else s'.acts == s.acts - {a}
    requires forall b | Stack(b) in s'.net.loc :: Stack(b) in s.net.loc
               && (s'.net.loc[Stack(b)] == s.net.loc[Stack(b)] || s'.net.loc[Stack(b)] == HeldBy(a))
    ensures TlbInv(s')
  {
    forall b | b in s.acts && b != a && TargetFlushed(s', b) ensures TargetFlushed(s, b) {
      assert Stack(b) in s'.net.loc;
    }
    TlbMove(s, s', a);
  }

  predicate Quiet(pc: Pc) {
    !pc.Ack? && !pc.Decide? && !pc.NextTarget? && !pc.SendTlb? && !pc.RaiseTlb? && !pc.AwaitTlb? && !pc.Returned?
  }
}
