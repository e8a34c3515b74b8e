/**
 paging_unmap_in (src/paging.c:815-841) from call to return: every page it is asked
 for is removed from the page table, and no cpu caches any translation of it, unless
 the page was mapped again.
 */
module IpmUnmap {
  import opened Ipm
  import opened IpmBase
  import opened IpmTheorems
  import M = IpmMessages
  import T = IpmTlb

  // ---------- what is removed stays so ----------

  /** What activity a removed stays recorded until somebody maps that translation again; ids are not reused. */
  lemma GoneStep(s: State, e: Event, a: ActId, t: Translation)
    requires Enabled(s, e) && a < s.nextId && e != MapPage(t.page, t.frame)
    requires a in s.acts ==> Gone(s.acts[a].gone, t)
    ensures a < Apply(s, e).nextId
    ensures a in Apply(s, e).acts ==> a in s.acts && Gone(Apply(s, e).acts[a].gone, t)
  {
    if e.Tick? { TickShape(s, e.a); }
    if e.MapPage? && a in s.acts { T.BackGone(s.acts[a].gone, Translation(e.page, e.frame), t); }
  }

  lemma {:induction false} GoneStays(run: seq<State>, events: seq<Event>, i: nat, j: nat, a: ActId, t: Translation)
    requires IsRun(run, events) && i <= j < |run| && a < run[i].nextId
    requires a in run[i].acts ==> Gone(run[i].acts[a].gone, t)
    requires forall x | i <= x < j :: events[x] != MapPage(t.page, t.frame)
    ensures a < run[j].nextId && (a in run[j].acts ==> Gone(run[j].acts[a].gone, t))
  {
    if i < j {
      GoneStays(run, events, i, j - 1, a, t);
      assert StepAt(run, events, j - 1);
      GoneStep(run[j - 1], events[j - 1], a, t);
    }
  }

  /** A step of activity a takes page p out of the page table. */
  predicate Removes(run: seq<State>, events: seq<Event>, x: nat, a: ActId, p: Page)
    requires x < |events| < |run|
  {
    events[x] == Tick(a) && p in run[x].mmu.pt && p !in run[x + 1].mmu.pt
  }

  lemma OnlyRemoveRemoves(s: State, a: ActId, p: Page)
    requires a in s.acts && p in s.mmu.pt && p !in TickAct(s, a).mmu.pt
    ensures s.acts[a].pc.Remove? && s.acts[a].pc.todo != [] && s.acts[a].pc.todo[0] == p
  {
    if IsHandler(s.acts[a].pc) { HandlerKeepsTable(s, a); }
    else if IsPager(s.acts[a].pc) { PagerKeepsTable(s, a, p); }
    else { SenderKeepsTable(s, a); }
  }

  lemma HandlerKeepsTable(s: State, a: ActId)
    requires a in s.acts && IsHandler(s.acts[a].pc)
    ensures TickAct(s, a).mmu.pt == s.mmu.pt
  {
  }

  lemma SenderKeepsTable(s: State, a: ActId)
    requires a in s.acts && IsSender(s.acts[a].pc)
    ensures TickAct(s, a).mmu.pt == s.mmu.pt
  {
  }

  lemma PagerKeepsTable(s: State, a: ActId, p: Page)
    requires a in s.acts && IsPager(s.acts[a].pc) && p in s.mmu.pt && p !in TickAct(s, a).mmu.pt
    ensures s.acts[a].pc.Remove? && s.acts[a].pc.todo != [] && s.acts[a].pc.todo[0] == p
  {
  }

  /** Page p is removed at event x by an activity that has returned in state j. Then no TLB holds a translation of p
      that was not mapped since, and it is not in the page table. */
  lemma RemovedEverywhere(run: seq<State>, events: seq<Event>, x: nat, j: nat, a: ActId, p: Page, f: Frame, d: Cpu)
    requires IsRun(run, events) && x < j < |run| && Removes(run, events, x, a, p) && d < run[j].cpus
    requires forall y | x < y < j :: events[y] != MapPage(p, f)
    requires a in run[j].acts && run[j].acts[a].pc == Returned
    ensures Translation(p, f) !in run[j].mmu.Tlb(d) && !run[j].mmu.Mapped(Translation(p, f))
  {
    assert StepAt(run, events, x);
    OnlyRemoveRemoves(run[x], a, p);
    ActsAreOk(run, events, x, a);
    GoneStays(run, events, x + 1, j, a, Translation(p, f));
    ReturnedIsClean(run, events, j, a, Translation(p, f), d);
  }

  lemma ReturnedIsClean(run: seq<State>, events: seq<Event>, j: nat, a: ActId, t: Translation, c: Cpu)
    requires IsRun(run, events) && j < |run| && c < run[j].cpus && a in run[j].acts && run[j].acts[a].pc == Returned
    requires Gone(run[j].acts[a].gone, t)
    ensures t !in run[j].mmu.Tlb(c) && !run[j].mmu.Mapped(t)
  {
    RunsAreSafe(run, events, j);
    assert T.Clean(run[j], a) && T.Flushed(run[j], a, c);
  }

  // ---------- every page is removed ----------

  ghost predicate RemovedBetween(run: seq<State>, events: seq<Event>, i: nat, j: nat, a: ActId, p: Page)
    requires |run| == |events| + 1 && j < |run|
  {
    exists x: nat :: i < x < j && Removes(run, events, x, a, p)
  }

  /** The pages of `pages` that are not in `todo` any more were removed; outside the loop that is all of them. */
  ghost predicate Progress(run: seq<State>, events: seq<Event>, i: nat, j: nat, a: ActId, pages: seq<Page>)
    requires |run| == |events| + 1 && j < |run|
  {
    a < run[j].nextId && (a in run[j].acts ==>
      && IsPager(run[j].acts[a].pc)
      && (if run[j].acts[a].pc.Remove? then
            var todo := run[j].acts[a].pc.todo;
            && |todo| <= |pages| && todo == pages[|pages| - |todo|..]
            && (forall k | 0 <= k < |pages| - |todo| :: RemovedBetween(run, events, i, j, a, pages[k]))
          else forall k | 0 <= k < |pages| :: RemovedBetween(run, events, i, j, a, pages[k])))
  }

  lemma RemovedLater(run: seq<State>, events: seq<Event>, i: nat, j: nat, a: ActId, p: Page)
    requires |run| == |events| + 1 && j + 1 < |run| && RemovedBetween(run, events, i, j, a, p)
    ensures RemovedBetween(run, events, i, j + 1, a, p)
  {
    var x: nat :| i < x < j && Removes(run, events, x, a, p);
    assert i < x < j + 1 && Removes(run, events, x, a, p);
  }

  /** An event that is no step of a leaves it where it is. */
  lemma OtherEvent(s: State, e: Event, a: ActId)
    requires Enabled(s, e) && e != Tick(a) && a < s.nextId
    ensures a < Apply(s, e).nextId
    ensures a in Apply(s, e).acts ==> a in s.acts && Apply(s, e).acts[a].pc == s.acts[a].pc
  {
    if e.Tick? { TickShape(s, e.a); }
  }

  /** A step of a removes the next page, or does not move before it can. */
  lemma RemoveStep(s: State, a: ActId, todo: seq<Page>)
    requires a in s.acts && s.acts[a].pc == Remove(todo)
    ensures var s' := TickAct(s, a);
      && a in s'.acts
      && (s'.acts[a].pc == Remove(todo)
          || (todo != [] && s'.acts[a].pc == Remove(todo[1..]) && todo[0] in s.mmu.pt && todo[0] !in s'.mmu.pt)
          || (todo == [] && s'.acts[a].pc == LocalFlush))
  {
  }

  /** Once past the removals a stays past them. */
  lemma PastStep(s: State, a: ActId)
    requires a in s.acts && IsPager(s.acts[a].pc) && !s.acts[a].pc.Remove?
    ensures a in TickAct(s, a).acts ==> IsPager(TickAct(s, a).acts[a].pc) && !TickAct(s, a).acts[a].pc.Remove?
  {
  }

  lemma ProgressStep(run: seq<State>, events: seq<Event>, i: nat, j: nat, a: ActId, pages: seq<Page>)
    requires IsRun(run, events) && i < j < |events| && Progress(run, events, i, j, a, pages)
    ensures Progress(run, events, i, j + 1, a, pages)
  {
    assert StepAt(run, events, j);
    forall k | 0 <= k < |pages| && RemovedBetween(run, events, i, j, a, pages[k])
      ensures RemovedBetween(run, events, i, j + 1, a, pages[k]) {
      RemovedLater(run, events, i, j, a, pages[k]);
    }
    if events[j] != Tick(a) {
      OtherEvent(run[j], events[j], a);
    } else {
      TickShape(run[j], a);
      OwnProgress(run, events, i, j, a, pages);
    }
  }

  lemma OwnProgress(run: seq<State>, events: seq<Event>, i: nat, j: nat, a: ActId, pages: seq<Page>)
    requires |run| == |events| + 1 && i < j < |events| && StepAt(run, events, j) && events[j] == Tick(a)
    requires Progress(run, events, i, j, a, pages) && run[j].nextId <= run[j + 1].nextId
    requires forall k | 0 <= k < |pages| && RemovedBetween(run, events, i, j, a, pages[k]) ::
               RemovedBetween(run, events, i, j + 1, a, pages[k])
    ensures Progress(run, events, i, j + 1, a, pages)
  {
    if run[j].acts[a].pc.Remove? {
      var todo := run[j].acts[a].pc.todo;
      RemoveStep(run[j], a, todo);
      if todo != [] && run[j + 1].acts[a].pc == Remove(todo[1..]) {
        assert todo[0] == pages[|pages| - |todo|];
        assert i < j < j + 1 && Removes(run, events, j, a, todo[0]);
        assert RemovedBetween(run, events, i, j + 1, a, todo[0]);
      }
    } else {
      PastStep(run[j], a);
    }
  }

  lemma {:induction false} UnmapProgress(run: seq<State>, events: seq<Event>, i: nat, j: nat)
    requires IsRun(run, events) && i < j < |run| && events[i].Unmap?
    ensures Progress(run, events, i, j, run[i].nextId, events[i].pages)
  {
    if j == i + 1 {
      assert StepAt(run, events, i);
    } else {
      UnmapProgress(run, events, i, j - 1);
      ProgressStep(run, events, i, j - 1, run[i].nextId, events[i].pages);
    }
  }

  /** paging_unmap_in, called at event i, has returned in state j only if a step of it removed every page it was asked
      for. */
  lemma EveryPageRemoved(run: seq<State>, events: seq<Event>, i: nat, j: nat, p: Page)
    requires IsRun(run, events) && i < j < |run| && events[i].Unmap? && p in events[i].pages
    requires run[i].nextId in run[j].acts && run[j].acts[run[i].nextId].pc == Returned
    ensures RemovedBetween(run, events, i, j, run[i].nextId, p)
  {
    UnmapProgress(run, events, i, j);
    var k :| 0 <= k < |events[i].pages| && events[i].pages[k] == p;
  }

  /** Then, if nobody mapped page p since the call, p is not in the page table and no TLB of the machine holds any
      translation of it. */
  lemma UnmapReachesEveryTlb(run: seq<State>, events: seq<Event>, i: nat, j: nat, p: Page, f: Frame, d: Cpu)
    requires IsRun(run, events) && i < j < |run| && events[i].Unmap? && p in events[i].pages && d < run[j].cpus
    requires run[i].nextId in run[j].acts && run[j].acts[run[i].nextId].pc == Returned
    requires forall y | i < y < j && events[y].MapPage? :: events[y].page != p
    ensures p !in run[j].mmu.pt && Translation(p, f) !in run[j].mmu.Tlb(d)
  {
    EveryPageRemoved(run, events, i, j, p);
    var x: nat :| i < x < j && Removes(run, events, x, run[i].nextId, p);
    RemovedEverywhere(run, events, x, j, run[i].nextId, p, f, d);
    if p in run[j].mmu.pt { RemovedEverywhere(run, events, x, j, run[i].nextId, p, run[j].mmu.pt[p], d); }
  }
}
