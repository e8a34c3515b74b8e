/** Order: messages other than shootdowns are dequeued at most once, in the order in which they were sent. */
module IpmDelivery {
  import opened Ipm

  /** The kmalloc'ed messages of a queue: everything but shootdowns. */
  function HeapOnly(q: seq<MsgRef>): seq<MsgRef> {
    if q == [] then [] else (if q[0].Heap? then [q[0]] else []) + HeapOnly(q[1..])
  }

  lemma {:induction false} HeapOnlyAppend(q: seq<MsgRef>, m: MsgRef)
    requires m.Heap?
    ensures HeapOnly(q + [m]) == HeapOnly(q) + [m]
  {
    if q == [] {
      assert q + [m] == [m];
    } else {
      var rest := HeapOnly(q[1..]);
      assert (q + [m])[1..] == q[1..] + [m];
      HeapOnlyAppend(q[1..], m);
      assert [q[0]] + (rest + [m]) == [q[0]] + rest + [m];
    }
  }

  /** The shootdowns of a queue come before everything else. */
  predicate ShootdownsFirst(q: seq<MsgRef>) {
    forall i, j | 0 <= i < j < |q| && q[j].Stack? :: q[i].Stack?
  }

  /** What was received and what is queued, in order, is what was sent; no message was sent twice. */
  ghost predicate LogOk(s: State, c: Cpu) {
    var sent := s.net.Sent(c);
    && s.net.Received(c) + HeapOnly(s.net.Queue(c)) == sent && ShootdownsFirst(s.net.Queue(c))
    && (forall i | 0 <= i < |sent| :: sent[i].Heap? && sent[i].id < s.nextId)
    && (forall i, j | 0 <= i < j < |sent| :: sent[i].id < sent[j].id)
  }

  ghost predicate Apart(s: State, c: Cpu, d: Cpu) {
    c != d ==> forall m | m in s.net.Sent(c) :: m !in s.net.Sent(d)
  }

  ghost predicate LogInv(s: State) {
    (forall c: Cpu :: LogOk(s, c)) && (forall c: Cpu, d: Cpu :: Apart(s, c, d))
  }

  /** Nothing was sent. */
  lemma SameSent(s: State, s': State)
    requires LogInv(s) && s'.net.sent == s.net.sent
    ensures forall d: Cpu, e: Cpu :: Apart(s', d, e)
  {
    forall d: Cpu, e: Cpu ensures Apart(s', d, e) {
      assert Apart(s, d, e) && s'.net.Sent(d) == s.net.Sent(d) && s'.net.Sent(e) == s.net.Sent(e);
    }
  }

  predicate SameLog(net: Net, net': Net, c: Cpu) {
    net'.Queue(c) == net.Queue(c) && net'.Sent(c) == net.Sent(c) && net'.Received(c) == net.Received(c)
  }

  lemma LogSame(s: State, s': State, c: Cpu)
    requires LogOk(s, c) && s.nextId <= s'.nextId && SameLog(s.net, s'.net, c)
    ensures LogOk(s', c)
  {
  }

  lemma LogFrame(s: State, s': State)
    requires LogInv(s) && s'.nextId >= s.nextId
    requires s'.net.queues == s.net.queues && s'.net.sent == s.net.sent && s'.net.received == s.net.received
    ensures LogInv(s')
  {
    forall c: Cpu ensures LogOk(s', c) { LogSame(s, s', c); }
    SameSent(s, s');
  }

  /** Taking the first message of a queue moves it, if it is kmalloc'ed, from one part of the log to the other. */
  lemma TakeFirst(q: seq<MsgRef>, received: seq<MsgRef>)
    requires q != []
    ensures (if q[0].Heap? then received + [q[0]] else received) + HeapOnly(q[1..]) == received + HeapOnly(q)
  {
    if q[0].Heap? { assert received + [q[0]] + HeapOnly(q[1..]) == received + ([q[0]] + HeapOnly(q[1..])); }
    else { assert [] + HeapOnly(q[1..]) == HeapOnly(q[1..]); }
  }

  lemma DequeueOk(s: State, s': State, c: Cpu, m: MsgRef)
    requires LogOk(s, c) && s'.nextId == s.nextId && s.net.Queue(c) != [] && m == s.net.Queue(c)[0]
    requires s'.net.Queue(c) == s.net.Queue(c)[1..] && s'.net.Sent(c) == s.net.Sent(c)
    requires s'.net.Received(c) == if m.Heap? then s.net.Received(c) + [m] else s.net.Received(c)
    ensures LogOk(s', c)
  {
    TakeFirst(s.net.Queue(c), s.net.Received(c));
  }

  lemma LogDequeue(s: State, s': State, c: Cpu)
    requires LogInv(s) && s'.nextId == s.nextId && s.net.Queue(c) != []
    requires s'.net.queues == s.net.queues[c := s.net.Queue(c)[1..]] && s'.net.sent == s.net.sent
    requires var m := s.net.Queue(c)[0];
             s'.net.received == if m.Heap? then s.net.received[c := s.net.Received(c) + [m]] else s.net.received
    ensures LogInv(s')
  {
    forall d: Cpu ensures LogOk(s', d) {
      if d == c { DequeueOk(s, s', c, s.net.Queue(c)[0]); } else { LogSame(s, s', d); }
    }
    SameSent(s, s');
  }

  lemma HeapOnlyTlb(q: seq<MsgRef>, m: MsgRef)
    requires m.Stack?
    ensures HeapOnly([m] + q) == HeapOnly(q)
  {
    assert ([m] + q)[1..] == q;
  }

  lemma EnqueueTlbOk(s: State, s': State, c: Cpu, m: MsgRef)
    requires LogOk(s, c) && s'.nextId == s.nextId && m.Stack? && s'.net.Queue(c) == [m] + s.net.Queue(c)
    requires s'.net.Sent(c) == s.net.Sent(c) && s'.net.Received(c) == s.net.Received(c)
    ensures LogOk(s', c)
  {
    HeapOnlyTlb(s.net.Queue(c), m);
  }

  lemma LogEnqueueTlb(s: State, s': State, c: Cpu, m: MsgRef)
    requires LogInv(s) && s'.nextId == s.nextId && m.Stack?
    requires s'.net.queues == s.net.queues[c := [m] + s.net.Queue(c)]
    requires s'.net.sent == s.net.sent && s'.net.received == s.net.received
    ensures LogInv(s')
  {
    forall d: Cpu ensures LogOk(s', d) {
      if d == c { EnqueueTlbOk(s, s', c, m); } else { LogSame(s, s', d); }
    }
    SameSent(s, s');
  }

  lemma LogEnqueueOk(s: State, s': State, c: Cpu, m: MsgRef)
    requires LogOk(s, c) && s'.nextId == s.nextId + 1 && m == Heap(s.nextId)
    requires s'.net.Queue(c) == s.net.Queue(c) + [m] && s'.net.Sent(c) == s.net.Sent(c) + [m]
    requires s'.net.Received(c) == s.net.Received(c)
    ensures LogOk(s', c)
  {
    HeapOnlyAppend(s.net.Queue(c), m);
  }

  lemma EnqueueApart(s: State, s': State, c: Cpu, m: MsgRef, d: Cpu, e: Cpu)
    requires Apart(s, d, e) && LogOk(s, d) && LogOk(s, e) && m == Heap(s.nextId)
    requires s'.net.Sent(d) == if d == c then s.net.Sent(d) + [m] else s.net.Sent(d)
    requires s'.net.Sent(e) == if e == c then s.net.Sent(e) + [m] else s.net.Sent(e)
    ensures Apart(s', d, e)
  {
  }

  lemma LogEnqueue(s: State, s': State, c: Cpu, m: MsgRef)
    requires LogInv(s) && s'.nextId == s.nextId + 1 && m == Heap(s.nextId)
    requires s'.net.queues == s.net.queues[c := s.net.Queue(c) + [m]]
    requires s'.net.sent == s.net.sent[c := s.net.Sent(c) + [m]] && s'.net.received == s.net.received
    ensures LogInv(s')
  {
    forall d: Cpu ensures LogOk(s', d) { if d == c { LogEnqueueOk(s, s', c, m); } else { LogSame(s, s', d); } }
    forall d: Cpu, e: Cpu ensures Apart(s', d, e) { EnqueueApart(s, s', c, m, d, e); }
  }
}
