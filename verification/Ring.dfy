/**
 The circular doubly linked list of src/list.c, embedded in memory: a
 list_node is two words, prev then next. A ring is the sequence of the addresses
 of its nodes, the list head first.
 */
module Ring {
  import opened Memory

  const LINK: nat := 8

  function Succ(l: seq<nat>, i: nat): (r: nat)
    requires i < |l|
    ensures r < |l|
  {
    if i + 1 == |l| then 0 else i + 1
  }

  function Pred(l: seq<nat>, i: nat): (r: nat)
    requires i < |l|
    ensures r < |l| && Succ(l, r) == i
  {
    if i == 0 then |l| - 1 else i - 1
  }

  function Prev(m: seq<Byte>, a: nat): Word
    requires a + LINK <= |m|
  {
    Read(m, a)
  }

  function Next(m: seq<Byte>, a: nat): Word
    requires a + LINK <= |m|
  {
    Read(m, a + 4)
  }

  /** The nodes are in memory and do not overlap. */
  ghost predicate Spread(m: seq<Byte>, l: seq<nat>) {
    && (forall i | 0 <= i < |l| :: l[i] + LINK <= |m| && l[i] < WORD)
    && (forall i, j {:trigger Parted(l, i, j)} | 0 <= i < j < |l| :: Parted(l, i, j))
  }

  ghost predicate Parted(l: seq<nat>, i: nat, j: nat) {
    i < |l| && j < |l| && (l[i] + LINK <= l[j] || l[j] + LINK <= l[i])
  }

  /** Node number i points at its neighbours. */
  ghost predicate Linked(m: seq<Byte>, l: seq<nat>, i: nat) {
    i < |l| && l[i] + LINK <= |m| && Next(m, l[i]) == l[Succ(l, i)] && Prev(m, l[i]) == l[Pred(l, i)]
  }

  ghost predicate IsRing(m: seq<Byte>, l: seq<nat>) {
    && l != [] && Spread(m, l)
    && forall i {:trigger Linked(m, l, i)} | 0 <= i < |l| :: Linked(m, l, i)
  }

  /** Only the list_node at address a may differ. */
  ghost predicate OnlyLink(m: seq<Byte>, m': seq<Byte>, a: nat) {
    |m'| == |m| && forall b {:trigger m'[b]} | 0 <= b < |m| && !(a <= b < a + LINK) :: m'[b] == m[b]
  }

  /** Two list_nodes are the same or do not overlap. */
  predicate Apart(a: nat, b: nat) {
    a == b || a + LINK <= b || b + LINK <= a
  }

  /** list_init. */
  function Init(m: seq<Byte>, n: nat): (r: seq<Byte>)
    requires n + LINK <= |m| && n < WORD
    ensures |r| == |m| && Next(r, n) == n && Prev(r, n) == n
    ensures OnlyLink(m, r, n)
  {
    Write(Write(m, n, n), n + 4, n)
  }

  function SetNext(m: seq<Byte>, a: nat, v: Word): (r: seq<Byte>)
    requires a + LINK <= |m|
    ensures |r| == |m| && Next(r, a) == v && OnlyLink(m, r, a)
  {
    Write(m, a + 4, v)
  }

  function SetPrev(m: seq<Byte>, a: nat, v: Word): (r: seq<Byte>)
    requires a + LINK <= |m|
    ensures |r| == |m| && Prev(r, a) == v && OnlyLink(m, r, a)
  {
    Write(m, a, v)
  }

  /** list_add_between. */
  function AddBetween(m: seq<Byte>, prev: nat, n: nat, next: nat): (r: seq<Byte>)
    requires prev + LINK <= |m| && n + LINK <= |m| && next + LINK <= |m| && prev < WORD && n < WORD && next < WORD
    ensures |r| == |m|
  {
    SetNext(SetPrev(SetPrev(SetNext(m, prev, n), next, n), n, prev), n, next)
  }

  /** list_del. */
  function Del(m: seq<Byte>, n: nat): (r: seq<Byte>)
    requires n + LINK <= |m| && n < WORD && Prev(m, n) + LINK <= |m| && Next(m, n) + LINK <= |m|
    requires Apart(Prev(m, n), n) && Apart(Next(m, n), n)
    ensures |r| == |m|
  {
    var m1 := SetNext(m, Prev(m, n), Next(m, n));
    Init(SetPrev(m1, Next(m1, n), Prev(m1, n)), n)
  }

  function Insert(l: seq<nat>, i: nat, n: nat): (r: seq<nat>)
    requires i <= |l|
    ensures |r| == |l| + 1
    ensures forall k {:trigger r[k]} | 0 <= k < |r| :: r[k] == if k < i then l[k] else if k == i then n else l[k - 1]
  {
    l[..i] + [n] + l[i..]
  }

  function Remove(l: seq<nat>, i: nat): (r: seq<nat>)
    requires i < |l|
    ensures |r| == |l| - 1
    ensures forall k {:trigger r[k]} | 0 <= k < |r| :: r[k] == if k < i then l[k] else l[k + 1]
  {
    l[..i] + l[i + 1..]
  }

  /** n overlaps no node of the ring. */
  ghost predicate Separate(m: seq<Byte>, l: seq<nat>, n: nat) {
    n + LINK <= |m| && n < WORD && forall i | 0 <= i < |l| :: l[i] + LINK <= n || n + LINK <= l[i]
  }

  /** What list_add_between does to the links of some node x. */
  lemma AddBetweenEffect(m: seq<Byte>, p: nat, n: nat, q: nat, x: nat)
    requires p + LINK <= |m| && n + LINK <= |m| && q + LINK <= |m| && x + LINK <= |m| && p < WORD && n < WORD
    requires q < WORD
    requires Apart(x, p) && Apart(x, q) && Apart(x, n) && Apart(p, n) && Apart(q, n) && Apart(p, q) && p != n && q != n
    requires x != n
    ensures var m' := AddBetween(m, p, n, q);
      && Next(m', n) == q && Prev(m', n) == p
      && Next(m', x) == (if x == p then n else Next(m, x)) && Prev(m', x) == (if x == q then n else Prev(m, x))
  {
    var m1 := SetNext(m, p, n);
    var m2 := SetPrev(m1, q, n);
    var m3 := SetPrev(m2, n, p);
    var m4 := SetNext(m3, n, q);
    assert Next(m4, x) == Next(m3, x) == Next(m2, x) == Next(m1, x);
    assert Prev(m4, x) == Prev(m3, x) == Prev(m2, x);
    assert Prev(m4, n) == Prev(m3, n);
  }

  lemma DelEffect(m: seq<Byte>, p: nat, n: nat, q: nat, x: nat)
    requires p + LINK <= |m| && n + LINK <= |m| && q + LINK <= |m| && x + LINK <= |m| && n < WORD
    requires Prev(m, n) == p && Next(m, n) == q
    requires Apart(x, p) && Apart(x, q) && Apart(x, n) && Apart(p, n) && Apart(q, n) && Apart(p, q) && p != n && q != n
    requires x != n
    ensures var m' := Del(m, n);
      Next(m', x) == (if x == p then q else Next(m, x)) && Prev(m', x) == (if x == q then p else Prev(m, x))
  {
    var m1 := SetNext(m, p, q);
    assert Next(m1, n) == q && Prev(m1, n) == p;
    var m2 := SetPrev(m1, q, p);
    var m3 := Init(m2, n);
    assert Next(m3, x) == Next(m2, x) == Next(m1, x);
    assert Prev(m3, x) == Prev(m2, x);
  }

  lemma InsertNeighbours(l: seq<nat>, i: nat, n: nat, k: nat)
    requires i < |l| && k <= |l|
    ensures var l' := Insert(l, i + 1, n);
      && l'[Succ(l', k)] == (if k == i then n else if k == i + 1 then l[Succ(l, i)]
                             else l[Succ(l, if k < i then k else k - 1)])
      && l'[Pred(l', k)] == (if k == i + 1 then l[i] else if k == (if i + 1 == |l| then 0 else i + 2) then n
                             else l[Pred(l, if k <= i then k else k - 1)])
  {
  }

  lemma InsertSpread(m: seq<Byte>, m': seq<Byte>, l: seq<nat>, i: nat, n: nat)
    requires Spread(m, l) && i <= |l| && Separate(m, l, n) && |m'| == |m|
    ensures Spread(m', Insert(l, i, n))
  {
    var l' := Insert(l, i, n);
    forall a, b | 0 <= a < b < |l'| ensures Parted(l', a, b) {
      assert a != i && b != i ==> Parted(l, if a < i then a else a - 1, if b < i then b else b - 1);
    }
  }

  lemma InsertLink(m: seq<Byte>, l: seq<nat>, i: nat, n: nat, k: nat)
    requires IsRing(m, l) && i < |l| && Separate(m, l, n) && k <= |l|
    ensures var m', l' := AddBetween(m, l[i], n, l[Succ(l, i)]), Insert(l, i + 1, n);
            Linked(m', l', k)
  {
    InsertNeighbours(l, i, n, k);
    var j := if k <= i then k else k - 1;
    assert Linked(m, l, j);
    NodesApart(m, l, j, i);
    NodesApart(m, l, j, Succ(l, i));
    NodesApart(m, l, i, Succ(l, i));
    AddBetweenEffect(m, l[i], n, l[Succ(l, i)], l[j]);
  }

  /** list_add_between after position i inserts at position i + 1. */
  lemma AddBetweenRing(m: seq<Byte>, l: seq<nat>, i: nat, n: nat)
    requires IsRing(m, l) && i < |l| && Separate(m, l, n)
    ensures IsRing(AddBetween(m, l[i], n, l[Succ(l, i)]), Insert(l, i + 1, n))
  {
    var m', l' := AddBetween(m, l[i], n, l[Succ(l, i)]), Insert(l, i + 1, n);
    InsertSpread(m, m', l, i + 1, n);
    forall k | 0 <= k < |l'| ensures Linked(m', l', k) {
      InsertLink(m, l, i, n, k);
    }
  }

  lemma Neighbours(m: seq<Byte>, l: seq<nat>, i: nat)
    requires IsRing(m, l) && 1 <= i < |l|
    ensures Prev(m, l[i]) == l[i - 1] && Next(m, l[i]) == l[Succ(l, i)]
    ensures l[i - 1] + LINK <= |m| && l[Succ(l, i)] + LINK <= |m| && l[i] < WORD
    ensures Apart(l[i - 1], l[i]) && Apart(l[Succ(l, i)], l[i]) && l[i - 1] != l[i] && l[Succ(l, i)] != l[i]
    ensures Apart(l[i - 1], l[Succ(l, i)])
  {
    assert Linked(m, l, i);
    NodesApart(m, l, i - 1, i);
    NodesApart(m, l, Succ(l, i), i);
    NodesApart(m, l, i - 1, Succ(l, i));
  }

  lemma RemoveNeighbours(l: seq<nat>, i: nat, k: nat)
    requires 1 <= i < |l| && k + 1 < |l|
    ensures var l' := Remove(l, i);
      && l'[Succ(l', k)] == (if k == i - 1 then l[Succ(l, i)] else l[Succ(l, if k < i then k else k + 1)])
      && l'[Pred(l', k)] == (if (if k < i then k else k + 1) == Succ(l, i) then l[i - 1]
                             else l[Pred(l, if k < i then k else k + 1)])
  {
  }

  lemma RemoveSpread(m: seq<Byte>, m': seq<Byte>, l: seq<nat>, i: nat)
    requires Spread(m, l) && i < |l| && |m'| == |m|
    ensures Spread(m', Remove(l, i))
  {
    var l' := Remove(l, i);
    forall a, b | 0 <= a < b < |l'| ensures Parted(l', a, b) {
      assert Parted(l, if a < i then a else a + 1, if b < i then b else b + 1);
    }
  }

  /** The links of node number j of the old ring after list_del of node number i. */
  lemma DelLinks(m: seq<Byte>, m': seq<Byte>, l: seq<nat>, i: nat, j: nat)
    requires IsRing(m, l) && 1 <= i < |l| && j < |l| && j != i
    requires l[i - 1] + LINK <= |m| && l[Succ(l, i)] + LINK <= |m| && Apart(l[i - 1], l[i])
    requires Apart(l[Succ(l, i)], l[i])
    requires Prev(m, l[i]) == l[i - 1] && Next(m, l[i]) == l[Succ(l, i)]
    requires m' == Del(m, l[i])
    ensures l[j] + LINK <= |m'| && Next(m', l[j]) == (if j == i - 1 then l[Succ(l, i)] else l[Succ(l, j)])
    ensures Prev(m', l[j]) == if j == Succ(l, i) then l[i - 1] else l[Pred(l, j)]
  {
    assert Linked(m, l, j);
    NodesApart(m, l, j, i);
    NodesApart(m, l, j, i - 1);
    NodesApart(m, l, j, Succ(l, i));
    Neighbours(m, l, i);
    DelEffect(m, l[i - 1], l[i], l[Succ(l, i)], l[j]);
  }

  lemma NodesApart(m: seq<Byte>, l: seq<nat>, a: nat, b: nat)
    requires Spread(m, l) && a < |l| && b < |l|
    ensures Apart(l[a], l[b]) && (l[a] == l[b] ==> a == b)
  {
    if a != b { assert Parted(l, if a < b then a else b, if a < b then b else a); }
  }

  /** list_del of the node at position i >= 1 removes it; the head stays. */
  lemma DelRing(m: seq<Byte>, l: seq<nat>, i: nat)
    requires IsRing(m, l) && 1 <= i < |l|
    ensures Prev(m, l[i]) == l[i - 1] && Next(m, l[i]) == l[Succ(l, i)]
    ensures l[i - 1] + LINK <= |m| && l[Succ(l, i)] + LINK <= |m| && Apart(l[i - 1], l[i]) && Apart(l[Succ(l, i)], l[i])
    ensures IsRing(Del(m, l[i]), Remove(l, i))
  {
    Neighbours(m, l, i);
    var m', l' := Del(m, l[i]), Remove(l, i);
    RemoveSpread(m, m', l, i);
    forall k | 0 <= k < |l'| ensures Linked(m', l', k) {
      RemoveNeighbours(l, i, k);
      DelLinks(m, m', l, i, if k < i then k else k + 1);
    }
  }
}
