/** The write queue (src/blk.c, qcmp, qput and qpop): a binary heap ordered by barrier generation. */
module SyncQueue {

  /** In priority order within one generation. */
  datatype QOp = Qfence | Qwrite | Qfree

  function OpRank(op: QOp): int {
    match op
    case Qfence => 1
    case Qwrite => 2
    case Qfree => 3
  }

  /** blk stands for the block that a write holds on to. */
  datatype Qent = Qent(qgen: int, op: QOp, addr: int, blk: int)

  /** -1, 0 or 1 by generation, then operation, then address. */
  function QCmp(a: Qent, b: Qent): (c: int)
    ensures c == 1 <==> Before(b, a)
    ensures c == -1 <==> Before(a, b)
  {
    if a.qgen != b.qgen then (if a.qgen < b.qgen then -1 else 1)
    else if a.op != b.op then (if OpRank(a.op) < OpRank(b.op) then -1 else 1)
    else if a.addr != b.addr then (if a.addr < b.addr then -1 else 1)
    else 0
  }

  ghost predicate Before(a: Qent, b: Qent) {
    || a.qgen < b.qgen
    || (a.qgen == b.qgen && OpRank(a.op) < OpRank(b.op))
    || (a.qgen == b.qgen && a.op == b.op && a.addr < b.addr)
  }

  /** Not after: a total preorder. */
  ghost predicate Le(a: Qent, b: Qent) {
    !Before(b, a)
  }

  function Parent(j: int): int { (j - 1) / 2 }

  ghost predicate Edge(s: seq<Qent>, j: nat) {
    1 <= j < |s| && Le(s[Parent(j)], s[j])
  }

  /** Every entry but the root is not before its parent. */
  ghost predicate IsHeap(s: seq<Qent>) {
    forall j: nat {:trigger Edge(s, j)} :: 1 <= j < |s| ==> Edge(s, j)
  }

  lemma LeTrans(a: Qent, b: Qent, c: Qent)
    requires Le(a, b) && Le(b, c)
    ensures Le(a, c)
  {
  }

  /** The root of a heap is not after any entry. */
  lemma {:induction false} RootLeast(s: seq<Qent>, j: nat)
    requires IsHeap(s) && j < |s|
    ensures Le(s[0], s[j])
  {
    hide Le;
    if j > 0 {
      assert Edge(s, j);
      RootLeast(s, Parent(j));
      LeTrans(s[0], s[Parent(j)], s[j]);
    } else {
      LeRefl(s[0]);
    }
  }

  lemma LeRefl(a: Qent)
    ensures Le(a, a)
  {
  }

  /** Child j of i is not before the parent of i. */
  ghost predicate Over(s: seq<Qent>, i: nat, j: nat) {
    0 < i < |s| && j < |s| && Le(s[Parent(i)], s[j])
  }

  /** The heap with its gap at i filled by x, while x climbs: only x may be before its parent,
      and what lies under the gap is not before what lies over it. */
  ghost predicate Climbing(s: seq<Qent>, i: nat) {
    && i < |s|
    && (forall j: nat {:trigger Edge(s, j)} :: 1 <= j < |s| && j != i ==> Edge(s, j))
    && (forall j: nat {:trigger Over(s, i, j)} :: 1 <= j < |s| && Parent(j) == i && i > 0 ==> Over(s, i, j))
  }

  /** The heap while s[i] sinks: only s[i] may be after its children. */
  ghost predicate Sinking(s: seq<Qent>, i: nat) {
    && i < |s|
    && (forall j: nat {:trigger Edge(s, j)} :: 1 <= j < |s| && Parent(j) != i ==> Edge(s, j))
    && (forall j: nat {:trigger Over(s, i, j)} :: 1 <= j < |s| && Parent(j) == i && i > 0 ==> Over(s, i, j))
  }

  lemma Climb(s: seq<Qent>, i: nat, t: seq<Qent>)
    requires Climbing(s, i) && i > 0 && Le(s[i], s[Parent(i)])
    requires t == s[i := s[Parent(i)]][Parent(i) := s[i]]
    ensures Climbing(t, Parent(i))
  {
    hide Le;
    var p := Parent(i);
    forall j: nat | 1 <= j < |t| && j != p
      ensures Edge(t, j)
    {
      if j != i {
        assert Edge(s, j);
        if Parent(j) == p { LeTrans(s[i], s[p], s[j]); }
        if Parent(j) == i { assert Over(s, i, j); }
      }
    }
    forall j: nat | 1 <= j < |t| && Parent(j) == p && p > 0
      ensures Over(t, p, j)
    {
      assert Edge(s, p);
      if j != i {
        assert Edge(s, j);
        LeTrans(s[Parent(p)], s[p], s[j]);
      }
    }
  }

  lemma Climbed(s: seq<Qent>, i: nat)
    requires Climbing(s, i) && (i > 0 ==> Le(s[Parent(i)], s[i]))
    ensures IsHeap(s)
  {
  }

  /** m is the least of i and its children. */
  ghost predicate Least(s: seq<Qent>, i: nat, m: nat) {
    && i < |s| && m < |s| && (m == i || m == 2 * i + 1 || m == 2 * i + 2)
    && Le(s[m], s[i])
    && (2 * i + 1 < |s| ==> Le(s[m], s[2 * i + 1]))
    && (2 * i + 2 < |s| ==> Le(s[m], s[2 * i + 2]))
  }

  lemma Sink(s: seq<Qent>, i: nat, m: nat, t: seq<Qent>)
    requires Sinking(s, i) && Least(s, i, m) && m != i
    requires t == s[i := s[m]][m := s[i]]
    ensures Sinking(t, m)
  {
    hide Le;
    assert Parent(m) == i;
    forall j: nat | 1 <= j < |t| && Parent(j) != m
      ensures Edge(t, j)
    {
      if Parent(j) == i {
        assert j == 2 * i + 1 || j == 2 * i + 2;
      } else {
        assert Edge(s, j);
        if j == i { assert Over(s, i, m); }
      }
    }
    forall j: nat | 1 <= j < |t| && Parent(j) == m
      ensures Over(t, m, j)
    {
      assert Edge(s, j);
    }
  }

  lemma Sunk(s: seq<Qent>, i: nat)
    requires Sinking(s, i) && Least(s, i, i)
    ensures IsHeap(s)
  {
    hide Le;
    forall j: nat | 1 <= j < |s| ensures Edge(s, j) {
      if Parent(j) == i { assert j == 2 * i + 1 || j == 2 * i + 2; }
    }
  }

  /** The same entries. */
  ghost predicate SameBag(s: seq<Qent>, t: seq<Qent>) {
    multiset(s) == multiset(t)
  }

  lemma SwapSame(s: seq<Qent>, i: nat, j: nat, t: seq<Qent>)
    requires i < |s| && j < |s| && SameBag(s, t)
    ensures SameBag(s[i := s[j]][j := s[i]], t)
  {
  }

  class Syncq {
    var heap: array<Qent>
    var nheap: nat

    ghost predicate Valid()
      reads this, heap
    {
      nheap <= heap.Length && IsHeap(heap[..nheap])
    }

    /** The entries put and not yet popped. */
    ghost function Pending(): multiset<Qent>
      reads this, heap
      requires nheap <= heap.Length
    {
      multiset(heap[..nheap])
    }

    constructor (size: nat, zero: Qent)
      ensures Valid() && fresh(heap) && heap.Length == size && nheap == 0 && Pending() == multiset{}
    {
      heap := new Qent[size](_ => zero);
      nheap := 0;
    }

    /** qput, once there is room: the entry climbs from the end. */
    method QPut(qe: Qent)
      requires Valid() && nheap < heap.Length
      modifies this`nheap, heap
      ensures Valid() && nheap == old(nheap) + 1 && heap == old(heap)
      ensures Pending() == old(Pending()) + multiset{qe}
    {
      hide Le, Before, IsHeap, Climbing, QCmp, SameBag;
      ghost var was := heap[..nheap];
      ClimbUp(heap, nheap, qe);
      nheap := nheap + 1;
      BagOne(heap[..nheap], was, qe);
    }

    /** qpop, once there is an entry: the root leaves, the last entry takes its place and sinks. */
    method QPop() returns (e: Qent)
      requires Valid() && nheap > 0
      modifies this`nheap, heap
      ensures Valid() && nheap == old(nheap) - 1 && heap == old(heap)
      ensures e in old(Pending()) && Pending() == old(Pending()) - multiset{e}
      ensures forall x :: x in old(Pending()) ==> Le(e, x)
    {
      hide Le, Before, IsHeap, Sinking, QCmp, SameBag;
      ghost var was := heap[..nheap];
      e := heap[0];
      nheap := nheap - 1;
      DropRoot(was);
      if nheap == 0 {
        assert heap[..0] == [];
        EmptyHeap();
      } else {
        heap[0] := heap[nheap];
        assert heap[..nheap] == LastFirst(was);
        SinkDown(heap, nheap);
      }
      Popped(was, heap[..nheap]);
    }
  }

  /** The last entry in place of the root. */
  function LastFirst(s: seq<Qent>): seq<Qent>
    requires |s| > 1
  {
    [s[|s| - 1]] + s[1..|s| - 1]
  }

  lemma Popped(was: seq<Qent>, now: seq<Qent>)
    requires IsHeap(was) && was != []
    requires if |was| == 1 then now == [] else SameBag(now, LastFirst(was))
    ensures was[0] in multiset(was) && multiset(now) == multiset(was) - multiset{was[0]}
    ensures forall x :: x in multiset(was) ==> Le(was[0], x)
  {
    hide Le, IsHeap;
    RootFirst(was);
    if |was| > 1 {
      assert was == [was[0]] + was[1..|was| - 1] + [was[|was| - 1]];
    } else {
      assert was == [was[0]];
    }
  }

  lemma BagOne(s: seq<Qent>, t: seq<Qent>, x: Qent)
    requires SameBag(s, t + [x])
    ensures multiset(s) == multiset(t) + multiset{x}
  {
  }

  /** The loop of qput: entries after qe move down the tree until its place is found. */
  method ClimbUp(heap: array<Qent>, n: nat, qe: Qent)
    requires n < heap.Length && IsHeap(heap[..n])
    modifies heap
    ensures IsHeap(heap[..n + 1]) && SameBag(heap[..n + 1], old(heap[..n]) + [qe])
  {
    hide Le, Before, IsHeap, Climbing, QCmp, SameBag;
    var i := n;
    ghost var s := heap[..n] + [qe];
    StartClimb(heap[..n], qe);
    BagRefl(s);
    while i > 0
      invariant 0 <= i <= n
      invariant |s| == n + 1 && Climbing(s, i) && s[i] == qe
      invariant forall j :: 0 <= j <= n && j != i ==> heap[j] == s[j]
      invariant SameBag(s, old(heap[..n]) + [qe])
    {
      if QCmp(qe, heap[(i - 1) / 2]) == 1 {
        LeOfBefore(heap[(i - 1) / 2], qe);
        break;
      }
      ghost var p := Parent(i);
      NotAfter(qe, heap[p]);
      heap[i] := heap[(i - 1) / 2];
      ghost var t := s[i := s[p]][p := s[i]];
      SwapSame(s, i, p, old(heap[..n]) + [qe]);
      Climb(s, i, t);
      s := t;
      i := (i - 1) / 2;
    }
    heap[i] := qe;
    Climbed(s, i);
    assert heap[..n + 1] == s;
  }

  lemma BagRefl(s: seq<Qent>)
    ensures SameBag(s, s)
  {
  }

  /** The loop of qpop: the entry at the root changes places with its least child until it is
      itself the least. */
  method SinkDown(heap: array<Qent>, n: nat)
    requires 0 < n <= heap.Length && Sinking(heap[..n], 0)
    modifies heap
    ensures IsHeap(heap[..n]) && SameBag(heap[..n], old(heap[..n]))
  {
    hide Le, Before, IsHeap, Sinking, QCmp, SameBag, Least;
    var i := 0;
    BagRefl(heap[..n]);
    while true
      invariant 0 <= i < n && Sinking(heap[..n], i) && SameBag(heap[..n], old(heap[..n]))
      decreases n - i
    {
      ghost var s := heap[..n];
      var m := i;
      var l, r := 2 * i + 1, 2 * i + 2;
      if l < n && QCmp(heap[m], heap[l]) == 1 {
        m := l;
      }
      if r < n && QCmp(heap[m], heap[r]) == 1 {
        m := r;
      }
      LeastChild(s, i, m);
      if m == i {
        Sunk(s, i);
        break;
      }
      LeastIs(s, i, m);
      var t := heap[m];
      heap[m] := heap[i];
      heap[i] := t;
      assert heap[..n] == s[i := s[m]][m := s[i]];
      SwapSame(s, i, m, old(heap[..n]));
      Sink(s, i, m, heap[..n]);
      i := m;
    }
  }

  lemma LeastIs(s: seq<Qent>, i: nat, m: nat)
    requires Least(s, i, m)
    ensures m < |s| && (m == i || m == 2 * i + 1 || m == 2 * i + 2)
  {
  }

  lemma StartClimb(s: seq<Qent>, x: Qent)
    requires IsHeap(s)
    ensures Climbing(s + [x], |s|)
  {
    hide Le;
    forall j: nat | 1 <= j < |s| ensures Edge(s + [x], j) {
      assert Edge(s, j);
    }
  }

  lemma LeOfBefore(a: Qent, b: Qent)
    requires QCmp(b, a) == 1
    ensures Le(a, b)
  {
  }

  lemma NotAfter(a: Qent, b: Qent)
    requires QCmp(a, b) != 1
    ensures Le(a, b)
  {
  }

  lemma RootFirst(s: seq<Qent>)
    requires IsHeap(s) && s != []
    ensures forall x :: x in multiset(s) ==> Le(s[0], x)
  {
    forall x | x in multiset(s) ensures Le(s[0], x) {
      var j :| 0 <= j < |s| && s[j] == x;
      RootLeast(s, j);
    }
  }

  /** A heap with a root that may have to sink. */
  lemma DropRoot(s: seq<Qent>)
    requires IsHeap(s) && s != []
    ensures |s| > 1 ==> Sinking(LastFirst(s), 0)
  {
    hide Le;
    if |s| > 1 {
      var t := LastFirst(s);
      forall j: nat | 1 <= j < |t| && Parent(j) != 0 ensures Edge(t, j) {
        assert Edge(s, j);
      }
    }
  }

  lemma EmptyHeap()
    ensures IsHeap([])
  {
  }

  lemma LeastChild(s: seq<Qent>, i: nat, m: nat)
    requires i < |s|
    requires var l := if 2 * i + 1 < |s| && QCmp(s[i], s[2 * i + 1]) == 1 then 2 * i + 1 else i;
             m == if 2 * i + 2 < |s| && QCmp(s[l], s[2 * i + 2]) == 1 then 2 * i + 2 else l
    ensures Least(s, i, m)
  {
    hide QCmp;
  }
}
