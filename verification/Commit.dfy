/** The commit protocol as a state machine over its steps: sync's queued writes, other writers
    running beside it, and the syncer popping (src/fs.c, sync; src/blk.c, enqueue and runsync). */
module Commit {
  import opened SyncQueue

  type Addr = int

  /** What a commit consists of: a header per arena, and the blocks its snapshot tree needs. */
  datatype Commit = Commit(ver: nat, hdr: seq<Block>, req: map<Addr, Block>)

  /** Block contents. A hash stands for what it is the hash of, so a superblock, which holds the
      hashes of the headers and of the tree, is modelled as holding the commit itself. */
  datatype Block = Data(id: int) | Header(arena: nat, val: int) | Super(c: Commit)

  /** A block on disk; a write that a crash cut short leaves neither the old nor the new contents. */
  datatype Cell = Whole(b: Block) | Torn

  datatype Layout = Layout(h0: seq<Addr>, h1: seq<Addr>, sb0: Addr, sb1: Addr)

  /** The fixed places: headers, their copies and the two superblocks, all different. */
  ghost predicate Distinct(l: Layout) {
    && |l.h0| == |l.h1| && l.sb0 != l.sb1
    && (forall i, j :: 0 <= i < j < |l.h0| ==> l.h0[i] != l.h0[j] && l.h1[i] != l.h1[j])
    && (forall i, j :: 0 <= i < |l.h0| && 0 <= j < |l.h1| ==> l.h0[i] != l.h1[j])
    && (forall i :: 0 <= i < |l.h0| ==> l.h0[i] != l.sb0 && l.h0[i] != l.sb1)
    && (forall i :: 0 <= i < |l.h1| ==> l.h1[i] != l.sb0 && l.h1[i] != l.sb1)
  }

  predicate Reserved(l: Layout, a: Addr) {
    a in l.h0 || a in l.h1 || a == l.sb0 || a == l.sb1
  }

  /** A queue entry and the contents it writes. */
  datatype W = W(q: Qent, b: Block)

  /** Where sync is. Hdr, Sup and Tail count the writes already queued. */
  datatype PC = Idle | Open | Hdr(i: nat) | Sup(k: nat) | Tail(i: nat) | Fence0 | Fence1 | Wait

  datatype State = State(disk: map<Addr, Cell>, queue: set<W>, gen: nat, last: nat, pc: PC,
                         prev: Commit, next: Commit, hg: nat, sg: nat, tg: nat, fg: nat)

  /** A queued write to a. */
  ghost predicate Queued(s: State, a: Addr) {
    exists w :: w in s.queue && w.q.op == Qwrite && w.q.addr == a
  }

  predicate Busy(s: State) { !s.pc.Idle? && !s.pc.Open? }

  function Write(gen: nat, a: Addr, b: Block): W { W(Qent(gen, Qwrite, a, 0), b) }

  function FenceOf(gen: nat): W { W(Qent(gen, Qfence, 0, 0), Data(0)) }

  function NewHdr(s: State, i: nat): Block { if i < |s.next.hdr| then s.next.hdr[i] else Data(0) }

  // ----- steps -----

  /** A new block is queued: copy on write, so its place is neither reserved, nor needed by the
      last commit or the one under way, nor already being written. */
  ghost predicate Enqueue(l: Layout, s: State, t: State, a: Addr, b: Block) {
    && !Reserved(l, a) && a !in s.prev.req && (Busy(s) ==> a !in s.next.req) && !Queued(s, a)
    && t == s.(queue := s.queue + {Write(s.gen, a, b)})
  }

  /** The syncer pops an entry that no other is before; a write reaches the disk, unless its block
      was freed meanwhile, which no block of a commit is. */
  ghost predicate Pop(l: Layout, s: State, t: State, e: W) {
    && e in s.queue && (forall x :: x in s.queue ==> Le(e.q, x.q)) && e.q.qgen >= 0
    && var disk' := if e.q.op == Qwrite then s.disk[e.q.addr := Whole(e.b)] else s.disk;
      && (t.disk == disk'
          || (t.disk == s.disk && !Reserved(l, e.q.addr) && !(Busy(s) && e.q.addr in s.next.req)))
      && t == s.(queue := s.queue - {e}, last := e.q.qgen, disk := t.disk)
  }

  ghost predicate Start(s: State, t: State) {
    s.pc.Idle? && t == s.(gen := s.gen + 1, pc := Open)
  }

  /** A block the packed tree points at: on disk, or queued to be. */
  ghost predicate Reaches(s: State, a: Addr, b: Block) {
    || (a in s.disk && s.disk[a] == Whole(b) && !Queued(s, a))
    || (exists w :: w in s.queue && w.q.op == Qwrite && w.q.addr == a && w.b == b)
  }

  /** Under the mutation lock: arena headers and superblocks are packed. */
  ghost predicate Pack(l: Layout, s: State, t: State, c: Commit) {
    && s.pc.Open? && |c.hdr| == |l.h0|
    && (forall a :: a in c.req ==> !Reserved(l, a) && Reaches(s, a, c.req[a]))
    && t == s.(pc := Hdr(0), next := c, hg := s.gen)
  }

  ghost predicate PutHdr(l: Layout, s: State, t: State) {
    && s.pc.Hdr? && s.pc.i < |l.h0|
    && t == s.(queue := s.queue + {Write(s.gen, l.h0[s.pc.i], NewHdr(s, s.pc.i))}, pc := Hdr(s.pc.i + 1))
  }

  ghost predicate Barrier1(l: Layout, s: State, t: State) {
    s.pc == Hdr(|l.h0|) && t == s.(gen := s.gen + 1, pc := Sup(0), sg := s.gen + 1)
  }

  ghost predicate PutSuper(l: Layout, s: State, t: State) {
    && s.pc.Sup? && s.pc.k < 2
    && t == s.(queue := s.queue + {Write(s.gen, if s.pc.k == 0 then l.sb0 else l.sb1, Super(s.next))},
        pc := Sup(s.pc.k + 1))
  }

  ghost predicate Barrier2(s: State, t: State) {
    s.pc == Sup(2) && t == s.(gen := s.gen + 1, pc := Tail(0), tg := s.gen + 1)
  }

  ghost predicate PutTail(l: Layout, s: State, t: State) {
    && s.pc.Tail? && s.pc.i < |l.h1|
    && t == s.(queue := s.queue + {Write(s.gen, l.h1[s.pc.i], NewHdr(s, s.pc.i))}, pc := Tail(s.pc.i + 1))
  }

  /** wrwait: a barrier, a fence, a barrier, and the wait for the fence. */
  ghost predicate WaitUp(l: Layout, s: State, t: State) {
    || (s.pc == Tail(|l.h1|) && t == s.(gen := s.gen + 1, pc := Fence0, fg := s.gen + 1))
    || (s.pc.Fence0? && t == s.(queue := s.queue + {FenceOf(s.gen)}, pc := Fence1))
    || (s.pc.Fence1? && t == s.(gen := s.gen + 1, pc := Wait))
  }

  ghost predicate Finish(s: State, t: State) {
    s.pc.Wait? && FenceOf(s.fg) !in s.queue && t == s.(pc := Idle, prev := s.next)
  }

  ghost predicate Next(l: Layout, s: State, t: State) {
    || (exists a, b :: Enqueue(l, s, t, a, b))
    || (exists e :: Pop(l, s, t, e))
    || Start(s, t) || (exists c :: Pack(l, s, t, c)) || PutHdr(l, s, t) || Barrier1(l, s, t)
    || PutSuper(l, s, t) || Barrier2(s, t) || PutTail(l, s, t) || WaitUp(l, s, t) || Finish(s, t)
  }

  /** A file system at rest after a commit. */
  ghost predicate Init(l: Layout, s: State) {
    && Distinct(l) && s.pc.Idle? && s.queue == {} && s.last <= s.gen && |s.prev.hdr| == |l.h0|
    && (forall a :: a in s.prev.req ==> !Reserved(l, a) && a in s.disk && s.disk[a] == Whole(s.prev.req[a]))
    && (forall i :: 0 <= i < |l.h0| ==> At(s, l.h0[i], s.prev.hdr[i]) && At(s, l.h1[i], s.prev.hdr[i]))
    && At(s, l.sb0, Super(s.prev)) && At(s, l.sb1, Super(s.prev))
  }

  ghost predicate At(s: State, a: Addr, b: Block) {
    a in s.disk && s.disk[a] == Whole(b)
  }

  // ----- the invariant -----

  /** A fixed place across a commit: old contents until its write is popped, new ones from then
      on, and then nothing queued is older than the write was. */
  ghost predicate Place(s: State, a: Addr, b: Block, b': Block, g: nat, put: bool) {
    if !put then At(s, a, b) && !Queued(s, a)
    else
      || (At(s, a, b) && Write(g, a, b') in s.queue
          && forall w :: w in s.queue && w.q.op == Qwrite && w.q.addr == a ==> w == Write(g, a, b'))
      || (At(s, a, b') && !Queued(s, a) && s.last >= g)
  }

  /** A block of the commit under way: on disk, or queued under a generation no later than hg. */
  ghost predicate Needed(s: State, a: Addr, b: Block) {
    || (At(s, a, b) && !Queued(s, a))
    || ((exists w :: w in s.queue && w.q.op == Qwrite && w.q.addr == a)
        && forall w :: w in s.queue && w.q.op == Qwrite && w.q.addr == a ==> w.b == b && w.q.qgen <= s.hg)
  }

  predicate HdrPut(s: State, i: nat) { Busy(s) && (s.pc.Hdr? ==> i < s.pc.i) }
  predicate SupPut(s: State, k: nat) { Busy(s) && !s.pc.Hdr? && (s.pc.Sup? ==> k < s.pc.k) }
  predicate TailPut(s: State, i: nat) { Busy(s) && !s.pc.Hdr? && !s.pc.Sup? && (s.pc.Tail? ==> i < s.pc.i) }

  /** Barriers separate the generations of the phases. */
  ghost predicate Gens(l: Layout, s: State) {
    && (forall w :: w in s.queue ==> s.last <= w.q.qgen <= s.gen)
    && s.last <= s.gen
    && (Busy(s) ==> |s.next.hdr| == |l.h0| && s.hg <= s.gen)
    && (s.pc.Hdr? ==> s.pc.i <= |l.h0| && s.hg == s.gen)
    && (Busy(s) && !s.pc.Hdr? ==> s.hg < s.sg <= s.gen)
    && (s.pc.Sup? ==> s.pc.k <= 2 && s.sg == s.gen)
    && (Busy(s) && !s.pc.Hdr? && !s.pc.Sup? ==> s.sg < s.tg <= s.gen)
    && (s.pc.Tail? ==> s.pc.i <= |l.h1| && s.tg == s.gen)
    && (s.pc.Fence0? || s.pc.Fence1? || s.pc.Wait? ==> s.tg < s.fg <= s.gen)
    && (s.pc.Fence0? || s.pc.Fence1? ==> s.fg == s.gen)
    && (s.pc.Fence1? || s.pc.Wait? ==> FenceOf(s.fg) in s.queue || s.last >= s.fg)
  }

  ghost predicate HdrAt(l: Layout, s: State, i: nat)
    requires i < |l.h0| == |l.h1| == |s.prev.hdr|
  {
    && Place(s, l.h0[i], s.prev.hdr[i], NewHdr(s, i), s.hg, HdrPut(s, i))
    && Place(s, l.h1[i], s.prev.hdr[i], NewHdr(s, i), s.tg, TailPut(s, i))
  }

  /** No place is queued twice. */
  ghost predicate Unique(s: State) {
    forall x, y :: x in s.queue && y in s.queue && x.q.op == Qwrite && y.q.op == Qwrite && x.q.addr == y.q.addr
        ==> x == y
  }

  ghost predicate Inv(l: Layout, s: State) {
    && Distinct(l) && |l.h0| == |l.h1| == |s.prev.hdr| && Gens(l, s) && Unique(s)
    && (forall i: nat {:trigger HdrAt(l, s, i)} :: i < |l.h0| ==> HdrAt(l, s, i))
    && Place(s, l.sb0, Super(s.prev), Super(s.next), s.sg, SupPut(s, 0))
    && Place(s, l.sb1, Super(s.prev), Super(s.next), s.sg, SupPut(s, 1))
    && (forall a :: a in s.prev.req ==> !Reserved(l, a) && At(s, a, s.prev.req[a]) && !Queued(s, a))
    && (Busy(s) ==> forall a :: a in s.next.req ==> !Reserved(l, a) && Needed(s, a, s.next.req[a]))
  }

  // ----- the invariant is kept -----

  lemma InitInv(l: Layout, s: State)
    requires Init(l, s)
    ensures Inv(l, s)
  {
    forall i: nat | i < |l.h0| ensures HdrAt(l, s, i) {
    }
  }

  /** What a step does to the disk and the queue, seen from one place. */
  ghost predicate Same(s: State, t: State, a: Addr) {
    && (forall w: W :: w.q.op == Qwrite && w.q.addr == a ==> (w in s.queue <==> w in t.queue))
    && (a in s.disk <==> a in t.disk) && (a in s.disk ==> s.disk[a] == t.disk[a])
    && s.last <= t.last
  }

  lemma PlaceSame(s: State, t: State, a: Addr, b: Block, b': Block, g: nat, put: bool)
    requires Same(s, t, a) && Place(s, a, b, b', g, put)
    ensures Place(t, a, b, b', g, put)
  {
  }

  lemma NeededSame(s: State, t: State, a: Addr, b: Block)
    requires Same(s, t, a) && Needed(s, a, b) && s.hg == t.hg
    ensures Needed(t, a, b)
  {
  }

  lemma QueuedSame(s: State, t: State, a: Addr)
    requires Same(s, t, a)
    ensures Queued(s, a) <==> Queued(t, a)
  {
  }

  /** Queueing the write of a place. */
  lemma PlacePut(s: State, t: State, a: Addr, b: Block, b': Block, g: nat)
    requires Place(s, a, b, b', g, false)
    requires t.queue == s.queue + {Write(g, a, b')} && t.disk == s.disk
    ensures Place(t, a, b, b', g, true)
  {
    assert Write(g, a, b') in t.queue;
  }

  lemma PlacePop(l: Layout, s: State, t: State, e: W, a: Addr, b: Block, b': Block, g: nat, put: bool)
    requires Pop(l, s, t, e) && Reserved(l, a) && s.last <= e.q.qgen && Place(s, a, b, b', g, put)
    ensures Place(t, a, b, b', g, put)
  {
    hide Le;
    if e.q.op == Qwrite && e.q.addr == a {
      assert Queued(s, a);
      assert e == Write(g, a, b');
    } else {
      assert Same(s, t, a);
      PlaceSame(s, t, a, b, b', g, put);
    }
  }

  lemma NeededPop(l: Layout, s: State, t: State, e: W, a: Addr)
    requires Pop(l, s, t, e) && Busy(s) && a in s.next.req && s.last <= e.q.qgen && Needed(s, a, s.next.req[a])
    ensures Needed(t, a, s.next.req[a])
  {
    hide Le;
    if e.q.op == Qwrite && e.q.addr == a {
      assert Queued(s, a);
      if Queued(t, a) {
        assert forall w :: w in t.queue ==> w in s.queue;
      }
    } else {
      assert Same(s, t, a);
      NeededSame(s, t, a, s.next.req[a]);
    }
  }

  lemma GensPop(l: Layout, s: State, t: State, e: W)
    requires Pop(l, s, t, e) && Gens(l, s)
    ensures Gens(l, t) && s.last <= e.q.qgen
  {
    forall w | w in t.queue ensures e.q.qgen <= w.q.qgen {
      assert w in s.queue && Le(e.q, w.q);
    }
  }

  lemma PopInv(l: Layout, s: State, t: State, e: W)
    requires Inv(l, s) && Pop(l, s, t, e)
    ensures Inv(l, t)
  {
    hide Place, Le, Gens, Distinct, Needed;
    GensPop(l, s, t, e);
    forall i: nat | i < |l.h0| ensures HdrAt(l, t, i) {
      assert HdrAt(l, s, i);
      InLayout(l, i);
      PlacePop(l, s, t, e, l.h0[i], s.prev.hdr[i], NewHdr(s, i), s.hg, HdrPut(s, i));
      PlacePop(l, s, t, e, l.h1[i], s.prev.hdr[i], NewHdr(s, i), s.tg, TailPut(s, i));
    }
    PlacePop(l, s, t, e, l.sb0, Super(s.prev), Super(s.next), s.sg, SupPut(s, 0));
    PlacePop(l, s, t, e, l.sb1, Super(s.prev), Super(s.next), s.sg, SupPut(s, 1));
    forall a | a in s.prev.req ensures At(t, a, s.prev.req[a]) && !Queued(t, a) {
      assert At(s, a, s.prev.req[a]) && !Queued(s, a);
      PopElsewhere(l, s, t, e, a);
    }
    if Busy(s) {
      forall a | a in s.next.req ensures Needed(t, a, s.next.req[a]) {
        NeededPop(l, s, t, e, a);
      }
    }
  }

  lemma InLayout(l: Layout, i: nat)
    requires i < |l.h0| && Distinct(l)
    ensures Reserved(l, l.h0[i]) && Reserved(l, l.h1[i])
  {
  }

  lemma PopElsewhere(l: Layout, s: State, t: State, e: W, a: Addr)
    requires Pop(l, s, t, e) && !Queued(s, a) && s.last <= e.q.qgen
    ensures Same(s, t, a) && !Queued(t, a)
    ensures forall b :: At(s, a, b) ==> At(t, a, b)
  {
    hide Le;
    assert !(e.q.op == Qwrite && e.q.addr == a);
  }

  /** A new block goes to a place nothing depends on. */
  lemma EnqueueInv(l: Layout, s: State, t: State, a: Addr, b: Block)
    requires Inv(l, s) && Enqueue(l, s, t, a, b)
    ensures Inv(l, t)
  {
    hide Place, Distinct, Needed;
    forall x | x != a ensures Same(s, t, x) {
    }
    Elsewhere(l, s, t, a);
  }

  /** A step that leaves every place but x alone, and no phase behind. */
  lemma Elsewhere(l: Layout, s: State, t: State, x: Addr)
    requires Inv(l, s) && Gens(l, t) && Unique(t) && t.pc == s.pc && t.prev == s.prev && t.next == s.next
    requires t.hg == s.hg && t.sg == s.sg && t.tg == s.tg
    requires !Reserved(l, x) && x !in s.prev.req && (Busy(s) ==> x !in s.next.req)
    requires forall a :: a != x ==> Same(s, t, a)
    ensures Inv(l, t)
  {
    hide Place, Gens, Distinct, Needed, Same;
    forall i: nat | i < |l.h0| ensures HdrAt(l, t, i) {
      assert HdrAt(l, s, i);
      InLayout(l, i);
      PlaceSame(s, t, l.h0[i], s.prev.hdr[i], NewHdr(s, i), s.hg, HdrPut(s, i));
      PlaceSame(s, t, l.h1[i], s.prev.hdr[i], NewHdr(s, i), s.tg, TailPut(s, i));
    }
    PlaceSame(s, t, l.sb0, Super(s.prev), Super(s.next), s.sg, SupPut(s, 0));
    PlaceSame(s, t, l.sb1, Super(s.prev), Super(s.next), s.sg, SupPut(s, 1));
    forall a | a in s.prev.req ensures At(t, a, s.prev.req[a]) && !Queued(t, a) {
      AsPlace(s, a, s.prev.req[a]);
      PlaceSame(s, t, a, s.prev.req[a], s.prev.req[a], 0, false);
      AsAt(t, a, s.prev.req[a]);
    }
    if Busy(s) {
      forall a | a in s.next.req ensures Needed(t, a, s.next.req[a]) {
        NeededSame(s, t, a, s.next.req[a]);
      }
    }
  }

  lemma AsPlace(s: State, a: Addr, b: Block)
    requires At(s, a, b) && !Queued(s, a)
    ensures Place(s, a, b, b, 0, false)
  {
  }

  lemma AsAt(s: State, a: Addr, b: Block)
    requires Place(s, a, b, b, 0, false)
    ensures At(s, a, b) && !Queued(s, a)
  {
  }

  /** A place whose write is not queued yet does not care which write is to come. */
  lemma PlaceLater(s: State, t: State, a: Addr, b: Block, b1: Block, g1: nat, b2: Block, g2: nat)
    requires Same(s, t, a) && Place(s, a, b, b1, g1, false)
    ensures Place(t, a, b, b2, g2, false)
  {
  }

  /** Steps that only move sync along: barriers, the start, the wait. */
  lemma MoveInv(l: Layout, s: State, t: State)
    requires Inv(l, s)
    requires Start(s, t) || Barrier1(l, s, t) || Barrier2(s, t) || WaitUp(l, s, t)
    ensures Inv(l, t)
  {
    hide Place, Distinct, Needed;
    forall a ensures Same(s, t, a) {
    }
    MoveGens(l, s, t);
    hide Same, Gens;
    forall i: nat | i < |l.h0| ensures HdrAt(l, t, i) {
      assert HdrAt(l, s, i);
      MovePlace(l, s, t, l.h0[i], s.prev.hdr[i], NewHdr(s, i), s.hg, t.hg, HdrPut(s, i));
      MovePlace(l, s, t, l.h1[i], s.prev.hdr[i], NewHdr(s, i), s.tg, t.tg, TailPut(s, i));
    }
    MovePlace(l, s, t, l.sb0, Super(s.prev), Super(s.next), s.sg, t.sg, SupPut(s, 0));
    MovePlace(l, s, t, l.sb1, Super(s.prev), Super(s.next), s.sg, t.sg, SupPut(s, 1));
    forall a | a in s.prev.req ensures At(t, a, s.prev.req[a]) && !Queued(t, a) {
      QueuedSame(s, t, a);
    }
    if Busy(s) {
      forall a | a in s.next.req ensures Needed(t, a, s.next.req[a]) {
        NeededSame(s, t, a, s.next.req[a]);
      }
    }
  }

  lemma MovePlace(l: Layout, s: State, t: State, a: Addr, b: Block, b': Block, g: nat, g': nat, put: bool)
    requires Same(s, t, a) && Place(s, a, b, b', g, put) && (put ==> g == g')
    ensures Place(t, a, b, b', g', put)
  {
    hide Same, Place;
    if put { PlaceSame(s, t, a, b, b', g, put); } else { PlaceLater(s, t, a, b, b', g, b', g'); }
  }

  lemma MoveGens(l: Layout, s: State, t: State)
    requires Gens(l, s)
    requires Start(s, t) || Barrier1(l, s, t) || Barrier2(s, t) || WaitUp(l, s, t)
    ensures Gens(l, t)
  {
  }

  /** Packing: from here on the next commit's blocks are tracked. */
  lemma PackInv(l: Layout, s: State, t: State, c: Commit)
    requires Inv(l, s) && Pack(l, s, t, c)
    ensures Inv(l, t)
  {
    hide Place, Distinct;
    forall a ensures Same(s, t, a) {
    }
    hide Same;
    forall i: nat | i < |l.h0| ensures HdrAt(l, t, i) {
      assert HdrAt(l, s, i);
      PlaceLater(s, t, l.h0[i], s.prev.hdr[i], NewHdr(s, i), s.hg, NewHdr(t, i), t.hg);
      PlaceLater(s, t, l.h1[i], s.prev.hdr[i], NewHdr(s, i), s.tg, NewHdr(t, i), t.tg);
    }
    PlaceLater(s, t, l.sb0, Super(s.prev), Super(s.next), s.sg, Super(t.next), t.sg);
    PlaceLater(s, t, l.sb1, Super(s.prev), Super(s.next), s.sg, Super(t.next), t.sg);
    forall a | a in t.next.req ensures !Reserved(l, a) && Needed(t, a, t.next.req[a]) {
      assert Reaches(s, a, c.req[a]);
    }
    forall a | a in s.prev.req ensures At(t, a, s.prev.req[a]) && !Queued(t, a) {
      QueuedSame(s, t, a);
    }
  }

  lemma UniqueAdd(s: State, t: State, w: W)
    requires Unique(s) && t.queue == s.queue + {w} && (w.q.op == Qwrite ==> !Queued(s, w.q.addr))
    ensures Unique(t)
  {
  }

  /** Queueing the write of one fixed place; the others stay as they are. */
  lemma PutOthers(s: State, t: State, g: nat, x: Addr, c: Block, a: Addr)
    requires t.queue == s.queue + {Write(g, x, c)} && t.disk == s.disk && t.last == s.last && a != x
    ensures Same(s, t, a)
  {
  }

  /** A fixed place after one of the fixed places, x, has had its write queued. */
  lemma PlaceStep(s: State, t: State, x: Addr, c: Block, g: nat, a: Addr, b: Block, b': Block, ga: nat, put: bool,
                  put': bool)
    requires t.queue == s.queue + {Write(g, x, c)} && t.disk == s.disk && t.last == s.last
    requires Place(s, a, b, b', ga, put)
    requires a != x ==> put' == put
    requires a == x ==> !put && put' && b' == c && ga == g
    ensures Place(t, a, b, b', ga, put')
  {
    hide Place;
    if a == x {
      PlacePut(s, t, a, b, b', g);
    } else {
      PutOthers(s, t, g, x, c, a);
      PlaceSame(s, t, a, b, b', ga, put);
    }
  }

  lemma NotReservedSame(l: Layout, s: State, t: State, g: nat, x: Addr, c: Block, a: Addr)
    requires t.queue == s.queue + {Write(g, x, c)} && t.disk == s.disk && t.last == s.last
    requires Reserved(l, x) && !Reserved(l, a)
    ensures Same(s, t, a)
  {
    PutOthers(s, t, g, x, c, a);
  }

  lemma PutGens(l: Layout, s: State, t: State)
    requires Gens(l, s) && (PutHdr(l, s, t) || PutSuper(l, s, t) || PutTail(l, s, t))
    ensures Gens(l, t)
  {
  }

  /** The blocks of both commits are elsewhere. */
  lemma PutData(l: Layout, s: State, t: State, g: nat, x: Addr, c: Block)
    requires Inv(l, s) && Busy(s)
    requires t.queue == s.queue + {Write(g, x, c)} && t.disk == s.disk && t.last == s.last
    requires t.prev == s.prev && t.next == s.next && t.hg == s.hg && Reserved(l, x)
    ensures forall a :: a in t.prev.req ==> !Reserved(l, a) && At(t, a, t.prev.req[a]) && !Queued(t, a)
    ensures forall a :: a in t.next.req ==> !Reserved(l, a) && Needed(t, a, t.next.req[a])
  {
    hide Place, Distinct, Needed, Gens, Reserved, Same, HdrAt, Unique;
    forall a | a in t.prev.req ensures !Reserved(l, a) && At(t, a, t.prev.req[a]) && !Queued(t, a) {
      NotReservedSame(l, s, t, g, x, c, a);
      QueuedSame(s, t, a);
    }
    forall a | a in t.next.req ensures !Reserved(l, a) && Needed(t, a, t.next.req[a]) {
      NotReservedSame(l, s, t, g, x, c, a);
      NeededSame(s, t, a, s.next.req[a]);
    }
  }

  lemma PlaceFree(s: State, a: Addr, b: Block, b': Block, g: nat)
    requires Place(s, a, b, b', g, false)
    ensures !Queued(s, a)
  {
  }

  lemma PutHdrInv(l: Layout, s: State, t: State)
    requires Inv(l, s) && PutHdr(l, s, t)
    ensures Inv(l, t)
  {
    hide Place, Needed, Unique, Gens;
    PutGens(l, s, t);
    var x, c, g := l.h0[s.pc.i], NewHdr(s, s.pc.i), s.gen;
    HdrGen(l, s);
    assert HdrAt(l, s, s.pc.i);
    PlaceFree(s, x, s.prev.hdr[s.pc.i], c, g);
    UniqueAdd(s, t, Write(g, x, c));
    PutData(l, s, t, g, x, c);
    forall i: nat | i < |l.h0| ensures HdrAt(l, t, i) {
      assert HdrAt(l, s, i);
      PlaceStep(s, t, x, c, g, l.h0[i], s.prev.hdr[i], NewHdr(s, i), s.hg, HdrPut(s, i), HdrPut(t, i));
      PlaceStep(s, t, x, c, g, l.h1[i], s.prev.hdr[i], NewHdr(s, i), s.tg, TailPut(s, i), TailPut(t, i));
    }
    PlaceStep(s, t, x, c, g, l.sb0, Super(s.prev), Super(s.next), s.sg, SupPut(s, 0), SupPut(t, 0));
    PlaceStep(s, t, x, c, g, l.sb1, Super(s.prev), Super(s.next), s.sg, SupPut(s, 1), SupPut(t, 1));
  }

  lemma HdrGen(l: Layout, s: State)
    requires Gens(l, s)
    ensures s.pc.Hdr? ==> s.hg == s.gen
    ensures s.pc.Sup? ==> s.sg == s.gen
    ensures s.pc.Tail? ==> s.tg == s.gen
  {
  }

  lemma PutTailInv(l: Layout, s: State, t: State)
    requires Inv(l, s) && PutTail(l, s, t)
    ensures Inv(l, t)
  {
    hide Place, Needed, Unique, Gens;
    PutGens(l, s, t);
    var x, c, g := l.h1[s.pc.i], NewHdr(s, s.pc.i), s.gen;
    HdrGen(l, s);
    assert HdrAt(l, s, s.pc.i);
    PlaceFree(s, x, s.prev.hdr[s.pc.i], c, g);
    UniqueAdd(s, t, Write(g, x, c));
    PutData(l, s, t, g, x, c);
    forall i: nat | i < |l.h0| ensures HdrAt(l, t, i) {
      assert HdrAt(l, s, i);
      PlaceStep(s, t, x, c, g, l.h0[i], s.prev.hdr[i], NewHdr(s, i), s.hg, HdrPut(s, i), HdrPut(t, i));
      PlaceStep(s, t, x, c, g, l.h1[i], s.prev.hdr[i], NewHdr(s, i), s.tg, TailPut(s, i), TailPut(t, i));
    }
    PlaceStep(s, t, x, c, g, l.sb0, Super(s.prev), Super(s.next), s.sg, SupPut(s, 0), SupPut(t, 0));
    PlaceStep(s, t, x, c, g, l.sb1, Super(s.prev), Super(s.next), s.sg, SupPut(s, 1), SupPut(t, 1));
  }

  lemma PutSuperInv(l: Layout, s: State, t: State)
    requires Inv(l, s) && PutSuper(l, s, t)
    ensures Inv(l, t)
  {
    hide Place, Needed, Unique, Gens;
    PutGens(l, s, t);
    var x, c, g := if s.pc.k == 0 then l.sb0 else l.sb1, Super(s.next), s.gen;
    HdrGen(l, s);
    PlaceFree(s, x, Super(s.prev), c, g);
    UniqueAdd(s, t, Write(g, x, c));
    PutData(l, s, t, g, x, c);
    forall i: nat | i < |l.h0| ensures HdrAt(l, t, i) {
      assert HdrAt(l, s, i);
      PlaceStep(s, t, x, c, g, l.h0[i], s.prev.hdr[i], NewHdr(s, i), s.hg, HdrPut(s, i), HdrPut(t, i));
      PlaceStep(s, t, x, c, g, l.h1[i], s.prev.hdr[i], NewHdr(s, i), s.tg, TailPut(s, i), TailPut(t, i));
    }
    PlaceStep(s, t, x, c, g, l.sb0, Super(s.prev), Super(s.next), s.sg, SupPut(s, 0), SupPut(t, 0));
    PlaceStep(s, t, x, c, g, l.sb1, Super(s.prev), Super(s.next), s.sg, SupPut(s, 1), SupPut(t, 1));
  }

  /** A place whose write is older than anything queued has its new contents. */
  lemma PlaceDone(s: State, a: Addr, b: Block, b': Block, g: nat)
    requires Place(s, a, b, b', g, true)
    requires forall w :: w in s.queue ==> g < w.q.qgen
    ensures At(s, a, b') && !Queued(s, a)
  {
  }

  lemma NeededDone(s: State, a: Addr, b: Block)
    requires Needed(s, a, b)
    requires forall w :: w in s.queue ==> s.hg < w.q.qgen
    ensures At(s, a, b) && !Queued(s, a)
  {
  }

  /** Once the fence is through, the commit is the last one. */
  lemma FinishInv(l: Layout, s: State, t: State)
    requires Inv(l, s) && Finish(s, t)
    ensures Inv(l, t)
  {
    hide Place, Needed, Unique;
    assert forall w :: w in s.queue ==> s.tg < w.q.qgen && s.sg < w.q.qgen && s.hg < w.q.qgen;
    hide Gens;
    forall i: nat | i < |l.h0| ensures HdrAt(l, t, i) {
      assert HdrAt(l, s, i);
      PlaceDone(s, l.h0[i], s.prev.hdr[i], NewHdr(s, i), s.hg);
      PlaceDone(s, l.h1[i], s.prev.hdr[i], NewHdr(s, i), s.tg);
      Rest(s, t, l.h0[i], NewHdr(s, i), NewHdr(t, i), t.hg);
      Rest(s, t, l.h1[i], NewHdr(s, i), NewHdr(t, i), t.tg);
    }
    PlaceDone(s, l.sb0, Super(s.prev), Super(s.next), s.sg);
    PlaceDone(s, l.sb1, Super(s.prev), Super(s.next), s.sg);
    Rest(s, t, l.sb0, Super(s.next), Super(t.next), t.sg);
    Rest(s, t, l.sb1, Super(s.next), Super(t.next), t.sg);
    forall a | a in t.prev.req ensures !Reserved(l, a) && At(t, a, t.prev.req[a]) && !Queued(t, a) {
      NeededDone(s, a, s.next.req[a]);
    }
    FinishGens(l, s, t);
    UniqueSame(s, t);
  }

  lemma UniqueSame(s: State, t: State)
    requires Unique(s) && t.queue == s.queue
    ensures Unique(t)
  {
  }

  lemma FinishGens(l: Layout, s: State, t: State)
    requires Gens(l, s) && Finish(s, t)
    ensures Gens(l, t) && |s.next.hdr| == |l.h0|
  {
  }

  lemma Rest(s: State, t: State, a: Addr, b: Block, b': Block, g: nat)
    requires At(s, a, b) && !Queued(s, a) && t.disk == s.disk && t.queue == s.queue
    ensures Place(t, a, b, b', g, false)
  {
  }

  lemma NextInv(l: Layout, s: State, t: State)
    requires Inv(l, s) && Next(l, s, t)
    ensures Inv(l, t)
  {
    hide Inv, Enqueue, Pop, Pack;
    if a, b :| Enqueue(l, s, t, a, b) {
      EnqueueInv(l, s, t, a, b);
    } else if e :| Pop(l, s, t, e) {
      PopInv(l, s, t, e);
    } else if c :| Pack(l, s, t, c) {
      PackInv(l, s, t, c);
    } else if PutHdr(l, s, t) {
      PutHdrInv(l, s, t);
    } else if PutSuper(l, s, t) {
      PutSuperInv(l, s, t);
    } else if PutTail(l, s, t) {
      PutTailInv(l, s, t);
    } else if Finish(s, t) {
      FinishInv(l, s, t);
    } else {
      MoveInv(l, s, t);
    }
  }

  ghost predicate IsRun(l: Layout, run: seq<State>) {
    run != [] && Init(l, run[0]) && forall i :: 0 <= i < |run| - 1 ==> Next(l, run[i], run[i + 1])
  }

  lemma {:induction false} RunInv(l: Layout, run: seq<State>, i: nat)
    requires IsRun(l, run) && i < |run|
    ensures Inv(l, run[i])
  {
    hide Inv, Next, Init;
    if i == 0 {
      InitInv(l, run[0]);
    } else {
      RunInv(l, run, i - 1);
      assert Next(l, run[i - 1], run[i - 1 + 1]);
      NextInv(l, run[i - 1], run[i]);
    }
  }

  // ----- the second superblock follows the first -----

  /** The second superblock is not written before the first, which lies at the lower address. */
  ghost predicate SupersInOrder(l: Layout, s: State) {
    SupPut(s, 1) && Write(s.sg, l.sb1, Super(s.next)) !in s.queue ==> Write(s.sg, l.sb0, Super(s.next)) !in s.queue
  }

  lemma OrderNext(l: Layout, s: State, t: State)
    requires Inv(l, s) && Next(l, s, t) && l.sb0 < l.sb1 && SupersInOrder(l, s)
    ensures SupersInOrder(l, t)
  {
    hide Place, Needed, Unique, HdrAt, Gens, Same;
    if a, b :| Enqueue(l, s, t, a, b) {
      hide Pop, Start, Pack, PutHdr, Barrier1, PutSuper, Barrier2, PutTail, WaitUp, Finish;
    } else if e :| Pop(l, s, t, e) {
      hide Enqueue, Start, Pack, PutHdr, Barrier1, PutSuper, Barrier2, PutTail, WaitUp, Finish;
      if e == Write(s.sg, l.sb1, Super(s.next)) && Write(s.sg, l.sb0, Super(s.next)) in s.queue {
        assert false;
      }
    } else {
      hide Enqueue, Pop;
      OrderSync(l, s, t);
    }
  }

  lemma OrderSync(l: Layout, s: State, t: State)
    requires Inv(l, s) && l.sb0 < l.sb1 && SupersInOrder(l, s)
    requires Start(s, t) || (exists c :: Pack(l, s, t, c)) || PutHdr(l, s, t) || Barrier1(l, s, t)
             || PutSuper(l, s, t) || Barrier2(s, t) || PutTail(l, s, t) || WaitUp(l, s, t) || Finish(s, t)
    ensures SupersInOrder(l, t)
  {
    hide Place, Needed, Unique, HdrAt, Same, Reaches;
    if PutTail(l, s, t) {
      assert l.h1[s.pc.i] != l.sb0 && l.h1[s.pc.i] != l.sb1;
    }
  }

  lemma {:induction false} RunOrder(l: Layout, run: seq<State>, i: nat)
    requires IsRun(l, run) && i < |run| && l.sb0 < l.sb1
    ensures SupersInOrder(l, run[i])
  {
    hide Inv, Next, SupersInOrder;
    if i == 0 {
      FirstOrder(l, run[0]);
    } else {
      RunOrder(l, run, i - 1);
      RunInv(l, run, i - 1);
      assert Next(l, run[i - 1], run[i - 1 + 1]);
      OrderNext(l, run[i - 1], run[i]);
    }
  }

  lemma FirstOrder(l: Layout, s: State)
    requires Init(l, s)
    ensures SupersInOrder(l, s)
  {
  }

  // ----- the wait comes to an end -----

  /** Some entry no other is before. */
  lemma {:induction false} SomeFirst(q: set<W>) returns (e: W)
    requires q != {}
    ensures e in q && forall x :: x in q ==> Le(e.q, x.q)
    decreases |q|
  {
    hide Le;
    var a :| a in q;
    LeRefl(a.q);
    if q == {a} {
      return a;
    }
    var rest := q - {a};
    assert rest + {a} == q;
    assert rest != {};
    var b := SomeFirst(q - {a});
    if Le(a.q, b.q) {
      e := a;
      forall x | x in q ensures Le(e.q, x.q) {
        if x != a {
          assert x in q - {a};
          LeTrans(a.q, b.q, x.q);
        }
      }
    } else {
      LeTotal(a.q, b.q);
      e := b;
      forall x | x in q ensures Le(e.q, x.q) {
        if x != a { assert x in q - {a}; }
      }
    }
  }

  lemma LeTotal(a: Qent, b: Qent)
    ensures Le(a, b) || Le(b, a)
  {
  }

  /** While sync waits, the syncer gets through the queue to the fence, and then the new commit is the last
      one. */
  lemma {:induction false} WaitEnds(l: Layout, s: State) returns (run: seq<State>)
    requires Inv(l, s) && s.pc.Wait?
    ensures run != [] && run[0] == s && forall i :: 0 <= i < |run| - 1 ==> Next(l, run[i], run[i + 1])
    ensures var t := run[|run| - 1]; t.pc.Idle? && t.prev == s.next && t.gen == s.gen && Inv(l, t)
    decreases |s.queue|
  {
    hide Inv, Next, Pop;
    if FenceOf(s.fg) !in s.queue {
      var t := s.(pc := Idle, prev := s.next);
      FinishNext(l, s, t);
      NextInv(l, s, t);
      run := [s, t];
    } else {
      var e := SomeFirst(s.queue);
      var t := Popped(s, e);
      PopNext(l, s, e);
      NextInv(l, s, t);
      var rest := WaitEnds(l, t);
      run := [s] + rest;
      forall i | 0 <= i < |run| - 1 ensures Next(l, run[i], run[i + 1]) {
        if i > 0 { assert run[i] == rest[i - 1] && run[i + 1] == rest[i]; }
      }
    }
  }

  function Popped(s: State, e: W): State
  {
    var disk := if e.q.op == Qwrite then s.disk[e.q.addr := Whole(e.b)] else s.disk;
    s.(queue := s.queue - {e}, last := if e.q.qgen >= 0 then e.q.qgen else 0, disk := disk)
  }

  lemma PopNext(l: Layout, s: State, e: W)
    requires Inv(l, s) && e in s.queue && forall x :: x in s.queue ==> Le(e.q, x.q)
    ensures Next(l, s, Popped(s, e)) && |Popped(s, e).queue| < |s.queue|
  {
    hide Le, Place, Needed, Unique, HdrAt;
    assert e.q.qgen >= 0;
    assert Pop(l, s, Popped(s, e), e);
  }

  lemma FinishNext(l: Layout, s: State, t: State)
    requires s.pc.Wait? && FenceOf(s.fg) !in s.queue && t == s.(pc := Idle, prev := s.next)
    ensures Next(l, s, t)
  {
  }
}
