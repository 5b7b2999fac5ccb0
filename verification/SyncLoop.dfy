/** The loops of sync (src/fs.c): what they queue, one statement at a time, is a stretch of a run of
    the commit protocol. Steps of the syncer and of other writers come between; here there are none. */
module SyncLoop {
  import opened SyncQueue
  import opened Commit

  ghost predicate Steps(l: Layout, run: seq<State>) {
    run != [] && forall i :: 0 <= i < |run| - 1 ==> Next(l, run[i], run[i + 1])
  }

  lemma Longer(l: Layout, run: seq<State>, t: State)
    requires Steps(l, run) && Next(l, run[|run| - 1], t)
    ensures Steps(l, run + [t])
  {
    hide Next;
    var r := run + [t];
    forall i | 0 <= i < |r| - 1 ensures Next(l, r[i], r[i + 1]) {
      if i < |run| - 1 {
        assert r[i] == run[i] && r[i + 1] == run[i + 1];
      }
    }
  }

  class Gefs {
    const l: Layout
    var qgen: nat
    var queued: set<W>
    ghost var run: seq<State>

    constructor (l: Layout, s: State)
      ensures this.l == l && Valid() && Now() == s && run == [s]
    {
      this.l, qgen, queued, run := l, s.gen, s.queue, [s];
    }

    ghost predicate Valid()
      reads this
    {
      Steps(l, run) && Now().gen == qgen && Now().queue == queued
    }

    ghost function Now(): State
      reads this
    {
      if run == [] then State(map[], {}, 0, 0, Idle, Commit(0, [], map[]), Commit(0, [], map[]), 0, 0, 0, 0)
      else run[|run| - 1]
    }

    ghost method Step(t: State)
      requires Steps(l, run) && Next(l, Now(), t) && t.gen == qgen && t.queue == queued
      modifies this`run
      ensures Valid() && Now() == t && run == old(run) + [t]
    {
      Longer(l, run, t);
      run := run + [t];
    }

    /** wrbarrier. */
    method WrBarrier(ghost t: State)
      requires Valid() && t.gen == qgen + 1 && t.queue == queued && Next(l, Now(), t)
      modifies this
      ensures Valid() && Now() == t && run == old(run) + [t]
    {
      qgen := qgen + 1;
      Step(t);
    }

    /** enqueue: qput stamps the entry with the current generation. */
    method Enqueue(a: Addr, b: Block, ghost t: State)
      requires Valid() && t.gen == qgen && t.queue == queued + {Write(qgen, a, b)} && Next(l, Now(), t)
      modifies this
      ensures Valid() && Now() == t && run == old(run) + [t]
    {
      queued := queued + {Write(qgen, a, b)};
      Step(t);
    }

    /** Pass 1: the arena headers. */
    method PutHeaders(ghost s: State, c: Commit)
      requires Valid() && |c.hdr| == |l.h0| && Now() == AtHdr(l, s, c, 0)
      modifies this
      ensures Valid() && old(run) <= run && Now() == AtHdr(l, s, c, |l.h0|)
    {
      hide Next, Steps, AtHdr;
      var i := 0;
      while i < |l.h0|
        invariant 0 <= i <= |l.h0| && Valid() && old(run) <= run && Now() == AtHdr(l, s, c, i)
      {
        HdrStep(l, s, c, i);
        Enqueue(l.h0[i], c.hdr[i], AtHdr(l, s, c, i + 1));
        i := i + 1;
      }
    }

    /** Pass 2: the superblocks, between barriers. */
    method PutSupers(ghost s: State, c: Commit)
      requires Valid() && |c.hdr| == |l.h0| == |l.h1| && Now() == AtHdr(l, s, c, |l.h0|)
      modifies this
      ensures Valid() && old(run) <= run && Now() == AtTail(l, s, c, 0)
    {
      hide Next, Steps, AtHdr, AtSup, AtTail;
      SupStep(l, s, c);
      WrBarrier(AtSup(l, s, c, 0));
      Enqueue(l.sb0, Super(c), AtSup(l, s, c, 1));
      Enqueue(l.sb1, Super(c), AtSup(l, s, c, 2));
      WrBarrier(AtTail(l, s, c, 0));
    }

    /** Pass 3: the footers. */
    method PutFooters(ghost s: State, c: Commit)
      requires Valid() && |c.hdr| == |l.h0| == |l.h1| && Now() == AtTail(l, s, c, 0)
      modifies this
      ensures Valid() && old(run) <= run && Now() == AtTail(l, s, c, |l.h1|)
    {
      hide Next, Steps, AtTail;
      var i := 0;
      while i < |l.h1|
        invariant 0 <= i <= |l.h1| && Valid() && old(run) <= run && Now() == AtTail(l, s, c, i)
      {
        TailStep(l, s, c, i);
        Enqueue(l.h1[i], c.hdr[i], AtTail(l, s, c, i + 1));
        i := i + 1;
      }
    }

    /** wrwait, up to the wait: the fence in a generation of its own. */
    method WrWait(ghost s: State, c: Commit)
      requires Valid() && |c.hdr| == |l.h0| == |l.h1| && Now() == AtTail(l, s, c, |l.h1|)
      modifies this
      ensures Valid() && old(run) <= run
      ensures Now() == AtWait(l, s, c)
    {
      hide Next, Steps, AtTail, AtFence, AtWait;
      WaitStep(l, s, c);
      WrBarrier(AtFence(l, s, c));
      queued := queued + {FenceOf(qgen)};
      Step(AtFence(l, s, c).(queue := queued, pc := Fence1));
      WrBarrier(AtWait(l, s, c));
    }

    /** sync, up to its wait: headers, then superblocks, then footers, a barrier between each two and
        the fence behind them all. */
    method Sync(c: Commit)
      requires Valid() && Now().pc.Idle? && |c.hdr| == |l.h0| == |l.h1|
      requires forall a :: a in c.req ==> !Reserved(l, a) && Reaches(Now(), a, c.req[a])
      modifies this
      ensures Valid() && old(run) <= run && Now().pc.Wait? && Now().next == c
      ensures Now().disk == old(Now().disk) && Now().last == old(Now().last) && Now().prev == old(Now().prev)
      ensures qgen == old(qgen) + 5
      ensures queued == old(queued) + Puts(l, c, old(qgen))
    {
      hide Next, Steps, AtHdr, AtTail, AtWait, Puts;
      ghost var s := Now();
      Opens(l, s, c);
      WrBarrier(s.(gen := s.gen + 1, pc := Open));
      Step(AtHdr(l, s, c, 0));
      PutHeaders(s, c);
      PutSupers(s, c);
      PutFooters(s, c);
      WrWait(s, c);
      AtWaitParts(l, s, c);
    }
  }

  // ----- the states between the statements -----

  function Hdrs(l: Layout, c: Commit, g: nat, n: nat): set<W>
    requires n <= |l.h0| == |c.hdr|
  {
    set i | 0 <= i < n :: Write(g, l.h0[i], c.hdr[i])
  }

  function Tails(l: Layout, c: Commit, g: nat, n: nat): set<W>
    requires n <= |l.h1| == |c.hdr|
  {
    set i | 0 <= i < n :: Write(g, l.h1[i], c.hdr[i])
  }

  /** All a commit queues when sync starts in generation g. */
  function Puts(l: Layout, c: Commit, g: nat): set<W>
    requires |l.h0| == |l.h1| == |c.hdr|
  {
    Hdrs(l, c, g + 1, |l.h0|) + {Write(g + 2, l.sb0, Super(c)), Write(g + 2, l.sb1, Super(c))}
      + Tails(l, c, g + 3, |l.h1|) + {FenceOf(g + 4)}
  }

  ghost function AtHdr(l: Layout, s: State, c: Commit, i: nat): State
    requires i <= |l.h0| == |c.hdr|
  {
    s.(gen := s.gen + 1, pc := Hdr(i), next := c, hg := s.gen + 1, queue := s.queue + Hdrs(l, c, s.gen + 1, i))
  }

  ghost function AtSup(l: Layout, s: State, c: Commit, k: nat): State
    requires |l.h0| == |c.hdr|
  {
    var h := AtHdr(l, s, c, |l.h0|);
    var q := if k == 0 then h.queue
             else if k == 1 then h.queue + {Write(s.gen + 2, l.sb0, Super(c))}
             else h.queue + {Write(s.gen + 2, l.sb0, Super(c))} + {Write(s.gen + 2, l.sb1, Super(c))};
    h.(gen := s.gen + 2, pc := Sup(k), sg := s.gen + 2, queue := q)
  }

  ghost function AtTail(l: Layout, s: State, c: Commit, i: nat): State
    requires i <= |l.h1| == |l.h0| == |c.hdr|
  {
    var h := AtSup(l, s, c, 2);
    h.(gen := s.gen + 3, pc := Tail(i), tg := s.gen + 3, queue := h.queue + Tails(l, c, s.gen + 3, i))
  }

  ghost function AtFence(l: Layout, s: State, c: Commit): State
    requires |l.h1| == |l.h0| == |c.hdr|
  {
    AtTail(l, s, c, |l.h1|).(gen := s.gen + 4, pc := Fence0, fg := s.gen + 4)
  }

  lemma Opens(l: Layout, s: State, c: Commit)
    requires s.pc.Idle? && |c.hdr| == |l.h0|
    requires forall a :: a in c.req ==> !Reserved(l, a) && Reaches(s, a, c.req[a])
    ensures Next(l, s, s.(gen := s.gen + 1, pc := Open))
    ensures Next(l, s.(gen := s.gen + 1, pc := Open), AtHdr(l, s, c, 0))
    ensures AtHdr(l, s, c, 0).queue == s.queue && AtHdr(l, s, c, 0).gen == s.gen + 1
  {
    var t := s.(gen := s.gen + 1, pc := Open);
    assert s.queue + Hdrs(l, c, s.gen + 1, 0) == s.queue;
    forall a | a in c.req ensures Reaches(t, a, c.req[a]) {
      assert Reaches(s, a, c.req[a]);
      assert Queued(t, a) ==> Queued(s, a);
    }
    assert Pack(l, t, AtHdr(l, s, c, 0), c);
  }

  lemma HdrStep(l: Layout, s: State, c: Commit, i: nat)
    requires i < |l.h0| == |c.hdr|
    ensures Next(l, AtHdr(l, s, c, i), AtHdr(l, s, c, i + 1))
    ensures AtHdr(l, s, c, i).gen == AtHdr(l, s, c, i + 1).gen == s.gen + 1
    ensures AtHdr(l, s, c, i + 1).queue == AtHdr(l, s, c, i).queue + {Write(s.gen + 1, l.h0[i], c.hdr[i])}
  {
    assert Hdrs(l, c, s.gen + 1, i + 1) == Hdrs(l, c, s.gen + 1, i) + {Write(s.gen + 1, l.h0[i], c.hdr[i])};
    assert AtHdr(l, s, c, i + 1).queue == AtHdr(l, s, c, i).queue + {Write(s.gen + 1, l.h0[i], c.hdr[i])};
    assert PutHdr(l, AtHdr(l, s, c, i), AtHdr(l, s, c, i + 1));
  }

  lemma SupStep(l: Layout, s: State, c: Commit)
    requires |l.h0| == |c.hdr| == |l.h1|
    ensures Next(l, AtHdr(l, s, c, |l.h0|), AtSup(l, s, c, 0))
    ensures Next(l, AtSup(l, s, c, 0), AtSup(l, s, c, 1))
    ensures Next(l, AtSup(l, s, c, 1), AtSup(l, s, c, 2))
    ensures Next(l, AtSup(l, s, c, 2), AtTail(l, s, c, 0))
    ensures AtSup(l, s, c, 0).gen == AtSup(l, s, c, 1).gen == AtSup(l, s, c, 2).gen == AtHdr(l, s, c, |l.h0|).gen + 1
    ensures AtHdr(l, s, c, |l.h0|).gen == s.gen + 1 && AtTail(l, s, c, 0).gen == s.gen + 3
    ensures AtSup(l, s, c, 0).queue == AtHdr(l, s, c, |l.h0|).queue
    ensures AtSup(l, s, c, 1).queue == AtSup(l, s, c, 0).queue + {Write(s.gen + 2, l.sb0, Super(c))}
    ensures AtSup(l, s, c, 2).queue == AtSup(l, s, c, 1).queue + {Write(s.gen + 2, l.sb1, Super(c))}
    ensures AtTail(l, s, c, 0).queue == AtSup(l, s, c, 2).queue
  {
    assert AtSup(l, s, c, 2).queue + Tails(l, c, s.gen + 3, 0) == AtSup(l, s, c, 2).queue;
    assert Barrier1(l, AtHdr(l, s, c, |l.h0|), AtSup(l, s, c, 0));
    assert PutSuper(l, AtSup(l, s, c, 0), AtSup(l, s, c, 1));
    assert PutSuper(l, AtSup(l, s, c, 1), AtSup(l, s, c, 2));
    assert Barrier2(AtSup(l, s, c, 2), AtTail(l, s, c, 0));
  }

  lemma TailStep(l: Layout, s: State, c: Commit, i: nat)
    requires i < |l.h1| == |l.h0| == |c.hdr|
    ensures Next(l, AtTail(l, s, c, i), AtTail(l, s, c, i + 1))
    ensures AtTail(l, s, c, i).gen == AtTail(l, s, c, i + 1).gen == s.gen + 3
    ensures AtTail(l, s, c, i + 1).queue == AtTail(l, s, c, i).queue + {Write(s.gen + 3, l.h1[i], c.hdr[i])}
  {
    assert Tails(l, c, s.gen + 3, i + 1) == Tails(l, c, s.gen + 3, i) + {Write(s.gen + 3, l.h1[i], c.hdr[i])};
    assert AtTail(l, s, c, i + 1).queue == AtTail(l, s, c, i).queue + {Write(s.gen + 3, l.h1[i], c.hdr[i])};
    assert PutTail(l, AtTail(l, s, c, i), AtTail(l, s, c, i + 1));
  }

  ghost function AtWait(l: Layout, s: State, c: Commit): State
    requires |l.h1| == |l.h0| == |c.hdr|
  {
    AtFence(l, s, c).(queue := AtFence(l, s, c).queue + {FenceOf(s.gen + 4)}, pc := Wait, gen := s.gen + 5)
  }

  lemma WaitStep(l: Layout, s: State, c: Commit)
    requires |l.h1| == |l.h0| == |c.hdr|
    ensures Next(l, AtTail(l, s, c, |l.h1|), AtFence(l, s, c))
    ensures AtFence(l, s, c).gen == AtTail(l, s, c, |l.h1|).gen + 1 == s.gen + 4
    ensures AtFence(l, s, c).queue == AtTail(l, s, c, |l.h1|).queue
    ensures var q := AtFence(l, s, c).queue + {FenceOf(s.gen + 4)};
            && Next(l, AtFence(l, s, c), AtFence(l, s, c).(queue := q, pc := Fence1))
            && Next(l, AtFence(l, s, c).(queue := q, pc := Fence1), AtWait(l, s, c))
            && AtWait(l, s, c).queue == q && AtWait(l, s, c).gen == s.gen + 5
  {
    hide AtTail;
    TailParts(l, s, c, |l.h1|);
    var q := AtFence(l, s, c).queue + {FenceOf(s.gen + 4)};
    assert WaitUp(l, AtTail(l, s, c, |l.h1|), AtFence(l, s, c));
    assert WaitUp(l, AtFence(l, s, c), AtFence(l, s, c).(queue := q, pc := Fence1));
    assert WaitUp(l, AtFence(l, s, c).(queue := q, pc := Fence1), AtWait(l, s, c));
  }

  lemma TailParts(l: Layout, s: State, c: Commit, i: nat)
    requires i <= |l.h1| == |l.h0| == |c.hdr|
    ensures AtTail(l, s, c, i).gen == s.gen + 3 && AtTail(l, s, c, i).pc == Tail(i)
  {
  }

  lemma AtWaitParts(l: Layout, s: State, c: Commit)
    requires |l.h1| == |l.h0| == |c.hdr|
    ensures AtWait(l, s, c).pc.Wait? && AtWait(l, s, c).next == c && AtWait(l, s, c).gen == s.gen + 5
    ensures AtWait(l, s, c).disk == s.disk && AtWait(l, s, c).last == s.last && AtWait(l, s, c).prev == s.prev
    ensures AtWait(l, s, c).queue == s.queue + Puts(l, c, s.gen)
  {
  }
}
