/** Runs of the write queue (src/blk.c, qput, qpop and runsync; src/fs.c, wrbarrier): entries are
    stamped with the generation current at their put, barriers raise it, and the syncer pops. */
module QueueRuns {
  import opened SyncQueue

  datatype QState = QState(pending: multiset<Qent>, gen: int, put: multiset<Qent>, popped: seq<Qent>)

  ghost predicate Init(s: QState) {
    s.pending == multiset{} && s.put == multiset{} && s.popped == []
  }

  /** qput adds an entry stamped with the current generation. */
  ghost predicate Put(s: QState, t: QState, e: Qent) {
    e.qgen == s.gen
    && t == s.(pending := s.pending + multiset{e}, put := s.put + multiset{e})
  }

  ghost predicate Barrier(s: QState, t: QState) {
    t == s.(gen := s.gen + 1)
  }

  /** qpop's contract: a pending entry that no pending entry is before. */
  ghost predicate Pop(s: QState, t: QState, e: Qent) {
    && e in s.pending && (forall x :: x in s.pending ==> Le(e, x))
    && t == s.(pending := s.pending - multiset{e}, popped := s.popped + [e])
  }

  ghost predicate Next(s: QState, t: QState) {
    || Barrier(s, t)
    || (exists e :: Put(s, t, e))
    || (exists e :: Pop(s, t, e))
  }

  /** Nothing is lost or made up. */
  ghost predicate Conserved(s: QState) {
    s.put == s.pending + multiset(s.popped)
  }

  /** Nothing pending is older than what was popped, and popped generations never decrease. */
  ghost predicate Ordered(s: QState) {
    && (forall x :: x in s.pending ==> x.qgen <= s.gen)
    && (forall i :: 0 <= i < |s.popped| ==> s.popped[i].qgen <= s.gen)
    && (forall i, x :: 0 <= i < |s.popped| && x in s.pending ==> s.popped[i].qgen <= x.qgen)
    && (forall i, j :: 0 <= i < j < |s.popped| ==> s.popped[i].qgen <= s.popped[j].qgen)
  }

  ghost predicate Inv(s: QState) {
    Conserved(s) && Ordered(s)
  }

  lemma InvNext(s: QState, t: QState)
    requires Inv(s) && Next(s, t)
    ensures Inv(t)
  {
    hide Conserved, Ordered, Pop, Put;
    if e :| Pop(s, t, e) {
      PopConserved(s, t, e);
      PopOrdered(s, t, e);
    } else if e :| Put(s, t, e) {
      PutInv(s, t, e);
    } else {
      BarrierInv(s, t);
    }
  }

  lemma BarrierInv(s: QState, t: QState)
    requires Inv(s) && Barrier(s, t)
    ensures Inv(t)
  {
  }

  lemma PutInv(s: QState, t: QState, e: Qent)
    requires Inv(s) && Put(s, t, e)
    ensures Inv(t)
  {
    assert forall x :: x in t.pending ==> x == e || x in s.pending;
  }

  lemma PopConserved(s: QState, t: QState, e: Qent)
    requires Conserved(s) && Pop(s, t, e)
    ensures Conserved(t)
  {
    hide Le;
    assert multiset(t.popped) == multiset(s.popped) + multiset{e};
  }

  lemma PopOrdered(s: QState, t: QState, e: Qent)
    requires Ordered(s) && Pop(s, t, e)
    ensures Ordered(t)
  {
    PopGen(s, t, e);
    assert forall x :: x in t.pending ==> x in s.pending;
    hide Le;
  }

  lemma PopGen(s: QState, t: QState, e: Qent)
    requires Pop(s, t, e)
    ensures forall x :: x in s.pending ==> e.qgen <= x.qgen
  {
    forall x | x in s.pending ensures e.qgen <= x.qgen {
      assert Le(e, x);
    }
  }

  ghost predicate IsRun(run: seq<QState>) {
    run != [] && Init(run[0]) && forall i :: 0 <= i < |run| - 1 ==> Next(run[i], run[i + 1])
  }

  lemma {:induction false} RunInv(run: seq<QState>, i: nat)
    requires IsRun(run) && i < |run|
    ensures Inv(run[i])
  {
    hide Inv, Next;
    if i == 0 {
      InitInv(run[0]);
    } else {
      RunInv(run, i - 1);
      assert Next(run[i - 1], run[i - 1 + 1]);
      InvNext(run[i - 1], run[i]);
    }
  }

  lemma InitInv(s: QState)
    requires Init(s)
    ensures Inv(s)
  {
  }

  /** In every state of every run, once a fence (or any entry) of generation g has been popped,
      every entry put under an earlier generation was popped before it. */
  lemma FencePassed(run: seq<QState>, i: nat, j: nat, e: Qent)
    requires IsRun(run) && i < |run| && j < |run[i].popped|
    requires e.qgen < run[i].popped[j].qgen
    ensures multiset(run[i].popped[..j])[e] == run[i].put[e] && e !in run[i].pending
  {
    hide IsRun, Next;
    RunInv(run, i);
    var s := run[i];
    assert s.popped == s.popped[..j] + s.popped[j..];
    assert e !in s.popped[j..];
    assert multiset(s.popped) == multiset(s.popped[..j]) + multiset(s.popped[j..]);
    assert multiset(s.popped[j..])[e] == 0;
  }

  /** Within a generation a fence comes before what is put there, a write before a free, and of two writes or
      two frees the one at the lower address: all of x put so far was popped before e. */
  ghost predicate Sooner(x: Qent, e: Qent) {
    && x.qgen == e.qgen
    && ((x.op.Qfence? && !e.op.Qfence?) || (x.op.Qwrite? && e.op.Qfree?) || (x.op == e.op && x.addr < e.addr))
  }

  lemma PopsSooner(run: seq<QState>, n: nat, e: Qent, x: Qent)
    requires IsRun(run) && n + 1 < |run| && Pop(run[n], run[n + 1], e) && Sooner(x, e)
    ensures multiset(run[n].popped)[x] == run[n].put[x]
  {
    hide IsRun, Next;
    RunInv(run, n);
    assert x !in run[n].pending by { NotLe(e, x); }
  }

  lemma NotLe(e: Qent, x: Qent)
    requires Sooner(x, e)
    ensures !Le(e, x)
  {
  }

  /** Popped generations never decrease in any run. */
  lemma PoppedInOrder(run: seq<QState>, n: nat, i: nat, j: nat)
    requires IsRun(run) && n < |run| && i < j < |run[n].popped|
    ensures run[n].popped[i].qgen <= run[n].popped[j].qgen
  {
    hide IsRun, Next;
    RunInv(run, n);
  }
}
