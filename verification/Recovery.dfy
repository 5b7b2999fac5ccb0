/** Recovery after a crash at any point of any run of the commit protocol (src/load.c, loadfs and
    loadarena; src/blk.c, readblk). */
module Recovery {
  import opened SyncQueue
  import opened Commit

  type Disk = map<Addr, Cell>

  datatype Option<T> = None | Some(value: T)

  /** The disk a crash leaves: the writes popped so far, and perhaps half of the one being written,
      which is one that qpop may return. */
  ghost predicate Crash(s: State, d: Disk) {
    || d == s.disk
    || exists e :: e in s.queue && e.q.op == Qwrite && First(s, e) && d == s.disk[e.q.addr := Torn]
  }

  ghost predicate First(s: State, e: W) {
    forall x :: x in s.queue ==> Le(e.q, x.q)
  }

  predicate Holds(d: Disk, a: Addr, b: Block) {
    a in d && d[a] == Whole(b)
  }

  predicate Valid(d: Disk, a: Addr) {
    a in d && d[a].Whole? && d[a].b.Super?
  }

  // ----- the loader -----

  const GBNOCHK: bv32 := 4
  const GBSOFTCHK: bv32 := 8

  /** The negation of C: one for zero, zero for the rest. */
  function Not(x: bv32): bv32 { if x == 0 then 1 else 0 }

  /** What readblk returns: the block, or an error when its hash is checked and differs. */
  function ReadBlk(d: Disk, a: Addr, want: Block, flg: bv32): Option<Cell>
    requires a in d
  {
    if Not(flg) & GBNOCHK != 0 && d[a] != Whole(want) then None else Some(d[a])
  }

  /** The hash check of readblk never fires: `!flg & GBnochk` is zero for every flg. */
  lemma NeverChecked(d: Disk, a: Addr, want: Block, flg: bv32)
    requires a in d
    ensures ReadBlk(d, a, want, flg) == Some(d[a])
  {
    if flg == 0 {
      assert Not(flg) & GBNOCHK == 0;
    } else {
      assert Not(flg) & GBNOCHK == 0;
    }
  }

  /** The commit the superblock choice of loadfs arrives at. */
  ghost function Chosen(l: Layout, d: Disk): Option<Commit> {
    if Valid(d, l.sb0) then Some(d[l.sb0].b.c) else if Valid(d, l.sb1) then Some(d[l.sb1].b.c) else None
  }

  /** Which of the superblocks loadfs unpacks; unpacksb does check the hash it stores. */
  method LoadSuper(l: Layout, d: Disk) returns (r: Option<Commit>)
    requires l.sb0 in d && l.sb1 in d
    ensures r == Chosen(l, d)
  {
    r := None;
    if Valid(d, l.sb0) {
      r := Some(d[l.sb0].b.c);
    } else if Valid(d, l.sb1) {
      r := Some(d[l.sb1].b.c);
    }
  }

  /** loadarena: the header it unpacks is the first copy, whatever that copy holds. */
  method LoadArena(d: Disk, a0: Addr, a1: Addr, want: Block) returns (r: Option<Cell>)
    requires a0 in d && a1 in d
    ensures r == Some(d[a0])
  {
    var h0 := ReadBlk(d, a0, want, GBSOFTCHK);
    var h1 := ReadBlk(d, a1, want, GBSOFTCHK);
    r := if h0.Some? then h0 else h1;
    NeverChecked(d, a0, want, GBSOFTCHK);
  }

  // ----- what a crash leaves -----

  /** Only the place of a queued write can be torn. */
  lemma Intact(s: State, d: Disk, a: Addr)
    requires Crash(s, d) && !Queued(s, a)
    ensures a in d <==> a in s.disk
    ensures a in s.disk ==> d[a] == s.disk[a]
  {
    hide Le;
  }

  /** A torn write is one of the oldest generation queued. */
  lemma TornFirst(s: State, d: Disk, a: Addr, g: nat)
    requires Crash(s, d) && a in s.disk
    requires forall w :: w in s.queue && w.q.op == Qwrite && w.q.addr == a ==> w.q.qgen == g
    ensures a in d
    ensures d[a] == s.disk[a] || forall w :: w in s.queue ==> g <= w.q.qgen
  {
    if d[a] != s.disk[a] {
      var e :| e in s.queue && e.q.op == Qwrite && First(s, e) && d == s.disk[e.q.addr := Torn];
      assert e.q.addr == a;
      forall w | w in s.queue ensures g <= w.q.qgen {
        assert Le(e.q, w.q);
      }
    }
  }

  /** A fixed place after a crash: its old contents, its new ones, or, when its write was under
      way, nothing older being left in the queue, neither. */
  lemma PlaceCrash(s: State, d: Disk, a: Addr, b: Block, b': Block, g: nat, put: bool)
    requires Crash(s, d) && Place(s, a, b, b', g, put)
    ensures a in d
    ensures !put ==> Holds(d, a, b)
    ensures Holds(d, a, b) || Holds(d, a, b')
         || (put && d[a] == Torn && forall w :: w in s.queue ==> g <= w.q.qgen)
    ensures put && !Holds(d, a, b) && d[a] != Torn ==> s.last >= g && Holds(d, a, b')
    ensures put && (forall w :: w in s.queue ==> g < w.q.qgen) ==> Holds(d, a, b')
  {
    hide Le;
    if Queued(s, a) {
      TornFirst(s, d, a, g);
      if d[a] != s.disk[a] {
        assert Write(g, a, b') in s.queue;
        WriteTorn(s, d, a);
      }
    } else {
      Intact(s, d, a);
    }
  }

  lemma WriteTorn(s: State, d: Disk, a: Addr)
    requires Crash(s, d) && a in s.disk && a in d && d[a] != s.disk[a]
    ensures d[a] == Torn
  {
    hide Le;
  }

  /** Nothing queued is older than what was popped last. */
  lemma NothingOlder(l: Layout, s: State, g: nat)
    requires Gens(l, s) && (s.last >= g || forall w :: w in s.queue ==> g <= w.q.qgen)
    ensures forall w :: w in s.queue ==> g <= w.q.qgen
  {
  }

  /** One superblock is whole, and both hold the last commit or the one under way. */
  lemma SupersCrash(l: Layout, s: State, d: Disk)
    requires Inv(l, s) && Crash(s, d)
    ensures l.sb0 in d && l.sb1 in d && (Valid(d, l.sb0) || Valid(d, l.sb1))
    ensures Valid(d, l.sb0) ==> d[l.sb0].b.c == s.prev || (d[l.sb0].b.c == s.next && NewSuper(s))
    ensures Valid(d, l.sb1) ==> d[l.sb1].b.c == s.prev || (d[l.sb1].b.c == s.next && NewSuper(s))
  {
    hide Le, Gens, HdrAt, Needed, Unique, Distinct;
    SuperCrash(l, s, d, l.sb0, 0);
    SuperCrash(l, s, d, l.sb1, 1);
    hide Place;
    if d[l.sb0] == Torn && d[l.sb1] == Torn {
      OneTorn(s, d, l.sb0, l.sb1);
      assert Distinct(l);
      SupersDiffer(l);
    }
  }

  lemma SupersDiffer(l: Layout)
    requires Distinct(l)
    ensures l.sb0 != l.sb1
  {
  }

  lemma OneTorn(s: State, d: Disk, a: Addr, b: Addr)
    requires Crash(s, d) && a in d && b in d && d[a] == Torn && d[b] == Torn
    requires a in s.disk && s.disk[a] != Torn && b in s.disk && s.disk[b] != Torn
    ensures a == b
  {
    hide Le;
  }

  /** The write of a superblock has been popped. */
  ghost predicate NewSuper(s: State) {
    Busy(s) && !s.pc.Hdr? && s.last >= s.sg
  }

  lemma SuperCrash(l: Layout, s: State, d: Disk, a: Addr, k: nat)
    requires Crash(s, d) && Place(s, a, Super(s.prev), Super(s.next), s.sg, SupPut(s, k))
    ensures a in d && a in s.disk && s.disk[a] != Torn
    ensures d[a] == Torn || Holds(d, a, Super(s.prev)) || (Holds(d, a, Super(s.next)) && NewSuper(s))
  {
    PlaceCrash(s, d, a, Super(s.prev), Super(s.next), s.sg, SupPut(s, k));
  }

  /** A commit is recoverable from a disk: one header copy of each arena is the commit's, and all
      the blocks it needs are there. */
  ghost predicate Recoverable(l: Layout, d: Disk, c: Commit) {
    && |c.hdr| == |l.h0| == |l.h1|
    && (forall i: nat {:trigger Copy(l, d, c, i)} :: i < |l.h0| ==> Copy(l, d, c, i))
    && (forall a :: a in c.req ==> Holds(d, a, c.req[a]))
  }

  ghost predicate Copy(l: Layout, d: Disk, c: Commit, i: nat)
    requires i < |c.hdr| == |l.h0| == |l.h1|
  {
    Holds(d, l.h0[i], c.hdr[i]) || Holds(d, l.h1[i], c.hdr[i])
  }

  /** The last commit can be recovered until the footers are written. */
  lemma PrevCopy(l: Layout, s: State, d: Disk, i: nat)
    requires Gens(l, s) && Crash(s, d) && i < |l.h0| == |l.h1| == |s.prev.hdr| && HdrAt(l, s, i)
    requires !(Busy(s) && !s.pc.Hdr? && !s.pc.Sup? && (s.last >= s.tg || forall w :: w in s.queue ==> s.tg <= w.q.qgen))
    ensures Holds(d, l.h0[i], s.prev.hdr[i]) || Holds(d, l.h1[i], s.prev.hdr[i])
  {
    hide Le, Place;
    PlaceCrash(s, d, l.h1[i], s.prev.hdr[i], NewHdr(s, i), s.tg, TailPut(s, i));
  }

  /** The new headers are on disk once a superblock may be. */
  lemma NextCopy(l: Layout, s: State, d: Disk, i: nat)
    requires Gens(l, s) && Crash(s, d) && i < |l.h0| == |l.h1| == |s.prev.hdr| && HdrAt(l, s, i) && NewSuper(s)
    ensures |s.next.hdr| == |l.h0| && Holds(d, l.h0[i], s.next.hdr[i])
  {
    hide Le, Place;
    PlaceCrash(s, d, l.h0[i], s.prev.hdr[i], NewHdr(s, i), s.hg, HdrPut(s, i));
  }

  /** When a footer is being written, both superblocks hold the new commit. */
  lemma SupersDone(l: Layout, s: State, d: Disk)
    requires Inv(l, s) && Crash(s, d)
    requires Busy(s) && !s.pc.Hdr? && !s.pc.Sup?
    requires s.last >= s.tg || forall w :: w in s.queue ==> s.tg <= w.q.qgen
    ensures Holds(d, l.sb0, Super(s.next)) && NewSuper(s)
  {
    hide Le, Place, HdrAt, Needed, Unique, Distinct;
    NothingOlder(l, s, s.tg);
    PlaceCrash(s, d, l.sb0, Super(s.prev), Super(s.next), s.sg, SupPut(s, 0));
    PlaceLast(s, l.sb0, Super(s.prev), Super(s.next), s.sg);
  }

  lemma PlaceLast(s: State, a: Addr, b: Block, b': Block, g: nat)
    requires Place(s, a, b, b', g, true) && forall w :: w in s.queue ==> g < w.q.qgen
    ensures s.last >= g
  {
  }

  lemma NextBlocks(l: Layout, s: State, d: Disk, a: Addr)
    requires Gens(l, s) && Crash(s, d) && NewSuper(s) && a in s.next.req && Needed(s, a, s.next.req[a])
    ensures Holds(d, a, s.next.req[a])
  {
    hide Le;
    assert forall w :: w in s.queue ==> s.hg < w.q.qgen;
    hide Gens;
    Intact(s, d, a);
  }

  lemma PrevBlocks(l: Layout, s: State, d: Disk, a: Addr)
    requires Inv(l, s) && Crash(s, d) && a in s.prev.req
    ensures Holds(d, a, s.prev.req[a])
  {
    hide Le, Place, Gens, HdrAt, Needed, Unique, Distinct, Crash;
    Intact(s, d, a);
  }

  lemma PrevRecoverable(l: Layout, s: State, d: Disk)
    requires Inv(l, s) && Crash(s, d) && Chosen(l, d) == Some(s.prev)
    ensures Recoverable(l, d, s.prev) || (NewSuper(s) && s.prev == s.next)
  {
    hide Le, Place, Gens, HdrAt, Needed, Unique, Distinct, Crash;
    if Busy(s) && !s.pc.Hdr? && !s.pc.Sup? && (s.last >= s.tg || forall w :: w in s.queue ==> s.tg <= w.q.qgen) {
      SupersDone(l, s, d);
    } else {
      forall i: nat | i < |l.h0| ensures Copy(l, d, s.prev, i) {
        assert HdrAt(l, s, i);
        PrevCopy(l, s, d, i);
      }
      forall a | a in s.prev.req ensures Holds(d, a, s.prev.req[a]) {
        PrevBlocks(l, s, d, a);
      }
    }
  }

  lemma NextRecoverable(l: Layout, s: State, d: Disk)
    requires Inv(l, s) && Crash(s, d) && NewSuper(s)
    ensures Recoverable(l, d, s.next)
    ensures forall i :: 0 <= i < |l.h0| ==> Holds(d, l.h0[i], s.next.hdr[i])
  {
    hide Le, Place, Gens, HdrAt, Needed, Unique, Distinct, Crash;
    NextHdrs(l, s);
    forall i: nat | i < |l.h0| ensures Copy(l, d, s.next, i) && Holds(d, l.h0[i], s.next.hdr[i]) {
      assert HdrAt(l, s, i);
      NextCopy(l, s, d, i);
    }
    forall a | a in s.next.req ensures Holds(d, a, s.next.req[a]) {
      NextBlocks(l, s, d, a);
    }
  }

  lemma NextHdrs(l: Layout, s: State)
    requires Gens(l, s) && Busy(s)
    ensures |s.next.hdr| == |l.h0|
  {
  }

  // ----- the theorems -----

  /** Whatever a run of commits has done and wherever it is cut off, a superblock is readable; it is
      the last finished commit's or the one under way's; and every arena has a header copy of that
      same commit, and all of its blocks are on disk. */
  lemma CrashSafe(l: Layout, run: seq<State>, i: nat, d: Disk)
    requires IsRun(l, run) && i < |run| && Crash(run[i], d)
    ensures Chosen(l, d).Some?
    ensures Chosen(l, d).value == run[i].prev || (Busy(run[i]) && Chosen(l, d).value == run[i].next)
    ensures Recoverable(l, d, Chosen(l, d).value)
  {
    hide IsRun, Inv, Crash, Recoverable;
    RunInv(l, run, i);
    StateSafe(l, run[i], d);
  }

  lemma StateSafe(l: Layout, s: State, d: Disk)
    requires Inv(l, s) && Crash(s, d)
    ensures Chosen(l, d).Some? && Recoverable(l, d, Chosen(l, d).value)
    ensures Chosen(l, d).value == s.prev || (NewSuper(s) && Chosen(l, d).value == s.next)
  {
    hide Inv, Crash, Recoverable;
    SupersCrash(l, s, d);
    if Chosen(l, d).value == s.prev {
      PrevRecoverable(l, s, d);
      if NewSuper(s) && s.prev == s.next { NextRecoverable(l, s, d); }
    } else {
      NextRecoverable(l, s, d);
    }
  }

  /** The newer commit is chosen as soon as one of the superblocks on disk is its own: the first one, which
      is at the lower address, is written before the second. */
  lemma NewestChosen(l: Layout, run: seq<State>, i: nat, d: Disk)
    requires IsRun(l, run) && i < |run| && Crash(run[i], d) && l.sb0 < l.sb1 && Busy(run[i])
    requires Holds(d, l.sb0, Super(run[i].next)) || Holds(d, l.sb1, Super(run[i].next))
    ensures Chosen(l, d) == Some(run[i].next)
  {
    hide IsRun, Inv, Crash, SupersInOrder;
    RunInv(l, run, i);
    RunOrder(l, run, i);
    StateNewest(l, run[i], d);
  }

  lemma StateNewest(l: Layout, s: State, d: Disk)
    requires Inv(l, s) && Crash(s, d) && SupersInOrder(l, s) && Busy(s)
    requires Holds(d, l.sb0, Super(s.next)) || Holds(d, l.sb1, Super(s.next))
    ensures Chosen(l, d) == Some(s.next)
  {
    hide Le, Gens, HdrAt, Needed, Unique, Distinct, Crash;
    SupersCrash(l, s, d);
    if !Holds(d, l.sb0, Super(s.next)) && s.prev != s.next {
      SecondNew(l, s, d);
    }
  }

  /** The second superblock cannot be the new one while the first is the old one or cut short. */
  lemma SecondNew(l: Layout, s: State, d: Disk)
    requires Inv(l, s) && Crash(s, d) && SupersInOrder(l, s) && Busy(s) && s.prev != s.next
    requires Holds(d, l.sb1, Super(s.next))
    ensures Holds(d, l.sb0, Super(s.next))
  {
    hide Le, Gens, HdrAt, Needed, Unique, Distinct;
    if Queued(s, l.sb1) { assert false; }
    assert SupPut(s, 1) && Write(s.sg, l.sb1, Super(s.next)) !in s.queue;
    assert At(s, l.sb0, Super(s.next)) && !Queued(s, l.sb0);
    Intact(s, d, l.sb0);
  }

  /** The write of a first header copy has begun: it is cut short, or done and not what was there. */
  ghost predicate Begun(l: Layout, s: State, d: Disk, k: nat)
    requires k < |l.h0| == |s.prev.hdr| && l.h0[k] in d && l.h0[k] in s.disk
  {
    && HdrPut(s, k)
    && (d[l.h0[k]] != s.disk[l.h0[k]]
        || (Write(s.hg, l.h0[k], NewHdr(s, k)) !in s.queue && NewHdr(s, k) != s.prev.hdr[k]))
  }

  lemma HdrLoad(l: Layout, s: State, d: Disk, k: nat)
    requires Crash(s, d) && k < |l.h0| == |l.h1| == |s.prev.hdr| && HdrAt(l, s, k)
    ensures l.h0[k] in d && l.h0[k] in s.disk
    ensures Holds(d, l.h0[k], s.prev.hdr[k]) <==> !Begun(l, s, d, k)
  {
    hide Le;
    var a := l.h0[k];
    PlaceCrash(s, d, a, s.prev.hdr[k], NewHdr(s, k), s.hg, HdrPut(s, k));
    if Queued(s, a) {
      if d[a] != s.disk[a] { WriteTorn(s, d, a); }
    } else {
      Intact(s, d, a);
    }
  }

  /** loadarena unpacks the headers of the commit whose superblock was chosen if and only if that is
      not the last commit, or the write of no header of the next one has begun: with the check that
      never fires, the second copies are not looked at. */
  lemma LoaderRight(l: Layout, run: seq<State>, i: nat, d: Disk)
    requires IsRun(l, run) && i < |run| && Crash(run[i], d)
    ensures Chosen(l, d).Some? && |Chosen(l, d).value.hdr| == |l.h0| == |run[i].prev.hdr|
    ensures forall k :: 0 <= k < |l.h0| ==> l.h0[k] in d && l.h0[k] in run[i].disk
    ensures (forall k :: 0 <= k < |l.h0| ==> Holds(d, l.h0[k], Chosen(l, d).value.hdr[k]))
       <==> (Chosen(l, d).value != run[i].prev
             || forall k: nat :: k < |l.h0| ==> !Begun(l, run[i], d, k))
  {
    hide IsRun, Inv, Crash, Begun;
    RunInv(l, run, i);
    StateSafe(l, run[i], d);
    StateLoad(l, run[i], d);
    if Chosen(l, d).value != run[i].prev {
      NextRecoverable(l, run[i], d);
    }
  }

  lemma StateLoad(l: Layout, s: State, d: Disk)
    requires Inv(l, s) && Crash(s, d)
    ensures |s.prev.hdr| == |l.h0|
    ensures forall k: nat :: k < |l.h0| ==> l.h0[k] in d && l.h0[k] in s.disk
    ensures forall k: nat :: k < |l.h0| ==> (Holds(d, l.h0[k], s.prev.hdr[k]) <==> !Begun(l, s, d, k))
  {
    hide Le, Place, Gens, HdrAt, Needed, Unique, Distinct, Crash, Begun;
    forall k: nat | k < |l.h0|
      ensures l.h0[k] in d && l.h0[k] in s.disk && (Holds(d, l.h0[k], s.prev.hdr[k]) <==> !Begun(l, s, d, k))
    {
      assert HdrAt(l, s, k);
      HdrLoad(l, s, d, k);
    }
  }

  /** Such a crash: one arena, its new header just written and the superblock still the old one.
      The header loaded is not the old commit's, though its second copy is. */
  lemma HeaderAhead() returns (l: Layout, run: seq<State>)
    ensures IsRun(l, run) && |run| == 5 && Crash(run[4], run[4].disk)
    ensures Chosen(l, run[4].disk) == Some(run[4].prev) && |run[4].prev.hdr| == 1
    ensures |l.h0| == |l.h1| == 1
    ensures l.h0[0] in run[4].disk && run[4].disk[l.h0[0]] != Whole(run[4].prev.hdr[0])
    ensures Holds(run[4].disk, l.h1[0], run[4].prev.hdr[0])
  {
    l := Layout([1], [2], 0, 3);
    var c, c' := Commit(0, [Header(0, 0)], map[]), Commit(1, [Header(0, 1)], map[]);
    var d := map[0 := Whole(Super(c)), 1 := Whole(Header(0, 0)), 2 := Whole(Header(0, 0)), 3 := Whole(Super(c))];
    var s0 := State(d, {}, 0, 0, Idle, c, c, 0, 0, 0, 0);
    var s1 := s0.(gen := 1, pc := Open);
    var s2 := s1.(pc := Hdr(0), next := c', hg := 1);
    var w := Write(1, 1, Header(0, 1));
    var s3 := s2.(queue := {w}, pc := Hdr(1));
    var s4 := s3.(queue := {}, last := 1, disk := d[1 := Whole(Header(0, 1))]);
    assert Init(l, s0);
    assert Start(s0, s1);
    assert Pack(l, s1, s2, c');
    assert PutHdr(l, s2, s3) by { assert s3.queue == s2.queue + {w}; }
    assert Pop(l, s3, s4, w) by { assert s4.queue == s3.queue - {w}; }
    run := [s0, s1, s2, s3, s4];
    assert forall i :: 0 <= i < 4 ==> Next(l, run[i], run[i + 1]);
  }
}
