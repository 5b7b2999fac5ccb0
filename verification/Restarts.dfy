/** Starts from what is on disk: after a commit, after a crash, and what a crash can do to the free set
    of the commit (src/blk.c, loadlog and logappend; src/ream.c, initarena). */
module Restarts {
  import opened Dat
  import opened Ranges
  import opened LogEnts
  import opened Arenas

  /** The barrier of a commit, and whatever was appended behind it: replay gives what was before it. */
  lemma ReplayToBarrier(es: seq<Ent>, pre: seq<Ent>, gen: nat, qgen: nat)
    requires pre + [Sync(gen)] <= es && gen >= qgen
    requires forall i :: 0 <= i < |pre| ==> !Stops(pre[i], qgen)
    ensures es[..Stop(es, qgen)] == pre
  {
    assert forall i :: 0 <= i < |pre| ==> es[i] == pre[i];
    assert es[|pre|] == Sync(gen);
    StopAt(es, |pre|, qgen);
  }

  /** The last block of the log is on disk, or a barrier that counts is before its end. */
  ghost predicate Startable(a: Arena, qgen: nat)
    reads a
  {
    a.stored != [] && (a.stored[|a.stored| - 1].next == -1 || Stop(a.DiskLog(), qgen) < |a.DiskLog()|)
  }

  ghost predicate SameSet(b: Arena, es: seq<Ent>)
    reads b, b.free
  {
    forall x :: b.Free(x) <==> FreeIn(es, x)
  }

  /** A start from the disk as a crash leaves it. Nothing in memory counts. */
  method Restart(a: Arena, qgen: nat) returns (b: Arena)
    requires a.Durable() && Startable(a, qgen)
    ensures b.Valid() && fresh(b) && fresh(b.free) && b.disk == a.disk && Startable(b, qgen)
    ensures b.start == a.start && b.size == a.size && b.reserve == a.reserve
    ensures b.Log() == b.loaded == a.DiskLog()[..Stop(a.DiskLog(), qgen)] && b.lgen == qgen && !b.rewritten
    ensures forall x :: b.Free(x) <==> FreeIn(a.DiskLog()[..Stop(a.DiskLog(), qgen)], x)
  {
    hide Covers, Total, Canon, FreeIn, DiskOk, ChainOk, EntsOf, Stop, Held;
    b := Start(a.start, a.size, a.reserve, a.loghd, a.disk, qgen, a.stored);
    assert forall x :: b.Free(x) <==> FreeIn(b.Log(), x);
  }

  /** Writing a block outside the log leaves the log readable. */
  lemma DiskOther(start: int, size: int, disk: map<int, LogBlk>, hd: int, bs: seq<LogBlk>, o: int, x: LogBlk)
    requires DiskOk(start, size, disk, hd, bs) && forall i :: 0 <= i < |bs| ==> bs[i].addr != o
    ensures DiskOk(start, size, disk[o := x], hd, bs)
  {
    hide Legal, AllHere, Held, HeldEnd, ParseOk, EntsOf, Whole;
    assert ChainOk(disk[o := x], hd, bs);
  }

  /** A crash while a block is chained: the new block is taken, and part, whatever of it has reached the
      disk, is written, but the full block does not name it yet. A start gives what it would have given
      before. */
  method CrashInChain(a: Arena, part: LogBlk, usereserve: bool, qgen: nat) returns (b: Arena)
    requires a.Valid() && a.LogFull() && Startable(a, qgen)
    modifies a`used, a`disk, a.free
    ensures b.Valid() && fresh(b) && fresh(b.free) && Startable(b, qgen)
    ensures b.Log() == old(a.DiskLog())[..Stop(old(a.DiskLog()), qgen)]
    ensures SameSet(b, old(a.DiskLog())[..Stop(old(a.DiskLog()), qgen)])
  {
    hide Covers, Total, Canon, FreeIn, DiskOk, ChainOk, EntsOf, Stop, Held, Whole, AllHere, Legal;
    ghost var bs := a.stored;
    var r := a.BlkallocLk(false, usereserve);
    if r.Got? {
      assert InBlock(r.b, r.b);
      forall i | 0 <= i < |bs| ensures bs[i].addr != r.b {
        assert bs[i].addr == a.Blocks()[i].addr;
      }
      DiskOther(a.start, a.size, a.disk, a.loghd, bs, r.b, part);
      a.disk := a.disk[r.b := part];
    }
    b := Restart(a, qgen);
  }

  /** The last block of the log is written, as sync does, and then the arena is started from disk. With
      no barrier that counts the free set is the one in memory, range by range; otherwise it is that of
      the first such barrier. */
  method Reload(a: Arena, qgen: nat) returns (b: Arena)
    requires a.Valid() && (a.logtl.next == -1 || Stop(a.Log(), qgen) < |a.Log()|)
    modifies a`disk, a`stored, a`rewritten
    ensures a.Valid() && a.Log() == old(a.Log()) && a.free.rs == old(a.free.rs)
    ensures b.Valid() && fresh(b) && fresh(b.free)
    ensures b.Log() == a.Log()[..Stop(a.Log(), qgen)]
    ensures Stop(a.Log(), qgen) == |a.Log()| ==> b.free.rs == a.free.rs && b.used == a.used
  {
    hide Covers, Total, Canon, FreeIn, DiskOk, ChainOk, EntsOf, Stop, Held, DurableIn;
    a.FlushLog();
    ghost var bs, es := a.Blocks(), a.Log();
    assert bs[|bs| - 1] == a.logtl;
    b := Restart(a, qgen);
    assert forall x :: a.Free(x) <==> FreeIn(es, x);
    if Stop(es, qgen) == |es| {
      assert es[..|es|] == es;
      CanonUnique(a.free.rs, b.free.rs);
    }
  }

  // ----- a crash some time after a start -----

  /** What a second start replays beyond what the first one did. */
  ghost function Since(a: Arena): seq<Ent>
    reads a
  {
    var d, n := a.DiskLog(), Stop(a.DiskLog(), a.lgen);
    if |a.loaded| <= n then d[|a.loaded|..n] else []
  }

  lemma SinceIs(a: Arena)
    requires a.Durable() && a.stored != []
    ensures a.DiskLog()[..Stop(a.DiskLog(), a.lgen)] == a.loaded + Since(a)
    ensures !a.rewritten ==> Since(a) == []
  {
    hide DiskOk, EntsOf, Stop;
    var d, n := a.DiskLog(), Stop(a.DiskLog(), a.lgen);
    assert a.rewritten ==> forall i :: 0 <= i < |a.loaded| ==> d[i] == a.loaded[i];
  }

  ghost predicate HitsAny(es: seq<Ent>, x: int) {
    exists i :: 0 <= i < |es| && Hits(es[i], x)
  }

  lemma {:induction false} FreeInConcat(p: seq<Ent>, w: seq<Ent>, x: int)
    ensures FreeIn(p + w, x) <==> if HitsAny(w, x) then FreeIn(w, x) else FreeIn(p, x)
  {
    if w == [] {
      assert p + w == p;
    } else {
      var n := |w| - 1;
      var v, e := w[..n], w[n];
      assert p + w == p + v + [e] && w == v + [e];
      FreeInConcat(p, v, x);
      FreeInPush(p + v, e, x);
      FreeInPush(v, e, x);
      HitsPush(v, e, x);
    }
  }

  lemma HitsPush(v: seq<Ent>, e: Ent, x: int)
    ensures HitsAny(v + [e], x) <==> HitsAny(v, x) || Hits(e, x)
  {
    var w := v + [e];
    if i :| 0 <= i < |v| && Hits(v[i], x) { assert Hits(w[i], x); }
    if Hits(e, x) { assert Hits(w[|v|], x); }
  }

  /** The entries w leave every address they are about as they found it. */
  ghost predicate NoEffect(p: seq<Ent>, w: seq<Ent>) {
    forall x :: HitsAny(w, x) ==> (FreeIn(w, x) <==> FreeIn(p, x))
  }

  /** Entries that free nothing have an effect as soon as one of them allocates. */
  lemma TakesShow(p: seq<Ent>, w: seq<Ent>)
    requires Legal(p + w) && forall i :: 0 <= i < |w| ==> !w[i].Free?
    ensures NoEffect(p, w) <==> forall i :: 0 <= i < |w| ==> !w[i].Alloc?
  {
    hide Legal, EntOk;
    forall x ensures !FreeIn(w, x) {
      TakesFree(w, x);
    }
    if i :| 0 <= i < |w| && w[i].Alloc? {
      TakenWasFree(p, w, i);
      assert HitsAny(w, w[i].off);
    }
  }

  lemma {:induction false} TakesFree(w: seq<Ent>, x: int)
    requires forall i :: 0 <= i < |w| ==> !w[i].Free?
    ensures !FreeIn(w, x)
  {
    if w != [] {
      TakesFree(w[..|w| - 1], x);
    }
  }

  /** What is allocated was free before. */
  lemma TakenWasFree(p: seq<Ent>, w: seq<Ent>, i: nat)
    requires Legal(p + w) && i < |w| && w[i].Alloc? && forall j :: 0 <= j < |w| ==> !w[j].Free?
    ensures Hits(w[i], w[i].off) && FreeIn(p, w[i].off)
  {
    hide FreeIn;
    var v, x := w[..i], w[i].off;
    assert p + v == (p + w)[..|p| + i];
    assert p + w[..i + 1] == (p + w)[..|p| + i + 1];
    assert w[..i + 1] == v + [w[i]] && p + (v + [w[i]]) == p + v + [w[i]];
    LegalPrefix(p + w, |p| + i + 1);
    LegalPush(p + v, w[i]);
    assert Hits(w[i], x);
    FreeInConcat(p, v, x);
    TakesFree(v, x);
  }

  /** A start, any operations, a crash and a second start for the same generation. While the last block
      of the log has not been written the second start gives what the first one gave; in general it
      does so exactly when the entries on disk since then have no effect; if none of them frees anything,
      exactly when none of them allocates. */
  method SecondStart(a: Arena, qgen: nat) returns (b: Arena)
    requires a.Valid() && Startable(a, qgen) && a.lgen == qgen
    ensures b.Valid() && fresh(b) && fresh(b.free) && b.disk == a.disk
    ensures b.Log() == a.DiskLog()[..Stop(a.DiskLog(), qgen)] == a.loaded + Since(a)
    ensures SameSet(b, b.Log())
    ensures !a.rewritten ==> b.Log() == a.loaded && SameSet(b, a.loaded)
    ensures SameSet(b, a.loaded) <==> NoEffect(a.loaded, Since(a))
    ensures (forall i :: 0 <= i < |Since(a)| ==> !Since(a)[i].Free?)
            ==> (SameSet(b, a.loaded) <==> forall i :: 0 <= i < |Since(a)| ==> !Since(a)[i].Alloc?)
  {
    hide Covers, Total, Canon, FreeIn, DurableIn, ChainOk, EntsOf, Stop, Held, Since, HitsAny;
    b := Restart(a, qgen);
    SinceIs(a);
    ghost var p, w := a.loaded, Since(a);
    assert p + [] == p;
    forall x ensures FreeIn(p + w, x) <==> if HitsAny(w, x) then FreeIn(w, x) else FreeIn(p, x) {
      FreeInConcat(p, w, x);
    }
    assert forall x :: b.Free(x) <==> FreeIn(p + w, x);
    if forall i :: 0 <= i < |w| ==> !w[i].Free? { TakesShow(p, w); }
  }

  // ----- two runs -----

  const Hd := 2 * Blksz

  /** The log of a new arena: everything behind the two headers is free, but for the log block itself.
      n blocks are left. */
  function FirstLog(n: nat): LogBlk {
    LogBlk(Hd, [Hd + LogFree, (n + 1) * Blksz, Hd + LogAlloc, Blksz, LogSync], -1)
  }

  function FirstEnts(n: nat): seq<Ent> {
    [LogEnts.Free(Hd, (n + 1) * Blksz), Alloc(Hd, Blksz)]
  }

  lemma HeadIs(ws: seq<int>)
    requires HeadOk(ws) && ParseOk(Rest(ws))
    ensures ParseOk(ws) && Parse(ws) == [Head(ws)] + Parse(Rest(ws))
  {
    hide OpOf, Head, Rest, HeadOk;
    assert ws != [] by { HeadSome(ws); }
  }

  lemma HeadSome(ws: seq<int>)
    requires HeadOk(ws)
    ensures ws != []
  {
  }

  /** The first j words of the log block. */
  lemma FirstParse(n: nat)
    ensures ParseOk(FirstLog(n).data) && Parse(FirstLog(n).data) == FirstEnts(n) + [Sync(0)]
    ensures forall d: seq<int> :: d <= FirstLog(n).data && ParseOk(d) && Parse(d) == FirstEnts(n) ==> |d| == 4
  {
    var ws := FirstLog(n).data;
    var f, r, s := ws[0..2], ws[2..4], ws[4..];
    EntAlone(f, LogEnts.Free(Hd, (n + 1) * Blksz));
    EntAlone(r, Alloc(Hd, Blksz));
    EntAlone(s, Sync(0));
    assert ws == f + r + s;
    ParseConcat(f, r);
    ParseConcat(f + r, s);
    forall d | d <= ws && ParseOk(d) && Parse(d) == FirstEnts(n) ensures |d| == 4 {
      assert d == ws[..|d|];
      PrefixLen(n, |d|);
    }
  }

  lemma PrefixLen(n: nat, j: nat)
    requires j <= 5 && ParseOk(FirstLog(n).data[..j]) && |Parse(FirstLog(n).data[..j])| == 2
    requires |Parse(FirstLog(n).data)| == 3
    ensures j == 4
  {
    var ws := FirstLog(n).data;
    var d := ws[..j];
    assert j == 5 ==> d == ws;
    assert j > 0 ==> d[0] == Hd + LogFree;
    var rest := if j > 1 then d[2..] else [];
    assert j == 2 ==> rest == [];
    assert j == 3 ==> rest == [Hd + LogAlloc];
    assert !HeadOk([Hd + LogAlloc]);
    assert j > 1 ==> HeadOk(d) && Rest(d) == rest;
  }

  lemma EntAlone(ws: seq<int>, e: Ent)
    requires HeadOk(ws) && Head(ws) == e && Rest(ws) == []
    ensures ParseOk(ws) && Parse(ws) == [e]
  {
    HeadIs(ws);
  }

  lemma FirstMeans(n: nat)
    requires n > 0
    ensures Legal(FirstEnts(n)) && Legal(FirstEnts(n) + [Sync(0)])
    ensures forall x :: FreeIn(FirstEnts(n), x) <==> Hd + Blksz <= x < Hd + (n + 1) * Blksz
    ensures Stop(FirstEnts(n) + [Sync(0)], 0) == 2 && (FirstEnts(n) + [Sync(0)])[..2] == FirstEnts(n)
  {
    hide FreeIn, Legal, Stop;
    var f, r := LogEnts.Free(Hd, (n + 1) * Blksz), Alloc(Hd, Blksz);
    assert FirstEnts(n) == [] + [f] + [r];
    LegalNone();
    LegalPush([], f);
    LegalPush([] + [f], r);
    LegalPush(FirstEnts(n), Sync(0));
    assert (n + 1) * Blksz % Blksz == 0;
    forall x
      ensures !FreeIn([], x) && (FreeIn([] + [f], x) <==> Hits(f, x))
      ensures FreeIn(FirstEnts(n), x) <==> Hits(f, x) && !Hits(r, x)
    {
      NoneFree(x);
      FreeInPush([], f, x);
      FreeInPush([] + [f], r, x);
    }
    StopAt(FirstEnts(n) + [Sync(0)], 2, 0);
  }

  lemma LegalNone()
    ensures Legal([])
  {
  }

  lemma NoneFree(x: int)
    ensures !FreeIn([], x)
  {
  }

  lemma FirstDisk(n: nat)
    requires n > 0
    ensures DiskOk(0, (n + 3) * Blksz, map[Hd := FirstLog(n)], Hd, [FirstLog(n)])
    ensures EntsOf([FirstLog(n)]) == FirstEnts(n) + [Sync(0)]
  {
    hide FreeIn, Legal, Stop, Parse, ParseOk, EntsOf;
    var b := FirstLog(n);
    FirstParse(n);
    FirstMeans(n);
    assert [b] == [] + [b];
    EntsPush([], b);
    EntsNone();
    FirstHeld(n);
  }

  lemma EntsNone()
    ensures EntsOf([]) == []
  {
  }

  lemma FirstHeld(n: nat)
    requires n > 0 && EntsOf([FirstLog(n)]) == FirstEnts(n) + [Sync(0)]
    ensures Held([FirstLog(n)]) && HeldEnd([FirstLog(n)])
  {
    hide FreeIn, EntsOf, Legal;
    FirstMeans(n);
    var bs, es := [FirstLog(n)], FirstEnts(n) + [Sync(0)];
    FreeInPush(FirstEnts(n), Sync(0), Hd);
    forall i, m: nat | 0 <= i < |bs| && |EntsOf(bs[..i])| <= m && Marks(es, m) ensures HeldAt(bs, i, m) {
      assert es[..2] == FirstEnts(n);
    }
  }

  /** A new arena, with n free blocks. */
  method StartNew(n: nat, reserve: int) returns (a: Arena)
    requires n > 0
    ensures a.Valid() && fresh(a) && fresh(a.free) && a.reserve == reserve && a.size - a.used == n * Blksz
    ensures |a.logtl.data| == 4 && a.loaded == a.Log() == FirstEnts(n) && a.lgen == 0 && !a.rewritten
    ensures a.stored == [FirstLog(n)]
  {
    hide FreeIn, Legal, Stop, Parse, ParseOk, EntsOf, DiskOk, Total, Canon, Covers, Held, ChainOk, DurableIn;
    FirstDisk(n);
    FirstMeans(n);
    a := Start(0, (n + 3) * Blksz, reserve, Hd, map[Hd := FirstLog(n)], 0, [FirstLog(n)]);
    NewFree(n, a.free.rs);
    NewTail(a, n);
  }

  lemma NewFree(n: nat, rs: seq<Range>)
    requires n > 0 && Canon(rs) && forall x :: Covers(rs, x) <==> Hd + Blksz <= x < Hd + (n + 1) * Blksz
    ensures Total(rs) == n * Blksz
  {
    var r := Range(Hd + Blksz, n * Blksz);
    assert n * Blksz % Blksz == 0;
    assert Canon([r]);
    forall x ensures Covers([r], x) <==> In(r, x) {
      CoversOne(r, x);
    }
    CanonUnique(rs, [r]);
    assert [r][1..] == [];
  }

  lemma NewTail(a: Arena, n: nat)
    requires a.chain == [] && a.logtl.data <= FirstLog(n).data && a.Log() == FirstEnts(n)
    requires ChainOk(a.disk, a.loghd, a.Blocks())
    ensures |a.logtl.data| == 4
  {
    hide Parse, ParseOk, EntsOf, ChainOk;
    FirstParse(n);
    ChainParse(a.disk, a.loghd, a.chain, a.logtl);
    assert a.Blocks() == [] + [a.logtl];
    EntsPush([], a.logtl);
    EntsNone();
  }

  /** The last block of the log fills up with allocations; nothing is written. */
  method FillTail(a: Arena)
    requires a.Valid() && |a.logtl.data| <= 2039
    requires a.size - a.used - (2039 - |a.logtl.data|) * Blksz > (if a.reserve > 0 then a.reserve else 0)
    modifies a, a.free
    ensures a.Valid() && a.LogFull() && a.used == old(a.used) + (2039 - |old(a.logtl.data)|) * Blksz
    ensures a.stored == old(a.stored) && a.rewritten == old(a.rewritten)
    ensures a.loaded == old(a.loaded) && a.lgen == old(a.lgen)
    ensures old(a.Log()) <= a.Log() && forall i :: |old(a.Log())| <= i < |a.Log()| ==> a.Log()[i].Alloc?
  {
    hide Covers, Total, Canon, FreeIn, Legal, DurableIn, ChainOk, EntsOf, Held, AllHere, Took;
    ghost var log0, d0, u0 := a.Log(), |a.logtl.data|, a.used;
    while |a.logtl.data| < 2039
      invariant a.Valid() && d0 <= |a.logtl.data| <= 2039 && a.used == u0 + (|a.logtl.data| - d0) * Blksz
      invariant a.stored == old(a.stored) && a.rewritten == old(a.rewritten)
      invariant a.loaded == old(a.loaded) && a.lgen == old(a.lgen)
      invariant log0 <= a.Log() && forall i :: |log0| <= i < |a.Log()| ==> a.Log()[i].Alloc?
      decreases 2039 - |a.logtl.data|
    {
      var r, ok;
      ghost var mid;
      r, ok, mid := a.Blkalloc(false, false);
    }
  }

  /** Two crashes after a start, a full block of log and one entry apart. The first start after a crash
      gives the free set of the commit, the second finds block x taken, which was free at the commit. */
  method CommitMissed() returns (b: Arena, c: Arena, x: int, ghost commit: seq<Ent>)
    ensures b.Valid() && SameSet(b, commit)
    ensures c.Valid() && FreeIn(commit, x) && !c.Free(x)
  {
    hide Covers, Total, Canon, FreeIn, Legal, DurableIn, ChainOk, EntsOf, Held, AllHere, Took, Stop, NoEffect, Since,
         Arena.Sound, FirstEnts, FirstLog;
    var a := StartNew(4096, 512 * 1024);
    commit := a.loaded;
    FirstStops(4096);
    FillTail(a);
    b := SecondStart(a, 0);
    x := ChainOne(a, commit);
    c := SecondStart(a, 0);
    AllTaken(commit, a.Log(), x);
  }

  /** One block more: the full block of log is written with a link to a new one. */
  method ChainOne(a: Arena, ghost commit: seq<Ent>) returns (x: int)
    requires a.Valid() && a.LogFull() && a.size - a.used - Blksz > a.reserve >= 0 && commit <= a.Log()
    requires forall i :: |commit| <= i < |a.Log()| ==> a.Log()[i].Alloc?
    modifies a, a.free
    ensures a.Valid() && a.rewritten && a.stored == a.Blocks() && a.logtl.next == -1
    ensures a.loaded == old(a.loaded) && a.lgen == old(a.lgen)
    ensures commit <= a.Log() && |commit| < |a.Log()| && (forall i :: |commit| <= i < |a.Log()| ==> a.Log()[i].Alloc?)
    ensures a.Log()[|a.Log()| - 1] == Alloc(x, Blksz)
  {
    hide Covers, Total, Canon, FreeIn, Legal, DurableIn, ChainOk, EntsOf, Held, AllHere, Took;
    ghost var was := a.Log();
    var r, ok;
    ghost var mid;
    r, ok, mid := a.Blkalloc(false, false);
    x := r.b;
    assert commit == was[..|commit|] == a.Log()[..|commit|];
  }

  lemma FirstStops(n: nat)
    ensures |FirstEnts(n)| == 2 && forall i :: 0 <= i < 2 ==> !FirstEnts(n)[i].Sync?
    ensures FirstLog(n).next == -1
  {
  }

  /** A commit followed by allocations only: what was allocated last was free at the commit. */
  lemma AllTaken(commit: seq<Ent>, es: seq<Ent>, x: int)
    requires commit <= es && |commit| < |es| && Legal(es) && (forall i :: 0 <= i < |commit| ==> !Stops(commit[i], 0))
    requires (forall i :: |commit| <= i < |es| ==> es[i].Alloc?) && es[|es| - 1] == Alloc(x, Blksz)
    ensures Stop(es, 0) == |es| && es[..|es|] == es && FreeIn(commit, x) && !FreeIn(es, x)
  {
    hide FreeIn, Legal, Stop;
    var w := es[|commit|..];
    assert es == commit + w && w[|w| - 1] == es[|es| - 1];
    StopAt(es, |es|, 0);
    TakenWasFree(commit, w, |w| - 1);
    FreeInPush(es[..|es| - 1], es[|es| - 1], x);
    assert es == es[..|es| - 1] + [es[|es| - 1]];
  }

  /** A block is lost when the log is full and the arena one block above its reserve. */
  method BlockLost() returns (a: Arena, x: int)
    ensures a.Sound() && !a.Free(x) && FreeIn(a.Log(), x)
  {
    hide Covers, Total, Canon, FreeIn, Legal, DurableIn, ChainOk, EntsOf, Held, AllHere, Took;
    a := StartNew(2068, 512 * 1024);
    FillTail(a);
    var r, ok;
    ghost var mid;
    r, ok, mid := a.Blkalloc(false, false);
    x := r.b;
  }
}
