/** Rewriting the log of an arena as one entry per free range (src/blk.c, compresslog). */
module Compress {
  import opened Dat
  import opened Ranges
  import opened LogEnts
  import opened Arenas

  /** The entries of the rewritten log. */
  function FreesOf(rs: seq<Range>): seq<Ent> {
    if rs == [] then [] else FreesOf(rs[..|rs| - 1]) + [LogEnts.Free(rs[|rs| - 1].off, rs[|rs| - 1].len)]
  }

  lemma FreesPush(rs: seq<Range>, j: nat)
    requires j < |rs|
    ensures FreesOf(rs[..j + 1]) == FreesOf(rs[..j]) + [LogEnts.Free(rs[j].off, rs[j].len)]
  {
    assert rs[..j + 1][..j] == rs[..j];
  }

  /** Replaying one entry per range gives the ranges. */
  lemma {:induction false} FreesMean(rs: seq<Range>)
    requires Canon(rs) && forall x :: Covers(rs, x) ==> x >= 0
    ensures Legal(FreesOf(rs)) && forall x :: FreeIn(FreesOf(rs), x) <==> Covers(rs, x)
  {
    if rs == [] {
    } else {
      var n := |rs| - 1;
      var e := LogEnts.Free(rs[n].off, rs[n].len);
      assert rs == rs[..n] + [rs[n]];
      assert Canon(rs[..n]);
      assert Whole(rs[n].off, rs[n].len);
      CoveredBy(rs, n, rs[n].off);
      hide Covers, Canon, FreeIn, Legal, Whole;
      forall x ensures Covers(rs, x) <==> Covers(rs[..n], x) || In(rs[n], x) {
        CoversMiddle(rs[..n], [rs[n]], [], x);
        assert rs[..n] + [rs[n]] + [] == rs;
        CoversOne(rs[n], x);
        CoversNone(x);
      }
      FreesMean(rs[..n]);
      LegalPush(FreesOf(rs[..n]), e);
      forall x | Hits(e, x) ensures !Covers(rs[..n], x) {
        OnlyThere(rs, n, x);
      }
      forall x ensures FreeIn(FreesOf(rs), x) <==> Covers(rs, x) {
        FreeInPush(FreesOf(rs[..n]), e, x);
      }
      assert EntOk(e);
    }
  }

  lemma {:induction false} FreesAt(rs: seq<Range>, e: Ent)
    requires e in FreesOf(rs)
    ensures exists i :: 0 <= i < |rs| && e == LogEnts.Free(rs[i].off, rs[i].len)
  {
    var n := |rs| - 1;
    if e != LogEnts.Free(rs[n].off, rs[n].len) {
      FreesAt(rs[..n], e);
      var i :| 0 <= i < n && e == LogEnts.Free(rs[..n][i].off, rs[..n][i].len);
      assert rs[i] == rs[..n][i];
    }
  }

  /** A two-word entry, whatever its length. */
  lemma ParseWide(ws: seq<int>, r: Range)
    requires ParseOk(ws) && r.off >= 0 && Whole(r.off, r.len)
    ensures ParseOk(ws + [r.off + LogFree, r.len])
    ensures Parse(ws + [r.off + LogFree, r.len]) == Parse(ws) + [LogEnts.Free(r.off, r.len)]
  {
    var w := [r.off + LogFree, r.len];
    LowByte(r.off, LogFree);
    assert HeadOk(w) && Rest(w) == [] && Head(w) == LogEnts.Free(r.off, r.len);
    assert ParseOk([]) && Parse([]) == [];
    assert Parse(w) == [LogEnts.Free(r.off, r.len)];
    ParseConcat(ws, w);
  }

  // ----- the estimate -----

  const Perblk := 1020

  /** The blocks set aside for nr ranges. */
  function Estimate(nr: nat): nat {
    (16 * nr + Logspc) / (Logspc - Logslop) + 16 * nr / (Logspc - Logslop) + 1
  }

  /** There is always another block when one is full: the estimate is no less than what is used. */
  lemma EstimateEnough(nr: nat, i: nat, j: nat)
    requires j < nr && j == i * Perblk
    ensures i < Estimate(nr)
  {
    var a, d := 16 * nr + Logspc, Logspc - Logslop;
    assert a >= d * (i + 1);
    DivAtLeast(a, d, i + 1);
  }

  lemma DivAtLeast(a: int, d: int, k: int)
    requires d > 0 && a >= d * k
    ensures a / d >= k
  {
    var q := a / d;
    assert a < d * (q + 1);
    if q < k { Mono(d, q + 1, k); }
  }

  lemma Mono(d: int, a: int, b: int)
    requires d > 0 && a <= b
    ensures d * a <= d * b
  {
  }

  // ----- filling the new blocks -----

  /** A full block is linked to the next, which is still in memory. */
  lemma ChainNext(disk: map<int, LogBlk>, hd: int, bs: seq<LogBlk>, tl: LogBlk, o: int)
    requires ChainOk(disk, hd, bs + [tl])
    requires forall i :: 0 <= i < |bs + [tl]| ==> (bs + [tl])[i].addr != o
    ensures var t := tl.(next := o);
            ChainOk(disk[tl.addr := t], hd, bs + [t] + [LogBlk(o, [], -1)])
            && EntsOf(bs + [t] + [LogBlk(o, [], -1)]) == EntsOf(bs + [tl])
  {
    var t, lb := tl.(next := o), LogBlk(o, [], -1);
    assert ParseOk([]) && Parse([]) == [];
    hide EntsOf, Parse, ParseOk, ChainOk;
    EntsPush(bs + [t], lb);
    EntsPush(bs, t);
    EntsPush(bs, tl);
    ChainStep(disk, hd, bs, tl, t, lb);
  }

  lemma ChainStep(disk: map<int, LogBlk>, hd: int, bs: seq<LogBlk>, tl: LogBlk, t: LogBlk, lb: LogBlk)
    requires ChainOk(disk, hd, bs + [tl]) && t == tl.(next := lb.addr) && ParseOk(lb.data)
    requires forall i :: 0 <= i < |bs + [tl]| ==> (bs + [tl])[i].addr != lb.addr
    ensures ChainOk(disk[tl.addr := t], hd, bs + [t] + [lb])
  {
    hide ParseOk;
    var d := disk[tl.addr := t];
    var a, b := bs + [tl], bs + [t] + [lb];
    assert b[|bs|] == t && b[|bs| + 1] == lb && a[|bs|] == tl;
    forall i | 0 <= i < |b| - 1
      ensures ParseOk(b[i].data) && b[i].addr == a[i].addr && Stored(d, b[i]) && b[i].next == b[i + 1].addr
    {
      if i < |bs| {
        assert b[i] == a[i] && Stored(disk, a[i]) && a[i].addr != a[|bs|].addr && a[i].next == a[i + 1].addr;
        assert b[i + 1].addr == a[i + 1].addr;
      }
    }
    assert b[0].addr == a[0].addr;
  }

  lemma ChainRange(disk: map<int, LogBlk>, hd: int, bs: seq<LogBlk>, tl: LogBlk, r: Range)
    requires ChainOk(disk, hd, bs + [tl]) && r.off >= 0 && Whole(r.off, r.len)
    ensures var t := tl.(data := tl.data + [r.off + LogFree, r.len]);
            ChainOk(disk, hd, bs + [t]) && EntsOf(bs + [t]) == EntsOf(bs + [tl]) + [LogEnts.Free(r.off, r.len)]
  {
    hide EntsOf, Parse, ParseOk, Whole, ChainOk;
    var t := tl.(data := tl.data + [r.off + LogFree, r.len]);
    ChainParse(disk, hd, bs, tl);
    ParseWide(tl.data, r);
    EntsPush(bs, tl);
    EntsPush(bs, t);
    ChainTail(disk, hd, bs, tl, t);
  }

  /** Blocks that may become the log: whole, apart, and none of them free. */
  ghost predicate Spare(rs: seq<Range>, blks: seq<int>) {
    && (forall k :: 0 <= k < |blks| ==> blks[k] >= 0 && Whole(blks[k], Blksz))
    && (forall k, x :: 0 <= k < |blks| && InBlock(blks[k], x) ==> !Covers(rs, x))
    && (forall k, m :: 0 <= k < m < |blks| ==> blks[k] != blks[m])
  }

  /** What a chain of full blocks and an open one look like while they are filled. */
  ghost predicate Filling(full: seq<LogBlk>, b: LogBlk, blks: seq<int>, j: nat) {
    && |full| < |blks| && b.addr == blks[|full|]
    && (forall k :: 0 <= k < |full| ==> full[k].addr == blks[k] && |full[k].data| == 2 * Perblk)
    && j == |full| * Perblk + |b.data| / 2 && |b.data| % 2 == 0 && |b.data| <= 2 * Perblk
  }

  lemma FillNext(full: seq<LogBlk>, b: LogBlk, blks: seq<int>, j: nat, nr: nat)
    requires Filling(full, b, blks, j) && Logsz(b) >= Logspc - Logslop && j < nr && |blks| >= Estimate(nr)
    ensures |full| + 1 < |blks|
    ensures forall o: int :: Filling(full + [b.(next := o)], LogBlk(blks[|full| + 1], [], -1), blks, j)
  {
    assert |b.data| == 2 * Perblk;
    EstimateEnough(nr, |full| + 1, j);
  }

  lemma FillEnt(full: seq<LogBlk>, b: LogBlk, b': LogBlk, blks: seq<int>, j: nat)
    requires Filling(full, b, blks, j) && Logsz(b) < Logspc - Logslop
    requires b'.addr == b.addr && |b'.data| == |b.data| + 2
    ensures Filling(full, b', blks, j + 1)
  {
  }

  lemma FillAddrs(full: seq<LogBlk>, b: LogBlk, blks: seq<int>, j: nat, k: nat)
    requires Filling(full, b, blks, j) && k <= |full|
    ensures (full + [b])[k].addr == blks[k]
  {
  }

  lemma FillFresh(full: seq<LogBlk>, b: LogBlk, blks: seq<int>, j: nat, rs: seq<Range>, o: int)
    requires Filling(full, b, blks, j) && Spare(rs, blks) && |full| + 1 < |blks| && o == blks[|full| + 1]
    ensures forall i :: 0 <= i < |full + [b]| ==> (full + [b])[i].addr != o
  {
    forall i | 0 <= i < |full + [b]| ensures (full + [b])[i].addr != o {
      FillAddrs(full, b, blks, j, i);
    }
  }

  /** Fills the new log with the ranges, block by block; the last one stays open. */
  method Fill(a: Arena, blks: seq<int>) returns (b: LogBlk, i: nat, ghost full: seq<LogBlk>)
    requires Canon(a.free.rs) && (forall x :: Covers(a.free.rs, x) ==> x >= 0)
    requires Spare(a.free.rs, blks) && |blks| >= Estimate(|a.free.rs|)
    modifies a`disk
    ensures i == |full| + 1 <= |blks| && Filling(full, b, blks, |a.free.rs|)
    ensures ChainOk(a.disk, blks[0], full + [b]) && EntsOf(full + [b]) == FreesOf(a.free.rs)
  {
    hide Covers, Canon, EntsOf, Parse, ParseOk, ChainOk, FreesOf, Filling, Spare, Whole;
    var rs := a.free.rs;
    i := 1;
    b := LogBlk(blks[0], [], -1);
    full := [];
    FillStart(a.disk, b, blks);
    var j := 0;
    assert rs[..0] == [];
    while j < |rs|
      invariant 0 <= j <= |rs| && i == |full| + 1 <= |blks| && Filling(full, b, blks, j)
      invariant ChainOk(a.disk, blks[0], full + [b]) && EntsOf(full + [b]) == FreesOf(rs[..j])
    {
      if Logsz(b) >= Logspc - Logslop {
        FillNext(full, b, blks, j, |rs|);
        FillFresh(full, b, blks, j, rs, blks[i]);
        ChainNext(a.disk, blks[0], full, b, blks[i]);
        b := b.(next := blks[i]);
        a.disk := a.disk[b.addr := b];
        full := full + [b];
        b := LogBlk(blks[i], [], -1);
        i := i + 1;
      }
      RangeOk(rs, j);
      ChainRange(a.disk, blks[0], full, b, rs[j]);
      FreesPush(rs, j);
      FillEnt(full, b, b.(data := b.data + [rs[j].off + LogFree, rs[j].len]), blks, j);
      b := b.(data := b.data + [rs[j].off + LogFree, rs[j].len]);
      j := j + 1;
    }
    assert rs[..j] == rs;
  }

  lemma FillStart(disk: map<int, LogBlk>, b: LogBlk, blks: seq<int>)
    requires blks != [] && b == LogBlk(blks[0], [], -1)
    ensures Filling([], b, blks, 0) && ChainOk(disk, blks[0], [] + [b]) && EntsOf([] + [b]) == FreesOf([])
  {
    assert [] + [b] == [b] && [b][..0] == [];
    assert ParseOk([]) && Parse([]) == [];
  }

  lemma RangeOk(rs: seq<Range>, j: nat)
    requires Canon(rs) && j < |rs| && forall x :: Covers(rs, x) ==> x >= 0
    ensures rs[j].off >= 0 && Whole(rs[j].off, rs[j].len)
  {
    assert Whole(rs[j].off, rs[j].len);
    CoveredBy(rs, j, rs[j].off);
  }

  // ----- the whole -----

  ghost predicate InSpare(blks: seq<int>, x: int) {
    exists k :: 0 <= k < |blks| && InBlock(blks[k], x)
  }

  ghost predicate InLog(bs: seq<LogBlk>, x: int) {
    exists k :: 0 <= k < |bs| && InBlock(bs[k].addr, x)
  }

  lemma SparePush(was: seq<Range>, rs: seq<Range>, blks: seq<int>, b: int)
    requires Spare(was, blks) && b >= 0 && Whole(b, Blksz)
    requires forall x :: InBlock(b, x) ==> Covers(was, x)
    requires forall x :: Covers(rs, x) <==> Covers(was, x) && !InBlock(b, x)
    ensures Spare(rs, blks + [b]) && forall x :: InSpare(blks + [b], x) <==> InSpare(blks, x) || InBlock(b, x)
  {
    hide Covers, Whole;
    var t := blks + [b];
    assert t[|blks|] == b && InBlock(b, b);
    forall k | 0 <= k < |blks| ensures t[k] == blks[k] && blks[k] != b {
      assert InBlock(blks[k], blks[k]);
    }
    forall x | InSpare(blks, x) ensures InSpare(t, x) {
      var k :| 0 <= k < |blks| && InBlock(blks[k], x);
      assert InBlock(t[k], x);
    }
    if |blks| > 0 { assert forall x :: InBlock(b, x) ==> InBlock(t[|blks|], x); }
  }

  /** With free bytes left the arena has no block to give. */
  predicate Short(a: Arena, free: int, usereserve: bool) {
    (!usereserve && free <= a.reserve) || free <= 0
  }

  /** Takes the blocks for the new log out of the free set, lowest first; nothing is logged. It fails exactly
      when the arena runs short before the last one, and then those taken are lost. */
  method TakeBlocks(a: Arena, nblks: nat, usereserve: bool) returns (ok: bool, blks: seq<int>)
    requires a.Valid()
    modifies a`used, a.free
    ensures a.Sound() && |a.free.rs| <= |old(a.free.rs)| && Spare(a.free.rs, blks)
    ensures forall x :: old(a.Free(x)) <==> a.Free(x) || InSpare(blks, x)
    ensures a.used == old(a.used) + |blks| * Blksz && |blks| <= nblks
    ensures ok <==> |blks| == nblks
    ensures ok <==> nblks == 0 || !Short(a, a.size - old(a.used) - (nblks - 1) * Blksz, usereserve)
    ensures blks != [] ==> forall x :: Covers(old(a.free.rs), x) ==> blks[0] <= x
    ensures forall k, x :: 0 <= k < |blks| && Covers(a.free.rs, x) ==> blks[k] + Blksz <= x
  {
    hide Covers, Canon, Total, Held, HeldAt, ChainOk, EntsOf, FreeIn, Legal, Spare, InSpare, Whole;
    blks := [];
    NoSpare(a.free.rs);
    while |blks| < nblks
      invariant |blks| <= nblks && a.Sound() && |a.free.rs| <= |old(a.free.rs)|
      invariant Spare(a.free.rs, blks) && forall x :: old(a.Free(x)) <==> a.Free(x) || InSpare(blks, x)
      invariant a.used == old(a.used) + |blks| * Blksz
      invariant blks != [] ==> !Short(a, a.size - old(a.used) - (|blks| - 1) * Blksz, usereserve)
      invariant blks == [] ==> a.free.rs == old(a.free.rs)
      invariant blks != [] ==> forall x :: Covers(old(a.free.rs), x) ==> blks[0] <= x
      invariant forall k, x :: 0 <= k < |blks| && Covers(a.free.rs, x) ==> blks[k] + Blksz <= x
    {
      ghost var was := a.free.rs;
      TotalZero(was);
      var r := a.BlkallocLk(true, usereserve);
      if !r.Got? {
        return false, blks;
      }
      assert InBlock(r.b, r.b);
      SparePush(was, a.free.rs, blks, r.b);
      assert forall x :: Covers(a.free.rs, x) ==> Covers(was, x) && r.b + Blksz <= x;
      blks := blks + [r.b];
    }
    ok := true;
  }

  lemma NoSpare(rs: seq<Range>)
    ensures Spare(rs, []) && forall x :: !InSpare([], x)
  {
  }

  lemma EstimateMono(a: nat, b: nat)
    requires a <= b
    ensures Estimate(a) <= Estimate(b)
  {
    var d := Logspc - Logslop;
    DivMono(16 * a + Logspc, 16 * b + Logspc, d);
    DivMono(16 * a, 16 * b, d);
  }

  lemma DivMono(a: nat, b: nat, d: nat)
    requires a <= b && d > 0
    ensures a / d <= b / d
  {
    var q := a / d;
    assert b >= d * q;
    DivAtLeast(b, d, q);
  }

  /** The new log is a log of the arena as it is. */
  lemma NewLog(a: Arena, blks: seq<int>, full: seq<LogBlk>, b: LogBlk)
    requires Canon(a.free.rs) && a.used + Total(a.free.rs) == a.size && (forall x :: a.Free(x) ==> a.Here(x))
    requires Spare(a.free.rs, blks) && Filling(full, b, blks, |a.free.rs|)
    requires ChainOk(a.disk, a.loghd, full + [b]) && EntsOf(full + [b]) == FreesOf(a.free.rs)
    requires a.chain == full && a.logtl == b && a.stored == [] && a.loaded == []
    ensures a.Valid()
  {
    hide Total, EntsOf, FreesOf, ChainOk, FreeIn, Legal, Whole, Canon, Spare, Held, DiskOk;
    var rs := a.free.rs;
    forall x | Covers(rs, x) ensures x >= 0 {
      assert a.Free(x);
    }
    FreesMean(rs);
    var bs := full + [b];
    forall i | 0 <= i < |bs| ensures !Covers(rs, bs[i].addr) && BlkOk(bs[i]) {
      FillAddrs(full, b, blks, |rs|, i);
      SpareAt(rs, blks, i);
      assert i < |full| ==> bs[i] == full[i];
    }
    HeldFrees(bs, rs);
    forall e | e in EntsOf(bs) ensures e.Free? && a.Here(e.off) && a.Here(e.off + e.len - 1) {
      FreesAt(rs, e);
      var i :| 0 <= i < |rs| && e == LogEnts.Free(rs[i].off, rs[i].len);
      RangeOk(rs, i);
      Positive(rs[i].off, rs[i].len);
      CoveredBy(rs, i, e.off);
      CoveredBy(rs, i, e.off + e.len - 1);
      assert a.Free(e.off) && a.Free(e.off + e.len - 1);
    }
  }

  lemma SpareAt(rs: seq<Range>, blks: seq<int>, i: nat)
    requires Spare(rs, blks) && i < |blks|
    ensures !Covers(rs, blks[i]) && blks[i] >= 0 && Whole(blks[i], Blksz)
  {
    assert InBlock(blks[i], blks[i]);
  }

  lemma HeldFrees(bs: seq<LogBlk>, rs: seq<Range>)
    requires EntsOf(bs) == FreesOf(rs)
    ensures Held(bs)
  {
    hide EntsOf, FreesOf, FreeIn;
    forall n: nat | n < |FreesOf(rs)| ensures !Marks(FreesOf(rs), n) {
      FreesAt(rs, FreesOf(rs)[n]);
    }
  }

  /** One block set aside and not needed goes back. */
  lemma ReturnOne(was: seq<Range>, rs: seq<Range>, bs: seq<LogBlk>, bs': seq<LogBlk>, mid: seq<Ent>, rest: seq<int>)
    requires rest != [] && Spare(was, rest) && Grown(bs, bs', mid)
    requires forall x :: Covers(rs, x) <==> InBlock(rest[0], x) || (Covers(was, x) && !Took(mid, x))
    requires forall x :: Took(mid, x) ==> Covers(was, x)
    requires forall t, k :: t in bs && 0 <= k < |rest| ==> t.addr != rest[k]
    ensures Spare(rs, rest[1..])
    ensures forall t, k :: t in bs' && 0 <= k < |rest[1..]| ==> t.addr != rest[1..][k]
    ensures forall x :: Covers(was, x) || InLog(bs, x) || InSpare(rest, x)
                   <==> Covers(rs, x) || InLog(bs', x) || InSpare(rest[1..], x)
  {
    hide Covers, Whole, EntsOf;
    var r := rest[1..];
    forall k, x | 0 <= k < |r| && InBlock(r[k], x) ensures !Covers(rs, x) {
      assert r[k] == rest[k + 1];
      SameBlock(rest[0], r[k]);
    }
    LogGrows(bs, bs', mid);
    forall x ensures InSpare(rest, x) <==> InBlock(rest[0], x) || InSpare(r, x) {
      SpareTail(rest, x);
    }
    forall t, k | t in bs' && 0 <= k < |r| ensures t.addr != r[k] {
      var i :| 0 <= i < |bs'| && bs'[i] == t;
      assert r[k] == rest[k + 1];
      if i < |bs| {
        assert bs[i] in bs;
      } else {
        assert Took(mid, t.addr);
        assert InBlock(rest[k + 1], rest[k + 1]);
      }
    }
  }

  lemma SpareTail(rest: seq<int>, x: int)
    requires rest != []
    ensures InSpare(rest, x) <==> InBlock(rest[0], x) || InSpare(rest[1..], x)
  {
    if k :| 0 <= k < |rest| && InBlock(rest[k], x) {
      if k > 0 { assert rest[1..][k - 1] == rest[k]; }
    }
    if k :| 0 <= k < |rest| - 1 && InBlock(rest[1..][k], x) {
      assert rest[k + 1] == rest[1..][k];
    }
  }

  lemma LogGrows(bs: seq<LogBlk>, bs': seq<LogBlk>, mid: seq<Ent>)
    requires Grown(bs, bs', mid)
    ensures forall x :: InLog(bs', x) <==> InLog(bs, x) || Took(mid, x)
  {
    hide EntsOf;
    forall x ensures InLog(bs', x) <==> InLog(bs, x) || Took(mid, x) {
      if i :| 0 <= i < |bs| && InBlock(bs[i].addr, x) {
        assert InBlock(bs'[i].addr, x);
      }
      if Took(mid, x) {
        assert InBlock(bs'[|bs|].addr, x);
      }
      if i :| 0 <= i < |bs'| && InBlock(bs'[i].addr, x) {
        if i < |bs| { assert InBlock(bs[i].addr, x); }
      }
    }
  }

  /** The new log takes the place of the old one. Its last block is not on disk yet. */
  method SwitchLog(a: Arena, blks: seq<int>, ghost full: seq<LogBlk>, b: LogBlk)
    requires Canon(a.free.rs) && a.used + Total(a.free.rs) == a.size && (forall x :: a.Free(x) ==> a.Here(x))
    requires Spare(a.free.rs, blks) && Filling(full, b, blks, |a.free.rs|) && blks != []
    requires ChainOk(a.disk, blks[0], full + [b]) && EntsOf(full + [b]) == FreesOf(a.free.rs)
    modifies a`loghd, a`logtl, a`chain, a`stored, a`loaded
    ensures a.Valid() && a.Blocks() == full + [b] && a.loghd == blks[0]
  {
    hide Covers, Canon, Total, Held, ChainOk, EntsOf, FreeIn, Legal, Spare, InSpare, Whole, FreesOf, Filling, DurableIn;
    a.loghd, a.logtl, a.chain := blks[0], b, full;
    a.stored, a.loaded := [], [];
    NewLog(a, blks, full, b);
  }

  /** The blocks set aside and not needed go back, one by one. */
  method GiveBack(a: Arena, blks: seq<int>, usereserve: bool) returns (ok: bool)
    requires a.Valid() && Spare(a.free.rs, blks) && forall x :: InSpare(blks, x) ==> a.Here(x)
    requires forall t, k :: t in a.Blocks() && 0 <= k < |blks| ==> t.addr != blks[k]
    modifies a, a.free
    ensures a.Valid() && a.loghd == old(a.loghd)
    ensures !ok ==> a.LogFull() && Short(a, a.size - a.used, usereserve)
    ensures !Short(a, a.size - old(a.used), usereserve) ==> ok
    ensures ok ==> forall x :: old(a.Free(x)) || InLog(old(a.Blocks()), x) || InSpare(blks, x)
                          <==> a.Free(x) || InLog(a.Blocks(), x)
  {
    hide Covers, Canon, Total, Held, ChainOk, EntsOf, FreeIn, Legal, Spare, InSpare, InLog, Whole, Grown, Took,
         DurableIn, AllHere;
    var i := 0;
    assert blks[0..] == blks;
    while i < |blks|
      invariant 0 <= i <= |blks| && a.Valid() && Spare(a.free.rs, blks[i..])
      invariant a.loghd == old(a.loghd) && a.used <= old(a.used)
      invariant forall x :: InSpare(blks[i..], x) ==> a.Here(x)
      invariant forall t, k :: t in a.Blocks() && 0 <= k < |blks[i..]| ==> t.addr != blks[i..][k]
      invariant forall x :: old(a.Free(x)) || InLog(old(a.Blocks()), x) || InSpare(blks, x)
                       <==> a.Free(x) || InLog(a.Blocks(), x) || InSpare(blks[i..], x)
    {
      ghost var was, bs, rest := a.free.rs, a.Blocks(), blks[i..];
      SpareFirst(was, rest);
      ghost var mid;
      assert blks[i] == rest[0];
      TotalZero(was);
      ok, mid := a.BlkdeallocLk(blks[i], usereserve);
      if !ok {
        return;
      }
      ReturnOne(was, a.free.rs, bs, a.Blocks(), mid, rest);
      forall x ensures InSpare(rest[1..], x) ==> InSpare(rest, x) {
        SpareTail(rest, x);
      }
      assert rest[1..] == blks[i + 1..];
      i := i + 1;
    }
    assert blks[i..] == [];
    NoSpare(a.free.rs);
    ok := true;
  }

  /** compresslog: the rewritten log replays to the free set in memory, which has lost exactly the
      blocks the new log lies in, from the lowest free one on; the blocks set aside are always enough. It
      succeeds when the arena can spare one block more than it sets aside, and not when it cannot spare
      those. */
  method CompressLog(a: Arena, usereserve: bool) returns (ok: bool)
    requires a.Valid()
    modifies a, a.free
    ensures ok ==> a.Valid() && forall x :: Covers(old(a.free.rs), x) ==> a.loghd <= x
    ensures ok ==> forall x :: old(a.Free(x)) <==> a.Free(x) || InLog(a.Blocks(), x)
    ensures var n := Estimate(|old(a.free.rs)|);
            && (ok ==> !Short(a, a.size - old(a.used) - (n - 1) * Blksz, usereserve))
            && (!Short(a, a.size - old(a.used) - n * Blksz, usereserve) ==> ok)
  {
    hide Covers, Canon, Total, Held, ChainOk, EntsOf, FreeIn, Legal, Spare, InSpare, InLog, Whole, FreesOf, Filling,
        Grown,
         Took, DurableIn, AllHere, DiskOk;
    a.FlushLog();
    var nr := |a.free.rs|;
    var nblks := (16 * nr + Logspc) / (Logspc - Logslop) + 16 * nr / (Logspc - Logslop) + 1;
    assert nblks == Estimate(nr);
    var blks;
    ok, blks := TakeBlocks(a, nblks, usereserve);
    if !ok {
      return;
    }
    EstimateMono(|a.free.rs|, nr);
    assert blks != [] && forall x :: Covers(old(a.free.rs), x) ==> blks[0] <= x;
    ghost var full;
    var b, i;
    b, i, full := Fill(a, blks);
    SwitchLog(a, blks, full, b);
    SpareSplit(a.free.rs, blks, a.Blocks(), blks[i..], full, b, |a.free.rs|);
    ok := GiveBack(a, blks[i..], usereserve);
  }

  lemma SpareFirst(rs: seq<Range>, rest: seq<int>)
    requires Spare(rs, rest) && rest != []
    ensures Whole(rest[0], Blksz) && forall x :: InBlock(rest[0], x) ==> !Covers(rs, x) && InSpare(rest, x)
    ensures InSpare(rest, rest[0]) && InSpare(rest, rest[0] + Blksz - 1)
  {
    assert InBlock(rest[0], rest[0]) && InBlock(rest[0], rest[0] + Blksz - 1);
  }

  lemma SpareSplit(rs: seq<Range>, blks: seq<int>, bs: seq<LogBlk>, r: seq<int>, full: seq<LogBlk>, b: LogBlk, j: nat)
    requires Spare(rs, blks) && Filling(full, b, blks, j) && bs == full + [b] && r == blks[|full| + 1..]
    ensures Spare(rs, r)
    ensures forall t, k :: t in bs && 0 <= k < |r| ==> t.addr != r[k]
    ensures forall x :: InSpare(blks, x) <==> InLog(bs, x) || InSpare(r, x)
  {
    hide Covers, Whole;
    var n := |full| + 1;
    forall k | 0 <= k < n ensures bs[k].addr == blks[k] {
      FillAddrs(full, b, blks, j, k);
    }
    forall x ensures InSpare(blks, x) <==> InLog(bs, x) || InSpare(r, x) {
      if k :| 0 <= k < |blks| && InBlock(blks[k], x) {
        if k < n { assert InBlock(bs[k].addr, x); } else { assert r[k - n] == blks[k]; }
      }
      if k :| 0 <= k < |r| && InBlock(r[k], x) { assert blks[k + n] == r[k]; }
      if k :| 0 <= k < |bs| && InBlock(bs[k].addr, x) { assert InBlock(blks[k], x); }
    }
  }
}
