/** An arena: its free set, and the chained log of allocations that takes its own blocks from that
    same set (src/blk.c, logappend, loadlog, blkalloc_lk, blkdealloc_lk). */
module Arenas {
  import opened Dat
  import opened Ranges
  import opened LogEnts

  /** A block of the log; next is -1 in the last one. */
  datatype LogBlk = LogBlk(addr: int, data: seq<int>, next: int)

  function Logsz(b: LogBlk): nat { 8 * |b.data| }

  // ----- chains -----

  /** A chain of log blocks: each but the last is on disk and names the next. */
  ghost predicate ChainOk(disk: map<int, LogBlk>, hd: int, bs: seq<LogBlk>) {
    && bs != [] && bs[0].addr == hd
    && (forall i :: 0 <= i < |bs| ==> ParseOk(bs[i].data))
    && (forall i :: 0 <= i < |bs| - 1 ==> Stored(disk, bs[i]) && bs[i].next == bs[i + 1].addr)
    && (forall i, j :: 0 <= i < j < |bs| ==> bs[i].addr != bs[j].addr)
  }

  predicate Stored(disk: map<int, LogBlk>, b: LogBlk) { b.addr in disk && disk[b.addr] == b }

  function Written(disk: map<int, LogBlk>, a: LogBlk, b: LogBlk): map<int, LogBlk> {
    disk[a.addr := a][b.addr := b]
  }

  /** All entries of a chain, in order. */
  ghost function EntsOf(bs: seq<LogBlk>): seq<Ent> {
    if bs == [] then [] else EntsOf(bs[..|bs| - 1]) + Parse(bs[|bs| - 1].data)
  }

  lemma EntsPush(bs: seq<LogBlk>, b: LogBlk)
    ensures EntsOf(bs + [b]) == EntsOf(bs) + Parse(b.data)
  {
    assert (bs + [b])[..|bs|] == bs;
  }

  lemma {:induction false} EntsPrefix(bs: seq<LogBlk>, k: nat)
    requires k <= |bs|
    ensures EntsOf(bs[..k]) <= EntsOf(bs)
  {
    if k == |bs| {
      assert bs[..k] == bs;
    } else {
      EntsPrefix(bs[..|bs| - 1], k);
      assert bs[..|bs| - 1][..k] == bs[..k];
    }
  }

  /** The last block takes an entry. */
  lemma ChainWrite(disk: map<int, LogBlk>, hd: int, bs: seq<LogBlk>, tl: LogBlk, e: Ent)
    requires ChainOk(disk, hd, bs + [tl]) && EntOk(e)
    ensures var t := tl.(data := tl.data + Words(e));
            ChainOk(disk, hd, bs + [t]) && EntsOf(bs + [t]) == EntsOf(bs + [tl]) + [e]
  {
    var t := tl.(data := tl.data + Words(e));
    ChainParse(disk, hd, bs, tl);
    ParseAppend(tl.data, e);
    EntsPush(bs, tl);
    EntsPush(bs, t);
    ChainTail(disk, hd, bs, tl, t);
  }

  lemma ChainParse(disk: map<int, LogBlk>, hd: int, bs: seq<LogBlk>, tl: LogBlk)
    requires ChainOk(disk, hd, bs + [tl])
    ensures (forall i :: 0 <= i < |bs| ==> ParseOk(bs[i].data)) && ParseOk(tl.data)
  {
    assert (bs + [tl])[|bs|] == tl;
    forall i | 0 <= i < |bs| ensures ParseOk(bs[i].data) {
      assert (bs + [tl])[i] == bs[i];
    }
  }

  lemma ChainTail(disk: map<int, LogBlk>, hd: int, bs: seq<LogBlk>, tl: LogBlk, t: LogBlk)
    requires ChainOk(disk, hd, bs + [tl]) && t.addr == tl.addr && ParseOk(t.data)
    ensures ChainOk(disk, hd, bs + [t])
  {
    var a, b := bs + [tl], bs + [t];
    forall i | 0 <= i < |b| ensures ParseOk(b[i].data) && b[i].addr == a[i].addr && (i < |b| - 1 ==> b[i] == a[i]) {
      if i < |bs| { assert b[i] == a[i]; }
    }
  }

  /** The full last block is linked to a new one, and both are written. */
  lemma ChainLink(disk: map<int, LogBlk>, hd: int, bs: seq<LogBlk>, tl: LogBlk, o: int, lb: LogBlk)
    requires ChainOk(disk, hd, bs + [tl]) && lb.addr == o && ParseOk(lb.data)
    requires forall i :: 0 <= i < |bs + [tl]| ==> (bs + [tl])[i].addr != o
    ensures var t := tl.(next := o);
            ChainOk(disk[o := lb][tl.addr := t], hd, bs + [t] + [lb])
  {
    var t := tl.(next := o);
    var d := disk[o := lb][tl.addr := t];
    var a, b := bs + [tl], bs + [t] + [lb];
    assert b[|bs|] == t && b[|bs| + 1] == lb && a[|bs|] == tl;
    forall i | 0 <= i < |b| - 1
      ensures ParseOk(b[i].data) && b[i].addr == a[i].addr && Stored(d, b[i]) && b[i].next == b[i + 1].addr
    {
      if i < |bs| {
        assert b[i] == a[i] && Stored(disk, a[i]) && a[i].addr != a[|bs|].addr && a[i].next == a[i + 1].addr;
        assert b[i + 1].addr == a[i + 1].addr;
      }
    }
    assert b[0].addr == a[0].addr;
  }

  // ----- the arena -----

  datatype Got = Got(b: int) | NoSpace | Stuffed

  /** The log took the block x is in for itself. */
  predicate Took(mid: seq<Ent>, x: int) { mid != [] && !mid[0].Sync? && InBlock(mid[0].off, x) }

  predicate InBlock(o: int, x: int) { o <= x < o + Blksz }

  /** Nothing in the ranges is above block o. */
  ghost predicate Uppermost(rs: seq<Range>, o: int) {
    forall x :: Covers(rs, x) ==> x < o + Blksz
  }

  /** A whole block, within its space. */
  predicate BlkOk(b: LogBlk) { b.addr >= 0 && Whole(b.addr, Blksz) && Logsz(b) <= Logspc - 16 }

  /** Entry n is a barrier, at which a replay may end. */
  ghost predicate Marks(es: seq<Ent>, n: nat) {
    n < |es| && es[n].Sync?
  }

  /** No replay that reaches a block of the log and ends at a barrier leaves the block free. */
  ghost predicate Held(bs: seq<LogBlk>) {
    forall i, n: nat {:trigger HeldAt(bs, i, n)} ::
      0 <= i < |bs| && |EntsOf(bs[..i])| <= n && Marks(EntsOf(bs), n) ==> HeldAt(bs, i, n)
  }

  /** Nor does a replay of all of it. */
  ghost predicate HeldEnd(bs: seq<LogBlk>) {
    forall i :: 0 <= i < |bs| ==> !FreeIn(EntsOf(bs), bs[i].addr)
  }

  ghost predicate HeldAt(bs: seq<LogBlk>, i: int, n: nat)
    requires 0 <= i < |bs| && n <= |EntsOf(bs)|
  {
    !FreeIn(EntsOf(bs)[..n], bs[i].addr)
  }

  /** The blocks after an entry was appended: the last one longer, perhaps followed by one more. */
  ghost predicate Grown(bs: seq<LogBlk>, bs': seq<LogBlk>, mid: seq<Ent>) {
    && |bs'| == |bs| + |mid| && |mid| <= 1
    && (forall i :: 0 <= i < |bs| ==> bs'[i].addr == bs[i].addr && EntsOf(bs'[..i]) == EntsOf(bs[..i]))
    && (mid != [] ==> !mid[0].Sync? && bs'[|bs|].addr == mid[0].off && EntsOf(bs'[..|bs|]) == EntsOf(bs) + mid)
  }

  lemma HeldGrow(bs: seq<LogBlk>, bs': seq<LogBlk>, mid: seq<Ent>, e: Ent)
    requires Held(bs) && Grown(bs, bs', mid) && EntsOf(bs') == EntsOf(bs) + mid + [e]
    requires forall i :: 0 <= i < |bs'| ==> !FreeIn(EntsOf(bs) + mid, bs'[i].addr)
    ensures Held(bs')
  {
    hide EntsOf, FreeIn;
    var es, es' := EntsOf(bs), EntsOf(bs');
    forall i, n: nat | 0 <= i < |bs'| && |EntsOf(bs'[..i])| <= n && Marks(es', n) ensures HeldAt(bs', i, n) {
      if n == |es + mid| {
        assert es'[..n] == es + mid;
      } else {
        assert mid != [] ==> es'[|es|] == mid[0];
        assert n < |es|;
        assert es'[n] == es[n];
        assert es'[..n] == es[..n];
        assert HeldAt(bs, i, n);
      }
    }
  }

  /** An address of an arena that starts at start. */
  predicate Within(start: int, size: int, x: int) { start <= x < start + size + 2 * Blksz }

  /** Every entry is about blocks of the arena. */
  ghost predicate AllHere(start: int, size: int, es: seq<Ent>) {
    forall e :: e in es && !e.Sync? ==> Within(start, size, e.off) && Within(start, size, e.off + e.len - 1)
  }

  lemma {:induction false} FreeHere(start: int, size: int, es: seq<Ent>, x: int)
    requires AllHere(start, size, es) && FreeIn(es, x)
    ensures Within(start, size, x)
  {
    var e := es[|es| - 1];
    assert e in es;
    if !Hits(e, x) {
      FreeHere(start, size, es[..|es| - 1], x);
    }
  }

  /** A log that a start can read back from disk. It may be cut off behind a block that is linked on, if
      a barrier stops the start before that. */
  ghost predicate DiskOk(start: int, size: int, disk: map<int, LogBlk>, hd: int, bs: seq<LogBlk>) {
    && bs != [] && ChainOk(disk, hd, bs) && Stored(disk, bs[|bs| - 1])
    && Legal(EntsOf(bs)) && AllHere(start, size, EntsOf(bs)) && Held(bs)
    && (forall i :: 0 <= i < |bs| ==> BlkOk(bs[i]))
    && (bs[|bs| - 1].next == -1 ==> HeldEnd(bs) && Logsz(bs[|bs| - 1]) <= Logspc - Logslop + 16)
  }

  /** Blocks at the same addresses. */
  ghost predicate SameAddrs(a: seq<LogBlk>, b: seq<LogBlk>) {
    |a| == |b| && forall i :: 0 <= i < |a| ==> a[i].addr == b[i].addr
  }

  /** What a start depends on. stored is the log as it would be found on disk; loaded is what the last
      start replayed, for generation lgen; rewritten says that the last block has been written since. */
  datatype Snap = Snap(full: bool, hd: int, disk: map<int, LogBlk>, stored: seq<LogBlk>, loaded: seq<Ent>,
                       lgen: nat, rewritten: bool, blocks: seq<LogBlk>)

  /** What is on disk can be read back. Until the last block is written again that is what the last
      start found; from then on it is a part of the log that has the entries replayed then. */
  ghost predicate DurableIn(start: int, size: int, s: Snap) {
    && (s.stored != [] ==> DiskOk(start, size, s.disk, s.hd, s.stored) && SameAddrs(s.stored, s.blocks))
    && s.loaded <= EntsOf(s.blocks) && (forall i :: 0 <= i < |s.loaded| ==> !Stops(s.loaded[i], s.lgen))
    && (s.stored != [] ==>
          if s.rewritten then s.loaded <= EntsOf(s.stored) <= EntsOf(s.blocks)
          else EntsOf(s.stored)[..Stop(EntsOf(s.stored), s.lgen)] == s.loaded)
  }

  class Arena {
    const start: nat
    const size: int
    const reserve: int
    const free: RangeTree
    var used: int
    var loghd: int
    var logtl: LogBlk
    var disk: map<int, LogBlk>
    ghost var chain: seq<LogBlk>
    ghost var stored: seq<LogBlk>
    ghost var loaded: seq<Ent>
    ghost var lgen: nat
    ghost var rewritten: bool

    constructor (start: nat, size: int, reserve: int, loghd: int, disk: map<int, LogBlk>)
      ensures fresh(free) && free.rs == [] && used == size && this.disk == disk && this.loghd == loghd
      ensures this.start == start && this.size == size && this.reserve == reserve
    {
      this.start, this.size, this.reserve, this.loghd, this.disk := start, size, reserve, loghd, disk;
      used := size;
      free := new RangeTree();
      logtl := LogBlk(loghd, [], -1);
      chain, stored, loaded, lgen, rewritten := [], [], [], 0, false;
    }

    predicate Here(x: int) { Within(start, size, x) }

    ghost function Blocks(): seq<LogBlk>
      reads this
    {
      chain + [logtl]
    }

    /** The log is well formed, has room for an entry and a link, and lies in blocks that are not
        free; and what is not used is free. */
    ghost predicate Sound()
      reads this, free
    {
      && Canon(free.rs) && used + Total(free.rs) == size
      && (forall x :: Covers(free.rs, x) ==> Here(x))
      && ChainOk(disk, loghd, Blocks())
      && Logsz(logtl) <= Logspc - Logslop + 16
      && (forall i :: 0 <= i < |Blocks()| ==> !Covers(free.rs, Blocks()[i].addr) && BlkOk(Blocks()[i]))
    }

    ghost function Log(): seq<Ent>
      reads this
    {
      EntsOf(Blocks())
    }

    /** Replaying the log gives the free set in memory. */
    ghost predicate Valid()
      reads this, free
    {
      && Sound() && Legal(Log()) && (forall x :: Covers(free.rs, x) <==> FreeIn(Log(), x))
      && AllHere(start, size, Log()) && Held(Blocks()) && Durable()
    }

    /** The entries on disk. */
    ghost function DiskLog(): seq<Ent>
      reads this
    {
      EntsOf(stored)
    }

    ghost function Now(): Snap
      reads this
    {
      Snap(LogFull(), loghd, disk, stored, loaded, lgen, rewritten, Blocks())
    }

    ghost predicate Durable()
      reads this
    {
      DurableIn(start, size, Now())
    }

    /** The last block of the log has no room for another entry. */
    predicate LogFull()
      reads this`logtl
    {
      Logsz(logtl) >= Logspc - Logslop
    }

    /** With n bytes more taken, the arena has no block to give. */
    ghost predicate Dry(n: int, usereserve: bool)
      reads this`used, free
    {
      (!usereserve && size - used - n <= reserve) || Total(free.rs) == n
    }

    ghost predicate Free(x: int)
      reads free
    {
      Covers(free.rs, x)
    }

    /** The lowest free block, or the highest. */
    method BlkallocLk(low: bool, usereserve: bool) returns (r: Got)
      requires Canon(free.rs)
      modifies this`used, free
      ensures r.NoSpace? <==> !usereserve && size - old(used) <= reserve
      ensures r.Stuffed? <==> (usereserve || size - old(used) > reserve) && old(free.rs) == []
      ensures r.Got? <==> !old(Dry(0, usereserve))
      ensures !r.Got? ==> free.rs == old(free.rs) && used == old(used)
      ensures r.Got? ==> Canon(free.rs) && Total(free.rs) == old(Total(free.rs)) - Blksz && used == old(used) + Blksz
      ensures r.Got? ==> Whole(r.b, Blksz) && forall x :: InBlock(r.b, x) ==> old(Covers(free.rs, x))
      ensures r.Got? ==> forall x :: Covers(free.rs, x) <==> old(Covers(free.rs, x)) && !InBlock(r.b, x)
      ensures r.Got? ==> |free.rs| <= |old(free.rs)|
      ensures r.Got? ==> forall x :: old(Covers(free.rs, x)) ==> if low then r.b <= x else x < r.b + Blksz
    {
      hide Total, Covers, Canon, Cut;
      TotalZero(free.rs);
      if !usereserve && size - used <= reserve {
        return NoSpace;
      }
      if free.rs == [] {
        return Stuffed;
      }
      ghost var was := free.rs;
      var n := |free.rs|;
      var i := if low then 0 else n - 1;
      var q := free.rs[i];
      BigEnough(was, i);
      var b;
      if low {
        b := q.off;
        q := Range(q.off + Blksz, q.len - Blksz);
      } else {
        q := Range(q.off, q.len - Blksz);
        b := q.off + q.len;
      }
      free.rs := if q.len == 0 then free.rs[..i] + free.rs[i + 1..] else free.rs[..i] + [q] + free.rs[i + 1..];
      used := used + Blksz;
      CutCases(was[i], b, Blksz);
      assert free.rs == was[..i] + Cut(was[i], b, Blksz) + was[i + 1..];
      CutKeeps(was, i, b, Blksz, free.rs);
      AllFree(was, i, b, Blksz);
      if low { Lowest(was); } else { Highest(was); }
      return Got(b);
    }

    /** Only chaining a block changes what is on disk, and then all of the log is. */
    ghost predicate Steady(was: Snap, ok: bool)
      reads this
    {
      && loghd == was.hd && loaded == was.loaded && lgen == was.lgen
      && (!ok || !was.full ==> disk == was.disk && stored == was.stored && rewritten == was.rewritten)
      && (ok && was.full ==> Stored(disk, logtl) && logtl.next == -1 && stored == Blocks() && rewritten)
      && (ok && was.full ==> chain != [] && disk == Written(was.disk, logtl, chain[|chain| - 1]))
    }

    /** The full last block is linked to block o, which takes the entry; the new block is written first. */
    method ChainOn(o: int, e: Ent)
      requires ChainOk(disk, loghd, Blocks()) && EntOk(e) && o >= 0 && Whole(o, Blksz)
      requires forall i :: 0 <= i < |Blocks()| ==> Blocks()[i].addr != o
      modifies this`disk, this`chain, this`logtl, this`stored, this`rewritten
      ensures ChainOk(disk, loghd, Blocks()) && Log() == old(Log()) + [Alloc(o, Blksz)] + [e]
      ensures Grown(old(Blocks()), Blocks(), [Alloc(o, Blksz)])
      ensures chain == old(chain) + [LogBlk(old(logtl).addr, old(logtl).data + [o + LogAlloc1], o)]
      ensures logtl == LogBlk(o, Words(e), -1) && Stored(disk, logtl) && stored == Blocks() && rewritten
      ensures disk == Written(old(disk), logtl, chain[|chain| - 1])
    {
      hide ParseOk, Legal, FreeIn, Parse, Words, EntOk, EntsOf, ChainOk, Grown;
      BlockEnt(o);
      ghost var oldChain, tl := chain, logtl;
      LinkStep(disk, loghd, chain, logtl, o, e);
      assert Blocks()[|chain|] == tl;
      var lb := LogBlk(o, Words(e), -1);
      var t := LogBlk(logtl.addr, logtl.data + [o + LogAlloc1], o);
      disk := disk[o := lb];
      disk := disk[t.addr := t];
      chain := chain + [t];
      logtl := lb;
      stored, rewritten := Blocks(), true;
      GrownLink(oldChain, tl, t, lb, [Alloc(o, Blksz)]);
    }

    /** Appends an entry. A block with too little room is linked to a new one, which comes out of the
        free set, is logged in the old block, and is handed back as mid. */
    method LogAppend(e: Ent, usereserve: bool) returns (ok: bool, ghost mid: seq<Ent>)
      requires Sound() && EntOk(e) && (e.Sync? || Here(e.off))
      modifies this, free
      ensures Sound()
      ensures ok <==> !(old(LogFull()) && old(Dry(0, usereserve)))
      ensures !ok ==> Log() == old(Log()) && free.rs == old(free.rs) && used == old(used) && Blocks() == old(Blocks())
      ensures !ok ==> logtl == old(logtl)
      ensures Steady(old(Now()), ok) && (ok ==> (mid != [] <==> old(LogFull())))
      ensures ok && mid == [] ==> used == old(used) && logtl == old(logtl).(data := old(logtl.data) + Words(e))
      ensures ok && mid != [] ==> used == old(used) + Blksz
      ensures ok ==> Log() == old(Log()) + mid + [e]
      ensures ok ==> OwnBlock(mid, old(free.rs), free.rs)
      ensures ok ==> Grown(old(Blocks()), Blocks(), mid)
      ensures ok && mid != [] ==> Here(mid[0].off) && Here(mid[0].off + Blksz - 1)
      ensures ok && mid != [] ==> mid[0].Alloc? && mid[0].len == Blksz && Uppermost(old(free.rs), mid[0].off)
    {
      hide Covers, Total, Canon, ParseOk, Legal, FreeIn, Parse, Words, EntOk, EntsOf, ChainOk, Whole, Held, Dry;
      mid := [];
      ghost var was := Blocks();
      assert was[|chain|] == logtl;
      if Logsz(logtl) >= Logspc - Logslop {
        var r := BlkallocLk(false, usereserve);
        if !r.Got? {
          ok := false;
          return;
        }
        var o := r.b;
        assert InBlock(o, o) && InBlock(o, o + Blksz - 1);
        BlockEnt(o);
        mid := [Alloc(o, Blksz)];
        assert forall i :: 0 <= i < |was| ==> !Covers(free.rs, was[i].addr);
        ChainOn(o, e);
        WordsSmall(e);
      } else {
        ChainWrite(disk, loghd, chain, logtl, e);
        logtl := logtl.(data := logtl.data + Words(e));
        WordsSmall(e);
        GrownTail(was, Blocks());
      }
      ok := true;
    }

    /** Frees a block: one more free block, in the log and in memory. When the log is out of room and
        the arena of blocks, nothing is done. */
    method BlkdeallocLk(b: int, usereserve: bool) returns (ok: bool, ghost mid: seq<Ent>)
      requires Valid() && Whole(b, Blksz) && Here(b) && Here(b + Blksz - 1)
      requires (forall x :: InBlock(b, x) ==> !Free(x)) && forall t :: t in Blocks() ==> t.addr != b
      modifies this, free
      ensures Valid()
      ensures ok <==> !(old(LogFull()) && old(Dry(0, usereserve)))
      ensures !ok ==> Log() == old(Log()) && free.rs == old(free.rs) && used == old(used) && Blocks() == old(Blocks())
      ensures !ok ==> logtl == old(logtl)
      ensures Steady(old(Now()), ok) && (ok ==> (mid != [] <==> old(LogFull())))
      ensures ok ==> Log() == old(Log()) + mid + [LogEnts.Free(b, Blksz)] && Grown(old(Blocks()), Blocks(), mid)
      ensures ok ==> used == old(used) - if mid == [] then Blksz else 0
      ensures ok ==> forall x :: Free(x) <==> InBlock(b, x) || (old(Free(x)) && !Took(mid, x))
      ensures ok ==> forall x :: Took(mid, x) ==> old(Free(x))
      ensures ok && mid != [] ==> mid[0].Alloc? && mid[0].len == Blksz && Uppermost(old(free.rs), mid[0].off)
    {
      hide Covers, Total, Canon, ParseOk, Legal, FreeIn, Parse, Words, EntOk, EntsOf, ChainOk, Whole, Held,
           DurableIn, Dry, Uppermost;
      BlockEnt(b);
      ghost var was, es := free.rs, Log();
      ghost var blocks := Blocks();
      ok, mid := LogAppend(LogEnts.Free(b, Blksz), usereserve);
      if ok {
        ghost var rs := free.rs;
        DeallocMeans(es, mid, b, was, rs);
        PushMid(es, mid, was, rs);
        forall i | 0 <= i < |Blocks()| ensures !InBlock(b, Blocks()[i].addr) {
          ghost var t := Blocks()[i];
          assert t in Blocks();
          assert Whole(t.addr, Blksz);
          SameBlock(b, t.addr);
        }
        free.FreeRange(b, Blksz);
        used := used - Blksz;
        DeallocFree(es + mid, b, rs, free.rs);
        EntryKeeps(this, blocks, Blocks(), mid, LogEnts.Free(b, Blksz));
      }
      StillDurable(this, old(Now()), ok);
    }

    /** Allocates a block, in memory and then in the log. When the log then needs a block and the
        arena, with that block taken, has none to give, the block is lost to memory but not to the log. */
    method Blkalloc(low: bool, usereserve: bool) returns (r: Got, ok: bool, ghost mid: seq<Ent>)
      requires Valid()
      modifies this, free
      ensures Sound()
      ensures r.NoSpace? <==> !usereserve && size - old(used) <= reserve
      ensures r.Got? <==> !old(Dry(0, usereserve))
      ensures r.Got? ==> (ok <==> !(old(LogFull()) && old(Dry(Blksz, usereserve))))
      ensures !r.Got? ==> Valid() && !ok && free.rs == old(free.rs) && Log() == old(Log())
      ensures Steady(old(Now()), ok) && (ok ==> (mid != [] <==> old(LogFull())))
      ensures ok && mid == [] ==> used == old(used) + Blksz && |logtl.data| == |old(logtl.data)| + 1
      ensures r.Got? ==> Whole(r.b, Blksz) && (forall x :: InBlock(r.b, x) ==> old(Free(x)) && !Free(x))
      ensures r.Got? && ok ==> Valid() && Log() == old(Log()) + mid + [Alloc(r.b, Blksz)]
      ensures r.Got? ==> forall x :: old(Free(x)) ==> if low then r.b <= x else x < r.b + Blksz
      ensures ok ==> |mid| <= 1 && (mid != [] ==> mid[0].Alloc? && mid[0].len == Blksz)
      ensures ok && mid != [] ==> forall x :: old(Free(x)) && !InBlock(r.b, x) ==> x < mid[0].off + Blksz
      ensures r.Got? && ok
        ==> forall x :: Free(x) <==> old(Free(x)) && !InBlock(r.b, x) && !Took(mid, x)
      ensures r.Got? && !ok ==> Log() == old(Log()) && forall x :: Free(x) <==> FreeIn(Log(), x) && !InBlock(r.b, x)
    {
      hide Covers, Total, Canon, ParseOk, Legal, FreeIn, Parse, Words, EntOk, EntsOf, ChainOk, Whole;
      ghost var was, es := free.rs, Log();
      ghost var blocks := Blocks();
      mid := [];
      r := BlkallocLk(low, usereserve);
      if !r.Got? {
        ok := false;
        return;
      }
      assert InBlock(r.b, r.b) && InBlock(r.b, r.b + Blksz - 1);
      BlockEnt(r.b);
      ghost var rs := free.rs;
      ok, mid := LogAppend(Alloc(r.b, Blksz), usereserve);
      if ok {
        AllocMeans(es, mid, r.b, was, rs, free.rs);
        PushMid(es, mid, rs, free.rs);
        EntryKeeps(this, blocks, Blocks(), mid, Alloc(r.b, Blksz));
        StillDurable(this, old(Now()), ok);
      }
    }

    /** Marks the log for a commit: everything before the mark is the free set of this moment. */
    method LogBarrier(gen: nat, usereserve: bool) returns (ok: bool, ghost pre: seq<Ent>)
      requires Valid()
      modifies this, free
      ensures Valid()
      ensures ok ==> old(Log()) <= pre && Log() == pre + [Sync(gen)] && forall x :: Free(x) <==> FreeIn(pre, x)
      ensures ok ==> forall i :: |old(Log())| <= i < |pre| ==> !pre[i].Sync?
      ensures ok ==> |pre| == |old(Log())| + if old(LogFull()) then 1 else 0
      ensures ok && old(LogFull()) ==> pre[|pre| - 1].Alloc? && Uppermost(old(free.rs), pre[|pre| - 1].off)
      ensures ok <==> !(old(LogFull()) && old(Dry(0, usereserve)))
      ensures Steady(old(Now()), ok)
      ensures !ok ==> Log() == old(Log()) && free.rs == old(free.rs)
    {
      hide Covers, Total, Canon, ParseOk, Legal, FreeIn, Parse, Words, EntsOf, ChainOk, Whole;
      ghost var was, es := free.rs, Log();
      ghost var blocks := Blocks();
      ghost var mid;
      ok, mid := LogAppend(Sync(gen), usereserve);
      pre := es + mid;
      if ok {
        BarrierMeans(es, mid, gen, was, free.rs);
        PushMid(es, mid, was, free.rs);
        EntryKeeps(this, blocks, Blocks(), mid, Sync(gen));
      }
      StillDurable(this, old(Now()), ok);
    }

    /** Writes the last block of the log. */
    method FlushLog()
      requires Valid()
      modifies this`disk, this`stored, this`rewritten
      ensures Valid() && disk == old(disk)[logtl.addr := logtl] && stored == Blocks() && rewritten
    {
      hide Covers, Total, Canon, ParseOk, Legal, FreeIn, Parse, Words, EntsOf, Whole;
      disk := disk[logtl.addr := logtl];
      stored, rewritten := Blocks(), true;
      assert Blocks()[|chain|] == logtl;
      assert forall i :: 0 <= i < |chain| ==> Blocks()[i].addr != logtl.addr;
    }

    /** One entry of a replay. */
    method ReplayEnt(e: Ent, ghost es: seq<Ent>)
      requires Canon(free.rs) && used + Total(free.rs) == size && Legal(es + [e])
      requires forall x :: Free(x) <==> FreeIn(es, x)
      modifies this`used, free
      ensures Canon(free.rs) && used + Total(free.rs) == size
      ensures forall x :: Free(x) <==> FreeIn(es + [e], x)
    {
      hide Covers, Total, Canon, Legal, FreeIn, Whole;
      LegalPush(es, e);
      ghost var was := free.rs;
      match e {
        case Sync(_) =>
        case Alloc(off, len) =>
          forall x | off <= x < off + len ensures Covers(was, x) {
            assert Hits(e, x) && (Free(x) <==> FreeIn(es, x));
          }
          var ok := free.GrabRange(off, len);
          used := used + len;
        case Free(off, len) =>
          forall x | off <= x < off + len ensures !Covers(was, x) {
            assert Hits(e, x) && (Free(x) <==> FreeIn(es, x));
          }
          free.FreeRange(off, len);
          used := used - len;
      }
      forall x ensures Free(x) <==> FreeIn(es + [e], x) {
        FreeInPush(es, e, x);
        assert old(Free(x)) <==> FreeIn(es, x);
      }
    }

    /** The entries of one block; pre is what came before it, whole is the chain. */
    method LoadBlk(data: seq<int>, qgen: nat, ghost pre: seq<Ent>, ghost whole: seq<Ent>)
      returns (i: nat, stop: bool, ghost done: seq<Ent>)
      requires ParseOk(data) && pre + Parse(data) <= whole && Legal(whole[..Stop(whole, qgen)])
      requires Canon(free.rs) && used + Total(free.rs) == size
      requires forall j :: 0 <= j < |pre| ==> !Stops(pre[j], qgen)
      requires forall x :: Free(x) <==> FreeIn(pre, x)
      modifies this`used, free
      ensures i <= |data| && ParseOk(data[..i]) && done == pre + Parse(data[..i]) && done <= whole
      ensures if stop then i < |data| && |done| < |whole| && Stops(whole[|done|], qgen) else i == |data|
      ensures stop ==> |done| < |pre + Parse(data)|
      ensures forall j :: 0 <= j < |done| ==> !Stops(done[j], qgen)
      ensures Canon(free.rs) && used + Total(free.rs) == size
      ensures forall x :: Free(x) <==> FreeIn(done, x)
    {
      hide Covers, Total, Canon, Legal, FreeIn, Whole, Parse, ParseOk, Stop, Head, OpOf;
      done := pre;
      i := 0;
      stop := false;
      assert data[..0] == [] && data[0..] == data;
      Nothing([]);
      while i < |data|
        invariant 0 <= i <= |data| && ParseOk(data[..i]) && ParseOk(data[i..])
        invariant done == pre + Parse(data[..i]) && done + Parse(data[i..]) == pre + Parse(data)
        invariant forall j :: 0 <= j < |done| ==> !Stops(done[j], qgen)
        invariant Canon(free.rs) && used + Total(free.rs) == size
        invariant forall x :: Free(x) <==> FreeIn(done, x)
      {
        NextEnt(data, i);
        var op := OpOf(data[i]);
        var e := Head(data[i..]);
        assert done + [e] <= whole;
        if e.Sync? && e.gen >= qgen {
          stop := true;
          return;
        }
        LegalNext(whole, done, e, qgen);
        ReplayEnt(e, done);
        done := done + [e];
        i := i + Width(op);
      }
      assert data[..i] == data;
    }

    /** Reads the log back, from no free space at all, up to the first barrier not older than qgen;
        that barrier is dropped. bs is the chain on disk. */
    method LoadLog(qgen: nat, ghost bs: seq<LogBlk>) returns (ghost k: nat)
      requires free.rs == [] && used == size
      requires bs != [] && ChainOk(disk, loghd, bs) && Stored(disk, bs[|bs| - 1])
      requires forall i :: 0 <= i < |bs| ==> bs[i].addr != -1
      requires bs[|bs| - 1].next == -1 || Stop(EntsOf(bs), qgen) < |EntsOf(bs)|
      requires Legal(EntsOf(bs)[..Stop(EntsOf(bs), qgen)])
      modifies this`used, this`logtl, this`chain, free
      ensures Canon(free.rs) && used + Total(free.rs) == size
      ensures Log() == EntsOf(bs)[..Stop(EntsOf(bs), qgen)]
      ensures forall x :: Free(x) <==> FreeIn(Log(), x)
      ensures ChainOk(disk, loghd, Blocks())
      ensures k < |bs| && chain == bs[..k] && logtl.addr == bs[k].addr
      ensures (k == |bs| - 1 && logtl == bs[k] && bs[k].next == -1) || |logtl.data| < |bs[k].data|
      ensures logtl.data <= bs[k].data && (k == |bs| - 1 || |Log()| < |EntsOf(bs[..k + 1])|)
      ensures EntsOf(bs[..k]) <= Log()
    {
      hide Covers, Total, Canon, Legal, FreeIn, Whole, Parse, ParseOk, EntsOf, ChainOk, Stored, Stop, Head, OpOf;
      ghost var whole := EntsOf(bs);
      ghost var done: seq<Ent> := [];
      k := 0;
      var bp := loghd;
      Nothing(bs);
      ChainGet(disk, loghd, bs, 0);
      while true
        invariant 0 <= k < |bs| && bp == bs[k].addr && done == EntsOf(bs[..k]) && done <= whole
        invariant forall j :: 0 <= j < |done| ==> !Stops(done[j], qgen)
        invariant Canon(free.rs) && used + Total(free.rs) == size
        invariant forall x :: Free(x) <==> FreeIn(done, x)
        decreases |bs| - k
      {
        ChainGet(disk, loghd, bs, k);
        var b := disk[bp];
        var i, stop;
        i, stop, done := LoadBlk(b.data, qgen, done, whole);
        if stop || b.next == -1 {
          logtl := b.(data := b.data[..i]);
          chain := bs[..k];
          if !stop {
            assert b.data[..i] == b.data;
            assert logtl == b;
            LastBlock(bs, k);
          }
          StopHere(whole, done, qgen);
          CutChain(disk, loghd, bs, k, logtl);
          return;
        }
        assert b.data[..i] == b.data;
        LastStop(whole, done, qgen, bs, k);
        bp := b.next;
        k := k + 1;
      }
    }
  }

  /** What is on disk stays readable. */
  lemma StillDurable(a: Arena, was: Snap, ok: bool)
    requires DurableIn(a.start, a.size, was) && a.Steady(was, ok) && EntsOf(was.blocks) <= a.Log()
    requires if ok && was.full then DiskOk(a.start, a.size, a.disk, a.loghd, a.Blocks())
              else SameAddrs(was.blocks, a.Blocks())
    ensures a.Durable()
  {
    hide DiskOk, EntsOf, Stop;
  }

  // ----- a start -----

  /** The log of a start that stopped n entries into its chain. */
  lemma LoadedHeld(bs: seq<LogBlk>, k: nat, tl: LogBlk, n: nat)
    requires Held(bs) && k < |bs| && tl.addr == bs[k].addr && n <= |EntsOf(bs)|
    requires Marks(EntsOf(bs), n) || (n == |EntsOf(bs)| && HeldEnd(bs))
    requires EntsOf(bs[..k] + [tl]) == EntsOf(bs)[..n] && EntsOf(bs[..k]) <= EntsOf(bs)[..n]
    ensures Held(bs[..k] + [tl])
    ensures forall i :: 0 <= i <= k ==> !FreeIn(EntsOf(bs)[..n], bs[i].addr)
  {
    hide EntsOf, FreeIn;
    var es, cut := EntsOf(bs), bs[..k] + [tl];
    forall i, m: nat | 0 <= i < |cut| && |EntsOf(cut[..i])| <= m && Marks(EntsOf(cut), m) ensures HeldAt(cut, i, m) {
      assert cut[..i] == bs[..i];
      NotFree(bs, i, m);
      assert es[..n][..m] == es[..m];
    }
    forall i | 0 <= i <= k ensures !FreeIn(es[..n], bs[i].addr) {
      EntsPrefix(bs[..k], i);
      assert bs[..k][..i] == bs[..i];
      if n == |es| && HeldEnd(bs) { assert es[..n] == es; } else { NotFree(bs, i, n); }
    }
  }

  lemma NotFree(bs: seq<LogBlk>, i: nat, n: nat)
    requires Held(bs) && i < |bs| && |EntsOf(bs[..i])| <= n && Marks(EntsOf(bs), n)
    ensures !FreeIn(EntsOf(bs)[..n], bs[i].addr)
  {
    hide EntsOf, FreeIn;
    assert HeldAt(bs, i, n);
  }

  lemma HerePrefix(start: int, size: int, es: seq<Ent>, n: nat)
    requires AllHere(start, size, es) && n <= |es|
    ensures AllHere(start, size, es[..n])
  {
    assert forall e :: e in es[..n] ==> e in es;
  }

  /** Where a start stops, the barrier is among the entries, or all entries have been read. */
  lemma StopMarks(es: seq<Ent>, qgen: nat)
    ensures Stop(es, qgen) == |es| || Marks(es, Stop(es, qgen))
  {
  }

  /** The log as far as a start has read its blocks. */
  lemma CutDisk(start: int, size: int, disk: map<int, LogBlk>, hd: int, bs: seq<LogBlk>, k: nat)
    requires DiskOk(start, size, disk, hd, bs) && k < |bs|
    ensures DiskOk(start, size, disk, hd, bs[..k + 1]) && EntsOf(bs[..k + 1]) <= EntsOf(bs)
  {
    hide Legal, FreeIn, EntsOf, ParseOk, HeldAt, AllHere;
    var cut := bs[..k + 1];
    var es, es' := EntsOf(bs), EntsOf(cut);
    EntsPrefix(bs, k + 1);
    LegalPrefix(es, |es'|);
    assert es[..|es'|] == es';
    HerePrefix(start, size, es, |es'|);
    forall i, m: nat | 0 <= i < |cut| && |EntsOf(cut[..i])| <= m && Marks(es', m) ensures HeldAt(cut, i, m) {
      assert cut[..i] == bs[..i];
      HeldThere(bs, cut, i, m);
    }
    CutChainOk(disk, hd, bs, k);
    if k == |bs| - 1 { assert cut == bs; }
  }

  lemma HeldThere(bs: seq<LogBlk>, cut: seq<LogBlk>, i: nat, m: nat)
    requires Held(bs) && i < |cut| <= |bs| && cut[i] == bs[i] && EntsOf(cut) <= EntsOf(bs)
    requires |EntsOf(bs[..i])| <= m && Marks(EntsOf(cut), m)
    ensures HeldAt(cut, i, m)
  {
    hide EntsOf, FreeIn;
    NotFree(bs, i, m);
    assert EntsOf(cut)[..m] == EntsOf(bs)[..m];
  }

  lemma CutChainOk(disk: map<int, LogBlk>, hd: int, bs: seq<LogBlk>, k: nat)
    requires ChainOk(disk, hd, bs) && Stored(disk, bs[|bs| - 1]) && k < |bs|
    ensures ChainOk(disk, hd, bs[..k + 1]) && Stored(disk, bs[k]) && (k < |bs| - 1 ==> bs[k].next == bs[k + 1].addr)
  {
    hide ParseOk;
  }

  /** A start stops in the same place of any beginning of the log that goes on behind it. */
  lemma StopCut(d: seq<Ent>, es: seq<Ent>, qgen: nat)
    requires d <= es && (Stop(es, qgen) < |d| || d == es)
    ensures Stop(d, qgen) == Stop(es, qgen) && d[..Stop(d, qgen)] == es[..Stop(es, qgen)]
  {
    hide Stop;
    var n := Stop(es, qgen);
    assert forall i :: 0 <= i < |d| ==> d[i] == es[i];
    StopAt(d, n, qgen);
  }

  /** A start from what is on disk, whatever is in memory. */
  method Start(start: nat, size: int, reserve: int, loghd: int, disk: map<int, LogBlk>, qgen: nat,
               ghost bs: seq<LogBlk>)
    returns (b: Arena)
    requires DiskOk(start, size, disk, loghd, bs)
    requires bs[|bs| - 1].next == -1 || Stop(EntsOf(bs), qgen) < |EntsOf(bs)|
    ensures b.Valid() && fresh(b) && fresh(b.free)
    ensures b.start == start && b.size == size && b.reserve == reserve && b.loghd == loghd && b.disk == disk
    ensures b.Log() == b.loaded == EntsOf(bs)[..Stop(EntsOf(bs), qgen)] && b.lgen == qgen && !b.rewritten
    ensures |b.chain| < |bs| && b.chain == bs[..|b.chain|] && b.logtl.data <= bs[|b.chain|].data
    ensures b.stored == bs[..|b.chain| + 1]
    ensures b.stored[|b.chain|].next == -1 || Stop(b.DiskLog(), qgen) < |b.DiskLog()|
  {
    hide Covers, Total, Canon, Legal, FreeIn, Whole, Parse, ParseOk, EntsOf, ChainOk, Stop, Held, Marks, HeldAt,
        HeldEnd,
         AllHere;
    ghost var es := EntsOf(bs);
    ghost var n := Stop(es, qgen);
    LegalPrefix(es, n);
    StopMarks(es, qgen);
    DiskAddrs(start, size, disk, loghd, bs);
    b := new Arena(start, size, reserve, loghd, disk);
    ghost var k := b.LoadLog(qgen, bs);
    CutDisk(start, size, disk, loghd, bs, k);
    b.stored, b.loaded, b.lgen, b.rewritten := bs[..k + 1], b.Log(), qgen, false;
    assert k == |bs| - 1 ==> bs[..k + 1] == bs;
    StopCut(b.DiskLog(), es, qgen);
    LoadedHeld(bs, k, b.logtl, n);
    HerePrefix(start, size, es, n);
    StartSound(b, bs, k, n);
  }

  lemma DiskAddrs(start: int, size: int, disk: map<int, LogBlk>, hd: int, bs: seq<LogBlk>)
    requires DiskOk(start, size, disk, hd, bs)
    ensures forall i :: 0 <= i < |bs| ==> bs[i].addr != -1
  {
    hide ChainOk, Legal, AllHere, Held, HeldEnd, Whole;
  }

  /** What a start has loaded is a sound arena. */
  lemma StartSound(b: Arena, bs: seq<LogBlk>, k: nat, n: nat)
    requires Canon(b.free.rs) && b.used + Total(b.free.rs) == b.size && AllHere(b.start, b.size, b.Log())
    requires forall x :: b.Free(x) <==> FreeIn(b.Log(), x)
    requires n <= |EntsOf(bs)| && b.Log() == EntsOf(bs)[..n] && ChainOk(b.disk, b.loghd, b.Blocks())
    requires k < |bs| && b.chain == bs[..k] && b.logtl.addr == bs[k].addr && forall i :: 0 <= i < |bs| ==> BlkOk(bs[i])
    requires forall i :: 0 <= i <= k ==> !FreeIn(EntsOf(bs)[..n], bs[i].addr)
    requires (k == |bs| - 1 && b.logtl == bs[k] && Logsz(bs[k]) <= Logspc - Logslop + 16)
              || |b.logtl.data| < |bs[k].data|
    ensures b.Sound() && (b.stored == bs[..k + 1] ==> SameAddrs(b.stored, b.Blocks()))
  {
    hide Covers, Total, Canon, FreeIn, Whole, EntsOf, ChainOk, AllHere;
    forall x | Covers(b.free.rs, x) ensures b.Here(x) {
      assert b.Free(x) && FreeIn(b.Log(), x);
      FreeHere(b.start, b.size, b.Log(), x);
    }
    forall i | 0 <= i < |b.Blocks()| ensures !Covers(b.free.rs, b.Blocks()[i].addr) && BlkOk(b.Blocks()[i]) {
      assert BlkOk(bs[i]);
      assert b.Blocks()[i].addr == bs[i].addr;
      assert !FreeIn(b.Log(), bs[i].addr);
      assert !b.Free(bs[i].addr);
    }
  }

  lemma Nothing(bs: seq<LogBlk>)
    ensures EntsOf(bs[..0]) == [] && ParseOk([]) && Parse([]) == []
    ensures forall x :: !FreeIn([], x) && !Covers([], x)
    ensures Canon([]) && Total([]) == 0
  {
  }

  lemma ChainGet(disk: map<int, LogBlk>, hd: int, bs: seq<LogBlk>, k: nat)
    requires ChainOk(disk, hd, bs) && Stored(disk, bs[|bs| - 1]) && k < |bs|
    requires forall i :: 0 <= i < |bs| ==> bs[i].addr != -1
    ensures bs[k].addr in disk && disk[bs[k].addr] == bs[k] && ParseOk(bs[k].data)
    ensures k < |bs| - 1 ==> bs[k].next == bs[k + 1].addr && bs[k].next != -1
    ensures EntsOf(bs[..k + 1]) == EntsOf(bs[..k]) + Parse(bs[k].data) && EntsOf(bs[..k + 1]) <= EntsOf(bs)
    ensures k == 0 ==> bs[0].addr == hd
  {
    hide EntsOf, Parse, ParseOk;
    ChainEnts(bs, k);
    ChainBlk(disk, hd, bs, k);
    hide ChainOk;
  }

  lemma ChainBlk(disk: map<int, LogBlk>, hd: int, bs: seq<LogBlk>, k: nat)
    requires ChainOk(disk, hd, bs) && Stored(disk, bs[|bs| - 1]) && k < |bs|
    ensures Stored(disk, bs[k]) && ParseOk(bs[k].data) && bs[0].addr == hd
    ensures k < |bs| - 1 ==> bs[k].next == bs[k + 1].addr
  {
    hide ParseOk;
  }

  lemma ChainEnts(bs: seq<LogBlk>, k: nat)
    requires k < |bs|
    ensures EntsOf(bs[..k + 1]) == EntsOf(bs[..k]) + Parse(bs[k].data) && EntsOf(bs[..k + 1]) <= EntsOf(bs)
  {
    hide EntsOf, Parse;
    TakeMore(bs, k);
    EntsPush(bs[..k], bs[k]);
    EntsPrefix(bs, k + 1);
  }

  lemma TakeMore<T>(s: seq<T>, k: nat)
    requires k < |s|
    ensures s[..k + 1] == s[..k] + [s[k]]
  {
  }

  lemma NextEnt(data: seq<int>, i: nat)
    requires i < |data| && ParseOk(data[..i]) && ParseOk(data[i..])
    ensures HeadOk(data[i..])
    ensures var n := Width(OpOf(data[i]));
            && i + n <= |data| && ParseOk(data[i + n..]) && Parse(data[i..]) == [Head(data[i..])] + Parse(data[i + n..])
            && ParseOk(data[..i + n]) && Parse(data[..i + n]) == Parse(data[..i]) + [Head(data[i..])]
  {
    hide OpOf, Head;
    var n := Width(OpOf(data[i]));
    var ws := data[i..];
    assert ws != [] && ws[0] == data[i];
    assert ws[n..] == data[i + n..];
    var one := data[i..i + n];
    assert one == ws[..n] && ws == one + ws[n..];
    OneEnt(ws);
    ParseConcat(data[..i], one);
    assert data[..i + n] == data[..i] + one;
  }

  /** The first entry by itself. */
  lemma OneEnt(ws: seq<int>)
    requires HeadOk(ws)
    ensures var one := ws[..Width(OpOf(ws[0]))]; ParseOk(one) && Parse(one) == [Head(ws)]
  {
    hide OpOf;
    var one := ws[..Width(OpOf(ws[0]))];
    assert one[0] == ws[0];
    assert HeadOk(one) && Rest(one) == [];
    assert ParseOk([]);
  }

  lemma StopHere(whole: seq<Ent>, done: seq<Ent>, qgen: nat)
    requires done <= whole && (forall j :: 0 <= j < |done| ==> !Stops(done[j], qgen))
    requires done == whole || (|done| < |whole| && Stops(whole[|done|], qgen))
    ensures Stop(whole, qgen) == |done| && whole[..|done|] == done
  {
    hide Stop;
    StopAt(whole, |done|, qgen);
  }

  lemma LegalNext(whole: seq<Ent>, done: seq<Ent>, e: Ent, qgen: nat)
    requires done + [e] <= whole && !Stops(e, qgen) && Legal(whole[..Stop(whole, qgen)])
    requires forall j :: 0 <= j < |done| ==> !Stops(done[j], qgen)
    ensures Legal(done + [e])
    ensures forall j :: 0 <= j < |done + [e]| ==> !Stops((done + [e])[j], qgen)
  {
    hide Stop, Legal;
    var n := Stop(whole, qgen);
    var d := done + [e];
    assert forall j :: 0 <= j < |d| ==> !Stops(d[j], qgen);
    assert forall j :: 0 <= j < |d| ==> whole[j] == d[j];
    assert n >= |d|;
    LegalPrefix(whole[..n], |d|);
    assert whole[..n][..|d|] == d;
  }

  lemma CutChain(disk: map<int, LogBlk>, hd: int, bs: seq<LogBlk>, k: nat, tl: LogBlk)
    requires ChainOk(disk, hd, bs) && k < |bs| && tl.addr == bs[k].addr && ParseOk(tl.data)
    ensures ChainOk(disk, hd, bs[..k] + [tl]) && EntsOf(bs[..k] + [tl]) == EntsOf(bs[..k]) + Parse(tl.data)
  {
    hide Parse, ParseOk;
    EntsPush(bs[..k], tl);
    var t := bs[..k] + [tl];
    forall i | 0 <= i < |t| ensures t[i].addr == bs[i].addr && ParseOk(t[i].data) && (i < k ==> t[i] == bs[i]) {
    }
  }

  lemma LastBlock(bs: seq<LogBlk>, k: nat)
    requires k < |bs| && (k < |bs| - 1 ==> bs[k].next != -1) && bs[k].next == -1
    ensures k == |bs| - 1 && bs[..k + 1] == bs
  {
  }

  lemma TakeAll(bs: seq<LogBlk>, k: nat)
    requires k < |bs|
    ensures k + 1 == |bs| ==> bs[..k + 1] == bs
  {
  }

  /** A chain whose last block is linked on holds a barrier, so replay stops before its end. */
  lemma LastStop(whole: seq<Ent>, done: seq<Ent>, qgen: nat, bs: seq<LogBlk>, k: nat)
    requires k < |bs| && whole == EntsOf(bs) && done == EntsOf(bs[..k + 1]) && bs[k].next != -1
    requires bs[|bs| - 1].next == -1 || Stop(whole, qgen) < |whole|
    requires forall j :: 0 <= j < |done| ==> !Stops(done[j], qgen)
    ensures k < |bs| - 1
  {
    hide Stop;
    TakeAll(bs, k);
  }

  lemma SameBlock(a: int, b: int)
    requires Whole(a, Blksz) && Whole(b, Blksz) && a != b
    ensures !InBlock(a, b) && forall x :: InBlock(a, x) ==> !InBlock(b, x)
  {
    var i, j := a / Blksz, b / Blksz;
    assert a == Blksz * i && b == Blksz * j;
    if i < j { assert Blksz * i + Blksz <= Blksz * j; } else { assert Blksz * j + Blksz <= Blksz * i; }
  }

  lemma PushMid(es: seq<Ent>, mid: seq<Ent>, was: seq<Range>, rs: seq<Range>)
    requires Legal(es) && (forall x :: Covers(was, x) ==> FreeIn(es, x)) && OwnBlock(mid, was, rs)
    ensures Legal(es + mid) && |mid| <= 1
    ensures forall x :: FreeIn(es + mid, x) <==> FreeIn(es, x) && !Took(mid, x)
  {
    hide Covers, EntOk, Whole;
    if mid == [] {
      assert es + mid == es;
    } else {
      assert mid == [mid[0]];
      LegalPush(es, mid[0]);
      forall x ensures FreeIn(es + mid, x) <==> FreeIn(es, x) && !InBlock(mid[0].off, x) {
        FreeInPush(es, mid[0], x);
      }
    }
  }

  lemma DeallocMeans(es: seq<Ent>, mid: seq<Ent>, b: int, was: seq<Range>, rs: seq<Range>)
    requires Legal(es) && (forall x :: Covers(was, x) <==> FreeIn(es, x)) && OwnBlock(mid, was, rs)
    requires EntOk(LogEnts.Free(b, Blksz)) && forall x :: InBlock(b, x) ==> !Covers(was, x)
    ensures Legal(es + mid + [LogEnts.Free(b, Blksz)]) && |mid| <= 1
    ensures forall x :: FreeIn(es + mid, x) <==> Covers(rs, x)
    ensures mid != [] ==> mid[0].off != b && Covers(was, mid[0].off) && !Covers(rs, mid[0].off)
  {
    hide Covers, EntOk, Whole, Legal, FreeIn;
    PushMid(es, mid, was, rs);
    LegalPush(es + mid, LogEnts.Free(b, Blksz));
    if mid != [] {
      assert InBlock(mid[0].off, mid[0].off) && InBlock(b, b);
    }
  }

  lemma DeallocFree(es: seq<Ent>, b: int, rs: seq<Range>, now: seq<Range>)
    requires forall x :: FreeIn(es, x) <==> Covers(rs, x)
    requires forall x :: Covers(now, x) <==> Covers(rs, x) || b <= x < b + Blksz
    ensures forall x :: FreeIn(es + [LogEnts.Free(b, Blksz)], x) <==> Covers(now, x)
  {
    hide Covers, FreeIn;
    forall x ensures FreeIn(es + [LogEnts.Free(b, Blksz)], x) <==> Covers(now, x) {
      FreeInPush(es, LogEnts.Free(b, Blksz), x);
    }
  }

  lemma AllocMeans(es: seq<Ent>, mid: seq<Ent>, b: int, was: seq<Range>, rs: seq<Range>, now: seq<Range>)
    requires Legal(es) && (forall x :: Covers(was, x) <==> FreeIn(es, x)) && OwnBlock(mid, rs, now)
    requires EntOk(Alloc(b, Blksz)) && forall x :: InBlock(b, x) ==> Covers(was, x)
    requires forall x :: Covers(rs, x) <==> Covers(was, x) && !InBlock(b, x)
    ensures Legal(es + mid + [Alloc(b, Blksz)]) && |mid| <= 1
    ensures forall x :: FreeIn(es + mid + [Alloc(b, Blksz)], x) <==> Covers(now, x)
  {
    hide Covers, EntOk, Whole, Legal, FreeIn;
    PushMid(es, mid, rs, now);
    LegalPush(es + mid, Alloc(b, Blksz));
    forall x ensures FreeIn(es + mid + [Alloc(b, Blksz)], x) <==> Covers(now, x) {
      FreeInPush(es + mid, Alloc(b, Blksz), x);
    }
  }

  lemma BarrierMeans(es: seq<Ent>, mid: seq<Ent>, gen: nat, was: seq<Range>, rs: seq<Range>)
    requires Legal(es) && (forall x :: Covers(was, x) <==> FreeIn(es, x)) && OwnBlock(mid, was, rs)
    ensures Legal(es + mid + [Sync(gen)])
    ensures forall x :: FreeIn(es + mid + [Sync(gen)], x) <==> Covers(rs, x)
    ensures forall x :: FreeIn(es + mid, x) <==> Covers(rs, x)
    ensures forall i :: |es| <= i < |es + mid| ==> !(es + mid)[i].Sync?
  {
    hide Covers, Whole, Legal, FreeIn;
    PushMid(es, mid, was, rs);
    LegalPush(es + mid, Sync(gen));
    forall x ensures FreeIn(es + mid + [Sync(gen)], x) <==> Covers(rs, x) {
      FreeInPush(es + mid, Sync(gen), x);
    }
  }

  lemma GrownTail(bs: seq<LogBlk>, bs': seq<LogBlk>)
    requires |bs| == |bs'| > 0 && bs[..|bs| - 1] == bs'[..|bs| - 1] && bs[|bs| - 1].addr == bs'[|bs| - 1].addr
    ensures Grown(bs, bs', [])
  {
    hide EntsOf;
    forall i | 0 <= i < |bs| ensures bs'[i].addr == bs[i].addr && EntsOf(bs'[..i]) == EntsOf(bs[..i]) {
      assert bs[..i] == bs[..|bs| - 1][..i] && bs'[..i] == bs'[..|bs| - 1][..i];
      if i < |bs| - 1 { assert bs[i] == bs[..|bs| - 1][i] && bs'[i] == bs'[..|bs| - 1][i]; }
    }
  }

  lemma TakeHead<T>(c: seq<T>, d: seq<T>, i: nat)
    requires i <= |c|
    ensures (c + d)[..i] == c[..i]
  {
  }

  lemma GrownLink(c: seq<LogBlk>, tl: LogBlk, t: LogBlk, lb: LogBlk, mid: seq<Ent>)
    requires t.addr == tl.addr
    requires mid == [Alloc(lb.addr, Blksz)] && EntsOf(c + [t]) == EntsOf(c + [tl]) + mid
    ensures Grown(c + [tl], c + [t] + [lb], mid)
  {
    hide EntsOf;
    var bs, bs' := c + [tl], c + [t] + [lb];
    assert bs' == c + [t, lb];
    TakeHead(c + [t], [lb], |c| + 1);
    assert (c + [t])[..|c| + 1] == c + [t];
    forall i | 0 <= i < |bs| ensures bs'[i].addr == bs[i].addr && EntsOf(bs'[..i]) == EntsOf(bs[..i]) {
      TakeHead(c, [tl], i);
      TakeHead(c, [t, lb], i);
    }
  }

  /** Appending an entry keeps the log's blocks its own, and its entries in the arena. */
  lemma EntryKeeps(a: Arena, bs: seq<LogBlk>, bs': seq<LogBlk>, mid: seq<Ent>, e: Ent)
    requires Held(bs) && Grown(bs, bs', mid) && EntsOf(bs') == EntsOf(bs) + mid + [e]
    requires AllHere(a.start, a.size, EntsOf(bs)) && (e.Sync? || (a.Here(e.off) && a.Here(e.off + e.len - 1)))
    requires mid != [] ==> a.Here(mid[0].off) && a.Here(mid[0].off + Blksz - 1) && mid[0].len == Blksz
    requires forall x :: FreeIn(EntsOf(bs) + mid, x) <==> FreeIn(EntsOf(bs), x) && !Took(mid, x)
    requires forall i :: 0 <= i < |bs| ==> !FreeIn(EntsOf(bs), bs[i].addr)
    ensures AllHere(a.start, a.size, EntsOf(bs')) && Held(bs')
  {
    hide EntsOf, FreeIn, Held;
    HereGrow(a, EntsOf(bs), mid, e);
    hide AllHere;
    MidFree(bs, bs', mid);
    HeldGrow(bs, bs', mid, e);
  }

  lemma HereGrow(a: Arena, es: seq<Ent>, mid: seq<Ent>, e: Ent)
    requires AllHere(a.start, a.size, es) && |mid| <= 1 && (e.Sync? || (a.Here(e.off) && a.Here(e.off + e.len - 1)))
    requires mid != [] ==> !mid[0].Sync? && a.Here(mid[0].off) && a.Here(mid[0].off + Blksz - 1) && mid[0].len == Blksz
    ensures AllHere(a.start, a.size, es + mid + [e])
  {
  }

  lemma MidFree(bs: seq<LogBlk>, bs': seq<LogBlk>, mid: seq<Ent>)
    requires Grown(bs, bs', mid)
    requires forall x :: FreeIn(EntsOf(bs) + mid, x) <==> FreeIn(EntsOf(bs), x) && !Took(mid, x)
    requires forall i :: 0 <= i < |bs| ==> !FreeIn(EntsOf(bs), bs[i].addr)
    ensures forall i :: 0 <= i < |bs'| ==> !FreeIn(EntsOf(bs) + mid, bs'[i].addr)
  {
    hide EntsOf, FreeIn;
    forall i | 0 <= i < |bs'| ensures !FreeIn(EntsOf(bs) + mid, bs'[i].addr) {
      if i == |bs| {
        assert InBlock(mid[0].off, mid[0].off);
        assert Took(mid, bs'[i].addr);
      }
    }
  }

  lemma BlockEnt(o: int)
    requires o >= 0 && Whole(o, Blksz)
    ensures EntOk(Alloc(o, Blksz)) && EntOk(LogEnts.Free(o, Blksz)) && |Words(Alloc(o, Blksz))| == 1
  {
  }

  lemma WordsSmall(e: Ent)
    ensures |Words(e)| <= 2
  {
  }

  lemma LinkStep(disk: map<int, LogBlk>, hd: int, bs: seq<LogBlk>, tl: LogBlk, o: int, e: Ent)
    requires ChainOk(disk, hd, bs + [tl]) && EntOk(e) && EntOk(Alloc(o, Blksz))
    requires forall i :: 0 <= i < |bs + [tl]| ==> (bs + [tl])[i].addr != o
    ensures var t := LogBlk(tl.addr, tl.data + [o + LogAlloc1], o);
            var lb := LogBlk(o, Words(e), -1);
            && ChainOk(disk[o := lb][t.addr := t], hd, bs + [t] + [lb])
            && EntsOf(bs + [t]) == EntsOf(bs + [tl]) + [Alloc(o, Blksz)]
            && EntsOf(bs + [t] + [lb]) == EntsOf(bs + [tl]) + [Alloc(o, Blksz)] + [e]
  {
    hide ParseOk, Parse, ChainOk, EntsOf;
    var a := Alloc(o, Blksz);
    var u := tl.(data := tl.data + Words(a));
    var t := LogBlk(tl.addr, tl.data + [o + LogAlloc1], o);
    var lb := LogBlk(o, Words(e), -1);
    assert t == u.(next := o);
    ChainWrite(disk, hd, bs, tl, a);
    ParseWords(e);
    assert forall i :: 0 <= i < |bs + [u]| ==> (bs + [u])[i].addr == (bs + [tl])[i].addr;
    ChainLink(disk, hd, bs, u, o, lb);
    ChainParse(disk, hd, bs, u);
    EntsPush(bs, u);
    EntsPush(bs, t);
    ChainParse(disk[o := lb][t.addr := t], hd, bs + [t], lb);
    EntsPush(bs + [t], lb);
  }

  /** The log's own allocation: nothing, or one block that was free. */
  ghost predicate OwnBlock(mid: seq<Ent>, was: seq<Range>, rs: seq<Range>) {
    if mid == [] then rs == was
    else
      && |mid| == 1 && mid[0].Alloc? && mid[0].len == Blksz && EntOk(mid[0])
      && (forall x :: InBlock(mid[0].off, x) ==> Covers(was, x))
      && (forall x :: Covers(rs, x) <==> Covers(was, x) && !InBlock(mid[0].off, x))
  }

  lemma BigEnough(rs: seq<Range>, i: nat)
    requires Canon(rs) && i < |rs|
    ensures rs[i].len >= Blksz && Whole(rs[i].off, Blksz) && Whole(rs[i].off + rs[i].len - Blksz, Blksz)
  {
    assert Whole(rs[i].off, rs[i].len);
    Multiple(rs[i].off, rs[i].len);
  }

  lemma Multiple(off: int, len: int)
    requires Whole(off, len)
    ensures len >= Blksz && (off + len - Blksz) % Blksz == 0
  {
    var a, b := off / Blksz, len / Blksz;
    assert off == Blksz * a && len == Blksz * b;
    assert off + len - Blksz == Blksz * (a + b - 1);
  }

  lemma Lowest(rs: seq<Range>)
    requires Canon(rs) && rs != []
    ensures forall x :: Covers(rs, x) ==> rs[0].off <= x
  {
    forall i | 0 <= i < |rs| ensures rs[0].off <= rs[i].off {
      if i > 0 { assert End(rs[0]) < rs[i].off && Whole(rs[0].off, rs[0].len); }
    }
  }

  lemma Highest(rs: seq<Range>)
    requires Canon(rs) && rs != []
    ensures forall x :: Covers(rs, x) ==> x < End(rs[|rs| - 1])
  {
    forall i | 0 <= i < |rs| ensures End(rs[i]) <= End(rs[|rs| - 1]) {
      if i < |rs| - 1 { assert End(rs[i]) < rs[|rs| - 1].off && Whole(rs[|rs| - 1].off, rs[|rs| - 1].len); }
    }
  }
}
