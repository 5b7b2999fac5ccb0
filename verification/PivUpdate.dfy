/** Rebuilding a pivot: its new child entries and a stable merge of its surviving messages with a
    pulled prefix of the segment above (src/tree.c, copyup and updatepiv). */
module PivUpdate {
  import opened Dat
  import opened Keys
  import opened Messages
  import opened Nodes
  import opened Splice
  import opened Blocks
  import opened BufMerge
  import opened LeafUpdate

  ghost predicate Wrote(pp: Path)
    reads pp`nl, pp`nr
  {
    && (pp.nl.Some? ==> (if pp.nl.value.Leaf? then pp.nl.value.vals != [] else pp.nl.value.kids != []))
    && (pp.nr.Some? ==> (if pp.nr.value.Leaf? then pp.nr.value.vals != [] else pp.nr.value.kids != []))
  }

  /** The size of a node's first value, or of the entry of its first child, under its low key. */
  function FirstSz(n: Node): nat
    requires if n.Leaf? then n.vals != [] else n.kids != []
  {
    if n.Leaf? then ValSz(Kvp(LowKey(n), n.vals[0].v)) else KidSz(Kid(LowKey(n), n.kids[0].n))
  }

  function CopiedSz(nl: Option<Node>, nr: Option<Node>): nat
    requires nl.Some? ==> (if nl.value.Leaf? then nl.value.vals != [] else nl.value.kids != [])
    requires nr.Some? ==> (if nr.value.Leaf? then nr.value.vals != [] else nr.value.kids != [])
  {
    (if nl.Some? then FirstSz(nl.value) else 0) + if nr.Some? then FirstSz(nr.value) else 0
  }

  /** copyup: the entries of the nodes a flush left below. A node cleared out leaves none. nbytes counts the
      first values of the nodes, not the pointers written. */
  method CopyUp(n: Blk, pp: Path) returns (nbytes: nat)
    requires !n.leaf && Wrote(pp)
    modifies n`kids
    ensures n.kids == old(n.kids) + Entries(pp.nl, pp.nr)
    ensures nbytes == CopiedSz(pp.nl, pp.nr)
  {
    hide LowKey;
    nbytes := 0;
    if pp.nl.Some? {
      var k := LowKey(pp.nl.value);
      n.SetPtr(k, pp.nl.value);
      nbytes := nbytes + FirstSz(pp.nl.value);
    }
    if pp.nr.Some? {
      var k := LowKey(pp.nr.value);
      n.SetPtr(k, pp.nr.value);
      nbytes := nbytes + FirstSz(pp.nr.value);
    }
  }

  /** What is left of a buffer when np messages from a on have gone down; a is -1 when none have. */
  function Kept(buf: seq<Msg>, a: int, np: nat): (r: seq<Msg>)
    requires a < 0 || a + np <= |buf|
    ensures |r| == if a < 0 then |buf| else |buf| - np
  {
    if a < 0 then buf else Survivors(buf, a, np)
  }

  /** The position in Kept of position i in the buffer. */
  function KeptAt(i: nat, a: int, np: nat): int {
    if a < 0 || i <= a then i else i - np
  }

  lemma KeptNext(buf: seq<Msg>, a: int, np: nat, i: nat)
    requires a < 0 || a + np <= |buf|
    requires i < |buf| && (a < 0 || i < a || i >= a + np) && (i == a ==> np == 0)
    ensures 0 <= KeptAt(i, a, np) < |Kept(buf, a, np)|
    ensures Kept(buf, a, np)[KeptAt(i, a, np)] == buf[i] && KeptAt(i + 1, a, np) == KeptAt(i, a, np) + 1
  {
  }

  lemma KeptSorted(buf: seq<Msg>, a: int, np: nat, lo: real, hi: real)
    requires a < 0 || a + np <= |buf|
    requires BufInv(buf, lo, hi)
    ensures BufInv(Kept(buf, a, np), lo, hi)
  {
    hide Rank, MsgOk;
    var r := Kept(buf, a, np);
    assert forall x :: 0 <= x < |r| ==> r[x] == buf[if a < 0 || x < a then x else x + np];
  }

  lemma KeptSize(buf: seq<Msg>, a: nat, np: nat)
    requires a + np <= |buf|
    ensures MsgsSz(Kept(buf, a, np)) + MsgsSz(buf[a..a + np]) == MsgsSz(buf)
  {
    hide MsgsSz;
    assert buf[a..] == buf[a..a + np] + buf[a + np..];
    MsgsSzPrefix(buf, a);
    MsgsSzConcat(buf[a..a + np], buf[a + np..]);
    MsgsSzConcat(buf[..a], buf[a + np..]);
  }

  /** The size of the last message taken. */
  function LastSz(ms: seq<Msg>, j: nat): nat
    requires j <= |ms|
  {
    if j == 0 then 0 else MsgSz(ms[j - 1])
  }

  /** Taking stops only at the end, or when the next message does not fit beside the last one
      counted twice: the caution of updatepiv's check against spc - sz. */
  ghost predicate StopsLate(ms: seq<Msg>, j: nat, spc: int)
    requires j <= |ms|
  {
    j < |ms| ==> MsgsSz(ms[..j]) + MsgSz(ms[j]) + LastSz(ms, j) > spc
  }

  /** The buffer loop of updatepiv: survivors first on equal keys, offered messages while they fit. */
  method MergeBuf(buf: seq<Msg>, a: int, np: nat, ms: seq<Msg>, spc0: int, n: Blk, ghost lo: real, ghost hi: real)
    returns (j: nat, pullsz: nat)
    requires a < 0 || a + np <= |buf|
    requires BufInv(buf, lo, hi) && BufInv(ms, lo, hi) && !n.leaf && n.buf == []
    modifies n`buf
    ensures j <= |ms| && pullsz == MsgsSz(ms[..j])
    ensures IsMerge(n.buf, Kept(buf, a, np), ms[..j]) && BufInv(n.buf, lo, hi)
    ensures MsgsSz(n.buf) == MsgsSz(Kept(buf, a, np)) + pullsz
    ensures j > 0 ==> pullsz <= spc0
    ensures StopsLate(ms, j, spc0)
  {
    hide MergeState, BufInv, MsgsSz, Rank, MsgSz, KeyCmpBody, Kept, IsMerge;
    ghost var kept := Kept(buf, a, np);
    KeptSorted(buf, a, np, lo, hi);
    j, pullsz := 0, 0;
    var i: nat, sz: nat := 0, 0;
    var full := false;
    var spc := spc0;
    var u: Option<Msg> := None;
    var c;
    MergeBegin(kept, ms, lo, hi);
    MsgsSzNone(ms);
    while i < |buf|
      invariant i <= |buf| && j <= |ms| && 0 <= KeptAt(i, a, np) <= |kept| && (a < 0 || i <= a || i >= a + np)
      invariant MergeState(n.buf, kept, KeptAt(i, a, np), ms, j, full, lo, hi)
      invariant pullsz == MsgsSz(ms[..j]) && spc == spc0 - pullsz && (j > 0 ==> spc >= 0)
      invariant sz == LastSz(ms, j) && (full ==> j < |ms| && MsgSz(ms[j]) + sz > spc)
      decreases |buf| - i + |ms| - j
    {
      if i == a {
        i := i + np;
      }
      if i == |buf| {
        break;
      }
      ghost var w := KeptAt(i, a, np);
      KeptNext(buf, a, np, i);
      ghost var full0 := full;
      c, u, full := PullMsg(ms, j, Some(buf[i].k), u, full, spc - sz);
      if c < 1 {
        KeepOne(n.buf, kept, w, ms, j, full0, full, lo, hi);
        n.SetMsg(buf[i]);
        i := i + 1;
      } else {
        j, pullsz, sz, spc, u, full := TakeRun(kept, w, ms, j, pullsz, spc, n, lo, hi);
      }
    }
    while j < |ms|
      invariant j <= |ms|
      invariant MergeState(n.buf, kept, |kept|, ms, j, full, lo, hi)
      invariant pullsz == MsgsSz(ms[..j]) && spc == spc0 - pullsz && (j > 0 ==> spc >= 0)
      invariant sz == LastSz(ms, j) && (full ==> j < |ms| && MsgSz(ms[j]) + sz > spc)
    {
      ghost var full0 := full;
      c, u, full := PullMsg(ms, j, None, u, full, spc);
      StateFull(n.buf, kept, |kept|, ms, j, full0, full, lo, hi);
      if full {
        break;
      }
      TakeOne(n.buf, kept, |kept|, ms, j, lo, hi);
      n.SetMsg(u.value);
      sz := MsgSz(u.value);
      pullsz := pullsz + sz;
      spc := spc - sz;
      j := j + 1;
    }
    MergeEnd(n.buf, kept, ms, j, full, lo, hi);
  }

  lemma MsgsSzNone(ms: seq<Msg>)
    ensures MsgsSz(ms[..0]) == 0
  {
  }

  /** The offered messages of one key, while they fit; the first one does. */
  method TakeRun(ghost kept: seq<Msg>, ghost w: nat, ms: seq<Msg>, j0: nat, pullsz0: nat, spc0: int, n: Blk,
                 ghost lo: real, ghost hi: real)
    returns (j: nat, pullsz: nat, sz: nat, spc: int, u: Option<Msg>, full: bool)
    requires w < |kept| && j0 < |ms| && !n.leaf && MergeState(n.buf, kept, w, ms, j0, false, lo, hi)
    requires pullsz0 == MsgsSz(ms[..j0])
    requires MsgSz(ms[j0]) <= spc0 && Rank(ms[j0].k) < Rank(kept[w].k)
    modifies n`buf
    ensures j0 < j <= |ms| && MergeState(n.buf, kept, w, ms, j, full, lo, hi)
    ensures pullsz == MsgsSz(ms[..j]) && spc == spc0 + pullsz0 - pullsz && spc >= 0
    ensures sz == LastSz(ms, j) && (full ==> j < |ms| && MsgSz(ms[j]) + sz > spc)
  {
    hide MergeState, MsgsSz, Rank, MsgSz, KeyCmpBody;
    var k := ms[j0].k;
    var c;
    j, pullsz, sz, spc, full := j0, pullsz0, 0, spc0, false;
    c, u, full := PullMsg(ms, j, Some(k), None, full, spc);
    while c == 0
      invariant j0 <= j <= |ms| && (j == j0 ==> c == 0)
      invariant MergeState(n.buf, kept, w, ms, j, false, lo, hi)
      invariant pullsz == MsgsSz(ms[..j]) && spc == spc0 + pullsz0 - pullsz && spc >= 0
      invariant sz == if j == j0 then 0 else MsgSz(ms[j - 1])
      invariant full ==> j < |ms| && MsgSz(ms[j]) > spc
      invariant c == 0 ==> j < |ms| && !full && ms[j].k == k && u == Some(ms[j]) && MsgSz(ms[j]) <= spc
      decreases |ms| - j
    {
      TakeOne(n.buf, kept, w, ms, j, lo, hi);
      n.SetMsg(u.value);
      sz := MsgSz(u.value);
      pullsz := pullsz + sz;
      spc := spc - sz;
      j := j + 1;
      c, u, full := PullMsg(ms, j, Some(k), u, full, spc);
    }
    StateFull(n.buf, kept, w, ms, j, false, full, lo, hi);
  }

  /** Messages whose loss no lookup would notice. */
  ghost predicate Harmless(ms: seq<Msg>) {
    forall k :: Play(Absent, Sel(ms, k)) == Absent
  }

  /** What the flush of a lower level pp left for a pivot: the run p.lo .. p.hi of its buffer was
      offered to child midx, and pp's nodes replace that child with a prefix of the run pulled. */
  ghost predicate Flushed(p: Path, pp: Path, h: nat, lo: real, hi: real)
    reads p`b, p`lo, p`hi, p`midx, pp
  {
    && p.b.Some? && p.b.value.Pivot? && p.hi >= p.lo >= 0 && p.midx >= 0 && h >= 1
    && var kids, buf := p.b.value.kids, p.b.value.buf;
      && p.midx < |kids| && p.hi <= |buf| && Segment(kids, buf, p.midx, p.lo, p.hi)
      && p.lo + pp.npull <= p.hi && Wrote(pp)
      && pp.pullsz <= MsgsSz(buf[p.lo..p.lo + pp.npull])
      && KidsInv(Entries(pp.nl, pp.nr), h - 1, ChildLo(kids, p.midx, lo), Upper(kids, p.midx, hi))
  }

  /** The lower level kept the meaning of the child. */
  ghost predicate FlushedWell(p: Path, pp: Path?)
    reads p`b, p`midx, p`lo, pp
    requires p.b.Some? && p.b.value.Pivot?
    requires pp != null ==> Wrote(pp) && 0 <= p.midx < |p.b.value.kids|
    requires pp != null ==> 0 <= p.lo <= p.lo + pp.npull <= |p.b.value.buf|
  {
    pp != null ==>
      Means(p.b.value.kids[p.midx].n, Entries(pp.nl, pp.nr), p.b.value.buf[p.lo..p.lo + pp.npull])
  }

  /** The entries of a pivot after the flush below it. */
  ghost function NewKids(p: Path, pp: Path?): seq<Kid>
    reads p`b, p`midx, pp
    requires p.b.Some? && p.b.value.Pivot?
    requires pp != null ==> Wrote(pp) && 0 <= p.midx < |p.b.value.kids|
  {
    if pp == null then p.b.value.kids else SpliceKids(p.b.value.kids, p.midx, Entries(pp.nl, pp.nr))
  }

  ghost function KeptOf(p: Path, pp: Path?): seq<Msg>
    reads p`b, p`lo, pp
    requires p.b.Some? && p.b.value.Pivot?
    requires pp != null ==> 0 <= p.lo <= p.lo + pp.npull <= |p.b.value.buf|
  {
    if pp == null then p.b.value.buf else Survivors(p.b.value.buf, p.lo, pp.npull)
  }

  lemma FlushedKids(p: Path, pp: Path?, h: nat, lo: real, hi: real)
    requires p.b.Some? && p.b.value.Pivot? && Inv(p.b.value, h, lo, hi)
    requires pp != null ==> Flushed(p, pp, h, lo, hi)
    ensures KidsInv(NewKids(p, pp), h - 1, lo, hi)
    ensures FlushedWell(p, pp) ==> SameMeaning(NewKids(p, pp), KeptOf(p, pp), p.b.value)
  {
    hide KidsInv, KidsView, Play, Sel, BufInv, Rank, Means, Segment, MsgsSz, SpliceKids, Survivors;
    var kids, buf := p.b.value.kids, p.b.value.buf;
    if pp != null {
      var r := Entries(pp.nl, pp.nr);
      SpliceInv(kids, h - 1, lo, hi, p.midx, r);
      if FlushedWell(p, pp) {
        PullDown(kids, buf, h - 1, lo, hi, p.midx, p.lo, p.hi, pp.npull, r);
      }
    }
  }

  /** One key of the rebuilt pivot. */
  lemma MergedView(s: seq<Kid>, kept: seq<Msg>, out: seq<Msg>, pulled: seq<Msg>, st: St, k: Key)
    requires IsMerge(out, kept, pulled)
    requires Play(KidsView(s, k), Sel(kept, k)) == st
    ensures Play(KidsView(s, k), Sel(out, k)) == Play(st, Sel(pulled, k))
  {
    hide KidsView, Play, Sel, SortedMsgs;
    PlayConcat(KidsView(s, k), Sel(kept, k), Sel(pulled, k));
  }

  /** The rebuilt pivot replaces the old one with the offered prefix applied. */
  lemma PivReplaced(node: Node, h: nat, lo: real, hi: real, s: seq<Kid>, kept: seq<Msg>, out: seq<Msg>,
                    pulled: seq<Msg>)
    requires h > 1 && s != [] && KidsInv(s, h - 1, lo, hi)
    requires IsMerge(out, kept, pulled) && BufInv(out, lo, hi) && BufFill(out) <= Bufspc
    ensures KidsInv([Kid(LowKey(Pivot(s, out)), Pivot(s, out))], h, lo, hi)
    ensures SameMeaning(s, kept, node) ==> Means(node, [Kid(LowKey(Pivot(s, out)), Pivot(s, out))], pulled)
  {
    hide KidsInv, KidsView, Play, Sel, BufInv, Rank, IsMerge, MsgsSz, LowKey;
    var n := Pivot(s, out);
    assert Inv(n, h, lo, hi);
    OneEntry(n, h, lo, hi);
    var e := [Kid(LowKey(n), n)];
    if SameMeaning(s, kept, node) {
      forall k
        ensures KidsView(e, k) == Play(View(node, k), Sel(pulled, k))
      {
        MergedView(s, kept, out, pulled, View(node, k), k);
        OneEntryView(n, h, lo, hi, k);
      }
    }
  }

  /** A pivot left without children is dropped with its buffer: that is right exactly when neither
      what it kept nor what it pulled has an effect. */
  lemma PivEmptied(node: Node, kept: seq<Msg>, pulled: seq<Msg>)
    requires SameMeaning([], kept, node)
    ensures Means(node, [], pulled) <==> Harmless(kept + pulled)
  {
    hide Play, Sel, Rank, View, Inv;
    forall k
      ensures Play(Absent, Sel(kept + pulled, k)) == Play(View(node, k), Sel(pulled, k)) && KidsView([], k) == Absent
    {
      assert KidsView([], k) == Absent;
      assert Play(KidsView([], k), Sel(kept, k)) == View(node, k);
      SelConcat(kept, pulled, k);
      PlayConcat(Absent, Sel(kept, k), Sel(pulled, k));
    }
  }

  /** Whether dropping the messages would be noticed: only their own keys have to be tried. */
  predicate Loses(ms: seq<Msg>) {
    exists i :: 0 <= i < |ms| && Play(Absent, Sel(ms, ms[i].k)) != Absent
  }

  lemma LosesIs(ms: seq<Msg>)
    ensures Loses(ms) <==> !Harmless(ms)
  {
    hide Play, Sel;
    if !Harmless(ms) {
      var k :| Play(Absent, Sel(ms, k)) != Absent;
      if forall i :: 0 <= i < |ms| ==> ms[i].k != k {
        SelNone(ms, k);
        PlayNothing();
      }
    }
  }

  lemma PlayNothing()
    ensures Play(Absent, []) == Absent
  {
  }

  lemma HarmlessMerge(out: seq<Msg>, a: seq<Msg>, b: seq<Msg>)
    requires IsMerge(out, a, b)
    ensures Harmless(out) <==> Harmless(a + b)
  {
    hide Play, Sel, SortedMsgs;
    forall k ensures Sel(out, k) == Sel(a + b, k) {
      SelConcat(a, b, k);
    }
  }

  /** The new child list: copyup in place of the flushed child. */
  method CopyKids(n: Blk, kids: seq<Kid>, midx: int, pp: Path?)
    requires !n.leaf && n.kids == [] && (pp != null ==> Wrote(pp) && 0 <= midx < |kids|)
    modifies n`kids
    ensures n.kids == if pp == null then kids else SpliceKids(kids, midx, Entries(pp.nl, pp.nr))
  {
    hide Entries;
    var i := 0;
    ghost var r := if pp == null then [] else Entries(pp.nl, pp.nr);
    while i < |kids|
      invariant 0 <= i <= |kids|
      invariant n.kids == if pp == null || i <= midx then kids[..i] else kids[..midx] + r + kids[midx + 1..i]
    {
      if pp != null && i == midx {
        var nbytes := CopyUp(n, pp);
      } else {
        n.SetPtr(kids[i].k, kids[i].n);
      }
      i := i + 1;
    }
  }

  /** updatepiv: the flush below (pp, none at the bottom of the path) is taken over, and as many
      messages from above as fit are merged in. dropped is the buffer of a pivot that lost its
      last child: it is thrown away although its messages count as pulled. */
  method UpdatePiv(up: Path, p: Path, pp: Path?, ghost h: nat, ghost lo: real, ghost hi: real)
    returns (dropped: seq<Msg>)
    requires up != p && pp != p && up.Offers() && p.b.Some? && p.b.value.Pivot? && Inv(p.b.value, h, lo, hi)
    requires pp == null ==> p.lo == -1
    requires pp != null ==> Flushed(p, pp, h, lo, hi)
    requires BufInv(up.Offer(), lo, hi)
    requires p.pullsz == 0 && p.nr == None
    modifies p`npull, p`op, p`nl, p`pullsz
    ensures p.op == POmod && p.npull <= up.hi - up.lo && p.pullsz == MsgsSz(up.Offer()[..p.npull])
    ensures StopsLate(up.Offer(), p.npull,
                      Bufspc - BufFill(p.b.value.buf) + if pp == null then 0 else pp.pullsz)
    ensures NewKids(p, pp) != [] ==>
              && dropped == [] && p.nl.Some? && p.nl.value.Pivot?
              && p.nl.value.kids == NewKids(p, pp) && BufFill(p.nl.value.buf) <= Bufspc
              && IsMerge(p.nl.value.buf, KeptOf(p, pp), up.Offer()[..p.npull])
              && MsgsSz(p.nl.value.buf) == MsgsSz(KeptOf(p, pp)) + MsgsSz(up.Offer()[..p.npull])
    ensures NewKids(p, pp) == [] ==> p.nl == None && IsMerge(dropped, KeptOf(p, pp), up.Offer()[..p.npull])
    ensures Wrote(p) && KidsInv(Entries(p.nl, None), h, lo, hi)
    ensures FlushedWell(p, pp) ==>
              (Means(p.b.value, Entries(p.nl, None), up.Offer()[..p.npull])
               <==> NewKids(p, pp) != [] || Harmless(KeptOf(p, pp) + up.Offer()[..p.npull]))
  {
    hide Inv, KidsInv, KidsView, Play, Sel, BufInv, Rank, Means, Segment, MsgsSz, SpliceKids, Survivors,
         IsMerge, LowKey, View, Harmless, Entries, SameMeaning, StopsLate;
    FlushedKids(p, pp, h, lo, hi);
    var kids, buf, ms := p.b.value.kids, p.b.value.buf, up.Offer();
    ghost var node := p.b.value;
    ghost var kept := KeptOf(p, pp);
    ghost var s := NewKids(p, pp);
    var n := new Blk(false);
    CopyKids(n, kids, p.midx, pp);
    var spc := Bufspc - BufFill(buf);
    var a, np: nat := -1, 0;
    if pp != null {
      spc := spc + pp.pullsz;
      a, np := p.lo, pp.npull;
      KeptSize(buf, a, np);
    }
    NodeParts(node, h, lo, hi);
    assert Kept(buf, a, np) == kept;
    var j, pullsz := MergeBuf(buf, a, np, ms, spc, n, lo, hi);
    MsgsSzNone(ms);
    p.npull := j;
    p.pullsz := p.pullsz + pullsz;
    p.op := POmod;
    p.nl := n.SetB();
    assert up.Offer() == ms;
    dropped := if n.kids == [] then n.buf else [];
    if s == [] {
      NoEntries(h, lo, hi);
      if SameMeaning([], kept, node) { PivEmptied(node, kept, ms[..j]); }
    } else {
      PivReplaced(node, h, lo, hi, s, kept, n.buf, ms[..j]);
      OneEntryIs(p.nl.value);
    }
  }

  lemma NodeParts(n: Node, h: nat, lo: real, hi: real)
    requires Inv(n, h, lo, hi) && n.Pivot?
    ensures BufInv(n.buf, lo, hi) && BufFill(n.buf) <= Bufspc && h > 1 && KidsInv(n.kids, h - 1, lo, hi)
    ensures n.kids != []
  {
  }

  lemma NoEntries(h: nat, lo: real, hi: real)
    ensures Entries(None, None) == [] && KidsInv([], h, lo, hi)
  {
  }

  lemma OneEntryIs(n: Node)
    requires if n.Leaf? then n.vals != [] else n.kids != []
    ensures Entries(Some(n), None) == [Kid(LowKey(n), n)]
  {
  }

  lemma HarmlessNone()
    ensures Harmless([])
  {
  }
}
