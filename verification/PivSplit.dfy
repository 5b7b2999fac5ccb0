/** Splitting a pivot whose entry area is full (src/tree.c, splitpiv). */
module PivSplit {
  import opened Dat
  import opened Keys
  import opened Messages
  import opened Nodes
  import opened Splice
  import opened Blocks
  import opened BufMerge
  import opened LeafUpdate
  import opened PivUpdate

  /** What splitpiv has counted after n old entries; nb stands for what the flush left of child idx. */
  function Counted(kids: seq<Kid>, n: nat, idx: int, nb: nat): nat
    requires n <= |kids|
  {
    if n == 0 then 0 else Counted(kids, n - 1, idx, nb) + if n - 1 == idx then nb else KidSz(kids[n - 1])
  }

  /** The cut is at the first entry, with two on either side, where half of the old size has been counted. */
  ghost predicate IsCut(kids: seq<Kid>, idx: int, nb: nat, c: nat) {
    && 2 <= c <= |kids| - 2 && (c == |kids| - 2 || Counted(kids, c, idx, nb) >= KidsSz(kids) / 2)
    && forall x :: 2 <= x < c ==> Counted(kids, x, idx, nb) < KidsSz(kids) / 2
  }

  /** Half has not been counted before entry i. */
  ghost predicate Uncut(kids: seq<Kid>, idx: int, nb: nat, i: nat) {
    i <= |kids| && forall x :: 2 <= x < i ==> Counted(kids, x, idx, nb) < KidsSz(kids) / 2
  }

  lemma CutHere(kids: seq<Kid>, idx: int, nb: nat, i: nat)
    requires Uncut(kids, idx, nb, i) && 2 <= i <= |kids| - 2
    requires i == |kids| - 2 || Counted(kids, i, idx, nb) >= KidsSz(kids) / 2
    ensures IsCut(kids, idx, nb, i)
  {
    hide Counted, KidsSz;
  }

  lemma CountNext(kids: seq<Kid>, idx: int, nb: nat, i: nat)
    requires Uncut(kids, idx, nb, i) && i < |kids| && (i >= 2 ==> Counted(kids, i, idx, nb) < KidsSz(kids) / 2)
    ensures Uncut(kids, idx, nb, i + 1)
    ensures Counted(kids, i + 1, idx, nb) == Counted(kids, i, idx, nb) + if i == idx then nb else KidSz(kids[i])
  {
    hide KidsSz, KidSz;
  }

  /** The new entries for the old entries a .. b. */
  ghost function Part(kids: seq<Kid>, a: nat, b: nat, idx: int, r: seq<Kid>): seq<Kid>
    requires a <= b <= |kids|
  {
    if a <= idx < b then kids[a..idx] + r + kids[idx + 1..b] else kids[a..b]
  }

  /** Cutting the children at entry c cuts their keys at its pivot. */
  lemma CutKids(kids: seq<Kid>, h: nat, lo: real, hi: real, c: nat)
    requires KidsInv(kids, h, lo, hi) && 0 < c < |kids|
    ensures KidsInv(kids[..c], h, lo, Rank(kids[c].k))
    ensures KidsInv(kids[c..], h, Rank(kids[c].k), hi)
  {
    hide Inv, Rank;
    var x := Rank(kids[c].k);
    forall i: nat | i < c
      ensures KidInv(kids[..c], i, h, x)
    {
      assert KidInv(kids, i, h, hi);
    }
    forall i: nat | i < |kids| - c
      ensures KidInv(kids[c..], i, h, hi)
    {
      assert KidInv(kids, c + i, h, hi);
    }
  }

  lemma StartCut(kids: seq<Kid>, idx: int, nb: nat, r: seq<Kid>)
    ensures Uncut(kids, idx, nb, 0) && Counted(kids, 0, idx, nb) == 0 && Part(kids, 0, 0, idx, r) == []
  {
  }

  lemma PartNone(kids: seq<Kid>, c: nat, idx: int, r: seq<Kid>)
    requires c <= |kids|
    ensures Part(kids, c, c, idx, r) == []
  {
  }

  /** The parts of a spliced list, joined, are the spliced list. */
  lemma PartsJoin(kids: seq<Kid>, c: nat, idx: int, r: seq<Kid>)
    requires c <= |kids| && -1 <= idx < |kids|
    ensures Part(kids, 0, c, idx, r) + Part(kids, c, |kids|, idx, r)
            == if idx < 0 then kids else SpliceKids(kids, idx, r)
  {
    if idx < 0 {
      Cut(kids, 0, c);
    } else if idx < c {
      Cut(kids, idx + 1, c);
      Assoc(kids[0..idx], r, kids[idx + 1..c], kids[c..]);
    } else {
      Cut(kids[..idx], 0, c);
      Assoc(kids[..c], kids[c..idx], r, kids[idx + 1..]);
    }
  }

  lemma Cut<T>(s: seq<T>, a: nat, c: nat)
    requires a <= c <= |s|
    ensures s[a..c] + s[c..] == s[a..]
  {
  }

  lemma Assoc<T>(a: seq<T>, b: seq<T>, c: seq<T>, d: seq<T>)
    ensures a + b + c + d == a + b + (c + d) == a + (b + c + d)
  {
  }

  /** Two entries at least on either side. */
  lemma PartsTwo(kids: seq<Kid>, c: nat, idx: int, r: seq<Kid>)
    requires 2 <= c <= |kids| - 2 && (idx < 0 || r != [])
    ensures |Part(kids, 0, c, idx, r)| >= 2 && |Part(kids, c, |kids|, idx, r)| >= 2
  {
  }

  lemma PartIsSplice(kids: seq<Kid>, c: nat, idx: nat, r: seq<Kid>)
    requires c <= |kids| && idx < |kids|
    ensures idx < c ==> Part(kids, 0, c, idx, r) == SpliceKids(kids[..c], idx, r)
                        && Part(kids, c, |kids|, idx, r) == kids[c..]
    ensures idx >= c ==> Part(kids, 0, c, idx, r) == kids[..c]
                         && Part(kids, c, |kids|, idx, r) == SpliceKids(kids[c..], idx - c, r)
  {
  }

  /** Both halves keep the shape, whichever of them the flushed child is in. */
  lemma PartsInv(kids: seq<Kid>, h: nat, lo: real, hi: real, c: nat, idx: int, r: seq<Kid>)
    requires KidsInv(kids, h, lo, hi) && 0 < c < |kids| && -1 <= idx < |kids|
    requires idx >= 0 ==> KidsInv(r, h, ChildLo(kids, idx, lo), Upper(kids, idx, hi))
    ensures KidsInv(Part(kids, 0, c, idx, r), h, lo, Rank(kids[c].k))
    ensures KidsInv(Part(kids, c, |kids|, idx, r), h, Rank(kids[c].k), hi)
  {
    hide KidsInv, Rank, SpliceKids;
    CutKids(kids, h, lo, hi, c);
    if idx < 0 {
      assert Part(kids, 0, c, idx, r) == kids[..c] && Part(kids, c, |kids|, idx, r) == kids[c..];
    } else {
      PartIsSplice(kids, c, idx, r);
      hide Part;
      if idx < c {
        SpliceInv(kids[..c], h, lo, Rank(kids[c].k), idx, r);
      } else {
        SpliceInv(kids[c..], h, Rank(kids[c].k), hi, idx - c, r);
      }
    }
  }

  /** Children joined at x are looked up left of x in the first part and right of it in the second. */
  lemma JoinView(a: seq<Kid>, b: seq<Kid>, h: nat, lo: real, x: real, hi: real, k: Key)
    requires a != [] && KidsInv(a, h, lo, x) && KidsInv(b, h, x, hi) && lo <= x <= hi
    ensures KidsView(a + b, k) == if Rank(k) < x then KidsView(a, k) else KidsView(b, k)
  {
    hide Inv, View, Rank, KidsInv;
    JoinAscending(a, b, h, lo, x, hi);
    KeysIn(a, h, lo, x);
    KeysIn(b, h, x, hi);
    if Rank(k) < x {
      JoinLow(a, b, x, k);
    } else {
      JoinHigh(a, b, x, k);
      if Route(b, k) < 0 { LastOut(a, h, lo, x, k); }
    }
  }

  lemma KeysIn(a: seq<Kid>, h: nat, lo: real, hi: real)
    requires KidsInv(a, h, lo, hi)
    ensures forall i :: 0 <= i < |a| ==> lo <= Rank(a[i].k) < hi
  {
    hide Inv, Rank;
  }

  lemma JoinLow(a: seq<Kid>, b: seq<Kid>, x: real, k: Key)
    requires Ascending(a + b) && (forall i :: 0 <= i < |b| ==> x <= Rank(b[i].k)) && Rank(k) < x
    ensures Route(a + b, k) == Route(a, k)
  {
    hide Rank, IsRoute;
    RouteSpec(a, k);
    var s, j := a + b, Route(a, k);
    assert j >= 0 ==> s[j] == a[j];
    assert j + 1 < |s| ==> s[j + 1] == if j + 1 < |a| then a[j + 1] else b[0];
    RouteIs(s, k, j);
  }

  lemma JoinHigh(a: seq<Kid>, b: seq<Kid>, x: real, k: Key)
    requires a != [] && Ascending(a + b) && (forall i :: 0 <= i < |a| ==> Rank(a[i].k) < x) && x <= Rank(k)
    ensures Route(a + b, k) == |a| + Route(b, k)
  {
    hide Rank, IsRoute;
    RouteSpec(b, k);
    var s, j := a + b, Route(b, k);
    assert s[|a| + j] == if j >= 0 then b[j] else a[|a| - 1];
    assert |a| + j + 1 < |s| ==> s[|a| + j + 1] == b[j + 1];
    RouteIs(s, k, |a| + j);
  }

  lemma LastOut(a: seq<Kid>, h: nat, lo: real, x: real, k: Key)
    requires a != [] && KidsInv(a, h, lo, x) && x <= Rank(k)
    ensures View(a[|a| - 1].n, k) == Absent
  {
    hide Rank, View, Inv;
    assert KidInv(a, |a| - 1, h, x);
    Outside(a[|a| - 1].n, h, Rank(a[|a| - 1].k), x, k);
  }

  lemma JoinAscending(a: seq<Kid>, b: seq<Kid>, h: nat, lo: real, x: real, hi: real)
    requires KidsInv(a, h, lo, x) && KidsInv(b, h, x, hi)
    ensures Ascending(a + b)
  {
    hide Inv, Rank;
    var s := a + b;
    forall i, j | 0 <= i < j < |s|
      ensures Rank(s[i].k) < Rank(s[j].k)
    {
      assert s[i] == if i < |a| then a[i] else b[i - |a|];
      assert s[j] == if j < |a| then a[j] else b[j - |a|];
    }
  }

  /** The halves of a pivot, entered under their low keys, mean what the pivot meant. */
  lemma HalvesReplace(node: Node, h: nat, lo: real, x: real, hi: real,
                      sl: seq<Kid>, sr: seq<Kid>, bl: seq<Msg>, br: seq<Msg>)
    requires h > 1 && sl != [] && sr != [] && lo <= x <= hi
    requires KidsInv(sl, h - 1, lo, x) && KidsInv(sr, h - 1, x, hi)
    requires BufInv(bl, lo, x) && BufInv(br, x, hi) && BufFill(bl) <= Bufspc && BufFill(br) <= Bufspc
    ensures var e := Entries(Some(Pivot(sl, bl)), Some(Pivot(sr, br)));
            KidsInv(e, h, lo, hi) && (SameMeaning(sl + sr, bl + br, node) ==> Means(node, e, []))
  {
    hide KidsInv, KidsView, Play, Sel, BufInv, Rank, MsgsSz, LowKey, View;
    var l, r := Pivot(sl, bl), Pivot(sr, br);
    assert Inv(l, h, lo, x) && Inv(r, h, x, hi);
    TwoEntries(l, r, h, lo, x, hi);
    var e := [Kid(LowKey(l), l), Kid(LowKey(r), r)];
    assert Entries(Some(l), Some(r)) == e;
    if SameMeaning(sl + sr, bl + br, node) {
      forall k
        ensures KidsView(e, k) == Play(View(node, k), Sel([], k))
      {
        TwoEntriesView(l, r, h, lo, x, hi, k);
        JoinView(sl, sr, h - 1, lo, x, hi, k);
        HalfView(sl, bl, sr, br, lo, x, hi, KidsView(sl + sr, k), k);
        PlayNone(View(node, k), k);
      }
    }
  }

  lemma PlayNone(s: St, k: Key)
    ensures Play(s, Sel([], k)) == s
  {
  }

  /** Each message is in the half that owns its key. */
  lemma HalfView(sl: seq<Kid>, bl: seq<Msg>, sr: seq<Kid>, br: seq<Msg>, lo: real, x: real, hi: real, s: St, k: Key)
    requires BufInv(bl, lo, x) && BufInv(br, x, hi)
    requires s == if Rank(k) < x then KidsView(sl, k) else KidsView(sr, k)
    ensures Play(s, Sel(bl + br, k)) == if Rank(k) < x then View(Pivot(sl, bl), k) else View(Pivot(sr, br), k)
  {
    hide KidsView, Rank, MsgOk;
    SelConcat(bl, br, k);
    if Rank(k) < x {
      SelNone(br, k);
      assert Sel(bl, k) + [] == Sel(bl, k);
    } else {
      SelNone(bl, k);
      assert [] + Sel(br, k) == Sel(br, k);
    }
  }

  /** splitpiv: entries go left until half the size has been copied, at least two and at most all
      but two of them; messages follow the key of the first entry on the right. Nothing is pulled
      from above. */
  method SplitPiv(p: Path, pp: Path?, ghost h: nat, ghost lo: real, ghost hi: real) returns (ghost c: nat)
    requires pp != p && p.b.Some? && p.b.value.Pivot? && Inv(p.b.value, h, lo, hi)
    requires |p.b.value.kids| >= 4
    requires pp == null ==> p.lo == -1 && p.idx == -1
    requires pp != null ==> Flushed(p, pp, h, lo, hi) && p.idx == p.midx
    modifies p`op, p`nl, p`nr
    ensures p.op == POsplit && p.nl.Some? && p.nr.Some? && Wrote(p)
    ensures p.nl.value.Pivot? && p.nr.value.Pivot?
    ensures p.nl.value.kids + p.nr.value.kids == NewKids(p, pp)
    ensures p.nl.value.buf + p.nr.value.buf == KeptOf(p, pp)
    ensures var rr := if pp == null then [] else Entries(pp.nl, pp.nr);
            && IsCut(p.b.value.kids, p.idx, if pp == null then 0 else CopiedSz(pp.nl, pp.nr), c)
            && p.nl.value.kids == Part(p.b.value.kids, 0, c, p.idx, rr)
            && p.nr.value.kids == Part(p.b.value.kids, c, |p.b.value.kids|, p.idx, rr)
    ensures (pp != null && Entries(pp.nl, pp.nr) == []) || (|p.nl.value.kids| >= 2 && |p.nr.value.kids| >= 2)
    ensures KidsInv(Entries(p.nl, p.nr), h, lo, hi)
    ensures FlushedWell(p, pp) ==> Means(p.b.value, Entries(p.nl, p.nr), [])
  {
    hide Inv, KidsInv, KidsView, Play, Sel, BufInv, Rank, Means, Segment, MsgsSz, Survivors, KeyCmpBody,
         LowKey, View, Entries, KidSz, KidsSz, SameMeaning, SpliceKids, Kept, Part;
    ghost var node := p.b.value;
    NodeParts(node, h, lo, hi);
    var kids, buf, idx := p.b.value.kids, p.b.value.buf, p.idx;
    var a, np: nat := -1, 0;
    if pp != null {
      a, np := p.lo, pp.npull;
    }
    ghost var rr := if pp == null then [] else Entries(pp.nl, pp.nr);
    SplitPrep(p, pp, h, lo, hi);
    var l := new Blk(false);
    var r := new Blk(false);
    var mid;
    mid, c := SplitKids(l, r, kids, idx, pp);
    SplitBuf(l, r, buf, a, np, mid, lo, hi);
    PartsJoin(kids, c, idx, rr);
    if idx < 0 || rr != [] { PartsTwo(kids, c, idx, rr); }
    PivHalves(node, h, lo, hi, c, idx, rr, a, np, l.buf, r.buf);
    p.op := POsplit;
    p.nl := l.SetB();
    p.nr := r.SetB();
  }

  /** What the level below left, as values. */
  lemma SplitPrep(p: Path, pp: Path?, h: nat, lo: real, hi: real)
    requires p.b.Some? && p.b.value.Pivot? && Inv(p.b.value, h, lo, hi)
    requires pp == null ==> p.lo == -1 && p.idx == -1
    requires pp != null ==> Flushed(p, pp, h, lo, hi) && p.idx == p.midx
    ensures pp == null ==> NewKids(p, pp) == p.b.value.kids && KeptOf(p, pp) == Kept(p.b.value.buf, -1, 0)
                           && SameMeaning(p.b.value.kids, Kept(p.b.value.buf, -1, 0), p.b.value)
    ensures pp != null ==>
              && 0 <= p.idx < |p.b.value.kids| && 0 <= p.lo && p.lo + pp.npull <= |p.b.value.buf| && Wrote(pp)
              && var rr := Entries(pp.nl, pp.nr);
                && KidsInv(rr, h - 1, ChildLo(p.b.value.kids, p.idx, lo), Upper(p.b.value.kids, p.idx, hi))
                && NewKids(p, pp) == SpliceKids(p.b.value.kids, p.idx, rr)
                && KeptOf(p, pp) == Kept(p.b.value.buf, p.lo, pp.npull)
                && (FlushedWell(p, pp) ==>
                      SameMeaning(SpliceKids(p.b.value.kids, p.idx, rr), Kept(p.b.value.buf, p.lo, pp.npull),
                          p.b.value))
  {
    hide Inv, KidsInv, KidsView, Play, Sel, BufInv, Rank, Means, Segment, MsgsSz, LowKey, View, Entries, SameMeaning;
    FlushedKids(p, pp, h, lo, hi);
  }

  lemma MidIn(kids: seq<Kid>, h: nat, lo: real, hi: real, c: nat)
    requires KidsInv(kids, h, lo, hi) && c < |kids|
    ensures lo <= Rank(kids[c].k) < hi
  {
  }

  lemma SplitFill(buf: seq<Msg>, a: int, np: nat, bl: seq<Msg>, br: seq<Msg>)
    requires a < 0 || a + np <= |buf|
    requires bl + br == Kept(buf, a, np)
    ensures MsgsSz(bl) <= MsgsSz(buf) && MsgsSz(br) <= MsgsSz(buf)
  {
    hide MsgsSz;
    MsgsSzConcat(bl, br);
    if a >= 0 { KeptSize(buf, a, np); }
  }

  /** The halves SplitKids and SplitBuf build replace the pivot. */
  lemma PivHalves(node: Node, h: nat, lo: real, hi: real, c: nat, idx: int, r: seq<Kid>, a: int, np: nat,
                  bl: seq<Msg>, br: seq<Msg>)
    requires node.Pivot? && Inv(node, h, lo, hi) && 2 <= c <= |node.kids| - 2 && -1 <= idx < |node.kids|
    requires idx >= 0 ==> KidsInv(r, h - 1, ChildLo(node.kids, idx, lo), Upper(node.kids, idx, hi))
    requires a < 0 || a + np <= |node.buf|
    requires bl + br == Kept(node.buf, a, np)
    requires BufInv(bl, lo, Rank(node.kids[c].k)) && BufInv(br, Rank(node.kids[c].k), hi)
    ensures var sl, sr := Part(node.kids, 0, c, idx, r), Part(node.kids, c, |node.kids|, idx, r);
            && sl != [] && sr != []
            && KidsInv(Entries(Some(Pivot(sl, bl)), Some(Pivot(sr, br))), h, lo, hi)
    ensures var sl, sr := Part(node.kids, 0, c, idx, r), Part(node.kids, c, |node.kids|, idx, r);
            var s := if idx < 0 then node.kids else SpliceKids(node.kids, idx, r);
            SameMeaning(s, Kept(node.buf, a, np), node)
            ==> Means(node, Entries(Some(Pivot(sl, bl)), Some(Pivot(sr, br))), [])
  {
    hide Inv, KidsInv, KidsView, Play, Sel, BufInv, Rank, Means, MsgsSz, View, Entries, SpliceKids, Kept, SameMeaning;
    var kids := node.kids;
    NodeParts(node, h, lo, hi);
    PartsInv(kids, h - 1, lo, hi, c, idx, r);
    PartsJoin(kids, c, idx, r);
    SplitFill(node.buf, a, np, bl, br);
    MidIn(kids, h - 1, lo, hi, c);
    HalvesReplace(node, h, lo, Rank(kids[c].k), hi, Part(kids, 0, c, idx, r), Part(kids, c, |kids|, idx, r), bl, br);
  }

  /** The entry loop: c is the old index of the first entry on the right, mid its key. */
  method SplitKids(l: Blk, r: Blk, kids: seq<Kid>, idx: int, pp: Path?) returns (mid: Key, ghost c: nat)
    requires l != r && !l.leaf && !r.leaf && l.kids == [] && r.kids == []
    requires |kids| >= 4 && -1 <= idx < |kids| && (pp == null <==> idx == -1) && (pp != null ==> Wrote(pp))
    modifies l`kids, r`kids
    ensures IsCut(kids, idx, if pp == null then 0 else CopiedSz(pp.nl, pp.nr), c) && mid == kids[c].k
    ensures var rr := if pp == null then [] else Entries(pp.nl, pp.nr);
            l.kids == Part(kids, 0, c, idx, rr) && r.kids == Part(kids, c, |kids|, idx, rr)
  {
    hide Entries, KidSz, KidsSz, CopiedSz, Counted, IsCut, Uncut, Part;
    ghost var nb := if pp == null then 0 else CopiedSz(pp.nl, pp.nr);
    ghost var rr := if pp == null then [] else Entries(pp.nl, pp.nr);
    StartCut(kids, idx, nb, rr);
    var i := 0;
    var copied := 0;
    var halfsz := KidsSz(kids) / 2;
    var d := l;
    mid, c := [], |kids|;
    while i < |kids|
      invariant 0 <= i <= |kids|
      invariant d == l ==> copied == Counted(kids, i, idx, nb) && Uncut(kids, idx, nb, i)
      invariant d != l ==> IsCut(kids, idx, nb, c)
      invariant d == l ==> i <= |kids| - 2 && l.kids == Part(kids, 0, i, idx, rr) && r.kids == []
      invariant d != l ==> d == r && 2 <= c <= |kids| - 2 && c <= i && mid == kids[c].k
      invariant d != l ==> l.kids == Part(kids, 0, c, idx, rr) && r.kids == Part(kids, c, i, idx, rr)
    {
      if d == l && (i == |kids| - 2 || (i >= 2 && copied >= halfsz)) {
        CutHere(kids, idx, nb, i);
        d := r;
        mid, c := kids[i].k, i;
        PartNone(kids, c, idx, rr);
      }
      if d == l { CountNext(kids, idx, nb, i); }
      ghost var a := if d == l then 0 else c;
      PartNext(kids, a, i, idx, rr);
      if i == idx {
        var nbytes := CopyUp(d, pp);
        copied := copied + nbytes;
      } else {
        d.SetPtr(kids[i].k, kids[i].n);
        copied := copied + KidSz(kids[i]);
      }
      i := i + 1;
    }
  }

  lemma PartNext(kids: seq<Kid>, a: nat, i: nat, idx: int, r: seq<Kid>)
    requires a <= i < |kids|
    ensures Part(kids, a, i + 1, idx, r) == Part(kids, a, i, idx, r) + if i == idx then r else [kids[i]]
  {
    if i == idx {
      assert kids[i + 1..i + 1] == [] && kids[a..i] + r + [] == kids[a..i] + r;
    } else if a <= idx < i {
      Push(kids, idx + 1, i);
      Assoc([], kids[a..idx] + r, kids[idx + 1..i], [kids[i]]);
      assert [] + (kids[a..idx] + r) == kids[a..idx] + r;
    } else {
      Push(kids, a, i);
    }
  }

  lemma Push<T>(s: seq<T>, a: nat, i: nat)
    requires a <= i < |s|
    ensures s[a..i + 1] == s[a..i] + [s[i]]
  {
  }

  /** The message loop: from the first message at or above mid on, messages go right. */
  method SplitBuf(l: Blk, r: Blk, buf: seq<Msg>, a: int, np: nat, mid: Key, ghost lo: real, ghost hi: real)
    requires l != r && !l.leaf && !r.leaf && l.buf == [] && r.buf == []
    requires a < 0 || a + np <= |buf|
    requires BufInv(buf, lo, hi)
    modifies l`buf, r`buf
    ensures l.buf + r.buf == Kept(buf, a, np)
    ensures BufInv(l.buf, lo, Rank(mid)) && BufInv(r.buf, Rank(mid), hi)
  {
    hide Rank, MsgOk, Kept, KeyCmpBody, BufInv;
    ghost var kept := Kept(buf, a, np);
    KeptSorted(buf, a, np, lo, hi);
    var i := 0;
    var d := l;
    while i < |buf|
      invariant 0 <= i <= |buf| && 0 <= KeptAt(i, a, np) <= |kept| && (a < 0 || i <= a || i >= a + np)
      invariant d == l ==> r.buf == [] && l.buf == kept[..KeptAt(i, a, np)]
      invariant d != l ==> d == r && r.buf != [] && l.buf + r.buf == kept[..KeptAt(i, a, np)]
      invariant forall x :: 0 <= x < |l.buf| ==> Rank(l.buf[x].k) < Rank(mid)
      invariant r.buf != [] ==> Rank(mid) <= Rank(r.buf[0].k)
    {
      if i == a {
        i := i + np;
      }
      if i == |buf| {
        break;
      }
      KeptNext(buf, a, np, i);
      OneMore(kept, KeptAt(i, a, np), l.buf, r.buf);
      if d == l && KeyCmp(buf[i].k, mid) >= 0 {
        d := r;
      }
      d.SetMsg(buf[i]);
      i := i + 1;
    }
    CutBuf(kept, l.buf, r.buf, mid, lo, hi);
  }

  lemma OneMore(s: seq<Msg>, w: nat, l: seq<Msg>, r: seq<Msg>)
    requires w < |s| && l + r == s[..w]
    ensures l + (r + [s[w]]) == s[..w + 1] && (r == [] ==> l + [s[w]] == s[..w + 1])
  {
    assert s[..w + 1] == s[..w] + [s[w]];
  }

  lemma CutBuf(kept: seq<Msg>, bl: seq<Msg>, br: seq<Msg>, mid: Key, lo: real, hi: real)
    requires BufInv(kept, lo, hi) && kept == bl + br
    requires forall x :: 0 <= x < |bl| ==> Rank(bl[x].k) < Rank(mid)
    requires br != [] ==> Rank(mid) <= Rank(br[0].k)
    ensures BufInv(bl, lo, Rank(mid)) && BufInv(br, Rank(mid), hi)
  {
    hide Rank, MsgOk;
    forall i, j | 0 <= i <= j < |bl|
      ensures MsgOk(bl[i]) && lo <= Rank(bl[i].k) <= Rank(bl[j].k)
    {
      assert bl[i] == kept[i] && bl[j] == kept[j];
    }
    forall i, j | 0 <= i <= j < |br|
      ensures MsgOk(br[i]) && Rank(mid) <= Rank(br[i].k) <= Rank(br[j].k) < hi
    {
      assert br[0] == kept[|bl|] && br[i] == kept[|bl| + i] && br[j] == kept[|bl| + j];
    }
  }
}
