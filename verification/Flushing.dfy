/** One flush along a path of blocks, from the bottom up (src/tree.c, flush). */
module Flushing {
  import opened Dat
  import opened Keys
  import opened Messages
  import opened Nodes
  import opened Splice
  import opened Blocks
  import opened BufMerge
  import opened LeafMerge
  import opened LeafUpdate
  import opened LeafSplit
  import opened PivUpdate
  import opened PivSplit

  /** No key aborts the program when the messages are applied to the subtree. */
  ghost predicate NoBad(n: Node, ms: seq<Msg>) {
    forall k :: Play(View(n, k), Sel(ms, k)) != Bad
  }

  // ----- the path -----

  /** A node of the path and what the level above offers it. */
  ghost predicate NodeAt(up: Path, p: Path, h: nat, lo: real, hi: real)
    reads up`ins, up`b, up`lo, up`hi, up`sz, p`b, p`ins
  {
    && p.ins == None && p.b.Some? && Inv(p.b.value, h, lo, hi)
    && up.Offers() && BufInv(up.Offer(), lo, hi) && NoBad(p.b.value, up.Offer())
    && MsgsSz(up.Offer()) <= up.sz
  }

  /** A pivot of the path, its victim and the run it offers, and the victim's range. */
  ghost predicate LinkNode(p: Path, child: Node, lo: real, hi: real, lo': real, hi': real)
    reads p`b, p`idx, p`midx, p`lo, p`hi
  {
    && p.b.Some? && p.b.value.Pivot? && p.idx >= 0 && p.midx == p.idx && p.hi >= p.lo >= 0
    && Segment(p.b.value.kids, p.b.value.buf, p.idx, p.lo, p.hi)
    && child == p.b.value.kids[p.idx].n
    && lo' == ChildLo(p.b.value.kids, p.idx, lo) && hi' == Upper(p.b.value.kids, p.idx, hi)
  }

  ghost predicate LinkAt(p: Path, q: Path, lo: real, hi: real, lo': real, hi': real)
    reads p`b, p`idx, p`midx, p`lo, p`hi, q`b
  {
    q.b.Some? && LinkNode(p, q.b.value, lo, hi, lo', hi')
  }

  /** The bottom of the path: no victim. */
  ghost predicate Bottom(p: Path)
    reads p`idx, p`midx, p`lo
  {
    p.lo == -1 && p.idx == -1 && p.midx == -1
  }

  /** A level calloc has just made, as far as its results go. */
  ghost predicate Untouched(p: Path)
    reads p`npull, p`pullsz, p`nl, p`nr
  {
    p.npull == 0 && p.pullsz == 0 && p.nl == None && p.nr == None
  }

  /** A level the flush has finished: its nodes have the right shape for the range, and it says
      how much of the offer it took. */
  ghost predicate LevelDone(p: Path, up: Path, h: nat, lo: real, hi: real)
    reads p`b, p`npull, p`pullsz, p`nl, p`nr, up`ins, up`b, up`lo, up`hi
  {
    && up.Offers() && p.b.Some? && Wrote(p) && p.npull <= |up.Offer()|
    && p.pullsz <= MsgsSz(up.Offer()[..p.npull])
    && KidsInv(Entries(p.nl, p.nr), h, lo, hi)
  }

  /** Its nodes mean the old node with what it took applied. */
  ghost predicate LevelWell(p: Path, up: Path)
    reads p`b, p`npull, p`nl, p`nr, up`ins, up`b, up`lo, up`hi
  {
    && up.Offers() && p.b.Some? && Wrote(p) && p.npull <= |up.Offer()|
    && Means(p.b.value, Entries(p.nl, p.nr), up.Offer()[..p.npull])
  }

  /** A leaf cut at half its size, with all the messages that fit. */
  ghost predicate Halved(vals: seq<Kvp>, ms: seq<Msg>, sz: nat, np: nat, l: seq<Kvp>, r: seq<Kvp>) {
    && PullsOn(vals, ms, np, Leafspc - (HalfOf(vals, sz) + Msgmax))
    && exists c: nat, js :: SplitAt(vals, l, r, c) && CutAtHalf(vals, ms, np, js, c, HalfOf(vals, sz))
  }

  /** A pivot cut at half its size. */
  ghost predicate HalvedPiv(kids: seq<Kid>, idx: int, nb: nat, rr: seq<Kid>, l: seq<Kid>, r: seq<Kid>) {
    exists c: nat :: IsCut(kids, idx, nb, c) && l == Part(kids, 0, c, idx, rr) && r == Part(kids, c, |kids|, idx, rr)
  }

  lemma PivHalved(kids: seq<Kid>, idx: int, nb: nat, rr: seq<Kid>, l: seq<Kid>, r: seq<Kid>, c: nat)
    requires IsCut(kids, idx, nb, c) && l == Part(kids, 0, c, idx, rr) && r == Part(kids, c, |kids|, idx, rr)
    ensures HalvedPiv(kids, idx, nb, rr, l, r)
  {
    hide IsCut, Part;
  }

  /** What becomes of a leaf: with room for its segment it takes all of it and stays one block, and
      otherwise it is cut in two and a part of its segment is applied. */
  ghost predicate LeafOut(p: Path, up: Path)
    reads p`b, p`npull, p`pullsz, p`nl, p`nr, up`ins, up`b, up`lo, up`hi, up`sz
  {
    && LevelWell(p, up) && p.b.value.Leaf? && p.pullsz == PullSz(p.b.value.vals, up.Offer()[..p.npull])
    && (p.nl.Some? ==> p.nl.value.Leaf?) && (p.nr.Some? ==> p.nr.value.Leaf?)
    && var vals, l, r := p.b.value.vals, ValsOf(p.nl), ValsOf(p.nr);
      && LeafMerged(vals, up.Offer()[..p.npull], l + r)
      && (if FilledLeaf(vals, up.sz) then
            (exists c :: SplitAt(vals, l, r, c)) && Halved(vals, up.Offer(), up.sz, p.npull, l, r)
          else p.nr == None && p.npull == |up.Offer()|)
  }

  /** What becomes of a pivot, pp being the level below: with room for an entry it is rebuilt and
      pulls as much as fits, otherwise it is split and pulls nothing. */
  ghost predicate PivOut(p: Path, up: Path, pp: Path?)
    reads p`b, p`idx, p`midx, p`lo, p`npull, p`pullsz, p`nl, p`nr, up`ins, up`b, up`lo, up`hi, pp
  {
    && Wrote(p) && up.Offers() && p.npull <= |up.Offer()| && p.b.Some? && p.b.value.Pivot?
    && (pp != null ==> Wrote(pp) && 0 <= p.midx < |p.b.value.kids| && 0 <= p.lo <= p.lo + pp.npull <= |p.b.value.buf|)
    && (if FilledPiv(p.b.value.kids, 1) then IsSplit(p, pp) else IsRebuilt(p, up, pp))
  }

  ghost predicate IsRebuilt(p: Path, up: Path, pp: Path?)
    reads p`b, p`midx, p`lo, p`npull, p`pullsz, p`nl, p`nr, up`ins, up`b, up`lo, up`hi, pp
    requires up.Offers() && p.npull <= |up.Offer()| && p.b.Some? && p.b.value.Pivot?
    requires pp != null ==> Wrote(pp) && 0 <= p.midx < |p.b.value.kids|
    requires pp != null ==> 0 <= p.lo <= p.lo + pp.npull <= |p.b.value.buf|
  {
    && p.nr == None && p.pullsz == MsgsSz(up.Offer()[..p.npull])
    && StopsLate(up.Offer(), p.npull, Bufspc - BufFill(p.b.value.buf) + if pp == null then 0 else pp.pullsz)
    && (p.nl.Some? <==> NewKids(p, pp) != [])
    && (p.nl.Some? ==>
          && p.nl.value.Pivot? && p.nl.value.kids == NewKids(p, pp)
          && IsMerge(p.nl.value.buf, KeptOf(p, pp), up.Offer()[..p.npull])
          && MsgsSz(p.nl.value.buf) == MsgsSz(KeptOf(p, pp)) + MsgsSz(up.Offer()[..p.npull]))
  }

  ghost predicate IsSplit(p: Path, pp: Path?)
    reads p`b, p`idx, p`midx, p`lo, p`npull, p`pullsz, p`nl, p`nr, pp
    requires p.b.Some? && p.b.value.Pivot?
    requires pp != null ==> Wrote(pp) && 0 <= p.midx < |p.b.value.kids|
    requires pp != null ==> 0 <= p.lo <= p.lo + pp.npull <= |p.b.value.buf|
  {
    && p.npull == 0 && p.pullsz == 0 && p.nl.Some? && p.nr.Some? && p.nl.value.Pivot? && p.nr.value.Pivot?
    && p.nl.value.kids + p.nr.value.kids == NewKids(p, pp)
    && p.nl.value.buf + p.nr.value.buf == KeptOf(p, pp)
    && HalvedPiv(p.b.value.kids, p.idx, if pp == null then 0 else CopiedSz(pp.nl, pp.nr),
                 if pp == null then [] else Entries(pp.nl, pp.nr), p.nl.value.kids, p.nr.value.kids)
    && ((pp != null && Entries(pp.nl, pp.nr) == []) || (|p.nl.value.kids| >= 2 && |p.nr.value.kids| >= 2))
  }

  /** A pivot that is given back for want of children, with messages that have an effect. */
  ghost predicate Drops(p: Path, up: Path, pp: Path?)
    reads p`b, p`midx, p`lo, p`npull, up`ins, up`b, up`lo, up`hi, pp
  {
    && up.Offers() && p.npull <= |up.Offer()| && p.b.Some? && p.b.value.Pivot?
    && (pp != null ==> Wrote(pp) && 0 <= p.midx < |p.b.value.kids| && 0 <= p.lo <= p.lo + pp.npull <= |p.b.value.buf|)
    && NewKids(p, pp) == [] && !Harmless(KeptOf(p, pp) + up.Offer()[..p.npull])
  }

  lemma DoneIsFlushed(p: Path, pp: Path, h: nat, lo: real, hi: real, lo': real, hi': real)
    requires p.ins == None && h > 0 && LinkAt(p, pp, lo, hi, lo', hi') && LevelDone(pp, p, h - 1, lo', hi')
    ensures Flushed(p, pp, h, lo, hi)
    ensures LevelWell(pp, p) ==> FlushedWell(p, pp)
  {
    hide KidsInv, Means, MsgsSz, Rank, Entries;
    var buf := p.b.value.buf;
    SegmentBounds(p.b.value.kids, buf, p.idx, p.lo, p.hi);
    assert p.Offer() == buf[p.lo..p.hi];
    assert p.Offer()[..pp.npull] == buf[p.lo..p.lo + pp.npull];
  }

  lemma SegmentBounds(kids: seq<Kid>, buf: seq<Msg>, i: nat, a: nat, b: nat)
    requires Segment(kids, buf, i, a, b)
    ensures i < |kids| && a <= b <= |buf|
  {
  }

  /** A pivot with a full entry area has entries to split. */
  lemma {:induction false} KidsSzBound(kids: seq<Kid>)
    requires forall i :: 0 <= i < |kids| ==> KeyOk(kids[i].k)
    ensures KidsSz(kids) <= 288 * |kids|
  {
    if kids != [] { KidsSzBound(kids[..|kids| - 1]); }
  }

  lemma {:induction false} KvpsSzBound(vals: seq<Kvp>)
    requires forall i :: 0 <= i < |vals| ==> KvpOk(vals[i])
    ensures KvpsSz(vals) <= (6 + Kvmax) * |vals|
  {
    if vals != [] { KvpsSzBound(vals[..|vals| - 1]); }
  }

  lemma FullPivot(n: Node, h: nat, lo: real, hi: real)
    requires n.Pivot? && Inv(n, h, lo, hi) && FilledPiv(n.kids, 1)
    ensures |n.kids| >= 4
  {
    hide KidsSz;
    KidsSzBound(n.kids);
  }

  /** Largest segment with which a full leaf surely has four values. */
  const SafeSz := Leafspc - 2 - 3 * (6 + Kvmax)

  lemma FullLeaf(n: Node, h: nat, lo: real, hi: real, sz: nat)
    requires n.Leaf? && Inv(n, h, lo, hi) && FilledLeaf(n.vals, sz) && sz <= SafeSz
    ensures |n.vals| >= 4
  {
    hide KvpsSz;
    KvpsSzBound(n.vals);
  }

  // ----- the levels -----

  lemma LeafReady(n: Node, h: nat, lo: real, hi: real, ms: seq<Msg>)
    requires n.Leaf? && Inv(n, h, lo, hi) && BufInv(ms, lo, hi) && NoBad(n, ms)
    ensures h == 1 && n.vals != [] && SortedVals(n.vals) && Mergeable(n.vals, ms, lo, hi)
  {
    hide Rank, KvpOk, MsgOk, Play, Sel, Find;
    forall k
      ensures Play(Find(n.vals, k), Sel(ms, k)) != Bad
    {
      assert View(n, k) == Find(n.vals, k);
    }
  }

  /** The bottom of the path when it is a leaf; the source asserts four values before a split. */
  method FlushLeaf(up: Path, p: Path, ghost h: nat, ghost lo: real, ghost hi: real)
    returns (updated: bool, aborted: bool)
    requires up != p && NodeAt(up, p, h, lo, hi) && p.b.value.Leaf? && Untouched(p)
    modifies p`npull, p`op, p`nl, p`nr, p`pullsz
    ensures aborted <==> FilledLeaf(p.b.value.vals, up.sz) && |p.b.value.vals| < 4
    ensures !aborted ==> LevelDone(p, up, h, lo, hi) && LeafOut(p, up)
    ensures !aborted ==> (updated <==> !FilledLeaf(p.b.value.vals, up.sz))
    ensures updated ==> p.nr == None && !aborted
    ensures !updated && !aborted ==> p.op == POsplit
  {
    hide Inv, BufInv, NoBad, Mergeable, MsgsSz, Rank, Means, KidsInv, Entries, KvpsSz, LeafMerged, SplitAt, CutAtHalf,
         PullsOn, PullSz, HalfOf;
    aborted, updated := false, false;
    LeafReady(p.b.value, h, lo, hi, up.Offer());
    var ms := up.Offer();
    if !FilledLeaf(p.b.value.vals, up.sz) {
      UpdateLeaf(up, p, lo, hi);
      assert up.Offer() == ms && ms[..p.npull] == ms;
      updated := true;
      assert ValsOf(p.nl) + ValsOf(p.nr) == ValsOf(p.nl);
    } else if |p.b.value.vals| < 4 {
      aborted := true;
    } else {
      ghost var c, js := SplitLeaf(up, p, lo, hi);
      assert up.Offer() == ms;
    }
  }

  /** A pivot with room for another entry; dropped says that it was given back for want of children
      with messages that have an effect. */
  method RebuildPiv(up: Path, p: Path, pp: Path?, ghost h: nat, ghost lo: real, ghost hi: real)
    returns (dropped: bool)
    requires up != p && pp != p && NodeAt(up, p, h, lo, hi) && p.b.value.Pivot? && Untouched(p)
    requires pp == null ==> Bottom(p)
    requires pp != null ==> Flushed(p, pp, h, lo, hi)
    requires !FilledPiv(p.b.value.kids, 1)
    modifies p`npull, p`op, p`nl, p`pullsz
    ensures LevelDone(p, up, h, lo, hi) && PivOut(p, up, pp)
    ensures dropped <==> Drops(p, up, pp)
    ensures FlushedWell(p, pp) ==> (dropped <==> !LevelWell(p, up))
  {
    hide Inv, BufInv, NoBad, MsgsSz, Rank, Means, KidsInv, Entries, KidsSz, Flushed, FlushedWell, KeptOf, IsMerge,
         Harmless, Loses, StopsLate, NewKids, FilledPiv;
    FlushedParts(p, pp, h, lo, hi);
    var lost := UpdatePiv(up, p, pp, h, lo, hi);
    dropped := Loses(lost);
    LosesIs(lost);
    if NewKids(p, pp) == [] {
      HarmlessMerge(lost, KeptOf(p, pp), up.Offer()[..p.npull]);
    } else {
      HarmlessNone();
    }
  }

  /** A pivot of the path: rebuilt when an entry more would fit, split when not. */
  method FlushPivot(up: Path, p: Path, pp: Path?, ghost h: nat, ghost lo: real, ghost hi: real)
    returns (updated: bool, dropped: bool)
    requires up != p && pp != p && NodeAt(up, p, h, lo, hi) && p.b.value.Pivot? && Untouched(p)
    requires pp == null ==> Bottom(p)
    requires pp != null ==> Flushed(p, pp, h, lo, hi) && p.idx == p.midx
    modifies p`npull, p`op, p`nl, p`nr, p`pullsz
    ensures LevelDone(p, up, h, lo, hi) && PivOut(p, up, pp) && (dropped <==> Drops(p, up, pp))
    ensures FlushedWell(p, pp) ==> (dropped <==> !LevelWell(p, up))
    ensures updated ==> p.nr == None
    ensures !updated ==> p.nl.Some? && p.nr.Some?
  {
    hide Inv, BufInv, NoBad, MsgsSz, Rank, Means, KidsInv, Entries, KidsSz, Flushed, FlushedWell, KeptOf, IsMerge,
         Harmless, Loses, StopsLate, NewKids, HalvedPiv, IsCut, Part, CopiedSz;
    var ms := up.Offer();
    MsgsSzNone(ms);
    FlushedParts(p, pp, h, lo, hi);
    if !FilledPiv(p.b.value.kids, 1) {
      dropped := RebuildPiv(up, p, pp, h, lo, hi);
      updated := true;
    } else {
      FullPivot(p.b.value, h, lo, hi);
      ghost var c := SplitPiv(p, pp, h, lo, hi);
      PivHalved(p.b.value.kids, p.idx, if pp == null then 0 else CopiedSz(pp.nl, pp.nr),
                if pp == null then [] else Entries(pp.nl, pp.nr), p.nl.value.kids, p.nr.value.kids, c);
      updated, dropped := false, false;
      assert ms[..0] == [];
    }
    assert up.Offer() == ms;
  }

  lemma FlushedParts(p: Path, pp: Path?, h: nat, lo: real, hi: real)
    requires pp != null ==> Flushed(p, pp, h, lo, hi)
    ensures pp != null ==>
              && p.b.Some? && p.b.value.Pivot? && Wrote(pp) && 0 <= p.midx < |p.b.value.kids|
              && 0 <= p.lo <= p.lo + pp.npull <= |p.b.value.buf|
  {
    hide KidsInv, MsgsSz, Rank, Entries;
  }

  // ----- the flush -----

  ghost predicate ChainAt(path: seq<Path>, h: nat, los: seq<real>, his: seq<real>, i: nat)
    requires 1 <= i < |path| <= h + 1 && |los| == |his| == |path|
    reads path`ins, path`b, path`idx, path`midx, path`lo, path`hi, path`sz
  {
    && NodeAt(path[i - 1], path[i], h + 1 - i, los[i], his[i])
    && (i > 1 ==> path[i - 1].sz <= Bufspc)
    && (if i + 1 < |path| then LinkAt(path[i], path[i + 1], los[i], his[i], los[i + 1], his[i + 1])
        else Bottom(path[i]))
  }

  /** path[0] holds the batch, path[1] the root, and each later block is the victim of the one
      before; los and his are the key ranges of the blocks. */
  ghost predicate Chain(path: seq<Path>, h: nat, los: seq<real>, his: seq<real>)
    reads path`ins, path`b, path`idx, path`midx, path`lo, path`hi, path`sz
  {
    && 2 <= |path| <= h + 1 && |los| == |his| == |path|
    && (forall i, j :: 0 <= i < j < |path| ==> path[i] != path[j])
    && (forall i: nat {:trigger ChainAt(path, h, los, his, i)} :: 1 <= i < |path| ==> ChainAt(path, h, los, his, i))
  }

  /** What became of level t. */
  ghost predicate OutAt(path: seq<Path>, t: nat)
    requires 1 <= t < |path|
    reads path[t], path[t - 1..t]`ins, path[t - 1..t]`b, path[t - 1..t]`lo, path[t - 1..t]`hi, path[t - 1..t]`sz
    reads if t + 1 < |path| then {path[t + 1]} else {}
  {
    if t + 1 == |path| && path[t].b.Some? && path[t].b.value.Leaf? then LeafOut(path[t], path[t - 1])
    else PivOut(path[t], path[t - 1], if t + 1 < |path| then path[t + 1] else null)
  }

  /** Level t means what it meant with what it took applied. */
  ghost predicate WellAt(path: seq<Path>, t: nat)
    requires 1 <= t < |path|
    reads path[t..t + 1]`b, path[t..t + 1]`npull, path[t..t + 1]`nl, path[t..t + 1]`nr
    reads path[t - 1..t]`ins, path[t - 1..t]`b, path[t - 1..t]`lo, path[t - 1..t]`hi
  {
    LevelWell(path[t], path[t - 1])
  }

  /** Level t is a pivot given back with messages that have an effect. */
  ghost predicate DropsAt(path: seq<Path>, t: nat)
    requires 1 <= t < |path|
    reads path[t], path[t - 1..t]`ins, path[t - 1..t]`b, path[t - 1..t]`lo, path[t - 1..t]`hi
    reads if t + 1 < |path| then {path[t + 1]} else {}
  {
    Drops(path[t], path[t - 1], if t + 1 < |path| then path[t + 1] else null)
  }

  lemma InTail(path: seq<Path>, t: nat, s: nat)
    requires t < s < |path|
    ensures path[s] == path[t + 1..][s - t - 1] && path[s - 1] == path[t..][s - 1 - t]
    ensures s + 1 < |path| ==> path[s + 1] == path[t + 1..][s - t]
  {
  }

  /** What became of the levels below t. */
  ghost predicate AllOut(path: seq<Path>, t: nat)
    requires t < |path|
    reads path[t + 1..], path[t..]`ins, path[t..]`b, path[t..]`lo, path[t..]`hi, path[t..]`sz
  {
    forall s: nat {:trigger OutAt(path, s)} :: t < s < |path| ==>
      (InTail(path, t, s); OutAt(path, s))
  }

  ghost predicate SomeDrops(path: seq<Path>, t: nat)
    requires t < |path|
    reads path[t + 1..], path[t..]`ins, path[t..]`b, path[t..]`lo, path[t..]`hi, path[t..]`sz
  {
    exists s: nat {:trigger DropsAt(path, s)} :: t < s < |path| && (InTail(path, t, s); DropsAt(path, s))
  }

  ghost predicate SomeIll(path: seq<Path>, t: nat)
    requires t < |path|
    reads path[t + 1..], path[t..]`ins, path[t..]`b, path[t..]`lo, path[t..]`hi, path[t..]`sz
  {
    exists s: nat {:trigger WellAt(path, s)} :: t < s < |path| && (InTail(path, t, s); !WellAt(path, s))
  }

  /** The levels below t are done. dropped says that one of them was given back with messages that have
      an effect, and equally that one of them lost its meaning. */
  ghost predicate LevelsDone(path: seq<Path>, t: nat, dropped: bool)
    requires t < |path|
    reads path[t + 1..], path[t..]`ins, path[t..]`b, path[t..]`lo, path[t..]`hi, path[t..]`sz
  {
    AllOut(path, t) && (dropped <==> SomeDrops(path, t)) && (dropped <==> SomeIll(path, t))
  }

  lemma MoreDone(path: seq<Path>, t: nat, dropped: bool, lost: bool)
    requires 0 < t < |path| && LevelsDone(path, t, dropped) && OutAt(path, t)
    requires (t + 1 < |path| ==> WellAt(path, t + 1)) ==> (lost <==> !WellAt(path, t))
    requires lost <==> DropsAt(path, t)
    ensures LevelsDone(path, t - 1, dropped || lost)
  {
    hide OutAt, WellAt, DropsAt;
    if lost {
      assert DropsAt(path, t);
      if !dropped { assert !WellAt(path, t); }
    }
  }

  lemma NoneDone(path: seq<Path>)
    requires path != []
    ensures LevelsDone(path, |path| - 1, false)
  {
  }

  /** The bottom of the path, when it is a leaf. */
  method FlushBottom(path: seq<Path>, p: Path, ghost h: nat, ghost los: seq<real>, ghost his: seq<real>)
    returns (updated: bool, aborted: bool)
    requires Chain(path, h, los, his) && p == path[|path| - 1] && Untouched(p)
    requires p.b.Some? && p.b.value.Leaf?
    modifies p`npull, p`op, p`nl, p`nr, p`pullsz
    ensures Chain(path, h, los, his)
    ensures aborted ==> path[0].sz > SafeSz
    ensures aborted <==> |path| == 2 && FewValues(path[1], path[0].sz)
    ensures !aborted ==> LevelDone(p, path[|path| - 2], h + 2 - |path|, los[|path| - 1], his[|path| - 1])
    ensures !aborted ==> OutAt(path, |path| - 1) && WellAt(path, |path| - 1) && !DropsAt(path, |path| - 1)
    ensures !aborted ==> (updated <==> !FilledLeaf(p.b.value.vals, path[|path| - 2].sz))
    ensures !aborted && updated ==> p.nr == None
  {
    hide NodeAt, Inv, BufInv, NoBad, MsgsSz, Rank, Means, KidsInv, Entries, KidsSz, KvpsSz,
         LevelDone, LevelWell, LinkAt, SafeSz, ChainAt, FilledLeaf;
    var t := |path| - 1;
    BottomAt(path, h, los, his);
    updated, aborted := FlushLeaf(path[t - 1], p, h + 1 - t, los[t], his[t]);
  }

  /** A pivot of the path, with the level below done. */
  method FlushLevel(path: seq<Path>, t: nat, p: Path, pp: Path?, ghost h: nat, ghost los: seq<real>,
                    ghost his: seq<real>)
    returns (updated: bool, dropped: bool)
    requires Chain(path, h, los, his) && 0 < t < |path| && p == path[t] && Untouched(p)
    requires pp == null ==> t == |path| - 1 && p.b.Some? && p.b.value.Pivot?
    requires pp != null ==> t < |path| - 1 && pp == path[t + 1] && LevelDone(pp, p, h - t, los[t + 1], his[t + 1])
    modifies p`npull, p`op, p`nl, p`nr, p`pullsz
    ensures Chain(path, h, los, his)
    ensures LevelDone(p, path[t - 1], h + 1 - t, los[t], his[t]) && OutAt(path, t)
    ensures dropped <==> DropsAt(path, t)
    ensures (pp != null ==> WellAt(path, t + 1)) ==> (dropped <==> !WellAt(path, t))
    ensures if updated then p.nr == None else p.nl.Some? && p.nr.Some?
  {
    hide NodeAt, Inv, BufInv, NoBad, MsgsSz, Rank, Means, KidsInv, Entries, KidsSz, KvpsSz, Flushed, FlushedWell,
         LevelDone, LevelWell, LinkAt, SafeSz, ChainAt, LeafOut, PivOut, NewKids, Drops;
    LevelReady(path, h, los, his, t, pp);
    updated, dropped := FlushPivot(path[t - 1], p, pp, h + 1 - t, los[t], his[t]);
  }

  /** The flush with the levels below t done, pp being the last of them and rp the last that stayed
      one block. */
  ghost predicate FlushState(path: seq<Path>, h: nat, los: seq<real>, his: seq<real>, t: nat, pp: Path?, rp: int,
                             dropped: bool)
    reads path
  {
    && Chain(path, h, los, his) && t < |path| && (rp == -1 || t < rp)
    && (forall i :: 0 <= i <= t ==> Untouched(path[i]))
    && LevelsDone(path, t, dropped)
    && (if t + 1 == |path| then pp == null && rp == -1 && !dropped && path[t].b.Some? && path[t].b.value.Pivot?
        else pp == path[t + 1] && LevelDone(path[t + 1], path[t], h - t, los[t + 1], his[t + 1]))
    && (t + 1 < |path| ==>
          if rp == t + 1 then path[t + 1].nr == None && !(t + 2 == |path| && SplitLeafAt(path, t + 1))
          else BothLeft(path[t + 1]) || (rp == -1 && t + 2 == |path| && SplitLeafAt(path, t + 1)))
  }

  /** A leaf without room for its segment. */
  predicate SplitLeafAt(path: seq<Path>, t: nat)
    requires 1 <= t < |path|
    reads path[t..t + 1]`b, path[t - 1..t]`sz
  {
    path[t].b.Some? && path[t].b.value.Leaf? && FilledLeaf(path[t].b.value.vals, path[t - 1].sz)
  }

  /** A leaf without room for its segment and with too few values to be split. */
  predicate FewValues(p: Path, sz: nat)
    reads p`b
  {
    p.b.Some? && p.b.value.Leaf? && FilledLeaf(p.b.value.vals, sz) && |p.b.value.vals| < 4
  }

  /** What becomes the root: a new one over two halves, or what is left of the old one; nothing after the
      split of a root leaf of which one half is empty. */
  function RootOf(path: seq<Path>): Option<Node>
    requires |path| >= 2 && Wrote(path[1])
    reads path[1], path[0..1]`sz
  {
    if path[1].nl.Some? && path[1].nr.Some? then Some(Pivot(Entries(path[1].nl, path[1].nr), []))
    else if |path| == 2 && SplitLeafAt(path, 1) then None
    else path[1].nl
  }

  predicate BothLeft(p: Path)
    reads p`nl, p`nr
  {
    p.nl.Some? && p.nr.Some?
  }

  /** The bottom of the path, and one level more if it is a leaf. */
  method FlushFirst(path: seq<Path>, ghost h: nat, ghost los: seq<real>, ghost his: seq<real>)
    returns (t: nat, pp: Path?, rp: int, aborted: bool)
    requires Chain(path, h, los, his) && forall i :: 0 <= i < |path| ==> Untouched(path[i])
    modifies path[|path| - 1..]`npull, path[|path| - 1..]`op, path[|path| - 1..]`nl, path[|path| - 1..]`nr
    modifies path[|path| - 1..]`pullsz
    ensures aborted ==> path[0].sz > SafeSz
    ensures aborted <==> |path| == 2 && FewValues(path[1], path[0].sz)
    ensures !aborted ==> FlushState(path, h, los, his, t, pp, rp, false)
  {
    hide NodeAt, Inv, BufInv, NoBad, MsgsSz, Rank, Means, KidsInv, Entries, KidsSz, KvpsSz, Flushed, FlushedWell,
         LevelDone, LevelWell, LinkAt, SafeSz, ChainAt, OutAt, WellAt, LevelsDone, LeafOut, PivOut, DropsAt, FilledLeaf;
    rp, aborted := -1, false;
    t := |path| - 1;
    pp := null;
    NoneDone(path);
    BottomAt(path, h, los, his);
    if path[t].b.value.Leaf? {
      var updated;
      updated, aborted := FlushBottom(path, path[t], h, los, his);
      if !aborted {
        if updated {
          rp := t;
        }
        pp := path[t];
        MoreDone(path, t, false, false);
        t := t - 1;
      }
    }
  }

  /** The next level up. */
  method FlushNext(path: seq<Path>, t0: nat, p: Path, pp: Path?, rp0: int, dropped0: bool,
                   ghost h: nat, ghost los: seq<real>, ghost his: seq<real>)
    returns (rp: int, dropped: bool)
    requires t0 > 0 && FlushState(path, h, los, his, t0, pp, rp0, dropped0) && p == path[t0]
    modifies p`npull, p`op, p`nl, p`nr, p`pullsz
    ensures FlushState(path, h, los, his, t0 - 1, p, rp, dropped)
  {
    hide NodeAt, Inv, BufInv, NoBad, MsgsSz, Rank, Means, KidsInv, Entries, KidsSz, KvpsSz, Flushed, FlushedWell,
         LevelDone, LevelWell, LinkAt, SafeSz, ChainAt, OutAt, WellAt, LevelsDone, LeafOut, PivOut,
         DropsAt;
    var updated, lost := FlushLevel(path, t0, p, pp, h, los, his);
    MoreDone(path, t0, dropped0, lost);
    rp, dropped := if updated then t0 else rp0, dropped0 || lost;
  }

  /** flush: from the bottom of the path to the root. rp is the level whose left node is the new
      root, or -1 where the source is left with a nil pointer. aborted is the source's failed
      assertion in splitleaf; dropped says that some pivot was given back for want of children with
      messages that have an effect. */
  method Flush(path: seq<Path>, ghost h: nat, ghost los: seq<real>, ghost his: seq<real>)
    returns (rp: int, aborted: bool, dropped: bool)
    requires Chain(path, h, los, his) && forall i :: 0 <= i < |path| ==> Untouched(path[i])
    modifies path`npull, path`op, path`nl, path`nr, path`pullsz
    ensures aborted ==> path[0].sz > SafeSz
    ensures aborted <==> |path| == 2 && FewValues(path[1], path[0].sz)
    ensures !aborted ==> LevelDone(path[1], path[0], h, los[1], his[1]) && rp in {-1, 0, 1}
    ensures !aborted ==> LevelsDone(path, 0, dropped)
    ensures !aborted && rp == -1 ==> |path| == 2 && SplitLeafAt(path, 1) && !BothLeft(path[1])
    ensures !aborted && rp == 0 ==>
      && path[1].nl.Some? && path[1].nr.Some? && path[0].npull == path[1].npull
      && path[0].nl == Some(Pivot(Entries(path[1].nl, path[1].nr), []))
    ensures !aborted && rp == 1 ==> path[1].nr == None && !(|path| == 2 && SplitLeafAt(path, 1))
    ensures !aborted && rp >= 0 ==> path[rp].nl == RootOf(path)
    ensures !aborted && rp == -1 ==> RootOf(path) == None
  {
    hide NodeAt, Inv, BufInv, NoBad, MsgsSz, Rank, Means, KidsInv, Entries, KidsSz, KvpsSz, Flushed, FlushedWell,
         LevelDone, LevelWell, LinkAt, SafeSz, ChainAt, LevelsDone, FlushState;
    dropped := false;
    var t: nat, pp: Path?;
    t, pp, rp, aborted := FlushFirst(path, h, los, his);
    if aborted {
      return;
    }
    while t > 0
      invariant FlushState(path, h, los, his, t, pp, rp, dropped)
    {
      StateIn(path, h, los, his, t, pp, rp, dropped);
      var p := path[t];
      rp, dropped := FlushNext(path, t, p, pp, rp, dropped, h, los, his);
      pp := p;
      t := t - 1;
    }
    StateTop(path, h, los, his, pp, rp, dropped);
    if pp.nl.Some? && pp.nr.Some? {
      rp := 0;
      DoneWrote(pp, path[0], h, los[1], his[1]);
      GrowRoot(path[0], pp);
    }
  }

  lemma StateIn(path: seq<Path>, h: nat, los: seq<real>, his: seq<real>, t: nat, pp: Path?, rp: int, dropped: bool)
    requires FlushState(path, h, los, his, t, pp, rp, dropped)
    ensures t < |path|
  {
    hide LevelsDone, ChainAt, LevelDone;
  }

  /** The flush with all levels done. */
  lemma StateTop(path: seq<Path>, h: nat, los: seq<real>, his: seq<real>, pp: Path?, rp: int, dropped: bool)
    requires FlushState(path, h, los, his, 0, pp, rp, dropped)
    ensures |path| >= 2 && path[0] != path[1] && pp == path[1] && |los| == |his| == |path|
    ensures LevelDone(path[1], path[0], h, los[1], his[1]) && LevelsDone(path, 0, dropped)
    ensures if rp == 1 then path[1].nr == None && !(|path| == 2 && SplitLeafAt(path, 1))
            else BothLeft(path[1]) || (rp == -1 && |path| == 2 && SplitLeafAt(path, 1))
  {
    hide LevelsDone, ChainAt, LevelDone;
  }

  /** A split root: a new root over both halves. */
  method GrowRoot(p: Path, pp: Path)
    requires p != pp && Wrote(pp) && pp.nl.Some?
    modifies p`npull, p`pullsz, p`nl
    ensures p.npull == pp.npull && p.nl == Some(Pivot(Entries(pp.nl, pp.nr), []))
  {
    hide LowKey;
    var n := new Blk(false);
    var nbytes := CopyUp(n, pp);
    assert n.kids == Entries(pp.nl, pp.nr);
    p.npull := pp.npull;
    p.pullsz := pp.pullsz;
    p.nl := n.SetB();
  }

  /** The bottom of the path is ready to be flushed. */
  lemma BottomAt(path: seq<Path>, h: nat, los: seq<real>, his: seq<real>)
    requires Chain(path, h, los, his)
    ensures var t := |path| - 1;
            && NodeAt(path[t - 1], path[t], h + 1 - t, los[t], his[t]) && path[t].b.Some?
            && (path[t].b.value.Leaf? && FilledLeaf(path[t].b.value.vals, path[t - 1].sz) && |path[t].b.value.vals| < 4
                ==> |path| == 2 && path[0].sz > SafeSz)
  {
    hide Inv, NoBad, MsgsSz, BufInv, KvpsSz, SafeSz;
    var t := |path| - 1;
    assert ChainAt(path, h, los, his, t);
    if path[t].b.value.Leaf? && FilledLeaf(path[t].b.value.vals, path[t - 1].sz) && |path[t].b.value.vals| < 4 {
      AbortSize(path[t - 1], path[t], h + 1 - t, los[t], his[t]);
    }
  }

  /** A pivot of the path is ready once the level below it, if any, is done. */
  lemma LevelReady(path: seq<Path>, h: nat, los: seq<real>, his: seq<real>, t: nat, pp: Path?)
    requires Chain(path, h, los, his) && 0 < t < |path|
    requires pp == null ==> t == |path| - 1 && path[t].b.Some? && path[t].b.value.Pivot?
    requires pp != null ==> t < |path| - 1 && pp == path[t + 1]
    requires pp != null ==> LevelDone(pp, path[t], h - t, los[t + 1], his[t + 1])
    ensures path[t - 1] != path[t] && pp != path[t]
    ensures NodeAt(path[t - 1], path[t], h + 1 - t, los[t], his[t]) && path[t].b.Some? && path[t].b.value.Pivot?
    ensures pp == null ==> Bottom(path[t]) && FlushedWell(path[t], pp)
    ensures pp != null ==>
      && Flushed(path[t], pp, h + 1 - t, los[t], his[t]) && path[t].idx == path[t].midx
      && Wrote(pp) && 0 <= path[t].midx < |path[t].b.value.kids|
      && 0 <= path[t].lo <= path[t].lo + pp.npull <= |path[t].b.value.buf|
      && (LevelWell(pp, path[t]) ==> FlushedWell(path[t], pp))
  {
    hide NodeAt, LevelDone, LevelWell, LinkAt, Flushed, Inv;
    assert ChainAt(path, h, los, his, t);
    if pp != null {
      LinkIsFlushed(path[t - 1], path[t], pp, h + 1 - t, los[t], his[t], los[t + 1], his[t + 1]);
    }
  }

  lemma DoneWrote(p: Path, up: Path, h: nat, lo: real, hi: real)
    requires LevelDone(p, up, h, lo, hi)
    ensures Wrote(p)
  {
  }

  lemma AbortSize(up: Path, p: Path, h: nat, lo: real, hi: real)
    requires NodeAt(up, p, h, lo, hi) && p.b.value.Leaf?
    requires FilledLeaf(p.b.value.vals, up.sz) && |p.b.value.vals| < 4
    ensures up.sz > SafeSz && SafeSz >= Bufspc
  {
    hide NoBad, BufInv, MsgsSz;
    if up.sz <= SafeSz { FullLeaf(p.b.value, h, lo, hi, up.sz); }
  }

  lemma LinkIsFlushed(up: Path, p: Path, pp: Path, h: nat, lo: real, hi: real, lo': real, hi': real)
    requires NodeAt(up, p, h, lo, hi) && LinkAt(p, pp, lo, hi, lo', hi')
    requires LevelDone(pp, p, h - 1, lo', hi')
    ensures Flushed(p, pp, h, lo, hi) && p.idx == p.midx && p.b.Some? && p.b.value.Pivot?
    ensures Wrote(pp) && 0 <= p.midx < |p.b.value.kids| && 0 <= p.lo <= p.lo + pp.npull <= |p.b.value.buf|
    ensures LevelWell(pp, p) ==> FlushedWell(p, pp)
  {
    hide NoBad, MsgsSz, LevelDone, LevelWell, LinkAt, Flushed, FlushedWell, BufInv, KidsInv;
    LinkParts(p, pp, lo, hi, lo', hi');
    DoneIsFlushed(p, pp, h, lo, hi, lo', hi');
    FlushedParts(p, pp, h, lo, hi);
  }

  lemma LinkParts(p: Path, q: Path, lo: real, hi: real, lo': real, hi': real)
    requires LinkAt(p, q, lo, hi, lo', hi')
    ensures p.b.Some? && p.b.value.Pivot? && p.idx == p.midx
  {
  }
}
