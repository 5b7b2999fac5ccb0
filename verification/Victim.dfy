/** Choosing the child to flush into (src/tree.c, victim). */
module Victims {
  import opened Dat
  import opened Keys
  import opened Messages
  import opened Nodes
  import opened Splice
  import opened Blocks
  import opened BufMerge
  import opened PivUpdate

  // ----- victim -----

  /** On which side of a run a message lies is a question of its key. */
  lemma SegmentAt(kids: seq<Kid>, buf: seq<Msg>, i: nat, a: nat, b: nat, j: nat)
    requires Ascending(kids) && Segment(kids, buf, i, a, b) && j < |buf|
    ensures j < a <==> i > 0 && Rank(buf[j].k) < Rank(kids[i].k)
    ensures j < b <==> i + 1 == |kids| || Rank(buf[j].k) < Rank(kids[i + 1].k)
  {
    hide Rank;
    var r := Rank(buf[j].k);
    assert j < a ==> i > 0 && r < Rank(kids[i].k);
    assert a <= j < b ==> (i > 0 ==> Rank(kids[i].k) <= r) && (i + 1 < |kids| ==> r < Rank(kids[i + 1].k));
    assert b <= j ==> i + 1 < |kids| && Rank(kids[i + 1].k) <= r;
    assert i + 1 < |kids| ==> Rank(kids[i].k) < Rank(kids[i + 1].k);
  }

  /** The run of a child is determined by its pivots. */
  lemma SegmentUnique(kids: seq<Kid>, buf: seq<Msg>, i: nat, a: nat, b: nat, a': nat, b': nat)
    requires Ascending(kids)
    requires Segment(kids, buf, i, a, b) && Segment(kids, buf, i, a', b')
    ensures a == a' && b == b'
  {
    hide Rank;
    if a < |buf| { SegmentAt(kids, buf, i, a, b, a); SegmentAt(kids, buf, i, a', b', a); }
    if a' < |buf| { SegmentAt(kids, buf, i, a, b, a'); SegmentAt(kids, buf, i, a', b', a'); }
    if b < |buf| { SegmentAt(kids, buf, i, a, b, b); SegmentAt(kids, buf, i, a', b', b); }
    if b' < |buf| { SegmentAt(kids, buf, i, a, b, b'); SegmentAt(kids, buf, i, a', b', b'); }
  }

  lemma SegmentIn(kids: seq<Kid>, buf: seq<Msg>, i: nat, a: nat, b: nat)
    requires Segment(kids, buf, i, a, b)
    ensures i < |kids| && a <= b <= |buf|
  {
  }

  /** No child before n has a run larger than max. */
  ghost predicate NoLarger(kids: seq<Kid>, buf: seq<Msg>, n: nat, max: nat) {
    forall i: nat, a: nat, b: nat :: i < n && Segment(kids, buf, i, a, b) ==> MsgsSz(buf[a..b]) <= max
  }

  /** Every child before n has a smaller run. */
  ghost predicate AllSmaller(kids: seq<Kid>, buf: seq<Msg>, n: nat, max: nat) {
    forall i: nat, a: nat, b: nat :: i < n && Segment(kids, buf, i, a, b) ==> MsgsSz(buf[a..b]) < max
  }

  /** The run of child i starts at j; the run of the last child ends at the end. */
  ghost predicate RunsFrom(kids: seq<Kid>, buf: seq<Msg>, i: nat, j: nat) {
    && i <= |kids| && j <= |buf|
    && (i == 0 ==> j == 0)
    && (i == |kids| ==> j == |buf|)
    && (0 < i < |kids| ==> forall x :: 0 <= x < j ==> Rank(buf[x].k) < Rank(kids[i].k))
    && (0 < i < |kids| ==> forall x :: j <= x < |buf| ==> Rank(kids[i].k) <= Rank(buf[x].k))
  }

  lemma RunFound(kids: seq<Kid>, buf: seq<Msg>, i: nat, start: nat, j: nat, lo: real, hi: real)
    requires 0 < i <= |kids| && Ascending(kids) && BufInv(buf, lo, hi)
    requires RunsFrom(kids, buf, i - 1, start) && start <= j <= |buf|
    requires i < |kids| ==> forall x :: start <= x < j ==> Rank(buf[x].k) < Rank(kids[i].k)
    requires j == |buf| || (i < |kids| && Rank(kids[i].k) <= Rank(buf[j].k))
    ensures Segment(kids, buf, i - 1, start, j) && RunsFrom(kids, buf, i, j)
  {
    hide Rank, MsgOk;
    if j < |buf| {
      assert forall x :: j <= x < |buf| ==> Rank(buf[j].k) <= Rank(buf[x].k);
    }
    if i < |kids| && 1 < i { assert Rank(kids[i - 1].k) < Rank(kids[i].k); }
  }

  lemma NoLargerUp(kids: seq<Kid>, buf: seq<Msg>, i: nat, a: nat, b: nat, max0: nat, max: nat)
    requires 0 < i && Ascending(kids) && NoLarger(kids, buf, i - 1, max0) && max0 <= max
    requires Segment(kids, buf, i - 1, a, b) && MsgsSz(buf[a..b]) <= max
    ensures NoLarger(kids, buf, i, max)
  {
    hide Rank, MsgsSz, Segment;
    forall i': nat, a': nat, b': nat | i' < i && Segment(kids, buf, i', a', b')
      ensures a' <= b' <= |buf| && MsgsSz(buf[a'..b']) <= max
    {
      SegmentIn(kids, buf, i', a', b');
      if i' == i - 1 { SegmentUnique(kids, buf, i', a, b, a', b'); }
    }
  }

  lemma MsgsSzRange(buf: seq<Msg>, a: nat, j: nat)
    requires a <= j <= |buf|
    ensures a == j <==> MsgsSz(buf[a..j]) == 0
    ensures j < |buf| ==> MsgsSz(buf[a..j + 1]) == MsgsSz(buf[a..j]) + MsgSz(buf[j])
  {
    if j < |buf| {
      assert buf[a..j + 1] == buf[a..j] + [buf[j]];
      MsgsSzAppend(buf[a..j], buf[j]);
    }
  }

  lemma KidsParts(kids: seq<Kid>, h: nat, lo: real, hi: real)
    requires KidsInv(kids, h, lo, hi)
    ensures Ascending(kids)
  {
  }

  /** victim: the child with the largest run of pending messages, and that run. */
  method Victim(b: Node, p: Path, ghost h: nat, ghost lo: real, ghost hi: real)
    requires b.Pivot? && Inv(b, h, lo, hi)
    requires p.ins == None && p.idx == 0 && p.lo == 0 && p.hi == 0 && p.sz == 0 && p.midx == 0
    requires p.npull == 0 && p.pullsz == 0
    modifies p`b, p`op, p`lo, p`hi, p`sz, p`idx, p`midx, p`npull, p`pullsz
    ensures p.b == Some(b) && p.npull == 0 && p.pullsz == 0
    ensures 0 <= p.lo <= p.hi <= |b.buf| && 0 <= p.idx < |b.kids| && p.midx == p.idx
    ensures Segment(b.kids, b.buf, p.idx, p.lo, p.hi)
    ensures p.sz == MsgsSz(b.buf[p.lo..p.hi]) && NoLarger(b.kids, b.buf, |b.kids|, p.sz)
    ensures AllSmaller(b.kids, b.buf, p.idx, p.sz) && (p.sz == 0 ==> b.buf == [] && p.idx == 0)
  {
    hide Inv, KidsInv, Rank, MsgsSz, MsgSz, Segment, KeyCmpBody, MsgOk, NoLarger, RunsFrom, AllSmaller;
    var kids, buf := b.kids, b.buf;
    NodeParts(b, h, lo, hi);
    KidsParts(kids, h - 1, lo, hi);
    p.b := Some(b);
    var i, j: nat := 1, 0;
    var maxsz: nat := 0;
    FirstRun(kids, buf);
    while i <= |kids|
      invariant 1 <= i <= |kids| + 1 && j <= |buf|
      invariant p.b == Some(b) && p.npull == 0 && p.pullsz == 0 && p.sz == maxsz && p.midx == p.idx
      invariant 0 <= p.idx && AllSmaller(kids, buf, p.idx, maxsz)
      invariant RunsFrom(kids, buf, i - 1, j) && NoLarger(kids, buf, i - 1, maxsz)
      invariant maxsz == 0 ==> p.idx == 0 && p.lo == 0 && p.hi == 0 && j == 0
      invariant maxsz > 0 ==> 0 <= p.lo <= p.hi <= |buf| && 0 <= p.idx < |kids|
      invariant maxsz > 0 ==> Segment(kids, buf, p.idx, p.lo, p.hi) && maxsz == MsgsSz(buf[p.lo..p.hi])
    {
      var start := j;
      var cursz: nat := 0;
      MsgsSzRange(buf, start, start);
      while j < |buf| && (i == |kids| || KeyCmp(buf[j].k, kids[i].k) < 0)
        modifies {}
        invariant start <= j <= |buf|
        invariant cursz == MsgsSz(buf[start..j])
        invariant i < |kids| ==> forall x :: start <= x < j ==> Rank(buf[x].k) < Rank(kids[i].k)
      {
        MsgsSzRange(buf, start, j);
        cursz := cursz + MsgSz(buf[j]);
        j := j + 1;
      }
      RunFound(kids, buf, i, start, j, lo, hi);
      MsgsSzRange(buf, start, j);
      StrictlyLess(kids, buf, i - 1, maxsz, cursz);
      NoLargerUp(kids, buf, i, start, j, maxsz, if cursz > maxsz then cursz else maxsz);
      if cursz > maxsz {
        maxsz := cursz;
        p.op := POmod;
        p.lo, p.hi, p.sz := start, j, maxsz;
        p.idx, p.midx := i - 1, i - 1;
        p.npull, p.pullsz := 0, 0;
      }
      i := i + 1;
    }
    LastRun(kids, buf, j);
    MsgsSzRange(buf, 0, 0);
  }

  lemma StrictlyLess(kids: seq<Kid>, buf: seq<Msg>, n: nat, max0: nat, max: nat)
    requires NoLarger(kids, buf, n, max0)
    ensures max > max0 ==> AllSmaller(kids, buf, n, max)
  {
    hide MsgsSz, Segment;
    forall i: nat, a: nat, b: nat | max > max0 && i < n && Segment(kids, buf, i, a, b)
      ensures a <= b <= |buf| && MsgsSz(buf[a..b]) < max
    {
      SegmentIn(kids, buf, i, a, b);
    }
  }

  lemma FirstRun(kids: seq<Kid>, buf: seq<Msg>)
    requires kids != []
    ensures RunsFrom(kids, buf, 0, 0) && NoLarger(kids, buf, 0, 0) && AllSmaller(kids, buf, 0, 0)
  {
  }

  lemma LastRun(kids: seq<Kid>, buf: seq<Msg>, j: nat)
    requires RunsFrom(kids, buf, |kids|, j) && kids != []
    ensures j == |buf| && (buf == [] ==> Segment(kids, buf, 0, 0, 0))
  {
  }
}
