/** A flush along a path on which the pending removals are harmless: no node is emptied, and what is left
    is such a tree again. */
module Keeping {
  import opened Dat
  import opened Keys
  import opened Messages
  import opened Nodes
  import opened Splice
  import opened Blocks
  import opened BufMerge
  import opened LeafMerge
  import opened LeafSplit
  import opened Removals
  import opened PivUpdate
  import opened Flushing

  /** A level that left something, and only what is safe. */
  ghost predicate Lives(p: Path, gone: set<Key>)
    reads p`nl, p`nr
  {
    p.nl.Some? && Safe(p.nl.value, gone) && (p.nr.Some? ==> Safe(p.nr.value, gone))
  }

  /** What a leaf left is safe, and there are two halves if it was split. */
  lemma LeafLives(p: Path, up: Path, gone: set<Key>)
    requires LeafOut(p, up) && SortedVals(p.b.value.vals)
    requires Safe(p.b.value, gone) && Clean(up.Offer(), gone)
    ensures Lives(p, gone) && (FilledLeaf(p.b.value.vals, up.sz) ==> p.nr.Some?)
  {
    hide LeafMerged, SplitAt, Clean, Sparse, Means, FilledLeaf, LowKey;
    var vals, l, r := p.b.value.vals, ValsOf(p.nl), ValsOf(p.nr);
    var ms := up.Offer()[..p.npull];
    PrefixClean(up.Offer(), p.npull, gone);
    if FilledLeaf(vals, up.sz) {
      var c :| SplitAt(vals, l, r, c);
      HalvesSparse(vals, ms, l, r, c, gone);
      SparseSome(l, gone);
      SparseSome(r, gone);
    } else {
      assert l + r == l;
      MergedSparse(vals, ms, l, gone);
      SparseSome(l, gone);
    }
  }

  lemma SparseSome(vals: seq<Kvp>, gone: set<Key>)
    requires Sparse(vals, gone)
    ensures vals != []
  {
  }

  lemma PrefixClean(ms: seq<Msg>, j: nat, gone: set<Key>)
    requires Clean(ms, gone) && j <= |ms|
    ensures Clean(ms[..j], gone)
  {
    hide MsgClean;
  }

  /** A pivot over a level that left something keeps a child. */
  lemma PivLives(p: Path, up: Path, pp: Path?, gone: set<Key>)
    requires PivOut(p, up, pp) && p.b.value.kids != [] && (pp != null ==> Lives(pp, gone))
    requires Safe(p.b.value, gone) && Clean(up.Offer(), gone)
    ensures NewKids(p, pp) != [] && Lives(p, gone)
  {
    hide Clean, SafeIn, LowKey, FilledPiv, SpliceKids, Survivors, StopsLate, IsMerge;
    if pp != null { EntriesLive(pp.nl, pp.nr, gone); }
    KeptLive(p, pp, gone);
    KidsLive(p, pp, gone);
    PrefixClean(up.Offer(), p.npull, gone);
    if FilledPiv(p.b.value.kids, 1) {
      HalvesLive(p.nl.value.kids, p.nr.value.kids, p.nl.value.buf, p.nr.value.buf, gone);
    } else {
      MergeClean(p.nl.value.buf, KeptOf(p, pp), up.Offer()[..p.npull], gone);
    }
  }

  lemma EntriesLive(nl: Option<Node>, nr: Option<Node>, gone: set<Key>)
    requires nl.Some? ==> (if nl.value.Leaf? then nl.value.vals != [] else nl.value.kids != [])
    requires nr.Some? ==> (if nr.value.Leaf? then nr.value.vals != [] else nr.value.kids != [])
    requires nl.Some? && Safe(nl.value, gone) && (nr.Some? ==> Safe(nr.value, gone))
    ensures Entries(nl, nr) != [] && SafeIn(Entries(nl, nr), gone)
  {
    hide LowKey, Safe;
  }

  lemma KidsLive(p: Path, pp: Path?, gone: set<Key>)
    requires p.b.Some? && p.b.value.Pivot? && Safe(p.b.value, gone) && p.b.value.kids != []
    requires pp != null ==> Wrote(pp) && 0 <= p.midx < |p.b.value.kids|
    requires pp != null ==> Entries(pp.nl, pp.nr) != [] && SafeIn(Entries(pp.nl, pp.nr), gone)
    ensures NewKids(p, pp) != [] && SafeIn(NewKids(p, pp), gone)
  {
    hide SafeIn, Entries, Clean;
    if pp != null { SpliceSafe(p.b.value.kids, p.midx, Entries(pp.nl, pp.nr), gone); }
  }

  lemma KeptLive(p: Path, pp: Path?, gone: set<Key>)
    requires p.b.Some? && p.b.value.Pivot? && Safe(p.b.value, gone)
    requires pp != null ==> 0 <= p.lo <= p.lo + pp.npull <= |p.b.value.buf|
    ensures Clean(KeptOf(p, pp), gone)
  {
    hide SafeIn, MsgClean;
  }

  lemma HalvesLive(a: seq<Kid>, b: seq<Kid>, l: seq<Msg>, r: seq<Msg>, gone: set<Key>)
    requires SafeIn(a + b, gone) && Clean(l + r, gone)
    ensures SafeIn(a, gone) && SafeIn(b, gone) && Clean(l, gone) && Clean(r, gone)
  {
    hide Safe, MsgClean;
    assert forall i :: 0 <= i < |a| ==> (a + b)[i] == a[i];
    assert forall i :: 0 <= i < |b| ==> (a + b)[|a| + i] == b[i];
    assert forall i :: 0 <= i < |l| ==> (l + r)[i] == l[i];
    assert forall i :: 0 <= i < |r| ==> (l + r)[|l| + i] == r[i];
  }

  // ----- the path -----

  /** A node of the path and what is offered to it. */
  ghost predicate SafeAt(path: seq<Path>, t: nat, gone: set<Key>)
    requires 1 <= t < |path|
    reads path`ins, path`b, path`lo, path`hi
  {
    path[t].b.Some? && Safe(path[t].b.value, gone) && path[t - 1].Offers() && Clean(path[t - 1].Offer(), gone)
  }

  lemma {:induction false} SafePath(path: seq<Path>, h: nat, los: seq<real>, his: seq<real>, t: nat, gone: set<Key>)
    requires Chain(path, h, los, his) && 1 <= t < |path| && SafeAt(path, 1, gone)
    ensures SafeAt(path, t, gone)
  {
    hide Inv, NoBad, BufInv, MsgsSz, Clean, Segment, NodeAt, LinkAt, Safe;
    if t > 1 {
      SafePath(path, h, los, his, t - 1, gone);
      assert ChainAt(path, h, los, his, t - 1);
      SafeLink(path[t - 2], path[t - 1], path[t], h + 2 - t, los[t - 1], his[t - 1], los[t], his[t], gone);
    }
  }

  lemma SafeLink(up: Path, p: Path, q: Path, h: nat, lo: real, hi: real, lo': real, hi': real, gone: set<Key>)
    requires NodeAt(up, p, h, lo, hi) && LinkAt(p, q, lo, hi, lo', hi') && Safe(p.b.value, gone)
    ensures q.b.Some? && Safe(q.b.value, gone) && p.Offers() && Clean(p.Offer(), gone)
  {
    hide Inv, NoBad, BufInv, MsgsSz, MsgClean, Sparse;
  }

  lemma PathNode(path: seq<Path>, h: nat, los: seq<real>, his: seq<real>, t: nat)
    requires Chain(path, h, los, his) && 1 <= t < |path|
    ensures path[t].b.Some? && (path[t].b.value.Leaf? ==> t + 1 == |path| && SortedVals(path[t].b.value.vals))
    ensures path[t].b.value.Pivot? ==> path[t].b.value.kids != []
  {
    hide NoBad, BufInv, MsgsSz, Segment, KidsInv;
    assert ChainAt(path, h, los, his, t);
  }

  /** From the bottom up every level leaves something, and none is dropped. */
  lemma {:induction false} LevelLives(path: seq<Path>, h: nat, los: seq<real>, his: seq<real>, t: nat, gone: set<Key>)
    requires Chain(path, h, los, his) && 1 <= t < |path| && SafeAt(path, 1, gone) && AllOut(path, 0)
    ensures Lives(path[t], gone) && forall s: nat {:trigger DropsAt(path, s)} :: t <= s < |path| ==> !DropsAt(path, s)
    decreases |path| - t
  {
    hide Chain, LeafOut, PivOut, Lives, Clean, Safe, KeptOf;
    SafePath(path, h, los, his, t, gone);
    PathNode(path, h, los, his, t);
    assert OutAt(path, t);
    if t + 1 < |path| {
      LevelLives(path, h, los, his, t + 1, gone);
      PivLives(path[t], path[t - 1], path[t + 1], gone);
    } else if path[t].b.value.Leaf? {
      LeafLives(path[t], path[t - 1], gone);
    } else {
      PivLives(path[t], path[t - 1], null, gone);
    }
  }

  /** The whole flush. */
  lemma FlushLives(path: seq<Path>, h: nat, los: seq<real>, his: seq<real>, dropped: bool, gone: set<Key>)
    requires Chain(path, h, los, his) && LevelsDone(path, 0, dropped) && SafeAt(path, 1, gone)
    ensures !dropped && Lives(path[1], gone)
    ensures |path| == 2 && SplitLeafAt(path, 1) ==> BothLeft(path[1])
  {
    hide Chain, LeafOut, PivOut, DropsAt, Clean, Safe, WellAt, FilledLeaf;
    ChainLong(path, h, los, his);
    LevelLives(path, h, los, his, 1, gone);
    if |path| == 2 && SplitLeafAt(path, 1) {
      PathNode(path, h, los, his, 1);
      assert OutAt(path, 1);
      LeafLives(path[1], path[0], gone);
    }
  }

  lemma ChainLong(path: seq<Path>, h: nat, los: seq<real>, his: seq<real>)
    requires Chain(path, h, los, his)
    ensures |path| >= 2
  {
    hide ChainAt;
  }
}
