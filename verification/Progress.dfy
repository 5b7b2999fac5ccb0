/** Why the rounds of btupsert come to an end: each of them takes messages from the batch, or moves
    messages down the tree, or splits a node that cannot be split for ever (src/tree.c, btupsert). */
module Progress {
  import opened Dat
  import opened Keys
  import opened Messages
  import opened Nodes
  import opened Splice
  import opened Blocks
  import opened BufMerge
  import opened LeafMerge
  import opened LeafUpdate
  import opened LeafSplit
  import opened Removals
  import opened PivUpdate
  import opened Flushing
  import opened Descent
  import opened Keeping

  function Sum(s: seq<int>): int {
    if s == [] then 0 else Sum(s[..|s| - 1]) + s[|s| - 1]
  }

  lemma {:induction false} SumConcat(a: seq<int>, b: seq<int>)
    ensures Sum(a + b) == Sum(a) + Sum(b)
  {
    if b == [] {
      assert a + b == a;
    } else {
      var c := a + b;
      assert c[..|c| - 1] == a + b[..|b| - 1];
      SumConcat(a, b[..|b| - 1]);
    }
  }

  lemma {:induction false} SumAtLeast(s: seq<int>, m: int)
    requires forall i :: 0 <= i < |s| ==> s[i] >= m
    requires m >= 0
    ensures Sum(s) >= m * |s|
  {
    if s != [] {
      SumAtLeast(s[..|s| - 1], m);
      assert m * (|s| - 1) + m == m * |s|;
    }
  }

  // ----- two measures of a tree -----

  /** The bytes pending in a tree of height h, each counted once for every level it still has to go. */
  ghost function Pend(n: Node, h: nat): int
    decreases h, 0
  {
    if n.Leaf? || h == 0 then 0 else MsgsSz(n.buf) * h + Sum(Pends(n.kids, h - 1))
  }

  ghost function Pends(kids: seq<Kid>, h: nat): seq<int>
    decreases h, 1
  {
    seq(|kids|, i requires 0 <= i < |kids| => Pend(kids[i].n, h))
  }

  /** Twice the values of a tree, less its nodes, plus its pivots with a single child: an upper bound of
      the splits it can still suffer. */
  ghost function Slack(n: Node, h: nat): int
    decreases h, 0
  {
    if n.Leaf? then 2 * |n.vals| - 1
    else if h == 0 then 1
    else Sum(Slacks(n.kids, h - 1)) - 1 + if |n.kids| == 1 then 1 else 0
  }

  ghost function Slacks(kids: seq<Kid>, h: nat): seq<int>
    decreases h, 1
  {
    seq(|kids|, i requires 0 <= i < |kids| => Slack(kids[i].n, h))
  }

  lemma {:induction false} PendPositive(n: Node, h: nat)
    ensures Pend(n, h) >= 0
    decreases h
  {
    if n.Pivot? && h > 0 {
      var s := Pends(n.kids, h - 1);
      forall i | 0 <= i < |s| ensures s[i] >= 0 {
        PendPositive(n.kids[i].n, h - 1);
      }
      SumAtLeast(s, 0);
    }
  }

  lemma {:induction false} SlackPositive(n: Node, h: nat, lo: real, hi: real)
    requires Inv(n, h, lo, hi)
    ensures Slack(n, h) >= 1
    decreases h
  {
    if n.Pivot? {
      var s := Slacks(n.kids, h - 1);
      forall i | 0 <= i < |s| ensures s[i] >= 1 {
        assert KidInv(n.kids, i, h - 1, hi);
        SlackPositive(n.kids[i].n, h - 1, Rank(n.kids[i].k), Upper(n.kids, i, hi));
      }
      SumAtLeast(s, 1);
    }
  }

  lemma PendsConcat(a: seq<Kid>, b: seq<Kid>, h: nat)
    ensures Sum(Pends(a + b, h)) == Sum(Pends(a, h)) + Sum(Pends(b, h))
  {
    hide Sum, Pend;
    assert Pends(a + b, h) == Pends(a, h) + Pends(b, h);
    SumConcat(Pends(a, h), Pends(b, h));
  }

  lemma SlacksConcat(a: seq<Kid>, b: seq<Kid>, h: nat)
    ensures Sum(Slacks(a + b, h)) == Sum(Slacks(a, h)) + Sum(Slacks(b, h))
  {
    hide Sum, Slack;
    assert Slacks(a + b, h) == Slacks(a, h) + Slacks(b, h);
    SumConcat(Slacks(a, h), Slacks(b, h));
  }

  lemma PendsOne(k: Kid, h: nat)
    ensures Sum(Pends([k], h)) == Pend(k.n, h) && Sum(Pends([], h)) == 0
  {
    hide Pend;
    assert Pends([k], h) == [Pend(k.n, h)];
    assert Sum([Pend(k.n, h)][..0]) == 0;
  }

  lemma SlacksOne(k: Kid, h: nat)
    ensures Sum(Slacks([k], h)) == Slack(k.n, h) && Sum(Slacks([], h)) == 0
  {
    hide Slack;
    assert Slacks([k], h) == [Slack(k.n, h)];
    assert Sum([Slack(k.n, h)][..0]) == 0;
  }

  lemma SpliceParts(kids: seq<Kid>, i: nat, r: seq<Kid>)
    requires i < |kids|
    ensures kids == kids[..i] + [kids[i]] + kids[i + 1..] && SpliceKids(kids, i, r) == kids[..i] + r + kids[i + 1..]
  {
  }

  lemma PendsSplice(kids: seq<Kid>, i: nat, r: seq<Kid>, h: nat)
    requires i < |kids|
    ensures Sum(Pends(SpliceKids(kids, i, r), h)) == Sum(Pends(kids, h)) - Pend(kids[i].n, h) + Sum(Pends(r, h))
  {
    hide Sum, Pend, Pends, SpliceKids;
    SpliceParts(kids, i, r);
    var a, b := kids[..i], kids[i + 1..];
    PendsConcat(a + [kids[i]], b, h);
    PendsConcat(a, [kids[i]], h);
    PendsOne(kids[i], h);
    PendsConcat(a + r, b, h);
    PendsConcat(a, r, h);
  }

  lemma SlacksSplice(kids: seq<Kid>, i: nat, r: seq<Kid>, h: nat)
    requires i < |kids|
    ensures Sum(Slacks(SpliceKids(kids, i, r), h)) == Sum(Slacks(kids, h)) - Slack(kids[i].n, h) + Sum(Slacks(r, h))
  {
    hide Sum, Slack, Slacks, SpliceKids;
    SpliceParts(kids, i, r);
    var a, b := kids[..i], kids[i + 1..];
    SlacksConcat(a + [kids[i]], b, h);
    SlacksConcat(a, [kids[i]], h);
    SlacksOne(kids[i], h);
    SlacksConcat(a + r, b, h);
    SlacksConcat(a, r, h);
  }

  /** What a level left. */
  ghost function Left(p: Path): seq<Kid>
    reads p`nl, p`nr
    requires Wrote(p)
  {
    Entries(p.nl, p.nr)
  }

  lemma LeftSums(p: Path, h: nat)
    requires Wrote(p)
    ensures Sum(Pends(Left(p), h)) ==
            (if p.nl.Some? then Pend(p.nl.value, h) else 0) + (if p.nr.Some? then Pend(p.nr.value, h) else 0)
    ensures Sum(Slacks(Left(p), h)) ==
            (if p.nl.Some? then Slack(p.nl.value, h) else 0) + (if p.nr.Some? then Slack(p.nr.value, h) else 0)
  {
    hide Sum, Pend, Pends, Slack, Slacks, LowKey;
    var a := if p.nl.Some? then [Kid(LowKey(p.nl.value), p.nl.value)] else [];
    var b := if p.nr.Some? then [Kid(LowKey(p.nr.value), p.nr.value)] else [];
    assert Left(p) == a + b;
    PendsConcat(a, b, h);
    SlacksConcat(a, b, h);
    PendsOne(if p.nl.Some? then a[0] else Kid([], Leaf([])), h);
    PendsOne(if p.nr.Some? then b[0] else Kid([], Leaf([])), h);
    SlacksOne(if p.nl.Some? then a[0] else Kid([], Leaf([])), h);
    SlacksOne(if p.nr.Some? then b[0] else Kid([], Leaf([])), h);
  }

  // ----- one level -----

  /** The bytes a level took from the one above. */
  ghost function TookSz(p: Path, up: Path): nat
    reads p`npull, up`ins, up`b, up`lo, up`hi
  {
    if up.Offers() && p.npull <= |up.Offer()| then MsgsSz(up.Offer()[..p.npull]) else 0
  }

  lemma Arith(b: int, m: int, z: int, h: int)
    ensures (b - m + z) * h == b * h - m * h + z * h && m * (h - 1) == m * h - m
  {
  }

  /** A pivot that gave m bytes to the level below and took z: with d the bytes that moved further down,
      its measure has fallen by m + d against what it took. */
  lemma PivPend(node: Node, h: nat, s: seq<Kid>, sz: int, m: int, z: int, d: int)
    requires node.Pivot? && h > 0 && Sum(Pends(s, h - 1)) + d <= Sum(Pends(node.kids, h - 1)) + m * (h - 1)
    requires sz == MsgsSz(node.buf) - m + z
    ensures sz * h + Sum(Pends(s, h - 1)) + m + d <= Pend(node, h) + z * h
  {
    hide Sum, Pends, MsgsSz;
    Arith(MsgsSz(node.buf), m, z, h);
  }

  /** The children of a pivot after the level below, which took m bytes and moved d further. */
  lemma KidsPend(p: Path, pp: Path?, h: nat, m: int, d: int)
    requires p.b.Some? && p.b.value.Pivot?
    requires pp == null ==> m == 0 && d == 0
    requires pp != null ==> Wrote(pp) && 0 <= p.midx < |p.b.value.kids|
    requires pp != null ==> Sum(Pends(Left(pp), h)) + d <= Pend(p.b.value.kids[p.midx].n, h) + m * h
    ensures Sum(Pends(NewKids(p, pp), h)) + d <= Sum(Pends(p.b.value.kids, h)) + m * h
  {
    hide Sum, Pends, Pend, Entries, SpliceKids;
    if pp != null { PendsSplice(p.b.value.kids, p.midx, Entries(pp.nl, pp.nr), h); }
  }

  /** What is kept and what went down make up the buffer. */
  lemma KeptSz(p: Path, pp: Path?)
    requires p.b.Some? && p.b.value.Pivot? && p.ins == None
    requires pp != null ==> p.Offers() && 0 <= p.lo <= p.lo + pp.npull <= p.hi
    ensures pp == null ==> MsgsSz(KeptOf(p, pp)) == MsgsSz(p.b.value.buf)
    ensures pp != null ==> MsgsSz(KeptOf(p, pp)) == MsgsSz(p.b.value.buf) - TookSz(pp, p)
  {
    hide MsgsSz;
    if pp != null {
      KeptSize(p.b.value.buf, p.lo, pp.npull);
      assert p.Offer()[..pp.npull] == p.b.value.buf[p.lo..p.lo + pp.npull];
    }
  }

  /** One pivot of the path. */
  lemma PivLevel(p: Path, up: Path, pp: Path?, h: nat, m: int, d: int)
    requires PivOut(p, up, pp) && Wrote(p) && h > 1 && p.ins == None
    requires pp == null ==> m == 0 && d == 0
    requires pp != null ==> p.Offers() && p.lo + pp.npull <= p.hi && m == TookSz(pp, p)
    requires pp != null ==> Sum(Pends(Left(pp), h - 1)) + d <= Pend(p.b.value.kids[p.midx].n, h - 1) + m * (h - 1)
    ensures Sum(Pends(Left(p), h)) + m + d <= Pend(p.b.value, h) + TookSz(p, up) * h
  {
    hide Sum, Pends, MsgsSz, KidsSz, FilledPiv, StopsLate, IsMerge, Left, NewKids, KeptOf, Entries;
    var node, s, z := p.b.value, NewKids(p, pp), TookSz(p, up);
    KidsPend(p, pp, h - 1, m, d);
    KeptSz(p, pp);
    var sz := MsgsSz(KeptOf(p, pp)) + z;
    PivPend(node, h, s, sz, m, z, d);
    LeftSums(p, h);
    if FilledPiv(node.kids, 1) {
      var l, r := p.nl.value, p.nr.value;
      MsgsSzConcat(l.buf, r.buf);
      PendsConcat(l.kids, r.kids, h - 1);
      NoneTaken(up);
      HalfSum(MsgsSz(l.buf), MsgsSz(r.buf), h);
    } else if p.nl == None {
      PendsNone(h - 1);
      HalfSum(sz, 0, h);
    }
  }

  lemma NoneTaken(up: Path)
    ensures up.Offers() ==> MsgsSz(up.Offer()[..0]) == 0
  {
  }

  lemma PendsNone(h: nat)
    ensures Sum(Pends([], h)) == 0
  {
  }

  lemma HalfSum(a: nat, b: nat, h: nat)
    ensures a * h + b * h == (a + b) * h >= 0
  {
  }

  // ----- messages that move -----

  /** The bytes that moved down into level t and below. */
  ghost function Moved(path: seq<Path>, t: nat): nat
    requires 1 <= t <= |path|
    reads path`npull, path`ins, path`b, path`lo, path`hi
    decreases |path| - t
  {
    if t == |path| then 0 else TookSz(path[t], path[t - 1]) + Moved(path, t + 1)
  }

  /** What the chain says of one pivot and the level below it. */
  lemma LinkFacts(path: seq<Path>, h: nat, los: seq<real>, his: seq<real>, t: nat)
    requires Chain(path, h, los, his) && 1 <= t < |path|
    ensures |los| == |his| == |path| <= h + 1 && path[t].ins == None && path[t].b.Some?
    ensures Inv(path[t].b.value, h + 1 - t, los[t], his[t])
    ensures path[t].b.value.Leaf? ==> t + 1 == |path| && h + 1 - t == 1
    ensures path[t].b.value.Pivot? ==> h + 1 - t > 1
    ensures t + 1 < |path| ==> path[t].Offers() && path[t].b.value.Pivot? && 0 <= path[t].midx < |path[t].b.value.kids|
    ensures t + 1 < |path| ==> path[t + 1].b == Some(path[t].b.value.kids[path[t].midx].n)
  {
    hide NoBad, BufInv, MsgsSz, KidsInv;
    assert ChainAt(path, h, los, his, t);
  }

  lemma OutFacts(path: seq<Path>, t: nat)
    requires 1 <= t < |path| && AllOut(path, 0) && path[t].b.Some?
    ensures Wrote(path[t]) && path[t - 1].Offers() && path[t].npull <= |path[t - 1].Offer()|
    ensures path[t].b.value.Pivot? ==> PivOut(path[t], path[t - 1], if t + 1 < |path| then path[t + 1] else null)
    ensures path[t].b.value.Leaf? && t + 1 == |path| ==> LeafOut(path[t], path[t - 1])
  {
    hide Means, LeafMerged, SplitAt, Entries, MsgsSz, StopsLate, IsMerge, FilledPiv, FilledLeaf, KeptOf, SpliceKids;
    assert OutAt(path, t);
  }

  /** From the bottom up: what level t left pends less than what it was and what it took, by what moved
      below it. */
  lemma {:induction false} LevelPend(path: seq<Path>, h: nat, los: seq<real>, his: seq<real>, t: nat)
    requires Chain(path, h, los, his) && 1 <= t < |path| && AllOut(path, 0)
    ensures Wrote(path[t]) && path[t].b.Some?
    ensures Sum(Pends(Left(path[t]), h + 1 - t)) + Moved(path, t + 1)
            <= Pend(path[t].b.value, h + 1 - t) + TookSz(path[t], path[t - 1]) * (h + 1 - t)
    decreases |path| - t
  {
    hide Chain, AllOut, Sum, Pends, Left, LeafOut, PivOut, Inv, TookSz, Wrote;
    LinkFacts(path, h, los, his, t);
    OutFacts(path, t);
    var p, up := path[t], path[t - 1];
    if t + 1 < |path| {
      var pp := path[t + 1];
      LevelPend(path, h, los, his, t + 1);
      OutFacts(path, t + 1);
      OfferEnd(p);
      PivLevel(p, up, pp, h + 1 - t, TookSz(pp, p), Moved(path, t + 2));
    } else if p.b.value.Leaf? {
      LeafPend(p, up);
    } else {
      PivLevel(p, up, null, h + 1 - t, 0, 0);
    }
  }

  lemma OfferEnd(p: Path)
    requires p.Offers()
    ensures |p.Offer()| == p.hi - p.lo
  {
  }

  lemma LeafPend(p: Path, up: Path)
    requires LeafOut(p, up) && Wrote(p)
    ensures Sum(Pends(Left(p), 1)) == 0
  {
    hide Sum, Pends, LeafMerged, SplitAt, LevelWell;
    LeftSums(p, 1);
  }

  // ----- splits when nothing moves -----

  /** Nothing was taken at level t or below. */
  ghost predicate Still(path: seq<Path>, t: nat)
    requires 1 <= t
    reads path`npull
  {
    forall s :: t <= s < |path| ==> path[s].npull == 0
  }

  ghost function Splits(path: seq<Path>, t: nat): nat
    requires 1 <= t <= |path|
    reads path`nl, path`nr
    decreases |path| - t
  {
    if t == |path| then 0 else (if BothLeft(path[t]) then 1 else 0) + Splits(path, t + 1)
  }

  lemma LeafSlack(p: Path, up: Path)
    requires LeafOut(p, up) && Wrote(p) && p.npull == 0 && SortedVals(p.b.value.vals) && p.b.value.vals != []
    ensures Left(p) != []
    ensures FilledLeaf(p.b.value.vals, up.sz) ==> BothLeft(p)
    ensures Sum(Slacks(Left(p), 1)) + (if BothLeft(p) then 1 else 0) <= Slack(p.b.value, 1)
  {
    hide Sum, Slacks, LeafMerged, SplitAt, Means, LowKey, FilledLeaf;
    LeftSums(p, 1);
    var vals, l, r := p.b.value.vals, ValsOf(p.nl), ValsOf(p.nr);
    MergedNone(vals, l + r);
    if FilledLeaf(vals, up.sz) {
      var c :| SplitAt(vals, l, r, c);
      SplitBoth(vals, l, r, c);
    }
  }

  lemma SplitBoth(vals: seq<Kvp>, l: seq<Kvp>, r: seq<Kvp>, c: nat)
    requires SplitAt(vals, l, r, c) && l + r == vals && SortedVals(vals)
    ensures l != [] && r != []
  {
    hide Rank;
    assert r != [] ==> Rank(vals[c - 1].k) < Rank(r[0].k);
    assert l != [] ==> Rank(l[|l| - 1].k) < Rank(vals[c].k);
    assert l == [] ==> r == vals;
    assert r == [] ==> l == vals;
  }

  lemma KidsSlack(p: Path, pp: Path?, h: nat, n: nat)
    requires p.b.Some? && p.b.value.Pivot? && p.b.value.kids != []
    requires pp == null ==> n == 0
    requires pp != null ==> Wrote(pp) && 0 <= p.midx < |p.b.value.kids| && Left(pp) != []
    requires pp != null ==> Sum(Slacks(Left(pp), h)) + n <= Slack(p.b.value.kids[p.midx].n, h)
    ensures Sum(Slacks(NewKids(p, pp), h)) + n <= Sum(Slacks(p.b.value.kids, h))
    ensures |NewKids(p, pp)| >= |p.b.value.kids|
  {
    hide Sum, Slacks, Slack, Entries, SpliceKids;
    if pp != null { SlacksSplice(p.b.value.kids, p.midx, Entries(pp.nl, pp.nr), h); }
  }

  lemma PivSlack(p: Path, up: Path, pp: Path?, h: nat, n: nat)
    requires PivOut(p, up, pp) && Wrote(p) && h > 1 && p.b.value.kids != []
    requires FilledPiv(p.b.value.kids, 1) ==> |p.b.value.kids| >= 4
    requires pp == null ==> n == 0
    requires pp != null ==> Left(pp) != [] && Sum(Slacks(Left(pp), h - 1)) + n <= Slack(p.b.value.kids[p.midx].n, h - 1)
    ensures Left(p) != []
    ensures Sum(Slacks(Left(p), h)) + n + (if BothLeft(p) then 1 else 0) <= Slack(p.b.value, h)
  {
    hide Sum, Slacks, KidsSz, StopsLate, IsMerge, KeptOf, MsgsSz, NewKids, LowKey;
    KidsSlack(p, pp, h - 1, n);
    LeftSums(p, h);
    if FilledPiv(p.b.value.kids, 1) {
      SlacksConcat(p.nl.value.kids, p.nr.value.kids, h - 1);
    }
  }

  lemma {:induction false} LevelSlack(path: seq<Path>, h: nat, los: seq<real>, his: seq<real>, t: nat)
    requires Chain(path, h, los, his) && 1 <= t < |path| && AllOut(path, 0) && Still(path, t)
    ensures Wrote(path[t]) && path[t].b.Some? && Left(path[t]) != []
    ensures Sum(Slacks(Left(path[t]), h + 1 - t)) + Splits(path, t) <= Slack(path[t].b.value, h + 1 - t)
    decreases |path| - t
  {
    hide Chain, AllOut, Sum, Slacks, Slack, Left, LeafOut, PivOut, Inv, Wrote, BothLeft, FilledPiv;
    LinkFacts(path, h, los, his, t);
    OutFacts(path, t);
    PathNode(path, h, los, his, t);
    var p, up := path[t], path[t - 1];
    if p.b.value.Pivot? && FilledPiv(p.b.value.kids, 1) {
      FullPivot(p.b.value, h + 1 - t, los[t], his[t]);
    }
    if t + 1 < |path| {
      LevelSlack(path, h, los, his, t + 1);
      OutFacts(path, t + 1);
      PivSlack(p, up, path[t + 1], h + 1 - t, Splits(path, t + 1));
    } else if p.b.value.Leaf? {
      LeafVals(p.b.value, h + 1 - t, los[t], his[t]);
      LeafSlack(p, up);
    } else {
      PivSlack(p, up, null, h + 1 - t, 0);
    }
  }

  lemma LeafVals(n: Node, h: nat, lo: real, hi: real)
    requires n.Leaf? && Inv(n, h, lo, hi)
    ensures n.vals != []
  {
  }

  // ----- a round does something -----

  /** Level t or one below it takes something or splits. */
  ghost predicate Works(path: seq<Path>, t: nat)
    requires 1 <= t
    reads path`npull, path`nl, path`nr
  {
    exists s {:trigger path[s]} :: t <= s < |path| && (path[s].npull > 0 || BothLeft(path[s]))
  }

  lemma FirstSz(ms: seq<Msg>)
    requires ms != []
    ensures MsgSz(ms[0]) <= MsgsSz(ms) && MsgsSz(ms[..0]) == 0
  {
    hide MsgSz;
    assert ms[..1] == [ms[0]] && ms[..1][..0] == [];
    MsgsSzPrefix(ms, 1);
  }

  lemma FirstSmall(ms: seq<Msg>, lo: real, hi: real)
    requires ms != [] && BufInv(ms, lo, hi)
    ensures MsgSz(ms[0]) <= Bufspc
  {
    hide Rank;
  }

  /** A pivot that has room for the first message offered takes it, or is split. */
  lemma PivWorks(p: Path, up: Path, pp: Path?)
    requires PivOut(p, up, pp) && up.Offer() != [] && MsgSz(up.Offer()[0]) + BufFill(p.b.value.buf) <= Bufspc
    ensures p.npull > 0 || BothLeft(p)
  {
    hide IsMerge, MsgsSz, MsgSz, FilledPiv, KeptOf, NewKids, Wrote;
    FirstSz(up.Offer());
  }

  lemma NoBytes(ms: seq<Msg>)
    ensures MsgsSz(ms) == 0 <==> ms == []
  {
  }

  lemma {:induction false} LevelWorks(path: seq<Path>, h: nat, los: seq<real>, his: seq<real>, t: nat, nmsg: nat)
    requires Chain(path, h, los, his) && 1 <= t < |path| && AllOut(path, 0)
    requires forall i: nat {:trigger ChosenAt(path, i, nmsg)} :: 1 <= i < |path| - 1 ==> ChosenAt(path, i, nmsg)
    requires Ended(path[|path| - 2], path[|path| - 1], nmsg)
    requires path[t - 1].Offers() && path[t - 1].Offer() != []
    ensures Works(path, t)
    decreases |path| - t
  {
    hide Chain, AllOut, LeafOut, PivOut, Inv, Wrote, BothLeft, ChosenAt, Ended, BufInv, MsgsSz, MsgSz;
    LinkFacts(path, h, los, his, t);
    OutFacts(path, t);
    PathNode(path, h, los, his, t);
    OfferFacts(path, h, los, his, t);
    var p, up := path[t], path[t - 1];
    FirstSz(up.Offer());
    if t + 1 < |path| {
      assert ChosenAt(path, t, nmsg);
      SegmentFacts(path, t, nmsg);
      if p.Offer() == [] {
        FirstSmall(up.Offer(), los[t], his[t]);
        PivWorks(p, up, path[t + 1]);
      } else {
        LevelWorks(path, h, los, his, t + 1, nmsg);
      }
    } else if p.b.value.Leaf? {
      LeafVals(p.b.value, h + 1 - t, los[t], his[t]);
      LeafWorks(p, up);
    } else {
      EndedRoom(up, p, nmsg);
      PivWorks(p, up, null);
    }
  }

  lemma OfferFacts(path: seq<Path>, h: nat, los: seq<real>, his: seq<real>, t: nat)
    requires Chain(path, h, los, his) && 1 <= t < |path| && |los| == |his| == |path|
    ensures path[t - 1].Offers() && BufInv(path[t - 1].Offer(), los[t], his[t])
    ensures MsgsSz(path[t - 1].Offer()) <= path[t - 1].sz
  {
    hide Inv, NoBad, BufInv, MsgsSz;
    assert ChainAt(path, h, los, his, t);
  }

  /** An empty segment of the fullest child: the buffer is empty. */
  lemma SegmentFacts(path: seq<Path>, t: nat, nmsg: nat)
    requires 1 <= t < |path| && ChosenAt(path, t, nmsg) && path[t].ins == None && path[t].Offers()
    ensures path[t].b.Some? && path[t].b.value.Pivot?
    ensures path[t].Offer() == [] ==> BufFill(path[t].b.value.buf) == 0
  {
    hide MsgsSz;
    NoBytes(path[t].Offer());
    NoBytes(path[t].b.value.buf);
    assert path[t].Offer() == path[t].b.value.buf[path[t].lo..path[t].hi];
  }

  lemma EndedRoom(up: Path, p: Path, nmsg: nat)
    requires Ended(up, p, nmsg) && p.b.value.Pivot?
    ensures BufFill(p.b.value.buf) + up.sz <= Bufspc
  {
  }

  lemma LeafWorks(p: Path, up: Path)
    requires LeafOut(p, up) && Wrote(p) && SortedVals(p.b.value.vals) && p.b.value.vals != [] && up.Offer() != []
    ensures p.npull > 0 || BothLeft(p)
  {
    hide LeafMerged, SplitAt, Means, FilledLeaf, Slack, Slacks, Sum, Left;
    if p.npull == 0 { LeafSlack(p, up); }
  }

  lemma {:induction false} MovedSome(path: seq<Path>, h: nat, los: seq<real>, his: seq<real>, t: nat, s: nat)
    requires Chain(path, h, los, his) && AllOut(path, 0) && 1 <= t <= s < |path| && path[s].npull > 0
    ensures Moved(path, t) > 0
    decreases s - t
  {
    hide Chain, AllOut, MsgsSz, Inv;
    if t == s {
      LinkFacts(path, h, los, his, t);
      OutFacts(path, t);
      NoBytes(path[t - 1].Offer()[..path[t].npull]);
    } else {
      MovedSome(path, h, los, his, t + 1, s);
    }
  }

  lemma {:induction false} SplitsSome(path: seq<Path>, t: nat, s: nat)
    requires 1 <= t <= s < |path| && BothLeft(path[s])
    ensures Splits(path, t) > 0
    decreases s - t
  {
    hide BothLeft;
    if t < s { SplitsSome(path, t + 1, s); }
  }

  /** Less is pending, or as much and less can be split. */
  ghost predicate Smaller(n: Node, h: nat, m: Node, k: nat) {
    Pend(n, h) < Pend(m, k) || (Pend(n, h) == Pend(m, k) && Slack(n, h) < Slack(m, k))
  }

  /** The root of a flush, as one node. */
  lemma RootSums(p: Path, rp: int, n: Node, h: nat)
    requires Wrote(p) && (rp == 0 || rp == 1)
    requires rp == 0 ==> BothLeft(p) && n == Pivot(Left(p), [])
    requires rp == 1 ==> p.nl == Some(n) && p.nr == None
    ensures var h' := if rp == 0 then h + 1 else h;
            Pend(n, h') == Sum(Pends(Left(p), h)) && Slack(n, h') <= Sum(Slacks(Left(p), h))
  {
    hide Sum, Pends, Slacks, LowKey;
    if rp == 0 { NoBytes([]); } else { LeftSums(p, h); }
  }

  /** A flush that takes nothing from a batch that is not done leaves a smaller tree behind. */
  lemma FlushProgress(path: seq<Path>, h: nat, los: seq<real>, his: seq<real>, nmsg: nat, rp: int, n: Node)
    requires Chain(path, h, los, his) && AllOut(path, 0) && |path| >= 2 && path[1].b.Some?
    requires forall i: nat {:trigger ChosenAt(path, i, nmsg)} :: 1 <= i < |path| - 1 ==> ChosenAt(path, i, nmsg)
    requires Ended(path[|path| - 2], path[|path| - 1], nmsg)
    requires path[0].Offers() && path[0].Offer() != [] && path[1].npull == 0
    requires Wrote(path[1]) && (rp == 0 || rp == 1)
    requires rp == 0 ==> BothLeft(path[1]) && n == Pivot(Left(path[1]), [])
    requires rp == 1 ==> path[1].nl == Some(n) && path[1].nr == None
    ensures Smaller(n, if rp == 0 then h + 1 else h, path[1].b.value, h)
  {
    hide Chain, AllOut, Ended, ChosenAt, Sum, Pends, Slacks, Pend, Slack, Left, Wrote, BothLeft, MsgsSz;
    LevelPend(path, h, los, his, 1);
    NoneTook(path[1], path[0]);
    RootSums(path[1], rp, n, h);
    if Still(path, 1) {
      LevelSlack(path, h, los, his, 1);
      LevelWorks(path, h, los, his, 1, nmsg);
      var s :| 1 <= s < |path| && (path[s].npull > 0 || BothLeft(path[s]));
      SplitsSome(path, 1, s);
    } else {
      var s :| 1 <= s < |path| && path[s].npull != 0;
      MovedSome(path, h, los, his, 2, s);
    }
  }

  lemma NoneTook(p: Path, up: Path)
    requires p.npull == 0
    ensures TookSz(p, up) == 0
  {
    if up.Offers() { NoBytes(up.Offer()[..0]); }
  }
}
