/** Splitting a leaf that has no room for its segment (src/tree.c, splitleaf). */
module LeafSplit {
  import opened Dat
  import opened Keys
  import opened Messages
  import opened Nodes
  import opened Splice
  import opened Blocks
  import opened LeafMerge
  import opened LeafUpdate

  function AsLeaf(vals: seq<Kvp>): Option<Node> {
    if vals == [] then None else Some(Leaf(vals))
  }

  lemma HalfInv(a: seq<Kvp>, b: seq<Kvp>, lo: real, hi: real)
    requires a != [] && b != [] && SortedVals(a + b) && Fits(a + b, lo, hi)
    ensures Inv(Leaf(a), 1, lo, Rank(b[0].k)) && Inv(Leaf(b), 1, Rank(b[0].k), hi)
    ensures lo <= Rank(b[0].k) < hi
  {
    hide Rank, KvpOk;
    var c := a + b;
    forall x, y | 0 <= x < y < |a| ensures Rank(a[x].k) < Rank(a[y].k) {
      assert a[x] == c[x] && a[y] == c[y];
    }
    forall x, y | 0 <= x < y < |b| ensures Rank(b[x].k) < Rank(b[y].k) {
      assert b[x] == c[|a| + x] && b[y] == c[|a| + y];
    }
    forall x | 0 <= x < |a| ensures KvpOk(a[x]) && lo <= Rank(a[x].k) < Rank(b[0].k) {
      assert a[x] == c[x] && b[0] == c[|a|];
    }
    forall x | 0 <= x < |b| ensures KvpOk(b[x]) && lo <= Rank(b[x].k) < hi {
      assert b[x] == c[|a| + x];
    }
  }

  /** Left followed by right is the merged leaf, so the two entries replace the old one. */
  lemma SplitReplaced(vals: seq<Kvp>, ms: seq<Msg>, j: nat, a: seq<Kvp>, b: seq<Kvp>, full: bool,
                      top: real, lo: real, hi: real)
    requires j <= |ms| && Between(a + b, vals, |vals|, ms, j, full, top, lo, hi)
    ensures Replaces(Leaf(vals), 1, lo, hi, Entries(AsLeaf(a), AsLeaf(b)), ms[..j])
  {
    hide Between, Rank, LowKey, Replaces;
    if a == [] || b == [] {
      assert a + b == if a == [] then b else a;
      LeafReplaced(vals, ms, j, a + b, full, top, lo, hi);
      assert Entries(AsLeaf(a), AsLeaf(b)) == Entries(AsLeaf(a + b), None);
    } else {
      BothReplaced(vals, ms, j, a, b, full, top, lo, hi);
    }
  }

  lemma BothReplaced(vals: seq<Kvp>, ms: seq<Msg>, j: nat, a: seq<Kvp>, b: seq<Kvp>, full: bool,
                     top: real, lo: real, hi: real)
    requires j <= |ms| && Between(a + b, vals, |vals|, ms, j, full, top, lo, hi) && a != [] && b != []
    ensures Replaces(Leaf(vals), 1, lo, hi, Entries(AsLeaf(a), AsLeaf(b)), ms[..j])
  {
    hide Rank, LowKey, Find, Play, Sel, Inv, KidsInv, KidsView, SortedVals, Fits;
    HalfInv(a, b, lo, hi);
    var l, r, x := Leaf(a), Leaf(b), Rank(b[0].k);
    TwoEntries(l, r, 1, lo, x, hi);
    var e := [Kid(LowKey(l), l), Kid(LowKey(r), r)];
    assert Entries(AsLeaf(a), AsLeaf(b)) == e;
    assert vals[..|vals|] == vals;
    forall k
      ensures KidsView(e, k) == Play(View(Leaf(vals), k), Sel(ms[..j], k))
    {
      assert Find(a + b, k) == Done(vals, |vals|, ms, j, k);
      TwoEntriesView(l, r, 1, lo, x, hi, k);
      FindConcat(a, b, k);
      if Rank(k) < x {
        Outside(r, 1, x, hi, k);
      } else {
        Outside(l, 1, lo, x, k);
      }
    }
  }

  /** The values were cut before value c: what is left of it has gone left, and it and what is right of
      it have gone right. */
  ghost predicate SplitAt(vals: seq<Kvp>, l: seq<Kvp>, r: seq<Kvp>, c: nat) {
    && 2 <= c <= |vals| - 2
    && (forall x :: 0 <= x < |l| ==> Rank(l[x].k) < Rank(vals[c].k))
    && (forall x :: 0 <= x < |r| ==> Rank(vals[c - 1].k) < Rank(r[x].k))
  }

  /** Everything in l is at or below mid, everything in l + r behind it above. */
  ghost predicate CutIn(l: seq<Kvp>, r: seq<Kvp>, mid: real) {
    (forall x :: 0 <= x < |l| ==> Rank(l[x].k) <= mid) && forall x :: 0 <= x < |r| ==> mid < Rank(r[x].k)
  }

  /** The next value, or whatever follows it, is above all that has been taken. */
  lemma NextAbove(out: seq<Kvp>, vals: seq<Kvp>, i: nat, ms: seq<Msg>, j: nat, full: bool, top: real, lo: real,
                  hi: real)
    requires i < |vals| && j <= |ms| && Between(out, vals, i, ms, j, full, top, lo, hi)
    ensures top < Rank(vals[i].k) && CutIn(out, [], top) && (i > 0 ==> Rank(vals[i - 1].k) <= top)
  {
    hide Rank, Merged, Fits;
  }

  lemma CutMore(l: seq<Kvp>, r: seq<Kvp>, r': seq<Kvp>, mid: real, top: real)
    requires CutIn(l, r, mid) && mid <= top && r <= r'
    requires forall x :: |r| <= x < |r'| ==> top < Rank(r'[x].k)
    ensures CutIn(l, r', mid)
  {
    hide Rank;
    forall x | 0 <= x < |r'| ensures mid < Rank(r'[x].k) {
      if x < |r| { assert r'[x] == r[x]; }
    }
  }

  lemma CutEnd(vals: seq<Kvp>, l: seq<Kvp>, r: seq<Kvp>, c: nat, mid: real)
    requires 2 <= c <= |vals| - 2 && CutIn(l, r, mid) && Rank(vals[c - 1].k) <= mid < Rank(vals[c].k)
    ensures SplitAt(vals, l, r, c)
  {
    hide Rank;
  }

  // ----- where the leaf is cut, and where the pull stops -----

  /** Message j is the first of a key without a value. */
  ghost predicate Opens(vals: seq<Kvp>, ms: seq<Msg>, j: nat)
    requires j < |ms|
  {
    (forall v :: v in vals ==> v.k != ms[j].k) && forall y :: 0 <= y < j ==> ms[y].k != ms[j].k
  }

  /** The size of the entries that messages have made. */
  ghost function NewSz(vals: seq<Kvp>, ms: seq<Msg>): nat {
    if ms == [] then 0
    else NewSz(vals, ms[..|ms| - 1]) + if Opens(vals, ms, |ms| - 1) then MsgSz(ms[|ms| - 1]) - 1 else 0
  }

  lemma NewNext(vals: seq<Kvp>, ms: seq<Msg>, j: nat)
    requires j < |ms|
    ensures NewSz(vals, ms[..j + 1]) == NewSz(vals, ms[..j]) + if Opens(vals, ms, j) then MsgSz(ms[j]) - 1 else 0
  {
    hide MsgSz;
    var a := ms[..j + 1];
    assert a[..j] == ms[..j] && a[j] == ms[j];
    assert Opens(vals, a, j) <==> Opens(vals, ms, j) by {
      assert forall y :: 0 <= y < j ==> a[y] == ms[y];
    }
  }

  lemma {:induction false} NewMore(vals: seq<Kvp>, ms: seq<Msg>, i: nat, j: nat)
    requires i <= j <= |ms|
    ensures NewSz(vals, ms[..i]) <= NewSz(vals, ms[..j])
  {
    hide MsgSz, NewSz, Opens;
    if i < j {
      NewMore(vals, ms, i, j - 1);
      NewNext(vals, ms, j - 1);
      MsgPositive(ms[j - 1]);
    }
  }

  lemma MsgPositive(m: Msg)
    ensures MsgSz(m) > 0
  {
  }

  /** Only the first message of a run of one key makes an entry. */
  lemma {:induction false} NewRun(vals: seq<Kvp>, ms: seq<Msg>, i: nat, j: nat)
    requires i < j <= |ms| && forall y :: i <= y < j ==> ms[y].k == ms[i].k
    ensures NewSz(vals, ms[..j]) == NewSz(vals, ms[..i + 1])
  {
    hide MsgSz, NewSz;
    if i + 1 < j {
      NewRun(vals, ms, i, j - 1);
      NewNext(vals, ms, j - 1);
      assert ms[i].k == ms[j - 1].k;
    }
  }

  /** Of the messages taken, those below value x are the first j. */
  ghost predicate TakenBelow(vals: seq<Kvp>, ms: seq<Msg>, np: nat, x: nat, j: nat) {
    && x < |vals| && j <= np <= |ms| && (forall y :: 0 <= y < j ==> Rank(ms[y].k) < Rank(vals[x].k))
    && (j == np || Rank(vals[x].k) <= Rank(ms[j].k))
  }

  /** What has been copied when value x is reached. */
  ghost function CopiedTo(vals: seq<Kvp>, ms: seq<Msg>, x: nat, j: nat): nat
    requires x <= |vals| && j <= |ms|
  {
    KvpsSz(vals[..x]) + NewSz(vals, ms[..j])
  }

  /** The cut is at the first value, with two on either side, by which half has been copied; js says how many
      messages were taken below each value. */
  ghost predicate CutAtHalf(vals: seq<Kvp>, ms: seq<Msg>, np: nat, js: seq<nat>, c: nat, half: int) {
    && |js| == |vals| && 2 <= c <= |vals| - 2
    && (forall x: nat {:trigger TakenBelow(vals, ms, np, x, js[x])} ::
          x < |vals| ==> TakenBelow(vals, ms, np, x, js[x]))
    && (forall x: nat {:trigger TakenBelow(vals, ms, np, x, js[x])} ::
          2 <= x < c && TakenBelow(vals, ms, np, x, js[x]) ==> CopiedTo(vals, ms, x, js[x]) < half)
    && (TakenBelow(vals, ms, np, c, js[c]) ==> c == |vals| - 2 || CopiedTo(vals, ms, c, js[c]) >= half)
  }

  /** The pull goes on to the end, to a message above all values, or to one that does not fit beside the
      entries made so far. */
  ghost predicate PullsOn(vals: seq<Kvp>, ms: seq<Msg>, np: nat, spc: int) {
    np < |ms| && vals != [] ==>
      Rank(vals[|vals| - 1].k) < Rank(ms[np].k) || MsgSz(ms[np]) + NewSz(vals, ms[..np]) > spc
  }

  /** One turn of the loop: a value is copied, or meets its messages, or messages come before it. */
  method SplitStep(ms: seq<Msg>, i0: nat, j0: nat, m0: Option<Msg>, full0: bool, spc0: int, d: Blk, vals: seq<Kvp>,
                   ghost pre: seq<Kvp>, ghost top0: real, ghost lo: real, ghost hi: real)
    returns (i: nat, j: nat, m: Option<Msg>, full: bool, spc: int, pullsz: nat, copied: nat, ghost top: real)
    requires i0 < |vals| && j0 <= |ms| && d.leaf && Mergeable(vals, ms, lo, hi)
    requires Between(pre + d.vals, vals, i0, ms, j0, full0, top0, lo, hi)
    modifies d`vals
    ensures i0 <= i <= i0 + 1 && j0 <= j <= |ms| && i + j > i0 + j0
    ensures Between(pre + d.vals, vals, i, ms, j, full, top, lo, hi)
    ensures pullsz + MsgsSz(ms[..j0]) <= MsgsSz(ms[..j])
    ensures top0 < top && old(d.vals) <= d.vals
    ensures forall x :: |old(d.vals)| <= x < |d.vals| ==> top0 < Rank(d.vals[x].k)
    ensures CopiedTo(vals, ms, i, j) == CopiedTo(vals, ms, i0, j0) + copied
    ensures spc0 - spc <= NewSz(vals, ms[..j]) - NewSz(vals, ms[..j0])
    ensures pullsz + PullSz(vals, ms[..j0]) == PullSz(vals, ms[..j])
    ensures full0 ==> full && j == j0
    ensures full && !full0 ==> j < |ms| && MsgSz(ms[j]) > spc
    ensures i > i0 ==> forall y :: 0 <= y < j0 ==> Rank(ms[y].k) < Rank(vals[i0].k)
    ensures i > i0 && j0 < |ms| && Rank(ms[j0].k) < Rank(vals[i0].k) ==> full && j == j0
  {
    hide Between, Mergeable, MsgsSz, KvpsSz, Rank, ValSz, MsgSz, KeyCmpBody, CutIn, NewSz, PullSz;
    var c;
    c, m, full := PullMsg(ms, j0, Some(vals[i0].k), m0, full0, spc0);
    BelowNext(pre + d.vals, vals, i0, ms, j0, full0, top0, lo, hi);
    NextAbove(pre + d.vals, vals, i0, ms, j0, full0, top0, lo, hi);
    if c == -1 {
      BetweenCopy(pre + d.vals, vals, i0, ms, j0, full0, full, top0, lo, hi);
      assert pre + (d.vals + [vals[i0]]) == pre + d.vals + [vals[i0]];
      i, j, spc, pullsz, copied, top := i0 + 1, j0, spc0, 0, ValSz(vals[i0]), Rank(vals[i0].k);
      d.SetVal(vals[i0]);
      KvpsNext(vals, i0);
    } else {
      i, j, m, full, spc, pullsz, copied, top := ApplyGroup(ms, c, i0, j0, m, spc0, d, vals, pre, top0, lo, hi);
      NewRun(vals, ms, j0, j);
      NewNext(vals, ms, j0);
      if c == 0 { KvpsNext(vals, i0); }
    }
  }

  lemma KvpsNext(vals: seq<Kvp>, i: nat)
    requires i < |vals|
    ensures KvpsSz(vals[..i + 1]) == KvpsSz(vals[..i]) + ValSz(vals[i])
  {
    hide ValSz;
    assert vals[..i + 1][..i] == vals[..i];
  }

  /** What has been taken is below the next value, and a message below it opens an entry. */
  lemma BelowNext(out: seq<Kvp>, vals: seq<Kvp>, i: nat, ms: seq<Msg>, j: nat, full: bool, top: real, lo: real,
                  hi: real)
    requires i < |vals| && j <= |ms| && Between(out, vals, i, ms, j, full, top, lo, hi)
    requires Mergeable(vals, ms, lo, hi)
    ensures forall y :: 0 <= y < j ==> Rank(ms[y].k) < Rank(vals[i].k)
    ensures j < |ms| && !full && Rank(ms[j].k) < Rank(vals[i].k) ==> Opens(vals, ms, j)
    ensures j < |ms| && ms[j].k == vals[i].k ==> !Opens(vals, ms, j)
  {
    hide Rank, Merged, Fits, KvpOk, MsgOk, Play, Sel, Find;
    if j < |ms| && !full && Rank(ms[j].k) < Rank(vals[i].k) {
      forall v | v in vals ensures v.k != ms[j].k {
        var x :| 0 <= x < |vals| && vals[x] == v;
        if x < i { assert Rank(vals[x].k) <= top < Rank(ms[j].k); } else if x > i {
          assert Rank(vals[i].k) < Rank(vals[x].k);
        }
      }
      forall y | 0 <= y < j ensures ms[y].k != ms[j].k {
        assert Rank(ms[y].k) <= top < Rank(ms[j].k);
      }
    }
    if j < |ms| && ms[j].k == vals[i].k { assert vals[i] in vals; }
  }

  /** The loop of splitleaf: the values and a prefix of the segment are merged into two leaves. Values go left
      until half the size has been copied, at least two and at most all but two of them. */
  method SplitVals(vals: seq<Kvp>, ms: seq<Msg>, sz: nat, ghost lo: real, ghost hi: real)
    returns (l: Blk, r: Blk, j: nat, pulled: nat, ghost c: nat, ghost js: seq<nat>)
    requires |vals| >= 4 && Mergeable(vals, ms, lo, hi)
    ensures fresh(l) && fresh(r) && l.leaf && r.leaf && j <= |ms| && pulled <= MsgsSz(ms[..j])
    ensures pulled == PullSz(vals, ms[..j])
    ensures Replaces(Leaf(vals), 1, lo, hi, Entries(AsLeaf(l.vals), AsLeaf(r.vals)), ms[..j])
    ensures SplitAt(vals, l.vals, r.vals, c) && LeafMerged(vals, ms[..j], l.vals + r.vals)
    ensures CutAtHalf(vals, ms, j, js, c, HalfOf(vals, sz))
    ensures PullsOn(vals, ms, j, Leafspc - (HalfOf(vals, sz) + Msgmax))
  {
    hide Between, Mergeable, MsgsSz, KvpsSz, Rank, ValSz, MsgSz, KeyCmpBody, Replaces, Inv, View, Entries, CutIn,
         LeafMerged, SplitAt, NewSz, TakenBelow, CopiedTo, CutAtHalf, PullsOn, Cutting, PullSz;
    l := new Blk(true);
    r := new Blk(true);
    var d := l;
    var i: nat;
    i, j := 0, 0;
    var full := false;
    var copied := 0;
    pulled := 0;
    var halfsz := (LeafFill(vals) + sz) / 2;
    if halfsz > Leafspc / 2 {
      halfsz := Leafspc / 2;
    }
    var spc: int := Leafspc - (halfsz + Msgmax);
    var m: Option<Msg> := None;
    ghost var top: real := -1.0;
    ghost var out: seq<Kvp> := [];
    ghost var mid: real := -1.0;
    c, js := 2, [];
    Begin(vals, ms, lo, hi);
    CutBegin(vals, ms, halfsz, spc);
    while i < |vals|
      invariant i <= |vals| && j <= |ms|
      invariant (d == l && i <= |vals| - 2 && r.vals == [] && out == l.vals)
             || (d == r && out == l.vals + r.vals && CutIn(l.vals, r.vals, mid) && mid <= top)
      invariant d == r ==> 2 <= c <= |vals| - 2 && Rank(vals[c - 1].k) <= mid < Rank(vals[c].k)
      invariant Between(out, vals, i, ms, j, full, top, lo, hi)
      invariant pulled <= MsgsSz(ms[..j]) && pulled == PullSz(vals, ms[..j])
      invariant Cutting(vals, ms, i, j, full, js, if d == l then -1 else c, halfsz, copied, spc)
      decreases |vals| - i + |ms| - j
    {
      if d == l && (i == |vals| - 2 || (i >= 2 && copied >= halfsz)) {
        NextAbove(out, vals, i, ms, j, full, top, lo, hi);
        CutNow(vals, ms, i, j, full, js, halfsz, copied, spc);
        d, c, mid := r, i, top;
        spc := Leafspc - (halfsz + Msgmax);
      }
      ghost var pre := if d == l then [] else l.vals;
      assert out == pre + d.vals;
      ghost var r0, top0 := r.vals, top;
      ghost var i0, j0, full0, copied0, spc0 := i, j, full, copied, spc;
      var pullsz, more;
      i, j, m, full, spc, pullsz, more, top := SplitStep(ms, i, j, m, full, spc, d, vals, pre, top, lo, hi);
      out := pre + d.vals;
      copied := copied + more;
      pulled := pulled + pullsz;
      if d == r { CutMore(l.vals, r0, r.vals, mid, top0); }
      CutStep(vals, ms, i0, j0, full0, js, if d == l then -1 else c, halfsz, copied0, spc0, i, j, full, copied, spc);
      if i > i0 { js := js + [j0]; }
    }
    assert out == l.vals + r.vals;
    SplitReplaced(vals, ms, j, l.vals, r.vals, full, top, lo, hi);
    BetweenMerged(vals, ms, j, out, full, top, lo, hi);
    CutEnd(vals, l.vals, r.vals, c, mid);
    LastAbove(vals, ms, j, full, out, top, lo, hi);
    CutDone(vals, ms, j, full, js, c, halfsz, copied, spc);
  }

  /** splitleaf, with the blocks it leaves. */
  method SplitLeaf(up: Path, p: Path, ghost lo: real, ghost hi: real) returns (ghost c: nat, ghost js: seq<nat>)
    requires up != p && up.Offers() && p.b.Some? && p.b.value.Leaf? && |p.b.value.vals| >= 4
    requires Mergeable(p.b.value.vals, up.Offer(), lo, hi)
    requires p.pullsz == 0
    modifies p`npull, p`op, p`nl, p`nr, p`pullsz
    ensures p.op == POsplit && p.npull <= up.hi - up.lo && p.pullsz <= MsgsSz(up.Offer()[..p.npull])
    ensures p.pullsz == PullSz(p.b.value.vals, up.Offer()[..p.npull])
    ensures p.nl.Some? ==> p.nl.value.Leaf? && p.nl.value.vals != []
    ensures p.nr.Some? ==> p.nr.value.Leaf? && p.nr.value.vals != []
    ensures Replaces(p.b.value, 1, lo, hi, Entries(p.nl, p.nr), up.Offer()[..p.npull])
    ensures SplitAt(p.b.value.vals, ValsOf(p.nl), ValsOf(p.nr), c)
    ensures LeafMerged(p.b.value.vals, up.Offer()[..p.npull], ValsOf(p.nl) + ValsOf(p.nr))
    ensures var half := HalfOf(p.b.value.vals, up.sz);
            && CutAtHalf(p.b.value.vals, up.Offer(), p.npull, js, c, half)
            && PullsOn(p.b.value.vals, up.Offer(), p.npull, Leafspc - (half + Msgmax))
  {
    hide Mergeable, MsgsSz, Replaces, Entries, LeafMerged, SplitAt, CutAtHalf, PullsOn, HalfOf, PullSz;
    var ms := up.Offer();
    var l, r, j, pulled;
    l, r, j, pulled, c, js := SplitVals(p.b.value.vals, ms, up.sz, lo, hi);
    p.pullsz := p.pullsz + pulled;
    p.npull := j;
    p.op := POsplit;
    p.nl := l.SetB();
    p.nr := r.SetB();
    assert up.Offer() == ms;
  }

  /** halfsz */
  function HalfOf(vals: seq<Kvp>, sz: nat): nat {
    if (LeafFill(vals) + sz) / 2 > Leafspc / 2 then Leafspc / 2 else (LeafFill(vals) + sz) / 2
  }

  /** The loop with i values and j messages taken; the leaf has been cut at c, or not yet when c is -1. */
  ghost predicate Cutting(vals: seq<Kvp>, ms: seq<Msg>, i: nat, j: nat, full: bool, js: seq<nat>, c: int, half: int,
                          copied: int, spc: int) {
    && i <= |vals| && j <= |ms| && |js| == i && copied == CopiedTo(vals, ms, i, j)
    && spc >= Leafspc - (half + Msgmax) - NewSz(vals, ms[..j])
    && (full ==> j < |ms| && MsgSz(ms[j]) + NewSz(vals, ms[..j]) > Leafspc - (half + Msgmax))
    && (forall x :: 0 <= x < i ==> js[x] <= j && Reached(vals, ms, x, js[x], j, full))
    && (forall x :: 0 <= x < i && 2 <= x && (c == -1 || x < c) ==> CopiedTo(vals, ms, x, js[x]) < half)
    && (c != -1 ==> 2 <= c <= i && c <= |vals| - 2)
    && (c != -1 && c < |vals| - 2 ==>
          CopiedTo(vals, ms, c, if c < i then js[c] else j) >= half)
  }

  ghost predicate Reached(vals: seq<Kvp>, ms: seq<Msg>, x: nat, jx: nat, j: nat, full: bool) {
    && x < |vals| && jx <= j <= |ms| && (forall y :: 0 <= y < jx ==> Rank(ms[y].k) < Rank(vals[x].k))
    && ((full && jx == j) || jx == |ms| || Rank(vals[x].k) <= Rank(ms[jx].k))
  }

  lemma CutBegin(vals: seq<Kvp>, ms: seq<Msg>, half: int, spc: int)
    requires spc == Leafspc - (half + Msgmax)
    ensures Cutting(vals, ms, 0, 0, false, [], -1, half, 0, spc)
  {
  }

  lemma CutNow(vals: seq<Kvp>, ms: seq<Msg>, i: nat, j: nat, full: bool, js: seq<nat>, half: int, copied: int,
               spc: int)
    requires Cutting(vals, ms, i, j, full, js, -1, half, copied, spc)
    requires 2 <= i <= |vals| - 2 && (i == |vals| - 2 || copied >= half)
    ensures Cutting(vals, ms, i, j, full, js, i, half, copied, Leafspc - (half + Msgmax))
  {
    hide Reached, CopiedTo, NewSz, MsgSz;
  }

  lemma CutStep(vals: seq<Kvp>, ms: seq<Msg>, i: nat, j: nat, full: bool, js: seq<nat>, c: int, half: int,
                copied: int, spc: int, i': nat, j': nat, full': bool, copied': int, spc': int)
    requires Cutting(vals, ms, i, j, full, js, c, half, copied, spc) && i < |vals|
    requires i <= i' <= i + 1 && i' <= |vals| && j <= j' <= |ms|
    requires copied' - copied == CopiedTo(vals, ms, i', j') - CopiedTo(vals, ms, i, j)
    requires spc - spc' <= NewSz(vals, ms[..j']) - NewSz(vals, ms[..j])
    requires full ==> full' && j' == j
    requires full' && !full ==> j' < |ms| && MsgSz(ms[j']) > spc'
    requires i' > i ==> forall y :: 0 <= y < j ==> Rank(ms[y].k) < Rank(vals[i].k)
    requires i' > i && j < |ms| && Rank(ms[j].k) < Rank(vals[i].k) ==> full' && j' == j
    requires c == -1 ==> i < 2 || copied < half
    ensures Cutting(vals, ms, i', j', full', if i' > i then js + [j] else js, c, half, copied', spc')
  {
    hide Rank, MsgSz, NewSz, CopiedTo, Reached;
    var js' := if i' > i then js + [j] else js;
    NewMore(vals, ms, j, j');
    forall x | 0 <= x < i' ensures js'[x] <= j' && Reached(vals, ms, x, js'[x], j', full') {
      if x < i {
        ReachedMore(vals, ms, x, js[x], j, full, j', full');
      } else {
        ReachedNow(vals, ms, x, j, j', full');
      }
    }
    if c != -1 && c < |vals| - 2 && c == i && i' == i { CopiedMore(vals, ms, c, j, j'); }
  }

  lemma CopiedMore(vals: seq<Kvp>, ms: seq<Msg>, x: nat, j: nat, j': nat)
    requires x <= |vals| && j <= j' <= |ms|
    ensures CopiedTo(vals, ms, x, j) <= CopiedTo(vals, ms, x, j')
  {
    hide NewSz, KvpsSz;
    NewMore(vals, ms, j, j');
  }

  lemma ReachedMore(vals: seq<Kvp>, ms: seq<Msg>, x: nat, jx: nat, j: nat, full: bool, j': nat, full': bool)
    requires Reached(vals, ms, x, jx, j, full) && j <= j' <= |ms| && (full ==> full' && j' == j)
    ensures Reached(vals, ms, x, jx, j', full')
  {
    hide Rank;
  }

  lemma ReachedNow(vals: seq<Kvp>, ms: seq<Msg>, x: nat, j: nat, j': nat, full': bool)
    requires x < |vals| && j <= j' <= |ms| && forall y :: 0 <= y < j ==> Rank(ms[y].k) < Rank(vals[x].k)
    requires j < |ms| && Rank(ms[j].k) < Rank(vals[x].k) ==> full' && j' == j
    ensures Reached(vals, ms, x, j, j', full')
  {
    hide Rank;
  }

  lemma LastAbove(vals: seq<Kvp>, ms: seq<Msg>, j: nat, full: bool, out: seq<Kvp>, top: real, lo: real, hi: real)
    requires j <= |ms| && vals != [] && Between(out, vals, |vals|, ms, j, full, top, lo, hi)
    ensures j < |ms| && !full ==> Rank(vals[|vals| - 1].k) < Rank(ms[j].k)
  {
    hide Rank, Merged, Fits;
  }

  lemma CutDone(vals: seq<Kvp>, ms: seq<Msg>, j: nat, full: bool, js: seq<nat>, c: nat, half: int, copied: int,
                spc: int)
    requires Cutting(vals, ms, |vals|, j, full, js, c, half, copied, spc)
    requires vals != [] && (j < |ms| && !full ==> Rank(vals[|vals| - 1].k) < Rank(ms[j].k))
    ensures CutAtHalf(vals, ms, j, js, c, half) && PullsOn(vals, ms, j, Leafspc - (half + Msgmax))
  {
    hide Rank, MsgSz, NewSz, CopiedTo;
    forall x: nat | x < |vals| ensures TakenBelow(vals, ms, j, x, js[x]) {
      assert Reached(vals, ms, x, js[x], j, full);
    }
  }
}
