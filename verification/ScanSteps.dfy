/** The steps of btnext on the path, one lemma each (src/tree.c). */
module ScanSteps {
  import opened Keys
  import opened Messages
  import opened Nodes
  import opened Lookup
  import opened ScanPath

  const NoScanp := Scanp(None, 0, 0)

  /** Values and messages are used up. */
  predicate Gone(x: Scanp)
    requires x.b.Some?
  {
    x.vi >= Nval(x.b.value) && (x.b.value.Pivot? ==> x.bi >= |x.b.value.buf|)
  }

  lemma Exhausted(p: seq<Scanp>, r: seq<Span>, i: nat, c: Key)
    requires LevelOk(p, r, i, c) && p[i].b.Some? && Gone(p[i]) && (i + 1 < |p| ==> p[i + 1].b.None?)
    ensures Spent(p[i].b.value, c)
  {
    hide Rank, KidsAppear, View;
    forall y | Rank(c) <= Rank(y) ensures !Appears(p[i].b.value, y) {
      if p[i].b.value.Pivot? {
        KidsSpent(p[i].b.value.kids, p[i].vi, c, y);
      }
    }
  }

  /** A block that is used up is let go, and its parent goes on to the next child. */
  function Dropped(p: seq<Scanp>, i: nat): seq<Scanp>
    requires 0 < i < |p|
  {
    p[i := NoScanp][i - 1 := p[i - 1].(vi := p[i - 1].vi + 1)]
  }

  lemma DropParent(p: seq<Scanp>, r: seq<Span>, i: nat, c: Key)
    requires 0 < i < |p| && LevelOk(p, r, i, c) && LevelOk(p, r, i - 1, c) && Loaded(p, i - 1)
    requires (i + 1 < |p| ==> p[i + 1].b.None?) && (p[i].b.Some? ==> Gone(p[i]))
    ensures LevelOk(Dropped(p, i), r, i - 1, c)
  {
    hide Rank, Spent, Inv, Gone;
    if p[i].b.Some? {
      Exhausted(p, r, i, c);
    }
  }

  lemma DropOk(root: Node, p: seq<Scanp>, r: seq<Span>, c: Key, i: nat)
    requires PathOk(root, p, r, c) && 0 < i < |p| && (forall j :: i < j < |p| ==> p[j] == NoScanp)
    requires p[i].b.Some? ==> Gone(p[i])
    requires forall j: nat :: j < i ==> Loaded(p, j)
    ensures PathOk(root, Dropped(p, i), r, c) && forall j: nat :: j < i - 1 ==> Loaded(Dropped(p, i), j)
  {
    hide Rank, Inv, CutKids, CutBuf, CutVals, Gone;
    var q := Dropped(p, i);
    LevelAt(root, p, r, c, i);
    LevelAt(root, p, r, c, i - 1);
    DropParent(p, r, i, c);
    forall j: nat | j < |q| ensures LevelOk(q, r, j, c) {
      assert LevelOk(p, r, j, c);
    }
    forall j: nat | j < i - 1 ensures Loaded(q, j) {
      assert Loaded(p, j);
    }
  }

  /** The child at the position is loaded, at its beginning. */
  function LoadedAt(p: seq<Scanp>, i: nat): seq<Scanp>
    requires 0 < i < |p| && p[i - 1].b.Some? && p[i - 1].b.value.Pivot? && p[i - 1].vi < |p[i - 1].b.value.kids|
  {
    p[i := Scanp(Some(p[i - 1].b.value.kids[p[i - 1].vi].n), 0, 0)]
  }

  ghost function SpanAt(p: seq<Scanp>, r: seq<Span>, i: nat): Span
    requires 0 < i < |p| == |r| && p[i - 1].b.Some? && p[i - 1].b.value.Pivot? && p[i - 1].vi < |p[i - 1].b.value.kids|
  {
    Span(Rank(p[i - 1].b.value.kids[p[i - 1].vi].k), Upper(p[i - 1].b.value.kids, p[i - 1].vi, r[i - 1].hi))
  }

  /** A block whose range is all at or above the cut, at its beginning. */
  lemma FreshLevel(n: Node, h: nat, lo: real, hi: real, c: Key)
    requires Inv(n, h, lo, hi) && Rank(c) <= lo
    ensures n.Leaf? ==> h == 1 && CutVals(n.vals, 0, c) && n.vals != []
    ensures n.Pivot? ==> h > 1 && CutBuf(n.buf, 0, c) && CutKids(n.kids, 0, false, c) && n.kids != []
  {
    hide Rank;
    if n.Pivot? { PivotParts(n, h, lo, hi); } else { LeafParts(n, h, lo, hi); }
  }

  lemma LoadOk(root: Node, p: seq<Scanp>, r: seq<Span>, c: Key, i: nat)
    requires PathOk(root, p, r, c) && 0 < i < |p| && forall j :: i <= j < |p| ==> p[j] == NoScanp
    requires p[i - 1].b.Some? && p[i - 1].b.value.Pivot? && p[i - 1].vi < |p[i - 1].b.value.kids|
    requires forall j: nat :: j < i - 1 ==> Loaded(p, j)
    ensures PathOk(root, LoadedAt(p, i), r[i := SpanAt(p, r, i)], c)
    ensures forall j: nat :: j < i ==> Loaded(LoadedAt(p, i), j)
    ensures LoadedAt(p, i)[i].vi < Nval(LoadedAt(p, i)[i].b.value)
             && (LoadedAt(p, i)[i].b.value.Pivot? <==> i + 1 < |p|)
  {
    hide Rank, Inv, CutBuf, CutVals, Spent;
    var q, t := LoadedAt(p, i), r[i := SpanAt(p, r, i)];
    LevelAt(root, p, r, c, i - 1);
    var n := p[i - 1].b.value;
    PivotParts(n, |p| - i + 1, r[i - 1].lo, r[i - 1].hi);
    assert KidInv(n.kids, p[i - 1].vi, |p| - i, r[i - 1].hi);
    FreshLevel(q[i].b.value, |p| - i, t[i].lo, t[i].hi, c);
    forall j: nat | j < |q| ensures LevelOk(q, t, j, c) {
      LevelAt(root, p, r, c, j);
    }
    forall j: nat | j < i ensures Loaded(q, j) {
      if j < i - 1 { assert Loaded(p, j); }
    }
  }

  // ----- choosing the next key -----

  /** y is below the end of every block, and everything is loaded. */
  ghost predicate Within(p: seq<Scanp>, r: seq<Span>, j: nat, c: Key, y: Key) {
    LevelOk(p, r, j, c) && Loaded(p, j) && (p[j].b.Some? ==> Rank(y) < r[j].hi)
  }

  /** And no level's next is below y. */
  ghost predicate Chosen(p: seq<Scanp>, r: seq<Span>, j: nat, c: Key, y: Key) {
    Within(p, r, j, c, y) && Ahead(p, j, y)
  }

  /** The next of a level is above y, if it has one. */
  ghost predicate Beyond(p: seq<Scanp>, i: nat, y: Key)
    requires i < |p|
  {
    Ahead(p, i, y + [0])
  }

  /** Up from a level where a key appears: it appears in the root. */
  lemma {:induction false} AppearsUp(p: seq<Scanp>, r: seq<Span>, c: Key, y: Key, i: nat)
    requires i < |p| && Rank(c) <= Rank(y)
    requires forall j: nat {:trigger Within(p, r, j, c, y)} :: j < |p| ==> Within(p, r, j, c, y)
    requires p[i].b.Some? && Appears(p[i].b.value, y)
    ensures p[0].b.Some? && Appears(p[0].b.value, y)
  {
    hide Rank, View, Inv, CutKids, CutBuf, CutVals;
    assert Within(p, r, i, c, y);
    if i > 0 {
      assert Within(p, r, i - 1, c, y);
      LevelKids(p, r, i - 1, c, y);
      AppearsUp(p, r, c, y, i - 1);
    }
  }

  /** What holds of the pending messages of a key in the root holds of them in every block loaded. */
  lemma {:induction false} StartsDown(p: seq<Scanp>, r: seq<Span>, c: Key, y: Key, i: nat)
    requires i < |p| && Rank(c) <= Rank(y) && p[0].b.Some? && Starts(p[0].b.value, y)
    requires forall j: nat {:trigger Within(p, r, j, c, y)} :: j < |p| ==> Within(p, r, j, c, y)
    requires p[i].b.Some?
    ensures Starts(p[i].b.value, y)
  {
    hide Rank, View, Inv, CutKids, CutBuf, CutVals, Starts;
    if i > 0 {
      assert Within(p, r, i, c, y);
      assert Within(p, r, i - 1, c, y);
      StartsDown(p, r, c, y, i - 1);
      LevelKids(p, r, i - 1, c, y);
    }
  }

  /** Below a level, with every next above it, a key does not appear. */
  lemma DeeperNone(p: seq<Scanp>, r: seq<Span>, c: Key, y: Key, i: nat)
    requires i < |p| && Rank(c) <= Rank(y)
    requires forall j: nat {:trigger Within(p, r, j, c, y)} :: j < |p| ==> Within(p, r, j, c, y)
    requires forall j: nat :: i <= j < |p| ==> Beyond(p, j, y)
    ensures !DownAppears(p, i, y)
  {
    hide Rank, View, Inv, CutKids, CutBuf, CutVals, Appears, LevelOk, Ahead;
    Successor(y, y);
    if p[i].b.Some? {
      forall j: nat | i <= j < |p| ensures Ready(p, r, j, c, y + [0], y) {
        assert Within(p, r, j, c, y);
        assert Beyond(p, j, y);
      }
      Before(p, r, i, c, y + [0], y);
    }
  }

  /** The messages of a key, when it is a level's next or nothing there is below it. */
  lemma RunFrom(buf: seq<Msg>, a: nat, y: Key) returns (e: nat)
    requires SortedMsgs(buf) && CutBuf(buf, a, y)
    ensures a <= e <= |buf| && Sel(buf, y) == buf[a..e] && (forall i :: a <= i < e ==> buf[i].k == y)
    ensures CutBuf(buf, e, y + [0])
    ensures e < |buf| ==> buf[e].k != y
    ensures e == a <==> !(a < |buf| && buf[a].k == y)
  {
    hide Rank, Sel;
    if a < |buf| && buf[a].k == y {
      e := RunEnd(buf, y, a);
    } else {
      e := a;
      forall m | m in buf ensures m.k != y {
        var i :| 0 <= i < |buf| && buf[i] == m;
        if i >= a && buf[i].k == y { RankInjective(buf[a].k, y); }
      }
      SelNone(buf, y);
    }
    forall i | 0 <= i < |buf|
      ensures if i < e then Rank(buf[i].k) < Rank(y + [0]) else Rank(y + [0]) <= Rank(buf[i].k)
    {
      Successor(y, buf[i].k);
      if i >= e {
        assert Rank(y) <= Rank(buf[e].k) <= Rank(buf[i].k);
        if Rank(buf[e].k) == Rank(y) { RankInjective(buf[e].k, y); }
      }
    }
  }

  lemma CutRaise(buf: seq<Msg>, a: nat, c: Key, y: Key)
    requires SortedMsgs(buf) && CutBuf(buf, a, c) && Rank(c) <= Rank(y) && (a < |buf| ==> Rank(y) <= Rank(buf[a].k))
    ensures CutBuf(buf, a, y)
  {
    hide Rank;
    forall j | a <= j < |buf| ensures Rank(y) <= Rank(buf[j].k) {
      assert Rank(buf[a].k) <= Rank(buf[j].k);
    }
  }

  /** The lowest message of a key that appears nowhere below is an insert. */
  lemma FirstInsert(p: seq<Scanp>, r: seq<Span>, c: Key, y: Key, i: nat)
    requires i + 1 < |p| && Rank(c) <= Rank(y) && p[0].b.Some? && Starts(p[0].b.value, y)
    requires forall j: nat {:trigger Within(p, r, j, c, y)} :: j < |p| ==> Within(p, r, j, c, y)
    requires p[i].b.Some? && p[i].b.value.Pivot? && p[i].bi < |p[i].b.value.buf| && p[i].b.value.buf[p[i].bi].k == y
    requires forall j: nat :: i < j < |p| ==> Beyond(p, j, y)
    ensures p[i].b.value.buf[p[i].bi].op.Oinsert? && !DownAppears(p, i + 1, y)
  {
    hide Rank, View, Inv, CutKids, CutVals, KidsAppear, KidsStart, Sel;
    assert Within(p, r, i, c, y) && Within(p, r, i + 1, c, y);
    var n := p[i].b.value;
    PivotParts(n, |p| - i, r[i].lo, r[i].hi);
    StartsDown(p, r, c, y, i);
    DeeperNone(p, r, c, y, i + 1);
    LevelKids(p, r, i, c, y);
    CutRaise(n.buf, p[i].bi, c, y);
    var e := RunFrom(n.buf, p[i].bi, y);
    assert Sel(n.buf, y)[0] == n.buf[p[i].bi];
  }

  // ----- moving past it -----

  /** A level once the key has been passed. */
  ghost predicate Passed(p: seq<Scanp>, q: seq<Scanp>, i: nat, y: Key)
    requires i < |p| == |q|
  {
    && q[i].b == p[i].b
    && match p[i].b
       case None => q[i] == p[i]
       case Some(n) =>
         match n
         case Leaf(vals) => CutVals(vals, q[i].vi, y + [0]) && q[i].bi == p[i].bi
         case Pivot(kids, buf) => CutBuf(buf, q[i].bi, y + [0]) && q[i].vi == p[i].vi
  }

  lemma PassKids(p: seq<Scanp>, r: seq<Span>, i: nat, c: Key, y: Key)
    requires LevelOk(p, r, i, c) && p[i].b.Some? && p[i].b.value.Pivot? && Rank(c) <= Rank(y) && Loaded(p, i)
    requires p[i + 1].b.Some? ==> Rank(y) < r[i + 1].hi
    ensures CutKids(p[i].b.value.kids, p[i].vi, p[i + 1].b.Some?, y + [0])
  {
    hide Rank, Inv, CutBuf, Appears;
    var n := p[i].b.value;
    PivotParts(n, |p| - i, r[i].lo, r[i].hi);
    PassCut(n.kids, |p| - i - 1, r[i].lo, r[i].hi, p[i].vi, p[i + 1].b.Some?, c, y);
  }

  lemma PassCut(kids: seq<Kid>, h: nat, lo: real, hi: real, vi: nat, loaded: bool, c: Key, y: Key)
    requires KidsInv(kids, h, lo, hi) && CutKids(kids, vi, loaded, c) && Rank(c) <= Rank(y)
    requires if loaded then vi < |kids| && Rank(y) < Upper(kids, vi, hi) else vi >= |kids|
    ensures CutKids(kids, vi, loaded, y + [0])
  {
    hide Rank, Inv, Spent, KidsInv;
    Successor(y, y);
    forall j: nat | j < vi && j < |kids| ensures Spent(kids[j].n, y + [0]) {
      SpentMore(kids[j].n, c, y + [0]);
    }
    forall j: nat | vi < j < |kids| ensures Rank(y + [0]) <= Rank(kids[j].k) {
      KidsApart(kids, h, lo, hi, vi + 1, j);
      Successor(y, kids[j].k);
    }
  }

  /** The scan now stands behind the key. */
  lemma PassOk(root: Node, p: seq<Scanp>, q: seq<Scanp>, r: seq<Span>, c: Key, y: Key)
    requires PathOk(root, p, r, c) && |q| == |p| && Rank(c) <= Rank(y)
    requires forall j: nat {:trigger Chosen(p, r, j, c, y)} :: j < |p| ==> Chosen(p, r, j, c, y)
    requires forall j: nat {:trigger Passed(p, q, j, y)} :: j < |p| ==> Passed(p, q, j, y)
    ensures PathOk(root, q, r, y + [0]) && forall j: nat :: j < |q| ==> Loaded(q, j)
  {
    hide Rank, Inv, CutKids, CutBuf, CutVals, Ahead;
    assert Passed(p, q, 0, y);
    forall j: nat | j < |q| ensures LevelOk(q, r, j, y + [0]) && Loaded(q, j) {
      assert Chosen(p, r, j, c, y) && Passed(p, q, j, y);
      if j + 1 < |p| { assert Chosen(p, r, j + 1, c, y) && Passed(p, q, j + 1, y); }
      if p[j].b.Some? && p[j].b.value.Pivot? {
        PassKids(p, r, j, c, y);
      }
    }
  }
}
