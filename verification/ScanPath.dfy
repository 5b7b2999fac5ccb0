/** What a scan knows of the path it stands on (src/tree.c, btenter and btnext). A scan stands at a
    cut: everything below it has been returned or passed over, nothing at or above it has. */
module ScanPath {
  import opened Keys
  import opened Messages
  import opened Nodes

  // ----- keys: successors and prefixes -----

  /** Nothing lies between a key and the same key with a zero behind it. */
  lemma {:induction false} Successor(k: Key, z: Key)
    ensures Rank(k + [0]) <= Rank(z) <==> Rank(k) < Rank(z)
  {
    if k == [] {
      var one: Key := [0];
      assert k + [0] == one && one[1..] == k;
      assert Rank(one) == 1.0 / 258.0;
    } else {
      assert (k + [0])[0] == k[0] && (k + [0])[1..] == k[1..] + [0];
      if z != [] && z[0] == k[0] {
        Successor(k[1..], z[1..]);
      }
    }
  }

  predicate HasPrefix(k: Key, pfx: Key) { pfx <= k }

  /** The keys with a prefix have no others between them. */
  lemma {:induction false} PrefixRun(pfx: Key, y: Key, z: Key)
    requires Rank(pfx) <= Rank(y) <= Rank(z) && HasPrefix(z, pfx)
    ensures HasPrefix(y, pfx)
  {
    if pfx != [] {
      assert z[0] == pfx[0] && y != [];
      assert y[0] == pfx[0];
      PrefixRun(pfx[1..], y[1..], z[1..]);
      assert y == [y[0]] + y[1..] && pfx == [pfx[0]] + pfx[1..];
    }
  }

  lemma {:induction false} PrefixLow(pfx: Key, z: Key)
    requires HasPrefix(z, pfx)
    ensures Rank(pfx) <= Rank(z)
  {
    if pfx != [] {
      assert z[0] == pfx[0];
      PrefixLow(pfx[1..], z[1..]);
    }
  }

  // ----- where a key appears -----

  /** The key has an entry in its leaf, or a pending message above it. */
  ghost predicate Appears(n: Node, y: Key)
    decreases n, 1
  {
    match n
    case Leaf(vals) => exists j :: 0 <= j < |vals| && vals[j].k == y
    case Pivot(kids, buf) => (exists j :: 0 <= j < |buf| && buf[j].k == y) || KidsAppear(kids, y)
  }

  ghost predicate KidsAppear(kids: seq<Kid>, y: Key)
    decreases kids, 0
  {
    var i := Route(kids, y);
    i >= 0 && Appears(kids[i].n, y)
  }

  /** The lowest pending message of a key without an entry is an insert. */
  ghost predicate Starts(n: Node, y: Key)
    decreases n, 1
  {
    match n
    case Leaf(_) => true
    case Pivot(kids, buf) =>
      KidsStart(kids, y) && (KidsAppear(kids, y) || Sel(buf, y) == [] || Sel(buf, y)[0].op.Oinsert?)
  }

  ghost predicate KidsStart(kids: seq<Kid>, y: Key)
    decreases kids, 0
  {
    var i := Route(kids, y);
    i < 0 || Starts(kids[i].n, y)
  }

  /** A key that does not appear has no entry. */
  lemma {:induction false} NotThere(n: Node, y: Key)
    requires !Appears(n, y)
    ensures View(n, y) == Absent
    decreases n, 1
  {
    match n {
      case Leaf(vals) => FindNone(vals, y);
      case Pivot(kids, buf) =>
        SelNone(buf, y);
        KidsNotThere(kids, y);
    }
  }

  lemma {:induction false} KidsNotThere(kids: seq<Kid>, y: Key)
    requires !KidsAppear(kids, y)
    ensures KidsView(kids, y) == Absent
    decreases kids, 0
  {
    var i := Route(kids, y);
    if i >= 0 {
      NotThere(kids[i].n, y);
    }
  }

  /** Keys appear only in the range of a subtree. */
  lemma {:induction false} AppearsIn(n: Node, h: nat, lo: real, hi: real, y: Key)
    requires Inv(n, h, lo, hi) && Appears(n, y)
    ensures lo <= Rank(y) < hi
    decreases h, 1
  {
    hide Rank;
    if n.Pivot? && KidsAppear(n.kids, y) {
      var i := Route(n.kids, y);
      assert KidInv(n.kids, i, h - 1, hi);
      AppearsIn(n.kids[i].n, h - 1, Rank(n.kids[i].k), Upper(n.kids, i, hi), y);
    }
  }

  lemma {:induction false} StartsBelow(n: Node, h: nat, lo: real, hi: real, y: Key)
    requires Inv(n, h, lo, hi) && Rank(y) < lo
    ensures Starts(n, y)
  {
    hide Rank;
    if n.Pivot? {
      SelNone(n.buf, y);
      RouteIs(n.kids, y, -1);
    }
  }

  /** Nothing at or above the cut appears. */
  ghost predicate Spent(n: Node, c: Key) {
    forall y :: Rank(c) <= Rank(y) ==> !Appears(n, y)
  }

  lemma SpentOutside(n: Node, h: nat, lo: real, hi: real, c: Key)
    requires Inv(n, h, lo, hi) && hi <= Rank(c)
    ensures Spent(n, c)
  {
    hide Rank, Appears, Inv;
    forall y | Rank(c) <= Rank(y) ensures !Appears(n, y) {
      if Appears(n, y) { AppearsIn(n, h, lo, hi, y); }
    }
  }

  lemma SpentMore(n: Node, c: Key, c': Key)
    requires Spent(n, c) && Rank(c) <= Rank(c')
    ensures Spent(n, c')
  {
  }

  // ----- one level of the path -----

  /** A level of the path: the block, and the next value and message. */
  datatype Scanp = Scanp(b: Option<Node>, vi: nat, bi: nat)

  datatype Span = Span(lo: real, hi: real)

  /** The values or messages below the cut are behind, the others ahead. */
  ghost predicate CutVals(vals: seq<Kvp>, vi: nat, c: Key) {
    && vi <= |vals|
    && (forall j :: 0 <= j < vi ==> Rank(vals[j].k) < Rank(c))
    && (forall j :: vi <= j < |vals| ==> Rank(c) <= Rank(vals[j].k))
  }

  ghost predicate CutBuf(buf: seq<Msg>, bi: nat, c: Key) {
    && bi <= |buf|
    && (forall j :: 0 <= j < bi ==> Rank(buf[j].k) < Rank(c))
    && (forall j :: bi <= j < |buf| ==> Rank(c) <= Rank(buf[j].k))
  }

  /** The children before vi are spent, those behind it not yet begun, nor is vi if it is not loaded. */
  ghost predicate CutKids(kids: seq<Kid>, vi: nat, loaded: bool, c: Key) {
    && (forall j :: 0 <= j < vi && j < |kids| ==> Spent(kids[j].n, c))
    && (forall j :: vi < j < |kids| ==> Rank(c) <= Rank(kids[j].k))
    && (!loaded && vi < |kids| ==> Rank(c) <= Rank(kids[vi].k))
  }

  ghost predicate Linked(p: seq<Scanp>, r: seq<Span>, i: nat)
    requires i + 1 < |p| == |r| && p[i].b.Some? && p[i].b.value.Pivot?
  {
    p[i + 1].b.Some? ==>
      && p[i].vi < |p[i].b.value.kids| && p[i + 1].b.value == p[i].b.value.kids[p[i].vi].n
      && r[i + 1] == Span(Rank(p[i].b.value.kids[p[i].vi].k), Upper(p[i].b.value.kids, p[i].vi, r[i].hi))
  }

  ghost predicate LevelOk(p: seq<Scanp>, r: seq<Span>, i: nat, c: Key) {
    && i < |p| == |r|
    && match p[i].b
       case None => i > 0 && (i + 1 < |p| ==> p[i + 1].b.None?)
       case Some(n) =>
         && Inv(n, |p| - i, r[i].lo, r[i].hi)
         && match n
            case Leaf(vals) => i + 1 == |p| && CutVals(vals, p[i].vi, c) && p[i].bi == 0
            case Pivot(kids, buf) =>
              && i + 1 < |p| && CutBuf(buf, p[i].bi, c) && CutKids(kids, p[i].vi, p[i + 1].b.Some?, c)
                  && Linked(p, r, i)
  }

  /** The path of a scan of root standing at the cut. */
  ghost predicate PathOk(root: Node, p: seq<Scanp>, r: seq<Span>, c: Key) {
    && |p| == |r| > 0 && p[0].b == Some(root) && r[0] == Span(0.0, 1.0)
    && (forall i: nat {:trigger LevelOk(p, r, i, c)} :: i < |p| ==> LevelOk(p, r, i, c))
  }

  // ----- what a level says of the tree -----

  lemma LevelAt(root: Node, p: seq<Scanp>, r: seq<Span>, c: Key, i: nat)
    requires PathOk(root, p, r, c) && i < |p|
    ensures LevelOk(p, r, i, c)
  {
  }

  /** The next value or message of a level is not below y. */
  ghost predicate Ahead(p: seq<Scanp>, i: nat, y: Key)
    requires i < |p|
  {
    p[i].b.Some? ==>
      match p[i].b.value
      case Leaf(vals) => p[i].vi < |vals| ==> Rank(y) <= Rank(vals[p[i].vi].k)
      case Pivot(_, buf) => p[i].bi < |buf| ==> Rank(y) <= Rank(buf[p[i].bi].k)
  }

  /** Every block is loaded that the position is in: a pivot whose child is not has no child left. */
  ghost predicate Loaded(p: seq<Scanp>, i: nat)
    requires i < |p|
  {
    p[i].b.Some? && p[i].b.value.Pivot? && i + 1 < |p| && p[i + 1].b.None? ==> p[i].vi >= |p[i].b.value.kids|
  }

  /** The state a loaded level leaves for the one above. */
  ghost function Down(p: seq<Scanp>, i: nat, y: Key): St {
    if i < |p| && p[i].b.Some? then View(p[i].b.value, y) else Absent
  }

  ghost predicate DownAppears(p: seq<Scanp>, i: nat, y: Key) {
    i < |p| && p[i].b.Some? && Appears(p[i].b.value, y)
  }

  /** A key at or above the cut and below the end of the child loaded is to be found in that child or
      not at all. */
  lemma KidsLoaded(kids: seq<Kid>, vi: nat, h: nat, lo: real, hi: real, c: Key, y: Key)
    requires KidsInv(kids, h, lo, hi) && vi < |kids| && CutKids(kids, vi, true, c)
    requires Rank(c) <= Rank(y) < Upper(kids, vi, hi)
    ensures KidsView(kids, y) == View(kids[vi].n, y)
    ensures KidsAppear(kids, y) <==> Appears(kids[vi].n, y)
    ensures KidsStart(kids, y) ==> Starts(kids[vi].n, y)
  {
    hide Rank, View, Inv, Appears, Starts;
    var t := Route(kids, y);
    RouteSpec(kids, y);
    UpTo(kids, h, lo, hi, vi, t, y);
    if t == vi {
      RouteView(kids, y);
    } else {
      assert KidInv(kids, vi, h, hi);
      var kid := kids[vi].n;
      if Appears(kid, y) { AppearsIn(kid, h, Rank(kids[vi].k), Upper(kids, vi, hi), y); }
      NotThere(kid, y);
      if t >= 0 { assert Spent(kids[t].n, c); }
      KidsNotThere(kids, y);
      StartsBelow(kid, h, Rank(kids[vi].k), Upper(kids, vi, hi), y);
    }
  }

  lemma UpTo(kids: seq<Kid>, h: nat, lo: real, hi: real, vi: nat, t: int, y: Key)
    requires KidsInv(kids, h, lo, hi) && vi < |kids| && Rank(y) < Upper(kids, vi, hi) && t == Route(kids, y)
    ensures t <= vi && (t < vi ==> Rank(y) < Rank(kids[vi].k))
  {
    hide Rank, Inv;
    RouteSpec(kids, y);
    if vi < t {
      KidsApart(kids, h, lo, hi, vi + 1, t);
    }
  }

  lemma KidsApart(kids: seq<Kid>, h: nat, lo: real, hi: real, i: nat, j: nat)
    requires KidsInv(kids, h, lo, hi) && i <= j < |kids|
    ensures Rank(kids[i].k) <= Rank(kids[j].k)
  {
  }

  /** With every child spent, a key at or above the cut is in none. */
  lemma KidsSpent(kids: seq<Kid>, vi: nat, c: Key, y: Key)
    requires CutKids(kids, vi, false, c) && vi >= |kids| && Rank(c) <= Rank(y)
    ensures KidsView(kids, y) == Absent && !KidsAppear(kids, y)
  {
    hide Rank, View, Appears;
    var t := Route(kids, y);
    if t >= 0 { assert Spent(kids[t].n, c); }
    KidsNotThere(kids, y);
  }

  lemma LevelKids(p: seq<Scanp>, r: seq<Span>, i: nat, c: Key, y: Key)
    requires LevelOk(p, r, i, c) && p[i].b.Some? && p[i].b.value.Pivot? && Rank(c) <= Rank(y) && Loaded(p, i)
    requires p[i + 1].b.Some? ==> Rank(y) < r[i + 1].hi
    ensures KidsView(p[i].b.value.kids, y) == Down(p, i + 1, y)
    ensures KidsAppear(p[i].b.value.kids, y) <==> DownAppears(p, i + 1, y)
    ensures Starts(p[i].b.value, y) && p[i + 1].b.Some? ==> Starts(p[i + 1].b.value, y)
  {
    hide Rank, View, Inv, Appears, CutBuf, CutKids, KidsView, KidsAppear, KidsStart;
    var n := p[i].b.value;
    PivotParts(n, |p| - i, r[i].lo, r[i].hi);
    if p[i + 1].b.Some? {
      KidsLoaded(n.kids, p[i].vi, |p| - i - 1, r[i].lo, r[i].hi, c, y);
    } else {
      KidsSpent(n.kids, p[i].vi, c, y);
    }
  }

  lemma RouteView(kids: seq<Kid>, y: Key)
    requires Route(kids, y) >= 0
    ensures KidsView(kids, y) == View(kids[Route(kids, y)].n, y)
  {
  }

  lemma PivotParts(n: Node, h: nat, lo: real, hi: real)
    requires Inv(n, h, lo, hi) && n.Pivot?
    ensures h > 1 && n.kids != [] && KidsInv(n.kids, h - 1, lo, hi) && Ascending(n.kids)
    ensures SortedMsgs(n.buf) && forall i :: 0 <= i < |n.buf| ==> lo <= Rank(n.buf[i].k) < hi
    ensures forall i :: 0 <= i < |n.kids| ==> lo <= Rank(n.kids[i].k) < hi
  {
    hide Rank;
  }

  lemma LeafParts(n: Node, h: nat, lo: real, hi: real)
    requires Inv(n, h, lo, hi) && n.Leaf?
    ensures h == 1 && n.vals != [] && SortedVals(n.vals)
    ensures forall i :: 0 <= i < |n.vals| ==> lo <= Rank(n.vals[i].k) < hi
  {
    hide Rank;
  }

  /** What is known of every level when the next key is chosen: y is not above any level's next, and z
      is below the end of every block. */
  ghost predicate Ready(p: seq<Scanp>, r: seq<Span>, j: nat, c: Key, y: Key, z: Key) {
    LevelOk(p, r, j, c) && Ahead(p, j, y) && Loaded(p, j) && (p[j].b.Some? ==> Rank(z) < r[j].hi)
  }

  /** Nothing appears from the cut up to a key that no level's next is below. */
  lemma {:induction false} Before(p: seq<Scanp>, r: seq<Span>, i: nat, c: Key, y: Key, z: Key)
    requires i < |p| && p[i].b.Some? && Rank(c) <= Rank(z) < Rank(y)
    requires forall j: nat {:trigger Ready(p, r, j, c, y, z)} :: i <= j < |p| ==> Ready(p, r, j, c, y, z)
    ensures !Appears(p[i].b.value, z)
    decreases |p| - i
  {
    hide Rank, Spent, Inv, View, KidsAppear, Starts;
    assert Ready(p, r, i, c, y, z);
    var n := p[i].b.value;
    match n {
      case Leaf(vals) =>
        LeafParts(n, |p| - i, r[i].lo, r[i].hi);
        forall j | 0 <= j < |vals| ensures vals[j].k != z {
          if j >= p[i].vi { assert Rank(vals[p[i].vi].k) <= Rank(vals[j].k); }
        }
      case Pivot(kids, buf) =>
        PivotParts(n, |p| - i, r[i].lo, r[i].hi);
        forall j | 0 <= j < |buf| ensures buf[j].k != z {
          if j >= p[i].bi { assert Rank(buf[p[i].bi].k) <= Rank(buf[j].k); }
        }
        assert Ready(p, r, i + 1, c, y, z);
        LevelKids(p, r, i, c, z);
        if p[i + 1].b.Some? {
          Before(p, r, i + 1, c, y, z);
        }
    }
  }

  /** A key below the end of the deepest block loaded is below the end of all above it. */
  lemma {:induction false} HiUp(p: seq<Scanp>, r: seq<Span>, i: nat, d: nat, c: Key)
    requires i <= d < |p| == |r| && p[d].b.Some?
    requires forall j: nat {:trigger LevelOk(p, r, j, c)} :: i <= j < |p| ==> LevelOk(p, r, j, c)
    ensures p[i].b.Some? && r[d].hi <= r[i].hi
    decreases d - i
  {
    hide Rank, CutKids, CutBuf, CutVals, Inv;
    assert LevelOk(p, r, i, c);
    if i < d {
      HiUp(p, r, i + 1, d, c);
      assert LevelOk(p, r, i + 1, c);
      var n := p[i].b.value;
      PivotParts(n, |p| - i, r[i].lo, r[i].hi);
    }
  }
}
