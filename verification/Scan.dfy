/** Scanning a tree in key order (src/tree.c, btnewscan, btenter and btnext). */
module Scanning {
  import opened Dat
  import opened Keys
  import opened Messages
  import opened Nodes
  import opened LeafMerge
  import opened Lookup
  import opened ScanPath

  // ----- the keys of a tree -----

  ghost function AllKeys(n: Node): set<Key>
    decreases n, 1
  {
    match n
    case Leaf(vals) => set j | 0 <= j < |vals| :: vals[j].k
    case Pivot(kids, buf) => (set j | 0 <= j < |buf| :: buf[j].k) + KidKeys(kids)
  }

  ghost function KidKeys(kids: seq<Kid>): set<Key>
    decreases kids, 0
  {
    if kids == [] then {} else AllKeys(kids[0].n) + KidKeys(kids[1..])
  }

  lemma {:induction false} AppearsKey(n: Node, y: Key)
    requires Appears(n, y)
    ensures y in AllKeys(n)
    decreases n, 1
  {
    if n.Pivot? && KidsAppear(n.kids, y) {
      KidKey(n.kids, Route(n.kids, y), y);
    }
  }

  lemma {:induction false} KidKey(kids: seq<Kid>, i: nat, y: Key)
    requires i < |kids| && Appears(kids[i].n, y)
    ensures y in KidKeys(kids)
    decreases kids, 0
  {
    if i == 0 {
      AppearsKey(kids[0].n, y);
    } else {
      KidKey(kids[1..], i - 1, y);
    }
  }

  /** The keys a scan at the cut may still come to. */
  ghost function Rest(root: Node, c: Key): set<Key> {
    set y | y in AllKeys(root) && Rank(c) <= Rank(y)
  }

  lemma RestLess(root: Node, c: Key, y: Key)
    requires Rank(c) <= Rank(y) && y in AllKeys(root)
    ensures |Rest(root, y + [0])| < |Rest(root, c)|
  {
    hide Rank;
    Successor(y, y);
    forall z | z in Rest(root, y + [0]) ensures z in Rest(root, c) && z != y {
      Successor(y, z);
    }
    assert Rest(root, y + [0]) <= Rest(root, c) - {y};
    Fewer(Rest(root, y + [0]), Rest(root, c) - {y});
  }

  lemma {:induction false} Fewer<T>(a: set<T>, b: set<T>)
    requires a <= b
    ensures |a| <= |b|
    decreases a
  {
    if a != {} {
      var x :| x in a;
      Fewer(a - {x}, b - {x});
    }
  }

  // ----- entering -----

  /** A level btenter has set up, its child perhaps not yet. */
  ghost predicate EnteredAt(p: seq<Scanp>, r: seq<Span>, h: nat, j: nat, c: Key) {
    && j < |p| == |r| && |p| <= h && p[j].b.Some? && Inv(p[j].b.value, h - j, r[j].lo, r[j].hi)
    && match p[j].b.value
       case Leaf(vals) => j + 1 == h && CutVals(vals, p[j].vi, c) && p[j].bi == 0
       case Pivot(kids, buf) =>
         && j + 1 < h && CutBuf(buf, p[j].bi, c) && CutKids(kids, p[j].vi, true, c) && p[j].vi < |kids|
         && (j + 1 < |p| ==> Linked(p, r, j))
  }

  /** Where a scan starts: at the key itself the first time, behind it when it goes on. */
  function CutOf(k: Key, first: bool): Key { if first then k else k + [0] }

  lemma CutIs(k: Key, first: bool, z: Key)
    ensures Rank(CutOf(k, first)) <= Rank(z) <==> if first then Rank(k) <= Rank(z) else Rank(k) < Rank(z)
  {
    Successor(k, z);
  }

  lemma EnterLeaf(b: Node, k: Key, first: bool, ri: int, same: bool, vi: int)
    requires b.Leaf? && -1 <= ri < |b.vals|
    requires forall i: nat :: i < ri ==> Rank(KeyAt(b, i)) < Rank(k)
    requires ri >= 0 ==> if same then KeyAt(b, ri) == k else Rank(KeyAt(b, ri)) < Rank(k)
    requires forall i: nat :: ri < i < Nval(b) ==> Rank(k) < Rank(KeyAt(b, i))
    requires vi == if ri == -1 || !same || !first then ri + 1 else ri
    ensures vi >= 0 && CutVals(b.vals, vi, CutOf(k, first))
  {
    hide Rank, CutOf, KeyAt;
    var c := CutOf(k, first);
    forall j: nat | j < |b.vals| ensures if j < vi then Rank(b.vals[j].k) < Rank(c) else Rank(c) <= Rank(b.vals[j].k) {
      CutIs(k, first, b.vals[j].k);
      LeafKey(b, j);
      if j < ri {
        assert Rank(KeyAt(b, j)) < Rank(k);
      } else if j > ri {
        assert Rank(k) < Rank(KeyAt(b, j));
      }
    }
    LeafCut(b.vals, vi, c);
  }

  lemma LeafKey(b: Node, j: nat)
    requires b.Leaf? && j < |b.vals|
    ensures KeyAt(b, j) == b.vals[j].k
  {
  }

  lemma LeafCut(vals: seq<Kvp>, vi: int, c: Key)
    requires 0 <= vi <= |vals|
    requires forall j: nat :: j < |vals| ==> if j < vi then Rank(vals[j].k) < Rank(c) else Rank(c) <= Rank(vals[j].k)
    ensures CutVals(vals, vi, c)
  {
    hide Rank;
  }

  /** Past the messages of the key when it has been returned, or of the last one below it. */
  method EnterBuf(buf: seq<Msg>, k: Key, first: bool) returns (bi: nat)
    requires SortedMsgs(buf)
    ensures CutBuf(buf, bi, CutOf(k, first))
  {
    hide Rank, KeyCmpBody;
    var ri, same := BufSearch(buf, k);
    if ri == -1 {
      bi := 0;
    } else {
      bi := ri;
      if !same || !first {
        var m := buf[ri].k;
        while bi < |buf|
          invariant ri <= bi <= |buf| && forall j :: ri <= j < bi ==> buf[j].k == m
        {
          if KeyCmp(m, buf[bi].k) != 0 {
            break;
          }
          bi := bi + 1;
        }
      }
    }
    forall j | 0 <= j < |buf|
      ensures if j < bi then Rank(buf[j].k) < Rank(CutOf(k, first)) else Rank(CutOf(k, first)) <= Rank(buf[j].k)
    {
      CutIs(k, first, buf[j].k);
    }
  }

  /** Where btenter goes down: the children before are spent, those behind not begun. */
  lemma EnterKids(b: Node, h: nat, lo: real, hi: real, k: Key, first: bool, ri: int, same: bool, vi: int)
    requires b.Pivot? && Inv(b, h, lo, hi) && -1 <= ri < |b.kids| && vi == (if ri == -1 then 0 else ri)
    requires ri >= 0 ==> Rank(b.kids[ri].k) <= Rank(k)
    requires forall i: nat :: ri < i < |b.kids| ==> Rank(k) < Rank(b.kids[i].k)
    ensures vi < |b.kids| && CutKids(b.kids, vi, true, CutOf(k, first))
    ensures h > 1 && Inv(b.kids[vi].n, h - 1, Rank(b.kids[vi].k), Upper(b.kids, vi, hi))
  {
    hide Rank, CutOf, Inv, Spent;
    PivotParts(b, h, lo, hi);
    assert KidInv(b.kids, vi, h - 1, hi);
    var c := CutOf(k, first);
    CutIs(k, first, k);
    CutAbove(k, first);
    forall j: nat | j < vi ensures Spent(b.kids[j].n, c) {
      assert KidInv(b.kids, j, h - 1, hi);
      KidsApart(b.kids, h - 1, lo, hi, j + 1, vi);
      SpentOutside(b.kids[j].n, h - 1, Rank(b.kids[j].k), Upper(b.kids, j, hi), c);
    }
    forall j: nat | vi < j < |b.kids| ensures Rank(c) <= Rank(b.kids[j].k) {
      CutIs(k, first, b.kids[j].k);
    }
  }

  lemma CutAbove(k: Key, first: bool)
    ensures Rank(k) <= Rank(CutOf(k, first))
  {
    Successor(k, CutOf(k, first));
  }

  lemma EnteredPath(root: Node, p: seq<Scanp>, r: seq<Span>, h: nat, c: Key)
    requires |p| == |r| == h > 0 && p[0].b == Some(root) && r[0] == Span(0.0, 1.0)
    requires forall j: nat {:trigger EnteredAt(p, r, h, j, c)} :: j < h ==> EnteredAt(p, r, h, j, c)
    ensures PathOk(root, p, r, c) && forall j: nat :: j < h ==> p[j].b.Some? && Loaded(p, j)
  {
    hide Inv, Rank, Spent, CutBuf, CutVals;
    forall j: nat | j < h ensures LevelOk(p, r, j, c) && p[j].b.Some? && Loaded(p, j) {
      assert EnteredAt(p, r, h, j, c);
      if j + 1 < h { assert EnteredAt(p, r, h, j + 1, c); }
    }
  }

  /** The block btenter is about to set up. */
  ghost predicate NextDown(p: seq<Scanp>, r: seq<Span>, i: nat, b: Node, s: Span)
    requires |p| == |r| == i > 0
  {
    var q := p[i - 1];
    q.b.Some? && q.b.value.Pivot? && q.vi < |q.b.value.kids|
    && b == q.b.value.kids[q.vi].n && s == Span(Rank(q.b.value.kids[q.vi].k), Upper(q.b.value.kids, q.vi, r[i - 1].hi))
  }

  /** A step down leaves the levels above as they are. */
  lemma EnteredMore(p: seq<Scanp>, r: seq<Span>, h: nat, c: Key, x: Scanp, s: Span)
    requires |p| == |r| < h && p != []
    requires forall j: nat {:trigger EnteredAt(p, r, h, j, c)} :: j < |p| ==> EnteredAt(p, r, h, j, c)
    requires x.b.Some? && NextDown(p, r, |p|, x.b.value, s)
    ensures forall j: nat {:trigger EnteredAt(p + [x], r + [s], h, j, c)} :: j < |p|
             ==> EnteredAt(p + [x], r + [s], h, j, c)
  {
    hide Inv, Rank, Spent, CutBuf, CutVals, CutKids;
    forall j: nat | j < |p| ensures EnteredAt(p + [x], r + [s], h, j, c) {
      assert EnteredAt(p, r, h, j, c);
    }
  }

  /** btenter, at the key the scan left off at. */
  method Enter(root: Node, h: nat, k: Key, first: bool) returns (p: seq<Scanp>, ghost r: seq<Span>)
    requires Inv(root, h, 0.0, 1.0)
    ensures |p| == h && forall j: nat :: j < h ==> p[j].b.Some? && Loaded(p, j)
    ensures PathOk(root, p, r, CutOf(k, first))
  {
    hide Inv, Rank, CutKids, CutBuf, CutVals, CutOf, SortedMsgs, Linked;
    InvParts(root, h, 0.0, 1.0);
    ghost var c := CutOf(k, first);
    var b := root;
    ghost var s := Span(0.0, 1.0);
    p, r := [], [];
    var i := 0;
    while i < h
      invariant 0 <= i <= h && |p| == |r| == i
      invariant i < h ==> Inv(b, h - i, s.lo, s.hi)
      invariant if i == 0 then b == root && s == Span(0.0, 1.0) else p[0].b == Some(root) && r[0] == Span(0.0, 1.0)
      invariant forall j: nat {:trigger EnteredAt(p, r, h, j, c)} :: j < i ==> EnteredAt(p, r, h, j, c)
      invariant 0 < i < h ==> NextDown(p, r, i, b, s)
    {
      InvParts(b, h - i, s.lo, s.hi);
      var ri, same := BlkSearch(b, k);
      var x: Scanp;
      ghost var q, t := p, r;
      if b.Pivot? {
        var vi := if ri == -1 then 0 else ri;
        RouteBounds(b, k, ri, same);
        PivotKeys(b, ri, k);
        EnterKids(b, h - i, s.lo, s.hi, k, first, ri, same, vi);
        var bi := EnterBuf(b.buf, k, first);
        x := Scanp(Some(b), vi, bi);
      } else {
        var vi := if ri == -1 || !same || !first then ri + 1 else ri;
        EnterLeaf(b, k, first, ri, same, vi);
        x := Scanp(Some(b), vi, 0);
      }
      if i > 0 { EnteredMore(p, r, h, c, x, s); }
      p := p + [x];
      r := r + [s];
      assert EnteredAt(p, r, h, i, c);
      if b.Pivot? {
        s := Span(Rank(b.kids[x.vi].k), Upper(b.kids, x.vi, s.hi));
        b := b.kids[x.vi].n;
      }
      i := i + 1;
    }
    EnteredPath(root, p, r, h, c);
  }

  lemma PivotKeys(b: Node, ri: int, k: Key)
    requires b.Pivot? && forall i: nat :: ri < i < Nval(b) ==> Rank(k) < Rank(KeyAt(b, i))
    ensures forall i: nat :: ri < i < |b.kids| ==> Rank(k) < Rank(b.kids[i].k)
  {
    hide Rank;
    forall i: nat | ri < i < |b.kids| ensures Rank(k) < Rank(b.kids[i].k) {
      assert KeyAt(b, i) == b.kids[i].k;
    }
  }
}
