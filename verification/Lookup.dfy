/** Searching blocks and looking a key up (src/tree.c, blksearch, bufsearch and btlookup). */
module Lookup {
  import opened Dat
  import opened Keys
  import opened Messages
  import opened Nodes
  import opened Splice
  import opened LeafMerge
  import opened BufMerge
  import opened PivUpdate
  import opened Sorting

  /** nval and the key of entry i, in a leaf or a pivot. */
  function Nval(b: Node): nat { if b.Leaf? then |b.vals| else |b.kids| }

  function KeyAt(b: Node, i: nat): Key
    requires i < Nval(b)
  {
    if b.Leaf? then b.vals[i].k else b.kids[i].k
  }

  ghost predicate SortedNode(b: Node) {
    forall i: nat, j: nat :: i < j < Nval(b) ==> Rank(KeyAt(b, i)) < Rank(KeyAt(b, j))
  }

  /** blksearch: the last entry at or below the key, and whether it is the key's. */
  method BlkSearch(b: Node, k: Key) returns (ri: int, same: bool)
    requires SortedNode(b)
    ensures -1 <= ri < Nval(b)
    ensures forall i: nat :: i < ri ==> Rank(KeyAt(b, i)) < Rank(k)
    ensures ri >= 0 ==> if same then KeyAt(b, ri) == k else Rank(KeyAt(b, ri)) < Rank(k)
    ensures forall i: nat :: ri < i < Nval(b) ==> Rank(k) < Rank(KeyAt(b, i))
    ensures same ==> ri >= 0
  {
    hide Rank, KeyCmpBody;
    var lo, hi: int := 0, Nval(b) - 1;
    ri := -1;
    while lo <= hi
      invariant 0 <= lo <= hi + 1 <= Nval(b)
      invariant forall i: nat :: i < lo ==> Rank(KeyAt(b, i)) < Rank(k)
      invariant ri == -1 ==> forall i: nat :: hi < i < Nval(b) ==> Rank(k) < Rank(KeyAt(b, i))
      invariant ri != -1 ==> hi < ri < Nval(b) && KeyAt(b, ri) == k
    {
      var mid := (hi + lo) / 2;
      var r := KeyCmp(k, KeyAt(b, mid));
      if r == -1 {
        hi := mid - 1;
      } else if r == 0 {
        ri := mid;
        hi := mid - 1;
      } else {
        lo := mid + 1;
      }
    }
    same := false;
    if ri == -1 {
      ri := lo - 1;
    } else {
      same := true;
    }
  }

  /** bufsearch: the first message of the key, or the last one below it. */
  method BufSearch(buf: seq<Msg>, k: Key) returns (ri: int, same: bool)
    requires SortedMsgs(buf)
    ensures -1 <= ri < |buf|
    ensures forall i :: 0 <= i < ri ==> Rank(buf[i].k) < Rank(k)
    ensures same ==> ri >= 0 && buf[ri].k == k
    ensures !same ==> (ri >= 0 ==> Rank(buf[ri].k) < Rank(k))
                      && forall i :: ri < i < |buf| ==> Rank(k) < Rank(buf[i].k)
  {
    hide Rank, KeyCmpBody;
    var lo, hi: int := 0, |buf| - 1;
    ri := -1;
    while lo <= hi
      invariant 0 <= lo <= hi + 1 <= |buf|
      invariant forall i :: 0 <= i < lo ==> Rank(buf[i].k) < Rank(k)
      invariant ri == -1 ==> forall i :: hi < i < |buf| ==> Rank(k) < Rank(buf[i].k)
      invariant ri != -1 ==> hi + 1 == ri < |buf| && buf[ri].k == k
    {
      var mid := (hi + lo) / 2;
      var r := KeyCmp(k, buf[mid].k);
      if r == -1 {
        hi := mid - 1;
        if ri != -1 { assert false; }
      } else if r == 0 {
        ri := mid;
        hi := mid - 1;
      } else {
        lo := mid + 1;
      }
    }
    same := false;
    if ri == -1 {
      ri := lo - 1;
    } else {
      same := true;
    }
  }

  /** The messages of a key are the run that bufsearch finds. */
  lemma SelRun(buf: seq<Msg>, k: Key, a: nat, b: nat)
    requires a <= b <= |buf|
    requires forall i :: 0 <= i < a ==> buf[i].k != k
    requires forall i :: a <= i < b ==> buf[i].k == k
    requires forall i :: b <= i < |buf| ==> buf[i].k != k
    ensures Sel(buf, k) == buf[a..b]
  {
    hide Sel;
    assert buf == buf[..a] + buf[a..b] + buf[b..];
    SelThree(buf[..a], buf[a..b], buf[b..], k);
    SelNone(buf[..a], k);
    SelNone(buf[b..], k);
    SelAll(buf[a..b], k);
  }

  lemma {:induction false} SelAll(ms: seq<Msg>, k: Key)
    requires forall i :: 0 <= i < |ms| ==> ms[i].k == k
    ensures Sel(ms, k) == ms
  {
    if ms != [] {
      SelAll(ms[..|ms| - 1], k);
      assert ms == ms[..|ms| - 1] + [ms[|ms| - 1]];
    }
  }

  /** Where the run of a key that starts at a ends. */
  lemma RunEnd(buf: seq<Msg>, k: Key, a: nat) returns (e: nat)
    requires SortedMsgs(buf) && a < |buf| && buf[a].k == k
    requires forall i :: 0 <= i < a ==> Rank(buf[i].k) < Rank(k)
    ensures a < e <= |buf| && (forall i :: a <= i < e ==> buf[i].k == k)
    ensures e < |buf| ==> buf[e].k != k
    ensures Sel(buf, k) == buf[a..e]
  {
    hide Rank, Sel;
    e := a + 1;
    while e < |buf| && buf[e].k == k
      invariant a < e <= |buf| && forall i :: a <= i < e ==> buf[i].k == k
    {
      e := e + 1;
    }
    forall i | e <= i < |buf| ensures buf[i].k != k {
      assert Rank(k) <= Rank(buf[e].k) <= Rank(buf[i].k);
      if buf[i].k == k { RankInjective(buf[e].k, k); }
    }
    SelRun(buf, k, a, e);
  }

  lemma PlayStep(s: St, run: seq<Msg>, n: nat)
    requires n < |run| && Play(s, run) != Bad
    ensures Play(s, run[..n + 1]) == Apply(Play(s, run[..n]), run[n]) != Bad
  {
    assert run[..n + 1][..n] == run[..n];
    assert run == run[..n + 1] + run[n + 1..];
    PlayPrefix(s, run[..n + 1], run[n + 1..]);
  }

  /** Without an entry, only an insert or a clear may come first. */
  lemma ClearAbsent(m: Msg)
    requires Apply(Absent, m) != Bad && !m.op.Oinsert?
    ensures Apply(Absent, m) == Absent && (m.op.Oclearb? || m.op.Oclobber?)
  {
  }

  /** The pending messages of one pivot, applied to what the level below left. */
  method ApplyPending(buf: seq<Msg>, k: Key, ok0: bool, v0: Value) returns (ok: bool, v: Value)
    requires SortedMsgs(buf) && Play(Live(ok0, v0), Sel(buf, k)) != Bad
    ensures Live(ok, v) == Play(Live(ok0, v0), Sel(buf, k))
  {
    hide Rank, Apply, ApplyKv, SortedMsgs, Sel, KeyCmpBody;
    ok, v := ok0, v0;
    var j, same := BufSearch(buf, k);
    if j < 0 || !same {
      SelNone(buf, k);
      return;
    }
    ghost var a := j;
    ghost var e := RunEnd(buf, k, a);
    ghost var run := buf[a..e];
    ghost var s0 := Live(ok0, v0);
    PlayStep(s0, run, 0);
    if ok || buf[j].op.Oinsert? {
      ApplyKvIs(ok, v, buf[j]);
      var r := ApplyKv(v, buf[j].op);
      ok, v := r.0, r.1;
    } else {
      ClearAbsent(buf[j]);
    }
    j := j + 1;
    while j < |buf|
      invariant a < j <= e
      invariant Live(ok, v) == Play(s0, run[..j - a])
    {
      if KeyCmp(k, buf[j].k) != 0 {
        break;
      }
      assert j < e;
      PlayStep(s0, run, j - a);
      ApplyKvIs(ok, v, buf[j]);
      var r := ApplyKv(v, buf[j].op);
      ok, v := r.0, r.1;
      j := j + 1;
    }
    assert run[..j - a] == run;
  }

  /** The state of a key below a level that was reached, or below one that was not. */
  ghost function Below(p: seq<Option<Node>>, i: nat, k: Key): St {
    if i < |p| && p[i].Some? then View(p[i].value, k) else Absent
  }

  /** The blocks btlookup holds: node i is where the key is routed from node i-1. */
  ghost predicate Routed(p: seq<Option<Node>>, n: nat, h: nat, k: Key) {
    && 1 <= n <= h == |p|
    && (forall i :: 0 <= i < n ==> p[i].Some? && SortedNode(p[i].value))
    && (forall i :: n <= i < h ==> p[i] == None)
    && (forall i: nat {:trigger PivotAt(p, i, k)} :: i < n && i < h - 1 ==> PivotAt(p, i, k))
    && (n == h ==> p[h - 1].value.Leaf?)
  }

  ghost predicate PivotAt(p: seq<Option<Node>>, i: nat, k: Key) {
    && i < |p| && p[i].Some? && p[i].value.Pivot? && SortedMsgs(p[i].value.buf)
    && View(p[i].value, k) == Play(Below(p, i + 1, k), Sel(p[i].value.buf, k))
  }

  /** One step down: a key below the first pivot is in no child, any other in the routed one. */
  lemma StepDown(n: Node, h: nat, lo: real, hi: real, k: Key, ri: int)
    requires n.Pivot? && Inv(n, h, lo, hi) && -1 <= ri < |n.kids|
    requires ri >= 0 ==> Rank(n.kids[ri].k) <= Rank(k)
    requires ri + 1 < |n.kids| ==> Rank(k) < Rank(n.kids[ri + 1].k)
    ensures View(n, k) == Play(if ri < 0 then Absent else View(n.kids[ri].n, k), Sel(n.buf, k))
    ensures ri >= 0 ==> Inv(n.kids[ri].n, h - 1, Rank(n.kids[ri].k), Upper(n.kids, ri, hi))
  {
    hide Rank, Play, Sel, Inv;
    NodeParts(n, h, lo, hi);
    KidsOrder(n.kids, h - 1, lo, hi);
    RouteIs(n.kids, k, ri);
    if ri >= 0 { assert KidInv(n.kids, ri, h - 1, hi); }
  }

  lemma KidsOrder(kids: seq<Kid>, h: nat, lo: real, hi: real)
    requires KidsInv(kids, h, lo, hi)
    ensures Ascending(kids)
  {
  }

  /** The walk down: as deep as the key is routed. */
  method WalkDown(root: Node, h: nat, k: Key) returns (p: seq<Option<Node>>, ghost n: nat)
    requires Inv(root, h, 0.0, 1.0)
    ensures Routed(p, n, h, k) && p[0] == Some(root)
  {
    hide Rank, View, Play, Sel, Inv, Below, SortedMsgs;
    ghost var lo, hi := 0.0, 1.0;
    var b := root;
    InvParts(root, h, lo, hi);
    p := seq(h, _ => None);
    p := p[0 := Some(b)];
    var i := 1;
    while i < h
      invariant 1 <= i <= h == |p| && p[0] == Some(root) && p[i - 1] == Some(b)
      invariant Inv(b, h + 1 - i, lo, hi) && SortedNode(b)
      invariant forall j :: 0 <= j < i ==> p[j].Some? && SortedNode(p[j].value)
      invariant forall j :: i <= j < h ==> p[j] == None
      invariant forall j: nat {:trigger PivotAt(p, j, k)} :: j < i - 1 ==> PivotAt(p, j, k)
    {
      InvParts(b, h + 1 - i, lo, hi);
      var ri, same := BlkSearch(b, k);
      RouteBounds(b, k, ri, same);
      StepDown(b, h + 1 - i, lo, hi, k, ri);
      if ri == -1 {
        BelowNone(p, i, k);
        assert PivotAt(p, i - 1, k);
        break;
      }
      var child := b.kids[ri].n;
      ghost var p0 := p;
      p := p[i := Some(child)];
      BelowSome(p, i, k);
      forall j: nat | j < i - 1 ensures PivotAt(p, j, k) {
        assert PivotAt(p0, j, k);
        BelowSame(p0, p, j + 1, k);
      }
      assert PivotAt(p, i - 1, k);
      lo, hi := Rank(b.kids[ri].k), Upper(b.kids, ri, hi);
      b := child;
      InvParts(b, h - i, lo, hi);
      i := i + 1;
    }
    n := i;
    InvParts(b, h + 1 - n, lo, hi);
  }

  lemma InvParts(b: Node, h: nat, lo: real, hi: real)
    requires Inv(b, h, lo, hi)
    ensures SortedNode(b) && h >= 1 && (b.Leaf? <==> h == 1) && (b.Pivot? ==> SortedMsgs(b.buf))
  {
    hide Rank;
  }

  lemma RouteBounds(b: Node, k: Key, ri: int, same: bool)
    requires b.Pivot? && -1 <= ri < |b.kids|
    requires ri >= 0 ==> if same then KeyAt(b, ri) == k else Rank(KeyAt(b, ri)) < Rank(k)
    requires forall i: nat :: ri < i < Nval(b) ==> Rank(k) < Rank(KeyAt(b, i))
    ensures ri >= 0 ==> Rank(b.kids[ri].k) <= Rank(k)
    ensures ri + 1 < |b.kids| ==> Rank(k) < Rank(b.kids[ri + 1].k)
  {
    hide Rank;
    if ri + 1 < |b.kids| { assert KeyAt(b, ri + 1) == b.kids[ri + 1].k; }
  }

  lemma BelowNone(p: seq<Option<Node>>, i: nat, k: Key)
    requires i < |p| && p[i] == None
    ensures Below(p, i, k) == Absent
  {
  }

  lemma BelowSome(p: seq<Option<Node>>, i: nat, k: Key)
    requires i < |p| && p[i].Some?
    ensures Below(p, i, k) == View(p[i].value, k)
  {
  }

  lemma BelowSame(p: seq<Option<Node>>, q: seq<Option<Node>>, i: nat, k: Key)
    requires i < |p| == |q| && p[i] == q[i]
    ensures Below(p, i, k) == Below(q, i, k)
  {
  }

  /** What the search of a leaf finds. */
  lemma LeafFound(b: Node, k: Key, ri: int, same: bool)
    requires b.Leaf? && SortedNode(b) && -1 <= ri < |b.vals|
    requires forall i: nat :: i < ri ==> Rank(KeyAt(b, i)) < Rank(k)
    requires ri >= 0 ==> if same then KeyAt(b, ri) == k else Rank(KeyAt(b, ri)) < Rank(k)
    requires forall i: nat :: ri < i < Nval(b) ==> Rank(k) < Rank(KeyAt(b, i))
    requires same ==> ri >= 0
    ensures View(b, k) == if same then Has(b.vals[ri].v) else Absent
  {
    hide Rank, Find;
    if same {
      forall i, j | 0 <= i < j < |b.vals| ensures Rank(b.vals[i].k) < Rank(b.vals[j].k) {
        assert Rank(KeyAt(b, i)) < Rank(KeyAt(b, j));
      }
      FindAt(b.vals, ri);
    } else {
      forall i: nat | i < |b.vals| ensures b.vals[i].k != k {
        assert KeyAt(b, i) == b.vals[i].k;
      }
      FindNone(b.vals, k);
    }
  }

  /** A level that does not abort rests on a level that does not. */
  lemma NoBadBelow(p: seq<Option<Node>>, i: nat, k: Key)
    requires PivotAt(p, i, k) && View(p[i].value, k) != Bad
    ensures Below(p, i + 1, k) != Bad
  {
    hide View, Play, Sel, Below;
    if Below(p, i + 1, k) == Bad { PlayBad(Sel(p[i].value.buf, k)); }
  }

  lemma {:induction false} NoBadAll(p: seq<Option<Node>>, n: nat, h: nat, k: Key, i: nat)
    requires Routed(p, n, h, k) && Below(p, 0, k) != Bad && i <= h
    ensures Below(p, i, k) != Bad
  {
    hide View, Play, Sel;
    if i > 0 {
      NoBadAll(p, n, h, k, i - 1);
      if i - 1 < n && i < h {
        assert PivotAt(p, i - 1, k);
        NoBadBelow(p, i - 1, k);
      }
    }
  }

  /** btlookup: the entry of the key, if it has one. The key must not be one on which the source
      aborts: its oldest message without an entry in the leaf has to be an insert or a clear. */
  method BtLookup(root: Node, h: nat, k: Key) returns (r: Option<Value>)
    requires Inv(root, h, 0.0, 1.0) && View(root, k) != Bad
    ensures View(root, k) == match r { case Some(v) => Has(v) case None => Absent }
  {
    hide Rank, View, Play, Sel, Inv, SortedMsgs, Below;
    var p;
    ghost var n;
    p, n := WalkDown(root, h, k);
    var ok, v := false, Raw([]);
    BelowAt(p, 0, k);
    if p[h - 1].Some? {
      var b := p[h - 1].value;
      var ri, same := BlkSearch(b, k);
      LeafFound(b, k, ri, same);
      ok := same;
      if ri >= 0 {
        v := b.vals[ri].v;
      }
    }
    BelowAt(p, h - 1, k);
    var i := h - 1;
    while i > 0
      invariant 0 <= i < h
      invariant Live(ok, v) == Below(p, i, k)
    {
      i := i - 1;
      BelowAt(p, i, k);
      if p[i].Some? {
        assert PivotAt(p, i, k);
        NoBadAll(p, n, h, k, i);
        ok, v := ApplyPending(p[i].value.buf, k, ok, v);
      } else {
        BelowAt(p, i + 1, k);
      }
    }
    r := if ok then Some(v) else None;
  }

  lemma BelowAt(p: seq<Option<Node>>, i: nat, k: Key)
    ensures Below(p, i, k) == if i < |p| && p[i].Some? then View(p[i].value, k) else Absent
  {
  }
}
