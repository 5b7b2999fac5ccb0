/** Replacing one child of a pivot by what a flush made of it. */
module Splice {
  import opened Dat
  import opened Keys
  import opened Messages
  import opened Nodes

  /** r means what the subtree meant with the pulled messages applied. */
  ghost predicate Means(was: Node, r: seq<Kid>, pulled: seq<Msg>) {
    forall k :: KidsView(r, k) == Play(View(was, k), Sel(pulled, k))
  }

  /** r, the entries a flush puts in place of a subtree, keeps its shape and its meaning. */
  ghost predicate Replaces(was: Node, h: nat, lo: real, hi: real, r: seq<Kid>, pulled: seq<Msg>) {
    KidsInv(r, h, lo, hi) && Means(was, r, pulled)
  }

  /** The entries s over the messages kept mean what the pivot meant. */
  ghost predicate SameMeaning(s: seq<Kid>, kept: seq<Msg>, node: Node) {
    forall k :: Play(KidsView(s, k), Sel(kept, k)) == View(node, k)
  }

  /** The entries copyup writes for the new left and right nodes; an emptied node leaves none. */
  function Entries(nl: Option<Node>, nr: Option<Node>): seq<Kid>
    requires nl.Some? ==> (if nl.value.Leaf? then nl.value.vals != [] else nl.value.kids != [])
    requires nr.Some? ==> (if nr.value.Leaf? then nr.value.vals != [] else nr.value.kids != [])
  {
    (if nl.Some? then [Kid(LowKey(nl.value), nl.value)] else [])
    + (if nr.Some? then [Kid(LowKey(nr.value), nr.value)] else [])
  }

  function SpliceKids(kids: seq<Kid>, i: nat, r: seq<Kid>): (s: seq<Kid>)
    requires i < |kids|
    ensures |s| == |kids| - 1 + |r|
  {
    kids[..i] + r + kids[i + 1..]
  }

  /** Keys below the first pivot are routed to the first child. */
  ghost function ChildLo(kids: seq<Kid>, i: nat, lo: real): real
    requires i < |kids|
  {
    if i == 0 then lo else Rank(kids[i].k)
  }

  /** buf[a..b] is the run of messages for child i. */
  ghost predicate Segment(kids: seq<Kid>, buf: seq<Msg>, i: nat, a: nat, b: nat) {
    && i < |kids| && a <= b <= |buf|
    && (forall j :: 0 <= j < a ==> i > 0 && Rank(buf[j].k) < Rank(kids[i].k))
    && (forall j :: a <= j < b ==>
          (i > 0 ==> Rank(kids[i].k) <= Rank(buf[j].k))
          && (i + 1 < |kids| ==> Rank(buf[j].k) < Rank(kids[i + 1].k)))
    && (forall j :: b <= j < |buf| ==> i + 1 < |kids| && Rank(kids[i + 1].k) <= Rank(buf[j].k))
  }

  /** Entry j of a spliced list. */
  lemma SpliceAt(kids: seq<Kid>, i: nat, r: seq<Kid>, j: nat)
    requires i < |kids| && j < |SpliceKids(kids, i, r)|
    ensures SpliceKids(kids, i, r)[j] ==
            if j < i then kids[j] else if j < i + |r| then r[j - i] else kids[j - |r| + 1]
  {
  }

  lemma SpliceOrder(kids: seq<Kid>, h: nat, lo: real, hi: real, i: nat, r: seq<Kid>)
    requires KidsInv(kids, h, lo, hi) && i < |kids|
    requires KidsInv(r, h, ChildLo(kids, i, lo), Upper(kids, i, hi))
    ensures Ascending(SpliceKids(kids, i, r))
    ensures forall j :: 0 <= j < |SpliceKids(kids, i, r)| ==>
              KeyOk(SpliceKids(kids, i, r)[j].k) && lo <= Rank(SpliceKids(kids, i, r)[j].k) < hi
  {
    var s := SpliceKids(kids, i, r);
    forall j, l | 0 <= j < l < |s|
      ensures Rank(s[j].k) < Rank(s[l].k)
    {
      SpliceAt(kids, i, r, j);
      SpliceAt(kids, i, r, l);
    }
  }

  lemma SpliceKid(kids: seq<Kid>, h: nat, lo: real, hi: real, i: nat, r: seq<Kid>, j: nat)
    requires KidsInv(kids, h, lo, hi) && i < |kids|
    requires KidsInv(r, h, ChildLo(kids, i, lo), Upper(kids, i, hi))
    requires j < |SpliceKids(kids, i, r)|
    ensures KidInv(SpliceKids(kids, i, r), j, h, hi)
  {
    hide Inv, Rank;
    var s := SpliceKids(kids, i, r);
    SpliceAt(kids, i, r, j);
    if j + 1 < |s| { SpliceAt(kids, i, r, j + 1); }
    if j < i {
      assert KidInv(kids, j, h, hi);
      Loosen(s[j].n, h, Rank(s[j].k), Upper(kids, j, hi), Rank(s[j].k), Upper(s, j, hi));
    } else if j < i + |r| {
      assert KidInv(r, j - i, h, Upper(kids, i, hi));
      Loosen(s[j].n, h, Rank(s[j].k), Upper(r, j - i, Upper(kids, i, hi)), Rank(s[j].k), Upper(s, j, hi));
    } else {
      assert KidInv(kids, j - |r| + 1, h, hi);
    }
  }

  lemma SpliceInv(kids: seq<Kid>, h: nat, lo: real, hi: real, i: nat, r: seq<Kid>)
    requires KidsInv(kids, h, lo, hi) && i < |kids|
    requires KidsInv(r, h, ChildLo(kids, i, lo), Upper(kids, i, hi))
    ensures KidsInv(SpliceKids(kids, i, r), h, lo, hi)
  {
    SpliceOrder(kids, h, lo, hi, i, r);
    forall j: nat | j < |SpliceKids(kids, i, r)|
      ensures KidInv(SpliceKids(kids, i, r), j, h, hi)
    {
      SpliceKid(kids, h, lo, hi, i, r, j);
    }
  }

  ghost predicate InRange(kids: seq<Kid>, i: nat, hi: real, k: Key)
    requires i < |kids|
  {
    (i == 0 || Rank(kids[i].k) <= Rank(k)) && Rank(k) < Upper(kids, i, hi)
  }

  lemma SpliceRouteLow(kids: seq<Kid>, h: nat, lo: real, hi: real, i: nat, r: seq<Kid>, k: Key)
    requires KidsInv(kids, h, lo, hi) && i < |kids|
    requires KidsInv(r, h, ChildLo(kids, i, lo), Upper(kids, i, hi))
    requires InRange(kids, i, hi, k)
    ensures var m := i + Route(r, k); m >= 0 ==> Rank(SpliceKids(kids, i, r)[m].k) <= Rank(k)
  {
    RouteSpec(r, k);
    var m := i + Route(r, k);
    if m >= 0 { SpliceAt(kids, i, r, m); }
  }

  lemma SpliceRouteHigh(kids: seq<Kid>, h: nat, lo: real, hi: real, i: nat, r: seq<Kid>, k: Key)
    requires KidsInv(kids, h, lo, hi) && i < |kids|
    requires KidsInv(r, h, ChildLo(kids, i, lo), Upper(kids, i, hi))
    requires InRange(kids, i, hi, k)
    ensures var m := i + Route(r, k) + 1;
            m < |SpliceKids(kids, i, r)| ==> Rank(k) < Rank(SpliceKids(kids, i, r)[m].k)
  {
    RouteSpec(r, k);
    var m := i + Route(r, k) + 1;
    if m < |SpliceKids(kids, i, r)| { SpliceAt(kids, i, r, m); }
  }

  lemma SpliceRouteIn(kids: seq<Kid>, h: nat, lo: real, hi: real, i: nat, r: seq<Kid>, k: Key)
    requires KidsInv(kids, h, lo, hi) && i < |kids|
    requires KidsInv(r, h, ChildLo(kids, i, lo), Upper(kids, i, hi))
    requires InRange(kids, i, hi, k)
    ensures Route(SpliceKids(kids, i, r), k) == i + Route(r, k)
  {
    SpliceOrder(kids, h, lo, hi, i, r);
    SpliceRouteLow(kids, h, lo, hi, i, r, k);
    SpliceRouteHigh(kids, h, lo, hi, i, r, k);
    RouteIs(SpliceKids(kids, i, r), k, i + Route(r, k));
  }

  /** Inside the range of the replaced child the new entries answer. */
  lemma SpliceViewIn(kids: seq<Kid>, h: nat, lo: real, hi: real, i: nat, r: seq<Kid>, k: Key)
    requires KidsInv(kids, h, lo, hi) && i < |kids|
    requires KidsInv(r, h, ChildLo(kids, i, lo), Upper(kids, i, hi))
    requires InRange(kids, i, hi, k)
    ensures KidsView(SpliceKids(kids, i, r), k) == KidsView(r, k)
  {
    hide Inv, KidsInv, View, Rank;
    SpliceRouteIn(kids, h, lo, hi, i, r, k);
    var j := Route(r, k);
    if i + j >= 0 { SpliceAt(kids, i, r, i + j); }
    if j < 0 && i > 0 { Before(kids, h, lo, hi, i, k); }
  }

  /** A key at or above a pivot is in no earlier child. */
  lemma Before(kids: seq<Kid>, h: nat, lo: real, hi: real, i: nat, k: Key)
    requires KidsInv(kids, h, lo, hi) && 0 < i < |kids|
    requires Rank(kids[i].k) <= Rank(k)
    ensures View(kids[i - 1].n, k) == Absent
  {
    assert KidInv(kids, i - 1, h, hi);
    Outside(kids[i - 1].n, h, Rank(kids[i - 1].k), Upper(kids, i - 1, hi), k);
  }

  /** Where an entry outside the replaced one moves to. */
  function Shift(j: int, i: nat, n: nat): int {
    if j < i then j else j - 1 + n
  }

  lemma SpliceRouteOut(kids: seq<Kid>, h: nat, lo: real, hi: real, i: nat, r: seq<Kid>, k: Key)
    requires KidsInv(kids, h, lo, hi) && i < |kids|
    requires KidsInv(r, h, ChildLo(kids, i, lo), Upper(kids, i, hi))
    requires !InRange(kids, i, hi, k) && Rank(k) < hi
    ensures Route(SpliceKids(kids, i, r), k) == Shift(Route(kids, k), i, |r|)
    ensures Route(kids, k) != i
  {
    hide Inv, View, Rank, IsRoute, SpliceKids;
    var s := SpliceKids(kids, i, r);
    SpliceOrder(kids, h, lo, hi, i, r);
    RouteSpec(kids, k);
    var j := Route(kids, k);
    assert j != i;
    var j' := Shift(j, i, |r|);
    if j' >= 0 { SpliceAt(kids, i, r, j'); }
    if j' + 1 < |s| { SpliceAt(kids, i, r, j' + 1); }
    RouteIs(s, k, j');
  }

  /** Outside it nothing changes. */
  lemma SpliceViewOut(kids: seq<Kid>, h: nat, lo: real, hi: real, i: nat, r: seq<Kid>, k: Key)
    requires KidsInv(kids, h, lo, hi) && i < |kids|
    requires KidsInv(r, h, ChildLo(kids, i, lo), Upper(kids, i, hi))
    requires !InRange(kids, i, hi, k)
    ensures KidsView(SpliceKids(kids, i, r), k) == KidsView(kids, k)
  {
    hide Inv, KidsInv, View, Rank;
    var s := SpliceKids(kids, i, r);
    if hi <= Rank(k) {
      SpliceInv(kids, h, lo, hi, i, r);
      OutsideKids(kids, h, lo, hi, k);
      OutsideKids(s, h, lo, hi, k);
    } else {
      SpliceRouteOut(kids, h, lo, hi, i, r, k);
      var j := Route(s, k);
      if j >= 0 { SpliceAt(kids, i, r, j); }
    }
  }

  function Survivors(buf: seq<Msg>, a: nat, np: nat): seq<Msg>
    requires a + np <= |buf|
  {
    buf[..a] + buf[a + np..]
  }

  /** Pulling a prefix of a child's segment down into what replaces the child changes no key. */
  lemma PullDown(kids: seq<Kid>, buf: seq<Msg>, h: nat, lo: real, hi: real,
                 i: nat, a: nat, b: nat, np: nat, r: seq<Kid>)
    requires KidsInv(kids, h, lo, hi) && BufInv(buf, lo, hi)
    requires Segment(kids, buf, i, a, b) && a + np <= b
    requires Replaces(kids[i].n, h, ChildLo(kids, i, lo), Upper(kids, i, hi), r, buf[a..a + np])
    ensures KidsInv(SpliceKids(kids, i, r), h, lo, hi)
    ensures forall k :: Play(KidsView(SpliceKids(kids, i, r), k), Sel(Survivors(buf, a, np), k))
                        == Play(KidsView(kids, k), Sel(buf, k))
  {
    hide Inv, KidsInv, View, KidsView, Play, Sel, SpliceKids, Rank;
    SpliceInv(kids, h, lo, hi, i, r);
    var s := SpliceKids(kids, i, r);
    var pulled := buf[a..a + np];
    forall k
      ensures Play(KidsView(s, k), Sel(Survivors(buf, a, np), k)) == Play(KidsView(kids, k), Sel(buf, k))
    {
      var front, rest := buf[..a], buf[a + np..];
      assert buf == front + (pulled + rest);
      SelConcat(front, pulled + rest, k);
      SelConcat(pulled, rest, k);
      SelConcat(front, rest, k);
      if InRange(kids, i, hi, k) {
        SpliceViewIn(kids, h, lo, hi, i, r, k);
        KidsViewAt(kids, h, lo, hi, i, k);
        SelNone(front, k);
        assert Sel(front, k) + (Sel(pulled, k) + Sel(rest, k)) == Sel(pulled, k) + Sel(rest, k);
        assert Sel(front, k) + Sel(rest, k) == Sel(rest, k);
        PlayConcat(KidsView(kids, k), Sel(pulled, k), Sel(rest, k));
      } else {
        SpliceViewOut(kids, h, lo, hi, i, r, k);
        SelNone(pulled, k);
        assert Sel(pulled, k) + Sel(rest, k) == Sel(rest, k);
      }
    }
  }

  /** One node, entered under its low key, means what it is. */
  lemma OneEntry(n: Node, h: nat, lo: real, hi: real)
    requires Inv(n, h, lo, hi)
    ensures if n.Leaf? then n.vals != [] else n.kids != []
    ensures KidsInv([Kid(LowKey(n), n)], h, lo, hi)
  {
    Tighten(n, h, lo, hi);
    var r := [Kid(LowKey(n), n)];
    assert KidInv(r, 0, h, hi);
  }

  lemma OneEntryView(n: Node, h: nat, lo: real, hi: real, k: Key)
    requires Inv(n, h, lo, hi)
    ensures if n.Leaf? then n.vals != [] else n.kids != []
    ensures KidsView([Kid(LowKey(n), n)], k) == View(n, k)
  {
    Tighten(n, h, lo, hi);
    var r := [Kid(LowKey(n), n)];
    if Rank(LowKey(n)) <= Rank(k) {
      RouteIs(r, k, 0);
    } else {
      RouteIs(r, k, -1);
      Outside(n, h, Rank(LowKey(n)), hi, k);
    }
  }

  /** Two nodes with a boundary x between them, entered under their low keys. */
  lemma TwoEntries(l: Node, r: Node, h: nat, lo: real, x: real, hi: real)
    requires Inv(l, h, lo, x) && Inv(r, h, x, hi) && lo <= x <= hi
    ensures if l.Leaf? then l.vals != [] else l.kids != []
    ensures if r.Leaf? then r.vals != [] else r.kids != []
    ensures KidsInv([Kid(LowKey(l), l), Kid(LowKey(r), r)], h, lo, hi)
  {
    hide Inv, Rank, LowKey;
    Tighten(l, h, lo, x);
    Tighten(r, h, x, hi);
    var kids := [Kid(LowKey(l), l), Kid(LowKey(r), r)];
    Loosen(l, h, Rank(LowKey(l)), x, Rank(LowKey(l)), Rank(LowKey(r)));
    assert KidInv(kids, 0, h, hi);
    assert KidInv(kids, 1, h, hi);
  }

  lemma TwoEntriesView(l: Node, r: Node, h: nat, lo: real, x: real, hi: real, k: Key)
    requires Inv(l, h, lo, x) && Inv(r, h, x, hi) && lo <= x <= hi
    ensures if l.Leaf? then l.vals != [] else l.kids != []
    ensures if r.Leaf? then r.vals != [] else r.kids != []
    ensures KidsView([Kid(LowKey(l), l), Kid(LowKey(r), r)], k)
            == if Rank(k) < x then View(l, k) else View(r, k)
  {
    hide Inv, View, Rank, LowKey, Route, IsRoute;
    Tighten(l, h, lo, x);
    Tighten(r, h, x, hi);
    var kids := [Kid(LowKey(l), l), Kid(LowKey(r), r)];
    if Rank(k) < x {
      if Rank(LowKey(l)) <= Rank(k) {
        RouteIs(kids, k, 0);
      } else {
        RouteIs(kids, k, -1);
        Outside(l, h, Rank(LowKey(l)), x, k);
      }
    } else if Rank(LowKey(r)) <= Rank(k) {
      RouteIs(kids, k, 1);
    } else {
      RouteIs(kids, k, 0);
      Outside(l, h, lo, x, k);
      Outside(r, h, Rank(LowKey(r)), hi, k);
    }
  }
}
