/** Bε-tree nodes: what a tree means as a map, and the shape every tree keeps (src/tree.c).

    A finished block is never changed again, and a pointer carries the hash of what it points
    at, so a pointer is modelled as the block it names. */
module Nodes {
  import opened Dat
  import opened Keys
  import opened Messages

  /** A pivot entry: the key and the child. */
  datatype Kid = Kid(k: Key, n: Node)

  datatype Node = Leaf(vals: seq<Kvp>) | Pivot(kids: seq<Kid>, buf: seq<Msg>)

  // ----- sizes -----

  function KidSz(kid: Kid): nat { 2 + 2 + |kid.k| + 2 + Ptrsz + 2 }

  function KidsSz(kids: seq<Kid>): nat {
    if kids == [] then 0 else KidsSz(kids[..|kids| - 1]) + KidSz(kids[|kids| - 1])
  }

  /** 2*nbuf + bufsz: MsgSz counts the two bytes of the offset. */
  function BufFill(buf: seq<Msg>): nat { MsgsSz(buf) }

  /** 2*nval + valsz of a leaf: ValSz counts the two bytes of the offset. */
  function LeafFill(vals: seq<Kvp>): nat { KvpsSz(vals) }

  predicate FilledBuf(buf: seq<Msg>, nmsg: nat, needed: nat) {
    2 * nmsg + BufFill(buf) + needed > Bufspc
  }

  predicate FilledLeaf(vals: seq<Kvp>, needed: nat) {
    2 + LeafFill(vals) + needed > Leafspc
  }

  predicate FilledPiv(kids: seq<Kid>, reserve: nat) {
    2 + KidsSz(kids) + reserve * Kpmax > Pivspc
  }

  // ----- meaning -----

  /** Entry i is the last one at or below the key. */
  ghost predicate IsRoute(kids: seq<Kid>, k: Key, i: int) {
    0 <= i < |kids| && Rank(kids[i].k) <= Rank(k)
    && forall j :: i < j < |kids| ==> Rank(k) < Rank(kids[j].k)
  }

  /** The child a key is looked up in, -1 below all of them. */
  ghost function Route(kids: seq<Kid>, k: Key): (i: int)
    ensures -1 <= i < |kids|
  {
    if exists i :: IsRoute(kids, k, i) then (var i :| IsRoute(kids, k, i); i) else -1
  }

  /** The state of a key in a subtree: what the leaf holds, with the pending messages of the path
      applied from the leaf upwards. */
  ghost function View(n: Node, k: Key): St
    decreases n, 1
  {
    match n
    case Leaf(vals) => Find(vals, k)
    case Pivot(kids, buf) => Play(KidsView(kids, k), Sel(buf, k))
  }

  ghost function KidsView(kids: seq<Kid>, k: Key): St
    decreases kids, 0
  {
    var i := Route(kids, k);
    if i < 0 then Absent else View(kids[i].n, k)
  }

  // ----- shape -----

  /** Where the keys under child i end. */
  ghost function Upper(kids: seq<Kid>, i: nat, hi: real): real
    requires i < |kids|
  {
    if i + 1 < |kids| then Rank(kids[i + 1].k) else hi
  }

  /** A subtree whose leaves are all h levels down, whose keys, pivot keys and messages all lie in
      [lo, hi), with everything sorted and every buffer within its space. */
  ghost predicate Inv(n: Node, h: nat, lo: real, hi: real)
    decreases h, 1
  {
    match n
    case Leaf(vals) =>
      h == 1 && vals != [] && SortedVals(vals)
      && forall i :: 0 <= i < |vals| ==> KvpOk(vals[i]) && lo <= Rank(vals[i].k) < hi
    case Pivot(kids, buf) =>
      h > 1 && kids != [] && KidsInv(kids, h - 1, lo, hi)
      && BufInv(buf, lo, hi) && BufFill(buf) <= Bufspc
  }

  ghost predicate Ascending(kids: seq<Kid>) {
    forall i, j :: 0 <= i < j < |kids| ==> Rank(kids[i].k) < Rank(kids[j].k)
  }

  ghost predicate BufInv(buf: seq<Msg>, lo: real, hi: real) {
    SortedMsgs(buf)
    && forall i :: 0 <= i < |buf| ==> MsgOk(buf[i]) && lo <= Rank(buf[i].k) < hi
  }

  ghost predicate KidsInv(kids: seq<Kid>, h: nat, lo: real, hi: real)
    decreases h, 3
  {
    && Ascending(kids)
    && (forall i :: 0 <= i < |kids| ==> KeyOk(kids[i].k) && lo <= Rank(kids[i].k) < hi)
    && (forall i {:trigger KidInv(kids, i, h, hi)} :: 0 <= i < |kids| ==> KidInv(kids, i, h, hi))
  }

  /** Child i with the range between its pivot and the next. */
  ghost predicate KidInv(kids: seq<Kid>, i: nat, h: nat, hi: real)
    requires i < |kids|
    decreases h, 2
  {
    Inv(kids[i].n, h, Rank(kids[i].k), Upper(kids, i, hi))
  }

  /** The least key a node holds: the first value or pivot, or a first message below it. */
  function LowKey(n: Node): (k: Key)
    requires if n.Leaf? then n.vals != [] else n.kids != []
  {
    match n
    case Leaf(vals) => vals[0].k
    case Pivot(kids, buf) =>
      if buf != [] && KeyCmp(kids[0].k, buf[0].k) > 0 then buf[0].k else kids[0].k
  }

  // ----- lemmas -----

  lemma RouteIs(kids: seq<Kid>, k: Key, i: int)
    requires Ascending(kids)
    requires -1 <= i < |kids|
    requires i >= 0 ==> Rank(kids[i].k) <= Rank(k)
    requires i + 1 < |kids| ==> Rank(k) < Rank(kids[i + 1].k)
    ensures Route(kids, k) == i
  {
    if i >= 0 {
      assert IsRoute(kids, k, i);
    }
  }

  lemma RouteSpec(kids: seq<Kid>, k: Key)
    ensures var i := Route(kids, k);
            && (i >= 0 ==> Rank(kids[i].k) <= Rank(k))
            && (forall j :: i < j < |kids| ==> Rank(k) < Rank(kids[j].k))
  {
    if !exists i :: IsRoute(kids, k, i) {
      NoRoute(kids, k, |kids|);
    }
  }

  lemma {:induction false} NoRoute(kids: seq<Kid>, k: Key, n: nat)
    requires !exists i :: IsRoute(kids, k, i)
    requires n <= |kids|
    requires forall j :: n <= j < |kids| ==> Rank(k) < Rank(kids[j].k)
    ensures forall j :: 0 <= j < |kids| ==> Rank(k) < Rank(kids[j].k)
  {
    if n > 0 {
      assert !IsRoute(kids, k, n - 1);
      NoRoute(kids, k, n - 1);
    }
  }

  /** A wider range is a weaker claim. */
  lemma {:induction false} Loosen(n: Node, h: nat, lo: real, hi: real, lo': real, hi': real)
    requires Inv(n, h, lo, hi) && lo' <= lo && hi <= hi'
    ensures Inv(n, h, lo', hi')
    decreases h, 0
  {
    if n.Pivot? {
      LoosenKids(n.kids, h - 1, lo, hi, lo', hi');
    }
  }

  lemma {:induction false} LoosenKids(kids: seq<Kid>, h: nat, lo: real, hi: real, lo': real, hi': real)
    requires KidsInv(kids, h, lo, hi) && lo' <= lo && hi <= hi'
    ensures KidsInv(kids, h, lo', hi')
    decreases h, 1
  {
    forall i | 0 <= i < |kids|
      ensures KidInv(kids, i, h, hi')
    {
      assert KidInv(kids, i, h, hi);
      Loosen(kids[i].n, h, Rank(kids[i].k), Upper(kids, i, hi), Rank(kids[i].k), Upper(kids, i, hi'));
    }
  }

  /** Everything in a node is at or above its low key, so the low key may serve as its pivot. */
  lemma Tighten(n: Node, h: nat, lo: real, hi: real)
    requires Inv(n, h, lo, hi)
    ensures if n.Leaf? then n.vals != [] else n.kids != []
    ensures KeyOk(LowKey(n))
    ensures lo <= Rank(LowKey(n)) < hi
    ensures Inv(n, h, Rank(LowKey(n)), hi)
  {
    if n.Pivot? {
      assert forall i :: 0 <= i < |n.kids| ==> Rank(n.kids[0].k) <= Rank(n.kids[i].k);
      assert forall i :: 0 <= i < |n.buf| ==> Rank(n.buf[0].k) <= Rank(n.buf[i].k);
    }
  }

  /** A key outside the range of a subtree has no entry and no pending message in it. */
  lemma {:induction false} Outside(n: Node, h: nat, lo: real, hi: real, k: Key)
    requires Inv(n, h, lo, hi)
    requires Rank(k) < lo || hi <= Rank(k)
    ensures View(n, k) == Absent
    decreases h, 0
  {
    match n {
      case Leaf(vals) => FindNone(vals, k);
      case Pivot(kids, buf) =>
        SelNone(buf, k);
        OutsideKids(kids, h - 1, lo, hi, k);
    }
  }

  lemma {:induction false} OutsideKids(kids: seq<Kid>, h: nat, lo: real, hi: real, k: Key)
    requires KidsInv(kids, h, lo, hi)
    requires Rank(k) < lo || hi <= Rank(k)
    ensures KidsView(kids, k) == Absent
    decreases h, 1
  {
    var i := Route(kids, k);
    if i >= 0 {
      RouteSpec(kids, k);
      assert KidInv(kids, i, h, hi);
      Outside(kids[i].n, h, Rank(kids[i].k), Upper(kids, i, hi), k);
    }
  }

  /** The children of a pivot seen from one child: the keys of its range are looked up in it. */
  lemma KidsViewAt(kids: seq<Kid>, h: nat, lo: real, hi: real, i: nat, k: Key)
    requires KidsInv(kids, h, lo, hi) && i < |kids|
    requires i == 0 || Rank(kids[i].k) <= Rank(k)
    requires Rank(k) < Upper(kids, i, hi)
    ensures KidsView(kids, k) == View(kids[i].n, k)
  {
    if Rank(kids[i].k) <= Rank(k) {
      RouteIs(kids, k, i);
    } else {
      RouteIs(kids, k, -1);
      assert KidInv(kids, i, h, hi);
      Outside(kids[i].n, h, Rank(kids[i].k), Upper(kids, i, hi), k);
    }
  }
}
