/** The path a round of btupsert takes down the tree (src/tree.c, btupsert). */
module Descent {
  import opened Dat
  import opened Keys
  import opened Messages
  import opened Nodes
  import opened Splice
  import opened Blocks
  import opened LeafUpdate
  import opened PivUpdate
  import opened Victims
  import opened Flushing
  import opened Sorting

  /** The blocks of a path that is still growing: all links but the last are in place. */
  ghost predicate Growing(path: seq<Path>, h: nat, los: seq<real>, his: seq<real>, node: Node, lo: real, hi: real)
    reads path`ins, path`b, path`idx, path`midx, path`lo, path`hi, path`sz
  {
    && 1 <= |path| <= h && |los| == |his| == |path|
    && (forall i, j :: 0 <= i < j < |path| ==> path[i] != path[j])
    && (forall i: nat {:trigger ChainAt(path, h, los, his, i)} :: 1 <= i < |path| - 1 ==> ChainAt(path, h, los, his, i))
    && (|path| >= 2 ==> LastNode(path, h, los, his, node, lo, hi))
    && Offered(path[|path| - 1], node, h + 1 - |path|, lo, hi)
  }

  /** The last block of a growing path has chosen node as its victim. */
  ghost predicate LastNode(path: seq<Path>, h: nat, los: seq<real>, his: seq<real>, node: Node, lo: real, hi: real)
    requires 2 <= |path| <= h && |los| == |his| == |path|
    reads path`ins, path`b, path`idx, path`midx, path`lo, path`hi, path`sz
  {
    var i := |path| - 1;
    && NodeAt(path[i - 1], path[i], h + 1 - i, los[i], his[i])
    && (i > 1 ==> path[i - 1].sz <= Bufspc)
    && path[i].sz <= Bufspc
    && LinkNode(path[i], node, los[i], his[i], lo, hi)
  }

  /** The node below a level, and what that level offers it. */
  ghost predicate Offered(up: Path, node: Node, h: int, lo: real, hi: real)
    reads up`ins, up`b, up`lo, up`hi, up`sz
  {
    && h >= 1 && Inv(node, h, lo, hi)
    && up.Offers() && BufInv(up.Offer(), lo, hi) && NoBad(node, up.Offer()) && MsgsSz(up.Offer()) <= up.sz
  }

  /** A victim is offered its run; what does not abort in the pivot does not abort below. */
  lemma ChildNoBad(node: Node, h: nat, lo: real, hi: real, i: nat, a: nat, b: nat)
    requires node.Pivot? && Inv(node, h, lo, hi) && Segment(node.kids, node.buf, i, a, b)
    requires forall k :: View(node, k) != Bad
    ensures NoBad(node.kids[i].n, node.buf[a..b])
  {
    hide KidsInv, Inv, Play, Sel, Rank, KidsView, MsgOk, MsgsSz;
    var kids, buf := node.kids, node.buf;
    NodeParts(node, h, lo, hi);
    forall k ensures Play(View(kids[i].n, k), Sel(buf[a..b], k)) != Bad {
      if InRange(kids, i, hi, k) {
        KidsViewAt(kids, h - 1, lo, hi, i, k);
        RunFirst(kids, buf, i, a, b, k);
        assert View(node, k) == Play(KidsView(kids, k), Sel(buf, k));
        PlayPrefix(KidsView(kids, k), Sel(buf[a..b], k), Sel(buf[b..], k));
      } else {
        OutOfRun(kids, buf, h - 1, lo, hi, i, a, b, k);
      }
    }
  }

  /** For a key of the child's range nothing comes before the run. */
  lemma RunFirst(kids: seq<Kid>, buf: seq<Msg>, i: nat, a: nat, b: nat, k: Key)
    requires Segment(kids, buf, i, a, b) && (i == 0 || Rank(kids[i].k) <= Rank(k))
    ensures Sel(buf, k) == Sel(buf[a..b], k) + Sel(buf[b..], k)
  {
    hide Rank, Sel;
    assert buf == buf[..a] + buf[a..b] + buf[b..];
    SelThree(buf[..a], buf[a..b], buf[b..], k);
    SelNone(buf[..a], k);
    assert [] + Sel(buf[a..b], k) == Sel(buf[a..b], k);
  }

  lemma OutOfRun(kids: seq<Kid>, buf: seq<Msg>, h: nat, lo: real, hi: real, i: nat, a: nat, b: nat, k: Key)
    requires KidsInv(kids, h, lo, hi) && BufInv(buf, lo, hi) && Segment(kids, buf, i, a, b)
    requires !InRange(kids, i, hi, k)
    ensures Play(View(kids[i].n, k), Sel(buf[a..b], k)) == Absent
  {
    hide Rank, View, Inv;
    assert KidInv(kids, i, h, hi);
    Outside(kids[i].n, h, Rank(kids[i].k), Upper(kids, i, hi), k);
    SelNone(buf[a..b], k);
  }

  /** The run of a child lies in the child's range. */
  lemma RunInv(kids: seq<Kid>, buf: seq<Msg>, lo: real, hi: real, i: nat, a: nat, b: nat)
    requires BufInv(buf, lo, hi) && Segment(kids, buf, i, a, b)
    ensures BufInv(buf[a..b], ChildLo(kids, i, lo), Upper(kids, i, hi))
    ensures MsgsSz(buf[a..b]) <= MsgsSz(buf)
  {
    hide Rank, MsgOk, MsgsSz;
    assert buf == buf[..a] + buf[a..b] + buf[b..];
    MsgsSzConcat(buf[..a], buf[a..b]);
    MsgsSzConcat(buf[..a] + buf[a..b], buf[b..]);
  }

  lemma ChildInv(kids: seq<Kid>, h: nat, lo: real, hi: real, i: nat)
    requires KidsInv(kids, h, lo, hi) && i < |kids|
    ensures Inv(kids[i].n, h, ChildLo(kids, i, lo), Upper(kids, i, hi)) && h >= 1
  {
    hide Rank, Inv;
    assert KidInv(kids, i, h, hi);
    Loosen(kids[i].n, h, Rank(kids[i].k), Upper(kids, i, hi), ChildLo(kids, i, lo), Upper(kids, i, hi));
    InvHeight(kids[i].n, h, Rank(kids[i].k), Upper(kids, i, hi));
  }

  lemma InvHeight(n: Node, h: nat, lo: real, hi: real)
    requires Inv(n, h, lo, hi)
    ensures n.Leaf? ==> h == 1
    ensures n.Pivot? ==> h > 1
  {
  }

  /** What a level offers does not abort: in particular the node itself does not. */
  lemma NoBadNode(n: Node, ms: seq<Msg>)
    requires NoBad(n, ms)
    ensures forall k :: View(n, k) != Bad
  {
    hide View, Sel;
    forall k ensures View(n, k) != Bad {
      assert Play(View(n, k), Sel(ms, k)) != Bad;
      if View(n, k) == Bad { PlayBad(Sel(ms, k)); }
    }
  }

  /** Another pivot joins the path: its victim is the next node. */
  lemma Grow(path: seq<Path>, q: Path, h: nat, los: seq<real>, his: seq<real>, node: Node, lo: real, hi: real)
    requires Growing(path, h, los, his, node, lo, hi) && node.Pivot?
    requires q !in path && q.ins == None && q.b == Some(node)
    requires 0 <= q.lo <= q.hi <= |node.buf| && 0 <= q.idx < |node.kids| && q.midx == q.idx
    requires Segment(node.kids, node.buf, q.idx, q.lo, q.hi) && q.sz == MsgsSz(node.buf[q.lo..q.hi])
    ensures Growing(path + [q], h, los + [lo], his + [hi], node.kids[q.idx].n,
                    ChildLo(node.kids, q.idx, lo), Upper(node.kids, q.idx, hi))
  {
    hide Inv, KidsInv, NoBad, BufInv, MsgsSz, Segment, Rank;
    var n := |path|;
    var kids, buf := node.kids, node.buf;
    var child, lo', hi' := kids[q.idx].n, ChildLo(kids, q.idx, lo), Upper(kids, q.idx, hi);
    NodeParts(node, h + 1 - n, lo, hi);
    RunInv(kids, buf, lo, hi, q.idx, q.lo, q.hi);
    ChildInv(kids, h - n, lo, hi, q.idx);
    NoBadNode(node, path[n - 1].Offer());
    ChildNoBad(node, h + 1 - n, lo, hi, q.idx, q.lo, q.hi);
    assert q.Offer() == buf[q.lo..q.hi];
    assert Offered(q, child, h - n, lo', hi');
    GrowLinks(path, q, h, los, his, node, lo, hi);
  }

  lemma GrowLinks(path: seq<Path>, q: Path, h: nat, los: seq<real>, his: seq<real>, node: Node, lo: real, hi: real)
    requires Growing(path, h, los, his, node, lo, hi) && |path| < h
    requires q !in path && q.ins == None && q.b == Some(node)
    ensures forall i: nat {:trigger ChainAt(path + [q], h, los + [lo], his + [hi], i)} ::
              1 <= i < |path| ==> ChainAt(path + [q], h, los + [lo], his + [hi], i)
    ensures NodeAt(path[|path| - 1], q, h + 1 - |path|, lo, hi)
    ensures |path| > 1 ==> path[|path| - 1].sz <= Bufspc
  {
    hide Inv, NoBad, BufInv, MsgsSz, LinkNode;
    forall i: nat | 1 <= i < |path|
      ensures ChainAt(path + [q], h, los + [lo], his + [hi], i)
    {
      if i < |path| - 1 { assert ChainAt(path, h, los, his, i); }
    }
  }

  /** The last node of the path, at which the descent stops. */
  lemma GrowEnd(path: seq<Path>, q: Path, h: nat, los: seq<real>, his: seq<real>, node: Node, lo: real, hi: real)
    requires Growing(path, h, los, his, node, lo, hi)
    requires q !in path && q.ins == None && q.b == Some(node) && Bottom(q)
    ensures Chain(path + [q], h, los + [lo], his + [hi])
  {
    hide Inv, NoBad, BufInv, MsgsSz, LinkNode;
    var p' := path + [q];
    forall i: nat | 1 <= i < |p'|
      ensures ChainAt(p', h, los + [lo], his + [hi], i)
    {
      if i < |path| - 1 { assert ChainAt(path, h, los, his, i); }
    }
  }

  /** Where the descent goes: on from a pivot without room for the batch, to its child with most pending. */
  ghost predicate Chosen(up: Path, p: Path, nmsg: nat)
    reads up`sz, p`b, p`idx, p`lo, p`hi, p`sz
  {
    && p.b.Some? && p.b.value.Pivot? && FilledBuf(p.b.value.buf, nmsg, up.sz)
    && 0 <= p.lo <= p.hi <= |p.b.value.buf| && p.sz == MsgsSz(p.b.value.buf[p.lo..p.hi])
    && NoLarger(p.b.value.kids, p.b.value.buf, |p.b.value.kids|, p.sz) && (p.sz == 0 ==> p.b.value.buf == [])
    && 0 <= p.idx && AllSmaller(p.b.value.kids, p.b.value.buf, p.idx, p.sz)
  }

  /** Where it ends. */
  ghost predicate Ended(up: Path, p: Path, nmsg: nat)
    reads up`sz, p`b
  {
    p.b.Some? && (p.b.value.Leaf? || !FilledBuf(p.b.value.buf, nmsg, up.sz))
  }

  ghost predicate ChosenAt(path: seq<Path>, i: nat, nmsg: nat)
    requires 1 <= i < |path|
    reads path`sz, path`b, path`idx, path`lo, path`hi
  {
    Chosen(path[i - 1], path[i], nmsg)
  }

  lemma ChosenMore(path: seq<Path>, q: Path, nmsg: nat)
    requires path != [] && Chosen(path[|path| - 1], q, nmsg)
    requires forall i: nat {:trigger ChosenAt(path, i, nmsg)} :: 1 <= i < |path| ==> ChosenAt(path, i, nmsg)
    ensures forall i: nat {:trigger ChosenAt(path + [q], i, nmsg)} ::
              1 <= i < |path| + 1 ==> ChosenAt(path + [q], i, nmsg)
  {
    hide Chosen;
    forall i: nat | 1 <= i < |path| + 1 ensures ChosenAt(path + [q], i, nmsg) {
      if i < |path| { assert ChosenAt(path, i, nmsg); }
    }
  }

  lemma ChosenSame(path: seq<Path>, q: Path, nmsg: nat)
    requires forall i: nat {:trigger ChosenAt(path, i, nmsg)} :: 1 <= i < |path| ==> ChosenAt(path, i, nmsg)
    ensures forall i: nat {:trigger ChosenAt(path + [q], i, nmsg)} :: 1 <= i < |path| ==> ChosenAt(path + [q], i, nmsg)
  {
    hide Chosen;
    forall i: nat | 1 <= i < |path| ensures ChosenAt(path + [q], i, nmsg) {
      assert ChosenAt(path, i, nmsg);
    }
  }

  /** The path from the batch to the first node with room, or to a leaf. */
  method Descend(root: Node, top: Path, nmsg: nat, ghost h: nat)
    returns (path: seq<Path>, ghost los: seq<real>, ghost his: seq<real>)
    requires Offered(top, root, h, 0.0, 1.0) && Untouched(top)
    ensures Chain(path, h, los, his) && path[0] == top && los[1] == 0.0 && his[1] == 1.0
    ensures forall i :: 0 <= i < |path| ==> Untouched(path[i]) && (i > 0 ==> fresh(path[i]))
    ensures path[1].b == Some(root)
    ensures forall i: nat {:trigger ChosenAt(path, i, nmsg)} :: 1 <= i < |path| - 1 ==> ChosenAt(path, i, nmsg)
    ensures Ended(path[|path| - 2], path[|path| - 1], nmsg)
  {
    hide Inv, NoBad, BufInv, MsgsSz, LinkNode, LastNode, ChainAt, Segment, Rank, Upper, ChildLo, NoLarger, AllSmaller,
         ChosenAt, Growing;
    var node := root;
    ghost var lo, hi := 0.0, 1.0;
    path, los, his := [top], [0.0], [0.0];
    GrowStart(top, root, h);
    while node.Pivot? && FilledBuf(node.buf, nmsg, path[|path| - 1].sz)
      invariant path != [] && path[0] == top && Growing(path, h, los, his, node, lo, hi)
      invariant forall i :: 0 <= i < |path| ==> Untouched(path[i]) && (i > 0 ==> fresh(path[i]))
      invariant |path| == 1 ==> node == root && lo == 0.0 && hi == 1.0
      invariant |los| == |his| == |path|
      invariant forall i: nat {:trigger ChosenAt(path, i, nmsg)} :: 1 <= i < |path| ==> ChosenAt(path, i, nmsg)
      invariant |path| > 1 ==> path[1].b == Some(root) && los[1] == 0.0 && his[1] == 1.0
      decreases node
    {
      GrowingInv(path, h, los, his, node, lo, hi);
      var q := NewVictim(node, h + 1 - |path|, lo, hi);
      Grow(path, q, h, los, his, node, lo, hi);
      ChosenMore(path, q, nmsg);
      path, los, his := path + [q], los + [lo], his + [hi];
      lo, hi := ChildLo(node.kids, q.idx, lo), Upper(node.kids, q.idx, hi);
      node := node.kids[q.idx].n;
    }
    var q := NewBottom(node);
    GrowEnd(path, q, h, los, his, node, lo, hi);
    ChosenSame(path, q, nmsg);
    path, los, his := path + [q], los + [lo], his + [hi];
  }

  lemma GrowStart(top: Path, root: Node, h: nat)
    requires Offered(top, root, h, 0.0, 1.0)
    ensures Growing([top], h, [0.0], [0.0], root, 0.0, 1.0)
  {
    hide Inv, NoBad, BufInv, MsgsSz;
  }

  lemma GrowingInv(path: seq<Path>, h: nat, los: seq<real>, his: seq<real>, node: Node, lo: real, hi: real)
    requires Growing(path, h, los, his, node, lo, hi)
    ensures |path| <= h && Inv(node, h + 1 - |path|, lo, hi)
  {
  }

  method NewVictim(node: Node, ghost h: nat, ghost lo: real, ghost hi: real) returns (q: Path)
    requires node.Pivot? && Inv(node, h, lo, hi)
    ensures fresh(q) && q.ins == None && q.b == Some(node) && Untouched(q)
    ensures 0 <= q.lo <= q.hi <= |node.buf| && 0 <= q.idx < |node.kids| && q.midx == q.idx
    ensures Segment(node.kids, node.buf, q.idx, q.lo, q.hi) && q.sz == MsgsSz(node.buf[q.lo..q.hi])
    ensures NoLarger(node.kids, node.buf, |node.kids|, q.sz) && (q.sz == 0 ==> node.buf == [])
    ensures AllSmaller(node.kids, node.buf, q.idx, q.sz)
  {
    hide Inv, Segment, MsgsSz, NoLarger, AllSmaller;
    q := new Path();
    Victim(node, q, h, lo, hi);
  }

  method NewBottom(node: Node) returns (q: Path)
    ensures fresh(q) && q.ins == None && q.b == Some(node) && Bottom(q) && Untouched(q)
  {
    q := new Path();
    q.b, q.idx, q.midx, q.lo, q.hi := Some(node), -1, -1, -1, -1;
  }
}
