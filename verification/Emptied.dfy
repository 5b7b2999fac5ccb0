/** What happens to the messages of a pivot that loses its last child (src/tree.c, setb). */
module Emptied {
  import opened Dat
  import opened Keys
  import opened Messages
  import opened Nodes
  import opened Splice
  import opened Blocks
  import opened BufMerge
  import opened LeafMerge
  import opened PivUpdate
  import opened Victims
  import opened Flushing
  import opened Descent
  import opened Upsert

  // ----- a tree of three levels -----

  // None of the keys is one of a data block (Kdat), whose pointer updateleaf would free.

  const KeyA: Key := [1]
  const KeyB: Key := [2]
  const KeyC: Key := [3]
  const KeyQ: Key := [4]

  /** As large as a value may be. */
  const Big := Raw(seq(Inlmax, _ => 0))

  const Del := Msg(KeyA, Odelete(0))
  const InsB := Msg(KeyB, Oinsert(Big))
  const InsC := Msg(KeyC, Oinsert(Big))
  const Fill := Msg(KeyC, Oinsert(Raw(seq(370, _ => 0))))

  function Copies(m: Msg, n: nat): seq<Msg> {
    if n == 0 then [] else Copies(m, n - 1) + [m]
  }

  const LeafA := Leaf([Kvp(KeyA, Raw([]))])
  const LeafQ := Leaf([Kvp(KeyQ, Raw([]))])
  const P := Pivot([Kid(KeyA, LeafA)], [Del])
  const Q := Pivot([Kid(KeyQ, LeafQ)], [])
  /** An insert of KeyB and fifteen of KeyC, all on their way into P. */
  const Buf := [InsB] + Copies(InsC, 14) + [Fill]
  const Root := Pivot([Kid(KeyA, P), Kid(KeyQ, Q)], Buf)
  const Batch := [InsC]

  lemma Ranks()
    ensures 0.0 < Rank(KeyA) < Rank(KeyB) < Rank(KeyC) < Rank(KeyQ) < 1.0
  {
    assert Rank([]) == 0.0;
    assert KeyA[1..] == [] && KeyB[1..] == [] && KeyC[1..] == [] && KeyQ[1..] == [];
  }

  lemma {:induction false} CopiesAre(m: Msg, n: nat)
    ensures |Copies(m, n)| == n && (forall i :: 0 <= i < n ==> Copies(m, n)[i] == m)
    ensures MsgsSz(Copies(m, n)) == n * MsgSz(m)
  {
    hide MsgSz, MsgsSz;
    if n > 0 {
      CopiesAre(m, n - 1);
      MsgsSzAppend(Copies(m, n - 1), m);
      assert (n - 1) * MsgSz(m) + MsgSz(m) == n * MsgSz(m);
    } else {
      NoMsgs([]);
    }
  }

  lemma OneSz(m: Msg)
    ensures MsgsSz([m]) == MsgSz(m)
  {
    assert [m][..0] == [];
  }

  lemma Sizes()
    ensures MsgSz(Del) == 8 && MsgSz(InsB) == MsgSz(InsC) == 520 && MsgSz(Fill) == 378
    ensures MsgsSz(Buf) == 8178 && MsgsSz([Del]) == 8 && MsgsSz(Batch) == 520
    ensures |Buf| == 16 && Buf[0] == InsB && forall i :: 1 <= i < 16 ==> Buf[i] == InsC || Buf[i] == Fill
  {
    CopiesAre(InsC, 14);
    OneSz(Del);
    OneSz(InsC);
    OneSz(InsB);
    hide MsgsSz, Copies;
    MsgsSzConcat([InsB], Copies(InsC, 14));
    MsgsSzAppend([InsB] + Copies(InsC, 14), Fill);
  }

  // ----- its shape -----

  lemma OneLeafInv(k: Key, hi: real)
    requires |k| == 1 && Rank(k) < hi
    ensures Inv(Leaf([Kvp(k, Raw([]))]), 1, Rank(k), hi)
  {
    hide Rank;
  }

  lemma OneKidInv(k: Key, buf: seq<Msg>, hi: real)
    requires |k| == 1 && Rank(k) < hi && BufInv(buf, Rank(k), hi) && MsgsSz(buf) <= Bufspc
    ensures Inv(Pivot([Kid(k, Leaf([Kvp(k, Raw([]))]))], buf), 2, Rank(k), hi)
    ensures LowKey(Pivot([Kid(k, Leaf([Kvp(k, Raw([]))]))], buf)) == k
  {
    hide Rank, MsgsSz, MsgOk, KeyCmpBody;
    OneLeafInv(k, hi);
    var kids := [Kid(k, Leaf([Kvp(k, Raw([]))]))];
    assert KidInv(kids, 0, 1, hi);
  }

  lemma Shapes()
    ensures Inv(P, 2, Rank(KeyA), Rank(KeyQ)) && LowKey(P) == KeyA
    ensures Inv(Q, 2, Rank(KeyQ), 1.0) && LowKey(Q) == KeyQ
    ensures Rank(KeyA) < Rank(KeyQ) < 1.0
  {
    hide Rank, Inv, LowKey, MsgsSz, Buf;
    Ranks();
    Sizes();
    assert MsgsSz([]) == 0 by { assert Copies(Del, 0) == []; CopiesAre(Del, 0); }
    OneKidInv(KeyA, [Del], Rank(KeyQ));
    OneKidInv(KeyQ, [], 1.0);
  }

  lemma BufIn()
    ensures BufInv(Buf, 0.0, 1.0) && BufInv(Batch, 0.0, 1.0)
  {
    hide Rank, Buf, MsgsSz;
    Ranks();
    Sizes();
  }

  lemma RootInv()
    ensures Inv(Root, 3, 0.0, 1.0)
  {
    hide Rank, Inv, LowKey, Buf, MsgsSz;
    Shapes();
    Ranks();
    TwoEntries(P, Q, 2, Rank(KeyA), Rank(KeyQ), 1.0);
    LoosenKids(Root.kids, 2, Rank(KeyA), 1.0, 0.0, 1.0);
    BufIn();
    Sizes();
    MakeRoot();
  }

  lemma MakeRoot()
    requires KidsInv(Root.kids, 2, 0.0, 1.0) && BufInv(Buf, 0.0, 1.0) && MsgsSz(Buf) <= Bufspc
    ensures Inv(Root, 3, 0.0, 1.0)
  {
    hide KidsInv, BufInv, MsgsSz, Buf;
  }

  // ----- its meaning -----

  lemma {:induction false} PlayInserts(s: St, ms: seq<Msg>)
    requires s != Bad && forall i :: 0 <= i < |ms| ==> ms[i].op.Oinsert?
    ensures Play(s, ms) != Bad
  {
    if ms != [] { PlayInserts(s, ms[..|ms| - 1]); }
  }

  lemma {:induction false} SelInserts(ms: seq<Msg>, k: Key)
    requires forall i :: 0 <= i < |ms| ==> ms[i].op.Oinsert?
    ensures forall i :: 0 <= i < |Sel(ms, k)| ==> Sel(ms, k)[i].op.Oinsert?
  {
    if ms != [] { SelInserts(ms[..|ms| - 1], k); }
  }

  lemma PlayOne(s: St, m: Msg, k: Key)
    ensures Play(s, Sel([m], k)) == if m.k == k then Apply(s, m) else s
  {
    hide Apply;
    SelAppend([], m, k);
    assert [] + [m] == [m] && [m][..0] == [];
  }

  /** A pivot over one leaf with one value. */
  lemma OneKidView(k0: Key, buf: seq<Msg>, hi: real, k: Key)
    requires |k0| == 1 && Rank(k0) < hi
    ensures View(Pivot([Kid(k0, Leaf([Kvp(k0, Raw([]))]))], buf), k)
            == Play(if k == k0 then Has(Raw([])) else Absent, Sel(buf, k))
  {
    hide Rank, Play, Sel, Inv, KidsView;
    OneLeafInv(k0, hi);
    var leaf := Leaf([Kvp(k0, Raw([]))]);
    OneEntryView(leaf, 1, Rank(k0), hi, k);
    assert [Kid(LowKey(leaf), leaf)] == [Kid(k0, leaf)];
    assert leaf.vals == [] + [Kvp(k0, Raw([]))];
    FindAppend([], Kvp(k0, Raw([])), k);
    FindNone([], k);
    assert View(leaf, k) == Find(leaf.vals, k);
  }

  lemma KidsMean(k: Key)
    ensures KidsView(Root.kids, k) == if k == KeyQ then Has(Raw([])) else Absent
  {
    hide Rank, Play, Sel, Inv, View, KidsView, LowKey, Buf;
    Ranks();
    Shapes();
    TwoEntriesView(P, Q, 2, Rank(KeyA), Rank(KeyQ), 1.0, k);
    OneKidView(KeyA, [Del], 1.0, k);
    OneKidView(KeyQ, [], 1.0, k);
    PlayOne(if k == KeyA then Has(Raw([])) else Absent, Del, k);
    NoneSel(if k == KeyQ then Has(Raw([])) else Absent, k);
    if k != KeyQ && Rank(k) == Rank(KeyQ) { RankInjective(k, KeyQ); }
  }

  lemma NoneSel(s: St, k: Key)
    ensures Play(s, Sel([], k)) == s
  {
  }

  /** Nothing aborts, and KeyB has an entry: the insert in the root's buffer. */
  lemma RootMeans()
    ensures NoBad(Root, Batch) && View(Root, KeyB) == Has(Big)
    ensures Play(View(Root, KeyB), Sel(Batch, KeyB)) == Has(Big)
  {
    hide Rank, Play, Sel, Inv, KidsView, Buf, MsgsSz;
    Sizes();
    forall k ensures Play(View(Root, k), Sel(Batch, k)) != Bad {
      KidsMean(k);
      SelInserts(Buf, k);
      SelInserts(Batch, k);
      assert View(Root, k) == Play(KidsView(Root.kids, k), Sel(Buf, k));
      PlayInserts(KidsView(Root.kids, k), Sel(Buf, k));
      PlayInserts(View(Root, k), Sel(Batch, k));
    }
    KidsMean(KeyB);
    BufOfB(0);
    PlayOne(Absent, InsB, KeyB);
    PlayOne(Has(Big), InsC, KeyB);
    assert View(Root, KeyB) == Play(KidsView(Root.kids, KeyB), Sel(Buf, KeyB));
  }

  /** Only the first message of the buffer is for KeyB. */
  lemma BufOfB(j: nat)
    requires j <= 16
    ensures |Buf| == 16 && Sel(Buf[j..], KeyB) == if j == 0 then Sel([InsB], KeyB) else []
  {
    hide Sel, MsgsSz, Copies;
    Sizes();
    if j == 0 {
      assert Buf[0..] == Buf == [Buf[0]] + Buf[1..];
      SelConcat([InsB], Buf[1..], KeyB);
      SelNone(Buf[1..], KeyB);
      assert Sel([InsB], KeyB) + [] == Sel([InsB], KeyB);
    } else {
      SelNone(Buf[j..], KeyB);
    }
  }

  // ----- the path -----

  /** All of the buffer is for P. */
  lemma RootRun(i: nat, a: nat, b: nat)
    requires Segment(Root.kids, Buf, i, a, b)
    ensures |Buf| == 16 && (i == 0 ==> a == 0 && b == 16) && (i > 0 ==> i == 1 && a == b == 16)
  {
    hide Rank, MsgsSz, Copies;
    Ranks();
    Sizes();
    BufLow(0);
    if a < 16 { BufLow(a); }
    if b < 16 { BufLow(b); }
  }

  lemma BufLow(j: nat)
    requires j < 16
    ensures |Buf| == 16 && Rank(Buf[j].k) < Rank(KeyQ)
  {
    hide Rank, MsgsSz, Copies;
    Ranks();
    Sizes();
  }

  lemma RootVictim(p: Path)
    requires p.b == Some(Root) && p.idx >= 0 && 0 <= p.lo <= p.hi && Segment(Root.kids, Buf, p.idx, p.lo, p.hi)
    requires p.hi <= |Buf| && p.sz == MsgsSz(Buf[p.lo..p.hi]) && NoLarger(Root.kids, Buf, |Root.kids|, p.sz)
    ensures |Buf| == 16 && p.idx == 0 && p.lo == 0 && p.hi == 16 && p.sz == 8178
  {
    hide Rank, MsgsSz, Segment, Buf;
    RootRun(p.idx, p.lo, p.hi);
    Sizes();
    WholeRun();
    assert Buf[0..16] == Buf;
    assert MsgsSz(Buf[0..16]) <= p.sz;
    CopiesAre(Del, 0);
    assert Buf[16..16] == Copies(Del, 0);
  }

  lemma WholeRun()
    ensures Segment(Root.kids, Buf, 0, 0, 16)
  {
    hide Rank, MsgsSz;
    Ranks();
    Sizes();
  }

  /** What is known of the path down. */
  ghost predicate PathIs(path: seq<Path>)
    reads path`ins, path`b, path`midx, path`lo, path`hi, path`sz
  {
    && |path| == 4 && path[0].Offers() && path[0].Offer() == Batch && path[0].sz == 520
    && path[1].ins == path[2].ins == path[3].ins == None
    && path[1].b == Some(Root) && path[1].midx == 0 && path[1].lo == 0 && path[1].hi == 16 && path[1].sz == 8178
    && path[2].b == Some(P) && path[2].midx == 0 && path[2].lo == 0 && path[2].hi == 1 && path[2].sz == 8
    && path[3].b == Some(LeafA)
  }

  lemma PathFound(path: seq<Path>, los: seq<real>, his: seq<real>)
    requires Chain(path, 3, los, his) && path[1].b == Some(Root)
    requires path[0].Offers() && path[0].Offer() == Batch && path[0].sz == 520
    requires forall i: nat {:trigger ChosenAt(path, i, 1)} :: 1 <= i < |path| - 1 ==> ChosenAt(path, i, 1)
    requires Ended(path[|path| - 2], path[|path| - 1], 1)
    ensures PathIs(path)
  {
    hide Inv, BufInv, NoBad, MsgsSz, Rank, Segment, NoLarger, Buf, LinkNode;
    Sizes();
    assert ChainAt(path, 3, los, his, 1);
    assert |path| > 2;
    assert ChosenAt(path, 1, 1);
    RootLink(path[1], path[2], los[1], his[1], los[2], his[2]);
    assert ChainAt(path, 3, los, his, 2);
    assert |path| > 3;
    assert ChosenAt(path, 2, 1);
    PLink(path[2], path[3], los[2], his[2], los[3], his[3]);
    assert ChainAt(path, 3, los, his, 3);
  }

  lemma RootLink(p: Path, q: Path, lo: real, hi: real, lo': real, hi': real)
    requires p.b == Some(Root) && LinkAt(p, q, lo, hi, lo', hi')
    requires 0 <= p.lo <= p.hi <= |Buf| && p.sz == MsgsSz(Buf[p.lo..p.hi])
    requires NoLarger(Root.kids, Buf, |Root.kids|, p.sz)
    ensures p.midx == 0 && p.lo == 0 && p.hi == 16 && p.sz == 8178 && q.b == Some(P)
  {
    hide MsgsSz, Rank, Segment, NoLarger, Buf;
    RootVictim(p);
  }

  lemma PLink(p: Path, q: Path, lo: real, hi: real, lo': real, hi': real)
    requires p.b == Some(P) && LinkAt(p, q, lo, hi, lo', hi')
    requires 0 <= p.lo <= p.hi <= 1 && p.sz == MsgsSz([Del][p.lo..p.hi])
    ensures p.midx == 0 && p.lo == 0 && p.hi == 1 && p.sz == 8 && q.b == Some(LeafA)
  {
    hide MsgsSz, Rank, Buf;
    Sizes();
    OnlyChild(P.kids, [Del], p.idx, p.lo, p.hi);
    assert [Del][0..1] == [Del];
  }

  lemma OnlyChild(kids: seq<Kid>, buf: seq<Msg>, i: nat, a: nat, b: nat)
    requires |kids| == 1 && Segment(kids, buf, i, a, b)
    ensures i == 0 && a == 0 && b == |buf|
  {
    hide Rank;
    if buf != [] {
      InOnlyChild(kids, buf, i, a, b, 0);
      InOnlyChild(kids, buf, i, a, b, |buf| - 1);
    }
  }

  lemma InOnlyChild(kids: seq<Kid>, buf: seq<Msg>, i: nat, a: nat, b: nat, j: nat)
    requires |kids| == 1 && Segment(kids, buf, i, a, b) && j < |buf|
    ensures a <= j < b
  {
    hide Rank;
    assert buf[j] in buf;
  }

  // ----- the flush -----

  lemma {:induction false} FindSome(vals: seq<Kvp>, i: nat)
    requires i < |vals|
    ensures Find(vals, vals[i].k) != Absent
  {
    if i < |vals| - 1 && vals[|vals| - 1].k != vals[i].k {
      FindSome(vals[..|vals| - 1], i);
    }
  }

  /** The leaf takes the delete and is empty. */
  lemma LeafGone(p: Path, up: Path)
    requires p.b == Some(LeafA) && LeafOut(p, up) && up.Offers() && up.Offer() == [Del] && up.sz == 8
    ensures p.nl == None && p.nr == None && p.npull == 1
  {
    hide Rank, Play, Sel, KidsView;
    LeafFits();
    assert p.nr == None && p.npull == 1;
    assert [Del][..1] == [Del];
    if p.nl.Some? {
      var n := p.nl.value;
      var k := n.vals[0].k;
      var e := [Kid(LowKey(n), n)];
      assert Entries(p.nl, None) == e;
      EntryView(n);
      assert KidsView(e, k) == Play(View(LeafA, k), Sel([Del], k));
      LeafDeleted(k);
    }
  }

  lemma LeafFits()
    ensures !FilledLeaf(LeafA.vals, 8)
  {
    hide KvpsSz;
    assert KvpsSz(LeafA.vals) == 7 by { KvpsSzOne(Kvp(KeyA, Raw([]))); }
  }

  lemma KvpsSzOne(v: Kvp)
    ensures KvpsSz([v]) == ValSz(v)
  {
    assert [v][..0] == [];
  }

  lemma EntryView(n: Node)
    requires n.Leaf? && n.vals != []
    ensures KidsView([Kid(n.vals[0].k, n)], n.vals[0].k) != Absent
  {
    hide Rank, Find;
    var kids := [Kid(n.vals[0].k, n)];
    RouteIs(kids, n.vals[0].k, 0);
    FindSome(n.vals, 0);
    assert View(n, n.vals[0].k) == Find(n.vals, n.vals[0].k);
  }

  lemma LeafDeleted(k: Key)
    ensures Play(View(LeafA, k), Sel([Del], k)) == Absent
  {
    hide Rank, Play, Sel, Find;
    PlayOne(View(LeafA, k), Del, k);
    assert LeafA.vals == [] + [Kvp(KeyA, Raw([]))];
    FindAppend([], Kvp(KeyA, Raw([])), k);
    FindNone([], k);
    assert View(LeafA, k) == Find(LeafA.vals, k);
  }

  /** Nor is there anything left of P, but it has pulled the insert of KeyB. */
  lemma PivotGone(p: Path, up: Path, pp: Path)
    requires p.b == Some(P) && p.midx == 0 && p.lo == 0 && pp.nl == None && pp.nr == None && PivOut(p, up, pp)
    requires up.Offers() && up.Offer() == Buf
    ensures p.nl == None && p.nr == None && 1 <= p.npull <= 16
  {
    hide Rank, MsgsSz, Copies, IsMerge;
    Sizes();
    KidsFit();
    assert SpliceKids(P.kids, 0, []) == [];
    NoMsgs(Buf);
  }

  lemma NoMsgs(ms: seq<Msg>)
    ensures MsgsSz(ms[..0]) == 0
  {
  }

  lemma KidsFit()
    ensures !FilledPiv(P.kids, 1) && !FilledPiv(Root.kids, 1)
  {
    hide KidsSz, Q;
    var a, b := Root.kids[0], Root.kids[1];
    KidsSzTwo(a, b);
    KidsSzTwo(Kid(KeyA, LeafA), b);
    assert P.kids == [Kid(KeyA, LeafA)];
  }

  lemma KidsSzTwo(a: Kid, b: Kid)
    ensures KidsSz([a]) == KidSz(a) && KidsSz([a, b]) == KidSz(a) + KidSz(b)
  {
    assert [a][..0] == [] && [a, b][..1] == [a];
  }

  /** The root keeps Q and what P did not pull. */
  lemma RootLeft(p: Path, up: Path, pp: Path)
    requires p.b == Some(Root) && p.midx == 0 && p.lo == 0 && pp.nl == None && pp.nr == None && PivOut(p, up, pp)
    requires up.Offers() && up.Offer() == Batch && 1 <= pp.npull <= 16
    ensures p.nr == None && p.nl.Some? && View(p.nl.value, KeyB) == Absent
  {
    hide Rank, MsgsSz, Buf, Play, Sel, View, IsMerge, KidsSz, Q, StopsLate, FilledPiv;
    KidsFit();
    assert SpliceKids(Root.kids, 0, []) == [Kid(KeyQ, Q)];
    BufOfB(0);
    assert Survivors(Buf, 0, pp.npull) == Buf[pp.npull..];
    QOnly(p.nl.value.buf, pp.npull, Batch[..p.npull]);
  }

  lemma QOnly(buf: seq<Msg>, j: nat, ms: seq<Msg>)
    requires 1 <= j <= 16 && |Buf| == 16 && IsMerge(buf, Buf[j..], ms) && ms <= Batch
    ensures View(Pivot([Kid(KeyQ, Q)], buf), KeyB) == Absent
  {
    hide Rank, MsgsSz, Buf, Play, Sel, KidsView, SortedMsgs;
    BufOfB(j);
    SelNone(ms, KeyB);
    assert Sel(buf, KeyB) == Sel(Buf[j..], KeyB) + Sel(ms, KeyB);
    QRoute();
    NothingPlayed();
  }

  lemma QRoute()
    ensures KidsView([Kid(KeyQ, Q)], KeyB) == Absent
  {
    hide Rank;
    Ranks();
    RouteIs([Kid(KeyQ, Q)], KeyB, -1);
  }

  lemma NothingPlayed()
    ensures Play(Absent, []) == Absent
  {
  }

  lemma Results(path: seq<Path>, dropped: bool)
    requires PathIs(path) && LevelsDone(path, 0, dropped)
    ensures path[1].nr == None && path[1].nl.Some? && View(path[1].nl.value, KeyB) == Absent
  {
    hide Rank, MsgsSz, Buf, View, LeafOut, PivOut;
    Sizes();
    assert OutAt(path, 3) && OutAt(path, 2) && OutAt(path, 1);
    assert path[2].Offer() == [Del];
    assert path[1].Offer() == Buf;
    LeafGone(path[3], path[2]);
    PivotGone(path[2], path[1], path[3]);
    RootLeft(path[1], path[0], path[2]);
  }

  method LosingPath() returns (path: seq<Path>, ghost los: seq<real>, ghost his: seq<real>)
    ensures Chain(path, 3, los, his) && PathIs(path) && los[1] == 0.0 && his[1] == 1.0
    ensures forall i :: 0 <= i < |path| ==> Untouched(path[i]) && fresh(path[i])
  {
    hide Inv, NoBad, BufInv, MsgsSz, Chain, ChosenAt, Ended, PathIs, Root, Batch, Offered;
    RootInv();
    RootMeans();
    BufIn();
    BatchSz();
    var msg, sz := Batch, MsgsSz(Batch);
    var top := NewTop(msg, 0, sz);
    assert msg[0..] == msg;
    TopOffered(top, Root, 3, msg, 0, sz);
    path, los, his := Descend(Root, top, 1, 3);
    PathFound(path, los, his);
  }

  /** A round of btupsert on the tree, whose root has no room for the batch: the leaf under P empties,
      so does P, which has pulled the insert of KeyB, and the root goes on with Q alone. The entry
      KeyB had before is gone, though the batch has no message for KeyB. */
  method InsertLost() returns (t: Tree, dropped: bool)
    ensures Inv(Root, 3, 0.0, 1.0) && NoBad(Root, Batch) && FilledBuf(Root.buf, |Batch|, MsgsSz(Batch))
    ensures View(Root, KeyB) == Has(Big) && Sel(Batch, KeyB) == []
    ensures dropped && t.Valid() && View(t.root, KeyB) == Absent
  {
    hide Inv, NoBad, BufInv, MsgsSz, Took, LevelWell, Chain, LevelsDone, LevelDone, View, PathIs,
         Play, Sel, Root, Batch, SafeSz, Entries, Wrote;
    RootInv();
    RootMeans();
    BatchSz();
    t := new Tree(Root, 3);
    var path;
    ghost var los, his;
    path, los, his := LosingPath();
    PathLen(path);
    var rp, aborted;
    rp, aborted, dropped := Flush(path, 3, los, his);
    PathLen(path);
    Results(path, dropped);
    RootDone(path, dropped, 3);
    SetRoot(t, rp == 0, path[rp].nl.value, path[1], path[0]);
    if !dropped { StillThere(t.root, path[0].Offer()[..path[1].npull]); }
  }

  lemma PathLen(path: seq<Path>)
    requires PathIs(path)
    ensures |path| == 4 && path[1].b == Some(Root) && path[0].Offers() && path[0].Offer() == Batch
  {
    hide Root, Batch;
  }

  /** Had the round kept the meaning of the tree, the entry would be there. */
  lemma StillThere(n: Node, ms: seq<Msg>)
    requires Took(n, Root, ms) && ms <= Batch && View(Root, KeyB) == Has(Big)
    ensures View(n, KeyB) == Has(Big)
  {
    hide View, Root, Sel;
    assert View(n, KeyB) == Play(View(Root, KeyB), Sel(ms, KeyB));
    SelNone(ms, KeyB);
  }

  lemma BatchSz()
    ensures MsgsSz(Batch) == 520 && |Batch| == 1 && Sel(Batch, KeyB) == []
    ensures Root.Pivot? && FilledBuf(Root.buf, |Batch|, MsgsSz(Batch))
  {
    hide MsgsSz, Sel, Buf;
    Sizes();
    SelNone(Batch, KeyB);
  }
}
