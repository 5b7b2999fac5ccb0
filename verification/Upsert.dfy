/** Upserting a batch into a tree (src/tree.c, btupsert). */
module Upsert {
  import opened Dat
  import opened Keys
  import opened Messages
  import opened Nodes
  import opened Splice
  import opened Blocks
  import opened BufMerge
  import opened LeafMerge
  import opened LeafUpdate
  import opened LeafSplit
  import opened PivUpdate
  import opened Victims
  import opened Flushing
  import opened Descent
  import opened Sorting
  import opened Removals
  import opened Keeping
  import opened Progress
  import opened Answers

  class Tree {
    var root: Node
    var ht: nat
    var dirty: bool

    constructor (root: Node, ht: nat)
      ensures this.root == root && this.ht == ht && !dirty
    {
      this.root, this.ht, dirty := root, ht, false;
    }

    /** All leaves are ht levels down, everything sorted and in the range of its pivots, and every
        buffer within its space. */
    ghost predicate Valid()
      reads this`root, this`ht
    {
      Inv(root, ht, 0.0, 1.0)
    }
  }

  /** How an upsert ends. Aborted: too few values for a leaf split. Emptied: the new root would be nil.
      Dropped: a pivot was given back for want of children, and with its messages something the tree
      meant is lost; the source goes on, but from here on it is not described. */
  datatype Outcome = Done | Aborted | Emptied | Dropped

  /** The last round: the tree it began with, what had been taken of the batch, and its path. */
  datatype LastRound = LastRound(root: Node, ht: nat, npull: nat, path: seq<Path>, los: seq<real>, his: seq<real>)

  /** A path was taken down the tree as btupsert does. */
  ghost predicate PathOf(r: LastRound, msg: seq<Msg>, sz: nat)
    reads r.path`ins, r.path`b, r.path`idx, r.path`midx, r.path`lo, r.path`hi, r.path`sz
  {
    && r.npull <= |msg| && |r.path| >= 2 && Chain(r.path, r.ht, r.los, r.his) && r.path[1].b == Some(r.root)
    && r.path[0].Offers() && r.path[0].Offer() == msg[r.npull..] && r.path[0].sz == sz
    && (forall i: nat {:trigger ChosenAt(r.path, i, |msg|)} :: 1 <= i < |r.path| - 1 ==> ChosenAt(r.path, i, |msg|))
    && Ended(r.path[|r.path| - 2], r.path[|r.path| - 1], |msg|)
  }

  /** And it was flushed. */
  ghost predicate FlushOf(r: LastRound, msg: seq<Msg>, sz: nat)
    reads r.path
  {
    && PathOf(r, msg, sz) && r.npull <= |msg| && |r.path| >= 2
    && LevelsDone(r.path, 0, SomeDrops(r.path, 0)) && Wrote(r.path[1]) && r.path[1].npull <= |msg| - r.npull
  }

  /** The root leaf was split, and one half has no values. */
  ghost predicate HalfLeft(path: seq<Path>)
    reads path
  {
    |path| == 2 && SplitLeafAt(path, 1) && !BothLeft(path[1])
  }

  /** A root leaf that cannot be split. */
  predicate Unsplit(n: Node, sz: nat) {
    n.Leaf? && FilledLeaf(n.vals, sz) && |n.vals| < 4
  }

  /** The first count messages leave no key with an entry. */
  ghost predicate NothingLeft(n: Node, ms: seq<Msg>, count: int) {
    0 <= count <= |ms| && forall k :: Play(View(n, k), Sel(ms[..count], k)) == Absent
  }

  /** A tree, a batch and its size with which none of the last three can happen: no node can be emptied
      by the removals of the keys in gone, and a leaf that has to be split has values enough. */
  ghost predicate Accepts(n: Node, ms: seq<Msg>, sz: nat, gone: set<Key>) {
    Safe(n, gone) && Clean(ms, gone) && sz <= SafeSz
  }

  /** A tree that accepts the batch has become one that no removal of the same keys can empty a node of. */
  ghost predicate Kept(was: Node, ms: seq<Msg>, sz: nat, n: Node) {
    forall gone: set<Key> :: Accepts(was, ms, sz, gone) ==> Safe(n, gone)
  }

  /** The tree means what n meant with the messages applied. */
  ghost predicate Took(t: Node, n: Node, ms: seq<Msg>) {
    forall k :: View(t, k) == Play(View(n, k), Sel(ms, k))
  }

  /** The tree means what n meant with the first count messages applied. */
  ghost predicate TookFirst(t: Node, n: Node, ms: seq<Msg>, count: int) {
    0 <= count <= |ms| && Took(t, n, ms[..count])
  }

  lemma TookNone(n: Node)
    ensures Took(n, n, [])
  {
    hide View;
    forall k ensures View(n, k) == Play(View(n, k), Sel([], k)) {
      assert Sel([], k) == [];
    }
  }

  /** Two rounds in a row. */
  lemma TookTwice(t: Node, m: Node, n: Node, a: seq<Msg>, b: seq<Msg>)
    requires Took(m, n, a) && Took(t, m, b)
    ensures Took(t, n, a + b)
  {
    hide View, Play, Sel;
    forall k ensures View(t, k) == Play(View(n, k), Sel(a + b, k)) {
      assert View(m, k) == Play(View(n, k), Sel(a, k));
      SelConcat(a, b, k);
      PlayConcat(View(n, k), Sel(a, k), Sel(b, k));
    }
  }

  /** The second of two rounds, from the outcome of both. */
  lemma TookBack(t: Node, m: Node, n: Node, a: seq<Msg>, b: seq<Msg>)
    requires Took(m, n, a) && Took(t, n, a + b)
    ensures Took(t, m, b)
  {
    hide View, Play, Sel;
    forall k ensures View(t, k) == Play(View(m, k), Sel(b, k)) {
      assert View(m, k) == Play(View(n, k), Sel(a, k));
      SelConcat(a, b, k);
      PlayConcat(View(n, k), Sel(a, k), Sel(b, k));
    }
  }

  /** Nothing is left after both. */
  lemma NothingTwice(m: Node, n: Node, ms: seq<Msg>, i: nat, j: nat)
    requires i <= j <= |ms| && Took(m, n, ms[..i]) && NothingLeft(m, ms[i..], j - i)
    ensures NothingLeft(n, ms, j)
  {
    hide View, Play, Sel;
    assert ms[i..][..j - i] == ms[i..j] && ms[..i] + ms[i..j] == ms[..j];
    forall k ensures Play(View(n, k), Sel(ms[..j], k)) == Absent {
      assert View(m, k) == Play(View(n, k), Sel(ms[..i], k));
      SelConcat(ms[..i], ms[i..j], k);
      PlayConcat(View(n, k), Sel(ms[..i], k), Sel(ms[i..j], k));
    }
  }

  /** What is left of a history that does not abort does not abort either. */
  lemma TookNoBad(t: Node, n: Node, a: seq<Msg>, b: seq<Msg>)
    requires Took(t, n, a) && NoBad(n, a + b)
    ensures NoBad(t, b)
  {
    hide View, Play, Sel;
    forall k ensures Play(View(t, k), Sel(b, k)) != Bad {
      assert Play(View(n, k), Sel(a + b, k)) != Bad;
      SelConcat(a, b, k);
      PlayConcat(View(n, k), Sel(a, k), Sel(b, k));
    }
  }

  /** A batch in any order with the same messages for every key. */
  lemma TookSame(t: Node, n: Node, a: seq<Msg>, b: seq<Msg>)
    requires Took(t, n, a) && SameByKey(a, b)
    ensures Took(t, n, b)
  {
    hide View, Play, Sel;
    forall k ensures View(t, k) == Play(View(n, k), Sel(b, k)) {
      assert Sel(a, k) == Sel(b, k);
    }
  }

  lemma NoBadSame(n: Node, a: seq<Msg>, b: seq<Msg>)
    requires NoBad(n, a) && SameByKey(a, b)
    ensures NoBad(n, b)
  {
    hide View, Play, Sel;
    forall k ensures Play(View(n, k), Sel(b, k)) != Bad {
      assert Sel(a, k) == Sel(b, k);
    }
  }

  // ----- the fast path -----

  /** A root with room takes the whole batch into its buffer. */
  lemma FastTook(kids: seq<Kid>, buf: seq<Msg>, out: seq<Msg>, ms: seq<Msg>, h: nat)
    requires Inv(Pivot(kids, buf), h, 0.0, 1.0) && BufInv(ms, 0.0, 1.0)
    requires IsMerge(out, buf, ms) && MsgsSz(out) <= Bufspc
    ensures Inv(Pivot(kids, out), h, 0.0, 1.0) && Took(Pivot(kids, out), Pivot(kids, buf), ms)
  {
    hide KidsInv, KidsView, Play, Sel, Rank, MsgsSz, MsgOk, SortedMsgs;
    MergeAll(out, buf, ms);
    forall k ensures View(Pivot(kids, out), k) == Play(View(Pivot(kids, buf), k), Sel(ms, k)) {
      assert Sel(out, k) == Sel(buf, k) + Sel(ms, k);
      PlayConcat(KidsView(kids, k), Sel(buf, k), Sel(ms, k));
    }
    assert SortedMsgs(out);
  }

  /** A merge adds nothing. */
  lemma MergeAll(out: seq<Msg>, a: seq<Msg>, b: seq<Msg>)
    requires IsMerge(out, a, b)
    requires AllMsgs(a, 0.0, 1.0) && AllMsgs(b, 0.0, 1.0)
    ensures AllMsgs(out, 0.0, 1.0)
  {
    hide Rank, Sel, MsgOk, SortedMsgs;
    forall i | 0 <= i < |out|
      ensures MsgOk(out[i]) && 0.0 <= Rank(out[i].k) < 1.0
    {
      SelIn(out, out[i]);
      SelIn(a, out[i]);
      SelIn(b, out[i]);
      assert Sel(out, out[i].k) == Sel(a, out[i].k) + Sel(b, out[i].k);
    }
  }

  /** fastupsert: the root's buffer merged with the batch in a copy of the root. */
  method FastUpsert(t: Tree, msg: seq<Msg>)
    requires t.Valid() && t.root.Pivot? && BufInv(msg, 0.0, 1.0)
    requires BufFill(t.root.buf) + MsgsSz(msg) <= Bufspc
    modifies t
    ensures t.Valid() && t.ht == old(t.ht) && t.dirty
    ensures t.root.Pivot? && t.root.kids == old(t.root.kids) && IsMerge(t.root.buf, old(t.root.buf), msg)
    ensures Took(t.root, old(t.root), msg)
    ensures forall gone: set<Key> :: Safe(old(t.root), gone) && Clean(msg, gone) ==> Safe(t.root, gone)
  {
    hide Inv, Took, MsgsSz, BufInv, IsMerge, Rank, Clean, SafeIn;
    var kids, buf := t.root.kids, t.root.buf;
    var r := new Blk(false);
    r.kids, r.buf := kids, buf;
    NodeParts(t.root, t.ht, 0.0, 1.0);
    BufSorted(buf, 0.0, 1.0);
    FastMerge(r, msg);
    FastTook(kids, buf, r.buf, msg, t.ht);
    forall gone: set<Key> | Clean(buf, gone) && Clean(msg, gone) ensures Clean(r.buf, gone) {
      MergeClean(r.buf, buf, msg, gone);
    }
    t.root := Pivot(kids, r.buf);
    t.dirty := true;
  }

  lemma BufSorted(buf: seq<Msg>, lo: real, hi: real)
    requires BufInv(buf, lo, hi)
    ensures SortedMsgs(buf)
  {
  }

  // ----- the new root -----

  /** A root updated in place of the old one. */
  lemma RootUpdated(p: Path, up: Path, h: nat, n: Node)
    requires LevelDone(p, up, h, 0.0, 1.0) && p.nl == Some(n) && p.nr == None
    ensures Inv(n, h, 0.0, 1.0)
    ensures LevelWell(p, up) ==> Took(n, p.b.value, up.Offer()[..p.npull])
    ensures forall gone: set<Key> :: Lives(p, gone) ==> Safe(n, gone)
  {
    hide Safe, Inv, KidsInv, Rank, MsgsSz, Means, LowKey, KidsView, View, Play, Sel;
    EntryInv(n, h);
    if LevelWell(p, up) {
      forall k ensures View(n, k) == Play(View(p.b.value, k), Sel(up.Offer()[..p.npull], k)) {
        OneEntryIs(n);
        MeansAt(p.b.value, Entries(p.nl, p.nr), up.Offer()[..p.npull], k);
        OneEntryView(n, h, 0.0, 1.0, k);
      }
    }
  }

  lemma MeansAt(was: Node, r: seq<Kid>, pulled: seq<Msg>, k: Key)
    requires Means(was, r, pulled)
    ensures KidsView(r, k) == Play(View(was, k), Sel(pulled, k))
  {
  }

  lemma EntryInv(n: Node, h: nat)
    requires if n.Leaf? then n.vals != [] else n.kids != []
    requires KidsInv(Entries(Some(n), None), h, 0.0, 1.0)
    ensures Inv(n, h, 0.0, 1.0)
  {
    hide Inv, LowKey;
    OneEntryIs(n);
    var e := [Kid(LowKey(n), n)];
    assert KidInv(e, 0, h, 1.0);
    Loosen(n, h, Rank(LowKey(n)), 1.0, 0.0, 1.0);
  }

  /** A split root under a new one. */
  lemma RootGrown(p: Path, up: Path, h: nat, n: Node)
    requires LevelDone(p, up, h, 0.0, 1.0) && p.nl.Some? && h >= 1
    requires n == Pivot(Entries(p.nl, p.nr), [])
    ensures Inv(n, h + 1, 0.0, 1.0)
    ensures LevelWell(p, up) ==> Took(n, p.b.value, up.Offer()[..p.npull])
    ensures forall gone: set<Key> :: Lives(p, gone) ==> Safe(n, gone)
  {
    hide KidsInv, Rank, MsgsSz, Means, LowKey, KidsView, Play, SafeIn;
    forall gone: set<Key> | Lives(p, gone) ensures Safe(n, gone) {
      EntriesLive(p.nl, p.nr, gone);
    }
    assert n.kids != [];
    EmptyBuf();
    if LevelWell(p, up) {
      forall k ensures View(n, k) == Play(View(p.b.value, k), Sel(up.Offer()[..p.npull], k)) {
        MeansAt(p.b.value, Entries(p.nl, p.nr), up.Offer()[..p.npull], k);
        NoMessages(n.kids, k);
      }
    }
  }

  lemma EmptyBuf()
    ensures BufInv([], 0.0, 1.0) && BufFill([]) == 0
  {
  }

  lemma NoMessages(kids: seq<Kid>, k: Key)
    ensures View(Pivot(kids, []), k) == KidsView(kids, k)
  {
    hide KidsView;
    assert Sel([], k) == [];
  }

  // ----- btupsert -----

  method NewTop(msg: seq<Msg>, npull: nat, sz: nat) returns (top: Path)
    requires npull <= |msg|
    ensures fresh(top) && top.ins == Some(msg) && top.lo == npull && top.hi == |msg| && top.sz == sz
    ensures Untouched(top) && top.Offers() && top.Offer() == msg[npull..]
  {
    top := new Path();
    top.sz, top.ins, top.lo, top.hi := sz, Some(msg), npull, |msg|;
  }

  /** The way down. */
  method WalkDown(root: Node, msg: seq<Msg>, npull: nat, sz: nat, ghost h: nat)
    returns (path: seq<Path>, ghost r: LastRound)
    requires Inv(root, h, 0.0, 1.0) && BufInv(msg, 0.0, 1.0) && MsgsSz(msg) <= sz && npull <= |msg|
    requires NoBad(root, msg[npull..])
    ensures r.root == root && r.ht == h && r.npull == npull && r.path == path && PathOf(r, msg, sz)
    ensures |path| >= 2 && |r.los| == |r.his| == |path| && Chain(path, h, r.los, r.his)
    ensures r.los[1] == 0.0 && r.his[1] == 1.0
    ensures forall i :: 0 <= i < |path| ==> Untouched(path[i]) && fresh(path[i])
    ensures path[1].b == Some(root) && path[0].sz == sz && (root.Leaf? ==> |path| == 2)
  {
    hide Inv, NoBad, BufInv, MsgsSz, Chain, ChosenAt, Ended, Offered;
    var top := NewTop(msg, npull, sz);
    TopOffered(top, root, h, msg, npull, sz);
    ghost var los, his;
    path, los, his := Descend(root, top, |msg|, h);
    RootAlone(path, h, los, his);
    r := LastRound(root, h, npull, path, los, his);
  }

  /** A path down from the root to a node with room, and a flush along it. n becomes the root: the left node
      of the old one, or a new one over both of its nodes. */
  method FlushOnce(root: Node, msg: seq<Msg>, npull: nat, sz: nat, ghost h: nat)
    returns (path: seq<Path>, n: Option<Node>, grown: bool, aborted: bool, dropped: bool, ghost r: LastRound)
    requires Inv(root, h, 0.0, 1.0) && BufInv(msg, 0.0, 1.0) && MsgsSz(msg) <= sz && npull <= |msg|
    requires NoBad(root, msg[npull..])
    ensures aborted <==> Unsplit(root, sz)
    ensures aborted ==> sz > SafeSz
    ensures r.root == root && r.ht == h && r.npull == npull && r.path == path
    ensures !aborted ==> FlushOf(r, msg, sz) && RootOf(path) == n && LevelDone(path[1], path[0], h, 0.0, 1.0)
    ensures !aborted ==> (dropped <==> SomeDrops(path, 0)) && (grown ==> BothLeft(path[1]))
    ensures !aborted ==> (n.Some? && !grown ==> path[1].nl == n && path[1].nr == None)
  {
    hide Inv, NoBad, BufInv, MsgsSz, SafeSz, Chain, Entries, LevelsDone, LevelDone, Wrote, FilledLeaf, SomeDrops,
         RootOf, PathOf;
    path, r := WalkDown(root, msg, npull, sz, h);
    var rp;
    rp, aborted, dropped := Flush(path, h, r.los, r.his);
    n, grown := None, rp == 0;
    if !aborted {
      PathOffer(r, msg, sz);
      RootDone(path, dropped, h);
      LevelsSome(path, dropped);
      if rp != -1 {
        n := path[rp].nl;
      }
    }
  }

  lemma PathOffer(r: LastRound, msg: seq<Msg>, sz: nat)
    requires PathOf(r, msg, sz)
    ensures r.npull <= |msg| && |r.path| >= 2 && r.path[0].Offers() && r.path[0].Offer() == msg[r.npull..]
  {
    hide Chain, ChosenAt, Ended;
  }

  /** What a flush means for the tree it was for. */
  lemma FlushedRound(r: LastRound, msg: seq<Msg>, sz: nat, n: Option<Node>, grown: bool, dropped: bool)
    requires FlushOf(r, msg, sz) && RootOf(r.path) == n && LevelDone(r.path[1], r.path[0], r.ht, 0.0, 1.0)
    requires (dropped <==> SomeDrops(r.path, 0)) && (grown ==> BothLeft(r.path[1]))
    requires n.Some? && !grown ==> r.path[1].nl == n && r.path[1].nr == None
    ensures var p := r.path[1];
            && r.ht >= 1 && p.npull <= |msg| - r.npull && (!dropped ==> LevelWell(p, r.path[0]))
            && (grown ==> n == Some(Pivot(Entries(p.nl, p.nr), [])))
            && (n.Some? && p.npull == 0 && r.npull < |msg| ==>
                  Smaller(n.value, if grown then r.ht + 1 else r.ht, r.root, r.ht))
            && (n == None ==> NothingLeft(r.root, msg[r.npull..], p.npull) || dropped || HalfLeft(r.path))
            && (n.Some? && n.value.Leaf? ==> r.root.Leaf? && p.npull == |msg| - r.npull)
    ensures forall gone: set<Key> :: Safe(r.root, gone) && Clean(msg[r.npull..], gone) ==>
              !dropped && Lives(r.path[1], gone) && n.Some?
  {
    hide Chain, LevelsDone, Safe, Clean, ChosenAt, Ended, LevelDone, LevelWell, Lives, Wrote, Smaller, NothingLeft,
         SomeDrops, HalfLeft, Entries, AllOut;
    var path := r.path;
    ChainSome(path, r.ht, r.los, r.his);
    RootAlone(path, r.ht, r.los, r.his);
    RootDone(path, dropped, r.ht);
    RootLives(path, r.ht, r.los, r.his, dropped, r.root, msg[r.npull..]);
    RootKind(path, dropped, r.root, msg[r.npull..]);
    if n.Some? && path[1].npull == 0 && r.npull < |msg| {
      FlushProgress(path, r.ht, r.los, r.his, |msg|, if grown then 0 else 1, n.value);
    }
  }

  lemma LevelsSome(path: seq<Path>, dropped: bool)
    requires path != [] && LevelsDone(path, 0, dropped)
    ensures dropped <==> SomeDrops(path, 0)
  {
    hide AllOut;
  }

  /** A leaf is the end of the path. */
  lemma RootAlone(path: seq<Path>, h: nat, los: seq<real>, his: seq<real>)
    requires Chain(path, h, los, his)
    ensures |path| >= 2 && path[1].b.Some? && (path[1].b.value.Leaf? ==> |path| == 2) && |los| == |his| == |path|
  {
    hide Inv, NoBad, BufInv, MsgsSz;
    assert ChainAt(path, h, los, his, 1);
  }

  /** What kind of root a flush leaves, if any. */
  lemma RootKind(path: seq<Path>, dropped: bool, root: Node, ms: seq<Msg>)
    requires |path| >= 2 && path[1].b == Some(root) && (root.Leaf? ==> |path| == 2)
    requires path[0].Offers() && path[0].Offer() == ms && path[1].npull <= |ms| && Wrote(path[1])
    requires LevelsDone(path, 0, dropped) && (!dropped ==> LevelWell(path[1], path[0]))
    ensures RootOf(path) == None ==> NothingLeft(root, ms, path[1].npull) || dropped || HalfLeft(path)
    ensures RootOf(path).Some? && RootOf(path).value.Leaf? ==> root.Leaf? && path[1].npull == |ms|
  {
    hide SomeDrops, SomeIll, DropsAt, LeafMerged, SplitAt, StopsLate, IsMerge, MsgsSz, FilledPiv, FilledLeaf, KeptOf,
         NewKids, LowKey;
    var p := path[1];
    assert OutAt(path, 1);
    if RootOf(path) == None && !dropped && !HalfLeft(path) {
      assert p.nl == None && p.nr == None;
      NoneMeans(root, ms[..p.npull], p.nl, p.nr);
    }
  }

  lemma NoneMeans(root: Node, ms: seq<Msg>, nl: Option<Node>, nr: Option<Node>)
    requires nl == None && nr == None && Means(root, Entries(nl, nr), ms)
    ensures forall k :: Play(View(root, k), Sel(ms, k)) == Absent
  {
    hide View, Play, Sel;
    assert Entries(nl, nr) == [];
    forall k ensures Play(View(root, k), Sel(ms, k)) == Absent {
      assert KidsView([], k) == Absent;
    }
  }

  /** One round. A round that takes nothing from a batch that is not done leaves a smaller tree behind. */
  method Round(t: Tree, msg: seq<Msg>, npull: nat, sz: nat)
    returns (out: Outcome, npull': nat, ghost r: LastRound)
    requires t.Valid() && BufInv(msg, 0.0, 1.0) && MsgsSz(msg) <= sz && npull <= |msg|
    requires NoBad(t.root, msg[npull..])
    modifies t
    ensures out == Done || out == Dropped ==> t.Valid() && npull <= npull' <= |msg| && t.dirty
    ensures out == Done ==> Took(t.root, old(t.root), msg[npull..npull'])
    ensures out == Done || out == Dropped ==>
              npull < npull' || npull == |msg| || Smaller(t.root, t.ht, old(t.root), old(t.ht))
    ensures out == Aborted ==> sz > SafeSz
    ensures out == Aborted <==> Unsplit(old(t.root), sz)
    ensures out == Aborted || out == Emptied ==> t.root == old(t.root) && t.ht == old(t.ht)
    ensures r.root == old(t.root) && r.npull == npull && (out != Aborted ==> FlushOf(r, msg, sz))
    ensures out != Aborted && out != Emptied ==> npull' == npull + r.path[1].npull && RootOf(r.path) == Some(t.root)
    ensures out == Emptied ==> RootOf(r.path) == None
    ensures out == Emptied ==>
              NothingLeft(r.root, msg[npull..], r.path[1].npull) || SomeDrops(r.path, 0) || HalfLeft(r.path)
    ensures out == Dropped ==> SomeDrops(r.path, 0) && !Took(t.root, old(t.root), msg[npull..npull'])
    ensures out == Done && t.root.Leaf? ==> old(t.root).Leaf? && npull' == |msg|
    ensures forall gone: set<Key> :: Accepts(old(t.root), msg[npull..], sz, gone) ==> out == Done && Safe(t.root, gone)
  {
    hide Inv, NoBad, BufInv, MsgsSz, Took, LevelWell, SafeSz, Entries, Safe, Clean, LevelDone, Lives, Wrote, Smaller,
         Chain, ChosenAt, Ended, LevelsDone, HalfLeft, NothingLeft, Unsplit, RootOf, SomeDrops, Same;
    var was := t.root;
    ghost var h := t.ht;
    var path, n, grown, aborted, dropped;
    path, n, grown, aborted, dropped, r := FlushOnce(t.root, msg, npull, sz, t.ht);
    npull' := npull;
    if aborted {
      return Aborted, npull, r;
    }
    FlushedRound(r, msg, sz, n, grown, dropped);
    var top, p := path[0], path[1];
    if n == None {
      return Emptied, npull, r;
    }
    npull' := npull + p.npull;
    assert top.Offer()[..p.npull] == msg[npull..npull + p.npull];
    SetRoot(t, grown, n.value, p, top);
    out := Done;
    if dropped {
      SameTook(t, was, h, msg[npull..npull']);
      if !Same(t.root, was, msg[npull..npull']) {
        out := Dropped;
      }
    }
  }

  lemma SameTook(t: Tree, was: Node, h: nat, ms: seq<Msg>)
    requires t.Valid() && Inv(was, h, 0.0, 1.0)
    ensures Same(t.root, was, ms) <==> Took(t.root, was, ms)
  {
    hide Inv, Same, View, Play, Sel;
    SameIs(t.root, t.ht, was, h, ms);
    if Same(t.root, was, ms) {
      forall k ensures View(t.root, k) == Play(View(was, k), Sel(ms, k)) {
      }
    } else {
      var k :| View(t.root, k) != Play(View(was, k), Sel(ms, k));
    }
  }

  /** The new root is set: the old one updated, or a new one over its halves. */
  method SetRoot(t: Tree, grown: bool, n: Node, p: Path, up: Path)
    requires t.ht >= 1 && LevelDone(p, up, t.ht, 0.0, 1.0)
    requires grown ==> p.nl.Some? && p.nr.Some? && n == Pivot(Entries(p.nl, p.nr), [])
    requires !grown ==> p.nl == Some(n) && p.nr == None
    modifies t
    ensures t.Valid() && t.root == n && t.dirty && t.ht == old(t.ht) + if grown then 1 else 0
    ensures LevelWell(p, up) ==> Took(t.root, p.b.value, up.Offer()[..p.npull])
    ensures forall gone: set<Key> :: Lives(p, gone) ==> Safe(t.root, gone)
  {
    hide Inv, Took, LevelWell, Entries, Safe, LevelDone, Lives;
    if grown {
      RootGrown(p, up, t.ht, n);
      t.ht := t.ht + 1;
    } else {
      RootUpdated(p, up, t.ht, n);
    }
    t.root := n;
    t.dirty := true;
  }

  /** Where the removals are harmless the round is done. */
  lemma RootLives(path: seq<Path>, h: nat, los: seq<real>, his: seq<real>, dropped: bool, root: Node, ms: seq<Msg>)
    requires Chain(path, h, los, his) && LevelsDone(path, 0, dropped) && |path| >= 2 && path[1].b == Some(root)
    requires path[0].Offers() && path[0].Offer() == ms && Wrote(path[1])
    ensures forall gone: set<Key> :: Safe(root, gone) && Clean(ms, gone) ==>
              !dropped && Lives(path[1], gone) && RootOf(path).Some?
  {
    hide Chain, LevelsDone, Safe, Clean, Entries, Wrote, FilledLeaf;
    forall gone: set<Key> | Safe(root, gone) && Clean(ms, gone)
      ensures !dropped && Lives(path[1], gone) && RootOf(path).Some?
    {
      FlushLives(path, h, los, his, dropped, gone);
    }
  }

  lemma RootDone(path: seq<Path>, dropped: bool, h: nat)
    requires |path| >= 2 && LevelsDone(path, 0, dropped) && LevelDone(path[1], path[0], h, 0.0, 1.0)
    ensures path[0].Offers() && path[1].npull <= |path[0].Offer()| && Wrote(path[1]) && AllOut(path, 0)
    ensures !dropped ==> LevelWell(path[1], path[0])
  {
    hide OutAt, LevelWell, KidsInv, Entries, MsgsSz, SomeDrops;
    if !dropped { assert WellAt(path, 1); }
  }

  lemma TopOffered(top: Path, root: Node, h: nat, msg: seq<Msg>, npull: nat, sz: nat)
    requires Inv(root, h, 0.0, 1.0) && BufInv(msg, 0.0, 1.0) && MsgsSz(msg) <= sz && npull <= |msg|
    requires NoBad(root, msg[npull..])
    requires top.ins == Some(msg) && top.lo == npull && top.hi == |msg| && top.sz == sz
    ensures Offered(top, root, h, 0.0, 1.0)
  {
    hide Inv, NoBad, MsgsSz, Rank, MsgOk;
    InvHeight(root, h, 0.0, 1.0);
    MsgsSzPrefix(msg, npull);
    assert top.Offer() == msg[npull..];
  }

  lemma ChainSome(path: seq<Path>, h: nat, los: seq<real>, his: seq<real>)
    requires Chain(path, h, los, his)
    ensures |path| >= 2 && path[0] != path[1] && path[1].b.Some? && h >= 1
  {
    hide Inv, NoBad, BufInv, MsgsSz;
    assert ChainAt(path, h, los, his, 1);
  }

  /** The root has room for the whole batch. */
  predicate Fast(n: Node, nmsg: nat, sz: nat) {
    n.Pivot? && !FilledBuf(n.buf, nmsg, sz)
  }

  /** Why an upsert from was to n is not done. The last round began with what the messages taken until then
      had made of the tree. Emptied: its flush leaves no root, as no key has an entry any more, or a pivot
      was dropped, or one half of the root leaf is empty. Dropped: its flush, in which a pivot was dropped,
      leaves a tree that does not mean the old one with the messages taken. */
  ghost predicate Stopped(out: Outcome, last: LastRound, n: Node, was: Node, msg: seq<Msg>, sz: nat)
    reads last.path
  {
    && FlushOf(last, msg, sz) && TookFirst(last.root, was, msg, last.npull)
    && var taken := last.npull + last.path[1].npull;
      if out == Emptied then
        && n == last.root && RootOf(last.path) == None
        && (NothingLeft(was, msg, taken) || SomeDrops(last.path, 0) || HalfLeft(last.path))
      else
        RootOf(last.path) == Some(n) && SomeDrops(last.path, 0) && !TookFirst(n, was, msg, taken)
  }

  /** btupsert: sort the batch, take the fast path when the root has room, and flush otherwise, until the
      whole batch has gone down. last is the round that did not succeed. */
  method BtUpsert(t: Tree, msg: array<Msg>) returns (out: Outcome, ghost last: LastRound)
    requires t.Valid() && (forall i :: 0 <= i < msg.Length ==> MsgOk(msg[i])) && NoBad(t.root, msg[..])
    modifies t, msg
    ensures SortedMsgs(msg[..]) && SameByKey(msg[..], old(msg[..]))
    ensures t.Valid() && (out == Done ==> t.dirty && Took(t.root, old(t.root), old(msg[..])))
    ensures Fast(old(t.root), msg.Length, MsgsSz(old(msg[..]))) ==>
              && out == Done && t.root.Pivot? && t.root.kids == old(t.root.kids) && t.ht == old(t.ht)
              && IsMerge(t.root.buf, old(t.root.buf), msg[..])
    ensures out == Aborted <==> Unsplit(old(t.root), MsgsSz(old(msg[..])))
    ensures out == Aborted ==> t.root == old(t.root) && t.ht == old(t.ht) && MsgsSz(old(msg[..])) > SafeSz
    ensures out == Emptied || out == Dropped ==>
              Stopped(out, last, t.root, old(t.root), msg[..], MsgsSz(old(msg[..])))
    ensures out == Done ==> Kept(old(t.root), old(msg[..]), MsgsSz(old(msg[..])), t.root)
    ensures forall gone: set<Key> :: Accepts(old(t.root), old(msg[..]), MsgsSz(old(msg[..])), gone) ==> out == Done
  {
    hide Inv, NoBad, BufInv, MsgsSz, Took, SafeSz, SortedMsgs, SameByKey, Rank, MsgOk, Accepts, Kept, Pend, Slack,
         PathOf, LevelsDone, HalfLeft, NothingLeft, FilledLeaf, RootOf, SomeDrops, BufFill, IsMerge, Stopped,
         TookFirst, Wrote;
    ghost var was, ms := t.root, msg[..];
    StableSort(msg);
    var batch := msg[..];
    SortedBatch(batch, ms);
    CleanBatch(ms, batch);
    var sz := MsgsSz(batch);
    NoBadSame(was, ms, batch);
    var npull := 0;
    TookNone(was);
    KeptSame(was, ms, sz);
    last := LastRound(was, 0, 0, [], [], []);
    assert batch[..0] == [] && batch[0..] == batch;
    while true
      invariant t.Valid() && msg[..] == batch && npull <= |batch|
      invariant Took(t.root, was, batch[..npull]) && NoBad(t.root, batch[npull..])
      invariant Fast(was, |batch|, sz) || t.root.Leaf? || Unsplit(was, sz)
                ==> t.root == was && npull == 0 && t.ht == old(t.ht)
      invariant Kept(was, ms, sz, t.root)
      decreases |batch| - npull, Pend(t.root, t.ht), Slack(t.root, t.ht)
    {
      PendPositive(t.root, t.ht);
      SlackPositive(t.root, t.ht, 0.0, 1.0);
      if npull == 0 && t.root.Pivot? && !FilledBuf(t.root.buf, |batch|, sz) {
        ghost var mid := t.root;
        FastUpsert(t, batch);
        assert batch[..0] == [];
        TookTwice(t.root, mid, was, batch[..0], batch);
        assert [] + batch == batch;
        TookSame(t.root, was, batch, ms);
        NotUnsplit(was, mid, sz);
        KeptFast(t.root, mid, was, ms, batch, sz);
        return Done, last;
      }
      ghost var mid, np0 := t.root, npull;
      var np;
      out, np, last := Round(t, batch, npull, sz);
      KeptRound(out, t.root, mid, was, ms, batch[np0..], sz);
      if out != Done {
        if out != Aborted {
          RoundEnds(out, last, t.root, mid, was, batch, np0, np, sz);
        }
        return;
      }
      assert batch[..np0] + batch[np0..np] == batch[..np];
      assert batch[np0..] == batch[np0..np] + batch[np..];
      TookTwice(t.root, mid, was, batch[..np0], batch[np0..np]);
      TookNoBad(t.root, mid, batch[np0..np], batch[np..]);
      npull := np;
      if npull == |batch| {
        assert batch[..npull] == batch;
        TookSame(t.root, was, batch, ms);
        return Done, last;
      }
    }
  }

  lemma KeptSame(was: Node, ms: seq<Msg>, sz: nat)
    ensures Kept(was, ms, sz, was)
  {
  }

  lemma KeptFast(n: Node, mid: Node, was: Node, ms: seq<Msg>, batch: seq<Msg>, sz: nat)
    requires Kept(was, ms, sz, mid)
    requires forall gone: set<Key> :: Safe(mid, gone) && Clean(batch, gone) ==> Safe(n, gone)
    requires forall gone: set<Key> :: Clean(ms, gone) ==> Clean(batch, gone)
    ensures Kept(was, ms, sz, n)
  {
    hide Safe, Clean;
  }

  lemma KeptRound(out: Outcome, n: Node, mid: Node, was: Node, ms: seq<Msg>, rest: seq<Msg>, sz: nat)
    requires Kept(was, ms, sz, mid)
    requires forall gone: set<Key> :: Accepts(mid, rest, sz, gone) ==> out == Done && Safe(n, gone)
    requires forall gone: set<Key> :: Clean(ms, gone) ==> Clean(rest, gone)
    ensures Kept(was, ms, sz, n) && forall gone: set<Key> :: Accepts(was, ms, sz, gone) ==> out == Done
  {
    hide Safe, Clean;
  }

  lemma NotUnsplit(was: Node, mid: Node, sz: nat)
    requires mid.Pivot? && (Unsplit(was, sz) ==> mid == was)
    ensures !Unsplit(was, sz)
  {
  }

  /** What a round that did not succeed says of the whole upsert. */
  lemma RoundEnds(out: Outcome, r: LastRound, n: Node, mid: Node, was: Node, ms: seq<Msg>, np0: nat, np: nat, sz: nat)
    requires (out == Emptied || out == Dropped) && np0 <= |ms| && Took(mid, was, ms[..np0])
    requires r.root == mid && r.npull == np0 && FlushOf(r, ms, sz)
    requires out == Emptied ==> n == mid && RootOf(r.path) == None
    requires out == Emptied ==>
               NothingLeft(mid, ms[np0..], r.path[1].npull) || SomeDrops(r.path, 0) || HalfLeft(r.path)
    requires out == Dropped ==> np == np0 + r.path[1].npull <= |ms| && RootOf(r.path) == Some(n)
    requires out == Dropped ==> SomeDrops(r.path, 0) && !Took(n, mid, ms[np0..np])
    ensures Stopped(out, r, n, was, ms, sz)
  {
    hide Took, PathOf, LevelsDone, RootOf, SomeDrops, HalfLeft;
    var j := r.path[1].npull;
    if out == Dropped && TookFirst(n, was, ms, np) {
      assert ms[..np0] + ms[np0..np] == ms[..np];
      TookBack(n, mid, was, ms[..np0], ms[np0..np]);
    }
    if NothingLeft(mid, ms[np0..], j) {
      NothingTwice(mid, was, ms, np0, np0 + j);
    }
  }

  lemma CleanBatch(a: seq<Msg>, b: seq<Msg>)
    requires SameByKey(b, a)
    ensures forall gone: set<Key>, i :: 0 <= i <= |b| && Clean(a, gone) ==> Clean(b[i..], gone)
    ensures forall gone: set<Key> :: Clean(a, gone) ==> Clean(b, gone)
  {
    hide Sel, MsgClean;
    forall gone: set<Key> | Clean(a, gone) ensures Clean(b, gone) {
      SameClean(a, b, gone);
    }
  }

  /** A stably sorted batch has the same messages. */
  lemma SortedBatch(a: seq<Msg>, b: seq<Msg>)
    requires SortedMsgs(a) && SameByKey(a, b) && forall i :: 0 <= i < |b| ==> MsgOk(b[i])
    ensures BufInv(a, 0.0, 1.0) && SameByKey(b, a)
  {
    hide Sel, SortedMsgs, MsgOk;
    forall i | 0 <= i < |a| ensures MsgOk(a[i]) {
      SelIn(a, a[i]);
      SelIn(b, a[i]);
      assert Sel(a, a[i].k) == Sel(b, a[i].k);
    }
  }
}
