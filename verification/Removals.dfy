/** Which removals a tree can have pending without a flush emptying a node: those of a set of keys that
    nobody is about to insert, no two of them next to each other in a leaf. */
module Removals {
  import opened Keys
  import opened Messages
  import opened Nodes
  import opened Splice
  import opened BufMerge
  import opened LeafMerge
  import opened LeafSplit

  predicate Removes(m: Msg) { m.op.Odelete? || m.op.Oclearb? || m.op.Oclobber? }

  /** Only the keys in gone are removed, and none of them is inserted. */
  ghost predicate Clean(ms: seq<Msg>, gone: set<Key>) {
    forall i :: 0 <= i < |ms| ==> MsgClean(ms[i], gone)
  }

  predicate MsgClean(m: Msg, gone: set<Key>) {
    (Removes(m) ==> m.k in gone) && (m.op.Oinsert? ==> m.k !in gone)
  }

  /** Of two neighbours one stays, and so does some value. */
  ghost predicate Sparse(vals: seq<Kvp>, gone: set<Key>) {
    && (forall i :: 0 <= i < |vals| - 1 ==> vals[i].k !in gone || vals[i + 1].k !in gone)
    && exists i :: 0 <= i < |vals| && vals[i].k !in gone
  }

  /** The whole tree. With gone empty: no removal is pending anywhere. */
  ghost predicate Safe(n: Node, gone: set<Key>) {
    match n
    case Leaf(vals) => Sparse(vals, gone)
    case Pivot(kids, buf) => Clean(buf, gone) && SafeIn(kids, gone)
  }

  ghost predicate SafeIn(kids: seq<Kid>, gone: set<Key>) {
    forall i :: 0 <= i < |kids| ==> Safe(kids[i].n, gone)
  }

  // ----- messages -----

  lemma {:induction false} SelIn(ms: seq<Msg>, m: Msg)
    ensures m in ms <==> m in Sel(ms, m.k)
  {
    if ms != [] {
      assert ms == ms[..|ms| - 1] + [ms[|ms| - 1]];
      SelIn(ms[..|ms| - 1], m);
    }
  }

  lemma {:induction false} SelClean(ms: seq<Msg>, k: Key, gone: set<Key>)
    requires Clean(ms, gone)
    ensures Clean(Sel(ms, k), gone) && forall i :: 0 <= i < |Sel(ms, k)| ==> Sel(ms, k)[i].k == k
  {
    hide MsgClean;
    if ms != [] {
      SelClean(ms[..|ms| - 1], k, gone);
    }
  }

  /** Without removals an entry stays, or the program stops. */
  lemma {:induction false} PlayStays(s: St, ms: seq<Msg>)
    requires s != Absent && forall i :: 0 <= i < |ms| ==> !Removes(ms[i])
    ensures Play(s, ms) != Absent
  {
    if ms != [] {
      PlayStays(s, ms[..|ms| - 1]);
    }
  }

  /** Without inserts there is no new entry. */
  lemma {:induction false} PlayNoEntry(s: St, ms: seq<Msg>)
    requires !s.Has? && forall i :: 0 <= i < |ms| ==> !ms[i].op.Oinsert?
    ensures !Play(s, ms).Has?
  {
    if ms != [] {
      PlayNoEntry(s, ms[..|ms| - 1]);
    }
  }

  /** The same messages key by key are the same messages. */
  lemma SameClean(a: seq<Msg>, b: seq<Msg>, gone: set<Key>)
    requires Clean(a, gone) && forall k :: Sel(b, k) == Sel(a, k)
    ensures Clean(b, gone)
  {
    hide Sel, MsgClean;
    forall i | 0 <= i < |b| ensures MsgClean(b[i], gone) {
      SelIn(a, b[i]);
      SelIn(b, b[i]);
      assert Sel(b, b[i].k) == Sel(a, b[i].k);
    }
  }

  lemma MergeClean(out: seq<Msg>, a: seq<Msg>, b: seq<Msg>, gone: set<Key>)
    requires IsMerge(out, a, b) && Clean(a, gone) && Clean(b, gone)
    ensures Clean(out, gone)
  {
    hide Sel, SortedMsgs, MsgClean;
    forall k ensures Sel(out, k) == Sel(a + b, k) {
      SelConcat(a, b, k);
    }
    SameClean(a + b, out, gone);
  }

  lemma SpliceSafe(kids: seq<Kid>, i: nat, r: seq<Kid>, gone: set<Key>)
    requires SafeIn(kids, gone) && SafeIn(r, gone) && i < |kids|
    ensures SafeIn(SpliceKids(kids, i, r), gone)
  {
    forall j | 0 <= j < |SpliceKids(kids, i, r)| ensures Safe(SpliceKids(kids, i, r)[j].n, gone) {
      SpliceAt(kids, i, r, j);
    }
  }

  // ----- leaves -----

  lemma FindIn(vals: seq<Kvp>, k: Key) returns (i: nat)
    requires Find(vals, k) != Absent
    ensures i < |vals| && vals[i].k == k
  {
    hide Find;
    if forall v :: v in vals ==> v.k != k { FindNone(vals, k); }
    i :| 0 <= i < |vals| && vals[i].k == k;
  }

  /** A value that is not to go is in the merged leaf. */
  lemma StaysIn(vals: seq<Kvp>, ms: seq<Msg>, out: seq<Kvp>, i: nat, gone: set<Key>) returns (x: nat)
    requires SortedVals(vals) && Clean(ms, gone) && LeafMerged(vals, ms, out)
    requires i < |vals| && vals[i].k !in gone
    ensures x < |out| && out[x].k == vals[i].k
  {
    hide Find, Play, Sel, Rank;
    var k := vals[i].k;
    FindAt(vals, i);
    SelClean(ms, k, gone);
    PlayStays(Find(vals, k), Sel(ms, k));
    x := FindIn(out, k);
  }

  /** A value of the merged leaf that is to go was there before. */
  lemma WasIn(vals: seq<Kvp>, ms: seq<Msg>, out: seq<Kvp>, x: nat, gone: set<Key>) returns (i: nat)
    requires Clean(ms, gone) && LeafMerged(vals, ms, out)
    requires x < |out| && out[x].k in gone
    ensures i < |vals| && vals[i].k == out[x].k
  {
    hide Find, Play, Sel, Rank;
    var k := out[x].k;
    FindAt(out, x);
    SelClean(ms, k, gone);
    if !Find(vals, k).Has? { PlayNoEntry(Find(vals, k), Sel(ms, k)); }
    i := FindIn(vals, k);
  }

  /** Two values of the merged leaf that are to go still have one between them that stays. */
  lemma StillApart(vals: seq<Kvp>, ms: seq<Msg>, out: seq<Kvp>, x: nat, gone: set<Key>)
    requires SortedVals(vals) && Clean(ms, gone) && LeafMerged(vals, ms, out) && Sparse(vals, gone)
    requires x + 1 < |out|
    ensures out[x].k !in gone || out[x + 1].k !in gone
  {
    hide Find, Play, Sel, Rank, MsgClean, Clean;
    if out[x].k in gone && out[x + 1].k in gone {
      var i := WasIn(vals, ms, out, x, gone);
      var j := WasIn(vals, ms, out, x + 1, gone);
      assert Rank(vals[i].k) < Rank(vals[j].k);
      assert i < j;
      var y := StaysIn(vals, ms, out, i + 1, gone);
      NoneBetween(out, x, y);
    }
  }

  lemma NoneBetween(out: seq<Kvp>, x: nat, y: nat)
    requires SortedVals(out) && x + 1 < |out| && y < |out|
    ensures Rank(out[y].k) <= Rank(out[x].k) || Rank(out[x + 1].k) <= Rank(out[y].k)
  {
    hide Rank;
  }

  lemma MergedSparse(vals: seq<Kvp>, ms: seq<Msg>, out: seq<Kvp>, gone: set<Key>)
    requires SortedVals(vals) && Clean(ms, gone) && LeafMerged(vals, ms, out) && Sparse(vals, gone)
    ensures Sparse(out, gone)
  {
    hide Find, Play, Sel, Rank, Clean;
    forall x | 0 <= x < |out| - 1 ensures out[x].k !in gone || out[x + 1].k !in gone {
      StillApart(vals, ms, out, x, gone);
    }
    var i :| 0 <= i < |vals| && vals[i].k !in gone;
    var y := StaysIn(vals, ms, out, i, gone);
  }

  /** A split leaves a value that stays on either side. */
  lemma HalvesSparse(vals: seq<Kvp>, ms: seq<Msg>, l: seq<Kvp>, r: seq<Kvp>, c: nat, gone: set<Key>)
    requires SortedVals(vals) && Clean(ms, gone) && Sparse(vals, gone)
    requires LeafMerged(vals, ms, l + r) && SplitAt(vals, l, r, c)
    ensures Sparse(l, gone) && Sparse(r, gone)
  {
    hide Find, Play, Sel, Rank, Clean, LeafMerged;
    var out := l + r;
    MergedSparse(vals, ms, out, gone);
    var n := |vals|;
    var i := if vals[0].k in gone then 1 else 0;
    var j := if vals[n - 1].k in gone then n - 2 else n - 1;
    assert vals[i].k !in gone && vals[j].k !in gone && i < c <= j by {
      assert vals[0].k !in gone || vals[0 + 1].k !in gone;
      assert vals[n - 2].k !in gone || vals[n - 2 + 1].k !in gone;
    }
    var x := StaysIn(vals, ms, out, i, gone);
    var y := StaysIn(vals, ms, out, j, gone);
    assert Rank(vals[i].k) <= Rank(vals[c - 1].k) && Rank(vals[c].k) <= Rank(vals[j].k);
    assert x < |l|;
    assert y >= |l|;
    PartSparse(l, r, gone, x, y);
  }

  lemma PartSparse(l: seq<Kvp>, r: seq<Kvp>, gone: set<Key>, x: nat, y: nat)
    requires Sparse(l + r, gone) && x < |l| <= y < |l + r| && (l + r)[x].k !in gone && (l + r)[y].k !in gone
    ensures Sparse(l, gone) && Sparse(r, gone)
  {
    var out := l + r;
    forall i | 0 <= i < |l| - 1 ensures l[i].k !in gone || l[i + 1].k !in gone {
      assert out[i] == l[i] && out[i + 1] == l[i + 1];
    }
    forall i | 0 <= i < |r| - 1 ensures r[i].k !in gone || r[i + 1].k !in gone {
      assert out[|l| + i] == r[i] && out[|l| + i + 1] == r[i + 1];
    }
    assert l[x] == out[x] && r[y - |l|] == out[y];
  }

  /** A leaf without messages stays what it is. */
  lemma MergedNone(vals: seq<Kvp>, out: seq<Kvp>)
    requires SortedVals(vals) && LeafMerged(vals, [], out)
    ensures out == vals
  {
    hide Find;
    forall k ensures Find(out, k) == Find(vals, k) {
      assert Sel([], k) == [];
    }
    ValsUnique(out, vals);
  }

  lemma {:induction false} ValsUnique(a: seq<Kvp>, b: seq<Kvp>)
    requires SortedVals(a) && SortedVals(b) && forall k :: Find(a, k) == Find(b, k)
    ensures a == b
  {
    hide Rank;
    if a == [] || b == [] {
      if b != [] { FindAt(b, 0); }
      if a != [] { FindAt(a, 0); }
    } else {
      var a', b' := a[..|a| - 1], b[..|b| - 1];
      var v, w := a[|a| - 1], b[|b| - 1];
      LastNotBelow(a, b);
      LastNotBelow(b, a);
      RankInjective(v.k, w.k);
      FindAt(a, |a| - 1);
      FindAt(b, |b| - 1);
      forall k ensures Find(a', k) == Find(b', k) {
        assert Find(a, k) == Find(b, k);
        if k == v.k {
          FindNone(a', k);
          FindNone(b', k);
        }
      }
      ValsUnique(a', b');
      assert a == a' + [v] && b == b' + [w];
    }
  }

  lemma LastNotBelow(a: seq<Kvp>, b: seq<Kvp>)
    requires a != [] && b != [] && SortedVals(a) && SortedVals(b) && forall k :: Find(a, k) == Find(b, k)
    ensures Rank(a[|a| - 1].k) <= Rank(b[|b| - 1].k)
  {
    hide Rank, Find;
    FindAt(a, |a| - 1);
    var i := FindIn(b, a[|a| - 1].k);
  }
}
