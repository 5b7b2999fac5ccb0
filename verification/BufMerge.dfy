/** Stable merging of message buffers. */
module BufMerge {
  import opened Dat
  import opened Keys
  import opened Messages
  import opened Nodes

  /** out holds the messages of a and b, sorted, those of a before those of b on equal keys. */
  ghost predicate IsMerge(out: seq<Msg>, a: seq<Msg>, b: seq<Msg>) {
    SortedMsgs(out) && forall k :: Sel(out, k) == Sel(a, k) + Sel(b, k)
  }

  ghost predicate AllMsgs(ms: seq<Msg>, lo: real, hi: real) {
    forall x :: 0 <= x < |ms| ==> MsgOk(ms[x]) && lo <= Rank(ms[x].k) < hi
  }

  ghost predicate UpTo(out: seq<Msg>, top: real) {
    forall x :: 0 <= x < |out| ==> Rank(out[x].k) <= top
  }

  ghost predicate Below(ms: seq<Msg>, top: real) {
    forall x :: 0 <= x < |ms| ==> Rank(ms[x].k) < top
  }

  /** i messages of a and j of b have been merged, and the rest can follow. */
  ghost predicate Merging(out: seq<Msg>, a: seq<Msg>, i: nat, b: seq<Msg>, j: nat, full: bool)
    requires i <= |a| && j <= |b|
  {
    && IsMerge(out, a[..i], b[..j])
    && (i < |a| ==> Below(b[..j], Rank(a[i].k)) && UpTo(out, Rank(a[i].k)))
    && (j < |b| && !full ==> UpTo(out, Rank(b[j].k)))
  }

  lemma SelAppend(ms: seq<Msg>, m: Msg, k: Key)
    ensures Sel(ms + [m], k) == if m.k == k then Sel(ms, k) + [m] else Sel(ms, k)
  {
    assert (ms + [m])[..|ms|] == ms;
  }

  lemma MsgsSzAppend(ms: seq<Msg>, m: Msg)
    ensures MsgsSz(ms + [m]) == MsgsSz(ms) + MsgSz(m)
  {
    assert (ms + [m])[..|ms|] == ms;
  }

  lemma SortedAppend(out: seq<Msg>, m: Msg)
    requires SortedMsgs(out) && UpTo(out, Rank(m.k))
    ensures SortedMsgs(out + [m]) && UpTo(out + [m], Rank(m.k))
  {
    hide Rank;
  }

  /** The next message of a: nothing of b with its key is in yet. */
  lemma MergeOld(out: seq<Msg>, a: seq<Msg>, i: nat, b: seq<Msg>, j: nat, full: bool)
    requires i < |a| && j <= |b| && SortedMsgs(a) && SortedMsgs(b)
    requires Merging(out, a, i, b, j, full)
    requires j < |b| && !full ==> Rank(a[i].k) <= Rank(b[j].k)
    ensures Merging(out + [a[i]], a, i + 1, b, j, full)
  {
    hide Rank, Sel;
    var out' := out + [a[i]];
    SortedAppend(out, a[i]);
    assert a[..i + 1] == a[..i] + [a[i]];
    forall k
      ensures Sel(out', k) == Sel(a[..i + 1], k) + Sel(b[..j], k)
    {
      SelAppend(out, a[i], k);
      SelAppend(a[..i], a[i], k);
      if k == a[i].k { SelNone(b[..j], k); }
    }
  }

  /** The next message of b: everything left of a is above it. */
  lemma MergeNew(out: seq<Msg>, a: seq<Msg>, i: nat, b: seq<Msg>, j: nat, full: bool)
    requires i <= |a| && j < |b| && SortedMsgs(a) && SortedMsgs(b)
    requires Merging(out, a, i, b, j, false)
    requires i < |a| ==> Rank(b[j].k) < Rank(a[i].k)
    ensures Merging(out + [b[j]], a, i, b, j + 1, full)
  {
    hide Rank, Sel;
    var out' := out + [b[j]];
    SortedAppend(out, b[j]);
    assert b[..j + 1] == b[..j] + [b[j]];
    forall k
      ensures Sel(out', k) == Sel(a[..i], k) + Sel(b[..j + 1], k)
    {
      SelAppend(out, b[j], k);
      SelAppend(b[..j], b[j], k);
    }
  }

  lemma MergingFull(out: seq<Msg>, a: seq<Msg>, i: nat, b: seq<Msg>, j: nat, full0: bool, full: bool)
    requires i <= |a| && j <= |b| && Merging(out, a, i, b, j, full0) && (full0 ==> full)
    ensures Merging(out, a, i, b, j, full)
  {
    hide IsMerge, Below, UpTo, Rank;
  }

  /** Sorted and equal key by key is equal: the merge is unique. */
  lemma {:induction false} MergeUnique(x: seq<Msg>, y: seq<Msg>)
    requires SortedMsgs(x) && SortedMsgs(y) && forall k :: Sel(x, k) == Sel(y, k)
    ensures x == y
  {
    if x == [] {
      if y != [] { SelSome(y, y[|y| - 1].k); }
    } else if y == [] {
      SelSome(x, x[|x| - 1].k);
    } else {
      var x', y' := x[..|x| - 1], y[..|y| - 1];
      var m, n := x[|x| - 1], y[|y| - 1];
      LastIsTop(x, y);
      LastIsTop(y, x);
      RankInjective(m.k, n.k);
      assert x' + [m] == x && y' + [n] == y;
      SelAppend(x', m, m.k);
      SelAppend(y', n, m.k);
      assert Sel(x, m.k) == Sel(y, m.k);
      SameTail(Sel(x', m.k), m, Sel(y', m.k), n);
      forall k
        ensures Sel(x', k) == Sel(y', k)
      {
        assert Sel(x, k) == Sel(y, k);
        SelAppend(x', m, k);
        SelAppend(y', n, k);
        SameTail(Sel(x', k), m, Sel(y', k), n);
      }
      MergeUnique(x', y');
    }
  }

  lemma SameTail(s: seq<Msg>, m: Msg, t: seq<Msg>, n: Msg)
    ensures s + [m] == t + [n] ==> s == t && m == n
  {
    if s + [m] == t + [n] {
      assert (s + [m])[..|s|] == s && (t + [n])[..|t|] == t;
      assert (s + [m])[|s|] == m && (t + [n])[|t|] == n;
    }
  }

  lemma LastIsTop(x: seq<Msg>, y: seq<Msg>)
    requires x != [] && y != [] && SortedMsgs(y)
    requires Sel(x, x[|x| - 1].k) == Sel(y, x[|x| - 1].k)
    ensures Rank(x[|x| - 1].k) <= Rank(y[|y| - 1].k)
  {
    var k := x[|x| - 1].k;
    if Sel(y, k) == [] {
      SelSome(x, k);
    } else if Rank(y[|y| - 1].k) < Rank(k) {
      SelNone(y, k);
    }
  }

  /** The merge so far, with the range and size of what it holds. */
  ghost predicate MergeState(out: seq<Msg>, a: seq<Msg>, i: nat, b: seq<Msg>, j: nat, full: bool, lo: real, hi: real)
    requires i <= |a| && j <= |b|
  {
    Merging(out, a, i, b, j, full) && BufInv(a, lo, hi) && BufInv(b, lo, hi) && AllMsgs(out, lo, hi)
    && MsgsSz(out) == MsgsSz(a[..i]) + MsgsSz(b[..j])
  }

  lemma MergeBegin(a: seq<Msg>, b: seq<Msg>, lo: real, hi: real)
    requires BufInv(a, lo, hi) && BufInv(b, lo, hi)
    ensures MergeState([], a, 0, b, 0, false, lo, hi)
  {
    assert a[..0] == [] && b[..0] == [];
  }

  lemma KeepOne(out: seq<Msg>, a: seq<Msg>, i: nat, b: seq<Msg>, j: nat, full0: bool, full: bool, lo: real, hi: real)
    requires i < |a| && j <= |b| && MergeState(out, a, i, b, j, full0, lo, hi) && (full0 ==> full)
    requires j < |b| && !full ==> Rank(a[i].k) <= Rank(b[j].k)
    ensures MergeState(out + [a[i]], a, i + 1, b, j, full, lo, hi)
  {
    hide Merging, MsgsSz, Rank, MsgOk;
    MergingFull(out, a, i, b, j, full0, full);
    MergeOld(out, a, i, b, j, full);
    MsgsSzAppend(out, a[i]);
    assert a[..i + 1] == a[..i] + [a[i]];
    MsgsSzAppend(a[..i], a[i]);
  }

  lemma TakeOne(out: seq<Msg>, a: seq<Msg>, i: nat, b: seq<Msg>, j: nat, lo: real, hi: real)
    requires i <= |a| && j < |b| && MergeState(out, a, i, b, j, false, lo, hi)
    requires i < |a| ==> Rank(b[j].k) < Rank(a[i].k)
    ensures MergeState(out + [b[j]], a, i, b, j + 1, false, lo, hi)
    ensures MsgsSz(b[..j + 1]) == MsgsSz(b[..j]) + MsgSz(b[j])
  {
    hide Merging, MsgsSz, Rank, MsgOk;
    MergeNew(out, a, i, b, j, false);
    MsgsSzAppend(out, b[j]);
    assert b[..j + 1] == b[..j] + [b[j]];
    MsgsSzAppend(b[..j], b[j]);
  }

  lemma StateFull(out: seq<Msg>, a: seq<Msg>, i: nat, b: seq<Msg>, j: nat, full0: bool, full: bool, lo: real, hi: real)
    requires i <= |a| && j <= |b| && MergeState(out, a, i, b, j, full0, lo, hi) && (full0 ==> full)
    ensures MergeState(out, a, i, b, j, full, lo, hi)
  {
    hide Merging, MsgsSz, Rank, MsgOk;
    MergingFull(out, a, i, b, j, full0, full);
  }

  lemma MergeEnd(out: seq<Msg>, a: seq<Msg>, b: seq<Msg>, j: nat, full: bool, lo: real, hi: real)
    requires j <= |b| && MergeState(out, a, |a|, b, j, full, lo, hi)
    ensures IsMerge(out, a, b[..j]) && BufInv(out, lo, hi) && MsgsSz(out) == MsgsSz(a) + MsgsSz(b[..j])
  {
    hide MsgsSz, Rank, MsgOk, Sel;
    assert a[..|a|] == a;
  }
}
