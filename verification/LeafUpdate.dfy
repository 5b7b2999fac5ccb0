/** Merging a segment of messages into a leaf (src/tree.c, updateleaf and its Copyloop). */
module LeafUpdate {
  import opened Dat
  import opened Keys
  import opened Messages
  import opened Nodes
  import opened Splice
  import opened Blocks
  import opened LeafMerge

  /** The next message and its part of the total. */
  lemma MsgsSzNext(ms: seq<Msg>, j: nat)
    requires j < |ms|
    ensures MsgsSz(ms[..j + 1]) == MsgsSz(ms[..j]) + MsgSz(ms[j])
    ensures MsgsSz(ms[..j + 1]) <= MsgsSz(ms)
  {
    hide MsgSz;
    assert ms[..j + 1][..j] == ms[..j];
    MsgsSzPrefix(ms, j + 1);
  }

  lemma MsgsSzPrefix(ms: seq<Msg>, j: nat)
    requires j <= |ms|
    ensures MsgsSz(ms[..j]) + MsgsSz(ms[j..]) == MsgsSz(ms)
  {
    hide MsgsSz;
    assert ms == ms[..j] + ms[j..];
    MsgsSzConcat(ms[..j], ms[j..]);
  }

  /** The rest of a group: apply the offered messages of the copied entry's key while they fit. */
  method CopyLoop(ms: seq<Msg>, j0: nat, v0: Kvp, ok0: bool, spc: int,
                  ghost out: seq<Kvp>, ghost vals: seq<Kvp>, ghost i: nat, ghost lo: real, ghost hi: real)
    returns (j: nat, v: Kvp, ok: bool, m: Option<Msg>, full: bool, pulled: nat)
    requires i <= |vals| && 0 < j0 <= |ms| && Mergeable(vals, ms, lo, hi)
    requires Grouping(out, vals, i, ms, j0, v0.k, Live(ok0, v0.v)) && KvpOk(v0)
    requires ms[j0 - 1].k == v0.k
    ensures j0 <= j <= |ms| && v.k == v0.k && KvpOk(v) && ms[j - 1].k == v0.k
    ensures forall y :: j0 <= y < j ==> ms[y].k == v0.k
    ensures Grouping(out, vals, i, ms, j, v.k, Live(ok, v.v))
    ensures full || j == |ms| || Rank(v.k) < Rank(ms[j].k)
    ensures j < |ms| && !full ==> m == Some(ms[j])
    ensures full ==> j < |ms| && MsgSz(ms[j]) > spc
    ensures pulled + MsgsSz(ms[..j0]) == MsgsSz(ms[..j])
    ensures ValSz(v) <= ValSz(v0) + pulled
  {
    hide Grouping, ApplyKv, Live, KvpOk, MsgsSz, Rank, ValSz, MsgSz, KeyCmpBody, Apply, Play, Find, Sel;
    j, v, ok, full, pulled, m := j0, v0, ok0, false, 0, None;
    while j < |ms|
      invariant j0 <= j <= |ms| && v.k == v0.k && KvpOk(v) && ms[j - 1].k == v.k && !full
      invariant forall y :: j0 <= y < j ==> ms[y].k == v0.k
      invariant Grouping(out, vals, i, ms, j, v.k, Live(ok, v.v))
      invariant pulled + MsgsSz(ms[..j0]) == MsgsSz(ms[..j])
      invariant ValSz(v) <= ValSz(v0) + pulled
    {
      var c;
      c, m, full := PullMsg(ms, j, Some(v.k), m, full, spc);
      if c != 0 {
        assert Rank(ms[j - 1].k) <= Rank(ms[j].k);
        break;
      }
      GroupStep(out, vals, i, ms, j, v, ok, lo, hi);
      MsgsSzNext(ms, j);
      pulled := pulled + MsgSz(m.value);
      var r := ApplyKv(v.v, m.value.op);
      ok, v := r.0, Kvp(v.k, r.1);
      j := j + 1;
    }
  }

  /** A finished merge replaces the leaf; a leaf left without values leaves nothing behind. */
  lemma LeafReplaced(vals: seq<Kvp>, ms: seq<Msg>, j: nat, out: seq<Kvp>, full: bool, top: real, lo: real, hi: real)
    requires j <= |ms| && Between(out, vals, |vals|, ms, j, full, top, lo, hi)
    ensures Replaces(Leaf(vals), 1, lo, hi,
                     Entries(if out == [] then None else Some(Leaf(out)), None), ms[..j])
  {
    hide Rank, Sel, Play, Find, LowKey;
    var n := if out == [] then None else Some(Leaf(out));
    var r := Entries(n, None);
    assert vals[..|vals|] == vals;
    if n.Some? {
      assert Inv(n.value, 1, lo, hi);
      OneEntry(n.value, 1, lo, hi);
      assert r == [Kid(LowKey(n.value), n.value)];
    } else {
      assert r == [];
    }
    forall k
      ensures KidsView(r, k) == Play(View(Leaf(vals), k), Sel(ms[..j], k))
    {
      assert Find(out, k) == Done(vals, |vals|, ms, j, k);
      if n.Some? {
        OneEntryView(n.value, 1, lo, hi, k);
      } else {
        FindNone(out, k);
      }
    }
  }

  lemma BetweenMerged(vals: seq<Kvp>, ms: seq<Msg>, j: nat, out: seq<Kvp>, full: bool, top: real, lo: real, hi: real)
    requires j <= |ms| && Between(out, vals, |vals|, ms, j, full, top, lo, hi)
    ensures LeafMerged(vals, ms[..j], out)
  {
    hide Merged, AllAtMost, Cut, Fits;
    MergedIs(vals, ms, j, out);
  }

  lemma AboveTop(out: seq<Kvp>, vals: seq<Kvp>, i: nat, ms: seq<Msg>, j: nat, top: real, lo: real, hi: real)
    requires i <= |vals| && j < |ms| && Between(out, vals, i, ms, j, false, top, lo, hi)
    ensures top < Rank(ms[j].k)
  {
    hide Rank, Merged, AllAtMost, Fits;
  }

  lemma Begin(vals: seq<Kvp>, ms: seq<Msg>, lo: real, hi: real)
    ensures Between([], vals, 0, ms, 0, false, -1.0, lo, hi)
    ensures KvpsSz(vals[..0]) == KvpsSz([]) == 0 && MsgsSz(ms[..0]) == 0 && PullSz(vals, ms[..0]) == 0
  {
  }

  // ----- how much a leaf reports as pulled -----

  /** The first message of its key. */
  ghost predicate FirstOf(ms: seq<Msg>, j: nat)
    requires j < |ms|
  {
    forall y :: 0 <= y < j ==> ms[y].k != ms[j].k
  }

  /** The first message of a key is not reported when it meets a value, or when it is a clear. */
  ghost predicate Unreported(vals: seq<Kvp>, ms: seq<Msg>, j: nat)
    requires j < |ms|
  {
    FirstOf(ms, j) && (ms[j].op.Oclearb? || ms[j].op.Oclobber? || exists v :: v in vals && v.k == ms[j].k)
  }

  /** pullsz after a leaf has taken the messages. */
  ghost function PullSz(vals: seq<Kvp>, ms: seq<Msg>): nat {
    if ms == [] then 0
    else PullSz(vals, ms[..|ms| - 1]) + if Unreported(vals, ms, |ms| - 1) then 0 else MsgSz(ms[|ms| - 1])
  }

  lemma PullNext(vals: seq<Kvp>, ms: seq<Msg>, j: nat)
    requires j < |ms|
    ensures PullSz(vals, ms[..j + 1]) == PullSz(vals, ms[..j]) + if Unreported(vals, ms, j) then 0 else MsgSz(ms[j])
  {
    hide MsgSz;
    var a := ms[..j + 1];
    assert a[..j] == ms[..j] && a[j] == ms[j];
    assert FirstOf(a, j) <==> FirstOf(ms, j) by {
      assert forall y :: 0 <= y < j ==> a[y] == ms[y];
    }
  }

  lemma {:induction false} PullRun(vals: seq<Kvp>, ms: seq<Msg>, i: nat, j: nat)
    requires i < j <= |ms| && forall y :: i <= y < j ==> ms[y].k == ms[i].k
    ensures PullSz(vals, ms[..j]) == PullSz(vals, ms[..i + 1]) + MsgsSz(ms[..j]) - MsgsSz(ms[..i + 1])
  {
    hide MsgSz, PullSz, MsgsSz;
    if i + 1 < j {
      PullRun(vals, ms, i, j - 1);
      PullNext(vals, ms, j - 1);
      MsgsSzNext(ms, j - 1);
      assert ms[i].k == ms[j - 1].k;
    }
  }

  /** What message j does to the report when it starts a group: it is the first of its key, and has a value
      or not. */
  lemma GroupFirst(out: seq<Kvp>, vals: seq<Kvp>, i: nat, ms: seq<Msg>, j: nat, top: real, lo: real, hi: real,
                   c: int)
    requires i <= |vals| && j < |ms| && Between(out, vals, i, ms, j, false, top, lo, hi) && Mergeable(vals, ms, lo, hi)
    requires c == 0 ==> i < |vals| && vals[i].k == ms[j].k
    requires c == 1 ==> i < |vals| ==> Rank(ms[j].k) < Rank(vals[i].k)
    requires c == 0 || c == 1
    ensures Unreported(vals, ms, j) <==> c == 0 || ms[j].op.Oclearb? || ms[j].op.Oclobber?
  {
    hide Rank, Merged, Fits, KvpOk, MsgOk, Play, Sel, Find;
    forall y | 0 <= y < j ensures ms[y].k != ms[j].k {
      assert Rank(ms[y].k) <= top < Rank(ms[j].k);
    }
    if c == 0 {
      assert vals[i] in vals;
    } else {
      forall v | v in vals ensures v.k != ms[j].k {
        var x :| 0 <= x < |vals| && vals[x] == v;
        if x < i { assert Rank(vals[x].k) <= top < Rank(ms[j].k); } else if x > i {
          assert Rank(vals[i].k) < Rank(vals[x].k);
        }
      }
    }
  }

  /** One group: start from the value met by message j0 (c == 0) or from the message alone
      (c == 1), run the Copyloop, and write the entry if it lives. pre is what other blocks hold. */
  method ApplyGroup(ms: seq<Msg>, c: int, i0: nat, j0: nat, m0: Option<Msg>, spc0: int, n: Blk, vals: seq<Kvp>,
                    ghost pre: seq<Kvp>, ghost top0: real, ghost lo: real, ghost hi: real)
    returns (i: nat, j: nat, m: Option<Msg>, full: bool, spc: int, pullsz: nat, copied: nat, ghost top: real)
    requires i0 <= |vals| && j0 < |ms| && n.leaf && Mergeable(vals, ms, lo, hi)
    requires Between(pre + n.vals, vals, i0, ms, j0, false, top0, lo, hi)
    requires m0 == Some(ms[j0])
    requires c == 0 ==> i0 < |vals| && vals[i0].k == m0.value.k
    requires c == 1 ==> i0 < |vals| ==> Rank(m0.value.k) < Rank(vals[i0].k)
    requires c == 0 || c == 1
    modifies n`vals
    ensures i == (if c == 0 then i0 + 1 else i0) && j0 < j <= |ms|
    ensures forall y :: j0 <= y < j ==> ms[y].k == ms[j0].k
    ensures copied == if c == 0 then ValSz(vals[i0]) else MsgSz(ms[j0]) - 1
    ensures spc0 - spc <= if c == 0 then 0 else MsgSz(ms[j0]) - 1
    ensures Between(pre + n.vals, vals, i, ms, j, full, top, lo, hi)
    ensures j < |ms| && !full ==> m == Some(ms[j])
    ensures full ==> j < |ms| && MsgSz(ms[j]) > spc
    ensures KvpsSz(pre + n.vals) + KvpsSz(vals[..i0]) + MsgsSz(ms[..j0])
            <= KvpsSz(pre + old(n.vals)) + KvpsSz(vals[..i]) + MsgsSz(ms[..j])
    ensures pullsz + MsgsSz(ms[..j0]) <= MsgsSz(ms[..j])
    ensures pullsz + PullSz(vals, ms[..j0]) == PullSz(vals, ms[..j])
    ensures spc <= spc0 && spc0 - spc + MsgsSz(ms[..j0]) <= MsgsSz(ms[..j])
    ensures top0 < top && old(n.vals) <= n.vals
    ensures forall x :: |old(n.vals)| <= x < |n.vals| ==> top0 < Rank(n.vals[x].k)
  {
    hide Grouping, Merged, AllAtMost, Cut, Fits, Mergeable, ApplyKv, Live, KvpOk, MsgsSz, KvpsSz, Rank, ValSz,
         MsgSz, KeyCmpBody, Apply, Play, Find, Sel, PullSz, Unreported;
    var v: Kvp;
    var ok: bool;
    MsgsSzNext(ms, j0);
    AboveTop(pre + n.vals, vals, i0, ms, j0, top0, lo, hi);
    GroupFirst(pre + n.vals, vals, i0, ms, j0, top0, lo, hi, c);
    PullNext(vals, ms, j0);
    i, j, spc, pullsz := i0, j0 + 1, spc0, 0;
    if c == 0 {
      StartAtValue(pre + n.vals, vals, i, ms, j0, false, top0, lo, hi);
      v := vals[i];
      copied := ValSz(v);
      var r := ApplyKv(v.v, m0.value.op);
      ok, v := r.0, Kvp(v.k, r.1);
      i := i + 1;
    } else {
      StartAtMessage(pre + n.vals, vals, i, ms, j0, top0, lo, hi);
      v := Copied(m0.value);
      copied := MsgSz(m0.value) - 1;
      ok := !m0.value.op.Oclearb? && !m0.value.op.Oclobber?;
      if ok {
        spc := spc - (MsgSz(m0.value) - 1);
        pullsz := pullsz + MsgSz(m0.value);
      }
    }
    var pulled;
    j, v, ok, m, full, pulled := CopyLoop(ms, j, v, ok, spc, pre + n.vals, vals, i, lo, hi);
    pullsz := pullsz + pulled;
    PullRun(vals, ms, j0, j);
    EndGroup(pre + n.vals, vals, i, ms, j, v, ok, full, lo, hi);
    if ok {
      assert pre + (n.vals + [v]) == pre + n.vals + [v];
      n.SetVal(v);
    }
    top := Rank(v.k);
  }

  /** updateleaf: a leaf with room for its segment takes all of it. */
  method UpdateLeaf(up: Path, p: Path, ghost lo: real, ghost hi: real)
    requires up != p && up.Offers() && p.b.Some? && p.b.value.Leaf? && p.b.value.vals != []
    requires Mergeable(p.b.value.vals, up.Offer(), lo, hi)
    requires MsgsSz(up.Offer()) <= up.sz && !FilledLeaf(p.b.value.vals, up.sz)
    requires p.pullsz == 0
    modifies p`npull, p`op, p`nl, p`pullsz
    ensures p.op == POmod && p.npull == up.hi - up.lo && p.pullsz <= MsgsSz(up.Offer())
    ensures p.pullsz == PullSz(p.b.value.vals, up.Offer())
    ensures p.nl.Some? ==> p.nl.value.Leaf? && p.nl.value.vals != [] && LeafFill(p.nl.value.vals) <= Leafspc
    ensures Replaces(p.b.value, 1, lo, hi, Entries(p.nl, None), up.Offer())
    ensures LeafMerged(p.b.value.vals, up.Offer(), ValsOf(p.nl))
  {
    hide Between, Mergeable, MsgsSz, KvpsSz, Rank, ValSz, MsgSz, KeyCmpBody, Replaces, Inv, View, Entries, LeafMerged,
         PullSz;
    var ms := up.Offer();
    var vals := p.b.value.vals;
    var i: nat, j: nat := 0, 0;
    var full := false;
    var spc: int := Leafspc - LeafFill(vals);
    var pulled: nat := 0;
    var n := new Blk(true);
    var m: Option<Msg> := None;
    ghost var top: real := -1.0;
    Begin(vals, ms, lo, hi);
    while i < |vals| || j < |ms|
      invariant i <= |vals| && j <= |ms| && !full
      invariant Between(n.vals, vals, i, ms, j, full, top, lo, hi)
      invariant spc >= MsgsSz(ms) - MsgsSz(ms[..j])
      invariant KvpsSz(n.vals) <= KvpsSz(vals[..i]) + MsgsSz(ms[..j])
      invariant p.pullsz == 0 && pulled <= MsgsSz(ms[..j]) && pulled == PullSz(vals, ms[..j])
      invariant i == |vals| && j < |ms| ==> m == Some(ms[j])
      decreases |vals| - i + |ms| - j
    {
      var c;
      if i >= |vals| {
        c := 1;
      } else {
        c := -1;
        if j < |ms| {
          MsgsSzNext(ms, j);
          m := Some(ms[j]);
          if MsgSz(m.value) <= spc {
            c := KeyCmp(vals[i].k, m.value.k);
          } else {
            full := true;
          }
        }
      }
      if c == -1 {
        BetweenCopy(n.vals, vals, i, ms, j, false, full, top, lo, hi);
        n.SetVal(vals[i]);
        top := Rank(vals[i].k);
        i := i + 1;
      } else {
        var pullsz, copied;
        assert [] + n.vals == n.vals;
        i, j, m, full, spc, pullsz, copied, top := ApplyGroup(ms, c, i, j, m, spc, n, vals, [], top, lo, hi);
        assert [] + n.vals == n.vals;
        pulled := pulled + pullsz;
        if j < |ms| { MsgsSzNext(ms, j); }
      }
    }
    assert vals[..i] == vals && ms[..j] == ms;
    p.pullsz := p.pullsz + pulled;
    p.npull := j;
    p.op := POmod;
    p.nl := n.SetB();
    LeafReplaced(vals, ms, |ms|, n.vals, full, top, lo, hi);
    BetweenMerged(vals, ms, |ms|, n.vals, full, top, lo, hi);
  }
}
