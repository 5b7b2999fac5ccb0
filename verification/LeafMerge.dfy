/** What merging messages into the values of a leaf has to keep. */
module LeafMerge {
  import opened Dat
  import opened Keys
  import opened Messages
  import opened Nodes

  /** The state of a key after the first i values and the first j messages. */
  ghost function Done(vals: seq<Kvp>, i: nat, ms: seq<Msg>, j: nat, k: Key): St
    requires i <= |vals| && j <= |ms|
  {
    Play(Find(vals[..i], k), Sel(ms[..j], k))
  }

  ghost predicate AllAtMost(out: seq<Kvp>, top: real) {
    forall x :: 0 <= x < |out| ==> Rank(out[x].k) <= top
  }

  /** Everything taken so far is at or below top, and everything still to take is above it. */
  ghost predicate Cut(vals: seq<Kvp>, i: nat, ms: seq<Msg>, j: nat, full: bool, top: real)
    requires i <= |vals| && j <= |ms|
  {
    && (forall x :: 0 <= x < i ==> Rank(vals[x].k) <= top)
    && (forall x :: 0 <= x < j ==> Rank(ms[x].k) <= top)
    && (i < |vals| ==> top < Rank(vals[i].k))
    && (j < |ms| && !full ==> top < Rank(ms[j].k))
  }

  /** out is a sorted leaf holding exactly what has been taken so far. */
  ghost predicate Merged(out: seq<Kvp>, vals: seq<Kvp>, i: nat, ms: seq<Msg>, j: nat)
    requires i <= |vals| && j <= |ms|
  {
    SortedVals(out) && forall k :: Find(out, k) == Done(vals, i, ms, j, k)
  }

  /** out is the leaf with the messages applied to its values. */
  ghost predicate LeafMerged(vals: seq<Kvp>, ms: seq<Msg>, out: seq<Kvp>) {
    SortedVals(out) && forall k :: Find(out, k) == Play(Find(vals, k), Sel(ms, k))
  }

  lemma MergedIs(vals: seq<Kvp>, ms: seq<Msg>, j: nat, out: seq<Kvp>)
    requires j <= |ms| && Merged(out, vals, |vals|, ms, j)
    ensures LeafMerged(vals, ms[..j], out)
  {
    hide Find, Play, Sel;
    assert vals[..|vals|] == vals;
    forall k ensures Find(out, k) == Play(Find(vals, k), Sel(ms[..j], k)) {
      assert Find(out, k) == Done(vals, |vals|, ms, j, k);
    }
  }

  /** The values of what a flush left of a leaf. */
  function ValsOf(n: Option<Node>): seq<Kvp> {
    if n.Some? && n.value.Leaf? then n.value.vals else []
  }

  lemma DoneVal(vals: seq<Kvp>, i: nat, ms: seq<Msg>, j: nat, k: Key)
    requires i < |vals| && j <= |ms|
    requires forall x :: 0 <= x < j ==> ms[x].k != vals[i].k
    ensures Done(vals, i + 1, ms, j, k) == if vals[i].k == k then Has(vals[i].v) else Done(vals, i, ms, j, k)
  {
    assert vals[..i + 1][..i] == vals[..i];
    if vals[i].k == k { SelNone(ms[..j], k); }
  }

  lemma DoneMsg(vals: seq<Kvp>, i: nat, ms: seq<Msg>, j: nat, k: Key)
    requires i <= |vals| && j < |ms|
    ensures Done(vals, i, ms, j + 1, k)
            == if ms[j].k == k then Apply(Done(vals, i, ms, j, k), ms[j]) else Done(vals, i, ms, j, k)
  {
    assert ms[..j + 1][..j] == ms[..j];
    var s := Sel(ms[..j], k);
    if ms[j].k == k {
      assert (s + [ms[j]])[..|s|] == s;
    } else {
      assert s + [] == s;
    }
  }

  lemma DoneAbove(vals: seq<Kvp>, i: nat, ms: seq<Msg>, j: nat, k: Key, top: real)
    requires i <= |vals| && j <= |ms|
    requires forall x :: 0 <= x < i ==> Rank(vals[x].k) <= top
    requires forall x :: 0 <= x < j ==> Rank(ms[x].k) <= top
    requires top < Rank(k)
    ensures Done(vals, i, ms, j, k) == Absent
  {
    FindNone(vals[..i], k);
    SelNone(ms[..j], k);
  }

  /** No prefix of a history that does not abort aborts. */
  lemma DoneOk(vals: seq<Kvp>, ms: seq<Msg>, i: nat, j: nat, k: Key)
    requires SortedVals(vals) && i <= |vals| && j <= |ms|
    requires Play(Find(vals, k), Sel(ms, k)) != Bad
    requires Find(vals[..i], k) == Find(vals, k)
    ensures Done(vals, i, ms, j, k) != Bad
  {
    assert ms == ms[..j] + ms[j..];
    SelConcat(ms[..j], ms[j..], k);
    PlayPrefix(Find(vals, k), Sel(ms[..j], k), Sel(ms[j..], k));
  }

  /** apply on a copied entry: whether the entry lives on, and its value. */
  function ApplyKv(v: Value, op: Op): (bool, Value)
  {
    match op
    case Oinsert(w) => (true, w)
    case Odelete(_) => (false, v)
    case Oclearb(_) => (false, v)
    case Oclobber(_) => (false, v)
    case Owstat(w) => (true, if v.Dir? then Dir(StatUpdate(v.d, w)) else v)
    case Orelink(link, dlbl, dref) =>
      (true, if v.Snap? then Snap(v.t.(succ := link, nlbl := v.t.nlbl + dlbl, nref := v.t.nref + dref)) else v)
    case Oreprev(link, dlbl, dref) =>
      (true, if v.Snap? then Snap(v.t.(pred := link, nlbl := v.t.nlbl + dlbl, nref := v.t.nref + dref)) else v)
  }

  function Live(ok: bool, v: Value): St { if ok then Has(v) else Absent }

  /** On a history that does not abort, apply on the copied entry is the meaning of the message,
      even when the copy is a leftover of a deleted entry. */
  lemma ApplyKvIs(ok: bool, v: Value, m: Msg)
    requires Apply(Live(ok, v), m) != Bad
    ensures Live(ApplyKv(v, m.op).0, ApplyKv(v, m.op).1) == Apply(Live(ok, v), m)
  {
  }

  lemma ApplyKvFits(k: Key, v: Value, m: Msg)
    requires KvpOk(Kvp(k, v)) && MsgOk(m) && m.k == k
    ensures KvpOk(Kvp(k, ApplyKv(v, m.op).1))
  {
  }

  lemma FindAppend(out: seq<Kvp>, kv: Kvp, k: Key)
    ensures Find(out + [kv], k) == if kv.k == k then Has(kv.v) else Find(out, k)
  {
    assert (out + [kv])[..|out|] == out;
  }

  /** The leaf being built while the messages of key q are still being applied to a copy whose
      state is st: everything below q is written, nothing above it has been taken. */
  ghost predicate Grouping(out: seq<Kvp>, vals: seq<Kvp>, i: nat, ms: seq<Msg>, j: nat, q: Key, st: St)
    requires i <= |vals| && j <= |ms|
  {
    && SortedVals(out)
    && (forall x :: 0 <= x < |out| ==> Rank(out[x].k) < Rank(q))
    && (forall x :: 0 <= x < i ==> Rank(vals[x].k) <= Rank(q))
    && (forall x :: 0 <= x < j ==> Rank(ms[x].k) <= Rank(q))
    && (i < |vals| ==> Rank(q) < Rank(vals[i].k))
    && (forall k :: k != q ==> Find(out, k) == Done(vals, i, ms, j, k))
    && Done(vals, i, ms, j, q) == st
  }

  /** The messages of a segment together with the values of a leaf, ready to be merged. */
  ghost predicate Mergeable(vals: seq<Kvp>, ms: seq<Msg>, lo: real, hi: real) {
    && SortedVals(vals) && SortedMsgs(ms)
    && (forall x :: 0 <= x < |vals| ==> KvpOk(vals[x]) && lo <= Rank(vals[x].k) < hi)
    && (forall x :: 0 <= x < |ms| ==> MsgOk(ms[x]) && lo <= Rank(ms[x].k) < hi)
    && forall k :: Play(Find(vals, k), Sel(ms, k)) != Bad
  }

  /** A value before the next message is copied. */
  lemma CopyValue(out: seq<Kvp>, vals: seq<Kvp>, i: nat, ms: seq<Msg>, j: nat, full: bool, top: real)
    requires i < |vals| && j <= |ms| && SortedVals(vals) && SortedMsgs(ms)
    requires Merged(out, vals, i, ms, j) && AllAtMost(out, top) && Cut(vals, i, ms, j, full, top)
    requires j < |ms| && !full ==> Rank(vals[i].k) < Rank(ms[j].k)
    ensures Merged(out + [vals[i]], vals, i + 1, ms, j)
    ensures AllAtMost(out + [vals[i]], Rank(vals[i].k)) && Cut(vals, i + 1, ms, j, full, Rank(vals[i].k))
  {
    forall k
      ensures Find(out + [vals[i]], k) == Done(vals, i + 1, ms, j, k)
    {
      FindAppend(out, vals[i], k);
      DoneVal(vals, i, ms, j, k);
    }
  }

  /** A value met by a message of its key starts a group. */
  lemma GroupAtValue(out: seq<Kvp>, vals: seq<Kvp>, i: nat, ms: seq<Msg>, j: nat, full: bool, top: real)
    requires i < |vals| && j < |ms| && SortedVals(vals) && SortedMsgs(ms)
    requires Merged(out, vals, i, ms, j) && AllAtMost(out, top) && Cut(vals, i, ms, j, full, top)
    requires vals[i].k == ms[j].k
    ensures Grouping(out, vals, i + 1, ms, j + 1, vals[i].k, Apply(Has(vals[i].v), ms[j]))
  {
    forall k | k != vals[i].k
      ensures Find(out, k) == Done(vals, i + 1, ms, j + 1, k)
    {
      DoneVal(vals, i, ms, j, k);
      DoneMsg(vals, i + 1, ms, j, k);
    }
    DoneVal(vals, i, ms, j, vals[i].k);
    DoneMsg(vals, i + 1, ms, j, vals[i].k);
  }

  /** A message before the next value starts a group of its own. */
  lemma GroupAtMessage(out: seq<Kvp>, vals: seq<Kvp>, i: nat, ms: seq<Msg>, j: nat, full: bool, top: real)
    requires i <= |vals| && j < |ms| && SortedVals(vals) && SortedMsgs(ms)
    requires Merged(out, vals, i, ms, j) && AllAtMost(out, top) && Cut(vals, i, ms, j, full, top)
    requires !full
    requires i < |vals| ==> Rank(ms[j].k) < Rank(vals[i].k)
    ensures Grouping(out, vals, i, ms, j + 1, ms[j].k, Apply(Absent, ms[j]))
  {
    DoneAbove(vals, i, ms, j, ms[j].k, top);
    forall k
      ensures Done(vals, i, ms, j + 1, k)
              == if k == ms[j].k then Apply(Absent, ms[j]) else Find(out, k)
    {
      DoneMsg(vals, i, ms, j, k);
    }
  }

  /** One more message of the group. */
  lemma GroupMore(out: seq<Kvp>, vals: seq<Kvp>, i: nat, ms: seq<Msg>, j: nat, q: Key, st: St)
    requires i <= |vals| && j < |ms|
    requires Grouping(out, vals, i, ms, j, q, st) && ms[j].k == q
    ensures Grouping(out, vals, i, ms, j + 1, q, Apply(st, ms[j]))
  {
    forall k
      ensures Done(vals, i, ms, j + 1, k)
              == if k == q then Apply(st, ms[j]) else Done(vals, i, ms, j, k)
    {
      DoneMsg(vals, i, ms, j, k);
    }
  }

  /** The group is finished: the copy is written if it lives. */
  lemma GroupEnd(out: seq<Kvp>, vals: seq<Kvp>, i: nat, ms: seq<Msg>, j: nat, kv: Kvp, ok: bool, full: bool)
    requires i <= |vals| && j <= |ms|
    requires Grouping(out, vals, i, ms, j, kv.k, Live(ok, kv.v))
    requires full || j == |ms| || Rank(kv.k) < Rank(ms[j].k)
    ensures var out' := if ok then out + [kv] else out;
            Merged(out', vals, i, ms, j) && AllAtMost(out', Rank(kv.k)) && Cut(vals, i, ms, j, full, Rank(kv.k))
  {
    hide Done, Rank, Find;
    var out' := if ok then out + [kv] else out;
    FindNone(out, kv.k);
    forall k
      ensures Find(out', k) == Done(vals, i, ms, j, k)
    {
      FindAppend(out, kv, k);
    }
  }

  /** In a group that does not abort, the state of the copied entry never is Bad. */
  lemma GroupOk(out: seq<Kvp>, vals: seq<Kvp>, i: nat, ms: seq<Msg>, j: nat, q: Key, st: St)
    requires i <= |vals| && j <= |ms| && SortedVals(vals)
    requires Grouping(out, vals, i, ms, j, q, st)
    requires Play(Find(vals, q), Sel(ms, q)) != Bad
    ensures st != Bad
  {
    assert vals == vals[..i] + vals[i..];
    FindConcat(vals[..i], vals[i..], q);
    FindNone(vals[i..], q);
    DoneOk(vals, ms, i, j, q);
  }

  /** apply on the copy of a group, as one step. */
  lemma GroupStep(out: seq<Kvp>, vals: seq<Kvp>, i: nat, ms: seq<Msg>, j: nat, v: Kvp, ok: bool,
                  lo: real, hi: real)
    requires i <= |vals| && j < |ms| && Mergeable(vals, ms, lo, hi) && KvpOk(v)
    requires Grouping(out, vals, i, ms, j, v.k, Live(ok, v.v)) && ms[j].k == v.k
    ensures var r := ApplyKv(v.v, ms[j].op);
            && Grouping(out, vals, i, ms, j + 1, v.k, Live(r.0, r.1))
            && KvpOk(Kvp(v.k, r.1))
            && ValSz(Kvp(v.k, r.1)) <= ValSz(v) + MsgSz(ms[j])
  {
    hide Grouping, Apply, Play, Find, Sel;
    GroupMore(out, vals, i, ms, j, v.k, Live(ok, v.v));
    GroupOk(out, vals, i, ms, j + 1, v.k, Apply(Live(ok, v.v), ms[j]));
    ApplyKvIs(ok, v.v, ms[j]);
    ApplyKvFits(v.k, v.v, ms[j]);
  }

  /** Between groups: what is written is a finished leaf of what has been taken. */
  ghost predicate Between(out: seq<Kvp>, vals: seq<Kvp>, i: nat, ms: seq<Msg>, j: nat, full: bool,
                          top: real, lo: real, hi: real)
    requires i <= |vals| && j <= |ms|
  {
    Merged(out, vals, i, ms, j) && AllAtMost(out, top) && Cut(vals, i, ms, j, full, top) && Fits(out, lo, hi)
  }

  ghost predicate Fits(out: seq<Kvp>, lo: real, hi: real) {
    forall x :: 0 <= x < |out| ==> KvpOk(out[x]) && lo <= Rank(out[x].k) < hi
  }

  /** A value before the next message, or after the last one that fits, is copied. */
  lemma BetweenCopy(out: seq<Kvp>, vals: seq<Kvp>, i: nat, ms: seq<Msg>, j: nat, full0: bool, full: bool,
                    top: real, lo: real, hi: real)
    requires i < |vals| && j <= |ms| && Mergeable(vals, ms, lo, hi) && (full0 ==> full)
    requires Between(out, vals, i, ms, j, full0, top, lo, hi)
    requires j < |ms| && !full ==> Rank(vals[i].k) < Rank(ms[j].k)
    ensures Between(out + [vals[i]], vals, i + 1, ms, j, full, Rank(vals[i].k), lo, hi)
    ensures KvpsSz(out + [vals[i]]) == KvpsSz(out) + ValSz(vals[i])
    ensures KvpsSz(vals[..i + 1]) == KvpsSz(vals[..i]) + ValSz(vals[i])
  {
    hide Merged, AllAtMost, Rank, ValSz;
    CopyValue(out, vals, i, ms, j, full, top);
    assert (out + [vals[i]])[..|out|] == out;
    assert vals[..i + 1][..i] == vals[..i];
  }

  /** A value met by a message of its key: apply starts the group. */
  lemma StartAtValue(out: seq<Kvp>, vals: seq<Kvp>, i: nat, ms: seq<Msg>, j: nat, full: bool,
                     top: real, lo: real, hi: real)
    requires i < |vals| && j < |ms| && Mergeable(vals, ms, lo, hi)
    requires Between(out, vals, i, ms, j, full, top, lo, hi) && vals[i].k == ms[j].k
    ensures var r := ApplyKv(vals[i].v, ms[j].op);
            && Grouping(out, vals, i + 1, ms, j + 1, vals[i].k, Live(r.0, r.1))
            && KvpOk(Kvp(vals[i].k, r.1))
            && ValSz(Kvp(vals[i].k, r.1)) <= ValSz(vals[i]) + MsgSz(ms[j])
    ensures KvpsSz(vals[..i + 1]) == KvpsSz(vals[..i]) + ValSz(vals[i])
  {
    hide Grouping, Merged, AllAtMost, Cut, Apply, Play, Find, Sel, Rank;
    var v := vals[i];
    GroupAtValue(out, vals, i, ms, j, full, top);
    GroupOk(out, vals, i + 1, ms, j + 1, v.k, Apply(Has(v.v), ms[j]));
    ApplyKvIs(true, v.v, ms[j]);
    ApplyKvFits(v.k, v.v, ms[j]);
    assert vals[..i + 1][..i] == vals[..i];
  }

  /** The value part of a message copied as an entry. */
  function Copied(m: Msg): Kvp {
    Kvp(m.k, if m.op.Oinsert? then m.op.v else Raw([]))
  }

  /** A message before the next value: unless it clears, it is an insert and starts the group. */
  lemma StartAtMessage(out: seq<Kvp>, vals: seq<Kvp>, i: nat, ms: seq<Msg>, j: nat,
                       top: real, lo: real, hi: real)
    requires i <= |vals| && j < |ms| && Mergeable(vals, ms, lo, hi)
    requires Between(out, vals, i, ms, j, false, top, lo, hi)
    requires i < |vals| ==> Rank(ms[j].k) < Rank(vals[i].k)
    ensures var ok := !ms[j].op.Oclearb? && !ms[j].op.Oclobber?;
            Grouping(out, vals, i, ms, j + 1, ms[j].k, Live(ok, Copied(ms[j]).v))
    ensures KvpOk(Copied(ms[j])) && ValSz(Copied(ms[j])) < MsgSz(ms[j])
  {
    hide Grouping, Merged, AllAtMost, Cut, Play, Find, Sel, Rank;
    GroupAtMessage(out, vals, i, ms, j, false, top);
    GroupOk(out, vals, i, ms, j + 1, ms[j].k, Apply(Absent, ms[j]));
  }

  lemma EndGroup(out: seq<Kvp>, vals: seq<Kvp>, i: nat, ms: seq<Msg>, j: nat, kv: Kvp, ok: bool,
                 full: bool, lo: real, hi: real)
    requires i <= |vals| && 0 < j <= |ms| && Mergeable(vals, ms, lo, hi) && KvpOk(kv)
    requires Grouping(out, vals, i, ms, j, kv.k, Live(ok, kv.v)) && Fits(out, lo, hi)
    requires ms[j - 1].k == kv.k
    requires full || j == |ms| || Rank(kv.k) < Rank(ms[j].k)
    ensures Between(if ok then out + [kv] else out, vals, i, ms, j, full, Rank(kv.k), lo, hi)
    ensures KvpsSz(out + [kv]) == KvpsSz(out) + ValSz(kv)
  {
    hide Grouping, Merged, AllAtMost, Cut, Rank, ValSz, KvpOk, KvpsSz, Fits;
    GroupEnd(out, vals, i, ms, j, kv, ok, full);
    SegmentIn(vals, ms, j - 1, lo, hi);
    FitsPush(out, kv, lo, hi);
    KvpsSzPush(out, kv);
  }

  lemma SegmentIn(vals: seq<Kvp>, ms: seq<Msg>, j: nat, lo: real, hi: real)
    requires Mergeable(vals, ms, lo, hi) && j < |ms|
    ensures lo <= Rank(ms[j].k) < hi
  {
    hide Rank, Play, Find, Sel;
  }

  lemma FitsPush(out: seq<Kvp>, kv: Kvp, lo: real, hi: real)
    requires Fits(out, lo, hi) && KvpOk(kv) && lo <= Rank(kv.k) < hi
    ensures Fits(out + [kv], lo, hi)
  {
    hide Rank, KvpOk;
  }

  lemma KvpsSzPush(out: seq<Kvp>, kv: Kvp)
    ensures KvpsSz(out + [kv]) == KvpsSz(out) + ValSz(kv)
  {
    hide ValSz;
    assert (out + [kv])[..|out|] == out;
  }
}
