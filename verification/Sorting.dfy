/** Sorting a batch and merging it into a root buffer in place (src/tree.c, stablesort and fastupsert). */
module Sorting {
  import opened Dat
  import opened Keys
  import opened Messages
  import opened Nodes
  import opened Blocks
  import opened BufMerge
  import Slots

  /** The same messages for every key, in the same order. */
  ghost predicate SameByKey(a: seq<Msg>, b: seq<Msg>) {
    forall k :: Sel(a, k) == Sel(b, k)
  }

  /** Exchanging neighbours of different keys keeps every key's messages in order. */
  lemma SwapSel(a: seq<Msg>, b: seq<Msg>, j: nat, k: Key)
    requires 0 < j < |a| && |b| == |a|
    requires b == a[j - 1 := a[j]][j := a[j - 1]]
    requires a[j - 1].k != a[j].k
    ensures Sel(a, k) == Sel(b, k)
  {
    hide Sel;
    var x, y, front, rest := a[j - 1], a[j], a[..j - 1], a[j + 1..];
    assert a == front + [x, y] + rest;
    assert b == front + [y, x] + rest;
    SelThree(front, [x, y], rest, k);
    SelThree(front, [y, x], rest, k);
    SelPair(x, y, k);
    SelPair(y, x, k);
    if x.k == k {
      assert [x] + [] == [] + [x];
    } else if y.k == k {
      assert [y] + [] == [] + [y];
    }
  }

  lemma SwapSize(a: seq<Msg>, b: seq<Msg>, j: nat)
    requires 0 < j < |a| && |b| == |a|
    requires b == a[j - 1 := a[j]][j := a[j - 1]]
    ensures MsgsSz(b) == MsgsSz(a)
  {
    hide MsgsSz;
    var x, y, front, rest := a[j - 1], a[j], a[..j - 1], a[j + 1..];
    assert a == front + [x] + [y] + rest;
    assert b == front + [y] + [x] + rest;
    MsgsSzConcat(front + [x] + [y], rest);
    MsgsSzConcat(front + [y] + [x], rest);
    MsgsSzAppend(front + [x], y);
    MsgsSzAppend(front, x);
    MsgsSzAppend(front + [y], x);
    MsgsSzAppend(front, y);
  }

  lemma SelThree(a: seq<Msg>, b: seq<Msg>, c: seq<Msg>, k: Key)
    ensures Sel(a + b + c, k) == Sel(a, k) + Sel(b, k) + Sel(c, k)
  {
    hide Sel;
    SelConcat(a, b, k);
    SelConcat(a + b, c, k);
  }

  lemma SelPair(x: Msg, y: Msg, k: Key)
    ensures Sel([x, y], k) == (if x.k == k then [x] else []) + (if y.k == k then [y] else [])
  {
    SelAppend([x], y, k);
    SelAppend([], x, k);
    assert [] + [x] == [x] && [x] + [y] == [x, y];
  }

  /** Sorted up to i, but for the element at j, which still has to sink. */
  ghost predicate Sinking(s: seq<Msg>, i: nat, j: nat) {
    && j <= i < |s|
    && (forall x, y :: 0 <= x < y <= i && x != j && y != j ==> Rank(s[x].k) <= Rank(s[y].k))
    && (forall y :: j < y <= i ==> Rank(s[j].k) <= Rank(s[y].k))
  }

  lemma Sink(a: seq<Msg>, b: seq<Msg>, i: nat, j: nat)
    requires Sinking(a, i, j) && 0 < j && Rank(a[j].k) < Rank(a[j - 1].k)
    requires b == a[j - 1 := a[j]][j := a[j - 1]]
    ensures Sinking(b, i, j - 1)
  {
    hide Rank;
    forall x, y | 0 <= x < y <= i && x != j - 1 && y != j - 1
      ensures Rank(b[x].k) <= Rank(b[y].k)
    {
      assert Rank(a[if x == j then j - 1 else x].k) <= Rank(a[if y == j then j - 1 else y].k);
    }
  }

  lemma Sunk(s: seq<Msg>, i: nat, j: nat)
    requires Sinking(s, i, j)
    requires j > 0 ==> Rank(s[j - 1].k) <= Rank(s[j].k)
    ensures SortedMsgs(s[..i + 1])
  {
    hide Rank;
    forall x, y | 0 <= x < y <= i
      ensures Rank(s[x].k) <= Rank(s[y].k)
    {
      if y == j && x < j - 1 { assert Rank(s[x].k) <= Rank(s[j - 1].k); }
    }
  }

  /** stablesort: in place, and the messages of each key keep their order. */
  method StableSort(m: array<Msg>)
    modifies m
    ensures SortedMsgs(m[..]) && SameByKey(m[..], old(m[..])) && MsgsSz(m[..]) == MsgsSz(old(m[..]))
  {
    hide Rank, Sinking, SortedMsgs, Sel, KeyCmpBody, MsgsSz;
    ghost var m0 := m[..];
    var i := 1;
    SortedOne(m[..]);
    while i < m.Length
      invariant 1 <= i && (i <= m.Length || m.Length == 0)
      invariant i <= m.Length ==> SortedMsgs(m[..][..i])
      invariant SameByKey(m[..], m0) && MsgsSz(m[..]) == MsgsSz(m0)
    {
      var j := i;
      StartSink(m[..], i);
      while j > 0
        invariant 0 <= j <= i < m.Length && Sinking(m[..], i, j)
        invariant SameByKey(m[..], m0) && MsgsSz(m[..]) == MsgsSz(m0)
      {
        if KeyCmp(m[j - 1].k, m[j].k) <= 0 {
          break;
        }
        ghost var a := m[..];
        var t := m[j - 1];
        m[j - 1] := m[j];
        m[j] := t;
        Sink(a, m[..], i, j);
        SwapSize(a, m[..], j);
        forall k ensures Sel(m[..], k) == Sel(m0, k) {
          SwapSel(a, m[..], j, k);
        }
        j := j - 1;
      }
      Sunk(m[..], i, j);
      i := i + 1;
    }
    assert m.Length >= 1 ==> m[..][..i] == m[..];
  }

  lemma SortedOne(s: seq<Msg>)
    ensures |s| >= 1 ==> SortedMsgs(s[..1])
    ensures |s| == 0 ==> SortedMsgs(s)
  {
  }

  lemma StartSink(s: seq<Msg>, i: nat)
    requires i < |s| && SortedMsgs(s[..i])
    ensures Sinking(s, i, i)
  {
    hide Rank;
    forall x, y | 0 <= x < y < i
      ensures Rank(s[x].k) <= Rank(s[y].k)
    {
      assert s[..i][x] == s[x] && s[..i][y] == s[y];
    }
  }

  // ----- fastupsert -----

  /** msgsz: the record of a message, whatever its payload, and its slot. */
  lemma RecordSize(m: Msg, op: Byte, payload: seq<Byte>)
    requires |payload| == OpLen(m.op)
    ensures MsgSz(m) == 2 + |Slots.Bytes(Slots.Rec([op], m.k, payload))|
  {
  }

  /** valsz, of an entry of a leaf and of a pivot, whose pointer has a fill field behind it. */
  lemma EntrySize(kv: Kvp, kid: Kid, v: seq<Byte>, ptr: seq<Byte>)
    requires |v| == ValLen(kv.v) && |ptr| == Ptrsz + 2
    ensures ValSz(kv) == 2 + |Slots.Bytes(Slots.Rec([], kv.k, v))|
    ensures KidSz(kid) == 2 + |Slots.Bytes(Slots.Rec([], kid.k, ptr))|
  {
  }

  lemma {:induction false} SlotsIn(buf: seq<Msg>)
    ensures MsgsSz(buf) >= 2 * |buf|
  {
    if buf != [] { SlotsIn(buf[..|buf| - 1]); }
  }

  lemma {:induction false} SlotsOfKids(kids: seq<Kid>)
    ensures KidsSz(kids) >= 2 * |kids|
  {
    if kids != [] { SlotsOfKids(kids[..|kids| - 1]); }
  }

  lemma {:induction false} SlotsOfVals(vals: seq<Kvp>)
    ensures KvpsSz(vals) >= 2 * |vals|
  {
    if vals != [] { SlotsOfVals(vals[..|vals| - 1]); }
  }

  /** filledpiv and filledleaf: room for one slot more and what is needed. */
  lemma FilledEntries(kids: seq<Kid>, reserve: nat, vals: seq<Kvp>, needed: nat)
    ensures KidsSz(kids) >= 2 * |kids| && KvpsSz(vals) >= 2 * |vals|
    ensures FilledPiv(kids, reserve) <==> Slots.Filled(|kids|, KidsSz(kids) - 2 * |kids|, 1, reserve * Kpmax, Pivspc)
    ensures FilledLeaf(vals, needed) <==> Slots.Filled(|vals|, KvpsSz(vals) - 2 * |vals|, 1, needed, Leafspc)
  {
    SlotsOfKids(kids);
    SlotsOfVals(vals);
  }

  /** filledbuf, on the bytes of the node. */
  lemma FilledBytes(buf: seq<Msg>, nmsg: nat, needed: nat)
    ensures MsgsSz(buf) >= 2 * |buf|
    ensures FilledBuf(buf, nmsg, needed) <==> Slots.Filled(|buf|, MsgsSz(buf) - 2 * |buf|, nmsg, needed, Bufspc)
  {
    SlotsIn(buf);
  }


  /** A message put behind all messages up to its key joins the merge. */
  lemma InsertMerge(s: seq<Msg>, at: nat, x: Msg, a: seq<Msg>, b: seq<Msg>)
    requires at <= |s| && IsMerge(s, a, b)
    requires forall i :: 0 <= i < at ==> Rank(s[i].k) <= Rank(x.k)
    requires forall i :: at <= i < |s| ==> Rank(x.k) < Rank(s[i].k)
    ensures IsMerge(s[..at] + [x] + s[at..], a, b + [x])
  {
    hide Rank, Sel;
    var r := s[..at] + [x] + s[at..];
    InsertSorted(s, at, x);
    forall k
      ensures Sel(r, k) == Sel(a, k) + Sel(b + [x], k)
    {
      var front, rest := s[..at], s[at..];
      assert s == front + rest;
      assert Sel(s, k) == Sel(a, k) + Sel(b, k);
      SelConcat(front, rest, k);
      SelConcat(front + [x], rest, k);
      SelAppend(front, x, k);
      SelAppend(b, x, k);
      if k == x.k {
        SelNone(rest, k);
        assert Sel(front, k) + [] == Sel(front, k) && Sel(front, k) + [x] + [] == Sel(front, k) + [x];
        assert Sel(a, k) + (Sel(b, k) + [x]) == Sel(a, k) + Sel(b, k) + [x];
      }
    }
  }

  lemma InsertSorted(s: seq<Msg>, at: nat, x: Msg)
    requires at <= |s| && SortedMsgs(s)
    requires forall i :: 0 <= i < at ==> Rank(s[i].k) <= Rank(x.k)
    requires forall i :: at <= i < |s| ==> Rank(x.k) < Rank(s[i].k)
    ensures SortedMsgs(s[..at] + [x] + s[at..])
  {
    hide Rank;
    var r := s[..at] + [x] + s[at..];
    assert forall i :: 0 <= i < |r| ==> r[i] == if i < at then s[i] else if i == at then x else s[i - 1];
  }

  /** The binary search of fastupsert: the position behind all messages up to the key. */
  method UpperBound(s: seq<Msg>, n: nat, k: Key) returns (ri: nat)
    requires n <= |s| && SortedMsgs(s[..n])
    ensures ri <= n
    ensures forall i :: 0 <= i < ri ==> Rank(s[i].k) <= Rank(k)
    ensures forall i :: ri <= i < n ==> Rank(k) < Rank(s[i].k)
  {
    hide Rank, KeyCmpBody;
    assert forall i, j :: 0 <= i < j < n ==> Rank(s[i].k) <= Rank(s[j].k) by {
      forall i, j | 0 <= i < j < n ensures Rank(s[i].k) <= Rank(s[j].k) {
        assert s[..n][i] == s[i] && s[..n][j] == s[j];
      }
    }
    var found, lo, hi: int := -1, 0, n - 1;
    while lo <= hi
      invariant 0 <= lo <= hi + 1 <= n
      invariant forall i :: 0 <= i < lo ==> Rank(s[i].k) <= Rank(k)
      invariant forall i :: hi < i < n ==> Rank(k) < Rank(s[i].k)
      invariant found == -1 || (found == lo > 0 && Rank(s[lo - 1].k) == Rank(k))
    {
      var mid := (hi + lo) / 2;
      var c := KeyCmp(k, s[mid].k);
      if c == -1 {
        hi := mid - 1;
      } else if c == 0 {
        found := mid + 1;
        lo := mid + 1;
      } else {
        lo := mid + 1;
      }
    }
    ri := if found == -1 then hi + 1 else found;
  }

  lemma MovedParts(b: seq<Msg>, at: nat, n: nat)
    requires at <= n < |b|
    ensures Slots.MoveTo(b, at, n)[..n + 1] == b[..n][..at] + [b[n]] + b[..n][at..]
    ensures Slots.MoveTo(b, at, n)[n + 1..] == b[n + 1..] && |Slots.MoveTo(b, at, n)| == |b|
  {
  }

  lemma MoveSize(b: seq<Msg>, at: nat, n: nat)
    requires at <= n < |b|
    ensures MsgsSz(Slots.MoveTo(b, at, n)) == MsgsSz(b)
  {
    hide MsgsSz, Slots.MoveTo;
    var x, y, m, z := b[..at], b[at..n], [b[n]], b[n + 1..];
    Slots.MoveToParts(b, at, n);
    FourSize(x, y, m, z);
    FourSize(x, m, y, z);
  }

  lemma FourSize(x: seq<Msg>, y: seq<Msg>, m: seq<Msg>, z: seq<Msg>)
    ensures MsgsSz(x + y + m + z) == MsgsSz(x) + MsgsSz(y) + MsgsSz(m) + MsgsSz(z)
  {
    hide MsgsSz;
    MsgsSzConcat(x, y);
    MsgsSzConcat(x + y, m);
    MsgsSzConcat(x + y + m, z);
  }

  /** One more message of the batch in place. */
  lemma FastStep(b: seq<Msg>, at: nat, was: seq<Msg>, msg: seq<Msg>, i: nat)
    requires i < |msg| && |b| == |was| + |msg| && IsMerge(b[..|was| + i], was, msg[..i])
    requires b[|was| + i..] == msg[i..] && at <= |was| + i
    requires forall x :: 0 <= x < at ==> Rank(b[x].k) <= Rank(msg[i].k)
    requires forall x :: at <= x < |was| + i ==> Rank(msg[i].k) < Rank(b[x].k)
    ensures var b' := Slots.MoveTo(b, at, |was| + i);
            |b'| == |b| && IsMerge(b'[..|was| + i + 1], was, msg[..i + 1]) && b'[|was| + i + 1..] == msg[i + 1..]
  {
    hide Rank, IsMerge, Slots.MoveTo;
    var n := |was| + i;
    var s := b[..n];
    assert b[n] == b[n..][0] == msg[i];
    MovedParts(b, at, n);
    assert msg[..i + 1] == msg[..i] + [msg[i]];
    assert msg[i + 1..] == msg[i..][1..] && b[n + 1..] == b[n..][1..];
    InsertMerge(s, at, msg[i], was, msg[..i]);
  }

  /** fastupsert on the copied root: the batch is appended and each new offset moved to its place. */
  method FastMerge(r: Blk, msg: seq<Msg>)
    requires !r.leaf && SortedMsgs(r.buf)
    modifies r`buf
    ensures IsMerge(r.buf, old(r.buf), msg) && MsgsSz(r.buf) == MsgsSz(old(r.buf)) + MsgsSz(msg)
  {
    hide Rank, SortedMsgs, IsMerge, Slots.MoveTo, MsgsSz;
    var nbuf := |r.buf|;
    ghost var was := r.buf;
    MsgsSzConcat(was, msg);
    for i := 0 to |msg|
      invariant r.buf == was + msg[..i]
    {
      r.SetMsg(msg[i]);
    }
    MergeNone(was);
    assert r.buf[..nbuf] == was && msg[..0] == [] && msg[..|msg|] == msg;
    for i := 0 to |msg|
      invariant |r.buf| == nbuf + |msg| && IsMerge(r.buf[..nbuf + i], was, msg[..i])
      invariant r.buf[nbuf + i..] == msg[i..] && MsgsSz(r.buf) == MsgsSz(was) + MsgsSz(msg)
    {
      MergeSorted(r.buf[..nbuf + i], was, msg[..i]);
      var ri := UpperBound(r.buf, nbuf + i, msg[i].k);
      FastStep(r.buf, ri, was, msg, i);
      MoveSize(r.buf, ri, nbuf + i);
      r.buf := Slots.MoveTo(r.buf, ri, nbuf + i);
    }
    assert r.buf[..nbuf + |msg|] == r.buf;
  }

  lemma MergeNone(s: seq<Msg>)
    requires SortedMsgs(s)
    ensures IsMerge(s, s, [])
  {
    hide SortedMsgs;
    forall k ensures Sel(s, k) == Sel(s, k) + Sel([], k) {
      assert Sel([], k) == [];
    }
  }

  lemma MergeSorted(s: seq<Msg>, a: seq<Msg>, b: seq<Msg>)
    requires IsMerge(s, a, b)
    ensures SortedMsgs(s)
  {
  }
}
