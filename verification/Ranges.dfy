/** The free space of an arena: a tree of ranges (src/blk.c, freerange and grabrange). */
module Ranges {
  import opened Dat

  datatype Range = Range(off: int, len: int)

  function End(r: Range): int { r.off + r.len }

  predicate In(r: Range, x: int) { r.off <= x < End(r) }

  /** The addresses a tree of ranges stands for. */
  ghost predicate Covers(rs: seq<Range>, x: int) {
    exists i :: 0 <= i < |rs| && In(rs[i], x)
  }

  predicate Whole(off: int, len: int) { len > 0 && off % Blksz == 0 && len % Blksz == 0 }

  /** Sorted, disjoint, made of whole blocks, and never adjacent. */
  ghost predicate Canon(rs: seq<Range>) {
    && (forall i :: 0 <= i < |rs| ==> Whole(rs[i].off, rs[i].len))
    && (forall i, j :: 0 <= i < j < |rs| ==> End(rs[i]) < rs[j].off)
  }

  /** Free space in all. */
  function Total(rs: seq<Range>): int {
    if rs == [] then 0 else rs[0].len + Total(rs[1..])
  }

  lemma {:induction false} TotalConcat(a: seq<Range>, b: seq<Range>)
    ensures Total(a + b) == Total(a) + Total(b)
  {
    if a == [] {
      assert a + b == b;
    } else {
      assert (a + b)[1..] == a[1..] + b;
      TotalConcat(a[1..], b);
    }
  }

  /** No free space in all is no range at all. */
  lemma {:induction false} TotalZero(rs: seq<Range>)
    requires Canon(rs)
    ensures Total(rs) >= 0 && (Total(rs) == 0 <==> rs == [])
  {
    if rs != [] {
      assert Whole(rs[0].off, rs[0].len);
      forall i | 0 <= i < |rs[1..]| ensures Whole(rs[1..][i].off, rs[1..][i].len) {
        assert rs[1..][i] == rs[i + 1];
      }
      TotalZero(rs[1..]);
    }
  }

  /** Replacing the middle of a tree. */
  lemma TotalMiddle(a: seq<Range>, b: seq<Range>, c: seq<Range>)
    ensures Total(a + b + c) == Total(a) + Total(b) + Total(c)
  {
    TotalConcat(a + b, c);
    TotalConcat(a, b);
  }

  lemma CoversMiddle(a: seq<Range>, b: seq<Range>, c: seq<Range>, x: int)
    ensures Covers(a + b + c, x) <==> Covers(a, x) || Covers(b, x) || Covers(c, x)
  {
    var s := a + b + c;
    if i :| 0 <= i < |a| && In(a[i], x) { assert s[i] == a[i]; }
    if i :| 0 <= i < |b| && In(b[i], x) { assert s[|a| + i] == b[i]; }
    if i :| 0 <= i < |c| && In(c[i], x) { assert s[|a| + |b| + i] == c[i]; }
  }

  lemma CoveredBy(rs: seq<Range>, i: int, x: int)
    requires 0 <= i < |rs| && In(rs[i], x)
    ensures Covers(rs, x)
  {
  }

  /** The address just behind a range is not free. */
  lemma EndTaken(rs: seq<Range>, i: nat)
    requires Canon(rs) && i < |rs|
    ensures !Covers(rs, End(rs[i]))
  {
    forall j | 0 <= j < |rs| ensures !In(rs[j], End(rs[i])) {
      if j < i { assert End(rs[j]) < rs[i].off; } else if j > i { assert End(rs[i]) < rs[j].off; }
    }
  }

  lemma FirstCovered(rs: seq<Range>)
    requires Canon(rs) && rs != []
    ensures Covers(rs, rs[0].off)
  {
    CoveredBy(rs, 0, rs[0].off);
  }

  lemma CoversOne(r: Range, x: int)
    ensures Covers([r], x) <==> In(r, x)
  {
    assert [r][0] == r;
  }

  lemma CoversTwo(r: Range, q: Range, x: int)
    ensures Covers([r, q], x) <==> In(r, x) || In(q, x)
  {
    assert [r, q][0] == r && [r, q][1] == q;
  }

  // ----- the set determines the tree -----

  /** Two trees that stand for the same addresses are the same: merging neighbours leaves no choice. */
  lemma {:induction false} CanonUnique(a: seq<Range>, b: seq<Range>)
    requires Canon(a) && Canon(b) && forall x :: Covers(a, x) <==> Covers(b, x)
    ensures a == b
    decreases |a|
  {
    if a == [] || b == [] {
      if b != [] { FirstCovered(b); }
      if a != [] { FirstCovered(a); }
    } else {
      FirstLow(a, b);
      FirstLow(b, a);
      FirstEnd(a, b);
      FirstEnd(b, a);
      assert a[0] == b[0];
      forall x ensures Covers(a[1..], x) <==> Covers(b[1..], x) {
        RestCovers(a, x);
        RestCovers(b, x);
      }
      CanonUnique(a[1..], b[1..]);
      assert a == [a[0]] + a[1..] && b == [b[0]] + b[1..];
    }
  }

  lemma FirstLow(a: seq<Range>, b: seq<Range>)
    requires Canon(a) && Canon(b) && a != [] && b != [] && forall x :: Covers(a, x) ==> Covers(b, x)
    ensures b[0].off <= a[0].off
  {
    assert In(a[0], a[0].off);
    assert Covers(a, a[0].off);
    var i :| 0 <= i < |b| && In(b[i], a[0].off);
  }

  lemma FirstEnd(a: seq<Range>, b: seq<Range>)
    requires Canon(a) && Canon(b) && a != [] && b != [] && a[0].off == b[0].off
    requires forall x :: Covers(a, x) <==> Covers(b, x)
    ensures End(a[0]) <= End(b[0])
  {
    EndTaken(b, 0);
    if End(b[0]) < End(a[0]) {
      CoveredBy(a, 0, End(b[0]));
    }
  }

  lemma RestCovers(a: seq<Range>, x: int)
    requires Canon(a) && a != []
    ensures Covers(a[1..], x) <==> Covers(a, x) && !In(a[0], x)
  {
    if i :| 0 <= i < |a| - 1 && In(a[1..][i], x) {
      assert a[i + 1] == a[1..][i];
      assert End(a[0]) < a[i + 1].off;
    }
    if i :| 0 < i < |a| && In(a[i], x) {
      assert a[1..][i - 1] == a[i];
    }
  }

  /** A stretch of covered addresses lies within one range. */
  lemma {:induction false} OneRange(rs: seq<Range>, off: int, len: int) returns (i: nat)
    requires Canon(rs) && len > 0 && forall x :: off <= x < off + len ==> Covers(rs, x)
    ensures i < |rs| && rs[i].off <= off && off + len <= End(rs[i])
    decreases len
  {
    assert Covers(rs, off);
    i :| 0 <= i < |rs| && In(rs[i], off);
    EndTaken(rs, i);
  }

  // ----- the tree -----

  /** Sorted and disjoint, and nothing adjacent but perhaps to the range at k. */
  ghost predicate Loose(rs: seq<Range>, k: int) {
    && (forall i :: 0 <= i < |rs| ==> Whole(rs[i].off, rs[i].len))
    && (forall i, j :: 0 <= i < j < |rs| ==> Apart(rs[i], rs[j], i == k || j == k))
  }

  predicate Apart(r: Range, q: Range, touch: bool) {
    End(r) < q.off || (touch && End(r) == q.off)
  }

  function Joined(rs: seq<Range>, j: nat): (r: seq<Range>)
    requires j + 1 < |rs|
  {
    rs[..j] + [Range(rs[j].off, rs[j].len + rs[j + 1].len)] + rs[j + 2..]
  }

  lemma TwoAt(rs: seq<Range>, j: nat)
    requires j + 1 < |rs|
    ensures rs == rs[..j] + [rs[j], rs[j + 1]] + rs[j + 2..]
  {
  }

  /** Joining two adjacent ranges. */
  lemma JoinKeeps(rs: seq<Range>, j: nat, k: int)
    requires j + 1 < |rs| && Loose(rs, k) && (k == j || k == j + 1) && End(rs[j]) == rs[j + 1].off
    ensures Loose(Joined(rs, j), j)
    ensures Total(Joined(rs, j)) == Total(rs)
    ensures forall x :: Covers(Joined(rs, j), x) <==> Covers(rs, x)
  {
    JoinLoose(rs, j, k);
    assert Whole(rs[j].off, rs[j].len) && Whole(rs[j + 1].off, rs[j + 1].len);
    assert rs[j].len > 0 && rs[j + 1].len > 0;
    hide Loose, Covers, Total, Whole;
    var n := Range(rs[j].off, rs[j].len + rs[j + 1].len);
    Pair(rs[j], rs[j + 1], n);
    TwoAt(rs, j);
    Replaced(rs[..j], [rs[j], rs[j + 1]], [n], rs[j + 2..]);
  }

  lemma TotalOne(r: Range)
    ensures Total([r]) == r.len
  {
  }

  lemma Pair(r: Range, q: Range, n: Range)
    requires End(r) == q.off && n == Range(r.off, r.len + q.len) && r.len > 0 && q.len > 0
    ensures Total([r, q]) == Total([n]) && forall x :: Covers([r, q], x) <==> Covers([n], x)
  {
    TotalConcat([r], [q]);
    assert [r] + [q] == [r, q];
    TotalOne(r);
    TotalOne(q);
    TotalOne(n);
    hide Covers;
    forall x ensures Covers([r, q], x) <==> Covers([n], x) {
      CoversTwo(r, q, x);
      CoversOne(n, x);
    }
  }

  /** A middle that stands for the same addresses. */
  lemma Replaced(a: seq<Range>, b: seq<Range>, b': seq<Range>, c: seq<Range>)
    requires Total(b) == Total(b') && forall x :: Covers(b, x) <==> Covers(b', x)
    ensures Total(a + b + c) == Total(a + b' + c)
    ensures forall x :: Covers(a + b + c, x) <==> Covers(a + b' + c, x)
  {
    hide Covers, Total;
    TotalMiddle(a, b, c);
    TotalMiddle(a, b', c);
    forall x ensures Covers(a + b + c, x) <==> Covers(a + b' + c, x) {
      CoversMiddle(a, b, c, x);
      CoversMiddle(a, b', c, x);
    }
  }

  /** One more range in the middle. */
  lemma Added(a: seq<Range>, r: Range, c: seq<Range>)
    ensures Total(a + [r] + c) == Total(a + c) + r.len
    ensures forall x :: Covers(a + [r] + c, x) <==> Covers(a + c, x) || In(r, x)
  {
    TotalMiddle(a, [r], c);
    TotalConcat(a, c);
    TotalOne(r);
    hide Covers, Total;
    forall x ensures Covers(a + [r] + c, x) <==> Covers(a + c, x) || In(r, x) {
      CoversMiddle(a, [r], c, x);
      CoversMiddle(a, [], c, x);
      assert a + [] + c == a + c;
      CoversNone(x);
      CoversOne(r, x);
    }
  }

  lemma CoversNone(x: int)
    ensures !Covers([], x)
  {
  }

  lemma JoinLoose(rs: seq<Range>, j: nat, k: int)
    requires j + 1 < |rs| && Loose(rs, k) && (k == j || k == j + 1) && End(rs[j]) == rs[j + 1].off
    ensures Loose(Joined(rs, j), j)
  {
    var r := Joined(rs, j);
    assert Whole(rs[j].off, rs[j].len) && Whole(rs[j + 1].off, rs[j + 1].len);
    forall i | 0 <= i < |r| ensures Whole(r[i].off, r[i].len) {
      if i > j { assert r[i] == rs[i + 1]; }
    }
    forall a, b | 0 <= a < b < |r| ensures Apart(r[a], r[b], a == j || b == j) {
      var a', b' := if a > j then a + 1 else a, if b > j then b + 1 else b;
      if a == j {
        assert Apart(rs[j + 1], rs[b'], j + 1 == k || b' == k);
      } else if b == j {
        assert Apart(rs[a'], rs[j], a' == k || j == k);
      } else {
        assert Apart(rs[a'], rs[b'], a' == k || b' == k);
      }
    }
  }

  /** Where a range that overlaps nothing goes. */
  lemma Sides(rs: seq<Range>, i: nat, r: Range)
    requires Canon(rs) && i <= |rs| && Whole(r.off, r.len)
    requires forall j :: 0 <= j < i ==> rs[j].off < r.off
    requires forall j :: i <= j < |rs| ==> r.off <= rs[j].off
    requires forall x :: In(r, x) ==> !Covers(rs, x)
    ensures forall j :: 0 <= j < i ==> End(rs[j]) <= r.off
    ensures forall j :: i <= j < |rs| ==> End(r) <= rs[j].off
  {
    hide Covers;
    forall j | 0 <= j < i ensures End(rs[j]) <= r.off {
      if r.off < End(rs[j]) { CoveredBy(rs, j, r.off); }
    }
    forall j | i <= j < |rs| ensures End(r) <= rs[j].off {
      if rs[j].off < End(r) { CoveredBy(rs, j, rs[j].off); }
    }
  }

  lemma InsertLoose(rs: seq<Range>, i: nat, r: Range)
    requires Canon(rs) && i <= |rs| && Whole(r.off, r.len)
    requires forall j :: 0 <= j < i ==> rs[j].off < r.off
    requires forall j :: i <= j < |rs| ==> r.off <= rs[j].off
    requires forall x :: In(r, x) ==> !Covers(rs, x)
    ensures Loose(rs[..i] + [r] + rs[i..], i)
    ensures Total(rs[..i] + [r] + rs[i..]) == Total(rs) + r.len
    ensures forall x :: Covers(rs[..i] + [r] + rs[i..], x) <==> Covers(rs, x) || In(r, x)
  {
    hide Covers, Total, Whole, Loose;
    Sides(rs, i, r);
    hide Canon;
    assert rs[..i] + rs[i..] == rs;
    Added(rs[..i], r, rs[i..]);
    InsertApart(rs, i, r);
  }

  lemma InsertApart(rs: seq<Range>, i: nat, r: Range)
    requires Canon(rs) && i <= |rs| && Whole(r.off, r.len)
    requires forall j :: 0 <= j < i ==> End(rs[j]) <= r.off
    requires forall j :: i <= j < |rs| ==> End(r) <= rs[j].off
    ensures Loose(rs[..i] + [r] + rs[i..], i)
  {
    hide Whole;
    var t := rs[..i] + [r] + rs[i..];
    forall a, b | 0 <= a < b < |t| ensures Apart(t[a], t[b], a == i || b == i) {
      if a != i && b != i {
        var a', b' := if a > i then a - 1 else a, if b > i then b - 1 else b;
        assert t[a] == rs[a'] && t[b] == rs[b'];
        assert End(rs[a']) < rs[b'].off;
      }
    }
  }

  /** In a sorted tree the ranges from the first not below off on are not below it. */
  lemma Above(rs: seq<Range>, i: nat, off: int)
    requires Canon(rs) && i <= |rs| && (i < |rs| ==> off <= rs[i].off)
    ensures forall j :: i <= j < |rs| ==> off <= rs[j].off
  {
    forall j | i <= j < |rs| ensures off <= rs[j].off {
      if j > i { assert Whole(rs[i].off, rs[i].len) && End(rs[i]) < rs[j].off; }
    }
  }

  /** What is left of a range when a stretch within it is taken. */
  function Cut(r: Range, off: int, len: int): seq<Range> {
    (if r.off < off then [Range(r.off, off - r.off)] else [])
    + (if off + len < End(r) then [Range(off + len, End(r) - off - len)] else [])
  }

  lemma CutMeans(r: Range, off: int, len: int)
    requires Whole(r.off, r.len) && Whole(off, len) && r.off <= off && off + len <= End(r)
    ensures Total(Cut(r, off, len)) == r.len - len
    ensures forall x :: Covers(Cut(r, off, len), x) <==> In(r, x) && !(off <= x < off + len)
    ensures Canon(Cut(r, off, len))
    ensures forall k :: 0 <= k < |Cut(r, off, len)|
             ==> r.off <= Cut(r, off, len)[k].off && End(Cut(r, off, len)[k]) <= End(r)
  {
    hide Total, Covers;
    Positive(off, len);
    CutTotal(r, off, len);
    forall x ensures Covers(Cut(r, off, len), x) <==> In(r, x) && !(off <= x < off + len) {
      CutCovers(r, off, len, x);
    }
  }

  lemma Positive(off: int, len: int)
    requires Whole(off, len)
    ensures len > 0
  {
  }

  lemma CutTotal(r: Range, off: int, len: int)
    requires r.off <= off && off + len <= End(r)
    ensures Total(Cut(r, off, len)) == r.len - len
  {
    var a, b := Range(r.off, off - r.off), Range(off + len, End(r) - off - len);
    TotalOne(a);
    TotalOne(b);
    TotalConcat([a], [b]);
    assert [] + [b] == [b] && [a] + [] == [a];
    assert Total([]) == 0;
    hide Total;
  }

  lemma CutCovers(r: Range, off: int, len: int, x: int)
    requires len > 0 && r.off <= off && off + len <= End(r)
    ensures Covers(Cut(r, off, len), x) <==> In(r, x) && !(off <= x < off + len)
  {
    hide Covers;
    var a, b := Range(r.off, off - r.off), Range(off + len, End(r) - off - len);
    assert [a] + [b] == [a, b] && [] + [b] == [b] && [a] + [] == [a];
    CoversOne(a, x);
    CoversOne(b, x);
    CoversTwo(a, b, x);
    CoversNone(x);
    if r.off < off && off + len < End(r) {
      assert Cut(r, off, len) == [a, b];
    } else if r.off < off {
      assert Cut(r, off, len) == [a];
    } else if off + len < End(r) {
      assert Cut(r, off, len) == [b];
    } else {
      assert Cut(r, off, len) == [];
    }
  }

  lemma OneAt(rs: seq<Range>, i: nat)
    requires i < |rs|
    ensures rs == rs[..i] + [rs[i]] + rs[i + 1..]
  {
  }

  /** Only the range holding them has the addresses of a stretch. */
  lemma OnlyThere(rs: seq<Range>, i: nat, x: int)
    requires Canon(rs) && i < |rs| && In(rs[i], x)
    ensures !Covers(rs[..i], x) && !Covers(rs[i + 1..], x)
  {
    forall j | 0 <= j < |rs| && j != i ensures !In(rs[j], x) {
      if j < i { assert End(rs[j]) < rs[i].off; } else { assert End(rs[i]) < rs[j].off; }
    }
  }

  lemma CutKeeps(rs: seq<Range>, i: nat, off: int, len: int, t: seq<Range>)
    requires Canon(rs) && i < |rs| && Whole(off, len) && rs[i].off <= off && off + len <= End(rs[i])
    requires t == rs[..i] + Cut(rs[i], off, len) + rs[i + 1..]
    ensures Canon(t) && Total(t) == Total(rs) - len
    ensures forall x :: Covers(t, x) <==> Covers(rs, x) && !(off <= x < off + len)
  {
    CutMeans(rs[i], off, len);
    CutCanon(rs, i, Cut(rs[i], off, len));
    TotalOne(rs[i]);
    OneAt(rs, i);
    TotalMiddle(rs[..i], [rs[i]], rs[i + 1..]);
    TotalMiddle(rs[..i], Cut(rs[i], off, len), rs[i + 1..]);
    hide Total, Covers, Whole, Cut, Canon;
    forall x ensures Covers(t, x) <==> Covers(rs, x) && !(off <= x < off + len) {
      CoversMiddle(rs[..i], [rs[i]], rs[i + 1..], x);
      CoversMiddle(rs[..i], Cut(rs[i], off, len), rs[i + 1..], x);
      CoversOne(rs[i], x);
      if off <= x < off + len { OnlyThere(rs, i, x); }
    }
  }

  /** Parts of a range in its place. */
  lemma CutCanon(rs: seq<Range>, i: nat, c: seq<Range>)
    requires Canon(rs) && i < |rs| && Canon(c)
    requires forall k :: 0 <= k < |c| ==> rs[i].off <= c[k].off && End(c[k]) <= End(rs[i])
    ensures Canon(rs[..i] + c + rs[i + 1..])
  {
    var t := rs[..i] + c + rs[i + 1..];
    forall a, b | 0 <= a < b < |t| ensures End(t[a]) < t[b].off {
      if b < i || a >= i + |c| {
        var a', b' := if a < i then a else a - |c| + 1, if b < i then b else b - |c| + 1;
        assert t[a] == rs[a'] && t[b] == rs[b'] && End(rs[a']) < rs[b'].off;
      } else if a < i && b < i + |c| {
        assert t[b] == c[b - i] && End(rs[a]) < rs[i].off;
      } else if a < i {
        assert t[b] == rs[b - |c| + 1] && End(rs[a]) < rs[b - |c| + 1].off;
      } else if b < i + |c| {
        assert t[a] == c[a - i] && t[b] == c[b - i] && End(c[a - i]) < c[b - i].off;
      } else {
        assert t[a] == c[a - i] && t[b] == rs[b - |c| + 1] && End(rs[i]) < rs[b - |c| + 1].off;
      }
    }
    hide Canon;
    forall a | 0 <= a < |t| ensures Whole(t[a].off, t[a].len) {
      WholeAt(rs, i, c, a);
    }
    CanonOf(t);
  }

  lemma CanonOf(t: seq<Range>)
    requires forall i :: 0 <= i < |t| ==> Whole(t[i].off, t[i].len)
    requires forall i, j :: 0 <= i < j < |t| ==> End(t[i]) < t[j].off
    ensures Canon(t)
  {
  }

  lemma WholeAt(rs: seq<Range>, i: nat, c: seq<Range>, a: nat)
    requires Canon(rs) && i < |rs| && Canon(c) && a < |rs[..i] + c + rs[i + 1..]|
    ensures var t := rs[..i] + c + rs[i + 1..]; Whole(t[a].off, t[a].len)
  {
    hide Whole;
    var t := rs[..i] + c + rs[i + 1..];
    if i <= a < i + |c| {
      assert t[a] == c[a - i];
    } else {
      assert t[a] == rs[if a < i then a else a - |c| + 1];
    }
  }

  class RangeTree {
    var rs: seq<Range>

    constructor ()
      ensures rs == []
    {
      rs := [];
    }

    /** The free set grows by exactly the range given back. */
    method FreeRange(off: int, len: int)
      requires Canon(rs) && Whole(off, len) && forall x :: off <= x < off + len ==> !Covers(rs, x)
      modifies this
      ensures Canon(rs) && Total(rs) == old(Total(rs)) + len
      ensures forall x :: Covers(rs, x) <==> old(Covers(rs, x)) || off <= x < off + len
    {
      hide Total, Covers, Whole;
      var i := 0;
      while i < |rs| && rs[i].off < off
        invariant 0 <= i <= |rs| && rs == old(rs)
        invariant forall j :: 0 <= j < i ==> rs[j].off < off
      {
        i := i + 1;
      }
      Above(rs, i, off);
      InsertLoose(rs, i, Range(off, len));
      rs := rs[..i] + [Range(off, len)] + rs[i..];
      hide Canon;
      while true
        invariant 0 <= i < |rs| && Loose(rs, i)
        invariant Total(rs) == old(Total(rs)) + len
        invariant forall x :: Covers(rs, x) <==> old(Covers(rs, x)) || off <= x < off + len
        decreases |rs|
      {
        if i > 0 && End(rs[i - 1]) == rs[i].off {
          JoinKeeps(rs, i - 1, i);
          rs := Joined(rs, i - 1);
          i := i - 1;
        } else if i + 1 < |rs| && End(rs[i]) == rs[i + 1].off {
          JoinKeeps(rs, i, i);
          rs := Joined(rs, i);
        } else {
          break;
        }
      }
      LooseCanon(rs, i);
    }

    /** The free set shrinks by exactly the range taken; the source aborts when not all of it is free. */
    method GrabRange(off: int, len: int) returns (ok: bool)
      requires Canon(rs) && Whole(off, len)
      modifies this
      ensures ok <==> forall x :: off <= x < off + len ==> old(Covers(rs, x))
      ensures ok ==> Canon(rs) && Total(rs) == old(Total(rs)) - len
      ensures ok ==> forall x :: Covers(rs, x) <==> old(Covers(rs, x)) && !(off <= x < off + len)
      ensures !ok ==> rs == old(rs)
    {
      hide Total, Covers, Canon, Whole, Cut;
      Positive(off, len);
      var i := |rs|;
      while i > 0 && rs[i - 1].off > off
        invariant 0 <= i <= |rs| && rs == old(rs)
        invariant forall j :: i <= j < |rs| ==> rs[j].off > off
      {
        i := i - 1;
      }
      if i == 0 || off + len > End(rs[i - 1]) {
        NotFree(rs, i, off, len);
        return false;
      }
      i := i - 1;
      var r := rs[i];
      AllFree(rs, i, off, len);
      CutCases(r, off, len);
      ghost var t := rs[..i] + Cut(r, off, len) + rs[i + 1..];
      CutKeeps(rs, i, off, len, t);
      if off == r.off {
        r := Range(r.off + len, r.len - len);
        rs := rs[i := r];
      } else if off + len == End(r) {
        r := Range(r.off, r.len - len);
        rs := rs[i := r];
      } else {
        var s := Range(off + len, r.len - (off - r.off) - len);
        r := Range(r.off, off - r.off);
        rs := rs[..i] + [r, s] + rs[i + 1..];
      }
      if r.len == 0 {
        rs := rs[..i] + rs[i + 1..];
      }
      assert rs == t;
      return true;
    }
  }

  lemma CutCases(r: Range, off: int, len: int)
    requires r.off <= off && off + len <= End(r) && len > 0
    ensures off == r.off && len == r.len ==> Cut(r, off, len) == []
    ensures off == r.off && len < r.len ==> Cut(r, off, len) == [Range(r.off + len, r.len - len)]
    ensures off > r.off && off + len == End(r) ==> Cut(r, off, len) == [Range(r.off, r.len - len)]
    ensures off > r.off && off + len < End(r)
      ==> Cut(r, off, len) == [Range(r.off, off - r.off), Range(off + len, r.len - (off - r.off) - len)]
  {
  }

  lemma AllFree(rs: seq<Range>, i: nat, off: int, len: int)
    requires i < |rs| && rs[i].off <= off && off + len <= End(rs[i])
    ensures forall x :: off <= x < off + len ==> Covers(rs, x)
  {
    forall x | off <= x < off + len ensures Covers(rs, x) {
      CoveredBy(rs, i, x);
    }
  }

  /** The lookup finds the only range that could hold the stretch. */
  lemma NotFree(rs: seq<Range>, i: nat, off: int, len: int)
    requires Canon(rs) && i <= |rs| && len > 0
    requires forall j :: i <= j < |rs| ==> rs[j].off > off
    requires i == 0 || (rs[i - 1].off <= off && off + len > End(rs[i - 1]))
    ensures !(forall x :: off <= x < off + len ==> Covers(rs, x))
  {
    forall k | 0 <= k < |rs| ensures !(rs[k].off <= off && off + len <= End(rs[k])) {
      if k < i - 1 { assert End(rs[k]) < rs[i - 1].off; }
    }
    if forall x :: off <= x < off + len ==> Covers(rs, x) {
      var k := OneRange(rs, off, len);
    }
  }

  lemma LooseCanon(rs: seq<Range>, k: int)
    requires Loose(rs, k) && 0 <= k < |rs|
    requires k > 0 ==> End(rs[k - 1]) != rs[k].off
    requires k + 1 < |rs| ==> End(rs[k]) != rs[k + 1].off
    ensures Canon(rs)
  {
    forall i, j | 0 <= i < j < |rs| ensures End(rs[i]) < rs[j].off {
      assert Apart(rs[i], rs[j], i == k || j == k);
      if j == k && i < k - 1 {
        assert Apart(rs[i], rs[k - 1], false);
        assert Whole(rs[k - 1].off, rs[k - 1].len) && Apart(rs[k - 1], rs[k], true);
      } else if i == k && k + 1 < j {
        assert Apart(rs[k], rs[k + 1], true) && Apart(rs[k + 1], rs[j], false);
        assert Whole(rs[k + 1].off, rs[k + 1].len);
      }
    }
  }
}
