/** The bytes of a node: an offset table that grows up and records that grow down towards it
    (src/tree.c, setval, getval, setmsg and getmsg). */
module Slots {
  import opened Dat
  import opened Keys

  /** PACK16 and UNPACK16: the low two bytes of a number, high byte first. */
  function Pack16(n: int): (r: seq<Byte>)
    ensures |r| == 2
  {
    [(n / 256) % 256, n % 256]
  }

  function Unpack16(d: seq<Byte>, o: int): int
    requires 0 <= o && o + 2 <= |d|
  {
    d[o] as int * 256 + d[o + 1] as int
  }

  lemma PackUnpack(n: int)
    requires 0 <= n < 0x10000
    ensures Unpack16(Pack16(n), 0) == n
  {
  }

  /** An operation byte where there is one, a key and a value. */
  datatype Rec = Rec(op: seq<Byte>, k: seq<Byte>, v: seq<Byte>)

  predicate RecOk(r: Rec, nop: nat) { |r.op| == nop && |r.k| < 0x10000 && |r.v| < 0x10000 }

  function Bytes(r: Rec): seq<Byte> {
    r.op + Pack16(|r.k|) + r.k + Pack16(|r.v|) + r.v
  }

  /** What is read where a record starts. */
  function ReadRec(d: seq<Byte>, o: int, nop: nat): (r: Rec)
    requires Readable(d, o, nop)
  {
    var nk := Unpack16(d, o + nop);
    var nv := Unpack16(d, o + nop + 2 + nk);
    Rec(d[o..o + nop], d[o + nop + 2..o + nop + 2 + nk], d[o + nop + 4 + nk..o + nop + 4 + nk + nv])
  }

  predicate Readable(d: seq<Byte>, o: int, nop: nat) {
    && 0 <= o && o + nop + 2 <= |d|
    && o + nop + 4 + Unpack16(d, o + nop) <= |d|
    && o + nop + 4 + Unpack16(d, o + nop) + Unpack16(d, o + nop + 2 + Unpack16(d, o + nop)) <= |d|
  }

  /** The fields of a record's bytes. */
  lemma BytesParts(r: Rec, nop: nat)
    requires |r.op| == nop
    ensures var b := Bytes(r);
            && |b| == nop + 4 + |r.k| + |r.v| && b[0..nop] == r.op && b[nop..nop + 2] == Pack16(|r.k|)
            && b[nop + 2..nop + 2 + |r.k|] == r.k && b[nop + 2 + |r.k|..nop + 4 + |r.k|] == Pack16(|r.v|)
            && b[nop + 4 + |r.k|..nop + 4 + |r.k| + |r.v|] == r.v
  {
    hide Pack16;
  }

  /** A record is read back from where its bytes are. */
  lemma ReadBytes(d: seq<Byte>, o: int, r: Rec, nop: nat)
    requires RecOk(r, nop) && 0 <= o && o + |Bytes(r)| <= |d| && d[o..o + |Bytes(r)|] == Bytes(r)
    ensures Readable(d, o, nop) && ReadRec(d, o, nop) == r
  {
    hide Bytes, Pack16, Unpack16;
    BytesParts(r, nop);
    var b := Bytes(r);
    forall i | 0 <= i < |b| ensures d[o + i] == b[i] {
      assert d[o..o + |b|][i] == b[i];
    }
    Field(d, o, b, 0, r.op);
    At16(d, o, b, nop, |r.k|);
    Field(d, o, b, nop + 2, r.k);
    At16(d, o, b, nop + 2 + |r.k|, |r.v|);
    Field(d, o, b, nop + 4 + |r.k|, r.v);
  }

  lemma Field(d: seq<Byte>, o: int, b: seq<Byte>, at: nat, f: seq<Byte>)
    requires 0 <= o && o + |b| <= |d| && (forall i :: 0 <= i < |b| ==> d[o + i] == b[i])
    requires at + |f| <= |b| && b[at..at + |f|] == f
    ensures d[o + at..o + at + |f|] == f
  {
    forall i | 0 <= i < |f| ensures d[o + at..o + at + |f|][i] == f[i] {
      assert d[o + (at + i)] == b[at + i] == b[at..at + |f|][i];
    }
  }

  lemma At16(d: seq<Byte>, o: int, b: seq<Byte>, at: nat, n: int)
    requires 0 <= o && o + |b| <= |d| && (forall i :: 0 <= i < |b| ==> d[o + i] == b[i])
    requires 0 <= n < 0x10000 && at + 2 <= |b| && b[at..at + 2] == Pack16(n)
    ensures Unpack16(d, o + at) == n
  {
    PackUnpack(n);
    assert b[at..at + 2][0] == b[at] && b[at..at + 2][1] == b[at + 1];
    assert d[o + (at + 1)] == b[at + 1];
  }

  // ----- the area -----

  /** The bytes of the first i records. */
  function Size(rs: seq<Rec>): nat {
    if rs == [] then 0 else Size(rs[..|rs| - 1]) + |Bytes(rs[|rs| - 1])|
  }

  lemma {:induction false} SizeConcat(a: seq<Rec>, b: seq<Rec>)
    ensures Size(a + b) == Size(a) + Size(b)
  {
    if b == [] {
      assert a + b == a;
    } else {
      var c := a + b;
      assert c[..|c| - 1] == a + b[..|b| - 1];
      SizeConcat(a, b[..|b| - 1]);
    }
  }

  /** Slot i holds an offset, and the bytes are there. */
  predicate SlotIs(d: seq<Byte>, i: nat, o: int, b: seq<Byte>) {
    && 0 <= o < 0x10000 && 2 * i + 2 <= |d| && o + |b| <= |d| && d[2 * i..2 * i + 2] == Pack16(o) && d[o..o + |b|] == b
  }

  /** Record i lies at its own offset, in the part of the area behind low. */
  ghost predicate SlotAt(d: seq<Byte>, rs: seq<Rec>, os: seq<int>, low: int, nop: nat, i: nat) {
    i < |rs| && i < |os| && RecOk(rs[i], nop) && low <= os[i] && SlotIs(d, i, os[i], Bytes(rs[i]))
  }

  /** Records i and j do not meet. */
  ghost predicate Apart(rs: seq<Rec>, os: seq<int>, i: nat, j: nat) {
    && i < |rs| && i < |os| && j < |rs| && j < |os|
    && (os[i] + |Bytes(rs[i])| <= os[j] || os[j] + |Bytes(rs[j])| <= os[i])
  }

  /** Every slot names a record of its own behind low; the order of the records is free. */
  ghost predicate Placed(d: seq<Byte>, rs: seq<Rec>, os: seq<int>, low: int, nop: nat) {
    && |os| == |rs|
    && (forall i: nat {:trigger SlotAt(d, rs, os, low, nop, i)} :: i < |rs| ==> SlotAt(d, rs, os, low, nop, i))
    && (forall i: nat, j: nat {:trigger Apart(rs, os, i, j)} :: i < j < |rs| ==> Apart(rs, os, i, j))
  }

  /** The entry at position n moved down to position at, the ones between up by one. */
  function MoveTo<T>(s: seq<T>, at: nat, n: nat): (r: seq<T>)
    requires at <= n < |s|
    ensures |r| == |s|
  {
    s[..at] + [s[n]] + s[at..n] + s[n + 1..]
  }

  /** Where the entry at position i of the moved sequence was. */
  function From(at: nat, n: nat, i: nat): nat {
    if i < at || i > n then i else if i == at then n else i - 1
  }

  lemma MoveToAt<T>(s: seq<T>, at: nat, n: nat, i: nat)
    requires at <= n < |s| && i < |s|
    ensures From(at, n, i) < |s| && MoveTo(s, at, n)[i] == s[From(at, n, i)]
  {
  }

  lemma MoveToParts<T>(s: seq<T>, at: nat, n: nat)
    requires at <= n < |s|
    ensures s == s[..at] + s[at..n] + [s[n]] + s[n + 1..]
    ensures MoveTo(s, at, n) == s[..at] + [s[n]] + s[at..n] + s[n + 1..]
  {
  }

  class Area {
    const spc: nat
    const nop: nat
    const data: array<Byte>
    var n: nat
    var sz: nat
    ghost var recs: seq<Rec>
    ghost var offs: seq<int>

    constructor (spc: nat, nop: nat)
      requires spc < 0x10000
      ensures Valid() && recs == [] && this.spc == spc && this.nop == nop
    {
      this.spc, this.nop := spc, nop;
      data := new Byte[spc];
      n, sz, recs, offs := 0, 0, [], [];
    }

    /** The table and the records do not meet, every record is where its slot says, and no two of
        them share a byte. */
    ghost predicate Valid()
      reads this, data
    {
      && spc < 0x10000 && data.Length == spc && n == |recs| == |offs| && sz == Size(recs) && 2 * n + sz <= spc
      && Placed(data[..], recs, offs, spc - sz, nop)
    }

    /** setval and setmsg, when the node is not full: the record is added and every earlier one stays. */
    method Put(r: Rec)
      requires Valid() && RecOk(r, nop) && 2 * (n + 1) + sz + |Bytes(r)| <= spc
      modifies this`n, this`sz, this`recs, this`offs, data
      ensures Valid() && recs == old(recs) + [r] && sz == old(sz) + |Bytes(r)|
    {
      hide Bytes, Size, SlotAt, RecOk, Placed;
      ghost var was, rs, os := data[..], recs, offs;
      RecParts(r, nop);
      var b := Bytes(r);
      sz := sz + |b|;
      var off := spc - sz;
      forall i | 0 <= i < 2 {
        data[2 * n + i] := Pack16(off)[i];
      }
      forall i | 0 <= i < |b| {
        data[off + i] := b[i];
      }
      recs, offs := recs + [r], offs + [off];
      SizePush(rs, r);
      PutPlaced(was, data[..], rs, os, r, nop, off);
      n := n + 1;
    }

    /** A batch that filledbuf says fits is added without the table and the records meeting. */
    method PutAll(rs: seq<Rec>)
      requires Valid() && (forall i :: 0 <= i < |rs| ==> RecOk(rs[i], nop)) && !Filled(n, sz, |rs|, Needed(rs), spc)
      modifies this`n, this`sz, this`recs, this`offs, data
      ensures Valid() && recs == old(recs) + rs
    {
      hide Bytes, Size, SlotAt, RecOk, Placed;
      var i := 0;
      assert rs[..0] == [];
      NeededPart(rs, |rs|);
      while i < |rs|
        invariant 0 <= i <= |rs| && Valid() && recs == old(recs) + rs[..i] && n == old(n) + i
        invariant sz + 2 * i == old(sz) + Needed(rs[..i])
      {
        NeededPart(rs, i + 1);
        TakeNext(rs, i);
        Put(rs[i]);
        i := i + 1;
      }
      assert rs[..i] == rs;
    }

    /** getval and getmsg. */
    method Get(i: nat) returns (r: Rec)
      requires Valid() && i < n
      ensures r == recs[i]
    {
      hide Bytes, Size, ReadRec, Readable;
      ghost var d := data[..];
      assert SlotAt(d, recs, offs, spc - sz, nop, i);
      SlotReads(d, recs, offs, spc - sz, nop, i);
      var o := data[2 * i] as int * 256 + data[2 * i + 1] as int;
      r := ReadRec(data[..], o, nop);
    }

    /** The end of fastupsert: slot k moves down to slot ri, and no record is touched. */
    method MoveSlot(ri: nat, k: nat)
      requires Valid() && ri <= k < n
      modifies this`recs, this`offs, data
      ensures Valid() && recs == MoveTo(old(recs), ri, k)
    {
      hide Bytes, Size, SlotAt, RecOk, MoveTo, Placed;
      ghost var was, rs, os := data[..], recs, offs;
      var o := data[2 * k] as int * 256 + data[2 * k + 1] as int;
      forall x | 2 * ri <= x < 2 * k {
        data[x + 2] := data[x];
      }
      forall x | 0 <= x < 2 {
        data[2 * ri + x] := Pack16(o)[x];
      }
      recs, offs := MoveTo(recs, ri, k), MoveTo(offs, ri, k);
      MoveSize(rs, ri, k);
      MovePlaced(was, data[..], rs, os, spc - sz, nop, ri, k);
    }
  }

  /** The sum of msgsz, which counts the slot as well. */
  function Needed(rs: seq<Rec>): nat {
    if rs == [] then 0 else Needed(rs[..|rs| - 1]) + 2 + |Bytes(rs[|rs| - 1])|
  }

  predicate Filled(n: nat, sz: nat, nmsg: nat, needed: nat, spc: nat) {
    2 * (n + nmsg) + sz + needed > spc
  }

  lemma {:induction false} NeededPart(rs: seq<Rec>, i: nat)
    requires i <= |rs|
    ensures Needed(rs[..i]) <= Needed(rs)
  {
    if i < |rs| {
      NeededPart(rs[..|rs| - 1], i);
      assert rs[..|rs| - 1][..i] == rs[..i];
    } else {
      assert rs[..i] == rs;
    }
  }

  lemma TakeNext(rs: seq<Rec>, i: nat)
    requires i < |rs|
    ensures rs[..i + 1] == rs[..i] + [rs[i]] && Needed(rs[..i + 1]) == Needed(rs[..i]) + 2 + |Bytes(rs[i])|
  {
    assert rs[..i + 1][..i] == rs[..i];
  }

  lemma RecParts(r: Rec, nop: nat)
    requires RecOk(r, nop)
    ensures |Bytes(r)| == nop + 4 + |r.k| + |r.v|
  {
  }

  lemma SlotReads(d: seq<Byte>, rs: seq<Rec>, os: seq<int>, low: int, nop: nat, i: nat)
    requires SlotAt(d, rs, os, low, nop, i) && 2 * i + 2 <= |d|
    ensures var o := d[2 * i] as int * 256 + d[2 * i + 1] as int;
            o == os[i] && Readable(d, o, nop) && ReadRec(d, o, nop) == rs[i]
  {
    hide Bytes, Size, ReadRec, Readable;
    var o := os[i];
    PackUnpack(o);
    assert d[2 * i..2 * i + 2][0] == d[2 * i] && d[2 * i..2 * i + 2][1] == d[2 * i + 1];
    ReadBytes(d, o, rs[i], nop);
  }

  lemma SizePush(rs: seq<Rec>, r: Rec)
    ensures Size(rs + [r]) == Size(rs) + |Bytes(r)|
  {
    assert (rs + [r])[..|rs|] == rs;
  }

  // ----- a record more -----

  /** The new record lies below all the others, and its slot behind theirs. */
  lemma PutPlaced(was: seq<Byte>, d: seq<Byte>, rs: seq<Rec>, os: seq<int>, r: Rec, nop: nat, off: int)
    requires |was| == |d| < 0x10000 && RecOk(r, nop) && Placed(was, rs, os, off + |Bytes(r)|, nop)
    requires 2 * (|rs| + 1) <= off && off + |Bytes(r)| <= |d|
    requires d[2 * |rs|..2 * |rs| + 2] == Pack16(off) && d[off..off + |Bytes(r)|] == Bytes(r)
    requires forall i :: 0 <= i < |d| && !(2 * |rs| <= i < 2 * |rs| + 2) && !(off <= i < off + |Bytes(r)|)
                         ==> d[i] == was[i]
    ensures Placed(d, rs + [r], os + [off], off, nop)
  {
    hide Bytes, Size, RecOk, SlotIs;
    var t, u, low := rs + [r], os + [off], off + |Bytes(r)|;
    forall i: nat | i < |t| ensures SlotAt(d, t, u, off, nop, i) {
      if i == |rs| {
        NewSlot(d, |rs|, off, Bytes(r));
      } else {
        assert SlotAt(was, rs, os, low, nop, i);
        SlotKept(was, d, i, os[i], Bytes(rs[i]), 2 * |rs|, off, |Bytes(r)|);
      }
    }
    forall i: nat, j: nat | i < j < |t| ensures Apart(t, u, i, j) {
      assert SlotAt(was, rs, os, low, nop, i);
      if j < |rs| { assert Apart(rs, os, i, j); }
    }
  }

  lemma NewSlot(d: seq<Byte>, i: nat, off: int, b: seq<Byte>)
    requires 0 <= off < 0x10000 && 2 * i + 2 <= off && off + |b| <= |d|
    requires d[2 * i..2 * i + 2] == Pack16(off) && d[off..off + |b|] == b
    ensures SlotIs(d, i, off, b)
  {
  }

  /** A slot and a record away from what was written. */
  lemma SlotKept(was: seq<Byte>, d: seq<Byte>, i: nat, o: int, b: seq<Byte>, s: int, off: int, len: nat)
    requires SlotIs(was, i, o, b) && |d| == |was| && 2 * i + 2 <= s <= off - 2 && off + len <= o
    requires forall j :: 0 <= j < |d| && !(s <= j < s + 2) && !(off <= j < off + len) ==> d[j] == was[j]
    ensures SlotIs(d, i, o, b)
  {
    hide Pack16;
    Kept(was, d, 2 * i, 2);
    Kept(was, d, o, |b|);
  }

  /** A stretch that was not written. */
  lemma Kept(was: seq<Byte>, d: seq<Byte>, o: int, len: nat)
    requires |was| == |d| && 0 <= o && o + len <= |d|
    requires forall i :: o <= i < o + len ==> d[i] == was[i]
    ensures d[o..o + len] == was[o..o + len]
  {
  }

  // ----- a slot moved -----

  lemma MoveSize(rs: seq<Rec>, at: nat, n: nat)
    requires at <= n < |rs|
    ensures Size(MoveTo(rs, at, n)) == Size(rs)
  {
    hide Size, MoveTo;
    var x, y, m, z := rs[..at], rs[at..n], [rs[n]], rs[n + 1..];
    MoveToParts(rs, at, n);
    FourSize(x, y, m, z);
    FourSize(x, m, y, z);
  }

  lemma FourSize(x: seq<Rec>, y: seq<Rec>, m: seq<Rec>, z: seq<Rec>)
    ensures Size(x + y + m + z) == Size(x) + Size(y) + Size(m) + Size(z)
  {
    hide Size;
    SizeConcat(x, y);
    SizeConcat(x + y, m);
    SizeConcat(x + y + m, z);
  }

  /** Byte i of the table after the move; slots outside at .. n and all records are as they were. */
  ghost predicate TableMoved(was: seq<Byte>, d: seq<Byte>, at: nat, n: nat)
    requires |was| == |d| && at <= n && 2 * n + 2 <= |d|
  {
    && (forall i :: 0 <= i < 2 * at || 2 * n + 2 <= i < |d| ==> d[i] == was[i])
    && (forall i :: 2 * at + 2 <= i < 2 * n + 2 ==> d[i] == was[i - 2])
    && d[2 * at] == was[2 * n] && d[2 * at + 1] == was[2 * n + 1]
  }

  lemma MovePlaced(was: seq<Byte>, d: seq<Byte>, rs: seq<Rec>, os: seq<int>, low: int, nop: nat, at: nat, n: nat)
    requires |was| == |d| < 0x10000 && at <= n < |rs| && 2 * |rs| <= low <= |d| && Placed(was, rs, os, low, nop)
    requires TableMoved(was, d, at, n)
    ensures Placed(d, MoveTo(rs, at, n), MoveTo(os, at, n), low, nop)
  {
    hide Bytes, RecOk, SlotIs, MoveTo, TableMoved;
    var t, u := MoveTo(rs, at, n), MoveTo(os, at, n);
    forall i: nat | i < |t| ensures SlotAt(d, t, u, low, nop, i) {
      MoveToAt(rs, at, n, i);
      MoveToAt(os, at, n, i);
      var j := From(at, n, i);
      assert SlotAt(was, rs, os, low, nop, j);
      SlotMoved(was, d, at, n, i, os[j], Bytes(rs[j]), low);
    }
    forall i: nat, j: nat | i < j < |t| ensures Apart(t, u, i, j) {
      MoveToAt(rs, at, n, i);
      MoveToAt(os, at, n, i);
      MoveToAt(rs, at, n, j);
      MoveToAt(os, at, n, j);
      var x, y := From(at, n, i), From(at, n, j);
      assert if x < y then Apart(rs, os, x, y) else Apart(rs, os, y, x);
    }
  }

  lemma SlotMoved(was: seq<Byte>, d: seq<Byte>, at: nat, n: nat, i: nat, o: int, b: seq<Byte>, low: int)
    requires |was| == |d| && at <= n && 2 * n + 2 <= low <= |d| && low <= o && TableMoved(was, d, at, n)
    requires SlotIs(was, From(at, n, i), o, b) && 2 * i + 2 <= low
    ensures SlotIs(d, i, o, b)
  {
    hide Pack16;
    Kept(was, d, o, |b|);
    var j := From(at, n, i);
    assert d[2 * i..2 * i + 2] == was[2 * j..2 * j + 2];
  }
}
