/** The bytes that a stat or a relink message carries, and what it sets (src/tree.c, statupdate and apply;
    src/dat.h, Owsize to Owmuid; src/pack.c, retag2kv). */
module Stats {
  import opened Keys
  import opened Messages

  // ----- numbers in bytes -----

  function Pow(w: nat): (r: nat)
    ensures r > 0
  {
    if w == 0 then 1 else 256 * Pow(w - 1)
  }

  /** PACK8 to PACK64: the low w bytes of a number, high byte first. */
  function Pack(n: int, w: nat): (b: seq<Byte>)
    ensures |b| == w
    decreases w
  {
    if w == 0 then [] else Pack(n / 256, w - 1) + [n % 256]
  }

  /** UNPACK8 to UNPACK64. */
  function Unpack(b: seq<Byte>): nat {
    if b == [] then 0 else 256 * Unpack(b[..|b| - 1]) + b[|b| - 1]
  }

  /** The number of w bytes as a signed one. */
  function Signed(u: nat, w: nat): int { if 2 * u < Pow(w) then u else u - Pow(w) }

  predicate Fits(n: int, w: nat, signed: bool) {
    if signed then -(Pow(w) as int) <= 2 * n < Pow(w) else 0 <= n < Pow(w)
  }

  lemma {:induction false} UnpackPack(n: int, w: nat)
    ensures Unpack(Pack(n, w)) == n % Pow(w)
    decreases w
  {
    if w > 0 {
      UnpackPack(n / 256, w - 1);
      var b := Pack(n, w);
      assert b[..|b| - 1] == Pack(n / 256, w - 1);
      LowBytes(n, Pow(w - 1));
    }
  }

  lemma LowBytes(n: int, m: nat)
    requires m > 0
    ensures 256 * ((n / 256) % m) + n % 256 == n % (256 * m)
  {
    var q, r := (n / 256) / m, (n / 256) % m;
    assert n / 256 == m * q + r;
    assert n == 256 * (n / 256) + n % 256;
    var low := 256 * r + n % 256;
    assert 256 * (m * q) == (256 * m) * q;
    assert n == (256 * m) * q + low;
    assert 0 <= low < 256 * m;
    ModIs(n, 256 * m, q, low);
  }

  lemma ModIs(n: int, m: nat, q: int, r: int)
    requires m > 0 && n == m * q + r && 0 <= r < m
    ensures n % m == r
  {
    var d := n / m - q;
    assert n == m * (n / m) + n % m;
    assert m * d == r - n % m;
    Multiple(m, d);
  }

  lemma Multiple(m: nat, d: int)
    ensures (d >= 1 ==> m * d >= m) && (d <= -1 ==> m * d <= -(m as int))
  {
    if d >= 1 {
      assert m * d == m * (d - 1) + m;
    } else if d <= -1 {
      assert m * d == -(m * (-d - 1)) - m;
    }
  }

  /** A number that fits comes back. */
  lemma ReadBack(n: int, w: nat, signed: bool)
    requires Fits(n, w, signed)
    ensures (if signed then Signed(Unpack(Pack(n, w)), w) else Unpack(Pack(n, w))) == n
  {
    hide Pack, Unpack, Pow;
    UnpackPack(n, w);
    var m := Pow(w);
    if n >= 0 { ModIs(n, m, 0, n); } else { ModIs(n, m, -1, n + m); }
  }

  // ----- the fields of a stat -----

  datatype Field = Size | Mode | Mtime | Atime | Uid | Gid | Muid

  /** In the order of their flags, lowest first. */
  const FIELDS := [Size, Mode, Mtime, Atime, Uid, Gid, Muid]

  function Wide(f: Field): nat { if f.Size? || f.Mtime? || f.Atime? then 8 else 4 }

  /** uvlong length and ulong mode; the others are signed. */
  predicate IsSigned(f: Field) { !f.Size? && !f.Mode? }

  function Get(d: Xdir, f: Field): int {
    match f
    case Size => d.length
    case Mode => d.mode
    case Mtime => d.mtime
    case Atime => d.atime
    case Uid => d.uid
    case Gid => d.gid
    case Muid => d.muid
  }

  function Sent(w: Wstat, f: Field): Option<int> {
    match f
    case Size => w.size
    case Mode => w.mode
    case Mtime => w.mtime
    case Atime => w.atime
    case Uid => w.uid
    case Gid => w.gid
    case Muid => w.muid
  }

  /** A stat sets the fields it has a value for and no others, and bumps the version. */
  ghost predicate Sets(d: Xdir, w: Wstat, e: Xdir) {
    && (forall f: Field :: Get(e, f) == if Sent(w, f).Some? then Sent(w, f).value else Get(d, f))
    && e.flag == d.flag && e.path == d.path && e.vers == (d.vers + 1) % 0x1_0000_0000
    && e.qtype == if w.mode.Some? then TypeOf(w.mode.value) else d.qtype
  }

  lemma StatSets(d: Xdir, w: Wstat)
    ensures Sets(d, w, StatUpdate(d, w))
  {
    forall f: Field ensures Get(StatUpdate(d, w), f) == if Sent(w, f).Some? then Sent(w, f).value else Get(d, f) {
      match f { case Size => case Mode => case Mtime => case Atime => case Uid => case Gid => case Muid => }
    }
  }

  /** Nothing else satisfies that. */
  lemma SetsOne(d: Xdir, w: Wstat, e: Xdir)
    requires Sets(d, w, e)
    ensures e == StatUpdate(d, w)
  {
    StatSets(d, w);
    var x := StatUpdate(d, w);
    assert Get(e, Size) == Get(x, Size) && Get(e, Mode) == Get(x, Mode) && Get(e, Mtime) == Get(x, Mtime);
    assert Get(e, Atime) == Get(x, Atime) && Get(e, Uid) == Get(x, Uid) && Get(e, Gid) == Get(x, Gid);
    assert Get(e, Muid) == Get(x, Muid);
  }

  // ----- the bytes of a stat -----

  function Bit(i: nat): nat { if i == 0 then 1 else 2 * Bit(i - 1) }

  predicate Flag(op: int, i: nat) {
    BitPositive(i);
    (op / Bit(i)) % 2 == 1
  }

  lemma BitPositive(i: nat)
    ensures Bit(i) > 0
  {
  }

  /** Where the value of field i begins: the flag byte, and the values of the flagged fields before it. */
  function At(op: int, i: nat): nat
    requires i <= |FIELDS|
  {
    if i == 0 then 1 else At(op, i - 1) + if Flag(op, i - 1) then Wide(FIELDS[i - 1]) else 0
  }

  function ValueOf(f: Field, b: seq<Byte>): int {
    if IsSigned(f) then Signed(Unpack(b), |b|) else Unpack(b)
  }

  /** The bytes of a stat as the file server builds them: the flags, and then the values of the flagged
      fields. */
  function Flags(w: Wstat): int {
    One(w, 0) + 2 * One(w, 1) + 4 * One(w, 2) + 8 * One(w, 3) + 16 * One(w, 4) + 32 * One(w, 5) + 64 * One(w, 6)
  }

  function One(w: Wstat, i: nat): int
    requires i < |FIELDS|
  {
    if Sent(w, FIELDS[i]).Some? then 1 else 0
  }

  function Values(w: Wstat, i: nat): seq<Byte>
    requires i <= |FIELDS|
  {
    if i == 0 then []
    else
      var f := FIELDS[i - 1];
      Values(w, i - 1) + if Sent(w, f).Some? then Pack(Sent(w, f).value, Wide(f)) else []
  }

  function StatBytes(w: Wstat): seq<Byte> { [Flags(w)] + Values(w, |FIELDS|) }

  /** Values of the width of their fields. */
  predicate StatFits(w: Wstat) {
    forall f: Field :: f in FIELDS && Sent(w, f).Some? ==> Fits(Sent(w, f).value, Wide(f), IsSigned(f))
  }

  lemma FlagsAre(w: Wstat, i: nat)
    requires i < |FIELDS|
    ensures Flag(Flags(w), i) <==> Sent(w, FIELDS[i]).Some?
  {
    assert Bit(1) == 2 && Bit(2) == 4 && Bit(3) == 8;
    assert Bit(4) == 16 && Bit(5) == 32 && Bit(6) == 64;
    BitsOf(One(w, 0), One(w, 1), One(w, 2), One(w, 3), One(w, 4), One(w, 5), One(w, 6));
  }

  lemma BitsOf(a: int, b: int, c: int, d: int, e: int, f: int, g: int)
    requires 0 <= a <= 1 && 0 <= b <= 1 && 0 <= c <= 1 && 0 <= d <= 1 && 0 <= e <= 1 && 0 <= f <= 1 && 0 <= g <= 1
    ensures var n := a + 2 * b + 4 * c + 8 * d + 16 * e + 32 * f + 64 * g;
            && n % 2 == a && (n / 2) % 2 == b && (n / 4) % 2 == c && (n / 8) % 2 == d && (n / 16) % 2 == e
            && (n / 32) % 2 == f && (n / 64) % 2 == g
  {
    var n := a + 2 * b + 4 * c + 8 * d + 16 * e + 32 * f + 64 * g;
    assert n / 2 == b + 2 * c + 4 * d + 8 * e + 16 * f + 32 * g;
    assert n / 4 == (n / 2) / 2 == c + 2 * d + 4 * e + 8 * f + 16 * g;
    assert n / 8 == (n / 4) / 2 == d + 2 * e + 4 * f + 8 * g;
    assert n / 16 == (n / 8) / 2 == e + 2 * f + 4 * g;
    assert n / 32 == (n / 16) / 2 == f + 2 * g;
    assert n / 64 == (n / 32) / 2 == g;
  }

  /** Where the values are. */
  lemma {:induction false} ValuesAt(w: Wstat, i: nat)
    requires i <= |FIELDS|
    ensures 1 + |Values(w, i)| == At(Flags(w), i)
  {
    hide Flag, Flags, Pack, Sent;
    if i > 0 {
      ValuesAt(w, i - 1);
      FlagsAre(w, i - 1);
    }
  }

  lemma {:induction false} ValuesPrefix(w: Wstat, i: nat, j: nat)
    requires i <= j <= |FIELDS|
    ensures Values(w, i) <= Values(w, j)
  {
    hide Pack, Sent;
    if i < j { ValuesPrefix(w, i, j - 1); }
  }

  lemma ValueThere(w: Wstat, i: nat)
    requires i < |FIELDS| && Sent(w, FIELDS[i]).Some?
    ensures var o, f := At(Flags(w), i), FIELDS[i];
            o + Wide(f) <= |StatBytes(w)| && StatBytes(w)[o..o + Wide(f)] == Pack(Sent(w, f).value, Wide(f))
  {
    hide Flag, Flags, Pack, Sent;
    ValuesAt(w, i);
    ValuesPrefix(w, i + 1, |FIELDS|);
    var f := FIELDS[i];
    var b := Pack(Sent(w, f).value, Wide(f));
    assert Values(w, i + 1) == Values(w, i) + b;
    var o, v := |Values(w, i)|, Values(w, |FIELDS|);
    assert v[..o + |b|] == Values(w, i) + b;
    assert v[o..o + |b|] == b;
  }

  /** A message built from a stat is read back field by field. */
  lemma Carried(d: Xdir, w: Wstat, e: Xdir)
    requires StatFits(w)
    requires forall i: nat {:trigger Updated(d, StatBytes(w), e, i)} ::
               i < |FIELDS| ==> Updated(d, StatBytes(w), e, i)
    requires e.flag == d.flag && e.path == d.path && e.vers == (d.vers + 1) % 0x1_0000_0000
    requires e.qtype == if Flag(StatBytes(w)[0], 1) then TypeOf(e.mode) else d.qtype
    ensures e == StatUpdate(d, w)
  {
    hide Flag, Flags, Pack, Sent, StatBytes, Get, Values, StatUpdate, Unpack, Signed, Fits;
    assert StatBytes(w)[0] == Flags(w) by { BytesFirst(w); }
    forall i: nat | i < |FIELDS|
      ensures Get(e, FIELDS[i]) == if Sent(w, FIELDS[i]).Some? then Sent(w, FIELDS[i]).value else Get(d, FIELDS[i])
    {
      var f := FIELDS[i];
      assert Updated(d, StatBytes(w), e, i);
      FlagsAre(w, i);
      if Sent(w, f).Some? {
        ValueThere(w, i);
        assert f in FIELDS;
        ReadBack(Sent(w, f).value, Wide(f), IsSigned(f));
      }
    }
    FlagsAre(w, 1);
    AllFields(d, w, e);
    SetsOne(d, w, e);
  }

  lemma BytesFirst(w: Wstat)
    ensures StatBytes(w) != [] && StatBytes(w)[0] == Flags(w)
  {
  }

  lemma AllFields(d: Xdir, w: Wstat, e: Xdir)
    requires forall i: nat :: i < |FIELDS| ==>
               Get(e, FIELDS[i]) == if Sent(w, FIELDS[i]).Some? then Sent(w, FIELDS[i]).value else Get(d, FIELDS[i])
    requires e.flag == d.flag && e.path == d.path && e.vers == (d.vers + 1) % 0x1_0000_0000
    requires e.qtype == if Sent(w, Mode).Some? then TypeOf(e.mode) else d.qtype
    ensures Sets(d, w, e)
  {
    hide Get, Sent;
    forall f: Field ensures Get(e, f) == if Sent(w, f).Some? then Sent(w, f).value else Get(d, f) {
      var i := Place(f);
      assert FIELDS[i] == f;
    }
    ModeOf(e, w);
  }

  lemma ModeOf(e: Xdir, w: Wstat)
    ensures Get(e, Mode) == e.mode && Sent(w, Mode) == w.mode
  {
  }

  function Place(f: Field): nat {
    match f
    case Size => 0
    case Mode => 1
    case Mtime => 2
    case Atime => 3
    case Uid => 4
    case Gid => 5
    case Muid => 6
  }

  predicate WellFormed(v: seq<Byte>) { v != [] && |v| == At(v[0], |FIELDS|) }

  /** Field i of the entry after the update. */
  ghost predicate Updated(d: Xdir, v: seq<Byte>, e: Xdir, i: nat)
    requires v != [] && i < |FIELDS|
  {
    var f := FIELDS[i];
    if Flag(v[0], i) then
      At(v[0], i) + Wide(f) <= |v| && Get(e, f) == ValueOf(f, v[At(v[0], i)..At(v[0], i) + Wide(f)])
    else Get(e, f) == Get(d, f)
  }

  function Put(d: Xdir, f: Field, x: int): (e: Xdir)
  {
    match f
    case Size => d.(length := x)
    case Mode => d.(mode := x, qtype := TypeOf(x))
    case Mtime => d.(mtime := x)
    case Atime => d.(atime := x)
    case Uid => d.(uid := x)
    case Gid => d.(gid := x)
    case Muid => d.(muid := x)
  }

  lemma PutSets(d: Xdir, f: Field, x: int)
    ensures var e := Put(d, f, x);
            && (forall g: Field :: Get(e, g) == if g == f then x else Get(d, g))
            && e.flag == d.flag && e.path == d.path && e.vers == d.vers
            && e.qtype == if f == Mode then TypeOf(x) else d.qtype
  {
    forall g: Field ensures Get(Put(d, f, x), g) == if g == f then x else Get(d, g) {
      match g { case Size => case Mode => case Mtime => case Atime => case Uid => case Gid => case Muid => }
    }
  }

  /** The first i fields have been read and the next value is at p; the rest is as it was. */
  ghost predicate ReadTo(d: Xdir, v: seq<Byte>, e: Xdir, p: nat, i: nat)
    requires v != [] && i <= |FIELDS|
  {
    && p == At(v[0], i) <= |v|
    && (forall j: nat {:trigger Updated(d, v, e, j)} :: j < i ==> Updated(d, v, e, j))
    && (forall j: nat :: i <= j < |FIELDS| ==> Get(e, FIELDS[j]) == Get(d, FIELDS[j]))
    && e.flag == d.flag && e.path == d.path && e.vers == (d.vers + 1) % 0x1_0000_0000
    && e.qtype == if i > 1 && Flag(v[0], 1) then TypeOf(e.mode) else d.qtype
  }

  /** The value of one field. */
  method ReadField(v: seq<Byte>, e0: Xdir, p0: nat, i: nat, ghost d: Xdir) returns (ok: bool, e: Xdir, p: nat)
    requires v != [] && i < |FIELDS| && ReadTo(d, v, e0, p0, i)
    ensures if ok then ReadTo(d, v, e, p, i + 1) else |v| < At(v[0], i + 1)
  {
    hide Flag, Pow, Unpack, Bit, ValueOf, Get;
    ok, e, p := true, e0, p0;
    var f := FIELDS[i];
    if Flag(v[0], i) {
      ok := p + Wide(f) <= |v|;
      if !ok {
        return;
      }
      var x := ValueOf(f, v[p..p + Wide(f)]);
      PutSets(e, f, x);
      assert Get(Put(e, f, x), Mode) == Put(e, f, x).mode && Get(e, Mode) == e.mode by { ModeField(); }
      e := Put(e, f, x);
      p := p + Wide(f);
      assert FIELDS[1] == Mode;
    }
    ReadMore(d, v, e0, e, p0, p, i);
  }

  lemma ModeField()
    ensures forall e: Xdir {:trigger Get(e, Mode)} :: Get(e, Mode) == e.mode
  {
  }

  lemma ReadMore(d: Xdir, v: seq<Byte>, e0: Xdir, e: Xdir, p0: nat, p: nat, i: nat)
    requires v != [] && i < |FIELDS| && ReadTo(d, v, e0, p0, i) && p <= |v|
    requires p == p0 + if Flag(v[0], i) then Wide(FIELDS[i]) else 0
    requires forall g: Field :: Get(e, g) == if Flag(v[0], i) && g == FIELDS[i]
                                             then ValueOf(g, v[p0..p0 + Wide(g)]) else Get(e0, g)
    requires e.flag == e0.flag && e.path == e0.path && e.vers == e0.vers
    requires e.qtype == if i == 1 && Flag(v[0], i) then TypeOf(e.mode) else e0.qtype
    ensures ReadTo(d, v, e, p, i + 1)
  {
    hide Flag, Pow, Unpack, Bit, ValueOf, Get;
    ModeField();
    FieldsApart();
    forall j: nat | j < i ensures Updated(d, v, e, j) {
      assert Updated(d, v, e0, j);
    }
    assert Get(e, Mode) == e.mode && Get(e0, Mode) == e0.mode;
  }

  lemma FieldsApart()
    ensures forall i, j :: 0 <= i < j < |FIELDS| ==> FIELDS[i] != FIELDS[j]
  {
  }

  lemma {:induction false} AtMore(op: int, i: nat, j: nat)
    requires i <= j <= |FIELDS|
    ensures At(op, i) <= At(op, j)
  {
    hide Flag;
    if i < j { AtMore(op, i, j - 1); }
  }

  /** statupdate: the flags say which values follow, in the order of the fields. A message whose values do
      not end where it ends is malformed. */
  method Walk(d: Xdir, v: seq<Byte>) returns (r: Option<Xdir>)
    ensures r.Some? <==> WellFormed(v)
    ensures r.Some? ==> forall i: nat {:trigger Updated(d, v, r.value, i)} :: i < |FIELDS| ==> Updated(d, v, r.value, i)
    ensures r.Some? ==> r.value.flag == d.flag && r.value.path == d.path
    ensures r.Some? ==> r.value.vers == (d.vers + 1) % 0x1_0000_0000
    ensures r.Some? ==> r.value.qtype == if Flag(v[0], 1) then TypeOf(r.value.mode) else d.qtype
    ensures forall w {:trigger StatBytes(w)} :: StatFits(w) && v == StatBytes(w) ==> r == Some(StatUpdate(d, w))
  {
    hide Flag, StatUpdate, StatBytes, StatFits, Updated, Get;
    r := None;
    forall w ensures StatBytes(w) != [] && WellFormed(StatBytes(w)) {
      BuiltWell(w);
    }
    if v == [] {
      return;
    }
    var e, p, ok := d.(vers := (d.vers + 1) % 0x1_0000_0000), 1, true;
    ReadNone(d, v, e);
    forall i: nat | i <= |FIELDS| ensures At(v[0], i) <= At(v[0], |FIELDS|) {
      AtMore(v[0], i, |FIELDS|);
    }
    ok, e, p := ReadField(v, e, p, 0, d);
    if !ok { return; }
    ok, e, p := ReadField(v, e, p, 1, d);
    if !ok { return; }
    ok, e, p := ReadField(v, e, p, 2, d);
    if !ok { return; }
    ok, e, p := ReadField(v, e, p, 3, d);
    if !ok { return; }
    ok, e, p := ReadField(v, e, p, 4, d);
    if !ok { return; }
    ok, e, p := ReadField(v, e, p, 5, d);
    if !ok { return; }
    ok, e, p := ReadField(v, e, p, 6, d);
    if !ok { return; }
    if p != |v| {
      return;
    }
    r := Some(e);
    forall w | StatFits(w) && v == StatBytes(w) ensures e == StatUpdate(d, w) {
      Carried(d, w, e);
    }
  }

  lemma ReadNone(d: Xdir, v: seq<Byte>, e: Xdir)
    requires v != [] && e == d.(vers := (d.vers + 1) % 0x1_0000_0000)
    ensures ReadTo(d, v, e, 1, 0)
  {
  }

  lemma BuiltWell(w: Wstat)
    ensures WellFormed(StatBytes(w))
  {
    hide Flag, Flags, Pack, Sent;
    ValuesAt(w, |FIELDS|);
  }

  /** A stat is as long as its size says. */
  lemma StatSize(w: Wstat)
    ensures |StatBytes(w)| == WstatLen(w)
  {
    hide Pack, Flags;
    assert |Values(w, 1)| == Width(w.size, 8) && |Values(w, 2)| == |Values(w, 1)| + Width(w.mode, 4);
    assert |Values(w, 3)| == |Values(w, 2)| + Width(w.mtime, 8) && |Values(w, 4)| == |Values(w, 3)| + Width(w.atime, 8);
    assert |Values(w, 5)| == |Values(w, 4)| + Width(w.uid, 4) && |Values(w, 6)| == |Values(w, 5)| + Width(w.gid, 4);
    assert |Values(w, 7)| == |Values(w, 6)| + Width(w.muid, 4);
  }

  // ----- relinking a snapshot -----

  /** retag2kv: the new link and the changes of the two counts. */
  function RelinkBytes(link: int, dlbl: int, dref: int): seq<Byte> {
    Pack(link, 8) + Pack(dlbl, 1) + Pack(dref, 1)
  }

  lemma RelinkSize(link: int, dlbl: int, dref: int)
    ensures |RelinkBytes(link, dlbl, dref)| == OpLen(Orelink(link, dlbl, dref)) == OpLen(Oreprev(link, dlbl, dref))
  {
  }

  /** apply, of a relink (succ) or a reprev (pred). */
  method Relink(t: SnapRec, succ: bool, v: seq<Byte>) returns (r: Option<SnapRec>)
    ensures |v| != 10 ==> r == None
    ensures forall link, dlbl, dref {:trigger RelinkBytes(link, dlbl, dref)} ::
              Fits(link, 8, true) && Fits(dlbl, 1, true) && Fits(dref, 1, true) && v == RelinkBytes(link, dlbl, dref)
              ==>
              && (r.Some? <==> t.nlbl + dlbl >= 0 && t.nref + dref >= 0)
              && (r.Some? ==> Relinked(t, succ, link, dlbl, dref, r.value))
  {
    forall l, x, y ensures |RelinkBytes(l, x, y)| == 10 {
    }
    if |v| < 10 {
      return None;
    }
    hide Pow, Pack, Unpack, Signed, Fits, RelinkBytes;
    var link, dlbl, dref := Signed(Unpack(v[0..8]), 8), Signed(Unpack(v[8..9]), 1), Signed(Unpack(v[9..10]), 1);
    var s := if succ then t.(succ := link) else t.(pred := link);
    s := s.(nlbl := s.nlbl + dlbl, nref := s.nref + dref);
    r := if s.nlbl >= 0 && s.nref >= 0 && |v| == 10 then Some(s) else None;
    forall l, x, y | Fits(l, 8, true) && Fits(x, 1, true) && Fits(y, 1, true) && v == RelinkBytes(l, x, y)
      ensures l == link && x == dlbl && y == dref && |v| == 10
    {
      RelinkRead(l, x, y);
    }
  }

  lemma RelinkRead(link: int, dlbl: int, dref: int)
    requires Fits(link, 8, true) && Fits(dlbl, 1, true) && Fits(dref, 1, true)
    ensures var v := RelinkBytes(link, dlbl, dref);
            && |v| == 10 && Signed(Unpack(v[0..8]), 8) == link
            && Signed(Unpack(v[8..9]), 1) == dlbl && Signed(Unpack(v[9..10]), 1) == dref
  {
    hide Pow, Pack, Unpack, Signed, Fits;
    ReadBack(link, 8, true);
    ReadBack(dlbl, 1, true);
    ReadBack(dref, 1, true);
    var v := RelinkBytes(link, dlbl, dref);
    assert v[0..8] == Pack(link, 8) && v[8..9] == Pack(dlbl, 1) && v[9..10] == Pack(dref, 1);
  }

  /** One link is replaced, the other one stays, and the counts change by what was sent. */
  ghost predicate Relinked(t: SnapRec, succ: bool, link: int, dlbl: int, dref: int, s: SnapRec) {
    && s.succ == (if succ then link else t.succ) && s.pred == (if succ then t.pred else link)
    && s.nlbl == t.nlbl + dlbl && s.nref == t.nref + dref
    && s.ht == t.ht && s.flag == t.flag && s.gen == t.gen && s.base == t.base && s.root == t.root
  }

  // ----- every message -----

  /** What a key holds after one message more. */
  ghost predicate Obeys(was: St, m: Msg, now: St) {
    match m.op
    case Oinsert(v) => now == Has(v)
    case Odelete(_) => now == Absent
    case Oclearb(_) => now == Absent
    case Oclobber(_) => now == Absent
    case Owstat(w) => was.Has? && was.v.Dir? && now.Has? && now.v.Dir? && Sets(was.v.d, w, now.v.d)
    case Orelink(link, dlbl, dref) =>
      was.Has? && was.v.Snap? && now.Has? && now.v.Snap? && Relinked(was.v.t, true, link, dlbl, dref, now.v.t)
    case Oreprev(link, dlbl, dref) =>
      was.Has? && was.v.Snap? && now.Has? && now.v.Snap? && Relinked(was.v.t, false, link, dlbl, dref, now.v.t)
  }

  /** The last message for a key decides. */
  lemma LastObeyed(s: St, ms: seq<Msg>)
    requires ms != [] && Play(s, ms) != Bad
    ensures Obeys(Play(s, ms[..|ms| - 1]), ms[|ms| - 1], Play(s, ms))
  {
    var was, m := Play(s, ms[..|ms| - 1]), ms[|ms| - 1];
    if was.Has? && was.v.Dir? && m.op.Owstat? {
      StatSets(was.v.d, m.op.w);
    }
    hide Sets, StatUpdate;
  }
}
