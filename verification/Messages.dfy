/** Values, upsert messages and what a message does to a value (src/tree.c, apply and statupdate). */
module Messages {
  import opened Dat
  import opened Keys

  datatype Option<+T> = None | Some(value: T)

  /** A directory entry value; vers and mode have 32 bits, qtype 8. */
  datatype Xdir = Xdir(flag: int, path: int, vers: int, qtype: int, mode: int,
                       atime: int, mtime: int, length: int, uid: int, gid: int, muid: int)

  /** A snapshot record. */
  datatype SnapRec = SnapRec(nref: int, nlbl: int, ht: int, flag: int, gen: int,
                             pred: int, succ: int, base: int, root: int)

  datatype Value = Raw(bytes: seq<Byte>) | Dir(d: Xdir) | Snap(t: SnapRec)

  /** The fields a stat message sets, in flag-bit order. */
  datatype Wstat = Wstat(size: Option<int>, mode: Option<int>, mtime: Option<int>, atime: Option<int>,
                         uid: Option<int>, gid: Option<int>, muid: Option<int>)

  /** nv is the length of a payload that the operation ignores. */
  datatype Op =
    | Oinsert(v: Value)
    | Odelete(nv: nat)
    | Oclearb(nv: nat)
    | Oclobber(nv: nat)
    | Owstat(w: Wstat)
    | Orelink(link: int, dlbl: int, dref: int)
    | Oreprev(link: int, dlbl: int, dref: int)

  datatype Msg = Msg(k: Key, op: Op)
  datatype Kvp = Kvp(k: Key, v: Value)

  function ValLen(v: Value): nat
  {
    match v
    case Raw(b) => |b|
    case Dir(_) => Dirsz
    case Snap(_) => Treesz
  }

  function Width<T>(o: Option<T>, n: nat): nat {
    if o.Some? then n else 0
  }

  function WstatLen(w: Wstat): nat {
    1 + Width(w.size, 8) + Width(w.mode, 4) + Width(w.mtime, 8) + Width(w.atime, 8)
      + Width(w.uid, 4) + Width(w.gid, 4) + Width(w.muid, 4)
  }

  /** m->nv */
  function OpLen(op: Op): nat
  {
    match op
    case Oinsert(v) => ValLen(v)
    case Odelete(nv) => nv
    case Oclearb(nv) => nv
    case Oclobber(nv) => nv
    case Owstat(w) => WstatLen(w)
    case Orelink(_, _, _) => 10
    case Oreprev(_, _, _) => 10
  }

  /** Offset, op, key length, key, value length, value. */
  function MsgSz(m: Msg): nat {
    2 + 1 + 2 + |m.k| + 2 + OpLen(m.op)
  }

  /** Offset, key length, key, value length, value. */
  function ValSz(kv: Kvp): nat {
    2 + 2 + |kv.k| + 2 + ValLen(kv.v)
  }

  function MsgsSz(ms: seq<Msg>): nat {
    if ms == [] then 0 else MsgsSz(ms[..|ms| - 1]) + MsgSz(ms[|ms| - 1])
  }

  function KvpsSz(vs: seq<Kvp>): nat {
    if vs == [] then 0 else KvpsSz(vs[..|vs| - 1]) + ValSz(vs[|vs| - 1])
  }

  predicate KeyOk(k: Key) { |k| <= Keymax }

  /** What cpkvp's buffers hold. */
  predicate MsgOk(m: Msg) { KeyOk(m.k) && |m.k| + OpLen(m.op) <= Kvmax }

  predicate KvpOk(kv: Kvp) { KeyOk(kv.k) && |kv.k| + ValLen(kv.v) <= Kvmax }

  function Override<T>(o: Option<T>, was: T): T {
    if o.Some? then o.value else was
  }

  /** The top byte of a mode. */
  function TypeOf(mode: int): int { (mode / 0x100_0000) % 256 }

  /** The version is bumped (32 bits, wrapping) and the flagged fields are replaced; a new mode also
      replaces the qid type by the mode's top byte. */
  function StatUpdate(d: Xdir, w: Wstat): Xdir
  {
    d.(vers := (d.vers + 1) % 0x1_0000_0000,
       length := Override(w.size, d.length),
       mode := Override(w.mode, d.mode),
       qtype := if w.mode.Some? then TypeOf(w.mode.value) else d.qtype,
       mtime := Override(w.mtime, d.mtime),
       atime := Override(w.atime, d.atime),
       uid := Override(w.uid, d.uid),
       gid := Override(w.gid, d.gid),
       muid := Override(w.muid, d.muid))
  }

  /** The state of one key: no entry, an entry, or a message it could not take. */
  datatype St = Absent | Has(v: Value) | Bad

  /** One message against the state of its key. Bad is a message its key cannot take: a delete, stat or
      relink without an entry, one of the wrong kind, or a reference count below zero. apply and
      btlookup stop the program on most of these, but not on all: a second delete of a key in one run
      is passed over, and updateleaf takes some for entries. */
  function Apply(s: St, m: Msg): St
  {
    match s
    case Bad => Bad
    case Absent =>
      (match m.op
       case Oinsert(v) => Has(v)
       case Oclearb(_) => Absent
       case Oclobber(_) => Absent
       case _ => Bad)
    case Has(was) =>
      (match m.op
       case Oinsert(v) => Has(v)
       case Odelete(_) => Absent
       case Oclearb(_) => Absent
       case Oclobber(_) => Absent
       case Owstat(w) => if was.Dir? then Has(Dir(StatUpdate(was.d, w))) else Bad
       case Orelink(link, dlbl, dref) =>
         if was.Snap? && was.t.nlbl + dlbl >= 0 && was.t.nref + dref >= 0
         then Has(Snap(was.t.(succ := link, nlbl := was.t.nlbl + dlbl, nref := was.t.nref + dref)))
         else Bad
       case Oreprev(link, dlbl, dref) =>
         if was.Snap? && was.t.nlbl + dlbl >= 0 && was.t.nref + dref >= 0
         then Has(Snap(was.t.(pred := link, nlbl := was.t.nlbl + dlbl, nref := was.t.nref + dref)))
         else Bad)
  }

  /** Messages in order, oldest first. */
  function Play(s: St, ms: seq<Msg>): St
  {
    if ms == [] then s else Apply(Play(s, ms[..|ms| - 1]), ms[|ms| - 1])
  }

  /** The messages of one key, in order. */
  function Sel(ms: seq<Msg>, k: Key): seq<Msg>
  {
    if ms == [] then []
    else Sel(ms[..|ms| - 1], k) + (if ms[|ms| - 1].k == k then [ms[|ms| - 1]] else [])
  }

  /** The entry of a key among the values of a leaf. */
  function Find(vs: seq<Kvp>, k: Key): St
  {
    if vs == [] then Absent
    else if vs[|vs| - 1].k == k then Has(vs[|vs| - 1].v)
    else Find(vs[..|vs| - 1], k)
  }

  ghost predicate SortedMsgs(ms: seq<Msg>) {
    forall i, j :: 0 <= i < j < |ms| ==> Rank(ms[i].k) <= Rank(ms[j].k)
  }

  ghost predicate SortedVals(vs: seq<Kvp>) {
    forall i, j :: 0 <= i < j < |vs| ==> Rank(vs[i].k) < Rank(vs[j].k)
  }

  // ----- facts about Play, Sel, Find -----

  lemma {:induction false} PlayConcat(s: St, a: seq<Msg>, b: seq<Msg>)
    ensures Play(s, a + b) == Play(Play(s, a), b)
  {
    if b == [] {
      assert a + b == a;
    } else {
      var c := a + b;
      assert c[..|c| - 1] == a + b[..|b| - 1];
      PlayConcat(s, a, b[..|b| - 1]);
    }
  }

  lemma {:induction false} PlayBad(ms: seq<Msg>)
    ensures Play(Bad, ms) == Bad
  {
    if ms != [] { PlayBad(ms[..|ms| - 1]); }
  }

  /** If a whole history does not abort, no prefix of it does. */
  lemma PlayPrefix(s: St, a: seq<Msg>, b: seq<Msg>)
    requires Play(s, a + b) != Bad
    ensures Play(s, a) != Bad
  {
    PlayConcat(s, a, b);
    if Play(s, a) == Bad { PlayBad(b); }
  }

  lemma {:induction false} SelConcat(a: seq<Msg>, b: seq<Msg>, k: Key)
    ensures Sel(a + b, k) == Sel(a, k) + Sel(b, k)
  {
    if b == [] {
      assert a + b == a;
    } else {
      var c := a + b;
      assert c[..|c| - 1] == a + b[..|b| - 1];
      SelConcat(a, b[..|b| - 1], k);
    }
  }

  lemma {:induction false} SelNone(ms: seq<Msg>, k: Key)
    requires forall m :: m in ms ==> m.k != k
    ensures Sel(ms, k) == []
  {
    if ms != [] { SelNone(ms[..|ms| - 1], k); }
  }

  lemma {:induction false} SelSome(ms: seq<Msg>, k: Key)
    requires Sel(ms, k) == []
    ensures forall m :: m in ms ==> m.k != k
  {
    if ms != [] {
      SelSome(ms[..|ms| - 1], k);
    }
  }

  lemma {:induction false} FindConcat(a: seq<Kvp>, b: seq<Kvp>, k: Key)
    ensures Find(a + b, k) == if Find(b, k) == Absent then Find(a, k) else Find(b, k)
  {
    if b == [] {
      assert a + b == a;
    } else {
      var c := a + b;
      assert c[..|c| - 1] == a + b[..|b| - 1];
      FindConcat(a, b[..|b| - 1], k);
    }
  }

  lemma {:induction false} FindNone(vs: seq<Kvp>, k: Key)
    requires forall v :: v in vs ==> v.k != k
    ensures Find(vs, k) == Absent
  {
    if vs != [] { FindNone(vs[..|vs| - 1], k); }
  }

  lemma {:induction false} FindAt(vs: seq<Kvp>, i: nat)
    requires i < |vs| && SortedVals(vs)
    ensures Find(vs, vs[i].k) == Has(vs[i].v)
  {
    if i < |vs| - 1 {
      FindAt(vs[..|vs| - 1], i);
    }
  }

  lemma {:induction false} MsgsSzConcat(a: seq<Msg>, b: seq<Msg>)
    ensures MsgsSz(a + b) == MsgsSz(a) + MsgsSz(b)
  {
    if b == [] {
      assert a + b == a;
    } else {
      var c := a + b;
      assert c[..|c| - 1] == a + b[..|b| - 1];
      MsgsSzConcat(a, b[..|b| - 1]);
    }
  }
}
