/** The leaf rebuild of the FUSE port: a batch is sorted and merged with the entries of the root leaf
    into a new leaf (src/gefs_storage.c, gefs_btupsert and statupdate). */
module PortLeaf {
  import opened Keys
  import opened Messages
  import opened BufMerge
  import opened Sorting
  import opened Stats

  // ----- what a message does here -----

  /** Unlike the file server, the port bumps no version and leaves the qid type alone. */
  function PortStat(d: Xdir, w: Wstat): Xdir {
    d.(length := Override(w.size, d.length), mode := Override(w.mode, d.mode),
       mtime := Override(w.mtime, d.mtime), atime := Override(w.atime, d.atime),
       uid := Override(w.uid, d.uid), gid := Override(w.gid, d.gid), muid := Override(w.muid, d.muid))
  }

  /** Everything but an insert or a stat drops the entry; without one only an insert does anything. */
  function PortApply(s: St, m: Msg): St {
    match s
    case Bad => Bad
    case Absent => if m.op.Oinsert? then Has(m.op.v) else Absent
    case Has(v) =>
      if m.op.Oinsert? then Has(m.op.v)
      else if m.op.Owstat? then Has(if v.Dir? then Dir(PortStat(v.d, m.op.w)) else v)
      else Absent
  }

  /** The port and the file server agree on a message exactly when it is an insert or a clear, or a
      delete of an entry: not on any stat or relink. */
  lemma PortAgrees(s: St, m: Msg)
    ensures PortApply(s, m) == Apply(s, m)
       <==> s.Bad? || m.op.Oinsert? || m.op.Oclearb? || m.op.Oclobber? || (m.op.Odelete? && s.Has?)
  {
    if s.Has? && s.v.Dir? && m.op.Owstat? {
      Bumped(s.v.d, m.op.w);
    }
  }

  lemma Bumped(d: Xdir, w: Wstat)
    ensures StatUpdate(d, w).vers != PortStat(d, w).vers
  {
    assert (d.vers + 1) % 0x1_0000_0000 != d.vers;
  }

  /** A stat sets the same fields here; only the version and the qid type are left alone. */
  lemma PortStatSets(d: Xdir, w: Wstat)
    ensures PortStat(d, w) == StatUpdate(d, w).(vers := d.vers, qtype := d.qtype)
    ensures forall f: Field :: Get(PortStat(d, w), f) == if Sent(w, f).Some? then Sent(w, f).value else Get(d, f)
  {
    StatSets(d, w);
    forall f: Field ensures Get(PortStat(d, w), f) == Get(StatUpdate(d, w), f) {
      match f { case Size => case Mode => case Mtime => case Atime => case Uid => case Gid => case Muid => }
    }
  }

  /** What the port does where the two differ: a stat changes an entry and makes none; anything but an
      insert or a stat leaves no entry. */
  lemma PortObeys(s: St, m: Msg)
    requires s != Bad
    ensures m.op.Oinsert? ==> PortApply(s, m) == Has(m.op.v)
    ensures m.op.Owstat? && s.Has? && s.v.Dir? ==> PortApply(s, m) == Has(Dir(PortStat(s.v.d, m.op.w)))
    ensures m.op.Owstat? && (s.Absent? || !s.v.Dir?) ==> PortApply(s, m) == s
    ensures !m.op.Oinsert? && !m.op.Owstat? ==> PortApply(s, m) == Absent
  {
  }

  /** The port reads four bytes of flags where the file server writes one: of a message the file server
      wrote it takes the fourth byte for the flags. */
  lemma PortFlags(v: seq<Byte>, i: nat)
    requires |v| >= 4 && i < |FIELDS|
    ensures Flag(Unpack(v[..4]), i) <==> Flag(v[3], i)
  {
    hide Unpack, Flag, Bit;
    var x := Unpack(v[..3]);
    assert v[..4][..3] == v[..3];
    assert Unpack(v[..4]) == 256 * x + v[3] by { UnpackLast(v[..4]); }
    LowFlag(x, v[3], i);
  }

  lemma UnpackLast(b: seq<Byte>)
    requires b != []
    ensures Unpack(b) == 256 * Unpack(b[..|b| - 1]) + b[|b| - 1]
  {
  }

  lemma LowFlag(x: int, y: int, i: nat)
    requires i < |FIELDS|
    ensures Flag(256 * x + y, i) <==> Flag(y, i)
  {
    assert Bit(1) == 2 && Bit(2) == 4 && Bit(3) == 8;
    assert Bit(4) == 16 && Bit(5) == 32 && Bit(6) == 64;
    var b := Bit(i);
    var m := 128 / b;
    assert 2 * b * m == 256;
    assert 256 * x == b * (2 * (m * x)) by { assert 2 * b * m * x == b * (2 * (m * x)); }
    ShiftDiv(2 * (m * x), y, b);
    assert (2 * (m * x) + y / b) % 2 == (y / b) % 2;
  }

  lemma ShiftDiv(q: int, y: int, b: nat)
    requires b > 0
    ensures (b * q + y) / b == q + y / b
  {
    var n := b * q + y;
    assert n == b * (q + y / b) + y % b by { assert b * (q + y / b) == b * q + b * (y / b); }
    ModIs(n, b, q + y / b, y % b);
    var d := n / b - (q + y / b);
    assert b * d == b * (n / b) - b * (q + y / b) == 0;
    Multiple(b, d);
  }

  /** So a change of the last modifier to a user below 256 sets nothing. */
  lemma PortMisses(uid: Byte)
    ensures var v := StatBytes(Wstat(None, None, None, None, None, None, Some(uid)));
            |v| == 5 && Flag(v[0], 6) && forall i: nat :: i < |FIELDS| ==> !Flag(Unpack(v[..4]), i)
  {
    hide Flag, Unpack, Pack;
    var w := Wstat(None, None, None, None, None, None, Some(uid));
    var v := StatBytes(w);
    FlagsAre(w, 6);
    ValuesAre(w);
    assert v[1..] == Pack(uid, 4) && v[3] == Pack(uid, 4)[2];
    assert v[3] == 0 by { HighBytes(uid); }
    forall i: nat | i < |FIELDS| ensures !Flag(Unpack(v[..4]), i) {
      PortFlags(v, i);
      NoFlag(i);
    }
  }

  lemma NoFlag(i: nat)
    requires i < |FIELDS|
    ensures !Flag(0, i)
  {
    assert Bit(1) == 2 && Bit(2) == 4 && Bit(3) == 8;
    assert Bit(4) == 16 && Bit(5) == 32 && Bit(6) == 64;
  }

  lemma HighBytes(n: Byte)
    ensures Pack(n, 4) == [0, 0, 0, n]
  {
    assert Pack(n, 4) == Pack(0, 3) + [n];
    assert Pack(0, 3) == Pack(0, 2) + [0] && Pack(0, 2) == Pack(0, 1) + [0] && Pack(0, 1) == [0];
  }

  lemma ValuesAre(w: Wstat)
    requires w.muid.Some? && w == Wstat(None, None, None, None, None, None, w.muid)
    ensures StatBytes(w) == [Flags(w)] + Pack(w.muid.value, 4)
  {
    hide Pack, Flags;
    assert Values(w, 0) == Values(w, 1) == Values(w, 2) == Values(w, 3) == [];
    assert Values(w, 4) == Values(w, 5) == Values(w, 6) == [];
  }

  // ----- a batch -----

  ghost predicate DistinctKeys(ms: seq<Msg>) {
    forall i, j :: 0 <= i < j < |ms| ==> ms[i].k != ms[j].k
  }

  /** The messages of one key, oldest first. */
  function PortPlay(s: St, ms: seq<Msg>): St {
    if ms == [] then s else PortApply(PortPlay(s, ms[..|ms| - 1]), ms[|ms| - 1])
  }

  /** The map updated by the batch. */
  function After(vals: seq<Kvp>, ms: seq<Msg>, k: Key): St {
    PortPlay(Find(vals, k), Sel(ms, k))
  }

  ghost predicate StrictMsgs(ms: seq<Msg>) {
    forall i, j :: 0 <= i < j < |ms| ==> Rank(ms[i].k) < Rank(ms[j].k)
  }

  /** No key below or at what is behind is ahead. */
  ghost predicate Merging(vals: seq<Kvp>, i: nat, ms: seq<Msg>, j: nat, out: seq<Kvp>) {
    && i <= |vals| && j <= |ms| && SortedVals(out)
    && (forall x :: 0 <= x < |out| && i < |vals| ==> Rank(out[x].k) < Rank(vals[i].k))
    && (forall x :: 0 <= x < |out| && j < |ms| ==> Rank(out[x].k) < Rank(ms[j].k))
    && (forall x :: 0 <= x < i && j < |ms| ==> Rank(vals[x].k) < Rank(ms[j].k))
    && (forall x :: 0 <= x < j && i < |vals| ==> Rank(ms[x].k) < Rank(vals[i].k))
  }

  ghost predicate Built(vals: seq<Kvp>, i: nat, ms: seq<Msg>, j: nat, out: seq<Kvp>)
    requires i <= |vals| && j <= |ms|
  {
    forall k :: Find(out, k) == After(vals[..i], ms[..j], k)
  }

  lemma FindPush(vs: seq<Kvp>, e: Kvp, k: Key)
    ensures Find(vs + [e], k) == if e.k == k then Has(e.v) else Find(vs, k)
  {
    assert (vs + [e])[..|vs|] == vs;
  }

  lemma SelPush(ms: seq<Msg>, m: Msg, k: Key)
    ensures Sel(ms + [m], k) == Sel(ms, k) + if m.k == k then [m] else []
  {
    assert (ms + [m])[..|ms|] == ms;
  }

  lemma TakeMore<T>(s: seq<T>, i: nat)
    requires i < |s|
    ensures s[..i + 1] == s[..i] + [s[i]]
  {
  }

  lemma OneMsg(s: St, m: Msg)
    ensures PortPlay(s, [m]) == PortApply(s, m)
  {
    assert [m][..0] == [];
  }

  /** An entry no message is for is copied. */
  lemma CopyBuilt(vals: seq<Kvp>, i: nat, ms: seq<Msg>, j: nat, out: seq<Kvp>)
    requires i < |vals| && j <= |ms| && Built(vals, i, ms, j, out)
    requires forall x :: 0 <= x < j ==> ms[x].k != vals[i].k
    requires forall x :: 0 <= x < |out| ==> out[x].k != vals[i].k
    ensures Built(vals, i + 1, ms, j, out + [vals[i]])
  {
    hide Find, Sel;
    TakeMore(vals, i);
    SelNone(ms[..j], vals[i].k);
    forall k ensures Find(out + [vals[i]], k) == After(vals[..i + 1], ms[..j], k) {
      FindPush(out, vals[i], k);
      FindPush(vals[..i], vals[i], k);
      assert Find(out, k) == After(vals[..i], ms[..j], k);
    }
  }

  /** A message, with the entry it is for or without one, and what comes of it. */
  lemma MsgBuilt(vals: seq<Kvp>, i: nat, i': nat, ms: seq<Msg>, j: nat, out: seq<Kvp>, out': seq<Kvp>, s: St)
    requires i <= i' <= |vals| && j < |ms| && Built(vals, i, ms, j, out)
    requires if i' == i then s == Absent && forall x :: 0 <= x < i ==> vals[x].k != ms[j].k
             else i' == i + 1 && s == Has(vals[i].v) && vals[i].k == ms[j].k
    requires forall x :: 0 <= x < j ==> ms[x].k != ms[j].k
    requires forall x :: 0 <= x < |out| ==> out[x].k != ms[j].k
    requires match PortApply(s, ms[j]) { case Has(v) => out' == out + [Kvp(ms[j].k, v)] case _ => out' == out }
    ensures Built(vals, i', ms, j + 1, out')
  {
    hide Find, Sel, PortApply;
    TakeMore(ms, j);
    SelNone(ms[..j], ms[j].k);
    FindNone(out, ms[j].k);
    if i' == i { FindNone(vals[..i], ms[j].k); } else { TakeMore(vals, i); }
    PortNotBad(s, ms[j]);
    forall k ensures Find(out', k) == After(vals[..i'], ms[..j + 1], k) {
      SelPush(ms[..j], ms[j], k);
      OneMsg(s, ms[j]);
      assert Find(out, k) == After(vals[..i], ms[..j], k);
      if i' > i { FindPush(vals[..i], vals[i], k); }
      if out' != out { FindPush(out, out'[|out|], k); }
      if k == ms[j].k {
        assert [] + [ms[j]] == [ms[j]];
      } else {
        assert Sel(ms[..j], k) + [] == Sel(ms[..j], k);
      }
    }
  }

  lemma PortNotBad(s: St, m: Msg)
    requires s != Bad
    ensures PortApply(s, m) != Bad
  {
  }

  /** The merge loop. */
  method MergeLeaf(vals: seq<Kvp>, ms: seq<Msg>) returns (out: seq<Kvp>)
    requires SortedVals(vals) && StrictMsgs(ms)
    ensures SortedVals(out) && forall k :: Find(out, k) == After(vals, ms, k)
  {
    hide Rank, KeyCmpBody, Find, Sel, Built, Merging;
    out := [];
    var i, j := 0, 0;
    MergeStart(vals, ms);
    while i < |vals| || j < |ms|
      invariant i <= |vals| && j <= |ms| && Merging(vals, i, ms, j, out) && Built(vals, i, ms, j, out)
      decreases |vals| - i + |ms| - j
    {
      Parts(vals, i, ms, j, out);
      var cmp := if i < |vals| && j < |ms| then KeyCmp(vals[i].k, ms[j].k) else if i < |vals| then -1 else 1;
      if cmp < 0 {
        CopyBuilt(vals, i, ms, j, out);
        MergeNext(vals, i, i + 1, ms, j, j, out, out + [vals[i]]);
        out := out + [vals[i]];
        i := i + 1;
      } else if cmp == 0 {
        ghost var was := out;
        if ms[j].op.Oinsert? {
          out := out + [Kvp(ms[j].k, ms[j].op.v)];
        } else if ms[j].op.Owstat? {
          var v := vals[i].v;
          out := out + [Kvp(vals[i].k, if v.Dir? then Dir(PortStat(v.d, ms[j].op.w)) else v)];
        }
        MsgBuilt(vals, i, i + 1, ms, j, was, out, Has(vals[i].v));
        MergeNext(vals, i, i + 1, ms, j, j + 1, was, out);
        i := i + 1;
        j := j + 1;
      } else {
        ghost var was := out;
        if ms[j].op.Oinsert? {
          out := out + [Kvp(ms[j].k, ms[j].op.v)];
        }
        MsgBuilt(vals, i, i, ms, j, was, out, Absent);
        MergeNext(vals, i, i, ms, j, j + 1, was, out);
        j := j + 1;
      }
    }
    MergeDone(vals, i, ms, j, out);
  }

  lemma MergeStart(vals: seq<Kvp>, ms: seq<Msg>)
    ensures Merging(vals, 0, ms, 0, []) && Built(vals, 0, ms, 0, [])
  {
  }

  /** No key behind is the next key. */
  lemma Parts(vals: seq<Kvp>, i: nat, ms: seq<Msg>, j: nat, out: seq<Kvp>)
    requires SortedVals(vals) && StrictMsgs(ms) && Merging(vals, i, ms, j, out)
    ensures i < |vals| ==> forall x :: 0 <= x < j ==> ms[x].k != vals[i].k
    ensures i < |vals| ==> forall x :: 0 <= x < |out| ==> out[x].k != vals[i].k
    ensures j < |ms| ==> forall x :: 0 <= x < i ==> vals[x].k != ms[j].k
    ensures j < |ms| ==> forall x :: 0 <= x < |out| ==> out[x].k != ms[j].k
    ensures j < |ms| ==> forall x :: 0 <= x < j ==> ms[x].k != ms[j].k
  {
    hide Rank;
    if j < |ms| {
      forall x | 0 <= x < j ensures ms[x].k != ms[j].k {
        assert Rank(ms[x].k) < Rank(ms[j].k);
      }
    }
  }

  /** The next key goes behind those in the new leaf and before those still to come. */
  lemma MergeNext(vals: seq<Kvp>, i: nat, i': nat, ms: seq<Msg>, j: nat, j': nat, out: seq<Kvp>, out': seq<Kvp>)
    requires SortedVals(vals) && StrictMsgs(ms) && Merging(vals, i, ms, j, out)
    requires i <= i' <= i + 1 && i' <= |vals| && j <= j' <= j + 1 && j' <= |ms| && i' + j' > i + j
    requires i' > i && j' > j ==> vals[i].k == ms[j].k
    requires i' > i && j' == j && j < |ms| ==> Rank(vals[i].k) < Rank(ms[j].k)
    requires i' == i && j' > j && i < |vals| ==> Rank(ms[j].k) < Rank(vals[i].k)
    requires out' == out || (|out'| == |out| + 1 && out'[..|out|] == out
              && out'[|out|].k == if i' > i then vals[i].k else ms[j].k)
    ensures Merging(vals, i', ms, j', out')
  {
    hide Rank;
    var y := if i' > i then vals[i].k else ms[j].k;
    if i' < |vals| {
      assert Rank(y) < Rank(vals[i'].k);
      if i' > i { assert Rank(vals[i].k) < Rank(vals[i'].k); }
    }
    if j' < |ms| {
      assert Rank(y) < Rank(ms[j'].k) by { if j' > j { assert Rank(ms[j].k) < Rank(ms[j'].k); } }
    }
    forall x | 0 <= x < |out'| ensures x < |out| ==> out'[x] == out[x] {
      if x < |out| { assert out'[..|out|][x] == out'[x]; }
    }
  }

  lemma MergeDone(vals: seq<Kvp>, i: nat, ms: seq<Msg>, j: nat, out: seq<Kvp>)
    requires i == |vals| && j == |ms| && Merging(vals, i, ms, j, out) && Built(vals, i, ms, j, out)
    ensures SortedVals(out) && forall k :: Find(out, k) == After(vals, ms, k)
  {
    hide Rank, Find, Sel;
    assert vals[..i] == vals && ms[..j] == ms;
  }

  // ----- the upsert -----

  lemma SortedStrict(ms: seq<Msg>, was: seq<Msg>)
    requires SortedMsgs(ms) && SameByKey(ms, was) && DistinctKeys(was)
    ensures StrictMsgs(ms)
  {
    hide Rank, Sel;
    forall i, j | 0 <= i < j < |ms| ensures Rank(ms[i].k) < Rank(ms[j].k) {
      SelOne(was, ms[i].k);
      assert Sel(ms, ms[i].k) == Sel(was, ms[i].k);
      if Rank(ms[i].k) == Rank(ms[j].k) {
        RankInjective(ms[i].k, ms[j].k);
        SelTwo(ms, i, j);
      }
    }
  }

  /** Two messages of a key are two in its selection. */
  lemma {:induction false} SelTwo(ms: seq<Msg>, i: nat, j: nat)
    requires i < j < |ms| && ms[i].k == ms[j].k
    ensures |Sel(ms, ms[i].k)| >= 2
  {
    var n := |ms| - 1;
    if j < n {
      SelTwo(ms[..n], i, j);
    } else {
      SelHas(ms[..n], i);
    }
  }

  lemma {:induction false} SelHas(ms: seq<Msg>, i: nat)
    requires i < |ms|
    ensures ms[i] in Sel(ms, ms[i].k)
  {
    if i < |ms| - 1 {
      SelHas(ms[..|ms| - 1], i);
    }
  }

  lemma {:induction false} SelOne(ms: seq<Msg>, k: Key)
    requires DistinctKeys(ms)
    ensures |Sel(ms, k)| <= 1 && forall m :: m in Sel(ms, k) ==> m in ms && m.k == k
  {
    if ms != [] {
      var n := |ms| - 1;
      SelOne(ms[..n], k);
      if ms[n].k == k {
        SelNone(ms[..n], k);
      }
    }
  }

  /** gefs_btupsert, on a sorted root leaf and messages of different keys: a strictly sorted leaf that
      is the old map updated by the batch. */
  method GefsBtUpsert(vals: seq<Kvp>, msgs: array<Msg>) returns (out: seq<Kvp>)
    requires SortedVals(vals) && DistinctKeys(msgs[..])
    modifies msgs
    ensures SortedVals(out) && forall k :: Find(out, k) == After(vals, old(msgs[..]), k)
  {
    hide Rank, Find, Sel;
    ghost var was := msgs[..];
    StableSort(msgs);
    SortedStrict(msgs[..], was);
    out := MergeLeaf(vals, msgs[..]);
    forall k ensures After(vals, msgs[..], k) == After(vals, was, k) {
      assert Sel(msgs[..], k) == Sel(was, k);
    }
  }

  /** The order of submission does not matter. */
  lemma OrderFree(vals: seq<Kvp>, a: seq<Msg>, b: seq<Msg>, x: seq<Kvp>, y: seq<Kvp>)
    requires DistinctKeys(a) && DistinctKeys(b) && multiset(a) == multiset(b)
    requires SortedVals(x) && forall k :: Find(x, k) == After(vals, a, k)
    requires SortedVals(y) && forall k :: Find(y, k) == After(vals, b, k)
    ensures x == y
  {
    hide Rank, Find, Sel;
    forall k ensures Find(x, k) == Find(y, k) {
      SelPerm(a, b, k);
      SelPerm(b, a, k);
      SelOne(a, k);
      SelOne(b, k);
      if Sel(a, k) != [] { assert Sel(a, k)[0] in Sel(b, k); }
      if Sel(b, k) != [] { assert Sel(b, k)[0] in Sel(a, k); }
      assert Sel(a, k) == Sel(b, k);
    }
    LeafUnique(x, y);
  }

  lemma SelPerm(a: seq<Msg>, b: seq<Msg>, k: Key)
    requires DistinctKeys(a) && multiset(a) == multiset(b)
    ensures forall m :: m in Sel(a, k) ==> m in Sel(b, k)
  {
    hide Sel;
    SelOne(a, k);
    forall m | m in Sel(a, k) ensures m in Sel(b, k) {
      assert m in multiset(a);
      assert m in multiset(b);
      var i :| 0 <= i < |b| && b[i] == m;
      SelHas(b, i);
    }
  }

  /** A strictly sorted leaf is determined by its map. */
  lemma {:induction false} LeafUnique(a: seq<Kvp>, b: seq<Kvp>)
    requires SortedVals(a) && SortedVals(b) && forall k :: Find(a, k) == Find(b, k)
    ensures a == b
  {
    hide Rank;
    if a == [] || b == [] {
      if a != [] { LastFound(a); }
      if b != [] { LastFound(b); }
    } else {
      var m, n := |a| - 1, |b| - 1;
      LastHigh(a, b);
      LastHigh(b, a);
      RankInjective(a[m].k, b[n].k);
      assert Find(a, a[m].k) == Has(a[m].v) && Find(b, b[n].k) == Has(b[n].v);
      forall k ensures Find(a[..m], k) == Find(b[..n], k) {
        if k == a[m].k {
          forall v | v in a[..m] ensures v.k != k {
            assert Rank(v.k) < Rank(k);
          }
          forall v | v in b[..n] ensures v.k != k {
            assert Rank(v.k) < Rank(k);
          }
          FindNone(a[..m], k);
          FindNone(b[..n], k);
        } else {
          assert Find(a, k) == Find(b, k);
        }
      }
      LeafUnique(a[..m], b[..n]);
      assert a == a[..m] + [a[m]] && b == b[..n] + [b[n]];
    }
  }

  lemma LastHigh(a: seq<Kvp>, b: seq<Kvp>)
    requires a != [] && b != [] && SortedVals(b) && forall k :: Find(a, k) == Find(b, k)
    ensures Rank(a[|a| - 1].k) <= Rank(b[|b| - 1].k)
  {
    hide Rank, Find;
    LastFound(a);
    var i := FindIn(b, a[|a| - 1].k);
    if i < |b| - 1 { assert Rank(b[i].k) < Rank(b[|b| - 1].k); }
  }

  lemma LastFound(a: seq<Kvp>)
    requires a != []
    ensures Find(a, a[|a| - 1].k) == Has(a[|a| - 1].v)
  {
  }

  lemma {:induction false} FindIn(vs: seq<Kvp>, k: Key) returns (i: nat)
    requires Find(vs, k) != Absent
    ensures i < |vs| && vs[i].k == k
  {
    i := |vs| - 1;
    if vs[i].k != k {
      i := FindIn(vs[..|vs| - 1], k);
    }
  }
}
