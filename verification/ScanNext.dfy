/** The scan itself: btnext's loops, and a whole scan by prefix (src/tree.c). */
module ScanNext {
  import opened Dat
  import opened Keys
  import opened Messages
  import opened Nodes
  import opened LeafMerge
  import opened Lookup
  import opened ScanPath
  import opened Scanning
  import opened ScanSteps

  /** The value bytes of a message, whatever its operation. */
  function Payload(op: Op): Value { if op.Oinsert? then op.v else Raw([]) }

  /** What btnext needs of the pending messages from a key on: none of them aborts, and the lowest of
      each key that has no entry is an insert. */
  ghost predicate Scannable(root: Node, c: Key) {
    forall y :: Rank(c) <= Rank(y) ==> Starts(root, y) && View(root, y) != Bad
  }

  lemma ScannableFrom(root: Node, c: Key, c': Key)
    requires Scannable(root, c) && Rank(c) <= Rank(c')
    ensures Scannable(root, c')
  {
    hide Rank, Starts, View;
  }

  /** The entries of a tree are where its view has a value. */
  ghost predicate NoEntry(root: Node, z: Key) { View(root, z) == Absent }

  class Scan {
    const root: Node
    const ht: nat
    const pfx: Key
    var k: Key
    var first: bool
    var donescan: bool
    var path: seq<Scanp>
    ghost var r: seq<Span>
    ghost var c: Key

    /** btnewscan. */
    constructor (root: Node, ht: nat, pfx: Key)
      ensures this.root == root && this.ht == ht && this.pfx == pfx && k == pfx && first && !donescan
    {
      this.root, this.ht, this.pfx := root, ht, pfx;
      k, first, donescan, path := pfx, true, false, [];
      r, c := [], [];
    }

    ghost predicate Standing()
      reads this
    {
      && Inv(root, ht, 0.0, 1.0) && |path| == ht && PathOk(root, path, r, c) && Rank(pfx) <= Rank(c)
      && (forall j: nat :: j < ht ==> Loaded(path, j))
    }

    /** btenter: the scan stands at the prefix, or behind the key it returned last. */
    method BtEnter()
      requires Inv(root, ht, 0.0, 1.0) && !donescan && Rank(pfx) <= Rank(CutOf(k, first))
      modifies this
      ensures Standing() && !first && k == old(k) && !donescan && c == CutOf(k, old(first))
    {
      hide Inv, PathOk, Rank, CutOf;
      var p;
      p, r := Enter(root, ht, k, first);
      path := p;
      c := CutOf(k, first);
      first := false;
    }

    /** The blocks that are used up are let go; start is the first level to load again. */
    method Unload() returns (more: bool, start: nat)
      requires Standing()
      modifies this`path
      ensures PathOk(root, path, r, c) && |path| == ht
      ensures !more ==> Spent(root, c) && forall j: nat :: j < ht ==> Loaded(path, j)
      ensures more ==> 0 < start <= ht && path[start - 1].b.Some? && !Gone(path[start - 1])
      ensures more ==> LevelOk(path, r, start - 1, c)
      ensures more ==> forall j :: start <= j < ht ==> path[j] == NoScanp
      ensures more ==> forall j: nat :: j < start - 1 ==> Loaded(path, j)
    {
      hide Inv, Rank, LevelOk, Loaded, Gone, Spent;
      start := ht;
      var i := ht - 1;
      RootIs(path);
      while true
        invariant 0 <= i < ht == |path| && start == i + 1
        invariant PathOk(root, path, r, c)
        invariant forall j :: i < j < ht ==> path[j] == NoScanp
        invariant forall j: nat :: j < i ==> Loaded(path, j)
        decreases i
      {
        if path[i].b.Some? && (path[i].vi < Nval(path[i].b.value)
            || (path[i].b.value.Pivot? && path[i].bi < |path[i].b.value.buf|)) {
          NotGone(path[i]);
          LevelAt(root, path, r, c, i);
          return true, start;
        }
        IsGone(path[i]);
        if i == 0 {
          LevelAt(root, path, r, c, 0);
          Exhausted(path, r, 0, c);
          GoneLoaded(path);
          return false, start;
        }
        DropOk(root, path, r, c, i);
        path := path[i := NoScanp];
        path := path[i - 1 := path[i - 1].(vi := path[i - 1].vi + 1)];
        start := i;
        i := i - 1;
      }
    }

    lemma RootIs(p: seq<Scanp>)
      requires PathOk(root, p, r, c)
      ensures |p| > 0 && p[0].b == Some(root)
    {
    }

    /** The path down from the position is loaded again, if there is one. */
    method Load(start: nat)
      requires PathOk(root, path, r, c) && |path| == ht && 0 < start <= ht && path[start - 1].b.Some?
                && !Gone(path[start - 1])
      requires forall j :: start <= j < ht ==> path[j] == NoScanp
      requires forall j: nat :: j < start - 1 ==> Loaded(path, j)
      modifies this`path, this`r
      ensures PathOk(root, path, r, c) && |path| == ht && forall j: nat :: j < ht ==> Loaded(path, j)
      ensures path[start - 1] == old(path[start - 1])
      ensures old(path[start - 1].vi < Nval(path[start - 1].b.value)) ==> LeafNext(path)
      ensures old(path[start - 1].vi >= Nval(path[start - 1].b.value)) ==> path == old(path)
    {
      hide Inv, Rank, LevelOk, Spent;
      LevelAt(root, path, r, c, start - 1);
      AtBottom(path, r, start - 1, c);
      if path[start - 1].vi < Nval(path[start - 1].b.value) {
        var i := start;
        while i < ht
          invariant start <= i <= ht == |path| && PathOk(root, path, r, c)
          invariant forall j :: i <= j < ht ==> path[j] == NoScanp
          invariant path[i - 1].b.Some? && path[i - 1].vi < Nval(path[i - 1].b.value)
          invariant path[i - 1].b.value.Pivot? <==> i < ht
          invariant forall j: nat :: j < i - 1 ==> Loaded(path, j)
          invariant path[start - 1] == old(path[start - 1])
        {
          LoadOk(root, path, r, c, i);
          r := r[i := SpanAt(path, r, i)];
          path := path[i := Scanp(Some(path[i - 1].b.value.kids[path[i - 1].vi].n), 0, 0)];
          i := i + 1;
        }
      }
    }

    /** The least key along the path: the leaf's next value, or a message below it. An upper level is
        taken only when it is strictly less, so the source is the lowest level that has the key. */
    method Least(start: nat) returns (y: Key, v: Value, bufsrc: int)
      requires Scannable(root, c) && PathOk(root, path, r, c) && |path| == ht
      requires forall j: nat :: j < ht ==> Loaded(path, j)
      requires 0 < start <= ht && path[start - 1].b.Some?
      requires LeafNext(path)
                || (OnlyBuf(path[start - 1]) && start < ht && forall j :: start <= j < ht ==> path[j] == NoScanp)
      requires path[start - 1].vi < Nval(path[start - 1].b.value) <==> LeafNext(path)
      ensures Rank(c) <= Rank(y)
      ensures forall j: nat {:trigger Chosen(path, r, j, c, y)} :: j < ht ==> Chosen(path, r, j, c, y)
      ensures Source(path, bufsrc, y, v)
    {
      hide Inv, Rank, LevelOk, Loaded, Scannable, Source, KeyCmpBody;
      RootIs(path);
      var p := path;
      ghost var d := ht - 1;
      if p[start - 1].vi < Nval(p[start - 1].b.value) {
        var e := p[ht - 1].b.value.vals[p[ht - 1].vi];
        y, v, bufsrc := e.k, e.v, -1;
        LeafBase(root, p, r, c);
      } else {
        d := start - 1;
        var m := p[start - 1].b.value.buf[p[start - 1].bi];
        BufBase(root, p, r, c, start - 1);
        assert m.op.Oinsert?;
        y, v, bufsrc := m.k, m.op.v, start - 1;
      }
      ghost var y0 := y;
      var i := ht - 1;
      while i > 0
        invariant 0 <= i < ht && Rank(c) <= Rank(y) <= Rank(y0) && Source(p, bufsrc, y, v)
        invariant forall j: nat :: i <= j < ht ==> Ahead(p, j, y)
      {
        i := i - 1;
        LevelAt(root, p, r, c, i);
        PivotHere(p, r, i, c);
        if p[i].b.None? || p[i].bi == |p[i].b.value.buf| {
          continue;
        }
        var n := p[i].b.value.buf[p[i].bi];
        if KeyCmp(n.k, y) < 0 {
          Lower(p, i, n.k, y);
          BufSource(p, i);
          bufsrc := i;
          y, v := n.k, Payload(n.op);
        }
      }
      forall j: nat | j < ht ensures Chosen(p, r, j, c, y) {
        LevelAt(root, p, r, c, j);
        WithinAll(root, p, r, c, d, y0, j);
      }
    }

    /** All messages of the key along the path are applied, from the lowest up, and passed. */
    method Consume(y: Key, v0: Value, bufsrc: int) returns (ok: bool, v: Value)
      requires Scannable(root, c) && PathOk(root, path, r, c) && |path| == ht && Rank(c) <= Rank(y)
      requires forall j: nat {:trigger Chosen(path, r, j, c, y)} :: j < ht ==> Chosen(path, r, j, c, y)
      requires Source(path, bufsrc, y, v0)
      modifies this`path
      ensures |path| == ht && Live(ok, v) == View(root, y)
      ensures forall j: nat {:trigger Passed(old(path), path, j, y)} :: j < ht ==> Passed(old(path), path, j, y)
    {
      hide Inv, Rank, LevelOk, Chosen, Passed, Want, Down, Scannable, Source, View, Play, Sel, CutBuf, CutVals;
      ghost var p := path;
      RootIs(p);
      SourceParts(p, bufsrc, y, v0);
      ok, v := true, v0;
      if bufsrc == -1 {
        path := path[ht - 1 := path[ht - 1].(vi := path[ht - 1].vi + 1)];
      } else {
        path := path[bufsrc := path[bufsrc].(bi := path[bufsrc].bi + 1)];
      }
      WantBottom(root, p, r, c, y, v0, bufsrc);
      PassBottom(root, p, path, r, c, y, v0, bufsrc);
      var i := ht - 1;
      while i > 0
        invariant 0 <= i < ht == |path|
        invariant forall j: nat {:trigger Passed(p, path, j, y)} :: i <= j < ht ==> Passed(p, path, j, y)
        invariant forall j: nat :: j < i ==> path[j] == if j == bufsrc then p[j].(bi := p[j].bi + 1) else p[j]
        invariant Live(ok, v) == Want(p, i, bufsrc, y, v0)
      {
        i := i - 1;
        if path[i].b.None? {
          SkipLevel(root, p, r, c, y, v0, bufsrc, i);
          PassNone(p, path, i, y);
          continue;
        }
        assert Chosen(p, r, i, c, y);
        LevelPlan(root, p, r, c, y, v0, bufsrc, i);
        var buf := path[i].b.value.buf;
        ghost var s0 := Base(p, i, bufsrc, y, v0);
        RunStart(buf, p[i].bi, path[i].bi, s0, ok, v, y);
        var bi;
        ok, v, bi := ApplyRun(buf, p[i].bi, path[i].bi, y, ok, v, s0);
        ghost var q := path;
        path := path[i := path[i].(bi := bi)];
        PassPivot(p, path, i, y);
        forall j: nat | i < j < ht ensures Passed(p, path, j, y) {
          assert Passed(p, q, j, y);
          PassSame(p, q, path, j, y);
        }
      }
      WantTop(root, p, bufsrc, y, v0);
    }

    /** Nothing at or behind the cut has the prefix and an entry. */
    ghost predicate Finished()
      reads this
    {
      forall z :: Rank(c) <= Rank(z) && HasPrefix(z, pfx) ==> NoEntry(root, z)
    }

    /** btnext: the first entry at or behind the cut, if it has the prefix; entries that turn out to be
        deleted are passed over. */
    method BtNext() returns (res: Option<Kvp>)
      requires Standing() && Scannable(root, pfx) && (donescan ==> Finished())
      modifies this
      ensures Standing() && first == old(first) && (donescan ==> Finished()) && Rank(old(c)) <= Rank(c)
      ensures res.None? ==> donescan && forall z :: Rank(old(c)) <= Rank(z) && HasPrefix(z, pfx) ==> NoEntry(root, z)
      ensures res.Some? ==> HasPrefix(res.value.k, pfx) && Rank(old(c)) <= Rank(res.value.k)
      ensures res.Some? ==> View(root, res.value.k) == Has(res.value.v)
      ensures res.Some? ==> !donescan && k == res.value.k && c == CutOf(k, false)
      ensures res.Some? ==> forall z :: Rank(old(c)) <= Rank(z) < Rank(res.value.k) ==> NoEntry(root, z)
    {
      hide Inv, Rank, PathOk, Scannable, Chosen, Source, Spent, Loaded, Gone, Passed, NoEntry, HasPrefix, Rest, View,
          LeafNext;
      if donescan {
        return None;
      }
      while true
        invariant Standing() && !donescan && Rank(old(c)) <= Rank(c) && first == old(first)
        invariant forall z :: Rank(old(c)) <= Rank(z) < Rank(c) ==> NoEntry(root, z)
        decreases |Rest(root, c)|
      {
        ScannableFrom(root, pfx, c);
        var more, start := Unload();
        if !more {
          SpentNone(root, c);
          donescan := true;
          return None;
        }
        ghost var q, t := path, r;
        Load(start);
        LoadReady(q, path, t, start, c);
        var y, v, bufsrc := Least(start);
        NoneBefore(root, path, r, c, y);
        if !HasPrefix(y, pfx) {
          BehindPrefix(pfx, y);
          donescan := true;
          return None;
        }
        SourceKey(root, path, r, c, y, v, bufsrc);
        ghost var p := path;
        var ok;
        ok, v := Consume(y, v, bufsrc);
        PassOk(root, p, path, r, c, y);
        RestLess(root, c, y);
        Successor(y, y);
        k := y;
        c := y + [0];
        EntryOrNone(root, y, Live(ok, v));
        if ok {
          return Some(Kvp(y, v));
        }
        StepUp(root, y);
      }
    }
  }

  lemma EntryOrNone(root: Node, y: Key, s: St)
    requires s == View(root, y)
    ensures s == Absent ==> NoEntry(root, y)
  {
  }

  /** Below the successor of a key is the key itself and what is below it. */
  lemma StepUp(root: Node, y: Key)
    requires NoEntry(root, y)
    ensures forall z :: Rank(z) < Rank(y + [0]) && !(Rank(z) < Rank(y)) ==> NoEntry(root, z)
  {
    hide Rank, NoEntry;
    forall z | Rank(z) < Rank(y + [0]) && !(Rank(z) < Rank(y)) ensures NoEntry(root, z) {
      Successor(y, z);
      RankInjective(y, z);
    }
  }

  lemma SpentNone(root: Node, c: Key)
    requires Spent(root, c)
    ensures forall z :: Rank(c) <= Rank(z) ==> NoEntry(root, z)
  {
    hide Rank, Appears, View;
    forall z | Rank(c) <= Rank(z) ensures NoEntry(root, z) {
      NotThere(root, z);
    }
  }

  lemma LoadReady(q: seq<Scanp>, p: seq<Scanp>, r: seq<Span>, start: nat, c: Key)
    requires 0 < start <= |q| == |p| == |r| && q[start - 1].b.Some? && !Gone(q[start - 1])
              && p[start - 1] == q[start - 1]
    requires LevelOk(q, r, start - 1, c) && forall j :: start <= j < |q| ==> q[j] == NoScanp
    requires q[start - 1].vi < Nval(q[start - 1].b.value) ==> LeafNext(p)
    requires q[start - 1].vi >= Nval(q[start - 1].b.value) ==> p == q
    ensures p[start - 1].vi < Nval(p[start - 1].b.value) <==> LeafNext(p)
    ensures LeafNext(p) || (OnlyBuf(p[start - 1]) && start < |p| && forall j :: start <= j < |p| ==> p[j] == NoScanp)
  {
    hide Rank, Inv;
    if q[start - 1].vi >= Nval(q[start - 1].b.value) {
      assert p[start - 1].b.value.Pivot?;
      assert p[|p| - 1] == NoScanp;
    }
  }

  /** Nothing has an entry between the cut and the key chosen. */
  lemma NoneBefore(root: Node, p: seq<Scanp>, r: seq<Span>, c: Key, y: Key)
    requires PathOk(root, p, r, c)
    requires forall j: nat {:trigger Chosen(p, r, j, c, y)} :: j < |p| ==> Chosen(p, r, j, c, y)
    ensures forall z :: Rank(c) <= Rank(z) < Rank(y) ==> NoEntry(root, z)
  {
    hide Rank, LevelOk, Loaded, Ahead, Appears, View;
    forall z | Rank(c) <= Rank(z) < Rank(y) ensures NoEntry(root, z) {
      forall j: nat | j < |p| ensures Ready(p, r, j, c, y, z) {
        assert Chosen(p, r, j, c, y);
      }
      Before(p, r, 0, c, y, z);
      NotThere(root, z);
    }
  }

  /** Behind a key that has not the prefix none has it. */
  lemma BehindPrefix(pfx: Key, y: Key)
    requires Rank(pfx) <= Rank(y) && !HasPrefix(y, pfx)
    ensures forall z :: Rank(y) <= Rank(z) ==> !HasPrefix(z, pfx)
  {
    hide Rank, HasPrefix;
    forall z | Rank(y) <= Rank(z) ensures !HasPrefix(z, pfx) {
      if HasPrefix(z, pfx) { PrefixRun(pfx, y, z); }
    }
  }

  lemma SourceKey(root: Node, p: seq<Scanp>, r: seq<Span>, c: Key, y: Key, v: Value, bufsrc: int)
    requires PathOk(root, p, r, c) && Rank(c) <= Rank(y) && Source(p, bufsrc, y, v)
    requires forall j: nat {:trigger Chosen(p, r, j, c, y)} :: j < |p| ==> Chosen(p, r, j, c, y)
    ensures y in AllKeys(root)
  {
    hide Rank, Inv, LevelOk, Ahead, AllKeys;
    WithinOf(p, r, c, y);
    AppearsUp(p, r, c, y, if bufsrc == -1 then |p| - 1 else bufsrc);
    AppearsKey(root, y);
  }

  /** The state of the key once the levels from i down have been applied: until its source is
      reached, what was copied from there. */
  ghost function Want(p: seq<Scanp>, i: nat, bufsrc: int, y: Key, v0: Value): St {
    if bufsrc == -1 || i <= bufsrc then Down(p, i, y) else Has(v0)
  }

  ghost function Base(p: seq<Scanp>, i: nat, bufsrc: int, y: Key, v0: Value): St {
    if i == bufsrc then Absent else Want(p, i + 1, bufsrc, y, v0)
  }

  /** The messages of the key in one buffer, from bi on. */
  method ApplyRun(buf: seq<Msg>, ghost a: nat, bi0: nat, y: Key, ok0: bool, v0: Value, ghost s0: St)
    returns (ok: bool, v: Value, bi: nat)
    requires SortedMsgs(buf) && CutBuf(buf, a, y) && Play(s0, Sel(buf, y)) != Bad
    requires bi0 == a || (bi0 == a + 1 <= |buf| && buf[a].k == y)
    requires Live(ok0, v0) == Play(s0, buf[a..bi0])
    ensures Live(ok, v) == Play(s0, Sel(buf, y)) && CutBuf(buf, bi, y + [0])
  {
    hide Rank, Apply, ApplyKv, SortedMsgs, Sel, KeyCmpBody, CutBuf, Play;
    ghost var e := RunFrom(buf, a, y);
    ghost var run := buf[a..e];
    ok, v, bi := ok0, v0, bi0;
    CutSize(buf, a, y);
    while bi < |buf|
      invariant a <= bi <= e
      invariant Live(ok, v) == Play(s0, buf[a..bi])
    {
      if KeyCmp(y, buf[bi].k) != 0 {
        break;
      }
      BeforeEnd(buf, a, e, bi, y);
      SliceTake(buf, a, e, bi);
      SliceTake(buf, a, e, bi + 1);
      PlayStep(s0, run, bi - a);
      ApplyKvIs(ok, v, buf[bi]);
      var t := ApplyKv(v, buf[bi].op);
      ok, v := t.0, t.1;
      bi := bi + 1;
    }
  }

  lemma SliceTake(buf: seq<Msg>, a: nat, e: nat, i: nat)
    requires a <= i <= e <= |buf|
    ensures buf[a..e][..i - a] == buf[a..i]
  {
  }

  lemma CutSize(buf: seq<Msg>, a: nat, y: Key)
    requires CutBuf(buf, a, y)
    ensures a <= |buf|
  {
  }

  lemma BeforeEnd(buf: seq<Msg>, a: nat, e: nat, i: nat, y: Key)
    requires a <= i <= e <= |buf| && i < |buf| && buf[i].k == y && CutBuf(buf, e, y + [0])
    ensures i < e
  {
    Successor(y, buf[i].k);
  }

  lemma SourceParts(p: seq<Scanp>, bufsrc: int, y: Key, v: Value)
    requires Source(p, bufsrc, y, v)
    ensures -1 <= bufsrc < |p| - 1 || bufsrc == -1
    ensures p != []
    ensures bufsrc == -1 ==> p[|p| - 1].b.Some? && p[|p| - 1].b.value.Leaf?
    ensures bufsrc >= 0 ==> bufsrc + 1 < |p| && p[bufsrc].b.Some?
  {
  }

  lemma RunStart(buf: seq<Msg>, a: nat, bi: nat, s0: St, ok: bool, v: Value, y: Key)
    requires a <= |buf| && (bi == a || (bi == a + 1 && a < |buf|))
    requires bi == a ==> Live(ok, v) == s0
    requires bi == a + 1 ==> Live(ok, v) == Apply(s0, buf[a])
    ensures Live(ok, v) == Play(s0, buf[a..bi])
  {
    if bi == a + 1 {
      assert buf[a..bi] == [buf[a]] && [buf[a]][..0] == [];
    }
  }

  lemma WantTop(root: Node, p: seq<Scanp>, bufsrc: int, y: Key, v0: Value)
    requires p != [] && p[0].b == Some(root) && bufsrc >= -1
    ensures Want(p, 0, bufsrc, y, v0) == View(root, y)
  {
  }

  lemma WantBottom(root: Node, p: seq<Scanp>, r: seq<Span>, c: Key, y: Key, v0: Value, bufsrc: int)
    requires PathOk(root, p, r, c) && Source(p, bufsrc, y, v0)
    ensures Want(p, |p| - 1, bufsrc, y, v0) == Has(v0)
  {
    hide Rank, Inv;
    if bufsrc == -1 {
      LevelAt(root, p, r, c, |p| - 1);
      var n := p[|p| - 1].b.value;
      LeafParts(n, 1, r[|p| - 1].lo, r[|p| - 1].hi);
      FindAt(n.vals, p[|p| - 1].vi);
    }
  }

  /** The lowest level is passed by taking its value, if it is the source. */
  lemma PassBottom(root: Node, p: seq<Scanp>, q: seq<Scanp>, r: seq<Span>, c: Key, y: Key, v0: Value, bufsrc: int)
    requires PathOk(root, p, r, c) && Source(p, bufsrc, y, v0) && |q| == |p| && Rank(c) <= Rank(y)
    requires Chosen(p, r, |p| - 1, c, y)
    requires bufsrc == -1 ==> q[|p| - 1] == p[|p| - 1].(vi := p[|p| - 1].vi + 1)
    requires bufsrc >= 0 ==> q[|p| - 1] == p[|p| - 1]
    ensures Passed(p, q, |p| - 1, y)
  {
    hide Rank, Inv;
    var d := |p| - 1;
    Successor(y, y);
    if p[d].b.Some? {
      var n := p[d].b.value;
      LeafParts(n, 1, r[d].lo, r[d].hi);
      forall j | 0 <= j < |n.vals|
        ensures if j < q[d].vi then Rank(n.vals[j].k) < Rank(y + [0]) else Rank(y + [0]) <= Rank(n.vals[j].k)
      {
        Successor(y, n.vals[j].k);
        if bufsrc >= 0 { assert Beyond(p, d, y); }
        if j > p[d].vi { assert Rank(n.vals[p[d].vi].k) < Rank(n.vals[j].k); }
      }
    }
  }

  lemma PassNone(p: seq<Scanp>, q: seq<Scanp>, i: nat, y: Key)
    requires i < |p| == |q| && p[i].b.None? && q[i] == p[i]
    ensures Passed(p, q, i, y)
  {
  }

  lemma PassPivot(p: seq<Scanp>, q: seq<Scanp>, i: nat, y: Key)
    requires i < |p| == |q| && p[i].b.Some? && p[i].b.value.Pivot? && q[i].b == p[i].b && q[i].vi == p[i].vi
    requires CutBuf(p[i].b.value.buf, q[i].bi, y + [0])
    ensures Passed(p, q, i, y)
  {
  }

  lemma PassSame(p: seq<Scanp>, q: seq<Scanp>, q': seq<Scanp>, i: nat, y: Key)
    requires i < |p| == |q| == |q'| && Passed(p, q, i, y) && q'[i] == q[i]
    ensures Passed(p, q', i, y)
  {
  }

  /** Above a block that is not loaded nothing is the source, so nothing has been reached yet. */
  lemma SkipLevel(root: Node, p: seq<Scanp>, r: seq<Span>, c: Key, y: Key, v0: Value, bufsrc: int, i: nat)
    requires PathOk(root, p, r, c) && Source(p, bufsrc, y, v0) && i + 1 < |p| && p[i].b.None?
    ensures Want(p, i, bufsrc, y, v0) == Want(p, i + 1, bufsrc, y, v0)
  {
    hide Rank, LevelOk;
    if bufsrc == -1 {
      HiAt(root, p, r, c, i, |p| - 1);
    } else if i <= bufsrc {
      HiAt(root, p, r, c, i, bufsrc);
    }
  }

  lemma {:induction false} NoBadDown(root: Node, p: seq<Scanp>, r: seq<Span>, c: Key, y: Key, i: nat)
    requires View(root, y) != Bad && PathOk(root, p, r, c) && Rank(c) <= Rank(y) && i < |p|
    requires forall j: nat {:trigger Chosen(p, r, j, c, y)} :: j < |p| ==> Chosen(p, r, j, c, y)
    ensures Down(p, i, y) != Bad
  {
    hide Rank, Inv, CutKids, CutBuf, CutVals, Ahead;
    if i > 0 {
      NoBadDown(root, p, r, c, y, i - 1);
      if p[i].b.Some? {
        assert Chosen(p, r, i - 1, c, y) && Chosen(p, r, i, c, y);
        LevelKids(p, r, i - 1, c, y);
        if Down(p, i, y) == Bad { PlayBad(Sel(p[i - 1].b.value.buf, y)); }
      }
    }
  }

  /** What applying the messages of one level comes to. */
  lemma LevelPlan(root: Node, p: seq<Scanp>, r: seq<Span>, c: Key, y: Key, v0: Value, bufsrc: int, i: nat)
    requires Scannable(root, c) && PathOk(root, p, r, c) && Rank(c) <= Rank(y) && i + 1 < |p| && p[i].b.Some?
    requires forall j: nat {:trigger Chosen(p, r, j, c, y)} :: j < |p| ==> Chosen(p, r, j, c, y)
    requires Source(p, bufsrc, y, v0)
    ensures p[i].b.value.Pivot? && SortedMsgs(p[i].b.value.buf) && CutBuf(p[i].b.value.buf, p[i].bi, y)
    ensures Play(Base(p, i, bufsrc, y, v0), Sel(p[i].b.value.buf, y)) == Want(p, i, bufsrc, y, v0) != Bad
    ensures i == bufsrc ==> p[i].bi < |p[i].b.value.buf| && p[i].b.value.buf[p[i].bi].k == y
                            && Apply(Absent, p[i].b.value.buf[p[i].bi]) == Has(v0) == Want(p, i + 1, bufsrc, y, v0)
    ensures i != bufsrc ==> Base(p, i, bufsrc, y, v0) == Want(p, i + 1, bufsrc, y, v0)
    ensures p[i].bi <= |p[i].b.value.buf|
  {
    hide Rank, Inv, CutKids, CutVals, KidsView, KidsAppear, Starts;
    assert Chosen(p, r, i, c, y) && Chosen(p, r, i + 1, c, y);
    var n := p[i].b.value;
    PivotParts(n, |p| - i, r[i].lo, r[i].hi);
    CutRaise(n.buf, p[i].bi, c, y);
    LevelKids(p, r, i, c, y);
    assert View(root, y) != Bad && Starts(root, y);
    NoBadDown(root, p, r, c, y, i);
    var e := RunFrom(n.buf, p[i].bi, y);
    if i == bufsrc {
      WithinOf(p, r, c, y);
      FirstInsert(p, r, c, y, i);
      if p[i + 1].b.Some? { NotThere(p[i + 1].b.value, y); }
    } else if 0 <= bufsrc < i {
      assert Beyond(p, i, y);
      Successor(y, y);
      assert e == p[i].bi;
    }
  }

  lemma WithinOf(p: seq<Scanp>, r: seq<Span>, c: Key, y: Key)
    requires forall j: nat {:trigger Chosen(p, r, j, c, y)} :: j < |p| ==> Chosen(p, r, j, c, y)
    ensures forall j: nat {:trigger Within(p, r, j, c, y)} :: j < |p| ==> Within(p, r, j, c, y)
  {
    hide Rank, LevelOk, Ahead;
    forall j: nat | j < |p| ensures Within(p, r, j, c, y) {
      assert Chosen(p, r, j, c, y);
    }
  }

  /** A pivot with messages left and no children. */
  predicate OnlyBuf(x: Scanp) {
    x.b.Some? && x.b.value.Pivot? && x.vi >= |x.b.value.kids| && x.bi < |x.b.value.buf|
  }

  /** Where the key and the value come from. */
  ghost predicate Source(p: seq<Scanp>, bufsrc: int, y: Key, v: Value) {
    if bufsrc == -1 then
      LeafNext(p) && p[|p| - 1].b.value.vals[p[|p| - 1].vi] == Kvp(y, v)
    else
      && 0 <= bufsrc < |p| - 1 && p[bufsrc].b.Some? && p[bufsrc].b.value.Pivot?
          && p[bufsrc].bi < |p[bufsrc].b.value.buf|
      && p[bufsrc].b.value.buf[p[bufsrc].bi].k == y && v == Payload(p[bufsrc].b.value.buf[p[bufsrc].bi].op)
      && forall j: nat :: bufsrc < j < |p| ==> Beyond(p, j, y)
  }

  lemma LeafBase(root: Node, p: seq<Scanp>, r: seq<Span>, c: Key)
    requires PathOk(root, p, r, c) && LeafNext(p)
    ensures var e := p[|p| - 1].b.value.vals[p[|p| - 1].vi];
            && Rank(c) <= Rank(e.k) && Rank(e.k) < r[|p| - 1].hi && Ahead(p, |p| - 1, e.k) && Source(p, -1, e.k, e.v)
  {
    hide Rank, Inv;
    LevelAt(root, p, r, c, |p| - 1);
    LeafParts(p[|p| - 1].b.value, 1, r[|p| - 1].lo, r[|p| - 1].hi);
  }

  /** The assertion of btnext, where only messages are left: the message is an insert. */
  lemma BufBase(root: Node, p: seq<Scanp>, r: seq<Span>, c: Key, d: nat)
    requires Scannable(root, c) && PathOk(root, p, r, c) && d + 1 < |p| && OnlyBuf(p[d])
    requires (forall j :: d < j < |p| ==> p[j] == NoScanp) && forall j: nat :: j < |p| ==> Loaded(p, j)
    ensures var m := p[d].b.value.buf[p[d].bi];
            && m.op.Oinsert? && Rank(c) <= Rank(m.k) && Rank(m.k) < r[d].hi && Source(p, d, m.k, m.op.v)
    ensures Ahead(p, |p| - 1, p[d].b.value.buf[p[d].bi].k)
  {
    hide Rank, Inv, View, Starts;
    var m := p[d].b.value.buf[p[d].bi];
    LevelAt(root, p, r, c, d);
    PivotParts(p[d].b.value, |p| - d, r[d].lo, r[d].hi);
    assert Starts(root, m.k);
    forall j: nat | j < |p| ensures Within(p, r, j, c, m.k) {
      LevelAt(root, p, r, c, j);
      if p[j].b.Some? { HiAt(root, p, r, c, j, d); }
    }
    FirstInsert(p, r, c, m.k, d);
  }

  lemma HiAt(root: Node, p: seq<Scanp>, r: seq<Span>, c: Key, j: nat, d: nat)
    requires PathOk(root, p, r, c) && j <= d < |p| && p[d].b.Some?
    ensures p[j].b.Some? && r[d].hi <= r[j].hi
  {
    hide LevelOk;
    HiUp(p, r, j, d, c);
  }

  /** A key no greater than one within the deepest block is within all of them. */
  lemma WithinAll(root: Node, p: seq<Scanp>, r: seq<Span>, c: Key, d: nat, y: Key, j: nat)
    requires PathOk(root, p, r, c) && d < |p| && p[d].b.Some? && j < |p| && Rank(y) < r[d].hi
    requires forall i :: d < i < |p| ==> p[i].b.None?
    ensures p[j].b.Some? ==> Rank(y) < r[j].hi
  {
    hide LevelOk, Rank;
    if p[j].b.Some? { HiAt(root, p, r, c, j, d); }
  }

  lemma PivotHere(p: seq<Scanp>, r: seq<Span>, i: nat, c: Key)
    requires LevelOk(p, r, i, c) && i + 1 < |p|
    ensures p[i].b.Some? ==> p[i].b.value.Pivot? && p[i].bi <= |p[i].b.value.buf|
    ensures p[i].b.Some? && p[i].bi < |p[i].b.value.buf| ==> Rank(c) <= Rank(p[i].b.value.buf[p[i].bi].k)
  {
    hide Rank;
  }

  lemma AheadLower(p: seq<Scanp>, j: nat, n: Key, y: Key)
    requires j < |p| && Rank(n) <= Rank(y) && Ahead(p, j, y)
    ensures Ahead(p, j, n)
  {
    hide Rank;
  }

  /** A strictly lower key is strictly below what the levels under it have next. */
  lemma Lower(p: seq<Scanp>, i: nat, n: Key, y: Key)
    requires Rank(n) < Rank(y) && forall j: nat :: i < j < |p| ==> Ahead(p, j, y)
    ensures forall j: nat :: i < j < |p| ==> Beyond(p, j, n) && Ahead(p, j, n)
  {
    hide Rank, Ahead;
    Successor(n, y);
    forall j: nat | i < j < |p| ensures Beyond(p, j, n) && Ahead(p, j, n) {
      AheadLower(p, j, n, y);
      AheadLower(p, j, n + [0], y);
    }
  }

  lemma BufSource(p: seq<Scanp>, i: nat)
    requires i + 1 < |p| && p[i].b.Some? && p[i].b.value.Pivot? && p[i].bi < |p[i].b.value.buf|
    requires forall j: nat :: i < j < |p| ==> Beyond(p, j, p[i].b.value.buf[p[i].bi].k)
    ensures Source(p, i, p[i].b.value.buf[p[i].bi].k, Payload(p[i].b.value.buf[p[i].bi].op))
  {
    hide Rank, Ahead;
  }

  /** The leaf is loaded and has a next value. */
  predicate LeafNext(p: seq<Scanp>) {
    p != [] && p[|p| - 1].b.Some? && p[|p| - 1].b.value.Leaf? && p[|p| - 1].vi < |p[|p| - 1].b.value.vals|
  }

  lemma AtBottom(p: seq<Scanp>, r: seq<Span>, i: nat, c: Key)
    requires LevelOk(p, r, i, c) && p[i].b.Some?
    ensures p[i].b.value.Pivot? <==> i + 1 < |p|
  {
  }

  lemma GoneLoaded(p: seq<Scanp>)
    requires p != [] && p[0].b.Some? && Gone(p[0]) && forall j :: 0 < j < |p| ==> p[j] == NoScanp
    ensures forall j: nat :: j < |p| ==> Loaded(p, j)
  {
  }

  lemma NotGone(x: Scanp)
    requires x.b.Some? && (x.vi < Nval(x.b.value) || (x.b.value.Pivot? && x.bi < |x.b.value.buf|))
    ensures !Gone(x)
  {
  }

  lemma IsGone(x: Scanp)
    requires x.b.Some? ==> !(x.vi < Nval(x.b.value) || (x.b.value.Pivot? && x.bi < |x.b.value.buf|))
    ensures x.b.Some? ==> Gone(x)
  {
  }

  // ----- a whole scan -----

  /** Exactly the entries with the prefix, once each, in ascending order. */
  ghost predicate IsScan(root: Node, pfx: Key, out: seq<Kvp>) {
    && (forall i, j :: 0 <= i < j < |out| ==> Rank(out[i].k) < Rank(out[j].k))
    && (forall i :: 0 <= i < |out| ==> HasPrefix(out[i].k, pfx) && View(root, out[i].k) == Has(out[i].v))
    && (forall z :: HasPrefix(z, pfx) && !NoEntry(root, z) ==> exists i :: 0 <= i < |out| && out[i].k == z)
  }

  /** What has been returned so far, of a scan that stands at the cut. */
  ghost predicate ScanTo(root: Node, pfx: Key, out: seq<Kvp>, c: Key) {
    && (forall i, j :: 0 <= i < j < |out| ==> Rank(out[i].k) < Rank(out[j].k))
    && (forall i :: 0 <= i < |out| ==>
          HasPrefix(out[i].k, pfx) && View(root, out[i].k) == Has(out[i].v) && Rank(out[i].k) < Rank(c))
    && (forall z :: HasPrefix(z, pfx) && !NoEntry(root, z) && Rank(z) < Rank(c) ==>
          exists i :: 0 <= i < |out| && out[i].k == z)
  }

  lemma ScanStart(root: Node, pfx: Key)
    ensures ScanTo(root, pfx, [], pfx)
  {
    hide Rank, View, HasPrefix;
    forall z | HasPrefix(z, pfx) ensures Rank(pfx) <= Rank(z) {
      PrefixLow(pfx, z);
    }
  }

  lemma ScanMore(root: Node, pfx: Key, out: seq<Kvp>, c: Key, e: Kvp)
    requires ScanTo(root, pfx, out, c) && HasPrefix(e.k, pfx) && View(root, e.k) == Has(e.v) && Rank(c) <= Rank(e.k)
    requires forall z :: Rank(c) <= Rank(z) < Rank(e.k) ==> NoEntry(root, z)
    ensures ScanTo(root, pfx, out + [e], CutOf(e.k, false))
  {
    hide Rank, View, HasPrefix, NoEntry;
    var t := out + [e];
    Successor(e.k, e.k);
    forall i | 0 <= i < |out| ensures Rank(out[i].k) < Rank(e.k + [0]) {
      Successor(e.k, out[i].k);
    }
    forall z | HasPrefix(z, pfx) && !NoEntry(root, z) && Rank(z) < Rank(e.k + [0])
      ensures exists i :: 0 <= i < |t| && t[i].k == z
    {
      if Rank(z) < Rank(c) {
        var i :| 0 <= i < |out| && out[i].k == z;
        assert t[i].k == z;
      } else {
        Successor(e.k, z);
        RankInjective(e.k, z);
        assert t[|out|].k == z;
      }
    }
  }

  lemma ScanEnd(root: Node, pfx: Key, out: seq<Kvp>, c: Key)
    requires ScanTo(root, pfx, out, c)
    requires forall z :: Rank(c) <= Rank(z) && HasPrefix(z, pfx) ==> NoEntry(root, z)
    ensures IsScan(root, pfx, out)
  {
    hide Rank, View, HasPrefix, NoEntry;
  }

  /** There is one such list, so it does not matter where a scan was stopped and resumed. */
  lemma {:induction false} ScanUnique(root: Node, pfx: Key, a: seq<Kvp>, b: seq<Kvp>)
    requires IsScan(root, pfx, a) && IsScan(root, pfx, b)
    ensures a == b
  {
    hide Rank, View, HasPrefix;
    var n := if |a| <= |b| then |a| else |b|;
    if |a| <= |b| { SameUpTo(root, pfx, a, b, n); } else { SameUpTo(root, pfx, b, a, n); }
    if n < |b| { NotAbove(root, pfx, a, b, n); }
    if n < |a| { NotAbove(root, pfx, b, a, n); }
    assert a[..n] == a && b[..n] == b;
  }

  lemma EntryKey(root: Node, pfx: Key, a: seq<Kvp>, b: seq<Kvp>, i: nat) returns (j: nat)
    requires IsScan(root, pfx, a) && IsScan(root, pfx, b) && i < |a|
    ensures j < |b| && b[j].k == a[i].k && b[j] == a[i]
  {
    hide Rank, View, HasPrefix;
    assert !NoEntry(root, a[i].k);
    j :| 0 <= j < |b| && b[j].k == a[i].k;
  }

  /** After the same beginning, the next of one is no higher than the next of the other. */
  lemma NotAbove(root: Node, pfx: Key, a: seq<Kvp>, b: seq<Kvp>, m: nat)
    requires IsScan(root, pfx, a) && IsScan(root, pfx, b) && m <= |a| && m < |b| && a[..m] == b[..m]
    ensures m < |a| && Rank(a[m].k) <= Rank(b[m].k)
  {
    hide Rank, View, HasPrefix, NoEntry;
    var i := EntryKey(root, pfx, b, a, m);
    forall x | 0 <= x < m ensures a[x].k != b[m].k {
      assert a[..m][x] == b[..m][x];
      assert Rank(b[x].k) < Rank(b[m].k);
    }
    assert i >= m;
    assert Rank(a[m].k) <= Rank(a[i].k);
  }

  lemma {:induction false} SameUpTo(root: Node, pfx: Key, a: seq<Kvp>, b: seq<Kvp>, n: nat)
    requires IsScan(root, pfx, a) && IsScan(root, pfx, b) && n <= |a| <= |b|
    ensures a[..n] == b[..n]
  {
    hide Rank, View, HasPrefix, NoEntry;
    if n > 0 {
      var m := n - 1;
      SameUpTo(root, pfx, a, b, m);
      NotAbove(root, pfx, a, b, m);
      NotAbove(root, pfx, b, a, m);
      RankInjective(a[m].k, b[m].k);
      assert a[m] == b[m];
      assert a[..n] == a[..m] + [a[m]] && b[..n] == b[..m] + [b[m]];
    }
  }

  /** A scan by prefix, left and entered again wherever stop says: exactly the entries with the
      prefix, in order. */
  method ScanPrefix(root: Node, ht: nat, pfx: Key, stop: nat -> bool) returns (out: seq<Kvp>)
    requires Inv(root, ht, 0.0, 1.0) && Scannable(root, pfx)
    ensures IsScan(root, pfx, out)
  {
    hide Inv, Rank, View, HasPrefix, NoEntry, IsScan, ScanTo, Scannable, PathOk, Loaded, Rest, CutOf;
    out := [];
    ScanStart(root, pfx);
    FirstCut(pfx);
    var s := new Scan(root, ht, pfx);
    s.BtEnter();
    while true
      invariant s.Standing() && s.root == root && s.ht == ht && s.pfx == pfx && fresh(s) && !s.donescan && !s.first
      invariant ScanTo(root, pfx, out, s.c)
      decreases |Rest(root, s.c)|
    {
      ghost var c := s.c;
      var e := s.BtNext();
      if e.None? {
        ScanEnd(root, pfx, out, c);
        return;
      }
      ScanMore(root, pfx, out, c, e.value);
      CutGrows(root, c, e.value.k);
      out := out + [e.value];
      if stop(|out|) {
        s.BtEnter();
      }
    }
  }

  lemma FirstCut(pfx: Key)
    ensures CutOf(pfx, true) == pfx
  {
  }

  lemma CutGrows(root: Node, c: Key, y: Key)
    requires Rank(c) <= Rank(y) && View(root, y) != Absent
    ensures |Rest(root, CutOf(y, false))| < |Rest(root, c)| && Rank(c) <= Rank(CutOf(y, false))
  {
    hide Rank, View, Rest;
    if !Appears(root, y) { NotThere(root, y); }
    AppearsKey(root, y);
    RestLess(root, c, y);
    Successor(y, y);
  }
}
