/** Whether one tree means another with messages applied, by trying every key that occurs in them. */
module Answers {
  import opened Keys
  import opened Messages
  import opened Nodes
  import opened Splice

  /** The child a key is looked up in, found from the right. */
  function LastBelow(kids: seq<Kid>, k: Key): (i: int)
    ensures -1 <= i < |kids|
  {
    if kids == [] then -1
    else if KeyCmp(kids[|kids| - 1].k, k) <= 0 then |kids| - 1
    else LastBelow(kids[..|kids| - 1], k)
  }

  /** What a lookup would answer. */
  function Answer(n: Node, k: Key): St {
    match n
    case Leaf(vals) => Find(vals, k)
    case Pivot(kids, buf) =>
      var i := LastBelow(kids, k);
      Play(if i < 0 then Absent else Answer(kids[i].n, k), Sel(buf, k))
  }

  function KeysOf(ms: seq<Msg>): set<Key> {
    set m | m in ms :: m.k
  }

  /** Every key with an entry or a message. */
  function KeysIn(n: Node): set<Key> {
    match n
    case Leaf(vals) => set v | v in vals :: v.k
    case Pivot(kids, buf) => KeysOf(buf) + set i, k | 0 <= i < |kids| && k in KeysIn(kids[i].n) :: k
  }

  predicate Same(t: Node, n: Node, ms: seq<Msg>) {
    forall k :: k in KeysIn(t) + KeysIn(n) + KeysOf(ms) ==> Answer(t, k) == Play(Answer(n, k), Sel(ms, k))
  }

  lemma {:induction false} LastBelowIs(kids: seq<Kid>, k: Key)
    requires Ascending(kids)
    ensures var i := LastBelow(kids, k);
            && (i >= 0 ==> Rank(kids[i].k) <= Rank(k))
            && forall j :: i < j < |kids| ==> Rank(k) < Rank(kids[j].k)
  {
    hide Rank, KeyCmpBody;
    if kids != [] && KeyCmp(kids[|kids| - 1].k, k) > 0 {
      LastBelowIs(kids[..|kids| - 1], k);
    }
  }

  lemma {:induction false} AnswerIs(n: Node, h: nat, lo: real, hi: real, k: Key)
    requires Inv(n, h, lo, hi)
    ensures Answer(n, k) == View(n, k)
    decreases h
  {
    hide Rank, Find, Play, Sel, BufInv;
    if n.Pivot? {
      LastBelowIs(n.kids, k);
      var i := LastBelow(n.kids, k);
      RouteIs(n.kids, k, i);
      if i >= 0 {
        assert KidInv(n.kids, i, h - 1, hi);
        AnswerIs(n.kids[i].n, h - 1, Rank(n.kids[i].k), Upper(n.kids, i, hi), k);
      }
    }
  }

  lemma {:induction false} NoEntryElse(n: Node, k: Key)
    requires k !in KeysIn(n)
    ensures View(n, k) == Absent
  {
    match n {
      case Leaf(vals) => FindNone(vals, k);
      case Pivot(kids, buf) =>
        forall m | m in buf ensures m.k != k {
          KeyIn(buf, m);
        }
        SelNone(buf, k);
        var i := Route(kids, k);
        if i >= 0 { NoEntryElse(kids[i].n, k); }
    }
  }

  /** Trying those keys is enough. */
  lemma SameIs(t: Node, h: nat, n: Node, h': nat, ms: seq<Msg>)
    requires Inv(t, h, 0.0, 1.0) && Inv(n, h', 0.0, 1.0)
    ensures Same(t, n, ms) <==> forall k :: View(t, k) == Play(View(n, k), Sel(ms, k))
  {
    hide Inv, View, Play, Sel, KeysIn, Answer, KeysOf;
    forall k ensures Answer(t, k) == View(t, k) && Answer(n, k) == View(n, k) {
      AnswerIs(t, h, 0.0, 1.0, k);
      AnswerIs(n, h', 0.0, 1.0, k);
    }
    if Same(t, n, ms) {
      forall k ensures View(t, k) == Play(View(n, k), Sel(ms, k)) {
        assert Answer(t, k) == View(t, k) && Answer(n, k) == View(n, k);
        if k !in KeysIn(t) + KeysIn(n) + KeysOf(ms) {
          NoEntryElse(t, k);
          NoEntryElse(n, k);
          Untold(ms, k);
        }
      }
    } else {
      var k :| k in KeysIn(t) + KeysIn(n) + KeysOf(ms) && Answer(t, k) != Play(Answer(n, k), Sel(ms, k));
      assert View(t, k) != Play(View(n, k), Sel(ms, k));
    }
  }

  lemma KeyIn(ms: seq<Msg>, m: Msg)
    requires m in ms
    ensures m.k in KeysOf(ms)
  {
  }

  lemma Untold(ms: seq<Msg>, k: Key)
    requires k !in KeysOf(ms)
    ensures Play(Absent, Sel(ms, k)) == Absent
  {
    hide Sel;
    forall m | m in ms ensures m.k != k {
      KeyIn(ms, m);
    }
    SelNone(ms, k);
  }
}
