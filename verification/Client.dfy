/** An upsert and a lookup after it: the tree behaves as a map that messages update. */
module Client {
  import opened Keys
  import opened Messages
  import opened Nodes
  import opened Flushing
  import opened Upsert
  import opened Lookup
  import opened Removals
  import opened Stats

  function StateOf(v: Option<Value>): St {
    match v { case Some(x) => Has(x) case None => Absent }
  }

  /** After an upsert that is done, a key is looked up as before with the batch's messages for it
      applied in the order they were submitted. An upsert that the tree accepts is done, and so is one the
      root has room for. */
  method UpsertThenLookup(t: Tree, msg: array<Msg>, k: Key) returns (r: Outcome, v: Option<Value>)
    requires t.Valid() && NoBad(t.root, msg[..]) && forall i :: 0 <= i < msg.Length ==> MsgOk(msg[i])
    modifies t, msg
    ensures t.Valid()
    ensures r.Done? ==> Play(View(old(t.root), k), Sel(old(msg[..]), k)) == StateOf(v)
    ensures Fast(old(t.root), msg.Length, MsgsSz(old(msg[..]))) ==> r.Done?
    ensures forall gone: set<Key> :: Accepts(old(t.root), old(msg[..]), MsgsSz(old(msg[..])), gone)
              ==> r.Done? && Safe(t.root, gone)
  {
    hide View, Play, Sel, Inv, Accepts, Safe, MsgsSz, FlushOf, RootOf, HalfLeft, NothingLeft, TookFirst, FilledBuf;
    v := None;
    ghost var was, batch := t.root, msg[..];
    assert Play(View(was, k), Sel(batch, k)) != Bad;
    ghost var last;
    r, last := BtUpsert(t, msg);
    if r.Done? {
      assert View(t.root, k) == Play(View(was, k), Sel(batch, k));
      v := BtLookup(t.root, t.ht, k);
    }
  }

  /** One message sent and its key looked up: an insert is found, a deleted or cleared entry is not, a stat
      has set the fields it carries and no others, and a relinked snapshot has the one link and the counts
      changed. No other key is affected. */
  method SendThenLookup(t: Tree, m: Msg) returns (r: Outcome, v: Option<Value>)
    requires t.Valid() && MsgOk(m) && NoBad(t.root, [m])
    modifies t
    ensures r.Done? ==> Obeys(View(old(t.root), m.k), m, StateOf(v))
    ensures r.Done? ==> forall k :: k != m.k ==> View(t.root, k) == View(old(t.root), k)
  {
    hide View, Play, Sel, Inv, Accepts, Safe, MsgsSz, FlushOf, RootOf, HalfLeft, NothingLeft, TookFirst, FilledBuf,
         Obeys;
    var msg := new Msg[1](_ => m);
    ghost var was := t.root;
    assert msg[..] == [m];
    v := None;
    ghost var last;
    r, last := BtUpsert(t, msg);
    if r.Done? {
      forall k ensures View(t.root, k) == Play(View(was, k), Sel([m], k)) {
      }
      SendMeans(was, t.root, m);
      v := BtLookup(t.root, t.ht, m.k);
    }
  }

  lemma SendMeans(was: Node, n: Node, m: Msg)
    requires forall k :: View(n, k) == Play(View(was, k), Sel([m], k))
    requires NoBad(was, [m])
    ensures View(n, m.k) != Bad && Obeys(View(was, m.k), m, View(n, m.k))
    ensures forall k :: k != m.k ==> View(n, k) == View(was, k)
  {
    hide View, Obeys;
    assert [m][..0] == [];
    assert Sel([m], m.k) == [m];
    assert Play(View(was, m.k), []) == View(was, m.k);
    LastObeyed(View(was, m.k), [m]);
    forall k | k != m.k ensures View(n, k) == View(was, k) {
      assert Sel([m], k) == [];
    }
  }
}
