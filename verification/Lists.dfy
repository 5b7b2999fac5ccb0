/** Linked lists over blocks, as values: the LRU list and the hash chains (src/cache.c). */
module Lists {
  class Blk {
    var addr: int
    var ref: int
    var cnext: Blk?
    var cprev: Blk?
    var hnext: Blk?
    var cached: bool
    var isStatic: bool
    var freed: bool

    constructor (addr: int)
      ensures this.addr == addr && ref == 1 && cnext == null && cprev == null && hnext == null
      ensures !cached && !isStatic && !freed
    {
      this.addr, ref, cnext, cprev, hnext, cached, isStatic, freed := addr, 1, null, null, null, false, false, false;
    }
  }

  type Links = map<Blk, Blk?>

  // ----- sequences without repeats -----

  ghost predicate NoDup(s: seq<Blk>) {
    forall i, j :: 0 <= i < j < |s| ==> s[i] != s[j]
  }

  function Nth(s: seq<Blk>, i: int): Blk? { if 0 <= i < |s| then s[i] else null }

  function Drop1(s: seq<Blk>, k: nat): (r: seq<Blk>)
    requires k < |s|
    ensures |r| == |s| - 1
  {
    s[..k] + s[k + 1..]
  }

  lemma Drop1At(s: seq<Blk>, k: nat, i: int)
    requires k < |s|
    ensures i < k ==> Nth(Drop1(s, k), i) == Nth(s, i)
    ensures i >= k ==> Nth(Drop1(s, k), i) == Nth(s, i + 1)
  {
  }

  /** The list without a block. */
  function Minus(s: seq<Blk>, b: Blk): seq<Blk> {
    if s == [] then [] else if s[0] == b then s[1..] else [s[0]] + Minus(s[1..], b)
  }

  lemma {:induction false} MinusIs(s: seq<Blk>, b: Blk, k: nat)
    requires k <= |s| && (forall i :: 0 <= i < k ==> s[i] != b) && (k < |s| ==> s[k] == b)
    ensures Minus(s, b) == if k < |s| then Drop1(s, k) else s
  {
    if s != [] && s[0] != b {
      MinusIs(s[1..], b, k - 1);
      if k < |s| {
        assert s[..k] == [s[0]] + s[1..][..k - 1];
        assert s[k + 1..] == s[1..][k..];
      } else {
        assert [s[0]] + s[1..] == s;
      }
    } else if s != [] {
      assert k == 0 && s[..0] == [] && s[..0] + s[1..] == s[1..];
    }
  }

  lemma Drop1NoDup(s: seq<Blk>, k: nat)
    requires NoDup(s) && k < |s|
    ensures NoDup(Drop1(s, k)) && forall x :: x in Drop1(s, k) <==> x in s && x != s[k]
  {
    var r := Drop1(s, k);
    assert forall i :: 0 <= i < |r| ==> r[i] == s[if i < k then i else i + 1];
    forall x | x in s && x != s[k] ensures x in r {
      var i :| 0 <= i < |s| && s[i] == x;
      assert r[if i < k then i else i - 1] == x;
    }
  }

  // ----- lists and their links, as values -----

  ghost predicate LinkAt(next: Links, prev: Links, lru: seq<Blk>, i: int) {
    0 <= i < |lru| && lru[i] in next && lru[i] in prev && next[lru[i]] == Nth(lru, i + 1)
        && prev[lru[i]] == Nth(lru, i - 1)
  }

  /** The links spell out lru, from head to tail and back; blocks outside it have none. */
  ghost predicate Spells(blks: set<Blk>, head: Blk?, tail: Blk?, next: Links, prev: Links, lru: seq<Blk>) {
    && NoDup(lru) && (forall b :: b in lru ==> b in blks) && next.Keys == blks && prev.Keys == blks
    && head == Nth(lru, 0) && tail == Nth(lru, |lru| - 1)
    && (forall i {:trigger LinkAt(next, prev, lru, i)} :: 0 <= i < |lru| ==> LinkAt(next, prev, lru, i))
    && (forall b :: b in blks && b !in lru ==> next[b] == null && prev[b] == null)
  }

  function Set(m: Links, b: Blk?, v: Blk?): Links { if b == null then m else m[b := v] }

  lemma Differ(s: seq<Blk>, i: int, j: int)
    requires NoDup(s) && 0 <= i < |s|
    ensures Nth(s, j) == s[i] <==> i == j
  {
  }

  lemma NthIn(s: seq<Blk>, i: int)
    ensures Nth(s, i) == null || Nth(s, i) in s
  {
  }

  /** Taking a block out, as lrudel relinks its neighbours. */
  lemma Unlink(blks: set<Blk>, head: Blk?, tail: Blk?, next: Links, prev: Links, lru: seq<Blk>, k: nat)
    requires Spells(blks, head, tail, next, prev, lru) && k < |lru|
    ensures lru[k] in next && lru[k] in prev
    ensures var b := lru[k];
            Spells(blks, if b == head then next[b] else head, if b == tail then prev[b] else tail,
                   Set(next, prev[b], next[b])[b := null], Set(prev, next[b], prev[b])[b := null], Drop1(lru, k))
  {
    hide NoDup, Drop1, Nth, LinkAt;
    Parts(blks, head, tail, next, prev, lru, k);
    var b := lru[k];
    var r := Drop1(lru, k);
    var next', prev' := Set(next, prev[b], next[b])[b := null], Set(prev, next[b], prev[b])[b := null];
    Drop1NoDup(lru, k);
    UnlinkEnds(next, prev, lru, k);
    assert next'.Keys == blks && prev'.Keys == blks;
    assert forall x :: x in blks && x !in r ==> next'[x] == null && prev'[x] == null;
    forall i | 0 <= i < |r| ensures LinkAt(next', prev', r, i) {
      assert LinkAt(next, prev, lru, if i < k then i else i + 1);
      UnlinkAt(next, prev, lru, k, i);
    }
    assert (if b == head then next[b] else head) == Nth(r, 0);
    assert (if b == tail then prev[b] else tail) == Nth(r, |r| - 1);
  }

  lemma Parts(blks: set<Blk>, head: Blk?, tail: Blk?, next: Links, prev: Links, lru: seq<Blk>, k: nat)
    requires Spells(blks, head, tail, next, prev, lru) && k < |lru|
    ensures LinkAt(next, prev, lru, k) && lru[k] in blks && lru[k] in next && lru[k] in prev
    ensures next[lru[k]] == null || next[lru[k]] in lru
    ensures prev[lru[k]] == null || prev[lru[k]] in lru
  {
    assert LinkAt(next, prev, lru, k);
    NthIn(lru, k - 1);
    NthIn(lru, k + 1);
  }

  lemma UnlinkEnds(next: Links, prev: Links, lru: seq<Blk>, k: nat)
    requires NoDup(lru) && k < |lru| && LinkAt(next, prev, lru, k)
    ensures var b, r := lru[k], Drop1(lru, k);
            && Nth(r, 0) == (if b == Nth(lru, 0) then next[b] else Nth(lru, 0))
            && Nth(r, |r| - 1) == (if b == Nth(lru, |lru| - 1) then prev[b] else Nth(lru, |lru| - 1))
  {
    hide NoDup, Drop1;
    Drop1At(lru, k, 0);
    Drop1At(lru, k, |lru| - 2);
    Differ(lru, k, 0);
    Differ(lru, k, |lru| - 1);
  }

  lemma UnlinkAt(next: Links, prev: Links, lru: seq<Blk>, k: nat, i: nat)
    requires NoDup(lru) && k < |lru| && i < |lru| - 1 && LinkAt(next, prev, lru, k)
    requires LinkAt(next, prev, lru, if i < k then i else i + 1)
    ensures var b := lru[k];
            LinkAt(Set(next, prev[b], next[b])[b := null], Set(prev, next[b], prev[b])[b := null], Drop1(lru, k), i)
  {
    hide NoDup, Drop1;
    var j := if i < k then i else i + 1;
    Drop1At(lru, k, i);
    Drop1At(lru, k, i + 1);
    Drop1At(lru, k, i - 1);
    Differ(lru, j, k);
    Differ(lru, j, k - 1);
    Differ(lru, j, k + 1);
  }

  /** A block outside the list has no neighbours to relink. */
  lemma UnlinkNone(blks: set<Blk>, head: Blk?, tail: Blk?, next: Links, prev: Links, lru: seq<Blk>, b: Blk)
    requires Spells(blks, head, tail, next, prev, lru) && b in blks && b !in lru
    ensures b != head && b != tail && next[b] == null && prev[b] == null
    ensures next[b := null] == next && prev[b := null] == prev
  {
  }

  lemma LinkTop(blks: set<Blk>, head: Blk?, tail: Blk?, next: Links, prev: Links, lru: seq<Blk>, b: Blk)
    requires Spells(blks, head, tail, next, prev, lru) && b in blks && b !in lru
    ensures Spells(blks, b, if tail == null then b else tail, next[b := head], Set(prev, head, b), [b] + lru)
  {
    var r := [b] + lru;
    var next', prev' := next[b := head], Set(prev, head, b);
    forall i | 0 <= i < |r| ensures LinkAt(next', prev', r, i) {
      if i > 0 {
        assert LinkAt(next, prev, lru, i - 1);
        assert lru[i - 1] != b;
        if i > 1 { assert lru[i - 1] != lru[0]; }
      }
    }
    forall i, j | 0 <= i < j < |r| ensures r[i] != r[j] {
      if i > 0 { assert lru[i - 1] != lru[j - 1]; } else { assert r[j] == lru[j - 1] && lru[j - 1] in lru; }
    }
  }

  lemma LinkBot(blks: set<Blk>, head: Blk?, tail: Blk?, next: Links, prev: Links, lru: seq<Blk>, b: Blk)
    requires Spells(blks, head, tail, next, prev, lru) && b in blks && b !in lru
    ensures Spells(blks, if head == null then b else head, b, Set(next, tail, b), prev[b := tail], lru + [b])
  {
    var r, n := lru + [b], |lru|;
    var next', prev' := Set(next, tail, b), prev[b := tail];
    forall i | 0 <= i < |r| ensures LinkAt(next', prev', r, i) {
      if i < n {
        assert LinkAt(next, prev, lru, i);
        assert lru[i] != b;
        if i < n - 1 { assert lru[i] != lru[n - 1]; }
      }
    }
    forall i, j | 0 <= i < j < |r| ensures r[i] != r[j] {
      if j < n { assert lru[i] != lru[j]; } else { assert lru[i] in lru; }
    }
  }

  lemma Neighbours(blks: set<Blk>, head: Blk?, tail: Blk?, next: Links, prev: Links, lru: seq<Blk>, b: Blk)
    requires Spells(blks, head, tail, next, prev, lru) && b in blks
    ensures b in next && b in prev && next[b] != b && prev[b] != b
    ensures (next[b] == null || next[b] in blks) && (prev[b] == null || prev[b] in blks)
    ensures (head == null || head in blks) && (tail == null || tail in blks)
  {
    NthIn(lru, 0);
    NthIn(lru, |lru| - 1);
    if b in lru {
      var k :| 0 <= k < |lru| && lru[k] == b;
      Parts(blks, head, tail, next, prev, lru, k);
      Differ(lru, k, k + 1);
      Differ(lru, k, k - 1);
    }
  }

  lemma OnlyAt(blks: set<Blk>, head: Blk?, tail: Blk?, next: Links, prev: Links, lru: seq<Blk>, k: nat)
    requires Spells(blks, head, tail, next, prev, lru) && k < |lru|
    ensures forall j :: 0 <= j < |lru| && lru[j] == lru[k] ==> j == k
    ensures forall x :: x in Drop1(lru, k) <==> x in lru && x != lru[k]
  {
    Drop1NoDup(lru, k);
  }

  lemma OnlyFirst(blks: set<Blk>, head: Blk?, tail: Blk?, next: Links, prev: Links, lru: seq<Blk>, k: nat)
    requires Spells(blks, head, tail, next, prev, lru) && k < |lru|
    ensures forall j :: 0 <= j < k ==> lru[j] != lru[k]
  {
  }

  /** The list without a block, in it or not. */
  lemma Unlinked(blks: set<Blk>, head: Blk?, tail: Blk?, next: Links, prev: Links, lru: seq<Blk>, b: Blk)
    returns (r: seq<Blk>)
    requires Spells(blks, head, tail, next, prev, lru) && b in blks && b in next && b in prev
    ensures Spells(blks, if b == head then next[b] else head, if b == tail then prev[b] else tail,
                   Set(next, prev[b], next[b])[b := null], Set(prev, next[b], prev[b])[b := null], r)
    ensures b !in lru ==> r == lru
    ensures forall k :: 0 <= k < |lru| && lru[k] == b ==> r == Drop1(lru, k)
    ensures r == Minus(lru, b) && forall x :: x in r <==> x in lru && x != b
  {
    hide Spells, Drop1, NoDup, Minus;
    if b in lru {
      var k :| 0 <= k < |lru| && lru[k] == b;
      OnlyFirst(blks, head, tail, next, prev, lru, k);
      MinusIs(lru, b, k);
      Unlink(blks, head, tail, next, prev, lru, k);
      OnlyAt(blks, head, tail, next, prev, lru, k);
      r := Drop1(lru, k);
    } else {
      UnlinkNone(blks, head, tail, next, prev, lru, b);
      MinusIs(lru, b, |lru|);
      r := lru;
    }
  }

  // ----- hash chains, as values -----

  /** What the chains are made of: the heads, the links, and address and cached flag of each block. */
  datatype Table = Table(heads: seq<Blk?>, hn: Links, addr: map<Blk, int>, cached: map<Blk, bool>)

  function Bucket(hash: int -> nat, n: nat, addr: int): (h: nat)
    requires n > 0
    ensures h < n
  {
    hash(addr) % n
  }

  /** A block in a chain: in its own bucket, flagged, linked to the next. */
  ghost predicate InChain(t: Table, hash: int -> nat, c: seq<Blk>, h: nat, i: int)
    requires |t.heads| > 0
  {
    && 0 <= i < |c| && c[i] in t.hn && c[i] in t.addr && c[i] in t.cached
    && t.hn[c[i]] == Nth(c, i + 1) && Bucket(hash, |t.heads|, t.addr[c[i]]) == h && t.cached[c[i]]
  }

  ghost predicate ChainOk(t: Table, hash: int -> nat, c: seq<Blk>, h: nat)
    requires h < |t.heads|
  {
    && NoDup(c) && t.heads[h] == Nth(c, 0)
    && (forall i {:trigger InChain(t, hash, c, h, i)} :: 0 <= i < |c| ==> InChain(t, hash, c, h, i))
  }

  /** Every cached block is in the chain of its address, once, and no two have the same address. */
  ghost predicate TableOk(blks: set<Blk>, t: Table, hash: int -> nat, chains: seq<seq<Blk>>) {
    && |chains| == |t.heads| > 0 && t.hn.Keys == blks && t.addr.Keys == blks && t.cached.Keys == blks
    && (forall h: nat {:trigger ChainOk(t, hash, chains[h], h)} :: h < |chains| ==> ChainOk(t, hash, chains[h], h))
    && (forall b :: b in blks && t.cached[b] ==> b in chains[Bucket(hash, |t.heads|, t.addr[b])])
    && (forall b :: b in blks && !t.cached[b] ==> t.hn[b] == null)
    && (forall b, c :: b in blks && c in blks && t.cached[b] && t.cached[c] && t.addr[b] == t.addr[c] ==> b == c)
  }

  predicate Same(t: Table, t': Table, b: Blk) {
    && b in t.hn && b in t'.hn && t'.hn[b] == t.hn[b] && b in t.addr && b in t'.addr && t'.addr[b] == t.addr[b]
    && b in t.cached && b in t'.cached && t'.cached[b] == t.cached[b]
  }

  /** A chain none of whose blocks is changed. */
  lemma ChainSame(t: Table, t': Table, hash: int -> nat, c: seq<Blk>, h: nat)
    requires h < |t.heads| == |t'.heads| && ChainOk(t, hash, c, h) && t'.heads[h] == t.heads[h]
    requires forall b :: b in c ==> Same(t, t', b)
    ensures ChainOk(t', hash, c, h)
  {
    hide NoDup;
    forall i | 0 <= i < |c| ensures InChain(t', hash, c, h, i) {
      assert InChain(t, hash, c, h, i);
      assert c[i] in c && Same(t, t', c[i]);
    }
  }

  /** Blocks of a chain are cached and belong to its bucket. */
  lemma ChainMember(t: Table, hash: int -> nat, c: seq<Blk>, h: nat, b: Blk)
    requires h < |t.heads| && ChainOk(t, hash, c, h) && b in c
    ensures b in t.cached && t.cached[b] && b in t.addr && Bucket(hash, |t.heads|, t.addr[b]) == h && b in t.hn
  {
    var i :| 0 <= i < |c| && c[i] == b;
    assert InChain(t, hash, c, h, i);
  }

  function Inserted(t: Table, h: nat, b: Blk): Table
    requires h < |t.heads|
  {
    Table(t.heads[h := b], t.hn[b := t.heads[h]], t.addr, t.cached[b := true])
  }

  lemma Insert(blks: set<Blk>, t: Table, hash: int -> nat, chains: seq<seq<Blk>>, b: Blk, h: nat)
    requires TableOk(blks, t, hash, chains) && b in blks && !t.cached[b]
    requires h == Bucket(hash, |t.heads|, t.addr[b])
    requires forall c :: c in chains[h] ==> c in t.addr && t.addr[c] != t.addr[b]
    ensures TableOk(blks, Inserted(t, h, b), hash, chains[h := [b] + chains[h]])
  {
    hide NoDup, Bucket;
    var t', chains' := Inserted(t, h, b), chains[h := [b] + chains[h]];
    assert t'.hn.Keys == blks && t'.cached.Keys == blks;
    forall g: nat | g < |chains| ensures ChainOk(t', hash, chains'[g], g) {
      assert ChainOk(t, hash, chains[g], g);
      forall c | c in chains[g] ensures c in t.hn && c in t.addr && c in t.cached && c != b {
        ChainMember(t, hash, chains[g], g, c);
      }
      if g == h {
        InsertHere(t, hash, chains[h], h, b);
      } else {
        ChainSame(t, t', hash, chains[g], g);
      }
    }
    forall c | c in blks && t'.cached[c] ensures c in chains'[Bucket(hash, |t.heads|, t.addr[c])] {
      if c != b { assert c in chains[Bucket(hash, |t.heads|, t.addr[c])]; }
    }
  }

  lemma InsertHere(t: Table, hash: int -> nat, c: seq<Blk>, h: nat, b: Blk)
    requires h < |t.heads| && ChainOk(t, hash, c, h) && b !in c
    requires b in t.addr && Bucket(hash, |t.heads|, t.addr[b]) == h
    ensures ChainOk(Inserted(t, h, b), hash, [b] + c, h)
  {
    hide Bucket;
    var t', r := Inserted(t, h, b), [b] + c;
    forall i | 0 <= i < |r| ensures InChain(t', hash, r, h, i) {
      if i > 0 {
        assert InChain(t, hash, c, h, i - 1);
      }
    }
    forall i, j | 0 <= i < j < |r| ensures r[i] != r[j] {
      if i > 0 { assert c[i - 1] != c[j - 1]; } else { assert r[j] == c[j - 1]; }
    }
  }

  /** The k'th block of a chain is taken out by relinking what points at it. */
  function Removed(t: Table, c: seq<Blk>, h: nat, k: nat): Table
    requires h < |t.heads| && k < |c| && c[k] in t.hn
  {
    var b := c[k];
    Table(if k == 0 then t.heads[h := t.hn[b]] else t.heads,
          (if k == 0 then t.hn else t.hn[c[k - 1] := t.hn[b]])[b := null], t.addr, t.cached[b := false])
  }

  lemma Remove(blks: set<Blk>, t: Table, hash: int -> nat, chains: seq<seq<Blk>>, h: nat, k: nat)
    requires TableOk(blks, t, hash, chains) && h < |chains| && k < |chains[h]| && chains[h][k] in t.hn
    ensures TableOk(blks, Removed(t, chains[h], h, k), hash, chains[h := Drop1(chains[h], k)])
  {
    hide NoDup, Bucket, Drop1;
    var c := chains[h];
    var b := c[k];
    var t', chains' := Removed(t, c, h, k), chains[h := Drop1(c, k)];
    assert ChainOk(t, hash, c, h);
    Drop1NoDup(c, k);
    if k > 0 { ChainMember(t, hash, c, h, c[k - 1]); }
    ChainMember(t, hash, c, h, b);
    assert t'.hn.Keys == blks && t'.cached.Keys == blks;
    forall g: nat | g < |chains| ensures ChainOk(t', hash, chains'[g], g) {
      assert ChainOk(t, hash, chains[g], g);
      if g == h {
        RemoveHere(t, hash, c, h, k);
      } else {
        forall x | x in chains[g]
          ensures x in t.hn && x in t.addr && x in t.cached && x != b && (k > 0 ==> x != c[k - 1])
        {
          ChainMember(t, hash, chains[g], g, x);
        }
        ChainSame(t, t', hash, chains[g], g);
      }
    }
    forall x | x in blks && t'.cached[x] ensures x in chains'[Bucket(hash, |t.heads|, t.addr[x])] {
      assert x != b && x in chains[Bucket(hash, |t.heads|, t.addr[x])];
    }
  }

  lemma RemoveHere(t: Table, hash: int -> nat, c: seq<Blk>, h: nat, k: nat)
    requires h < |t.heads| && ChainOk(t, hash, c, h) && k < |c| && c[k] in t.hn
    ensures ChainOk(Removed(t, c, h, k), hash, Drop1(c, k), h)
  {
    hide NoDup, Bucket, Drop1;
    var t', r := Removed(t, c, h, k), Drop1(c, k);
    Drop1NoDup(c, k);
    Drop1At(c, k, 0);
    assert InChain(t, hash, c, h, k);
    forall i | 0 <= i < |r| ensures InChain(t', hash, r, h, i) {
      var j := if i < k then i else i + 1;
      assert InChain(t, hash, c, h, j);
      Drop1At(c, k, i);
      Drop1At(c, k, i + 1);
      Differ(c, j, k);
      Differ(c, j, k - 1);
    }
  }

  /** A block in no chain may change its address. */
  lemma Renamed(blks: set<Blk>, t: Table, hash: int -> nat, chains: seq<seq<Blk>>, b: Blk, addr: int)
    requires TableOk(blks, t, hash, chains) && b in blks && !t.cached[b]
    ensures TableOk(blks, t.(addr := t.addr[b := addr]), hash, chains)
  {
    hide NoDup, Bucket;
    var t' := t.(addr := t.addr[b := addr]);
    forall h: nat | h < |chains| ensures ChainOk(t', hash, chains[h], h) {
      assert ChainOk(t, hash, chains[h], h);
      forall c | c in chains[h] ensures Same(t, t', c) {
        ChainMember(t, hash, chains[h], h, c);
      }
      ChainSame(t, t', hash, chains[h], h);
    }
  }
}
