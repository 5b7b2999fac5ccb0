/** The block cache (src/cache.c; src/blk.c, holdblk, dropblk and getblk). Every operation holds the
    LRU lock and is taken as one step. */
module Cache {
  import opened Lists

  class Cache {
    const blks: set<Blk>
    const ihash: int -> nat
    const bcache: array<Blk?>
    var chead: Blk?
    var ctail: Blk?
    ghost var lru: seq<Blk>
    ghost var chains: seq<seq<Blk>>

    /** An empty cache over blocks that are all held; dropping them fills the list. */
    constructor (blks: set<Blk>, ihash: int -> nat, cmax: nat)
      requires cmax > 0
      requires forall b :: b in blks ==> b.ref > 0 && !b.cached && b.cnext == null && b.cprev == null && b.hnext == null
      ensures Valid() && this.blks == blks && lru == []
    {
      hide TableOk, Spells, Bucket;
      this.blks, this.ihash := blks, ihash;
      bcache := new Blk?[cmax](i => null);
      chead, ctail, lru := null, null, [];
      chains := seq(cmax, i => []);
      new;
      NoList(blks, Nexts(), Prevs());
      NoChains(blks, Tab(), ihash, chains);
    }

    ghost function Nexts(): Links
      reads blks`cnext
    {
      map b | b in blks :: b.cnext
    }

    ghost function Prevs(): Links
      reads blks`cprev
    {
      map b | b in blks :: b.cprev
    }

    ghost predicate ListOk()
      reads this`chead, this`ctail, this`lru, blks`cnext, blks`cprev
    {
      Spells(blks, chead, ctail, Nexts(), Prevs(), lru)
    }

    lemma LinksOf(b: Blk)
      requires b in blks
      ensures b in Nexts() && Nexts()[b] == b.cnext && b in Prevs() && Prevs()[b] == b.cprev
    {
    }

    method SetNext(b: Blk?, v: Blk?)
      requires b == null || b in blks
      modifies blks`cnext
      ensures Nexts() == Set(old(Nexts()), b, v)
    {
      if b != null {
        b.cnext := v;
      }
    }

    method SetPrev(b: Blk?, v: Blk?)
      requires b == null || b in blks
      modifies blks`cprev
      ensures Prevs() == Set(old(Prevs()), b, v)
    {
      if b != null {
        b.cprev := v;
      }
    }

    /** lrudel: a block in the list is taken out of it; one outside is left alone. */
    method LruDel(b: Blk)
      requires ListOk() && b in blks
      modifies this`chead, this`ctail, this`lru, blks`cnext, blks`cprev
      ensures ListOk() && b !in lru
      ensures b !in old(lru) ==> lru == old(lru)
      ensures forall k :: 0 <= k < |old(lru)| && old(lru)[k] == b ==> lru == Drop1(old(lru), k)
      ensures lru == Minus(old(lru), b) && forall x :: x in lru <==> x in old(lru) && x != b
    {
      hide Spells, Drop1, NoDup, Nexts, Prevs, Minus;
      ghost var next, prev := Nexts(), Prevs();
      LinksOf(b);
      Neighbours(blks, chead, ctail, next, prev, lru, b);
      var n, p := b.cnext, b.cprev;
      if b == chead {
        chead := n;
      }
      if b == ctail {
        ctail := p;
      }
      SetPrev(n, p);
      SetNext(p, n);
      SetNext(b, null);
      SetPrev(b, null);
      lru := Unlinked(blks, old(chead), old(ctail), next, prev, lru, b);
    }

    /** lrutop: unless someone has looked it up meanwhile, the block goes to the head. */
    method LruTop(b: Blk)
      requires ListOk() && b in blks
      modifies this`chead, this`ctail, this`lru, blks`cnext, blks`cprev
      ensures ListOk()
      ensures b.ref != 0 ==> lru == old(lru)
      ensures b.ref == 0 ==> lru == [b] + Minus(old(lru), b)
      ensures b.ref == 0 ==> lru != [] && lru[0] == b && forall x :: x in lru <==> x in old(lru) || x == b
    {
      hide Minus, ListOk;
      if b.ref != 0 {
        return;
      }
      LruDel(b);
      PushTop(b);
    }

    /** A block outside the list goes to its head. */
    method PushTop(b: Blk)
      requires ListOk() && b in blks && b !in lru
      modifies this`chead, this`ctail, this`lru, blks`cnext, blks`cprev
      ensures ListOk() && lru == [b] + old(lru)
    {
      hide Spells, Nexts, Prevs;
      ghost var next, prev := Nexts(), Prevs();
      Neighbours(blks, chead, ctail, next, prev, lru, b);
      LinkTop(blks, chead, ctail, next, prev, lru, b);
      SetPrev(chead, b);
      if ctail == null {
        ctail := b;
      }
      SetNext(b, chead);
      chead := b;
      lru := [b] + lru;
    }

    /** lrubot: the block goes to the tail, for early reuse. */
    method LruBot(b: Blk)
      requires ListOk() && b in blks
      modifies this`chead, this`ctail, this`lru, blks`cnext, blks`cprev
      ensures ListOk()
      ensures b.ref != 0 ==> lru == old(lru)
      ensures b.ref == 0 ==> lru == Minus(old(lru), b) + [b]
      ensures b.ref == 0 ==> lru != [] && lru[|lru| - 1] == b && forall x :: x in lru <==> x in old(lru) || x == b
    {
      hide Minus, ListOk;
      if b.ref != 0 {
        return;
      }
      LruDel(b);
      PushBot(b);
    }

    /** A block outside the list goes to its tail. */
    method PushBot(b: Blk)
      requires ListOk() && b in blks && b !in lru
      modifies this`chead, this`ctail, this`lru, blks`cnext, blks`cprev
      ensures ListOk() && lru == old(lru) + [b]
    {
      hide Spells, Nexts, Prevs;
      ghost var next, prev := Nexts(), Prevs();
      Neighbours(blks, chead, ctail, next, prev, lru, b);
      LinkBot(blks, chead, ctail, next, prev, lru, b);
      SetNext(ctail, b);
      if chead == null {
        chead := b;
      }
      SetPrev(b, ctail);
      ctail := b;
      lru := lru + [b];
    }

    // ----- the hash chains -----

    ghost function Hnexts(): Links
      reads blks`hnext
    {
      map b | b in blks :: b.hnext
    }

    ghost function Addrs(): map<Blk, int>
      reads blks`addr
    {
      map b | b in blks :: b.addr
    }

    ghost function Cacheds(): map<Blk, bool>
      reads blks`cached
    {
      map b | b in blks :: b.cached
    }

    ghost function Tab(): Table
      reads bcache, blks`hnext, blks`addr, blks`cached
    {
      Table(bcache[..], Hnexts(), Addrs(), Cacheds())
    }

    ghost predicate HashOk()
      reads this`chains, bcache, blks`hnext, blks`addr, blks`cached
    {
      TableOk(blks, Tab(), ihash, chains)
    }

    lemma TabOf(b: Blk)
      requires b in blks
      ensures |Tab().heads| == bcache.Length
      ensures b in Tab().hn && Tab().hn[b] == b.hnext && b in Tab().addr && Tab().addr[b] == b.addr
      ensures b in Tab().cached && Tab().cached[b] == b.cached
    {
    }

    method SetHnext(b: Blk, v: Blk?)
      requires b in blks
      modifies b`hnext
      ensures Hnexts() == old(Hnexts())[b := v]
    {
      b.hnext := v;
    }

    method SetCached(b: Blk, v: bool)
      requires b in blks
      modifies b`cached
      ensures b.cached == v && Cacheds() == old(Cacheds())[b := v]
      ensures forall x :: x in blks && x != b ==> x.cached == old(x.cached)
    {
      b.cached := v;
    }

    method SetHead(h: nat, v: Blk?)
      requires h < bcache.Length
      modifies bcache
      ensures bcache[..] == old(bcache[..])[h := v]
    {
      bcache[h] := v;
    }

    /** The statements of cacheins that change anything. */
    method InsertHead(b: Blk, h: nat)
      requires b in blks && h < bcache.Length
      modifies bcache, b`hnext, b`cached
      ensures Tab() == Inserted(old(Tab()), h, b) && b.cached
    {
      hide Hnexts, Addrs, Cacheds;
      SetCached(b, true);
      SetHnext(b, bcache[h]);
      SetHead(h, b);
    }

    /** cacheins: the block becomes the one of its address. */
    method CacheIns(b: Blk)
      requires HashOk() && b in blks && !b.cached && !b.isStatic
      requires forall c :: c in blks && c.cached ==> c.addr != b.addr
      modifies bcache, b`hnext, b`cached, this`chains
      ensures HashOk() && b.cached
    {
      hide TableOk, Tab, Inserted, Bucket;
      TabOf(b);
      ghost var t := Tab();
      Nonempty(blks, t, ihash, chains);
      var h := Bucket(ihash, bcache.Length, b.addr);
      forall c | c in chains[h] ensures c in t.addr && t.addr[c] != t.addr[b] {
        Member(blks, t, ihash, chains, h, c);
        TabOf(c);
      }
      Insert(blks, t, ihash, chains, b, h);
      InsertHead(b, h);
      chains := chains[h := [b] + chains[h]];
    }

    /** The statements of cachedel_lk that unlink a block; p is the one before it. */
    method UnlinkAt(b: Blk, p: Blk?, h: nat, ghost c: seq<Blk>, ghost k: nat)
      requires b in blks && h < bcache.Length && (p == null || p in blks)
      requires k < |c| && c[k] == b && p == Nth(c, k - 1)
      modifies bcache, blks`hnext, blks`cached
      ensures b in old(Tab()).hn && Tab() == Removed(old(Tab()), c, h, k)
      ensures forall x :: x in blks ==> x.cached == (old(x.cached) && x != b)
    {
      hide Hnexts, Addrs, Cacheds;
      HnOf(b);
      if p == null {
        SetHead(h, b.hnext);
      } else {
        SetHnext(p, b.hnext);
      }
      SetHnext(b, null);
      SetCached(b, false);
    }

    lemma HnOf(b: Blk)
      requires b in blks
      ensures b in Hnexts() && Hnexts()[b] == b.hnext
    {
    }

    /** The search of cacheget and cachedel_lk: the one block cached under the address, and the one
        before it in its chain. */
    method Search(addr: int) returns (b: Blk?, p: Blk?, h: nat, ghost k: nat)
      requires HashOk()
      ensures b == null ==> forall c :: c in blks && c.cached ==> c.addr != addr
      ensures b != null ==> b in blks && b.cached && b.addr == addr
      ensures b != null ==> forall c :: c in blks && c.cached && c.addr == addr ==> c == b
      ensures h < bcache.Length && h < |chains|
      ensures b != null ==> k < |chains[h]| && chains[h][k] == b
      ensures b != null ==> p == Nth(chains[h], k - 1) && (p == null || p in blks)
    {
      hide TableOk, Tab, Bucket;
      ghost var t := Tab();
      Nonempty(blks, t, ihash, chains);
      Walk(t, 0, 0);
      h := Bucket(ihash, bcache.Length, addr);
      Walk(t, h, 0);
      b, p, k := bcache[h], null, 0;
      while b != null && b.addr != addr
        invariant 0 <= k <= |chains[h]| && b == Nth(chains[h], k) && p == Nth(chains[h], k - 1)
        invariant b == null || (b in blks && b.cached && k < |chains[h]|)
        invariant p == null || p in blks
        invariant forall j :: 0 <= j < k ==> chains[h][j].addr != addr
        decreases |chains[h]| - k
      {
        Walk(t, h, k);
        p := b;
        b := b.hnext;
        k := k + 1;
        Walk(t, h, k);
      }
      if b == null {
        Missing(t, addr, h);
      } else {
        Found(t, b);
      }
    }

    /** A block that was found is no longer cached. */
    method Uncache(b: Blk, p: Blk?, h: nat, ghost k: nat)
      requires HashOk() && b in blks && h < bcache.Length && h < |chains| && (p == null || p in blks)
      requires k < |chains[h]| && chains[h][k] == b && p == Nth(chains[h], k - 1)
      modifies bcache, blks`hnext, blks`cached, this`chains
      ensures HashOk() && forall x :: x in blks ==> x.cached == (old(x.cached) && x != b)
    {
      hide TableOk, Tab, Removed, Drop1, Nth;
      ghost var t, c := Tab(), chains[h];
      TabOf(b);
      Nonempty(blks, t, ihash, chains);
      Remove(blks, t, ihash, chains, h, k);
      UnlinkAt(b, p, h, c, k);
      chains := chains[h := Drop1(c, k)];
    }

    /** cachedel_lk: afterwards no block is cached under the address. */
    method CacheDelLk(addr: int)
      requires HashOk()
      modifies bcache, blks`hnext, blks`cached, this`chains
      ensures HashOk()
      ensures forall c :: c in blks ==> (c.cached <==> old(c.cached) && (c.addr != addr || addr == -1))
    {
      hide HashOk, Nth;
      if addr == -1 {
        return;
      }
      var b, p, h;
      ghost var k;
      b, p, h, k := Search(addr);
      if b != null {
        Uncache(b, p, h, k);
      }
    }

    /** One step along a chain. */
    lemma Walk(t: Table, h: nat, k: nat)
      requires HashOk() && t == Tab() && h < |chains|
      ensures bcache.Length == |chains| && bcache[h] == Nth(chains[h], 0)
      ensures k < |chains[h]| ==>
                chains[h][k] in blks && chains[h][k].cached && chains[h][k].hnext == Nth(chains[h], k + 1)
    {
      assert ChainOk(t, ihash, chains[h], h);
      if k < |chains[h]| { assert InChain(t, ihash, chains[h], h, k); }
    }

    /** A chain without the address: nothing is cached under it. */
    lemma Missing(t: Table, addr: int, h: nat)
      requires HashOk() && t == Tab() && bcache.Length > 0 && h == Bucket(ihash, bcache.Length, addr) && h < |chains|
      requires forall j :: 0 <= j < |chains[h]| ==> chains[h][j].addr != addr
      ensures forall c :: c in blks && c.cached ==> c.addr != addr
    {
    }

    lemma Found(t: Table, b: Blk)
      requires HashOk() && t == Tab() && b in blks && b.cached
      ensures forall c :: c in blks && c.cached && c.addr == b.addr ==> c == b
    {
    }

    // ----- the cache -----

    /** The blocks in the list are exactly those nobody holds, but for the static ones, which are never
        cached. */
    ghost predicate RefsOk()
      reads this`lru, blks`ref, blks`isStatic, blks`cached, blks`addr
    {
      forall b :: b in blks ==>
        b.ref >= 0 && (b in lru <==> b.ref == 0 && !b.isStatic) && (b.cached ==> !b.isStatic && b.addr != -1)
    }

    ghost predicate Valid()
      reads this, bcache, blks
    {
      ListOk() && HashOk() && RefsOk()
    }

    /** holdblk, of a block someone holds already. */
    method HoldBlk(b: Blk)
      requires Valid() && b in blks && b.ref > 0
      modifies b`ref
      ensures Valid() && b.ref == old(b.ref) + 1
    {
      hide ListOk, HashOk;
      b.ref := b.ref + 1;
    }

    /** dropblk: the last one to let go puts the block in the list, freed ones where they are reused
        first. */
    method DropBlk(b: Blk?)
      requires Valid() && (b != null ==> b in blks && b.ref > 0 && (b.ref == 1 ==> !b.isStatic))
      modifies this`chead, this`ctail, this`lru, blks`cnext, blks`cprev, blks`ref
      ensures Valid()
      ensures b != null ==> b.ref == old(b.ref) - 1 && forall x :: x in blks && x != b ==> x.ref == old(x.ref)
      ensures b == null ==> forall x :: x in blks ==> x.ref == old(x.ref)
      ensures b == null || b.ref > 0 ==> lru == old(lru)
      ensures b != null && b.ref == 0 ==> lru == if b.freed then old(lru) + [b] else [b] + old(lru)
    {
      hide ListOk, HashOk, Minus;
      if b != null && b !in lru { MinusIs(lru, b, |lru|); }
      if b == null {
        return;
      }
      b.ref := b.ref - 1;
      if b.ref != 0 {
        return;
      }
      if b.freed {
        LruBot(b);
      } else {
        LruTop(b);
      }
    }

    /** cacheget: the block cached under the address, held, if there is one. */
    method CacheGet(addr: int) returns (b: Blk?)
      requires Valid()
      modifies this`chead, this`ctail, this`lru, blks`cnext, blks`cprev, blks`ref
      ensures Valid()
      ensures b == null <==> forall c :: c in blks && c.cached ==> c.addr != addr
      ensures b != null ==> b in blks && b.cached && b.addr == addr && b.ref == old(b.ref) + 1
      ensures lru == if b == null then old(lru) else Minus(old(lru), b)
      ensures forall x :: x in blks && x != b ==> x.ref == old(x.ref)
    {
      hide ListOk, HashOk, Nth, Minus;
      var p, h;
      ghost var k;
      b, p, h, k := Search(addr);
      if b != null {
        b.ref := b.ref + 1;
        LruDel(b);
      }
    }

    /** cachepluck, once the list is not empty: the last block of it, that nobody held, out of the list
        and of its chain. */
    method CachePluck() returns (b: Blk)
      requires Valid() && lru != []
      modifies this`chead, this`ctail, this`lru, this`chains, bcache, blks
      ensures Valid() && b in blks && b == old(lru)[|old(lru)| - 1] && old(b.ref) == 0 && b.ref == 1
      ensures !b.cached && b !in lru && !b.isStatic && !b.freed && b.addr == old(b.addr)
      ensures lru == old(lru)[..|old(lru)| - 1]
      ensures forall x :: x in blks && x != b ==> x.ref == old(x.ref) && x.addr == old(x.addr)
      ensures forall x :: x in blks && x != b ==> x.isStatic == old(x.isStatic) && x.freed == old(x.freed)
      ensures forall x :: x in blks && x != b ==> x.cached == old(x.cached)
    {
      hide ListOk, HashOk, Nth, Minus;
      TailOf();
      TailMinus();
      b := ctail;
      if b.cached {
        Found(Tab(), b);
        CacheDelLk(b.addr);
      }
      LruDel(b);
      b.isStatic := false;
      b.freed := false;
      b.ref := 1;
    }

    /** getblk: the block of an address, held; from the cache when it is there, and otherwise a block
        nobody held is made to be it. */
    method GetBlk(addr: int) returns (b: Blk)
      requires Valid() && addr != -1
      requires lru != [] || exists c :: c in blks && c.cached && c.addr == addr
      modifies this`chead, this`ctail, this`lru, this`chains, bcache, blks
      ensures Valid() && b in blks && b.cached && b.addr == addr && b.ref > 0
      ensures forall x :: x in blks && x != b ==> x.ref == old(x.ref) && x.addr == old(x.addr)
      ensures forall x :: x in blks && x != b ==> x.isStatic == old(x.isStatic) && x.freed == old(x.freed)
      ensures forall x :: x in blks && x != b ==> x.cached == old(x.cached)
      ensures (exists c :: c in blks && old(c.cached) && old(c.addr) == addr) ==>
                && old(b.cached) && old(b.addr) == addr && b.ref == old(b.ref) + 1 && lru == Minus(old(lru), b)
      ensures (forall c :: c in blks && old(c.cached) ==> old(c.addr) != addr) ==>
                && old(lru) != [] && b == old(lru)[|old(lru)| - 1] && lru == old(lru)[..|old(lru)| - 1]
                && b.ref == 1 && !b.isStatic && !b.freed
    {
      hide ListOk, HashOk, Minus;
      var r := CacheGet(addr);
      if r != null {
        return r;
      }
      b := CachePluck();
      Readdress(b, addr);
      CacheIns(b);
    }

    /** readblk, as far as the cache goes: a block in no chain gets the address it is read from. */
    method Readdress(b: Blk, addr: int)
      requires Valid() && b in blks && !b.cached
      modifies b`addr
      ensures Valid() && b.addr == addr
    {
      hide ListOk, TableOk;
      ghost var t := Tab();
      Renamed(blks, t, ihash, chains, b, addr);
      b.addr := addr;
      assert Tab() == t.(addr := t.addr[b := addr]);
    }

    lemma TailMinus()
      requires ListOk() && lru != []
      ensures Minus(lru, lru[|lru| - 1]) == lru[..|lru| - 1]
    {
      MinusIs(lru, lru[|lru| - 1], |lru| - 1);
    }

    lemma TailOf()
      requires ListOk() && lru != []
      ensures ctail != null && ctail in blks && ctail == lru[|lru| - 1]
    {
    }
  }

  lemma NoList(blks: set<Blk>, next: Links, prev: Links)
    requires next.Keys == prev.Keys == blks && forall b :: b in blks ==> next[b] == null && prev[b] == null
    ensures Spells(blks, null, null, next, prev, [])
  {
  }

  lemma NoChains(blks: set<Blk>, t: Table, hash: int -> nat, chains: seq<seq<Blk>>)
    requires |chains| == |t.heads| > 0 && t.hn.Keys == blks && t.addr.Keys == blks && t.cached.Keys == blks
    requires forall h :: 0 <= h < |chains| ==> chains[h] == [] && t.heads[h] == null
    requires forall b :: b in blks ==> !t.cached[b] && t.hn[b] == null
    ensures TableOk(blks, t, hash, chains)
  {
  }

  lemma Nonempty(blks: set<Blk>, t: Table, hash: int -> nat, chains: seq<seq<Blk>>)
    requires TableOk(blks, t, hash, chains)
    ensures |chains| == |t.heads| > 0
  {
  }

  lemma Member(blks: set<Blk>, t: Table, hash: int -> nat, chains: seq<seq<Blk>>, h: nat, b: Blk)
    requires TableOk(blks, t, hash, chains) && h < |chains| && b in chains[h]
    ensures b in blks && b in t.addr && b in t.cached && t.cached[b]
  {
    ChainMember(t, hash, chains[h], h, b);
  }
}
