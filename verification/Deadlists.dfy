/** The operations on the timeline, as the source carries them out (src/snap.c; src/blk.c, freebp). */
module Deadlists {
  import opened Snapshots

  class Timeline {
    const base: int
    /** The base, then the snapshots, oldest first, with their labels; the last is the one mounted. */
    var gens: seq<int>
    var nlbl: seq<int>
    var memgen: int
    var tip: set<Blk>
    var dl: Lists
    var freed: set<Blk>
    /** Blocks are numbered as they are allocated. */
    var nalloc: nat
    ghost var live: seq<set<Blk>>
    ghost var all: set<Blk>

    ghost function G(): seq<int>
      reads this
    {
      gens + [memgen]
    }

    ghost function L(): seq<set<Blk>>
      reads this
    {
      live + [tip]
    }

    ghost predicate Valid()
      reads this
    {
      && |gens| >= 2 && gens[0] == base && |live| == |gens| == |nlbl| && Inv(G(), L(), dl, all, freed)
      && (forall b :: b in all ==> OldEnough(G(), b) && b.birth <= memgen && b.n < nalloc)
      && (forall i :: 1 <= i < |nlbl| ==> nlbl[i] > 0)
    }

    /** A tree mounted on a base, with nothing written yet. */
    constructor (base: int, gen: int, memgen: int, blocks: set<Blk>, nalloc: nat)
      requires base < gen < memgen && forall b :: b in blocks ==> b.birth <= base && b.n < nalloc
      ensures Valid() && gens == [base, gen] && this.memgen == memgen && tip == blocks && freed == {}
      ensures this.base == base && nlbl == [1, 1] && dl == map[] && live == [blocks, blocks] && all == blocks
      ensures this.nalloc == nalloc
    {
      this.base := base;
      gens, nlbl, this.memgen, tip, dl, freed := [base, gen], [1, 1], memgen, blocks, map[], {};
      this.nalloc := nalloc;
      live, all := [blocks, blocks], blocks;
      new;
      StartInv(G(), L(), dl, all, freed, blocks);
    }

    /** A block is allocated for the tree being written, at an address that may have been used before. */
    method Write(addr: int) returns (b: Blk)
      requires Valid()
      modifies this`tip, this`all, this`nalloc
      ensures Valid() && b.addr == addr && b.birth == memgen && b !in old(all)
      ensures tip == old(tip) + {b} && all == old(all) + {b}
    {
      b := Blk(addr, memgen, nalloc);
      nalloc := nalloc + 1;
      WriteInv(G(), L(), dl, all, freed, b);
      ghost var l := L();
      tip := tip + {b};
      all := all + {b};
      assert L() == l[|l| - 1 := l[|l| - 1] + {b}];
      assert OldEnough(G(), b);
    }

    /** killblk. */
    method KillBlk(b: Blk)
      modifies this`dl
      ensures dl == if b.birth > base then Put(old(dl), Key(memgen, b.birth), b) else old(dl)
    {
      if b.birth > base {
        dl := Put(dl, Key(memgen, b.birth), b);
      }
    }

    /** freebp: a block of an earlier generation goes on a deadlist, one of this generation is freed.
        Nothing is freed twice, and what is freed is exactly what has become garbage. */
    method FreeBp(b: Blk)
      requires Valid() && b in tip
      modifies this`tip, this`dl, this`freed
      ensures Valid() && tip == old(tip) - {b}
      ensures freed == if b.birth < memgen then old(freed) else old(freed) + {b}
      ensures b.birth >= memgen ==> b !in old(freed)
    {
      ghost var l := L();
      assert In(l, |l| - 1, b);
      InAll(G(), l, dl, all, freed, b);
      if b.birth < memgen {
        if b.birth > base {
          KillInv(G(), l, dl, all, freed, b);
        } else {
          LeakInv(G(), l, dl, all, freed, b);
        }
        KillBlk(b);
      } else {
        DropInv(G(), l, dl, all, freed, b);
        freed := freed + {b};
      }
      tip := tip - {b};
      assert L() == l[|l| - 1 := l[|l| - 1] - {b}];
    }

    /** mergedl: one deadlist is joined to another of the same birth. */
    method MergeDl(merge: int, gen: int, bgen: int)
      requires merge != gen
      modifies this`dl
      ensures dl == Merged(old(dl), merge, gen, bgen)
    {
      var d, m := At(dl, Key(merge, bgen)), At(dl, Key(gen, bgen));
      dl := (dl - {Key(gen, bgen)})[Key(merge, bgen) := d + m];
    }

    /** freedl, with its contents: none of them freed before. */
    method FreeDl(k: Key)
      requires k in dl && dl[k] !! freed
      modifies this`dl, this`freed
      ensures dl == old(dl) - {k} && freed == old(freed) + old(dl)[k]
    {
      freed := freed + dl[k];
      dl := dl - {k};
    }

    /** reclaimblocks, with a successor. */
    method ReclaimBlocks(gen: int, succ: int, prev: int)
      requires gen != succ
      requires forall k :: k in dl && k.gen == gen && k.bgen > prev ==> dl[k] == {}
      requires forall k, b :: k in dl && b in dl[k] ==> b.birth == k.bgen && b !in freed
      modifies this`dl, this`freed
      ensures Reclaimed(old(dl), dl, gen, succ, prev) && Frees(old(dl), old(freed), freed, succ, prev)
      ensures forall k, b :: k in dl && b in dl[k] ==> b.birth == k.bgen
    {
      hide FirstPass, SecondPass, Merged, Reclaimed, Frees;
      var todo := set k | k in dl && k.gen == gen;
      ghost var dl0 := dl;
      FirstStart(dl, todo, gen, succ, prev);
      while todo != {}
        invariant FirstPass(dl0, dl, todo, gen, succ, prev) && freed == old(freed)
      {
        var k :| k in todo;
        FirstStep(dl0, dl, todo, gen, succ, prev, k);
        if k.bgen <= prev {
          MergeDl(succ, k.gen, k.bgen);
        } else {
          FreeDl(k);
          assert freed == old(freed);
        }
        todo := todo - {k};
      }
      ghost var dl1 := dl;
      FirstKept(dl0, dl, freed, gen, succ, prev);
      todo := set k | k in dl && k.gen == succ;
      SecondStart(dl, todo, freed, succ, prev);
      while todo != {}
        invariant SecondPass(dl1, dl, todo, old(freed), freed, succ, prev)
      {
        var k :| k in todo;
        if k.bgen > prev {
          SecondStep(dl1, dl, todo, old(freed), freed, succ, prev, k);
          FreeDl(k);
        } else {
          SecondSkip(dl1, dl, todo, old(freed), freed, succ, prev, k);
        }
        todo := todo - {k};
      }
      BothDone(dl0, dl1, dl, old(freed), freed, gen, succ, prev);
    }

    /** The snapshot at i goes: its deadlists are reclaimed, and exactly what nothing else refers to is
        freed. */
    method Remove(i: nat)
      requires |gens| >= 3 && gens[0] == base && |live| == |gens| == |nlbl| && Inv(G(), L(), dl, all, freed)
      requires 1 <= i < |gens| - 1
      modifies this`gens, this`nlbl, this`live, this`dl, this`freed
      ensures gens == Without(old(gens), i) && nlbl == Without(old(nlbl), i) && live == Without(old(live), i)
      ensures Inv(G(), L(), dl, all, freed) && old(freed) <= freed
    {
      hide Inv, Reclaimed, Frees;
      ghost var g, l, dl0 := G(), L(), dl;
      RemovePre(g, l, dl, all, freed, i);
      ReclaimBlocks(gens[i], gens[i + 1], gens[i - 1]);
      ReclaimInv(g, l, dl0, all, old(freed), i, dl, freed);
      FreesMore(dl0, old(freed), freed, gens[i + 1], gens[i - 1]);
      gens, nlbl := Without(gens, i), Without(nlbl, i);
      live := Without(live, i);
      WithoutLast(old(gens), memgen, i);
      WithoutLast(old(live), tip, i);
    }

    /** The tree being written is a snapshot from now on, and writing goes on in a new generation. */
    method NewSnap(newgen: int)
      requires Valid() && newgen > memgen
      modifies this`gens, this`nlbl, this`live, this`memgen
      ensures |gens| >= 3 && gens[0] == base && |live| == |gens| == |nlbl| && Inv(G(), L(), dl, all, freed)
      ensures gens == old(gens) + [old(memgen)] && live == old(live) + [tip] && memgen == newgen
      ensures nlbl == Relabelled(old(nlbl)) + [1]
      ensures forall b :: b in all ==> OldEnough(G(), b) && b.birth <= memgen
    {
      hide Inv;
      var o := |gens| - 1;
      ghost var g, l := G(), L();
      SnapInv(g, l, dl, all, freed, newgen);
      FrontSame(nlbl, nlbl[o] - 1);
      gens := gens + [memgen];
      nlbl := nlbl[o := nlbl[o] - 1] + [1];
      live := live + [tip];
      memgen := newgen;
      assert G() == g + [newgen] && L() == l + [l[|l| - 1]];
    }

    /** updatesnap: the tree being written is a snapshot from now on. When the one it was mounted from
        has no label left it goes. */
    method UpdateSnap(dirty: bool, newgen: int)
      requires Valid() && newgen > memgen
      modifies this
      ensures Valid() && tip == old(tip) && all == old(all) && old(freed) <= freed
      ensures nalloc == old(nalloc)
      ensures !dirty ==> gens == old(gens) && nlbl == old(nlbl) && memgen == old(memgen) && live == old(live)
      ensures !dirty ==> dl == old(dl) && freed == old(freed)
      ensures dirty ==> memgen == newgen && |gens| >= 2
      ensures dirty && Labels(old(nlbl)) > 1 ==>
                && gens == old(gens) + [old(memgen)] && live == old(live) + [tip]
                && nlbl == Relabelled(old(nlbl)) + [1] && dl == old(dl) && freed == old(freed)
      ensures dirty && Labels(old(nlbl)) == 1 ==>
                && gens == Front(old(gens)) + [old(memgen)] && live == Front(old(live)) + [tip]
                && nlbl == Front(old(nlbl)) + [1]
    {
      if !dirty {
        return;
      }
      hide Inv, Without, Front, OldEnough;
      var o := |gens| - 1;
      ghost var was := nlbl;
      NewSnap(newgen);
      SnapParts(was, nlbl, o);
      LastButOne(old(gens), old(memgen));
      LastButOne(old(live), tip);
      LastButOne(Relabelled(was), 1);
      if nlbl[o] == 0 {
        ghost var g := G();
        Remove(o);
        OldStill(g, G(), all, o);
      }
    }

    /** tagsnap, for a label that does not fork: the count in the snapshot's record. The source counts
        the label twice in the tree it has in memory. */
    method TagSnap(i: nat)
      requires Valid() && 1 <= i < |gens|
      modifies this`nlbl
      ensures Valid() && nlbl == old(nlbl)[i := old(nlbl)[i] + 1]
    {
      nlbl := nlbl[i := nlbl[i] + 1];
    }

    /** delsnap: a label of a snapshot with a successor is removed, and with the last one the snapshot.
        What the remaining snapshots and the tree being written refer to stays. */
    method DelSnap(i: nat)
      requires Valid() && 1 <= i < |gens| - 1
      modifies this`gens, this`nlbl, this`live, this`dl, this`freed
      ensures Valid() && old(freed) <= freed
      ensures old(nlbl)[i] > 1 ==> gens == old(gens) && live == old(live) && freed == old(freed) && dl == old(dl)
      ensures old(nlbl)[i] > 1 ==> nlbl == old(nlbl)[i := old(nlbl)[i] - 1]
      ensures old(nlbl)[i] == 1 ==> gens == Without(old(gens), i) && live == Without(old(live), i)
      ensures old(nlbl)[i] == 1 ==> nlbl == Without(old(nlbl), i)
    {
      hide Inv;
      nlbl := nlbl[i := nlbl[i] - 1];
      if nlbl[i] == 0 {
        Remove(i);
      }
    }

    /** A snapshot loses n of its labels: it goes with the last one, and not before. */
    method DelLabels(i: nat, n: int)
      requires Valid() && 1 <= i < |gens| - 1 && 0 <= n <= nlbl[i]
      modifies this`gens, this`nlbl, this`live, this`dl, this`freed
      ensures Valid() && old(freed) <= freed
      ensures n < old(nlbl)[i] ==> gens == old(gens) && live == old(live) && freed == old(freed) && dl == old(dl)
      ensures n < old(nlbl)[i] ==> nlbl == old(nlbl)[i := old(nlbl)[i] - n]
      ensures n == old(nlbl)[i] ==> gens == Without(old(gens), i) && live == Without(old(live), i)
      ensures n == old(nlbl)[i] ==> nlbl == Without(old(nlbl), i)
    {
      hide Inv;
      var had := nlbl[i];
      var done := 0;
      while done < n
        invariant 0 <= done <= n && Valid() && old(freed) <= freed
        invariant done < had ==> gens == old(gens) && live == old(live) && freed == old(freed) && dl == old(dl)
        invariant done < had ==> nlbl == old(nlbl)[i := had - done]
        invariant done == had ==> gens == Without(old(gens), i) && live == Without(old(live), i)
        invariant done == had ==> nlbl == Without(old(nlbl), i)
      {
        WithoutSame(old(nlbl), i, nlbl[i]);
        DelSnap(i);
        done := done + 1;
      }
    }

    /** What is freed at any time: the blocks born after the base that nothing refers to any more. */
    lemma FreedExactly(b: Blk)
      requires Valid() && b.birth > base
      ensures b in freed <==> b in all && b !in tip && forall i :: 0 <= i < |live| ==> b !in live[i]
    {
      assert Ok(G(), L(), dl, all, freed, b);
      forall i ensures In(L(), i, b) <==> (0 <= i < |live| && b in live[i]) || (i == |live| && b in tip) {
      }
      if exists i :: In(L(), i, b) {
        var i :| In(L(), i, b);
      } else {
        assert !In(L(), |live|, b);
        assert forall i :: 0 <= i < |live| ==> !In(L(), i, b);
      }
    }
  }

  lemma RemovePre(g: seq<int>, l: seq<set<Blk>>, dl: Lists, all: set<Blk>, freed: set<Blk>, i: nat)
    requires Inv(g, l, dl, all, freed) && 1 <= i && i + 1 < |g|
    ensures g[i] != g[i + 1]
    ensures forall k :: k in dl && k.gen == g[i] && k.bgen > g[i - 1] ==> dl[k] == {}
    ensures forall k, b :: k in dl && b in dl[k] ==> b.birth == k.bgen && b !in freed
  {
    forall k, b | k in dl && b in dl[k] ensures b.birth == k.bgen && b !in freed {
      OneList(g, l, dl, all, freed, k, k, b);
    }
    forall k, b | k in dl && k.gen == g[i] && k.bgen > g[i - 1] ensures b !in dl[k] {
      assert Ok(g, l, dl, all, freed, b) && DeadAt(g, l, dl, i, b);
      assert k == Key(g[i], k.bgen);
    }
  }

  lemma FreesMore(dl: Lists, freed: set<Blk>, freed': set<Blk>, succ: int, prev: int)
    requires Frees(dl, freed, freed', succ, prev)
    ensures freed <= freed'
  {
  }

  /** The labels of the snapshot mounted last. */
  function Labels(nlbl: seq<int>): int {
    if nlbl == [] then 0 else nlbl[|nlbl| - 1]
  }

  function Front<T>(s: seq<T>): seq<T> {
    if s == [] then [] else s[..|s| - 1]
  }

  /** One label less for the last one. */
  function Relabelled(nlbl: seq<int>): seq<int> {
    if nlbl == [] then [] else Front(nlbl) + [Labels(nlbl) - 1]
  }

  lemma SnapParts(was: seq<int>, now: seq<int>, o: nat)
    requires |was| == o + 1 && now == Relabelled(was) + [1]
    ensures now[o] == Labels(was) - 1 && now[o + 1] == 1 && forall i :: 0 <= i < o ==> now[i] == was[i]
    ensures |Relabelled(was)| == o + 1 && Front(Relabelled(was)) == Front(was)
  {
  }

  /** A snapshot before the last going leaves every block old enough. */
  lemma OldStill(g: seq<int>, g': seq<int>, all: set<Blk>, o: nat)
    requires |g| >= 4 && o == |g| - 3 && g' == Without(g, o) && forall b :: b in all ==> OldEnough(g, b)
    ensures forall b :: b in all ==> OldEnough(g', b)
  {
    hide Without;
  }

  lemma LastButOne<T>(s: seq<T>, x: T)
    requires s != []
    ensures Without(s + [x], |s| - 1) == Front(s) + [x]
  {
  }

  lemma FrontSame<T>(s: seq<T>, x: T)
    requires s != []
    ensures Front(s[|s| - 1 := x]) == Front(s) && s[|s| - 1 := x] == Front(s) + [x]
  {
  }

  lemma WithoutSame<T>(s: seq<T>, i: nat, x: T)
    requires i < |s|
    ensures Without(s[i := x], i) == Without(s, i)
  {
  }

  lemma WithoutLast<T>(s: seq<T>, x: T, i: nat)
    requires i < |s|
    ensures Without(s + [x], i) == Without(s, i) + [x]
  {
  }

  function Merged(dl: Lists, merge: int, gen: int, bgen: int): Lists {
    (dl - {Key(gen, bgen)})[Key(merge, bgen) := At(dl, Key(merge, bgen)) + At(dl, Key(gen, bgen))]
  }

  ghost predicate Births(dl: Lists) {
    forall k, b :: k in dl && b in dl[k] ==> b.birth == k.bgen
  }

  /** In the first loop of reclaimblocks: the lists not in todo have been moved on. */
  ghost predicate FirstPass(dl0: Lists, dl: Lists, todo: set<Key>, gen: int, succ: int, prev: int) {
    && gen != succ && Births(dl0) && Births(dl)
    && (forall k :: k in todo ==> k.gen == gen && k in dl && k in dl0 && dl[k] == dl0[k])
    && (forall k :: k in dl ==> (k.gen == gen ==> k in todo) && (k in dl0 || k.gen == succ))
    && (forall k :: k in dl0 && k.gen == gen && k.bgen > prev ==> dl0[k] == {})
    && (forall k: Key :: k.gen != gen && k.gen != succ ==> At(dl, k) == At(dl0, k))
    && (forall b :: MovedAt(dl0, dl, todo, gen, succ, prev, b))
  }

  ghost predicate MovedAt(dl0: Lists, dl: Lists, todo: set<Key>, gen: int, succ: int, prev: int, b: int) {
    At(dl, Key(succ, b)) ==
      if b <= prev && Key(gen, b) !in todo then At(dl0, Key(succ, b)) + At(dl0, Key(gen, b)) else At(dl0, Key(succ, b))
  }

  lemma FirstStart(dl: Lists, todo: set<Key>, gen: int, succ: int, prev: int)
    requires gen != succ && Births(dl) && todo == set k | k in dl && k.gen == gen
    requires forall k :: k in dl && k.gen == gen && k.bgen > prev ==> dl[k] == {}
    ensures FirstPass(dl, dl, todo, gen, succ, prev)
  {
    forall b ensures MovedAt(dl, dl, todo, gen, succ, prev, b) {
      if Key(gen, b) !in todo { assert Key(gen, b) !in dl; }
    }
  }

  lemma FirstStep(dl0: Lists, dl: Lists, todo: set<Key>, gen: int, succ: int, prev: int, k: Key)
    requires FirstPass(dl0, dl, todo, gen, succ, prev) && k in todo
    ensures k.gen == gen != succ && k in dl
    ensures k.bgen <= prev ==> FirstPass(dl0, Merged(dl, succ, gen, k.bgen), todo - {k}, gen, succ, prev)
    ensures k.bgen > prev ==> dl[k] == {} && FirstPass(dl0, dl - {k}, todo - {k}, gen, succ, prev)
  {
    assert k == Key(gen, k.bgen);
    hide MovedAt;
    if k.bgen <= prev {
      var dl' := Merged(dl, succ, gen, k.bgen);
      forall b ensures MovedAt(dl0, dl', todo - {k}, gen, succ, prev, b) {
        assert MovedAt(dl0, dl, todo, gen, succ, prev, b);
        MoveOne(dl0, dl, todo, gen, succ, prev, k.bgen, b);
      }
      MergedBirths(dl, succ, gen, k.bgen);
      hide Births;
    } else {
      forall b ensures MovedAt(dl0, dl - {k}, todo - {k}, gen, succ, prev, b) {
        assert MovedAt(dl0, dl, todo, gen, succ, prev, b);
        SkipOne(dl0, dl, todo, gen, succ, prev, k.bgen, b);
      }
    }
  }

  lemma MergedBirths(dl: Lists, merge: int, gen: int, bgen: int)
    requires Births(dl)
    ensures Births(Merged(dl, merge, gen, bgen))
  {
  }

  lemma MoveOne(dl0: Lists, dl: Lists, todo: set<Key>, gen: int, succ: int, prev: int, c: int, b: int)
    requires MovedAt(dl0, dl, todo, gen, succ, prev, b) && Key(gen, c) in todo && c <= prev && gen != succ
    requires Key(gen, c) in dl && Key(gen, c) in dl0 && dl[Key(gen, c)] == dl0[Key(gen, c)]
    ensures MovedAt(dl0, Merged(dl, succ, gen, c), todo - {Key(gen, c)}, gen, succ, prev, b)
  {
  }

  lemma SkipOne(dl0: Lists, dl: Lists, todo: set<Key>, gen: int, succ: int, prev: int, c: int, b: int)
    requires MovedAt(dl0, dl, todo, gen, succ, prev, b) && c > prev && gen != succ
    ensures MovedAt(dl0, dl - {Key(gen, c)}, todo - {Key(gen, c)}, gen, succ, prev, b)
  {
  }

  /** In the second loop: the successor's lists not in todo and younger than prev are gone. */
  ghost predicate SecondPass(dl1: Lists, dl: Lists, todo: set<Key>, freed1: set<Blk>, freed: set<Blk>, succ: int,
                             prev: int) {
    && Births(dl1)
    && (forall k :: k in todo ==> k.gen == succ && k in dl)
    && (forall k :: k in dl ==> k in dl1 && dl[k] == dl1[k])
    && (forall k :: k in dl1 ==> (k in dl <==> !(k.gen == succ && k.bgen > prev && k !in todo)))
    && (forall k, b :: k in dl1 && b in dl1[k] ==> b !in freed1)
    && (forall b: Blk ::
          b in freed <==>
            b in freed1 || (b.birth > prev && b in At(dl1, Key(succ, b.birth)) && Key(succ, b.birth) !in todo))
  }

  lemma SecondStep(dl1: Lists, dl: Lists, todo: set<Key>, freed1: set<Blk>, freed: set<Blk>, succ: int, prev: int,
                   k: Key)
    requires SecondPass(dl1, dl, todo, freed1, freed, succ, prev) && k in todo && k.bgen > prev
    ensures k in dl && dl[k] !! freed
    ensures SecondPass(dl1, dl - {k}, todo - {k}, freed1, freed + dl[k], succ, prev)
  {
    assert k == Key(succ, k.bgen);
  }

  lemma SecondSkip(dl1: Lists, dl: Lists, todo: set<Key>, freed1: set<Blk>, freed: set<Blk>, succ: int, prev: int,
                   k: Key)
    requires SecondPass(dl1, dl, todo, freed1, freed, succ, prev) && k in todo && k.bgen <= prev
    ensures SecondPass(dl1, dl, todo - {k}, freed1, freed, succ, prev)
  {
  }

  lemma SecondStart(dl: Lists, todo: set<Key>, freed: set<Blk>, succ: int, prev: int)
    requires Births(dl) && todo == set k | k in dl && k.gen == succ
    requires forall k, b :: k in dl && b in dl[k] ==> b !in freed
    ensures SecondPass(dl, dl, todo, freed, freed, succ, prev)
  {
  }

  /** What the first loop moved was not freed. */
  lemma FirstKept(dl0: Lists, dl: Lists, freed: set<Blk>, gen: int, succ: int, prev: int)
    requires FirstPass(dl0, dl, {}, gen, succ, prev)
    requires forall k, b :: k in dl0 && b in dl0[k] ==> b !in freed
    ensures Births(dl) && forall k, b :: k in dl && b in dl[k] ==> b !in freed
  {
    forall k | k in dl ensures forall b :: b in dl[k] ==> b !in freed {
      if k.gen == succ {
        assert k == Key(succ, k.bgen) && MovedAt(dl0, dl, {}, gen, succ, prev, k.bgen);
      } else {
        assert At(dl, k) == At(dl0, k);
      }
    }
  }

  lemma BothDone(dl0: Lists, dl1: Lists, dl: Lists, freed1: set<Blk>, freed: set<Blk>, gen: int, succ: int, prev: int)
    requires gen != succ && FirstPass(dl0, dl1, {}, gen, succ, prev)
              && SecondPass(dl1, dl, {}, freed1, freed, succ, prev)
    ensures Reclaimed(dl0, dl, gen, succ, prev) && Frees(dl0, freed1, freed, succ, prev) && Births(dl)
  {
    forall b ensures At(dl, Key(succ, b)) == if b <= prev then At(dl0, Key(succ, b)) + At(dl0, Key(gen, b)) else {} {
      assert MovedAt(dl0, dl1, {}, gen, succ, prev, b);
    }
    forall b: Blk ensures b in freed <==> b in freed1 || (b.birth > prev && b in At(dl0, Key(succ, b.birth))) {
      assert MovedAt(dl0, dl1, {}, gen, succ, prev, b.birth);
    }
  }

  lemma InAll(g: seq<int>, l: seq<set<Blk>>, dl: Lists, all: set<Blk>, freed: set<Blk>, b: Blk)
    requires Inv(g, l, dl, all, freed) && In(l, |l| - 1, b)
    ensures b in all && b.birth <= g[|g| - 1]
  {
    assert Ok(g, l, dl, all, freed, b);
    assert Referenced(l, b);
  }

  lemma StartInv(g: seq<int>, l: seq<set<Blk>>, dl: Lists, all: set<Blk>, freed: set<Blk>, blocks: set<Blk>)
    requires |g| == |l| == 3 && Ascending(g) && l == [blocks, blocks, blocks] && dl == map[] && all == blocks
              && freed == {}
    requires forall b :: b in blocks ==> b.birth <= g[0]
    ensures Inv(g, l, dl, all, freed)
  {
    forall b ensures Ok(g, l, dl, all, freed, b) {
      assert In(l, 0, b) <==> b in blocks;
    }
  }
}
