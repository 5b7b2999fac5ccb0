/** Deadlists on a linear timeline of snapshots: what holds of them, block by block (src/snap.c,
    killblk, mergedl, reclaimblocks, delsnap and updatesnap; src/blk.c, freebp). */
module Snapshots {
  /** A block as allocated: n tells apart the blocks an address is used for one after the other. */
  datatype Blk = Blk(addr: int, birth: int, n: nat)

  /** The generation a deadlist belongs to, and the birth of its blocks. */
  datatype Key = Key(gen: int, bgen: int)

  type Lists = map<Key, set<Blk>>

  function At(dl: Lists, k: Key): set<Blk> { if k in dl then dl[k] else {} }

  // ----- the timeline: g has the base, the snapshots in order and the tree being written; l has
  // what each of them refers to -----

  ghost predicate Ascending(g: seq<int>) {
    forall i, j :: 0 <= i < j < |g| ==> g[i] < g[j]
  }

  predicate In(l: seq<set<Blk>>, i: int, b: Blk) { 0 <= i < |l| && b in l[i] }

  ghost predicate Referenced(l: seq<set<Blk>>, b: Blk) {
    exists i :: In(l, i, b)
  }

  /** Nothing refers to blocks younger than itself; and what a later tree refers to, every earlier one
      that is old enough refers to as well. */
  ghost predicate Lives(g: seq<int>, l: seq<set<Blk>>, b: Blk)
    requires |g| == |l|
  {
    && (forall i :: In(l, i, b) ==> b.birth <= g[i])
    && (forall i, j :: 0 <= i < j && In(l, j, b) && b.birth <= g[i] ==> In(l, i, b))
  }

  /** b is on a deadlist of g[i] exactly when it was born after the base and g[i] is the first that no
      longer refers to it. */
  ghost predicate DeadAt(g: seq<int>, l: seq<set<Blk>>, dl: Lists, i: int, b: Blk)
    requires 0 <= i < |g| == |l|
  {
    b in At(dl, Key(g[i], b.birth)) <==> b.birth > g[0] && In(l, i - 1, b) && !In(l, i, b)
  }

  /** What is freed is exactly what was born after the base and nothing refers to any more. */
  ghost predicate FreedAt(g: seq<int>, l: seq<set<Blk>>, all: set<Blk>, freed: set<Blk>, b: Blk)
    requires g != []
  {
    && (b in freed <==> b in all && b.birth > g[0] && !Referenced(l, b))
    && (Referenced(l, b) ==> b in all)
  }

  ghost predicate Ok(g: seq<int>, l: seq<set<Blk>>, dl: Lists, all: set<Blk>, freed: set<Blk>, b: Blk)
    requires 0 < |g| == |l|
  {
    && Lives(g, l, b) && FreedAt(g, l, all, freed, b)
    && (forall i :: 0 <= i < |g| ==> DeadAt(g, l, dl, i, b))
  }

  /** Lists hold blocks of their own birth, and belong to a generation of the timeline. */
  ghost predicate ListsOk(g: seq<int>, dl: Lists) {
    forall k :: k in dl ==> k.gen in g && forall b :: b in dl[k] ==> b.birth == k.bgen
  }

  ghost predicate Inv(g: seq<int>, l: seq<set<Blk>>, dl: Lists, all: set<Blk>, freed: set<Blk>) {
    && |g| == |l| >= 2 && Ascending(g) && ListsOk(g, dl)
    && forall b {:trigger Ok(g, l, dl, all, freed, b)} :: Ok(g, l, dl, all, freed, b)
  }

  /** A block is on one deadlist at most, and then it is not freed. */
  lemma OneList(g: seq<int>, l: seq<set<Blk>>, dl: Lists, all: set<Blk>, freed: set<Blk>, j: Key, k: Key, b: Blk)
    requires Inv(g, l, dl, all, freed) && b in At(dl, j) && b in At(dl, k)
    ensures j == k && b !in freed
  {
    var x :| 0 <= x < |g| && g[x] == j.gen;
    var y :| 0 <= y < |g| && g[y] == k.gen;
    assert Ok(g, l, dl, all, freed, b);
    assert j == Key(g[x], b.birth) && k == Key(g[y], b.birth);
    assert DeadAt(g, l, dl, x, b) && DeadAt(g, l, dl, y, b);
    assert b.birth <= g[x - 1] && b.birth <= g[y - 1];
    assert In(l, x - 1, b) && In(l, y - 1, b);
  }

  /** A block nothing happened to. */
  lemma OkSame(g: seq<int>, l: seq<set<Blk>>, dl: Lists, all: set<Blk>, freed: set<Blk>,
               l': seq<set<Blk>>, dl': Lists, all': set<Blk>, freed': set<Blk>, b: Blk)
    requires 0 < |g| == |l| == |l'| && Ok(g, l, dl, all, freed, b)
    requires forall i :: In(l', i, b) <==> In(l, i, b)
    requires forall k :: b in At(dl', k) <==> b in At(dl, k)
    requires (b in all' <==> b in all) && (b in freed' <==> b in freed)
    ensures Ok(g, l', dl', all', freed', b)
  {
    forall i | 0 <= i < |g| ensures DeadAt(g, l', dl', i, b) {
      assert DeadAt(g, l, dl, i, b);
    }
    assert Referenced(l', b) <==> Referenced(l, b);
  }

  // ----- writing -----

  /** A new block in the tree being written. */
  lemma WriteInv(g: seq<int>, l: seq<set<Blk>>, dl: Lists, all: set<Blk>, freed: set<Blk>, b: Blk)
    requires Inv(g, l, dl, all, freed) && b !in all && b.birth == g[|g| - 1]
    ensures Inv(g, l[|l| - 1 := l[|l| - 1] + {b}], dl, all + {b}, freed)
  {
    hide Ok;
    var l', all' := l[|l| - 1 := l[|l| - 1] + {b}], all + {b};
    forall x ensures Ok(g, l', dl, all', freed, x) {
      assert Ok(g, l, dl, all, freed, x);
      if x == b {
        WriteNew(g, l, dl, all, freed, b);
      } else {
        OkSame(g, l, dl, all, freed, l', dl, all', freed, x);
      }
    }
  }

  lemma WriteNew(g: seq<int>, l: seq<set<Blk>>, dl: Lists, all: set<Blk>, freed: set<Blk>, b: Blk)
    requires |g| == |l| >= 2 && Ascending(g) && Ok(g, l, dl, all, freed, b) && b !in all && b.birth == g[|g| - 1]
    ensures Ok(g, l[|l| - 1 := l[|l| - 1] + {b}], dl, all + {b}, freed, b)
  {
    var n, l' := |l| - 1, l[|l| - 1 := l[|l| - 1] + {b}];
    assert In(l', n, b);
    forall i ensures In(l', i, b) <==> i == n {
      assert !In(l, i, b);
    }
    forall i | 0 <= i < |g| ensures DeadAt(g, l', dl, i, b) {
      assert DeadAt(g, l, dl, i, b);
    }
  }

  // ----- killing -----

  function Put(dl: Lists, k: Key, b: Blk): Lists {
    dl[k := At(dl, k) + {b}]
  }

  /** Births are generations of the tree being written: of the present one, or no later than the last
      snapshot's. */
  ghost predicate OldEnough(g: seq<int>, b: Blk) {
    |g| >= 2 && (b.birth < g[|g| - 1] ==> b.birth <= g[|g| - 2])
  }

  /** A block that a snapshot refers to leaves the tree being written, and goes on its deadlist. */
  lemma KillInv(g: seq<int>, l: seq<set<Blk>>, dl: Lists, all: set<Blk>, freed: set<Blk>, b: Blk)
    requires Inv(g, l, dl, all, freed) && b in l[|l| - 1] && g[0] < b.birth < g[|g| - 1] && OldEnough(g, b)
    ensures Inv(g, l[|l| - 1 := l[|l| - 1] - {b}], Put(dl, Key(g[|g| - 1], b.birth), b), all, freed)
  {
    hide Ok;
    var l', dl' := l[|l| - 1 := l[|l| - 1] - {b}], Put(dl, Key(g[|g| - 1], b.birth), b);
    forall x ensures Ok(g, l', dl', all, freed, x) {
      assert Ok(g, l, dl, all, freed, x);
      if x == b {
        KillOne(g, l, dl, all, freed, b);
      } else {
        OkSame(g, l, dl, all, freed, l', dl', all, freed, x);
      }
    }
  }

  lemma KillOne(g: seq<int>, l: seq<set<Blk>>, dl: Lists, all: set<Blk>, freed: set<Blk>, b: Blk)
    requires |g| == |l| >= 2 && Ascending(g) && Ok(g, l, dl, all, freed, b)
    requires b in l[|l| - 1] && g[0] < b.birth < g[|g| - 1] && OldEnough(g, b)
    ensures Ok(g, l[|l| - 1 := l[|l| - 1] - {b}], Put(dl, Key(g[|g| - 1], b.birth), b), all, freed, b)
  {
    var n := |l| - 1;
    var l', dl' := l[n := l[n] - {b}], Put(dl, Key(g[n], b.birth), b);
    assert In(l, n, b) && In(l, n - 1, b);
    assert forall i :: In(l', i, b) <==> i != n && In(l, i, b);
    assert In(l', n - 1, b);
    forall i | 0 <= i < |g| ensures DeadAt(g, l', dl', i, b) {
      assert DeadAt(g, l, dl, i, b);
      if i < n { assert g[i] < g[n]; }
    }
  }

  /** A block no snapshot refers to is freed at once. */
  lemma DropInv(g: seq<int>, l: seq<set<Blk>>, dl: Lists, all: set<Blk>, freed: set<Blk>, b: Blk)
    requires Inv(g, l, dl, all, freed) && b in l[|l| - 1] && b.birth == g[|g| - 1]
    ensures Inv(g, l[|l| - 1 := l[|l| - 1] - {b}], dl, all, freed + {b}) && b !in freed
  {
    hide Ok;
    var l', freed' := l[|l| - 1 := l[|l| - 1] - {b}], freed + {b};
    forall x ensures Ok(g, l', dl, all, freed', x) {
      assert Ok(g, l, dl, all, freed, x);
      if x == b {
        DropOne(g, l, dl, all, freed, b);
      } else {
        OkSame(g, l, dl, all, freed, l', dl, all, freed', x);
      }
    }
    assert Ok(g, l, dl, all, freed, b);
    DropOne(g, l, dl, all, freed, b);
  }

  lemma DropOne(g: seq<int>, l: seq<set<Blk>>, dl: Lists, all: set<Blk>, freed: set<Blk>, b: Blk)
    requires |g| == |l| >= 2 && Ascending(g) && Ok(g, l, dl, all, freed, b)
    requires b in l[|l| - 1] && b.birth == g[|g| - 1]
    ensures Ok(g, l[|l| - 1 := l[|l| - 1] - {b}], dl, all, freed + {b}, b) && b !in freed
  {
    var n, l' := |l| - 1, l[|l| - 1 := l[|l| - 1] - {b}];
    assert In(l, n, b);
    forall i ensures (In(l, i, b) <==> i == n) && !In(l', i, b) {
      if 0 <= i < n { assert g[i] < g[n]; }
    }
    assert g[0] < g[n];
    forall i | 0 <= i < |g| ensures DeadAt(g, l', dl, i, b) {
      assert DeadAt(g, l, dl, i, b);
    }
  }

  /** A block of the base is left to the chain the base belongs to. */
  lemma LeakInv(g: seq<int>, l: seq<set<Blk>>, dl: Lists, all: set<Blk>, freed: set<Blk>, b: Blk)
    requires Inv(g, l, dl, all, freed) && b in l[|l| - 1] && b.birth <= g[0]
    ensures Inv(g, l[|l| - 1 := l[|l| - 1] - {b}], dl, all, freed)
  {
    hide Ok;
    var l' := l[|l| - 1 := l[|l| - 1] - {b}];
    forall x ensures Ok(g, l', dl, all, freed, x) {
      assert Ok(g, l, dl, all, freed, x);
      if x == b {
        LeakOne(g, l, dl, all, freed, b);
      } else {
        OkSame(g, l, dl, all, freed, l', dl, all, freed, x);
      }
    }
  }

  lemma LeakOne(g: seq<int>, l: seq<set<Blk>>, dl: Lists, all: set<Blk>, freed: set<Blk>, b: Blk)
    requires |g| == |l| >= 2 && Ascending(g) && Ok(g, l, dl, all, freed, b)
    requires b in l[|l| - 1] && b.birth <= g[0]
    ensures Ok(g, l[|l| - 1 := l[|l| - 1] - {b}], dl, all, freed, b)
  {
    var n, l' := |l| - 1, l[|l| - 1 := l[|l| - 1] - {b}];
    assert In(l, n, b);
    assert forall i :: In(l', i, b) <==> i != n && In(l, i, b);
    forall i | 0 <= i < |g| ensures DeadAt(g, l', dl, i, b) {
      assert DeadAt(g, l, dl, i, b);
    }
  }

  // ----- a snapshot -----

  /** The tree being written becomes a snapshot, and writing goes on in a younger generation. */
  lemma SnapInv(g: seq<int>, l: seq<set<Blk>>, dl: Lists, all: set<Blk>, freed: set<Blk>, m: int)
    requires Inv(g, l, dl, all, freed) && m > g[|g| - 1]
    ensures Inv(g + [m], l + [l[|l| - 1]], dl, all, freed)
  {
    hide Ok;
    var g', l' := g + [m], l + [l[|l| - 1]];
    forall b ensures Ok(g', l', dl, all, freed, b) {
      assert Ok(g, l, dl, all, freed, b);
      SnapOne(g, l, dl, all, freed, m, b);
    }
  }

  lemma SnapOne(g: seq<int>, l: seq<set<Blk>>, dl: Lists, all: set<Blk>, freed: set<Blk>, m: int, b: Blk)
    requires |g| == |l| >= 2 && Ascending(g) && ListsOk(g, dl) && Ok(g, l, dl, all, freed, b) && m > g[|g| - 1]
    ensures Ok(g + [m], l + [l[|l| - 1]], dl, all, freed, b)
  {
    var n := |l| - 1;
    var g', l' := g + [m], l + [l[n]];
    assert forall i :: In(l', i, b) <==> In(l, i, b) || (i == n + 1 && In(l, n, b));
    assert Referenced(l', b) <==> Referenced(l, b) by {
      if i :| In(l, i, b) { assert In(l', i, b); }
    }
    assert m !in g;
    forall i | 0 <= i < |g'| ensures DeadAt(g', l', dl, i, b) {
      if i <= n { assert DeadAt(g, l, dl, i, b); }
    }
  }

  // ----- reclaiming -----

  /** The deadlists after generation gen, between prev and succ, is reclaimed. */
  ghost predicate Reclaimed(dl: Lists, dl': Lists, gen: int, succ: int, prev: int) {
    && (forall k :: k in dl' ==> k.gen != gen && (k in dl || k.gen == succ))
    && (forall k: Key :: k.gen != gen && k.gen != succ ==> At(dl', k) == At(dl, k))
    && (forall b :: At(dl', Key(succ, b)) == if b <= prev then At(dl, Key(succ, b)) + At(dl, Key(gen, b)) else {})
  }

  /** What reclaiming frees. */
  ghost predicate Frees(dl: Lists, freed: set<Blk>, freed': set<Blk>, succ: int, prev: int) {
    forall b: Blk :: b in freed' <==> b in freed || (b.birth > prev && b in At(dl, Key(succ, b.birth)))
  }

  function Without<T>(s: seq<T>, i: nat): (r: seq<T>)
    requires i < |s|
    ensures |r| == |s| - 1 && forall j :: 0 <= j < |r| ==> r[j] == s[if j < i then j else j + 1]
  {
    s[..i] + s[i + 1..]
  }

  function Skip(i: nat, j: int): int { if j < i then j else j + 1 }

  lemma InWithout(l: seq<set<Blk>>, i: nat, b: Blk)
    requires i < |l|
    ensures forall j :: In(Without(l, i), j, b) <==> In(l, Skip(i, j), b)
    ensures Referenced(Without(l, i), b) <==> exists j :: j != i && In(l, j, b)
  {
    hide Without;
    var l' := Without(l, i);
    if j :| j != i && In(l, j, b) {
      assert In(l', if j < i then j else j - 1, b);
    }
    if j :| In(l', j, b) {
      assert In(l, Skip(i, j), b);
    }
  }

  lemma ReclaimInv(g: seq<int>, l: seq<set<Blk>>, dl: Lists, all: set<Blk>, freed: set<Blk>, i: nat, dl': Lists,
                   freed': set<Blk>)
    requires Inv(g, l, dl, all, freed) && 1 <= i && i + 1 < |g|
    requires Reclaimed(dl, dl', g[i], g[i + 1], g[i - 1]) && Frees(dl, freed, freed', g[i + 1], g[i - 1])
    requires forall k, b :: k in dl' && b in dl'[k] ==> b.birth == k.bgen
    ensures Inv(Without(g, i), Without(l, i), dl', all, freed')
  {
    hide Ok, Frees;
    assert Ascending(Without(g, i));
    forall k | k in dl' ensures k.gen in Without(g, i) {
      var j :| 0 <= j < |g| && g[j] == k.gen;
      assert j != i;
      assert Without(g, i)[if j < i then j else j - 1] == k.gen;
    }
    hide Without, Reclaimed;
    forall b ensures Ok(Without(g, i), Without(l, i), dl', all, freed', b) {
      assert Ok(g, l, dl, all, freed, b);
      ReclaimOne(g, l, dl, all, freed, i, dl', freed', b);
    }
  }

  lemma ReclaimOne(g: seq<int>, l: seq<set<Blk>>, dl: Lists, all: set<Blk>, freed: set<Blk>, i: nat, dl': Lists,
                   freed': set<Blk>, b: Blk)
    requires |g| == |l| >= 2 && Ascending(g) && Ok(g, l, dl, all, freed, b) && 1 <= i && i + 1 < |g|
    requires Reclaimed(dl, dl', g[i], g[i + 1], g[i - 1]) && Frees(dl, freed, freed', g[i + 1], g[i - 1])
    ensures Ok(Without(g, i), Without(l, i), dl', all, freed', b)
  {
    var g', l' := Without(g, i), Without(l, i);
    InWithout(l, i, b);
    hide Without;
    assert g'[0] == g[0];
    FreeOne(g, l, dl, all, freed, i, freed', b);
    forall j | 0 <= j < |g'| ensures DeadAt(g', l', dl', j, b) {
      DeadOne(g, l, dl, all, freed, i, dl', j, b);
    }
  }

  /** The blocks only the removed snapshot referred to are those on its successor's deadlists that are
      younger than its predecessor. */
  lemma FreeOne(g: seq<int>, l: seq<set<Blk>>, dl: Lists, all: set<Blk>, freed: set<Blk>, i: nat, freed': set<Blk>,
                b: Blk)
    requires |g| == |l| >= 2 && Ascending(g) && Ok(g, l, dl, all, freed, b) && 1 <= i && i + 1 < |g|
    requires Frees(dl, freed, freed', g[i + 1], g[i - 1])
    ensures FreedAt(Without(g, i), Without(l, i), all, freed', b)
  {
    var g', l' := Without(g, i), Without(l, i);
    InWithout(l, i, b);
    assert g'[0] == g[0];
    hide Without;
    assert DeadAt(g, l, dl, i + 1, b);
    if b.birth > g[i - 1] && In(l, i, b) && !In(l, i + 1, b) {
      forall j | j != i ensures !In(l, j, b) {
        if 0 <= j < i { assert g[j] <= g[i - 1]; } else if i + 1 < j { assert In(l, j, b) ==> In(l, i + 1, b); }
      }
    }
    if Referenced(l, b) && !Referenced(l', b) {
      assert In(l, i, b);
      assert !In(l, i - 1, b) && !In(l, i + 1, b);
    }
    assert g[0] <= g[i - 1];
  }

  lemma DeadOne(g: seq<int>, l: seq<set<Blk>>, dl: Lists, all: set<Blk>, freed: set<Blk>, i: nat, dl': Lists, j: nat,
                b: Blk)
    requires |g| == |l| >= 2 && Ascending(g) && Ok(g, l, dl, all, freed, b) && 1 <= i && i + 1 < |g| && j < |g| - 1
    requires Reclaimed(dl, dl', g[i], g[i + 1], g[i - 1])
    ensures DeadAt(Without(g, i), Without(l, i), dl', j, b)
  {
    var g', l' := Without(g, i), Without(l, i);
    InWithout(l, i, b);
    assert g'[0] == g[0] && g'[j] == g[Skip(i, j)];
    hide Without;
    if j == i {
      assert DeadAt(g, l, dl, i, b) && DeadAt(g, l, dl, i + 1, b);
      assert In(l', i, b) <==> In(l, i + 1, b);
      assert In(l', i - 1, b) <==> In(l, i - 1, b);
    } else {
      var k := Skip(i, j);
      assert DeadAt(g, l, dl, k, b);
      assert Key(g[k], b.birth).gen != g[i] && Key(g[k], b.birth).gen != g[i + 1];
      assert In(l', j - 1, b) <==> In(l, k - 1, b);
    }
  }
}
