/** Entries of the allocation log: their words, and the free set they add up to (src/blk.c, logappend
    and loadlog). */
module LogEnts {
  import opened Dat
  import opened Ranges

  const LogAlloc1 := 1
  const LogFree1 := 2
  const LogSync := 3
  const LogAlloc := 4
  const LogFree := 5
  const Log2wide := LogAlloc

  datatype Ent = Alloc(off: int, len: int) | Free(off: int, len: int) | Sync(gen: nat)

  /** An entry that allocates or frees whole blocks, as the source asserts. */
  predicate EntOk(e: Ent) { e.Sync? || (e.off >= 0 && Whole(e.off, e.len)) }

  // ----- words -----

  /** The words logappend writes: one block takes a single word. */
  function Words(e: Ent): seq<int> {
    match e
    case Alloc(off, len) => if len == Blksz then [off + LogAlloc1] else [off + LogAlloc, len]
    case Free(off, len) => if len == Blksz then [off + LogFree1] else [off + LogFree, len]
    case Sync(gen) => [gen * 256 + LogSync]
  }

  function OpOf(w: int): int { w % 256 }

  function Width(op: int): nat { if op >= Log2wide then 2 else 1 }

  /** The first word starts an entry, and all of it is there. */
  predicate HeadOk(ws: seq<int>) {
    ws != [] && ws[0] >= 0 && LogAlloc1 <= OpOf(ws[0]) <= LogFree && Width(OpOf(ws[0])) <= |ws|
  }

  function Rest(ws: seq<int>): (r: seq<int>)
    requires HeadOk(ws)
    ensures |r| < |ws|
  {
    ws[Width(OpOf(ws[0]))..]
  }

  predicate ParseOk(ws: seq<int>)
    decreases |ws|
  {
    ws == [] || (HeadOk(ws) && ParseOk(Rest(ws)))
  }

  /** What loadlog reads an entry as. */
  function Head(ws: seq<int>): Ent
    requires HeadOk(ws)
  {
    var op := OpOf(ws[0]);
    var off := ws[0] - op;
    var len := if op >= Log2wide then ws[1] else Blksz;
    if op == LogSync then Sync(ws[0] / 256)
    else if op == LogAlloc || op == LogAlloc1 then Alloc(off, len)
    else Free(off, len)
  }

  function Parse(ws: seq<int>): seq<Ent>
    decreases |ws|
  {
    if !HeadOk(ws) then [] else [Head(ws)] + Parse(Rest(ws))
  }

  lemma HeadConcat(a: seq<int>, b: seq<int>)
    requires HeadOk(a)
    ensures HeadOk(a + b) && Head(a + b) == Head(a) && Rest(a + b) == Rest(a) + b
  {
    hide OpOf;
    assert (a + b)[0] == a[0];
    var n := Width(OpOf(a[0]));
    if n == 2 { assert (a + b)[1] == a[1]; }
    assert (a + b)[n..] == a[n..] + b;
  }

  lemma {:induction false} ParseConcat(a: seq<int>, b: seq<int>)
    requires ParseOk(a) && ParseOk(b)
    ensures ParseOk(a + b) && Parse(a + b) == Parse(a) + Parse(b)
    decreases |a|
  {
    hide HeadOk, Rest, Head;
    if a == [] {
      assert a + b == b;
    } else {
      HeadConcat(a, b);
      ParseConcat(Rest(a), b);
      assert a + b != [];
    }
  }

  /** Whole blocks leave the low byte of an offset to the operation. */
  lemma LowByte(off: int, op: int)
    requires off >= 0 && off % Blksz == 0 && 0 <= op < 256
    ensures OpOf(off + op) == op && off + op - op == off
  {
    var k := off / Blksz;
    assert off == Blksz * k == 256 * (64 * k);
    Mod256(64 * k, op);
  }

  lemma Mod256(k: int, op: int)
    requires 0 <= op < 256
    ensures (256 * k + op) % 256 == op && (256 * k + op) / 256 == k
  {
  }

  /** An entry is read back as it was written. */
  lemma ParseWords(e: Ent)
    requires EntOk(e)
    ensures ParseOk(Words(e)) && Parse(Words(e)) == [e]
  {
    match e
    case Sync(gen) => {
      Mod256(gen, LogSync);
      assert Words(e)[1..] == [];
    }
    case Alloc(off, len) => {
      LowByte(off, LogAlloc1);
      LowByte(off, LogAlloc);
      assert Words(e)[|Words(e)|..] == [];
    }
    case Free(off, len) => {
      LowByte(off, LogFree1);
      LowByte(off, LogFree);
      assert Words(e)[|Words(e)|..] == [];
    }
  }

  lemma ParseAppend(ws: seq<int>, e: Ent)
    requires ParseOk(ws) && EntOk(e)
    ensures ParseOk(ws + Words(e)) && Parse(ws + Words(e)) == Parse(ws) + [e]
  {
    ParseWords(e);
    ParseConcat(ws, Words(e));
  }

  // ----- meaning -----

  predicate Hits(e: Ent, x: int) { !e.Sync? && e.off <= x < e.off + e.len }

  /** The free set after the entries: what was freed and not allocated since. */
  ghost predicate FreeIn(es: seq<Ent>, x: int)
    decreases |es|
  {
    es != [] &&
    var e, rest := es[|es| - 1], es[..|es| - 1];
    if Hits(e, x) then e.Free? else FreeIn(rest, x)
  }

  /** Allocations are of what is free, and frees of what is not. */
  ghost predicate Legal(es: seq<Ent>)
    decreases |es|
  {
    es == [] ||
    (var e, rest := es[|es| - 1], es[..|es| - 1];
     Legal(rest) && EntOk(e) && forall x :: Hits(e, x) ==> (e.Alloc? <==> FreeIn(rest, x)))
  }

  lemma FreeInPush(es: seq<Ent>, e: Ent, x: int)
    ensures FreeIn(es + [e], x) <==> if Hits(e, x) then e.Free? else FreeIn(es, x)
  {
    assert (es + [e])[..|es|] == es;
  }

  lemma LegalPush(es: seq<Ent>, e: Ent)
    ensures Legal(es + [e]) <==> Legal(es) && EntOk(e) && forall x :: Hits(e, x) ==> (e.Alloc? <==> FreeIn(es, x))
  {
    assert (es + [e])[..|es|] == es;
  }

  lemma {:induction false} LegalPrefix(es: seq<Ent>, n: nat)
    requires Legal(es) && n <= |es|
    ensures Legal(es[..n])
    decreases |es|
  {
    if n == |es| {
      assert es[..n] == es;
    } else {
      LegalPrefix(es[..|es| - 1], n);
      assert es[..|es| - 1][..n] == es[..n];
    }
  }

  predicate Stops(e: Ent, qgen: nat) { e.Sync? && e.gen >= qgen }

  /** Where replay stops: at the first barrier not older than qgen. */
  function Stop(es: seq<Ent>, qgen: nat): (n: nat)
    ensures n <= |es|
    ensures n < |es| ==> Stops(es[n], qgen)
    ensures forall i :: 0 <= i < n ==> !Stops(es[i], qgen)
  {
    if es == [] || Stops(es[0], qgen) then 0
    else
      var m := Stop(es[1..], qgen);
      assert forall i :: 0 < i < m + 1 ==> es[i] == es[1..][i - 1];
      m + 1
  }

  /** Whatever was appended behind the first barrier that counts, replay stops at it. */
  lemma StopAt(es: seq<Ent>, n: nat, qgen: nat)
    requires n <= |es| && (n < |es| ==> Stops(es[n], qgen))
    requires forall i :: 0 <= i < n ==> !Stops(es[i], qgen)
    ensures Stop(es, qgen) == n
  {
    var m := Stop(es, qgen);
    if n < |es| { assert Stops(es[n], qgen); }
  }
}
