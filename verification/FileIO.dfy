/** Files as blocks: reads and writes refine an array of bytes (src/fs.c, readb, writeb, readfile and
    the loop of fswrite). */
module FileIO {
  import opened Dat
  import opened Keys

  const Max9p := 32 * 1024

  // ----- the array of bytes -----

  /** c with s written at o: as long as it takes, and zero where nothing was written. */
  function Written(c: seq<Byte>, o: nat, s: seq<Byte>): (r: seq<Byte>)
    ensures |r| == if o + |s| > |c| then o + |s| else |c|
  {
    seq(if o + |s| > |c| then o + |s| else |c|,
        i requires i >= 0 => if o <= i < o + |s| then s[i - o] else if i < |c| then c[i] else 0)
  }

  /** A write in two parts is the write of the whole. */
  lemma WrittenParts(c: seq<Byte>, o: nat, a: seq<Byte>, b: seq<Byte>)
    ensures Written(Written(c, o, a), o + |a|, b) == Written(c, o, a + b)
  {
  }

  /** What is written is read back, and nothing else changes. */
  lemma WrittenBack(c: seq<Byte>, o: nat, s: seq<Byte>)
    ensures Written(c, o, s)[o..o + |s|] == s
    ensures forall i :: 0 <= i < |c| && !(o <= i < o + |s|) ==> Written(c, o, s)[i] == c[i]
  {
  }

  // ----- the blocks -----

  type Blocks = map<int, seq<Byte>>

  function Fb(o: int): int { o - o % Blksz }

  function ByteAt(m: Blocks, x: int): Byte
    requires Sized(m)
  {
    if Fb(x) in m then m[Fb(x)][x % Blksz] else 0
  }

  /** Blocks are whole and at multiples of their size. */
  ghost predicate Sized(m: Blocks) {
    forall k :: k in m ==> |m[k]| == Blksz
  }

  class File {
    var blks: Blocks
    var length: nat

    /** Stored bytes past the length are zero. */
    ghost predicate Valid()
      reads this
    {
      Sized(blks) && forall x :: x >= length ==> ByteAt(blks, x) == 0
    }

    ghost function Contents(): (c: seq<Byte>)
      requires Valid()
      reads this
      ensures |c| == length && forall i :: 0 <= i < length ==> c[i] == ByteAt(blks, i)
    {
      seq(length, i requires 0 <= i < length && Valid() reads this => ByteAt(blks, i))
    }

    constructor ()
      ensures Valid() && Contents() == []
    {
      blks, length := map[], 0;
    }

    /** Part of a block into the caller's buffer, or zeros where there is none. */
    method ReadB(d: array<Byte>, at: nat, o: nat, n: nat, sz: nat) returns (r: nat)
      requires Valid() && sz == length && at + n <= d.Length && n > 0
      modifies d
      ensures o >= sz ==> r == 0 && d[..] == old(d[..])
      ensures o < sz ==> 0 < r <= n && r == if o % Blksz + n > Blksz then Blksz - o % Blksz else n
      ensures forall i :: 0 <= i < d.Length ==> d[i] == if at <= i < at + r then ByteAt(blks, o + i - at) else old(d[i])
    {
      if o >= sz {
        return 0;
      }
      var fb := o - o % Blksz;
      var fo := o % Blksz;
      r := if fo + n > Blksz then Blksz - fo else n;
      if fb !in blks {
        forall j | at <= j < at + r {
          d[j] := 0;
        }
      } else {
        var b := blks[fb];
        forall j | at <= j < at + r {
          d[j] := b[fo + j - at];
        }
      }
      forall j | at <= j < at + r ensures d[j] == ByteAt(blks, o + j - at) {
        InBlock(fb, fo + j - at);
      }
    }

    /** readfile: the bytes of the array in the range asked for. */
    method ReadFile(offset: nat, count: nat) returns (data: array<Byte>, got: nat)
      requires Valid()
      ensures fresh(data) && got <= data.Length == count
      ensures data[..got] == if offset > length then []
                             else Contents()[offset..if offset + count > length then length else offset + count]
    {
      data := new Byte[count];
      got := 0;
      if offset > length {
        return;
      }
      var c, o := count, offset;
      if offset + count > length {
        c := length - offset;
      }
      ghost var want := c;
      while c != 0
        invariant 0 <= c && got + c == want <= count && o == offset + got && Valid()
        invariant forall i :: 0 <= i < got ==> data[i] == ByteAt(blks, offset + i)
        decreases c
      {
        var n := ReadB(data, got, o, c, length);
        if n == 0 {
          break;
        }
        got := got + n;
        o := o + n;
        c := c - n;
      }
      assert data[..got] == Contents()[offset..offset + want];
    }

    /** A new block: the old one's bytes where there is one below the length, the data on top, and
        zeros where neither is. */
    method WriteB(s: seq<Byte>, o: nat, sz: nat) returns (fb: int, b: seq<Byte>, r: nat)
      requires Valid() && sz == length && s != []
      ensures fb == Fb(o) && |b| == Blksz && 0 < r <= |s| && (r < |s| ==> (o + r) % Blksz == 0)
      ensures r == if o % Blksz + |s| > Blksz then Blksz - o % Blksz else |s|
      ensures forall x :: Fb(x) == fb ==> b[x % Blksz] == if o <= x < o + r then s[x - o] else ByteAt(blks, x)
    {
      fb := o - o % Blksz;
      var fo := o % Blksz;
      var n := |s|;
      var buf := new Byte[Blksz];
      var t := false;
      if fb in blks && fb < sz && (fo != 0 || n != Blksz) {
        var was := blks[fb];
        forall i | 0 <= i < Blksz {
          buf[i] := was[i];
        }
        t := true;
      }
      if fo + n > Blksz {
        n := Blksz - fo;
      }
      forall i | 0 <= i < n {
        buf[fo + i] := s[i];
      }
      if !t {
        forall i | 0 <= i < fo {
          buf[i] := 0;
        }
        forall i | fo + n <= i < Blksz {
          buf[i] := 0;
        }
      }
      b := buf[..];
      r := n;
    }

    /** fswrite: the array of bytes with the data written at the offset, or at its end. One message is
        enough for each block, and one for the length. */
    method FsWrite(data: seq<Byte>, offset: nat, append: bool) returns (w: nat)
      requires Valid() && |data| <= Max9p
      modifies this
      ensures Valid() && w == |data|
      ensures Contents() == Written(old(Contents()), if append then old(length) else offset, data)
    {
      hide Fb, ByteAt, Pending, Written;
      ghost var was := Contents();
      w := 0;
      var p := data;
      var o := if append then length else offset;
      var c := |data|;
      ghost var start := o;
      var i := 0;
      var kv: Blocks := map[];
      PendStart(blks, data, start);
      while c != 0
        invariant 0 <= c && w + c == |data| && p == data[w..] && o == start + w
        invariant i > 0 && c > 0 ==> o == Fb(start) + i * Blksz
        invariant i == 0 ==> w == 0
        invariant c == 0 ==> i < Max9p / Blksz + 2
        invariant Valid() && Pending(blks, kv, data, start, w)
        modifies {}
        decreases c
      {
        Few(start, i, |data|);
        assert i < Max9p / Blksz + 2;
        var fb, b, n := WriteB(p, o, length);
        PendStep(blks, kv, data, start, w, fb, b, n);
        NextBlock(start, o, i, n);
        kv := kv[fb := b];
        w := w + n;
        p := p[n..];
        o := o + n;
        c := c - n;
        i := i + 1;
      }
      Merge(blks, kv, data, start, length);
      blks := blks + kv;
      if o > length {
        length := o;
      }
      WrittenIs(was, start, data, Contents());
    }
  }

  /** After w bytes: the new blocks have them, and what was there around them. */
  ghost predicate Pending(m: Blocks, kv: Blocks, data: seq<Byte>, start: nat, w: nat) {
    && w <= |data| && Sized(m) && Sized(kv) && (w == 0 ==> kv == map[])
    && (w < |data| && w > 0 ==> (start + w) % Blksz == 0)
    && (forall x :: start <= x < start + w ==> Fb(x) in kv)
    && (forall k :: k in kv ==> k < start + w)
    && (forall x :: Fb(x) in kv ==>
          kv[Fb(x)][x % Blksz] == if start <= x < start + w then data[x - start] else ByteAt(m, x))
  }

  lemma PendStart(m: Blocks, data: seq<Byte>, start: nat)
    requires Sized(m)
    ensures Pending(m, map[], data, start, 0)
  {
  }

  lemma WrittenIs(c: seq<Byte>, o: nat, s: seq<Byte>, c': seq<Byte>)
    requires |c'| == if o + |s| > |c| then o + |s| else |c|
    requires forall i :: 0 <= i < |c'| ==> c'[i] == if o <= i < o + |s| then s[i - o] else if i < |c| then c[i] else 0
    ensures c' == Written(c, o, s)
  {
  }

  lemma PendStep(m: Blocks, kv: Blocks, data: seq<Byte>, start: nat, w: nat, fb: int, b: seq<Byte>, n: nat)
    requires Pending(m, kv, data, start, w) && w < |data| && fb == Fb(start + w) && |b| == Blksz && 0 < n <= |data| - w
    requires n == if (start + w) % Blksz + |data| - w > Blksz then Blksz - (start + w) % Blksz else |data| - w
    requires forall x :: Fb(x) == fb
              ==> b[x % Blksz] == if start + w <= x < start + w + n then data[w..][x - start - w] else ByteAt(m, x)
    ensures Pending(m, kv[fb := b], data, start, w + n)
  {
    var o := start + w;
    var kv' := kv[fb := b];
    forall x | start <= x < o + n ensures Fb(x) in kv' {
      if x >= o { Within(o, n, x); }
    }
    forall x | Fb(x) in kv'
      ensures kv'[Fb(x)][x % Blksz] == if start <= x < o + n then data[x - start] else ByteAt(m, x)
    {
      if Fb(x) == fb {
        if w > 0 { assert fb == o; }
      } else {
        assert Fb(x) < o;
        if o <= x { Later(o, x); }
      }
    }
    if w + n < |data| {
      EndsBlock(o, n);
    }
  }

  /** A stretch that does not cross the end of its block. */
  lemma Within(o: nat, n: nat, x: int)
    requires o % Blksz + n <= Blksz && o <= x < o + n
    ensures Fb(x) == Fb(o)
  {
    InBlock(Fb(o), o % Blksz + x - o);
    FbAligned(o);
  }

  lemma FbAligned(o: int)
    ensures Fb(o) % Blksz == 0
  {
    var k := o / Blksz;
    assert Fb(o) == Blksz * k;
  }

  lemma EndsBlock(o: nat, n: nat)
    requires n == Blksz - o % Blksz
    ensures (o + n) % Blksz == 0
  {
    var k := o / Blksz;
    assert o + n == Blksz * (k + 1);
  }

  /** Behind an aligned offset no byte is in an earlier block. */
  lemma Later(o: int, x: int)
    requires o <= x
    ensures Fb(x) >= Fb(o)
  {
  }

  lemma Aligned(start: nat, i: nat)
    ensures (Fb(start) + i * Blksz) % Blksz == 0
  {
    var k := start / Blksz;
    assert Fb(start) + i * Blksz == Blksz * (k + i);
  }

  /** No write of the largest message touches more than three blocks. */
  lemma Few(start: nat, i: nat, n: nat)
    requires n <= Max9p && (i == 0 || Fb(start) + i * Blksz < start + n)
    ensures i < Max9p / Blksz + 1
  {
  }

  lemma NextBlock(start: nat, o: nat, i: nat, n: nat)
    requires if i == 0 then o == start else o == Fb(start) + i * Blksz
    ensures n == Blksz - o % Blksz ==> o + n == Fb(start) + (i + 1) * Blksz
  {
    if i > 0 { Aligned(start, i); }
  }

  /** The tree after the new blocks are upserted. */
  lemma Merge(m: Blocks, kv: Blocks, data: seq<Byte>, start: nat, length: nat)
    requires Pending(m, kv, data, start, |data|)
    ensures Sized(m + kv)
    ensures forall x :: ByteAt(m + kv, x) == if start <= x < start + |data| then data[x - start] else ByteAt(m, x)
  {
  }

  lemma InBlock(fb: int, i: nat)
    requires fb % Blksz == 0 && i < Blksz
    ensures (fb + i) % Blksz == i && Fb(fb + i) == fb
  {
    var k := fb / Blksz;
    assert fb == Blksz * k;
  }
}
