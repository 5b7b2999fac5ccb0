/** Keys and their order (src/tree.c, keycmp), with an order embedding into the reals. */
module Keys {

  type Byte = n: int | 0 <= n < 256

  type Key = seq<Byte>

  /** C's memcmp on two buffers of the same length: the sign of the first difference. */
  function MemCmp(a: seq<Byte>, b: seq<Byte>): int
    requires |a| == |b|
  {
    if a == [] then 0
    else if a[0] != b[0] then (if a[0] < b[0] then -1 else 1)
    else MemCmp(a[1..], b[1..])
  }

  /** Compare the common prefix first, then the lengths. */
  function KeyCmp(a: Key, b: Key): (c: int)
    ensures -1 <= c <= 1
    ensures c < 0 <==> Rank(a) < Rank(b)
    ensures c == 0 <==> a == b
    ensures c > 0 <==> Rank(a) > Rank(b)
  {
    KeyCmpRank(a, b);
    KeyCmpBody(a, b)
  }

  function KeyCmpBody(a: Key, b: Key): int
  {
    var n := if |a| < |b| then |a| else |b|;
    var c := MemCmp(a[..n], b[..n]);
    if c != 0 then (if c < 0 then -1 else 1)
    else if |a| < |b| then -1
    else if |a| > |b| then 1
    else 0
  }

  /** A key read as the fraction 0.b0 b1 b2 ... in base 258, every byte shifted up by one. */
  ghost function Rank(k: Key): (r: real)
    ensures 0.0 <= r < 1.0
  {
    if k == [] then 0.0 else (k[0] as real + 1.0 + Rank(k[1..])) / 258.0
  }

  /** keycmp is the order of Rank, so it is a strict total order whose ties are equal keys. */
  lemma {:induction false} KeyCmpRank(a: Key, b: Key)
    ensures KeyCmpBody(a, b) < 0 <==> Rank(a) < Rank(b)
    ensures KeyCmpBody(a, b) == 0 <==> a == b
    ensures KeyCmpBody(a, b) > 0 <==> Rank(a) > Rank(b)
  {
    if a != [] && b != [] {
      var n := if |a| < |b| then |a| else |b|;
      if a[0] == b[0] {
        KeyCmpRank(a[1..], b[1..]);
        assert a[..n][1..] == a[1..][..n - 1] && b[..n][1..] == b[1..][..n - 1];
        assert a == b <==> a[1..] == b[1..] by {
          assert a == [a[0]] + a[1..] && b == [b[0]] + b[1..];
        }
      }
    }
  }

  lemma RankInjective(a: Key, b: Key)
    requires Rank(a) == Rank(b)
    ensures a == b
  {
    KeyCmpRank(a, b);
  }
}
