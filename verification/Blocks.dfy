/** Blocks under construction, and the path a flush works on (src/tree.c). */
module Blocks {
  import opened Dat
  import opened Keys
  import opened Messages
  import opened Nodes

  /** A new block being filled in. nval, valsz, nbuf and bufsz are the lengths and sizes of these
      sequences; module Slots has the byte layout behind them. */
  class Blk {
    const leaf: bool
    var vals: seq<Kvp>
    var kids: seq<Kid>
    var buf: seq<Msg>

    constructor (leaf: bool)
      ensures this.leaf == leaf && vals == [] && kids == [] && buf == []
    {
      this.leaf := leaf;
      vals, kids, buf := [], [], [];
    }

    method SetVal(kv: Kvp)
      requires leaf
      modifies this`vals
      ensures vals == old(vals) + [kv]
    {
      vals := vals + [kv];
    }

    method SetPtr(k: Key, n: Node)
      requires !leaf
      modifies this`kids
      ensures kids == old(kids) + [Kid(k, n)]
    {
      kids := kids + [Kid(k, n)];
    }

    method SetMsg(m: Msg)
      requires !leaf
      modifies this`buf
      ensures buf == old(buf) + [m]
    {
      buf := buf + [m];
    }

    /** The block as written: a block without values is given back instead, whatever its buffer
        holds. */
    method SetB() returns (n: Option<Node>)
      ensures leaf ==> n == if vals == [] then None else Some(Leaf(vals))
      ensures !leaf ==> n == if kids == [] then None else Some(Pivot(kids, buf))
    {
      if (if leaf then vals == [] else kids == []) {
        return None;
      }
      return Some(if leaf then Leaf(vals) else Pivot(kids, buf));
    }
  }

  datatype PathOp = POmod | POsplit

  /** One level of a flush. */
  class Path {
    // flowing down
    var ins: Option<seq<Msg>>
    var b: Option<Node>
    var idx: int
    var lo: int
    var hi: int
    var sz: nat
    // flowing up
    var op: PathOp
    var nl: Option<Node>
    var nr: Option<Node>
    var midx: int
    var npull: nat
    var pullsz: nat

    /** As calloc leaves it. */
    constructor ()
      ensures ins == None && b == None && idx == 0 && lo == 0 && hi == 0 && sz == 0
      ensures op == POmod && nl == None && nr == None && midx == 0 && npull == 0 && pullsz == 0
    {
      ins, b, idx, lo, hi, sz := None, None, 0, 0, 0, 0;
      op, nl, nr, midx, npull, pullsz := POmod, None, None, 0, 0, 0;
    }

    /** Where the messages of this level come from: the batch, or the buffer of the block. */
    function Source(): seq<Msg>
      reads this`ins, this`b
    {
      if ins.Some? then ins.value
      else if b.Some? && b.value.Pivot? then b.value.buf
      else []
    }

    /** The messages this level offers to the one below. */
    function Offer(): seq<Msg>
      reads this`ins, this`b, this`lo, this`hi
      requires 0 <= lo <= hi <= |Source()|
    {
      Source()[lo..hi]
    }

    ghost predicate Offers()
      reads this`ins, this`b, this`lo, this`hi
    {
      0 <= lo <= hi <= |Source()|
    }
  }

  /** pullmsg: sizes up message i of the offer. full is set when it does not fit, and otherwise the
      key v is compared with the key of the message. */
  method PullMsg(offer: seq<Msg>, i: nat, v: Option<Key>, m: Option<Msg>, full: bool, spc: int)
    returns (c: int, m': Option<Msg>, full': bool)
    ensures i >= |offer| || full ==> c == -1 && m' == m && full' == full
    ensures i < |offer| && !full ==>
      && m' == Some(offer[i])
      && full' == (MsgSz(offer[i]) > spc)
      && c == if full' then -1 else if v.None? then 0 else KeyCmp(v.value, offer[i].k)
  {
    if i >= |offer| || full {
      return -1, m, full;
    }
    m' := Some(offer[i]);
    if MsgSz(m'.value) <= spc {
      c := if v.None? then 0 else KeyCmp(v.value, m'.value.k);
      full' := full;
    } else {
      c, full' := -1, true;
    }
  }
}
