/** Chained hash tables as the C code builds them: an array of singly linked
    chains, new nodes linked at the head, the bucket of a key being its FNV-1a
    hash reduced to the table size. The same structure serves the key table of a
    store and the field table of a hash value. */
module Chains {
  import opened Common

  datatype Node<V> = Node(key: Bytes, val: V)
  type Chain<V> = seq<Node<V>>
  type Table<V> = seq<seq<Node<V>>>

  // ----- hashing -----

  function FnvFrom(h: bv64, s: Bytes): bv64
    decreases |s|
  {
    if |s| == 0 then h else FnvFrom((h ^ (s[0] as bv64)) * 1099511628211, s[1..])
  }

  function Hash(s: Bytes): nat {
    FnvFrom(1469598103934665603, s) as nat
  }

  /** `hash & (n - 1)`, n being a power of two. */
  function Slot(k: Bytes, n: nat): (b: nat)
    requires n > 0
    ensures b < n
  {
    Hash(k) % n
  }

  // ----- chains -----

  function FindC<V>(c: Chain<V>, k: Bytes): Option<V> {
    if |c| == 0 then None
    else if c[0].key == k then Some(c[0].val)
    else FindC(c[1..], k)
  }

  function DropC<V>(c: Chain<V>, k: Bytes): Chain<V> {
    if |c| == 0 then []
    else if c[0].key == k then c[1..]
    else [c[0]] + DropC(c[1..], k)
  }

  function PutC<V>(c: Chain<V>, k: Bytes, v: V): Chain<V> {
    if |c| == 0 then []
    else if c[0].key == k then [Node(k, v)] + c[1..]
    else [c[0]] + PutC(c[1..], k, v)
  }

  /** Every node of the chain hashes to bucket b of n, and no key occurs twice. */
  predicate ChainOk<V>(c: Chain<V>, b: nat, n: nat)
    requires n > 0
  {
    |c| == 0 ||
    (Slot(c[0].key, n) == b && FindC(c[1..], c[0].key).None? && ChainOk(c[1..], b, n))
  }

  function SumC<V>(c: Chain<V>, w: Node<V> -> nat): nat {
    if |c| == 0 then 0 else w(c[0]) + SumC(c[1..], w)
  }

  lemma {:induction false} FindAtSlot<V>(c: Chain<V>, b: nat, n: nat, k: Bytes)
    requires n > 0 && ChainOk(c, b, n) && FindC(c, k).Some?
    ensures Slot(k, n) == b
    decreases |c|
  {
    if c[0].key != k { FindAtSlot(c[1..], b, n, k); }
  }

  lemma {:induction false} DropChain<V>(c: Chain<V>, b: nat, n: nat, k: Bytes)
    requires n > 0 && ChainOk(c, b, n)
    ensures ChainOk(DropC(c, k), b, n)
    ensures forall q :: FindC(DropC(c, k), q) == if q == k then None else FindC(c, q)
    decreases |c|
  {
    if |c| == 0 {
    } else {
      DropChain(c[1..], b, n, k);
      if c[0].key != k {
        var d := [c[0]] + DropC(c[1..], k);
        assert d[1..] == DropC(c[1..], k);
      }
    }
  }

  lemma {:induction false} PutChain<V>(c: Chain<V>, b: nat, n: nat, k: Bytes, v: V)
    requires n > 0 && ChainOk(c, b, n) && FindC(c, k).Some?
    ensures ChainOk(PutC(c, k, v), b, n)
    ensures forall q :: FindC(PutC(c, k, v), q) == if q == k then Some(v) else FindC(c, q)
    decreases |c|
  {
    if c[0].key == k {
      var d := [Node(k, v)] + c[1..];
      assert d[1..] == c[1..];
    } else {
      PutChain(c[1..], b, n, k, v);
      var d := [c[0]] + PutC(c[1..], k, v);
      assert d[1..] == PutC(c[1..], k, v);
    }
  }

  lemma {:induction false} DropSum<V>(c: Chain<V>, k: Bytes, w: Node<V> -> nat)
    requires FindC(c, k).Some?
    ensures SumC(DropC(c, k), w) == SumC(c, w) - w(Node(k, FindC(c, k).value))
    decreases |c|
  {
    if c[0].key == k {
      assert c[0] == Node(k, c[0].val);
    } else {
      DropSum(c[1..], k, w);
      var d := [c[0]] + DropC(c[1..], k);
      assert d[1..] == DropC(c[1..], k);
    }
  }

  lemma {:induction false} PutSum<V>(c: Chain<V>, k: Bytes, v: V, w: Node<V> -> nat)
    requires FindC(c, k).Some?
    ensures SumC(PutC(c, k, v), w) == SumC(c, w) - w(Node(k, FindC(c, k).value)) + w(Node(k, v))
    decreases |c|
  {
    if c[0].key == k {
      assert c[0] == Node(k, c[0].val);
      var d := [Node(k, v)] + c[1..];
      assert d[1..] == c[1..];
    } else {
      PutSum(c[1..], k, v, w);
      var d := [c[0]] + PutC(c[1..], k, v);
      assert d[1..] == PutC(c[1..], k, v);
    }
  }

  // ----- tables -----

  /** Each key is linked at most once, in the bucket its hash names. */
  predicate Placed<V>(t: Table<V>) {
    |t| > 0 && forall b :: 0 <= b < |t| ==> ChainOk(t[b], b, |t|)
  }

  function Find<V>(t: Table<V>, k: Bytes): Option<V> {
    if |t| == 0 then None else FindC(t[Slot(k, |t|)], k)
  }

  function Link<V>(t: Table<V>, k: Bytes, v: V): Table<V>
    requires |t| > 0
  {
    var b := Slot(k, |t|);
    t[b := [Node(k, v)] + t[b]]
  }

  function Unlink<V>(t: Table<V>, k: Bytes): Table<V>
    requires |t| > 0
  {
    var b := Slot(k, |t|);
    t[b := DropC(t[b], k)]
  }

  function Put<V>(t: Table<V>, k: Bytes, v: V): Table<V>
    requires |t| > 0
  {
    var b := Slot(k, |t|);
    t[b := PutC(t[b], k, v)]
  }

  function Empty<V>(n: nat): Table<V> {
    seq(n, _ => [])
  }

  function SumT<V>(t: Table<V>, w: Node<V> -> nat): nat {
    if |t| == 0 then 0 else SumC(t[0], w) + SumT(t[1..], w)
  }

  lemma {:induction false} SumUpdate<V>(t: Table<V>, b: nat, c: Chain<V>, w: Node<V> -> nat)
    requires b < |t|
    ensures SumT(t[b := c], w) == SumT(t, w) - SumC(t[b], w) + SumC(c, w)
    decreases |t|
  {
    var u := t[b := c];
    if b == 0 {
      assert u[1..] == t[1..];
    } else {
      SumUpdate(t[1..], b - 1, c, w);
      assert u[1..] == t[1..][b - 1 := c];
    }
  }

  lemma {:induction false} SumEmpty<V>(n: nat, w: Node<V> -> nat)
    ensures SumT(Empty<V>(n), w) == 0
  {
    if n == 0 {
    } else {
      SumEmpty<V>(n - 1, w);
      assert Empty<V>(n)[1..] == Empty<V>(n - 1);
    }
  }

  lemma EmptyPlaced<V>(n: nat)
    requires n > 0
    ensures Placed(Empty<V>(n)) && forall k :: Find(Empty<V>(n), k) == None
  {
  }

  lemma LinkTable<V>(t: Table<V>, k: Bytes, v: V)
    requires Placed(t) && Find(t, k) == None
    ensures Placed(Link(t, k, v)) && |Link(t, k, v)| == |t|
    ensures forall q :: Find(Link(t, k, v), q) == if q == k then Some(v) else Find(t, q)
  {
    var b := Slot(k, |t|);
    var c := [Node(k, v)] + t[b];
    assert c[1..] == t[b];
    var u := Link(t, k, v);
    forall q ensures Find(u, q) == if q == k then Some(v) else Find(t, q) {
      if Slot(q, |t|) == b { assert u[b] == c; }
    }
  }

  lemma LinkSum<V>(t: Table<V>, k: Bytes, v: V, w: Node<V> -> nat)
    requires |t| > 0
    ensures SumT(Link(t, k, v), w) == SumT(t, w) + w(Node(k, v))
  {
    var b := Slot(k, |t|);
    var c := [Node(k, v)] + t[b];
    assert c[1..] == t[b];
    SumUpdate(t, b, c, w);
  }

  lemma UnlinkTable<V>(t: Table<V>, k: Bytes)
    requires Placed(t)
    ensures Placed(Unlink(t, k)) && |Unlink(t, k)| == |t|
    ensures forall q :: Find(Unlink(t, k), q) == if q == k then None else Find(t, q)
  {
    DropChain(t[Slot(k, |t|)], Slot(k, |t|), |t|, k);
  }

  lemma UnlinkSum<V>(t: Table<V>, k: Bytes, w: Node<V> -> nat)
    requires Placed(t) && Find(t, k).Some?
    ensures SumT(Unlink(t, k), w) == SumT(t, w) - w(Node(k, Find(t, k).value))
  {
    var b := Slot(k, |t|);
    DropSum(t[b], k, w);
    SumUpdate(t, b, DropC(t[b], k), w);
  }

  lemma PutTable<V>(t: Table<V>, k: Bytes, v: V)
    requires Placed(t) && Find(t, k).Some?
    ensures Placed(Put(t, k, v)) && |Put(t, k, v)| == |t|
    ensures forall q :: Find(Put(t, k, v), q) == if q == k then Some(v) else Find(t, q)
  {
    PutChain(t[Slot(k, |t|)], Slot(k, |t|), |t|, k, v);
  }

  lemma PutSumT<V>(t: Table<V>, k: Bytes, v: V, w: Node<V> -> nat)
    requires Placed(t) && Find(t, k).Some?
    ensures SumT(Put(t, k, v), w) == SumT(t, w) - w(Node(k, Find(t, k).value)) + w(Node(k, v))
  {
    var b := Slot(k, |t|);
    PutSum(t[b], k, v, w);
    SumUpdate(t, b, PutC(t[b], k, v), w);
  }

  // ----- the map a table stands for -----

  ghost function KeysT<V>(t: Table<V>): set<Bytes> {
    set b, j | 0 <= b < |t| && 0 <= j < |t[b]| :: t[b][j].key
  }

  ghost function MapOf<V>(t: Table<V>): map<Bytes, V> {
    map k | k in KeysT(t) && Find(t, k).Some? :: Find(t, k).value
  }

  lemma {:induction false} FoundInChain<V>(c: Chain<V>, k: Bytes) returns (j: nat)
    requires FindC(c, k).Some?
    ensures j < |c| && c[j].key == k && c[j].val == FindC(c, k).value
    decreases |c|
  {
    if c[0].key == k { j := 0; } else { j := FoundInChain(c[1..], k); j := j + 1; }
  }

  /** Walking a chain meets each key once, with the value a lookup finds. */
  lemma {:induction false} NodeFound<V>(c: Chain<V>, b: nat, n: nat, j: nat)
    requires n > 0 && ChainOk(c, b, n) && j < |c|
    ensures FindC(c, c[j].key) == Some(c[j].val) && Slot(c[j].key, n) == b
    ensures forall i :: 0 <= i < j ==> c[i].key != c[j].key
    decreases j
  {
    if j == 0 {
    } else {
      NodeFound(c[1..], b, n, j - 1);
      assert c[1..][j - 1] == c[j];
      forall i | 0 <= i < j ensures c[i].key != c[j].key {
        if i > 0 { assert c[1..][i - 1] == c[i]; }
      }
    }
  }

  lemma FoundKey<V>(t: Table<V>, k: Bytes)
    ensures Find(t, k).Some? ==> k in KeysT(t)
  {
    if Find(t, k).Some? {
      var j := FoundInChain(t[Slot(k, |t|)], k);
      assert t[Slot(k, |t|)][j].key == k;
    }
  }

  lemma MapOfFind<V>(t: Table<V>)
    ensures forall k :: (k in MapOf(t)) == Find(t, k).Some?
    ensures forall k :: k in MapOf(t) ==> MapOf(t)[k] == Find(t, k).value
  {
    forall k ensures (k in MapOf(t)) == Find(t, k).Some? { FoundKey(t, k); }
  }

  lemma MapPut<V>(t: Table<V>, u: Table<V>, k: Bytes, v: V)
    requires forall q :: Find(u, q) == if q == k then Some(v) else Find(t, q)
    ensures MapOf(u) == MapOf(t)[k := v]
  {
    hide MapOf, Find;
    MapOfFind(t);
    MapOfFind(u);
  }

  lemma MapDrop<V>(t: Table<V>, u: Table<V>, k: Bytes)
    requires forall q :: Find(u, q) == if q == k then None else Find(t, q)
    ensures MapOf(u) == MapOf(t) - {k}
  {
    hide MapOf, Find;
    MapOfFind(t);
    MapOfFind(u);
  }

  lemma MapSame<V>(t: Table<V>, u: Table<V>)
    requires forall q :: Find(u, q) == Find(t, q)
    ensures MapOf(u) == MapOf(t)
  {
    hide MapOf, Find;
    MapOfFind(t);
    MapOfFind(u);
  }

  // ----- the loops over chains -----

  /** Walk one chain for a key. */
  method FindInTable<V>(t: Table<V>, k: Bytes) returns (r: Option<V>)
    ensures r == Find(t, k)
  {
    if |t| == 0 { return None; }
    var c := t[Slot(k, |t|)];
    while |c| > 0
      invariant FindC(c, k) == Find(t, k)
      decreases |c|
    {
      if c[0].key == k { return Some(c[0].val); }
      c := c[1..];
    }
    return None;
  }

  ghost predicate Apart<V>(s: Table<V>, t: Table<V>) {
    forall k :: Find(s, k).None? || Find(t, k).None?
  }

  function Either<V>(a: Option<V>, b: Option<V>): Option<V> {
    if a.Some? then a else b
  }

  lemma PopHead<V>(t: Table<V>, i: nat)
    requires Placed(t) && i < |t| && |t[i]| > 0
    ensures Slot(t[i][0].key, |t|) == i && Unlink(t, t[i][0].key) == t[i := t[i][1..]]
    ensures Find(t, t[i][0].key) == Some(t[i][0].val)
  {
    assert ChainOk(t[i], i, |t|);
  }

  lemma {:induction false} AllEmpty<V>(t: Table<V>, w: Node<V> -> nat)
    requires forall b :: 0 <= b < |t| ==> |t[b]| == 0
    ensures SumT(t, w) == 0
    ensures forall k :: Find(t, k).None?
  {
    if |t| == 0 {
    } else {
      AllEmpty(t[1..], w);
    }
  }

  /** Move every node of one table into another, linking each at the head of the
      bucket its hash names there: the loop of a rehash (into an empty table of
      twice the size) and of folding the cold tier into the hot one. */
  method Relink<V(!new)>(src: Table<V>, dst: Table<V>) returns (r: Table<V>)
    requires Placed(src) && Placed(dst) && Apart(src, dst)
    ensures Placed(r) && |r| == |dst|
    ensures forall k :: Find(r, k) == Either(Find(dst, k), Find(src, k))
    ensures forall w :: SumT(r, w) == SumT(src, w) + SumT(dst, w)
  {
    hide Placed, Find, Split;
    r := dst;
    var rest := src;
    SplitStart(src, dst);
    for i := 0 to |src|
      invariant |rest| == |src| && Split(src, dst, rest, r)
      invariant forall b :: 0 <= b < i ==> |rest[b]| == 0
    {
      while |rest[i]| > 0
        invariant |rest| == |src| && Split(src, dst, rest, r)
        invariant forall b :: 0 <= b < i ==> |rest[b]| == 0
        decreases |rest[i]|
      {
        var node := rest[i][0];
        SplitNext(src, dst, rest, r, i);
        r := Link(r, node.key, node.val);
        rest := rest[i := rest[i][1..]];
      }
    }
    SplitEnd(src, dst, rest, r);
  }

  /** The nodes of both tables, some of `src` moved over already. */
  ghost predicate Split<V(!new)>(src: Table<V>, dst: Table<V>, rest: Table<V>, r: Table<V>) {
    && Placed(rest) && Placed(r) && |r| == |dst| && Apart(rest, r)
    && (forall k :: Either(Find(r, k), Find(rest, k)) == Either(Find(dst, k), Find(src, k)))
    && forall w :: SumT(r, w) + SumT(rest, w) == SumT(src, w) + SumT(dst, w)
  }

  lemma SplitStart<V(!new)>(src: Table<V>, dst: Table<V>)
    requires Placed(src) && Placed(dst) && Apart(src, dst)
    ensures Split(src, dst, src, dst) && |dst| > 0
  {
  }

  lemma SplitNext<V(!new)>(src: Table<V>, dst: Table<V>, rest: Table<V>, r: Table<V>, i: nat)
    requires Split(src, dst, rest, r) && i < |rest| && |rest[i]| > 0
    ensures |r| > 0
    ensures Split(src, dst, rest[i := rest[i][1..]], Link(r, rest[i][0].key, rest[i][0].val))
  {
    hide SumT, Unlink;
    var node := rest[i][0];
    PopHead(rest, i);
    UnlinkTable(rest, node.key);
    assert Find(r, node.key).None?;
    LinkTable(r, node.key, node.val);
    forall w
      ensures SumT(Link(r, node.key, node.val), w) + SumT(Unlink(rest, node.key), w) == SumT(src, w) + SumT(dst, w)
    {
      UnlinkSum(rest, node.key, w);
      LinkSum(r, node.key, node.val, w);
    }
  }

  lemma SplitEnd<V(!new)>(src: Table<V>, dst: Table<V>, rest: Table<V>, r: Table<V>)
    requires Split(src, dst, rest, r) && forall b :: 0 <= b < |rest| ==> |rest[b]| == 0
    ensures Placed(r) && |r| == |dst|
    ensures forall k :: Find(r, k) == Either(Find(dst, k), Find(src, k))
    ensures forall w :: SumT(r, w) == SumT(src, w) + SumT(dst, w)
  {
    forall w ensures SumT(r, w) == SumT(src, w) + SumT(dst, w) { AllEmpty(rest, w); }
    AllEmpty(rest, (n: Node<V>) => 0);
  }

  /** The table doubled: the same entries at twice the size. */
  method Doubled<V(!new)>(t: Table<V>) returns (r: Table<V>)
    requires Placed(t)
    ensures Placed(r) && |r| == 2 * |t|
    ensures forall k :: Find(r, k) == Find(t, k)
    ensures forall w :: SumT(r, w) == SumT(t, w)
  {
    EmptyPlaced<V>(2 * |t|);
    r := Relink(t, Empty(2 * |t|));
    forall w ensures SumT(r, w) == SumT(t, w) { SumEmpty<V>(2 * |t|, w); }
  }
}
