/** What a snapshot or a full sync walks: the live entries of a store, tier by tier and
    bucket by bucket, and the items of a collection in storage order. */
module Listing {
  import opened Common
  import opened Chains
  import opened SortedSets
  import opened Values
  import opened Reference
  import opened Tiers

  // ----- a table in bucket order -----

  function InOrder<V>(t: Table<V>): Chain<V> {
    if |t| == 0 then [] else t[0] + InOrder(t[1..])
  }

  /** No key occurs twice: one chain of a one-bucket table. */
  predicate NoRepeats<V>(c: Chain<V>) {
    ChainOk(c, 0, 1)
  }

  lemma {:induction false} FindAppend<V>(a: Chain<V>, b: Chain<V>, k: Bytes)
    ensures FindC(a + b, k) == Either(FindC(a, k), FindC(b, k))
    decreases |a|
  {
    if |a| == 0 {
      assert a + b == b;
    } else {
      assert (a + b)[1..] == a[1..] + b;
      FindAppend(a[1..], b, k);
    }
  }

  lemma {:induction false} NoRepeatsAppend<V>(a: Chain<V>, b: Chain<V>)
    requires NoRepeats(a) && NoRepeats(b) && forall k :: FindC(a, k).None? || FindC(b, k).None?
    ensures NoRepeats(a + b)
    decreases |a|
  {
    if |a| == 0 {
      assert a + b == b;
    } else {
      assert (a + b)[1..] == a[1..] + b;
      forall k ensures FindC(a[1..], k).None? || FindC(b, k).None? {
        assert FindC(a, k).None? || FindC(b, k).None?;
      }
      NoRepeatsAppend(a[1..], b);
      FindAppend(a[1..], b, a[0].key);
      assert FindC(a, a[0].key).Some?;
    }
  }

  lemma {:induction false} ChainNoRepeats<V>(c: Chain<V>, b: nat, n: nat)
    requires n > 0 && ChainOk(c, b, n)
    ensures NoRepeats(c)
    decreases |c|
  {
    if |c| == 0 {
    } else {
      ChainNoRepeats(c[1..], b, n);
    }
  }

  /** The buckets from i on list what is placed in them. */
  lemma {:induction false} InOrderFrom<V>(t: Table<V>, i: nat)
    requires Placed(t) && i <= |t|
    ensures NoRepeats(InOrder(t[i..]))
    ensures forall k :: FindC(InOrder(t[i..]), k) == if Slot(k, |t|) >= i then Find(t, k) else None
    decreases |t| - i
  {
    if i < |t| {
      var a, b := t[i], InOrder(t[i + 1..]);
      assert t[i..][0] == a && t[i..][1..] == t[i + 1..];
      InOrderFrom(t, i + 1);
      ChainNoRepeats(a, i, |t|);
      forall k ensures FindC(a, k).Some? ==> Slot(k, |t|) == i {
        if FindC(a, k).Some? { FindAtSlot(a, i, |t|, k); }
      }
      NoRepeatsAppend(a, b);
      forall k { FindAppend(a, b, k); }
    }
  }

  lemma InOrderIs<V>(t: Table<V>)
    requires |t| > 0 ==> Placed(t)
    ensures NoRepeats(InOrder(t))
    ensures forall k :: FindC(InOrder(t), k) == Find(t, k)
  {
    if |t| > 0 {
      InOrderFrom(t, 0);
      assert t[0..] == t;
    }
  }

  lemma {:induction false} InOrderPrefix<V>(t: Table<V>, i: nat)
    requires i < |t|
    ensures InOrder(t[..i + 1]) == InOrder(t[..i]) + t[i]
    decreases i
  {
    if i == 0 {
      assert t[..1][0] == t[0] && t[..1][1..] == [] && t[..0] == [];
    } else {
      InOrderPrefix(t[1..], i - 1);
      assert t[..i + 1][1..] == t[1..][..i] && t[..i][1..] == t[1..][..i - 1];
    }
  }

  lemma {:induction false} InOrderSplit<V>(t: Table<V>, i: nat)
    requires i <= |t|
    ensures InOrder(t) == InOrder(t[..i]) + InOrder(t[i..])
    decreases i
  {
    if i == 0 {
      assert t[..0] == [] && t[0..] == t;
    } else {
      InOrderSplit(t[1..], i - 1);
      assert t[..i][1..] == t[1..][..i - 1] && t[i..] == t[1..][i - 1..];
    }
  }

  /** Where the walk over a table stands: j nodes into bucket i. */
  function Upto<V>(t: Table<V>, i: nat, j: nat): Chain<V>
    requires i < |t| && j <= |t[i]|
  {
    InOrder(t[..i]) + t[i][..j]
  }

  lemma UptoNext<V>(t: Table<V>, i: nat, j: nat)
    requires i < |t| && j < |t[i]|
    ensures Upto(t, i, j + 1) == Upto(t, i, j) + [t[i][j]]
    ensures InOrder(t) == Upto(t, i, j) + [t[i][j]] + (t[i][j + 1..] + InOrder(t[i + 1..]))
  {
    assert t[i][..j + 1] == t[i][..j] + [t[i][j]];
    InOrderSplit(t, i);
    assert t[i..][0] == t[i] && t[i..][1..] == t[i + 1..];
    assert t[i] == t[i][..j] + [t[i][j]] + t[i][j + 1..];
  }

  lemma UptoEnds<V>(t: Table<V>, i: nat)
    requires i < |t|
    ensures Upto(t, i, 0) == InOrder(t[..i]) && Upto(t, i, |t[i]|) == InOrder(t[..i + 1])
  {
    InOrderPrefix(t, i);
  }

  // ----- the live entries -----

  function LiveOf(c: Chain<Entry>, now: nat): Chain<Entry> {
    if |c| == 0 then []
    else (if Due(c[0].val.expireAt, now) then [] else [c[0]]) + LiveOf(c[1..], now)
  }

  lemma {:induction false} LiveAppend(a: Chain<Entry>, b: Chain<Entry>, now: nat)
    ensures LiveOf(a + b, now) == LiveOf(a, now) + LiveOf(b, now)
    decreases |a|
  {
    if |a| == 0 {
      assert a + b == b;
    } else {
      assert (a + b)[1..] == a[1..] + b;
      LiveAppend(a[1..], b, now);
    }
  }

  function IfLive(e: Option<Entry>, now: nat): Option<Entry> {
    if e.Some? && !Due(e.value.expireAt, now) then e else None
  }

  lemma {:induction false} LiveFinds(c: Chain<Entry>, now: nat)
    requires NoRepeats(c)
    ensures NoRepeats(LiveOf(c, now))
    ensures forall k :: FindC(LiveOf(c, now), k) == IfLive(FindC(c, k), now)
    decreases |c|
  {
    if |c| == 0 {
    } else {
      var rest := LiveOf(c[1..], now);
      LiveFinds(c[1..], now);
      assert FindC(rest, c[0].key).None?;
      assert ([c[0]] + rest)[1..] == rest && [] + rest == rest;
    }
  }

  /** The order in which a store is written out. */
  function Walk(s: Tiers): Chain<Entry> {
    InOrder(s.hot) + InOrder(s.cold)
  }

  function LiveEntries(s: Tiers, now: nat): Chain<Entry> {
    LiveOf(Walk(s), now)
  }

  /** The walk meets every live record exactly once. */
  lemma LiveEntriesAre(s: Tiers, now: nat)
    requires Wellformed(s)
    ensures NoRepeats(LiveEntries(s, now))
    ensures forall k :: FindC(LiveEntries(s, now), k).Some? == Get(Records(s), k, now).Some?
    ensures forall k :: Get(Records(s), k, now).Some? ==>
      Get(Records(s), k, now).value == RecOf(FindC(LiveEntries(s, now), k).value)
  {
    InOrderIs(s.hot);
    InOrderIs(s.cold);
    forall k ensures FindC(InOrder(s.hot), k).None? || FindC(InOrder(s.cold), k).None? {
      assert Find(s.hot, k).None? || Find(s.cold, k).None?;
    }
    NoRepeatsAppend(InOrder(s.hot), InOrder(s.cold));
    LiveFinds(Walk(s), now);
    forall k ensures FindC(Walk(s), k) == Lookup(s, k) { FindAppend(InOrder(s.hot), InOrder(s.cold), k); }
    forall k
      ensures FindC(LiveEntries(s, now), k).Some? == Get(Records(s), k, now).Some?
      ensures Get(Records(s), k, now).Some? ==>
        Get(Records(s), k, now).value == RecOf(FindC(LiveEntries(s, now), k).value)
    {
      LookupGet(s, k, now);
    }
  }

  // ----- the items of a collection -----

  datatype Item = Field(field: Bytes, val: Bytes) | Elem(bytes: Bytes) | Scored(score: Score, member: Bytes)

  predicate ItemFits(kind: Kind, x: Item) {
    match kind
    case KString => false
    case KHash => x.Field?
    case KList => x.Elem?
    case KZSet => x.Scored?
  }

  function FieldItems(c: Chain<Bytes>): seq<Item> {
    if |c| == 0 then [] else [Field(c[0].key, c[0].val)] + FieldItems(c[1..])
  }

  function ListItems(s: seq<Bytes>): seq<Item> {
    if |s| == 0 then [] else [Elem(s[0])] + ListItems(s[1..])
  }

  function ScoredItems(c: seq<Member>): seq<Item> {
    if |c| == 0 then [] else [Scored(c[0].val, c[0].key)] + ScoredItems(c[1..])
  }

  function ItemsOf(v: Value): seq<Item> {
    match v
    case StrV(_) => []
    case HashV(t, _) => FieldItems(InOrder(t))
    case ListV(s) => ListItems(s)
    case ZSetV(c, _) => ScoredItems(c)
  }

  ghost predicate NoNaN(items: seq<Item>) {
    forall i :: 0 <= i < |items| && items[i].Scored? ==> !IsNaN(items[i].score)
  }

  lemma {:induction false} NumbersListed(c: seq<Member>)
    ensures NoNaN(ScoredItems(c)) <==> Numbers(c)
    decreases |c|
  {
    if |c| == 0 {
    } else {
      var items := ScoredItems(c);
      NumbersListed(c[1..]);
      assert items[1..] == ScoredItems(c[1..]);
      NoNaNSplits(items);
      assert c == [c[0]] + c[1..];
    }
  }

  lemma NoNaNSplits(items: seq<Item>)
    requires |items| > 0
    ensures NoNaN(items) <==> (items[0].Scored? ==> !IsNaN(items[0].score)) && NoNaN(items[1..])
  {
    assert items == [items[0]] + items[1..];
  }

  lemma NoNaNListed(v: Value)
    ensures NoNaN(ItemsOf(v)) <==> (v.ZSetV? ==> Numbers(v.nodes))
  {
    hide Numbers, NoNaN;
    match v
    case StrV(_) => NothingScored(ItemsOf(v));
    case HashV(t, _) => FieldsUnscored(InOrder(t));
    case ListV(s) => ElementsUnscored(s);
    case ZSetV(c, _) => NumbersListed(c);
  }

  lemma NothingScored(items: seq<Item>)
    requires |items| == 0
    ensures NoNaN(items)
  {
  }

  lemma {:induction false} FieldsUnscored(c: Chain<Bytes>)
    ensures NoNaN(FieldItems(c))
    decreases |c|
  {
    if |c| == 0 {
    } else {
      FieldsUnscored(c[1..]);
      assert FieldItems(c)[1..] == FieldItems(c[1..]);
      NoNaNSplits(FieldItems(c));
    }
  }

  lemma {:induction false} ElementsUnscored(s: seq<Bytes>)
    ensures NoNaN(ListItems(s))
    decreases |s|
  {
    if |s| == 0 {
    } else {
      ElementsUnscored(s[1..]);
      assert ListItems(s)[1..] == ListItems(s[1..]);
      NoNaNSplits(ListItems(s));
    }
  }

  /** The collection with one more item. */
  function Extended(d: Data, x: Item): Data
    requires ItemFits(DataKind(d), x)
  {
    match d
    case DHash(m) => DHash(m[x.field := x.val])
    case DList(s) => DList(s + [x.bytes])
    case DZSet(m) => DZSet(m[x.member := x.score])
  }

  ghost predicate AllFit(kind: Kind, items: seq<Item>) {
    forall i :: 0 <= i < |items| ==> ItemFits(kind, items[i])
  }

  function Gathered(d: Data, items: seq<Item>): Data
    requires AllFit(DataKind(d), items)
    decreases |items|
  {
    if |items| == 0 then d else Gathered(Extended(d, items[0]), items[1..])
  }

  lemma {:induction false} FieldsGather(m: map<Bytes, Bytes>, c: Chain<Bytes>)
    requires NoRepeats(c)
    ensures AllFit(KHash, FieldItems(c)) && |FieldItems(c)| == |c|
    ensures var r := Gathered(DHash(m), FieldItems(c));
      && r.DHash?
      && (forall k :: k in r.fields <==> FindC(c, k).Some? || k in m)
      && (forall k :: k in r.fields ==> r.fields[k] == if FindC(c, k).Some? then FindC(c, k).value else m[k])
    decreases |c|
  {
    if |c| == 0 {
    } else {
      FieldsGather(m[c[0].key := c[0].val], c[1..]);
      assert FieldItems(c)[1..] == FieldItems(c[1..]);
    }
  }

  lemma {:induction false} ElementsGather(s: seq<Bytes>, more: seq<Bytes>)
    ensures AllFit(KList, ListItems(more)) && |ListItems(more)| == |more|
    ensures Gathered(DList(s), ListItems(more)) == DList(s + more)
    decreases |more|
  {
    if |more| == 0 {
      assert s + more == s;
    } else {
      ElementsGather(s + [more[0]], more[1..]);
      assert ListItems(more)[1..] == ListItems(more[1..]);
      assert s + [more[0]] + more[1..] == s + more;
    }
  }

  lemma {:induction false} ScoresGather(m: map<Bytes, Score>, c: seq<Member>)
    requires Unique(c)
    ensures AllFit(KZSet, ScoredItems(c)) && |ScoredItems(c)| == |c|
    ensures var r := Gathered(DZSet(m), ScoredItems(c));
      && r.DZSet?
      && (forall k :: k in r.scores <==> FindC(c, k).Some? || k in m)
      && (forall k :: k in r.scores ==> r.scores[k] == if FindC(c, k).Some? then FindC(c, k).value else m[k])
    decreases |c|
  {
    if |c| == 0 {
    } else {
      ScoresGather(m[c[0].key := c[0].val], c[1..]);
      assert ScoredItems(c)[1..] == ScoredItems(c[1..]);
    }
  }

  lemma HashItems(t: Table<Bytes>)
    requires Placed(t)
    ensures AllFit(KHash, FieldItems(InOrder(t))) && Gathered(DHash(map[]), FieldItems(InOrder(t))) == DHash(MapOf(t))
  {
    hide Placed, Find, NoRepeats, MapOf, Gathered, InOrder, FindC;
    InOrderIs(t);
    FieldsGather(map[], InOrder(t));
    MapOfFind(t);
    assert Gathered(DHash(map[]), FieldItems(InOrder(t))).fields == MapOf(t);
  }

  lemma ZSetItems(c: seq<Member>)
    requires Unique(c)
    ensures AllFit(KZSet, ScoredItems(c)) && Gathered(DZSet(map[]), ScoredItems(c)) == DZSet(Scores(c))
  {
    hide Scores, Gathered, FindC;
    ScoresGather(map[], c);
    SameScores(c);
    assert Gathered(DZSet(map[]), ScoredItems(c)).scores == Scores(c);
  }

  /** Putting the items of a stored collection into an empty one, in storage order,
      rebuilds what it stands for. */
  lemma ItemsRebuild(v: Value)
    requires Sound(v) && !v.StrV?
    ensures AllFit(KindOf(v), ItemsOf(v))
    ensures Gathered(NewData(KindOf(v)), ItemsOf(v)) == Seen(v)
  {
    hide Gathered, AllFit, Placed, MapOf, Scores, Unique, FieldItems, ListItems, ScoredItems, InOrder;
    match v
    case HashV(t, n) => HashItems(t);
    case ListV(s) =>
      ElementsGather([], s);
      assert [] + s == s;
    case ZSetV(c, _) => ZSetItems(c);
  }

  lemma {:induction false} FieldCount(c: Chain<Bytes>, m: map<Bytes, Bytes>)
    requires NoRepeats(c) && forall k :: (k in m) == FindC(c, k).Some?
    ensures |m| == |c|
    decreases |c|
  {
    if |c| == 0 {
      assert m == map[];
    } else {
      var k := c[0].key;
      FieldCount(c[1..], m - {k});
      MinusOne(m, k);
    }
  }

  /** The size a stored collection records is the number of its items. */
  lemma ItemsCount(v: Value)
    requires Sound(v) && !v.StrV?
    ensures |ItemsOf(v)| == match v case HashV(_, n) => n case ListV(s) => |s| case ZSetV(c, _) => |c|
  {
    match v
    case HashV(t, n) =>
      InOrderIs(t);
      MapOfFind(t);
      FieldsGather(map[], InOrder(t));
      FieldCount(InOrder(t), MapOf(t));
    case ListV(s) => ElementsGather([], s);
    case ZSetV(c, _) => ScoresGather(map[], c);
  }
}
