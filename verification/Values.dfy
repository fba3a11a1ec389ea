/** The value types of a key, as stored and as a client sees them. */
module Values {
  import opened Common
  import opened Chains
  import opened SortedSets

  datatype Kind = KString | KHash | KList | KZSet

  /** As stored: a hash is a chained table, a sorted set an array with spare room. */
  datatype Value =
    | StrV(bytes: Bytes)
    | HashV(fields: Table<Bytes>, nfields: nat)
    | ListV(items: seq<Bytes>)
    | ZSetV(nodes: seq<Member>, cap: nat)

  /** As seen: layout, bucket counts and capacities gone. */
  datatype Data =
    | DStr(bytes: Bytes)
    | DHash(fields: map<Bytes, Bytes>)
    | DList(items: seq<Bytes>)
    | DZSet(scores: map<Bytes, Score>)

  ghost function Seen(v: Value): Data {
    match v
    case StrV(b) => DStr(b)
    case HashV(t, _) => DHash(MapOf(t))
    case ListV(s) => DList(s)
    case ZSetV(c, _) => DZSet(Scores(c))
  }

  function KindOf(v: Value): Kind {
    match v
    case StrV(_) => KString
    case HashV(_, _) => KHash
    case ListV(_) => KList
    case ZSetV(_, _) => KZSet
  }

  function DataKind(d: Data): Kind {
    match d
    case DStr(_) => KString
    case DHash(_) => KHash
    case DList(_) => KList
    case DZSet(_) => KZSet
  }

  ghost predicate Sound(v: Value) {
    match v
    case StrV(_) => true
    case HashV(t, n) => Placed(t) && n == |MapOf(t)| && 16 <= |t| && n <= |t|
    case ListV(_) => true
    case ZSetV(c, cap) => Unique(c) && |c| <= MAX_MEMBERS && |c| <= cap
  }

  /** A sorted set in order, with a number for every score. */
  ghost predicate Ranked(v: Value) {
    v.ZSetV? ==> Sorted(v.nodes) && Numbers(v.nodes)
  }

  predicate EmptyTyped(v: Value) {
    match v
    case StrV(_) => false
    case HashV(_, n) => n == 0
    case ListV(s) => |s| == 0
    case ZSetV(c, _) => |c| == 0
  }

  function NewValue(kind: Kind): Value {
    match kind
    case KString => StrV([])
    case KHash => HashV(Empty(16), 0)
    case KList => ListV([])
    case KZSet => ZSetV([], 0)
  }

  function NewData(kind: Kind): Data {
    match kind
    case KString => DStr([])
    case KHash => DHash(map[])
    case KList => DList([])
    case KZSet => DZSet(map[])
  }

  lemma NewIs(kind: Kind)
    ensures Sound(NewValue(kind)) && Seen(NewValue(kind)) == NewData(kind)
    ensures KindOf(NewValue(kind)) == kind
  {
    match kind
    case KString =>
    case KHash =>
      EmptyPlaced<Bytes>(16);
      MapOfFind(Empty<Bytes>(16));
      assert MapOf(Empty<Bytes>(16)) == map[];
    case KList =>
    case KZSet =>
      SameScores([]);
      assert Scores([]) == map[];
  }

  // ----- memory a value is charged for (LP64 structure sizes) -----

  const ENTRY_SIZE: nat := 80
  const HASH_SIZE: nat := 24
  const FIELD_SIZE: nat := 40
  const LIST_SIZE: nat := 24
  const ITEM_SIZE: nat := 32
  const ZSET_SIZE: nat := 24
  const MEMBER_SIZE: nat := 24
  const WORD_SIZE: nat := 8

  function FieldBytes(): Node<Bytes> -> nat {
    (n: Node<Bytes>) => FIELD_SIZE + |n.key| + |n.val|
  }

  function MemberBytes(): Member -> nat {
    (n: Member) => |n.key|
  }

  function ItemBytes(s: seq<Bytes>): nat {
    if |s| == 0 then 0 else ITEM_SIZE + |s[0]| + ItemBytes(s[1..])
  }

  function Payload(v: Value): nat {
    match v
    case StrV(b) => |b|
    case HashV(t, _) => HASH_SIZE + WORD_SIZE * |t| + SumT(t, FieldBytes())
    case ListV(s) => LIST_SIZE + ItemBytes(s)
    case ZSetV(c, cap) => ZSET_SIZE + MEMBER_SIZE * cap + SumC(c, MemberBytes())
  }

  // ----- hash fields -----

  function SetFields(m: map<Bytes, Bytes>, pairs: seq<(Bytes, Bytes)>): map<Bytes, Bytes>
    decreases |pairs|
  {
    if |pairs| == 0 then m else SetFields(m[pairs[0].0 := pairs[0].1], pairs[1..])
  }

  function DropFields(m: map<Bytes, Bytes>, fields: seq<Bytes>): map<Bytes, Bytes>
    decreases |fields|
  {
    if |fields| == 0 then m else DropFields(m - {fields[0]}, fields[1..])
  }

  /** One field of HSET. A new field is linked at the head of its chain, and the
      table doubles when it holds more fields than buckets. */
  method SetField(t: Table<Bytes>, n: nat, f: Bytes, x: Bytes) returns (u: Table<Bytes>, m: nat)
    requires Placed(t) && n == |MapOf(t)|
    ensures Placed(u) && m == |MapOf(u)| && MapOf(u) == MapOf(t)[f := x]
    ensures |u| == if m > |t| && f !in MapOf(t) then 2 * |t| else |t|
  {
    var found := FindInTable(t, f);
    assert (f in MapOf(t)) == found.Some? by { MapOfFind(t); }
    if found.Some? {
      PutTable(t, f, x);
      MapPut(t, Put(t, f, x), f, x);
      u, m := Put(t, f, x), n;
    } else {
      LinkTable(t, f, x);
      MapPut(t, Link(t, f, x), f, x);
      u, m := Link(t, f, x), n + 1;
      if m > |u| {
        var bigger := Doubled(u);
        MapSame(u, bigger);
        u := bigger;
      }
    }
  }

  lemma MinusOne<V>(m: map<Bytes, V>, k: Bytes)
    ensures k in m ==> |m - {k}| == |m| - 1
    ensures k !in m ==> m - {k} == m
  {
    assert (m - {k}).Keys == m.Keys - {k};
    assert |m| == |m.Keys| && |m - {k}| == |(m - {k}).Keys|;
  }

  /** One field of HDEL. */
  method DropField(t: Table<Bytes>, n: nat, f: Bytes) returns (u: Table<Bytes>, m: nat)
    requires Placed(t) && n == |MapOf(t)|
    ensures Placed(u) && m == |MapOf(u)| && MapOf(u) == MapOf(t) - {f}
    ensures m <= n && (m == n ==> u == t) && |u| == |t|
  {
    var found := FindInTable(t, f);
    assert (f in MapOf(t)) == found.Some? by { MapOfFind(t); }
    MinusOne(MapOf(t), f);
    if found.Some? {
      UnlinkTable(t, f);
      MapDrop(t, Unlink(t, f), f);
      u, m := Unlink(t, f), n - 1;
    } else {
      u, m := t, n;
    }
  }

  /** n is the first of m, 2m, 4m and so on that is at least `need`. */
  ghost predicate FirstDoubling(m: nat, need: nat, n: nat) {
    need <= n && (n == m || n < 2 * need) && exists j: nat :: n == m * Two(j)
  }

  lemma NoDoubling(m: nat, need: nat)
    requires need <= m
    ensures FirstDoubling(m, need, m)
  {
    assert m == m * Two(0);
  }

  lemma NextDoubling(m: nat, need: nat, n: nat)
    requires FirstDoubling(m, need, n) && n > 0
    ensures need <= n && FirstDoubling(m, need + 1, if need + 1 > n then 2 * n else n)
  {
    var j: nat :| n == m * Two(j);
    assert m * Two(j + 1) == 2 * (m * Two(j));
  }

  /** HSET's loop. The table doubles when it has more fields than buckets. */
  method SetHash(v: Value, pairs: seq<(Bytes, Bytes)>) returns (r: Value, added: int)
    requires v.HashV? && Sound(v)
    ensures r.HashV? && Sound(r)
    ensures Seen(r) == DHash(SetFields(MapOf(v.fields), pairs))
    ensures added == r.nfields - v.nfields && FirstDoubling(|v.fields|, r.nfields, |r.fields|)
  {
    hide FirstDoubling, Placed, MapOf;
    var t, n := v.fields, v.nfields;
    NoDoubling(|t|, n);
    for i := 0 to |pairs|
      invariant Placed(t) && n == |MapOf(t)| && 16 <= |t| && n <= |t| && FirstDoubling(|v.fields|, n, |t|)
      invariant SetFields(MapOf(t), pairs[i..]) == SetFields(MapOf(v.fields), pairs)
    {
      assert pairs[i..][0] == pairs[i] && pairs[i..][1..] == pairs[i + 1..];
      NextDoubling(|v.fields|, n, |t|);
      assert |MapOf(t)[pairs[i].0 := pairs[i].1]| == n + if pairs[i].0 in MapOf(t) then 0 else 1;
      t, n := SetField(t, n, pairs[i].0, pairs[i].1);
    }
    assert pairs[|pairs|..] == [];
    r, added := HashV(t, n), n - v.nfields;
  }

  /** HDEL's loop. */
  method DropHash(v: Value, fields: seq<Bytes>) returns (r: Value, removed: nat)
    requires v.HashV? && Sound(v)
    ensures r.HashV? && Sound(r)
    ensures Seen(r) == DHash(DropFields(MapOf(v.fields), fields))
    ensures removed == v.nfields - r.nfields && |r.fields| == |v.fields|
    ensures removed == 0 ==> r == v
  {
    var t, n := v.fields, v.nfields;
    for i := 0 to |fields|
      invariant Placed(t) && n == |MapOf(t)| && n <= v.nfields && |t| == |v.fields|
      invariant DropFields(MapOf(t), fields[i..]) == DropFields(MapOf(v.fields), fields)
      invariant n == v.nfields ==> t == v.fields
    {
      assert fields[i..][0] == fields[i] && fields[i..][1..] == fields[i + 1..];
      t, n := DropField(t, n, fields[i]);
    }
    assert fields[|fields|..] == [];
    r, removed := HashV(t, n), v.nfields - n;
  }

  /** realloc growth of the member array: 8, then doubling. */
  function Grow(cap: nat, need: nat): (r: nat)
    ensures r >= need && r >= cap
    decreases need - cap
  {
    if cap >= need then cap else Grow(if cap == 0 then 8 else 2 * cap, need)
  }

  /** The capacity after a batch, one insertion at a time. */
  function CapAfter(c: seq<Member>, cap: nat, batch: seq<Member>): (r: nat)
    requires Unique(c) && |c| <= cap
    ensures r >= |AddedAll(c, batch)| && r >= cap
    decreases |batch|
  {
    if |batch| == 0 then cap
    else
      AddedOne(c, batch[0]);
      var d := Added(c, batch[0]);
      CapAfter(d, Grow(cap, |d|), batch[1..])
  }

  lemma OnceDoubled(m: nat, need: nat, n: nat)
    requires m < need && if need <= 2 * m then n == 2 * m else FirstDoubling(2 * m, need, n)
    ensures FirstDoubling(m, need, n)
  {
    if need <= 2 * m {
      assert Two(1) == 2;
      assert n == m * Two(1);
    } else {
      var j: nat :| n == 2 * m * Two(j);
      assert m * Two(j + 1) == 2 * m * Two(j);
    }
  }

  /** ZADD leaves the array as it is while the members fit, and else with the first of 8, 16
      and so on, or of its doublings, that holds them all. */
  lemma {:induction false} CapacityIs(c: seq<Member>, cap: nat, batch: seq<Member>)
    requires Unique(c) && |c| <= cap
    ensures var r, need := CapAfter(c, cap, batch), |AddedAll(c, batch)|;
      if need <= cap then r == cap else FirstDoubling(if cap == 0 then 8 else cap, need, r)
    decreases |batch|
  {
    hide FirstDoubling, Unique, Added, Scores, PutAll, FreshPairs, Sorted, Numbers;
    if |batch| == 0 {
    } else {
      AddedOne(c, batch[0]);
      var d := Added(c, batch[0]);
      var more := Grow(cap, |d|);
      assert |d| <= cap || (|d| == cap + 1 && Grow(if cap == 0 then 8 else 2 * cap, |d|) == more);
      AddedAllIs(d, batch[1..]);
      CapacityIs(d, more, batch[1..]);
      var r, need := CapAfter(c, cap, batch), |AddedAll(c, batch)|;
      if |d| > cap {
        if cap > 0 {
          OnceDoubled(cap, need, r);
        } else if need <= 8 {
          NoDoubling(8, need);
        }
      }
    }
  }

  // ----- sorted-set commands on a stored value -----

  function AddScores(v: Value, batch: seq<Member>): Value
    requires v.ZSetV? && Unique(v.nodes) && |v.nodes| <= v.cap
  {
    ZSetV(AddedAll(v.nodes, batch), CapAfter(v.nodes, v.cap, batch))
  }

  lemma AddScoresIs(v: Value, batch: seq<Member>)
    requires v.ZSetV? && Sound(v) && Fits(v.nodes, batch)
    ensures Sound(AddScores(v, batch)) && Seen(AddScores(v, batch)) == DZSet(PutAll(Scores(v.nodes), batch))
    ensures |Scores(v.nodes)| == |v.nodes|
    ensures |PutAll(Scores(v.nodes), batch)| == |AddedAll(v.nodes, batch)|
    ensures FreshIn(Scores(v.nodes), batch) == FreshPairs(v.nodes, batch)
  {
    AddedAllIs(v.nodes, batch);
    LengthIs(v.nodes);
    LengthIs(AddedAll(v.nodes, batch));
    FreshIs(v.nodes, batch);
  }

  lemma AddScoresRanked(v: Value, batch: seq<Member>)
    requires v.ZSetV? && Sound(v) && Ranked(v) && Numbers(batch)
    ensures Ranked(AddScores(v, batch))
  {
    hide Sorted, Numbers;
    AddedAllIs(v.nodes, batch);
  }

  lemma DropScoresRanked(v: Value, members: seq<Bytes>)
    requires v.ZSetV? && Sound(v) && Ranked(v)
    ensures Ranked(v.(nodes := DroppedAll(v.nodes, members)))
  {
    hide Sorted, Numbers;
    DroppedAllIs(v.nodes, members);
  }

  /** Arrays in order are the same if they stand for the same scores. */
  lemma RankedAlike(v: Value, w: Value)
    requires v.ZSetV? && Sound(v) && Ranked(v) && Sound(w) && Ranked(w) && Seen(v) == Seen(w)
    ensures w.ZSetV? && v.nodes == w.nodes
  {
    hide Sorted, Numbers, Scores, Unique;
    SameScores(v.nodes);
    SameScores(w.nodes);
    forall k ensures FindC(v.nodes, k) == FindC(w.nodes, k) {
      assert (k in Scores(v.nodes)) == FindC(v.nodes, k).Some? && (k in Scores(w.nodes)) == FindC(w.nodes, k).Some?;
    }
    OrderDetermined(v.nodes, w.nodes);
  }

  lemma DropScoresIs(v: Value, members: seq<Bytes>)
    requires v.ZSetV? && Sound(v)
    ensures var r := v.(nodes := DroppedAll(v.nodes, members));
      && Sound(r) && Seen(r) == DZSet(RemoveAll(Scores(v.nodes), members))
      && |RemoveAll(Scores(v.nodes), members)| == |r.nodes| && |Scores(v.nodes)| == |v.nodes|
      && |r.nodes| <= |v.nodes| && (|r.nodes| == |v.nodes| ==> r == v)
  {
    DroppedAllIs(v.nodes, members);
    LengthIs(v.nodes);
    LengthIs(DroppedAll(v.nodes, members));
    if |DroppedAll(v.nodes, members)| == |v.nodes| { DroppedNone(v.nodes, members); }
  }
}
