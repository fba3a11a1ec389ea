/** The two tiers of the keyspace and the counters kept beside them. In the flat
    layout the cold tier is absent. */
module Tiers {
  import opened Common
  import opened Chains
  import opened Values
  import opened Reference

  datatype Entry = Entry(value: Value, lastAccess: nat, lfu: nat, pinned: bool, expireAt: nat)

  datatype Tiers = Tiers(hot: Table<Entry>, cold: Table<Entry>)

  ghost function RecOf(e: Entry): Rec {
    Rec(Seen(e.value), e.expireAt, e.pinned)
  }

  ghost predicate Wellformed(s: Tiers) {
    && Placed(s.hot) && PowerOfTwo(|s.hot|)
    && (|s.cold| > 0 ==> Placed(s.cold) && PowerOfTwo(|s.cold|))
    && Apart(s.hot, s.cold)
  }

  function Lookup(s: Tiers, k: Bytes): Option<Entry> {
    Either(Find(s.hot, k), Find(s.cold, k))
  }

  ghost function Records(s: Tiers): Db {
    map k | k in KeysT(s.hot) + KeysT(s.cold) && Lookup(s, k).Some? :: RecOf(Lookup(s, k).value)
  }

  lemma RecordsAre(s: Tiers)
    ensures forall k :: (k in Records(s)) == Lookup(s, k).Some?
    ensures forall k :: k in Records(s) ==> Records(s)[k] == RecOf(Lookup(s, k).value)
  {
    forall k ensures (k in Records(s)) == Lookup(s, k).Some? { RecordAt(s, k); }
  }

  lemma RecordsPut(s: Tiers, r: Tiers, k: Bytes, e: Entry)
    requires forall q :: Lookup(r, q) == if q == k then Some(e) else Lookup(s, q)
    ensures Records(r) == Records(s)[k := RecOf(e)]
  {
    RecordsAre(s);
    RecordsAre(r);
  }

  lemma RecordsDrop(s: Tiers, r: Tiers, k: Bytes)
    requires forall q :: Lookup(r, q) == if q == k then None else Lookup(s, q)
    ensures Records(r) == Records(s) - {k}
  {
    var m, n := Records(s), Records(r);
    forall q ensures (q in n) == (q in m && q != k) && (q in n ==> n[q] == m[q]) {
      RecordAt(s, q);
      RecordAt(r, q);
    }
    DropEquals(m, n, k);
  }

  lemma RecordAt(s: Tiers, k: Bytes)
    ensures (k in Records(s)) == Lookup(s, k).Some?
    ensures k in Records(s) ==> Records(s)[k] == RecOf(Lookup(s, k).value)
  {
    FoundKey(s.hot, k);
    FoundKey(s.cold, k);
  }

  /** What a lookup in the tables says about the reference map. */
  lemma LookupGet(s: Tiers, k: Bytes, now: nat)
    ensures match Lookup(s, k)
      case None => Get(Records(s), k, now).None? && k !in Records(s) && Records(s) - {k} == Records(s)
      case Some(e) => Get(Records(s), k, now) == (if Due(e.expireAt, now) then None else Some(RecOf(e)))
  {
    RecordAt(s, k);
  }

  lemma PresentAt(s: Tiers, k: Bytes)
    requires Lookup(s, k).Some?
    ensures k in Records(s) && Records(s)[k] == RecOf(Lookup(s, k).value)
  {
    RecordAt(s, k);
  }

  /** Freeing the destination first makes no difference to a rename. */
  lemma RenameDb(db: Db, k: Bytes, nk: Bytes, r: Rec)
    ensures (db - {k} - {nk})[nk := r] == (db - {k})[nk := r]
    ensures (db - {nk} - {k} - {nk})[nk := r] == (db - {k})[nk := r]
  {
  }

  lemma SameWrite(db: Db, k: Bytes, r: Rec)
    requires k in db && db[k] == r
    ensures db[k := r] == db
  {
  }

  lemma DropEquals(m: Db, n: Db, k: Bytes)
    requires forall q :: (q in n) == (q in m && q != k) && (q in n ==> n[q] == m[q])
    ensures n == m - {k}
  {
  }

  lemma RecordsSame(s: Tiers, r: Tiers)
    requires forall q :: Lookup(r, q) == Lookup(s, q)
    ensures Records(r) == Records(s)
  {
    RecordsAre(s);
    RecordsAre(r);
  }

  // ----- steps on the pair of tables -----

  function Without(s: Tiers, k: Bytes): Tiers
    requires |s.hot| > 0
  {
    if Find(s.hot, k).Some? then s.(hot := Unlink(s.hot, k))
    else if Find(s.cold, k).Some? then s.(cold := Unlink(s.cold, k))
    else s
  }

  function With(s: Tiers, k: Bytes, e: Entry): Tiers
    requires |s.hot| > 0
  {
    if Find(s.hot, k).Some? then s.(hot := Put(s.hot, k, e))
    else if Find(s.cold, k).Some? then s.(cold := Put(s.cold, k, e))
    else s
  }

  function AddHot(s: Tiers, k: Bytes, e: Entry): Tiers
    requires |s.hot| > 0
  {
    s.(hot := Link(s.hot, k, e))
  }

  function AddCold(s: Tiers, k: Bytes, e: Entry): Tiers
    requires |s.cold| > 0
  {
    s.(cold := Link(s.cold, k, e))
  }

  // ----- counters -----

  datatype Counter =
    | Keys
    | Memory
    | KindKeys(kind: Kind)
    | KindBytes(kind: Kind)
    | TtlKeys
    | Deadlines
    | Pins

  /** klen + payload + sizeof(ArEntry). */
  function Footprint(k: Bytes, e: Entry): nat {
    |k| + Payload(e.value) + ENTRY_SIZE
  }

  /** What one linked entry adds to a counter. */
  function Weight(c: Counter, k: Bytes, e: Entry): nat {
    match c
    case Keys => 1
    case Memory => Footprint(k, e)
    case KindKeys(t) => if KindOf(e.value) == t then 1 else 0
    case KindBytes(t) => if KindOf(e.value) == t then Footprint(k, e) else 0
    case TtlKeys => if e.expireAt != 0 then 1 else 0
    case Deadlines => e.expireAt
    case Pins => if e.pinned then 1 else 0
  }

  function W(c: Counter): Node<Entry> -> nat {
    (n: Node<Entry>) => Weight(c, n.key, n.val)
  }

  function Total(s: Tiers, c: Counter): nat {
    SumT(s.hot, W(c)) + SumT(s.cold, W(c))
  }

  lemma WithoutIs(s: Tiers, k: Bytes)
    requires Wellformed(s) && Lookup(s, k).Some?
    ensures var r := Without(s, k);
      && Wellformed(r) && |r.hot| == |s.hot| && |r.cold| == |s.cold|
      && (forall q :: Find(r.hot, q) == if q == k then None else Find(s.hot, q))
      && (forall q :: Find(r.cold, q) == if q == k then None else Find(s.cold, q))
      && (forall q :: Lookup(r, q) == if q == k then None else Lookup(s, q))
  {
    if Find(s.hot, k).Some? {
      UnlinkTable(s.hot, k);
    } else {
      UnlinkTable(s.cold, k);
    }
  }

  lemma WithoutTotal(s: Tiers, k: Bytes, c: Counter)
    requires Wellformed(s) && Lookup(s, k).Some?
    ensures Total(Without(s, k), c) + Weight(c, k, Lookup(s, k).value) == Total(s, c)
  {
    if Find(s.hot, k).Some? {
      UnlinkSum(s.hot, k, W(c));
    } else {
      UnlinkSum(s.cold, k, W(c));
    }
  }

  lemma WithoutRecords(s: Tiers, k: Bytes)
    requires Wellformed(s) && Lookup(s, k).Some?
    ensures Records(Without(s, k)) == Records(s) - {k}
  {
    WithoutIs(s, k);
    RecordsDrop(s, Without(s, k), k);
  }

  lemma WithIs(s: Tiers, k: Bytes, e: Entry)
    requires Wellformed(s) && Lookup(s, k).Some?
    ensures var r := With(s, k, e);
      && Wellformed(r) && |r.hot| == |s.hot| && |r.cold| == |s.cold|
      && (forall q :: Find(r.hot, q).Some? == Find(s.hot, q).Some?)
      && (forall q :: Find(r.cold, q).Some? == Find(s.cold, q).Some?)
      && (forall q :: Lookup(r, q) == if q == k then Some(e) else Lookup(s, q))
  {
    if Find(s.hot, k).Some? {
      PutTable(s.hot, k, e);
    } else {
      PutTable(s.cold, k, e);
    }
  }

  lemma WithTotal(s: Tiers, k: Bytes, e: Entry, c: Counter)
    requires Wellformed(s) && Lookup(s, k).Some?
    ensures Total(With(s, k, e), c) + Weight(c, k, Lookup(s, k).value) == Total(s, c) + Weight(c, k, e)
    ensures Total(s, c) >= Weight(c, k, Lookup(s, k).value)
  {
    WithoutTotal(s, k, c);
    if Find(s.hot, k).Some? {
      PutSumT(s.hot, k, e, W(c));
    } else {
      PutSumT(s.cold, k, e, W(c));
    }
  }

  lemma WithRecords(s: Tiers, k: Bytes, e: Entry)
    requires Wellformed(s) && Lookup(s, k).Some?
    ensures Records(With(s, k, e)) == Records(s)[k := RecOf(e)]
  {
    WithIs(s, k, e);
    RecordsPut(s, With(s, k, e), k, e);
  }

  lemma AddHotIs(s: Tiers, k: Bytes, e: Entry)
    requires Wellformed(s) && Lookup(s, k).None?
    ensures var r := AddHot(s, k, e);
      && Wellformed(r) && |r.hot| == |s.hot|
      && (forall q :: Find(r.hot, q) == if q == k then Some(e) else Find(s.hot, q))
      && (forall q :: Lookup(r, q) == if q == k then Some(e) else Lookup(s, q))
  {
    LinkTable(s.hot, k, e);
  }

  lemma AddHotTotal(s: Tiers, k: Bytes, e: Entry, c: Counter)
    requires Wellformed(s)
    ensures Total(AddHot(s, k, e), c) == Total(s, c) + Weight(c, k, e)
    ensures SumT(AddHot(s, k, e).hot, W(c)) == SumT(s.hot, W(c)) + Weight(c, k, e)
  {
    LinkSum(s.hot, k, e, W(c));
  }

  lemma AddColdIs(s: Tiers, k: Bytes, e: Entry)
    requires Wellformed(s) && Lookup(s, k).None? && |s.cold| > 0
    ensures var r := AddCold(s, k, e);
      && Wellformed(r) && |r.cold| == |s.cold|
      && (forall q :: Find(r.cold, q) == if q == k then Some(e) else Find(s.cold, q))
      && (forall q :: Lookup(r, q) == if q == k then Some(e) else Lookup(s, q))
  {
    LinkTable(s.cold, k, e);
  }

  lemma AddColdTotal(s: Tiers, k: Bytes, e: Entry, c: Counter)
    requires Wellformed(s) && |s.cold| > 0
    ensures Total(AddCold(s, k, e), c) == Total(s, c) + Weight(c, k, e)
    ensures SumT(AddCold(s, k, e).cold, W(c)) == SumT(s.cold, W(c)) + Weight(c, k, e)
  {
    LinkSum(s.cold, k, e, W(c));
  }

  lemma AddHotRecords(s: Tiers, k: Bytes, e: Entry)
    requires Wellformed(s) && Lookup(s, k).None?
    ensures Records(AddHot(s, k, e)) == Records(s)[k := RecOf(e)]
  {
    AddHotIs(s, k, e);
    RecordsPut(s, AddHot(s, k, e), k, e);
  }

  // ----- the counters of the C structure -----

  datatype PerKind = PerKind(str: nat, hash: nat, list: nat, zset: nat) {
    function At(k: Kind): nat {
      match k
      case KString => str
      case KHash => hash
      case KList => list
      case KZSet => zset
    }

    function Set(k: Kind, n: nat): PerKind {
      match k
      case KString => this.(str := n)
      case KHash => this.(hash := n)
      case KList => this.(list := n)
      case KZSet => this.(zset := n)
    }
  }

  datatype Stats = Stats(nkeys: nat, usedMemory: nat, typeKeys: PerKind, typeBytes: PerKind,
                         keysWithTtl: nat, expireAtSum: nat, pinnedKeys: nat)

  const NO_STATS := Stats(0, 0, PerKind(0, 0, 0, 0), PerKind(0, 0, 0, 0), 0, 0, 0)

  function CounterOf(st: Stats, c: Counter): nat {
    match c
    case Keys => st.nkeys
    case Memory => st.usedMemory
    case KindKeys(t) => st.typeKeys.At(t)
    case KindBytes(t) => st.typeBytes.At(t)
    case TtlKeys => st.keysWithTtl
    case Deadlines => st.expireAtSum
    case Pins => st.pinnedKeys
  }

  /** What the counters overstate: bytes of list nodes that LREM freed together
      with their key, and pins that FLUSHDB forgot. And the keys under which a NaN score
      was once written, whose arrays may be out of order; and what the kernels last noted of
      each key. */
  datatype Leak = Leak(bytes: nat, pins: nat, unruly: set<Bytes>, marks: map<Bytes, Mark>)

  /** When an entry was last used, by the store's clock, and its frequency. */
  datatype Mark = Mark(last: nat, freq: nat)

  function MarkOf(e: Entry): Mark {
    Mark(e.lastAccess, e.lfu)
  }

  function Marking(l: Leak, k: Bytes, e: Entry): Leak {
    l.(marks := l.marks[k := MarkOf(e)])
  }

  function Excess(l: Leak, c: Counter): nat {
    match c
    case Memory => l.bytes
    case KindBytes(t) => if t == KList then l.bytes else 0
    case Pins => l.pins
    case _ => 0
  }

  /** Every counter is the sum over the linked entries, up to the leak. */
  ghost predicate Accounted(st: Stats, s: Tiers, l: Leak) {
    forall c: Counter :: CounterOf(st, c) == Total(s, c) + Excess(l, c)
  }

  // the helpers of ar_types.c

  function MemAdd(st: Stats, n: nat): Stats {
    st.(usedMemory := st.usedMemory + n)
  }

  function MemSub(st: Stats, n: nat): Stats {
    st.(usedMemory := SatSub(st.usedMemory, n))
  }

  function AddKey(st: Stats, t: Kind, bytes: nat): Stats {
    st.(typeKeys := st.typeKeys.Set(t, st.typeKeys.At(t) + 1),
        typeBytes := st.typeBytes.Set(t, st.typeBytes.At(t) + bytes))
  }

  function SubKey(st: Stats, t: Kind, bytes: nat): Stats {
    st.(typeKeys := st.typeKeys.Set(t, SatSub(st.typeKeys.At(t), 1)),
        typeBytes := st.typeBytes.Set(t, SatSub(st.typeBytes.At(t), bytes)))
  }

  function BytesDelta(st: Stats, t: Kind, delta: int): Stats {
    st.(typeBytes := st.typeBytes.Set(t,
          if delta >= 0 then st.typeBytes.At(t) + delta else SatSub(st.typeBytes.At(t), -delta)))
  }

  function ClearExpire(st: Stats, deadline: nat): Stats {
    if deadline == 0 then st
    else st.(keysWithTtl := SatSub(st.keysWithTtl, 1), expireAtSum := SatSub(st.expireAtSum, deadline))
  }

  function SetExpire(st: Stats, prior: nat, deadline: nat): Stats {
    var cleared := ClearExpire(st, prior);
    if deadline == 0 then cleared
    else cleared.(keysWithTtl := cleared.keysWithTtl + 1, expireAtSum := cleared.expireAtSum + deadline)
  }

  /** The counter updates of ar_entry_free_ex. */
  function Freed(st: Stats, k: Bytes, e: Entry): Stats {
    var a := SubKey(ClearExpire(st, e.expireAt), KindOf(e.value), Footprint(k, e));
    var b := MemSub(a, Footprint(k, e));
    b.(pinnedKeys := if e.pinned then SatSub(b.pinnedKeys, 1) else b.pinnedKeys,
       nkeys := SatSub(b.nkeys, 1))
  }

  /** The counter updates for a new key. */
  function Linked(st: Stats, k: Bytes, e: Entry): Stats {
    var a := AddKey(MemAdd(st, Footprint(k, e)), KindOf(e.value), Footprint(k, e));
    a.(nkeys := a.nkeys + 1)
  }

  /** Charge a key for a payload that changed size. */
  function Recharged(st: Stats, t: Kind, before: nat, after: nat): Stats {
    if after >= before then BytesDelta(MemAdd(st, after - before), t, after - before)
    else BytesDelta(MemSub(st, before - after), t, -(before - after))
  }

  lemma FreedFields(st: Stats, k: Bytes, e: Entry)
    requires forall c: Counter :: CounterOf(st, c) >= Weight(c, k, e)
    ensures forall c: Counter :: CounterOf(Freed(st, k, e), c) + Weight(c, k, e) == CounterOf(st, c)
  {
    var t := KindOf(e.value);
    assert CounterOf(st, Memory) >= Weight(Memory, k, e) && CounterOf(st, Keys) >= Weight(Keys, k, e);
    assert CounterOf(st, KindBytes(t)) >= Weight(KindBytes(t), k, e);
    assert CounterOf(st, KindKeys(t)) >= Weight(KindKeys(t), k, e);
    assert CounterOf(st, TtlKeys) >= Weight(TtlKeys, k, e);
    assert CounterOf(st, Deadlines) >= Weight(Deadlines, k, e);
    assert CounterOf(st, Pins) >= Weight(Pins, k, e);
  }

  lemma FreedAccounted(st: Stats, s: Tiers, l: Leak, k: Bytes)
    requires Wellformed(s) && Lookup(s, k).Some? && Accounted(st, s, l)
    ensures Accounted(Freed(st, k, Lookup(s, k).value), Without(s, k), l)
  {
    var e := Lookup(s, k).value;
    Enough(st, s, l, k);
    FreedFields(st, k, e);
    forall c: Counter ensures CounterOf(Freed(st, k, e), c) == Total(Without(s, k), c) + Excess(l, c) {
      WithoutTotal(s, k, c);
    }
  }

  lemma LinkedFields(st: Stats, k: Bytes, e: Entry)
    requires e.expireAt == 0 && !e.pinned
    ensures forall c: Counter :: CounterOf(Linked(st, k, e), c) == CounterOf(st, c) + Weight(c, k, e)
  {
  }

  lemma LinkedAccounted(st: Stats, s: Tiers, l: Leak, k: Bytes, e: Entry)
    requires Wellformed(s) && Accounted(st, s, l) && e.expireAt == 0 && !e.pinned
    ensures Accounted(Linked(st, k, e), AddHot(s, k, e), l)
  {
    LinkedFields(st, k, e);
    forall c: Counter ensures CounterOf(Linked(st, k, e), c) == Total(AddHot(s, k, e), c) + Excess(l, c) {
      AddHotTotal(s, k, e, c);
    }
  }

  /** An entry rewritten in place, its counters adjusted by the difference. */
  ghost predicate Adjusted(st: Stats, u: Stats, k: Bytes, e: Entry, f: Entry) {
    forall c: Counter :: CounterOf(u, c) + Weight(c, k, e) == CounterOf(st, c) + Weight(c, k, f)
  }

  lemma AdjustedAccounted(st: Stats, u: Stats, s: Tiers, l: Leak, k: Bytes, f: Entry)
    requires Wellformed(s) && Lookup(s, k).Some? && Accounted(st, s, l)
    requires Adjusted(st, u, k, Lookup(s, k).value, f)
    ensures Accounted(u, With(s, k, f), l)
  {
    forall c: Counter ensures CounterOf(u, c) == Total(With(s, k, f), c) + Excess(l, c) {
      WithTotal(s, k, f, c);
    }
  }

  /** Counters are large enough for a linked entry, so no subtraction saturates. */
  lemma Enough(st: Stats, s: Tiers, l: Leak, k: Bytes)
    requires Wellformed(s) && Lookup(s, k).Some? && Accounted(st, s, l)
    ensures forall c: Counter :: CounterOf(st, c) >= Weight(c, k, Lookup(s, k).value)
  {
    forall c: Counter ensures CounterOf(st, c) >= Weight(c, k, Lookup(s, k).value) {
      WithoutTotal(s, k, c);
    }
  }

  lemma RechargedAdjusts(st: Stats, k: Bytes, e: Entry, f: Entry)
    requires KindOf(f.value) == KindOf(e.value) && f.expireAt == e.expireAt && f.pinned == e.pinned
    requires forall c: Counter :: CounterOf(st, c) >= Weight(c, k, e)
    ensures Adjusted(st, Recharged(st, KindOf(e.value), Payload(e.value), Payload(f.value)), k, e, f)
  {
    hide Payload;
    var t := KindOf(e.value);
    assert CounterOf(st, Memory) >= Weight(Memory, k, e);
    assert CounterOf(st, KindBytes(t)) >= Weight(KindBytes(t), k, e);
    var u := Recharged(st, t, Payload(e.value), Payload(f.value));
    forall c: Counter ensures CounterOf(u, c) + Weight(c, k, e) == CounterOf(st, c) + Weight(c, k, f) {
      match c
      case Memory =>
      case KindBytes(_) =>
      case _ =>
    }
  }

  lemma SetExpireAdjusts(st: Stats, k: Bytes, e: Entry, deadline: nat)
    requires forall c: Counter :: CounterOf(st, c) >= Weight(c, k, e)
    ensures Adjusted(st, SetExpire(st, e.expireAt, deadline), k, e, e.(expireAt := deadline))
  {
    assert CounterOf(st, TtlKeys) >= Weight(TtlKeys, k, e);
    assert CounterOf(st, Deadlines) >= Weight(Deadlines, k, e);
  }

  // ----- iteration order: hot buckets first, then cold ones -----

  function Buckets(s: Tiers): nat {
    |s.hot| + |s.cold|
  }

  function BucketAt(s: Tiers, idx: nat): Chain<Entry>
    requires idx < Buckets(s)
  {
    if idx < |s.hot| then s.hot[idx] else s.cold[idx - |s.hot|]
  }

  /** The bucket index under which iteration meets a key. */
  function Pos(s: Tiers, k: Bytes): nat {
    if |s.hot| > 0 && Find(s.hot, k).Some? then Slot(k, |s.hot|)
    else if |s.cold| > 0 then |s.hot| + Slot(k, |s.cold|)
    else 0
  }

  function LiveKeys(c: Chain<Entry>, now: nat): seq<Bytes> {
    if |c| == 0 then []
    else (if Due(c[0].val.expireAt, now) then [] else [c[0].key]) + LiveKeys(c[1..], now)
  }

  lemma LiveKeysStep(c: Chain<Entry>, j: nat, now: nat, found: seq<Bytes>)
    requires j < |c| && found + LiveKeys(c[j..], now) == LiveKeys(c, now)
    ensures found + (if Due(c[j].val.expireAt, now) then [] else [c[j].key]) + LiveKeys(c[j + 1..], now)
         == LiveKeys(c, now)
  {
    assert c[j..][0] == c[j] && c[j..][1..] == c[j + 1..];
  }

  lemma LiveKeysDone(c: Chain<Entry>, now: nat)
    ensures LiveKeys(c[|c|..], now) == [] && LiveKeys(c[0..], now) == LiveKeys(c, now)
  {
    assert c[0..] == c;
  }

  ghost predicate Distinct(s: seq<Bytes>) {
    forall i, j :: 0 <= i < j < |s| ==> s[i] != s[j]
  }

  lemma {:induction false} LiveKeysOf(c: Chain<Entry>, b: nat, n: nat, now: nat)
    requires n > 0 && ChainOk(c, b, n)
    ensures Distinct(LiveKeys(c, now))
    ensures forall k :: k in LiveKeys(c, now) <==>
      FindC(c, k).Some? && !Due(FindC(c, k).value.expireAt, now)
    decreases |c|
  {
    if |c| == 0 {
    } else {
      LiveKeysOf(c[1..], b, n, now);
      var rest := LiveKeys(c[1..], now);
      var r := LiveKeys(c, now);
      assert r == rest || r == [c[0].key] + rest;
      assert c[0].key !in rest;
    }
  }

  /** A key is in a bucket's chain exactly when that is its position. */
  lemma ChainHolds(s: Tiers, idx: nat, k: Bytes)
    requires Wellformed(s) && idx < Buckets(s)
    ensures FindC(BucketAt(s, idx), k) == if Lookup(s, k).Some? && Pos(s, k) == idx then Lookup(s, k) else None
  {
    var c := BucketAt(s, idx);
    if idx < |s.hot| {
      if FindC(c, k).Some? { FindAtSlot(c, idx, |s.hot|, k); }
    } else {
      if FindC(c, k).Some? { FindAtSlot(c, idx - |s.hot|, |s.cold|, k); }
    }
    assert Find(s.hot, k).None? || Find(s.cold, k).None?;
  }

  /** A bucket yields exactly the live keys whose position it is, each once. */
  lemma LiveKeysAre(s: Tiers, idx: nat, now: nat)
    requires Wellformed(s) && idx < Buckets(s)
    ensures Distinct(LiveKeys(BucketAt(s, idx), now))
    ensures forall k :: k in LiveKeys(BucketAt(s, idx), now) <==>
      Lookup(s, k).Some? && !Due(Lookup(s, k).value.expireAt, now) && Pos(s, k) == idx
  {
    hide Lookup, Pos, FindC, Find, BucketAt, Distinct, LiveKeys;
    BucketOk(s, idx);
    var c := BucketAt(s, idx);
    LiveKeysOf(c, if idx < |s.hot| then idx else idx - |s.hot|, if idx < |s.hot| then |s.hot| else |s.cold|, now);
    forall k ensures FindC(c, k) == if Lookup(s, k).Some? && Pos(s, k) == idx then Lookup(s, k) else None {
      ChainHolds(s, idx, k);
    }
  }

  lemma BucketOk(s: Tiers, idx: nat)
    requires Wellformed(s) && idx < Buckets(s)
    ensures |s.hot| > 0 && (idx >= |s.hot| ==> |s.cold| > 0)
    ensures ChainOk(BucketAt(s, idx), if idx < |s.hot| then idx else idx - |s.hot|,
                    if idx < |s.hot| then |s.hot| else |s.cold|)
  {
  }

  lemma PosBound(s: Tiers, k: Bytes)
    requires Wellformed(s) && Lookup(s, k).Some?
    ensures Pos(s, k) < Buckets(s)
  {
  }

  /** Only due entries went away, and nothing moved. */
  ghost predicate Purged(s: Tiers, r: Tiers, now: nat) {
    && |r.hot| == |s.hot| && |r.cold| == |s.cold|
    && forall q ::
         || (Find(r.hot, q) == Find(s.hot, q) && Find(r.cold, q) == Find(s.cold, q))
         || (Lookup(r, q).None? && Lookup(s, q).Some? && Due(Lookup(s, q).value.expireAt, now))
  }

  lemma PurgedSelf(s: Tiers, now: nat)
    ensures Purged(s, s, now)
  {
  }

  lemma WithoutPurged(s: Tiers, k: Bytes, now: nat)
    requires Wellformed(s) && Lookup(s, k).Some? && Due(Lookup(s, k).value.expireAt, now)
    ensures |s.hot| > 0 && Purged(s, Without(s, k), now)
  {
    WithoutIs(s, k);
  }

  lemma PurgedTwice(s: Tiers, r: Tiers, t: Tiers, now: nat)
    requires Purged(s, r, now) && Purged(r, t, now)
    ensures Purged(s, t, now)
  {
  }

  lemma PurgedLive(s: Tiers, r: Tiers, k: Bytes, now: nat)
    requires Purged(s, r, now)
    ensures Get(Records(r), k, now) == Get(Records(s), k, now)
    ensures Get(Records(s), k, now).Some? ==> Pos(r, k) == Pos(s, k)
  {
    LookupGet(s, k, now);
    LookupGet(r, k, now);
  }

  // ----- what a walk over a range of buckets collects -----

  /** k is live and sits in a bucket from `from` up to, not including, `end`. */
  ghost predicate Within(s: Tiers, k: Bytes, now: nat, from: nat, end: nat) {
    Get(Records(s), k, now).Some? && from <= Pos(s, k) < end
  }

  function Elements(s: seq<Bytes>): set<Bytes> {
    set x | x in s
  }

  lemma {:induction false} ElementsCount(s: seq<Bytes>)
    requires Distinct(s)
    ensures |Elements(s)| == |s|
  {
    if |s| == 0 {
    } else {
      var t := s[1..];
      ElementsCount(t);
      assert Elements(s) == Elements(t) + {s[0]};
      assert s[0] !in Elements(t);
    }
  }

  /** One more bucket: what it yields is exactly what the range grows by. */
  lemma WalkStep(s0: Tiers, s: Tiers, idx: nat, now: nat, found: seq<Bytes>)
    requires Wellformed(s) && Purged(s0, s, now) && idx < Buckets(s)
    requires found == LiveKeys(BucketAt(s, idx), now)
    ensures Distinct(found)
    ensures forall k :: k in found <==> Within(s0, k, now, idx, idx + 1)
  {
    hide Purged, Wellformed, BucketAt, LiveKeys, Lookup, Pos, Distinct, Records;
    LiveKeysAre(s, idx, now);
    forall k ensures k in found <==> Within(s0, k, now, idx, idx + 1) {
      LookupGet(s, k, now);
      PurgedLive(s0, s, k, now);
    }
  }

  lemma WithinSplits(s: Tiers, k: Bytes, now: nat, from: nat, mid: nat, end: nat)
    requires from <= mid <= end
    ensures Within(s, k, now, from, end) <==> Within(s, k, now, from, mid) || Within(s, k, now, mid, end)
    ensures !(Within(s, k, now, from, mid) && Within(s, k, now, mid, end))
  {
  }

  /** The whole range holds every live key. */
  lemma WithinAll(s: Tiers, k: Bytes, now: nat)
    requires Wellformed(s)
    ensures Within(s, k, now, 0, Buckets(s)) <==> Get(Records(s), k, now).Some?
  {
    LookupGet(s, k, now);
    if Lookup(s, k).Some? { PosBound(s, k); }
  }

  lemma DistinctAppend(a: seq<Bytes>, b: seq<Bytes>)
    requires Distinct(a) && Distinct(b) && forall k :: k in a ==> k !in b
    ensures Distinct(a + b)
  {
    forall i, j | 0 <= i < j < |a + b| ensures (a + b)[i] != (a + b)[j] {
      if i < |a| <= j { assert a[i] in a && b[j - |a|] in b; }
    }
  }
}
