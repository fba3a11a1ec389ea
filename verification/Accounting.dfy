/** What the counters of a store add up to, on every state its invariant allows. */
module Accounting {
  import opened Common
  import opened Chains
  import opened Values
  import opened Reference
  import opened Tiers
  import opened Listing
  import opened Keyspace
  import SortedSets

  /** The counters of one quantity, type by type. */
  function PerKindSum(p: PerKind): nat {
    p.str + p.hash + p.list + p.zset
  }

  lemma {:induction false} ChainByKind(c: Chain<Entry>)
    ensures SumC(c, W(Memory)) == SumC(c, W(KindBytes(KString))) + SumC(c, W(KindBytes(KHash)))
                                + SumC(c, W(KindBytes(KList))) + SumC(c, W(KindBytes(KZSet)))
    ensures SumC(c, W(Keys)) == SumC(c, W(KindKeys(KString))) + SumC(c, W(KindKeys(KHash)))
                              + SumC(c, W(KindKeys(KList))) + SumC(c, W(KindKeys(KZSet)))
    ensures SumC(c, W(Keys)) == |c|
    decreases |c|
  {
    hide Weight;
    if |c| == 0 {
    } else {
      EntryByKind(c[0].key, c[0].val);
      ChainByKind(c[1..]);
    }
  }

  lemma EntryByKind(k: Bytes, e: Entry)
    ensures Weight(Memory, k, e) == Weight(KindBytes(KString), k, e) + Weight(KindBytes(KHash), k, e)
                                  + Weight(KindBytes(KList), k, e) + Weight(KindBytes(KZSet), k, e)
    ensures Weight(Keys, k, e) == Weight(KindKeys(KString), k, e) + Weight(KindKeys(KHash), k, e)
                                + Weight(KindKeys(KList), k, e) + Weight(KindKeys(KZSet), k, e)
    ensures Weight(Keys, k, e) == 1
  {
    hide Footprint;
  }

  lemma {:induction false} TableByKind(t: Table<Entry>)
    ensures SumT(t, W(Memory)) == SumT(t, W(KindBytes(KString))) + SumT(t, W(KindBytes(KHash)))
                                + SumT(t, W(KindBytes(KList))) + SumT(t, W(KindBytes(KZSet)))
    ensures SumT(t, W(Keys)) == SumT(t, W(KindKeys(KString))) + SumT(t, W(KindKeys(KHash)))
                              + SumT(t, W(KindKeys(KList))) + SumT(t, W(KindKeys(KZSet)))
    ensures SumT(t, W(Keys)) == |InOrder(t)|
    decreases |t|
  {
    if |t| == 0 {
    } else {
      ChainByKind(t[0]);
      TableByKind(t[1..]);
    }
  }

  lemma {:induction false} CountRecords(c: Chain<Entry>, m: Db)
    requires NoRepeats(c) && forall k :: (k in m) == FindC(c, k).Some?
    ensures |m| == |c|
    decreases |c|
  {
    if |c| == 0 {
      assert m == map[];
    } else {
      var k := c[0].key;
      CountRecords(c[1..], m - {k});
      MinusOne(m, k);
    }
  }

  lemma WalkCount(s: Tiers)
    requires Wellformed(s)
    ensures |Walk(s)| == |Records(s)|
  {
    InOrderIs(s.hot);
    InOrderIs(s.cold);
    forall k ensures FindC(InOrder(s.hot), k).None? || FindC(InOrder(s.cold), k).None? {
      assert Find(s.hot, k).None? || Find(s.cold, k).None?;
    }
    NoRepeatsAppend(InOrder(s.hot), InOrder(s.cold));
    forall k ensures (k in Records(s)) == FindC(Walk(s), k).Some? {
      FindAppend(InOrder(s.hot), InOrder(s.cold), k);
      RecordAt(s, k);
    }
    CountRecords(Walk(s), Records(s));
  }

  /** Whatever has been done to a store: its key counter is the number of keys, split
      exactly by type and by tier; used memory is the sum of the bytes by type, even
      after a leak, and exact without one; and so are deadlines and pins. */
  lemma CountersAgree(layout: Layout, s: Tiers, hotN: nat, coldN: nat, st: Stats, l: Leak)
    requires Consistent(layout, s, hotN, coldN, st, l)
    ensures st.nkeys == |Records(s)| == PerKindSum(st.typeKeys)
    ensures layout.HotCold? ==> hotN + coldN == st.nkeys
    ensures st.usedMemory == PerKindSum(st.typeBytes) == Total(s, Memory) + l.bytes
    ensures st.keysWithTtl == Total(s, TtlKeys) && st.expireAtSum == Total(s, Deadlines)
    ensures st.pinnedKeys == Total(s, Pins) + l.pins
  {
    hide SumT, Wellformed, Records, InOrder, AllSound;
    TableByKind(s.hot);
    TableByKind(s.cold);
    WalkCount(s);
    assert forall c: Counter :: CounterOf(st, c) == Total(s, c) + Excess(l, c);
    assert forall t: Kind :: st.typeKeys.At(t) == CounterOf(st, KindKeys(t));
    assert forall t: Kind :: st.typeBytes.At(t) == CounterOf(st, KindBytes(t));
    assert st.nkeys == CounterOf(st, Keys) && st.usedMemory == CounterOf(st, Memory);
    assert st.keysWithTtl == CounterOf(st, TtlKeys) && st.expireAtSum == CounterOf(st, Deadlines);
    assert st.pinnedKeys == CounterOf(st, Pins);
    assert st.typeKeys.str == st.typeKeys.At(KString) && st.typeKeys.hash == st.typeKeys.At(KHash);
    assert st.typeKeys.list == st.typeKeys.At(KList) && st.typeKeys.zset == st.typeKeys.At(KZSet);
    assert st.typeBytes.str == st.typeBytes.At(KString) && st.typeBytes.hash == st.typeBytes.At(KHash);
    assert st.typeBytes.list == st.typeBytes.At(KList) && st.typeBytes.zset == st.typeBytes.At(KZSet);
  }

  // ----- what an entry is charged, in bytes -----

  function ElementsCharge(s: seq<Bytes>): nat {
    if |s| == 0 then 0 else 32 + |s[0]| + ElementsCharge(s[1..])
  }

  function MembersCharge(c: seq<SortedSets.Member>): nat {
    if |c| == 0 then 0 else |c[0].key| + MembersCharge(c[1..])
  }

  function FieldsCharge(c: Chain<Bytes>): nat {
    if |c| == 0 then 0 else 40 + |c[0].key| + |c[0].val| + FieldsCharge(c[1..])
  }

  function BucketsCharge(t: Table<Bytes>): nat {
    if |t| == 0 then 0 else FieldsCharge(t[0]) + BucketsCharge(t[1..])
  }

  /** 80 bytes and the key for an entry; its bytes for a string; 24 and 8 a bucket and 40 a
      field for a hash; 24 and 32 an element for a list; 24 and 24 a place for a sorted set. */
  function Charge(k: Bytes, v: Value): nat {
    80 + |k| +
    match v
    case StrV(b) => |b|
    case HashV(t, _) => 24 + 8 * |t| + BucketsCharge(t)
    case ListV(s) => 24 + ElementsCharge(s)
    case ZSetV(c, cap) => 24 + 24 * cap + MembersCharge(c)
  }

  lemma {:induction false} ElementsCharged(s: seq<Bytes>)
    ensures ItemBytes(s) == ElementsCharge(s)
    decreases |s|
  {
    if |s| == 0 {
    } else {
      ElementsCharged(s[1..]);
    }
  }

  lemma {:induction false} MembersCharged(c: seq<SortedSets.Member>)
    ensures SumC(c, MemberBytes()) == MembersCharge(c)
    decreases |c|
  {
    if |c| == 0 {
    } else {
      MembersCharged(c[1..]);
    }
  }

  lemma {:induction false} FieldsCharged(c: Chain<Bytes>)
    ensures SumC(c, FieldBytes()) == FieldsCharge(c)
    decreases |c|
  {
    if |c| == 0 {
    } else {
      FieldsCharged(c[1..]);
    }
  }

  lemma {:induction false} BucketsCharged(t: Table<Bytes>)
    ensures SumT(t, FieldBytes()) == BucketsCharge(t)
    decreases |t|
  {
    if |t| == 0 {
    } else {
      FieldsCharged(t[0]);
      BucketsCharged(t[1..]);
    }
  }

  /** What used_memory counts for an entry. */
  lemma ChargedFor(k: Bytes, e: Entry)
    ensures Weight(Memory, k, e) == Charge(k, e.value)
  {
    match e.value
    case StrV(_) =>
    case HashV(t, _) => BucketsCharged(t);
    case ListV(s) => ElementsCharged(s);
    case ZSetV(c, _) => MembersCharged(c);
  }
}
