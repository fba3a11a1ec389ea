/** The data plane: one keyspace, its counters, its eviction kernels, and the
    watching connections that every write has to notify. */
module Keyspace {
  import opened Common
  import opened Chains
  import opened SortedSets
  import opened Values
  import opened Reference
  import opened Tiers
  import opened Watching
  import opened Positions
  import opened Eviction
  import Lists
  import Glob

  datatype Layout = Flat | HotCold

  datatype Settings = Settings(kernel: Kernel, maxmemory: nat, samples: int,
                               softCapPct: int, softCapMin: int, promoteOnGet: bool)

  /** on_get and on_set of each kernel: the touched entry and the clock. */
  function OnGet(kernel: Kernel, e: Entry, clock: nat): (Entry, nat) {
    match kernel
    case Noop => (e, clock)
    case Lfu => (e.(lfu := if e.lfu < 255 then e.lfu + 1 else e.lfu), clock)
    case Lru => (e.(lastAccess := clock + 1), clock + 1)
    case TtlAware => (e.(lastAccess := clock + 1), clock + 1)
    case _ =>
      (e.(lastAccess := clock + 1,
          lfu := if e.lfu == 0 then 1 else if e.lfu < 255 then e.lfu + 1 else e.lfu), clock + 1)
  }

  function OnSet(kernel: Kernel, e: Entry, clock: nat): (Entry, nat) {
    match kernel
    case Noop => (e, clock)
    case Lfu => (e.(lastAccess := clock + 1, lfu := if e.lfu == 0 then 5 else e.lfu), clock + 1)
    case Lru => (e.(lastAccess := clock + 1), clock + 1)
    case TtlAware => (e.(lastAccess := clock + 1), clock + 1)
    case _ => (e.(lastAccess := clock + 1, lfu := 0), clock + 1)
  }

  lemma AdjustedTwice(st: Stats, u: Stats, w: Stats, k: Bytes, e: Entry, f: Entry, g: Entry)
    requires Adjusted(st, u, k, e, f) && Adjusted(u, w, k, f, g)
    ensures Adjusted(st, w, k, e, g)
  {
  }

  lemma HookKeeps(kernel: Kernel, e: Entry, clock: nat)
    ensures var f := OnGet(kernel, e, clock).0; f.value == e.value && f.expireAt == e.expireAt && f.pinned == e.pinned
    ensures var f := OnSet(kernel, e, clock).0; f.value == e.value && f.expireAt == e.expireAt && f.pinned == e.pinned
  {
  }

  lemma RecOfRelinked(e: Entry, clock: nat)
    ensures RecOf(e.(lastAccess := clock)) == RecOf(e)
  {
  }

  lemma RelabelWatched(conns: seq<Conn>, seen: seq<Sight>, since: Since, db: Db, k: Bytes, nk: Bytes, r: Rec)
    requires WatchOk(conns, seen, since, db, {})
    ensures WatchOk(conns, seen, Naming(since, nk), (db - {k})[nk := r], {k, nk})
  {
    hide WatchOk;
    DropWithin(conns, seen, since, db, {}, k);
    WriteWithin(conns, seen, since, db - {k}, {} + {k}, nk, r);
    assert {} + {k} + {nk} == {k, nk};
  }

  /** The counter updates of SET over a typed value: it becomes an empty string. */
  function Retyped(st: Stats, k: Bytes, e: Entry): Stats {
    if KindOf(e.value) == KString then st
    else AddKey(MemSub(SubKey(st, KindOf(e.value), Footprint(k, e)), Payload(e.value)),
                KString, |k| + ENTRY_SIZE)
  }

  /** Then the old string is given back and the new one charged. */
  function Exchanged(st: Stats, before: nat, after: nat): Stats {
    var a := BytesDelta(MemSub(st, before), KString, 0 - before);
    BytesDelta(MemAdd(a, after), KString, after)
  }

  function Emptied(e: Entry): Entry {
    if e.value.StrV? then e else e.(value := StrV([]))
  }

  lemma RetypedAdjusts(st: Stats, k: Bytes, e: Entry)
    requires forall c: Counter :: CounterOf(st, c) >= Weight(c, k, e)
    ensures Adjusted(st, Retyped(st, k, e), k, e, Emptied(e))
  {
    var t := KindOf(e.value);
    assert CounterOf(st, Memory) >= Weight(Memory, k, e);
    assert CounterOf(st, KindBytes(t)) >= Weight(KindBytes(t), k, e);
    assert CounterOf(st, KindKeys(t)) >= Weight(KindKeys(t), k, e);
  }

  lemma ExchangedAdjusts(st: Stats, k: Bytes, e: Entry, v: Bytes)
    requires e.value.StrV? && forall c: Counter :: CounterOf(st, c) >= Weight(c, k, e)
    ensures Adjusted(st, Exchanged(st, |e.value.bytes|, |v|), k, e, e.(value := StrV(v)))
  {
    assert CounterOf(st, Memory) >= Weight(Memory, k, e);
    assert CounterOf(st, KindBytes(KString)) >= Weight(KindBytes(KString), k, e);
  }

  lemma StillEnough(st: Stats, u: Stats, k: Bytes, e: Entry, f: Entry)
    requires Adjusted(st, u, k, e, f) && forall c: Counter :: CounterOf(st, c) >= Weight(c, k, e)
    ensures forall c: Counter :: CounterOf(u, c) >= Weight(c, k, f)
  {
  }

  /** The counter updates of SET over an existing key, deadline included. */
  function Overwritten(st: Stats, k: Bytes, e: Entry, v: Bytes, deadline: nat): Stats {
    SetExpire(Exchanged(Retyped(st, k, e), Payload(Emptied(e).value), |v|), e.expireAt, deadline)
  }

  lemma OverwrittenAdjusts(st: Stats, k: Bytes, e: Entry, v: Bytes, deadline: nat)
    requires forall c: Counter :: CounterOf(st, c) >= Weight(c, k, e)
    ensures Adjusted(st, Overwritten(st, k, e, v, deadline), k, e, e.(value := StrV(v), expireAt := deadline))
  {
    var f := Emptied(e);
    var g := f.(value := StrV(v));
    var a := Retyped(st, k, e);
    var b := Exchanged(a, Payload(f.value), |v|);
    RetypedAdjusts(st, k, e);
    StillEnough(st, a, k, e, f);
    ExchangedAdjusts(a, k, f, v);
    StillEnough(a, b, k, f, g);
    SetExpireAdjusts(b, k, g, deadline);
    AdjustedTwice(st, a, b, k, e, f, g);
    AdjustedTwice(st, b, SetExpire(b, e.expireAt, deadline), k, e, g, g.(expireAt := deadline));
  }

  /** The record of a key without a deadline is not due wherever it is found. */
  lemma NeverDue(s: Tiers, full: Db, k: Bytes, now: nat, exact: bool)
    requires Trimmed(full, Records(s), now, exact) && k in full && full[k].deadline == 0
    ensures Lookup(s, k).Some? ==> !Due(Lookup(s, k).value.expireAt, now)
  {
    RecordAt(s, k);
  }

  lemma PutGet(full: Db, k: Bytes, now: nat)
    requires k in full && full[k].deadline == 0
    ensures Get(full, k, now) == Some(full[k])
  {
  }

  lemma RelabelDrifts(s: Tiers, k: Bytes, nk: Bytes, f: Entry)
    requires Wellformed(s) && k != nk && Lookup(s, k).Some? && Lookup(s, nk).None?
    ensures |Without(s, k).hot| > 0 && Drifts(s, AddHot(Without(s, k), nk, f), {nk})
  {
    hide Wellformed, Drifts, Lookup, Find, Without;
    HasHot(s);
    WithoutIs(s, k);
    WithoutDrifts(s, k);
    HasHot(Without(s, k));
    AddHotDrifts(Without(s, k), nk, f);
    DriftsOn(s, Without(s, k), AddHot(Without(s, k), nk, f), {}, {nk}, {nk});
  }

  lemma OneMoreLinked(st: Stats, k: Bytes, e: Entry)
    ensures Linked(st, k, e).nkeys == st.nkeys + 1
  {
  }

  lemma SameRenamed(st: Stats, t: Kind, before: nat, after: nat)
    ensures Renamed(st, t, before, after).nkeys == st.nkeys
  {
  }

  lemma SameKeyCount(st: Stats, k: Bytes, e: Entry, v: Bytes, deadline: nat)
    ensures Overwritten(st, k, e, v, deadline).nkeys == st.nkeys
  {
  }

  lemma RechargedKeyCount(st: Stats, kind: Kind, before: nat, after: nat)
    ensures Recharged(st, kind, before, after).nkeys == st.nkeys
  {
  }

  lemma OneMoreKey(st: Stats, k: Bytes, e: Entry, deadline: nat)
    ensures SetExpire(Linked(st, k, e), 0, deadline).nkeys == st.nkeys + 1
  {
  }

  ghost predicate AllSound(s: Tiers) {
    forall k :: Lookup(s, k).Some? ==> Sound(Lookup(s, k).value.value)
  }

  /** Every sorted set is in order, but those that may have met a NaN. */
  ghost predicate AllRanked(s: Tiers, unruly: set<Bytes>) {
    forall k :: Lookup(s, k).Some? ==> Neat(Lookup(s, k).value.value, k, unruly)
  }

  ghost predicate Neat(v: Value, k: Bytes, unruly: set<Bytes>) {
    k in unruly || Ranked(v)
  }

  /** The marks are those of the entries linked. */
  ghost predicate AllMarked(s: Tiers, marks: map<Bytes, Mark>) {
    forall k :: Lookup(s, k).Some? ==> k in marks && marks[k] == MarkOf(Lookup(s, k).value)
  }

  /** The tables and the counters agree. */
  ghost predicate Consistent(layout: Layout, s: Tiers, hotN: nat, coldN: nat, st: Stats, l: Leak) {
    && Wellformed(s) && AllSound(s) && AllRanked(s, l.unruly) && AllMarked(s, l.marks)
    && (layout.Flat? <==> |s.cold| == 0)
    && Accounted(st, s, l)
    && (layout.HotCold? ==> hotN == SumT(s.hot, W(Keys)) && coldN == SumT(s.cold, W(Keys)))
  }

  lemma ConsistentWithout(layout: Layout, s: Tiers, hotN: nat, coldN: nat, st: Stats, l: Leak, k: Bytes)
    requires Consistent(layout, s, hotN, coldN, st, l) && Lookup(s, k).Some?
    ensures var inHot := Find(s.hot, k).Some?;
      Consistent(layout, Without(s, k),
                 if layout.HotCold? && inHot then SatSub(hotN, 1) else hotN,
                 if layout.HotCold? && !inHot then SatSub(coldN, 1) else coldN,
                 Freed(st, k, Lookup(s, k).value), l)
    ensures st.nkeys > 0 && Freed(st, k, Lookup(s, k).value).nkeys == st.nkeys - 1
    ensures |s.hot| > 0
    ensures forall q :: Lookup(Without(s, k), q) == if q == k then None else Lookup(s, q)
    ensures Records(Without(s, k)) == Records(s) - {k}
  {
    hide Records, Lookup, Find, Without, SumT, Wellformed, AllSound, AllRanked, AllMarked, Total;
    ShapeWithout(s, k, l.unruly, l.marks);
    CountsWithout(s, k);
    FreedAccounted(st, s, l, k);
    WithoutTotal(s, k, Keys);
    assert CounterOf(st, Keys) == Total(s, Keys) + Excess(l, Keys);
  }

  lemma ShapeWithout(s: Tiers, k: Bytes, u: set<Bytes>, m: map<Bytes, Mark>)
    requires Wellformed(s) && AllSound(s) && AllRanked(s, u) && AllMarked(s, m) && Lookup(s, k).Some?
    ensures |s.hot| > 0
    ensures var r := Without(s, k);
      && Wellformed(r) && AllSound(r) && AllRanked(r, u) && AllMarked(r, m) && (|r.cold| == 0 <==> |s.cold| == 0)
      && Records(r) == Records(s) - {k} && forall q :: Lookup(r, q) == if q == k then None else Lookup(s, q)
  {
    hide Wellformed, Lookup, Find, Without, Records, Sound, Neat, MarkOf;
    HasHot(s);
    WithoutRecords(s, k);
    WithoutIs(s, k);
  }

  lemma CountsWithout(s: Tiers, k: Bytes)
    requires Wellformed(s) && Lookup(s, k).Some? && |s.hot| > 0
    ensures var r, inHot := Without(s, k), Find(s.hot, k).Some?;
      && SumT(s.hot, W(Keys)) == SumT(r.hot, W(Keys)) + (if inHot then 1 else 0)
      && SumT(s.cold, W(Keys)) == SumT(r.cold, W(Keys)) + (if inHot then 0 else 1)
  {
    hide PowerOfTwo;
    if Find(s.hot, k).Some? { UnlinkSum(s.hot, k, W(Keys)); } else { UnlinkSum(s.cold, k, W(Keys)); }
  }

  lemma ShapeWith(s: Tiers, k: Bytes, f: Entry, u: set<Bytes>, m: map<Bytes, Mark>)
    requires Wellformed(s) && AllSound(s) && AllRanked(s, u) && AllMarked(s, m) && Lookup(s, k).Some?
    requires Sound(f.value) && Neat(f.value, k, u)
    ensures |s.hot| > 0
    ensures var r := With(s, k, f);
      && Wellformed(r) && AllSound(r) && AllRanked(r, u) && AllMarked(r, m[k := MarkOf(f)]) && |r.cold| == |s.cold|
      && Records(r) == Records(s)[k := RecOf(f)] && Lookup(r, k) == Some(f)
  {
    hide Wellformed, Lookup, Find, With, Records, Sound, Neat, MarkOf;
    HasHot(s);
    WithIs(s, k, f);
    WithRecords(s, k, f);
  }

  lemma CountsWith(s: Tiers, k: Bytes, f: Entry)
    requires Wellformed(s) && Lookup(s, k).Some? && |s.hot| > 0
    ensures var r := With(s, k, f);
      SumT(r.hot, W(Keys)) == SumT(s.hot, W(Keys)) && SumT(r.cold, W(Keys)) == SumT(s.cold, W(Keys))
  {
    hide PowerOfTwo;
    if Find(s.hot, k).Some? { PutSumT(s.hot, k, f, W(Keys)); } else { PutSumT(s.cold, k, f, W(Keys)); }
  }

  /** An entry rewritten in place: k keeps its bucket and its tier. */
  lemma ConsistentWith(layout: Layout, s: Tiers, hotN: nat, coldN: nat, st: Stats, l: Leak,
                       k: Bytes, u: Stats, m: Leak, f: Entry)
    requires Consistent(layout, s, hotN, coldN, st, l) && Lookup(s, k).Some? && Sound(f.value)
    requires Neat(f.value, k, l.unruly) && Adjusted(st, u, k, Lookup(s, k).value, f) && m == Marking(l, k, f)
    ensures Consistent(layout, With(s, k, f), hotN, coldN, u, m)
    ensures Records(With(s, k, f)) == Records(s)[k := RecOf(f)] && Lookup(With(s, k, f), k) == Some(f)
    ensures |s.hot| > 0
  {
    hide Records, Lookup, Find, With, SumT, Wellformed, AllSound, AllRanked, AllMarked, Accounted, Sound, Neat,
      Adjusted;
    ShapeWith(s, k, f, l.unruly, l.marks);
    CountsWith(s, k, f);
    AdjustedAccounted(st, u, s, l, k, f);
    SameBooks(u, With(s, k, f), l, l.marks[k := MarkOf(f)]);
  }

  lemma ConsistentEnough(layout: Layout, s: Tiers, hotN: nat, coldN: nat, st: Stats, l: Leak, k: Bytes)
    requires Consistent(layout, s, hotN, coldN, st, l) && Lookup(s, k).Some?
    ensures forall c: Counter :: CounterOf(st, c) >= Weight(c, k, Lookup(s, k).value)
    ensures Sound(Lookup(s, k).value.value) && Neat(Lookup(s, k).value.value, k, l.unruly)
    ensures k in l.marks && l.marks[k] == MarkOf(Lookup(s, k).value) && Marking(l, k, Lookup(s, k).value) == l
  {
    Enough(st, s, l, k);
    assert l.marks[k := l.marks[k]] == l.marks;
  }

  lemma FoundSound(layout: Layout, s: Tiers, hotN: nat, coldN: nat, st: Stats, l: Leak, k: Bytes)
    requires Consistent(layout, s, hotN, coldN, st, l) && Lookup(s, k).Some?
    ensures Sound(Lookup(s, k).value.value) && Neat(Lookup(s, k).value.value, k, l.unruly)
  {
    ConsistentEnough(layout, s, hotN, coldN, st, l, k);
  }

  lemma SameAdjusted(st: Stats, k: Bytes, e: Entry, f: Entry)
    requires f.value == e.value && f.expireAt == e.expireAt && f.pinned == e.pinned
    ensures Adjusted(st, st, k, e, f)
  {
  }

  lemma RewriteFacts(layout: Layout, s: Tiers, hotN: nat, coldN: nat, st: Stats, l: Leak,
                     conns: seq<Conn>, seen: seq<Sight>, since: Since, p: set<Bytes>, k: Bytes, f: Entry, u: Stats)
    requires Consistent(layout, s, hotN, coldN, st, l) && WatchOk(conns, seen, since, Records(s), p)
    requires Lookup(s, k).Some? && Sound(f.value) && Neat(f.value, k, l.unruly)
    requires Adjusted(st, u, k, Lookup(s, k).value, f)
    ensures var r := With(s, k, f);
      var e := Lookup(s, k).value;
      && Consistent(layout, r, hotN, coldN, u, Marking(l, k, f))
      && (MarkOf(f) == MarkOf(e) ==> Marking(l, k, f) == l)
      && Lookup(r, k) == Some(f) && Find(r.hot, k).None? == Find(s.hot, k).None?
      && Records(r) == Records(s)[k := RecOf(f)]
      && WatchOk(conns, seen, since, Records(r), p + {k})
      && (f.value == e.value && f.expireAt == e.expireAt ==> WatchOk(conns, seen, since, Records(r), p))
      && (f.value == e.value && f.expireAt == e.expireAt && f.pinned == e.pinned ==> Records(r) == Records(s))
    ensures |s.hot| > 0
  {
    var e := Lookup(s, k).value;
    RecordAt(s, k);
    ConsistentEnough(layout, s, hotN, coldN, st, l, k);
    ConsistentWith(layout, s, hotN, coldN, st, l, k, u, Marking(l, k, f), f);
    WriteWithin(conns, seen, since, Records(s), p, k, RecOf(f));
    WithIs(s, k, f);
    hide Consistent, WatchOk, Records, With, Lookup, Find, Wellformed, Adjusted;
    if RecOf(f) == RecOf(e) { SameWrite(Records(s), k, RecOf(f)); }
  }

  lemma LaterAdjusts(st: Stats, u: Stats, k: Bytes, e: Entry, f: Entry, clock: nat)
    requires Adjusted(st, u, k, e, e.(value := f.value, expireAt := f.expireAt))
    requires f == e.(value := f.value, lastAccess := clock, expireAt := f.expireAt)
    ensures Adjusted(st, u, k, e, f)
  {
  }

  lemma ShapeLinked(s: Tiers, k: Bytes, e: Entry, u: set<Bytes>, m: map<Bytes, Mark>)
    requires Wellformed(s) && AllSound(s) && AllRanked(s, u) && AllMarked(s, m) && Lookup(s, k).None?
    requires Sound(e.value) && Neat(e.value, k, u)
    ensures |s.hot| > 0
    ensures var r := AddHot(s, k, e);
      && Wellformed(r) && AllSound(r) && AllRanked(r, u) && AllMarked(r, m[k := MarkOf(e)]) && r.cold == s.cold
      && Records(r) == Records(s)[k := RecOf(e)] && Lookup(r, k) == Some(e)
  {
    hide Wellformed, Lookup, Find, AddHot, Records, Sound, Neat, MarkOf;
    HasHot(s);
    SameCold(s, k, e);
    AddHotIs(s, k, e);
    AddHotRecords(s, k, e);
  }

  /** A new entry at the head of its hot bucket. */
  lemma ConsistentLinked(layout: Layout, s: Tiers, hotN: nat, coldN: nat, st: Stats, l: Leak, k: Bytes, e: Entry)
    requires Consistent(layout, s, hotN, coldN, st, l) && Lookup(s, k).None?
    requires Sound(e.value) && Neat(e.value, k, l.unruly) && e.expireAt == 0 && !e.pinned
    ensures |s.hot| > 0
    ensures Consistent(layout, AddHot(s, k, e), if layout.HotCold? then hotN + 1 else hotN, coldN, Linked(st, k, e),
                       Marking(l, k, e))
    ensures Records(AddHot(s, k, e)) == Records(s)[k := RecOf(e)] && Lookup(AddHot(s, k, e), k) == Some(e)
  {
    hide Records, Lookup, Find, AddHot, SumT, Wellformed, AllSound, AllRanked, AllMarked, Accounted, Sound, Neat,
      Linked, MarkOf;
    ShapeLinked(s, k, e, l.unruly, l.marks);
    LinkedAccounted(st, s, l, k, e);
    SameBooks(Linked(st, k, e), AddHot(s, k, e), l, l.marks[k := MarkOf(e)]);
    AddHotTotal(s, k, e, Keys);
  }

  /** Demotion: one entry unlinked from the hot tier and linked at the head of its
      bucket in the cold one. */
  lemma ConsistentDemoted(layout: Layout, s: Tiers, hotN: nat, coldN: nat, st: Stats, l: Leak, k: Bytes)
    requires Consistent(layout, s, hotN, coldN, st, l) && layout.HotCold? && Find(s.hot, k).Some?
    ensures |s.hot| > 0 && |Without(s, k).cold| > 0 && hotN > 0
    ensures var r := AddCold(Without(s, k), k, Lookup(s, k).value);
      Consistent(layout, r, hotN - 1, coldN + 1, st, l) && Records(r) == Records(s)
  {
    var e := Lookup(s, k).value;
    var t := Without(s, k);
    WithoutIs(s, k);
    UnlinkSum(s.hot, k, W(Keys));
    AddColdIs(t, k, e);
    AddColdTotal(t, k, e, Keys);
    var r := AddCold(t, k, e);
    forall c: Counter ensures Total(r, c) == Total(s, c) {
      WithoutTotal(s, k, c);
      AddColdTotal(t, k, e, c);
    }
    ConsistentRelinked(layout, s, hotN, coldN, st, l, layout, r, hotN - 1, coldN + 1);
  }

  /** A demotion by itself. */
  lemma DemotedFacts(layout: Layout, s: Tiers, hotN: nat, coldN: nat, st: Stats, l: Leak, k: Bytes)
    requires Consistent(layout, s, hotN, coldN, st, l) && layout.HotCold? && Find(s.hot, k).Some?
    ensures |Without(s, k).cold| > 0 && Lookup(s, k).Some? && hotN > 0
    ensures var r := AddCold(Without(s, k), k, Lookup(s, k).value);
      && Drifts(s, r, {}) && Find(r.hot, k).None? && Find(r.cold, k) == Find(s.hot, k)
      && (forall q :: q != k ==> Find(r.hot, q) == Find(s.hot, q) && Find(r.cold, q) == Find(s.cold, q))
  {
    hide Drifts, PowerOfTwo, FindC, AllSound, Accounted;
    DemotedDrifts(s, k);
    WithoutIs(s, k);
    UnlinkSum(s.hot, k, W(Keys));
    LinkTable(Without(s, k).cold, k, Lookup(s, k).value);
  }

  /** And a promotion. */
  lemma PromotedFacts(layout: Layout, s: Tiers, hotN: nat, coldN: nat, st: Stats, l: Leak, k: Bytes)
    requires Consistent(layout, s, hotN, coldN, st, l) && layout.HotCold?
    requires Find(s.hot, k).None? && Lookup(s, k).Some?
    ensures |Without(s, k).hot| > 0 && coldN > 0
    ensures var r := AddHot(Without(s, k), k, Lookup(s, k).value);
      && Drifts(s, r, {k}) && Find(r.hot, k) == Find(s.cold, k) && Find(r.cold, k).None?
      && (forall q :: q != k ==> Find(r.hot, q) == Find(s.hot, q) && Find(r.cold, q) == Find(s.cold, q))
  {
    hide Drifts, PowerOfTwo, FindC, AllSound, Accounted;
    WithoutIs(s, k);
    PromotedPending(s, k, 0);
    UnlinkSum(s.cold, k, W(Keys));
    LinkTable(Without(s, k).hot, k, Lookup(s, k).value);
  }

  /** Promotion: the other way round. */
  lemma ConsistentPromoted(layout: Layout, s: Tiers, hotN: nat, coldN: nat, st: Stats, l: Leak, k: Bytes)
    requires Consistent(layout, s, hotN, coldN, st, l) && layout.HotCold?
    requires Find(s.hot, k).None? && Lookup(s, k).Some?
    ensures |s.hot| > 0 && |Without(s, k).hot| > 0 && coldN > 0
    ensures var r := AddHot(Without(s, k), k, Lookup(s, k).value);
      Consistent(layout, r, hotN + 1, coldN - 1, st, l) && Records(r) == Records(s)
  {
    var e := Lookup(s, k).value;
    var t := Without(s, k);
    WithoutIs(s, k);
    UnlinkSum(s.cold, k, W(Keys));
    AddHotIs(t, k, e);
    AddHotTotal(t, k, e, Keys);
    var r := AddHot(t, k, e);
    forall c: Counter ensures Total(r, c) == Total(s, c) {
      WithoutTotal(s, k, c);
      AddHotTotal(t, k, e, c);
    }
    ConsistentRelinked(layout, s, hotN, coldN, st, l, layout, r, hotN + 1, coldN - 1);
  }

  /** The tables replaced by others with the same entries. */
  lemma ConsistentRelinked(layout: Layout, s: Tiers, hotN: nat, coldN: nat, st: Stats, l: Leak,
                           layout': Layout, r: Tiers, hotN': nat, coldN': nat)
    requires Consistent(layout, s, hotN, coldN, st, l)
    requires Wellformed(r) && (layout'.Flat? <==> |r.cold| == 0)
    requires forall q :: Lookup(r, q) == Lookup(s, q)
    requires forall c: Counter :: Total(r, c) == Total(s, c)
    requires layout'.HotCold? ==> hotN' == SumT(r.hot, W(Keys)) && coldN' == SumT(r.cold, W(Keys))
    ensures Consistent(layout', r, hotN', coldN', st, l) && Records(r) == Records(s)
  {
    RecordsSame(s, r);
    forall k | Lookup(r, k).Some?
      ensures Sound(Lookup(r, k).value.value) && Neat(Lookup(r, k).value.value, k, l.unruly)
      ensures k in l.marks && l.marks[k] == MarkOf(Lookup(r, k).value)
    {
      assert Lookup(s, k).Some?;
    }
  }

  /** The key a command may move back in the order of iteration: one it has to create,
      or one it promotes. */
  ghost function MayFall(s: Tiers, promote: bool, k: Bytes, now: nat): set<Bytes> {
    if Get(Records(s), k, now).None? || (promote && Find(s.hot, k).None?) then {k} else {}
  }

  ghost function MayStart(s: Tiers, k: Bytes, now: nat): set<Bytes> {
    if Get(Records(s), k, now).None? then {k} else {}
  }

  /** The keys a command may move back. */
  ghost function CommandMoves(s: Tiers, promote: bool, cmd: Command, now: nat): set<Bytes> {
    match cmd
    case Set(k, _, _, _) => MayFall(s, promote, k, now)
    case Read(k) => MayFall(s, promote, k, now)
    case Append(k, _) => MayFall(s, promote, k, now)
    case HSet(k, _) => MayStart(s, k, now)
    case Push(k, _, _) => MayStart(s, k, now)
    case ZAdd(k, _) => MayStart(s, k, now)
    case Rename(_, nk, _) => {nk}
    case _ => {}
  }

  // ----- what the kernels note -----

  /** The frequency after a read and after a string write. */
  function HitFreq(kernel: Kernel, f: nat): nat {
    OnGet(kernel, Entry(StrV([]), 0, f, false, 0), 0).0.lfu
  }

  function WriteFreq(kernel: Kernel, f: nat): nat {
    OnSet(kernel, Entry(StrV([]), 0, f, false, 0), 0).0.lfu
  }

  lemma HookNotes(kernel: Kernel, e: Entry, clock: nat)
    ensures var (f, c) := OnGet(kernel, e, clock);
      f.lfu == HitFreq(kernel, e.lfu) && c >= clock && (f.lastAccess == e.lastAccess || clock < f.lastAccess <= c)
    ensures var (f, c) := OnSet(kernel, e, clock);
      f.lfu == WriteFreq(kernel, e.lfu) && c >= clock && (f.lastAccess == e.lastAccess || clock < f.lastAccess <= c)
  {
  }

  /** The frequency noted for a key; a new entry starts with 5. */
  function FreqOf(marks: map<Bytes, Mark>, k: Bytes): nat {
    if k in marks then marks[k].freq else 5
  }

  /** What a command comes to for the kernels: nothing, or a use of one key that leaves it
      with this frequency. */
  datatype Use = Nothing | Touch(key: Bytes, freq: nat)

  ghost predicate Notes(m: map<Bytes, Mark>, c: nat, m': map<Bytes, Mark>, c': nat, u: Use) {
    c <= c' &&
    match u
    case Nothing => m' == m
    case Touch(k, f) => k in m' && m' == m[k := m'[k]] && c < m'[k].last <= c' && m'[k].freq == f
  }

  /** The frequency of a live key, or that of a new one. */
  function PriorFreq(marks: map<Bytes, Mark>, db: Db, k: Bytes, now: nat): nat {
    if Get(db, k, now).Some? then FreqOf(marks, k) else 5
  }

  /** What each command uses, from the keyspace before and the reply. */
  function UseOf(kernel: Kernel, marks: map<Bytes, Mark>, db: Db, cmd: Command, now: nat, r: Reply): Use {
    match cmd
    case Read(k) => if r.Bulk? then Touch(k, HitFreq(kernel, FreqOf(marks, k))) else Nothing
    case Set(k, _, _, _) => if r == Ok then Touch(k, WriteFreq(kernel, PriorFreq(marks, db, k, now))) else Nothing
    case Append(k, v) =>
      if Get(db, k, now).None? || (r.Int? && |v| > 0)
      then Touch(k, WriteFreq(kernel, PriorFreq(marks, db, k, now))) else Nothing
    case Rename(k, nk, nx) =>
      if Get(db, k, now).Some? && k != nk && !(nx && Get(db, nk, now).Some?)
      then Touch(nk, WriteFreq(kernel, FreqOf(marks, k))) else Nothing
    case HSet(k, pairs) => GrowthUse(kernel, marks, db, k, |pairs| > 0, now, r)
    case Push(k, _, vals) => GrowthUse(kernel, marks, db, k, |vals| > 0, now, r)
    case ZAdd(k, batch) => GrowthUse(kernel, marks, db, k, |batch| > 0, now, r)
    case LRem(k, count, x) =>
      var found := Get(db, k, now);
      if found.Some? && found.value.data.DList? && |Lists.Removed(found.value.data.items, count, x)| > 0
      then Touch(k, FreqOf(marks, k)) else Nothing
    case LTrim(k, start, stop) =>
      var found := Get(db, k, now);
      if found.Some? && found.value.data.DList? && |Lists.Slice(found.value.data.items, start, stop)| > 0
      then Touch(k, FreqOf(marks, k)) else Nothing
    case _ => Nothing
  }

  function GrowthUse(kernel: Kernel, marks: map<Bytes, Mark>, db: Db, k: Bytes, some: bool, now: nat, r: Reply): Use {
    if !some then Nothing
    else if Get(db, k, now).None? then Touch(k, WriteFreq(kernel, 5))
    else if r.Int? then Touch(k, FreqOf(marks, k))
    else Nothing
  }

  // ----- freeing -----

  lemma FreeDueFacts(s: Tiers, k: Bytes, now: nat)
    requires Lookup(s, k).Some? && Due(Lookup(s, k).value.expireAt, now)
    ensures Trimmed(Records(s), Records(s) - {k}, now, true)
  {
    RecordAt(s, k);
    TrimmedDrop(Records(s), Records(s), k, now, true);
  }

  lemma VictimFacts(s: Tiers, k: Bytes, now: nat)
    requires Lookup(s, k).Some? && !Lookup(s, k).value.pinned
    ensures Trimmed(Records(s), Records(s) - {k}, now, false)
  {
    RecordAt(s, k);
    TrimmedDrop(Records(s), Records(s), k, now, false);
  }

  lemma WeakerTrim(full: Db, part: Db, now: nat)
    requires Trimmed(full, part, now, true)
    ensures Trimmed(full, part, now, false)
  {
  }

  /** ar_rename's counter updates: only the key length changes. */
  function Renamed(st: Stats, t: Kind, before: nat, after: nat): Stats {
    if after > before then BytesDelta(MemAdd(st, after - before), t, after - before)
    else if after < before then BytesDelta(MemSub(st, before - after), t, 0 - (before - after))
    else st
  }

  lemma RenamedFields(st: Stats, k: Bytes, nk: Bytes, e: Entry, f: Entry)
    requires f.value == e.value && f.expireAt == e.expireAt && f.pinned == e.pinned
    requires forall c: Counter :: CounterOf(st, c) >= Weight(c, k, e)
    ensures forall c: Counter ::
      CounterOf(Renamed(st, KindOf(e.value), |k|, |nk|), c) + Weight(c, k, e) == CounterOf(st, c) + Weight(c, nk, f)
  {
    var t := KindOf(e.value);
    assert CounterOf(st, Memory) >= Weight(Memory, k, e);
    assert CounterOf(st, KindBytes(t)) >= Weight(KindBytes(t), k, e);
  }

  lemma RenamedAccounted(st: Stats, s: Tiers, l: Leak, k: Bytes, nk: Bytes, f: Entry)
    requires Wellformed(s) && Accounted(st, s, l) && Lookup(s, k).Some? && Lookup(s, nk).None?
    requires var e := Lookup(s, k).value; f.value == e.value && f.expireAt == e.expireAt && f.pinned == e.pinned
    requires |Without(s, k).hot| > 0
    ensures Accounted(Renamed(st, KindOf(f.value), |k|, |nk|), AddHot(Without(s, k), nk, f), l)
  {
    var e := Lookup(s, k).value;
    Enough(st, s, l, k);
    RenamedFields(st, k, nk, e, f);
    WithoutIs(s, k);
    var u, r := Renamed(st, KindOf(f.value), |k|, |nk|), AddHot(Without(s, k), nk, f);
    hide Renamed, CounterOf, Weight, Lookup, Find, Without, AddHot, Wellformed, Total;
    forall c: Counter ensures CounterOf(u, c) == Total(r, c) + Excess(l, c) {
      WithoutTotal(s, k, c);
      AddHotTotal(Without(s, k), nk, f, c);
    }
  }

  /** A name takes over whether its array may be out of order. */
  function Unruled(u: set<Bytes>, k: Bytes, nk: Bytes): set<Bytes> {
    if k in u then u + {nk} else u
  }

  lemma SameCold(t: Tiers, nk: Bytes, f: Entry)
    requires |t.hot| > 0
    ensures AddHot(t, nk, f).cold == t.cold
  {
  }

  lemma NeatRenamed(s: Tiers, k: Bytes, nk: Bytes, u: set<Bytes>)
    requires AllRanked(s, u) && Lookup(s, k).Some?
    ensures forall q :: Lookup(s, q).Some? ==> Neat(Lookup(s, q).value.value, q, Unruled(u, k, nk))
    ensures Neat(Lookup(s, k).value.value, nk, Unruled(u, k, nk))
  {
    hide Lookup, Ranked;
  }

  lemma RenamedShape(s: Tiers, k: Bytes, nk: Bytes, f: Entry, u: set<Bytes>, m: map<Bytes, Mark>)
    requires Wellformed(s) && AllSound(s) && Lookup(s, k).Some? && Lookup(s, nk).None?
    requires AllRanked(s, u) && AllMarked(s, m) && f.value == Lookup(s, k).value.value
    ensures |s.hot| > 0 && |Without(s, k).hot| > 0
    ensures var r := AddHot(Without(s, k), nk, f);
      && Wellformed(r) && AllSound(r) && AllRanked(r, Unruled(u, k, nk)) && AllMarked(r, m[nk := MarkOf(f)])
      && |r.cold| == |s.cold|
      && Records(r) == (Records(s) - {k})[nk := RecOf(f)]
  {
    hide Wellformed, Lookup, Find, Without, AddHot, Records, Sound, Neat, MarkOf, RecOf;
    HasHot(s);
    var t := Without(s, k);
    WithoutIs(s, k);
    HasHot(t);
    SameCold(t, nk, f);
    NeatRenamed(s, k, nk, u);
    WithoutRecords(s, k);
    AddHotIs(t, nk, f);
    AddHotRecords(t, nk, f);
  }

  lemma SameBooks(st: Stats, s: Tiers, l: Leak, m: map<Bytes, Mark>)
    requires Accounted(st, s, l)
    ensures Accounted(st, s, l.(marks := m))
  {
    forall c: Counter ensures CounterOf(st, c) == Total(s, c) + Excess(l.(marks := m), c) {
      assert CounterOf(st, c) == Total(s, c) + Excess(l, c);
    }
  }

  lemma SameExcess(st: Stats, s: Tiers, l: Leak, u: set<Bytes>)
    requires Accounted(st, s, l)
    ensures Accounted(st, s, l.(unruly := u))
  {
    forall c: Counter ensures CounterOf(st, c) == Total(s, c) + Excess(l.(unruly := u), c) {
      assert CounterOf(st, c) == Total(s, c) + Excess(l, c);
    }
  }

  /** A sorted set about to be given a NaN. */
  lemma ConsistentSpoilt(layout: Layout, s: Tiers, hotN: nat, coldN: nat, st: Stats, l: Leak, k: Bytes)
    requires Consistent(layout, s, hotN, coldN, st, l)
    ensures Consistent(layout, s, hotN, coldN, st, l.(unruly := l.unruly + {k}))
  {
    hide Lookup, Wellformed, SumT, AllSound, Accounted;
    SameExcess(st, s, l, l.unruly + {k});
  }

  lemma RenamedCounts(s: Tiers, k: Bytes, nk: Bytes, f: Entry)
    requires Wellformed(s) && Lookup(s, k).Some? && |Without(s, k).hot| > 0
    ensures var r := AddHot(Without(s, k), nk, f);
      if Find(s.hot, k).Some?
      then SumT(s.hot, W(Keys)) > 0 && SumT(r.hot, W(Keys)) == SumT(s.hot, W(Keys)) && r.cold == s.cold
      else SumT(r.hot, W(Keys)) == SumT(s.hot, W(Keys)) + 1 && SumT(r.cold, W(Keys)) + 1 == SumT(s.cold, W(Keys))
  {
    var t := Without(s, k);
    WithoutIs(s, k);
    LinkSum(t.hot, nk, f, W(Keys));
    if Find(s.hot, k).Some? { UnlinkSum(s.hot, k, W(Keys)); } else { UnlinkSum(s.cold, k, W(Keys)); }
  }

  /** RENAME: unlinked from wherever it is, linked under the new key in the hot tier. */
  lemma ConsistentRenamed(layout: Layout, s: Tiers, hotN: nat, coldN: nat, st: Stats, l: Leak,
                          k: Bytes, nk: Bytes, f: Entry)
    requires Consistent(layout, s, hotN, coldN, st, l) && Lookup(s, k).Some? && Lookup(s, nk).None?
    requires var e := Lookup(s, k).value; f.value == e.value && f.expireAt == e.expireAt && f.pinned == e.pinned
    ensures |s.hot| > 0 && |Without(s, k).hot| > 0
    ensures var r := AddHot(Without(s, k), nk, f);
      var inHot := Find(s.hot, k).Some?;
      && Consistent(layout, r,
                    if layout.HotCold? && !inHot then hotN + 1 else hotN,
                    if layout.HotCold? && !inHot then SatSub(coldN, 1) else coldN,
                    Renamed(st, KindOf(f.value), |k|, |nk|), Marking(l.(unruly := Unruled(l.unruly, k, nk)), nk, f))
      && (layout.HotCold? && inHot ==> hotN > 0)
      && Records(r) == (Records(s) - {k})[nk := RecOf(f)]
  {
    hide Renamed, Records, Lookup, Find, RecOf, SumT, Without, AddHot, Wellformed, AllSound, AllRanked, AllMarked,
      Accounted;
    RenamedShape(s, k, nk, f, l.unruly, l.marks);
    RenamedCounts(s, k, nk, f);
    RenamedAccounted(st, s, l, k, nk, f);
    var st', r, l' := Renamed(st, KindOf(f.value), |k|, |nk|), AddHot(Without(s, k), nk, f),
      l.(unruly := Unruled(l.unruly, k, nk));
    SameExcess(st', r, l, l'.unruly);
    SameBooks(st', r, l', l.marks[nk := MarkOf(f)]);
  }

  // ----- the effect of a typed write, from the entry at hand -----

  /** The entry get-or-create hands over is the one found, or a new empty one. */
  ghost predicate Handed(found: Option<Rec>, e: Entry, kind: Kind) {
    && KindOf(e.value) == kind && Sound(e.value)
    && RecOf(e) == match found case Some(rec) => rec case None => Rec(NewData(kind), 0, false)
  }

  /** The three commands that create what they write to. */
  predicate Growing(cmd: Command) {
    cmd.HSet? || cmd.Push? || cmd.ZAdd?
  }

  predicate Idle(cmd: Command)
    requires Growing(cmd)
  {
    match cmd
    case HSet(_, pairs) => |pairs| == 0
    case Push(_, _, vals) => |vals| == 0
    case ZAdd(_, batch) => |batch| == 0
  }

  function Grown(cmd: Command): Data
    requires Growing(cmd)
  {
    match cmd
    case HSet(_, pairs) => DHash(SetFields(map[], pairs))
    case Push(_, left, vals) => DList(Lists.Pushed([], left, vals))
    case ZAdd(_, batch) => DZSet(PutAll(map[], batch))
  }

  /** What they do when there is nothing to do, no key, or a key of another type. */
  lemma GrowingForms(cmd: Command, found: Option<Rec>, now: nat)
    requires Growing(cmd)
    ensures Idle(cmd) ==> OnKey(cmd, found, now) == (Effect.Same, Int(0))
    ensures !Idle(cmd) && found.None? ==> OnKey(cmd, found, now).0 == Write(Rec(Grown(cmd), 0, false))
    ensures !Idle(cmd) && found.Some? && DataKind(found.value.data) != DataKind(Grown(cmd)) ==>
      OnKey(cmd, found, now) == (Effect.Same, Fail(WrongType))
  {
    hide SetFields, PutAll, Lists.Pushed;
  }

  /** When SET writes, and what. */
  lemma SetForm(k: Bytes, v: Bytes, guard: Guard, ttl: Ttl, found: Option<Rec>, now: nat)
    ensures var cmd := Command.Set(k, v, guard, ttl);
      OnKey(cmd, found, now)
        == if ttl.At? && ttl.when.n <= 0 then (Effect.Same, Fail(BadExpireTime))
           else if (guard.IfAbsent? && found.Some?) || (guard.IfPresent? && found.None?) then (Effect.Same, Nil)
           else (Write(Rec(DStr(v), SetDeadline(ttl, found, now), found.Some? && found.value.pinned)), Ok)
  {
  }

  lemma HSetEffect(found: Option<Rec>, e: Entry, k: Bytes, pairs: seq<(Bytes, Bytes)>, v: Value, now: nat)
    requires Handed(found, e, KHash) && |pairs| > 0 && v.HashV? && Sound(v)
    requires Seen(v) == DHash(SetFields(MapOf(e.value.fields), pairs))
    ensures OnKey(Command.HSet(k, pairs), found, now)
         == (Write(Rec(Seen(v), e.expireAt, e.pinned)), Int(v.nfields - e.value.nfields))
  {
    hide SetFields, MapOf, Placed;
  }

  lemma PushEffect(found: Option<Rec>, e: Entry, k: Bytes, left: bool, vals: seq<Bytes>, v: Value, now: nat)
    requires Handed(found, e, KList) && |vals| > 0 && v == ListV(Lists.Pushed(e.value.items, left, vals))
    ensures OnKey(Command.Push(k, left, vals), found, now)
         == (Write(Rec(Seen(v), e.expireAt, e.pinned)), Int(|v.items|))
  {
    Lists.ReverseTwice(vals);
  }

  lemma ZAddEffect(found: Option<Rec>, e: Entry, k: Bytes, batch: seq<Member>, now: nat)
    requires Handed(found, e, KZSet) && 0 < |batch| <= MAX_MEMBERS
    ensures var nodes := e.value.nodes;
      var v := AddScores(e.value, batch);
      OnKey(Command.ZAdd(k, batch), found, now)
        == if Fits(nodes, batch)
           then (Write(Rec(Seen(v), e.expireAt, e.pinned)), Int(|v.nodes| - |nodes|))
           else (Effect.Same, Fail(TooManyMembers))
  {
    hide PutAll, AddedAll, CapAfter, Scores, FreshPairs, FreshIn, Unique;
    FreshAtMost(e.value.nodes, batch);
    FreshIs(e.value.nodes, batch);
    LengthIs(e.value.nodes);
    if Fits(e.value.nodes, batch) { AddScoresIs(e.value, batch); }
  }

  /** A new sorted set takes any batch the parser can hand over. */
  lemma OversizeFound(found: Option<Rec>, e: Entry, batch: seq<Member>)
    requires Handed(found, e, KZSet) && |batch| <= MAX_MEMBERS && !Fits(e.value.nodes, batch)
    ensures found.Some?
  {
    hide FreshPairs, Scores, Unique;
    FreshAtMost(e.value.nodes, batch);
    LengthIs(e.value.nodes);
  }

  lemma EmptySeen(v: Value)
    requires Sound(v) && !v.StrV?
    ensures EmptyTyped(v) <==> Seen(v) == NewData(KindOf(v))
  {
    if v.ZSetV? { LengthIs(v.nodes); }
  }

  /** What a removing command leaves of its key. */
  lemma ShrinkApply(db: Db, k: Bytes, e: Entry, v: Value)
    requires Sound(v) && !v.StrV? && KindOf(v) == KindOf(e.value)
    ensures Apply(db, k, Shrink(RecOf(e), Seen(v)))
         == if EmptyTyped(v) then db - {k} else db[k := Rec(Seen(v), e.expireAt, e.pinned)]
    ensures !Shrink(RecOf(e), Seen(v)).Same?
  {
    hide Sound, EmptyTyped, Scores, MapOf;
    EmptySeen(v);
    SeenKind(v);
  }

  lemma HDelForm(k: Bytes, fields: seq<Bytes>, e: Entry, v: Value, now: nat)
    requires e.value.HashV? && Sound(e.value) && v.HashV? && Sound(v)
    requires Seen(v) == DHash(DropFields(MapOf(e.value.fields), fields))
    ensures OnKey(Command.HDel(k, fields), Some(RecOf(e)), now)
         == (Shrink(RecOf(e), Seen(v)), Int(e.value.nfields - v.nfields))
  {
    hide Shrink, DropFields, Placed, MapOf;
  }

  lemma ZRemForm(k: Bytes, members: seq<Bytes>, e: Entry, now: nat)
    requires e.value.ZSetV? && Sound(e.value)
    ensures var v := e.value.(nodes := DroppedAll(e.value.nodes, members));
      OnKey(Command.ZRem(k, members), Some(RecOf(e)), now)
        == (Shrink(RecOf(e), Seen(v)), Int(|e.value.nodes| - |v.nodes|))
  {
    hide Shrink, RemoveAll, DroppedAll, Unique, Scores, Sound;
    DropScoresIs(e.value, members);
  }

  /** The three commands that take items off a list. */
  lemma ListForms(cmd: Command, found: Option<Rec>, now: nat)
    requires cmd.Pop? || cmd.LRem? || cmd.LTrim?
    ensures found.None? ==>
      OnKey(cmd, found, now) == (Effect.Same, if cmd.Pop? then Nil else if cmd.LRem? then Int(0) else Ok)
    ensures found.Some? && !found.value.data.DList? ==> OnKey(cmd, found, now) == (Effect.Same, Fail(WrongType))
    ensures found.Some? && found.value.data.DList? ==>
      var r, items := found.value, found.value.data.items;
      OnKey(cmd, found, now)
        == match cmd
           case Pop(_, left) =>
             if |items| == 0 then (Effect.Same, Nil)
             else (Shrink(r, DList(Lists.Popped(items, left))), Bulk(Lists.PoppedItem(items, left)))
           case LRem(_, count, x) =>
             (Shrink(r, DList(Lists.Removed(items, count, x))), Int(|items| - |Lists.Removed(items, count, x)|))
           case LTrim(_, start, stop) => (Shrink(r, DList(Lists.Slice(items, start, stop))), Ok)
  {
    hide Shrink, Lists.Popped, Lists.PoppedItem, Lists.Removed, Lists.Slice;
  }

  /** Such a command follows the reference when the reference shrinks its key like this. */
  lemma ShrinkFollows(before: Db, cmd: Command, e: Entry, v: Value, now: nat, after: Db, r: Reply)
    requires cmd.HDel? || cmd.Pop? || cmd.LRem? || cmd.LTrim? || cmd.ZRem?
    requires Get(before, cmd.key, now) == Some(RecOf(e)) && Sound(v) && !v.StrV? && KindOf(v) == KindOf(e.value)
    requires OnKey(cmd, Some(RecOf(e)), now) == (Shrink(RecOf(e), Seen(v)), r)
    requires after == if EmptyTyped(v) then before - {cmd.key}
                      else before[cmd.key := Rec(Seen(v), e.expireAt, e.pinned)]
    ensures Follows(before, cmd, now, true, after, r) && cmd.key in Stirred(before, cmd, now)
  {
    hide OnKey, Sound, EmptyTyped, Shrink, Trimmed;
    ShrinkApply(before, cmd.key, e, v);
    TrimmedSelf(after, now, true);
    FollowsBy(before, cmd, now, true, after, r);
  }

  /** The list emptied before it is charged: its nodes' bytes stay on the books. */
  lemma ConsistentDrained(layout: Layout, s: Tiers, hotN: nat, coldN: nat, st: Stats, l: Leak, k: Bytes, f: Entry)
    requires Consistent(layout, s, hotN, coldN, st, l) && Lookup(s, k).Some?
    requires Lookup(s, k).value.value.ListV? && f == Lookup(s, k).value.(value := ListV([]))
    ensures |s.hot| > 0
    ensures var m := l.(bytes := l.bytes + ItemBytes(Lookup(s, k).value.value.items));
      && Consistent(layout, With(s, k, f), hotN, coldN, st, m)
      && Records(With(s, k, f)) == Records(s)[k := RecOf(f)] && Lookup(With(s, k, f), k) == Some(f)
  {
    hide Records, Lookup, Find, With, SumT, Wellformed, AllSound, AllRanked, Accounted, ItemBytes, AllMarked;
    ConsistentEnough(layout, s, hotN, coldN, st, l, k);
    ShapeWith(s, k, f, l.unruly, l.marks);
    CountsWith(s, k, f);
    DrainedAccounted(st, s, l, l.(bytes := l.bytes + ItemBytes(Lookup(s, k).value.value.items)), k, f);
  }

  lemma DrainedAccounted(st: Stats, s: Tiers, l: Leak, m: Leak, k: Bytes, f: Entry)
    requires Wellformed(s) && Accounted(st, s, l) && Lookup(s, k).Some?
    requires Lookup(s, k).value.value.ListV? && f == Lookup(s, k).value.(value := ListV([]))
    requires m == l.(bytes := l.bytes + ItemBytes(Lookup(s, k).value.value.items)) && |s.hot| > 0
    ensures Accounted(st, With(s, k, f), m)
  {
    hide Wellformed, Find, Total, With, Lookup;
    var e := Lookup(s, k).value;
    assert ItemBytes([]) == 0;
    forall c: Counter ensures CounterOf(st, c) == Total(With(s, k, f), c) + Excess(m, c) {
      WithTotal(s, k, f, c);
    }
  }

  lemma SeenKind(v: Value)
    ensures DataKind(Seen(v)) == KindOf(v)
  {
  }

  lemma LostFacts(before: Db, k: Bytes, r: Rec, after: Db, now: nat)
    requires k !in before && Trimmed(before[k := r], after, now, false) && k !in after
    ensures Trimmed(before, after, now, false) && ImageIn(before, k) == ImageIn(after, k)
  {
  }

  /** What ar_entry_get_or_create hands back. */
  datatype Handle = WrongKind | Lost | Ready(entry: Entry)

  // ----- whole tables -----

  lemma PowerTwo(n: nat)
    requires PowerOfTwo(n)
    ensures PowerOfTwo(Max(n, 256))
  {
    assert PowerOfTwo(2) && PowerOfTwo(4) && PowerOfTwo(8) && PowerOfTwo(16);
    assert PowerOfTwo(32) && PowerOfTwo(64) && PowerOfTwo(128) && PowerOfTwo(256);
  }

  lemma FlushFacts(layout: Layout, s: Tiers, hotN: nat, coldN: nat, st: Stats, l: Leak)
    requires Consistent(layout, s, hotN, coldN, st, l)
    ensures var r := Tiers(Empty(|s.hot|), if layout.HotCold? then Empty(|s.cold|) else []);
      && Consistent(layout, r, 0, 0, NO_STATS.(pinnedKeys := st.pinnedKeys), Leak(0, st.pinnedKeys, {}, l.marks))
      && Records(r) == map[]
  {
    var r := Tiers(Empty(|s.hot|), if layout.HotCold? then Empty(|s.cold|) else []);
    EmptyPlaced<Entry>(|s.hot|);
    if layout.HotCold? { EmptyPlaced<Entry>(|s.cold|); }
    assert forall k :: Lookup(r, k).None?;
    RecordsAre(r);
    EmptyTotals(r);
  }

  lemma NothingLinked(s: Tiers, r: Tiers)
    requires Records(r) == map[]
    ensures Drifts(s, r, {})
  {
    hide Lookup, Drifts, Records;
    forall k ensures Lookup(r, k).None? { RecordAt(r, k); }
    FlushDrifts(s, r);
  }

  lemma EmptyTotals(r: Tiers)
    requires r.hot == Empty(|r.hot|) && r.cold == Empty(|r.cold|)
    ensures forall c: Counter :: SumT(r.hot, W(c)) == 0 && SumT(r.cold, W(c)) == 0
  {
    forall c: Counter ensures SumT(r.hot, W(c)) == 0 && SumT(r.cold, W(c)) == 0 {
      SumEmpty<Entry>(|r.hot|, W(c));
      SumEmpty<Entry>(|r.cold|, W(c));
    }
  }

  lemma MigrateFacts(s: Tiers, st: Stats, l: Leak, hotN: nat, coldN: nat, cn: nat)
    requires Consistent(Flat, s, hotN, coldN, st, l) && cn == Max(|s.hot|, 256)
    ensures Consistent(HotCold, s.(cold := Empty(cn)), st.nkeys, 0, st, l)
    ensures Records(s.(cold := Empty(cn))) == Records(s)
  {
    var r := s.(cold := Empty(cn));
    PowerTwo(|s.hot|);
    EmptyPlaced<Entry>(cn);
    forall c: Counter ensures SumT(r.cold, W(c)) == 0 && SumT(s.cold, W(c)) == 0 { SumEmpty<Entry>(cn, W(c)); }
    assert CounterOf(st, Keys) == Total(s, Keys) + Excess(l, Keys);
    ConsistentRelinked(Flat, s, hotN, coldN, st, l, HotCold, r, st.nkeys, 0);
  }

  lemma FlatHasNoCold(layout: Layout, s: Tiers, hotN: nat, coldN: nat, st: Stats, l: Leak)
    requires Consistent(layout, s, hotN, coldN, st, l) && layout.Flat?
    ensures |s.cold| == 0
  {
  }

  lemma FoldApart(s: Tiers)
    requires Wellformed(s)
    ensures Apart(s.cold, s.hot)
  {
    forall k ensures Find(s.cold, k).None? || Find(s.hot, k).None? {
      assert Find(s.hot, k).None? || Find(s.cold, k).None?;
    }
  }

  lemma FoldFacts(s: Tiers, st: Stats, l: Leak, hotN: nat, coldN: nat, merged: Table<Entry>)
    requires Consistent(HotCold, s, hotN, coldN, st, l)
    requires Placed(merged) && |merged| == |s.hot|
    requires forall k :: Find(merged, k) == Either(Find(s.hot, k), Find(s.cold, k))
    requires forall w :: SumT(merged, w) == SumT(s.cold, w) + SumT(s.hot, w)
    ensures Consistent(Flat, Tiers(merged, []), 0, 0, st, l) && Records(Tiers(merged, [])) == Records(s)
  {
    var r := Tiers(merged, []);
    forall c: Counter ensures Total(r, c) == Total(s, c) {
      assert SumT(merged, W(c)) == SumT(s.cold, W(c)) + SumT(s.hot, W(c));
    }
    ConsistentRelinked(HotCold, s, hotN, coldN, st, l, Flat, r, 0, 0);
  }

  // ----- iteration -----

  /** The filter of SCAN and KEYS: no pattern means everything. */
  predicate Selected(pattern: Bytes, k: Bytes) {
    |pattern| == 0 || Glob.Matches(pattern, k)
  }

  /** What that is: every key with no pattern, and else the keys that can be cut into pieces
      that fit the bytes of the pattern. */
  lemma SelectedWhen(pattern: Bytes, k: Bytes)
    ensures Selected(pattern, k) <==> pattern == [] || exists pieces :: Glob.Cuts(pattern, k, pieces)
  {
    hide Glob.Matches, Glob.Cuts;
    Glob.MatchesWhen(pattern, k);
  }

  method Select(found: seq<Bytes>, pattern: Bytes) returns (kept: seq<Bytes>)
    requires Distinct(found)
    ensures Distinct(kept) && forall k :: k in kept <==> k in found && Selected(pattern, k)
  {
    hide Glob.Matches;
    kept := [];
    for i := 0 to |found|
      invariant forall k :: k in kept <==> k in found[..i] && Selected(pattern, k)
      invariant Distinct(kept)
    {
      var hit := true;
      if |pattern| > 0 { hit := Glob.GlobMatch(pattern, found[i]); }
      assert found[..i + 1] == found[..i] + [found[i]];
      if hit {
        assert found[i] !in kept;
        DistinctAppend(kept, [found[i]]);
        kept := kept + [found[i]];
      }
    }
    assert found[..|found|] == found;
  }

  /** `keys` are exactly the selected live keys between two positions, each once. */
  ghost predicate Collected(keys: seq<Bytes>, s: Tiers, pattern: Bytes, now: nat, from: nat, end: nat) {
    Distinct(keys) && forall k :: k in keys <==> Within(s, k, now, from, end) && Selected(pattern, k)
  }

  lemma CollectedNone(s: Tiers, pattern: Bytes, now: nat, from: nat)
    ensures Collected([], s, pattern, now, from, from)
  {
  }

  lemma CollectedJoin(a: seq<Bytes>, b: seq<Bytes>, s: Tiers, r: Tiers, pattern: Bytes, now: nat,
                      from: nat, mid: nat, end: nat)
    requires Collected(a, s, pattern, now, from, mid) && Collected(b, r, pattern, now, mid, end)
    requires Purged(s, r, now) && from <= mid <= end
    ensures Collected(a + b, s, pattern, now, from, end)
  {
    hide Within, Selected, Purged, Distinct;
    forall k
      ensures k in a + b <==> Within(s, k, now, from, end) && Selected(pattern, k)
      ensures k in a ==> k !in b
    {
      WithinSplits(s, k, now, from, mid, end);
      PurgedWithin(s, r, k, now, mid, end);
    }
    DistinctAppend(a, b);
  }

  lemma PurgedWithin(s: Tiers, r: Tiers, k: Bytes, now: nat, from: nat, end: nat)
    requires Purged(s, r, now)
    ensures Within(r, k, now, from, end) == Within(s, k, now, from, end)
  {
    PurgedLive(s, r, k, now);
  }

  lemma CountAll(keys: seq<Bytes>, s: Tiers, now: nat)
    requires Wellformed(s) && Collected(keys, s, [], now, 0, Buckets(s))
    ensures |keys| == |Live(Records(s), now)|
  {
    hide Wellformed, Pos, Records;
    ElementsCount(keys);
    forall k ensures k in Elements(keys) <==> k in Live(Records(s), now) { WithinAll(s, k, now); }
    assert Elements(keys) == Live(Records(s), now).Keys;
  }

  lemma NothingWithin(layout: Layout, s: Tiers, hotN: nat, coldN: nat, st: Stats, l: Leak,
                      pattern: Bytes, now: nat, from: nat, end: nat)
    requires Consistent(layout, s, hotN, coldN, st, l) && st.nkeys == 0
    ensures Collected([], s, pattern, now, from, end)
  {
    forall k ensures !Within(s, k, now, from, end) {
      LookupGet(s, k, now);
      if Lookup(s, k).Some? { SomeKey(layout, s, hotN, coldN, st, l, k); }
    }
  }

  lemma SomeKey(layout: Layout, s: Tiers, hotN: nat, coldN: nat, st: Stats, l: Leak, k: Bytes)
    requires Consistent(layout, s, hotN, coldN, st, l) && Lookup(s, k).Some?
    ensures st.nkeys > 0
  {
    WithoutTotal(s, k, Keys);
    assert CounterOf(st, Keys) == Total(s, Keys) + Excess(l, Keys);
  }

  lemma CollectedAll(keys: seq<Bytes>, s: Tiers, pattern: Bytes, now: nat)
    requires Wellformed(s) && Collected(keys, s, pattern, now, 0, Buckets(s))
    ensures Distinct(keys) && forall k :: k in keys <==> Get(Records(s), k, now).Some? && Selected(pattern, k)
  {
    hide Wellformed, Within, Selected, Distinct;
    forall k ensures Within(s, k, now, 0, Buckets(s)) <==> Get(Records(s), k, now).Some? { WithinAll(s, k, now); }
  }

  lemma FreshFacts()
    ensures Consistent(Flat, Tiers(Empty(1024), []), 0, 0, NO_STATS, Leak(0, 0, {}, map[]))
    ensures Records(Tiers(Empty(1024), [])) == map[]
  {
    hide Find, SumT, PowerOfTwo, Records;
    var r: Tiers := Tiers(Empty(1024), []);
    EmptyPlaced<Entry>(1024);
    PowerThousand();
    assert forall k :: Find(r.cold, k).None? by { NoTable<Entry>(); }
    RecordsAre(r);
    EmptyTotals(r);
  }

  lemma NoTable<V>()
    ensures forall k :: Find<V>([], k).None?
  {
  }

  lemma PowerThousand()
    ensures PowerOfTwo(1024)
  {
    PowerTwo(1);
    assert PowerOfTwo(512);
  }

  class Store {
    var layout: Layout
    var tiers: Tiers
    var hotNkeys: nat
    var coldNkeys: nat
    var stats: Stats
    var settings: Settings
    var clock: nat
    var evicted: nat
    var expired: nat
    var conns: seq<Conn>
    ghost var seen: seq<Sight>
    /** When the last request began, and the keys it named. */
    ghost var since: Since
    /** What rand() returns, call by call, and how often it was called. */
    const rand: nat -> nat
    var drawn: nat
    ghost var leak: Leak
    /** The keyspace and the random numbers the last eviction loop started from. */
    ghost var evictFrom: Tiers
    ghost var evictDraw: nat

    ghost function Db(): Db
      reads this
    {
      Records(tiers)
    }

    /** What holds between any two steps. Keys in `pending` have been written but
        their watchers not notified yet. */
    ghost predicate Inv(pending: set<Bytes>)
      reads this
    {
      && Consistent(layout, tiers, hotNkeys, coldNkeys, stats, leak)
      && WatchOk(conns, seen, since, Db(), pending)
    }

    ghost predicate Valid()
      reads this
    {
      Inv({})
    }

    /** Nothing is ever evicted. */
    predicate EvictionOff()
      reads this`settings
    {
      settings.kernel.Noop? || settings.maxmemory == 0
    }

    predicate Over()
      reads this`settings, this`stats
    {
      !settings.kernel.Noop? && settings.maxmemory > 0 && stats.usedMemory > settings.maxmemory
    }

    /** What no data command changes. */
    twostate predicate Kept()
      reads this
    {
      && settings == old(settings) && layout == old(layout) && seen == old(seen) && SameClients(old(conns), conns)
      && clock >= old(clock)
    }

    twostate predicate Steady()
      reads this
    {
      Kept() && leak == old(leak)
    }

    /** What was noted since then comes to this use; nothing else in the books changed. */
    twostate predicate Noted(u: Use)
      reads this
    {
      Notes(old(leak.marks), old(clock), leak.marks, clock, u) && leak == old(leak).(marks := leak.marks)
    }

    /** A request began here and named at most these keys: whoever is dirty since then, by
        the invariant, watches one of them or a key that is gone. */
    twostate predicate Began(named: iset<Bytes>)
      reads this
    {
      since.conns == old(conns) && since.db == old(Db()) && since.named <= named
    }

    /** Within a request, no more keys were named. */
    twostate predicate Named(more: iset<Bytes>)
      reads this`since
    {
      since.conns == old(since.conns) && since.db == old(since.db) && since.named <= old(since.named) + more
    }

    // ----- primitive steps -----

    ghost method Begin(p: set<Bytes>)
      requires Inv(p)
      modifies `since
      ensures Inv(p) && since == Since(conns, Db(), iset{}) && |seen| == |conns|
    {
      hide Consistent, Sighted, Explained;
      BeginOk(conns, seen, Db(), p);
      since := Since(conns, Db(), iset{});
    }

    /** ar_watch_touch on this store. */
    method Notify(k: Bytes, ghost p: set<Bytes>)
      requires Inv(p)
      modifies `conns, `since
      ensures Inv(p - {k}) && Steady() && Named(iset{k})
    {
      hide WatchOk;
      ghost var before := conns;
      var r := WatchTouch(conns, k);
      TouchSettles(before, r, seen, since, Db(), p, k);
      conns, since := r, Naming(since, k);
    }

    /** ar_entry_free_ex: notify, uncount and unlink one entry. */
    method FreeEntry(k: Bytes, ghost p: set<Bytes>)
      requires Inv(p) && Lookup(tiers, k).Some?
      modifies `tiers, `stats, `hotNkeys, `coldNkeys, `conns
      ensures Inv(p - {k}) && Steady()
      ensures tiers == Without(old(tiers), k) && Db() == old(Db()) - {k}
      ensures forall q :: Lookup(tiers, q) == if q == k then None else old(Lookup(tiers, q))
      ensures stats == Freed(old(stats), k, old(Lookup(tiers, k).value))
      ensures stats.nkeys + 1 == old(stats.nkeys) && Drifts(old(tiers), tiers, {})
    {
      hide Consistent, WatchOk, SameClients, Records, Lookup, Freed, Drifts, Wellformed;
      CountersTell(p);
      WithoutDrifts(tiers, k);
      RecordAt(tiers, k);
      ConsistentWithout(layout, tiers, hotNkeys, coldNkeys, stats, leak, k);
      ghost var before := conns;
      var r := WatchTouch(conns, k);
      FreedSettles(before, r, seen, since, Records(tiers), p, k);
      conns := r;
      var inHot := Find(tiers.hot, k).Some?;
      stats := Freed(stats, k, Lookup(tiers, k).value);
      if layout.HotCold? {
        if inHot { hotNkeys := SatSub(hotNkeys, 1); } else { coldNkeys := SatSub(coldNkeys, 1); }
      }
      tiers := Without(tiers, k);
    }

    /** entry_expired_now: a due entry is freed. */
    method ExpireIfDue(k: Bytes, e: Entry, now: nat, ghost p: set<Bytes>) returns (gone: bool)
      requires Inv(p) && Lookup(tiers, k) == Some(e)
      modifies `tiers, `stats, `hotNkeys, `coldNkeys, `conns, `expired
      ensures gone == Due(e.expireAt, now)
      ensures Inv(p) && Steady() && stats.nkeys <= old(stats.nkeys)
      ensures !gone ==> tiers == old(tiers) && stats == old(stats) && conns == old(conns)
      ensures gone ==> Lookup(tiers, k).None? && Db() == old(Db()) - {k}
      ensures Drifts(old(tiers), tiers, {})
    {
      hide Consistent, WatchOk, Records, Lookup, Find, Without, Freed, Due, Drifts;
      DriftsSelf(tiers, {});
      gone := Due(e.expireAt, now);
      if gone {
        FreeEntry(k, p);
        expired := expired + 1;
        WatchWiden(conns, seen, since, Db(), p - {k}, p);
      }
    }

    /** Search the hot tier, then the cold one. */
    method Search(k: Bytes) returns (r: Option<Entry>, cold: bool)
      requires Consistent(layout, tiers, hotNkeys, coldNkeys, stats, leak)
      ensures r == Lookup(tiers, k)
      ensures r.Some? ==> cold == Find(tiers.hot, k).None? && (cold ==> layout.HotCold?)
    {
      cold := false;
      r := FindInTable(tiers.hot, k);
      if r.None? && layout.HotCold? {
        r := FindInTable(tiers.cold, k);
        cold := true;
      }
    }

    /** ar_find_entry_ex: a due entry found is freed. No key is in both tiers, so
        there is no second copy to look for after that. */
    method FindLive(k: Bytes, now: nat, ghost p: set<Bytes>) returns (r: Option<Entry>, cold: bool)
      requires Inv(p)
      modifies `tiers, `stats, `hotNkeys, `coldNkeys, `conns, `expired
      ensures Inv(p) && Steady() && stats.nkeys <= old(stats.nkeys)
      ensures r.Some? ==> tiers == old(tiers) && stats == old(stats) && conns == old(conns)
      ensures r.Some? ==> Lookup(tiers, k) == r && !Due(r.value.expireAt, now)
      ensures r.Some? ==> cold == Find(tiers.hot, k).None? && (cold ==> layout.HotCold?)
      ensures r.Some? ==> Get(old(Db()), k, now) == Some(RecOf(r.value))
      ensures r.None? ==> Lookup(tiers, k).None? && Get(old(Db()), k, now).None? && Db() == old(Db()) - {k}
      ensures Drifts(old(tiers), tiers, {})
      ensures old(Lookup(tiers, k)).None? ==> tiers == old(tiers) && stats == old(stats)
    {
      hide WatchOk, Records, Without, Freed, Consistent, Lookup, Find, Get, RecOf, Drifts;
      DriftsSelf(tiers, {});
      LookupGet(tiers, k, now);
      r, cold := Search(k);
      if r.Some? {
        var gone := ExpireIfDue(k, r.value, now, p);
        if gone { r := None; }
      }
    }

    /** Rewrite an entry in place, with its counters. */
    method Rewrite(k: Bytes, f: Entry, u: Stats, ghost p: set<Bytes>)
      requires Inv(p) && Lookup(tiers, k).Some? && Sound(f.value) && Neat(f.value, k, leak.unruly)
      requires Adjusted(stats, u, k, Lookup(tiers, k).value, f)
      modifies `tiers, `stats, `leak
      ensures Inv(p + {k}) && stats == u && Lookup(tiers, k) == Some(f)
      ensures leak == Marking(old(leak), k, f)
      ensures MarkOf(f) == old(MarkOf(Lookup(tiers, k).value)) ==> leak == old(leak)
      ensures Db() == old(Db())[k := RecOf(f)]
      ensures Find(tiers.hot, k).None? == old(Find(tiers.hot, k).None?)
      ensures var e := old(Lookup(tiers, k).value);
        f.value == e.value && f.expireAt == e.expireAt ==>
          Inv(p) && (f.pinned == e.pinned ==> Db() == old(Db()))
      ensures Drifts(old(tiers), tiers, {})
    {
      hide Consistent, WatchOk, Records, With, Lookup, Find, Wellformed, RecOf, Sound, Neat, Adjusted, Drifts;
      CountersTell(p);
      WithDrifts(tiers, k, f);
      RewriteFacts(layout, tiers, hotNkeys, coldNkeys, stats, leak, conns, seen, since, p, k, f, u);
      tiers, stats, leak := With(tiers, k, f), u, Marking(leak, k, f);
    }

    // ----- tiers: demotion, promotion, rehash, migration -----

    /** Soft cap of the hot tier: a percentage of all keys with a floor. */
    function SoftCap(): nat
      reads this
    {
      var pct := if settings.softCapPct > 0 then Min(settings.softCapPct, 100) else 25;
      Max(stats.nkeys * pct / 100, Max(settings.softCapMin, 0))
    }

    /** By default a quarter of all keys, and never under 256. */
    lemma DefaultCap()
      requires settings.softCapPct == 25 && settings.softCapMin == 256
      ensures SoftCap() == if stats.nkeys < 1028 then 256 else stats.nkeys / 4
    {
    }

    /** Sample up to 16 hot entries from up to 64 random buckets; the oldest one. */
    method PickColdest(attempts: nat) returns (best: Option<Sample>)
      requires Placed(tiers.hot)
      modifies `drawn
      ensures var o := OfferedFrom(rand, tiers.hot, old(drawn), attempts, []);
        best == Best(Lru, o.got) && drawn == o.drawn
    {
      hide Best, Placed, Offered;
      assert |tiers.hot| > 0 by { PlacedSome(tiers.hot); }
      best := None;
      NoBest(Lru);
      ghost var got: seq<Sample> := [];
      var samples := 0;
      var attempt := 0;
      while attempt < attempts && samples < COLD_SAMPLES
        invariant 0 <= attempt <= attempts && samples == |got| && best == Best(Lru, got)
        invariant OfferedFrom(rand, tiers.hot, drawn, attempts - attempt, got)
               == OfferedFrom(rand, tiers.hot, old(drawn), attempts, [])
        decreases attempts - attempt
      {
        var chain := tiers.hot[rand(drawn) % |tiers.hot|];
        drawn := drawn + 1;
        attempt := attempt + 1;
        ghost var all := got + Offered(chain, COLD_SAMPLES - |got|);
        assert OfferedFrom(rand, tiers.hot, drawn, attempts - attempt, all)
            == OfferedFrom(rand, tiers.hot, old(drawn), attempts, []);
        assert chain[0..] == chain;
        ghost var d := drawn;
        var j := 0;
        while j < |chain| && samples < COLD_SAMPLES
          invariant 0 <= j <= |chain| && samples == |got| && best == Best(Lru, got) && drawn == d
          invariant got + Offered(chain[j..], COLD_SAMPLES - |got|) == all
        {
          var x := Sample(chain[j].key, chain[j].val);
          BestNext(Lru, got, x);
          OfferedNext(chain, j, got);
          samples := samples + 1;
          if best.None? || chain[j].val.lastAccess < best.value.entry.lastAccess { best := Some(x); }
          got := got + [x];
          j := j + 1;
        }
        OfferedEnd(chain, j, got);
      }
    }

    /** demote_one_hot_to_cold. */
    method DemoteOne(ghost p: set<Bytes>) returns (ok: bool)
      requires Inv(p) && layout.HotCold? && hotNkeys > 0
      modifies `tiers, `hotNkeys, `coldNkeys, `drawn
      ensures Inv(p) && Db() == old(Db()) && Drifts(old(tiers), tiers, {})
      ensures var o := OfferedFrom(rand, old(tiers).hot, old(drawn), 64, []);
        && drawn == o.drawn && ok == Best(Lru, o.got).Some?
        && tiers == if ok then Cooler(old(tiers), Best(Lru, o.got).value.key) else old(tiers)
      ensures hotNkeys == old(hotNkeys) - if ok then 1 else 0
    {
      hide WatchOk, Records, Drifts, Lookup, Find, Apart, Accounted, AllSound, Best, OfferedFrom;
      DriftsSelf(tiers, {});
      ghost var got := OfferedFrom(rand, tiers.hot, drawn, COLD_ATTEMPTS, []).got;
      if |got| == 0 { NoBest(Lru); }
      var best := PickColdest(COLD_ATTEMPTS);
      ok := best.Some?;
      if ok {
        var i := ColdestIs(rand, tiers.hot, old(drawn), COLD_ATTEMPTS);
        FoundHot(tiers, best.value.key);
        Demote(best.value.key, p);
      }
    }

    /** The entry is in the cold tier afterwards, and nothing else moves. */
    method Demote(k: Bytes, ghost p: set<Bytes>)
      requires Inv(p) && layout.HotCold? && Find(tiers.hot, k).Some? && Lookup(tiers, k).Some?
      modifies `tiers, `hotNkeys, `coldNkeys
      ensures Inv(p) && Db() == old(Db()) && Drifts(old(tiers), tiers, {})
      ensures Find(tiers.hot, k).None? && Find(tiers.cold, k) == old(Find(tiers.hot, k))
      ensures forall q :: q != k ==>
        Find(tiers.hot, q) == old(Find(tiers.hot, q)) && Find(tiers.cold, q) == old(Find(tiers.cold, q))
      ensures hotNkeys + 1 == old(hotNkeys) && coldNkeys == old(coldNkeys) + 1
      ensures tiers == Cooler(old(tiers), k)
    {
      hide Consistent, WatchOk, Records, Lookup, Find, Without, AddCold, SumT, Drifts;
      DemotedFacts(layout, tiers, hotNkeys, coldNkeys, stats, leak, k);
      ConsistentDemoted(layout, tiers, hotNkeys, coldNkeys, stats, leak, k);
      tiers := AddCold(Without(tiers, k), k, Lookup(tiers, k).value);
      hotNkeys, coldNkeys := hotNkeys - 1, coldNkeys + 1;
    }

    /** At most 64 demotions while the hot tier is over its soft cap. */
    method MaybeDemoteHot(ghost p: set<Bytes>)
      requires Inv(p)
      modifies `tiers, `hotNkeys, `coldNkeys, `drawn
      ensures Inv(p) && Db() == old(Db()) && Drifts(old(tiers), tiers, {})
      ensures layout.Flat? ==> tiers == old(tiers) && drawn == old(drawn)
      ensures layout.HotCold? ==> var e := Cooled(rand, old(tiers), old(drawn), SoftCap(), 64);
        tiers == e.tiers && drawn == e.drawn
    {
      hide Consistent, WatchOk, Records, Drifts, OfferedFrom, Best, Cooler;
      DriftsSelf(tiers, {});
      if layout.Flat? { return; }
      var guard := 0;
      HotCounted(p);
      while hotNkeys > SoftCap() && guard < DEMOTIONS
        invariant Inv(p) && Db() == old(Db()) && Drifts(old(tiers), tiers, {})
        invariant hotNkeys == SumT(tiers.hot, W(Keys)) && SoftCap() == old(SoftCap()) && 0 <= guard <= DEMOTIONS
        invariant Cooled(rand, tiers, drawn, SoftCap(), DEMOTIONS - guard)
               == Cooled(rand, old(tiers), old(drawn), SoftCap(), DEMOTIONS)
        decreases DEMOTIONS - guard
      {
        ghost var s := tiers;
        guard := guard + 1;
        var ok := DemoteOne(p);
        HotCounted(p);
        DriftsOn(old(tiers), s, tiers, {}, {}, {});
        if !ok { break; }
      }
    }

    lemma HotCounted(p: set<Bytes>)
      requires Inv(p) && layout.HotCold?
      ensures hotNkeys == SumT(tiers.hot, W(Keys))
    {
    }

    /** The entry is in the hot tier afterwards, and nothing else moves. */
    method Promote(k: Bytes, ghost p: set<Bytes>)
      requires Inv(p) && layout.HotCold? && Lookup(tiers, k).Some? && Find(tiers.hot, k).None?
      modifies `tiers, `hotNkeys, `coldNkeys
      ensures Inv(p) && Db() == old(Db()) && Drifts(old(tiers), tiers, {k})
      ensures Find(tiers.hot, k) == old(Find(tiers.cold, k)) && Find(tiers.cold, k).None?
      ensures forall q :: q != k ==>
        Find(tiers.hot, q) == old(Find(tiers.hot, q)) && Find(tiers.cold, q) == old(Find(tiers.cold, q))
      ensures hotNkeys == old(hotNkeys) + 1 && coldNkeys + 1 == old(coldNkeys)
    {
      hide Consistent, WatchOk, Records, Lookup, Find, Without, AddHot, SumT, Drifts;
      PromotedFacts(layout, tiers, hotNkeys, coldNkeys, stats, leak, k);
      ConsistentPromoted(layout, tiers, hotNkeys, coldNkeys, stats, leak, k);
      tiers := AddHot(Without(tiers, k), k, Lookup(tiers, k).value);
      hotNkeys, coldNkeys := hotNkeys + 1, coldNkeys - 1;
    }

    /** ar_touch_get: note the access; a cold entry moves to the hot tier. */
    method TouchGet(k: Bytes, cold: bool, ghost p: set<Bytes>)
      requires Inv(p) && Lookup(tiers, k).Some? && cold == Find(tiers.hot, k).None?
      modifies `tiers, `stats, `clock, `hotNkeys, `coldNkeys, `drawn, `leak
      ensures Inv(p) && Db() == old(Db()) && stats == old(stats) && Noted(Touch(k, FreqOf(old(leak.marks), k)))
      ensures Drifts(old(tiers), tiers, if settings.promoteOnGet && cold then {k} else {})
    {
      hide Consistent, WatchOk, Records, Wellformed, Adjusted, Lookup, Find, Sound, Drifts;
      ConsistentEnough(layout, tiers, hotNkeys, coldNkeys, stats, leak, k);
      clock := clock + 1;
      var e := Lookup(tiers, k).value;
      var f := e.(lastAccess := clock);
      SameAdjusted(stats, k, e, f);
      Rewrite(k, f, stats, p);
      ghost var w: set<Bytes> := if settings.promoteOnGet && cold then {k} else {};
      DriftsWiden(old(tiers), tiers, {}, w);
      if layout.HotCold? && cold && settings.promoteOnGet {
        ghost var s := tiers;
        Promote(k, p);
        ghost var t := tiers;
        MaybeDemoteHot(p);
        DriftsOn(s, t, tiers, {k}, {}, w);
        DriftsOn(old(tiers), s, tiers, {}, w, w);
      }
    }

    /** ar_rehash_if_needed: a tier with more keys than buckets doubles, and no other. */
    method RehashIfNeeded(ghost p: set<Bytes>)
      requires Inv(p)
      modifies `tiers
      ensures Inv(p) && Db() == old(Db()) && Drifts(old(tiers), tiers, {})
      ensures |tiers.hot| == if (if layout.Flat? then stats.nkeys else hotNkeys) > |old(tiers.hot)|
                             then 2 * |old(tiers.hot)| else |old(tiers.hot)|
      ensures |tiers.cold| == if layout.HotCold? && coldNkeys > |old(tiers.cold)|
                              then 2 * |old(tiers.cold)| else |old(tiers.cold)|
      ensures forall q ::
        Find(tiers.hot, q) == old(Find(tiers.hot, q)) && Find(tiers.cold, q) == old(Find(tiers.cold, q))
    {
      hide Consistent, WatchOk, Records, Drifts, Find;
      DriftsSelf(tiers, {});
      if layout.Flat? {
        if stats.nkeys <= |tiers.hot| { return; }
        RehashHot(p);
        return;
      }
      if hotNkeys > |tiers.hot| { RehashHot(p); }
      ghost var s := tiers;
      if coldNkeys > |tiers.cold| {
        RehashCold(p);
        DriftsOn(old(tiers), s, tiers, {}, {}, {});
      }
    }

    method RehashHot(ghost p: set<Bytes>)
      requires Inv(p)
      modifies `tiers
      ensures Inv(p) && Db() == old(Db()) && |tiers.hot| == 2 * |old(tiers.hot)| && tiers.cold == old(tiers.cold)
      ensures (forall q :: Find(tiers.hot, q) == old(Find(tiers.hot, q))) && Drifts(old(tiers), tiers, {})
    {
      hide WatchOk, Records, Drifts;
      var bigger := Doubled(tiers.hot);
      GrownHotDrifts(tiers, bigger);
      ConsistentRelinked(layout, tiers, hotNkeys, coldNkeys, stats, leak,
                         layout, tiers.(hot := bigger), hotNkeys, coldNkeys);
      tiers := tiers.(hot := bigger);
    }

    method RehashCold(ghost p: set<Bytes>)
      requires Inv(p) && layout.HotCold?
      modifies `tiers
      ensures Inv(p) && Db() == old(Db()) && |tiers.cold| == 2 * |old(tiers.cold)| && tiers.hot == old(tiers.hot)
      ensures (forall q :: Find(tiers.cold, q) == old(Find(tiers.cold, q))) && Drifts(old(tiers), tiers, {})
    {
      hide WatchOk, Records, Drifts;
      var bigger := Doubled(tiers.cold);
      GrownColdDrifts(tiers, bigger);
      ConsistentRelinked(layout, tiers, hotNkeys, coldNkeys, stats, leak,
                         layout, tiers.(cold := bigger), hotNkeys, coldNkeys);
      tiers := tiers.(cold := bigger);
    }

    // ----- eviction -----

    /** Free an entry found due. */
    method FreeDue(k: Bytes, e: Entry, now: nat, ghost p: set<Bytes>)
      requires Inv(p) && Lookup(tiers, k) == Some(e) && Due(e.expireAt, now)
      modifies `tiers, `stats, `hotNkeys, `coldNkeys, `conns, `expired
      ensures Inv(p) && Steady() && stats.nkeys < old(stats.nkeys)
      ensures Trimmed(old(Db()), Db(), now, true) && Dropped(old(tiers), k) == tiers == Without(old(tiers), k)
      ensures forall q :: Lookup(tiers, q) == if q == k then None else old(Lookup(tiers, q))
      ensures Drifts(old(tiers), tiers, {}) && stats.nkeys + 1 == old(stats.nkeys)
    {
      hide Consistent, WatchOk, Records, Lookup, Find, Trimmed, Without, Freed, Due, SameClients, Drifts;
      FreeDueFacts(tiers, k, now);
      CountersTell(p);
      HasHot(tiers);
      FreeEntry(k, p);
      expired := expired + 1;
      WatchWiden(conns, seen, since, Db(), p - {k}, p);
    }

    function SampleLimit(): (n: nat)
      reads this`settings
      ensures n > 0
    {
      if settings.samples > 0 then settings.samples else 16
    }

    ghost function PlanNow(): Plan
      reads this`settings, this`leak
    {
      Plan(settings.kernel, settings.maxmemory, leak.bytes, SampleLimit(), rand)
    }

    /** The counters the loops look at are what the plan computes from the tables. */
    lemma CountersTell(p: set<Bytes>)
      requires Inv(p)
      ensures Wellformed(tiers) && Over() == OverLimit(PlanNow(), tiers) && stats.nkeys == Total(tiers, Keys)
      ensures (layout.HotCold? && coldNkeys > 0) == (|tiers.cold| > 0 && SumT(tiers.cold, W(Keys)) > 0)
    {
      assert CounterOf(stats, Memory) == Total(tiers, Memory) + Excess(leak, Memory);
      assert CounterOf(stats, Keys) == Total(tiers, Keys) + Excess(leak, Keys);
    }

    /** One sampled bucket: due entries are freed, pinned ones passed over, the
        others compared with the best so far. */
    method VisitChain(c: Chain<Entry>, now: nat, limit: nat, samplesSoFar: nat, bestSoFar: Option<Sample>,
                      ghost gotSoFar: seq<Sample>, ghost p: set<Bytes>)
      returns (samples: nat, best: Option<Sample>, ghost got: seq<Sample>)
      requires Inv(p) && Ahead(c, 0, tiers) && OneEach(c)
      requires samplesSoFar == |gotSoFar| && bestSoFar == Best(settings.kernel, gotSoFar)
      modifies `tiers, `stats, `hotNkeys, `coldNkeys, `conns, `expired
      ensures Inv(p) && Steady() && stats.nkeys <= old(stats.nkeys)
      ensures Trimmed(old(Db()), Db(), now, true)
      ensures (tiers, got) == Visit(old(tiers), c, now, limit, gotSoFar)
      ensures samples == |got| && best == Best(settings.kernel, got)
    {
      hide Consistent, WatchOk, Records, Lookup, Trimmed, Without, Best, Better, OneEach, Ahead, Find, Wellformed;
      samples, best, got := samplesSoFar, bestSoFar, gotSoFar;
      var j := 0;
      TrimmedSelf(Db(), now, true);
      assert c[0..] == c;
      while j < |c| && samples < limit
        invariant j <= |c|
        invariant Inv(p) && Steady() && stats.nkeys <= old(stats.nkeys)
        invariant Trimmed(old(Db()), Db(), now, true)
        invariant Ahead(c, j, tiers) && samples == |got| && best == Best(settings.kernel, got)
        invariant Visit(tiers, c[j..], now, limit, got) == Visit(old(tiers), c, now, limit, gotSoFar)
        decreases |c| - j
      {
        var k, e := c[j].key, c[j].val;
        assert c[j..][0] == c[j] && c[j..][1..] == c[j + 1..];
        AheadAt(c, j, tiers);
        if Due(e.expireAt, now) {
          ghost var s, before := tiers, Db();
          FreeDue(k, e, now, p);
          AheadOn(c, j, s, tiers);
          TrimmedTwice(old(Db()), before, Db(), now, true);
        } else if !e.pinned {
          var x := Sample(k, e);
          BestNext(settings.kernel, got, x);
          samples, got := samples + 1, got + [x];
          if best.None? || Better(settings.kernel, e, best.value.entry) { best := Some(x); }
        }
        j := j + 1;
      }
      assert c[|c|..] == [];
    }

    /** One attempt of the sampling loop: draw a bucket and visit it. */
    method Attempt(now: nat, limit: nat, attempt: nat, samplesSoFar: nat, bestSoFar: Option<Sample>,
                   ghost gotSoFar: seq<Sample>, ghost p: set<Bytes>)
      returns (samples: nat, best: Option<Sample>, ghost got: seq<Sample>)
      requires Inv(p) && attempt < ATTEMPTS && samplesSoFar < limit
      requires samplesSoFar == |gotSoFar| && bestSoFar == Best(settings.kernel, gotSoFar)
      modifies `tiers, `stats, `hotNkeys, `coldNkeys, `conns, `expired, `drawn
      ensures Inv(p) && Steady() && stats.nkeys <= old(stats.nkeys)
      ensures Trimmed(old(Db()), Db(), now, true)
      ensures Walk(rand, tiers, drawn, now, limit, attempt + 1, got)
           == Walk(rand, old(tiers), old(drawn), now, limit, attempt, gotSoFar)
      ensures samples == |got| && best == Best(settings.kernel, got)
    {
      hide Consistent, WatchOk, Records, Trimmed, Ahead, OneEach, Visit, Best, SumT, Wellformed;
      CountersTell(p);
      TableFacts(tiers, attempt);
      var useCold := layout.HotCold? && coldNkeys > 0 && attempt % 2 == 1;
      var table: Table<Entry> := if useCold then tiers.cold else tiers.hot;
      assert table == TableAt(tiers, attempt);
      var i := rand(drawn) % |table|;
      samples, best, got := VisitChain(table[i], now, limit, samplesSoFar, bestSoFar, gotSoFar, p);
      drawn := drawn + 1;
    }

    /** Up to 128 random buckets, every other one in the cold tier when it has keys,
        until enough entries are sampled: exactly the walk that the random numbers
        lead to, and the best of what it sampled. */
    method SamplePick(now: nat, ghost p: set<Bytes>) returns (best: Option<Sample>, ghost got: seq<Sample>)
      requires Inv(p)
      modifies `tiers, `stats, `hotNkeys, `coldNkeys, `conns, `expired, `drawn
      ensures Inv(p) && Steady() && stats.nkeys <= old(stats.nkeys)
      ensures Trimmed(old(Db()), Db(), now, true)
      ensures Walked(tiers, got, drawn) == Walk(rand, old(tiers), old(drawn), now, SampleLimit(), 0, [])
      ensures best == Best(settings.kernel, got)
    {
      hide Consistent, WatchOk, Records, Trimmed, Visit, Best, TableAt;
      var limit := SampleLimit();
      best, got := None, [];
      NoBest(settings.kernel);
      TrimmedSelf(Db(), now, true);
      var samples: nat := 0;
      var attempt: nat := 0;
      while attempt < ATTEMPTS && samples < limit
        invariant Inv(p) && Steady() && stats.nkeys <= old(stats.nkeys) && limit == SampleLimit()
        invariant Trimmed(old(Db()), Db(), now, true)
        invariant samples == |got| && best == Best(settings.kernel, got)
        invariant Walk(rand, tiers, drawn, now, limit, attempt, got)
               == Walk(rand, old(tiers), old(drawn), now, limit, 0, [])
        decreases ATTEMPTS - attempt
      {
        ghost var before := Db();
        samples, best, got := Attempt(now, limit, attempt, samples, best, got, p);
        TrimmedTwice(old(Db()), before, Db(), now, true);
        attempt := attempt + 1;
      }
    }

    /** evict_one of every built-in kernel: exactly the round that the random numbers lead
        to, so it frees the preferred one of the sampled entries and fails only if nothing
        evictable was sampled. */
    method EvictOne(now: nat, ghost p: set<Bytes>) returns (ok: bool)
      requires Inv(p)
      modifies `tiers, `stats, `hotNkeys, `coldNkeys, `conns, `expired, `evicted, `drawn
      ensures Inv(p) && Steady()
      ensures var e := Round(settings.kernel, rand, old(tiers), old(drawn), now, SampleLimit());
        tiers == e.tiers && drawn == e.drawn && ok == e.victim.Some?
      ensures stats.nkeys <= old(stats.nkeys) && (ok ==> stats.nkeys < old(stats.nkeys))
      ensures Trimmed(old(Db()), Db(), now, !ok) && Drifts(old(tiers), tiers, {})
    {
      hide Consistent, WatchOk, Records, Lookup, Find, Trimmed, Without, Freed, Walk, Best, Purged, Fair, SumT,
        Drifts, Wellformed;
      CountersTell(p);
      RoundDrifts(settings.kernel, rand, tiers, drawn, now, SampleLimit());
      if stats.nkeys == 0 {
        TrimmedSelf(Db(), now, true);
        return false;
      }
      ghost var s, d := tiers, drawn;
      var best;
      ghost var got;
      best, got := SamplePick(now, p);
      if best.None? { return false; }
      var k := best.value.key;
      ghost var before := Db();
      SampleLinked(settings.kernel, rand, s, d, now, SampleLimit());
      CountersTell(p);
      HasHot(tiers);
      VictimFacts(tiers, k, now);
      FreeEntry(k, p);
      WatchWiden(conns, seen, since, Db(), p - {k}, p);
      WeakerTrim(old(Db()), before, now);
      TrimmedTwice(old(Db()), before, Db(), now, false);
      evicted := evicted + 1;
      return true;
    }

    /** Where the last eviction loop, from the state noted for it, had to end. */
    ghost function EvictEnd(now: nat, typed: bool): LoopEnd
      reads this`settings, this`leak, this`evictFrom, this`evictDraw
    {
      Rounds(PlanNow(), evictFrom, evictDraw, now, LoopGuard(typed, Total(evictFrom, Keys)))
    }

    /** The keyspace is where that loop ended. With fewer keys than the loop's bound it is
        within the limit, or the last round sampled nothing that could be evicted. */
    ghost predicate EvictedDown(now: nat, typed: bool)
      reads this`settings, this`leak, this`evictFrom, this`evictDraw, this`tiers, this`drawn, this`stats
    {
      var e := EvictEnd(now, typed);
      && tiers == e.tiers && drawn == e.drawn
      && (Total(evictFrom, Keys) < (if typed then 4096 else 1_000_000) ==> !Over() || e.starved)
    }

    /** A write of `full` ended with the eviction loop: it started from the keyspace with
        the write made, of at most n keys. */
    ghost predicate Settled(full: Db, n: nat, now: nat, typed: bool)
      reads this`settings, this`leak, this`evictFrom, this`evictDraw, this`tiers, this`drawn, this`stats
    {
      && EvictedDown(now, typed) && Total(evictFrom, Keys) <= n
      && Trimmed(full, Records(evictFrom), now, !typed || EvictionOff())
    }

    ghost function Fallible(k: Bytes, now: nat): set<Bytes>
      reads this
    {
      MayFall(tiers, settings.promoteOnGet, k, now)
    }

    ghost function Created(k: Bytes, now: nat): set<Bytes>
      reads this
    {
      MayStart(tiers, k, now)
    }

    /** maybe_evict, and its typed twin with the smaller bound. */
    method MaybeEvict(now: nat, typed: bool, ghost p: set<Bytes>)
      requires Inv(p)
      modifies `tiers, `stats, `hotNkeys, `coldNkeys, `conns, `expired, `evicted, `drawn, `evictFrom, `evictDraw
      ensures Inv(p) && Steady() && Trimmed(old(Db()), Db(), now, EvictionOff()) && Drifts(old(tiers), tiers, {})
      ensures EvictionOff() ==> tiers == old(tiers) && stats == old(stats) && conns == old(conns)
      ensures evictFrom == old(tiers) && evictDraw == old(drawn) && EvictedDown(now, typed)
      ensures stats.nkeys <= old(stats.nkeys)
    {
      hide Consistent, WatchOk, Records, Lookup, Trimmed, Round, Drifts, SumT;
      CountersTell(p);
      evictFrom, evictDraw := tiers, drawn;
      var guard := 0;
      var limit := LoopGuard(typed, stats.nkeys);
      TrimmedSelf(Db(), now, EvictionOff());
      DriftsSelf(tiers, {});
      LoopReaches(PlanNow(), tiers, drawn, now, limit);
      while Over() && guard < limit
        invariant Inv(p) && Steady() && Trimmed(old(Db()), Db(), now, EvictionOff()) && Drifts(old(tiers), tiers, {})
        invariant EvictionOff() ==> tiers == old(tiers) && stats == old(stats) && conns == old(conns)
        invariant 0 <= guard <= limit && stats.nkeys <= old(stats.nkeys)
        invariant evictFrom == old(tiers) && evictDraw == old(drawn) && PlanNow() == old(PlanNow())
        invariant Over() == OverLimit(PlanNow(), tiers)
        invariant Rounds(PlanNow(), tiers, drawn, now, limit - guard)
               == Rounds(PlanNow(), old(tiers), old(drawn), now, limit)
        decreases limit - guard
      {
        ghost var before, s := Db(), tiers;
        guard := guard + 1;
        var ok := EvictOne(now, p);
        CountersTell(p);
        if !ok { WeakerTrim(before, Db(), now); }
        TrimmedTwice(old(Db()), before, Db(), now, false);
        DriftsOn(old(tiers), s, tiers, {}, {}, {});
        if !ok { return; }
      }
    }

    // ----- writing one key -----

    /** Link a new entry at the head of its hot bucket. */
    method LinkNew(k: Bytes, e: Entry, ghost p: set<Bytes>)
      requires Inv(p) && Lookup(tiers, k).None? && Sound(e.value) && Neat(e.value, k, leak.unruly)
      requires e.expireAt == 0 && !e.pinned
      modifies `tiers, `stats, `hotNkeys, `since, `leak
      ensures leak == Marking(old(leak), k, e)
      ensures Named(iset{k}) && Inv(p + {k}) && Db() == old(Db())[k := RecOf(e)] && Drifts(old(tiers), tiers, {k})
      ensures Lookup(tiers, k) == Some(e) && stats == Linked(old(stats), k, e)
    {
      hide Consistent, WatchOk, Records, Lookup, Find, AddHot, Linked, RecOf, Sound, Drifts, Wellformed;
      CountersTell(p);
      AddHotDrifts(tiers, k, e);
      ConsistentLinked(layout, tiers, hotNkeys, coldNkeys, stats, leak, k, e);
      WriteWithin(conns, seen, since, Db(), p, k, RecOf(e));
      tiers, stats, since := AddHot(tiers, k, e), Linked(stats, k, e), Naming(since, k);
      leak := Marking(leak, k, e);
      if layout.HotCold? { hotNkeys := hotNkeys + 1; }
    }

    /** A hook may or may not note the time. */
    twostate predicate Hooked(k: Bytes, f: nat)
      reads this
    {
      && old(clock) <= clock && k in old(leak.marks) && k in leak.marks
      && leak == old(leak).(marks := old(leak.marks)[k := leak.marks[k]]) && leak.marks[k].freq == f
      && (leak.marks[k].last == old(leak.marks[k].last) || old(clock) < leak.marks[k].last <= clock)
    }

    /** The kernel's on_get or on_set hook. */
    method Hook(k: Bytes, read: bool, ghost p: set<Bytes>)
      requires Inv(p) && k in Db()
      modifies `tiers, `stats, `clock, `leak
      ensures Inv(p) && Db() == old(Db()) && stats == old(stats) && Drifts(old(tiers), tiers, {})
      ensures Hooked(k, if read then HitFreq(settings.kernel, FreqOf(old(leak.marks), k))
                        else WriteFreq(settings.kernel, FreqOf(old(leak.marks), k)))
    {
      hide Consistent, WatchOk, Records, Lookup, Find, OnGet, OnSet, Adjusted, RecOf, Sound, Drifts, HitFreq, WriteFreq;
      RecordAt(tiers, k);
      ConsistentEnough(layout, tiers, hotNkeys, coldNkeys, stats, leak, k);
      var e := Lookup(tiers, k).value;
      HookKeeps(settings.kernel, e, clock);
      HookNotes(settings.kernel, e, clock);
      var (f, c) := if read then OnGet(settings.kernel, e, clock) else OnSet(settings.kernel, e, clock);
      SameAdjusted(stats, k, e, f);
      Rewrite(k, f, stats, p);
      clock := c;
    }

    /** ar_entry_set_ex: SET with an absolute deadline (0 for none). */
    method SetEx(k: Bytes, v: Bytes, deadline: nat, now: nat)
      requires Valid()
      modifies this
      ensures Valid() && Kept() && Named(iset{k}) && Drifts(old(tiers), tiers, old(Fallible(k, now)))
      ensures Noted(Touch(k, WriteFreq(settings.kernel, PriorFreq(old(leak.marks), old(Db()), k, now))))
      ensures var was := Get(old(Db()), k, now);
        var full := old(Db())[k := Rec(DStr(v), deadline, was.Some? && was.value.pinned)];
        Trimmed(full, Db(), now, EvictionOff()) && Settled(full, old(stats.nkeys) + 1, now, false)
    {
      hide Consistent, WatchOk, Records, Lookup, Find, Trimmed, Get, Wellformed, AllSound, Drifts, EvictEnd;
      ghost var before, w, s := Db(), Fallible(k, now), tiers;
      var found, cold := FindLive(k, now, {});
      if found.Some? {
        Overwrite(k, v, deadline, cold, found.value);
        TrimmedSelf(Db(), now, true);
      } else {
        DropThenPut(before, k, Rec(DStr(v), deadline, false));
        DriftsWiden(s, tiers, {}, w);
        AddNew(k, v, deadline, now, s);
        TrimmedSelf(Db(), now, true);
      }
      ghost var t := tiers;
      KeyTotal({k});
      Finish(k, now, false);
      DriftsOn(s, t, tiers, w, {}, w);
    }

    /** The counter of keys, from the tables. */
    lemma KeyTotal(p: set<Bytes>)
      requires Inv(p)
      ensures Total(tiers, Keys) == stats.nkeys
    {
      CountersTell(p);
    }

    /** A new string key, up to its eviction. */
    method AddNew(k: Bytes, v: Bytes, deadline: nat, now: nat, ghost s: Tiers)
      requires Valid() && Lookup(tiers, k).None? && Drifts(s, tiers, {k})
      modifies `tiers, `stats, `clock, `hotNkeys, `coldNkeys, `drawn, `since, `leak
      ensures Noted(Touch(k, WriteFreq(settings.kernel, 5)))
      ensures Named(iset{k}) && Inv({k}) && Db() == old(Db())[k := Rec(DStr(v), deadline, false)]
      ensures stats.nkeys == old(stats.nkeys) + 1 && Drifts(s, tiers, {k})
    {
      hide Consistent, WatchOk, Records, Lookup, Find, Drifts, Wellformed;
      ghost var a := tiers;
      Create(k, v, deadline);
      ghost var b := tiers;
      KeyTotal({k});
      MaybeDemoteHot({k});
      ghost var c := tiers;
      RehashIfNeeded({k});
      KeyTotal({k});
      DriftsOn(s, a, b, {k}, {k}, {k});
      DriftsOn(s, b, c, {k}, {}, {k});
      DriftsOn(s, c, tiers, {k}, {}, {k});
    }

    /** The end of every write: evict down to the limit, then notify watchers. */
    method Finish(k: Bytes, now: nat, typed: bool)
      requires Inv({k})
      modifies `tiers, `stats, `hotNkeys, `coldNkeys, `conns, `expired, `evicted, `drawn, `evictFrom, `evictDraw,
        `since
      ensures Valid() && Steady() && Named(iset{k}) && Drifts(old(tiers), tiers, {})
      ensures Trimmed(old(Db()), Db(), now, EvictionOff())
      ensures EvictionOff() ==> tiers == old(tiers)
      ensures evictFrom == old(tiers) && EvictedDown(now, typed)
    {
      hide Consistent, WatchOk, Records, Trimmed, Drifts, EvictEnd;
      MaybeEvict(now, typed, {k});
      Notify(k, {k});
      assert {k} - {k} == {};
    }

    /** SET over a live entry, up to its eviction hook. */
    method Overwrite(k: Bytes, v: Bytes, deadline: nat, cold: bool, e: Entry)
      requires Valid() && Lookup(tiers, k) == Some(e) && cold == Find(tiers.hot, k).None?
      modifies `tiers, `stats, `clock, `hotNkeys, `coldNkeys, `drawn, `leak
      ensures Noted(Touch(k, WriteFreq(settings.kernel, FreqOf(old(leak.marks), k))))
      ensures Inv({k}) && Db() == old(Db())[k := Rec(DStr(v), deadline, e.pinned)]
      ensures stats.nkeys == old(stats.nkeys)
      ensures Drifts(old(tiers), tiers, if settings.promoteOnGet && cold then {k} else {})
    {
      hide Consistent, WatchOk, Records, Lookup, Find, Adjusted, Overwritten, Drifts;
      SameKeyCount(stats, k, e, v, deadline);
      ConsistentEnough(layout, tiers, hotNkeys, coldNkeys, stats, leak, k);
      OverwrittenAdjusts(stats, k, e, v, deadline);
      clock := clock + 1;
      var f := e.(value := StrV(v), lastAccess := clock, expireAt := deadline);
      assert Adjusted(stats, Overwritten(stats, k, e, v, deadline), k, e, f) by {
        LaterAdjusts(stats, Overwritten(stats, k, e, v, deadline), k, e, f, clock);
      }
      Rewrite(k, f, Overwritten(stats, k, e, v, deadline), {});
      assert {} + {k} == {k};
      TouchSet(k, cold, old(tiers));
    }

    /** The end of a write to a live string: a cold key moves to the hot tier, and the
        kernel's hook runs. */
    method TouchSet(k: Bytes, cold: bool, ghost s: Tiers)
      requires Inv({k}) && Lookup(tiers, k).Some? && cold == Find(tiers.hot, k).None? && Drifts(s, tiers, {})
      modifies `tiers, `stats, `clock, `hotNkeys, `coldNkeys, `drawn, `leak
      ensures Hooked(k, WriteFreq(settings.kernel, FreqOf(old(leak.marks), k)))
      ensures Inv({k}) && Db() == old(Db()) && stats == old(stats)
      ensures Drifts(s, tiers, if settings.promoteOnGet && cold then {k} else {})
    {
      hide Consistent, WatchOk, Records, Lookup, Find, Drifts;
      PresentAt(tiers, k);
      ConsistentEnough(layout, tiers, hotNkeys, coldNkeys, stats, leak, k);
      ghost var m := leak.marks;
      ghost var w: set<Bytes> := if settings.promoteOnGet && cold then {k} else {};
      ghost var a := tiers;
      DriftsSelf(a, w);
      if layout.HotCold? && cold { TouchGet(k, cold, {k}); }
      ghost var b := tiers;
      Hook(k, false, {k});
      assert leak.marks == m[k := leak.marks[k]];
      DriftsOn(s, a, b, {}, w, w);
      DriftsOn(s, b, tiers, w, {}, w);
    }

    /** SET of a key that is not there, up to its eviction hook. */
    method Create(k: Bytes, v: Bytes, deadline: nat)
      requires Valid() && Lookup(tiers, k).None?
      modifies `tiers, `stats, `clock, `hotNkeys, `since, `leak
      ensures Noted(Touch(k, WriteFreq(settings.kernel, 5)))
      ensures Named(iset{k}) && Inv({k}) && Db() == old(Db())[k := Rec(DStr(v), deadline, false)]
      ensures stats.nkeys == old(stats.nkeys) + 1 && Drifts(old(tiers), tiers, {k})
    {
      hide Consistent, WatchOk, Records, Lookup, Find, Adjusted, Linked, SetExpire, Drifts;
      clock := clock + 1;
      var e := Entry(StrV(v), clock, 5, false, 0);
      OneMoreKey(stats, k, e, deadline);
      LinkNew(k, e, {});
      ghost var a := tiers;
      assert {} + {k} == {k};
      ConsistentEnough(layout, tiers, hotNkeys, coldNkeys, stats, leak, k);
      SetExpireAdjusts(stats, k, e, deadline);
      Rewrite(k, e.(expireAt := deadline), SetExpire(stats, 0, deadline), {k});
      ghost var b := tiers;
      assert {k} + {k} == {k};
      Hook(k, false, {k});
      DriftsOn(old(tiers), a, b, {k}, {}, {k});
      DriftsOn(old(tiers), b, tiers, {k}, {}, {k});
    }

    // ----- string and key commands -----

    /** SET with its options. */
    method Set(k: Bytes, v: Bytes, guard: Guard, ttl: Ttl, now: nat) returns (r: Reply)
      requires Valid()
      modifies this
      ensures Valid() && Kept() && Drifts(old(tiers), tiers, old(Fallible(k, now)))
      ensures Follows(old(Db()), Command.Set(k, v, guard, ttl), now, EvictionOff(), Db(), r)
      ensures Began(Stirred(old(Db()), Command.Set(k, v, guard, ttl), now))
      ensures Noted(UseOf(settings.kernel, old(leak.marks), old(Db()), Command.Set(k, v, guard, ttl), now, r))
      ensures r == Ok ==>
        Settled(Step(old(Db()), Command.Set(k, v, guard, ttl), now).0, old(stats.nkeys) + 1, now, false)
    {
      hide Consistent, WatchOk, Records, Lookup, Find, Trimmed, Get, Drifts, Settled, Step, Stirred, Follows, OnKey;
      Begin({});
      ghost var before, s, w := Db(), tiers, Fallible(k, now);
      ghost var cmd := Command.Set(k, v, guard, ttl);
      SetForm(k, v, guard, ttl, Get(before, k, now), now);
      StepOnKey(before, cmd, now);
      TrimmedSelf(before, now, EvictionOff());
      DriftsSelf(s, w);
      if ttl.At? && ttl.when.n <= 0 {
        FollowsBy(before, cmd, now, EvictionOff(), Db(), Fail(BadExpireTime));
        return Fail(BadExpireTime);
      }
      var e, cold := FindLive(k, now, {});
      DriftsWiden(s, tiers, {}, w);
      if e.None? {
        TrimmedAbsent(before, k, now, EvictionOff());
        GetDropped(before, k, now);
      }
      if (guard.IfAbsent? && e.Some?) || (guard.IfPresent? && e.None?) {
        FollowsBy(before, cmd, now, EvictionOff(), Db(), Nil);
        return Nil;
      }
      var deadline := match ttl
        case Forget => 0
        case Keep => if e.Some? then e.value.expireAt else 0
        case At(w) => match Deadline(w, now) case Some(d) => d case None => 0;
      DropThenPut(before, k, Rec(DStr(v), deadline, false));
      ghost var t, n, u := tiers, stats.nkeys, Fallible(k, now);
      SetEx(k, v, deadline, now);
      DriftsOn(s, t, tiers, w, u, w);
      SettledMore(Db(), n + 1, old(stats.nkeys) + 1, now, false);
      FollowsBy(before, cmd, now, EvictionOff(), Db(), Ok);
      WriteStirs(before, cmd, now);
      return Ok;
    }

    /** A looser count of keys. */
    lemma SettledMore(full: Db, n: nat, m: nat, now: nat, typed: bool)
      requires n <= m
      ensures forall db :: Settled(db, n, now, typed) ==> Settled(db, m, now, typed)
    {
    }

    /** GET: a hit is noted and may promote the key. */
    method Read(k: Bytes, now: nat) returns (r: Reply)
      requires Valid()
      modifies this
      ensures Valid() && Kept() && Drifts(old(tiers), tiers, old(Fallible(k, now)))
      ensures Follows(old(Db()), Command.Read(k), now, true, Db(), r)
      ensures Began(Stirred(old(Db()), Command.Read(k), now))
      ensures Noted(UseOf(settings.kernel, old(leak.marks), old(Db()), Command.Read(k), now, r))
    {
      hide Consistent, WatchOk, Records, Lookup, Find, Trimmed, Get, Drifts, HitFreq, WriteFreq, Step,
        Follows;
      Begin({});
      ghost var before, s, w := Db(), tiers, Fallible(k, now);
      TrimmedSelf(before, now, true);
      var e, cold := FindLive(k, now, {});
      DriftsWiden(s, tiers, {}, w);
      if e.None? {
        TrimmedAbsent(before, k, now, true);
        FollowsBy(before, Command.Read(k), now, true, Db(), Nil);
        return Nil;
      }
      r := if e.value.value.StrV? then Bulk(e.value.value.bytes) else Fail(WrongType);
      FollowsBy(before, Command.Read(k), now, true, before, r);
      if !e.value.value.StrV? { return; }
      PresentAt(tiers, k);
      TouchGet(k, cold, {});
      ghost var t := tiers;
      Hook(k, true, {});
      DriftsOn(s, t, tiers, w, {}, w);
    }

    /** DEL of one key. */
    method Del(k: Bytes, now: nat) returns (r: Reply)
      requires Valid()
      modifies this
      ensures Valid() && Steady() && Drifts(old(tiers), tiers, {})
      ensures Follows(old(Db()), Command.Del(k), now, true, Db(), r)
      ensures Began(Stirred(old(Db()), Command.Del(k), now))
    {
      hide Consistent, WatchOk, Records, Lookup, Find, Trimmed, Get, Without, Freed, Drifts;
      Begin({});
      ghost var before := Db();
      var e, cold := FindLive(k, now, {});
      if e.None? {
        TrimmedAbsent(before, k, now, true);
        return Int(0);
      }
      FreeEntry(k, {});
      TrimmedSelf(Db(), now, true);
      assert {} - {k} == {};
      return Int(1);
    }

    /** APPEND: creates the key if missing, keeps its deadline otherwise. */
    method Append(k: Bytes, v: Bytes, now: nat) returns (r: Reply)
      requires Valid()
      modifies this
      ensures Valid() && Kept() && Drifts(old(tiers), tiers, old(Fallible(k, now)))
      ensures Follows(old(Db()), Command.Append(k, v), now, EvictionOff(), Db(), r)
      ensures Began(Stirred(old(Db()), Command.Append(k, v), now))
      ensures Noted(UseOf(settings.kernel, old(leak.marks), old(Db()), Command.Append(k, v), now, r))
      ensures r != Fail(WrongType) && (|v| > 0 || old(Get(Db(), k, now)).None?) ==>
        Settled(Step(old(Db()), Command.Append(k, v), now).0, old(stats.nkeys) + 1, now, false)
    {
      hide Consistent, WatchOk, Records, Lookup, Find, Trimmed, Get, Drifts, Settled, Follows, WriteFreq, FreqOf;
      Begin({});
      ghost var before, s, w := Db(), tiers, Fallible(k, now);
      ghost var cmd := Command.Append(k, v);
      TrimmedSelf(before, now, EvictionOff());
      var e, cold := FindLive(k, now, {});
      DriftsWiden(s, tiers, {}, w);
      if e.None? {
        GetDropped(before, k, now);
        ghost var t, n := tiers, stats.nkeys;
        r := AppendNew(k, v, now);
        DriftsOn(s, t, tiers, w, {k}, w);
        DropThenPut(before, k, Rec(DStr(v), 0, false));
        FollowsBy(before, cmd, now, EvictionOff(), Db(), r);
        SettledMore(Db(), n + 1, old(stats.nkeys) + 1, now, false);
        return;
      }
      r := AppendAt(k, v, now, cold, e.value);
      if e.value.value.StrV? && |v| > 0 { AppendStirs(before, k, v, now); }
    }

    lemma AppendStirs(db: Db, k: Bytes, v: Bytes, now: nat)
      requires |v| > 0 && Get(db, k, now).Some? && Get(db, k, now).value.data.DStr?
      ensures k in Stirred(db, Command.Append(k, v), now)
    {
    }

    /** APPEND to a live key. */
    method AppendAt(k: Bytes, v: Bytes, now: nat, cold: bool, e: Entry) returns (r: Reply)
      requires Valid() && Lookup(tiers, k) == Some(e) && cold == Find(tiers.hot, k).None?
      requires Get(Db(), k, now) == Some(RecOf(e))
      modifies this
      ensures Valid() && Kept() && Drifts(old(tiers), tiers, old(Fallible(k, now)))
      ensures Named(if e.value.StrV? && |v| > 0 then iset{k} else iset{})
      ensures Follows(old(Db()), Command.Append(k, v), now, EvictionOff(), Db(), r)
      ensures Noted(UseOf(settings.kernel, old(leak.marks), old(Db()), Command.Append(k, v), now, r))
      ensures r != Fail(WrongType) && |v| > 0 ==>
        Settled(Step(old(Db()), Command.Append(k, v), now).0, old(stats.nkeys) + 1, now, false)
    {
      hide Consistent, WatchOk, Records, Lookup, Find, Trimmed, Get, Drifts, Settled, Follows, WriteFreq, FreqOf;
      ghost var before := Db();
      ghost var cmd := Command.Append(k, v);
      TrimmedSelf(before, now, EvictionOff());
      DriftsSelf(tiers, Fallible(k, now));
      if !e.value.StrV? {
        FollowsBy(before, cmd, now, EvictionOff(), Db(), Fail(WrongType));
        return Fail(WrongType);
      }
      var prior := e.value.bytes;
      r := Int(|prior| + |v|);
      if |v| == 0 {
        assert prior + v == prior;
        PresentAt(tiers, k);
        SameWrite(before, k, RecOf(e));
        FollowsBy(before, cmd, now, EvictionOff(), Db(), r);
        return;
      }
      AppendOnto(k, v, now, cold, e);
      FollowsBy(before, cmd, now, EvictionOff(), Db(), r);
      SettledMore(Db(), old(stats.nkeys), old(stats.nkeys) + 1, now, false);
    }

    /** APPEND to a live string. */
    method AppendOnto(k: Bytes, v: Bytes, now: nat, cold: bool, e: Entry)
      requires Valid() && Lookup(tiers, k) == Some(e) && cold == Find(tiers.hot, k).None? && e.value.StrV?
      modifies this
      ensures Valid() && Kept() && Named(iset{k})
      ensures Noted(Touch(k, WriteFreq(settings.kernel, FreqOf(old(leak.marks), k))))
      ensures Drifts(old(tiers), tiers, if settings.promoteOnGet && cold then {k} else {})
      ensures var full := old(Db())[k := Rec(DStr(e.value.bytes + v), e.expireAt, e.pinned)];
        Trimmed(full, Db(), now, EvictionOff()) && Settled(full, old(stats.nkeys), now, false)
    {
      hide Consistent, WatchOk, Records, Lookup, Find, Trimmed, Drifts, EvictEnd;
      ghost var s := tiers;
      ghost var w: set<Bytes> := if settings.promoteOnGet && cold then {k} else {};
      Amend(k, e, StrV(e.value.bytes + v), true, {});
      assert {} + {k} == {k};
      TouchSet(k, cold, s);
      ghost var t := tiers;
      KeyTotal({k});
      TrimmedSelf(Db(), now, true);
      Finish(k, now, false);
      DriftsOn(s, t, tiers, w, {}, w);
    }

    method AppendNew(k: Bytes, v: Bytes, now: nat) returns (r: Reply)
      requires Valid() && Get(Db(), k, now).None?
      modifies this
      ensures Noted(Touch(k, WriteFreq(settings.kernel, 5)))
      ensures Valid() && Kept() && Named(iset{k}) && Drifts(old(tiers), tiers, {k})
      ensures var full := old(Db())[k := Rec(DStr(v), 0, false)];
        Trimmed(full, Db(), now, EvictionOff()) && Settled(full, old(stats.nkeys) + 1, now, false)
      ensures r == Int(|v|) || (!EvictionOff() && r == Fail(OutOfMemory))
    {
      hide Consistent, WatchOk, Records, Lookup, Find, Trimmed, Drifts, Settled, Get;
      ghost var s := tiers;
      ghost var full := Db()[k := Rec(DStr(v), 0, false)];
      SetEx(k, v, 0, now);
      ghost var part := Db();
      if EvictionOff() { TrimmedGet(full, part, k, now); }
      if Get(part, k, now).Some? { TrimmedValue(full, part, k, now, EvictionOff()); }
      NeverDue(tiers, full, k, now, EvictionOff());
      assert full[k].deadline == 0;
      PutGet(full, k, now);
      LookupGet(tiers, k, now);
      var e, cold := FindLive(k, now, {});
      if e.Some? && e.value.value.StrV? {
        r := Int(|e.value.value.bytes|);
      } else {
        r := Fail(OutOfMemory);
      }
    }

    /** A value rewritten in place and its key recharged. */
    method Amend(k: Bytes, e: Entry, v: Value, touch: bool, ghost p: set<Bytes>)
      requires Inv(p) && Lookup(tiers, k) == Some(e) && Sound(v) && KindOf(v) == KindOf(e.value)
      requires Neat(v, k, leak.unruly)
      modifies `tiers, `stats, `clock, `leak
      ensures Noted(if touch then Touch(k, FreqOf(old(leak.marks), k)) else Nothing)
      ensures Inv(p + {k}) && Db() == old(Db())[k := Rec(Seen(v), e.expireAt, e.pinned)]
      ensures v == e.value ==> Inv(p) && Db() == old(Db())
      ensures Find(tiers.hot, k).None? == old(Find(tiers.hot, k).None?)
      ensures Lookup(tiers, k).Some? && Lookup(tiers, k).value.value == v
      ensures stats.nkeys == old(stats.nkeys) && Drifts(old(tiers), tiers, {})
    {
      hide Consistent, WatchOk, Records, Lookup, Find, Adjusted, Recharged, Sound, Drifts;
      RechargedKeyCount(stats, KindOf(e.value), Payload(e.value), Payload(v));
      ConsistentEnough(layout, tiers, hotNkeys, coldNkeys, stats, leak, k);
      if touch { clock := clock + 1; }
      var f := e.(value := v, lastAccess := if touch then clock else e.lastAccess);
      RechargedAdjusts(stats, k, e, f);
      Rewrite(k, f, Recharged(stats, KindOf(e.value), Payload(e.value), Payload(v)), p);
    }

    /** RENAME and RENAMENX: any type, deadline and pin move along; a live or due
        destination is freed. */
    method Rename(k: Bytes, nk: Bytes, nx: bool, now: nat) returns (r: Reply)
      requires Valid()
      modifies this
      ensures Valid() && Kept() && Drifts(old(tiers), tiers, {nk})
      ensures leak.unruly == old(leak).unruly || leak.unruly == Unruled(old(leak).unruly, k, nk)
      ensures leak.bytes == old(leak).bytes && leak.pins == old(leak).pins
      ensures Notes(old(leak.marks), old(clock), leak.marks, clock,
                    UseOf(settings.kernel, old(leak.marks), old(Db()), Command.Rename(k, nk, nx), now, r))
      ensures Follows(old(Db()), Command.Rename(k, nk, nx), now, EvictionOff(), Db(), r)
      ensures Began(Stirred(old(Db()), Command.Rename(k, nk, nx), now))
      ensures k != nk && r == (if nx then Int(1) else Ok) ==>
        Settled(Step(old(Db()), Command.Rename(k, nk, nx), now).0, old(stats.nkeys), now, false)
    {
      hide Consistent, WatchOk, Records, Lookup, Find, Trimmed, Get, Drifts, Settled;
      Begin({});
      ghost var before, s := Db(), tiers;
      TrimmedSelf(before, now, EvictionOff());
      var e, cold := FindLive(k, now, {});
      DriftsWiden(s, tiers, {}, {nk});
      if e.None? {
        TrimmedAbsent(before, k, now, EvictionOff());
        return Fail(NoSuchKey);
      }
      r := if nx then Int(1) else Ok;
      if k == nk { return; }
      PresentAt(tiers, k);
      var dest, destCold := FindLive(nk, now, {});
      DriftsWiden(s, tiers, {}, {nk});
      if dest.Some? && nx { return Int(0); }
      RecordAt(tiers, k);
      ghost var t, n := tiers, stats.nkeys;
      RenameOnto(k, nk, dest.Some?, now);
      DriftsOn(s, t, tiers, {nk}, {nk}, {nk});
      RenameDb(before, k, nk, RecOf(e.value));
      SettledMore(Db(), n, old(stats.nkeys), now, false);
    }

    method RenameOnto(k: Bytes, nk: Bytes, occupied: bool, now: nat)
      requires Valid() && k != nk && Lookup(tiers, k).Some? && occupied == Lookup(tiers, nk).Some?
      modifies this
      ensures Valid() && Kept() && Named(iset{k, nk}) && Drifts(old(tiers), tiers, {nk})
      ensures leak == old(leak).(unruly := Unruled(old(leak).unruly, k, nk), marks := leak.marks)
      ensures Notes(old(leak.marks), old(clock), leak.marks, clock,
                    Touch(nk, WriteFreq(settings.kernel, FreqOf(old(leak.marks), k))))
      ensures var full := (old(Db()) - {k} - {nk})[nk := RecOf(old(Lookup(tiers, k).value))];
        Trimmed(full, Db(), now, EvictionOff()) && Settled(full, old(stats.nkeys), now, false)
    {
      hide Consistent, WatchOk, Records, Lookup, Find, Trimmed, Without, Freed, Drifts, EvictEnd, Settled, Unruled,
        RecOf, WriteFreq, FreqOf;
      ghost var before, s := Db(), tiers;
      assert k in before by { RecordAt(tiers, k); }
      assert !occupied ==> before - {nk} == before by { RecordAt(tiers, nk); }
      DriftsSelf(s, {nk});
      if occupied {
        FreeEntry(nk, {});
        assert {} - {nk} == {};
        DriftsWiden(s, tiers, {}, {nk});
      }
      assert Lookup(tiers, k) == old(Lookup(tiers, k));
      MoveOnto(k, nk, now, s);
      assert before - {nk} - {k} == before - {k} - {nk};
      ghost var n := stats.nkeys;
      EvictAround(k, nk, now, s);
      SettledMore(Db(), n, old(stats.nkeys), now, false);
    }

    /** A rename to a free key, up to its eviction. */
    method MoveOnto(k: Bytes, nk: Bytes, now: nat, ghost s: Tiers)
      requires Valid() && k != nk && Lookup(tiers, k).Some? && Lookup(tiers, nk).None? && Drifts(s, tiers, {nk})
      modifies `tiers, `stats, `clock, `hotNkeys, `coldNkeys, `drawn, `leak, `since
      ensures Inv({k, nk}) && stats.nkeys == old(stats.nkeys) && Named(iset{nk}) && Drifts(s, tiers, {nk})
      ensures leak == old(leak).(unruly := Unruled(old(leak).unruly, k, nk), marks := leak.marks)
      ensures Notes(old(leak.marks), old(clock), leak.marks, clock,
                    Touch(nk, WriteFreq(settings.kernel, FreqOf(old(leak.marks), k))))
      ensures Db() == (old(Db()) - {k})[nk := RecOf(old(Lookup(tiers, k).value))]
    {
      hide Consistent, WatchOk, Records, Lookup, Find, Drifts, Unruled, RecOf, WriteFreq;
      ghost var a := tiers;
      Relabel(k, nk);
      ghost var b := tiers;
      DriftsOn(s, a, b, {nk}, {nk}, {nk});
      Settle(k, nk, now, s);
    }

    /** After the relabelling: the hook, the soft cap and the table sizes. */
    method Settle(k: Bytes, nk: Bytes, now: nat, ghost s: Tiers)
      requires Inv({k, nk}) && nk in Db() && Drifts(s, tiers, {nk})
      modifies `tiers, `stats, `clock, `hotNkeys, `coldNkeys, `drawn, `leak
      ensures Hooked(nk, WriteFreq(settings.kernel, FreqOf(old(leak.marks), nk)))
      ensures Inv({k, nk}) && Db() == old(Db()) && stats == old(stats) && Drifts(s, tiers, {nk})
    {
      hide Consistent, WatchOk, Records, Drifts;
      ghost var a := tiers;
      Hook(nk, false, {k, nk});
      ghost var b := tiers;
      MaybeDemoteHot({k, nk});
      ghost var c := tiers;
      RehashIfNeeded({k, nk});
      DriftsOn(s, a, b, {nk}, {}, {nk});
      DriftsOn(s, b, c, {nk}, {}, {nk});
      DriftsOn(s, c, tiers, {nk}, {}, {nk});
    }

    /** The eviction and the two notices at the end of a rename. */
    method EvictAround(k: Bytes, nk: Bytes, now: nat, ghost s: Tiers)
      requires Inv({k, nk}) && Drifts(s, tiers, {nk})
      modifies `tiers, `stats, `hotNkeys, `coldNkeys, `conns, `expired, `evicted, `drawn, `evictFrom, `evictDraw,
        `since
      ensures Valid() && Steady() && Named(iset{k, nk}) && Drifts(s, tiers, {nk})
      ensures Trimmed(old(Db()), Db(), now, EvictionOff()) && Settled(old(Db()), old(stats.nkeys), now, false)
    {
      hide Consistent, WatchOk, Records, Lookup, Find, Trimmed, Get, Drifts, EvictEnd;
      ghost var c := tiers;
      KeyTotal({k, nk});
      TrimmedSelf(Db(), now, true);
      MaybeEvict(now, false, {k, nk});
      DriftsOn(s, c, tiers, {nk}, {}, {nk});
      Notify(k, {k, nk});
      Notify(nk, {k, nk} - {k});
      assert {k, nk} - {k} - {nk} == {};
    }

    /** Move one entry to a free key in the hot tier. */
    method Relabel(k: Bytes, nk: Bytes)
      requires Valid() && k != nk && Lookup(tiers, k).Some? && Lookup(tiers, nk).None?
      modifies `tiers, `stats, `clock, `hotNkeys, `coldNkeys, `leak, `since
      ensures Inv({k, nk}) && nk in Db() && stats.nkeys == old(stats.nkeys) && Named(iset{nk})
      ensures leak == old(leak).(unruly := Unruled(old(leak).unruly, k, nk), marks := leak.marks)
      ensures Notes(old(leak.marks), old(clock), leak.marks, clock, Touch(nk, FreqOf(old(leak.marks), k)))
      ensures Db() == (old(Db()) - {k})[nk := RecOf(old(Lookup(tiers, k).value))] && Drifts(old(tiers), tiers, {nk})
    {
      hide Consistent, WatchOk, Records, Lookup, Find, Without, AddHot, Renamed, Drifts, Wellformed, Unruled, RecOf;
      RecOfRelinked(Lookup(tiers, k).value, clock + 1);
      clock := clock + 1;
      var e := Lookup(tiers, k).value;
      var f := e.(lastAccess := clock);
      CountersTell({});
      ConsistentEnough(layout, tiers, hotNkeys, coldNkeys, stats, leak, k);
      RelabelDrifts(tiers, k, nk, f);
      ConsistentRenamed(layout, tiers, hotNkeys, coldNkeys, stats, leak, k, nk, f);
      SameRenamed(stats, KindOf(f.value), |k|, |nk|);
      RelabelWatched(conns, seen, since, Db(), k, nk, RecOf(f));
      leak, since := Marking(leak.(unruly := Unruled(leak.unruly, k, nk)), nk, f), Naming(since, nk);
      if layout.HotCold? && Find(tiers.hot, k).None? { hotNkeys, coldNkeys := hotNkeys + 1, SatSub(coldNkeys, 1); }
      tiers, stats := AddHot(Without(tiers, k), nk, f), Renamed(stats, KindOf(f.value), |k|, |nk|);
    }

    /** EXPIRE, PEXPIRE, EXPIREAT, PEXPIREAT: an argument that is not positive
        removes the deadline. */
    method Expire(k: Bytes, when: When, now: nat) returns (r: Reply)
      requires Valid()
      modifies this
      ensures Valid() && Steady() && Drifts(old(tiers), tiers, {})
      ensures Follows(old(Db()), Command.Expire(k, when), now, true, Db(), r)
      ensures Began(Stirred(old(Db()), Command.Expire(k, when), now))
    {
      hide Drifts, Consistent, WatchOk, Records, Lookup, Find, Trimmed, Get, Adjusted, Sound, SetExpire;
      Begin({});
      ghost var before := Db();
      var found, cold := FindLive(k, now, {});
      if found.None? {
        TrimmedAbsent(before, k, now, true);
        return Int(0);
      }
      var e := found.value;
      var deadline := match Deadline(when, now) case Some(d) => d case None => 0;
      ConsistentEnough(layout, tiers, hotNkeys, coldNkeys, stats, leak, k);
      SetExpireAdjusts(stats, k, e, deadline);
      Rewrite(k, e.(expireAt := deadline), SetExpire(stats, e.expireAt, deadline), {});
      assert {} + {k} == {k};
      TrimmedSelf(Db(), now, true);
      Notify(k, {k});
      assert {k} - {k} == {};
      return Int(1);
    }

    /** TTL and PTTL. */
    method TimeLeft(k: Bytes, millis: bool, now: nat) returns (r: Reply)
      requires Valid()
      modifies this
      ensures Valid() && Steady() && Drifts(old(tiers), tiers, {})
      ensures Follows(old(Db()), Command.TimeLeft(k, millis), now, true, Db(), r)
      ensures Began(Stirred(old(Db()), Command.TimeLeft(k, millis), now))
    {
      hide Drifts, Consistent, WatchOk, Records, Lookup, Find, Trimmed, Get;
      Begin({});
      ghost var before := Db();
      TrimmedSelf(before, now, true);
      var e, cold := FindLive(k, now, {});
      if e.None? {
        TrimmedAbsent(before, k, now, true);
        return Int(-2);
      }
      if e.value.expireAt == 0 { return Int(-1); }
      return Int(if millis then e.value.expireAt - now else (e.value.expireAt - now + 999) / 1000);
    }

    /** PIN and UNPIN. */
    method Pin(k: Bytes, on: bool, now: nat) returns (r: Reply)
      requires Valid()
      modifies this
      ensures Valid() && Steady() && Drifts(old(tiers), tiers, {})
      ensures Follows(old(Db()), if on then Command.Pin(k) else Command.Unpin(k), now, true, Db(), r)
      ensures Began(Stirred(old(Db()), if on then Command.Pin(k) else Command.Unpin(k), now))
    {
      hide Drifts, Consistent, WatchOk, Records, Lookup, Find, Trimmed, Get, Sound;
      Begin({});
      ghost var before := Db();
      TrimmedSelf(before, now, true);
      var found, cold := FindLive(k, now, {});
      if found.None? {
        TrimmedAbsent(before, k, now, true);
        return Int(0);
      }
      var e := found.value;
      if e.pinned == on {
        PresentAt(tiers, k);
        SameWrite(before, k, RecOf(e));
        return Int(if on then 1 else 0);
      }
      ConsistentEnough(layout, tiers, hotNkeys, coldNkeys, stats, leak, k);
      assert CounterOf(stats, Pins) >= Weight(Pins, k, e);
      Rewrite(k, e.(pinned := on),
              stats.(pinnedKeys := if on then stats.pinnedKeys + 1 else SatSub(stats.pinnedKeys, 1)), {});
      TrimmedSelf(Db(), now, true);
      return Int(1);
    }

    // ----- typed values -----

    /** ar_entry_get_or_create: a missing key gets an empty value of the wanted type;
        making room for it may evict it again. */
    method GetOrCreate(k: Bytes, kind: Kind, now: nat) returns (r: Handle)
      requires Valid()
      modifies this
      ensures Inv({k}) && Kept() && Named(if Get(old(Db()), k, now).None? then iset{k} else iset{})
      ensures Noted(if Get(old(Db()), k, now).None? then Touch(k, WriteFreq(settings.kernel, 5)) else Nothing)
      ensures Drifts(old(tiers), tiers, old(Created(k, now))) && stats.nkeys <= old(stats.nkeys) + 1
      ensures r.WrongKind? ==> Valid() && Db() == old(Db()) && Get(old(Db()), k, now).Some?
                               && DataKind(Get(old(Db()), k, now).value.data) != kind
      ensures r.Lost? ==> Valid() && !EvictionOff() && Get(old(Db()), k, now).None?
                          && Trimmed(old(Db()) - {k}, Db(), now, false)
      ensures r.Ready? ==> Lookup(tiers, k) == Some(r.entry) && KindOf(r.entry.value) == kind && Sound(r.entry.value)
                           && Neat(r.entry.value, k, leak.unruly)
      ensures r.Ready? ==> match Get(old(Db()), k, now)
        case Some(rec) => Valid() && Db() == old(Db()) && rec == RecOf(r.entry)
        case None => RecOf(r.entry) == Rec(NewData(kind), 0, false)
                     && Trimmed(old(Db())[k := RecOf(r.entry)], Db(), now, EvictionOff())
    {
      hide Consistent, WatchOk, Records, Lookup, Find, Trimmed, Get, Sound, Drifts;
      ghost var s, w := tiers, Created(k, now);
      var found, cold := FindLive(k, now, {});
      DriftsWiden(s, tiers, {}, w);
      if found.Some? {
        ConsistentEnough(layout, tiers, hotNkeys, coldNkeys, stats, leak, k);
        WatchWiden(conns, seen, since, Db(), {}, {k});
        SeenKind(found.value.value);
        if KindOf(found.value.value) != kind { return WrongKind; }
        return Ready(found.value);
      }
      ghost var t := tiers;
      r := CreateTyped(k, kind, now);
      DriftsOn(s, t, tiers, w, {k}, w);
      GetDropped(old(Db()), k, now);
      DropThenPut(old(Db()), k, Rec(NewData(kind), 0, false));
    }

    method CreateTyped(k: Bytes, kind: Kind, now: nat) returns (r: Handle)
      requires Valid() && Lookup(tiers, k).None? && k !in Db()
      modifies this
      ensures Inv({k}) && Kept() && Drifts(old(tiers), tiers, {k}) && stats.nkeys <= old(stats.nkeys) + 1
      ensures Named(iset{k}) && Noted(Touch(k, WriteFreq(settings.kernel, 5)))
      ensures r.Lost? ==> Valid() && !EvictionOff() && Trimmed(old(Db()), Db(), now, false)
      ensures r.Ready? ==> Lookup(tiers, k) == Some(r.entry) && KindOf(r.entry.value) == kind && Sound(r.entry.value)
                           && Neat(r.entry.value, k, leak.unruly) && RecOf(r.entry) == Rec(NewData(kind), 0, false)
                           && Trimmed(old(Db())[k := RecOf(r.entry)], Db(), now, EvictionOff())
      ensures !r.WrongKind?
    {
      hide Consistent, WatchOk, Records, Lookup, Find, Trimmed, Get, Sound, Drifts, EvictedDown;
      ghost var clients, before, s, began := conns, Db(), tiers, since;
      var e := LinkTyped(k, kind);
      ghost var full, a := Db(), tiers;
      TrimmedSelf(full, now, EvictionOff());
      MaybeEvict(now, true, {k});
      ghost var b := tiers;
      DriftsOn(s, a, b, {k}, {}, {k});
      r := Reread(k, kind, now, full);
      DriftsOn(s, b, tiers, {k}, {}, {k});
      if r.Lost? {
        LostFacts(before, k, RecOf(e), Db(), now);
        Reverted(clients, conns, seen, began, since, before, Db(), k);
      }
    }

    /** A new empty typed key, up to its eviction. */
    method LinkTyped(k: Bytes, kind: Kind) returns (e: Entry)
      requires Valid() && Lookup(tiers, k).None?
      modifies `tiers, `stats, `clock, `hotNkeys, `since, `leak
      ensures Noted(Touch(k, WriteFreq(settings.kernel, 5)))
      ensures Named(iset{k}) && Inv({k}) && stats.nkeys == old(stats.nkeys) + 1 && Drifts(old(tiers), tiers, {k})
      ensures RecOf(e) == Rec(NewData(kind), 0, false) && Db() == old(Db())[k := RecOf(e)]
    {
      hide Consistent, WatchOk, Records, Lookup, Find, Sound, Drifts, Linked;
      ghost var s := tiers;
      clock := clock + 1;
      e := Entry(NewValue(kind), clock, 5, false, 0);
      NewIs(kind);
      OneMoreLinked(stats, k, e);
      LinkNew(k, e, {});
      assert {} + {k} == {k};
      ghost var a := tiers;
      Hook(k, false, {k});
      ghost var b := tiers;
      RehashIfNeeded({k});
      DriftsOn(s, a, b, {k}, {}, {k});
      DriftsOn(s, b, tiers, {k}, {}, {k});
    }

    /** The re-find after a key was created. */
    method Reread(k: Bytes, kind: Kind, now: nat, ghost full: Db) returns (r: Handle)
      requires Inv({k}) && k in full && full[k] == Rec(NewData(kind), 0, false)
      requires Trimmed(full, Db(), now, EvictionOff())
      modifies this
      ensures Inv({k}) && Steady() && Named(iset{}) && !r.WrongKind? && Trimmed(full, Db(), now, EvictionOff())
      ensures Drifts(old(tiers), tiers, {}) && stats.nkeys <= old(stats.nkeys)
      ensures r.Lost? ==> !EvictionOff() && k !in Db()
      ensures r.Ready? ==> Lookup(tiers, k) == Some(r.entry) && KindOf(r.entry.value) == kind && Sound(r.entry.value)
                           && Neat(r.entry.value, k, leak.unruly) && RecOf(r.entry) == full[k]
    {
      hide Consistent, WatchOk, Records, Lookup, Find, Sound, Drifts;
      ghost var part := Db();
      var found, cold := FindLive(k, now, {k});
      if found.Some? {
        ConsistentEnough(layout, tiers, hotNkeys, coldNkeys, stats, leak, k);
        SeenKind(found.value.value);
        SeenKind(NewValue(kind));
        NewIs(kind);
        return Ready(found.value);
      }
      TrimmedAbsent(part, k, now, EvictionOff());
      TrimmedTwice(full, part, Db(), now, EvictionOff());
      return Lost;
    }

    /** The end of a command that writes a typed value. */
    method Replace(k: Bytes, e: Entry, v: Value, now: nat, ghost full: Db)
      requires Inv({k}) && Lookup(tiers, k) == Some(e) && Sound(v) && KindOf(v) == KindOf(e.value)
      requires Neat(v, k, leak.unruly)
      requires Trimmed(full, Db(), now, EvictionOff())
      modifies this
      ensures Valid() && Kept() && Named(iset{k}) && Drifts(old(tiers), tiers, {})
      ensures Noted(Touch(k, FreqOf(old(leak.marks), k)))
      ensures var done := full[k := Rec(Seen(v), e.expireAt, e.pinned)];
        Trimmed(done, Db(), now, EvictionOff()) && Settled(done, old(stats.nkeys), now, true)
    {
      hide Consistent, WatchOk, Records, Lookup, Find, Trimmed, Sound, Drifts, EvictEnd;
      TrimmedOverwrite(full, Db(), k, Rec(Seen(v), e.expireAt, e.pinned), now, EvictionOff());
      Amend(k, e, v, true, {k});
      assert {k} + {k} == {k};
      ghost var amended, a := Db(), tiers;
      KeyTotal({k});
      Finish(k, now, true);
      DriftsOn(old(tiers), a, tiers, {}, {}, {});
      TrimmedTwice(full[k := Rec(Seen(v), e.expireAt, e.pinned)], amended, Db(), now, EvictionOff());
    }

    /** HSET. */
    method HSet(k: Bytes, pairs: seq<(Bytes, Bytes)>, now: nat) returns (r: Reply)
      requires Valid()
      modifies this
      ensures Valid() && Kept() && Drifts(old(tiers), tiers, old(Created(k, now)))
      ensures Follows(old(Db()), Command.HSet(k, pairs), now, EvictionOff(), Db(), r)
      ensures Began(Stirred(old(Db()), Command.HSet(k, pairs), now))
      ensures Noted(UseOf(settings.kernel, old(leak.marks), old(Db()), Command.HSet(k, pairs), now, r))
      ensures r.Int? && |pairs| > 0 ==>
        Settled(Step(old(Db()), Command.HSet(k, pairs), now).0, old(stats.nkeys) + 1, now, true)
    {
      hide Drifts, Settled, Consistent, WatchOk, Records, Lookup, Find, Trimmed, Get, Follows, SetFields, RecOf,
        Stirred, Step, OnKey, Sound;
      Begin({});
      ghost var before := Db();
      ghost var cmd := Command.HSet(k, pairs);
      ghost var s, w := tiers, Created(k, now);
      DriftsSelf(s, w);
      TrimmedSelf(before, now, EvictionOff());
      GrowingForms(cmd, Get(before, k, now), now);
      if |pairs| == 0 {
        FollowsBy(before, cmd, now, EvictionOff(), Db(), Int(0));
        return Int(0);
      }
      MissingStirs(before, cmd, now);
      var slot := GetOrCreate(k, KHash, now);
      match slot
      case WrongKind =>
        FollowsBy(before, cmd, now, EvictionOff(), Db(), Fail(WrongType));
        return Fail(WrongType);
      case Lost =>
        TrimmedLost(before, Db(), k, Rec(DHash(SetFields(map[], pairs)), 0, false), now);
        FollowsBy(before, cmd, now, EvictionOff(), Db(), Fail(OutOfMemory));
        return Fail(OutOfMemory);
      case Ready(e) =>
        ghost var t, n := tiers, stats.nkeys;
        ghost var full := if Get(before, k, now).Some? then before else before[k := RecOf(e)];
        r := SetInHash(k, pairs, now, e, before, full);
        CountStirs(before, cmd, now, EvictionOff(), Db(), r);
        DriftsOn(s, t, tiers, w, {}, w);
        SettledMore(Db(), n, old(stats.nkeys) + 1, now, true);
    }

    /** HSET once the hash is there. */
    method SetInHash(k: Bytes, pairs: seq<(Bytes, Bytes)>, now: nat, e: Entry, ghost before: Db, ghost full: Db)
      returns (r: Reply)
      requires Inv({k}) && Lookup(tiers, k) == Some(e) && |pairs| > 0 && e.value.HashV? && Sound(e.value)
      requires Handed(Get(before, k, now), e, KHash) && (full == before || full == before[k := RecOf(e)])
      requires Trimmed(full, Db(), now, EvictionOff())
      modifies this
      ensures Valid() && Kept() && Named(iset{k}) && Drifts(old(tiers), tiers, {})
      ensures Noted(Touch(k, FreqOf(old(leak.marks), k)))
      ensures Follows(before, Command.HSet(k, pairs), now, EvictionOff(), Db(), r) && r.Int?
      ensures Settled(Step(before, Command.HSet(k, pairs), now).0, old(stats.nkeys), now, true)
    {
      hide Step, Drifts, Settled, Consistent, WatchOk, Records, Lookup, Find, Trimmed, Get, Follows, SetFields,
        RecOf, Handed, OnKey;
      var v, added := SetHash(e.value, pairs);
      HSetEffect(Get(before, k, now), e, k, pairs, v, now);
      StepOnKey(before, Command.HSet(k, pairs), now);
      PutTwice(before, k, RecOf(e), Rec(Seen(v), e.expireAt, e.pinned));
      Replace(k, e, v, now, full);
      FollowsBy(before, Command.HSet(k, pairs), now, EvictionOff(), Db(), Int(added));
      return Int(added);
    }

    /** LPUSH and RPUSH. */
    method Push(k: Bytes, left: bool, vals: seq<Bytes>, now: nat) returns (r: Reply)
      requires Valid()
      modifies this
      ensures Valid() && Kept() && Drifts(old(tiers), tiers, old(Created(k, now)))
      ensures Follows(old(Db()), Command.Push(k, left, vals), now, EvictionOff(), Db(), r)
      ensures Began(Stirred(old(Db()), Command.Push(k, left, vals), now))
      ensures Noted(UseOf(settings.kernel, old(leak.marks), old(Db()), Command.Push(k, left, vals), now, r))
      ensures r.Int? && |vals| > 0 ==>
        Settled(Step(old(Db()), Command.Push(k, left, vals), now).0, old(stats.nkeys) + 1, now, true)
    {
      hide Drifts, Settled, Consistent, WatchOk, Records, Lookup, Find, Trimmed, Get, Follows, Lists.Pushed, RecOf,
        Stirred, Step, OnKey, Sound;
      Begin({});
      ghost var before := Db();
      ghost var cmd := Command.Push(k, left, vals);
      ghost var s, w := tiers, Created(k, now);
      DriftsSelf(s, w);
      TrimmedSelf(before, now, EvictionOff());
      GrowingForms(cmd, Get(before, k, now), now);
      if |vals| == 0 {
        FollowsBy(before, cmd, now, EvictionOff(), Db(), Int(0));
        return Int(0);
      }
      MissingStirs(before, cmd, now);
      var slot := GetOrCreate(k, KList, now);
      match slot
      case WrongKind =>
        FollowsBy(before, cmd, now, EvictionOff(), Db(), Fail(WrongType));
        return Fail(WrongType);
      case Lost =>
        TrimmedLost(before, Db(), k, Rec(DList(Lists.Pushed([], left, vals)), 0, false), now);
        FollowsBy(before, cmd, now, EvictionOff(), Db(), Fail(OutOfMemory));
        return Fail(OutOfMemory);
      case Ready(e) =>
        ghost var t, n := tiers, stats.nkeys;
        ghost var full := if Get(before, k, now).Some? then before else before[k := RecOf(e)];
        r := PushOnto(k, left, vals, now, e, before, full);
        CountStirs(before, cmd, now, EvictionOff(), Db(), r);
        DriftsOn(s, t, tiers, w, {}, w);
        SettledMore(Db(), n, old(stats.nkeys) + 1, now, true);
    }

    /** LPUSH and RPUSH once the list is there. The reply is the length before eviction. */
    method PushOnto(k: Bytes, left: bool, vals: seq<Bytes>, now: nat, e: Entry, ghost before: Db, ghost full: Db)
      returns (r: Reply)
      requires Inv({k}) && Lookup(tiers, k) == Some(e) && |vals| > 0 && e.value.ListV? && Sound(e.value)
      requires Handed(Get(before, k, now), e, KList) && (full == before || full == before[k := RecOf(e)])
      requires Trimmed(full, Db(), now, EvictionOff())
      modifies this
      ensures Valid() && Kept() && Named(iset{k}) && Drifts(old(tiers), tiers, {})
      ensures Noted(Touch(k, FreqOf(old(leak.marks), k)))
      ensures Follows(before, Command.Push(k, left, vals), now, EvictionOff(), Db(), r) && r.Int?
      ensures Settled(Step(before, Command.Push(k, left, vals), now).0, old(stats.nkeys), now, true)
    {
      hide Step, Drifts, Settled, Consistent, WatchOk, Records, Lookup, Find, Trimmed, Get, Follows, Lists.Pushed,
        RecOf, Handed, OnKey;
      var v := ListV(Lists.Pushed(e.value.items, left, vals));
      PushEffect(Get(before, k, now), e, k, left, vals, v, now);
      StepOnKey(before, Command.Push(k, left, vals), now);
      PutTwice(before, k, RecOf(e), Rec(Seen(v), e.expireAt, e.pinned));
      Replace(k, e, v, now, full);
      FollowsBy(before, Command.Push(k, left, vals), now, EvictionOff(), Db(), Int(|v.items|));
      return Int(|v.items|);
    }

    /** ZADD. The parser hands over at most 31 pairs. */
    method ZAdd(k: Bytes, batch: seq<Member>, now: nat) returns (r: Reply)
      requires Valid() && |batch| <= MAX_MEMBERS
      modifies this
      ensures Valid() && Kept() && Drifts(old(tiers), tiers, old(Created(k, now)))
      ensures leak.bytes == old(leak).bytes && leak.pins == old(leak).pins
      ensures leak.unruly == old(leak).unruly || (!Numbers(batch) && leak.unruly == old(leak).unruly + {k})
      ensures Notes(old(leak.marks), old(clock), leak.marks, clock,
                    UseOf(settings.kernel, old(leak.marks), old(Db()), Command.ZAdd(k, batch), now, r))
      ensures Follows(old(Db()), Command.ZAdd(k, batch), now, EvictionOff(), Db(), r)
      ensures Began(Stirred(old(Db()), Command.ZAdd(k, batch), now))
      ensures r.Int? && |batch| > 0 ==>
        Settled(Step(old(Db()), Command.ZAdd(k, batch), now).0, old(stats.nkeys) + 1, now, true)
    {
      hide Drifts, Settled, Consistent, WatchOk, Records, Lookup, Find, Trimmed, Get, Follows, AddedAll, CapAfter,
        PutAll, AddScores, RecOf, Stirred, Step, OnKey, Numbers, Sound;
      Begin({});
      ghost var before := Db();
      ghost var cmd := Command.ZAdd(k, batch);
      ghost var s, w := tiers, Created(k, now);
      DriftsSelf(s, w);
      TrimmedSelf(before, now, EvictionOff());
      GrowingForms(cmd, Get(before, k, now), now);
      if |batch| == 0 {
        FollowsBy(before, cmd, now, EvictionOff(), Db(), Int(0));
        return Int(0);
      }
      MissingStirs(before, cmd, now);
      var slot := GetOrCreate(k, KZSet, now);
      match slot
      case WrongKind =>
        FollowsBy(before, cmd, now, EvictionOff(), Db(), Fail(WrongType));
        return Fail(WrongType);
      case Lost =>
        TrimmedLost(before, Db(), k, Rec(DZSet(PutAll(map[], batch)), 0, false), now);
        FollowsBy(before, cmd, now, EvictionOff(), Db(), Fail(OutOfMemory));
        return Fail(OutOfMemory);
      case Ready(e) =>
        ghost var t, n := tiers, stats.nkeys;
        ghost var full := if Get(before, k, now).Some? then before else before[k := RecOf(e)];
        r := AddToSet(k, batch, now, e, before, full);
        if r.Int? { CountStirs(before, cmd, now, EvictionOff(), Db(), r); }
        DriftsOn(s, t, tiers, w, {}, w);
        SettledMore(Db(), n, old(stats.nkeys) + 1, now, true);
    }

    /** ZADD once the sorted set is there. */
    method AddToSet(k: Bytes, batch: seq<Member>, now: nat, e: Entry, ghost before: Db, ghost full: Db)
      returns (r: Reply)
      requires Inv({k}) && Lookup(tiers, k) == Some(e) && 0 < |batch| <= MAX_MEMBERS
      requires e.value.ZSetV? && Sound(e.value) && Handed(Get(before, k, now), e, KZSet)
      requires Neat(e.value, k, leak.unruly)
      requires Get(before, k, now).Some? ==> Valid() && Db() == before
      requires (full == before || full == before[k := RecOf(e)]) && Trimmed(full, Db(), now, EvictionOff())
      modifies this
      ensures Valid() && Kept() && Named(if r.Int? then iset{k} else iset{}) && Drifts(old(tiers), tiers, {})
      ensures r.Int? || Get(before, k, now).Some?
      ensures leak.bytes == old(leak).bytes && leak.pins == old(leak).pins
      ensures leak.unruly == old(leak).unruly || (!Numbers(batch) && leak.unruly == old(leak).unruly + {k})
      ensures Notes(old(leak.marks), old(clock), leak.marks, clock,
                    if r.Int? then Touch(k, FreqOf(old(leak.marks), k)) else Nothing)
      ensures Follows(before, Command.ZAdd(k, batch), now, EvictionOff(), Db(), r)
      ensures r.Int? ==> Settled(Step(before, Command.ZAdd(k, batch), now).0, old(stats.nkeys), now, true)
    {
      hide Step, AddScores, Drifts, Settled, Consistent, WatchOk, Records, Lookup, Find, Trimmed, Get, Follows,
        AddedAll, CapAfter, PutAll, RecOf, Handed, OnKey, Fits, FreshPairs;
      if !Fits(e.value.nodes, batch) {
        ZAddEffect(Get(before, k, now), e, k, batch, now);
        OversizeFound(Get(before, k, now), e, batch);
        TrimmedSelf(before, now, EvictionOff());
        FollowsBy(before, Command.ZAdd(k, batch), now, EvictionOff(), Db(), Fail(TooManyMembers));
        DriftsSelf(tiers, {});
        return Fail(TooManyMembers);
      }
      r := AddFitting(k, batch, now, e, before, full);
    }

    method AddFitting(k: Bytes, batch: seq<Member>, now: nat, e: Entry, ghost before: Db, ghost full: Db)
      returns (r: Reply)
      requires Inv({k}) && Lookup(tiers, k) == Some(e) && 0 < |batch| <= MAX_MEMBERS
      requires e.value.ZSetV? && Sound(e.value) && Handed(Get(before, k, now), e, KZSet)
      requires Neat(e.value, k, leak.unruly)
      requires Fits(e.value.nodes, batch)
      requires (full == before || full == before[k := RecOf(e)]) && Trimmed(full, Db(), now, EvictionOff())
      modifies this
      ensures Valid() && Kept() && Named(iset{k}) && Drifts(old(tiers), tiers, {}) && r.Int?
      ensures leak.bytes == old(leak).bytes && leak.pins == old(leak).pins
      ensures leak.unruly == old(leak).unruly || (!Numbers(batch) && leak.unruly == old(leak).unruly + {k})
      ensures Notes(old(leak.marks), old(clock), leak.marks, clock,
                    if r.Int? then Touch(k, FreqOf(old(leak.marks), k)) else Nothing)
      ensures Follows(before, Command.ZAdd(k, batch), now, EvictionOff(), Db(), r)
      ensures Settled(Step(before, Command.ZAdd(k, batch), now).0, old(stats.nkeys), now, true)
    {
      hide Step, AddScores, Drifts, Settled, Consistent, WatchOk, Records, Lookup, Find, Trimmed, Get, Follows,
        AddedAll, CapAfter, PutAll, RecOf, Handed, OnKey, Fits, FreshPairs, Unique, Numbers;
      StepOnKey(before, Command.ZAdd(k, batch), now);
      ZAddEffect(Get(before, k, now), e, k, batch, now);
      AddScoresIs(e.value, batch);
      var v := AddScores(e.value, batch);
      Outrank(k, e.value, batch, {k});
      PutTwice(before, k, RecOf(e), Rec(Seen(v), e.expireAt, e.pinned));
      Replace(k, e, v, now, full);
      r := Int(|v.nodes| - |e.value.nodes|);
      FollowsBy(before, Command.ZAdd(k, batch), now, EvictionOff(), Db(), r);
    }

    /** Members added to a sorted set in order leave it in order, unless there is a NaN
        among their scores: from then on nothing is promised for its key. */
    ghost method Outrank(k: Bytes, v: Value, batch: seq<Member>, p: set<Bytes>)
      requires Inv(p) && v.ZSetV? && Sound(v) && Neat(v, k, leak.unruly)
      modifies `leak
      ensures Inv(p) && Neat(AddScores(v, batch), k, leak.unruly)
      ensures leak == old(leak) || (!Numbers(batch) && leak == old(leak).(unruly := old(leak).unruly + {k}))
    {
      hide Consistent, WatchOk, Records, AddScores, Sound, Ranked, Numbers;
      if Numbers(batch) {
        if Ranked(v) { AddScoresRanked(v, batch); }
      } else {
        ConsistentSpoilt(layout, tiers, hotNkeys, coldNkeys, stats, leak, k);
        leak := leak.(unruly := leak.unruly + {k});
      }
    }

    /** The end of a command that takes elements away: recharge the key, and free it
        if nothing is left. */
    method ShrinkTo(k: Bytes, e: Entry, v: Value, touch: bool, notify: bool)
      requires Valid() && Lookup(tiers, k) == Some(e) && Sound(v) && KindOf(v) == KindOf(e.value)
      requires Neat(v, k, leak.unruly) && (notify || v == e.value)
      modifies this
      ensures Noted(if touch then Touch(k, FreqOf(old(leak.marks), k)) else Nothing)
      ensures Valid() && Kept() && Named(if notify then iset{k} else iset{}) && Drifts(old(tiers), tiers, {})
      ensures Db() == if EmptyTyped(v) then old(Db()) - {k} else old(Db())[k := Rec(Seen(v), e.expireAt, e.pinned)]
    {
      hide Consistent, WatchOk, Records, Lookup, Find, Sound, EmptyTyped, Without, Freed, Drifts;
      PutTwice(Db(), k, Rec(Seen(v), e.expireAt, e.pinned), Rec(Seen(v), e.expireAt, e.pinned));
      Amend(k, e, v, touch, {});
      ghost var t := tiers;
      assert {} + {k} == {k} && {k} - {k} == {} && {} - {k} == {};
      if EmptyTyped(v) {
        FreeEntry(k, {k});
        DriftsOn(old(tiers), t, tiers, {}, {}, {});
      } else if notify {
        Notify(k, {k});
      }
    }

    /** HDEL. */
    method HDel(k: Bytes, fields: seq<Bytes>, now: nat) returns (r: Reply)
      requires Valid()
      modifies this
      ensures Valid() && Steady() && Drifts(old(tiers), tiers, {})
      ensures Follows(old(Db()), Command.HDel(k, fields), now, true, Db(), r)
      ensures Began(Stirred(old(Db()), Command.HDel(k, fields), now))
    {
      hide Drifts, Consistent, WatchOk, Records, Lookup, Find, Trimmed, Get, Shrink, DropFields, Placed;
      Begin({});
      ghost var before := Db();
      TrimmedSelf(before, now, true);
      var found, cold := FindLive(k, now, {});
      if found.None? {
        TrimmedAbsent(before, k, now, true);
        FollowsBy(before, Command.HDel(k, fields), now, true, Db(), Int(0));
        return Int(0);
      }
      if !found.value.value.HashV? { return Fail(WrongType); }
      r := DropFromHash(k, fields, found.value, now);
    }

    /** HDEL once the hash is found. */
    method DropFromHash(k: Bytes, fields: seq<Bytes>, e: Entry, now: nat) returns (r: Reply)
      requires Valid() && Lookup(tiers, k) == Some(e) && e.value.HashV? && Get(Db(), k, now) == Some(RecOf(e))
      modifies this
      ensures Valid() && Steady() && Named(Stirred(old(Db()), Command.HDel(k, fields), now))
      ensures Drifts(old(tiers), tiers, {})
      ensures Follows(old(Db()), Command.HDel(k, fields), now, true, Db(), r)
    {
      hide Drifts, Consistent, WatchOk, Records, Lookup, Find, Get, Shrink, DropFields, Sound, Step, Stirred,
        Follows, OnKey, RecOf;
      ghost var before := Db();
      FoundSound(layout, tiers, hotNkeys, coldNkeys, stats, leak, k);
      var v, removed := DropHash(e.value, fields);
      HDelForm(k, fields, e, v, now);
      ShrinkTo(k, e, v, false, removed > 0);
      ShrinkFollows(before, Command.HDel(k, fields), e, v, now, Db(), Int(removed));
      return Int(removed);
    }

    /** LPOP and RPOP. */
    method Pop(k: Bytes, left: bool, now: nat) returns (r: Reply)
      requires Valid()
      modifies this
      ensures Valid() && Steady() && Drifts(old(tiers), tiers, {})
      ensures Follows(old(Db()), Command.Pop(k, left), now, true, Db(), r)
      ensures Began(Stirred(old(Db()), Command.Pop(k, left), now))
    {
      hide Drifts, Consistent, WatchOk, Records, Lookup, Find, Trimmed, Get, Shrink, Step, Stirred, Follows, OnKey;
      Begin({});
      ghost var before, cmd := Db(), Command.Pop(k, left);
      ListForms(cmd, Get(before, k, now), now);
      TrimmedSelf(before, now, true);
      var found, cold := FindLive(k, now, {});
      if found.None? {
        TrimmedAbsent(before, k, now, true);
        FollowsBy(before, cmd, now, true, Db(), Nil);
        return Nil;
      }
      var e := found.value;
      if !e.value.ListV? {
        FollowsBy(before, cmd, now, true, Db(), Fail(WrongType));
        return Fail(WrongType);
      }
      if |e.value.items| == 0 {
        FollowsBy(before, cmd, now, true, Db(), Nil);
        return Nil;
      }
      var v := ListV(Lists.Popped(e.value.items, left));
      ShrinkTo(k, e, v, false, true);
      ShrinkFollows(before, cmd, e, v, now, Db(), Bulk(Lists.PoppedItem(e.value.items, left)));
      return Bulk(Lists.PoppedItem(e.value.items, left));
    }

    /** LREM. When nothing is left the key is freed before the removed nodes were
        uncounted, so their bytes stay charged: the leak. */
    method LRem(k: Bytes, count: int, elem: Bytes, now: nat) returns (r: Reply)
      requires Valid()
      modifies this
      ensures Valid() && Kept() && Drifts(old(tiers), tiers, {})
      ensures Follows(old(Db()), Command.LRem(k, count, elem), now, true, Db(), r)
      ensures Began(Stirred(old(Db()), Command.LRem(k, count, elem), now))
      ensures Notes(old(leak.marks), old(clock), leak.marks, clock,
                    UseOf(settings.kernel, old(leak.marks), old(Db()), Command.LRem(k, count, elem), now, r))
      ensures var was := Get(old(Db()), k, now);
        leak.(marks := old(leak.marks))
          == if was.Some? && was.value.data.DList? && Lists.Removed(was.value.data.items, count, elem) == []
             then old(leak).(bytes := old(leak).bytes + ItemBytes(was.value.data.items))
             else old(leak)
    {
      hide Drifts, Consistent, WatchOk, Records, Lookup, Find, Trimmed, Get, Shrink, Step, Stirred, Follows, OnKey;
      Begin({});
      ghost var before, cmd := Db(), Command.LRem(k, count, elem);
      ListForms(cmd, Get(before, k, now), now);
      TrimmedSelf(before, now, true);
      var found, cold := FindLive(k, now, {});
      if found.None? {
        TrimmedAbsent(before, k, now, true);
        FollowsBy(before, cmd, now, true, Db(), Int(0));
        return Int(0);
      }
      PresentAt(tiers, k);
      var e := found.value;
      if !e.value.ListV? {
        FollowsBy(before, cmd, now, true, Db(), Fail(WrongType));
        return Fail(WrongType);
      }
      var v := ListV(Lists.Removed(e.value.items, count, elem));
      if |v.items| == 0 {
        Drain(k, e);
      } else {
        ShrinkTo(k, e, v, true, true);
      }
      ShrinkFollows(before, cmd, e, v, now, Db(), Int(|e.value.items| - |v.items|));
      return Int(|e.value.items| - |v.items|);
    }

    method Drain(k: Bytes, e: Entry)
      requires Valid() && Lookup(tiers, k) == Some(e) && e.value.ListV?
      modifies this
      ensures Valid() && Kept() && Named(iset{}) && Db() == old(Db()) - {k} && Drifts(old(tiers), tiers, {})
      ensures leak == old(leak).(bytes := old(leak).bytes + ItemBytes(e.value.items))
    {
      hide Consistent, WatchOk, Records, Lookup, Find, Without, Freed, With, ItemBytes, RecOf, Drifts, Wellformed;
      CountersTell({});
      RecordAt(tiers, k);
      var f := e.(value := ListV([]));
      ConsistentDrained(layout, tiers, hotNkeys, coldNkeys, stats, leak, k, f);
      WriteWithin(conns, seen, since, Db(), {}, k, RecOf(f));
      PutTwice(Db(), k, RecOf(f), RecOf(f));
      leak := leak.(bytes := leak.bytes + ItemBytes(e.value.items));
      WithDrifts(tiers, k, f);
      tiers := With(tiers, k, f);
      ghost var t := tiers;
      assert {} + {k} == {k} && {k} - {k} == {};
      FreeEntry(k, {k});
      DriftsOn(old(tiers), t, tiers, {}, {}, {});
    }

    /** LTRIM. */
    method LTrim(k: Bytes, start: int, stop: int, now: nat) returns (r: Reply)
      requires Valid()
      modifies this
      ensures Valid() && Kept() && Drifts(old(tiers), tiers, {})
      ensures Follows(old(Db()), Command.LTrim(k, start, stop), now, true, Db(), r)
      ensures Began(Stirred(old(Db()), Command.LTrim(k, start, stop), now))
      ensures Noted(UseOf(settings.kernel, old(leak.marks), old(Db()), Command.LTrim(k, start, stop), now, r))
    {
      hide Drifts, Consistent, WatchOk, Records, Lookup, Find, Trimmed, Get, Shrink, Step, Stirred, Follows, OnKey,
        Without, Freed;
      Begin({});
      ghost var before, cmd := Db(), Command.LTrim(k, start, stop);
      ListForms(cmd, Get(before, k, now), now);
      TrimmedSelf(before, now, true);
      var found, cold := FindLive(k, now, {});
      if found.None? {
        TrimmedAbsent(before, k, now, true);
        FollowsBy(before, cmd, now, true, Db(), Ok);
        return Ok;
      }
      var e := found.value;
      if !e.value.ListV? {
        FollowsBy(before, cmd, now, true, Db(), Fail(WrongType));
        return Fail(WrongType);
      }
      var v := ListV(Lists.Slice(e.value.items, start, stop));
      if |v.items| == 0 {
        FreeEntry(k, {});
        assert {} - {k} == {};
      } else {
        ShrinkTo(k, e, v, true, true);
      }
      ShrinkFollows(before, cmd, e, v, now, Db(), Ok);
      return Ok;
    }

    /** ZREM. */
    method ZRem(k: Bytes, members: seq<Bytes>, now: nat) returns (r: Reply)
      requires Valid()
      modifies this
      ensures Valid() && Steady() && Drifts(old(tiers), tiers, {})
      ensures Follows(old(Db()), Command.ZRem(k, members), now, true, Db(), r)
      ensures Began(Stirred(old(Db()), Command.ZRem(k, members), now))
    {
      hide Drifts, Consistent, WatchOk, Records, Lookup, Find, Trimmed, Get, Shrink, RemoveAll, DroppedAll, Unique;
      Begin({});
      ghost var before := Db();
      TrimmedSelf(before, now, true);
      var found, cold := FindLive(k, now, {});
      if found.None? {
        TrimmedAbsent(before, k, now, true);
        FollowsBy(before, Command.ZRem(k, members), now, true, Db(), Int(0));
        return Int(0);
      }
      if !found.value.value.ZSetV? { return Fail(WrongType); }
      r := DropFromSet(k, members, found.value, now);
    }

    /** ZREM once the sorted set is found. */
    method DropFromSet(k: Bytes, members: seq<Bytes>, e: Entry, now: nat) returns (r: Reply)
      requires Valid() && Lookup(tiers, k) == Some(e) && e.value.ZSetV? && Get(Db(), k, now) == Some(RecOf(e))
      modifies this
      ensures Valid() && Steady() && Named(Stirred(old(Db()), Command.ZRem(k, members), now))
      ensures Drifts(old(tiers), tiers, {})
      ensures Follows(old(Db()), Command.ZRem(k, members), now, true, Db(), r)
    {
      hide Drifts, Consistent, WatchOk, Records, Lookup, Find, Get, Shrink, RemoveAll, DroppedAll, Sound, Step,
        Stirred, Follows, OnKey, RecOf, Ranked, Scores;
      ghost var before := Db();
      FoundSound(layout, tiers, hotNkeys, coldNkeys, stats, leak, k);
      DropScoresIs(e.value, members);
      ZRemForm(k, members, e, now);
      var v := e.value.(nodes := DroppedAll(e.value.nodes, members));
      var removed := |e.value.nodes| - |v.nodes|;
      assert Neat(v, k, leak.unruly) by { if Ranked(e.value) { DropScoresRanked(e.value, members); } }
      ShrinkTo(k, e, v, false, removed > 0);
      ShrinkFollows(before, Command.ZRem(k, members), e, v, now, Db(), Int(removed));
      return Int(removed);
    }

    // ----- configuration -----

    /** EVICT: another built-in kernel. */
    method SetKernel(kernel: Kernel)
      requires Valid()
      modifies `settings
      ensures Valid() && settings == old(settings).(kernel := kernel)
    {
      settings := settings.(kernel := kernel);
    }

    /** CONFIG SET hot-promote-on-get. */
    method SetPromoteOnGet(on: bool)
      requires Valid()
      modifies `settings
      ensures Valid() && settings == old(settings).(promoteOnGet := on)
    {
      settings := settings.(promoteOnGet := on);
    }

    /** CONFIG SET maxmemory: evicts down to the new limit at once. */
    method SetMaxmemory(bytes: nat, now: nat)
      requires Valid()
      modifies this
      ensures Valid() && layout == old(layout) && seen == old(seen) && SameClients(old(conns), conns)
      ensures clock == old(clock)
      ensures settings == old(settings).(maxmemory := bytes) && leak == old(leak) && Began(iset{})
      ensures Trimmed(old(Db()), Db(), now, EvictionOff()) && Drifts(old(tiers), tiers, {})
      ensures evictFrom == old(tiers) && EvictedDown(now, false)
    {
      hide Consistent, WatchOk, Records, Trimmed, Drifts, EvictEnd;
      Begin({});
      settings := settings.(maxmemory := bytes);
      MaybeEvict(now, false, {});
    }

    // ----- reading typed values -----

    /** HGET. */
    method HGet(k: Bytes, field: Bytes, now: nat) returns (r: Reply)
      requires Valid()
      modifies this
      ensures Valid() && Steady() && Drifts(old(tiers), tiers, {})
      ensures Follows(old(Db()), Command.HGet(k, field), now, true, Db(), r)
      ensures Began(Stirred(old(Db()), Command.HGet(k, field), now))
    {
      hide Drifts, Consistent, WatchOk, Records, Lookup, Find, Trimmed, Get, MapOf;
      Begin({});
      ghost var before := Db();
      TrimmedSelf(before, now, true);
      var e, cold := FindLive(k, now, {});
      if e.None? {
        TrimmedAbsent(before, k, now, true);
        return Nil;
      }
      if !e.value.value.HashV? { return Fail(WrongType); }
      MapOfFind(e.value.value.fields);
      var v := FindInTable(e.value.value.fields, field);
      return if v.Some? then Bulk(v.value) else Nil;
    }

    /** LRANGE. */
    method LRange(k: Bytes, start: int, stop: int, now: nat) returns (r: Reply)
      requires Valid()
      modifies this
      ensures Valid() && Steady() && Drifts(old(tiers), tiers, {})
      ensures Follows(old(Db()), Command.LRange(k, start, stop), now, true, Db(), r)
      ensures Began(Stirred(old(Db()), Command.LRange(k, start, stop), now))
    {
      hide Drifts, Consistent, WatchOk, Records, Lookup, Find, Trimmed, Get;
      Begin({});
      ghost var before := Db();
      TrimmedSelf(before, now, true);
      var e, cold := FindLive(k, now, {});
      if e.None? {
        TrimmedAbsent(before, k, now, true);
        return Array([]);
      }
      if !e.value.value.ListV? { return Fail(WrongType); }
      return Array(Lists.Slice(e.value.value.items, start, stop));
    }

    /** ZSCORE. */
    method ZScore(k: Bytes, member: Bytes, now: nat) returns (r: Reply)
      requires Valid()
      modifies this
      ensures Valid() && Steady() && Drifts(old(tiers), tiers, {})
      ensures Follows(old(Db()), Command.ZScore(k, member), now, true, Db(), r)
      ensures Began(Stirred(old(Db()), Command.ZScore(k, member), now))
    {
      hide Drifts, Consistent, WatchOk, Records, Lookup, Find, Trimmed, Get, Scores;
      Begin({});
      ghost var before := Db();
      TrimmedSelf(before, now, true);
      var e, cold := FindLive(k, now, {});
      if e.None? {
        TrimmedAbsent(before, k, now, true);
        return Nil;
      }
      if !e.value.value.ZSetV? { return Fail(WrongType); }
      SameScores(e.value.value.nodes);
      var v := FindC(e.value.value.nodes, member);
      return if v.Some? then ScoreOf(v.value) else Nil;
    }

    // ----- whole-keyspace commands -----

    /** FLUSHDB. Every counter but the one of pinned keys is reset. */
    method FlushDb()
      requires Valid()
      modifies this
      ensures Valid() && Kept() && Db() == map[] && Drifts(old(tiers), tiers, {})
      ensures stats == NO_STATS.(pinnedKeys := old(stats.pinnedKeys))
      ensures leak == Leak(0, old(stats.pinnedKeys), {}, old(leak).marks) && Began(EVERY)
    {
      hide Consistent, Records, Drifts, WatchOk;
      Begin({});
      FlushFacts(layout, tiers, hotNkeys, coldNkeys, stats, leak);
      var r := WatchTouchAll(conns);
      AllTouched(conns, r, seen, since, map[]);
      tiers := Tiers(Empty(|tiers.hot|), if layout.HotCold? then Empty(|tiers.cold|) else []);
      hotNkeys, coldNkeys := 0, 0;
      leak := Leak(0, stats.pinnedKeys, {}, leak.marks);
      stats := NO_STATS.(pinnedKeys := stats.pinnedKeys);
      conns, since := r, since.(named := EVERY);
      NothingLinked(old(tiers), tiers);
    }

    /** migrate_to_hot_cold: an empty cold tier is added. */
    method MigrateToHotCold()
      requires Valid() && layout.Flat?
      modifies `layout, `tiers, `hotNkeys, `coldNkeys
      ensures Valid() && layout.HotCold? && Db() == old(Db()) && Drifts(old(tiers), tiers, {})
    {
      hide WatchOk, Records, Consistent, Drifts, Wellformed;
      CountersTell({});
      HasHot(tiers);
      FlatHasNoCold(layout, tiers, hotNkeys, coldNkeys, stats, leak);
      var cn := Max(|tiers.hot|, 256);
      SplitDrifts(tiers, cn);
      MigrateFacts(tiers, stats, leak, hotNkeys, coldNkeys, cn);
      tiers := tiers.(cold := Empty(cn));
      hotNkeys, coldNkeys := stats.nkeys, 0;
      layout := HotCold;
    }

    /** migrate_to_flat: the cold tier is folded into the hot one. */
    method MigrateToFlat()
      requires Valid() && layout.HotCold?
      modifies `layout, `tiers, `hotNkeys, `coldNkeys
      ensures Valid() && layout.Flat? && Db() == old(Db()) && Drifts(old(tiers), tiers, KeysT(old(tiers.cold)))
      ensures Folded(old(tiers), tiers)
    {
      hide WatchOk, Records, Find, Apart, Accounted, AllSound, SumT, Drifts, KeysT;
      FoldApart(tiers);
      var merged := Relink(tiers.cold, tiers.hot);
      Fold(merged);
      ghost var t := tiers;
      RehashIfNeeded({});
      DriftsOn(old(tiers), t, tiers, KeysT(old(tiers.cold)), {}, KeysT(old(tiers.cold)));
    }

    method Fold(merged: Table<Entry>)
      requires Valid() && layout.HotCold? && Placed(merged) && |merged| == |tiers.hot|
      requires forall k :: Find(merged, k) == Either(Find(tiers.hot, k), Find(tiers.cold, k))
      requires forall w :: SumT(merged, w) == SumT(tiers.cold, w) + SumT(tiers.hot, w)
      modifies `layout, `tiers, `hotNkeys, `coldNkeys
      ensures Valid() && layout.Flat? && Db() == old(Db()) && Drifts(old(tiers), tiers, KeysT(old(tiers.cold)))
      ensures tiers == Tiers(merged, [])
    {
      hide WatchOk, Records, Consistent, Find, Placed, SumT, Drifts, Wellformed, KeysT;
      CountersTell({});
      FoldDrifts(tiers, Tiers(merged, []));
      FoldFacts(tiers, stats, leak, hotNkeys, coldNkeys, merged);
      tiers := Tiers(merged, []);
      hotNkeys, coldNkeys := 0, 0;
      layout := Flat;
    }

    /** LAYOUT: no key is gained, lost or changed. */
    method SetLayout(want: Layout)
      requires Valid()
      modifies `layout, `tiers, `hotNkeys, `coldNkeys
      ensures Valid() && layout == want && Db() == old(Db())
      ensures Drifts(old(tiers), tiers, if want.Flat? then KeysT(old(tiers.cold)) else {})
      ensures old(layout).HotCold? && want.Flat? ==> Folded(old(tiers), tiers)
    {
      hide WatchOk, Records, Consistent, Drifts, KeysT, Folded;
      DriftsSelf(tiers, if want.Flat? then KeysT(tiers.cold) else {});
      if layout == want { return; }
      if want.HotCold? { MigrateToHotCold(); } else { MigrateToFlat(); }
    }

    /** Active expiry: the first due entry freed in each of some random buckets, exactly
        those the random numbers lead to, and their number. */
    method ActiveExpire(effort: int, now: nat) returns (freed: nat)
      requires Valid()
      modifies `tiers, `stats, `hotNkeys, `coldNkeys, `conns, `expired, `drawn
      ensures Valid() && Steady() && Trimmed(old(Db()), Db(), now, true) && Drifts(old(tiers), tiers, {})
      ensures Swept(tiers, drawn, freed)
        == if effort <= 0 || old(stats.nkeys) == 0 then Swept(old(tiers), old(drawn), 0)
           else SweepFrom(rand, old(tiers), old(drawn), now, 0, Min(effort, 64))
      ensures stats.nkeys + freed == old(stats.nkeys)
    {
      hide Consistent, WatchOk, Records, Trimmed, Drifts, FirstDue, TableAt;
      TrimmedSelf(Db(), now, true);
      DriftsSelf(tiers, {});
      freed := 0;
      if effort <= 0 || stats.nkeys == 0 { return; }
      var rounds := Min(effort, 64);
      var s: nat := 0;
      while s < rounds
        invariant Valid() && Steady() && Trimmed(old(Db()), Db(), now, true) && Drifts(old(tiers), tiers, {})
        invariant stats.nkeys + freed == old(stats.nkeys)
        invariant var rest := SweepFrom(rand, tiers, drawn, now, s, rounds);
          rest.(freed := rest.freed + freed) == SweepFrom(rand, old(tiers), old(drawn), now, 0, rounds)
        decreases rounds - s
      {
        ghost var before, t := Db(), tiers;
        var one := ExpireOne(s, now);
        TrimmedTwice(old(Db()), before, Db(), now, true);
        DriftsOn(old(tiers), t, tiers, {}, {}, {});
        freed := freed + one;
        s := s + 1;
      }
    }

    /** One bucket of the sweep. */
    method ExpireOne(attempt: nat, now: nat) returns (freed: nat)
      requires Valid()
      modifies `tiers, `stats, `hotNkeys, `coldNkeys, `conns, `expired, `drawn
      ensures Valid() && Steady() && Trimmed(old(Db()), Db(), now, true) && Drifts(old(tiers), tiers, {})
      ensures stats.nkeys + freed == old(stats.nkeys) && drawn == old(drawn) + 1
      ensures |TableAt(old(tiers), attempt)| > 0
      ensures var t := TableAt(old(tiers), attempt);
        match FirstDue(t[rand(old(drawn)) % |t|], now)
        case None => tiers == old(tiers) && freed == 0
        case Some(k) => tiers == Dropped(old(tiers), k) && freed == 1
    {
      hide Consistent, WatchOk, Records, Trimmed, Lookup, Find, Without, Apart, Placed, Drifts, FirstDue, SumT, Due;
      CountersTell({});
      TableFacts(tiers, attempt);
      TrimmedSelf(Db(), now, true);
      DriftsSelf(tiers, {});
      var useCold := layout.HotCold? && coldNkeys > 0 && attempt % 2 == 1;
      var table: Table<Entry> := if useCold then tiers.cold else tiers.hot;
      assert table == TableAt(tiers, attempt);
      var c := table[rand(drawn) % |table|];
      drawn := drawn + 1;
      var j := 0;
      while j < |c|
        invariant j <= |c| && forall i :: 0 <= i < j ==> !Due(c[i].val.expireAt, now)
        invariant unchanged(`tiers, `stats, `hotNkeys, `coldNkeys, `conns, `expired) && drawn == old(drawn) + 1
      {
        if Due(c[j].val.expireAt, now) {
          FirstDueAt(c, j, now);
          FreeDue(c[j].key, c[j].val, now, {});
          return 1;
        }
        j := j + 1;
      }
      NoneDueIn(c, now);
      return 0;
    }

    /** Walk one bucket of the iteration order: due entries are freed, the keys of
        the others returned. The inner loop of SCAN, KEYS and DBSIZE. */
    method WalkBucket(idx: nat, now: nat) returns (found: seq<Bytes>)
      requires Valid() && idx < Buckets(tiers)
      modifies `tiers, `stats, `hotNkeys, `coldNkeys, `conns, `expired
      ensures Valid() && Steady() && Trimmed(old(Db()), Db(), now, true)
      ensures Purged(old(tiers), tiers, now) && found == LiveKeys(BucketAt(old(tiers), idx), now)
    {
      hide WatchOk, Records, Trimmed, Lookup, Find, Without, Apart, Placed, Purged, Accounted, AllSound, LiveKeys,
        SumT;
      TrimmedSelf(Db(), now, true);
      PurgedSelf(tiers, now);
      ChainAhead(tiers, idx >= |tiers.hot|, if idx < |tiers.hot| then idx else idx - |tiers.hot|);
      var c := BucketAt(tiers, idx);
      LiveKeysDone(c, now);
      found := [];
      var j := 0;
      while j < |c|
        invariant j <= |c| && Ahead(c, j, tiers)
        invariant Valid() && Steady() && Trimmed(old(Db()), Db(), now, true) && Purged(old(tiers), tiers, now)
        invariant found + LiveKeys(c[j..], now) == LiveKeys(c, now)
      {
        assert found + [] == found;
        var k, e := c[j].key, c[j].val;
        LiveKeysStep(c, j, now, found);
        if Due(e.expireAt, now) {
          ghost var s, before := tiers, Db();
          WithoutPurged(s, k, now);
          FreeDue(k, e, now, {});
          AheadOn(c, j, s, tiers);
          TrimmedTwice(old(Db()), before, Db(), now, true);
          PurgedTwice(old(tiers), s, tiers, now);
        } else {
          found := found + [k];
        }
        j := j + 1;
      }
    }

    /** Walk the buckets from `from` up to `end`: the loop under SCAN and DBSIZE. */
    method WalkRange(from: nat, end: nat, pattern: Bytes, now: nat) returns (keys: seq<Bytes>)
      requires Valid() && from <= end <= Buckets(tiers)
      modifies `tiers, `stats, `hotNkeys, `coldNkeys, `conns, `expired
      ensures Valid() && Steady() && Trimmed(old(Db()), Db(), now, true) && Purged(old(tiers), tiers, now)
      ensures Collected(keys, old(tiers), pattern, now, from, end)
    {
      hide WatchOk, Records, Trimmed, Purged, Consistent, Collected, Selected, Within, Distinct;
      keys := [];
      CollectedNone(tiers, pattern, now, from);
      TrimmedSelf(Db(), now, true);
      PurgedSelf(tiers, now);
      for idx := from to end
        invariant Valid() && Steady() && Trimmed(old(Db()), Db(), now, true) && Purged(old(tiers), tiers, now)
        invariant Buckets(tiers) == old(Buckets(tiers))
        invariant Collected(keys, old(tiers), pattern, now, from, idx)
      {
        ghost var before := Db();
        ghost var s := tiers;
        var page := WalkSelected(idx, pattern, now);
        TrimmedTwice(old(Db()), before, Db(), now, true);
        CollectedJoin(keys, page, old(tiers), s, pattern, now, from, idx, idx + 1);
        PurgedTwice(old(tiers), s, tiers, now);
        keys := keys + page;
      }
    }

    method WalkSelected(idx: nat, pattern: Bytes, now: nat) returns (page: seq<Bytes>)
      requires Valid() && idx < Buckets(tiers)
      modifies `tiers, `stats, `hotNkeys, `coldNkeys, `conns, `expired
      ensures Valid() && Steady() && Trimmed(old(Db()), Db(), now, true) && Purged(old(tiers), tiers, now)
      ensures Buckets(tiers) == old(Buckets(tiers))
      ensures Collected(page, old(tiers), pattern, now, idx, idx + 1)
    {
      hide WatchOk, Records, Trimmed, Selected, Within, Distinct, Accounted, AllSound, SumT, Lookup, Find;
      ghost var s := tiers;
      PurgedSelf(tiers, now);
      var found := WalkBucket(idx, now);
      WalkStep(s, s, idx, now, found);
      page := Select(found, pattern);
    }

    /** DBSIZE. */
    method DbSize(now: nat) returns (r: Reply)
      requires Valid()
      modifies this
      ensures Valid() && Steady() && Drifts(old(tiers), tiers, {})
      ensures Follows(old(Db()), Command.DbSize, now, true, Db(), r)
      ensures Began(Stirred(old(Db()), Command.DbSize, now))
    {
      hide Drifts, WatchOk, Records, Trimmed, Purged, Collected, Accounted, AllSound, SumT;
      Begin({});
      ghost var s := tiers;
      var keys := WalkRange(0, Buckets(tiers), [], now);
      CountAll(keys, s, now);
      PurgedDrifts(s, tiers, now);
      return Int(|keys|);
    }

    /** SCAN: one page from a cursor; the next cursor is 0 when the walk is over. */
    method Scan(cursor: nat, pattern: Bytes, count: int, now: nat) returns (keys: seq<Bytes>, next: nat)
      requires Valid()
      modifies `tiers, `stats, `hotNkeys, `coldNkeys, `conns, `expired
      ensures Valid() && Steady() && Trimmed(old(Db()), Db(), now, true) && Purged(old(tiers), tiers, now)
      ensures Buckets(tiers) == old(Buckets(tiers)) && (next == 0 || cursor < next < Buckets(tiers))
      ensures Collected(keys, old(tiers), pattern, now, cursor,
                        if next != 0 then next else Max(cursor, old(Buckets(tiers))))
      ensures var end := cursor + if count < 1 then 10 else if count > 10_000 then 10_000 else count;
        next == if old(stats.nkeys) == 0 || end >= Buckets(tiers) then 0 else end
    {
      hide WatchOk, Records, Trimmed, Collected, Accounted, AllSound, SumT, Find, Lookup, Within, Selected,
        Distinct;
      TrimmedSelf(Db(), now, true);
      PurgedSelf(tiers, now);
      var total := Buckets(tiers);
      if stats.nkeys == 0 {
        NothingWithin(layout, tiers, hotNkeys, coldNkeys, stats, leak, pattern, now, cursor, Max(cursor, total));
        return [], 0;
      }
      if cursor >= total {
        CollectedNone(tiers, pattern, now, cursor);
        return [], 0;
      }
      var slots := if count <= 0 then 10 else Min(count, 10_000);
      var end := Min(cursor + slots, total);
      keys := WalkRange(cursor, end, pattern, now);
      next := if end >= total then 0 else end;
    }

    /** KEYS: pages of SCAN until the cursor is back at 0. On this undisturbed store
        every selected live key is returned exactly once. */
    method KeysMatching(pattern: Bytes, now: nat) returns (keys: seq<Bytes>)
      requires Valid()
      modifies `tiers, `stats, `hotNkeys, `coldNkeys, `conns, `expired
      ensures Valid() && Steady() && Trimmed(old(Db()), Db(), now, true)
      ensures Distinct(keys)
      ensures forall k :: k in keys <==> Get(old(Db()), k, now).Some? && Selected(pattern, k)
    {
      hide WatchOk, Records, Trimmed, Purged, Collected, Accounted, AllSound, SumT, Selected, Within, Distinct, Get;
      ghost var s := tiers;
      var total := Buckets(tiers);
      var cursor: nat;
      keys, cursor := Scan(0, pattern, Min(total, 10_000), now);
      while cursor != 0
        invariant Valid() && Steady() && Trimmed(old(Db()), Db(), now, true) && Purged(old(tiers), tiers, now)
        invariant cursor == 0 || cursor < Buckets(tiers)
        invariant Buckets(tiers) == Buckets(s)
        invariant Collected(keys, s, pattern, now, 0, if cursor != 0 then cursor else Buckets(s))
        decreases if cursor == 0 then 0 else Buckets(s) - cursor
      {
        ghost var before := Db();
        ghost var r := tiers;
        var page;
        var next: nat;
        page, next := Scan(cursor, pattern, Min(total, 10_000), now);
        TrimmedTwice(old(Db()), before, Db(), now, true);
        CollectedJoin(keys, page, s, r, pattern, now, 0, cursor, if next != 0 then next else Buckets(s));
        PurgedTwice(s, r, tiers, now);
        keys, cursor := keys + page, next;
      }
      CollectedAll(keys, s, pattern, now);
    }

    /** ar_core_create. */
    constructor (clients: nat, random: nat -> nat)
      ensures Valid() && Db() == map[] && layout == Flat && leak == Leak(0, 0, {}, map[]) && EvictionOff()
      ensures rand == random && drawn == 0 && stats == NO_STATS
      ensures settings == Settings(Noop, 0, 16, 25, 256, true)
      ensures |conns| == clients && forall i :: 0 <= i < clients ==> conns[i] == FREE_CONN
    {
      rand, drawn := random, 0;
      evictFrom, evictDraw := Tiers(Empty(1024), []), 0;
      layout, tiers := Flat, Tiers(Empty(1024), []);
      hotNkeys, coldNkeys, stats := 0, 0, NO_STATS;
      settings := Settings(Noop, 0, 16, 25, 256, true);
      clock, evicted, expired := 0, 0, 0;
      conns := seq(clients, _ => FREE_CONN);
      seen := seq(clients, _ => map[]);
      leak := Leak(0, 0, {}, map[]);
      since := Since(seq(clients, _ => FREE_CONN), map[], iset{});
      FreshFacts();
    }
  }
}