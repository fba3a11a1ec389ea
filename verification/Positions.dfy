/** Where iteration meets a key, and how the steps of a keyspace move that place: the
    steps that never move a key back, and exactly when the others leave a pending key
    behind the cursor. */
module Positions {
  import opened Common
  import opened Chains
  import opened Tiers

  // ----- buckets under doubling -----

  lemma MulOrder(n: int, d: int)
    requires n > 0
    ensures d >= 2 ==> n * d >= n * 2
    ensures d <= -1 ==> n * d <= -n
  {
    if d >= 2 { assert n * (d - 2) >= 0; }
    if d <= -1 { assert n * (-1 - d) >= 0; }
  }

  lemma HalfRemainder(h: nat, n: nat)
    requires n > 0
    ensures h % (2 * n) == h % n || h % (2 * n) == h % n + n
  {
    var q1, r1 := h / n, h % n;
    var m := 2 * n;
    var q2, r2 := h / m, h % m;
    assert h == n * q1 + r1;
    assert h == m * q2 + r2;
    var d := q1 - 2 * q2;
    assert m * q2 == n * (2 * q2);
    assert n * d == n * q1 - n * (2 * q2);
    assert n * d == r2 - r1;
    MulOrder(n, d);
    assert d == 0 || d == 1;
  }

  /** Doubling a table sends a key to its old bucket or to the one half a table on,
      never to an earlier one. */
  lemma DoubledSlot(k: Bytes, n: nat)
    requires n > 0
    ensures Slot(k, 2 * n) == Slot(k, n) || Slot(k, 2 * n) == Slot(k, n) + n
  {
    HalfRemainder(Hash(k), n);
  }

  // ----- steps that never move a key back -----

  /** From s to r no key but those in `except` appears or moves to an earlier place. */
  ghost predicate Drifts(s: Tiers, r: Tiers, except: set<Bytes>) {
    forall k: Bytes :: k !in except && Lookup(r, k).Some? ==> Lookup(s, k).Some? && Pos(r, k) >= Pos(s, k)
  }

  lemma DriftsSelf(s: Tiers, except: set<Bytes>)
    ensures Drifts(s, s, except)
  {
  }

  lemma DriftsOn(s: Tiers, t: Tiers, r: Tiers, v: set<Bytes>, w: set<Bytes>, u: set<Bytes>)
    requires Drifts(s, t, v) && Drifts(t, r, w) && v <= u && w <= u
    ensures Drifts(s, r, u)
  {
    hide Lookup, Pos;
  }

  lemma DriftsWiden(s: Tiers, r: Tiers, v: set<Bytes>, u: set<Bytes>)
    requires Drifts(s, r, v) && v <= u
    ensures Drifts(s, r, u)
  {
    hide Lookup, Pos;
  }

  lemma WithoutDrifts(s: Tiers, k: Bytes)
    requires Wellformed(s) && Lookup(s, k).Some?
    ensures Drifts(s, Without(s, k), {})
  {
    WithoutIs(s, k);
  }

  lemma WithDrifts(s: Tiers, k: Bytes, e: Entry)
    requires Wellformed(s) && Lookup(s, k).Some?
    ensures Drifts(s, With(s, k, e), {})
  {
    WithIs(s, k, e);
  }

  lemma AddHotDrifts(s: Tiers, k: Bytes, e: Entry)
    requires Wellformed(s) && Lookup(s, k).None?
    ensures Drifts(s, AddHot(s, k, e), {k})
  {
    hide PowerOfTwo;
    AddHotIs(s, k, e);
    LinkTable(s.hot, k, e);
  }

  /** Demotion moves a key on. */
  lemma DemotedDrifts(s: Tiers, k: Bytes)
    requires Wellformed(s) && Find(s.hot, k).Some? && |s.cold| > 0
    ensures |Without(s, k).cold| > 0 && Drifts(s, AddCold(Without(s, k), k, Find(s.hot, k).value), {})
  {
    hide PowerOfTwo, FindC;
    WithoutIs(s, k);
    AddColdIs(Without(s, k), k, Find(s.hot, k).value);
  }

  ghost predicate Doubling(s: Table<Entry>, r: Table<Entry>) {
    Placed(r) && |r| == 2 * |s| && forall k :: Find(r, k) == Find(s, k)
  }

  lemma GrownHotDrifts(s: Tiers, t: Table<Entry>)
    requires Wellformed(s) && Doubling(s.hot, t)
    ensures Drifts(s, s.(hot := t), {})
  {
    hide PowerOfTwo, FindC;
    var r := s.(hot := t);
    forall k: Bytes | Lookup(r, k).Some? ensures Lookup(s, k).Some? && Pos(r, k) >= Pos(s, k) {
      DoubledSlot(k, |s.hot|);
    }
  }

  lemma GrownColdDrifts(s: Tiers, t: Table<Entry>)
    requires Wellformed(s) && |s.cold| > 0 && Doubling(s.cold, t)
    ensures Drifts(s, s.(cold := t), {})
  {
    hide PowerOfTwo, FindC;
    var r := s.(cold := t);
    forall k: Bytes | Lookup(r, k).Some? ensures Lookup(s, k).Some? && Pos(r, k) >= Pos(s, k) {
      DoubledSlot(k, |s.cold|);
    }
  }

  lemma PurgedDrifts(s: Tiers, r: Tiers, now: nat)
    requires Purged(s, r, now)
    ensures Drifts(s, r, {})
  {
    hide FindC;
  }

  // ----- steps that may -----

  /** Promotion: of the keys still pending at a cursor, only the one promoted can be
      left behind, and it is exactly if the cursor is past its hot bucket. */
  lemma PromotedPending(s: Tiers, k: Bytes, cursor: nat)
    requires Wellformed(s) && Find(s.hot, k).None? && Lookup(s, k).Some? && |Without(s, k).hot| > 0
    requires cursor <= Pos(s, k)
    ensures var r := AddHot(Without(s, k), k, Lookup(s, k).value);
      && Drifts(s, r, {k}) && Lookup(r, k) == Lookup(s, k)
      && (cursor <= Pos(r, k) <==> cursor <= Slot(k, |s.hot|))
  {
    hide PowerOfTwo, FindC;
    var t := Without(s, k);
    WithoutIs(s, k);
    AddHotIs(t, k, Lookup(s, k).value);
    WithoutDrifts(s, k);
    AddHotDrifts(t, k, Lookup(s, k).value);
    DriftsOn(s, t, AddHot(t, k, Lookup(s, k).value), {}, {k}, {k});
  }

  /** The tiers after LAYOUT flat: one table with every entry, doubled at most once. */
  ghost predicate Folded(s: Tiers, r: Tiers) {
    && |r.cold| == 0 && (|r.hot| == |s.hot| || |r.hot| == 2 * |s.hot|)
    && forall q :: Find(r.hot, q) == Lookup(s, q)
  }

  /** Folding the cold tier into the hot one: a pending key of the hot tier stays pending,
      one of the cold tier does exactly if the cursor has not passed its new bucket. */
  lemma FoldedPending(s: Tiers, r: Tiers, k: Bytes, cursor: nat)
    requires Wellformed(s) && Lookup(s, k).Some? && cursor <= Pos(s, k) && Folded(s, r)
    ensures Lookup(r, k) == Lookup(s, k)
    ensures cursor <= Pos(r, k) <==> Find(s.hot, k).Some? || cursor <= Slot(k, |r.hot|)
  {
    hide PowerOfTwo, FindC;
    DoubledSlot(k, |s.hot|);
  }

  lemma FoldDrifts(s: Tiers, r: Tiers)
    requires Wellformed(s) && |r.hot| == |s.hot| && |r.cold| == 0 && forall q :: Find(r.hot, q) == Lookup(s, q)
    ensures Drifts(s, r, KeysT(s.cold))
  {
    hide PowerOfTwo, FindC;
    forall k: Bytes | k !in KeysT(s.cold) && Lookup(r, k).Some?
      ensures Lookup(s, k).Some? && Pos(r, k) >= Pos(s, k)
    {
      FoundKey(s.cold, k);
    }
  }

  lemma FlushDrifts(s: Tiers, r: Tiers)
    requires forall k :: Lookup(r, k).None?
    ensures Drifts(s, r, {})
  {
    hide Lookup, Pos;
  }

  /** An empty cold tier moves nothing. */
  lemma SplitDrifts(s: Tiers, n: nat)
    requires |s.hot| > 0 && |s.cold| == 0 && n > 0
    ensures Drifts(s, s.(cold := Empty(n)), {})
  {
    EmptyPlaced<Entry>(n);
  }
}
