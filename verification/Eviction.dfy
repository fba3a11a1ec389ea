/** The sampling kernels and the guarded eviction loops, as functions of the keyspace and
    of the sequence of numbers that rand() gives; and how far the loops get. */
module Eviction {
  import opened Common
  import opened Chains
  import opened Values
  import opened Reference
  import opened Tiers
  import opened Positions

  datatype Kernel = Noop | Lru | Lfu | TtlAware | Slru | TinyLfu

  // ----- the order in which a kernel prefers its victims -----

  /** Smaller goes first. LRU: oldest access. LFU: rarest, then oldest. TTL-aware:
      keys with a deadline before keys without, soonest first, then oldest. SLRU and
      TinyLFU: probationary before protected, then oldest. */
  function Preference(kernel: Kernel, e: Entry): (nat, nat, nat) {
    match kernel
    case Lfu => (0, e.lfu, e.lastAccess)
    case TtlAware => (if e.expireAt != 0 then 0 else 1, e.expireAt, e.lastAccess)
    case Slru => (0, if e.lfu >= 1 then 1 else 0, e.lastAccess)
    case TinyLfu => (0, if e.lfu >= 1 then 1 else 0, e.lastAccess)
    case _ => (0, 0, e.lastAccess)
  }

  predicate Precedes(a: (nat, nat, nat), b: (nat, nat, nat)) {
    a.0 < b.0 || (a.0 == b.0 && (a.1 < b.1 || (a.1 == b.1 && a.2 < b.2)))
  }

  /** The comparison each sampling loop makes before it replaces its best entry. */
  predicate Better(kernel: Kernel, e: Entry, best: Entry) {
    match kernel
    case Lfu => e.lfu < best.lfu || (e.lfu == best.lfu && e.lastAccess < best.lastAccess)
    case TtlAware =>
      if e.expireAt != 0 then
        best.expireAt == 0 || e.expireAt < best.expireAt
        || (e.expireAt == best.expireAt && e.lastAccess < best.lastAccess)
      else best.expireAt == 0 && e.lastAccess < best.lastAccess
    case Slru =>
      var p, q := e.lfu >= 1, best.lfu >= 1;
      (!p && q) || (p == q && e.lastAccess < best.lastAccess)
    case TinyLfu =>
      var p, q := e.lfu >= 1, best.lfu >= 1;
      (!p && q) || (p == q && e.lastAccess < best.lastAccess)
    case _ => e.lastAccess < best.lastAccess
  }

  lemma BetterIsPrecedes(kernel: Kernel, e: Entry, best: Entry)
    ensures Better(kernel, e, best) <==> Precedes(Preference(kernel, e), Preference(kernel, best))
  {
  }

  datatype Sample = Sample(key: Bytes, entry: Entry)

  /** The entry the comparisons leave, the samples taken in order. */
  function Best(kernel: Kernel, got: seq<Sample>): Option<Sample> {
    if |got| == 0 then None
    else
      var x, b := got[|got| - 1], Best(kernel, got[..|got| - 1]);
      if b.None? || Better(kernel, x.entry, b.value.entry) then Some(x) else b
  }

  lemma BestNext(kernel: Kernel, got: seq<Sample>, x: Sample)
    ensures var b := Best(kernel, got);
      Best(kernel, got + [x]) == if b.None? || Better(kernel, x.entry, b.value.entry) then Some(x) else b
  {
    assert (got + [x])[..|got|] == got;
  }

  /** The victim is the first of the samples that no sample precedes in the kernel's
      order; there is none only if nothing was sampled. */
  lemma {:induction false} BestIs(kernel: Kernel, got: seq<Sample>) returns (i: nat)
    requires |got| > 0
    ensures i < |got| && Best(kernel, got) == Some(got[i])
    ensures forall j :: 0 <= j < |got| ==>
      !Precedes(Preference(kernel, got[j].entry), Preference(kernel, got[i].entry))
    ensures forall j :: 0 <= j < i ==>
      Precedes(Preference(kernel, got[i].entry), Preference(kernel, got[j].entry))
    decreases |got|
  {
    hide Better, Preference;
    var n := |got| - 1;
    if n == 0 {
      assert got[..0] == [];
      i := 0;
    } else {
      var m := BestIs(kernel, got[..n]);
      BetterIsPrecedes(kernel, got[n].entry, got[m].entry);
      i := if Better(kernel, got[n].entry, got[m].entry) then n else m;
      assert forall j :: 0 <= j < n ==> got[..n][j] == got[j];
    }
  }

  // ----- one sampled bucket -----

  /** What a bucket offers to eviction. */
  function Candidates(c: Chain<Entry>, now: nat): seq<Sample> {
    if |c| == 0 then []
    else
      (if Due(c[0].val.expireAt, now) || c[0].val.pinned then [] else [Sample(c[0].key, c[0].val)])
      + Candidates(c[1..], now)
  }

  function Dropped(s: Tiers, k: Bytes): Tiers {
    if |s.hot| > 0 then Without(s, k) else s
  }

  /** The loop over one chain: due entries are freed, pinned ones passed over, the others
      sampled until there are `limit` samples. */
  function Visit(s: Tiers, c: Chain<Entry>, now: nat, limit: nat, got: seq<Sample>): (Tiers, seq<Sample>)
    decreases |c|
  {
    if |c| == 0 || |got| >= limit then (s, got)
    else if Due(c[0].val.expireAt, now) then Visit(Dropped(s, c[0].key), c[1..], now, limit, got)
    else if c[0].val.pinned then Visit(s, c[1..], now, limit, got)
    else Visit(s, c[1..], now, limit, got + [Sample(c[0].key, c[0].val)])
  }

  /** It samples exactly the first candidates of the bucket, as many as there is room for. */
  lemma {:induction false} VisitYields(s: Tiers, c: Chain<Entry>, now: nat, limit: nat, got: seq<Sample>)
    requires |got| <= limit
    ensures var more := Candidates(c, now);
      Visit(s, c, now, limit, got).1 == got + more[..Min(|more|, limit - |got|)]
    decreases |c|
  {
    var more := Candidates(c, now);
    if |c| == 0 || |got| == limit {
      assert got + more[..0] == got;
    } else {
      var rest := Candidates(c[1..], now);
      if Due(c[0].val.expireAt, now) {
        assert more == rest;
        VisitYields(Dropped(s, c[0].key), c[1..], now, limit, got);
      } else if c[0].val.pinned {
        assert more == rest;
        VisitYields(s, c[1..], now, limit, got);
      } else {
        var x := Sample(c[0].key, c[0].val);
        VisitYields(s, c[1..], now, limit, got + [x]);
        var n := Min(|rest|, limit - |got| - 1);
        assert more[..n + 1] == [x] + rest[..n];
        assert got + [x] + rest[..n] == got + ([x] + rest[..n]);
      }
    }
  }

  /** The rest of a chain being walked is still linked. */
  ghost predicate Ahead(c: Chain<Entry>, j: nat, s: Tiers) {
    forall m :: j <= m < |c| ==> Lookup(s, c[m].key) == Some(c[m].val)
  }

  ghost predicate OneEach(c: Chain<Entry>) {
    forall a, b :: 0 <= a < b < |c| ==> c[a].key != c[b].key
  }

  lemma AheadOn(c: Chain<Entry>, j: nat, s: Tiers, r: Tiers)
    requires Ahead(c, j, s) && j < |c| && OneEach(c)
    requires forall q :: Lookup(r, q) == if q == c[j].key then None else Lookup(s, q)
    ensures Ahead(c, j + 1, r)
  {
    hide Lookup;
  }

  lemma ChainAhead(s: Tiers, cold: bool, i: nat)
    requires Wellformed(s) && i < |if cold then s.cold else s.hot|
    ensures var c := (if cold then s.cold else s.hot)[i]; Ahead(c, 0, s) && OneEach(c)
  {
    var t: Table<Entry> := if cold then s.cold else s.hot;
    forall m | 0 <= m < |t[i]|
      ensures Lookup(s, t[i][m].key) == Some(t[i][m].val) && forall a :: 0 <= a < m ==> t[i][a].key != t[i][m].key
    {
      NodeFound(t[i], i, |t|, m);
      assert Find(t, t[i][m].key) == Some(t[i][m].val);
      assert Find(s.hot, t[i][m].key).None? || Find(s.cold, t[i][m].key).None?;
    }
  }

  /** Every sample may be evicted and is still linked as it was sampled. */
  ghost predicate Fair(got: seq<Sample>, s: Tiers, now: nat) {
    forall i :: 0 <= i < |got| ==>
      && !got[i].entry.pinned && !Due(got[i].entry.expireAt, now)
      && Lookup(s, got[i].key) == Some(got[i].entry)
  }

  lemma FairOn(got: seq<Sample>, s: Tiers, k: Bytes, now: nat)
    requires Wellformed(s) && Fair(got, s, now)
    requires Lookup(s, k).Some? && Due(Lookup(s, k).value.expireAt, now)
    ensures Fair(got, Without(s, k), now)
  {
    hide Wellformed, Without, Find;
    WithoutIs(s, k);
  }

  lemma {:induction false} VisitFacts(s: Tiers, c: Chain<Entry>, now: nat, limit: nat, got: seq<Sample>)
    requires Wellformed(s) && Ahead(c, 0, s) && OneEach(c) && Fair(got, s, now) && |got| <= limit
    ensures var (r, more) := Visit(s, c, now, limit, got);
      Wellformed(r) && Purged(s, r, now) && Fair(more, r, now) && |got| <= |more| <= limit
    decreases |c|
  {
    hide Wellformed, Lookup, Purged, Fair, Without, Find;
    PurgedSelf(s, now);
    if |c| == 0 {
    } else if |got| < limit {
      var k, e := c[0].key, c[0].val;
      TailOnce(c);
      if Due(e.expireAt, now) {
        WithoutIs(s, k);
        FairOn(got, s, k, now);
        WithoutPurged(s, k, now);
        AheadOn(c, 0, s, Without(s, k));
        TailAhead(c, Without(s, k));
        VisitFacts(Without(s, k), c[1..], now, limit, got);
        PurgedTwice(s, Without(s, k), Visit(Without(s, k), c[1..], now, limit, got).0, now);
      } else {
        TailAhead(c, s);
        if !e.pinned { FairNext(got, s, now, Sample(k, e)); }
        VisitFacts(s, c[1..], now, limit, if e.pinned then got else got + [Sample(k, e)]);
      }
    }
  }

  lemma TailOnce(c: Chain<Entry>)
    requires |c| > 0 && OneEach(c)
    ensures OneEach(c[1..])
  {
  }

  lemma TailAhead(c: Chain<Entry>, s: Tiers)
    requires |c| > 0 && Ahead(c, 1, s)
    ensures Ahead(c[1..], 0, s)
  {
    hide Lookup;
    forall m | 0 <= m < |c[1..]| ensures Lookup(s, c[1..][m].key) == Some(c[1..][m].val) {
      assert c[1..][m] == c[m + 1];
    }
  }

  lemma FairNext(got: seq<Sample>, s: Tiers, now: nat, x: Sample)
    requires Fair(got, s, now) && !x.entry.pinned && !Due(x.entry.expireAt, now) && Lookup(s, x.key) == Some(x.entry)
    ensures Fair(got + [x], s, now)
  {
    hide Lookup;
  }

  // ----- one round of sampling -----

  const ATTEMPTS: nat := 128

  /** Which table an attempt looks at: every other one the cold tier, when it has keys. */
  function TableAt(s: Tiers, attempt: nat): Table<Entry> {
    if |s.cold| > 0 && SumT(s.cold, W(Keys)) > 0 && attempt % 2 == 1 then s.cold else s.hot
  }

  datatype Walked = Walked(tiers: Tiers, got: seq<Sample>, drawn: nat)

  /** The sampling loop from the `attempt`-th attempt on. Number `drawn` of the random
      sequence names the bucket; it ends after 128 attempts or with enough samples. */
  function Walk(rand: nat -> nat, s: Tiers, drawn: nat, now: nat, limit: nat, attempt: nat, got: seq<Sample>): Walked
    decreases ATTEMPTS - attempt
  {
    if attempt >= ATTEMPTS || |got| >= limit || |TableAt(s, attempt)| == 0 then Walked(s, got, drawn)
    else
      var t := TableAt(s, attempt);
      var (r, more) := Visit(s, t[rand(drawn) % |t|], now, limit, got);
      Walk(rand, r, drawn + 1, now, limit, attempt + 1, more)
  }

  lemma TableFacts(s: Tiers, attempt: nat)
    requires Wellformed(s)
    ensures |TableAt(s, attempt)| > 0
    ensures forall i :: 0 <= i < |TableAt(s, attempt)| ==>
      Ahead(TableAt(s, attempt)[i], 0, s) && OneEach(TableAt(s, attempt)[i])
  {
    hide Ahead, OneEach;
    var cold := |s.cold| > 0 && SumT(s.cold, W(Keys)) > 0 && attempt % 2 == 1;
    forall i | 0 <= i < |TableAt(s, attempt)|
      ensures Ahead(TableAt(s, attempt)[i], 0, s) && OneEach(TableAt(s, attempt)[i])
    {
      ChainAhead(s, cold, i);
    }
  }

  /** Sampling frees only due entries, and everything sampled may be evicted. */
  lemma {:induction false} WalkFacts(rand: nat -> nat, s: Tiers, drawn: nat, now: nat, limit: nat, attempt: nat,
                                     got: seq<Sample>)
    requires Wellformed(s) && Fair(got, s, now) && |got| <= limit
    ensures var w := Walk(rand, s, drawn, now, limit, attempt, got);
      && Wellformed(w.tiers) && Purged(s, w.tiers, now) && Fair(w.got, w.tiers, now)
      && |got| <= |w.got| <= limit && w.drawn >= drawn
      && (attempt <= ATTEMPTS && |w.got| < limit ==> w.drawn == drawn + ATTEMPTS - attempt)
    decreases ATTEMPTS - attempt
  {
    hide Wellformed, Purged, Fair, Visit, TableAt, Ahead, OneEach;
    PurgedSelf(s, now);
    TableFacts(s, attempt);
    if attempt < ATTEMPTS && |got| < limit {
      var t := TableAt(s, attempt);
      var (r, more) := Visit(s, t[rand(drawn) % |t|], now, limit, got);
      VisitFacts(s, t[rand(drawn) % |t|], now, limit, got);
      WalkFacts(rand, r, drawn + 1, now, limit, attempt + 1, more);
      PurgedTwice(s, r, Walk(rand, r, drawn + 1, now, limit, attempt + 1, more).tiers, now);
    }
  }

  datatype RoundEnd = RoundEnd(tiers: Tiers, victim: Option<Sample>, got: seq<Sample>, drawn: nat)

  /** evict_one: sample, and free the best of the samples. */
  function Round(kernel: Kernel, rand: nat -> nat, s: Tiers, drawn: nat, now: nat, limit: nat): RoundEnd {
    if Total(s, Keys) == 0 then RoundEnd(s, None, [], drawn)
    else
      var w := Walk(rand, s, drawn, now, limit, 0, []);
      var b := Best(kernel, w.got);
      RoundEnd(if b.Some? then Dropped(w.tiers, b.value.key) else w.tiers, b, w.got, w.drawn)
  }

  /** A round frees at most one entry that is not due, its victim; it has no victim only
      if it sampled nothing. */
  lemma RoundFacts(kernel: Kernel, rand: nat -> nat, s: Tiers, drawn: nat, now: nat, limit: nat)
    requires Wellformed(s)
    ensures var e := Round(kernel, rand, s, drawn, now, limit);
      && Wellformed(e.tiers)
      && (e.victim.None? <==> |e.got| == 0)
      && (e.victim.Some? ==> e.victim.value in e.got && !e.victim.value.entry.pinned)
      && (e.victim.Some? ==> !Due(e.victim.value.entry.expireAt, now))
      && (e.victim.Some? ==> Lookup(s, e.victim.value.key) == Some(e.victim.value.entry))
      && (forall k :: Lookup(e.tiers, k) == Lookup(s, k)
            || (Lookup(e.tiers, k).None?
                && (IsDue(Lookup(s, k), now) || (e.victim.Some? && e.victim.value.key == k))))
  {
    hide Wellformed, Purged, Fair, Walk, Lookup, Find, Without;
    if Total(s, Keys) > 0 {
      assert Fair([], s, now) by { NothingSampled(s, now); }
      WalkFacts(rand, s, drawn, now, limit, 0, []);
      var w := Walk(rand, s, drawn, now, limit, 0, []);
      PurgedLookups(s, w.tiers, now);
      if |w.got| > 0 {
        var i := BestIs(kernel, w.got);
        assert Lookup(w.tiers, w.got[i].key) == Some(w.got[i].entry) by { FairAt(w.got, w.tiers, now, i); }
        assert !w.got[i].entry.pinned && !Due(w.got[i].entry.expireAt, now) by { FairAt(w.got, w.tiers, now, i); }
        WithoutIs(w.tiers, w.got[i].key);
        assert |w.tiers.hot| > 0 by { HasHot(w.tiers); }
      }
    }
  }

  /** And it moves no key back. */
  lemma RoundDrifts(kernel: Kernel, rand: nat -> nat, s: Tiers, drawn: nat, now: nat, limit: nat)
    requires Wellformed(s)
    ensures Drifts(s, Round(kernel, rand, s, drawn, now, limit).tiers, {})
  {
    hide Wellformed, Purged, Fair, Walk, Lookup, Find, Without, Drifts, Pos;
    DriftsSelf(s, {});
    if Total(s, Keys) > 0 {
      NothingSampled(s, now);
      WalkFacts(rand, s, drawn, now, limit, 0, []);
      var w := Walk(rand, s, drawn, now, limit, 0, []);
      PurgedDrifts(s, w.tiers, now);
      if |w.got| > 0 {
        var i := BestIs(kernel, w.got);
        FairAt(w.got, w.tiers, now, i);
        HasHot(w.tiers);
        WithoutDrifts(w.tiers, w.got[i].key);
        DriftsOn(s, w.tiers, Without(w.tiers, w.got[i].key), {}, {}, {});
      }
    }
  }

  /** The best sample of a walk is still linked when it ends, and may be evicted. */
  lemma SampleLinked(kernel: Kernel, rand: nat -> nat, s: Tiers, drawn: nat, now: nat, limit: nat)
    requires Wellformed(s)
    ensures var w := Walk(rand, s, drawn, now, limit, 0, []);
      var b := Best(kernel, w.got);
      b.Some? ==> !b.value.entry.pinned && Lookup(w.tiers, b.value.key) == Some(b.value.entry)
  {
    hide Wellformed, Purged, Fair, Walk, Lookup;
    NothingSampled(s, now);
    WalkFacts(rand, s, drawn, now, limit, 0, []);
    var w := Walk(rand, s, drawn, now, limit, 0, []);
    if |w.got| > 0 {
      var i := BestIs(kernel, w.got);
      FairAt(w.got, w.tiers, now, i);
    }
  }

  lemma NoBest(kernel: Kernel)
    ensures Best(kernel, []) == None
  {
  }

  lemma AheadAt(c: Chain<Entry>, j: nat, s: Tiers)
    requires Ahead(c, j, s) && j < |c|
    ensures Lookup(s, c[j].key) == Some(c[j].val)
    ensures Ahead(c, j + 1, s)
  {
  }

  predicate IsDue(e: Option<Entry>, now: nat) {
    e.Some? && Due(e.value.expireAt, now)
  }

  lemma NothingSampled(s: Tiers, now: nat)
    ensures Fair([], s, now)
  {
  }

  lemma HasHot(s: Tiers)
    requires Wellformed(s)
    ensures |s.hot| > 0
  {
  }

  lemma FairAt(got: seq<Sample>, s: Tiers, now: nat, i: nat)
    requires Fair(got, s, now) && i < |got|
    ensures !got[i].entry.pinned && !Due(got[i].entry.expireAt, now)
    ensures Lookup(s, got[i].key) == Some(got[i].entry)
  {
  }

  lemma PurgedLookups(s: Tiers, r: Tiers, now: nat)
    requires Purged(s, r, now)
    ensures forall k :: Lookup(r, k) == Lookup(s, k) || (Lookup(r, k).None? && IsDue(Lookup(s, k), now))
  {
    hide Find;
  }

  // ----- active expiry -----

  function FirstDue(c: Chain<Entry>, now: nat): Option<Bytes> {
    if |c| == 0 then None
    else if Due(c[0].val.expireAt, now) then Some(c[0].key)
    else FirstDue(c[1..], now)
  }

  datatype Swept = Swept(tiers: Tiers, drawn: nat, freed: nat)

  /** The sweep from the `attempt`-th bucket on: the first due entry of each bucket drawn
      is freed. */
  function SweepFrom(rand: nat -> nat, s: Tiers, drawn: nat, now: nat, attempt: nat, effort: nat): Swept
    decreases effort - attempt
  {
    if attempt >= effort || |TableAt(s, attempt)| == 0 then Swept(s, drawn, 0)
    else
      var t := TableAt(s, attempt);
      match FirstDue(t[rand(drawn) % |t|], now)
      case None => SweepFrom(rand, s, drawn + 1, now, attempt + 1, effort)
      case Some(k) =>
        var r := SweepFrom(rand, Dropped(s, k), drawn + 1, now, attempt + 1, effort);
        r.(freed := r.freed + 1)
  }

  lemma {:induction false} FirstDueAt(c: Chain<Entry>, j: nat, now: nat)
    requires j < |c| && Due(c[j].val.expireAt, now) && forall i :: 0 <= i < j ==> !Due(c[i].val.expireAt, now)
    ensures FirstDue(c, now) == Some(c[j].key)
    decreases j
  {
    if j == 0 {
    } else {
      FirstDueAt(c[1..], j - 1, now);
    }
  }

  lemma {:induction false} NoneDueIn(c: Chain<Entry>, now: nat)
    requires forall i :: 0 <= i < |c| ==> !Due(c[i].val.expireAt, now)
    ensures FirstDue(c, now) == None
    decreases |c|
  {
    if |c| == 0 {
    } else {
      NoneDueIn(c[1..], now);
    }
  }

  // ----- the guarded loop -----

  /** The settings a loop runs under; `extra` is memory charged for nothing linked. */
  datatype Plan = Plan(kernel: Kernel, max: nat, extra: nat, limit: nat, rand: nat -> nat)

  predicate OverLimit(plan: Plan, s: Tiers) {
    !plan.kernel.Noop? && plan.max > 0 && Total(s, Memory) + plan.extra > plan.max
  }

  /** Where the loop ends, and whether it ended because a round sampled nothing. */
  datatype LoopEnd = LoopEnd(tiers: Tiers, drawn: nat, starved: bool)

  function Rounds(plan: Plan, s: Tiers, drawn: nat, now: nat, rounds: nat): LoopEnd
    decreases rounds
  {
    if rounds == 0 || !OverLimit(plan, s) then LoopEnd(s, drawn, false)
    else
      var e := Round(plan.kernel, plan.rand, s, drawn, now, plan.limit);
      if e.victim.None? then LoopEnd(e.tiers, e.drawn, true)
      else Rounds(plan, e.tiers, e.drawn, now, rounds - 1)
  }

  /** The guards of the loop after a string write and after a typed one. */
  function LoopGuard(typed: bool, nkeys: nat): nat {
    if typed then Min(Max(nkeys + 16, 64), 4096) else Min(Max(nkeys + 8, 64), 1_000_000)
  }

  lemma {:induction false} VisitCounts(s: Tiers, c: Chain<Entry>, now: nat, limit: nat, got: seq<Sample>, n: Counter)
    requires Wellformed(s) && Ahead(c, 0, s) && OneEach(c)
    ensures Total(Visit(s, c, now, limit, got).0, n) <= Total(s, n)
    decreases |c|
  {
    hide Wellformed, Lookup, Without, Find, Total, Weight;
    if |c| == 0 {
    } else if |got| < limit {
      var k, e := c[0].key, c[0].val;
      TailOnce(c);
      if Due(e.expireAt, now) {
        WithoutIs(s, k);
        WithoutTotal(s, k, n);
        HasHot(s);
        AheadOn(c, 0, s, Without(s, k));
        TailAhead(c, Without(s, k));
        VisitCounts(Without(s, k), c[1..], now, limit, got, n);
      } else {
        TailAhead(c, s);
        VisitCounts(s, c[1..], now, limit, if e.pinned then got else got + [Sample(k, e)], n);
      }
    }
  }

  lemma {:induction false} WalkCounts(rand: nat -> nat, s: Tiers, drawn: nat, now: nat, limit: nat, attempt: nat,
                                      got: seq<Sample>, n: Counter)
    requires Wellformed(s) && Fair(got, s, now) && |got| <= limit
    ensures Total(Walk(rand, s, drawn, now, limit, attempt, got).tiers, n) <= Total(s, n)
    decreases ATTEMPTS - attempt
  {
    hide Wellformed, Fair, Visit, TableAt, Ahead, OneEach, Total;
    TableFacts(s, attempt);
    if attempt < ATTEMPTS && |got| < limit {
      var c := TableAt(s, attempt)[rand(drawn) % |TableAt(s, attempt)|];
      var (r, more) := Visit(s, c, now, limit, got);
      VisitFacts(s, c, now, limit, got);
      VisitCounts(s, c, now, limit, got, n);
      WalkCounts(rand, r, drawn + 1, now, limit, attempt + 1, more, n);
    }
  }

  /** The key counts of the states: a round with a victim lowers the count. */
  lemma RoundCounts(kernel: Kernel, rand: nat -> nat, s: Tiers, drawn: nat, now: nat, limit: nat)
    requires Wellformed(s)
    ensures var e := Round(kernel, rand, s, drawn, now, limit);
      && Total(e.tiers, Keys) <= Total(s, Keys)
      && (e.victim.Some? ==> Total(e.tiers, Keys) < Total(s, Keys))
  {
    hide Wellformed, Purged, Fair, Walk, Lookup, Total;
    if Total(s, Keys) > 0 {
      NothingSampled(s, now);
      WalkFacts(rand, s, drawn, now, limit, 0, []);
      var w := Walk(rand, s, drawn, now, limit, 0, []);
      WalkCounts(rand, s, drawn, now, limit, 0, [], Keys);
      if |w.got| > 0 {
        var i := BestIs(kernel, w.got);
        FairAt(w.got, w.tiers, now, i);
        HasHot(w.tiers);
        WithoutTotal(w.tiers, w.got[i].key, Keys);
      }
    }
  }

  lemma {:induction false} NoBytes(c: Chain<Entry>)
    ensures SumC(c, W(Memory)) >= ENTRY_SIZE * SumC(c, W(Keys))
    ensures SumC(c, W(Keys)) == 0 ==> SumC(c, W(Memory)) == 0
    decreases |c|
  {
    if |c| == 0 {
    } else {
      NoBytes(c[1..]);
    }
  }

  lemma {:induction false} BytesPerKey(t: Table<Entry>)
    ensures SumT(t, W(Memory)) >= ENTRY_SIZE * SumT(t, W(Keys))
    ensures SumT(t, W(Keys)) == 0 ==> SumT(t, W(Memory)) == 0
    decreases |t|
  {
    if |t| == 0 {
    } else {
      NoBytes(t[0]);
      BytesPerKey(t[1..]);
    }
  }

  /** With fewer keys than rounds the loop ends within the limit, or because its last
      round sampled nothing; without a leak as many keys as rounds will do. */
  lemma {:induction false} LoopReaches(plan: Plan, s: Tiers, drawn: nat, now: nat, rounds: nat)
    requires Wellformed(s)
    ensures var e := Rounds(plan, s, drawn, now, rounds);
      && Wellformed(e.tiers) && Total(e.tiers, Keys) <= Total(s, Keys)
      && (Total(s, Keys) + (if plan.extra == 0 then 0 else 1) <= rounds ==> !OverLimit(plan, e.tiers) || e.starved)
    decreases rounds
  {
    hide Wellformed, Round, SumT;
    BytesPerKey(s.hot);
    BytesPerKey(s.cold);
    if rounds == 0 {
    } else if OverLimit(plan, s) {
      var e := Round(plan.kernel, plan.rand, s, drawn, now, plan.limit);
      RoundFacts(plan.kernel, plan.rand, s, drawn, now, plan.limit);
      RoundCounts(plan.kernel, plan.rand, s, drawn, now, plan.limit);
      if e.victim.Some? { LoopReaches(plan, e.tiers, e.drawn, now, rounds - 1); }
    }
  }

  lemma RoundDraws(kernel: Kernel, rand: nat -> nat, s: Tiers, drawn: nat, now: nat, limit: nat)
    requires Wellformed(s) && limit > 0
    ensures var e := Round(kernel, rand, s, drawn, now, limit);
      && e.drawn >= drawn
      && (e.victim.None? ==> e.drawn == if Total(s, Keys) == 0 then drawn else drawn + 128)
  {
    hide Wellformed, Walk, Total, Purged, Fair;
    NothingSampled(s, now);
    WalkFacts(rand, s, drawn, now, limit, 0, []);
    var w := Walk(rand, s, drawn, now, limit, 0, []);
    if |w.got| > 0 { var i := BestIs(kernel, w.got); }
  }

  /** A loop that ended starved ended with a round in which no sampled bucket, 128 of
      them if there were keys at all, held anything that may be evicted. */
  lemma {:induction false} StarvedMeans(plan: Plan, s: Tiers, drawn: nat, now: nat, rounds: nat)
    returns (r: Tiers, q: nat)
    requires Wellformed(s) && Rounds(plan, s, drawn, now, rounds).starved && plan.limit > 0
    ensures Wellformed(r) && q >= drawn
    ensures var e, end := Round(plan.kernel, plan.rand, r, q, now, plan.limit), Rounds(plan, s, drawn, now, rounds);
      && |e.got| == 0 && e.tiers == end.tiers && e.drawn == end.drawn
      && e.drawn == (if Total(r, Keys) == 0 then q else q + 128)
    decreases rounds
  {
    hide Wellformed, Round, Total;
    var e := Round(plan.kernel, plan.rand, s, drawn, now, plan.limit);
    RoundFacts(plan.kernel, plan.rand, s, drawn, now, plan.limit);
    RoundDraws(plan.kernel, plan.rand, s, drawn, now, plan.limit);
    if e.victim.None? {
      r, q := s, drawn;
    } else {
      r, q := StarvedMeans(plan, e.tiers, e.drawn, now, rounds - 1);
    }
  }

  // ----- when the guard is too small -----

  /** Nothing is due and nothing is pinned. */
  ghost predicate Quiet(s: Tiers, now: nat) {
    forall k :: Lookup(s, k).Some? ==> !Lookup(s, k).value.pinned && !Due(Lookup(s, k).value.expireAt, now)
  }

  lemma {:induction false} VisitQuiet(s: Tiers, c: Chain<Entry>, now: nat, limit: nat, got: seq<Sample>)
    requires Quiet(s, now) && Ahead(c, 0, s)
    ensures Visit(s, c, now, limit, got).0 == s
    decreases |c|
  {
    hide Lookup;
    if |c| == 0 {
    } else if |got| < limit {
      TailAhead(c, s);
      assert Lookup(s, c[0].key) == Some(c[0].val);
      VisitQuiet(s, c[1..], now, limit, got + [Sample(c[0].key, c[0].val)]);
    }
  }

  lemma {:induction false} WalkQuiet(rand: nat -> nat, s: Tiers, drawn: nat, now: nat, limit: nat, attempt: nat,
                                     got: seq<Sample>)
    requires Wellformed(s) && Quiet(s, now)
    ensures Walk(rand, s, drawn, now, limit, attempt, got).tiers == s
    decreases ATTEMPTS - attempt
  {
    hide Wellformed, Quiet, Visit, TableAt, Ahead, OneEach;
    TableFacts(s, attempt);
    if attempt < ATTEMPTS && |got| < limit {
      var c := TableAt(s, attempt)[rand(drawn) % |TableAt(s, attempt)|];
      VisitQuiet(s, c, now, limit, got);
      WalkQuiet(rand, s, drawn + 1, now, limit, attempt + 1, Visit(s, c, now, limit, got).1);
    }
  }

  lemma RoundQuiet(kernel: Kernel, rand: nat -> nat, s: Tiers, drawn: nat, now: nat, limit: nat)
    requires Wellformed(s) && Quiet(s, now)
    ensures var e := Round(kernel, rand, s, drawn, now, limit);
      && Wellformed(e.tiers) && Quiet(e.tiers, now) && |e.tiers.cold| == |s.cold|
      && Total(e.tiers, Keys) == Total(s, Keys) - (if e.victim.Some? then 1 else 0)
  {
    hide Wellformed, Walk, Lookup, Total, Find, Without, Best;
    RoundFacts(kernel, rand, s, drawn, now, limit);
    if Total(s, Keys) > 0 {
      WalkQuiet(rand, s, drawn, now, limit, 0, []);
      var e := Round(kernel, rand, s, drawn, now, limit);
      if e.victim.Some? {
        HasHot(s);
        WithoutTotal(s, e.victim.value.key, Keys);
        WithoutIs(s, e.victim.value.key);
      }
    }
  }

  /** With more keys than rounds and a limit below the size of one entry, the loop ends
      over the limit whatever it samples. */
  lemma {:induction false} GuardStops(plan: Plan, s: Tiers, drawn: nat, now: nat, rounds: nat)
    requires Wellformed(s) && Quiet(s, now) && Total(s, Keys) > rounds
    requires !plan.kernel.Noop? && 0 < plan.max < ENTRY_SIZE
    ensures OverLimit(plan, Rounds(plan, s, drawn, now, rounds).tiers)
    decreases rounds
  {
    hide Wellformed, Round, SumT, Quiet;
    BytesPerKey(s.hot);
    BytesPerKey(s.cold);
    if rounds == 0 {
    } else {
      var e := Round(plan.kernel, plan.rand, s, drawn, now, plan.limit);
      RoundQuiet(plan.kernel, plan.rand, s, drawn, now, plan.limit);
      if e.victim.Some? {
        GuardStops(plan, e.tiers, e.drawn, now, rounds - 1);
      } else {
        BytesPerKey(e.tiers.hot);
        BytesPerKey(e.tiers.cold);
      }
    }
  }

  lemma {:induction false} WalkAgrees(a: nat -> nat, b: nat -> nat, s: Tiers, drawn: nat, now: nat, limit: nat,
                                      attempt: nat, got: seq<Sample>)
    requires forall x: nat :: drawn <= x < Walk(a, s, drawn, now, limit, attempt, got).drawn ==> a(x) == b(x)
    ensures Walk(b, s, drawn, now, limit, attempt, got) == Walk(a, s, drawn, now, limit, attempt, got)
    decreases ATTEMPTS - attempt
  {
    hide Visit, TableAt;
    if attempt < ATTEMPTS && |got| < limit && |TableAt(s, attempt)| > 0 {
      var t := TableAt(s, attempt);
      var (r, more) := Visit(s, t[a(drawn) % |t|], now, limit, got);
      WalkOn(a, r, drawn + 1, now, limit, attempt + 1, more);
      WalkAgrees(a, b, r, drawn + 1, now, limit, attempt + 1, more);
    }
  }

  lemma {:induction false} WalkOn(rand: nat -> nat, s: Tiers, drawn: nat, now: nat, limit: nat, attempt: nat,
                                  got: seq<Sample>)
    ensures Walk(rand, s, drawn, now, limit, attempt, got).drawn >= drawn
    decreases ATTEMPTS - attempt
  {
    hide Visit, TableAt;
    if attempt < ATTEMPTS && |got| < limit && |TableAt(s, attempt)| > 0 {
      var t := TableAt(s, attempt);
      var (r, more) := Visit(s, t[rand(drawn) % |t|], now, limit, got);
      WalkOn(rand, r, drawn + 1, now, limit, attempt + 1, more);
    }
  }

  lemma RoundOn(kernel: Kernel, rand: nat -> nat, s: Tiers, drawn: nat, now: nat, limit: nat)
    ensures Round(kernel, rand, s, drawn, now, limit).drawn >= drawn
  {
    hide Walk, Total, Best;
    WalkOn(rand, s, drawn, now, limit, 0, []);
  }

  lemma {:induction false} RoundsAgree(plan: Plan, rand: nat -> nat, s: Tiers, drawn: nat, now: nat, rounds: nat)
    requires forall x: nat :: drawn <= x ==> plan.rand(x) == rand(x)
    ensures Rounds(plan.(rand := rand), s, drawn, now, rounds) == Rounds(plan, s, drawn, now, rounds)
    decreases rounds
  {
    hide Round, Total;
    if rounds == 0 {
    } else if OverLimit(plan, s) {
      var e := Round(plan.kernel, plan.rand, s, drawn, now, plan.limit);
      RoundAgrees(plan.kernel, plan.rand, rand, s, drawn, now, plan.limit);
      RoundOn(plan.kernel, plan.rand, s, drawn, now, plan.limit);
      RoundsAgree(plan, rand, e.tiers, e.drawn, now, rounds - 1);
    }
  }

  lemma SomeBucket(s: Tiers) returns (b: nat)
    requires Total(s, Keys) > 0 && |s.cold| == 0
    ensures b < |s.hot| && |s.hot[b]| > 0
  {
    if forall i :: 0 <= i < |s.hot| ==> |s.hot[i]| == 0 { AllEmpty(s.hot, W(Keys)); }
    b :| b < |s.hot| && |s.hot[b]| > 0;
  }

  /** A round that draws a bucket with entries in it finds a victim. */
  lemma HitsBucket(kernel: Kernel, rand: nat -> nat, s: Tiers, drawn: nat, now: nat, limit: nat)
    requires Wellformed(s) && Quiet(s, now) && |s.cold| == 0 && limit > 0 && Total(s, Keys) > 0
    requires |s.hot[rand(drawn) % |s.hot|]| > 0
    ensures Round(kernel, rand, s, drawn, now, limit).victim.Some?
  {
    hide Quiet, Visit, Lookup, Find, SumT;
    RoundFacts(kernel, rand, s, drawn, now, limit);
    var c := s.hot[rand(drawn) % |s.hot|];
    TableFacts(s, 0);
    NothingSampled(s, now);
    VisitFacts(s, c, now, limit, []);
    FirstSampled(s, c, now, limit);
    var (r, more) := Visit(s, c, now, limit, []);
    WalkFacts(rand, r, drawn + 1, now, limit, 1, more);
  }

  lemma FirstSampled(s: Tiers, c: Chain<Entry>, now: nat, limit: nat)
    requires Quiet(s, now) && Ahead(c, 0, s) && |c| > 0 && limit > 0
    ensures |Visit(s, c, now, limit, []).1| > 0
  {
    hide Lookup;
    assert Lookup(s, c[0].key) == Some(c[0].val);
    VisitYields(s, c, now, limit, []);
  }

  lemma RoundAgrees(kernel: Kernel, a: nat -> nat, b: nat -> nat, s: Tiers, drawn: nat, now: nat, limit: nat)
    requires forall x: nat :: drawn <= x < Round(kernel, a, s, drawn, now, limit).drawn ==> a(x) == b(x)
    ensures Round(kernel, b, s, drawn, now, limit) == Round(kernel, a, s, drawn, now, limit)
  {
    hide Walk, Total, Best;
    if Total(s, Keys) > 0 { WalkAgrees(a, b, s, drawn, now, limit, 0, []); }
  }

  /** There are random numbers with which every round finds a victim. */
  lemma {:induction false} KeepsFinding(plan: Plan, s: Tiers, drawn: nat, now: nat, rounds: nat)
    returns (rand: nat -> nat)
    requires Wellformed(s) && Quiet(s, now) && |s.cold| == 0 && plan.limit > 0 && Total(s, Keys) >= rounds
    ensures !Rounds(plan.(rand := rand), s, drawn, now, rounds).starved
    decreases rounds
  {
    hide Wellformed, Quiet, Round, Total;
    rand := x => 0;
    if rounds == 0 {
    } else if OverLimit(plan, s) {
      var b := SomeBucket(s);
      var e: RoundEnd;
      e, rand := FindsOnce(plan, s, drawn, now, b);
      var later := KeepsFinding(plan, e.tiers, e.drawn, now, rounds - 1);
      var all: nat -> nat := (x: nat) => if x < e.drawn then rand(x) else later(x);
      RoundAgrees(plan.kernel, rand, all, s, drawn, now, plan.limit);
      RoundsAgree(plan.(rand := later), all, e.tiers, e.drawn, now, rounds - 1);
      assert plan.(rand := later).(rand := all) == plan.(rand := all);
      rand := all;
    }
  }

  lemma FindsOnce(plan: Plan, s: Tiers, drawn: nat, now: nat, b: nat) returns (e: RoundEnd, rand: nat -> nat)
    requires Wellformed(s) && Quiet(s, now) && |s.cold| == 0 && plan.limit > 0 && Total(s, Keys) > 0
    requires b < |s.hot| && |s.hot[b]| > 0
    ensures e == Round(plan.kernel, rand, s, drawn, now, plan.limit) && e.victim.Some?
    ensures Wellformed(e.tiers) && Quiet(e.tiers, now) && |e.tiers.cold| == 0
    ensures Total(e.tiers, Keys) == Total(s, Keys) - 1
  {
    hide Wellformed, Quiet, Walk, Total, Round;
    rand := (x: nat) => b;
    e := Round(plan.kernel, rand, s, drawn, now, plan.limit);
    HitsBucket(plan.kernel, rand, s, drawn, now, plan.limit);
    RoundQuiet(plan.kernel, rand, s, drawn, now, plan.limit);
  }

  // ----- cooling the hot tier -----

  /** What a bucket of the hot tier offers to demotion: its first entries, whatever they are. */
  function Offered(c: Chain<Entry>, room: int): seq<Sample>
    decreases |c|
  {
    if |c| == 0 || room <= 0 then [] else [Sample(c[0].key, c[0].val)] + Offered(c[1..], room - 1)
  }

  lemma OneOffered(c: Chain<Entry>, j: nat, room: int)
    requires j < |c| && room > 0
    ensures Offered(c[j..], room) == [Sample(c[j].key, c[j].val)] + Offered(c[j + 1..], room - 1)
  {
    assert c[j..][1..] == c[j + 1..] && c[j..][0] == c[j];
  }

  lemma OfferedNext(c: Chain<Entry>, j: nat, got: seq<Sample>)
    requires j < |c| && |got| < COLD_SAMPLES
    ensures var x := Sample(c[j].key, c[j].val);
      got + [x] + Offered(c[j + 1..], COLD_SAMPLES - |got| - 1) == got + Offered(c[j..], COLD_SAMPLES - |got|)
  {
    hide Offered;
    var x, o := Sample(c[j].key, c[j].val), Offered(c[j + 1..], COLD_SAMPLES - |got| - 1);
    OneOffered(c, j, COLD_SAMPLES - |got|);
    assert got + [x] + o == got + ([x] + o);
  }

  lemma OfferedEnd(c: Chain<Entry>, j: nat, got: seq<Sample>)
    requires j <= |c| && (j == |c| || |got| >= COLD_SAMPLES)
    ensures got + Offered(c[j..], COLD_SAMPLES - |got|) == got
  {
  }

  const COLD_ATTEMPTS: nat := 64
  const COLD_SAMPLES: nat := 16
  const DEMOTIONS: nat := 64

  datatype Offer = Offer(got: seq<Sample>, drawn: nat)

  /** The sampling loop of a demotion with `left` attempts to go. */
  function OfferedFrom(rand: nat -> nat, t: Table<Entry>, drawn: nat, left: nat, got: seq<Sample>): Offer
    decreases left
  {
    if left == 0 || |got| >= COLD_SAMPLES || |t| == 0 then Offer(got, drawn)
    else
      OfferedFrom(rand, t, drawn + 1, left - 1, got + Offered(t[rand(drawn) % |t|], COLD_SAMPLES - |got|))
  }

  /** k moved from the hot tier to the cold one. */
  function Cooler(s: Tiers, k: Bytes): Tiers {
    if |s.hot| > 0 && Lookup(s, k).Some? && |Without(s, k).cold| > 0
    then AddCold(Without(s, k), k, Lookup(s, k).value) else s
  }

  datatype Cooling = Cooling(tiers: Tiers, drawn: nat, starved: bool)

  /** maybe_demote_hot: the oldest of the entries sampled goes, at most `rounds` times, while
      the hot tier has more than `cap` keys. */
  function Cooled(rand: nat -> nat, s: Tiers, drawn: nat, cap: nat, rounds: nat): Cooling
    decreases rounds
  {
    hide OfferedFrom;
    if rounds == 0 || SumT(s.hot, W(Keys)) <= cap then Cooling(s, drawn, false)
    else
      var o := OfferedFrom(rand, s.hot, drawn, COLD_ATTEMPTS, []);
      match Best(Lru, o.got)
      case None => Cooling(s, o.drawn, true)
      case Some(x) => Cooled(rand, Cooler(s, x.key), o.drawn, cap, rounds - 1)
  }

  ghost predicate AllHot(got: seq<Sample>, t: Table<Entry>) {
    forall i :: 0 <= i < |got| ==> Find(t, got[i].key) == Some(got[i].entry)
  }

  lemma {:induction false} OfferedHot(t: Table<Entry>, b: nat, j: nat, room: int)
    requires Placed(t) && b < |t| && j <= |t[b]|
    ensures AllHot(Offered(t[b][j..], room), t)
    decreases |t[b]| - j
  {
    if j == |t[b]| || room <= 0 {
    } else {
      NodeFound(t[b], b, |t|, j);
      assert t[b][j..][1..] == t[b][j + 1..];
      OfferedHot(t, b, j + 1, room - 1);
    }
  }

  lemma {:induction false} OfferIsHot(rand: nat -> nat, t: Table<Entry>, drawn: nat, left: nat, got: seq<Sample>)
    requires Placed(t) && AllHot(got, t)
    ensures AllHot(OfferedFrom(rand, t, drawn, left, got).got, t)
    decreases left
  {
    hide Find, Placed;
    if left > 0 && |got| < COLD_SAMPLES && |t| > 0 {
      var b := rand(drawn) % |t|;
      assert t[b][0..] == t[b];
      OfferedHot(t, b, 0, COLD_SAMPLES - |got|);
      OfferIsHot(rand, t, drawn + 1, left - 1, got + Offered(t[b], COLD_SAMPLES - |got|));
    }
  }

  /** What is demoted is in the hot tier, and no entry sampled with it is older. */
  lemma ColdestIs(rand: nat -> nat, t: Table<Entry>, drawn: nat, left: nat) returns (i: nat)
    requires Placed(t) && |OfferedFrom(rand, t, drawn, left, []).got| > 0
    ensures var got := OfferedFrom(rand, t, drawn, left, []).got;
      && i < |got| && Best(Lru, got) == Some(got[i]) && Find(t, got[i].key) == Some(got[i].entry)
      && forall j :: 0 <= j < |got| ==> got[i].entry.lastAccess <= got[j].entry.lastAccess
  {
    hide Find, Placed;
    OfferIsHot(rand, t, drawn, left, []);
    i := BestIs(Lru, OfferedFrom(rand, t, drawn, left, []).got);
  }

  /** The sampling for a demotion ends with 16 entries, or with all its buckets drawn. */
  lemma {:induction false} OfferStops(rand: nat -> nat, t: Table<Entry>, drawn: nat, left: nat, got: seq<Sample>)
    requires |t| > 0 && |got| <= 16
    ensures var o := OfferedFrom(rand, t, drawn, left, got);
      && |got| <= |o.got| <= 16 && drawn <= o.drawn <= drawn + left
      && (o.drawn == drawn + left || |o.got| == 16)
    decreases left
  {
    if left > 0 && |got| < COLD_SAMPLES {
      var more := Offered(t[rand(drawn) % |t|], COLD_SAMPLES - |got|);
      OfferedFits(t[rand(drawn) % |t|], COLD_SAMPLES - |got|);
      OfferStops(rand, t, drawn + 1, left - 1, got + more);
    }
  }

  lemma {:induction false} OfferedFits(c: Chain<Entry>, room: nat)
    ensures |Offered(c, room)| == if |c| < room then |c| else room
    decreases |c|
  {
    if |c| > 0 && room > 0 { OfferedFits(c[1..], room - 1); }
  }

  lemma CoolerIs(s: Tiers, k: Bytes)
    requires Wellformed(s) && |s.cold| > 0 && Find(s.hot, k).Some?
    ensures Wellformed(Cooler(s, k)) && |Cooler(s, k).cold| == |s.cold|
    ensures forall q :: Lookup(Cooler(s, k), q) == Lookup(s, q)
    ensures SumT(Cooler(s, k).hot, W(Keys)) + 1 == SumT(s.hot, W(Keys))
  {
    hide PowerOfTwo, FindC;
    WithoutIs(s, k);
    UnlinkSum(s.hot, k, W(Keys));
    AddColdIs(Without(s, k), k, Lookup(s, k).value);
  }

  /** Cooling changes no entry. It ends at the cap, or with as many entries demoted as it
      has rounds, or because 64 buckets of the hot tier in a row held nothing. */
  lemma {:induction false} CooledMeans(rand: nat -> nat, s: Tiers, drawn: nat, cap: nat, rounds: nat)
    requires Wellformed(s) && |s.cold| > 0
    ensures var e, n := Cooled(rand, s, drawn, cap, rounds), SumT(s.hot, W(Keys));
      && Wellformed(e.tiers) && (forall q :: Lookup(e.tiers, q) == Lookup(s, q))
      && SumT(e.tiers.hot, W(Keys)) <= n
      && (e.starved || SumT(e.tiers.hot, W(Keys)) == if n <= cap then n else Max(cap, n - rounds))
    decreases rounds
  {
    hide Wellformed, Lookup, Find, SumT, OfferedFrom, Best, Cooler;
    if rounds > 0 && SumT(s.hot, W(Keys)) > cap {
      var o := OfferedFrom(rand, s.hot, drawn, COLD_ATTEMPTS, []);
      if |o.got| == 0 {
        NoBest(Lru);
      } else {
        assert Placed(s.hot) by { HotPlaced(s); }
        var i := ColdestIs(rand, s.hot, drawn, COLD_ATTEMPTS);
        CoolerIs(s, o.got[i].key);
        CooledMeans(rand, Cooler(s, o.got[i].key), o.drawn, cap, rounds - 1);
      }
    }
  }

  lemma FoundHot(s: Tiers, k: Bytes)
    requires Find(s.hot, k).Some?
    ensures Lookup(s, k).Some?
  {
  }

  lemma PlacedSome(t: Table<Entry>)
    requires Placed(t)
    ensures |t| > 0
  {
  }

  lemma HotPlaced(s: Tiers)
    requires Wellformed(s)
    ensures Placed(s.hot)
  {
  }

  // ----- a crowd of keys -----

  function KeyOf(i: nat): Bytes {
    seq(i, _ => 0)
  }

  const PLAIN := Entry(StrV([]), 0, 0, false, 0)

  /** n keys with neither deadline nor pin. */
  function Crowd(n: nat): (s: Tiers)
    ensures |s.hot| == 1 && |s.cold| == 0
  {
    if n == 0 then Tiers(Empty(1), []) else AddHot(Crowd(n - 1), KeyOf(n - 1), PLAIN)
  }

  lemma {:induction false} CrowdIs(n: nat, now: nat)
    ensures Wellformed(Crowd(n)) && Quiet(Crowd(n), now) && Total(Crowd(n), Keys) == n
    ensures forall k :: Lookup(Crowd(n), k).Some? ==> |k| < n
  {
    hide Wellformed, SumT, Find, Lookup, AddHot;
    if n == 0 {
      NobodyIs();
    } else {
      var s := Crowd(n - 1);
      CrowdIs(n - 1, now);
      assert |KeyOf(n - 1)| == n - 1;
      AddHotIs(s, KeyOf(n - 1), PLAIN);
      AddHotTotal(s, KeyOf(n - 1), PLAIN, Keys);
    }
  }

  lemma NobodyIs()
    ensures var s: Tiers := Tiers(Empty(1), []);
      Wellformed(s) && Total(s, Keys) == 0 && forall k :: Lookup(s, k).None?
  {
    EmptyPlaced<Entry>(1);
    SumEmpty<Entry>(1, W(Keys));
  }

  /** Whatever the keyspace of n keys with nothing due, pinned or leaked, and whatever
      is sampled: the loop ends within the limit, or because a round sampled nothing. */
  ghost predicate Suffices(n: nat, rounds: nat) {
    forall plan: Plan, s: Tiers, drawn: nat, now: nat ::
      Wellformed(s) && Quiet(s, now) && Total(s, Keys) == n && plan.extra == 0 && plan.limit > 0 ==>
        var e := Rounds(plan, s, drawn, now, rounds); !OverLimit(plan, e.tiers) || e.starved
  }

  /** The loop suffices for n keys if and only if its guard allows n rounds. */
  lemma SufficesWhen(n: nat, rounds: nat)
    ensures Suffices(n, rounds) <==> n <= rounds
  {
    hide Wellformed, Quiet, Total, Rounds, Crowd, OverLimit;
    if n <= rounds {
      forall plan: Plan, s: Tiers, drawn: nat, now: nat |
        Wellformed(s) && Quiet(s, now) && Total(s, Keys) == n && plan.extra == 0 && plan.limit > 0
        ensures var e := Rounds(plan, s, drawn, now, rounds); !OverLimit(plan, e.tiers) || e.starved
      {
        LoopReaches(plan, s, drawn, now, rounds);
      }
    } else {
      var s, plan := Crowd(n), Plan(Lru, 1, 0, 16, x => 0);
      CrowdIs(n, 0);
      var rand := KeepsFinding(plan, s, 0, 0, rounds);
      GuardStops(plan.(rand := rand), s, 0, 0, rounds);
    }
  }

  /** So the loop after a typed write suffices exactly up to 4096 keys, the one after a
      string write up to a million. */
  lemma Guards(n: nat)
    ensures Suffices(n, LoopGuard(true, n)) <==> n <= 4096
    ensures Suffices(n, LoopGuard(false, n)) <==> n <= 1_000_000
  {
    hide Suffices;
    SufficesWhen(n, LoopGuard(true, n));
    SufficesWhen(n, LoopGuard(false, n));
  }
}
