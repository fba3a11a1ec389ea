/** A store the code itself can bring about on which the loop after a typed write gives up:
    the memory limit is set and the keys written while nothing is evicted, and only then a
    kernel is chosen. */
module Flooding {
  import opened Common
  import opened Values
  import opened Reference
  import opened Tiers
  import opened Watching
  import opened Positions
  import opened Eviction
  import opened Keyspace
  import Accounting

  const PLAIN_REC := Rec(DStr([]), 0, false)

  /** The keyspace after n SETs of new keys. */
  function CrowdDb(n: nat): Db {
    if n == 0 then map[] else CrowdDb(n - 1)[KeyOf(n - 1) := PLAIN_REC]
  }

  lemma {:induction false} CrowdDbIs(n: nat)
    ensures |CrowdDb(n)| == n
    ensures forall k :: k in CrowdDb(n) ==> |k| < n && CrowdDb(n)[k] == PLAIN_REC
    decreases n
  {
    if n == 0 {
      assert CrowdDb(0) == map[];
    } else {
      CrowdDbIs(n - 1);
      assert |KeyOf(n - 1)| == n - 1;
      var m := CrowdDb(n);
      assert m.Keys == CrowdDb(n - 1).Keys + {KeyOf(n - 1)};
      assert |m| == |m.Keys| && |CrowdDb(n - 1)| == |CrowdDb(n - 1).Keys|;
    }
  }

  /** Nothing of such a keyspace is ever missing when nothing is evicted. */
  lemma NoneMissing(n: nat, part: Db, now: nat)
    requires Trimmed(CrowdDb(n), part, now, true)
    ensures part == CrowdDb(n)
  {
    CrowdDbIs(n);
    assert forall k :: k in CrowdDb(n) ==> k in part;
  }

  lemma CrowdQuiet(s: Tiers, n: nat, now: nat)
    requires Records(s) == CrowdDb(n)
    ensures Quiet(s, now)
  {
    hide Lookup, Records;
    CrowdDbIs(n);
    forall k | Lookup(s, k).Some?
      ensures !Lookup(s, k).value.pinned && !Due(Lookup(s, k).value.expireAt, now)
    {
      RecordAt(s, k);
      assert Records(s)[k] == PLAIN_REC;
    }
  }

  lemma SetIs(n: nat, now: nat)
    ensures Step(CrowdDb(n), Command.Set(KeyOf(n), [], Always, Forget), now) == (CrowdDb(n + 1), Ok)
  {
    CrowdDbIs(n);
    assert |KeyOf(n)| == n;
  }

  /** CONFIG SET maxmemory 1, n times SET, EVICT lru. */
  method Flooded(n: nat, random: nat -> nat, now: nat) returns (st: Store)
    ensures fresh(st) && st.Valid() && st.Db() == CrowdDb(n) && st.stats.nkeys == n
    ensures st.layout.Flat? && st.settings.kernel.Lru? && st.settings.maxmemory == 1 && st.leak.bytes == 0
    ensures Quiet(st.tiers, now) && Total(st.tiers, Keys) == n && Wellformed(st.tiers) && |st.tiers.cold| == 0
  {
    hide Consistent, WatchOk, Records, SameClients, Trimmed, Drifts, Store.EvictedDown, Store.Settled, Step,
      CrowdDb, Quiet, Wellformed;
    st := new Store(0, random);
    assert CrowdDb(0) == map[] by { CrowdDbIs(0); }
    ghost var before := st.Db();
    st.SetMaxmemory(1, now);
    NoneMissing(0, st.Db(), now);
    for i := 0 to n
      invariant fresh(st) && st.Valid() && st.Db() == CrowdDb(i) && st.layout.Flat? && st.leak.bytes == 0
      invariant st.settings == Settings(Noop, 1, 16, 25, 256, true)
    {
      var r := st.Set(KeyOf(i), [], Always, Forget, now);
      SetIs(i, now);
      NoneMissing(i + 1, st.Db(), now);
    }
    st.SetKernel(Lru);
    CrowdDbIs(n);
    CrowdQuiet(st.tiers, n, now);
    Accounting.CountersAgree(st.layout, st.tiers, st.hotNkeys, st.coldNkeys, st.stats, st.leak);
    st.KeyTotal({});
    st.CountersTell({});
    assert |st.tiers.cold| == 0 by { FlatHasNoCold(st.layout, st.tiers, st.hotNkeys, st.coldNkeys, st.stats, st.leak); }
  }

  /** On that store, with more than 4096 keys, the loop after a typed write ends over the
      limit whatever is sampled; and there are random numbers with which each of its
      rounds found a victim, so that only its guard stopped it. */
  lemma GivesUp(st: Store, n: nat, now: nat) returns (rand: nat -> nat)
    requires n > 4096 && Wellformed(st.tiers) && Quiet(st.tiers, now) && Total(st.tiers, Keys) == n
    requires |st.tiers.cold| == 0 && st.settings.kernel.Lru? && st.settings.maxmemory == 1
    ensures forall other: nat -> nat, drawn: nat ::
      var plan := st.PlanNow().(rand := other);
      OverLimit(plan, Rounds(plan, st.tiers, drawn, now, LoopGuard(true, n)).tiers)
    ensures !Rounds(st.PlanNow().(rand := rand), st.tiers, st.drawn, now, LoopGuard(true, n)).starved
  {
    hide Wellformed, Quiet, Total, Rounds, OverLimit;
    rand := KeepsFinding(st.PlanNow(), st.tiers, st.drawn, now, LoopGuard(true, n));
    forall other: nat -> nat, drawn: nat
      ensures var plan := st.PlanNow().(rand := other);
        OverLimit(plan, Rounds(plan, st.tiers, drawn, now, LoopGuard(true, n)).tiers)
    {
      GuardStops(st.PlanNow().(rand := other), st.tiers, drawn, now, LoopGuard(true, n));
    }
  }

  /** The loop itself, run on that store. */
  method RunGivesUp(n: nat, random: nat -> nat, now: nat) returns (st: Store)
    requires n > 4096
    ensures st.Valid() && st.Over() && st.EvictedDown(now, true)
    ensures Total(st.evictFrom, Keys) == n && Quiet(st.evictFrom, now) && st.leak.bytes == 0
  {
    hide Consistent, WatchOk, Records, SameClients, Trimmed, Drifts, Rounds, Quiet, Wellformed, CrowdDb;
    st := Flooded(n, random, now);
    var rand := GivesUp(st, n, now);
    assert st.PlanNow().(rand := st.rand) == st.PlanNow();
    st.MaybeEvict(now, true, {});
    st.CountersTell({});
  }
}
