/** Cursors that survive change: what SCAN promises over a whole walk whose pages are
    interleaved with any commands, layouts, expiry sweeps and evictions. */
module Scanning {
  import opened Common
  import opened Chains
  import opened Reference
  import opened Tiers
  import opened Watching
  import opened Positions
  import opened Keyspace
  import opened Server
  import Eviction

  // ----- one page -----

  /** A page returns a pending live key, or leaves it pending beyond the new cursor. */
  lemma PageDecides(s: Tiers, cursor: nat, keys: seq<Bytes>, next: nat, r: Tiers, pattern: Bytes, now: nat, k: Bytes)
    requires Wellformed(s) && Purged(s, r, now) && (next == 0 || cursor < next < Buckets(s))
    requires Collected(keys, s, pattern, now, cursor, if next != 0 then next else Max(cursor, Buckets(s)))
    requires Lookup(s, k).Some? && !Due(Lookup(s, k).value.expireAt, now) && Selected(pattern, k)
    requires cursor <= Pos(s, k)
    ensures k in keys || (next != 0 && next <= Pos(r, k))
  {
    hide Selected, Purged, Pos, Lookup;
    LookupGet(s, k, now);
    PosBound(s, k);
    PurgedLive(s, r, k, now);
  }

  // ----- a walk over a store in use -----

  /** What happens to the store while a client walks it, its own pages among it. */
  datatype Event =
    | Page(count: int, now: nat)
    | Do(cmd: Command, now: nat)
    | Relayout(want: Keyspace.Layout)
    | Sweep(effort: int, now: nat)
    | Choose(kernel: Eviction.Kernel)
    | Limit(bytes: nat, now: nat)
    | PromoteOnGet(on: bool)

  /** The store at one moment of the walk, and the cursor the client holds. */
  datatype View = View(tiers: Tiers, promote: bool, exact: bool, cursor: nat)

  ghost function ViewOf(st: Store, cursor: nat): View
    reads st
  {
    View(st.tiers, st.settings.promoteOnGet, st.EvictionOff(), cursor)
  }

  /** The keys an event may move back. */
  ghost function MovedBy(a: View, e: Event): set<Bytes> {
    match e
    case Do(cmd, now) => CommandMoves(a.tiers, a.promote, cmd, now)
    case Relayout(want) => if want.Flat? then KeysT(a.tiers.cold) else {}
    case _ => {}
  }

  /** What an event makes of the store, and what a page returns. */
  ghost predicate Stepped(a: View, e: Event, b: View, keys: seq<Bytes>, pattern: Bytes) {
    Wellformed(a.tiers) && Wellformed(b.tiers) &&
    match e
    case Page(_, now) =>
      && Purged(a.tiers, b.tiers, now) && (b.cursor == 0 || a.cursor < b.cursor < Buckets(a.tiers))
      && Collected(keys, a.tiers, pattern, now, a.cursor,
                   if b.cursor != 0 then b.cursor else Max(a.cursor, Buckets(a.tiers)))
    case Do(cmd, now) =>
      && b.cursor == a.cursor && keys == [] && Drifts(a.tiers, b.tiers, MovedBy(a, e))
      && exists r :: Ran(Records(a.tiers), cmd, now, a.exact, Records(b.tiers), r)
    case Sweep(_, now) =>
      && b.cursor == a.cursor && keys == [] && Drifts(a.tiers, b.tiers, {})
      && Trimmed(Records(a.tiers), Records(b.tiers), now, true)
    case Limit(_, now) =>
      && b.cursor == a.cursor && keys == [] && Drifts(a.tiers, b.tiers, {})
      && Trimmed(Records(a.tiers), Records(b.tiers), now, b.exact)
    case _ =>
      && b.cursor == a.cursor && keys == [] && Drifts(a.tiers, b.tiers, MovedBy(a, e))
      && Records(b.tiers) == Records(a.tiers)
  }

  /** The key is linked before and after the event; it is not due when a page is read;
      and if the event may move it back, the cursor has not passed its new place. */
  ghost predicate Holds(a: View, e: Event, b: View, k: Bytes) {
    && Lookup(a.tiers, k).Some? && Lookup(b.tiers, k).Some?
    && (if e.Page? then !Due(Lookup(a.tiers, k).value.expireAt, e.now)
        else k !in MovedBy(a, e) || a.cursor <= Pos(b.tiers, k))
  }

  ghost predicate Steadfast(trace: seq<View>, events: seq<Event>, k: Bytes, n: nat)
    requires n <= |events| && n < |trace|
  {
    forall t :: 0 <= t < n ==> Holds(trace[t], events[t], trace[t + 1], k)
  }

  /** A pending key is returned by an event, or is pending after it. */
  lemma StillPending(a: View, e: Event, b: View, keys: seq<Bytes>, pattern: Bytes, k: Bytes)
    requires Stepped(a, e, b, keys, pattern) && Holds(a, e, b, k) && Selected(pattern, k)
    requires a.cursor <= Pos(a.tiers, k)
    ensures k in keys || (b.cursor <= Pos(b.tiers, k) && (e.Page? ==> b.cursor != 0))
  {
    hide Wellformed, Purged, Collected, Selected, Lookup, Pos, MovedBy, Ran, Records;
    if e.Page? {
      PageDecides(a.tiers, a.cursor, keys, b.cursor, b.tiers, pattern, e.now, k);
    } else if k !in MovedBy(a, e) {
      DriftsAt(a.tiers, b.tiers, MovedBy(a, e), k);
    }
  }

  lemma DriftsAt(s: Tiers, r: Tiers, except: set<Bytes>, k: Bytes)
    requires (Drifts(s, r, except) || Drifts(s, r, {})) && k !in except && Lookup(r, k).Some?
    ensures Pos(r, k) >= Pos(s, k)
  {
    hide Lookup, Pos;
  }

  /** One event run on the store, a page taken at the cursor among it. */
  method Happen(st: Store, pattern: Bytes, e: Event, cursor: nat) returns (keys: seq<Bytes>, next: nat)
    requires st.Valid()
    modifies st
    ensures st.Valid()
    ensures Stepped(old(ViewOf(st, cursor)), e, ViewOf(st, next), keys, pattern)
  {
    hide WatchOk, Records, SameClients, Drifts, Trimmed, Purged, Collected, Wellformed, Ran, CommandMoves, KeysT,
      Accounted, AllSound, SumT, Store.EvictedDown, Follows;
    st.CountersTell({});
    keys, next := [], cursor;
    match e {
      case Page(count, now) =>
        keys, next := st.Scan(cursor, pattern, count, now);
      case Do(cmd, now) =>
        ghost var before := st.Db();
        var r := Execute(st, cmd, now);
        RanOne(before, cmd, now, old(st.EvictionOff()), st.Db(), r);
      case Relayout(want) =>
        st.SetLayout(want);
      case Sweep(effort, now) =>
        var freed := st.ActiveExpire(effort, now);
      case Choose(kernel) =>
        st.SetKernel(kernel);
        DriftsSelf(st.tiers, {});
      case Limit(bytes, now) =>
        st.SetMaxmemory(bytes, now);
      case PromoteOnGet(on) =>
        st.SetPromoteOnGet(on);
        DriftsSelf(st.tiers, {});
    }
    st.CountersTell({});
  }

  /** SCAN never misses: a walk from cursor 0 back to cursor 0, its pages taken from a
      store that serves anything else in between, returns every selected key that stays
      linked, is not due at any page, and is not moved back behind the cursor. */
  method ScanAmid(st: Store, pattern: Bytes, events: seq<Event>)
    returns (keys: seq<Bytes>, done: bool, ghost trace: seq<View>, ghost pages: seq<seq<Bytes>>)
    requires st.Valid()
    modifies st
    ensures st.Valid() && 0 < |trace| <= |events| + 1 && |pages| == |trace| - 1
    ensures trace[0] == old(ViewOf(st, 0)) && trace[|pages|] == ViewOf(st, trace[|pages|].cursor)
    ensures forall t :: 0 <= t < |pages| ==> Stepped(trace[t], events[t], trace[t + 1], pages[t], pattern)
    ensures forall k :: k in keys <==> exists t :: 0 <= t < |pages| && k in pages[t]
    ensures done <==> |pages| > 0 && events[|pages| - 1].Page? && trace[|pages|].cursor == 0
    ensures !done ==> |pages| == |events|
    ensures done ==> forall k :: Steadfast(trace, events, k, |pages|) && Selected(pattern, k) ==> k in keys
  {
    hide Stepped, Holds, Selected, Pos, WatchOk, Consistent;
    keys, done, trace, pages := [], false, [ViewOf(st, 0)], [];
    var cursor: nat := 0;
    for i := 0 to |events|
      invariant st.Valid() && |trace| == i + 1 && |pages| == i && !done
      invariant trace[0] == old(ViewOf(st, 0)) && trace[i] == ViewOf(st, cursor)
      invariant forall t :: 0 <= t < i ==> Stepped(trace[t], events[t], trace[t + 1], pages[t], pattern)
      invariant forall k :: k in keys <==> exists t :: 0 <= t < i && k in pages[t]
      invariant i > 0 && events[i - 1].Page? ==> cursor != 0
      invariant forall k :: Steadfast(trace, events, k, i) && Selected(pattern, k) ==>
        k in keys || cursor <= Pos(st.tiers, k)
    {
      ghost var was, a := keys, ViewOf(st, cursor);
      ghost var pagesBefore, traceBefore := pages, trace;
      var page;
      page, cursor := Happen(st, pattern, events[i], cursor);
      trace, pages, keys := trace + [ViewOf(st, cursor)], pages + [page], keys + page;
      MorePages(was, pagesBefore, page);
      forall k | Steadfast(trace, events, k, i + 1) && Selected(pattern, k)
        ensures k in keys || (cursor <= Pos(st.tiers, k) && (events[i].Page? ==> cursor != 0))
      {
        SteadfastBefore(traceBefore, trace, events, k, i);
        if k !in was { StillPending(a, events[i], ViewOf(st, cursor), page, pattern, k); }
      }
      if events[i].Page? && cursor == 0 {
        done := true;
        return;
      }
    }
  }

  lemma SteadfastBefore(before: seq<View>, trace: seq<View>, events: seq<Event>, k: Bytes, n: nat)
    requires n < |events| && |before| == n + 1 && |trace| == n + 2 && trace[..n + 1] == before
    requires Steadfast(trace, events, k, n + 1)
    ensures Steadfast(before, events, k, n) && Holds(before[n], events[n], trace[n + 1], k)
  {
    hide Holds;
    forall t | 0 <= t < n ensures Holds(before[t], events[t], before[t + 1], k) {
      assert before[t] == trace[t] && before[t + 1] == trace[t + 1];
    }
    assert before[n] == trace[n];
  }

  // ----- which events may move a key back -----

  /** A live key is moved back by a command only if it is the new name of a RENAME, or
      a cold key read or written by GET, SET or APPEND with promotion on. */
  lemma OnlyPromotion(a: View, cmd: Command, now: nat, k: Bytes)
    requires Lookup(a.tiers, k).Some? && !Due(Lookup(a.tiers, k).value.expireAt, now)
    requires k in MovedBy(a, Event.Do(cmd, now))
    ensures (cmd.Rename? && cmd.newKey == k)
         || (a.promote && Find(a.tiers.hot, k).None? && (cmd.Set? || cmd.Read? || cmd.Append?) && cmd.key == k)
  {
    hide Lookup, Records, Find;
    LookupGet(a.tiers, k, now);
  }

  // ----- a walk over a store that is only read -----

  datatype PageTaken = PageTaken(keys: seq<Bytes>, next: nat, after: Tiers)

  ghost predicate QuietPages(s: Tiers, cursor: nat, pages: seq<PageTaken>, pattern: Bytes, now: nat)
    decreases |pages|
  {
    && |pages| > 0 && Wellformed(s) && Wellformed(pages[0].after) && Purged(s, pages[0].after, now)
    && (pages[0].next == 0 || cursor < pages[0].next < Buckets(s))
    && Collected(pages[0].keys, s, pattern, now, cursor,
                 if pages[0].next != 0 then pages[0].next else Max(cursor, Buckets(s)))
    && if pages[0].next == 0 then |pages| == 1
       else QuietPages(pages[0].after, pages[0].next, pages[1..], pattern, now)
  }

  function AllKeys(pages: seq<PageTaken>): seq<Bytes>
    decreases |pages|
  {
    if |pages| == 0 then [] else pages[0].keys + AllKeys(pages[1..])
  }

  lemma {:induction false} QuietWalk(s: Tiers, cursor: nat, pages: seq<PageTaken>, pattern: Bytes, now: nat)
    requires QuietPages(s, cursor, pages, pattern, now) && cursor <= Buckets(s)
    ensures Collected(AllKeys(pages), s, pattern, now, cursor, Buckets(s))
    decreases |pages|
  {
    hide Wellformed, Purged, Collected;
    var p := pages[0];
    if p.next == 0 {
      assert pages[1..] == [] && p.keys + [] == p.keys;
    } else {
      BucketsKept(s, p.after, now);
      QuietWalk(p.after, p.next, pages[1..], pattern, now);
      CollectedJoin(p.keys, AllKeys(pages[1..]), s, p.after, pattern, now, cursor, p.next, Buckets(s));
    }
  }

  lemma BucketsKept(s: Tiers, r: Tiers, now: nat)
    requires Purged(s, r, now)
    ensures Buckets(r) == Buckets(s)
  {
  }

  /** On a store only read, a walk returns every selected live key exactly once. */
  lemma QuietOnce(s: Tiers, pages: seq<PageTaken>, pattern: Bytes, now: nat)
    requires QuietPages(s, 0, pages, pattern, now)
    ensures Distinct(AllKeys(pages))
    ensures forall k :: k in AllKeys(pages) <==> Get(Records(s), k, now).Some? && Selected(pattern, k)
  {
    hide Wellformed, Selected, Collected, Purged;
    QuietWalk(s, 0, pages, pattern, now);
    CollectedAll(AllKeys(pages), s, pattern, now);
  }

  // ----- the exact condition for promotion and for folding -----

  /** A cold key still pending at the cursor is promoted. The rest of the walk, read
      quietly, returns it if and only if the cursor has not passed its hot bucket. */
  lemma PromotedReturned(s: Tiers, k: Bytes, cursor: nat, pages: seq<PageTaken>, pattern: Bytes, now: nat)
    requires Wellformed(s) && Find(s.hot, k).None? && Lookup(s, k).Some? && |Without(s, k).hot| > 0
    requires cursor <= Pos(s, k) && !Due(Lookup(s, k).value.expireAt, now) && Selected(pattern, k)
    requires QuietPages(AddHot(Without(s, k), k, Lookup(s, k).value), cursor, pages, pattern, now)
    ensures k in AllKeys(pages) <==> cursor <= Slot(k, |s.hot|)
  {
    hide PowerOfTwo, Selected, Lookup, Find, QuietPages, Collected, Pos, Records;
    var r := AddHot(Without(s, k), k, Lookup(s, k).value);
    WithoutIs(s, k);
    AddHotIs(Without(s, k), k, Lookup(s, k).value);
    PromotedPending(s, k, cursor);
    PosBound(s, k);
    QuietWalk(r, cursor, pages, pattern, now);
    WalkReturns(r, k, cursor, AllKeys(pages), pattern, now);
  }

  /** The same for LAYOUT flat: a pending key of the hot tier is still returned, one of the
      cold tier if and only if the cursor has not passed its new bucket. */
  lemma FoldedReturned(s: Tiers, r: Tiers, k: Bytes, cursor: nat, pages: seq<PageTaken>, pattern: Bytes, now: nat)
    requires Wellformed(s) && Wellformed(r) && Lookup(s, k).Some? && !Due(Lookup(s, k).value.expireAt, now)
    requires Folded(s, r) && cursor <= Pos(s, k) && Selected(pattern, k)
    requires QuietPages(r, cursor, pages, pattern, now)
    ensures k in AllKeys(pages) <==> Find(s.hot, k).Some? || cursor <= Slot(k, |r.hot|)
  {
    hide PowerOfTwo, Selected, Lookup, Find, QuietPages, Collected, Pos, Records;
    FoldedPending(s, r, k, cursor);
    PosBound(r, k);
    if cursor <= Buckets(r) {
      QuietWalk(r, cursor, pages, pattern, now);
      WalkReturns(r, k, cursor, AllKeys(pages), pattern, now);
    } else {
      PastTheEnd(r, cursor, pages, pattern, now);
    }
  }

  /** A cursor beyond the table, as folding can leave it, ends the walk with nothing. */
  lemma PastTheEnd(s: Tiers, cursor: nat, pages: seq<PageTaken>, pattern: Bytes, now: nat)
    requires QuietPages(s, cursor, pages, pattern, now) && cursor > Buckets(s)
    ensures AllKeys(pages) == []
  {
    hide Wellformed, Purged, Selected;
    assert pages[1..] == [];
    FirstIsIn(pages[0].keys);
  }

  lemma FirstIsIn(keys: seq<Bytes>)
    ensures keys == [] || keys[0] in keys
  {
  }

  lemma WalkReturns(r: Tiers, k: Bytes, cursor: nat, keys: seq<Bytes>, pattern: Bytes, now: nat)
    requires Wellformed(r) && Lookup(r, k).Some? && !Due(Lookup(r, k).value.expireAt, now) && Selected(pattern, k)
    requires Collected(keys, r, pattern, now, cursor, Buckets(r))
    ensures k in keys <==> cursor <= Pos(r, k)
  {
    hide Selected, Lookup, Pos, Records, Distinct;
    LookupGet(r, k, now);
    PosBound(r, k);
  }
}
