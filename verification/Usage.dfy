/** What the kernels' victims mean to a client: the keys it has read least, or used longest
    ago. Along every run under one kernel the entries' fields are what the requests and
    replies of the run say. */
module Usage {
  import opened Common
  import opened Chains
  import opened Values
  import opened Reference
  import opened Tiers
  import opened Watching
  import opened Positions
  import opened Eviction
  import opened Keyspace
  import opened Server
  import Lists
  import SortedSets

  // ----- what a run says of each key -----

  /** What a command came to, from the request, the keyspace it found and its reply: a GET
      that hit, a string write or a write to a collection, on a key that was missing or not,
      a move to another name, or a list shortened. */
  datatype Happening =
    | NoUse
    | Hit(key: Bytes)
    | Wrote(key: Bytes, missing: bool)
    | Grew(key: Bytes, missing: bool)
    | Moved(from: Bytes, key: Bytes)
    | Cut(key: Bytes)

  function Growing(k: Bytes, missing: bool, some: bool, r: Reply): Happening {
    if some && (missing || r.Int?) then Grew(k, missing) else NoUse
  }

  function Happened(before: Db, cmd: Command, now: nat, r: Reply): Happening {
    if TooManyArguments(cmd) then NoUse
    else match cmd
      case Read(k) => if r.Bulk? then Hit(k) else NoUse
      case Set(k, _, _, _) => if r == Ok then Wrote(k, Get(before, k, now).None?) else NoUse
      case Append(k, v) =>
        if Get(before, k, now).None? || (r.Int? && |v| > 0) then Wrote(k, Get(before, k, now).None?) else NoUse
      case Rename(k, nk, nx) =>
        if Get(before, k, now).Some? && k != nk && !(nx && Get(before, nk, now).Some?) then Moved(k, nk) else NoUse
      case HSet(k, pairs) => Growing(k, Get(before, k, now).None?, |pairs| > 0, r)
      case Push(k, _, vals) => Growing(k, Get(before, k, now).None?, |vals| > 0, r)
      case ZAdd(k, batch) => Growing(k, Get(before, k, now).None?, |batch| > 0, r)
      case LRem(k, count, x) =>
        var found := Get(before, k, now);
        if found.Some? && found.value.data.DList? && |Lists.Removed(found.value.data.items, count, x)| > 0
        then Cut(k) else NoUse
      case LTrim(k, start, stop) =>
        var found := Get(before, k, now);
        if found.Some? && found.value.data.DList? && |Lists.Slice(found.value.data.items, start, stop)| > 0
        then Cut(k) else NoUse
      case _ => NoUse
  }

  /** GET hits since the key was created, whether one came after its last string write, and
      the number of the event that last used it. */
  datatype Life = Life(hits: nat, again: bool, last: nat)

  function LifeOf(h: map<Bytes, Life>, k: Bytes): Life {
    if k in h then h[k] else Life(0, false, 0)
  }

  /** The history after event n. */
  function Lived(h: map<Bytes, Life>, w: Happening, n: nat): map<Bytes, Life> {
    match w
    case NoUse => h
    case Hit(k) => h[k := Life(LifeOf(h, k).hits + 1, true, n)]
    case Wrote(k, missing) => h[k := Life(if missing then 0 else LifeOf(h, k).hits, false, n)]
    case Grew(k, missing) => h[k := if missing then Life(0, false, n) else LifeOf(h, k).(last := n)]
    case Moved(k, nk) => h[nk := Life(LifeOf(h, k).hits, false, n)]
    case Cut(k) => h[k := LifeOf(h, k).(last := n)]
  }

  // ----- the marks say the same -----

  /** What a mark says of a key with that life. */
  predicate MarkSays(kernel: Kernel, freq: nat, l: Life) {
    match kernel
    case Lfu => freq == if l.hits < 250 then 5 + l.hits else 255
    case Slru => freq >= 1 <==> l.again
    case TinyLfu => freq >= 1 <==> l.again
    case _ => true
  }

  /** The marks of the keys in the keyspace: as their lives say, and in the order of their
      last uses, of which no two are the same. */
  ghost predicate Fits(kernel: Kernel, db: Db, marks: map<Bytes, Mark>, clock: nat, h: map<Bytes, Life>, n: nat) {
    && (forall k :: k in db ==>
          k in marks && k in h && h[k].last < n && marks[k].last <= clock && MarkSays(kernel, marks[k].freq, h[k]))
    && (forall j, k :: j in db && k in db && j != k ==>
          h[j].last != h[k].last && (h[j].last < h[k].last <==> marks[j].last < marks[k].last))
  }

  /** One key used by event n, the others as they were. */
  lemma FitsUsed(kernel: Kernel, db: Db, m: map<Bytes, Mark>, c: nat, h: map<Bytes, Life>, n: nat,
                 after: Db, m': map<Bytes, Mark>, c': nat, l: Life, k: Bytes, f: nat)
    requires Fits(kernel, db, m, c, h, n) && Notes(m, c, m', c', Touch(k, f))
    requires forall q :: q in after && q != k ==> q in db
    requires l.last == n && MarkSays(kernel, f, l)
    ensures Fits(kernel, after, m', c', h[k := l], n + 1)
  {
    hide MarkSays;
  }

  lemma FitsSame(kernel: Kernel, db: Db, m: map<Bytes, Mark>, c: nat, h: map<Bytes, Life>, n: nat, after: Db,
                 m': map<Bytes, Mark>, c': nat)
    requires Fits(kernel, db, m, c, h, n) && Notes(m, c, m', c', Use.Nothing) && forall q :: q in after ==> q in db
    ensures Fits(kernel, after, m', c', h, n + 1)
  {
    hide MarkSays;
  }

  /** What the kernels note of it. */
  function UseFor(kernel: Kernel, m: map<Bytes, Mark>, w: Happening): Use {
    match w
    case NoUse => Use.Nothing
    case Hit(k) => Touch(k, HitFreq(kernel, FreqOf(m, k)))
    case Wrote(k, missing) => Touch(k, WriteFreq(kernel, if missing then 5 else FreqOf(m, k)))
    case Grew(k, missing) => Touch(k, if missing then WriteFreq(kernel, 5) else FreqOf(m, k))
    case Moved(k, nk) => Touch(nk, WriteFreq(kernel, FreqOf(m, k)))
    case Cut(k) => Touch(k, FreqOf(m, k))
  }

  lemma UseIs(kernel: Kernel, m: map<Bytes, Mark>, before: Db, cmd: Command, now: nat, r: Reply)
    ensures UsedBy(kernel, m, before, cmd, now, r) == UseFor(kernel, m, Happened(before, cmd, now, r))
  {
    hide HitFreq, WriteFreq, Lists.Removed, Lists.Slice;
  }

  /** What it used is new, or was there; nothing else is new. */
  lemma HappenedTo(before: Db, cmd: Command, now: nat, exact: bool, after: Db, r: Reply)
    requires Ran(before, cmd, now, exact, after, r)
    ensures var w := Happened(before, cmd, now, r);
      && (w.NoUse? ==> forall q :: q in after ==> q in before)
      && (!w.NoUse? ==> forall q :: q in after && q != w.key ==> q in before)
      && (w.Hit? || w.Cut? || ((w.Wrote? || w.Grew?) && !w.missing) ==> w.key in before)
      && (w.Moved? ==> w.from in before)
  {
    hide SetFields, DropFields, SortedSets.PutAll, SortedSets.RemoveAll, SortedSets.FreshIn, Shrink, Lists.Removed,
      Lists.Slice, Lists.Pushed, Lists.Popped;
    if !TooManyArguments(cmd) && !cmd.FlushDb? && !cmd.DbSize? && !cmd.Rename? {
      StepOnKey(before, cmd, now);
      OnlyGrowthIsNew(before, cmd, now, exact, after, r);
    }
  }

  lemma OnlyGrowthIsNew(before: Db, cmd: Command, now: nat, exact: bool, after: Db, r: Reply)
    requires Ran(before, cmd, now, exact, after, r) && !TooManyArguments(cmd)
    requires !cmd.FlushDb? && !cmd.DbSize? && !cmd.Rename?
    ensures forall q :: q in after && q != cmd.key ==> q in before
    ensures var w := Happened(before, cmd, now, r);
      && (w.NoUse? ==> cmd.key in after ==> cmd.key in before)
      && (!w.NoUse? ==> w.key == cmd.key)
      && (w.Hit? || w.Cut? || ((w.Wrote? || w.Grew?) && !w.missing) ==> w.key in before)
  {
    hide SetFields, DropFields, SortedSets.PutAll, SortedSets.RemoveAll, SortedSets.FreshIn, Shrink, Lists.Removed,
      Lists.Slice, Lists.Pushed, Lists.Popped;
    StepOnKey(before, cmd, now);
  }

  /** The kernels' arithmetic, in lives. */
  lemma SaysOn(kernel: Kernel, m: map<Bytes, Mark>, h: map<Bytes, Life>, w: Happening, n: nat, k: Bytes)
    requires !w.NoUse? && k == if w.Moved? then w.from else w.key
    requires !((w.Wrote? || w.Grew?) && w.missing) ==> k in m && k in h && MarkSays(kernel, m[k].freq, h[k])
    ensures w.key in Lived(h, w, n) && Lived(h, w, n) == h[w.key := Lived(h, w, n)[w.key]]
    ensures Lived(h, w, n)[w.key].last == n
    ensures UseFor(kernel, m, w).Touch? && UseFor(kernel, m, w).key == w.key
    ensures MarkSays(kernel, UseFor(kernel, m, w).freq, Lived(h, w, n)[w.key])
  {
  }

  /** One command keeps the marks in step with the history. */
  lemma CommandLives(kernel: Kernel, before: Db, m: map<Bytes, Mark>, c: nat, h: map<Bytes, Life>, n: nat,
                     cmd: Command, now: nat, exact: bool, r: Reply, after: Db, m': map<Bytes, Mark>, c': nat)
    requires Fits(kernel, before, m, c, h, n) && Ran(before, cmd, now, exact, after, r)
    requires Notes(m, c, m', c', UsedBy(kernel, m, before, cmd, now, r))
    ensures Fits(kernel, after, m', c', Lived(h, Happened(before, cmd, now, r), n), n + 1)
  {
    hide Notes, Ran, MarkSays, UseFor, Happened, UsedBy, Lived;
    var w := Happened(before, cmd, now, r);
    UseIs(kernel, m, before, cmd, now, r);
    HappenedTo(before, cmd, now, exact, after, r);
    if w.NoUse? {
      NoUseIs(kernel, m, h, n);
      FitsSame(kernel, before, m, c, h, n, after, m', c');
    } else {
      SaysOn(kernel, m, h, w, n, if w.Moved? then w.from else w.key);
      FitsUsed(kernel, before, m, c, h, n, after, m', c', Lived(h, w, n)[w.key], w.key, UseFor(kernel, m, w).freq);
    }
  }

  lemma NoUseIs(kernel: Kernel, m: map<Bytes, Mark>, h: map<Bytes, Life>, n: nat)
    ensures UseFor(kernel, m, NoUse) == Use.Nothing && Lived(h, NoUse, n) == h
  {
  }

  // ----- runs -----

  /** What happens to a store: commands, and what moves, expires or evicts entries besides. */
  datatype Event =
    | Do(cmd: Command, now: nat)
    | Relayout(want: Keyspace.Layout)
    | Sweep(effort: int, now: nat)
    | Limit(bytes: nat, now: nat)
    | PromoteOnGet(on: bool)

  /** One event, as a client and the operator see it. */
  ghost predicate Passed(a: Db, e: Event, b: Db, r: Reply) {
    match e
    case Do(cmd, now) => exists exact :: Ran(a, cmd, now, exact, b, r)
    case Sweep(_, now) => Trimmed(a, b, now, true)
    case Limit(_, now) => exists exact :: Trimmed(a, b, now, exact)
    case _ => b == a
  }

  /** The history of a run, from its requests and replies and the keyspaces they met; its
      events are numbered from `first`. */
  function History(h: map<Bytes, Life>, first: nat, trace: seq<Db>, events: seq<Event>, replies: seq<Reply>, n: nat)
    : map<Bytes, Life>
    requires |replies| == |events| == n && |trace| == n + 1
    decreases n
  {
    if n == 0 then h
    else
      var m := n - 1;
      var before := History(h, first, trace[..n], events[..m], replies[..m], m);
      if events[m].Do?
      then Lived(before, Happened(trace[m], events[m].cmd, events[m].now, replies[m]), first + m)
      else before
  }

  lemma FitsNone(kernel: Kernel, marks: map<Bytes, Mark>, clock: nat, h: map<Bytes, Life>, n: nat)
    ensures Fits(kernel, map[], marks, clock, h, n)
  {
  }

  lemma HistoryNone(h: map<Bytes, Life>, first: nat, trace: seq<Db>)
    requires |trace| == 1
    ensures History(h, first, trace, [], [], 0) == h
  {
  }

  lemma HistoryMore(h: map<Bytes, Life>, first: nat, trace: seq<Db>, events: seq<Event>, replies: seq<Reply>, n: nat,
                    after: Db, r: Reply)
    requires n < |events| && |replies| == n && |trace| == n + 1
    ensures var was, e := History(h, first, trace, events[..n], replies, n), events[n];
      History(h, first, trace + [after], events[..n + 1], replies + [r], n + 1)
        == if e.Do? then Lived(was, Happened(trace[n], e.cmd, e.now, r), first + n) else was
  {
    hide Lived, Happened;
    assert events[..n + 1][..n] == events[..n] && (replies + [r])[..n] == replies;
    assert (trace + [after])[..n + 1] == trace;
  }

  ghost predicate InStep(st: Store, h: map<Bytes, Life>, n: nat)
    reads st
  {
    Fits(st.settings.kernel, st.Db(), st.leak.marks, st.clock, h, n)
  }

  /** One event run on the store. */
  method Happen(st: Store, e: Event, ghost h: map<Bytes, Life>, ghost n: nat) returns (r: Reply)
    requires st.Valid() && InStep(st, h, n)
    modifies st
    ensures st.Valid() && st.settings.kernel == old(st.settings.kernel) && Passed(old(st.Db()), e, st.Db(), r)
    ensures InStep(st, if e.Do? then Lived(h, Happened(old(st.Db()), e.cmd, e.now, r), n) else h, n + 1)
  {
    hide Consistent, WatchOk, Records, SameClients, Trimmed, Fits, Lived, Happened, UsedBy, Follows, Drifts, Warns,
      CommandMoves, Store.EvictedDown;
    ghost var a, m, c, kernel := st.Db(), st.leak.marks, st.clock, st.settings.kernel;
    r := Ok;
    match e
    case Do(cmd, now) =>
      ghost var exact := st.EvictionOff();
      r := Execute(st, cmd, now);
      RanOne(a, cmd, now, exact, st.Db(), r);
      CommandLives(kernel, a, m, c, h, n, cmd, now, exact, r, st.Db(), st.leak.marks, st.clock);
    case Relayout(want) =>
      st.SetLayout(want);
      FitsSame(kernel, a, m, c, h, n, st.Db(), st.leak.marks, st.clock);
    case Sweep(effort, now) =>
      var freed := st.ActiveExpire(effort, now);
      TrimmedKeys(a, st.Db(), now, true);
      FitsSame(kernel, a, m, c, h, n, st.Db(), st.leak.marks, st.clock);
    case Limit(bytes, now) =>
      st.SetMaxmemory(bytes, now);
      TrimmedKeys(a, st.Db(), now, st.EvictionOff());
      FitsSame(kernel, a, m, c, h, n, st.Db(), st.leak.marks, st.clock);
    case PromoteOnGet(on) =>
      st.SetPromoteOnGet(on);
      FitsSame(kernel, a, m, c, h, n, st.Db(), st.leak.marks, st.clock);
  }

  lemma TrimmedKeys(full: Db, part: Db, now: nat, exact: bool)
    requires Trimmed(full, part, now, exact)
    ensures forall q :: q in part ==> q in full
  {
  }

  /** Along every run under one kernel, from an empty store, or from any whose history up to
      `first` is known, the marks are what the run's requests and replies say. */
  method RunLives(st: Store, events: seq<Event>, ghost h: map<Bytes, Life>, ghost first: nat)
    returns (replies: seq<Reply>, ghost trace: seq<Db>)
    requires st.Valid() && (st.Db() == map[] || InStep(st, h, first))
    modifies st
    ensures st.Valid() && st.settings.kernel == old(st.settings.kernel)
    ensures |replies| == |events| && |trace| == |events| + 1 && trace[0] == old(st.Db()) && trace[|events|] == st.Db()
    ensures forall t :: 0 <= t < |events| ==> Passed(trace[t], events[t], trace[t + 1], replies[t])
    ensures InStep(st, History(h, first, trace, events, replies, |events|), first + |events|)
  {
    hide Consistent, WatchOk, Records, Passed, Lived, Happened, Fits, History;
    HistoryNone(h, first, [st.Db()]);
    FitsNone(st.settings.kernel, st.leak.marks, st.clock, h, first);
    replies, trace := [], [st.Db()];
    assert events[..0] == [];
    for n := 0 to |events|
      invariant st.Valid() && st.settings.kernel == old(st.settings.kernel)
      invariant |replies| == n && |trace| == n + 1 && trace[0] == old(st.Db()) && trace[n] == st.Db()
      invariant forall t :: 0 <= t < n ==> Passed(trace[t], events[t], trace[t + 1], replies[t])
      invariant InStep(st, History(h, first, trace, events[..n], replies, n), first + n)
    {
      ghost var now, before, prior := History(h, first, trace, events[..n], replies, n), trace, replies;
      var r := Happen(st, events[n], now, first + n);
      replies, trace := replies + [r], trace + [st.Db()];
      HistoryMore(h, first, before, events, prior, n, st.Db(), r);
    }
    assert events[..|events|] == events;
  }

  // ----- victims -----

  /** Every sample is linked as it was sampled. */
  lemma SamplesLinked(kernel: Kernel, rand: nat -> nat, s: Tiers, drawn: nat, now: nat, limit: nat)
    requires Wellformed(s)
    ensures var got := Round(kernel, rand, s, drawn, now, limit).got;
      forall i :: 0 <= i < |got| ==> Lookup(s, got[i].key) == Some(got[i].entry)
  {
    hide Wellformed, Purged, Fair, Walk, Lookup, Best;
    if Total(s, Keys) > 0 {
      NothingSampled(s, now);
      WalkFacts(rand, s, drawn, now, limit, 0, []);
      var w := Walk(rand, s, drawn, now, limit, 0, []);
      PurgedLookups(s, w.tiers, now);
      forall i | 0 <= i < |w.got| ensures Lookup(s, w.got[i].key) == Some(w.got[i].entry) {
        FairAt(w.got, w.tiers, now, i);
      }
    }
  }

  /** Whether the kernel may free v rather than x. Under lfu v was read no more often, up to
      250 hits, and of those read equally often used longest ago; under slru and tinylfu it
      was not read since its last write if x was not, and among such used longest ago; under
      ttl_aware it has a deadline if x has, and the sooner one; otherwise, and under lru, it was
      used longest ago. */
  predicate Rather(kernel: Kernel, h: map<Bytes, Life>, v: Sample, x: Sample) {
    var a, b := LifeOf(h, v.key), LifeOf(h, x.key);
    match kernel
    case Lfu => a.hits < b.hits || (Min(a.hits, 250) == Min(b.hits, 250) && a.last <= b.last)
    case Slru => (!a.again && b.again) || (a.again == b.again && a.last <= b.last)
    case TinyLfu => (!a.again && b.again) || (a.again == b.again && a.last <= b.last)
    case TtlAware =>
      if x.entry.expireAt == 0 then v.entry.expireAt != 0 || a.last <= b.last
      else v.entry.expireAt != 0
           && (v.entry.expireAt < x.entry.expireAt || (v.entry.expireAt == x.entry.expireAt && a.last <= b.last))
    case _ => a.last <= b.last
  }

  /** The victim of a round, in the terms of the run: no sample should rather have gone. */
  lemma VictimIs(kernel: Kernel, rand: nat -> nat, s: Tiers, drawn: nat, now: nat, limit: nat,
                 marks: map<Bytes, Mark>, clock: nat, h: map<Bytes, Life>, n: nat)
    requires Wellformed(s) && AllMarked(s, marks) && Fits(kernel, Records(s), marks, clock, h, n)
    ensures var e := Round(kernel, rand, s, drawn, now, limit);
      e.victim.Some? ==> e.victim.value in e.got && forall x :: x in e.got ==> Rather(kernel, h, e.victim.value, x)
  {
    hide Wellformed, Walk, Lookup, Records, Best, Fits, Rather, Preference, AllMarked;
    var e := Round(kernel, rand, s, drawn, now, limit);
    RoundFacts(kernel, rand, s, drawn, now, limit);
    SamplesLinked(kernel, rand, s, drawn, now, limit);
    if e.victim.Some? {
      var i := BestIs(kernel, e.got);
      BestOfRound(kernel, rand, s, drawn, now, limit);
      var v := e.got[i];
      forall x | x in e.got ensures Rather(kernel, h, v, x) {
        var j :| 0 <= j < |e.got| && e.got[j] == x;
        SampleMarked(s, marks, v);
        SampleMarked(s, marks, x);
        NotBefore(kernel, Records(s), marks, clock, h, n, v, x);
      }
    }
  }

  lemma BestOfRound(kernel: Kernel, rand: nat -> nat, s: Tiers, drawn: nat, now: nat, limit: nat)
    ensures var e := Round(kernel, rand, s, drawn, now, limit); Total(s, Keys) > 0 ==> e.victim == Best(kernel, e.got)
  {
    hide Walk, Best;
  }

  lemma SampleMarked(s: Tiers, marks: map<Bytes, Mark>, x: Sample)
    requires AllMarked(s, marks) && Lookup(s, x.key) == Some(x.entry)
    ensures x.key in Records(s) && x.key in marks && marks[x.key] == MarkOf(x.entry)
  {
    hide Lookup, Records;
    RecordAt(s, x.key);
  }

  lemma NotBefore(kernel: Kernel, db: Db, marks: map<Bytes, Mark>, clock: nat, h: map<Bytes, Life>, n: nat,
                  v: Sample, x: Sample)
    requires Fits(kernel, db, marks, clock, h, n) && v.key in db && x.key in db
    requires v.key in marks && marks[v.key] == MarkOf(v.entry) && x.key in marks && marks[x.key] == MarkOf(x.entry)
    requires v.key == x.key ==> v == x
    requires !Precedes(Preference(kernel, x.entry), Preference(kernel, v.entry))
    ensures Rather(kernel, h, v, x)
  {
    if v.key != x.key {
      assert h[v.key].last < h[x.key].last <==> marks[v.key].last < marks[x.key].last;
      assert h[x.key].last < h[v.key].last <==> marks[x.key].last < marks[v.key].last;
    }
  }

  /** evict_one after any run under one kernel: of the keys it samples it frees the one with
      the fewest hits, or used longest ago, as the run's own requests and replies say. */
  method EvictAfterRun(st: Store, events: seq<Event>, now: nat)
    returns (ok: bool, replies: seq<Reply>, ghost trace: seq<Db>, ghost got: seq<Sample>, ghost victim: Option<Sample>)
    requires st.Valid() && st.Db() == map[]
    modifies st
    ensures st.Valid() && |replies| == |events| && |trace| == |events| + 1 && trace[0] == map[]
    ensures forall t :: 0 <= t < |events| ==> Passed(trace[t], events[t], trace[t + 1], replies[t])
    ensures ok == victim.Some? && (ok <==> |got| > 0) && forall k :: k in st.Db() ==> k in trace[|events|]
    ensures ok ==>
      && victim.value in got && victim.value.key in trace[|events|] && victim.value.key !in st.Db()
      && forall x :: x in got ==>
           && x.key in trace[|events|]
           && Rather(st.settings.kernel, History(map[], 0, trace, events, replies, |events|), victim.value, x)
  {
    hide Consistent, WatchOk, Records, Passed, Fits, Walk, Best, Rather, Drifts, SameClients, Trimmed, Round, Lookup,
      AllMarked, Wellformed;
    replies, trace := RunLives(st, events, map[], 0);
    ghost var s, d, h := st.tiers, st.drawn, History(map[], 0, trace, events, replies, |events|);
    ghost var kernel, limit, marks := st.settings.kernel, st.SampleLimit(), st.leak.marks;
    assert Wellformed(s) && AllMarked(s, st.leak.marks) by { BooksAre(st); }
    VictimIs(kernel, st.rand, s, d, now, limit, st.leak.marks, st.clock, h, |events|);
    ghost var e := Round(kernel, st.rand, s, d, now, limit);
    got, victim := e.got, e.victim;
    RoundFacts(kernel, st.rand, s, d, now, limit);
    SamplesLinked(kernel, st.rand, s, d, now, limit);
    ghost var before := st.Db();
    ok := st.EvictOne(now, {});
    TrimmedKeys(before, st.Db(), now, !ok);
    forall x | x in got ensures x.key in before { SampleMarked(s, marks, x); }
    if ok { VictimGone(kernel, st.rand, s, d, now, limit); RecordAt(st.tiers, victim.value.key); }
  }

  lemma VictimGone(kernel: Kernel, rand: nat -> nat, s: Tiers, drawn: nat, now: nat, limit: nat)
    requires Wellformed(s)
    ensures var e := Round(kernel, rand, s, drawn, now, limit);
      e.victim.Some? ==> Lookup(e.tiers, e.victim.value.key).None?
  {
    hide Wellformed, Purged, Fair, Walk, Lookup, Find, Without, Best;
    if Total(s, Keys) > 0 {
      NothingSampled(s, now);
      WalkFacts(rand, s, drawn, now, limit, 0, []);
      SampleLinked(kernel, rand, s, drawn, now, limit);
      var w := Walk(rand, s, drawn, now, limit, 0, []);
      var b := Best(kernel, w.got);
      if b.Some? {
        HasHot(w.tiers);
        WithoutIs(w.tiers, b.value.key);
      }
    }
  }

  lemma BooksAre(st: Store)
    requires st.Valid()
    ensures Wellformed(st.tiers) && AllMarked(st.tiers, st.leak.marks)
  {
  }
}
