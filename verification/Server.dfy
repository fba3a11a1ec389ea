/** Command dispatch for many clients over one store, with WATCH, MULTI, EXEC and
    DISCARD; and what every run of it guarantees. */
module Server {
  import opened Common
  import opened Reference
  import opened Tiers
  import opened Watching
  import opened Positions
  import opened Keyspace
  import Eviction
  import SortedSets
  import Values

  /** One data command at one time. */
  method Execute(st: Store, cmd: Command, now: nat) returns (r: Reply)
    requires st.Valid()
    modifies st
    ensures st.Valid() && st.Kept()
    ensures TooManyArguments(cmd) ==> r == Fail(TooMany) && st.Db() == old(st.Db())
    ensures !TooManyArguments(cmd) ==> Follows(old(st.Db()), cmd, now, st.EvictionOff(), st.Db(), r)
    ensures NoEmpties(old(st.Db())) ==> NoEmpties(st.Db())
    ensures Drifts(old(st.tiers), st.tiers, CommandMoves(old(st.tiers), old(st.settings.promoteOnGet), cmd, now))
    ensures Warns(old(st.conns), st.conns, old(st.Db()), st.Db(), Touches(old(st.Db()), cmd, now))
    ensures st.leak.unruly <= Spoilt(cmd, old(st.leak.unruly))
    ensures Notes(old(st.leak.marks), old(st.clock), st.leak.marks, st.clock,
                  UsedBy(old(st.settings.kernel), old(st.leak.marks), old(st.Db()), cmd, now, r))
  {
    hide Follows, Consistent, WatchOk, Records, SameClients, NoEmpties, Drifts, CommandMoves, Stirred, Warns, Spoilt,
      UseOf;
    SpoiltKeeps(cmd, st.leak.unruly);
    if TooManyArguments(cmd) {
      ClientsSelf(st.conns);
      WarnsSelf(st.conns, st.Db(), iset{});
      DriftsSelf(st.tiers, CommandMoves(st.tiers, st.settings.promoteOnGet, cmd, now));
      return Fail(TooMany);
    }
    ghost var before, off := st.Db(), st.EvictionOff();
    if Growth(cmd) {
      r := ExecuteGrowth(st, cmd, now);
    } else {
      r := ExecuteExact(st, cmd, now);
      FollowsLoosely(before, cmd, now, off, st.Db(), r);
    }
    if NoEmpties(before) { FollowsFilled(before, cmd, now, off, st.Db(), r); }
    Told(st.conns, st.seen, st.since, st.Db(), {}, Stirred(before, cmd, now));
  }

  function UsedBy(kernel: Eviction.Kernel, marks: map<Bytes, Mark>, db: Db, cmd: Command, now: nat, r: Reply): Use {
    if TooManyArguments(cmd) then Nothing else UseOf(kernel, marks, db, cmd, now, r)
  }

  lemma ClientsSelf(a: seq<Conn>)
    ensures SameClients(a, a)
  {
  }

  /** The commands that end with an eviction loop. */
  predicate Growth(cmd: Command) {
    cmd.Set? || cmd.Append? || cmd.Rename? || cmd.HSet? || cmd.Push? || cmd.ZAdd?
  }

  method ExecuteGrowth(st: Store, cmd: Command, now: nat) returns (r: Reply)
    requires st.Valid() && Growth(cmd) && !TooManyArguments(cmd)
    modifies st
    ensures st.Valid() && st.Kept() && Follows(old(st.Db()), cmd, now, st.EvictionOff(), st.Db(), r)
    ensures Drifts(old(st.tiers), st.tiers, CommandMoves(old(st.tiers), old(st.settings.promoteOnGet), cmd, now))
    ensures st.Began(Stirred(old(st.Db()), cmd, now)) && st.leak.unruly <= Spoilt(cmd, old(st.leak.unruly))
    ensures Notes(old(st.leak.marks), old(st.clock), st.leak.marks, st.clock,
                  UseOf(old(st.settings.kernel), old(st.leak.marks), old(st.Db()), cmd, now, r))
  {
    hide Follows, Consistent, WatchOk, Records, SameClients, Drifts, MayFall, MayStart, Store.Settled, Step, Stirred,
      SortedSets.Numbers;
    match cmd
    case Set(k, v, guard, ttl) => r := st.Set(k, v, guard, ttl, now);
    case Append(k, v) => r := st.Append(k, v, now);
    case Rename(k, nk, nx) => r := st.Rename(k, nk, nx, now);
    case HSet(k, pairs) => r := st.HSet(k, pairs, now);
    case Push(k, left, vals) => r := st.Push(k, left, vals, now);
    case ZAdd(k, batch) => r := st.ZAdd(k, batch, now);
  }

  /** The commands that never evict. */
  method ExecuteExact(st: Store, cmd: Command, now: nat) returns (r: Reply)
    requires st.Valid() && !Growth(cmd)
    modifies st
    ensures st.Valid() && st.Kept()
    ensures Follows(old(st.Db()), cmd, now, true, st.Db(), r)
    ensures Drifts(old(st.tiers), st.tiers, CommandMoves(old(st.tiers), old(st.settings.promoteOnGet), cmd, now))
    ensures st.Began(Stirred(old(st.Db()), cmd, now)) && st.leak.unruly <= old(st.leak.unruly)
    ensures Notes(old(st.leak.marks), old(st.clock), st.leak.marks, st.clock,
                  UseOf(old(st.settings.kernel), old(st.leak.marks), old(st.Db()), cmd, now, r))
  {
    hide Follows, Consistent, WatchOk, Records, SameClients, Drifts, MayFall, Step, OnKey;
    match cmd
    case Read(k) => r := st.Read(k, now);
    case Del(k) => r := st.Del(k, now);
    case Expire(k, w) => r := st.Expire(k, w, now);
    case TimeLeft(k, millis) => r := st.TimeLeft(k, millis, now);
    case Pin(k) => r := st.Pin(k, true, now);
    case Unpin(k) => r := st.Pin(k, false, now);
    case FlushDb =>
      ghost var before := st.Db();
      st.FlushDb();
      r := Ok;
      FlushFollows(before, now, st.Db());
    case DbSize => r := st.DbSize(now);
    case HGet(k, f) => r := st.HGet(k, f, now);
    case HDel(k, fields) => r := st.HDel(k, fields, now);
    case Pop(k, left) => r := st.Pop(k, left, now);
    case LRange(k, a, z) => r := st.LRange(k, a, z, now);
    case LRem(k, count, x) => r := st.LRem(k, count, x, now);
    case LTrim(k, a, z) => r := st.LTrim(k, a, z, now);
    case ZRem(k, members) => r := st.ZRem(k, members, now);
    case ZScore(k, member) => r := st.ZScore(k, member, now);
  }

  lemma FlushFollows(before: Db, now: nat, after: Db)
    requires after == map[]
    ensures Follows(before, Command.FlushDb, now, true, after, Ok)
  {
  }

  // ----- the layout cannot be observed -----

  ghost predicate NonDecreasing(times: seq<nat>) {
    forall i, j :: 0 <= i < j < |times| ==> times[i] <= times[j]
  }

  /** One command seen from a plain map that shows the same live records. */
  lemma PerformAgrees(db: Db, m: Db, cmd: Command, now: nat, after: Db, r: Reply)
    requires SameLive(db, m, now)
    requires if TooManyArguments(cmd) then r == Fail(TooMany) && after == db else Follows(db, cmd, now, true, after, r)
    ensures r == Perform(m, cmd, now).1 && SameLive(after, Perform(m, cmd, now).0, now)
  {
    if !TooManyArguments(cmd) {
      StepSameLive(db, m, cmd, now);
      TrimmedSameLive(Step(db, cmd, now).0, after, now);
      assert forall k :: Get(after, k, now) == Get(Step(db, cmd, now).0, k, now);
    }
  }

  /** With eviction off, every run of commands mixed with layout changes and expiry
      sweeps (and the rehashes, promotions and demotions the commands cause) gives
      the replies of the plain map. */
  method RunQuiet(st: Store, events: seq<Event>, times: seq<nat>) returns (replies: seq<Reply>)
    requires st.Valid() && st.EvictionOff() && |events| == |times| && NonDecreasing(times)
    modifies st
    ensures st.Valid() && replies == Answers(old(st.Db()), events, times)
  {
    hide Consistent, WatchOk, Records, SameClients, Follows, SameLive, Trimmed, Perform;
    replies := [];
    ghost var m := st.Db();
    SameLiveSelf(m);
    assert events[0..] == events && times[0..] == times;
    for i := 0 to |events|
      invariant st.Valid() && st.EvictionOff()
      invariant i < |events| ==> SameLive(st.Db(), m, times[i])
      invariant replies + Answers(m, events[i..], times[i..]) == Answers(old(st.Db()), events, times)
    {
      assert events[i..][1..] == events[i + 1..] && times[i..][1..] == times[i + 1..];
      ghost var before := st.Db();
      match events[i] {
        case Do(cmd) =>
          var r := Execute(st, cmd, times[i]);
          PerformAgrees(before, m, cmd, times[i], st.Db(), r);
          replies := replies + [r];
          m := Perform(m, cmd, times[i]).0;
        case Relayout(hotCold) =>
          st.SetLayout(if hotCold then HotCold else Flat);
        case Sweep(effort) =>
          var freed := st.ActiveExpire(effort, times[i]);
          TrimmedSameLive(before, st.Db(), times[i]);
          SameLiveJoin(before, st.Db(), m, times[i]);
      }
      if i + 1 < |events| { SameLiveLater(st.Db(), m, times[i], times[i + 1]); }
    }
  }

  lemma SameLiveSelf(m: Db)
    ensures forall now :: SameLive(m, m, now)
  {
  }

  lemma SameLiveJoin(a: Db, b: Db, m: Db, now: nat)
    requires SameLive(a, b, now) && SameLive(a, m, now)
    ensures SameLive(b, m, now)
  {
    forall k ensures Get(b, k, now) == Get(m, k, now) { assert Get(a, k, now) == Get(b, k, now); }
  }

  // ----- transactions -----

  const QUEUE_WORDS: nat := 32

  datatype Request =
    | Data(cmd: Command)
    | Watch(keys: seq<Bytes>)
    | Unwatch
    | Multi
    | Discard
    | Exec
    | Connect
    | Close
    // the operator's requests, outside any transaction
    | Layout(want: Keyspace.Layout)
    | Evict(kernel: Eviction.Kernel)
    | PromoteOnGet(on: bool)
    | MaxMemory(bytes: nat)
    | Expiry(effort: int)

  datatype Response = Single(reply: Reply) | Accepted | Queued | Refused | Aborted | Results(replies: seq<Reply>)

  /** What can be seen of a server between two requests: the clients, the keyspace, whether
      it evicts, and which keys may hold sorted sets out of order. */
  datatype Moment = Moment(conns: seq<Conn>, db: Db, exact: bool, unruly: set<Bytes>)

  ghost function Now(st: Store): Moment
    reads st
  {
    Moment(st.conns, st.Db(), st.EvictionOff(), st.leak.unruly)
  }

  predicate Guards(c: Conn, k: Bytes) {
    c.inUse && !c.dirty && k in c.watch
  }

  /** From one moment to the next: if a connection still watches a key and is not
      dirty, then it was not dirty before either and the key holds what it held. */
  ghost predicate Quietly(a: Moment, b: Moment) {
    && |a.conns| == |b.conns|
    && forall i :: 0 <= i < |a.conns| ==> Quiet(a.conns[i], a.db, b.conns[i], b.db)
  }

  ghost predicate Quiet(a: Conn, da: Db, b: Conn, db: Db) {
    forall k: Bytes :: Guards(b, k) && k in a.watch ==> Guards(a, k) && ImageIn(da, k) == ImageIn(db, k)
  }

  /** Whatever ran in between, the watch invariant at both ends is enough. */
  lemma QuietlyKept(a: Moment, b: Moment, seen: seq<Sight>, since: Since, later: Since)
    requires WatchOk(a.conns, seen, since, a.db, {}) && WatchOk(b.conns, seen, later, b.db, {})
    requires SameClients(a.conns, b.conns)
    ensures Quietly(a, b)
  {
    forall i | 0 <= i < |a.conns| ensures Quiet(a.conns[i], a.db, b.conns[i], b.db) {
      assert Undisturbed(a.conns[i], seen[i], a.db, {}) && Undisturbed(b.conns[i], seen[i], b.db, {});
    }
  }

  /** A connection's own slot may be rewritten as long as a clean watch stays one. */
  lemma QuietlySlot(a: Moment, b: Moment, i: nat, c: Conn)
    requires Quietly(a, b) && i < |b.conns|
    requires c.watch == [] || (c.dirty == b.conns[i].dirty && c.inUse == b.conns[i].inUse
                               && c.watch == b.conns[i].watch)
    ensures Quietly(a, b.(conns := b.conns[i := c]))
  {
    var d := b.(conns := b.conns[i := c]);
    forall j | 0 <= j < |a.conns| ensures Quiet(a.conns[j], a.db, d.conns[j], d.db) {
      assert Quiet(a.conns[j], a.db, b.conns[j], b.db);
      assert forall k: Bytes :: Guards(d.conns[j], k) ==> Guards(b.conns[j], k);
    }
  }

  lemma QuietlySelf(a: Moment)
    ensures Quietly(a, a)
  {
  }

  /** multi_clear and watch_clear. */
  function Cleared(c: Conn): Conn {
    c.(inMulti := false, queue := [], watch := [], dirty := false)
  }

  // ----- what each request does -----

  /** The keys watched after WATCH: those not there yet are added in order until there
      are 64; and whether all of them were. */
  function Watches(watch: seq<Bytes>, keys: seq<Bytes>): (seq<Bytes>, bool)
    decreases |keys|
  {
    if |keys| == 0 then (watch, true)
    else if keys[0] in watch then Watches(watch, keys[1..])
    else if |watch| >= WATCH_MAX then (watch, false)
    else Watches(watch + [keys[0]], keys[1..])
  }

  /** One command run against the keyspace. */
  ghost predicate Ran(db: Db, cmd: Command, now: nat, exact: bool, after: Db, r: Reply) {
    if TooManyArguments(cmd) then r == Fail(TooMany) && after == db else Follows(db, cmd, now, exact, after, r)
  }

  /** A queue of commands run one after the other, `states` in between. */
  ghost predicate RanAll(db: Db, queue: seq<Command>, now: nat, exact: bool, after: Db, replies: seq<Reply>,
                         states: seq<Db>)
  {
    && |replies| == |queue| && |states| == |queue| + 1 && states[0] == db && states[|queue|] == after
    && forall i :: 0 <= i < |queue| ==> Ran(states[i], queue[i], now, exact, states[i + 1], replies[i])
  }

  ghost predicate RanQueue(db: Db, queue: seq<Command>, now: nat, exact: bool, after: Db, replies: seq<Reply>) {
    exists states: seq<Db> :: RanAll(db, queue, now, exact, after, replies, states)
  }

  /** Connections other than i are as they were, or have become dirty. */
  ghost predicate OthersKept(a: seq<Conn>, b: seq<Conn>, i: nat) {
    |a| == |b| && forall j :: 0 <= j < |a| && j != i ==> b[j] == a[j] || b[j] == a[j].(dirty := true)
  }

  predicate Operator(req: Request) {
    req.Layout? || req.Evict? || req.PromoteOnGet? || req.MaxMemory? || req.Expiry?
  }

  /** What a request of client i makes of one moment, request by request. */
  ghost predicate Effect(a: Moment, i: nat, req: Request, now: nat, b: Moment, resp: Response)
    requires i < |a.conns|
  {
    var c := a.conns[i];
    match req
    case Layout(_) => resp == Accepted && b == a
    case PromoteOnGet(_) => resp == Accepted && b == a
    case Evict(_) => resp == Accepted && b.conns == a.conns && b.db == a.db
    case MaxMemory(_) => resp == Accepted && SameClients(a.conns, b.conns) && Trimmed(a.db, b.db, now, b.exact)
    case Expiry(_) =>
      resp == Accepted && SameClients(a.conns, b.conns) && Trimmed(a.db, b.db, now, true) && b.exact == a.exact
    case Connect =>
      if c.inUse then resp == Refused && b == a
      else resp == Accepted && b == a.(conns := a.conns[i := FREE_CONN.(inUse := true)])
    case Close =>
      if !c.inUse then resp == Refused && b == a
      else resp == Accepted && b == a.(conns := a.conns[i := FREE_CONN])
    case Watch(keys) =>
      if !c.inUse || c.inMulti || |keys| == 0 then resp == Refused && b == a
      else
        var (watch, all) := Watches(c.watch, keys);
        resp == (if all then Accepted else Refused) && b == a.(conns := a.conns[i := c.(watch := watch)])
    case Unwatch =>
      if !c.inUse then resp == Refused && b == a
      else resp == Accepted && b == a.(conns := a.conns[i := c.(watch := [], dirty := false)])
    case Multi =>
      if !c.inUse || c.inMulti then resp == Refused && b == a
      else resp == Accepted && b == a.(conns := a.conns[i := c.(inMulti := true, queue := [])])
    case Discard =>
      if !c.inUse || !c.inMulti then resp == Refused && b == a
      else resp == Accepted && b == a.(conns := a.conns[i := Cleared(c)])
    case Exec =>
      if !c.inUse || !c.inMulti then resp == Refused && b == a
      else if c.dirty then resp == Aborted && b == a.(conns := a.conns[i := Cleared(c)])
      else
        && resp.Results? && RanQueue(a.db, c.queue, now, a.exact, b.db, resp.replies)
        && OthersKept(a.conns, b.conns, i) && b.conns[i] == Cleared(c) && b.exact == a.exact
    case Data(cmd) =>
      if !c.inUse then resp == Refused && b == a
      else if c.inMulti then
        if |c.queue| < QUEUE_MAX && Words(cmd) <= QUEUE_WORDS
        then resp == Queued && b == a.(conns := a.conns[i := c.(queue := c.queue + [cmd])])
        else resp == Refused && b == a
      else
        && resp.Single? && Ran(a.db, cmd, now, a.exact, b.db, resp.reply)
        && SameClients(a.conns, b.conns) && b.exact == a.exact
  }

  ghost function QueueNames(queue: seq<Command>): iset<Bytes> {
    iset k: Bytes | NamedIn(queue, k)
  }

  ghost predicate NamedIn(queue: seq<Command>, k: Bytes) {
    exists j :: 0 <= j < |queue| && k in Names(queue[j])
  }

  /** The keys a request of client i writes: those of the command it runs, or of its queue. */
  ghost function Disturbs(a: Moment, i: nat, req: Request, now: nat): iset<Bytes>
    requires i < |a.conns|
  {
    var c := a.conns[i];
    if req.Data? && c.inUse && !c.inMulti then Touches(a.db, req.cmd, now)
    else if req.Exec? && c.inUse && c.inMulti && !c.dirty then QueueNames(c.queue)
    else iset{}
  }

  /** The keys whose sorted sets may be out of order after it. */
  ghost function Spoils(a: Moment, i: nat, req: Request): set<Bytes>
    requires i < |a.conns|
  {
    var c := a.conns[i];
    if req.Data? && !c.inMulti then Spoilt(req.cmd, a.unruly)
    else if req.Exec? then SpoiltAll(c.queue, a.unruly)
    else a.unruly
  }

  /** And what holds of every request: a connection becomes dirty only if it watches a key
      the request writes or one that is gone after it. */
  ghost predicate Served(a: Moment, i: nat, req: Request, now: nat, b: Moment, resp: Response) {
    && i < |a.conns| && Quietly(a, b) && OthersKept(a.conns, b.conns, i)
    && Warns(a.conns, b.conns, a.db, b.db, Disturbs(a, i, req, now))
    && b.unruly <= Spoils(a, i, req)
    && (NoEmpties(a.db) ==> NoEmpties(b.db))
    && Effect(a, i, req, now, b, resp)
  }

  method SetConn(st: Store, i: nat, c: Conn)
    requires st.Valid() && i < |st.conns|
    requires c.watch == [] || (c.dirty == st.conns[i].dirty && c.inUse == st.conns[i].inUse
                               && c.watch == st.conns[i].watch)
    modifies st`conns, st`since
    ensures st.Valid() && st.conns == old(st.conns)[i := c] && Quietly(old(Now(st)), Now(st))
    ensures Now(st) == old(Now(st)).(conns := old(st.conns)[i := c])
  {
    hide Consistent, Records;
    QuietlySelf(Now(st));
    QuietlySlot(Now(st), Now(st), i, c);
    SlotOk(st.conns, st.seen, st.since, st.Db(), i, c);
    BeginOk(st.conns[i := c], st.seen, st.Db(), {});
    st.conns := st.conns[i := c];
    st.since := Since(st.conns, st.Db(), iset{});
  }

  lemma SlotOk(conns: seq<Conn>, seen: seq<Sight>, since: Since, db: Db, i: nat, c: Conn)
    requires WatchOk(conns, seen, since, db, {}) && i < |conns|
    requires c.watch == [] || (c.dirty == conns[i].dirty && c.inUse == conns[i].inUse && c.watch == conns[i].watch)
    ensures Sighted(conns[i := c], seen, db, {})
  {
    forall j | 0 <= j < |conns| ensures Undisturbed(conns[i := c][j], seen[j], db, {}) {
      assert Undisturbed(conns[j], seen[j], db, {});
    }
  }

  lemma FirstSight(conns: seq<Conn>, seen: seq<Sight>, since: Since, db: Db, i: nat, k: Bytes)
    requires WatchOk(conns, seen, since, db, {}) && i < |conns| && k !in conns[i].watch
    ensures |seen| == |conns|
    ensures Sighted(conns[i := conns[i].(watch := conns[i].watch + [k])],
                    seen[i := seen[i][k := ImageIn(db, k)]], db, {})
  {
    var c, s := conns[i := conns[i].(watch := conns[i].watch + [k])], seen[i := seen[i][k := ImageIn(db, k)]];
    forall j | 0 <= j < |c| ensures Undisturbed(c[j], s[j], db, {}) {
      assert Undisturbed(conns[j], seen[j], db, {});
    }
  }

  lemma QuietlyGrow(a: Moment, i: nat, watch: seq<Bytes>)
    requires i < |a.conns|
    ensures Quietly(a, a.(conns := a.conns[i := a.conns[i].(watch := watch)]))
  {
  }

  /** WATCH: each new key is remembered with what it holds now; past 64 keys the
      command fails, keeping those already added. */
  method WatchKeys(st: Store, i: nat, keys: seq<Bytes>) returns (resp: Response)
    requires st.Valid() && i < |st.conns| && st.conns[i].inUse && |keys| > 0
    modifies st`conns, st`seen, st`since
    ensures st.Valid() && Quietly(old(Now(st)), Now(st))
    ensures var (watch, all) := Watches(old(st.conns[i].watch), keys);
      && resp == (if all then Accepted else Refused)
      && Now(st) == old(Now(st)).(conns := old(st.conns)[i := old(st.conns)[i].(watch := watch)])
  {
    hide Consistent, Records, WatchOk, Quietly;
    ghost var start := Now(st);
    assert keys[0..] == keys;
    for a := 0 to |keys|
      invariant st.Valid() && |st.conns| == |start.conns|
      invariant Now(st) == start.(conns := start.conns[i := start.conns[i].(watch := st.conns[i].watch)])
      invariant Watches(start.conns[i].watch, keys) == Watches(st.conns[i].watch, keys[a..])
    {
      var c := st.conns[i];
      var k := keys[a];
      assert keys[a..][0] == k && keys[a..][1..] == keys[a + 1..];
      if k !in c.watch {
        if |c.watch| >= WATCH_MAX {
          QuietlyGrow(start, i, c.watch);
          return Refused;
        }
        FirstSight(st.conns, st.seen, st.since, st.Db(), i, k);
        st.seen := st.seen[i := st.seen[i][k := ImageIn(st.Db(), k)]];
        st.conns := st.conns[i := c.(watch := c.watch + [k])];
        BeginOk(st.conns, st.seen, st.Db(), {});
        st.since := Since(st.conns, st.Db(), iset{});
      }
    }
    assert keys[|keys|..] == [];
    QuietlyGrow(start, i, st.conns[i].watch);
    return Accepted;
  }

  /** EXEC's loop over the queue, nothing of another client in between. */
  method RunQueue(st: Store, queue: seq<Command>, now: nat) returns (replies: seq<Reply>)
    requires st.Valid()
    modifies st
    ensures st.Valid() && st.Kept()
    ensures RanQueue(old(st.Db()), queue, now, st.EvictionOff(), st.Db(), replies)
    ensures NoEmpties(old(st.Db())) ==> NoEmpties(st.Db())
    ensures Warns(old(st.conns), st.conns, old(st.Db()), st.Db(), QueueNames(queue))
    ensures st.leak.unruly <= SpoiltAll(queue, old(st.leak.unruly))
  {
    hide Consistent, WatchOk, Records, SameClients, Ran, NoEmpties, Drifts, Warns, Touches, QueueNames, Spoilt;
    replies := [];
    ClientsSelf(st.conns);
    WarnsSelf(st.conns, st.Db(), QueueNames(queue));
    ghost var unruly := st.leak.unruly;
    assert queue[0..] == queue;
    ghost var states := [st.Db()];
    for i := 0 to |queue|
      invariant st.Valid() && st.Kept() && |replies| == i && |states| == i + 1
      invariant NoEmpties(old(st.Db())) ==> NoEmpties(st.Db())
      invariant states[0] == old(st.Db()) && states[i] == st.Db()
      invariant forall j :: 0 <= j < i ==> Ran(states[j], queue[j], now, st.EvictionOff(), states[j + 1], replies[j])
      invariant Warns(old(st.conns), st.conns, old(st.Db()), st.Db(), QueueNames(queue))
      invariant st.leak.unruly <= unruly
      invariant SpoiltAll(queue[i..], unruly) == SpoiltAll(queue, old(st.leak.unruly))
    {
      ghost var before, clients, spoilt := st.Db(), st.conns, st.leak.unruly;
      assert queue[i..][0] == queue[i] && queue[i..][1..] == queue[i + 1..];
      var r := Execute(st, queue[i], now);
      InQueue(before, queue, i, now);
      WarnsOn(old(st.conns), clients, st.conns, old(st.Db()), before, st.Db(), QueueNames(queue),
              Touches(before, queue[i], now), QueueNames(queue));
      SpoiltMore(queue[i], spoilt, unruly);
      unruly := Spoilt(queue[i], unruly);
      SameClientsTwice(old(st.conns), clients, st.conns);
      RanOne(before, queue[i], now, st.EvictionOff(), st.Db(), r);
      replies, states := replies + [r], states + [st.Db()];
    }
    assert RanAll(old(st.Db()), queue, now, st.EvictionOff(), st.Db(), replies, states);
  }

  lemma InQueue(db: Db, queue: seq<Command>, i: nat, now: nat)
    requires i < |queue|
    ensures Touches(db, queue[i], now) <= QueueNames(queue)
  {
    hide Names, Stirred;
    StirredNames(db, queue[i], now);
    assert forall k :: k in Names(queue[i]) ==> NamedIn(queue, k);
  }

  lemma RanOne(db: Db, cmd: Command, now: nat, exact: bool, after: Db, r: Reply)
    requires TooManyArguments(cmd) ==> r == Fail(TooMany) && after == db
    requires !TooManyArguments(cmd) ==> Follows(db, cmd, now, exact, after, r)
    ensures Ran(db, cmd, now, exact, after, r)
  {
  }

  /** With nothing evicted, a queue gives the replies of the plain map, and leaves what
      it leaves. */
  lemma {:induction false} RanQuietly(m: Db, queue: seq<Command>, now: nat, after: Db, replies: seq<Reply>,
                                      states: seq<Db>)
    requires |states| > 0 && RanAll(states[0], queue, now, true, after, replies, states)
    requires SameLive(states[0], m, now)
    ensures replies == Batch(m, queue, now).1 && SameLive(after, Batch(m, queue, now).0, now)
    decreases |queue|
  {
    hide Perform, SameLive, Follows;
    if |queue| == 0 {
      assert replies == [];
    } else {
      assert Ran(states[0], queue[0], now, true, states[1], replies[0]);
      PerformAgrees(states[0], m, queue[0], now, states[1], replies[0]);
      var rest := states[1..];
      forall i | 0 <= i < |queue| - 1
        ensures Ran(rest[i], queue[1..][i], now, true, rest[i + 1], replies[1..][i])
      {
        assert Ran(states[i + 1], queue[i + 1], now, true, states[i + 2], replies[i + 1]);
      }
      RanQuietly(Perform(m, queue[0], now).0, queue[1..], now, after, replies[1..], rest);
      assert replies == [replies[0]] + replies[1..];
    }
  }

  lemma QueueQuietly(db: Db, queue: seq<Command>, now: nat, after: Db, replies: seq<Reply>)
    requires RanQueue(db, queue, now, true, after, replies)
    ensures replies == Batch(db, queue, now).1 && SameLive(after, Batch(db, queue, now).0, now)
  {
    hide SameLive, Batch, RanAll;
    var states: seq<Db> :| RanAll(db, queue, now, true, after, replies, states);
    assert |states| > 0 && states[0] == db by { RanStart(db, queue, now, after, replies, states); }
    SameLiveSelf(db);
    assert SameLive(db, db, now);
    RanQuietly(db, queue, now, after, replies, states);
  }

  lemma RanStart(db: Db, queue: seq<Command>, now: nat, after: Db, replies: seq<Reply>, states: seq<Db>)
    requires RanAll(db, queue, now, true, after, replies, states)
    ensures |states| > 0 && states[0] == db
  {
  }

  /** One's own slot rewritten without becoming dirty. */
  lemma WarnsSlot(a: seq<Conn>, b: seq<Conn>, da: Db, db: Db, named: iset<Bytes>, i: nat, c: Conn)
    requires Warns(a, b, da, db, named) && i < |b| && (c.dirty ==> b[i].dirty)
    ensures Warns(a, b[i := c], da, db, named)
  {
    forall j | 0 <= j < |a| && b[i := c][j].dirty && !a[j].dirty ensures Cause(a[j].watch, da, db, named) {
      assert b[j].dirty;
    }
  }

  /** The EXEC of a connection that is in MULTI. */
  method ExecQueue(st: Store, i: nat, now: nat) returns (resp: Response)
    requires st.Valid() && i < |st.conns| && st.conns[i].inUse && st.conns[i].inMulti
    modifies st
    ensures st.Valid() && Served(old(Now(st)), i, Exec, now, Now(st), resp)
  {
    hide Consistent, Records, WatchOk, RanQueue, NoEmpties, Quietly, Warns, QueueNames, SpoiltAll;
    var c := st.conns[i];
    ghost var a := Now(st);
    if c.dirty {
      WarnsSelf(a.conns, a.db, iset{});
      WarnsSlot(a.conns, a.conns, a.db, a.db, iset{}, i, Cleared(c));
      SpoilsNothing(a, i, Exec);
      SetConn(st, i, Cleared(c));
      return Aborted;
    }
    ghost var began := st.since;
    var replies := RunQueue(st, c.queue, now);
    ghost var mid := Now(st);
    QuietlyKept(a, mid, st.seen, began, st.since);
    WarnsSlot(a.conns, mid.conns, a.db, mid.db, QueueNames(c.queue), i, Cleared(mid.conns[i]));
    QuietlySlot(a, mid, i, Cleared(st.conns[i]));
    SetConn(st, i, Cleared(st.conns[i]));
    return Results(replies);
  }

  /** One request of one client. */
  method Dispatch(st: Store, i: nat, req: Request, now: nat) returns (resp: Response)
    requires st.Valid() && i < |st.conns|
    modifies st
    ensures st.Valid() && Served(old(Now(st)), i, req, now, Now(st), resp)
  {
    hide Consistent, Records, WatchOk, NoEmpties, Trimmed, Quietly, RanQueue, Ran, Watches, SameClients, OthersKept,
      Warns;
    ghost var a := Now(st);
    if Operator(req) {
      resp := Operate(st, i, req, now);
    } else if req.Connect? {
      if st.conns[i].inUse {
        StayedPut(a, i, req, now);
        return Refused;
      }
      SetConn(st, i, FREE_CONN.(inUse := true));
      SlotServed(a, i, req, now, FREE_CONN.(inUse := true), Accepted);
      return Accepted;
    } else if !st.conns[i].inUse {
      StayedPut(a, i, req, now);
      return Refused;
    } else {
      resp := DispatchOpen(st, i, req, now);
    }
  }

  /** A request that changes nothing. */
  lemma StayedPut(a: Moment, i: nat, req: Request, now: nat)
    requires i < |a.conns| && Effect(a, i, req, now, a, Refused)
    ensures Served(a, i, req, now, a, Refused)
  {
    hide Effect;
    QuietlySelf(a);
    WarnsSelf(a.conns, a.db, Disturbs(a, i, req, now));
    SpoilsNothing(a, i, req);
  }

  /** What may be out of order stays so. */
  lemma SpoilsNothing(a: Moment, i: nat, req: Request)
    requires i < |a.conns|
    ensures a.unruly <= Spoils(a, i, req)
  {
    SpoiltGrows(a.conns[i].queue, a.unruly);
  }

  lemma {:induction false} SpoiltGrows(queue: seq<Command>, unruly: set<Bytes>)
    ensures unruly <= SpoiltAll(queue, unruly)
    decreases |queue|
  {
    if |queue| == 0 {
    } else {
      SpoiltGrows(queue[1..], Spoilt(queue[0], unruly));
    }
  }

  /** A request that changes the client's own slot only. */
  lemma SlotServed(a: Moment, i: nat, req: Request, now: nat, c: Conn, resp: Response)
    requires i < |a.conns| && Quietly(a, a.(conns := a.conns[i := c]))
    requires Effect(a, i, req, now, a.(conns := a.conns[i := c]), resp) && (c.dirty ==> a.conns[i].dirty)
    ensures Served(a, i, req, now, a.(conns := a.conns[i := c]), resp)
  {
    hide Effect, Quietly, Warns;
    WarnsSelf(a.conns, a.db, Disturbs(a, i, req, now));
    WarnsSlot(a.conns, a.conns, a.db, a.db, Disturbs(a, i, req, now), i, c);
    SpoilsNothing(a, i, req);
  }

  /** The operator's requests. */
  method Operate(st: Store, i: nat, req: Request, now: nat) returns (resp: Response)
    requires st.Valid() && i < |st.conns| && Operator(req)
    modifies st
    ensures st.Valid() && Served(old(Now(st)), i, req, now, Now(st), resp)
  {
    hide Consistent, Records, WatchOk, NoEmpties, Trimmed, Quietly, Drifts, Warns, Store.EvictedDown;
    ghost var a, began := Now(st), st.since;
    QuietlySelf(a);
    WarnsSelf(a.conns, a.db, iset{});
    match req {
      case Layout(want) =>
        st.SetLayout(want);
      case Evict(kernel) =>
        st.SetKernel(kernel);
        QuietlyExact(a, st.EvictionOff());
      case PromoteOnGet(on) =>
        st.SetPromoteOnGet(on);
      case MaxMemory(bytes) =>
        st.SetMaxmemory(bytes, now);
        if NoEmpties(a.db) { TrimmedFilled(a.db, st.Db(), now, st.EvictionOff()); }
        Told(st.conns, st.seen, st.since, st.Db(), {}, iset{});
        QuietlyKept(a, Now(st), st.seen, began, st.since);
      case Expiry(effort) =>
        st.Begin({});
        var freed := st.ActiveExpire(effort, now);
        if NoEmpties(a.db) { TrimmedFilled(a.db, st.Db(), now, true); }
        Told(st.conns, st.seen, st.since, st.Db(), {}, iset{});
        QuietlyKept(a, Now(st), st.seen, began, st.since);
    }
    return Accepted;
  }

  lemma QuietlyExact(a: Moment, exact: bool)
    ensures Quietly(a, a.(exact := exact))
  {
  }

  /** The requests of an open connection. */
  method DispatchOpen(st: Store, i: nat, req: Request, now: nat) returns (resp: Response)
    requires st.Valid() && i < |st.conns| && st.conns[i].inUse && !Operator(req) && !req.Connect?
    modifies st
    ensures st.Valid() && Served(old(Now(st)), i, req, now, Now(st), resp)
  {
    hide Consistent, Records, WatchOk, NoEmpties, Follows, Quietly, Words, OthersKept, Watches, SameClients, Warns;
    var c := st.conns[i];
    ghost var a := Now(st);
    match req
    case Watch(keys) =>
      if c.inMulti || |keys| == 0 {
        StayedPut(a, i, req, now);
        return Refused;
      }
      resp := WatchKeys(st, i, keys);
      SlotServed(a, i, req, now, st.conns[i], resp);
    case Unwatch =>
      SetConn(st, i, c.(watch := [], dirty := false));
      SlotServed(a, i, req, now, st.conns[i], Accepted);
      return Accepted;
    case Multi =>
      if c.inMulti {
        StayedPut(a, i, req, now);
        return Refused;
      }
      SetConn(st, i, c.(inMulti := true, queue := []));
      SlotServed(a, i, req, now, st.conns[i], Accepted);
      return Accepted;
    case Discard =>
      if !c.inMulti {
        StayedPut(a, i, req, now);
        return Refused;
      }
      SetConn(st, i, Cleared(c));
      SlotServed(a, i, req, now, st.conns[i], Accepted);
      return Accepted;
    case Exec =>
      if !c.inMulti {
        StayedPut(a, i, req, now);
        return Refused;
      }
      resp := ExecQueue(st, i, now);
    case Close =>
      SetConn(st, i, FREE_CONN);
      SlotServed(a, i, req, now, st.conns[i], Accepted);
      return Accepted;
    case Data(cmd) =>
      resp := DispatchData(st, i, cmd, now);
  }

  /** A data command: queued inside MULTI, run outside. */
  method DispatchData(st: Store, i: nat, cmd: Command, now: nat) returns (resp: Response)
    requires st.Valid() && i < |st.conns| && st.conns[i].inUse
    modifies st
    ensures st.Valid() && Served(old(Now(st)), i, Data(cmd), now, Now(st), resp)
  {
    hide Consistent, Records, WatchOk, NoEmpties, Follows, Quietly, Words, Drifts, Warns, Touches, Spoilt;
    var c := st.conns[i];
    ghost var a, began := Now(st), st.since;
    if c.inMulti {
      if |c.queue| >= QUEUE_MAX || Words(cmd) > QUEUE_WORDS {
        StayedPut(a, i, Data(cmd), now);
        return Refused;
      }
      SetConn(st, i, c.(queue := c.queue + [cmd]));
      SlotServed(a, i, Data(cmd), now, st.conns[i], Queued);
      return Queued;
    }
    var r := Execute(st, cmd, now);
    QuietlyKept(a, Now(st), st.seen, began, st.since);
    return Single(r);
  }

  // ----- every interleaving of clients -----

  datatype Call = Call(client: nat, req: Request, now: nat)

  /** A run: each moment is what the request in between makes of the one before. */
  ghost predicate Run(calls: seq<Call>, resps: seq<Response>, trace: seq<Moment>) {
    && |resps| == |calls| && |trace| == |calls| + 1
    && forall t :: 0 <= t < |calls| ==>
         Served(trace[t], calls[t].client, calls[t].req, calls[t].now, trace[t + 1], resps[t])
  }

  /** Serve any interleaving of requests. */
  method Serve(st: Store, calls: seq<Call>) returns (resps: seq<Response>, ghost trace: seq<Moment>)
    requires st.Valid() && forall c :: c in calls ==> c.client < |st.conns|
    modifies st
    ensures st.Valid() && Run(calls, resps, trace)
    ensures trace[0] == old(Now(st)) && trace[|calls|] == Now(st)
    ensures Orderly(trace[0]) && (forall c :: c in calls && c.req.Data? ==> NaNFree(c.req.cmd)) ==>
      forall k :: Lookup(st.tiers, k).Some? ==> Values.Ranked(Lookup(st.tiers, k).value.value)
  {
    hide Consistent, Records, WatchOk, Served;
    resps, trace := [], [Now(st)];
    for t := 0 to |calls|
      invariant st.Valid() && |st.conns| == |old(st.conns)|
      invariant |resps| == t && |trace| == t + 1
      invariant trace[0] == old(Now(st)) && trace[t] == Now(st)
      invariant forall u :: 0 <= u < t ==>
        Served(trace[u], calls[u].client, calls[u].req, calls[u].now, trace[u + 1], resps[u])
    {
      assert calls[t] in calls;
      ghost var a := Now(st);
      var resp := Dispatch(st, calls[t].client, calls[t].req, calls[t].now);
      ServedSize(a, calls[t].client, calls[t].req, calls[t].now, Now(st), resp);
      resps, trace := resps + [resp], trace + [Now(st)];
    }
    if Orderly(trace[0]) && forall c :: c in calls && c.req.Data? ==> NaNFree(c.req.cmd) {
      OrderKept(calls, resps, trace, |calls|);
      InOrderNow(st);
    }
  }

  lemma ServedSize(a: Moment, i: nat, req: Request, now: nat, b: Moment, resp: Response)
    requires Served(a, i, req, now, b, resp)
    ensures |b.conns| == |a.conns|
  {
    hide Effect;
  }

  lemma {:induction false} SameSize(calls: seq<Call>, resps: seq<Response>, trace: seq<Moment>, t: nat)
    requires Run(calls, resps, trace) && t < |trace|
    ensures |trace[t].conns| == |trace[0].conns|
    decreases t
  {
    hide Served;
    if t == 0 {
    } else {
      SameSize(calls, resps, trace, t - 1);
      var c := calls[t - 1];
      ServedSize(trace[t - 1], c.client, c.req, c.now, trace[t], resps[t - 1]);
    }
  }

  /** Along any run: a key watched without a break from moment t to moment j, on a
      connection that is clean at j, holds at j what it held at t. */
  lemma {:induction false} WatchedUnchanged(calls: seq<Call>, resps: seq<Response>, trace: seq<Moment>, i: nat,
                                            k: Bytes, t: nat, j: nat)
    requires Run(calls, resps, trace) && t <= j < |trace| && i < |trace[0].conns|
    requires forall s :: t <= s <= j ==> |trace[s].conns| == |trace[0].conns| && k in trace[s].conns[i].watch
    requires Guards(trace[j].conns[i], k)
    ensures Guards(trace[t].conns[i], k) && ImageIn(trace[t].db, k) == ImageIn(trace[j].db, k)
    decreases j - t
  {
    hide Effect;
    if t < j {
      var c := calls[j - 1];
      assert Served(trace[j - 1], c.client, c.req, c.now, trace[j], resps[j - 1]);
      assert Quiet(trace[j - 1].conns[i], trace[j - 1].db, trace[j].conns[i], trace[j].db);
      assert k in trace[j - 1].conns[i].watch;
      WatchedUnchanged(calls, resps, trace, i, k, t, j - 1);
    }
  }

  /** The requests that keep a connection's watches. */
  predicate KeepsWatches(req: Request) {
    Operator(req) || req.Data? || req.Multi? || req.Watch?
  }

  lemma {:induction false} WatchesGrow(watch: seq<Bytes>, keys: seq<Bytes>)
    ensures var (w, all) := Watches(watch, keys); watch <= w && (all ==> forall k :: k in keys ==> k in w)
    decreases |keys|
  {
    if |keys| == 0 {
    } else if (keys[0] in watch || |watch| < WATCH_MAX) {
      WatchesGrow(if keys[0] in watch then watch else watch + [keys[0]], keys[1..]);
      assert keys == [keys[0]] + keys[1..];
      if keys[0] !in watch { assert keys[0] in watch + [keys[0]]; }
    }
  }

  /** One request keeps a watched key watched, if it is another client's or one of those. */
  lemma StaysWatched(a: Moment, i: nat, req: Request, now: nat, b: Moment, resp: Response, j: nat, k: Bytes)
    requires Served(a, i, req, now, b, resp) && j < |a.conns| && a.conns[j].inUse && k in a.conns[j].watch
    requires i != j || KeepsWatches(req)
    ensures |b.conns| == |a.conns| && b.conns[j].inUse && k in b.conns[j].watch
  {
    hide Quietly, RanQueue, Ran, Trimmed, Watches, NoEmpties;
    if i == j && req.Watch? { WatchesGrow(a.conns[i].watch, req.keys); }
  }

  lemma {:induction false} WatchedThroughout(calls: seq<Call>, resps: seq<Response>, trace: seq<Moment>, w: nat,
                                             t: nat, j: nat, k: Bytes)
    requires Run(calls, resps, trace) && w < t <= j < |calls|
    requires calls[w].req.Watch? && resps[w] == Accepted && k in calls[w].req.keys
    requires forall s :: w < s < j && calls[s].client == calls[w].client ==> KeepsWatches(calls[s].req)
    ensures calls[w].client < |trace[0].conns| && |trace[t].conns| == |trace[0].conns|
    ensures trace[t].conns[calls[w].client].inUse && k in trace[t].conns[calls[w].client].watch
    decreases t
  {
    hide Served;
    var i := calls[w].client;
    SameSize(calls, resps, trace, w);
    SameSize(calls, resps, trace, t);
    var c := calls[t - 1];
    assert Served(trace[t - 1], c.client, c.req, c.now, trace[t], resps[t - 1]);
    if t == w + 1 {
      StartsWatched(trace[w], i, calls[w].req, calls[w].now, trace[t], resps[w], k);
    } else {
      WatchedThroughout(calls, resps, trace, w, t - 1, j, k);
      StaysWatched(trace[t - 1], c.client, c.req, c.now, trace[t], resps[t - 1], i, k);
    }
  }

  lemma StartsWatched(a: Moment, i: nat, req: Request, now: nat, b: Moment, resp: Response, k: Bytes)
    requires Served(a, i, req, now, b, resp) && req.Watch? && resp == Accepted && k in req.keys
    ensures i < |a.conns| && |b.conns| == |a.conns| && b.db == a.db && b.conns[i].inUse && k in b.conns[i].watch
  {
    hide Quietly, Watches, NoEmpties;
    WatchesGrow(a.conns[i].watch, req.keys);
  }

  lemma ExecResults(a: Moment, i: nat, req: Request, now: nat, b: Moment, resp: Response)
    requires Served(a, i, req, now, b, resp) && req.Exec? && resp.Results?
    ensures i < |a.conns| && !a.conns[i].dirty
  {
    hide Quietly, RanQueue, NoEmpties;
  }

  /** Compare-and-set, for every interleaving of clients: if a client's WATCH of a key was
      accepted, and up to its EXEC it did nothing that gives the watch up, and that EXEC
      ran, then the key's type, payload and deadline are at EXEC what they were when it
      was watched. */
  lemma CompareAndSet(calls: seq<Call>, resps: seq<Response>, trace: seq<Moment>, w: nat, j: nat, k: Bytes)
    requires Run(calls, resps, trace) && w < j < |calls|
    requires calls[w].req.Watch? && resps[w] == Accepted && k in calls[w].req.keys
    requires forall s :: w < s < j && calls[s].client == calls[w].client ==> KeepsWatches(calls[s].req)
    requires calls[j].client == calls[w].client && calls[j].req.Exec? && resps[j].Results?
    ensures ImageIn(trace[w].db, k) == ImageIn(trace[j].db, k)
  {
    hide Served;
    var i := calls[w].client;
    assert Served(trace[w], i, calls[w].req, calls[w].now, trace[w + 1], resps[w]);
    assert Served(trace[j], i, calls[j].req, calls[j].now, trace[j + 1], resps[j]);
    StartsWatched(trace[w], i, calls[w].req, calls[w].now, trace[w + 1], resps[w], k);
    ExecResults(trace[j], i, calls[j].req, calls[j].now, trace[j + 1], resps[j]);
    SameSize(calls, resps, trace, w);
    forall s | w + 1 <= s <= j
      ensures |trace[s].conns| == |trace[0].conns|
      ensures k in trace[s].conns[i].watch && trace[s].conns[i].inUse
    {
      WatchedThroughout(calls, resps, trace, w, s, j, k);
    }
    WatchedUnchanged(calls, resps, trace, i, k, w + 1, j);
  }

  /** Why an EXEC aborts: since any moment at which its connection was clean, some request
      wrote a key the connection watches, still when the EXEC comes, or left such a key
      gone, expired or evicted. */
  lemma AbortsBecause(calls: seq<Call>, resps: seq<Response>, trace: seq<Moment>, w: nat, j: nat)
    returns (t: nat, k: Bytes)
    requires Run(calls, resps, trace) && w <= j < |calls| && calls[j].req.Exec? && resps[j] == Aborted
    requires calls[j].client < |trace[w].conns| && !trace[w].conns[calls[j].client].dirty
    ensures w <= t < j && calls[t].client < |trace[t].conns| && calls[j].client < |trace[t].conns|
    ensures calls[j].client < |trace[j].conns| && k in trace[t].conns[calls[j].client].watch
    ensures k in trace[j].conns[calls[j].client].watch
    ensures k in Disturbs(trace[t], calls[t].client, calls[t].req, calls[t].now)
         || (k in trace[t].db && k !in trace[t + 1].db)
  {
    hide Effect, Warns, Disturbs;
    var i := calls[j].client;
    assert Served(trace[j], i, calls[j].req, calls[j].now, trace[j + 1], resps[j]);
    AbortsWhenDirty(trace[j], i, calls[j].req, calls[j].now, trace[j + 1], resps[j]);
    t := LastClean(calls, resps, trace, i, w, j);
    SameSize(calls, resps, trace, t);
    SameSize(calls, resps, trace, j);
    var c := calls[t];
    assert Served(trace[t], c.client, c.req, c.now, trace[t + 1], resps[t]);
    k := CauseOf(trace[t].conns, trace[t + 1].conns, trace[t].db, trace[t + 1].db,
                 Disturbs(trace[t], c.client, c.req, c.now), i);
    KeepsWatching(calls, resps, trace, i, k, t, j);
  }

  /** An EXEC aborts exactly on a dirty connection in MULTI. */
  lemma AbortsWhenDirty(a: Moment, i: nat, req: Request, now: nat, b: Moment, resp: Response)
    requires Served(a, i, req, now, b, resp) && req.Exec?
    ensures resp == Aborted <==> a.conns[i].inUse && a.conns[i].inMulti && a.conns[i].dirty
  {
    hide Quietly, RanQueue, NoEmpties, Warns;
  }

  lemma CauseOf(a: seq<Conn>, b: seq<Conn>, da: Db, db: Db, named: iset<Bytes>, i: nat) returns (k: Bytes)
    requires Warns(a, b, da, db, named) && i < |a| && b[i].dirty && !a[i].dirty
    ensures k in a[i].watch && (k in named || (k in da && k !in db))
  {
    assert Cause(a[i].watch, da, db, named);
    k :| k in a[i].watch && (k in named || (k in da && k !in db));
  }

  /** The last moment before j at which the connection was clean. */
  lemma {:induction false} LastClean(calls: seq<Call>, resps: seq<Response>, trace: seq<Moment>, i: nat, w: nat, j: nat)
    returns (t: nat)
    requires Run(calls, resps, trace) && w <= j < |trace| && i < |trace[w].conns|
    requires i < |trace[j].conns| && !trace[w].conns[i].dirty && trace[j].conns[i].dirty
    ensures w <= t < j && i < |trace[0].conns|
    ensures forall s :: t <= s <= j ==> |trace[s].conns| == |trace[0].conns|
    ensures !trace[t].conns[i].dirty && forall s :: t < s <= j ==> trace[s].conns[i].dirty
    decreases j
  {
    hide Served;
    SameSize(calls, resps, trace, w);
    SameSize(calls, resps, trace, j);
    SameSize(calls, resps, trace, j - 1);
    if trace[j - 1].conns[i].dirty {
      t := LastClean(calls, resps, trace, i, w, j - 1);
    } else {
      t := j - 1;
    }
  }

  /** A connection that is dirty after a request watches what it watched before. */
  lemma DirtyWatches(a: Moment, i: nat, req: Request, now: nat, b: Moment, resp: Response, j: nat)
    requires Served(a, i, req, now, b, resp) && j < |a.conns| == |b.conns| && b.conns[j].dirty
    ensures forall k :: k in a.conns[j].watch ==> k in b.conns[j].watch
  {
    hide Quietly, RanQueue, Ran, Trimmed, Watches, NoEmpties, Warns;
    if i == j && req.Watch? { WatchesGrow(a.conns[i].watch, req.keys); }
  }

  lemma {:induction false} KeepsWatching(calls: seq<Call>, resps: seq<Response>, trace: seq<Moment>, i: nat, k: Bytes,
                                         t: nat, j: nat)
    requires Run(calls, resps, trace) && t <= j < |trace| && i < |trace[0].conns|
    requires forall s :: t <= s <= j ==> |trace[s].conns| == |trace[0].conns|
    requires k in trace[t].conns[i].watch && forall s :: t < s <= j ==> trace[s].conns[i].dirty
    ensures k in trace[j].conns[i].watch
    decreases j
  {
    hide Served;
    if t < j {
      KeepsWatching(calls, resps, trace, i, k, t, j - 1);
      var c := calls[j - 1];
      assert Served(trace[j - 1], c.client, c.req, c.now, trace[j], resps[j - 1]);
      DirtyWatches(trace[j - 1], c.client, c.req, c.now, trace[j], resps[j - 1], i);
    }
  }

  // ----- what EXEC runs -----

  /** The commands that client i sent after call m and before call t and that were queued,
      in the order in which it sent them. */
  function QueuedBy(calls: seq<Call>, resps: seq<Response>, i: nat, m: nat, t: nat): seq<Command>
    requires |resps| == |calls| && t <= |calls|
    decreases t
  {
    if t <= m + 1 then []
    else
      var c := calls[t - 1];
      QueuedBy(calls, resps, i, m, t - 1)
      + if c.client == i && c.req.Data? && resps[t - 1] == Queued then [c.req.cmd] else []
  }

  /** Client i gave no DISCARD, EXEC or CLOSE between calls m and t. */
  predicate StaysInMulti(calls: seq<Call>, i: nat, m: nat, t: nat)
    requires t <= |calls|
  {
    forall s :: m < s < t && calls[s].client == i ==>
      !calls[s].req.Discard? && !calls[s].req.Exec? && !calls[s].req.Close?
  }

  lemma MultiBegins(a: Moment, i: nat, req: Request, now: nat, b: Moment, resp: Response)
    requires Served(a, i, req, now, b, resp) && req.Multi? && resp == Accepted
    ensures i < |b.conns| && b.conns[i].inUse && b.conns[i].inMulti && b.conns[i].queue == []
  {
    hide Quietly, NoEmpties, Warns;
  }

  lemma QueueGrows(a: Moment, i: nat, req: Request, now: nat, b: Moment, resp: Response, j: nat)
    requires Served(a, i, req, now, b, resp) && j < |a.conns| && a.conns[j].inUse && a.conns[j].inMulti
    requires i == j ==> !req.Discard? && !req.Exec? && !req.Close?
    ensures j < |b.conns| && b.conns[j].inUse && b.conns[j].inMulti
    ensures b.conns[j].queue == a.conns[j].queue + if i == j && req.Data? && resp == Queued then [req.cmd] else []
  {
    hide Quietly, NoEmpties, Warns, RanQueue, Ran, Trimmed, Watches;
    var q := a.conns[j].queue;
    assert q + [] == q;
  }

  /** From MULTI on, what waits in the queue is what was sent and queued, in order. */
  lemma {:induction false} QueueHolds(calls: seq<Call>, resps: seq<Response>, trace: seq<Moment>, m: nat, t: nat)
    requires Run(calls, resps, trace) && m < t <= |calls|
    requires calls[m].req.Multi? && resps[m] == Accepted && StaysInMulti(calls, calls[m].client, m, t)
    ensures calls[m].client < |trace[t].conns|
    ensures trace[t].conns[calls[m].client].inUse && trace[t].conns[calls[m].client].inMulti
    ensures trace[t].conns[calls[m].client].queue == QueuedBy(calls, resps, calls[m].client, m, t)
    decreases t
  {
    hide Served;
    var i, c := calls[m].client, calls[t - 1];
    assert Served(trace[t - 1], c.client, c.req, c.now, trace[t], resps[t - 1]);
    if t == m + 1 {
      MultiBegins(trace[m], i, calls[m].req, calls[m].now, trace[t], resps[m]);
    } else {
      QueueHolds(calls, resps, trace, m, t - 1);
      QueueGrows(trace[t - 1], c.client, c.req, c.now, trace[t], resps[t - 1], i);
    }
  }

  /** The p-th reply of a queue is the plain map's reply after the p commands before it. */
  lemma {:induction false} BatchAt(db: Db, queue: seq<Command>, now: nat, p: nat)
    requires p < |queue|
    ensures |Batch(db, queue, now).1| == |queue|
    ensures Batch(db, queue, now).1[p] == Perform(Batch(db, queue[..p], now).0, queue[p], now).1
    decreases |queue|
  {
    hide Perform;
    var d := Perform(db, queue[0], now).0;
    BatchLength(d, queue[1..], now);
    if p == 0 {
      assert queue[..0] == [];
    } else {
      BatchAt(d, queue[1..], now, p - 1);
      assert queue[..p][1..] == queue[1..][..p - 1] && queue[..p][0] == queue[0];
    }
  }

  lemma {:induction false} BatchLength(db: Db, queue: seq<Command>, now: nat)
    ensures |Batch(db, queue, now).1| == |queue|
    decreases |queue|
  {
    hide Perform;
    if |queue| == 0 {
    } else {
      BatchLength(Perform(db, queue[0], now).0, queue[1..], now);
    }
  }

  /** What an EXEC runs: exactly the commands its client sent and had queued since its MULTI,
      in the order it sent them. With eviction off, each reply is the plain map's, after the
      commands before it. */
  lemma ExecRuns(calls: seq<Call>, resps: seq<Response>, trace: seq<Moment>, m: nat, j: nat)
    requires Run(calls, resps, trace) && m < j < |calls|
    requires calls[m].req.Multi? && resps[m] == Accepted && StaysInMulti(calls, calls[m].client, m, j)
    requires calls[j].client == calls[m].client && calls[j].req.Exec? && resps[j].Results?
    ensures var q := QueuedBy(calls, resps, calls[m].client, m, j);
      && RanQueue(trace[j].db, q, calls[j].now, trace[j].exact, trace[j + 1].db, resps[j].replies)
      && |resps[j].replies| == |q|
      && (trace[j].exact ==>
            && SameLive(trace[j + 1].db, Batch(trace[j].db, q, calls[j].now).0, calls[j].now)
            && forall p :: 0 <= p < |q| ==>
                 resps[j].replies[p]
                   == Perform(Batch(trace[j].db, q[..p], calls[j].now).0, q[p], calls[j].now).1)
  {
    hide Quietly, NoEmpties, Warns, Batch, Perform, SameLive;
    var i, now := calls[m].client, calls[j].now;
    var q := QueuedBy(calls, resps, i, m, j);
    QueueHolds(calls, resps, trace, m, j);
    assert Served(trace[j], i, calls[j].req, now, trace[j + 1], resps[j]);
    if trace[j].exact {
      QueueQuietly(trace[j].db, q, now, trace[j + 1].db, resps[j].replies);
      forall p | 0 <= p < |q|
        ensures resps[j].replies[p] == Perform(Batch(trace[j].db, q[..p], now).0, q[p], now).1
      {
        BatchAt(trace[j].db, q, now, p);
      }
    }
  }

  /** A command inside MULTI is queued if and only if fewer than 128 are and it has at most
      32 words; otherwise it is refused and the queue stays. */
  lemma QueuesWhen(calls: seq<Call>, resps: seq<Response>, trace: seq<Moment>, m: nat, t: nat)
    returns (waiting: nat)
    requires Run(calls, resps, trace) && m < t < |calls|
    requires calls[m].req.Multi? && resps[m] == Accepted && StaysInMulti(calls, calls[m].client, m, t)
    requires calls[t].client == calls[m].client && calls[t].req.Data?
    ensures waiting == |QueuedBy(calls, resps, calls[m].client, m, t)|
    ensures resps[t] == if waiting < 128 && Words(calls[t].req.cmd) <= 32 then Queued else Refused
  {
    hide Served;
    waiting := |QueuedBy(calls, resps, calls[m].client, m, t)|;
    QueueHolds(calls, resps, trace, m, t);
    QueueAnswer(trace[t], calls[t].client, calls[t].req, calls[t].now, trace[t + 1], resps[t]);
  }

  lemma QueueAnswer(a: Moment, i: nat, req: Request, now: nat, b: Moment, resp: Response)
    requires Served(a, i, req, now, b, resp) && req.Data? && a.conns[i].inUse && a.conns[i].inMulti
    ensures resp == if |a.conns[i].queue| < 128 && Words(req.cmd) <= 32 then Queued else Refused
  {
    hide Quietly, NoEmpties, Warns, Words;
  }

  /** WATCH names up to 64 different keys in all: it is accepted if and only if they are
      no more, and never watches a key twice. */
  lemma {:induction false} WatchesWhen(watch: seq<Bytes>, keys: seq<Bytes>)
    requires |watch| <= 64 && Distinct(watch)
    ensures var (w, all) := Watches(watch, keys);
      |w| <= 64 && Distinct(w) && (all <==> |Elements(watch) + Elements(keys)| <= 64)
    decreases |keys|
  {
    hide Distinct, Elements;
    ElementsCount(watch);
    OneElement(keys, watch);
    if |keys| == 0 {
    } else if keys[0] in watch {
      WatchesWhen(watch, keys[1..]);
    } else if |watch| < 64 {
      DistinctMore(watch, keys[0]);
      WatchesWhen(watch + [keys[0]], keys[1..]);
    } else {
      Fewer(Elements(watch) + {keys[0]}, Elements(watch) + Elements(keys));
    }
  }

  lemma DistinctMore(watch: seq<Bytes>, k: Bytes)
    requires Distinct(watch) && k !in watch
    ensures Distinct(watch + [k])
  {
  }

  lemma OneElement(keys: seq<Bytes>, watch: seq<Bytes>)
    ensures |keys| == 0 ==> Elements(watch) + Elements(keys) == Elements(watch)
    ensures |keys| > 0 && keys[0] in watch ==>
      Elements(watch) + Elements(keys) == Elements(watch) + Elements(keys[1..])
    ensures |keys| > 0 ==>
      && Elements(watch) + Elements(keys) == Elements(watch + [keys[0]]) + Elements(keys[1..])
      && Elements(watch) + {keys[0]} <= Elements(watch) + Elements(keys)
    ensures |keys| > 0 && keys[0] !in watch ==> |Elements(watch) + {keys[0]}| == |Elements(watch)| + 1
  {
    if |keys| > 0 { assert keys == [keys[0]] + keys[1..]; }
  }

  lemma Fewer(a: set<Bytes>, b: set<Bytes>)
    requires a <= b
    ensures |a| <= |b|
  {
    assert b == a + (b - a);
  }

  // ----- sorted sets stay in order -----

  predicate NaNFree(cmd: Command) {
    cmd.ZAdd? ==> SortedSets.Numbers(cmd.batch)
  }

  /** No sorted set is out of order, and no NaN waits in a queue. */
  predicate Orderly(m: Moment) {
    m.unruly == {} && forall i :: 0 <= i < |m.conns| ==> AllNaNFree(m.conns[i].queue)
  }

  predicate AllNaNFree(queue: seq<Command>) {
    forall i :: 0 <= i < |queue| ==> NaNFree(queue[i])
  }

  lemma {:induction false} NothingSpoilt(queue: seq<Command>)
    requires AllNaNFree(queue)
    ensures SpoiltAll(queue, {}) == {}
    decreases |queue|
  {
    if |queue| == 0 {
    } else {
      NothingSpoilt(queue[1..]);
    }
  }

  lemma StaysOrderly(a: Moment, i: nat, req: Request, now: nat, b: Moment, resp: Response)
    requires Served(a, i, req, now, b, resp) && Orderly(a) && (req.Data? ==> NaNFree(req.cmd))
    ensures Orderly(b)
  {
    hide Quietly, RanQueue, Ran, Trimmed, Watches, NoEmpties, Warns, NaNFree;
    assert b.unruly == {} by {
      NothingSpoilt(a.conns[i].queue);
      if req.Data? { OneUnspoilt(req.cmd); }
    }
    forall j | 0 <= j < |b.conns| ensures AllNaNFree(b.conns[j].queue) {
      assert AllNaNFree(a.conns[j].queue);
    }
  }

  lemma OneUnspoilt(cmd: Command)
    requires NaNFree(cmd)
    ensures Spoilt(cmd, {}) == {}
  {
  }

  /** Along every run without a NaN no sorted set gets out of order. */
  lemma {:induction false} OrderKept(calls: seq<Call>, resps: seq<Response>, trace: seq<Moment>, t: nat)
    requires Run(calls, resps, trace) && t < |trace| && Orderly(trace[0])
    requires forall s :: 0 <= s < t && calls[s].req.Data? ==> NaNFree(calls[s].req.cmd)
    ensures Orderly(trace[t])
    decreases t
  {
    hide Served, Orderly, NaNFree;
    if t == 0 {
    } else {
      OrderKept(calls, resps, trace, t - 1);
      var c := calls[t - 1];
      StaysOrderly(trace[t - 1], c.client, c.req, c.now, trace[t], resps[t - 1]);
    }
  }

  lemma InOrderNow(st: Store)
    requires st.Valid() && Orderly(Now(st))
    ensures forall k :: Lookup(st.tiers, k).Some? ==> Values.Ranked(Lookup(st.tiers, k).value.value)
  {
    hide Lookup, Wellformed, Accounted, WatchOk, Values.Ranked;
    forall k | Lookup(st.tiers, k).Some? ensures Values.Ranked(Lookup(st.tiers, k).value.value) {
      assert Neat(Lookup(st.tiers, k).value.value, k, st.leak.unruly);
    }
  }
}
