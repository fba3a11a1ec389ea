/** The keyspace a client is promised: a plain map from keys to records, with no
    layout, no tiers and no purging. A record past its deadline counts as absent.
    Every data command is defined here once, as a function on that map. */
module Reference {
  import opened Common
  import opened SortedSets
  import opened Values
  import Lists

  datatype Rec = Rec(data: Data, deadline: nat, pinned: bool)
  type Db = map<Bytes, Rec>

  /** `expire_at && now >= expire_at`. */
  predicate Due(deadline: nat, now: nat) {
    deadline != 0 && now >= deadline
  }

  function Get(db: Db, k: Bytes, now: nat): Option<Rec> {
    if k in db && !Due(db[k].deadline, now) then Some(db[k]) else None
  }

  function Live(db: Db, now: nat): Db {
    map k | k in db && !Due(db[k].deadline, now) :: db[k]
  }

  /** EX / PX / EXAT / PXAT with their argument. */
  datatype When = Ex(n: int) | Px(n: int) | ExAt(n: int) | PxAt(n: int)

  /** The absolute deadline in milliseconds; none when the argument is not positive. */
  function Deadline(w: When, now: nat): Option<nat> {
    if w.n <= 0 then None
    else match w
      case Ex(n) => Some(now + n * 1000)
      case Px(n) => Some(now + n)
      case ExAt(n) => Some(n * 1000)
      case PxAt(n) => Some(n)
  }

  datatype Ttl = Forget | Keep | At(when: When)
  datatype Guard = Always | IfAbsent | IfPresent

  datatype Command =
    | Set(key: Bytes, val: Bytes, guard: Guard, ttl: Ttl)
    | Read(key: Bytes)
    | Del(key: Bytes)
    | Append(key: Bytes, val: Bytes)
    | Rename(key: Bytes, newKey: Bytes, nx: bool)
    | Expire(key: Bytes, when: When)
    | TimeLeft(key: Bytes, millis: bool)
    | Pin(key: Bytes)
    | Unpin(key: Bytes)
    | FlushDb
    | DbSize
    | HSet(key: Bytes, pairs: seq<(Bytes, Bytes)>)
    | HGet(key: Bytes, field: Bytes)
    | HDel(key: Bytes, fields: seq<Bytes>)
    | Push(key: Bytes, left: bool, vals: seq<Bytes>)
    | Pop(key: Bytes, left: bool)
    | LRange(key: Bytes, start: int, stop: int)
    | LRem(key: Bytes, count: int, elem: Bytes)
    | LTrim(key: Bytes, start: int, stop: int)
    | ZAdd(key: Bytes, batch: seq<Member>)
    | ZRem(key: Bytes, members: seq<Bytes>)
    | ZScore(key: Bytes, member: Bytes)

  datatype Error = WrongType | NoSuchKey | BadExpireTime | TooManyMembers | TooMany | OutOfMemory

  datatype Reply =
    | Ok
    | Nil
    | Int(n: int)
    | Bulk(bytes: Bytes)
    | Array(items: seq<Bytes>)
    | ScoreOf(score: Score)
    | Fail(error: Error)

  /** What a single-key command does to its key. */
  datatype Effect = Same | Write(rec: Rec) | Erase

  function Apply(db: Db, k: Bytes, e: Effect): Db {
    match e
    case Same => db
    case Write(r) => db[k := r]
    case Erase => db - {k}
  }

  /** A collection that became empty is deleted with its key. */
  function Shrink(r: Rec, d: Data): Effect {
    if d == NewData(DataKind(d)) then Erase else Write(r.(data := d))
  }

  function SetDeadline(ttl: Ttl, prior: Option<Rec>, now: nat): nat {
    match ttl
    case Forget => 0
    case Keep => if prior.Some? then prior.value.deadline else 0
    case At(w) => (match Deadline(w, now) case Some(d) => d case None => 0)
  }

  /** The effect and the reply of a command that names one key, given the record
      found there (none if missing or due). */
  function OnKey(cmd: Command, found: Option<Rec>, now: nat): (Effect, Reply)
    requires !cmd.FlushDb? && !cmd.DbSize? && !cmd.Rename?
  {
    match found
    case None => OnMissing(cmd, now)
    case Some(r) => OnFound(cmd, r, now)
  }

  function OnMissing(cmd: Command, now: nat): (Effect, Reply)
    requires !cmd.FlushDb? && !cmd.DbSize? && !cmd.Rename?
  {
    match cmd
    case Set(_, v, guard, ttl) =>
      if ttl.At? && ttl.when.n <= 0 then (Same, Fail(BadExpireTime))
      else if guard.IfPresent? then (Same, Nil)
      else (Write(Rec(DStr(v), SetDeadline(ttl, None, now), false)), Ok)
    case Append(_, v) => (Write(Rec(DStr(v), 0, false)), Int(|v|))
    case HSet(_, pairs) =>
      var m := SetFields(map[], pairs);
      if |pairs| == 0 then (Same, Int(0)) else (Write(Rec(DHash(m), 0, false)), Int(|m|))
    case Push(_, left, vals) =>
      if |vals| == 0 then (Same, Int(0))
      else (Write(Rec(DList(Lists.Pushed([], left, vals)), 0, false)), Int(|vals|))
    case ZAdd(_, batch) =>
      var m := PutAll(map[], batch);
      if |batch| == 0 then (Same, Int(0)) else (Write(Rec(DZSet(m), 0, false)), Int(|m|))
    case Read(_) => (Same, Nil)
    case HGet(_, _) => (Same, Nil)
    case ZScore(_, _) => (Same, Nil)
    case Pop(_, _) => (Same, Nil)
    case LRange(_, _, _) => (Same, Array([]))
    case LTrim(_, _, _) => (Same, Ok)
    case TimeLeft(_, _) => (Same, Int(-2))
    case _ => (Same, Int(0))
  }

  function OnFound(cmd: Command, r: Rec, now: nat): (Effect, Reply)
    requires !cmd.FlushDb? && !cmd.DbSize? && !cmd.Rename?
  {
    match cmd
    case Set(_, v, guard, ttl) =>
      if ttl.At? && ttl.when.n <= 0 then (Same, Fail(BadExpireTime))
      else if guard.IfAbsent? then (Same, Nil)
      else (Write(Rec(DStr(v), SetDeadline(ttl, Some(r), now), r.pinned)), Ok)
    case Read(_) => (Same, if r.data.DStr? then Bulk(r.data.bytes) else Fail(WrongType))
    case Del(_) => (Erase, Int(1))
    case Append(_, v) =>
      if !r.data.DStr? then (Same, Fail(WrongType))
      else (Write(r.(data := DStr(r.data.bytes + v))), Int(|r.data.bytes| + |v|))
    case Expire(_, w) =>
      (Write(r.(deadline := match Deadline(w, now) case Some(d) => d case None => 0)), Int(1))
    case TimeLeft(_, millis) =>
      (Same, if r.deadline == 0 then Int(-1)
             else if millis then Int(r.deadline - now)
             else Int((r.deadline - now + 999) / 1000))
    case Pin(_) => (Write(r.(pinned := true)), Int(1))
    case Unpin(_) => if r.pinned then (Write(r.(pinned := false)), Int(1)) else (Same, Int(0))
    case HSet(_, pairs) =>
      if |pairs| == 0 then (Same, Int(0))
      else if !r.data.DHash? then (Same, Fail(WrongType))
      else
        var m := SetFields(r.data.fields, pairs);
        (Write(r.(data := DHash(m))), Int(|m| - |r.data.fields|))
    case HGet(_, f) =>
      (Same, if !r.data.DHash? then Fail(WrongType)
             else if f in r.data.fields then Bulk(r.data.fields[f]) else Nil)
    case HDel(_, fields) =>
      if !r.data.DHash? then (Same, Fail(WrongType))
      else
        var m := DropFields(r.data.fields, fields);
        (Shrink(r, DHash(m)), Int(|r.data.fields| - |m|))
    case Push(_, left, vals) =>
      if |vals| == 0 then (Same, Int(0))
      else if !r.data.DList? then (Same, Fail(WrongType))
      else (Write(r.(data := DList(Lists.Pushed(r.data.items, left, vals)))),
            Int(|r.data.items| + |vals|))
    case Pop(_, left) =>
      if !r.data.DList? then (Same, Fail(WrongType))
      else if |r.data.items| == 0 then (Same, Nil)
      else (Shrink(r, DList(Lists.Popped(r.data.items, left))),
            Bulk(Lists.PoppedItem(r.data.items, left)))
    case LRange(_, start, stop) =>
      (Same, if !r.data.DList? then Fail(WrongType) else Array(Lists.Slice(r.data.items, start, stop)))
    case LRem(_, count, x) =>
      if !r.data.DList? then (Same, Fail(WrongType))
      else
        var s := Lists.Removed(r.data.items, count, x);
        (Shrink(r, DList(s)), Int(|r.data.items| - |s|))
    case LTrim(_, start, stop) =>
      if !r.data.DList? then (Same, Fail(WrongType))
      else (Shrink(r, DList(Lists.Slice(r.data.items, start, stop))), Ok)
    case ZAdd(_, batch) =>
      if |batch| == 0 then (Same, Int(0))
      else if !r.data.DZSet? then (Same, Fail(WrongType))
      else
        var m := r.data.scores;
        if FreshIn(m, batch) != 0 && |m| + FreshIn(m, batch) > MAX_MEMBERS
        then (Same, Fail(TooManyMembers))
        else (Write(r.(data := DZSet(PutAll(m, batch)))), Int(|PutAll(m, batch)| - |m|))
    case ZRem(_, members) =>
      if !r.data.DZSet? then (Same, Fail(WrongType))
      else
        var m := RemoveAll(r.data.scores, members);
        (Shrink(r, DZSet(m)), Int(|r.data.scores| - |m|))
    case ZScore(_, member) =>
      (Same, if !r.data.DZSet? then Fail(WrongType)
             else if member in r.data.scores then ScoreOf(r.data.scores[member]) else Nil)
  }

  function RenameStep(db: Db, k: Bytes, nk: Bytes, nx: bool, now: nat): (Db, Reply) {
    match Get(db, k, now)
    case None => (db, Fail(NoSuchKey))
    case Some(r) =>
      if k == nk then (db, if nx then Int(1) else Ok)
      else if nx && Get(db, nk, now).Some? then (db, Int(0))
      else ((db - {k})[nk := r], if nx then Int(1) else Ok)
  }

  /** The state and the reply after a command at time `now`. */
  function Step(db: Db, cmd: Command, now: nat): (Db, Reply) {
    match cmd
    case FlushDb => (map[], Ok)
    case DbSize => (db, Int(|Live(db, now)|))
    case Rename(k, nk, nx) => RenameStep(db, k, nk, nx, now)
    case _ =>
      var (e, reply) := OnKey(cmd, Get(db, cmd.key, now), now);
      (Apply(db, cmd.key, e), reply)
  }

  lemma StepOnKey(db: Db, cmd: Command, now: nat)
    requires !cmd.FlushDb? && !cmd.DbSize? && !cmd.Rename?
    ensures var (e, reply) := OnKey(cmd, Get(db, cmd.key, now), now);
      Step(db, cmd, now) == (Apply(db, cmd.key, e), reply)
  {
  }

  ghost const EVERY: iset<Bytes> := iset k: Bytes | true

  /** The keys whose watchers a command may disturb: those it writes. PIN and UNPIN change
      nothing a watcher looks at. */
  ghost function Stirred(db: Db, cmd: Command, now: nat): iset<Bytes> {
    match cmd
    case FlushDb => EVERY
    case DbSize => iset{}
    case Pin(_) => iset{}
    case Unpin(_) => iset{}
    case Rename(k, nk, nx) =>
      if Get(db, k, now).Some? && k != nk && !(nx && Get(db, nk, now).Some?) then iset{k, nk} else iset{}
    case _ => if OnKey(cmd, Get(db, cmd.key, now), now).0.Same? then iset{} else iset{cmd.key}
  }

  /** The keys a command writes whenever it writes at all. */
  ghost function Names(cmd: Command): iset<Bytes> {
    match cmd
    case FlushDb => EVERY
    case Rename(k, nk, _) => iset{k, nk}
    case Set(k, _, _, _) => iset{k}
    case Del(k) => iset{k}
    case Append(k, _) => iset{k}
    case Expire(k, _) => iset{k}
    case HSet(k, _) => iset{k}
    case HDel(k, _) => iset{k}
    case Push(k, _, _) => iset{k}
    case Pop(k, _) => iset{k}
    case LRem(k, _, _) => iset{k}
    case LTrim(k, _, _) => iset{k}
    case ZAdd(k, _) => iset{k}
    case ZRem(k, _) => iset{k}
    case _ => iset{}
  }

  lemma StirredNames(db: Db, cmd: Command, now: nat)
    ensures Stirred(db, cmd, now) <= Names(cmd)
  {
    hide SetFields, DropFields, PutAll, RemoveAll, Shrink;
  }

  ghost function Touches(db: Db, cmd: Command, now: nat): iset<Bytes> {
    if TooManyArguments(cmd) then iset{} else Stirred(db, cmd, now)
  }

  /** The keys whose sorted sets may be out of order: NaN spoils one, RENAME carries it on. */
  function Spoilt(cmd: Command, unruly: set<Bytes>): set<Bytes> {
    match cmd
    case ZAdd(k, batch) => if Numbers(batch) then unruly else unruly + {k}
    case Rename(k, nk, _) => if k in unruly then unruly + {nk} else unruly
    case _ => unruly
  }

  function SpoiltAll(queue: seq<Command>, unruly: set<Bytes>): set<Bytes>
    decreases |queue|
  {
    if |queue| == 0 then unruly else SpoiltAll(queue[1..], Spoilt(queue[0], unruly))
  }

  lemma SpoiltKeeps(cmd: Command, u: set<Bytes>)
    ensures u <= Spoilt(cmd, u)
  {
  }

  lemma SpoiltMore(cmd: Command, u: set<Bytes>, v: set<Bytes>)
    requires u <= v
    ensures Spoilt(cmd, u) <= Spoilt(cmd, v)
  {
  }

  lemma WriteStirs(db: Db, cmd: Command, now: nat)
    requires !cmd.FlushDb? && !cmd.DbSize? && !cmd.Rename? && !cmd.Pin? && !cmd.Unpin?
    requires !OnKey(cmd, Get(db, cmd.key, now), now).0.Same?
    ensures cmd.key in Stirred(db, cmd, now)
  {
    hide OnKey;
  }

  /** A write that reports a count has written its key. */
  lemma CountStirs(db: Db, cmd: Command, now: nat, exact: bool, after: Db, r: Reply)
    requires Follows(db, cmd, now, exact, after, r) && r.Int?
    requires (cmd.HSet? && |cmd.pairs| > 0) || (cmd.Push? && |cmd.vals| > 0) || (cmd.ZAdd? && |cmd.batch| > 0)
    ensures cmd.key in Stirred(db, cmd, now)
  {
    hide Trimmed, SetFields, PutAll;
  }

  /** And so has one that finds its key missing. */
  lemma MissingStirs(db: Db, cmd: Command, now: nat)
    requires (cmd.HSet? && |cmd.pairs| > 0) || (cmd.Push? && |cmd.vals| > 0) || (cmd.ZAdd? && |cmd.batch| > 0)
    ensures Get(db, cmd.key, now).None? ==> cmd.key in Stirred(db, cmd, now)
  {
    hide SetFields, PutAll;
  }

  // ----- what a client can tell apart -----

  /** Two keyspaces no command at or after `now` can tell apart. */
  ghost predicate SameLive(a: Db, b: Db, now: nat) {
    forall k :: Get(a, k, now) == Get(b, k, now)
  }

  lemma SameLiveLater(a: Db, b: Db, now: nat, later: nat)
    requires SameLive(a, b, now) && now <= later
    ensures SameLive(a, b, later)
  {
    forall k ensures Get(a, k, later) == Get(b, k, later) {
      assert Get(a, k, now) == Get(b, k, now);
    }
  }

  lemma SameLiveFlip(a: Db, b: Db, now: nat)
    requires SameLive(a, b, now)
    ensures SameLive(b, a, now)
  {
    forall k ensures Get(b, k, now) == Get(a, k, now) { assert Get(a, k, now) == Get(b, k, now); }
  }

  lemma SameLiveMap(a: Db, b: Db, now: nat)
    requires SameLive(a, b, now)
    ensures Live(a, now) == Live(b, now)
  {
    forall k ensures k in Live(a, now) <==> k in Live(b, now) {
      assert Get(a, k, now) == Get(b, k, now);
    }
    forall k | k in Live(a, now) ensures Live(a, now)[k] == Live(b, now)[k] {
      assert Get(a, k, now) == Get(b, k, now);
    }
  }

  /** A command cannot tell whether a due record is still there: the reply is the
      same and so is everything visible afterwards. */
  lemma StepSameLive(a: Db, b: Db, cmd: Command, now: nat)
    requires SameLive(a, b, now)
    ensures Step(a, cmd, now).1 == Step(b, cmd, now).1
    ensures SameLive(Step(a, cmd, now).0, Step(b, cmd, now).0, now)
  {
    var a', b' := Step(a, cmd, now).0, Step(b, cmd, now).0;
    if cmd.DbSize? {
      SameLiveMap(a, b, now);
    } else if cmd.Rename? {
      assert Get(a, cmd.key, now) == Get(b, cmd.key, now);
      assert Get(a, cmd.newKey, now) == Get(b, cmd.newKey, now);
      forall k ensures Get(a', k, now) == Get(b', k, now) { assert Get(a, k, now) == Get(b, k, now); }
    } else if !cmd.FlushDb? {
      assert Get(a, cmd.key, now) == Get(b, cmd.key, now);
      ApplySameLive(a, b, cmd.key, OnKey(cmd, Get(a, cmd.key, now), now).0, now);
    }
  }

  lemma ApplySameLive(a: Db, b: Db, k: Bytes, e: Effect, now: nat)
    requires SameLive(a, b, now)
    ensures SameLive(Apply(a, k, e), Apply(b, k, e), now)
  {
    forall q ensures Get(Apply(a, k, e), q, now) == Get(Apply(b, k, e), q, now) {
      assert Get(a, q, now) == Get(b, q, now);
    }
  }

  // ----- commands as they arrive -----

  /** Every array a command handler fills has 64 places. */
  predicate TooManyArguments(cmd: Command) {
    match cmd
    case HSet(_, pairs) => |pairs| > 64
    case HDel(_, fields) => |fields| > 64
    case Push(_, _, vals) => |vals| > 64
    case ZAdd(_, batch) => |batch| > 64
    case ZRem(_, members) => |members| > 64
    case _ => false
  }

  /** The number of words a command is sent as. */
  function Words(cmd: Command): nat {
    match cmd
    case Set(_, _, guard, ttl) =>
      3 + (if guard.Always? then 0 else 1) + (match ttl case Forget => 0 case Keep => 1 case At(_) => 2)
    case Append(_, _) => 3
    case Rename(_, _, _) => 3
    case Expire(_, _) => 3
    case FlushDb => 1
    case DbSize => 1
    case HSet(_, pairs) => 2 + 2 * |pairs|
    case HGet(_, _) => 3
    case HDel(_, fields) => 2 + |fields|
    case Push(_, _, vals) => 2 + |vals|
    case LRange(_, _, _) => 4
    case LRem(_, _, _) => 4
    case LTrim(_, _, _) => 4
    case ZAdd(_, batch) => 2 + 2 * |batch|
    case ZRem(_, members) => 2 + |members|
    case ZScore(_, _) => 3
    case _ => 2
  }

  function Perform(db: Db, cmd: Command, now: nat): (Db, Reply) {
    if TooManyArguments(cmd) then (db, Fail(TooMany)) else Step(db, cmd, now)
  }

  /** A queue of commands run in order at one time. */
  function Batch(db: Db, queue: seq<Command>, now: nat): (Db, seq<Reply>)
    decreases |queue|
  {
    if |queue| == 0 then (db, [])
    else
      var (d, r) := Perform(db, queue[0], now);
      var (e, rs) := Batch(d, queue[1..], now);
      (e, [r] + rs)
  }

  /** What a client and the operator may do to a store; only the first has a reply. */
  datatype Event = Do(cmd: Command) | Relayout(hotCold: bool) | Sweep(effort: int)

  /** The plain map's answers to a run: the operator's events do nothing to it. */
  function Answers(db: Db, events: seq<Event>, times: seq<nat>): seq<Reply>
    requires |events| == |times|
    decreases |events|
  {
    if |events| == 0 then []
    else match events[0]
      case Do(cmd) =>
        var (d, r) := Perform(db, cmd, times[0]);
        [r] + Answers(d, events[1..], times[1..])
      case _ => Answers(db, events[1..], times[1..])
  }

  // ----- a store that may have lost some of it -----

  /** `part` is `full` with some records gone: due ones, and unless `exact` also
      unpinned ones that were evicted. */
  ghost predicate Trimmed(full: Db, part: Db, now: nat, exact: bool) {
    && part.Keys <= full.Keys
    && (forall k :: k in part ==> part[k] == full[k])
    && (forall k :: k in full && k !in part ==> Due(full[k].deadline, now) || (!exact && !full[k].pinned))
  }

  lemma TrimmedDrop(full: Db, part: Db, k: Bytes, now: nat, exact: bool)
    requires Trimmed(full, part, now, exact)
    requires k in part ==> Due(part[k].deadline, now) || (!exact && !part[k].pinned)
    ensures Trimmed(full, part - {k}, now, exact)
  {
  }

  /** Commands that read their key again after making room for it. */
  predicate Rereads(cmd: Command) {
    cmd.Append? || cmd.HSet? || cmd.Push? || cmd.ZAdd?
  }

  /** The error a command that rereads its key gives when the key it created was
      evicted at once. */
  ghost predicate Lost(before: Db, cmd: Command, now: nat, exact: bool, r: Reply) {
    !exact && Rereads(cmd) && r == Fail(OutOfMemory) && Get(before, cmd.key, now).None?
  }

  /** What a store command guarantees: the reference state, trimmed, and the reference
      reply, unless the key it created was evicted at once. */
  ghost predicate Follows(before: Db, cmd: Command, now: nat, exact: bool, after: Db, r: Reply) {
    && Trimmed(Step(before, cmd, now).0, after, now, exact)
    && (r == Step(before, cmd, now).1 || Lost(before, cmd, now, exact, r))
  }

  lemma FollowsLoosely(before: Db, cmd: Command, now: nat, exact: bool, after: Db, r: Reply)
    requires Follows(before, cmd, now, true, after, r)
    ensures Follows(before, cmd, now, exact, after, r)
  {
  }

  lemma TrimmedAbsent(db: Db, k: Bytes, now: nat, exact: bool)
    requires Get(db, k, now).None?
    ensures Trimmed(db, db - {k}, now, exact) && Trimmed(db, db, now, exact)
  {
  }

  lemma TrimmedSelf(db: Db, now: nat, exact: bool)
    ensures Trimmed(db, db, now, exact)
  {
  }

  lemma GetDropped(db: Db, k: Bytes, now: nat)
    ensures Get(db - {k}, k, now).None?
    ensures forall q :: q != k ==> Get(db - {k}, q, now) == Get(db, q, now)
  {
  }

  /** Nothing live is missing when nothing is evicted. */
  lemma TrimmedGet(full: Db, part: Db, k: Bytes, now: nat)
    requires Trimmed(full, part, now, true)
    ensures Get(part, k, now) == Get(full, k, now)
  {
  }

  /** The single-key case of Follows. */
  lemma FollowsBy(before: Db, cmd: Command, now: nat, exact: bool, after: Db, r: Reply)
    requires !cmd.FlushDb? && !cmd.DbSize? && !cmd.Rename?
    requires var (e, reply) := OnKey(cmd, Get(before, cmd.key, now), now);
      Trimmed(Apply(before, cmd.key, e), after, now, exact) && (r == reply || Lost(before, cmd, now, exact, r))
    ensures Follows(before, cmd, now, exact, after, r)
  {
    hide OnKey, Trimmed;
    StepOnKey(before, cmd, now);
  }

  lemma TrimmedValue(full: Db, part: Db, k: Bytes, now: nat, exact: bool)
    requires Trimmed(full, part, now, exact) && Get(part, k, now).Some?
    ensures k in full && Get(part, k, now).value == full[k]
  {
  }

  lemma TrimmedOverwrite(full: Db, part: Db, k: Bytes, r: Rec, now: nat, exact: bool)
    requires Trimmed(full, part, now, exact)
    ensures Trimmed(full[k := r], part[k := r], now, exact)
  {
  }

  /** A key created and evicted again within one command. */
  lemma TrimmedLost(db: Db, part: Db, k: Bytes, r: Rec, now: nat)
    requires Trimmed(db - {k}, part, now, false) && !r.pinned
    ensures Trimmed(db[k := r], part, now, false)
  {
  }

  lemma PutTwice(db: Db, k: Bytes, r: Rec, q: Rec)
    ensures db[k := r][k := q] == db[k := q] && db[k := r] - {k} == db - {k}
  {
  }

  lemma DropThenPut(db: Db, k: Bytes, r: Rec)
    ensures (db - {k})[k := r] == db[k := r]
  {
  }

  lemma TrimmedTwice(a: Db, b: Db, c: Db, now: nat, exact: bool)
    requires Trimmed(a, b, now, exact) && Trimmed(b, c, now, exact)
    ensures Trimmed(a, c, now, exact)
  {
  }

  lemma TrimmedSameLive(full: Db, part: Db, now: nat)
    requires Trimmed(full, part, now, true)
    ensures SameLive(full, part, now)
  {
  }

  // ----- no empty collections -----

  predicate Filled(d: Data) {
    d.DStr? || d != NewData(DataKind(d))
  }

  /** No key of the keyspace holds an empty collection. */
  ghost predicate NoEmpties(db: Db) {
    forall k :: k in db ==> Filled(db[k].data)
  }

  lemma {:induction false} SetFieldsFilled(m: map<Bytes, Bytes>, pairs: seq<(Bytes, Bytes)>)
    requires m != map[] || |pairs| > 0
    ensures SetFields(m, pairs) != map[]
    decreases |pairs|
  {
    if |pairs| == 0 {
    } else {
      assert pairs[0].0 in m[pairs[0].0 := pairs[0].1];
      SetFieldsFilled(m[pairs[0].0 := pairs[0].1], pairs[1..]);
    }
  }

  lemma {:induction false} PutAllFilled(m: map<Bytes, Score>, batch: seq<Member>)
    requires m != map[] || |batch| > 0
    ensures PutAll(m, batch) != map[]
    decreases |batch|
  {
    if |batch| == 0 {
    } else {
      assert batch[0].key in m[batch[0].key := batch[0].val];
      PutAllFilled(m[batch[0].key := batch[0].val], batch[1..]);
    }
  }

  lemma PushedFilled(s: seq<Bytes>, left: bool, vals: seq<Bytes>)
    requires s != [] || |vals| > 0
    ensures Lists.Pushed(s, left, vals) != []
  {
    Lists.ReverseTwice(vals);
  }

  lemma MissingFilled(cmd: Command, now: nat)
    requires !cmd.FlushDb? && !cmd.DbSize? && !cmd.Rename?
    ensures var e := OnMissing(cmd, now).0; e.Write? ==> Filled(e.rec.data)
  {
    hide SetFields, PutAll, Lists.Pushed;
    match cmd
    case HSet(_, pairs) => if |pairs| > 0 { SetFieldsFilled(map[], pairs); }
    case ZAdd(_, batch) => if |batch| > 0 { PutAllFilled(map[], batch); }
    case Push(_, left, vals) => if |vals| > 0 { PushedFilled([], left, vals); }
    case _ =>
  }

  lemma FoundFilled(cmd: Command, r: Rec, now: nat)
    requires !cmd.FlushDb? && !cmd.DbSize? && !cmd.Rename? && Filled(r.data)
    ensures var e := OnFound(cmd, r, now).0; e.Write? ==> Filled(e.rec.data)
  {
    hide SetFields, PutAll, DropFields, RemoveAll, Lists.Pushed, Lists.Popped, Lists.Removed, Lists.Slice;
    match cmd
    case HSet(_, pairs) => if r.data.DHash? { SetFieldsFilled(r.data.fields, pairs); }
    case ZAdd(_, batch) => if r.data.DZSet? { PutAllFilled(r.data.scores, batch); }
    case Push(_, left, vals) => if r.data.DList? { PushedFilled(r.data.items, left, vals); }
    case _ =>
  }

  lemma EffectFilled(cmd: Command, found: Option<Rec>, now: nat)
    requires !cmd.FlushDb? && !cmd.DbSize? && !cmd.Rename?
    requires found.Some? ==> Filled(found.value.data)
    ensures var e := OnKey(cmd, found, now).0; e.Write? ==> Filled(e.rec.data)
  {
    hide OnMissing, OnFound;
    match found
    case None => MissingFilled(cmd, now);
    case Some(r) => FoundFilled(cmd, r, now);
  }

  /** No command leaves an empty collection behind, and neither does losing records. */
  lemma StepFilled(db: Db, cmd: Command, now: nat)
    requires NoEmpties(db)
    ensures NoEmpties(Step(db, cmd, now).0)
  {
    hide OnKey, Filled;
    if !cmd.FlushDb? && !cmd.DbSize? && !cmd.Rename? {
      EffectFilled(cmd, Get(db, cmd.key, now), now);
      StepOnKey(db, cmd, now);
    }
  }

  lemma TrimmedFilled(full: Db, part: Db, now: nat, exact: bool)
    requires NoEmpties(full) && Trimmed(full, part, now, exact)
    ensures NoEmpties(part)
  {
  }

  /** So over every run of commands, on a store that may evict between and within
      them, no key ever holds an empty collection. */
  lemma FollowsFilled(before: Db, cmd: Command, now: nat, exact: bool, after: Db, r: Reply)
    requires NoEmpties(before) && Follows(before, cmd, now, exact, after, r)
    ensures NoEmpties(after)
  {
    StepFilled(before, cmd, now);
    TrimmedFilled(Step(before, cmd, now).0, after, now, exact);
  }
}
