/** The store as a cache: whatever is evicted, a hit returns the latest value set. */
module Caching {
  import opened Common
  import opened Values
  import opened Reference
  import opened Watching
  import opened Keyspace
  import opened Server

  /** What the history of effective writes says about a key. The deadline is unknown
      after SET KEEPTTL, which keeps nothing if the key had been evicted. */
  datatype Memo = Memo(val: Bytes, deadline: Option<nat>)

  predicate CacheCommand(cmd: Command) {
    cmd.Set? || cmd.Read? || cmd.Del? || cmd.Expire? || cmd.TimeLeft? || cmd.Pin? || cmd.Unpin?
    || cmd.FlushDb? || cmd.DbSize?
  }

  predicate CacheRequest(req: Request) {
    match req
    case Data(cmd) => CacheCommand(cmd)
    case Layout(_) => true
    case Evict(_) => true
    case PromoteOnGet(_) => true
    case MaxMemory(_) => true
    case Expiry(_) => true
    case _ => false
  }

  function Remember(m: map<Bytes, Memo>, cmd: Command, r: Reply, now: nat): map<Bytes, Memo> {
    match cmd
    case Set(k, v, _, ttl) =>
      if r != Ok then m
      else m[k := Memo(v, match ttl
                          case Forget => Some(0)
                          case Keep => None
                          case At(w) => Deadline(w, now))]
    case Del(k) => m - {k}
    case FlushDb => map[]
    case Expire(k, w) =>
      if r == Int(1) && k in m
      then m[k := m[k].(deadline := Some(match Deadline(w, now) case Some(d) => d case None => 0))]
      else m
    case _ => m
  }

  /** The memo after a history. */
  function MemoOf(reqs: seq<Request>, replies: seq<Reply>, times: seq<nat>): map<Bytes, Memo>
    requires |reqs| == |replies| == |times|
    decreases |reqs|
  {
    if |reqs| == 0 then map[]
    else
      var n := |reqs| - 1;
      var m := MemoOf(reqs[..n], replies[..n], times[..n]);
      if reqs[n].Data? then Remember(m, reqs[n].cmd, replies[n], times[n]) else m
  }

  /** A history entry that ends the life of a key's value. */
  predicate Ends(req: Request, r: Reply, k: Bytes) {
    req.Data? && (match req.cmd
                  case Set(q, _, _, _) => q == k && r == Ok
                  case Del(q) => q == k
                  case FlushDb => true
                  case _ => false)
  }

  /** A key in the memo has the value of a SET that took effect and was not followed
      by another, by DEL or by FLUSHDB. */
  lemma {:induction false} MemoIsLatest(reqs: seq<Request>, replies: seq<Reply>, times: seq<nat>, k: Bytes)
    returns (i: nat)
    requires |reqs| == |replies| == |times| && k in MemoOf(reqs, replies, times)
    ensures i < |reqs| && reqs[i].Data? && reqs[i].cmd.Set? && reqs[i].cmd.key == k && replies[i] == Ok
    ensures MemoOf(reqs, replies, times)[k].val == reqs[i].cmd.val
    ensures forall j :: i < j < |reqs| ==> !Ends(reqs[j], replies[j], k)
    decreases |reqs|
  {
    var n := |reqs| - 1;
    if Ends(reqs[n], replies[n], k) {
      i := n;
    } else {
      i := MemoIsLatest(reqs[..n], replies[..n], times[..n], k);
      assert forall j :: i < j < n ==> reqs[j] == reqs[..n][j] && replies[j] == replies[..n][j];
    }
  }

  /** And the other way round: such a SET puts its value into the memo. */
  lemma {:induction false} LatestIsMemo(reqs: seq<Request>, replies: seq<Reply>, times: seq<nat>, k: Bytes, i: nat)
    requires |reqs| == |replies| == |times| && i < |reqs|
    requires reqs[i].Data? && reqs[i].cmd.Set? && reqs[i].cmd.key == k && replies[i] == Ok
    requires forall j :: i < j < |reqs| ==> !Ends(reqs[j], replies[j], k)
    ensures k in MemoOf(reqs, replies, times) && MemoOf(reqs, replies, times)[k].val == reqs[i].cmd.val
    decreases |reqs|
  {
    var n := |reqs| - 1;
    if i < n {
      assert forall j :: i <= j < n ==> reqs[j] == reqs[..n][j] && replies[j] == replies[..n][j];
      LatestIsMemo(reqs[..n], replies[..n], times[..n], k, i);
      assert !Ends(reqs[n], replies[n], k);
    }
  }

  /** Everything live in the store is what the memo says. */
  ghost predicate Backed(db: Db, m: map<Bytes, Memo>, now: nat) {
    forall k :: Get(db, k, now).Some? ==> BackedAt(db[k], m, k)
  }

  ghost predicate BackedAt(r: Rec, m: map<Bytes, Memo>, k: Bytes) {
    k in m && r.data == DStr(m[k].val) && (m[k].deadline.Some? ==> r.deadline == m[k].deadline.value)
  }

  lemma BackedLater(db: Db, m: map<Bytes, Memo>, now: nat, later: nat)
    requires Backed(db, m, now) && now <= later
    ensures Backed(db, m, later)
  {
    forall k | Get(db, k, later).Some? ensures BackedAt(db[k], m, k) { assert Get(db, k, now).Some?; }
  }

  lemma BackedTrimmed(db: Db, part: Db, m: map<Bytes, Memo>, now: nat, exact: bool)
    requires Backed(db, m, now) && Trimmed(db, part, now, exact)
    ensures Backed(part, m, now)
  {
    forall k | Get(part, k, now).Some? ensures BackedAt(part[k], m, k) { assert Get(db, k, now).Some?; }
  }

  /** The key a command is about, before and after. */
  lemma KeyBacked(found: Option<Rec>, m: map<Bytes, Memo>, cmd: Command, now: nat)
    requires CacheCommand(cmd) && !cmd.FlushDb? && !cmd.DbSize?
    requires found.Some? ==> BackedAt(found.value, m, cmd.key)
    ensures var (e, r) := OnKey(cmd, found, now);
      var m' := Remember(m, cmd, r, now);
      && (e.Write? ==> BackedAt(e.rec, m', cmd.key))
      && (e.Same? && found.Some? ==> BackedAt(found.value, m', cmd.key))
      && (cmd.Read? && r.Bulk? ==> found.Some? && r.bytes == m[cmd.key].val)
  {
  }

  lemma OthersRemembered(m: map<Bytes, Memo>, cmd: Command, r: Reply, now: nat, k: Bytes)
    requires CacheCommand(cmd) && !cmd.FlushDb? && !cmd.DbSize? && k != cmd.key
    ensures var m' := Remember(m, cmd, r, now); (k in m' <==> k in m) && (k in m ==> m'[k] == m[k])
  {
  }

  lemma BackedStep(db: Db, m: map<Bytes, Memo>, cmd: Command, now: nat, exact: bool, after: Db, r: Reply)
    requires Backed(db, m, now) && CacheCommand(cmd) && Follows(db, cmd, now, exact, after, r)
    ensures Backed(after, Remember(m, cmd, r, now), now)
    ensures cmd.Read? && r.Bulk? ==>
      cmd.key in m && m[cmd.key].val == r.bytes
      && (m[cmd.key].deadline.Some? ==> !Due(m[cmd.key].deadline.value, now))
  {
    hide OnKey, Trimmed, Remember;
    var full := Step(db, cmd, now).0;
    var m' := Remember(m, cmd, r, now);
    RepliesExactly(db, cmd, now, exact, after, r);
    if cmd.FlushDb? {
      BackedTrimmed(full, after, m', now, exact);
    } else if cmd.DbSize? {
      NothingRemembered(m, cmd, r, now);
      BackedTrimmed(full, after, m', now, exact);
    } else {
      var found := Get(db, cmd.key, now);
      if found.Some? { assert BackedAt(db[cmd.key], m, cmd.key); }
      StepOnKey(db, cmd, now);
      KeyBacked(found, m, cmd, now);
      forall k | Get(full, k, now).Some? ensures BackedAt(full[k], m', k) {
        if k != cmd.key {
          OthersRemembered(m, cmd, r, now, k);
          assert BackedAt(db[k], m, k);
        }
      }
      BackedTrimmed(full, after, m', now, exact);
    }
  }

  lemma RepliesExactly(db: Db, cmd: Command, now: nat, exact: bool, after: Db, r: Reply)
    requires CacheCommand(cmd) && Follows(db, cmd, now, exact, after, r)
    ensures r == Step(db, cmd, now).1 && Trimmed(Step(db, cmd, now).0, after, now, exact)
  {
    hide Step, Trimmed;
  }

  lemma NothingRemembered(m: map<Bytes, Memo>, cmd: Command, r: Reply, now: nat)
    requires cmd.DbSize?
    ensures Remember(m, cmd, r, now) == m
  {
  }

  /** A run of cache commands, with kernels, limits and layouts changed on the way and
      any choice of victims: every hit is the value of the latest effective SET not
      followed by DEL or FLUSHDB, and never past a known deadline. */
  method CacheRun(st: Store, reqs: seq<Request>, times: seq<nat>) returns (replies: seq<Reply>)
    requires st.Valid() && st.Db() == map[] && |reqs| == |times| && NonDecreasing(times)
    requires forall i :: 0 <= i < |reqs| ==> CacheRequest(reqs[i])
    modifies st
    ensures st.Valid() && |replies| == |reqs|
    ensures forall i :: 0 <= i < |reqs| && reqs[i].Data? && reqs[i].cmd.Read? && replies[i].Bulk? ==>
      HitIs(MemoOf(reqs[..i], replies[..i], times[..i]), reqs[i].cmd.key, replies[i].bytes, times[i])
  {
    hide Keyspace.Consistent, WatchOk, Tiers.Records, SameClients, Follows, Trimmed, Backed, Remember, HitIs;
    replies := [];
    ghost var m: map<Bytes, Memo> := map[];
    assert Backed(map[], m, 0) by { NothingToBack(); }
    if |times| > 0 { BackedLater(map[], m, 0, times[0]); }
    for i := 0 to |reqs|
      invariant st.Valid() && |replies| == i
      invariant m == MemoOf(reqs[..i], replies, times[..i])
      invariant i < |reqs| ==> Backed(st.Db(), m, times[i])
      invariant forall j :: 0 <= j < i && reqs[j].Data? && reqs[j].cmd.Read? && replies[j].Bulk? ==>
        HitIs(MemoOf(reqs[..j], replies[..j], times[..j]), reqs[j].cmd.key, replies[j].bytes, times[j])
    {
      ghost var before, was := st.Db(), replies;
      var r := CacheOne(st, reqs[i], times[i], m);
      replies := replies + [r];
      assert reqs[..i + 1][..i] == reqs[..i] && times[..i + 1][..i] == times[..i] && replies[..i] == was;
      assert forall j :: 0 <= j < i ==> replies[..j] == was[..j];
      m := if reqs[i].Data? then Remember(m, reqs[i].cmd, r, times[i]) else m;
      if i + 1 < |reqs| { BackedLater(st.Db(), m, times[i], times[i + 1]); }
    }
    assert reqs[..|reqs|] == reqs;
  }

  predicate HitIs(m: map<Bytes, Memo>, k: Bytes, v: Bytes, now: nat) {
    k in m && m[k].val == v && (m[k].deadline.Some? ==> !Due(m[k].deadline.value, now))
  }

  lemma NothingToBack()
    ensures Backed(map[], map[], 0)
  {
  }

  method CacheOne(st: Store, req: Request, now: nat, ghost m: map<Bytes, Memo>) returns (r: Reply)
    requires st.Valid() && CacheRequest(req) && Backed(st.Db(), m, now)
    modifies st
    ensures st.Valid()
    ensures Backed(st.Db(), if req.Data? then Remember(m, req.cmd, r, now) else m, now)
    ensures req.Data? && req.cmd.Read? && r.Bulk? ==> HitIs(m, req.cmd.key, r.bytes, now)
  {
    hide Keyspace.Consistent, WatchOk, Tiers.Records, SameClients, Follows, Trimmed, Backed, Remember;
    ghost var before := st.Db();
    r := Ok;
    match req
    case Data(cmd) =>
      ghost var off := st.EvictionOff();
      r := Execute(st, cmd, now);
      BackedStep(before, m, cmd, now, off, st.Db(), r);
    case Layout(want) =>
      st.SetLayout(want);
    case Evict(kernel) =>
      st.SetKernel(kernel);
    case PromoteOnGet(on) =>
      st.SetPromoteOnGet(on);
    case MaxMemory(bytes) =>
      st.SetMaxmemory(bytes, now);
      BackedTrimmed(before, st.Db(), m, now, st.EvictionOff());
    case Expiry(effort) =>
      var freed := st.ActiveExpire(effort, now);
      BackedTrimmed(before, st.Db(), m, now, true);
  }

  // ----- pins -----

  /** The command does not name the key. */
  predicate Elsewhere(cmd: Command, k: Bytes) {
    match cmd
    case FlushDb => false
    case DbSize => true
    case Rename(q, nq, _) => q != k && nq != k
    case _ => cmd.key != k
  }

  predicate ElsewhereRequest(req: Request, k: Bytes) {
    match req
    case Data(cmd) => Elsewhere(cmd, k)
    case Layout(_) => true
    case Evict(_) => true
    case PromoteOnGet(_) => true
    case MaxMemory(_) => true
    case Expiry(_) => true
    case _ => false
  }

  ghost predicate PinnedAt(db: Db, k: Bytes, r: Rec) {
    k in db && db[k] == r && r.pinned
  }

  lemma PinnedTrimmed(full: Db, part: Db, k: Bytes, r: Rec, now: nat, exact: bool)
    requires PinnedAt(full, k, r) && !Due(r.deadline, now) && Trimmed(full, part, now, exact)
    ensures PinnedAt(part, k, r)
  {
  }

  lemma PinnedStep(before: Db, cmd: Command, k: Bytes, r: Rec, now: nat)
    requires PinnedAt(before, k, r) && Elsewhere(cmd, k)
    ensures PinnedAt(Step(before, cmd, now).0, k, r)
  {
    hide OnKey;
  }

  /** No run evicts a pinned live key: under any load on other keys, with any kernels,
      limits, layouts and choices of victims, it keeps its record unchanged. */
  method PinnedRun(st: Store, reqs: seq<Request>, times: seq<nat>, k: Bytes, ghost r: Rec)
    requires st.Valid() && |reqs| == |times| && PinnedAt(st.Db(), k, r)
    requires forall i :: 0 <= i < |reqs| ==> ElsewhereRequest(reqs[i], k) && !Due(r.deadline, times[i])
    modifies st
    ensures st.Valid() && PinnedAt(st.Db(), k, r)
  {
    hide Keyspace.Consistent, WatchOk, Tiers.Records, SameClients, Trimmed, PinnedAt, Step;
    for i := 0 to |reqs|
      invariant st.Valid() && PinnedAt(st.Db(), k, r)
    {
      ghost var before := st.Db();
      match reqs[i]
      case Data(cmd) =>
        ghost var off := st.EvictionOff();
        var reply := Execute(st, cmd, times[i]);
        if !TooManyArguments(cmd) {
          PinnedStep(before, cmd, k, r, times[i]);
          PinnedTrimmed(Step(before, cmd, times[i]).0, st.Db(), k, r, times[i], off);
        }
      case Layout(want) =>
        st.SetLayout(want);
      case Evict(kernel) =>
        st.SetKernel(kernel);
      case PromoteOnGet(on) =>
        st.SetPromoteOnGet(on);
      case MaxMemory(bytes) =>
        st.SetMaxmemory(bytes, times[i]);
        PinnedTrimmed(before, st.Db(), k, r, times[i], st.EvictionOff());
      case Expiry(effort) =>
        var freed := st.ActiveExpire(effort, times[i]);
        PinnedTrimmed(before, st.Db(), k, r, times[i], true);
    }
  }
}
