/** What a client sees from one command to the next, in numbers and replies: laws of the
    reference that name none of the functions it is made of. */
module Laws {
  import opened Common
  import opened SortedSets
  import opened Values
  import opened Reference
  import Lists

  /** The keyspace after commands at given times. */
  function After(db: Db, cmds: seq<Command>, times: seq<nat>): Db
    requires |cmds| == |times|
    decreases |cmds|
  {
    if |cmds| == 0 then db else After(Step(db, cmds[0], times[0]).0, cmds[1..], times[1..])
  }

  /** None of the commands writes the key. */
  ghost predicate Spared(cmds: seq<Command>, k: Bytes) {
    forall i :: 0 <= i < |cmds| ==> k !in Names(cmds[i])
  }

  /** The same payload and deadline under the key, or none in both. */
  predicate SameUnder(a: Db, b: Db, k: Bytes) {
    (k in a <==> k in b) && (k in a ==> a[k].data == b[k].data && a[k].deadline == b[k].deadline)
  }

  /** A command that does not write a key leaves it as it was. */
  lemma StepSpares(db: Db, cmd: Command, now: nat, k: Bytes)
    requires k !in Names(cmd)
    ensures SameUnder(db, Step(db, cmd, now).0, k)
  {
    hide SetFields, DropFields, PutAll, RemoveAll, Shrink, FreshIn;
    if !cmd.FlushDb? && !cmd.DbSize? && !cmd.Rename? {
      StepOnKey(db, cmd, now);
      if cmd.key == k { ReadsOnly(cmd, Get(db, k, now), now); }
    }
  }

  /** A command that names no key to write changes at most a pin. */
  lemma ReadsOnly(cmd: Command, found: Option<Rec>, now: nat)
    requires !cmd.FlushDb? && !cmd.DbSize? && !cmd.Rename? && cmd.key !in Names(cmd)
    ensures var e := OnKey(cmd, found, now).0;
      e.Same? || (found.Some? && e.Write? && e.rec.data == found.value.data && e.rec.deadline == found.value.deadline)
  {
    hide SetFields, DropFields, PutAll, RemoveAll, Shrink, FreshIn;
  }

  lemma {:induction false} AfterSpares(db: Db, cmds: seq<Command>, times: seq<nat>, k: Bytes)
    requires |cmds| == |times| && Spared(cmds, k)
    ensures SameUnder(db, After(db, cmds, times), k)
    decreases |cmds|
  {
    hide Step, Names;
    if |cmds| == 0 {
    } else {
      assert k !in Names(cmds[0]);
      StepSpares(db, cmds[0], times[0], k);
      assert forall i :: 0 <= i < |cmds[1..]| ==> cmds[1..][i] == cmds[i + 1];
      AfterSpares(Step(db, cmds[0], times[0]).0, cmds[1..], times[1..], k);
    }
  }

  // ----- deadlines -----

  function Gets(db: Db, k: Bytes, now: nat): Reply {
    Step(db, Command.Read(k), now).1
  }

  function PTtl(db: Db, k: Bytes, now: nat): Reply {
    Step(db, Command.TimeLeft(k, true), now).1
  }

  function TtlOf(db: Db, k: Bytes, now: nat): Reply {
    Step(db, Command.TimeLeft(k, false), now).1
  }

  /** The key dies at the moment `dies`: until then PTTL counts down to it, TTL rounds the
      rest up to seconds, and GET replies as `shown`; from then on it is not there. */
  ghost predicate DiesAt(db: Db, k: Bytes, dies: nat, shown: Reply) {
    forall now: nat ::
      if now < dies then
        && PTtl(db, k, now) == Int(dies - now) && Gets(db, k, now) == shown
        && TtlOf(db, k, now).Int? && 1000 * (TtlOf(db, k, now).n - 1) < dies - now <= 1000 * TtlOf(db, k, now).n
      else PTtl(db, k, now) == Int(-2) && TtlOf(db, k, now) == Int(-2) && Gets(db, k, now) == Nil
  }

  /** The key has no deadline. */
  ghost predicate NeverDies(db: Db, k: Bytes, shown: Reply) {
    forall now: nat :: PTtl(db, k, now) == Int(-1) && TtlOf(db, k, now) == Int(-1) && Gets(db, k, now) == shown
  }

  /** What the three show of a record. */
  lemma Views(db: Db, k: Bytes, now: nat)
    ensures var found := Get(db, k, now);
      match found
      case None => PTtl(db, k, now) == Int(-2) && TtlOf(db, k, now) == Int(-2) && Gets(db, k, now) == Nil
      case Some(r) =>
        && PTtl(db, k, now) == Int(if r.deadline == 0 then -1 else r.deadline - now)
        && TtlOf(db, k, now) == Int(if r.deadline == 0 then -1 else (r.deadline - now + 999) / 1000)
        && Gets(db, k, now) == if r.data.DStr? then Bulk(r.data.bytes) else Fail(WrongType)
  {
  }

  /** It depends on nothing but the record. */
  lemma DeathKept(a: Db, b: Db, k: Bytes, dies: nat, shown: Reply)
    requires SameUnder(a, b, k)
    ensures DiesAt(a, k, dies, shown) ==> DiesAt(b, k, dies, shown)
    ensures NeverDies(a, k, shown) ==> NeverDies(b, k, shown)
  {
    hide PTtl, TtlOf, Gets;
    forall now: nat
      ensures PTtl(a, k, now) == PTtl(b, k, now) && TtlOf(a, k, now) == TtlOf(b, k, now)
      ensures Gets(a, k, now) == Gets(b, k, now)
    {
      Views(a, k, now);
      Views(b, k, now);
    }
  }

  /** A record under the key dies at its deadline, or never. */
  lemma RecordDies(db: Db, k: Bytes)
    requires k in db
    ensures var shown := if db[k].data.DStr? then Bulk(db[k].data.bytes) else Fail(WrongType);
      if db[k].deadline == 0 then NeverDies(db, k, shown) else DiesAt(db, k, db[k].deadline, shown)
  {
    hide PTtl, TtlOf, Gets;
    forall now: nat { Views(db, k, now); }
  }

  /** What a SET that was accepted leaves. */
  lemma SetLeaves(db: Db, k: Bytes, v: Bytes, guard: Guard, ttl: Ttl, t: nat)
    requires Step(db, Command.Set(k, v, guard, ttl), t).1 == Ok
    ensures var a := Step(db, Command.Set(k, v, guard, ttl), t).0;
      && k in a && a[k].data == DStr(v)
      && (ttl.Forget? ==> a[k].deadline == 0)
      && (ttl.At? && ttl.when.Px? ==> ttl.when.n > 0 && a[k].deadline == t + ttl.when.n)
      && (ttl.At? && ttl.when.PxAt? ==> ttl.when.n > 0 && a[k].deadline == ttl.when.n)
  {
    hide Get;
  }

  /** SET with PX n at time t, then any commands that leave the key alone: it dies at t + n. */
  lemma SetPx(db: Db, k: Bytes, v: Bytes, guard: Guard, n: int, t: nat, cmds: seq<Command>, times: seq<nat>)
    requires |cmds| == |times| && Spared(cmds, k) && n > 0
    requires Step(db, Command.Set(k, v, guard, At(Px(n))), t).1 == Ok
    ensures DiesAt(After(Step(db, Command.Set(k, v, guard, At(Px(n))), t).0, cmds, times), k, t + n, Bulk(v))
  {
    hide DiesAt, NeverDies, Step, Names;
    SetLeaves(db, k, v, guard, At(Px(n)), t);
    var a := Step(db, Command.Set(k, v, guard, At(Px(n))), t).0;
    RecordDies(a, k);
    AfterSpares(a, cmds, times, k);
    DeathKept(a, After(a, cmds, times), k, t + n, Bulk(v));
  }

  /** SET with PXAT n: it dies at n, whenever that was set. */
  lemma SetPxAt(db: Db, k: Bytes, v: Bytes, guard: Guard, n: int, t: nat, cmds: seq<Command>, times: seq<nat>)
    requires |cmds| == |times| && Spared(cmds, k) && n > 0
    requires Step(db, Command.Set(k, v, guard, At(PxAt(n))), t).1 == Ok
    ensures DiesAt(After(Step(db, Command.Set(k, v, guard, At(PxAt(n))), t).0, cmds, times), k, n, Bulk(v))
  {
    hide DiesAt, NeverDies, Step, Names;
    SetLeaves(db, k, v, guard, At(PxAt(n)), t);
    var a := Step(db, Command.Set(k, v, guard, At(PxAt(n))), t).0;
    RecordDies(a, k);
    AfterSpares(a, cmds, times, k);
    DeathKept(a, After(a, cmds, times), k, n, Bulk(v));
  }

  /** A plain SET: it does not die. */
  lemma SetPlain(db: Db, k: Bytes, v: Bytes, guard: Guard, t: nat, cmds: seq<Command>, times: seq<nat>)
    requires |cmds| == |times| && Spared(cmds, k) && Step(db, Command.Set(k, v, guard, Forget), t).1 == Ok
    ensures NeverDies(After(Step(db, Command.Set(k, v, guard, Forget), t).0, cmds, times), k, Bulk(v))
  {
    hide DiesAt, NeverDies, Step, Names;
    SetLeaves(db, k, v, guard, Forget, t);
    var a := Step(db, Command.Set(k, v, guard, Forget), t).0;
    RecordDies(a, k);
    AfterSpares(a, cmds, times, k);
    DeathKept(a, After(a, cmds, times), k, 0, Bulk(v));
  }

  /** What an EXPIRE that was accepted leaves. */
  lemma ExpireLeaves(db: Db, k: Bytes, when: When, t: nat)
    requires Step(db, Command.Expire(k, when), t).1 == Int(1)
    ensures var a := Step(db, Command.Expire(k, when), t).0;
      && k in a && k in db && a[k].data == db[k].data && Get(db, k, t) == Some(db[k])
      && (when.Px? ==> a[k].deadline == if when.n > 0 then t + when.n else 0)
      && (when.PxAt? ==> a[k].deadline == if when.n > 0 then when.n else 0)
  {
  }

  /** PEXPIRE n at time t on a key that is there: it dies at t + n, and GET replies until
      then what it replied before; n of 0 or less takes the deadline away. */
  lemma PExpire(db: Db, k: Bytes, n: int, t: nat, cmds: seq<Command>, times: seq<nat>)
    requires |cmds| == |times| && Spared(cmds, k) && Step(db, Command.Expire(k, Px(n)), t).1 == Int(1)
    ensures var a := After(Step(db, Command.Expire(k, Px(n)), t).0, cmds, times);
      if n > 0 then DiesAt(a, k, t + n, Gets(db, k, t)) else NeverDies(a, k, Gets(db, k, t))
  {
    hide DiesAt, NeverDies, Gets, PTtl, TtlOf, Step, Names, Get;
    ExpireLeaves(db, k, Px(n), t);
    Views(db, k, t);
    var a := Step(db, Command.Expire(k, Px(n)), t).0;
    RecordDies(a, k);
    AfterSpares(a, cmds, times, k);
    DeathKept(a, After(a, cmds, times), k, if n > 0 then t + n else 0, Gets(db, k, t));
  }

  lemma PExpireAt(db: Db, k: Bytes, n: int, t: nat, cmds: seq<Command>, times: seq<nat>)
    requires |cmds| == |times| && Spared(cmds, k) && Step(db, Command.Expire(k, PxAt(n)), t).1 == Int(1)
    ensures var a := After(Step(db, Command.Expire(k, PxAt(n)), t).0, cmds, times);
      if n > 0 then DiesAt(a, k, n, Gets(db, k, t)) else NeverDies(a, k, Gets(db, k, t))
  {
    hide DiesAt, NeverDies, Gets, PTtl, TtlOf, Step, Names, Get;
    ExpireLeaves(db, k, PxAt(n), t);
    Views(db, k, t);
    var a := Step(db, Command.Expire(k, PxAt(n)), t).0;
    RecordDies(a, k);
    AfterSpares(a, cmds, times, k);
    DeathKept(a, After(a, cmds, times), k, if n > 0 then n else 0, Gets(db, k, t));
  }

  /** Seconds are thousands of milliseconds, in every form. */
  lemma SecondsAreThousands(db: Db, k: Bytes, v: Bytes, guard: Guard, n: int, t: nat)
    ensures Step(db, Command.Set(k, v, guard, At(Ex(n))), t) == Step(db, Command.Set(k, v, guard, At(Px(1000 * n))), t)
    ensures Step(db, Command.Set(k, v, guard, At(ExAt(n))), t)
         == Step(db, Command.Set(k, v, guard, At(PxAt(1000 * n))), t)
    ensures Step(db, Command.Expire(k, Ex(n)), t) == Step(db, Command.Expire(k, Px(1000 * n)), t)
    ensures Step(db, Command.Expire(k, ExAt(n)), t) == Step(db, Command.Expire(k, PxAt(1000 * n)), t)
  {
  }

  /** SET KEEPTTL on a live key changes the value and nothing PTTL or TTL show, ever after. */
  lemma KeepTtl(db: Db, k: Bytes, v: Bytes, guard: Guard, t: nat, now: nat)
    requires PTtl(db, k, t) != Int(-2) && t <= now
    requires Step(db, Command.Set(k, v, guard, Keep), t).1 == Ok
    ensures var a := Step(db, Command.Set(k, v, guard, Keep), t).0;
      && PTtl(a, k, now) == PTtl(db, k, now) && TtlOf(a, k, now) == TtlOf(db, k, now)
      && Gets(a, k, now) == if PTtl(db, k, now) == Int(-2) then Nil else Bulk(v)
  {
  }

  /** And on a missing key it is a plain SET. */
  lemma KeepNothing(db: Db, k: Bytes, v: Bytes, guard: Guard, t: nat)
    requires PTtl(db, k, t) == Int(-2)
    ensures Step(db, Command.Set(k, v, guard, Keep), t) == Step(db, Command.Set(k, v, guard, Forget), t)
  {
  }

  /** When SET writes at all: unless its time is not positive, NX only a missing key, XX only
      one that is there; refused, it changes nothing. */
  lemma SetGuards(db: Db, k: Bytes, v: Bytes, ttl: Ttl, t: nat)
    requires ttl.At? ==> ttl.when.n > 0
    ensures Step(db, Command.Set(k, v, Always, ttl), t).1 == Ok
    ensures var absent := PTtl(db, k, t) == Int(-2);
      && Step(db, Command.Set(k, v, IfAbsent, ttl), t)
           == (if absent then Step(db, Command.Set(k, v, Always, ttl), t) else (db, Nil))
      && Step(db, Command.Set(k, v, IfPresent, ttl), t)
           == (if absent then (db, Nil) else Step(db, Command.Set(k, v, Always, ttl), t))
  {
  }

  /** EXPIRE in any form replies 1 if and only if PTTL finds the key, and else changes nothing. */
  lemma ExpiresWhen(db: Db, k: Bytes, when: When, t: nat)
    ensures PTtl(db, k, t) != Int(-2) ==> Step(db, Command.Expire(k, when), t).1 == Int(1)
    ensures PTtl(db, k, t) == Int(-2) ==> Step(db, Command.Expire(k, when), t) == (db, Int(0))
  {
    hide Step;
    Views(db, k, t);
    StepOnKey(db, Command.Expire(k, when), t);
  }

  // ----- pins -----

  /** What UNPIN replies: 1 if the key is there and pinned. */
  function Unpins(db: Db, k: Bytes, now: nat): Reply {
    Step(db, Command.Unpin(k), now).1
  }

  lemma PinView(db: Db, k: Bytes, now: nat)
    ensures var found := Get(db, k, now); Unpins(db, k, now) == Int(if found.Some? && found.value.pinned then 1 else 0)
  {
  }

  /** No command but PIN and UNPIN pins or unpins a key it finds and leaves, and none but PIN
      pins a key it makes. */
  lemma PinsStay(db: Db, cmd: Command, t: nat)
    requires !cmd.FlushDb? && !cmd.DbSize? && !cmd.Rename? && !cmd.Pin? && !cmd.Unpin?
    requires PTtl(Step(db, cmd, t).0, cmd.key, t) != Int(-2)
    ensures Unpins(Step(db, cmd, t).0, cmd.key, t)
         == if PTtl(db, cmd.key, t) == Int(-2) then Int(0) else Unpins(db, cmd.key, t)
  {
    hide Step, OnKey, PTtl, Unpins;
    var a := Step(db, cmd, t).0;
    Views(db, cmd.key, t);
    Views(a, cmd.key, t);
    PinView(db, cmd.key, t);
    PinView(a, cmd.key, t);
    RightAfter(db, cmd, t);
    KeepsPin(cmd, Get(db, cmd.key, t), t);
  }

  lemma KeepsPin(cmd: Command, found: Option<Rec>, t: nat)
    requires !cmd.FlushDb? && !cmd.DbSize? && !cmd.Rename? && !cmd.Pin? && !cmd.Unpin?
    ensures var e := OnKey(cmd, found, t).0; e.Write? ==> e.rec.pinned == (found.Some? && found.value.pinned)
  {
    hide SetFields, DropFields, PutAll, RemoveAll, FreshIn, Lists.Pushed, Lists.Popped, Lists.Removed, Lists.Slice;
  }

  /** PIN and UNPIN do, and nothing else. */
  lemma PinThenUnpin(db: Db, k: Bytes, t: nat, now: nat)
    requires t <= now
    ensures var (a, r) := Step(db, Command.Pin(k), t);
      && r == Int(if PTtl(db, k, t) == Int(-2) then 0 else 1)
      && PTtl(a, k, now) == PTtl(db, k, now) && Gets(a, k, now) == Gets(db, k, now)
      && Unpins(a, k, now) == Int(if PTtl(db, k, now) == Int(-2) then 0 else 1)
    ensures var a := Step(db, Command.Unpin(k), t).0;
      && PTtl(a, k, now) == PTtl(db, k, now) && Gets(a, k, now) == Gets(db, k, now)
      && (PTtl(db, k, t) != Int(-2) ==> Unpins(a, k, now) == Int(0))
  {
    hide PTtl, Gets, Unpins;
    var a, b := Step(db, Command.Pin(k), t).0, Step(db, Command.Unpin(k), t).0;
    Views(db, k, t);
    Views(db, k, now);
    Views(a, k, now);
    Views(b, k, now);
    PinView(a, k, now);
    PinView(b, k, now);
  }

  // ----- strings and keys -----

  /** APPEND: the value grows at its end, the reply is the new length, the deadline stays. */
  lemma Appends(db: Db, k: Bytes, v: Bytes, t: nat, now: nat)
    requires Gets(db, k, t).Bulk? && t <= now
    ensures var (a, r) := Step(db, Command.Append(k, v), t);
      && r == Int(|Gets(db, k, t).bytes| + |v|)
      && PTtl(a, k, now) == PTtl(db, k, now)
      && (PTtl(a, k, now) != Int(-2) ==> Gets(a, k, now) == Bulk(Gets(db, k, t).bytes + v))
  {
  }

  lemma AppendsNew(db: Db, k: Bytes, v: Bytes, t: nat)
    requires PTtl(db, k, t) == Int(-2)
    ensures Step(db, Command.Append(k, v), t) == (Step(db, Command.Set(k, v, Always, Forget), t).0, Int(|v|))
  {
  }

  /** DEL takes away exactly one key, if it is there. */
  lemma Deletes(db: Db, k: Bytes, t: nat, q: Bytes, now: nat)
    requires t <= now
    ensures var (a, r) := Step(db, Command.Del(k), t);
      && r == Int(if PTtl(db, k, t) == Int(-2) then 0 else 1)
      && (q != k ==> PTtl(a, q, now) == PTtl(db, q, now) && Gets(a, q, now) == Gets(db, q, now))
      && PTtl(a, k, now) == Int(-2)
  {
  }

  /** RENAME: the new name shows what the old one showed, the old one is gone. */
  lemma Renames(db: Db, k: Bytes, nk: Bytes, t: nat, now: nat)
    requires k != nk && PTtl(db, k, t) != Int(-2) && t <= now
    ensures var (a, r) := Step(db, Command.Rename(k, nk, false), t);
      && r == Ok && PTtl(a, k, now) == Int(-2) && Gets(a, k, now) == Nil
      && PTtl(a, nk, now) == PTtl(db, k, now) && Gets(a, nk, now) == Gets(db, k, now)
      && Unpins(a, nk, now) == Unpins(db, k, now)
    ensures Step(db, Command.Rename(k, nk, true), t)
         == if PTtl(db, nk, t) != Int(-2) then (db, Int(0)) else (Step(db, Command.Rename(k, nk, false), t).0, Int(1))
  {
    hide PTtl, Gets, Unpins;
    var a := Step(db, Command.Rename(k, nk, false), t).0;
    Views(db, k, t);
    Views(db, nk, t);
    Views(db, k, now);
    Views(a, k, now);
    Views(a, nk, now);
    PinView(db, k, now);
    PinView(a, nk, now);
  }

  // ----- hashes -----

  function HGets(db: Db, k: Bytes, f: Bytes, now: nat): Reply {
    Step(db, Command.HGet(k, f), now).1
  }

  lemma FieldView(db: Db, k: Bytes, f: Bytes, now: nat)
    ensures var found := Get(db, k, now);
      HGets(db, k, f, now)
        == if found.None? then Nil
           else if !found.value.data.DHash? then Fail(WrongType)
           else if f in found.value.data.fields then Bulk(found.value.data.fields[f]) else Nil
  {
  }

  /** What is under a key right after the command that was about it. */
  lemma RightAfter(db: Db, cmd: Command, t: nat)
    requires !cmd.FlushDb? && !cmd.DbSize? && !cmd.Rename?
    ensures var (e, r) := OnKey(cmd, Get(db, cmd.key, t), t);
      && Step(db, cmd, t).1 == r
      && Get(Step(db, cmd, t).0, cmd.key, t)
           == match e
              case Same => Get(db, cmd.key, t)
              case Write(x) => (if Due(x.deadline, t) then None else Some(x))
              case Erase => None
  {
    hide OnKey;
    StepOnKey(db, cmd, t);
  }

  /** The last value given for a field, if any. */
  function LastFor(pairs: seq<(Bytes, Bytes)>, f: Bytes): Option<Bytes> {
    if |pairs| == 0 then None
    else
      var last := pairs[|pairs| - 1];
      if last.0 == f then Some(last.1) else LastFor(pairs[..|pairs| - 1], f)
  }

  lemma {:induction false} FieldsSet(m: map<Bytes, Bytes>, pairs: seq<(Bytes, Bytes)>, f: Bytes)
    ensures var x := LastFor(pairs, f);
      && (f in SetFields(m, pairs) <==> x.Some? || f in m)
      && (f in SetFields(m, pairs) ==> SetFields(m, pairs)[f] == if x.Some? then x.value else m[f])
    decreases |pairs|
  {
    if |pairs| == 0 {
    } else {
      FieldsSet(m[pairs[0].0 := pairs[0].1], pairs[1..], f);
      LastAhead(pairs, f);
    }
  }

  lemma {:induction false} LastAhead(pairs: seq<(Bytes, Bytes)>, f: Bytes)
    requires |pairs| > 0
    ensures LastFor(pairs, f)
         == if LastFor(pairs[1..], f).Some? then LastFor(pairs[1..], f)
            else if pairs[0].0 == f then Some(pairs[0].1) else None
    decreases |pairs|
  {
    var n := |pairs| - 1;
    if n == 0 {
      assert pairs[..0] == [];
    } else {
      LastAhead(pairs[..n], f);
      assert pairs[1..][..n - 1] == pairs[..n][1..];
    }
  }

  /** HSET then HGET: the last value given for the field, else what it was. */
  lemma HSetThenGet(db: Db, k: Bytes, pairs: seq<(Bytes, Bytes)>, f: Bytes, t: nat)
    requires Step(db, Command.HSet(k, pairs), t).1.Int? && |pairs| > 0
    ensures HGets(Step(db, Command.HSet(k, pairs), t).0, k, f, t)
         == if LastFor(pairs, f).Some? then Bulk(LastFor(pairs, f).value) else HGets(db, k, f, t)
  {
    hide SetFields, PutAll, RemoveAll, DropFields, FreshIn, Shrink, Step, HGets;
    var found := Get(db, k, t);
    FieldView(db, k, f, t);
    FieldView(Step(db, Command.HSet(k, pairs), t).0, k, f, t);
    RightAfter(db, Command.HSet(k, pairs), t);
    FieldsSet(if found.Some? && found.value.data.DHash? then found.value.data.fields else map[], pairs, f);
  }

  lemma {:induction false} LastForNamed(pairs: seq<(Bytes, Bytes)>, f: Bytes)
    ensures LastFor(pairs, f).Some? <==> exists i :: 0 <= i < |pairs| && pairs[i].0 == f
    decreases |pairs|
  {
    if |pairs| > 0 {
      var n := |pairs| - 1;
      LastForNamed(pairs[..n], f);
      assert forall i :: 0 <= i < n ==> pairs[..n][i] == pairs[i];
    }
  }

  lemma GrownBy(a: set<Bytes>, more: set<Bytes>)
    ensures |a + more| == |a| + |more - a|
  {
    assert a + more == a + (more - a);
  }

  lemma ShrunkBy(a: set<Bytes>, less: set<Bytes>)
    ensures |a - less| == |a| - |less * a|
  {
    assert a - less == a - less * a;
  }

  function FieldsNamed(pairs: seq<(Bytes, Bytes)>): set<Bytes> {
    set i | 0 <= i < |pairs| :: pairs[i].0
  }

  lemma KeysSet(m: map<Bytes, Bytes>, pairs: seq<(Bytes, Bytes)>)
    ensures SetFields(m, pairs).Keys == m.Keys + FieldsNamed(pairs)
  {
    hide SetFields, LastFor;
    forall f ensures f in SetFields(m, pairs).Keys <==> f in m.Keys + FieldsNamed(pairs) {
      FieldsSet(m, pairs, f);
      LastForNamed(pairs, f);
    }
  }

  lemma FieldsFound(db: Db, k: Bytes, named: set<Bytes>, t: nat)
    requires var found := Get(db, k, t); found.Some? ==> found.value.data.DHash?
    ensures var found := Get(db, k, t);
      var m: map<Bytes, Bytes> := if found.Some? then found.value.data.fields else map[];
      && named - m.Keys == (set f | f in named && HGets(db, k, f, t) == Nil)
      && named * m.Keys == (set f | f in named && HGets(db, k, f, t) != Nil)
  {
    hide HGets;
    forall f { FieldView(db, k, f, t); }
  }

  lemma HSetReply(found: Option<Rec>, k: Bytes, pairs: seq<(Bytes, Bytes)>, t: nat)
    requires OnKey(Command.HSet(k, pairs), found, t).1.Int?
    ensures |pairs| == 0 ==> OnKey(Command.HSet(k, pairs), found, t).1 == Int(0) && FieldsNamed(pairs) == {}
    ensures |pairs| > 0 && found.Some? ==> found.value.data.DHash?
    ensures |pairs| > 0 ==>
      var m: map<Bytes, Bytes> := if found.Some? then found.value.data.fields else map[];
      OnKey(Command.HSet(k, pairs), found, t).1 == Int(|SetFields(m, pairs).Keys| - |m.Keys|)
  {
    hide SetFields;
  }

  /** HSET replies how many of the fields it names HGET did not find before. */
  lemma HSetCounts(db: Db, k: Bytes, pairs: seq<(Bytes, Bytes)>, t: nat)
    requires Step(db, Command.HSet(k, pairs), t).1.Int?
    ensures Step(db, Command.HSet(k, pairs), t).1
         == Int(|set f | f in FieldsNamed(pairs) && HGets(db, k, f, t) == Nil|)
  {
    hide SetFields, Step, HGets, Get, OnKey, FieldsNamed;
    var found := Get(db, k, t);
    RightAfter(db, Command.HSet(k, pairs), t);
    HSetReply(found, k, pairs, t);
    if |pairs| == 0 {
      assert forall f :: !(f in FieldsNamed(pairs) && HGets(db, k, f, t) == Nil);
      return;
    }
    var m: map<Bytes, Bytes> := if found.Some? then found.value.data.fields else map[];
    KeysSet(m, pairs);
    GrownBy(m.Keys, FieldsNamed(pairs));
    FieldsFound(db, k, FieldsNamed(pairs), t);
  }

  lemma {:induction false} FieldsDropped(m: map<Bytes, Bytes>, fields: seq<Bytes>, f: Bytes)
    ensures f in DropFields(m, fields) <==> f in m && f !in fields
    ensures f in DropFields(m, fields) ==> DropFields(m, fields)[f] == m[f]
    decreases |fields|
  {
    if |fields| == 0 {
    } else {
      FieldsDropped(m - {fields[0]}, fields[1..], f);
      assert fields == [fields[0]] + fields[1..];
    }
  }

  /** HDEL then HGET: nothing for the fields named, for the others what there was. */
  lemma HDelThenGet(db: Db, k: Bytes, fields: seq<Bytes>, f: Bytes, t: nat)
    requires Step(db, Command.HDel(k, fields), t).1.Int?
    ensures HGets(Step(db, Command.HDel(k, fields), t).0, k, f, t)
         == if f in fields then Nil else HGets(db, k, f, t)
  {
    hide SetFields, PutAll, RemoveAll, DropFields, FreshIn, Step, HGets;
    var found := Get(db, k, t);
    FieldView(db, k, f, t);
    FieldView(Step(db, Command.HDel(k, fields), t).0, k, f, t);
    RightAfter(db, Command.HDel(k, fields), t);
    if found.Some? && found.value.data.DHash? { FieldsDropped(found.value.data.fields, fields, f); }
  }

  /** HDEL replies how many of the fields it names HGET found before. */
  lemma HDelCounts(db: Db, k: Bytes, fields: seq<Bytes>, t: nat)
    requires Step(db, Command.HDel(k, fields), t).1.Int?
    ensures Step(db, Command.HDel(k, fields), t).1 == Int(|set f | f in fields && HGets(db, k, f, t) != Nil|)
  {
    hide SetFields, PutAll, RemoveAll, DropFields, FreshIn, Shrink, Step, HGets;
    var found := Get(db, k, t);
    RightAfter(db, Command.HDel(k, fields), t);
    var m: map<Bytes, Bytes> := if found.Some? then found.value.data.fields else map[];
    var named := set f | f in fields;
    forall f { FieldsDropped(m, fields, f); }
    FieldsFound(db, k, named, t);
    assert DropFields(m, fields).Keys == m.Keys - named;
    ShrunkBy(m.Keys, named);
    assert named * m.Keys == set f | f in fields && HGets(db, k, f, t) != Nil;
  }

  // ----- lists -----

  /** The list under a key as LRANGE 0 -1 shows it. */
  function Shown(db: Db, k: Bytes, now: nat): Reply {
    Step(db, Command.LRange(k, 0, -1), now).1
  }

  lemma ShownIs(db: Db, k: Bytes, now: nat)
    ensures Get(db, k, now).Some? && Get(db, k, now).value.data.DList? ==>
      Shown(db, k, now) == Array(Get(db, k, now).value.data.items)
    ensures Get(db, k, now).None? ==> Shown(db, k, now) == Array([])
  {
    var found := Get(db, k, now);
    if found.Some? && found.value.data.DList? {
      var s := found.value.data.items;
      if |s| > 0 { assert s[0..|s|] == s; }
    }
  }

  /** The values in front in reverse, or behind in order. */
  function PushedItem(was: seq<Bytes>, left: bool, vals: seq<Bytes>, i: nat): Bytes
    requires i < |was| + |vals|
  {
    if left then (if i < |vals| then vals[|vals| - 1 - i] else was[i - |vals|])
    else (if i < |was| then was[i] else vals[i - |was|])
  }

  ghost predicate PushedInto(was: seq<Bytes>, left: bool, vals: seq<Bytes>, items: seq<Bytes>) {
    |items| == |was| + |vals| && forall i :: 0 <= i < |items| ==> items[i] == PushedItem(was, left, vals, i)
  }

  /** LPUSH puts each value in front of the list in turn, RPUSH each behind it. */
  lemma PushShows(db: Db, k: Bytes, left: bool, vals: seq<Bytes>, t: nat)
    requires |vals| > 0 && Shown(db, k, t).Array?
    ensures var was, now := Shown(db, k, t).items, Shown(Step(db, Command.Push(k, left, vals), t).0, k, t);
      && Step(db, Command.Push(k, left, vals), t).1 == Int(|was| + |vals|)
      && now.Array? && PushedInto(was, left, vals, now.items)
  {
    hide Lists.Pushed, Lists.Slice;
    ShownIs(db, k, t);
    var a := Step(db, Command.Push(k, left, vals), t).0;
    ShownIs(a, k, t);
    var was := Shown(db, k, t).items;
    assert Shown(a, k, t) == Array(Lists.Pushed(was, left, vals));
    PushedIs(was, left, vals);
  }

  lemma PushedIs(was: seq<Bytes>, left: bool, vals: seq<Bytes>)
    requires |vals| > 0
    ensures PushedInto(was, left, vals, Lists.Pushed(was, left, vals))
  {
    hide Lists.Pushed;
    var items := Lists.Pushed(was, left, vals);
    assert items == if left then Lists.Pushed(was, true, vals) else Lists.Pushed(was, false, vals);
    Lists.PushedAt(was, vals, 0);
    forall i | 0 <= i < |items| ensures items[i] == PushedItem(was, left, vals, i) {
      Lists.PushedAt(was, vals, i);
    }
  }

  /** LPOP takes the first element LRANGE shows, RPOP the last. */
  lemma PopShows(db: Db, k: Bytes, left: bool, t: nat)
    requires Shown(db, k, t).Array? && |Shown(db, k, t).items| > 0
    ensures var was, a := Shown(db, k, t).items, Step(db, Command.Pop(k, left), t);
      && a.1 == Bulk(if left then was[0] else was[|was| - 1])
      && Shown(a.0, k, t) == Array(if left then was[1..] else was[..|was| - 1])
  {
    hide Lists.Slice;
    ShownIs(db, k, t);
    ShownIs(Step(db, Command.Pop(k, left), t).0, k, t);
  }

  /** LREM, as LRANGE shows it: copies are taken from the shortest prefix or suffix that
      holds as many as asked for, or everywhere; the rest stands in order. */
  lemma RemShows(db: Db, k: Bytes, count: int, x: Bytes, t: nat) returns (p: nat)
    requires Shown(db, k, t).Array?
    ensures var was, a := Shown(db, k, t).items, Step(db, Command.LRem(k, count, x), t);
      && p <= |was|
      && Shown(a.0, k, t).Array? && a.1 == Int(|was| - |Shown(a.0, k, t).items|)
      && Shown(a.0, k, t)
           == Array(if count == 0 then Lists.Others(was, x)
                    else if count > 0 then Lists.Others(was[..p], x) + was[p..]
                    else was[..p] + Lists.Others(was[p..], x))
      && (count > 0 ==>
            && Lists.Copies(was[..p], x) == Min(count, Lists.Copies(was, x))
            && forall q :: 0 <= q < p ==> Lists.Copies(was[..q], x) < Min(count, Lists.Copies(was, x)))
      && (count < 0 ==>
            && Lists.Copies(was[p..], x) == Min(-count, Lists.Copies(was, x))
            && forall q :: p < q <= |was| ==> Lists.Copies(was[q..], x) < Min(-count, Lists.Copies(was, x)))
  {
    hide Lists.Slice, Lists.Removed, Lists.Others, Lists.Copies;
    var was := Shown(db, k, t).items;
    ShownIs(db, k, t);
    ShownIs(Step(db, Command.LRem(k, count, x), t).0, k, t);
    p := 0;
    if count > 0 {
      p := Lists.TakenFromHead(was, count, x);
    } else if count < 0 {
      p := Lists.TakenFromTail(was, count, x);
    } else {
      Lists.TakenEverywhere(was, x);
    }
    if Get(db, k, t).None? { Lists.NothingThere(count, x, p); }
  }

  // ----- sorted sets -----

  function ScoreShown(db: Db, k: Bytes, member: Bytes, now: nat): Reply {
    Step(db, Command.ZScore(k, member), now).1
  }

  lemma ScoreView(db: Db, k: Bytes, m: Bytes, now: nat)
    ensures var found := Get(db, k, now);
      ScoreShown(db, k, m, now)
        == if found.None? then Nil
           else if !found.value.data.DZSet? then Fail(WrongType)
           else if m in found.value.data.scores then ScoreOf(found.value.data.scores[m]) else Nil
  {
  }

  function LastScore(batch: seq<Member>, m: Bytes): Option<Score> {
    if |batch| == 0 then None
    else
      var last := batch[|batch| - 1];
      if last.key == m then Some(last.val) else LastScore(batch[..|batch| - 1], m)
  }

  lemma {:induction false} LastScoreAhead(batch: seq<Member>, m: Bytes)
    requires |batch| > 0
    ensures LastScore(batch, m)
         == if LastScore(batch[1..], m).Some? then LastScore(batch[1..], m)
            else if batch[0].key == m then Some(batch[0].val) else None
    decreases |batch|
  {
    var n := |batch| - 1;
    if n == 0 {
      assert batch[..0] == [];
    } else {
      LastScoreAhead(batch[..n], m);
      assert batch[1..][..n - 1] == batch[..n][1..];
    }
  }

  lemma {:induction false} ScoresPutAll(scores: map<Bytes, Score>, batch: seq<Member>, m: Bytes)
    ensures var x, r := LastScore(batch, m), PutAll(scores, batch);
      && (m in r <==> x.Some? || m in scores)
      && (m in r ==> r[m] == if x.Some? then x.value else scores[m])
    decreases |batch|
  {
    if |batch| == 0 {
    } else {
      ScoresPutAll(scores[batch[0].key := batch[0].val], batch[1..], m);
      LastScoreAhead(batch, m);
    }
  }

  /** ZADD then ZSCORE: the last score given for the member, else what it was. */
  lemma ZAddThenScore(db: Db, k: Bytes, batch: seq<Member>, m: Bytes, t: nat)
    requires Step(db, Command.ZAdd(k, batch), t).1.Int? && |batch| > 0
    ensures ScoreShown(Step(db, Command.ZAdd(k, batch), t).0, k, m, t)
         == if LastScore(batch, m).Some? then ScoreOf(LastScore(batch, m).value) else ScoreShown(db, k, m, t)
  {
    hide PutAll, FreshIn, SetFields, RemoveAll, DropFields, Shrink, Step, ScoreShown;
    var found := Get(db, k, t);
    ScoreView(db, k, m, t);
    ScoreView(Step(db, Command.ZAdd(k, batch), t).0, k, m, t);
    RightAfter(db, Command.ZAdd(k, batch), t);
    ScoresPutAll(if found.Some? && found.value.data.DZSet? then found.value.data.scores else map[], batch, m);
  }

  lemma {:induction false} LastScoreNamed(batch: seq<Member>, m: Bytes)
    ensures LastScore(batch, m).Some? <==> exists i :: 0 <= i < |batch| && batch[i].key == m
    decreases |batch|
  {
    if |batch| > 0 {
      var n := |batch| - 1;
      LastScoreNamed(batch[..n], m);
      assert forall i :: 0 <= i < n ==> batch[..n][i] == batch[i];
    }
  }

  function MembersNamed(batch: seq<Member>): set<Bytes> {
    set i | 0 <= i < |batch| :: batch[i].key
  }

  lemma KeysPut(scores: map<Bytes, Score>, batch: seq<Member>)
    ensures PutAll(scores, batch).Keys == scores.Keys + MembersNamed(batch)
  {
    hide PutAll, LastScore;
    forall m ensures m in PutAll(scores, batch).Keys <==> m in scores.Keys + MembersNamed(batch) {
      ScoresPutAll(scores, batch, m);
      LastScoreNamed(batch, m);
    }
  }

  lemma MembersFound(db: Db, k: Bytes, named: set<Bytes>, t: nat)
    requires var found := Get(db, k, t); found.Some? ==> found.value.data.DZSet?
    ensures var found := Get(db, k, t);
      var scores: map<Bytes, Score> := if found.Some? then found.value.data.scores else map[];
      && named - scores.Keys == (set m | m in named && ScoreShown(db, k, m, t) == Nil)
      && named * scores.Keys == (set m | m in named && ScoreShown(db, k, m, t) != Nil)
  {
    hide ScoreShown;
    forall m { ScoreView(db, k, m, t); }
  }

  lemma ZAddReply(found: Option<Rec>, k: Bytes, batch: seq<Member>, t: nat)
    requires OnKey(Command.ZAdd(k, batch), found, t).1.Int?
    ensures |batch| == 0 ==> OnKey(Command.ZAdd(k, batch), found, t).1 == Int(0) && MembersNamed(batch) == {}
    ensures |batch| > 0 && found.Some? ==> found.value.data.DZSet?
    ensures |batch| > 0 ==>
      var scores: map<Bytes, Score> := if found.Some? then found.value.data.scores else map[];
      OnKey(Command.ZAdd(k, batch), found, t).1 == Int(|PutAll(scores, batch).Keys| - |scores.Keys|)
  {
    hide PutAll, FreshIn;
  }

  /** ZADD replies how many of the members it names ZSCORE did not find before. */
  lemma ZAddCounts(db: Db, k: Bytes, batch: seq<Member>, t: nat)
    requires Step(db, Command.ZAdd(k, batch), t).1.Int?
    ensures Step(db, Command.ZAdd(k, batch), t).1
         == Int(|set m | m in MembersNamed(batch) && ScoreShown(db, k, m, t) == Nil|)
  {
    hide PutAll, Step, ScoreShown, Get, OnKey, MembersNamed;
    var found := Get(db, k, t);
    RightAfter(db, Command.ZAdd(k, batch), t);
    ZAddReply(found, k, batch, t);
    if |batch| == 0 {
      assert forall m :: !(m in MembersNamed(batch) && ScoreShown(db, k, m, t) == Nil);
      return;
    }
    var scores: map<Bytes, Score> := if found.Some? then found.value.data.scores else map[];
    KeysPut(scores, batch);
    GrownBy(scores.Keys, MembersNamed(batch));
    MembersFound(db, k, MembersNamed(batch), t);
  }

  lemma {:induction false} ScoresRemoved(scores: map<Bytes, Score>, members: seq<Bytes>, m: Bytes)
    ensures m in RemoveAll(scores, members) <==> m in scores && m !in members
    ensures m in RemoveAll(scores, members) ==> RemoveAll(scores, members)[m] == scores[m]
    decreases |members|
  {
    if |members| == 0 {
    } else {
      ScoresRemoved(scores - {members[0]}, members[1..], m);
      assert members == [members[0]] + members[1..];
    }
  }

  lemma ZRemThenScore(db: Db, k: Bytes, members: seq<Bytes>, m: Bytes, t: nat)
    requires Step(db, Command.ZRem(k, members), t).1.Int?
    ensures ScoreShown(Step(db, Command.ZRem(k, members), t).0, k, m, t)
         == if m in members then Nil else ScoreShown(db, k, m, t)
  {
    hide RemoveAll, PutAll, SetFields, DropFields, FreshIn, Step, ScoreShown;
    var found := Get(db, k, t);
    ScoreView(db, k, m, t);
    ScoreView(Step(db, Command.ZRem(k, members), t).0, k, m, t);
    RightAfter(db, Command.ZRem(k, members), t);
    if found.Some? && found.value.data.DZSet? { ScoresRemoved(found.value.data.scores, members, m); }
  }

  /** ZREM replies how many of the members it names ZSCORE found before. */
  lemma ZRemCounts(db: Db, k: Bytes, members: seq<Bytes>, t: nat)
    requires Step(db, Command.ZRem(k, members), t).1.Int?
    ensures Step(db, Command.ZRem(k, members), t).1 == Int(|set m | m in members && ScoreShown(db, k, m, t) != Nil|)
  {
    hide RemoveAll, PutAll, SetFields, DropFields, FreshIn, Shrink, Step, ScoreShown;
    var found := Get(db, k, t);
    RightAfter(db, Command.ZRem(k, members), t);
    var scores: map<Bytes, Score> := if found.Some? then found.value.data.scores else map[];
    var named := set m | m in members;
    forall m { ScoresRemoved(scores, members, m); }
    MembersFound(db, k, named, t);
    assert RemoveAll(scores, members).Keys == scores.Keys - named;
    ShrunkBy(scores.Keys, named);
    assert named * scores.Keys == set m | m in members && ScoreShown(db, k, m, t) != Nil;
  }
}
