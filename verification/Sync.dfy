/** SYNC: the commands a master sends for its live entries, what a replica makes of
    them, and when its keyspace ends up the master's. */
module Sync {
  import opened Common
  import opened Chains
  import opened Values
  import opened Reference
  import opened Tiers
  import opened Listing
  import SortedSets
  import Resp
  import Arrivals
  import Rdb

  type Word = Bytes
  type Words = seq<Bytes>

  const SET: Bytes := [83, 69, 84]
  const EX: Bytes := [69, 88]
  const HSET: Bytes := [72, 83, 69, 84]
  const RPUSH: Bytes := [82, 80, 85, 83, 72]
  const ZADD: Bytes := [90, 65, 68, 68]
  const EXPIRE: Bytes := [69, 88, 80, 73, 82, 69]

  /** How scores are printed and read ("%.17g" and strtod). */
  datatype Numerals = Numerals(show: SortedSets.Score -> Bytes, parse: Bytes -> Option<SortedSets.Score>)

  /** Printing then reading gives the same double, NaN excepted. */
  ghost predicate Faithful(num: Numerals) {
    forall s: SortedSets.Score :: !SortedSets.IsNaN(s) ==> num.parse(num.show(s)) == Some(s)
  }

  // ----- sending -----

  function ItemWords(x: Item, num: Numerals): Words {
    match x
    case Field(f, v) => [f, v]
    case Elem(b) => [b]
    case Scored(score, m) => [num.show(score), m]
  }

  function ItemsWords(items: seq<Item>, num: Numerals): Words {
    if |items| == 0 then [] else ItemWords(items[0], num) + ItemsWords(items[1..], num)
  }

  function Verb(kind: Kind): Word {
    match kind
    case KString => SET
    case KHash => HSET
    case KList => RPUSH
    case KZSet => ZADD
  }

  function Deadlined(n: Node<Entry>, now: nat): nat
    requires !Due(n.val.expireAt, now) && n.val.expireAt != 0
  {
    Rdb.SecondsTo(n.val.expireAt, now)
  }

  /** The one or two commands for an entry; none for an empty collection. */
  function Sent(n: Node<Entry>, now: nat, num: Numerals): seq<Words>
    requires !Due(n.val.expireAt, now)
  {
    var e := n.val;
    if e.value.StrV? then
      (if e.expireAt == 0 then [[SET, n.key, e.value.bytes]]
       else [[SET, n.key, e.value.bytes, EX, Resp.Digits(Deadlined(n, now))]])
    else if |ItemsOf(e.value)| == 0 then []
    else
      [[Verb(KindOf(e.value)), n.key] + ItemsWords(ItemsOf(e.value), num)]
      + (if e.expireAt == 0 then [] else [[EXPIRE, n.key, Resp.Digits(Deadlined(n, now))]])
  }

  ghost predicate NoneDue(c: Chain<Entry>, now: nat) {
    forall i :: 0 <= i < |c| ==> !Due(c[i].val.expireAt, now)
  }

  function SentAll(c: Chain<Entry>, now: nat, num: Numerals): seq<Words>
    requires NoneDue(c, now)
  {
    if |c| == 0 then [] else Sent(c[0], now, num) + SentAll(c[1..], now, num)
  }

  // ----- receiving -----

  function Fold(b: Byte): Byte {
    if 65 <= b <= 90 then b + 32 else b
  }

  /** Names are compared without regard to case. */
  predicate Named(w: Word, name: Word) {
    |w| == |name| && forall i :: 0 <= i < |w| ==> Fold(w[i]) == Fold(name[i])
  }

  /** atoll on a string of digits that fits its buffer. */
  function Number(w: Word): Option<nat> {
    if 0 < |w| < 32 && Resp.AllDigits(w) then Some(Resp.Value(w)) else None
  }

  function Pairs(w: Words): seq<(Bytes, Bytes)> {
    if |w| < 2 then [] else [(w[0], w[1])] + Pairs(w[2..])
  }

  function Members(w: Words, num: Numerals): Option<seq<SortedSets.Member>> {
    if |w| < 2 then Some([])
    else match num.parse(w[0])
      case None => None
      case Some(score) =>
        match Members(w[2..], num)
        case None => None
        case Some(more) => Some([Node(w[1], score)] + more)
  }

  function SetForm(w: Words): Option<Command>
    requires |w| >= 3
  {
    if |w| == 3 then Some(Set(w[1], w[2], Always, Forget))
    else if |w| == 5 && Named(w[3], EX) && Number(w[4]).Some?
      then Some(Set(w[1], w[2], Always, At(Ex(Number(w[4]).value))))
    else None
  }

  function HSetForm(w: Words): Option<Command>
    requires |w| >= 3
  {
    if |w| >= 4 && |w| % 2 == 0 then Some(HSet(w[1], Pairs(w[2..]))) else None
  }

  function ZAddForm(w: Words, num: Numerals): Option<Command>
    requires |w| >= 3
  {
    if |w| < 4 || |w| % 2 != 0 then None
    else match Members(w[2..], num)
      case None => None
      case Some(batch) => Some(ZAdd(w[1], batch))
  }

  function ExpireForm(w: Words): Option<Command>
    requires |w| >= 3
  {
    if |w| == 3 && Number(w[2]).Some? then Some(Expire(w[1], Ex(Number(w[2]).value))) else None
  }

  /** How the five forms a sync stream consists of are dispatched; every other command
      is none of them. */
  function Heard(w: Words, num: Numerals): Option<Command> {
    if |w| < 3 then None
    else if Named(w[0], SET) then SetForm(w)
    else if Named(w[0], HSET) then HSetForm(w)
    else if Named(w[0], RPUSH) then Some(Push(w[1], false, w[2..]))
    else if Named(w[0], ZADD) then ZAddForm(w, num)
    else if Named(w[0], EXPIRE) then ExpireForm(w)
    else None
  }

  /** The replica's keyspace after a list of commands, if they are of those forms. */
  function Replayed(db: Db, cmds: seq<Words>, now: nat, num: Numerals): Option<Db>
    decreases |cmds|
  {
    if |cmds| == 0 then Some(db)
    else match Heard(cmds[0], num)
      case None => None
      case Some(cmd) => Replayed(Perform(db, cmd, now).0, cmds[1..], now, num)
  }

  lemma {:induction false} ReplayedAppend(db: Db, a: seq<Words>, b: seq<Words>, now: nat, num: Numerals)
    ensures Replayed(db, a + b, now, num)
         == match Replayed(db, a, now, num) case None => None case Some(d) => Replayed(d, b, now, num)
    decreases |a|
  {
    hide Heard, Perform;
    if |a| == 0 {
      assert a + b == b;
    } else {
      assert (a + b)[1..] == a[1..] + b;
      var cmd := Heard(a[0], num);
      if cmd.Some? { ReplayedAppend(Perform(db, cmd.value, now).0, a[1..], b, now, num); }
    }
  }

  // ----- what is sent is heard -----

  lemma Names()
    ensures !Named(HSET, SET) && !Named(RPUSH, SET) && !Named(ZADD, SET) && !Named(EXPIRE, SET)
    ensures !Named(RPUSH, HSET) && !Named(ZADD, HSET) && !Named(EXPIRE, HSET)
    ensures !Named(ZADD, RPUSH) && !Named(EXPIRE, RPUSH) && !Named(EXPIRE, ZADD)
    ensures Named(SET, SET) && Named(HSET, HSET) && Named(RPUSH, RPUSH) && Named(ZADD, ZADD)
    ensures Named(EXPIRE, EXPIRE) && Named(EX, EX)
  {
    assert Fold(ZADD[0]) != Fold(HSET[0]);
  }

  lemma {:induction false} FieldWords(m: map<Bytes, Bytes>, items: seq<Item>, num: Numerals)
    requires AllFit(KHash, items)
    ensures |ItemsWords(items, num)| == 2 * |items| && |Pairs(ItemsWords(items, num))| == |items|
    ensures Gathered(DHash(m), items) == DHash(SetFields(m, Pairs(ItemsWords(items, num))))
    decreases |items|
  {
    if |items| == 0 {
    } else {
      var x := items[0];
      var w, more := ItemsWords(items, num), ItemsWords(items[1..], num);
      assert w == [x.field, x.val] + more && w[2..] == more;
      FieldWords(m[x.field := x.val], items[1..], num);
      assert Pairs(w)[1..] == Pairs(more);
    }
  }

  lemma {:induction false} ElementWords(s: seq<Bytes>, items: seq<Item>, num: Numerals)
    requires AllFit(KList, items)
    ensures |ItemsWords(items, num)| == |items|
    ensures Gathered(DList(s), items) == DList(s + ItemsWords(items, num))
    decreases |items|
  {
    if |items| == 0 {
      assert s + [] == s;
    } else {
      ElementWords(s + [items[0].bytes], items[1..], num);
      assert s + [items[0].bytes] + ItemsWords(items[1..], num) == s + ItemsWords(items, num);
    }
  }

  lemma {:induction false} MemberWords(m: map<Bytes, SortedSets.Score>, items: seq<Item>, num: Numerals)
    requires AllFit(KZSet, items) && Faithful(num) && NoNaN(items)
    ensures |ItemsWords(items, num)| == 2 * |items|
    ensures var batch := Members(ItemsWords(items, num), num);
      batch.Some? && |batch.value| == |items| && Gathered(DZSet(m), items) == DZSet(SortedSets.PutAll(m, batch.value))
    decreases |items|
  {
    if |items| == 0 {
    } else {
      var x := items[0];
      var w, more := ItemsWords(items, num), ItemsWords(items[1..], num);
      assert w == [num.show(x.score), x.member] + more && w[2..] == more;
      MemberWords(m[x.member := x.score], items[1..], num);
      assert Members(w, num).value[1..] == Members(more, num).value;
    }
  }

  // ----- one entry -----

  /** An entry of a store: sound, not an empty collection, the deadline within its
      machine integer, no score NaN. */
  ghost predicate Sendable(n: Node<Entry>) {
    && Sound(n.val.value) && !EmptyTyped(n.val.value)
    && n.val.expireAt < 0x1_0000_0000_0000_0000 && NoNaN(ItemsOf(n.val.value))
  }

  /** The master's record as the replica gets it: not pinned, and with a deadline as
      many whole seconds away, rounded up, as it was when it was sent. */
  function Synced(r: Rec, sent: nat, now: nat): Rec
    requires !Due(r.deadline, sent)
  {
    Rec(r.data, if r.deadline == 0 then 0 else now + Rdb.SecondsTo(r.deadline, sent) * 1000, false)
  }

  /** No deadline comes early, and beyond the delay none is a second late. */
  lemma SyncedDeadline(r: Rec, sent: nat, now: nat)
    requires !Due(r.deadline, sent) && sent <= now
    ensures var q := Synced(r, sent, now);
      && q.data == r.data && !Due(q.deadline, now) && (q.deadline == 0 <==> r.deadline == 0)
      && (r.deadline != 0 ==> r.deadline + (now - sent) <= q.deadline < r.deadline + (now - sent) + 1000)
  {
  }

  /** The commands for an entry can reach the replica: this is where its size matters. */
  ghost predicate Accepted(n: Node<Entry>, now: nat, num: Numerals)
    requires !Due(n.val.expireAt, now)
  {
    Arrivals.AllFit(Sent(n, now, num))
  }

  lemma NumberRead(n: nat)
    requires n < 0x1_0000_0000_0000_0000
    ensures Number(Resp.Digits(n)) == Some(n)
  {
    Resp.DigitsAre(n);
    TwentyDigits(n);
  }

  lemma TwentyDigits(n: nat)
    requires n < 0x1_0000_0000_0000_0000
    ensures |Resp.Digits(n)| <= 20
  {
    TwentyPowers();
    Resp.DigitsLength(n, 20);
  }

  lemma TwentyPowers()
    ensures Resp.Pow10(20) == 100_000_000_000_000_000_000
  {
    assert Resp.Pow10(5) == 100_000 by {
      assert Resp.Pow10(1) == 10 && Resp.Pow10(2) == 100 && Resp.Pow10(3) == 1000;
    }
    PowersAdd(5, 5);
    PowersAdd(10, 10);
  }

  lemma {:induction false} PowersAdd(a: nat, b: nat)
    ensures Resp.Pow10(a + b) == Resp.Pow10(a) * Resp.Pow10(b)
  {
    if b == 0 {
    } else {
      PowersAdd(a, b - 1);
    }
  }

  lemma HeardText(k: Bytes, v: Bytes, num: Numerals)
    ensures Heard([SET, k, v], num) == Some(Set(k, v, Always, Forget))
  {
    hide Named;
    Names();
  }

  lemma HeardTextEx(k: Bytes, v: Bytes, sec: nat, num: Numerals)
    requires sec < 0x1_0000_0000_0000_0000
    ensures Heard([SET, k, v, EX, Resp.Digits(sec)], num) == Some(Set(k, v, Always, At(Ex(sec))))
  {
    hide Named, Resp.Digits, Number;
    Names();
    NumberRead(sec);
  }

  lemma HeardExpire(k: Bytes, sec: nat, num: Numerals)
    requires sec < 0x1_0000_0000_0000_0000
    ensures Heard([EXPIRE, k, Resp.Digits(sec)], num) == Some(Expire(k, Ex(sec)))
  {
    hide Named, Resp.Digits, Number;
    Names();
    NumberRead(sec);
  }

  lemma Fronted(name: Word, k: Bytes, w: Words)
    ensures var words := [name, k] + w;
      |words| == 2 + |w| && words[0] == name && words[1] == k && words[2..] == w
  {
  }

  lemma HeardHash(k: Bytes, w: Words, num: Numerals)
    requires |w| >= 2 && |w| % 2 == 0
    ensures Heard([HSET, k] + w, num) == Some(HSet(k, Pairs(w)))
  {
    hide Named, Pairs, Heard;
    Fronted(HSET, k, w);
    HeardAsHash([HSET, k] + w, num);
  }

  lemma HeardAsHash(words: Words, num: Numerals)
    requires |words| >= 3 && words[0] == HSET
    ensures Heard(words, num) == HSetForm(words)
  {
    hide Named, SetForm, HSetForm, ZAddForm, ExpireForm;
    Names();
  }

  lemma HeardList(k: Bytes, w: Words, num: Numerals)
    requires |w| >= 1
    ensures Heard([RPUSH, k] + w, num) == Some(Push(k, false, w))
  {
    hide Named, SetForm, HSetForm, ZAddForm, ExpireForm;
    Names();
    Fronted(RPUSH, k, w);
  }

  lemma HeardZSet(k: Bytes, w: Words, num: Numerals)
    requires |w| >= 2 && |w| % 2 == 0 && Members(w, num).Some?
    ensures Heard([ZADD, k] + w, num) == Some(ZAdd(k, Members(w, num).value))
  {
    hide Named, Members, SetForm, HSetForm, ExpireForm;
    Names();
    Fronted(ZADD, k, w);
  }

  // ----- what a command leaves under its key -----

  /** The record under the key after an effect. */
  function Left(found: Option<Rec>, e: Effect): Option<Rec> {
    match e
    case Same => found
    case Write(r) => Some(r)
    case Erase => None
  }

  predicate OneKey(cmd: Command, k: Bytes) {
    !cmd.FlushDb? && !cmd.DbSize? && !cmd.Rename? && cmd.key == k && !TooManyArguments(cmd)
  }

  lemma PerformGet(db: Db, cmd: Command, k: Bytes, now: nat)
    requires OneKey(cmd, k)
    ensures var left := Left(Get(db, k, now), OnKey(cmd, Get(db, k, now), now).0);
      forall q :: Get(Perform(db, cmd, now).0, q, now)
        == if q != k then Get(db, q, now)
           else if left.Some? && !Due(left.value.deadline, now) then left else None
  {
    hide OnKey;
    StepOnKey(db, cmd, now);
  }

  // ----- one entry on a replica that may have the key -----

  /** What the command for a collection makes of the data it finds. */
  function Overlaid(q: Data, r: Data): Data {
    match (q, r)
    case (DHash(m), DHash(n)) => DHash(m + n)
    case (DList(a), DList(b)) => DList(a + b)
    case (DZSet(m), DZSet(n)) =>
      var more := |n.Keys - m.Keys|;
      if more == 0 || |m| + more <= SortedSets.MAX_MEMBERS then DZSet(m + n) else q
    case _ => q
  }

  /** The record the commands for the master's record r leave on the replica. */
  function Merged(found: Option<Rec>, r: Rec, sent: nat, now: nat): Rec
    requires !Due(r.deadline, sent)
  {
    var synced := Synced(r, sent, now);
    match found
    case None => synced
    case Some(q) =>
      if r.data.DStr? then synced.(pinned := q.pinned)
      else Rec(Overlaid(q.data, r.data), if r.deadline == 0 then q.deadline else synced.deadline, q.pinned)
  }

  /** Whether the replica's record ends up the master's, pins aside. */
  predicate Takes(q: Rec, r: Rec) {
    r.data.DStr? ||
    ((r.deadline != 0 || q.deadline == 0) &&
     match (q.data, r.data)
     case (DHash(m), DHash(n)) => m.Keys <= n.Keys
     case (DZSet(m), DZSet(n)) => m.Keys <= n.Keys
     case _ => false)
  }

  /** Syncing onto an existing record gives the master's exactly when it is a string, or a
      hash or sorted set over some of the master's fields or members, and no old deadline
      is left standing; never for a list, nor for another type. */
  lemma MergesWhen(q: Rec, r: Rec, sent: nat, now: nat)
    requires !Due(r.deadline, sent) && Filled(q.data) && Filled(r.data)
    requires r.data.DZSet? ==> |r.data.scores| <= SortedSets.MAX_MEMBERS
    ensures Merged(Some(q), r, sent, now) == Synced(r, sent, now).(pinned := q.pinned) <==> Takes(q, r)
  {
    match (q.data, r.data)
    case (DHash(m), DHash(n)) => OverlayIs(m, n);
    case (DZSet(m), DZSet(n)) =>
      OverlayIs(m, n);
      OverlaySize(m, n);
    case (DList(a), DList(b)) => assert |a + b| > |b|;
    case _ =>
  }

  lemma OverlayIs<V(!new)>(m: map<Bytes, V>, n: map<Bytes, V>)
    ensures m + n == n <==> m.Keys <= n.Keys
  {
    assert (m + n).Keys == m.Keys + n.Keys;
  }

  lemma OverlaySize<V(!new)>(m: map<Bytes, V>, n: map<Bytes, V>)
    ensures m.Keys <= n.Keys ==> |m| + |n.Keys - m.Keys| == |n|
  {
    if m.Keys <= n.Keys {
      assert n.Keys == m.Keys + (n.Keys - m.Keys);
      assert |n.Keys| == |m.Keys| + |n.Keys - m.Keys|;
      assert |m| == |m.Keys| && |n| == |n.Keys|;
    }
  }

  lemma {:induction false} FieldsOver(m: map<Bytes, Bytes>, items: seq<Item>)
    requires AllFit(KHash, items)
    ensures Gathered(DHash(map[]), items).DHash?
    ensures Gathered(DHash(m), items) == DHash(m + Gathered(DHash(map[]), items).fields)
    decreases |items|
  {
    if |items| == 0 {
      assert m + map[] == m;
    } else {
      var f, v := items[0].field, items[0].val;
      FieldsOver(m[f := v], items[1..]);
      FieldsOver(map[f := v], items[1..]);
      assert map[][f := v] == map[f := v];
      var rest := Gathered(DHash(map[]), items[1..]).fields;
      assert m[f := v] + rest == m + (map[f := v] + rest);
    }
  }

  lemma {:induction false} MembersAre(c: seq<SortedSets.Member>, num: Numerals)
    requires Faithful(num) && NoNaN(ScoredItems(c))
    ensures Members(ItemsWords(ScoredItems(c), num), num) == Some(c)
    decreases |c|
  {
    if |c| == 0 {
    } else {
      var items := ScoredItems(c);
      var w, more := ItemsWords(items, num), ItemsWords(items[1..], num);
      assert items[0] == Scored(c[0].val, c[0].key) && items[1..] == ScoredItems(c[1..]);
      assert w == [num.show(c[0].val), c[0].key] + more && w[2..] == more;
      assert NoNaN(items[1..]) by { assert forall i :: 0 <= i < |items[1..]| ==> items[1..][i] == items[i + 1]; }
      MembersAre(c[1..], num);
      assert [Node(c[0].key, c[0].val)] + c[1..] == c;
    }
  }

  lemma KeysLess(c: seq<SortedSets.Member>, n: set<Bytes>)
    requires SortedSets.Unique(c) && |c| > 0 && forall k :: k in n <==> FindC(c, k).Some?
    ensures SortedSets.Unique(c[1..]) && n == (n - {c[0].key}) + {c[0].key}
    ensures forall k :: k in n - {c[0].key} <==> FindC(c[1..], k).Some?
  {
    hide SortedSets.Unique;
    TailUnique(c);
    assert c[0].key in n;
  }

  /** The pre-count of ZADD, for members given once each. */
  lemma {:induction false} FreshOnce(m: map<Bytes, SortedSets.Score>, c: seq<SortedSets.Member>, n: set<Bytes>)
    requires SortedSets.Unique(c) && forall k :: k in n <==> FindC(c, k).Some?
    ensures SortedSets.FreshIn(m, c) == |n - m.Keys|
    decreases |c|
  {
    hide SortedSets.Unique;
    if |c| == 0 {
      assert n == {};
    } else {
      KeysLess(c, n);
      FreshOnce(m, c[1..], n - {c[0].key});
      OneFresh(n, n - {c[0].key}, m.Keys, c[0].key);
    }
  }

  lemma OneFresh(n: set<Bytes>, rest: set<Bytes>, m: set<Bytes>, k: Bytes)
    requires n == rest + {k} && k !in rest
    ensures |n - m| == |rest - m| + if k in m then 0 else 1
  {
    if k in m {
      assert n - m == rest - m;
    } else {
      assert n - m == (rest - m) + {k};
    }
  }

  lemma {:induction false} PutsOver(m: map<Bytes, SortedSets.Score>, c: seq<SortedSets.Member>)
    requires SortedSets.Unique(c)
    ensures SortedSets.PutAll(m, c) == m + SortedSets.Scores(c)
    decreases |c|
  {
    hide SortedSets.Scores, SortedSets.Unique;
    SortedSets.SameScores(c);
    if |c| == 0 {
      assert SortedSets.Scores(c) == map[];
      assert m + map[] == m;
    } else {
      TailUnique(c);
      PutsOver(m[c[0].key := c[0].val], c[1..]);
      SortedSets.SameScores(c[1..]);
      var n, rest := SortedSets.Scores(c), SortedSets.Scores(c[1..]);
      assert n == map[c[0].key := c[0].val] + rest;
      assert m[c[0].key := c[0].val] + rest == m + n;
    }
  }

  lemma TailUnique(c: seq<SortedSets.Member>)
    requires SortedSets.Unique(c) && |c| > 0
    ensures SortedSets.Unique(c[1..]) && FindC(c[1..], c[0].key).None?
  {
  }

  /** The command for a collection is heard, and leaves this. */
  ghost predicate Lands(found: Option<Rec>, cmd: Option<Command>, k: Bytes, r: Data, now: nat) {
    && cmd.Some? && OneKey(cmd.value, k)
    && Left(found, OnKey(cmd.value, found, now).0)
       == Some(match found case None => Rec(r, 0, false) case Some(q) => q.(data := Overlaid(q.data, r)))
  }

  lemma HashLands(found: Option<Rec>, v: Value, k: Bytes, now: nat, num: Numerals)
    requires v.HashV? && Sound(v) && 0 < |ItemsOf(v)| <= 31
    ensures Lands(found, Heard([HSET, k] + ItemsWords(ItemsOf(v), num), num), k, Seen(v), now)
  {
    hide Heard, ItemsWords, Pairs, SetFields, Gathered, Placed, MapOf, InOrder, FieldItems;
    var items := ItemsOf(v);
    ItemsRebuild(v);
    var w := ItemsWords(items, num);
    FieldWords(map[], items, num);
    HeardHash(k, w, num);
    if found.Some? && found.value.data.DHash? {
      FieldWords(found.value.data.fields, items, num);
      FieldsOver(found.value.data.fields, items);
    }
  }

  lemma ListLands(found: Option<Rec>, v: Value, k: Bytes, now: nat, num: Numerals)
    requires v.ListV? && 0 < |ItemsOf(v)| <= 62
    ensures Lands(found, Heard([RPUSH, k] + ItemsWords(ItemsOf(v), num), num), k, Seen(v), now)
  {
    hide Heard, ItemsWords, ListItems, Lands, Gathered, AllFit;
    var items := ItemsOf(v);
    ElementsGather([], v.items);
    ElementWords([], items, num);
    var w := ItemsWords(items, num);
    assert [] + v.items == v.items && [] + w == w;
    HeardList(k, w, num);
    RowLands(found, w, k, now);
  }

  lemma RowLands(found: Option<Rec>, w: Words, k: Bytes, now: nat)
    requires 0 < |w| <= 62
    ensures Lands(found, Some(Push(k, false, w)), k, DList(w), now)
  {
    assert [] + w == w;
  }

  lemma ZSetLands(found: Option<Rec>, v: Value, k: Bytes, now: nat, num: Numerals)
    requires v.ZSetV? && Sound(v) && 0 < |ItemsOf(v)| <= 31 && NoNaN(ItemsOf(v)) && Faithful(num)
    ensures Lands(found, Heard([ZADD, k] + ItemsWords(ItemsOf(v), num), num), k, Seen(v), now)
  {
    hide Heard, ItemsWords, Members, SortedSets.Scores, Faithful, NoNaN, Lands, ScoredItems, Gathered, AllFit;
    var c, items := v.nodes, ItemsOf(v);
    ItemsCount(v);
    ItemsRebuild(v);
    WordsPerItem(KZSet, items, num);
    MembersAre(c, num);
    HeardZSet(k, ItemsWords(items, num), num);
    BatchLands(found, c, k, now);
  }

  lemma BatchLands(found: Option<Rec>, c: seq<SortedSets.Member>, k: Bytes, now: nat)
    requires SortedSets.Unique(c) && 0 < |c| <= 31
    ensures Lands(found, Some(ZAdd(k, c)), k, DZSet(SortedSets.Scores(c)), now)
  {
    hide SortedSets.PutAll, SortedSets.FreshIn, SortedSets.Scores, SortedSets.Unique, OnKey, Overlaid;
    if found.None? {
      PutsOver(map[], c);
      assert map[] + SortedSets.Scores(c) == SortedSets.Scores(c);
      BatchOnMissing(c, k, now);
    } else {
      BatchOnFound(c, k, found.value, now);
      BatchOverlays(found.value.data, c);
    }
  }

  lemma BatchOverlays(q: Data, c: seq<SortedSets.Member>)
    requires SortedSets.Unique(c)
    ensures Overlaid(q, DZSet(SortedSets.Scores(c)))
      == if !q.DZSet? then q
         else
           var more := SortedSets.FreshIn(q.scores, c);
           if more != 0 && |q.scores| + more > SortedSets.MAX_MEMBERS then q
           else DZSet(SortedSets.PutAll(q.scores, c))
  {
    hide SortedSets.PutAll, SortedSets.FreshIn, SortedSets.Scores, SortedSets.Unique, FindC;
    if q.DZSet? {
      PutsOver(q.scores, c);
      SortedSets.SameScores(c);
      FreshOnce(q.scores, c, SortedSets.Scores(c).Keys);
    }
  }

  lemma BatchOnMissing(c: seq<SortedSets.Member>, k: Bytes, now: nat)
    requires |c| > 0
    ensures OnKey(ZAdd(k, c), None, now).0 == Write(Rec(DZSet(SortedSets.PutAll(map[], c)), 0, false))
  {
    hide SortedSets.PutAll;
  }

  lemma BatchOnFound(c: seq<SortedSets.Member>, k: Bytes, q: Rec, now: nat)
    requires |c| > 0
    ensures OnKey(ZAdd(k, c), Some(q), now).0
      == if !q.data.DZSet? then Effect.Same
         else
           var m, more := q.data.scores, SortedSets.FreshIn(q.data.scores, c);
           if more != 0 && |m| + more > SortedSets.MAX_MEMBERS then Effect.Same
           else Write(q.(data := DZSet(SortedSets.PutAll(m, c))))
  {
    hide SortedSets.PutAll, SortedSets.FreshIn;
  }

  lemma CollectionLands(found: Option<Rec>, n: Node<Entry>, now: nat, num: Numerals)
    requires Sendable(n) && !n.val.value.StrV? && Faithful(num)
    requires 0 < |ItemsOf(n.val.value)| <= if n.val.value.ListV? then MOST_ELEMENTS else MOST_PAIRS
    ensures Lands(found, Heard([Verb(KindOf(n.val.value)), n.key] + ItemsWords(ItemsOf(n.val.value), num), num),
                  n.key, Seen(n.val.value), now)
  {
    hide Heard, ItemsWords, ItemsOf, Sound, NoNaN, Faithful, Lands, EmptyTyped;
    match n.val.value
    case HashV(_, _) => HashLands(found, n.val.value, n.key, now, num);
    case ListV(_) => ListLands(found, n.val.value, n.key, now, num);
    case ZSetV(_, _) => ZSetLands(found, n.val.value, n.key, now, num);
  }

  lemma ReplayedOne(db: Db, w: Words, now: nat, num: Numerals)
    requires Heard(w, num).Some?
    ensures Replayed(db, [w], now, num) == Some(Perform(db, Heard(w, num).value, now).0)
  {
    hide Heard, Perform;
    assert [w][1..] == [];
  }

  lemma ReplayedTwo(db: Db, v: Words, w: Words, now: nat, num: Numerals)
    requires Heard(v, num).Some? && Heard(w, num).Some?
    ensures Replayed(db, [v] + [w], now, num)
         == Some(Perform(Perform(db, Heard(v, num).value, now).0, Heard(w, num).value, now).0)
  {
    hide Heard, Perform;
    ReplayedOne(db, v, now, num);
    ReplayedOne(Perform(db, Heard(v, num).value, now).0, w, now, num);
    ReplayedAppend(db, [v], [w], now, num);
  }

  /** The keyspace is as it was but for one key. */
  ghost predicate Becomes(base: Db, after: Option<Db>, k: Bytes, r: Rec, now: nat) {
    after.Some? && forall q :: Get(after.value, q, now) == if q == k then Some(r) else Get(base, q, now)
  }

  /** Every entry whose commands can arrive does: whatever the replica holds under its
      key, they leave exactly the merged record there, and nothing else changes. */
  lemma EntryArrives(base: Db, n: Node<Entry>, sent: nat, now: nat, num: Numerals)
    requires !Due(n.val.expireAt, sent) && sent <= now && Sendable(n) && Faithful(num) && Accepted(n, sent, num)
    ensures Becomes(base, Replayed(base, Sent(n, sent, num), now, num), n.key,
                    Merged(Get(base, n.key, now), RecOf(n.val), sent, now), now)
  {
    hide Heard, Perform, Replayed, ItemsWords, ItemsOf, Resp.Digits, Faithful, NoNaN, Sound, EmptyTyped,
      Resp.Encode, Becomes, Merged;
    if n.val.value.StrV? {
      TextArrives(base, n, sent, now, num);
    } else {
      CollectionArrives(base, n, sent, now, num);
    }
  }

  lemma CollectionArrives(base: Db, n: Node<Entry>, sent: nat, now: nat, num: Numerals)
    requires !Due(n.val.expireAt, sent) && sent <= now && Sendable(n) && Faithful(num) && Accepted(n, sent, num)
    requires !n.val.value.StrV?
    ensures Becomes(base, Replayed(base, Sent(n, sent, num), now, num), n.key,
                    Merged(Get(base, n.key, now), RecOf(n.val), sent, now), now)
  {
    hide Heard, Perform, Replayed, ItemsWords, ItemsOf, Resp.Digits, Faithful, NoNaN, Sound, EmptyTyped,
      Resp.Encode, OnKey, Seen, Overlaid, Resp.Bulks, Resp.Header;
    var k, v := n.key, n.val.value;
    var found := Get(base, k, now);
    var first := [Verb(KindOf(v)), k] + ItemsWords(ItemsOf(v), num);
    assert |ItemsOf(v)| > 0 by { ItemsCount(v); NonEmpty(v); }
    var cmds := Sent(n, sent, num);
    assert cmds[0] == first && Arrivals.Fits(cmds[0]);
    assert AllFit(KindOf(v), ItemsOf(v)) by { ItemsRebuild(v); }
    WordsPerItem(KindOf(v), ItemsOf(v), num);
    CollectionLands(found, n, now, num);
    var cmd := Heard(first, num).value;
    PerformGet(base, cmd, k, now);
    ReplayedOne(base, first, now, num);
    SeenKindOf(v);
    if n.val.expireAt == 0 {
      assert [first] + [] == [first];
    } else {
      var sec := Deadlined(n, sent);
      var mid := Perform(base, cmd, now).0;
      HeardExpire(k, sec, num);
      ReplayedTwo(base, first, [EXPIRE, k, Resp.Digits(sec)], now, num);
      PerformGet(mid, Expire(k, Ex(sec)), k, now);
      ExpireLeaves(k, Get(mid, k, now).value, sec, now);
    }
  }

  lemma SeenKindOf(v: Value)
    ensures Seen(v).DStr? == v.StrV?
  {
  }

  lemma ExpireLeaves(k: Bytes, q: Rec, sec: nat, now: nat)
    requires sec > 0
    ensures OnKey(Expire(k, Ex(sec)), Some(q), now).0 == Write(q.(deadline := now + sec * 1000))
  {
  }

  lemma NonEmpty(v: Value)
    requires !EmptyTyped(v) && !v.StrV?
    ensures match v case HashV(_, n) => n > 0 case ListV(s) => |s| > 0 case ZSetV(c, _) => |c| > 0
  {
  }

  lemma TextArrives(base: Db, n: Node<Entry>, sent: nat, now: nat, num: Numerals)
    requires !Due(n.val.expireAt, sent) && n.val.value.StrV? && sent <= now
    requires n.val.expireAt < 0x1_0000_0000_0000_0000
    ensures Becomes(base, Replayed(base, Sent(n, sent, num), now, num), n.key,
                    Merged(Get(base, n.key, now), RecOf(n.val), sent, now), now)
  {
    hide Heard, Replayed, Resp.Digits, Perform;
    var k, v := n.key, n.val.value.bytes;
    if n.val.expireAt == 0 {
      HeardText(k, v, num);
      ReplayedOne(base, [SET, k, v], now, num);
      PerformGet(base, Set(k, v, Always, Forget), k, now);
    } else {
      var sec := Deadlined(n, sent);
      HeardTextEx(k, v, sec, num);
      ReplayedOne(base, [SET, k, v, EX, Resp.Digits(sec)], now, num);
      PerformGet(base, Set(k, v, Always, At(Ex(sec))), k, now);
    }
  }

  // ----- the whole stream -----

  ghost predicate AllSendable(c: Chain<Entry>) {
    forall i :: 0 <= i < |c| ==> Sendable(c[i])
  }

  /** What the replica holds after the stream, given what it held and what was sent. */
  ghost function Outcome(held: Option<Rec>, e: Option<Entry>, sent: nat, now: nat): Option<Rec>
    requires e.Some? ==> !Due(e.value.expireAt, sent)
  {
    if e.Some? then Some(Merged(held, RecOf(e.value), sent, now)) else held
  }

  lemma {:induction false} NoneDueFound(c: Chain<Entry>, k: Bytes, now: nat)
    requires NoneDue(c, now)
    ensures FindC(c, k).Some? ==> !Due(FindC(c, k).value.expireAt, now)
    decreases |c|
  {
    if |c| == 0 {
    } else {
      NoneDueFound(c[1..], k, now);
    }
  }

  /** The stream merges every entry sent into what the replica holds, and leaves every
      other key it has as it was: SYNC does not clear the replica. */
  lemma {:induction false} StreamArrives(base: Db, c: Chain<Entry>, sent: nat, now: nat, num: Numerals)
    requires NoneDue(c, sent) && AllSendable(c) && NoRepeats(c) && Faithful(num) && sent <= now
    requires Arrivals.AllFit(SentAll(c, sent, num))
    ensures forall k :: FindC(c, k).Some? ==> !Due(FindC(c, k).value.expireAt, sent)
    ensures var r := Replayed(base, SentAll(c, sent, num), now, num);
      r.Some? && forall k :: Get(r.value, k, now) == Outcome(Get(base, k, now), FindC(c, k), sent, now)
    decreases |c|
  {
    hide Sent, Replayed, Sendable, Faithful, Merged, Arrivals.Fits, Get, RecOf;
    forall k ensures FindC(c, k).Some? ==> !Due(FindC(c, k).value.expireAt, sent) { NoneDueFound(c, k, sent); }
    if |c| == 0 {
      assert Replayed(base, [], now, num) == Some(base) by { NothingReplayed(base, now, num); }
    } else {
      var a, b := Sent(c[0], sent, num), SentAll(c[1..], sent, num);
      assert SentAll(c, sent, num) == a + b;
      FitSplits(a, b);
      EntryArrives(base, c[0], sent, now, num);
      ReplayedAppend(base, a, b, now, num);
      var mid := Replayed(base, a, now, num).value;
      StreamArrives(mid, c[1..], sent, now, num);
    }
  }

  lemma FitSplits(a: seq<Words>, b: seq<Words>)
    ensures Arrivals.AllFit(a + b) <==> Arrivals.AllFit(a) && Arrivals.AllFit(b)
  {
    hide Arrivals.Fits;
    if Arrivals.AllFit(a + b) {
      assert forall i :: 0 <= i < |a| ==> (a + b)[i] == a[i];
      assert forall i :: 0 <= i < |b| ==> (a + b)[|a| + i] == b[i];
    }
  }

  lemma NothingReplayed(base: Db, now: nat, num: Numerals)
    ensures Replayed(base, [], now, num) == Some(base)
  {
  }

  // ----- which entries can reach the replica -----

  const MOST_PAIRS: nat := 31
  const MOST_ELEMENTS: nat := 62

  /** At most 31 fields or members, 62 elements, and each command under 16 MiB. */
  ghost predicate WithinLimits(n: Node<Entry>, sent: nat, num: Numerals)
    requires !Due(n.val.expireAt, sent)
  {
    var v := n.val.value;
    && |ItemsOf(v)| <= (if v.ListV? then MOST_ELEMENTS else MOST_PAIRS)
    && forall i :: 0 <= i < |Sent(n, sent, num)| ==> |Resp.Encode(Sent(n, sent, num)[i])| < Arrivals.READ_LIMIT
  }

  lemma {:induction false} WordsPerItem(kind: Kind, items: seq<Item>, num: Numerals)
    requires AllFit(kind, items)
    ensures |ItemsWords(items, num)| == (if kind.KList? then 1 else 2) * |items|
    decreases |items|
  {
    if |items| == 0 {
    } else {
      WordsPerItem(kind, items[1..], num);
      assert ItemFits(kind, items[0]);
    }
  }

  /** The commands for an entry can arrive exactly when it is within the limits. */
  lemma AcceptedWhen(n: Node<Entry>, sent: nat, num: Numerals)
    requires !Due(n.val.expireAt, sent) && Sendable(n)
    ensures Accepted(n, sent, num) <==> WithinLimits(n, sent, num)
  {
    hide Sound, ItemsOf, ItemsWords, Resp.Encode, Resp.Digits, EmptyTyped, NoNaN;
    var v := n.val.value;
    var cmds := Sent(n, sent, num);
    if v.StrV? {
      assert |ItemsOf(v)| == 0 by { NoTextItems(v); }
      assert |cmds| == 1 && |cmds[0]| <= 5;
    } else {
      assert |ItemsOf(v)| > 0 by { ItemsCount(v); NonEmpty(v); }
      assert AllFit(KindOf(v), ItemsOf(v)) by { ItemsRebuild(v); }
      WordsPerItem(KindOf(v), ItemsOf(v), num);
      assert cmds[0] == [Verb(KindOf(v)), n.key] + ItemsWords(ItemsOf(v), num);
      assert |cmds[0]| == 2 + (if v.ListV? then 1 else 2) * |ItemsOf(v)|;
      assert forall i :: 0 < i < |cmds| ==> |cmds[i]| == 3;
    }
  }

  lemma NoTextItems(v: Value)
    requires v.StrV?
    ensures |ItemsOf(v)| == 0
  {
  }

  ghost predicate AllWithinLimits(c: Chain<Entry>, sent: nat, num: Numerals)
    requires NoneDue(c, sent)
  {
    forall i :: 0 <= i < |c| ==> WithinLimits(c[i], sent, num)
  }

  lemma {:induction false} AllAccepted(c: Chain<Entry>, sent: nat, num: Numerals)
    requires NoneDue(c, sent) && AllSendable(c)
    ensures Arrivals.AllFit(SentAll(c, sent, num)) <==> AllWithinLimits(c, sent, num)
    decreases |c|
  {
    hide Sent, WithinLimits, Sendable, Arrivals.Fits;
    if |c| == 0 {
    } else {
      var a, b := Sent(c[0], sent, num), SentAll(c[1..], sent, num);
      AcceptedWhen(c[0], sent, num);
      AllAccepted(c[1..], sent, num);
      FitSplits(a, b);
      assert c == [c[0]] + c[1..];
    }
  }

  lemma {:induction false} LiveOfLive(c: Chain<Entry>, now: nat)
    ensures NoneDue(LiveOf(c, now), now)
    decreases |c|
  {
    if |c| == 0 {
    } else {
      LiveOfLive(c[1..], now);
    }
  }

  function SyncedIf(r: Option<Rec>, sent: nat, now: nat): Option<Rec>
    requires r.Some? ==> !Due(r.value.deadline, sent)
  {
    if r.Some? then Some(Synced(r.value, sent, now)) else None
  }

  /** The commands a master sends at `sent`, and the bytes they are. */
  function Commands(s: Tiers, sent: nat, num: Numerals): seq<Words> {
    LiveOfLive(Walk(s), sent);
    SentAll(LiveEntries(s, sent), sent, num)
  }

  function Stream(s: Tiers, sent: nat, num: Numerals): Bytes {
    Resp.EncodeAll(Commands(s, sent, num))
  }

  /** The replica's keyspace, key by key, after the master's has been merged into it. */
  ghost predicate MergedInto(base: Db, s: Tiers, sent: nat, now: nat, r: Db) {
    forall k :: Get(r, k, now)
      == match Get(Records(s), k, sent)
         case None => Get(base, k, now)
         case Some(x) => Some(Merged(Get(base, k, now), x, sent, now))
  }

  /** Whatever bursts the stream arrives in, and whatever the replica holds: if its
      connection stays open, it has dispatched the whole stream, and its keyspace is its own
      with the master's live keyspace merged into it. */
  lemma SyncMerges(s: Tiers, base: Db, chunks: seq<Bytes>, sent: nat, now: nat, num: Numerals)
    requires Wellformed(s) && AllSendable(LiveEntries(s, sent)) && Faithful(num) && sent <= now
    requires Resp.Concat(chunks) == Stream(s, sent, num)
    requires !Arrivals.Receive(Resp.NOTHING_READ, chunks, Resp.AsWritten).broken
    ensures var d := Arrivals.Receive(Resp.NOTHING_READ, chunks, Resp.AsWritten);
      && d.commands == Commands(s, sent, num) && d.rest == []
      && var r := Replayed(base, d.commands, now, num);
         r.Some? && MergedInto(base, s, sent, now, r.value)
  {
    hide SentAll, LiveEntries, Wellformed, Faithful, Merged, Replayed, NoRepeats, Records, Resp.EncodeAll,
      Arrivals.Receive, AllSendable, Arrivals.AllFit, Resp.Drain, Get;
    var c, cmds := LiveEntries(s, sent), Commands(s, sent, num);
    LiveEntriesLive(s, sent);
    LiveEntriesAre(s, sent);
    assert Resp.NOTHING_READ.rest + Resp.Concat(chunks) == Resp.Concat(chunks);
    NothingWaits();
    Arrivals.TakenFits(Resp.NOTHING_READ, chunks, cmds, Resp.AsWritten);
    assert [] + cmds == cmds;
    StreamArrives(base, c, sent, now, num);
  }

  lemma NothingWaits()
    ensures Resp.Drain(Resp.NOTHING_READ.rest, Resp.AsWritten) == Resp.Reading([], Resp.NOTHING_READ.rest, false)
  {
  }

  /** The stream can arrive, in some bursts, if and only if every live entry of the master
      is within the limits. */
  lemma SyncArrivesWhen(s: Tiers, sent: nat, num: Numerals)
    requires AllSendable(LiveEntries(s, sent))
    ensures NoneDue(LiveEntries(s, sent), sent)
    ensures Arrivals.CanArrive(Commands(s, sent, num), Resp.AsWritten)
       <==> AllWithinLimits(LiveEntries(s, sent), sent, num)
  {
    hide SentAll, LiveEntries, AllSendable, Arrivals.AllFit, Arrivals.CanArrive, AllWithinLimits;
    LiveEntriesLive(s, sent);
    AllAccepted(LiveEntries(s, sent), sent, num);
    Arrivals.ArrivesWhen(Commands(s, sent, num), Resp.AsWritten);
  }

  /** SYNC rebuilds the master: on an empty replica the merged keyspace is the master's live
      keyspace, record for record. */
  lemma EmptyRebuilds(s: Tiers, sent: nat, now: nat, r: Db)
    requires MergedInto(map[], s, sent, now, r)
    ensures forall k :: Get(r, k, now) == SyncedIf(Get(Records(s), k, sent), sent, now)
  {
    hide Records, Synced;
    forall k ensures Get(r, k, now) == SyncedIf(Get(Records(s), k, sent), sent, now) {
      assert Get(map[], k, now) == None;
    }
  }

  /** Pins aside, as the master's. */
  predicate SameButPin(a: Option<Rec>, b: Option<Rec>) {
    a.Some? == b.Some? && (a.Some? ==> a.value.(pinned := false) == b.value.(pinned := false))
  }

  ghost predicate SmallSets(s: Tiers, sent: nat) {
    forall k :: Get(Records(s), k, sent).Some? && Get(Records(s), k, sent).value.data.DZSet? ==>
      |Get(Records(s), k, sent).value.data.scores| <= SortedSets.MAX_MEMBERS
  }

  /** On a replica that is not empty it does so, pins aside, if and only if the replica has
      no other live key, and takes the master's record under each key it has. */
  lemma RebuildsWhen(base: Db, s: Tiers, sent: nat, now: nat, r: Db)
    requires MergedInto(base, s, sent, now, r) && NoEmpties(base) && NoEmpties(Records(s)) && SmallSets(s, sent)
    ensures (forall k :: SameButPin(Get(r, k, now), SyncedIf(Get(Records(s), k, sent), sent, now)))
       <==> forall k :: Get(base, k, now).Some? ==>
              Get(Records(s), k, sent).Some? && Takes(Get(base, k, now).value, Get(Records(s), k, sent).value)
  {
    hide Records, Merged, Synced, Takes;
    forall k
      ensures SameButPin(Get(r, k, now), SyncedIf(Get(Records(s), k, sent), sent, now))
         <==> (Get(base, k, now).Some? ==>
                 Get(Records(s), k, sent).Some? && Takes(Get(base, k, now).value, Get(Records(s), k, sent).value))
    {
      var q, x := Get(base, k, now), Get(Records(s), k, sent);
      if x.Some? {
        MergedPin(q, x.value, sent, now);
        if q.Some? { MergesWhen(q.value, x.value, sent, now); }
      }
    }
  }

  lemma MergedPin(q: Option<Rec>, x: Rec, sent: nat, now: nat)
    requires !Due(x.deadline, sent)
    ensures Synced(x, sent, now).pinned == false
    ensures q.None? ==> Merged(q, x, sent, now) == Synced(x, sent, now)
    ensures q.Some? ==> Merged(q, x, sent, now).pinned == q.value.pinned
  {
  }

  lemma LiveEntriesLive(s: Tiers, now: nat)
    ensures NoneDue(LiveEntries(s, now), now)
  {
    LiveOfLive(Walk(s), now);
  }

  // ----- no sorted set gets out of order -----

  /** A command that puts no NaN into a sorted set. */
  ghost predicate Tidy(w: Words, num: Numerals) {
    Heard(w, num).Some? ==> forall unruly :: Spoilt(Heard(w, num).value, unruly) == unruly
  }

  ghost predicate AllTidy(cmds: seq<Words>, num: Numerals) {
    forall i :: 0 <= i < |cmds| ==> Tidy(cmds[i], num)
  }

  lemma TidyText(w: Words, num: Numerals)
    requires |w| >= 3 && !Named(w[0], ZADD)
    ensures Tidy(w, num)
  {
    hide Named, Number, Pairs, Members;
  }

  lemma NoneIsZAdd()
    ensures !Named(SET, ZADD) && !Named(HSET, ZADD) && !Named(RPUSH, ZADD) && !Named(EXPIRE, ZADD)
  {
    assert Fold(HSET[0]) != Fold(ZADD[0]);
  }

  lemma TidyZSet(k: Bytes, c: seq<SortedSets.Member>, num: Numerals)
    requires Faithful(num) && NoNaN(ScoredItems(c))
    ensures Tidy([ZADD, k] + ItemsWords(ScoredItems(c), num), num)
  {
    hide Named, SetForm, HSetForm, ExpireForm, Members, Faithful, NoNaN, SortedSets.Numbers;
    var w := ItemsWords(ScoredItems(c), num);
    Fronted(ZADD, k, w);
    Names();
    NumbersListed(c);
    MembersAre(c, num);
  }

  lemma SentTidy(n: Node<Entry>, now: nat, num: Numerals)
    requires !Due(n.val.expireAt, now) && Sendable(n) && Faithful(num)
    ensures AllTidy(Sent(n, now, num), num)
  {
    hide Tidy, Named, ItemsWords, ItemsOf, Resp.Digits, Faithful, Sound, NoNaN;
    NoneIsZAdd();
    var v, sent := n.val.value, Sent(n, now, num);
    forall i | 0 <= i < |sent| ensures Tidy(sent[i], num) {
      if v.ZSetV? && i == 0 && |ItemsOf(v)| > 0 {
        assert ItemsOf(v) == ScoredItems(v.nodes) by { ScoredOf(v); }
        TidyZSet(n.key, v.nodes, num);
      } else {
        ItemsSent(v, num);
        TidyText(sent[i], num);
      }
    }
  }

  lemma ScoredOf(v: Value)
    requires v.ZSetV?
    ensures ItemsOf(v) == ScoredItems(v.nodes)
  {
  }

  lemma ItemsSent(v: Value, num: Numerals)
    requires Sound(v)
    ensures |ItemsOf(v)| > 0 ==> |ItemsWords(ItemsOf(v), num)| > 0
  {
    hide ItemsOf, Sound;
    if v.StrV? {
      NoTextItems(v);
    } else {
      ItemsRebuild(v);
      WordsPerItem(KindOf(v), ItemsOf(v), num);
    }
  }

  lemma {:induction false} AllSentTidy(c: Chain<Entry>, now: nat, num: Numerals)
    requires NoneDue(c, now) && AllSendable(c) && Faithful(num)
    ensures AllTidy(SentAll(c, now, num), num)
    decreases |c|
  {
    hide Sent, Tidy, Sendable, Faithful;
    if |c| == 0 {
    } else {
      assert c == [c[0]] + c[1..];
      SentTidy(c[0], now, num);
      AllSentTidy(c[1..], now, num);
    }
  }
}
