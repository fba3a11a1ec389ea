/** What is in a snapshot file, byte by byte: in numbers and stored values, naming nothing of
    the writer or the reader. */
module Files {
  import opened Common
  import opened Chains
  import opened Values
  import opened Reference
  import opened Tiers
  import opened Listing
  import opened Rdb
  import opened Watching
  import opened Keyspace
  import opened Snapshots
  import SortedSets

  // ----- a file in numbers -----

  function Four(n: nat): Bytes {
    [n % 256, n / 256 % 256, n / 65536 % 256, n / 16777216 % 256]
  }

  function Eight(n: nat): Bytes {
    Four(n) + Four(n / 4294967296)
  }

  function Counted(b: Bytes): Bytes {
    Four(|b|) + b
  }

  function FieldBytesOf(c: Chain<Bytes>): Bytes {
    if |c| == 0 then [] else Counted(c[0].key) + Counted(c[0].val) + FieldBytesOf(c[1..])
  }

  function ElementBytes(s: seq<Bytes>): Bytes {
    if |s| == 0 then [] else Counted(s[0]) + ElementBytes(s[1..])
  }

  function MemberBytesOf(c: seq<SortedSets.Member>): Bytes {
    if |c| == 0 then [] else Eight(c[0].val) + Counted(c[0].key) + MemberBytesOf(c[1..])
  }

  /** Type byte, key, deadline; then a string's bytes, or the number of items and the items:
      fields with their values bucket by bucket, elements from the head, scores with their
      members in array order. */
  function RecordBytes(n: Node<Entry>): Bytes {
    match n.val.value
    case StrV(b) => [0] + Counted(n.key) + Eight(n.val.expireAt) + Counted(b)
    case HashV(t, _) =>
      [1] + Counted(n.key) + Eight(n.val.expireAt) + Four(|InOrder(t)|) + FieldBytesOf(InOrder(t))
    case ListV(s) => [2] + Counted(n.key) + Eight(n.val.expireAt) + Four(|s|) + ElementBytes(s)
    case ZSetV(c, _) => [3] + Counted(n.key) + Eight(n.val.expireAt) + Four(|c|) + MemberBytesOf(c)
  }

  function RecordsBytes(c: Chain<Entry>): Bytes {
    if |c| == 0 then [] else RecordBytes(c[0]) + RecordsBytes(c[1..])
  }

  /** AURARDB and a zero byte, version 2, the number of records, the records. */
  function FileBytes(c: Chain<Entry>): Bytes {
    [65, 85, 82, 65, 82, 68, 66, 0] + [2, 0, 0, 0] + Eight(|c|) + RecordsBytes(c)
  }

  lemma FourIs(n: nat)
    ensures LE(n, 4) == Four(n)
  {
    assert LE(n / 16777216, 1) == [n / 16777216 % 256] + LE(n / 16777216 / 256, 0);
    assert n / 256 / 256 == n / 65536 && n / 65536 / 256 == n / 16777216;
    assert LE(n / 65536, 2) == [n / 65536 % 256] + LE(n / 16777216, 1);
    assert LE(n / 256, 3) == [n / 256 % 256] + LE(n / 65536, 2);
  }

  lemma EightIs(n: nat)
    ensures LE(n, 8) == Eight(n)
  {
    var a, b, c, d := n / 256, n / 65536, n / 16777216, n / 4294967296;
    assert a / 256 == b && b / 256 == c && c / 256 == d;
    assert LE(c, 5) == [c % 256] + LE(d, 4);
    assert LE(b, 6) == [b % 256] + LE(c, 5);
    assert LE(a, 7) == [a % 256] + LE(b, 6);
    assert LE(n, 8) == [n % 256] + LE(a, 7);
    FourIs(d);
  }

  lemma CountedIs(b: Bytes)
    ensures Blob(b) == Counted(b)
  {
    FourIs(|b|);
  }

  lemma {:induction false} FieldsAre(c: Chain<Bytes>)
    ensures |FieldItems(c)| == |c| && PackedAll(FieldItems(c)) == FieldBytesOf(c)
    decreases |c|
  {
    hide Blob;
    if |c| == 0 {
    } else {
      FieldsAre(c[1..]);
      CountedIs(c[0].key);
      CountedIs(c[0].val);
      assert FieldItems(c)[1..] == FieldItems(c[1..]);
    }
  }

  lemma {:induction false} ElementsAre(s: seq<Bytes>)
    ensures |ListItems(s)| == |s| && PackedAll(ListItems(s)) == ElementBytes(s)
    decreases |s|
  {
    hide Blob;
    if |s| == 0 {
    } else {
      ElementsAre(s[1..]);
      CountedIs(s[0]);
      assert ListItems(s)[1..] == ListItems(s[1..]);
    }
  }

  lemma {:induction false} MembersAre(c: seq<SortedSets.Member>)
    ensures |ScoredItems(c)| == |c| && PackedAll(ScoredItems(c)) == MemberBytesOf(c)
    decreases |c|
  {
    hide Blob, LE;
    if |c| == 0 {
    } else {
      MembersAre(c[1..]);
      CountedIs(c[0].key);
      EightIs(c[0].val);
      assert ScoredItems(c)[1..] == ScoredItems(c[1..]);
    }
  }

  lemma RecordIs(n: Node<Entry>)
    ensures Written(n) == RecordBytes(n)
  {
    hide Blob, LE, Four, Eight, PackedAll;
    CountedIs(n.key);
    EightIs(n.val.expireAt);
    match n.val.value
    case StrV(b) => CountedIs(b);
    case HashV(t, _) =>
      FieldsAre(InOrder(t));
      FourIs(|InOrder(t)|);
    case ListV(s) =>
      ElementsAre(s);
      FourIs(|s|);
    case ZSetV(c, _) =>
      MembersAre(c);
      FourIs(|c|);
  }

  lemma {:induction false} RecordsAre(c: Chain<Entry>)
    ensures WrittenAll(c) == RecordsBytes(c)
    decreases |c|
  {
    hide Written, RecordBytes;
    if |c| == 0 {
    } else {
      RecordIs(c[0]);
      RecordsAre(c[1..]);
    }
  }

  /** Every dump, in numbers. */
  lemma FileIs(c: Chain<Entry>)
    ensures Dump(c) == FileBytes(c)
  {
    hide LE, WrittenAll, RecordsBytes, Eight;
    RecordsAre(c);
    EightIs(|c|);
    FourIs(2);
  }

  /** SAVE writes exactly these bytes, for every store. */
  method SaveBytes(st: Store, now: nat) returns (r: Option<Bytes>)
    requires st.Valid()
    ensures var c := LiveEntries(st.tiers, now);
      r == if AllWritable(c) then Some(FileBytes(c)) else None
  {
    hide Dump, FileBytes, LiveEntries, AllWritable, Consistent;
    FileIs(LiveEntries(st.tiers, now));
    r := Save(st, now);
  }

  // ----- one record, spelled out -----

  /** A value of each kind, with one item. */
  datatype One = Text(bytes: Bytes) | OneField(field: Bytes, val: Bytes) | OneElement(item: Bytes)
               | OneMember(member: Bytes, score: SortedSets.Score)

  function DataOf(one: One): Data {
    match one
    case Text(b) => DStr(b)
    case OneField(f, v) => DHash(map[f := v])
    case OneElement(x) => DList([x])
    case OneMember(m, score) => DZSet(map[m := score])
  }

  predicate Short(k: Bytes, one: One) {
    && |k| < 256
    && match one
       case Text(b) => |b| < 256
       case OneField(f, v) => |f| < 256 && |v| < 256
       case OneElement(x) => |x| < 256
       case OneMember(m, _) => |m| < 256
  }

  /** Its record: type byte, length of the key, key, deadline, and what is in it. */
  function OneRecord(k: Bytes, deadline: nat, one: One): Bytes
    requires Short(k, one)
  {
    match one
    case Text(b) => [0, |k|, 0, 0, 0] + k + Eight(deadline) + [|b|, 0, 0, 0] + b
    case OneField(f, v) =>
      [1, |k|, 0, 0, 0] + k + Eight(deadline) + [1, 0, 0, 0, |f|, 0, 0, 0] + f + [|v|, 0, 0, 0] + v
    case OneElement(x) => [2, |k|, 0, 0, 0] + k + Eight(deadline) + [1, 0, 0, 0, |x|, 0, 0, 0] + x
    case OneMember(m, score) =>
      [3, |k|, 0, 0, 0] + k + Eight(deadline) + [1, 0, 0, 0] + Eight(score) + [|m|, 0, 0, 0] + m
  }

  /** The file of a store that holds one such key. */
  function OneFile(k: Bytes, deadline: nat, one: One): Bytes
    requires Short(k, one)
  {
    [65, 85, 82, 65, 82, 68, 66, 0, 2, 0, 0, 0, 1, 0, 0, 0, 0, 0, 0, 0] + OneRecord(k, deadline, one)
  }

  lemma Solo<V>(k: Bytes, v: V)
    ensures var c := [Node(k, v)];
      NoRepeats(c) && forall q :: FindC(c, q) == if q == k then Some(v) else None
  {
    var c := [Node(k, v)];
    assert c[1..] == [];
  }

  lemma Singleton<V>(c: Chain<V>, k: Bytes, v: V)
    requires NoRepeats(c) && forall q :: FindC(c, q) == if q == k then Some(v) else None
    ensures c == [Node(k, v)]
  {
    assert FindC(c, k) == Some(v) && |c| > 0;
    assert FindC(c, c[0].key).Some?;
    if |c| > 1 { assert FindC(c[1..], c[1].key).Some? && FindC(c, c[1].key).Some?; }
  }

  lemma ShortCount(b: Bytes)
    requires |b| < 256
    ensures Counted(b) == [|b|, 0, 0, 0] + b
  {
  }

  /** How a value of that data is stored. */
  lemma OneStored(v: Value, one: One)
    requires Sound(v) && Seen(v) == DataOf(one)
    ensures match one
      case Text(b) => v == StrV(b)
      case OneField(f, x) => v.HashV? && InOrder(v.fields) == [Node(f, x)]
      case OneElement(x) => v == ListV([x])
      case OneMember(m, score) => v.ZSetV? && v.nodes == [Node(m, score)]
  {
    match one
    case Text(_) =>
    case OneField(f, x) =>
      hide Placed, Find, NoRepeats;
      MapOfFind(v.fields);
      InOrderIs(v.fields);
      Singleton(InOrder(v.fields), f, x);
    case OneElement(_) =>
    case OneMember(m, score) =>
      hide SortedSets.Scores, NoRepeats;
      SortedSets.SameScores(v.nodes);
      Singleton(v.nodes, m, score);
  }

  lemma OneBytes(n: Node<Entry>, one: One)
    requires Short(n.key, one) && Sound(n.val.value) && Seen(n.val.value) == DataOf(one)
    ensures FileBytes([n]) == OneFile(n.key, n.val.expireAt, one)
  {
    hide Sound, Seen, RecordBytes, OneRecord;
    var c := [n];
    assert c[1..] == [] && RecordsBytes([]) == [];
    assert RecordsBytes(c) == RecordBytes(n);
    assert Eight(1) == [1, 0, 0, 0, 0, 0, 0, 0];
    OneRecordBytes(n, one);
  }

  lemma OneRecordBytes(n: Node<Entry>, one: One)
    requires Short(n.key, one) && Sound(n.val.value) && Seen(n.val.value) == DataOf(one)
    ensures RecordBytes(n) == OneRecord(n.key, n.val.expireAt, one)
  {
    hide Sound, Seen, Counted, InOrder, Eight, Four;
    OneStored(n.val.value, one);
    ShortCount(n.key);
    FourOne();
    var k, d := n.key, Eight(n.val.expireAt);
    match one
    case Text(b) =>
      ShortCount(b);
      Grouped(0, k, d, [], b);
    case OneField(f, x) =>
      ShortCount(f);
      ShortCount(x);
      OneFieldBytes(f, x);
      Grouped(1, k, d, [1, 0, 0, 0], f);
      Attached([1, |k|, 0, 0, 0] + k + d, f, [|x|, 0, 0, 0] + x);
      assert [1, |k|, 0, 0, 0] + k + d + [1, 0, 0, 0, |f|, 0, 0, 0] + f + ([|x|, 0, 0, 0] + x)
          == OneRecord(k, n.val.expireAt, one);
    case OneElement(x) =>
      ShortCount(x);
      OneElementBytes(x);
      Grouped(2, k, d, [1, 0, 0, 0], x);
    case OneMember(m, score) =>
      ShortCount(m);
      OneMemberBytes(m, score);
      Grouped(3, k, d, [1, 0, 0, 0] + Eight(score), m);
      Attached2([3] + ([|k|, 0, 0, 0] + k) + d, [1, 0, 0, 0], Eight(score), [|m|, 0, 0, 0] + m);
  }

  lemma FourOne()
    ensures Four(1) == [1, 0, 0, 0]
  {
  }

  /** Bytes in other brackets. */
  lemma Grouped(t: Byte, k: Bytes, d: Bytes, a: Bytes, b: Bytes)
    requires |k| < 256 && |b| < 256
    ensures [t] + ([|k|, 0, 0, 0] + k) + d + a + ([|b|, 0, 0, 0] + b)
         == [t, |k|, 0, 0, 0] + k + d + a + [|b|, 0, 0, 0] + b
    ensures a == [1, 0, 0, 0] ==>
      [t] + ([|k|, 0, 0, 0] + k) + d + a + ([|b|, 0, 0, 0] + b)
        == [t, |k|, 0, 0, 0] + k + d + [1, 0, 0, 0, |b|, 0, 0, 0] + b
    ensures [t] + ([|k|, 0, 0, 0] + k) == [t, |k|, 0, 0, 0] + k
    ensures a == [] ==> [t, |k|, 0, 0, 0] + k + d + a == [t, |k|, 0, 0, 0] + k + d
  {
  }

  lemma Attached(front: Bytes, f: Bytes, x: Bytes)
    requires |f| < 256
    ensures front + [1, 0, 0, 0] + ([|f|, 0, 0, 0] + f + x) == front + [1, 0, 0, 0, |f|, 0, 0, 0] + f + x
  {
  }

  lemma Attached2(a: Bytes, b: Bytes, c: Bytes, d: Bytes)
    ensures a + b + (c + d) == a + (b + c) + d == a + b + c + d
  {
  }

  lemma OneFieldBytes(f: Bytes, x: Bytes)
    ensures FieldBytesOf([Node(f, x)]) == Counted(f) + Counted(x)
  {
    var c := [Node(f, x)];
    assert c[1..] == [];
  }

  lemma OneElementBytes(x: Bytes)
    ensures ElementBytes([x]) == Counted(x)
  {
    var c := [x];
    assert c[1..] == [];
  }

  lemma OneMemberBytes(m: Bytes, score: SortedSets.Score)
    ensures MemberBytesOf([Node(m, score)]) == Eight(score) + Counted(m)
  {
    var c: seq<SortedSets.Member> := [Node(m, score)];
    assert c[1..] == [];
  }

  /** SAVE of a store with one live key of any kind writes exactly those bytes. */
  method SaveOne(st: Store, k: Bytes, one: One, now: nat) returns (r: Option<Bytes>)
    requires st.Valid() && Short(k, one)
    requires Get(st.Db(), k, now).Some? && Get(st.Db(), k, now).value.data == DataOf(one)
    requires forall q :: q != k ==> Get(st.Db(), q, now).None?
    ensures r == Some(OneFile(k, Get(st.Db(), k, now).value.deadline, one))
  {
    hide FileBytes, LiveEntries, Consistent, WatchOk, Records, NoRepeats, Writable, OneFile, Sound, Seen;
    ghost var c := LiveEntries(st.tiers, now);
    ConsistentParts(st);
    LiveEntriesAre(st.tiers, now);
    ghost var e := FindC(c, k).value;
    Singleton(c, k, e);
    EntryAt(st.tiers, k, now);
    assert Sound(e.value);
    OneBytes(c[0], one);
    OneWritable(c[0], one);
    r := SaveBytes(st, now);
  }

  lemma OneItem(v: Value, one: One)
    requires Sound(v) && Seen(v) == DataOf(one)
    ensures ItemsOf(v) == match one
      case Text(_) => []
      case OneField(f, x) => [Field(f, x)]
      case OneElement(x) => [Elem(x)]
      case OneMember(m, score) => [Scored(score, m)]
    ensures !EmptyTyped(v)
  {
    hide Sound, Seen, InOrder;
    OneStored(v, one);
    var none: Chain<Bytes> := [];
    match one
    case Text(_) =>
    case OneField(f, x) =>
      var c := [Node(f, x)];
      assert c[1..] == none && FieldItems(none) == [];
      OneFieldCount(v, f, x);
    case OneElement(x) => OneListed(x);
    case OneMember(m, score) => OneScored(m, score);
  }

  lemma OneListed(x: Bytes)
    ensures ListItems([x]) == [Elem(x)]
  {
    var c, none: seq<Bytes> := [x], [];
    assert c[1..] == none && ListItems(none) == [];
  }

  lemma OneScored(m: Bytes, score: SortedSets.Score)
    ensures ScoredItems([Node(m, score)]) == [Scored(score, m)]
  {
    var c, none: seq<SortedSets.Member> := [Node(m, score)], [];
    assert c[1..] == none && ScoredItems(none) == [];
  }

  lemma OneFieldCount(v: Value, f: Bytes, x: Bytes)
    requires Sound(v) && Seen(v) == DHash(map[f := x])
    ensures v.HashV? && v.nfields == 1
  {
  }

  lemma OneWritable(n: Node<Entry>, one: One)
    requires Short(n.key, one) && Sound(n.val.value) && Seen(n.val.value) == DataOf(one)
    ensures Writable(n) && Small(n) && |ItemsOf(n.val.value)| <= 1 && !EmptyTyped(n.val.value)
  {
    hide Sound, Seen, ItemsOf, EmptyTyped;
    OneStored(n.val.value, one);
    OneItem(n.val.value, one);
  }

  /** A stored value of that data. */
  function ValueOf(one: One): Value {
    match one
    case Text(b) => StrV(b)
    case OneField(f, x) => HashV(Link(Empty(16), f, x), 1)
    case OneElement(x) => ListV([x])
    case OneMember(m, score) => ZSetV([Node(m, score)], 8)
  }

  lemma ValueOfIs(one: One)
    ensures Sound(ValueOf(one)) && Seen(ValueOf(one)) == DataOf(one)
  {
    match one
    case Text(_) =>
    case OneField(f, x) =>
      var none := Empty<Bytes>(16);
      EmptyPlaced<Bytes>(16);
      LinkTable(none, f, x);
      MapPut(none, Link(none, f, x), f, x);
      MapOfFind(none);
      assert MapOf(none) == map[];
    case OneElement(_) =>
    case OneMember(m, score) =>
      var c: seq<SortedSets.Member> := [Node(m, score)];
      SortedSets.SameScores(c);
      Solo(m, score);
      assert SortedSets.Scores(c) == map[m := score];
  }

  lemma OneLoaded(db: Db, n: Node<Entry>, now: nat)
    requires !Due(n.val.expireAt, now)
    ensures LoadedDb(db, [n], now) == db[n.key := Rebuilt(RecOf(n.val), now)]
    ensures LiveOf([n], now) == [n]
  {
    hide Rebuilt;
    var c, none: Chain<Entry> := [n], [];
    assert c[1..] == none && LiveOf(none, now) == [];
    var d := db[n.key := Rebuilt(RecOf(n.val), now)];
    assert LoadedDb(d, none, now) == d;
  }

  /** What loading such a file makes of a keyspace that does not have the key. */
  lemma OneLoads(db: Db, k: Bytes, deadline: nat, one: One, now: nat)
    requires Short(k, one) && k !in db && !Due(deadline, now) && deadline < 0x1_0000_0000_0000_0000
    ensures var r := Load(db, OneFile(k, deadline, one), now);
      && r.Done? && r.value.loaded == 1 && r.value.skipped == 0
      && r.value.db == db[k := Rebuilt(Rec(DataOf(one), deadline, false), now)]
  {
    hide FileBytes, OneFile, Sound, Seen, ReadPreamble, LoadMany, WrittenAll, ItemsOf, EmptyTyped, Rebuilt;
    var n := Node(k, Entry(ValueOf(one), 0, 0, false, deadline));
    var c := [n];
    ValueOfIs(one);
    OneBytes(n, one);
    FileIs(c);
    OneWritable(n, one);
    PreambleRead(c, []);
    assert Dump(c) + [] == Dump(c);
    assert c[1..] == [];
    Solo(k, n.val);
    assert LoadedDb(db, c, now) == db[k := Rebuilt(RecOf(n.val), now)] by { OneLoaded(db, n, now); }
    RecordsLoad(Loading(db, 0, 0), c, [], now);
  }

  /** The key has a record of that data, with its deadline, of a collection to the second;
      every other key is as it was. */
  ghost predicate HasOne(before: Db, after: Db, k: Bytes, deadline: nat, one: One, now: nat) {
    && Get(after, k, now).Some? && Get(after, k, now).value.data == DataOf(one)
    && (var d := Get(after, k, now).value.deadline;
        if deadline == 0 then d == 0
        else if one.Text? then d == deadline
        else deadline <= d < deadline + 1000)
    && forall q :: q != k ==> Get(after, q, now) == Get(before, q, now)
  }

  lemma OneRebuilt(db: Db, k: Bytes, deadline: nat, one: One, now: nat, after: Db)
    requires !Due(deadline, now)
    requires SameLive(db[k := Rebuilt(Rec(DataOf(one), deadline, false), now)], after, now)
    ensures HasOne(db, after, k, deadline, one, now)
  {
    hide Rebuilt;
    RebuiltDeadline(Rec(DataOf(one), deadline, false), now);
    var a := db[k := Rebuilt(Rec(DataOf(one), deadline, false), now)];
    forall q ensures Get(after, q, now) == Get(a, q, now) { SameGet(a, after, q, now); }
  }

  /** LOAD of exactly those bytes, whatever else the store holds. */
  method LoadOneFile(st: Store, k: Bytes, deadline: nat, one: One, now: nat) returns (r: Option<(nat, nat)>)
    requires st.Valid() && st.EvictionOff() && Short(k, one) && k !in st.Db()
    requires !Due(deadline, now) && deadline < 0x1_0000_0000_0000_0000
    modifies st
    ensures st.Valid() && r == Some((1, 0)) && HasOne(old(st.Db()), st.Db(), k, deadline, one, now)
  {
    hide Consistent, WatchOk, Records, SameLive, OneFile, Load, Rebuilt, SpoiltIn, Skim, SameClients, HasOne;
    ghost var was := st.Db();
    OneLoads(was, k, deadline, one, now);
    r := LoadFile(st, OneFile(k, deadline, one), now);
    OneRebuilt(was, k, deadline, one, now, st.Db());
  }
}
