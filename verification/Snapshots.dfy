/** SAVE and the loading of a dump at start: the loops of the C code, over a store and
    over a file with a read position. */
module Snapshots {
  import opened Common
  import opened Chains
  import opened Values
  import opened Reference
  import opened Tiers
  import opened Listing
  import opened Rdb
  import opened Keyspace
  import opened Server
  import opened Watching
  import opened Positions
  import SortedSets

  // ----- writing -----

  ghost predicate ItemsWritable(items: seq<Item>) {
    forall i :: 0 <= i < |items| ==> WritableItem(items[i])
  }

  /** What writing items onto `out` gives: nothing if one of them is refused. */
  ghost function Onto(out: Bytes, items: seq<Item>): Option<Bytes> {
    if ItemsWritable(items) then Some(out + PackedAll(items)) else None
  }

  lemma {:induction false} ItemsAppend(a: seq<Item>, b: seq<Item>)
    ensures PackedAll(a + b) == PackedAll(a) + PackedAll(b)
    decreases |a|
  {
    if |a| == 0 {
      assert a + b == b;
    } else {
      assert (a + b)[1..] == a[1..] + b;
      ItemsAppend(a[1..], b);
    }
  }

  /** One more item written. */
  lemma OneMore(done: seq<Item>, x: Item, rest: seq<Item>, all: seq<Item>)
    requires all == done + [x] + rest
    ensures ItemsWritable(done) && WritableItem(x) ==> ItemsWritable(done + [x])
    ensures !WritableItem(x) ==> !ItemsWritable(all)
    ensures PackedAll(done + [x]) == PackedAll(done) + Packed(x)
  {
    ItemsAppend(done, [x]);
    assert [x][1..] == [];
    assert all[|done|] == x;
  }

  lemma {:induction false} FieldItemsAppend(a: Chain<Bytes>, b: Chain<Bytes>)
    ensures FieldItems(a + b) == FieldItems(a) + FieldItems(b)
    decreases |a|
  {
    if |a| == 0 {
      assert a + b == b;
    } else {
      assert (a + b)[1..] == a[1..] + b;
      FieldItemsAppend(a[1..], b);
    }
  }

  /** write_hash after the count. */
  method WriteFields(t: Table<Bytes>, out: Bytes) returns (r: Option<Bytes>)
    ensures r == Onto(out, FieldItems(InOrder(t)))
  {
    hide Packed, WritableItem, InOrder, FieldItems, PackedAll;
    var file := out;
    ghost var all := FieldItems(InOrder(t));
    assert InOrder(t[..0]) == [] && FieldItems([]) == [] && PackedAll([]) == [] && out + [] == out by {
      NothingWritten(t, out);
    }
    for i := 0 to |t|
      invariant ItemsWritable(FieldItems(InOrder(t[..i]))) && file == out + PackedAll(FieldItems(InOrder(t[..i])))
    {
      UptoEnds(t, i);
      for j := 0 to |t[i]|
        invariant ItemsWritable(FieldItems(Upto(t, i, j))) && file == out + PackedAll(FieldItems(Upto(t, i, j)))
      {
        var node := t[i][j];
        var x := Field(node.key, node.val);
        UptoNext(t, i, j);
        NextField(Upto(t, i, j), node, t[i][j + 1..] + InOrder(t[i + 1..]), InOrder(t));
        if !WritableItem(x) { return None; }
        file := file + Blob(node.key) + Blob(node.val);
        assert Packed(x) == Blob(node.key) + Blob(node.val) by { FieldBytesAre(x); }
      }
    }
    assert t[..|t|] == t;
    return Some(file);
  }

  lemma NothingWritten(t: Table<Bytes>, out: Bytes)
    ensures InOrder(t[..0]) == [] && FieldItems([]) == [] && PackedAll([]) == [] && out + [] == out
  {
  }

  lemma FieldBytesAre(x: Item)
    requires x.Field?
    ensures Packed(x) == Blob(x.field) + Blob(x.val)
  {
  }

  lemma NextField(done: Chain<Bytes>, n: Node<Bytes>, rest: Chain<Bytes>, all: Chain<Bytes>)
    requires all == done + [n] + rest
    ensures var x := Field(n.key, n.val);
      && (ItemsWritable(FieldItems(done)) && WritableItem(x) ==> ItemsWritable(FieldItems(done + [n])))
      && (!WritableItem(x) ==> !ItemsWritable(FieldItems(all)))
      && PackedAll(FieldItems(done + [n])) == PackedAll(FieldItems(done)) + Packed(x)
  {
    hide Packed, WritableItem, PackedAll;
    var x := Field(n.key, n.val);
    assert [n][1..] == [] && FieldItems([n]) == [x] + FieldItems([]) == [x];
    FieldItemsAppend(done, [n]);
    FieldItemsAppend(done + [n], rest);
    OneMore(FieldItems(done), x, FieldItems(rest), FieldItems(all));
  }

  lemma ListItem(s: seq<Bytes>, i: nat)
    requires i < |s|
    ensures |ListItems(s)| == |s| && ListItems(s)[i] == Elem(s[i])
    ensures ListItems(s[..i]) == ListItems(s)[..i]
    decreases i
  {
    ElementsGather([], s);
    if i > 0 {
      ListItem(s[1..], i - 1);
      assert s[..i][1..] == s[1..][..i - 1];
    }
  }

  lemma ScoredItem(c: seq<SortedSets.Member>, i: nat)
    requires i < |c|
    ensures |ScoredItems(c)| == |c| && ScoredItems(c)[i] == Scored(c[i].val, c[i].key)
    ensures ScoredItems(c[..i]) == ScoredItems(c)[..i]
    decreases i
  {
    ScoredLength(c);
    if i > 0 {
      ScoredItem(c[1..], i - 1);
      assert c[..i][1..] == c[1..][..i - 1];
    }
  }

  lemma {:induction false} ScoredLength(c: seq<SortedSets.Member>)
    ensures |ScoredItems(c)| == |c|
    decreases |c|
  {
    if |c| == 0 {
    } else {
      ScoredLength(c[1..]);
    }
  }

  /** Item i of a list of items written. */
  lemma NextItem(items: seq<Item>, i: nat)
    requires i < |items|
    ensures ItemsWritable(items[..i]) && WritableItem(items[i]) ==> ItemsWritable(items[..i + 1])
    ensures !WritableItem(items[i]) ==> !ItemsWritable(items)
    ensures PackedAll(items[..i + 1]) == PackedAll(items[..i]) + Packed(items[i])
  {
    OneMore(items[..i], items[i], items[i + 1..], items);
    assert items[..i + 1] == items[..i] + [items[i]];
  }

  lemma NoItems(items: seq<Item>, out: Bytes)
    ensures out + PackedAll(items[..0]) == out && items[..|items|] == items
  {
  }

  /** write_list after the count. */
  method WriteElements(s: seq<Bytes>, out: Bytes) returns (r: Option<Bytes>)
    ensures r == Onto(out, ListItems(s))
  {
    hide Packed, WritableItem, ListItems, PackedAll;
    var file := out;
    ghost var all := ListItems(s);
    assert |all| == |s| by { ElementsGather([], s); }
    NoItems(all, out);
    for i := 0 to |s|
      invariant ItemsWritable(all[..i]) && file == out + PackedAll(all[..i])
    {
      var x := Elem(s[i]);
      ListItem(s, i);
      NextItem(all, i);
      if !WritableItem(x) { return None; }
      assert Packed(x) == Blob(s[i]) by { ElemBytes(s[i]); }
      file := file + Blob(s[i]);
    }
    return Some(file);
  }

  lemma ElemBytes(b: Bytes)
    ensures Packed(Elem(b)) == Blob(b)
  {
  }

  /** write_zset after the count. */
  method WriteMembers(c: seq<SortedSets.Member>, out: Bytes) returns (r: Option<Bytes>)
    ensures r == Onto(out, ScoredItems(c))
  {
    hide Packed, WritableItem, ScoredItems, PackedAll, LE, Blob;
    var file := out;
    ghost var all := ScoredItems(c);
    ScoredLength(c);
    NoItems(all, out);
    for i := 0 to |c|
      invariant ItemsWritable(all[..i]) && file == out + PackedAll(all[..i])
    {
      var x := Scored(c[i].val, c[i].key);
      ScoredItem(c, i);
      NextItem(all, i);
      if !WritableItem(x) { return None; }
      assert Packed(x) == LE(c[i].val, 8) + Blob(c[i].key) by { MemberBytesAre(c[i]); }
      file := file + LE(c[i].val, 8) + Blob(c[i].key);
    }
    return Some(file);
  }

  lemma MemberBytesAre(m: SortedSets.Member)
    ensures Packed(Scored(m.val, m.key)) == LE(m.val, 8) + Blob(m.key)
  {
  }

  ghost predicate BodyWritable(v: Value) {
    if v.StrV? then |v.bytes| <= MAX_WRITTEN else ItemsWritable(ItemsOf(v))
  }

  lemma WritableIs(n: Node<Entry>)
    ensures Writable(n) <==> |n.key| <= 0x7FFF_FFFF && BodyWritable(n.val.value)
  {
  }

  /** The part of write_entry_v2 that depends on the type. */
  method WriteBody(v: Value, out: Bytes) returns (r: Option<Bytes>)
    requires Sound(v)
    ensures r == if BodyWritable(v) then Some(out + Body(v)) else None
  {
    hide ItemsOf, Sound, PackedAll, LE, ItemsWritable, FieldItems, ListItems, ScoredItems, Body, BodyWritable, Onto;
    BodyIs(v, out);
    ItemsAre(v);
    if !v.StrV? { ItemsCount(v); }
    match v
    case StrV(b) => r := if |b| > MAX_WRITTEN then None else Some(out + Blob(b));
    case HashV(t, count) => r := WriteFields(t, out + LE(count, 4));
    case ListV(s) => r := WriteElements(s, out + LE(|s|, 4));
    case ZSetV(c, _) => r := WriteMembers(c, out + LE(|c|, 4));
  }

  lemma BodyIs(v: Value, out: Bytes)
    ensures (if BodyWritable(v) then Some(out + Body(v)) else None)
         == if v.StrV? then (if |v.bytes| > MAX_WRITTEN then None else Some(out + Blob(v.bytes)))
            else Onto(out + LE(|ItemsOf(v)|, 4), ItemsOf(v))
  {
    hide ItemsOf, PackedAll, LE, ItemsWritable;
    if !v.StrV? {
      var items := ItemsOf(v);
      assert out + LE(|items|, 4) + PackedAll(items) == out + (LE(|items|, 4) + PackedAll(items));
    }
  }

  /** write_entry_v2. */
  method WriteEntry(n: Node<Entry>, out: Bytes) returns (r: Option<Bytes>)
    requires Sound(n.val.value)
    ensures r == if Writable(n) then Some(out + Written(n)) else None
  {
    hide Sound, LE, Blob, Body, Writable, BodyWritable, Written;
    WritableIs(n);
    if |n.key| > MAX_WRITTEN { return None; }
    var v := n.val.value;
    var file := out + [Code(KindOf(v))] + Blob(n.key) + LE(n.val.expireAt, 8);
    Joined(out, n, file);
    r := WriteBody(v, file);
  }

  lemma ItemsAre(v: Value)
    ensures match v
      case StrV(_) => true
      case HashV(t, _) => ItemsOf(v) == FieldItems(InOrder(t))
      case ListV(s) => ItemsOf(v) == ListItems(s)
      case ZSetV(c, _) => ItemsOf(v) == ScoredItems(c)
  {
  }

  lemma Joined(out: Bytes, n: Node<Entry>, file: Bytes)
    requires file == out + [Code(KindOf(n.val.value))] + Blob(n.key) + LE(n.val.expireAt, 8)
    ensures out + Written(n) == file + Body(n.val.value)
  {
    hide Body, Blob, LE, Code;
  }

  // ----- a table of entries -----

  lemma {:induction false} WrittenAppend(a: Chain<Entry>, b: Chain<Entry>)
    ensures WrittenAll(a + b) == WrittenAll(a) + WrittenAll(b)
    decreases |a|
  {
    if |a| == 0 {
      assert a + b == b;
    } else {
      assert (a + b)[1..] == a[1..] + b;
      WrittenAppend(a[1..], b);
    }
  }

  /** One more entry of a walk: counted and written if it is live. */
  lemma NextEntry(done: Chain<Entry>, n: Node<Entry>, rest: Chain<Entry>, all: Chain<Entry>, now: nat)
    requires all == done + [n] + rest
    ensures var w, x := LiveOf(done, now), LiveOf(done + [n], now);
      && x == (if Due(n.val.expireAt, now) then w else w + [n])
      && (AllWritable(w) && Writable(n) ==> AllWritable(x))
      && (!Due(n.val.expireAt, now) && !Writable(n) ==> !AllWritable(LiveOf(all, now)))
      && WrittenAll(x) == (if Due(n.val.expireAt, now) then WrittenAll(w) else WrittenAll(w) + Written(n))
  {
    hide Written, Writable;
    LiveAppend(done, [n], now);
    LiveAppend(done + [n], rest, now);
    assert LiveOf([n][1..], now) == [];
    var w := LiveOf(done, now);
    assert w + [] == w;
    WrittenAppend(w, [n]);
    assert [n][1..] == [] && WrittenAll([n]) == Written(n) + WrittenAll([]) == Written(n);
    if !Due(n.val.expireAt, now) { assert LiveOf(all, now)[|w|] == n; }
  }

  ghost predicate SoundChain(c: Chain<Entry>) {
    forall i :: 0 <= i < |c| ==> Sound(c[i].val.value)
  }

  ghost predicate SoundTable(t: Table<Entry>) {
    forall b :: 0 <= b < |t| ==> SoundChain(t[b])
  }

  /** The loop of count_live_entries over one table. */
  method CountLive(t: Table<Entry>, now: nat) returns (n: nat)
    ensures n == |LiveOf(InOrder(t), now)|
  {
    hide InOrder, WrittenAll, Written, Writable;
    n := 0;
    assert InOrder(t[..0]) == [] by { NoneYet(t); }
    for i := 0 to |t|
      invariant n == |LiveOf(InOrder(t[..i]), now)|
    {
      UptoEnds(t, i);
      for j := 0 to |t[i]|
        invariant n == |LiveOf(Upto(t, i, j), now)|
      {
        UptoNext(t, i, j);
        NextEntry(Upto(t, i, j), t[i][j], t[i][j + 1..] + InOrder(t[i + 1..]), InOrder(t), now);
        if !Due(t[i][j].val.expireAt, now) { n := n + 1; }
      }
    }
    assert t[..|t|] == t;
  }

  lemma NoneYet(t: Table<Entry>)
    ensures InOrder(t[..0]) == []
  {
  }

  /** write_table_v2. */
  method WriteTable(t: Table<Entry>, now: nat, out: Bytes) returns (r: Option<Bytes>)
    requires SoundTable(t)
    ensures var c := LiveOf(InOrder(t), now);
      r == if AllWritable(c) then Some(out + WrittenAll(c)) else None
  {
    hide InOrder, WrittenAll, Written, Writable, AllWritable, LiveOf, Sound, Due, Upto;
    var file := out;
    NothingYet(t, now, out);
    for i := 0 to |t|
      invariant AllWritable(LiveOf(InOrder(t[..i]), now)) && file == out + WrittenAll(LiveOf(InOrder(t[..i]), now))
    {
      UptoEnds(t, i);
      var c := t[i];
      assert SoundChain(c);
      for j := 0 to |c|
        invariant AllWritable(LiveOf(Upto(t, i, j), now)) && file == out + WrittenAll(LiveOf(Upto(t, i, j), now))
      {
        UptoNext(t, i, j);
        NextEntry(Upto(t, i, j), c[j], c[j + 1..] + InOrder(t[i + 1..]), InOrder(t), now);
        if Due(c[j].val.expireAt, now) { continue; }
        var more := WriteEntry(c[j], file);
        if more.None? { return None; }
        assert file + Written(c[j])
            == out + (WrittenAll(LiveOf(Upto(t, i, j), now)) + Written(c[j]));
        file := more.value;
      }
    }
    assert t[..|t|] == t;
    return Some(file);
  }

  lemma NothingYet(t: Table<Entry>, now: nat, out: Bytes)
    ensures LiveOf(InOrder(t[..0]), now) == [] && AllWritable([]) && WrittenAll([]) == [] && out + [] == out
  {
  }

  lemma SoundTables(s: Tiers)
    requires Wellformed(s) && AllSound(s)
    ensures SoundTable(s.hot) && SoundTable(s.cold)
  {
    forall b, i | 0 <= b < |s.hot| && 0 <= i < |s.hot[b]| ensures Sound(s.hot[b][i].val.value) {
      NodeFound(s.hot[b], b, |s.hot|, i);
      assert Lookup(s, s.hot[b][i].key) == Some(s.hot[b][i].val);
    }
    forall b, i | 0 <= b < |s.cold| && 0 <= i < |s.cold[b]| ensures Sound(s.cold[b][i].val.value) {
      NodeFound(s.cold[b], b, |s.cold|, i);
      var n := s.cold[b][i];
      assert Find(s.cold, n.key) == Some(n.val);
      var k := n.key;
      assert Find(s.hot, k).None? || Find(s.cold, k).None?;
      assert Lookup(s, k) == Some(n.val);
    }
  }

  /** SAVE up to the renaming of the finished file: the dump of the live entries, or
      no file if some live byte string is longer than the writer accepts. */
  method Save(st: Store, now: nat) returns (r: Option<Bytes>)
    requires st.Valid()
    ensures var c := LiveEntries(st.tiers, now);
      r == if AllWritable(c) then Some(Dump(c)) else None
  {
    hide InOrder, WrittenAll, LiveOf, AllWritable, SoundTable, WatchOk, LE, AllSound, Wellformed;
    var s := st.tiers;
    assert Wellformed(s) && AllSound(s);
    SoundTables(s);
    LiveAppend(InOrder(s.hot), InOrder(s.cold), now);
    ghost var a, b := LiveOf(InOrder(s.hot), now), LiveOf(InOrder(s.cold), now);
    WrittenAppend(a, b);
    BothWritable(a, b);
    var hot := CountLive(s.hot, now);
    var cold := CountLive(s.cold, now);
    var file := MAGIC + LE(2, 4) + LE(hot + cold, 8);
    r := WriteTable(s.hot, now, file);
    if r.None? { return; }
    r := WriteTable(s.cold, now, r.value);
    assert file + WrittenAll(a) + WrittenAll(b) == file + (WrittenAll(a) + WrittenAll(b));
  }

  lemma BothWritable(a: Chain<Entry>, b: Chain<Entry>)
    ensures AllWritable(a + b) <==> AllWritable(a) && AllWritable(b)
  {
    hide Writable;
    if AllWritable(a + b) {
      assert forall i :: 0 <= i < |a| ==> (a + b)[i] == a[i];
      assert forall i :: 0 <= i < |b| ==> (a + b)[|a| + i] == b[i];
    }
  }

  // ----- reading -----

  /** What a reading step returns, compared with what it should. */
  ghost predicate Got<T>(r: Option<T>, spec: Read<T>, rest: Bytes) {
    match spec
    case Broken => r.None?
    case Done(x, t) => r == Some(x) && rest == t
  }

  lemma {:induction false} FromLEAppend(a: Bytes, x: Byte)
    ensures FromLE(a + [x]) == FromLE(a) + Pow256(|a|) * x
    decreases |a|
  {
    if |a| == 0 {
      assert (a + [x])[1..] == [];
    } else {
      assert (a + [x])[1..] == a[1..] + [x];
      FromLEAppend(a[1..], x);
    }
  }

  /** An open file and its position. A read that fails leaves the position anywhere. */
  class Source {
    const data: Bytes
    var pos: nat

    ghost predicate Valid()
      reads this
    {
      pos <= |data|
    }

    ghost function Rest(): Bytes
      reads this
      requires Valid()
    {
      data[pos..]
    }

    constructor (file: Bytes)
      ensures Valid() && Rest() == file
    {
      data, pos := file, 0;
    }

    /** fread of exactly n bytes. */
    method Take(n: nat) returns (r: Option<Bytes>)
      requires Valid()
      modifies this
      ensures Valid()
      ensures if |old(Rest())| < n then r.None?
              else r == Some(old(Rest())[..n]) && Rest() == old(Rest())[n..]
    {
      assert pos + n <= |data| ==> data[pos..][..n] == data[pos..pos + n];
      if pos + n > |data| {
        pos := |data|;
        return None;
      }
      r := Some(data[pos..pos + n]);
      pos := pos + n;
    }

    /** rd_u32 and rd_u64, and rd_f64 seen as the bits of the double. */
    method Int(width: nat) returns (r: Option<nat>)
      requires Valid()
      modifies this
      ensures Valid() && Got(r, ReadInt(old(Rest()), width), Rest())
    {
      var b := Take(width);
      if b.None? { return None; }
      var v, unit: nat := 0, 1;
      for i := 0 to width
        invariant Valid() && Rest() == old(Rest())[width..]
        invariant v == FromLE(b.value[..i]) && unit == Pow256(i)
      {
        FromLEAppend(b.value[..i], b.value[i]);
        assert b.value[..i + 1] == b.value[..i] + [b.value[i]];
        v := v + unit * b.value[i];
        unit := unit * 256;
      }
      assert b.value[..width] == b.value;
      return Some(v);
    }

    /** rd_blob. */
    method Blob() returns (r: Option<Bytes>)
      requires Valid()
      modifies this
      ensures Valid() && Got(r, ReadBlob(old(Rest())), Rest())
    {
      var n := Int(4);
      if n.None? || n.value > MAX_BLOB { return None; }
      r := Take(n.value);
    }

    /** One item of a collection. */
    method Item(kind: Kind) returns (r: Option<Item>)
      requires Valid() && !kind.KString?
      modifies this
      ensures Valid() && Got(r, ReadItem(kind, old(Rest())), Rest())
    {
      hide ReadBlob, ReadInt;
      match kind
      case KHash =>
        var f := Blob();
        if f.None? { return None; }
        var v := Blob();
        return if v.None? then None else Some(Field(f.value, v.value));
      case KList =>
        var b := Blob();
        return if b.None? then None else Some(Elem(b.value));
      case KZSet =>
        ghost var was := Rest();
        var score := Int(8);
        if score.None? { return None; }
        var m := Blob();
        if m.None? { return None; }
        assert score.value < 0x1_0000_0000_0000_0000 by { ScoreBits(was); }
        return Some(Scored(score.value, m.value));
    }

    /** The drain functions: read a payload and keep nothing. */
    method Drain(kind: Kind) returns (ok: bool)
      requires Valid()
      modifies this
      ensures Valid() && Got(if ok then Some(()) else None, DrainBody(kind, old(Rest())), Rest())
    {
      hide ReadBlob, ReadInt, ReadItem;
      if kind.KString? {
        var b := Blob();
        return b.Some?;
      }
      var n := Int(4);
      if n.None? || n.value > MAX_ELEMS { return false; }
      ghost var was := Rest();
      for i := 0 to n.value
        invariant Valid() && DrainItems(kind, was, n.value) == DrainItems(kind, Rest(), n.value - i)
      {
        var x := Item(kind);
        if x.None? { return false; }
      }
      return true;
    }

    /** Type byte, key and deadline. */
    method Heading() returns (r: Option<Heading>)
      requires Valid()
      modifies this
      ensures Valid() && Got(r, ReadHeading(old(Rest())), Rest())
    {
      hide ReadBlob, ReadInt;
      ghost var was := Rest();
      var t := Take(1);
      if t.None? { return None; }
      assert Rest() == was[1..];
      var k := Blob();
      if k.None? { return None; }
      var deadline := Int(8);
      if deadline.None? { return None; }
      var kind := KindOfCode(t.value[0]);
      return if kind.None? then None else Some(Rdb.Heading(kind.value, k.value, deadline.value));
    }
  }

  lemma ScoreBits(s: Bytes)
    requires ReadInt(s, 8).Done?
    ensures ReadInt(s, 8).value < 0x1_0000_0000_0000_0000
  {
    WideEnough(s[..8]);
  }

  // ----- loading into a store -----

  /** One store call of the loader. */
  method Call(st: Store, cmd: Command, now: nat, ghost ideal: Db) returns (r: Reply)
    requires st.Valid() && !TooManyArguments(cmd) && (st.EvictionOff() ==> SameLive(ideal, st.Db(), now))
    modifies st
    ensures st.Valid() && st.Kept()
    ensures st.EvictionOff() ==> r == Step(ideal, cmd, now).1 && SameLive(Step(ideal, cmd, now).0, st.Db(), now)
    ensures st.leak.unruly <= Spoilt(cmd, old(st.leak.unruly))
  {
    hide Spoilt, Warns, Follows, Consistent, WatchOk, Records, SameClients, SameLive, Step, Drifts, NoEmpties,
      CommandMoves;
    ghost var before := st.Db();
    if st.EvictionOff() { SameLiveFlip(ideal, before, now); }
    r := Execute(st, cmd, now);
    if st.EvictionOff() {
      PerformAgrees(before, ideal, cmd, now, st.Db(), r);
      SameLiveFlip(st.Db(), Step(ideal, cmd, now).0, now);
    }
  }

  /** What loading into a store returns, compared with loading into the reference map. */
  ghost predicate Became<T>(ok: bool, db: Db, spec: Read<T>, want: T -> Db, rest: Bytes, now: nat) {
    match spec
    case Broken => !ok
    case Done(x, t) => ok && rest == t && SameLive(want(x), db, now)
  }

  /** The loop over the items of a collection in load_one_v2. With eviction on a command
      may also fail because its key was evicted at once. */
  method LoadItemsInto(st: Store, src: Source, k: Bytes, kind: Kind, n: nat, now: nat, ghost ideal: Db)
    returns (ok: bool)
    requires st.Valid() && src.Valid() && !kind.KString? && (st.EvictionOff() ==> SameLive(ideal, st.Db(), now))
    modifies st, src
    ensures st.Valid() && st.Kept() && src.Valid()
    ensures ok ==> DrainItems(kind, old(src.Rest()), n) == Done((), src.Rest())
    ensures st.EvictionOff() ==>
      Became(ok, st.Db(), LoadItems(ideal, k, kind, old(src.Rest()), n, now), (d: Db) => d, src.Rest(), now)
    ensures st.leak.unruly <= old(st.leak.unruly) + if NaNAhead(kind, old(src.Rest()), n) then {k} else {}
  {
    hide Consistent, WatchOk, Records, SameClients, SameLive, Step, ReadItem;
    ghost var was := src.Rest();
    ghost var db := ideal;
    ClientsSelf(st.conns);
    for i := 0 to n
      invariant st.Valid() && st.Kept() && src.Valid() && (st.EvictionOff() ==> SameLive(db, st.Db(), now))
      invariant DrainItems(kind, was, n) == DrainItems(kind, src.Rest(), n - i)
      invariant st.EvictionOff() ==>
        LoadItems(ideal, k, kind, was, n, now) == LoadItems(db, k, kind, src.Rest(), n - i, now)
      invariant NaNAhead(kind, src.Rest(), n - i) ==> NaNAhead(kind, was, n)
      invariant st.leak.unruly <= old(st.leak.unruly) + if NaNAhead(kind, was, n) then {k} else {}
    {
      ghost var spoilt := st.leak.unruly;
      ghost var conns := st.conns;
      var x := src.Item(kind);
      if x.None? { return false; }
      var cmd := ItemCommand(k, x.value);
      assert !TooManyArguments(cmd);
      ItemSpoils(k, x.value, spoilt);
      var reply := Call(st, cmd, now, db);
      SameClientsTwice(old(st.conns), conns, st.conns);
      if reply.Fail? { return false; }
      db := Step(db, cmd, now).0;
    }
    return true;
  }

  lemma ItemSpoils(k: Bytes, x: Item, unruly: set<Bytes>)
    ensures Spoilt(ItemCommand(k, x), unruly)
      == if x.Scored? && SortedSets.IsNaN(x.score) then unruly + {k} else unruly
  {
    if x.Scored? {
      var batch: seq<SortedSets.Member> := [Node(x.member, x.score)];
      assert batch[0].val == x.score;
    }
  }

  /** The rest of load_one_v2 for a collection that is not due. */
  method LoadCollection(st: Store, src: Source, h: Heading, now: nat, ghost ideal: Db) returns (ok: bool)
    requires st.Valid() && src.Valid() && !h.kind.KString? && (st.EvictionOff() ==> SameLive(ideal, st.Db(), now))
    modifies st, src
    ensures st.Valid() && st.Kept() && src.Valid()
    ensures ok ==> DrainBody(h.kind, old(src.Rest())) == Done((), src.Rest())
    ensures st.EvictionOff() ==>
      Became(ok, st.Db(), LoadBody(ideal, h, old(src.Rest()), now), (d: Db) => d, src.Rest(), now)
    ensures st.leak.unruly <= old(st.leak.unruly) + SpoiltBody(h, old(src.Rest()))
  {
    hide NaNAhead, Consistent, WatchOk, Records, SameClients, SameLive, Step, ReadItem, LoadItems, DrainItems, ReadInt;
    ClientsSelf(st.conns);
    var n := src.Int(4);
    if n.None? || n.value > MAX_ELEMS { return false; }
    ghost var spec := LoadItems(ideal, h.key, h.kind, src.Rest(), n.value, now);
    ok := LoadItemsInto(st, src, h.key, h.kind, n.value, now, ideal);
    if !ok || h.deadline == 0 || now >= h.deadline { return; }
    ghost var conns := st.conns;
    ghost var mid := if spec.Done? then spec.value else ideal;
    var reply := Call(st, Expire(h.key, Ex(SecondsTo(h.deadline, now))), now, mid);
    SameClientsTwice(old(st.conns), conns, st.conns);
    ok := reply == Int(1);
  }

  predicate Counted(l: Loading, m: Loading, skipped: bool) {
    m.loaded == l.loaded + (if skipped then 0 else 1) && m.skipped == l.skipped + (if skipped then 1 else 0)
  }

  /** load_one_v2: one record, loaded or skipped. */
  method LoadRecord(st: Store, src: Source, now: nat, ghost l: Loading) returns (ok: bool, skipped: bool)
    requires st.Valid() && src.Valid() && (st.EvictionOff() ==> SameLive(l.db, st.Db(), now))
    modifies st, src
    ensures st.Valid() && st.Kept() && src.Valid()
    ensures ok ==> DrainOne(old(src.Rest())) == Done((), src.Rest())
    ensures st.EvictionOff() ==>
      var spec := LoadOne(l, old(src.Rest()), now);
      && Became(ok, st.Db(), spec, (m: Loading) => m.db, src.Rest(), now)
      && (ok ==> Counted(l, spec.value, skipped))
    ensures st.leak.unruly <= old(st.leak.unruly) + SpoiltOne(old(src.Rest()))
  {
    hide SpoiltBody, Consistent, WatchOk, Records, SameClients, SameLive, Step, ReadHeading, ReadBlob, ReadInt,
      DrainItems,
      LoadItems, Expiring;
    ClientsSelf(st.conns);
    ok, skipped := false, false;
    var h := src.Heading();
    if h.None? { return; }
    if Due(h.value.deadline, now) {
      skipped := true;
      ok := src.Drain(h.value.kind);
    } else if h.value.kind.KString? {
      var v := src.Blob();
      if v.None? { return; }
      var reply := Call(st, SetText(h.value.key, v.value, h.value.deadline), now, l.db);
      ok := true;
    } else {
      ok := LoadCollection(st, src, h.value, now, l.db);
    }
  }

  /** load_one_v1. */
  method LoadRecordOld(st: Store, src: Source, now: nat, ghost l: Loading) returns (ok: bool, skipped: bool)
    requires st.Valid() && src.Valid() && (st.EvictionOff() ==> SameLive(l.db, st.Db(), now))
    modifies st, src
    ensures st.Valid() && st.Kept() && src.Valid()
    ensures ok ==> ReadOld(old(src.Rest())).Done? && ReadOld(old(src.Rest())).rest == src.Rest()
    ensures st.EvictionOff() ==>
      var spec := LoadOld(l, old(src.Rest()), now);
      && Became(ok, st.Db(), spec, (m: Loading) => m.db, src.Rest(), now)
      && (ok ==> Counted(l, spec.value, skipped))
    ensures st.leak.unruly <= old(st.leak.unruly)
  {
    hide Consistent, WatchOk, Records, SameClients, SameLive, Step, ReadBlob, ReadInt;
    ClientsSelf(st.conns);
    ok, skipped := false, false;
    var k := src.Blob();
    if k.None? { return; }
    var v := src.Blob();
    if v.None? { return; }
    var deadline := src.Int(8);
    if deadline.None? { return; }
    ok := true;
    if Due(deadline.value, now) {
      skipped := true;
    } else {
      var reply := Call(st, SetText(k.value, v.value, deadline.value), now, l.db);
    }
  }

  /** Magic, version and count. */
  method ReadStart(src: Source) returns (r: Option<Preamble>)
    requires src.Valid()
    modifies src
    ensures src.Valid() && Got(r, ReadPreamble(old(src.Rest())), src.Rest())
  {
    hide ReadInt;
    ghost var was := src.Rest();
    var magic := src.Take(|MAGIC|);
    if magic.None? || magic.value != MAGIC { return None; }
    var version := src.Int(4);
    if version.None? || (version.value != 2 && version.value != 1) { return None; }
    var n := src.Int(8);
    if n.None? || n.value > MAX_ENTRIES { return None; }
    return Some(Preamble(version.value == 1, n.value));
  }

  /** The next of n records of either version. */
  method LoadNextRecord(st: Store, src: Source, legacy: bool, n: nat, now: nat, ghost l: Loading)
    returns (ok: bool, skipped: bool)
    requires st.Valid() && src.Valid() && n > 0 && (st.EvictionOff() ==> SameLive(l.db, st.Db(), now))
    modifies st, src
    ensures st.Valid() && st.Kept() && src.Valid()
    ensures ok ==> DrainMany(legacy, old(src.Rest()), n) == DrainMany(legacy, src.Rest(), n - 1)
    ensures st.EvictionOff() ==>
      var spec := LoadNext(legacy, l, old(src.Rest()), now);
      && Became(ok, st.Db(), spec, (m: Loading) => m.db, src.Rest(), now)
      && (ok ==> Counted(l, spec.value, skipped))
    ensures st.leak.unruly + (if ok then SpoiltMany(legacy, src.Rest(), n - 1) else {})
         <= old(st.leak.unruly) + SpoiltMany(legacy, old(src.Rest()), n)
  {
    hide SpoiltOne, Consistent, WatchOk, Records, SameClients, SameLive, LoadOne, LoadOld, DrainOne, ReadOld;
    if legacy {
      ok, skipped := LoadRecordOld(st, src, now, l);
    } else {
      ok, skipped := LoadRecord(st, src, now, l);
    }
  }

  lemma LoadManyStep(legacy: bool, l: Loading, s: Bytes, n: nat, now: nat)
    requires n > 0
    ensures LoadMany(legacy, l, s, n, now)
         == match LoadNext(legacy, l, s, now)
            case Broken => Broken
            case Done(m, t) => LoadMany(legacy, m, t, n - 1, now)
  {
  }

  lemma ManyDone(legacy: bool, l: Loading, s: Bytes, now: nat)
    ensures LoadMany(legacy, l, s, 0, now) == Done(l, s) && DrainMany(legacy, s, 0) == Done((), s)
  {
  }

  /** Loading a dump at start. Whatever the store, a load that succeeds has used up the
      file as its format says and counted every record. With nothing evicted the store
      becomes what the format says, and the load fails exactly when the format says so. */
  method LoadFile(st: Store, file: Bytes, now: nat) returns (r: Option<(nat, nat)>)
    requires st.Valid()
    modifies st
    ensures st.Valid() && st.Kept()
    ensures r.Some? ==> Skim(file).Done? && r.value.0 + r.value.1 == ReadPreamble(file).value.count
    ensures st.EvictionOff() ==> match Load(old(st.Db()), file, now)
      case Broken => r.None?
      case Done(l, _) => r == Some((l.loaded, l.skipped)) && SameLive(l.db, st.Db(), now)
    ensures st.leak.unruly <= old(st.leak.unruly) + SpoiltIn(file)
  {
    hide Consistent, WatchOk, Records, SameClients, SameLive, Step, ReadPreamble, LoadNext, DrainMany, LoadMany,
      SpoiltMany;
    ClientsSelf(st.conns);
    ghost var l := Loading(st.Db(), 0, 0);
    SameLiveSelf(st.Db());
    assert SameLive(st.Db(), st.Db(), now);
    var src := new Source(file);
    var p := ReadStart(src);
    if p.None? { return None; }
    ghost var was := src.Rest();
    var loaded, skipped := 0, 0;
    for i := 0 to p.value.count
      invariant st.Valid() && st.Kept() && src.Valid() && (st.EvictionOff() ==> SameLive(l.db, st.Db(), now))
      invariant loaded >= 0 && skipped >= 0 && loaded + skipped == i
      invariant DrainMany(p.value.legacy, was, p.value.count)
             == DrainMany(p.value.legacy, src.Rest(), p.value.count - i)
      invariant st.leak.unruly + SpoiltMany(p.value.legacy, src.Rest(), p.value.count - i)
             <= old(st.leak.unruly) + SpoiltMany(p.value.legacy, was, p.value.count)
      invariant st.EvictionOff() ==> l.loaded == loaded && l.skipped == skipped
      invariant st.EvictionOff() ==>
        LoadMany(p.value.legacy, Loading(old(st.Db()), 0, 0), was, p.value.count, now)
          == LoadMany(p.value.legacy, l, src.Rest(), p.value.count - i, now)
    {
      ghost var conns := st.conns;
      ghost var rest := src.Rest();
      LoadManyStep(p.value.legacy, l, rest, p.value.count - i, now);
      var ok, skip := LoadNextRecord(st, src, p.value.legacy, p.value.count - i, now, l);
      SameClientsTwice(old(st.conns), conns, st.conns);
      if !ok { return None; }
      ghost var next := LoadNext(p.value.legacy, l, rest, now);
      l := if next.Done? then next.value else l;
      if skip { skipped := skipped + 1; } else { loaded := loaded + 1; }
    }
    ManyDone(p.value.legacy, l, src.Rest(), now);
    return Some((loaded, skipped));
  }

  // ----- a store saved and loaded -----

  lemma AllEntriesStored(s: Tiers, now: nat)
    requires Wellformed(s) && AllSound(s) && NoEmpties(Records(s))
    requires forall k :: Lookup(s, k).Some? ==> InRange(Lookup(s, k).value)
    ensures AllStored(LiveEntries(s, now))
  {
    hide Sound, EmptyTyped, ItemsOf, Records, LiveOf, Filled;
    LiveEntriesAre(s, now);
    var c := LiveEntries(s, now);
    forall i | 0 <= i < |c| ensures Stored(c[i]) {
      var k := c[i].key;
      NodeFound(c, 0, 1, i);
      EntryAt(s, k, now);
      assert Sound(c[i].val.value);
      RecordAt(s, k);
      assert Filled(Records(s)[k].data);
      FilledValue(c[i].val.value);
    }
  }

  /** The machine integers that hold them: the deadline and the number of items. */
  predicate InRange(e: Entry) {
    e.expireAt < 0x1_0000_0000_0000_0000 && |ItemsOf(e.value)| < 0x1_0000_0000
  }

  lemma FilledValue(v: Value)
    requires Sound(v) && Filled(Seen(v))
    ensures !EmptyTyped(v)
  {
    hide Placed, MapOf, SortedSets.Unique, SortedSets.Scores;
    if v.ZSetV? { SortedSets.LengthIs(v.nodes); }
  }

  lemma EntryAt(s: Tiers, k: Bytes, now: nat)
    requires Wellformed(s) && FindC(LiveEntries(s, now), k).Some?
    ensures Lookup(s, k) == FindC(LiveEntries(s, now), k)
  {
    InOrderIs(s.hot);
    InOrderIs(s.cold);
    forall k ensures FindC(InOrder(s.hot), k).None? || FindC(InOrder(s.cold), k).None? {
      assert Find(s.hot, k).None? || Find(s.cold, k).None?;
    }
    NoRepeatsAppend(InOrder(s.hot), InOrder(s.cold));
    FindAppend(InOrder(s.hot), InOrder(s.cold), k);
    LiveFinds(Walk(s), now);
  }

  function Copied(r: Option<Rec>, now: nat): Option<Rec>
    requires r.Some? ==> !Due(r.value.deadline, now)
  {
    if r.Some? then Some(Rebuilt(r.value, now)) else None
  }

  /** The copy of a sorted set without NaN is in order, so it is the same array if and only
      if the one written was. */
  ghost predicate SameOrder(v: Value, w: Value) {
    v.ZSetV? && SortedSets.Numbers(v.nodes) ==>
      w.ZSetV? && SortedSets.Sorted(w.nodes) && (w.nodes == v.nodes <==> SortedSets.Sorted(v.nodes))
  }

  lemma OrderFollows(v: Value, w: Value, k: Bytes, unruly: set<Bytes>)
    requires Sound(v) && Sound(w) && Seen(w) == Seen(v) && Neat(w, k, unruly) && k !in unruly
    ensures SameOrder(v, w)
  {
    hide SortedSets.Numbers, SortedSets.Sorted, Sound, Seen;
    SameKinds(v, w);
    if v.ZSetV? && SortedSets.Numbers(v.nodes) && SortedSets.Sorted(v.nodes) { RankedAlike(v, w); }
  }

  lemma SameKinds(v: Value, w: Value)
    requires Seen(v) == Seen(w)
    ensures v.ZSetV? == w.ZSetV?
  {
  }

  /** SAVE on one store and the load on a fresh one: exactly the records still live,
      rebuilt, every sorted set in order and every entry counted. */
  method SaveAndLoad(st: Store, saved: nat, now: nat, random: nat -> nat)
    returns (copy: Store, counts: Option<(nat, nat)>)
    requires st.Valid() && NoEmpties(st.Db()) && saved <= now
    requires forall k :: Lookup(st.tiers, k).Some? ==> InRange(Lookup(st.tiers, k).value)
    requires AllSmall(LiveEntries(st.tiers, saved)) && |LiveEntries(st.tiers, saved)| <= MAX_ENTRIES
    ensures copy.Valid() && counts.Some?
    ensures counts.value.0 + counts.value.1 == |LiveEntries(st.tiers, saved)|
    ensures forall k :: Get(copy.Db(), k, now) == Copied(Get(st.Db(), k, now), now)
    ensures forall k :: Get(copy.Db(), k, now).Some? ==>
      && Lookup(st.tiers, k).Some? && Lookup(copy.tiers, k).Some?
      && SameOrder(Lookup(st.tiers, k).value.value, Lookup(copy.tiers, k).value.value)
  {
    hide Consistent, WatchOk, SameClients, SameLive, Load, Dump, LiveEntries, AllSmall, AllStored, AllWritable,
      Records, Rebuilt, InRange, SpoiltIn, NaNKeys, SameOrder, Lookup;
    var file := Save(st, saved);
    assert Wellformed(st.tiers) && AllSound(st.tiers) by { ConsistentParts(st); }
    AllEntriesStored(st.tiers, saved);
    AllSmallWritable(LiveEntries(st.tiers, saved));
    RoundTrip(st.tiers, saved, now, []);
    assert file.value + [] == file.value;
    copy := new Store(0, random);
    ghost var l := Load(map[], file.value, now);
    assert copy.EvictionOff();
    counts := LoadFile(copy, file.value, now);
    forall k ensures Get(copy.Db(), k, now) == Copied(Get(st.Db(), k, now), now) {
      SameGet(l.value.db, copy.Db(), k, now);
      if k in l.value.db { RebuiltDeadline(Get(st.Db(), k, now).value, now); }
    }
    DumpSpoils(LiveEntries(st.tiers, saved), []);
    forall k | Get(copy.Db(), k, now).Some?
      ensures Lookup(st.tiers, k).Some? && Lookup(copy.tiers, k).Some?
      ensures SameOrder(Lookup(st.tiers, k).value.value, Lookup(copy.tiers, k).value.value)
    {
      RebuiltDeadline(Get(st.Db(), k, now).value, now);
      OrderCopied(st, copy, saved, now, k);
    }
  }

  lemma OrderCopied(st: Store, copy: Store, saved: nat, now: nat, k: Bytes)
    requires st.Valid() && copy.Valid() && saved <= now
    requires copy.leak.unruly <= NaNKeys(LiveEntries(st.tiers, saved))
    requires Get(copy.Db(), k, now).Some? && Get(st.Db(), k, now).Some?
    requires Get(copy.Db(), k, now).value.data == Get(st.Db(), k, now).value.data
    ensures Lookup(st.tiers, k).Some? && Lookup(copy.tiers, k).Some?
    ensures SameOrder(Lookup(st.tiers, k).value.value, Lookup(copy.tiers, k).value.value)
  {
    hide WatchOk, LiveEntries, SortedSets.Numbers, SortedSets.Sorted, Sound, Seen, Accounted, NaNKeys, Neat, NoRepeats,
      Wellformed, Listing.NoNaN, Lookup, Records;
    RecordAt(st.tiers, k);
    RecordAt(copy.tiers, k);
    var v, w := Lookup(st.tiers, k).value.value, Lookup(copy.tiers, k).value.value;
    if k in copy.leak.unruly {
      LiveEntriesAre(st.tiers, saved);
      SpoiltKey(LiveEntries(st.tiers, saved), k);
      EntryAt(st.tiers, k, saved);
      NoNaNListed(v);
    } else {
      OrderFollows(v, w, k, copy.leak.unruly);
    }
  }

  lemma AllSmallWritable(c: Chain<Entry>)
    requires AllSmall(c)
    ensures AllWritable(c)
  {
    hide Small, Writable;
    forall i | 0 <= i < |c| ensures Writable(c[i]) { SmallWritable(c[i]); }
  }

  lemma ConsistentParts(st: Store)
    requires st.Valid()
    ensures Wellformed(st.tiers) && AllSound(st.tiers)
  {
  }

  lemma SameGet(a: Db, b: Db, k: Bytes, now: nat)
    requires SameLive(a, b, now)
    ensures Get(b, k, now) == Get(a, k, now)
  {
  }
}
