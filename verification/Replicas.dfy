/** The full sync as the C code performs it: the loops that write the stream from a
    store, and the replica's loop that reads it and runs it on its own store. */
module Replicas {
  import opened Common
  import opened Chains
  import opened Values
  import opened Reference
  import opened Tiers
  import opened Watching
  import opened Positions
  import opened Keyspace
  import opened Server
  import opened Listing
  import opened Sync
  import SortedSets
  import Snapshots
  import Resp
  import Arrivals
  import Rdb

  // ----- sending -----

  lemma {:induction false} BulksAppend(a: Words, b: Words)
    ensures Resp.Bulks(a + b) == Resp.Bulks(a) + Resp.Bulks(b)
    decreases |a|
  {
    if |a| == 0 {
      assert a + b == b;
    } else {
      assert (a + b)[1..] == a[1..] + b;
      BulksAppend(a[1..], b);
    }
  }

  lemma {:induction false} ItemsWordsAppend(a: seq<Item>, b: seq<Item>, num: Numerals)
    ensures ItemsWords(a + b, num) == ItemsWords(a, num) + ItemsWords(b, num)
    decreases |a|
  {
    if |a| == 0 {
      assert a + b == b;
    } else {
      assert (a + b)[1..] == a[1..] + b;
      ItemsWordsAppend(a[1..], b, num);
    }
  }

  lemma {:induction false} EncodeAllAppend(a: seq<Words>, b: seq<Words>)
    ensures Resp.EncodeAll(a + b) == Resp.EncodeAll(a) + Resp.EncodeAll(b)
    decreases |a|
  {
    if |a| == 0 {
      assert a + b == b;
    } else {
      assert (a + b)[1..] == a[1..] + b;
      EncodeAllAppend(a[1..], b);
    }
  }

  /** The bulks of one more item. */
  lemma NextWords(done: seq<Item>, x: Item, num: Numerals)
    ensures Resp.Bulks(ItemsWords(done + [x], num))
         == Resp.Bulks(ItemsWords(done, num)) + Resp.Bulks(ItemWords(x, num))
  {
    ItemsWordsAppend(done, [x], num);
    assert [x][1..] == [] && ItemsWords([x], num) == ItemWords(x, num) + [] == ItemWords(x, num);
    BulksAppend(ItemsWords(done, num), ItemWords(x, num));
  }

  lemma BulksOfOne(a: Bytes)
    ensures Resp.Bulks([a]) == Resp.Bulk(a)
  {
    assert [a][1..] == [];
  }

  lemma BulksOfTwo(a: Bytes, b: Bytes)
    ensures Resp.Bulks([a, b]) == Resp.Bulk(a) + Resp.Bulk(b)
  {
    BulksOfOne(b);
    assert [a, b][1..] == [b];
  }

  lemma NoWords(num: Numerals, out: Bytes)
    ensures Resp.Bulks(ItemsWords([], num)) == [] && out + [] == out
  {
  }

  /** The fields of a hash, bucket by bucket. */
  method SendFields(t: Table<Bytes>, out: Bytes, ghost num: Numerals) returns (r: Bytes)
    ensures r == out + Resp.Bulks(ItemsWords(FieldItems(InOrder(t)), num))
  {
    hide InOrder, FieldItems, ItemsWords, Resp.Bulk, Resp.Bulks, Upto;
    r := out;
    NoWords(num, out);
    assert InOrder(t[..0]) == [] && FieldItems([]) == [] by { Snapshots.NothingWritten(t, out); }
    for i := 0 to |t|
      invariant r == out + Resp.Bulks(ItemsWords(FieldItems(InOrder(t[..i])), num))
    {
      UptoEnds(t, i);
      for j := 0 to |t[i]|
        invariant r == out + Resp.Bulks(ItemsWords(FieldItems(Upto(t, i, j)), num))
      {
        var f := t[i][j];
        UptoNext(t, i, j);
        ghost var done := FieldItems(Upto(t, i, j));
        assert FieldItems(Upto(t, i, j + 1)) == done + [Field(f.key, f.val)] by { OneField(Upto(t, i, j), f); }
        NextWords(done, Field(f.key, f.val), num);
        BulksOfTwo(f.key, f.val);
        r := r + Resp.Bulk(f.key) + Resp.Bulk(f.val);
      }
    }
    assert t[..|t|] == t;
  }

  lemma OneField(c: Chain<Bytes>, f: Node<Bytes>)
    ensures FieldItems(c + [f]) == FieldItems(c) + [Field(f.key, f.val)]
  {
    Snapshots.FieldItemsAppend(c, [f]);
    assert [f][1..] == [] && FieldItems([f]) == [Field(f.key, f.val)] + FieldItems([]);
  }

  /** The elements of a list, head to tail. */
  method SendElements(s: seq<Bytes>, out: Bytes, ghost num: Numerals) returns (r: Bytes)
    ensures r == out + Resp.Bulks(ItemsWords(ListItems(s), num))
  {
    hide ListItems, ItemsWords, Resp.Bulk, Resp.Bulks;
    r := out;
    NoWords(num, out);
    ghost var all := ListItems(s);
    assert |all| == |s| by { ElementsGather([], s); }
    for i := 0 to |s|
      invariant r == out + Resp.Bulks(ItemsWords(all[..i], num))
    {
      Snapshots.ListItem(s, i);
      assert all[..i + 1] == all[..i] + [all[i]];
      NextWords(all[..i], all[i], num);
      BulksOfOne(s[i]);
      r := r + Resp.Bulk(s[i]);
    }
    assert all[..|s|] == all;
  }

  /** Score and member of every node of a sorted set, in order. */
  method SendMembers(c: seq<SortedSets.Member>, out: Bytes, num: Numerals) returns (r: Bytes)
    ensures r == out + Resp.Bulks(ItemsWords(ScoredItems(c), num))
  {
    hide ScoredItems, ItemsWords, Resp.Bulk, Resp.Bulks;
    r := out;
    NoWords(num, out);
    ghost var all := ScoredItems(c);
    Snapshots.ScoredLength(c);
    for i := 0 to |c|
      invariant r == out + Resp.Bulks(ItemsWords(all[..i], num))
    {
      Snapshots.ScoredItem(c, i);
      assert all[..i + 1] == all[..i] + [all[i]];
      NextWords(all[..i], all[i], num);
      BulksOfTwo(num.show(c[i].val), c[i].key);
      r := r + Resp.Bulk(num.show(c[i].val)) + Resp.Bulk(c[i].key);
    }
    assert all[..|c|] == all;
  }

  lemma EncodedCollection(name: Bytes, k: Bytes, w: Words, out: Bytes)
    ensures out + Resp.Header(2 + |w|) + Resp.Bulk(name) + Resp.Bulk(k) + Resp.Bulks(w)
         == out + Resp.Encode([name, k] + w)
  {
    hide Resp.Bulk, Resp.Header, Resp.Bulks;
    BulksAppend([name, k], w);
    BulksOfTwo(name, k);
    assert |[name, k] + w| == 2 + |w|;
    Regrouped(out, Resp.Header(2 + |w|), Resp.Bulk(name), Resp.Bulk(k), Resp.Bulks(w));
  }

  lemma Regrouped(out: Bytes, a: Bytes, b: Bytes, c: Bytes, d: Bytes)
    ensures out + a + b + c + d == out + (a + ((b + c) + d))
  {
  }

  lemma EncodeAllOne(a: Words)
    ensures Resp.EncodeAll([a]) == Resp.Encode(a)
  {
    assert [a][1..] == [];
    assert Resp.Encode(a) + [] == Resp.Encode(a);
  }

  lemma EncodeAllTwo(a: Words, b: Words)
    ensures Resp.EncodeAll([a] + [b]) == Resp.Encode(a) + Resp.Encode(b)
  {
    hide Resp.Encode;
    EncodeAllOne(a);
    EncodeAllOne(b);
    EncodeAllAppend([a], [b]);
  }

  /** The collection's own command, for one that is not empty. */
  method SendCollection(n: Node<Entry>, out: Bytes, num: Numerals) returns (r: Bytes)
    requires Sound(n.val.value) && !n.val.value.StrV?
    ensures r == out + Resp.Encode([Verb(KindOf(n.val.value)), n.key] + ItemsWords(ItemsOf(n.val.value), num))
  {
    hide Sound, ItemsOf, ItemsWords, Resp.Bulk, Resp.Bulks, Resp.Header, Resp.Encode, AllFit;
    var v := n.val.value;
    ItemsCount(v);
    ItemsRebuild(v);
    WordsPerItem(KindOf(v), ItemsOf(v), num);
    Snapshots.ItemsAre(v);
    ghost var w := ItemsWords(ItemsOf(v), num);
    var size := match v
      case HashV(_, count) => 2 * count
      case ListV(s) => |s|
      case ZSetV(c, _) => 2 * |c|;
    var start := out + Resp.Header(2 + size) + Resp.Bulk(Verb(KindOf(v))) + Resp.Bulk(n.key);
    EncodedCollection(Verb(KindOf(v)), n.key, w, out);
    match v
    case HashV(t, _) => r := SendFields(t, start, num);
    case ListV(s) => r := SendElements(s, start, num);
    case ZSetV(c, _) => r := SendMembers(c, start, num);
  }

  lemma EncodedThree(a: Bytes, b: Bytes, c: Bytes, out: Bytes)
    ensures out + Resp.Header(3) + Resp.Bulk(a) + Resp.Bulk(b) + Resp.Bulk(c) == out + Resp.Encode([a, b, c])
  {
    hide Resp.Bulk, Resp.Header, Resp.Bulks, Resp.Encode;
    EncodedCollection(a, b, [c], out);
    BulksOfOne(c);
    assert [a, b] + [c] == [a, b, c];
  }

  lemma EncodedFive(a: Bytes, b: Bytes, c: Bytes, d: Bytes, e: Bytes, out: Bytes)
    ensures out + Resp.Header(5) + Resp.Bulk(a) + Resp.Bulk(b) + (Resp.Bulk(c) + Resp.Bulk(d) + Resp.Bulk(e))
         == out + Resp.Encode([a, b, c, d, e])
  {
    hide Resp.Bulk, Resp.Header, Resp.Bulks, Resp.Encode;
    EncodedCollection(a, b, [c, d, e], out);
    BulksAppend([c, d], [e]);
    BulksOfTwo(c, d);
    BulksOfOne(e);
    assert [c, d] + [e] == [c, d, e] && [a, b] + [c, d, e] == [a, b, c, d, e];
  }

  /** The commands for one live entry. */
  method SendEntry(n: Node<Entry>, now: nat, out: Bytes, num: Numerals) returns (r: Bytes)
    requires Sound(n.val.value) && !Due(n.val.expireAt, now)
    ensures r == out + Resp.EncodeAll(Sent(n, now, num))
  {
    hide Sound, ItemsOf, ItemsWords, Resp.Bulk, Resp.Bulks, Resp.Header, Resp.Encode, Resp.EncodeAll, Resp.Digits;
    var e := n.val;
    var ttl := if e.expireAt == 0 then [] else Resp.Digits(Rdb.SecondsTo(e.expireAt, now));
    if e.value.StrV? {
      if e.expireAt == 0 {
        EncodedThree(SET, n.key, e.value.bytes, out);
        EncodeAllOne([SET, n.key, e.value.bytes]);
        return out + Resp.Header(3) + Resp.Bulk(SET) + Resp.Bulk(n.key) + Resp.Bulk(e.value.bytes);
      }
      EncodedFive(SET, n.key, e.value.bytes, EX, ttl, out);
      EncodeAllOne([SET, n.key, e.value.bytes, EX, ttl]);
      return out + Resp.Header(5) + Resp.Bulk(SET) + Resp.Bulk(n.key)
        + (Resp.Bulk(e.value.bytes) + Resp.Bulk(EX) + Resp.Bulk(ttl));
    }
    ItemsCount(e.value);
    if EmptyTyped(e.value) {
      assert Resp.EncodeAll([]) == [] && out + [] == out by { NothingEncoded(out); }
      return out;
    }
    ghost var first := [Verb(KindOf(e.value)), n.key] + ItemsWords(ItemsOf(e.value), num);
    r := SendCollection(n, out, num);
    EncodeAllOne(first);
    assert [first] + [] == [first];
    if e.expireAt != 0 {
      EncodedThree(EXPIRE, n.key, ttl, r);
      EncodeAllTwo(first, [EXPIRE, n.key, ttl]);
      assert out + Resp.Encode(first) + Resp.Encode([EXPIRE, n.key, ttl])
          == out + (Resp.Encode(first) + Resp.Encode([EXPIRE, n.key, ttl]));
      r := r + Resp.Header(3) + Resp.Bulk(EXPIRE) + Resp.Bulk(n.key) + Resp.Bulk(ttl);
    }
  }

  lemma NothingEncoded(out: Bytes)
    ensures Resp.EncodeAll([]) == [] && out + [] == out
  {
  }

  lemma {:induction false} SentAppend(a: Chain<Entry>, b: Chain<Entry>, now: nat, num: Numerals)
    requires NoneDue(a, now) && NoneDue(b, now)
    ensures NoneDue(a + b, now) && SentAll(a + b, now, num) == SentAll(a, now, num) + SentAll(b, now, num)
    decreases |a|
  {
    hide Sent;
    if |a| == 0 {
      assert a + b == b;
    } else {
      assert (a + b)[1..] == a[1..] + b;
      SentAppend(a[1..], b, now, num);
    }
  }

  /** The stream for the live entries of a chain. */
  function StreamOf(c: Chain<Entry>, now: nat, num: Numerals): Bytes {
    LiveOfLive(c, now);
    Resp.EncodeAll(SentAll(LiveOf(c, now), now, num))
  }

  lemma StreamAppend(a: Chain<Entry>, b: Chain<Entry>, now: nat, num: Numerals)
    ensures StreamOf(a + b, now, num) == StreamOf(a, now, num) + StreamOf(b, now, num)
  {
    hide SentAll, LiveOf, Resp.EncodeAll;
    LiveOfLive(a, now);
    LiveOfLive(b, now);
    LiveAppend(a, b, now);
    SentAppend(LiveOf(a, now), LiveOf(b, now), now, num);
    EncodeAllAppend(SentAll(LiveOf(a, now), now, num), SentAll(LiveOf(b, now), now, num));
  }

  lemma StreamOne(n: Node<Entry>, now: nat, num: Numerals)
    ensures Due(n.val.expireAt, now) ==> StreamOf([n], now, num) == []
    ensures !Due(n.val.expireAt, now) ==> StreamOf([n], now, num) == Resp.EncodeAll(Sent(n, now, num))
  {
    hide Sent, Resp.Encode;
    assert [n][1..] == [] && LiveOf([n][1..], now) == [];
    if !Due(n.val.expireAt, now) {
      assert [n] + [] == [n];
      assert LiveOf([n], now) == [n];
      assert SentAll([n], now, num) == Sent(n, now, num) + SentAll([n][1..], now, num);
      assert Sent(n, now, num) + [] == Sent(n, now, num);
    } else {
      assert LiveOf([n], now) == [];
    }
  }

  lemma NothingSent(now: nat, num: Numerals, out: Bytes)
    ensures StreamOf([], now, num) == [] && out + [] == out
  {
  }

  /** One table of repl_fullsync. */
  method SendTable(t: Table<Entry>, now: nat, out: Bytes, num: Numerals) returns (r: Bytes)
    requires Snapshots.SoundTable(t)
    ensures r == out + StreamOf(InOrder(t), now, num)
  {
    hide InOrder, StreamOf, Sound, Due, Upto, Sent, Resp.EncodeAll;
    r := out;
    NothingSent(now, num, out);
    Snapshots.NoneYet(t);
    for i := 0 to |t|
      invariant r == out + StreamOf(InOrder(t[..i]), now, num)
    {
      UptoEnds(t, i);
      var c := t[i];
      assert Snapshots.SoundChain(c);
      for j := 0 to |c|
        invariant r == out + StreamOf(Upto(t, i, j), now, num)
      {
        UptoNext(t, i, j);
        StreamAppend(Upto(t, i, j), [c[j]], now, num);
        StreamOne(c[j], now, num);
        if Due(c[j].val.expireAt, now) {
          assert StreamOf(Upto(t, i, j), now, num) + [] == StreamOf(Upto(t, i, j), now, num);
          continue;
        }
        ghost var sofar := StreamOf(Upto(t, i, j), now, num);
        r := SendEntry(c[j], now, r, num);
        ghost var more := Resp.EncodeAll(Sent(c[j], now, num));
        assert out + sofar + more == out + (sofar + more);
      }
    }
    assert t[..|t|] == t;
  }

  /** repl_fullsync. */
  method FullSync(st: Store, now: nat, num: Numerals) returns (r: Bytes)
    requires st.Valid()
    ensures r == Stream(st.tiers, now, num)
  {
    hide InOrder, StreamOf, Snapshots.SoundTable, AllSound, Wellformed, Accounted, WatchOk, SumT;
    var s := st.tiers;
    Snapshots.ConsistentParts(st);
    Snapshots.SoundTables(s);
    StreamAppend(InOrder(s.hot), InOrder(s.cold), now, num);
    r := SendTable(s.hot, now, [], num);
    assert [] + StreamOf(InOrder(s.hot), now, num) == StreamOf(InOrder(s.hot), now, num);
    r := SendTable(s.cold, now, r, num);
    assert StreamOf(Walk(s), now, num) == Stream(s, now, num) by { SameStream(s, now, num); }
  }

  lemma SameStream(s: Tiers, now: nat, num: Numerals)
    ensures StreamOf(Walk(s), now, num) == Stream(s, now, num)
  {
  }

  // ----- receiving -----

  /** A burst's commands, dispatched one after the other; a command of another form ends
      the replay. */
  method RunCommands(st: Store, cmds: seq<Words>, now: nat, num: Numerals, ghost ideal: Db) returns (ok: bool)
    requires st.Valid() && (st.EvictionOff() ==> SameLive(ideal, st.Db(), now))
    modifies st
    ensures st.Valid() && st.Kept()
    ensures ok == Replayed(ideal, cmds, now, num).Some?
    ensures ok && st.EvictionOff() ==> SameLive(Replayed(ideal, cmds, now, num).value, st.Db(), now)
    ensures AllTidy(cmds, num) ==> st.leak.unruly <= old(st.leak.unruly)
  {
    hide Consistent, WatchOk, Records, SameClients, SameLive, Heard, Perform, Follows, Drifts, NoEmpties,
      CommandMoves, Warns, Spoilt;
    ClientsSelf(st.conns);
    ghost var db := ideal;
    assert cmds[0..] == cmds;
    for i := 0 to |cmds|
      invariant st.Valid() && st.Kept() && (st.EvictionOff() ==> SameLive(db, st.Db(), now))
      invariant Replayed(ideal, cmds, now, num) == Replayed(db, cmds[i..], now, num)
      invariant AllTidy(cmds, num) ==> st.leak.unruly <= old(st.leak.unruly)
    {
      assert AllTidy(cmds, num) ==> Tidy(cmds[i], num);
      assert cmds[i..][0] == cmds[i] && cmds[i..][1..] == cmds[i + 1..];
      var cmd := Heard(cmds[i], num);
      if cmd.None? { return false; }
      ghost var conns, before := st.conns, st.Db();
      if st.EvictionOff() { SameLiveFlip(db, before, now); }
      var reply := Execute(st, cmd.value, now);
      SameClientsTwice(old(st.conns), conns, st.conns);
      if st.EvictionOff() {
        PerformAgrees(before, db, cmd.value, now, st.Db(), reply);
        SameLiveFlip(st.Db(), Perform(db, cmd.value, now).0, now);
      }
      db := Perform(db, cmd.value, now).0;
    }
    assert cmds[|cmds|..] == [];
    return true;
  }

  /** The replica's connection from the master: bursts go into the read buffer, and every
      whole command in it is dispatched to the store. */
  method Replay(st: Store, chunks: seq<Bytes>, now: nat, num: Numerals, ghost ideal: Db)
    returns (ok: bool, whole: bool)
    requires st.Valid() && (st.EvictionOff() ==> SameLive(ideal, st.Db(), now))
    modifies st
    ensures st.Valid() && st.Kept()
    ensures var d := Arrivals.Receive(Resp.NOTHING_READ, chunks, Resp.AsWritten);
      && ok == Replayed(ideal, d.commands, now, num).Some?
      && (whole ==> ok)
      && (ok ==> whole == !d.broken)
      && (ok && st.EvictionOff() ==> SameLive(Replayed(ideal, d.commands, now, num).value, st.Db(), now))
      && (whole && AllTidy(d.commands, num) ==> st.leak.unruly <= old(st.leak.unruly))
  {
    hide Consistent, WatchOk, Records, SameClients, SameLive, Resp.Drain, Replayed, Tidy;
    ClientsSelf(st.conns);
    ghost var left, db := Resp.NOTHING_READ, ideal;
    var rest: Bytes := [];
    ReplayedNone(ideal, now, num);
    assert chunks[0..] == chunks;
    for i := 0 to |chunks|
      invariant st.Valid() && st.Kept() && (st.EvictionOff() ==> SameLive(db, st.Db(), now))
      invariant !left.broken && left.rest == rest && Replayed(ideal, left.commands, now, num) == Some(db)
      invariant AllTidy(left.commands, num) ==> st.leak.unruly <= old(st.leak.unruly)
      invariant Arrivals.Receive(Resp.NOTHING_READ, chunks, Resp.AsWritten)
             == Arrivals.Receive(left, chunks[i..], Resp.AsWritten)
    {
      assert chunks[i..][0] == chunks[i] && chunks[i..][1..] == chunks[i + 1..];
      var buf := rest + chunks[i];
      if |buf| >= Arrivals.READ_LIMIT { return true, false; }
      var d := Resp.ProcessReads(buf);
      ghost var next, conns := d.(commands := left.commands + d.commands), st.conns;
      MoreReplayed(ideal, left.commands, d.commands, db, now, num);
      TidySplits(left.commands, d.commands, num);
      ok := RunCommands(st, d.commands, now, num, db);
      SameClientsTwice(old(st.conns), conns, st.conns);
      if !ok {
        RestReplayed(ideal, next, chunks[i + 1..], now, num);
        return false, false;
      }
      Arrivals.BrokenStays(next, chunks[i + 1..], Resp.AsWritten);
      if d.broken { return true, false; }
      db := Replayed(db, d.commands, now, num).value;
      left, rest := next, d.rest;
    }
    return true, true;
  }

  lemma TidySplits(a: seq<Words>, b: seq<Words>, num: Numerals)
    ensures AllTidy(a + b, num) ==> AllTidy(a, num) && AllTidy(b, num)
  {
    hide Tidy;
    if AllTidy(a + b, num) {
      forall i | 0 <= i < |a| ensures Tidy(a[i], num) { assert (a + b)[i] == a[i]; }
      forall i | 0 <= i < |b| ensures Tidy(b[i], num) { assert (a + b)[|a| + i] == b[i]; }
    }
  }

  lemma ReplayedNone(db: Db, now: nat, num: Numerals)
    ensures Replayed(db, [], now, num) == Some(db)
  {
  }

  lemma MoreReplayed(ideal: Db, a: seq<Words>, b: seq<Words>, db: Db, now: nat, num: Numerals)
    requires Replayed(ideal, a, now, num) == Some(db)
    ensures Replayed(ideal, a + b, now, num) == Replayed(db, b, now, num)
  {
    hide Replayed;
    ReplayedAppend(ideal, a, b, now, num);
  }

  /** What is dispatched later comes after what was dispatched. */
  lemma {:induction false} LaterCommands(left: Resp.Reading, chunks: seq<Bytes>) returns (more: seq<Words>)
    ensures Arrivals.Receive(left, chunks, Resp.AsWritten).commands == left.commands + more
    decreases |chunks|
  {
    hide Resp.Drain;
    more := [];
    assert left.commands + [] == left.commands;
    if |chunks| == 0 {
    } else if !left.broken && |left.rest + chunks[0]| < Arrivals.READ_LIMIT {
      var d := Resp.Drain(left.rest + chunks[0], Resp.AsWritten);
      var rest := LaterCommands(d.(commands := left.commands + d.commands), chunks[1..]);
      more := d.commands + rest;
      assert left.commands + d.commands + rest == left.commands + more;
    }
  }

  /** A command not understood is still among those dispatched in the end. */
  lemma RestReplayed(ideal: Db, left: Resp.Reading, chunks: seq<Bytes>, now: nat, num: Numerals)
    requires Replayed(ideal, left.commands, now, num) == None
    ensures Replayed(ideal, Arrivals.Receive(left, chunks, Resp.AsWritten).commands, now, num) == None
  {
    hide Replayed, Arrivals.Receive;
    var more := LaterCommands(left, chunks);
    ReplayedAppend(ideal, left.commands, more, now, num);
  }

  /** Bytes cut into bursts of the given sizes, the last taking what remains. */
  function Cut(b: Bytes, sizes: seq<nat>): seq<Bytes>
    decreases |sizes|
  {
    if |sizes| == 0 || sizes[0] >= |b| then [b] else [b[..sizes[0]]] + Cut(b[sizes[0]..], sizes[1..])
  }

  lemma {:induction false} CutWhole(b: Bytes, sizes: seq<nat>)
    ensures Resp.Concat(Cut(b, sizes)) == b
    decreases |sizes|
  {
    if |sizes| == 0 || sizes[0] >= |b| {
      assert [b][1..] == [] && Resp.Concat([b]) == b + Resp.Concat([]) == b;
    } else {
      CutWhole(b[sizes[0]..], sizes[1..]);
      assert Cut(b, sizes)[1..] == Cut(b[sizes[0]..], sizes[1..]);
      assert b[..sizes[0]] + b[sizes[0]..] == b;
    }
  }

  /** SYNC from one store into another, whatever that holds and in whatever bursts the stream
      arrives: if the connection stays open, the master's live keyspace has been merged into
      the replica's. A sorted set the replica then shares with the master is in order, so it
      is the same array if and only if the master's is. */
  method SyncReplica(master: Store, replica: Store, sizes: seq<nat>, sent: nat, now: nat, num: Numerals)
    returns (whole: bool)
    requires master.Valid() && replica.Valid() && master != replica
    requires Sync.AllSendable(LiveEntries(master.tiers, sent)) && Faithful(num) && sent <= now
    modifies replica
    ensures replica.Valid()
    ensures whole <==> !Arrivals.Receive(Resp.NOTHING_READ, Cut(Stream(master.tiers, sent, num), sizes),
                                         Resp.AsWritten).broken
    ensures whole && replica.EvictionOff() ==>
      MergedInto(old(replica.Db()), master.tiers, sent, now, replica.Db())
    ensures whole ==> forall k ::
      && k !in old(replica.leak.unruly) && k in master.Db() && k in replica.Db()
      && replica.Db()[k].data == master.Db()[k].data
      ==> Lookup(master.tiers, k).Some? && Lookup(replica.tiers, k).Some?
          && Snapshots.SameOrder(Lookup(master.tiers, k).value.value, Lookup(replica.tiers, k).value.value)
  {
    hide Consistent, WatchOk, SameClients, SameLive, LiveEntries, Sync.AllSendable, Records, Faithful, Replayed,
      Arrivals.Receive, Stream, Commands, Cut, MergedInto, Wellformed, Accounted, AllSound, AllTidy, Lookup,
      Snapshots.SameOrder;
    var stream := FullSync(master, sent, num);
    assert Wellformed(master.tiers) by { Snapshots.ConsistentParts(master); }
    var chunks := Cut(stream, sizes);
    CutWhole(stream, sizes);
    ghost var base := replica.Db();
    SameLiveSelf(base);
    assert SameLive(base, base, now);
    ghost var d := Arrivals.Receive(Resp.NOTHING_READ, chunks, Resp.AsWritten);
    if !d.broken { SyncMerges(master.tiers, base, chunks, sent, now, num); }
    var ok;
    ok, whole := Replay(replica, chunks, now, num, base);
    if whole {
      if replica.EvictionOff() {
        SameMerged(base, master.tiers, sent, now, Replayed(base, d.commands, now, num).value, replica.Db());
      }
      CommandsTidy(master.tiers, sent, num);
      forall k | k !in old(replica.leak.unruly) && k in master.Db() && k in replica.Db()
                 && replica.Db()[k].data == master.Db()[k].data
        ensures Lookup(master.tiers, k).Some? && Lookup(replica.tiers, k).Some?
        ensures Snapshots.SameOrder(Lookup(master.tiers, k).value.value, Lookup(replica.tiers, k).value.value)
      {
        OrderShared(master, replica, k);
      }
    }
  }

  lemma CommandsTidy(s: Tiers, sent: nat, num: Numerals)
    requires Sync.AllSendable(LiveEntries(s, sent)) && Faithful(num)
    ensures AllTidy(Commands(s, sent, num), num)
  {
    hide AllTidy, Sync.AllSendable, LiveEntries, Faithful, SentAll;
    LiveEntriesLive(s, sent);
    AllSentTidy(LiveEntries(s, sent), sent, num);
  }

  lemma OrderShared(master: Store, replica: Store, k: Bytes)
    requires master.Valid() && replica.Valid() && k in master.Db() && k in replica.Db()
    requires k !in replica.leak.unruly && replica.Db()[k].data == master.Db()[k].data
    ensures Lookup(master.tiers, k).Some? && Lookup(replica.tiers, k).Some?
    ensures Snapshots.SameOrder(Lookup(master.tiers, k).value.value, Lookup(replica.tiers, k).value.value)
  {
    hide WatchOk, Sound, Seen, Accounted, Neat, Wellformed, Lookup, Records, Snapshots.SameOrder;
    RecordAt(master.tiers, k);
    RecordAt(replica.tiers, k);
    Snapshots.OrderFollows(Lookup(master.tiers, k).value.value, Lookup(replica.tiers, k).value.value, k,
                           replica.leak.unruly);
  }

  lemma SameMerged(base: Db, s: Tiers, sent: nat, now: nat, r: Db, after: Db)
    requires MergedInto(base, s, sent, now, r) && SameLive(r, after, now)
    ensures MergedInto(base, s, sent, now, after)
  {
    hide Records, Merged;
    forall k
      ensures Get(after, k, now)
        == match Get(Records(s), k, sent)
           case None => Get(base, k, now)
           case Some(x) => Some(Merged(Get(base, k, now), x, sent, now))
    {
      Snapshots.SameGet(r, after, k, now);
    }
  }
}
