/** What a master puts on the wire for a full sync, byte by byte: in numbers and stored values,
    naming nothing of the sender. */
module SyncBytes {
  import opened Common
  import opened Chains
  import opened Values
  import opened Reference
  import opened Tiers
  import opened Listing
  import opened Wire
  import opened Sync
  import opened Keyspace
  import Resp
  import Replicas
  import SortedSets

  function FieldWordsOf(c: Chain<Bytes>): seq<Bytes> {
    if |c| == 0 then [] else [c[0].key, c[0].val] + FieldWordsOf(c[1..])
  }

  /** Scores as printed, each before its member. */
  function MemberWordsOf(c: seq<SortedSets.Member>, show: SortedSets.Score -> Bytes): seq<Bytes> {
    if |c| == 0 then [] else [show(c[0].val), c[0].key] + MemberWordsOf(c[1..], show)
  }

  /** EXPIRE with the seconds left, rounded up. */
  function ExpireWords(k: Bytes, deadline: nat, now: nat): seq<seq<Bytes>>
    requires deadline == 0 || now < deadline
  {
    if deadline == 0 then [] else [[[69, 88, 80, 73, 82, 69], k, Decimal((deadline - now + 999) / 1000)]]
  }

  /** SET, with EX; or HSET, RPUSH, ZADD with all there is in it, and EXPIRE. */
  function EntryWords(n: Node<Entry>, now: nat, show: SortedSets.Score -> Bytes): seq<seq<Bytes>>
    requires n.val.expireAt == 0 || now < n.val.expireAt
  {
    var k, d := n.key, n.val.expireAt;
    match n.val.value
    case StrV(b) =>
      if d == 0 then [[[83, 69, 84], k, b]]
      else [[[83, 69, 84], k, b, [69, 88], Decimal((d - now + 999) / 1000)]]
    case HashV(t, _) =>
      if |InOrder(t)| == 0 then []
      else [[[72, 83, 69, 84], k] + FieldWordsOf(InOrder(t))] + ExpireWords(k, d, now)
    case ListV(s) =>
      if |s| == 0 then [] else [[[82, 80, 85, 83, 72], k] + s] + ExpireWords(k, d, now)
    case ZSetV(c, _) =>
      if |c| == 0 then [] else [[[90, 65, 68, 68], k] + MemberWordsOf(c, show)] + ExpireWords(k, d, now)
  }

  function AllWords(c: Chain<Entry>, now: nat, show: SortedSets.Score -> Bytes): seq<seq<Bytes>>
    requires forall i :: 0 <= i < |c| ==> c[i].val.expireAt == 0 || now < c[i].val.expireAt
  {
    if |c| == 0 then [] else EntryWords(c[0], now, show) + AllWords(c[1..], now, show)
  }

  function BytesOf(cmds: seq<seq<Bytes>>): Bytes {
    if |cmds| == 0 then [] else CommandBytes(cmds[0]) + BytesOf(cmds[1..])
  }

  lemma {:induction false} FieldsSent(c: Chain<Bytes>, num: Numerals)
    ensures ItemsWords(FieldItems(c), num) == FieldWordsOf(c) && |FieldItems(c)| == |c|
    decreases |c|
  {
    if |c| == 0 {
    } else {
      FieldsSent(c[1..], num);
      assert FieldItems(c)[1..] == FieldItems(c[1..]);
    }
  }

  lemma {:induction false} ElementsSent(s: seq<Bytes>, num: Numerals)
    ensures ItemsWords(ListItems(s), num) == s && |ListItems(s)| == |s|
    decreases |s|
  {
    if |s| == 0 {
    } else {
      ElementsSent(s[1..], num);
      assert ListItems(s)[1..] == ListItems(s[1..]);
    }
  }

  lemma {:induction false} MembersSent(c: seq<SortedSets.Member>, num: Numerals)
    ensures ItemsWords(ScoredItems(c), num) == MemberWordsOf(c, num.show) && |ScoredItems(c)| == |c|
    decreases |c|
  {
    if |c| == 0 {
    } else {
      MembersSent(c[1..], num);
      assert ScoredItems(c)[1..] == ScoredItems(c[1..]);
    }
  }

  lemma EntrySent(n: Node<Entry>, now: nat, num: Numerals)
    requires !Due(n.val.expireAt, now)
    ensures Sent(n, now, num) == EntryWords(n, now, num.show)
  {
    hide ItemsWords, Resp.Digits, Decimal, InOrder;
    if n.val.expireAt != 0 { DecimalIs((n.val.expireAt - now + 999) / 1000); }
    match n.val.value
    case StrV(_) =>
    case HashV(t, _) => FieldsSent(InOrder(t), num);
    case ListV(s) => ElementsSent(s, num);
    case ZSetV(c, _) => MembersSent(c, num);
  }

  lemma {:induction false} AllAreSent(c: Chain<Entry>, now: nat, num: Numerals)
    requires NoneDue(c, now)
    ensures SentAll(c, now, num) == AllWords(c, now, num.show)
    decreases |c|
  {
    hide Sent, EntryWords;
    if |c| == 0 {
    } else {
      EntrySent(c[0], now, num);
      AllAreSent(c[1..], now, num);
    }
  }

  lemma {:induction false} BytesAre(cmds: seq<seq<Bytes>>)
    ensures Resp.EncodeAll(cmds) == BytesOf(cmds)
    decreases |cmds|
  {
    hide Resp.Encode, CommandBytes;
    if |cmds| == 0 {
    } else {
      EncodeIs(cmds[0]);
      BytesAre(cmds[1..]);
    }
  }

  /** A full sync sends exactly these bytes, for every store. */
  method FullSyncBytes(st: Store, now: nat, num: Numerals) returns (r: Bytes)
    requires st.Valid()
    ensures forall i :: 0 <= i < |LiveEntries(st.tiers, now)| ==>
      var d := LiveEntries(st.tiers, now)[i].val.expireAt; d == 0 || now < d
    ensures r == BytesOf(AllWords(LiveEntries(st.tiers, now), now, num.show))
  {
    hide LiveEntries, SentAll, AllWords, BytesOf, Consistent, Resp.EncodeAll;
    ghost var c := LiveEntries(st.tiers, now);
    LiveEntriesLive(st.tiers, now);
    AllAreSent(c, now, num);
    BytesAre(SentAll(c, now, num));
    r := Replicas.FullSync(st, now, num);
  }
}
