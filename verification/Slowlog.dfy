/** The log of slow commands: a ring of 128 slots of which slowlog-max-len are in use. */
module Slowlog {
  import opened Common

  const SLOTS: nat := 128
  const MOST_ARGS: nat := 8
  const ARG_BYTES: nat := 47

  datatype SlowEntry = SlowEntry(id: nat, time: int, micros: nat, args: seq<Bytes>)

  const BLANK := SlowEntry(0, 0, 0, [])

  /** At most 8 arguments are kept, at most 47 bytes of each. */
  function Clipped(args: seq<Bytes>): (r: seq<Bytes>)
    ensures |r| == (if |args| < 8 then |args| else 8)
    ensures forall i :: 0 <= i < |r| ==> r[i] <= args[i] && |r[i]| == if |args[i]| < 47 then |args[i]| else 47
  {
    var n := if |args| < MOST_ARGS then |args| else MOST_ARGS;
    seq(n, i requires 0 <= i < n => if |args[i]| <= ARG_BYTES then args[i] else args[i][..ARG_BYTES])
  }

  /** The last w entries, newest first. */
  function Newest(history: seq<SlowEntry>, w: nat): seq<SlowEntry>
    requires w <= |history|
  {
    seq(w, i requires 0 <= i < w => history[|history| - 1 - i])
  }

  /** What GET reads when the next write goes to `head` and the ring wraps at m. */
  function Listed(slots: seq<SlowEntry>, head: nat, m: nat, w: nat): seq<SlowEntry>
    requires 0 < m <= |slots|
  {
    seq(w, i => slots[(head - 1 - i) % m])
  }

  /** The ring holds the newest min(m, pushes) entries where GET looks for them. */
  ghost predicate Tidy(slots: seq<SlowEntry>, head: nat, len: nat, m: nat, history: seq<SlowEntry>) {
    && 0 < m <= |slots| && head < m
    && len == (if m < |history| then m else |history|)
    && Listed(slots, head, m, len) == Newest(history, len)
  }

  /** No entry stands in two slots. */
  ghost predicate DistinctIds(slots: seq<SlowEntry>, nextId: nat) {
    && (forall i :: 0 <= i < |slots| && slots[i] != BLANK ==> slots[i].id < nextId)
    && forall i, j :: 0 <= i < j < |slots| && slots[i] != BLANK && slots[j] != BLANK ==> slots[i].id != slots[j].id
  }

  ghost predicate Ascending(history: seq<SlowEntry>, nextId: nat) {
    && (forall i :: 0 <= i < |history| ==> history[i].id < nextId && history[i] != BLANK)
    && forall i, j :: 0 <= i < j < |history| ==> history[i].id < history[j].id
  }

  // ----- arithmetic of the ring -----

  lemma ModSmall(x: int, m: nat)
    requires m > 0 && 0 <= x + m && x < m
    ensures x % m == if x < 0 then x + m else x
  {
    if x < 0 { ModUp(x, m); }
  }

  lemma ModUp(x: int, m: nat)
    requires m > 0
    ensures (x + m) % m == x % m
  {
    var q, r := x / m, x % m;
    OneMoreTimes(m, q);
    SameRemainder(m, (x + m) / m, (x + m) % m, q + 1, r);
  }

  lemma OneMoreTimes(m: int, q: int)
    ensures m * (q + 1) == m * q + m
  {
  }

  lemma SameRemainder(m: nat, p: int, s: int, q: int, r: int)
    requires m * p + s == m * q + r && 0 <= r < m && 0 <= s < m
    ensures r == s
  {
    if p < q { Times(m, q - p); }
    if q < p { Times(m, p - q); }
  }

  lemma Times(m: nat, d: int)
    requires d > 0
    ensures m * d >= m
  {
    assert m * (d - 1) >= 0;
  }

  // ----- one more push -----

  /** Pushing with a fixed length keeps the ring tidy, from an empty ring on. */
  lemma PushKeeps(slots: seq<SlowEntry>, head: nat, len: nat, m: nat, history: seq<SlowEntry>, e: SlowEntry)
    requires Tidy(slots, head, len, m, history)
    ensures Tidy(slots[head := e], (head + 1) % m, if len < m then len + 1 else len, m, history + [e])
  {
    var head', len' := (head + 1) % m, if len < m then len + 1 else len;
    ModBelow(head + 1, m);
    forall i | 0 <= i < len'
      ensures Listed(slots[head := e], head', m, len')[i] == Newest(history + [e], len')[i]
    {
      PushedAt(slots, head, len, m, history, e, i);
    }
  }

  lemma PushedAt(slots: seq<SlowEntry>, head: nat, len: nat, m: nat, history: seq<SlowEntry>, e: SlowEntry, i: nat)
    requires Tidy(slots, head, len, m, history) && i <= len && i < m
    ensures 0 <= ((head + 1) % m - 1 - i) % m < m
    ensures slots[head := e][((head + 1) % m - 1 - i) % m] == (history + [e])[|history| - i]
  {
    ModSmall(head + 1 - m, m);
    ModUp(head + 1 - m, m);
    ModSmall((head + 1) % m - 1 - i, m);
    if i > 0 {
      ModSmall(head - 1 - (i - 1), m);
      assert Listed(slots, head, m, len)[i - 1] == Newest(history, len)[i - 1];
    }
  }

  lemma FewerShown(slots: seq<SlowEntry>, head: nat, len: nat, m: nat, history: seq<SlowEntry>, w: nat)
    requires Tidy(slots, head, len, m, history) && w <= len
    ensures w <= |history| && Listed(slots, head, m, w) == Newest(history, w)
  {
    forall i | 0 <= i < w ensures Listed(slots, head, m, w)[i] == Newest(history, w)[i] {
      assert Listed(slots, head, m, len)[i] == Newest(history, len)[i];
    }
  }

  /** What GET returns is in strictly descending order of ids. */
  lemma NewestDescends(history: seq<SlowEntry>, nextId: nat, w: nat)
    requires Ascending(history, nextId) && w <= |history|
    ensures forall i, j :: 0 <= i < j < w ==> Newest(history, w)[i].id > Newest(history, w)[j].id
  {
  }

  // ----- changing the length -----

  /** CONFIG SET slowlog-max-len n clips the length and nothing else. GET still shows the
      newest entries exactly when nothing is shown, the length is the same, or the ring
      has not wrapped and its newest entry lies within the new length. */
  lemma ResizedShows(slots: seq<SlowEntry>, head: nat, len: nat, m: nat, history: seq<SlowEntry>, nextId: nat, n: nat)
    requires Tidy(slots, head, len, m, history) && 0 < n <= |slots|
    requires DistinctIds(slots, nextId) && Ascending(history, nextId)
    ensures var w := if len > n then n else len;
      Listed(slots, head, n, w) == Newest(history, w) <==> w == 0 || n == m || (head <= n && w <= head)
  {
    var w := if len > n then n else len;
    if head <= n && w <= head {
      ShownStill(slots, head, len, m, history, n, w);
    } else if w > 0 && n != m {
      ShownElsewhere(slots, head, len, m, history, nextId, n, w);
    } else if n == m {
      forall i | 0 <= i < w ensures Listed(slots, head, n, w)[i] == Newest(history, w)[i] {
        assert Listed(slots, head, m, len)[i] == Newest(history, len)[i];
      }
    }
  }

  lemma ShownStill(slots: seq<SlowEntry>, head: nat, len: nat, m: nat, history: seq<SlowEntry>, n: nat, w: nat)
    requires Tidy(slots, head, len, m, history) && 0 < n <= |slots| && w <= len && head <= n && w <= head
    ensures Listed(slots, head, n, w) == Newest(history, w)
  {
    forall i | 0 <= i < w ensures Listed(slots, head, n, w)[i] == Newest(history, w)[i] {
      assert Listed(slots, head, m, len)[i] == Newest(history, len)[i];
      ModSmall(head - 1 - i, m);
      ModSmall(head - 1 - i, n);
    }
  }

  lemma ShownElsewhere(slots: seq<SlowEntry>, head: nat, len: nat, m: nat, history: seq<SlowEntry>, nextId: nat,
                       n: nat, w: nat)
    requires Tidy(slots, head, len, m, history) && 0 < n <= |slots| && 0 < w <= len && n != m
    requires DistinctIds(slots, nextId) && Ascending(history, nextId) && (head > n || w > head)
    ensures Listed(slots, head, n, w) != Newest(history, w)
  {
    var i := if head > n then 0 else head;
    var x := head - 1 - i;
    ModSmall(x, m);
    if head <= n { ModSmall(x, n); } else { ModBelow(x, n); }
    assert Listed(slots, head, m, len)[i] == Newest(history, len)[i];
    assert Newest(history, w)[i] == slots[x % m] && Listed(slots, head, n, w)[i] == slots[x % n];
    OneSlot(slots, nextId, x % m, x % n);
  }

  lemma ModBelow(x: int, n: nat)
    requires n > 0
    ensures 0 <= x % n < n
  {
  }

  lemma OneSlot(slots: seq<SlowEntry>, nextId: nat, i: nat, j: nat)
    requires DistinctIds(slots, nextId) && i < |slots| && j < |slots| && i != j && slots[i] != BLANK
    ensures slots[i] != slots[j]
  {
    var a, b := if i < j then i else j, if i < j then j else i;
    assert !(slots[a] != BLANK && slots[b] != BLANK && slots[a].id == slots[b].id);
  }

  /** And the ring stays tidy through later pushes if it has not wrapped and the next
      write lies within the new length. */
  lemma ResizedTidy(slots: seq<SlowEntry>, head: nat, len: nat, m: nat, history: seq<SlowEntry>, n: nat)
    requires Tidy(slots, head, len, m, history) && len <= head < n <= |slots|
    ensures Tidy(slots, head, len, n, history)
  {
    forall i | 0 <= i < len ensures Listed(slots, head, n, len)[i] == Newest(history, len)[i] {
      assert Listed(slots, head, m, len)[i] == Newest(history, len)[i];
      ModSmall(head - 1 - i, m);
      ModSmall(head - 1 - i, n);
    }
  }

  /** Three pushes at length 2, then the length raised to 3: GET shows a slot that was
      never written where the older of the two entries should be. */
  lemma ResizeLoses(a: SlowEntry, b: SlowEntry, c: SlowEntry, slots: seq<SlowEntry>)
    requires |slots| == SLOTS && slots[0] == c && slots[1] == b && slots[2] == BLANK && b != BLANK
    ensures Listed(slots, 1, 2, 2) == Newest([a, b, c], 2)
    ensures Listed(slots, 1, 3, 2) == [c, BLANK] && Listed(slots, 1, 3, 2) != Newest([a, b, c], 2)
  {
    assert Listed(slots, 1, 3, 2)[1] == slots[2];
  }

  class Ring {
    const slots: array<SlowEntry>
    var head: nat
    var len: nat
    var nextId: nat
    var maxLen: int
    /** Everything pushed since the last RESET. */
    ghost var history: seq<SlowEntry>

    ghost predicate Valid()
      reads this, slots
    {
      && slots.Length == SLOTS && head < SLOTS && len <= SLOTS && 0 <= maxLen <= SLOTS
      && DistinctIds(slots[..], nextId) && Ascending(history, nextId)
    }

    /** GET is right, and stays right as long as the length is not changed. */
    ghost predicate InOrder()
      reads this, slots
      requires Valid()
    {
      maxLen > 0 && Tidy(slots[..], head, len, maxLen, history)
    }

    constructor ()
      ensures Valid() && InOrder() && maxLen == 128 && history == [] && fresh(slots)
    {
      slots := new SlowEntry[SLOTS](_ => BLANK);
      head, len, nextId, maxLen, history := 0, 0, 0, SLOTS, [];
      new;
      assert slots[..] == seq(SLOTS, _ => BLANK);
    }

    /** slowlog_push. */
    method Push(time: int, micros: nat, args: seq<Bytes>)
      requires Valid() && |args| > 0
      modifies this, slots
      ensures Valid() && maxLen == old(maxLen)
      ensures maxLen > 0 ==> history == old(history) + [SlowEntry(old(nextId), time, micros, Clipped(args))]
      ensures maxLen == 0 ==> history == old(history) && len == old(len)
      ensures old(InOrder()) ==> InOrder()
    {
      hide Tidy, DistinctIds, Ascending, Clipped;
      if maxLen == 0 { return; }
      var e := SlowEntry(nextId, time, micros, Clipped(args));
      ghost var was := slots[..];
      assert |Clipped(args)| > 0;
      NextAscends(history, nextId, e);
      ModBelow(head + 1, maxLen);
      if InOrder() { PushKeeps(was, head, len, maxLen, history, e); }
      slots[head] := e;
      assert slots[..] == was[head := e];
      PushIds(was, nextId, head, e);
      nextId := nextId + 1;
      head := (head + 1) % maxLen;
      if len < maxLen { len := len + 1; }
      history := history + [e];
    }

    /** SLOWLOG RESET: from any state, the ring is in order again. */
    method Reset()
      requires Valid()
      modifies this
      ensures Valid() && maxLen == old(maxLen) && history == [] && len == 0
      ensures maxLen > 0 ==> InOrder()
    {
      len, head, history := 0, 0, [];
    }

    /** SLOWLOG GET, with an optional count. */
    method Get(count: Option<nat>) returns (shown: seq<SlowEntry>)
      requires Valid()
      ensures var w := if count.Some? && count.value < len then count.value else len;
        && shown == Listed(slots[..], head, if maxLen == 0 then SLOTS else maxLen, w)
        && (InOrder() ==> w <= |history| && shown == Newest(history, w))
    {
      hide Tidy, DistinctIds, Ascending;
      var want := if count.Some? && count.value < len then count.value else len;
      var m := if maxLen <= 0 then SLOTS else maxLen;
      shown := [];
      for i := 0 to want
        invariant shown == Listed(slots[..], head, m, i)
      {
        var idx := Reduced(head - 1 - i, m);
        shown := shown + [slots[idx]];
      }
      if InOrder() { FewerShown(slots[..], head, len, m, history, want); }
    }

    /** `while (idx < 0) idx += maxl;` and then `idx % maxl`. */
    method Reduced(start: int, m: nat) returns (idx: nat)
      requires m > 0
      ensures idx == start % m && idx < m
    {
      var x := start;
      while x < 0
        invariant x % m == start % m
        decreases -x
      {
        ModUp(x, m);
        x := x + m;
      }
      ModBelow(x, m);
      return x % m;
    }

    /** CONFIG SET slowlog-max-len. */
    method SetMaxLen(value: int)
      requires Valid()
      modifies this`maxLen, this`len
      ensures Valid() && maxLen == (if value < 0 then 0 else if value > 128 then 128 else value)
      ensures len == if old(len) > maxLen then maxLen else old(len)
      ensures old(InOrder()) && (maxLen == old(maxLen) || old(len) <= head < maxLen) ==> InOrder()
      ensures old(InOrder()) && maxLen > 0 ==>
        (Listed(slots[..], head, maxLen, len) == Newest(history, len)
         <==> len == 0 || maxLen == old(maxLen) || (head <= maxLen && len <= head))
    {
      var n := value;
      if n < 0 { n := 0; }
      if n > SLOTS { n := SLOTS; }
      if InOrder() {
        if n > 0 { ResizedShows(slots[..], head, len, maxLen, history, nextId, n); }
        if len <= head < n { ResizedTidy(slots[..], head, len, maxLen, history, n); }
      }
      maxLen := n;
      if len > n { len := n; }
    }
  }

  lemma NextAscends(history: seq<SlowEntry>, nextId: nat, e: SlowEntry)
    requires Ascending(history, nextId) && e.id == nextId && e != BLANK
    ensures Ascending(history + [e], nextId + 1)
  {
  }

  lemma PushIds(slots: seq<SlowEntry>, nextId: nat, head: nat, e: SlowEntry)
    requires DistinctIds(slots, nextId) && head < |slots| && e.id == nextId
    ensures DistinctIds(slots[head := e], nextId + 1)
  {
  }
}
