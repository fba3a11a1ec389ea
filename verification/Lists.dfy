/** LIST values as sequences: what LPUSH, LPOP, LREM, LTRIM and LRANGE mean. */
module Lists {
  import opened Common

  function Reverse(s: seq<Bytes>): seq<Bytes> {
    if |s| == 0 then [] else Reverse(s[1..]) + [s[0]]
  }

  /** LPUSH puts each value in front in turn, so the last argument ends up first. */
  function Pushed(s: seq<Bytes>, left: bool, vals: seq<Bytes>): seq<Bytes> {
    if left then Reverse(vals) + s else s + vals
  }

  function Popped(s: seq<Bytes>, left: bool): seq<Bytes>
    requires |s| > 0
  {
    if left then s[1..] else s[..|s| - 1]
  }

  function PoppedItem(s: seq<Bytes>, left: bool): Bytes
    requires |s| > 0
  {
    if left then s[0] else s[|s| - 1]
  }

  /** The first `limit` occurrences of x removed (all of them when limit is 0). */
  function DropFirst(s: seq<Bytes>, x: Bytes, limit: nat): seq<Bytes> {
    if |s| == 0 then []
    else if s[0] != x then [s[0]] + DropFirst(s[1..], x, limit)
    else if limit == 1 then s[1..]
    else DropFirst(s[1..], x, if limit == 0 then 0 else limit - 1)
  }

  /** The same from the tail. */
  function DropLast(s: seq<Bytes>, x: Bytes, limit: nat): seq<Bytes> {
    if |s| == 0 then []
    else
      var n := |s| - 1;
      if s[n] != x then DropLast(s[..n], x, limit) + [s[n]]
      else if limit == 1 then s[..n]
      else DropLast(s[..n], x, if limit == 0 then 0 else limit - 1)
  }

  /** LREM: a positive count works from the head, a negative one from the tail,
      zero removes every occurrence. */
  function Removed(s: seq<Bytes>, count: int, x: Bytes): seq<Bytes> {
    if count >= 0 then DropFirst(s, x, count) else DropLast(s, x, -count)
  }

  /** Clamp a client index pair to a list of n items. */
  function Clamp(n: nat, start: int, stop: int): (int, int) {
    var a := if start < 0 then n + start else start;
    var z := if stop < 0 then n + stop else stop;
    (if a < 0 then 0 else a, if z >= n then n - 1 else z)
  }

  /** LRANGE, and what LTRIM keeps. */
  function Slice(s: seq<Bytes>, start: int, stop: int): seq<Bytes> {
    var (a, z) := Clamp(|s|, start, stop);
    if a > z || a >= |s| then [] else s[a .. z + 1]
  }

  // ----- the algebra of LREM -----

  lemma {:induction false} ReverseAppend(s: seq<Bytes>, t: seq<Bytes>)
    ensures Reverse(s + t) == Reverse(t) + Reverse(s)
    decreases |s|
  {
    if |s| == 0 {
      assert s + t == t;
    } else {
      assert (s + t)[1..] == s[1..] + t;
      ReverseAppend(s[1..], t);
    }
  }

  lemma {:induction false} ReverseTwice(s: seq<Bytes>)
    ensures |Reverse(s)| == |s| && Reverse(Reverse(s)) == s
  {
    if |s| == 0 {
    } else {
      ReverseTwice(s[1..]);
      ReverseAppend(Reverse(s[1..]), [s[0]]);
      assert Reverse([s[0]]) == [s[0]];
    }
  }

  /** Removing from the tail is removing from the head of the reversed list. */
  lemma {:induction false} DropLastMirrors(s: seq<Bytes>, x: Bytes, limit: nat)
    ensures DropLast(s, x, limit) == Reverse(DropFirst(Reverse(s), x, limit))
    decreases |s|
  {
    if |s| == 0 {
    } else {
      var n := |s| - 1;
      var front, last := s[..n], s[n];
      assert s == front + [last];
      ReverseAppend(front, [last]);
      assert Reverse([last]) == [last];
      var r := Reverse(s);
      assert r == [last] + Reverse(front) && r[1..] == Reverse(front);
      DropLastMirrors(front, x, limit);
      if last != x {
        var d := DropFirst(Reverse(front), x, limit);
        assert ([last] + d)[1..] == d;
      } else if limit == 1 {
        ReverseTwice(front);
      } else if limit > 1 {
        DropLastMirrors(front, x, limit - 1);
      }
    }
  }

  /** LREM with a negative count is reverse, LREM with the positive count, reverse. */
  lemma RemMirrors(s: seq<Bytes>, count: int, x: Bytes)
    requires count < 0
    ensures Removed(s, count, x) == Reverse(Removed(Reverse(s), -count, x))
  {
    DropLastMirrors(s, x, -count);
  }

  /** How many copies of x LREM takes out. */
  function Hits(s: seq<Bytes>, count: int, x: Bytes): nat {
    var n := multiset(s)[x];
    if count == 0 then n else Min(if count < 0 then -count else count, n)
  }

  lemma {:induction false} DropFirstCounts(s: seq<Bytes>, x: Bytes, limit: nat)
    ensures multiset(DropFirst(s, x, limit)) == multiset(s)[x := multiset(s)[x] - Hits(s, limit, x)]
    decreases |s|
  {
    if |s| == 0 {
    } else {
      var t := s[1..];
      assert s == [s[0]] + t;
      if s[0] != x {
        DropFirstCounts(t, x, limit);
      } else if limit != 1 {
        DropFirstCounts(t, x, if limit == 0 then 0 else limit - 1);
      }
    }
  }

  lemma {:induction false} ReverseSame(s: seq<Bytes>)
    ensures multiset(Reverse(s)) == multiset(s)
  {
    if |s| == 0 {
    } else {
      ReverseSame(s[1..]);
      assert s == [s[0]] + s[1..];
    }
  }

  /** LREM in either direction takes out exactly that many copies of x and leaves
      every other element with its multiplicity. */
  lemma RemovedCounts(s: seq<Bytes>, count: int, x: Bytes)
    ensures multiset(Removed(s, count, x)) == multiset(s)[x := multiset(s)[x] - Hits(s, count, x)]
    ensures |Removed(s, count, x)| == |s| - Hits(s, count, x)
  {
    if count >= 0 {
      DropFirstCounts(s, x, count);
    } else {
      DropLastMirrors(s, x, -count);
      DropFirstCounts(Reverse(s), x, -count);
      ReverseSame(s);
      ReverseSame(DropFirst(Reverse(s), x, -count));
    }
    var d := Removed(s, count, x);
    assert |d| == |multiset(d)| && |s| == |multiset(s)|;
  }

  // ----- which copies LREM takes -----

  /** The elements other than x, in order. */
  function Others(s: seq<Bytes>, x: Bytes): seq<Bytes> {
    if |s| == 0 then [] else (if s[0] == x then [] else [s[0]]) + Others(s[1..], x)
  }

  function Copies(s: seq<Bytes>, x: Bytes): nat {
    multiset(s)[x]
  }

  lemma {:induction false} OthersAppend(s: seq<Bytes>, t: seq<Bytes>, x: Bytes)
    ensures Others(s + t, x) == Others(s, x) + Others(t, x)
    decreases |s|
  {
    if |s| == 0 {
      assert s + t == t;
    } else {
      assert (s + t)[1..] == s[1..] + t;
      OthersAppend(s[1..], t, x);
    }
  }

  lemma OthersOne(a: Bytes, x: Bytes)
    ensures Others([a], x) == if a == x then [] else [a]
  {
    var one: seq<Bytes> := [a];
    assert one[1..] == [];
  }

  lemma {:induction false} AllTaken(s: seq<Bytes>, x: Bytes)
    ensures DropFirst(s, x, 0) == Others(s, x)
    decreases |s|
  {
    if |s| == 0 {
    } else {
      AllTaken(s[1..], x);
    }
  }

  /** No copies, nothing to take. */
  lemma {:induction false} NoneTaken(s: seq<Bytes>, x: Bytes, limit: nat)
    requires Copies(s, x) == 0
    ensures DropFirst(s, x, limit) == s && DropLast(s, x, limit) == s
    decreases |s|
  {
    if |s| == 0 {
    } else {
      var n := |s| - 1;
      assert s == [s[0]] + s[1..] && s == s[..n] + [s[n]];
      assert s[0] in multiset(s) && s[n] in multiset(s);
      NoneTaken(s[1..], x, limit);
      NoneTaken(s[..n], x, limit);
    }
  }

  lemma CopiesAhead(a: Bytes, t: seq<Bytes>, x: Bytes)
    ensures Copies([a] + t, x) == (if a == x then 1 else 0) + Copies(t, x)
  {
  }

  lemma CopiesBehind(t: seq<Bytes>, a: Bytes, x: Bytes)
    ensures Copies(t + [a], x) == Copies(t, x) + if a == x then 1 else 0
  {
  }

  lemma NoCopies(x: Bytes)
    ensures Copies([], x) == 0
  {
  }

  /** The prefix with one more element in front. */
  lemma PrefixAhead(s: seq<Bytes>, x: Bytes, p: nat)
    requires 0 < p <= |s|
    ensures Copies(s[..p], x) == (if s[0] == x then 1 else 0) + Copies(s[1..][..p - 1], x)
    ensures Others(s[..p], x) == (if s[0] == x then [] else [s[0]]) + Others(s[1..][..p - 1], x)
    ensures s[p..] == s[1..][p - 1..]
  {
    hide Copies;
    assert s[..p] == [s[0]] + s[1..][..p - 1] && s[..p][1..] == s[1..][..p - 1];
    CopiesAhead(s[0], s[1..][..p - 1], x);
  }

  lemma SuffixBehind(s: seq<Bytes>, x: Bytes, p: nat)
    requires p < |s|
    ensures var n := |s| - 1;
      && Copies(s[p..], x) == Copies(s[..n][p..], x) + (if s[n] == x then 1 else 0)
      && Others(s[p..], x) == Others(s[..n][p..], x) + (if s[n] == x then [] else [s[n]])
      && s[..p] == s[..n][..p]
  {
    hide Copies;
    var n := |s| - 1;
    assert s[p..] == s[..n][p..] + [s[n]];
    CopiesBehind(s[..n][p..], s[n], x);
    OthersAppend(s[..n][p..], [s[n]], x);
    OthersOne(s[n], x);
  }

  lemma {:induction false} FirstTaken(s: seq<Bytes>, x: Bytes, limit: nat) returns (p: nat)
    requires limit > 0
    ensures p <= |s| && Copies(s[..p], x) == Min(limit, Copies(s, x))
    ensures forall q :: 0 <= q < p ==> Copies(s[..q], x) < Min(limit, Copies(s, x))
    ensures DropFirst(s, x, limit) == Others(s[..p], x) + s[p..]
    decreases |s|
  {
    hide Copies, Others;
    NoCopies(x);
    assert s[..0] == [] && s[0..] == s && Others([], x) == [] by { NothingElse(x); }
    if Copies(s, x) == 0 {
      p := 0;
      NoneTaken(s, x, limit);
    } else {
      var t := s[1..];
      assert s == [s[0]] + t && t[..0] == [] && t[0..] == t;
      var hit := if s[0] == x then 1 else 0;
      CopiesAhead(s[0], t, x);
      var m := 0;
      if limit > hit { m := FirstTaken(t, x, limit - hit); }
      p := m + 1;
      PrefixAhead(s, x, p);
      forall q | 0 <= q < p ensures Copies(s[..q], x) < Min(limit, Copies(s, x)) {
        if q > 0 { PrefixAhead(s, x, q); }
      }
    }
  }

  lemma NothingElse(x: Bytes)
    ensures Others([], x) == []
  {
  }

  lemma {:induction false} LastTaken(s: seq<Bytes>, x: Bytes, limit: nat) returns (p: nat)
    requires limit > 0
    ensures p <= |s| && Copies(s[p..], x) == Min(limit, Copies(s, x))
    ensures forall q :: p < q <= |s| ==> Copies(s[q..], x) < Min(limit, Copies(s, x))
    ensures DropLast(s, x, limit) == s[..p] + Others(s[p..], x)
    decreases |s|
  {
    hide Copies, Others;
    NoCopies(x);
    assert s[|s|..] == [] && s[..|s|] == s && Others([], x) == [] by { NothingElse(x); }
    if Copies(s, x) == 0 {
      p := |s|;
      NoneTaken(s, x, limit);
    } else {
      var n := |s| - 1;
      var t := s[..n];
      assert s == t + [s[n]] && t[n..] == [] && t[..n] == t;
      var hit := if s[n] == x then 1 else 0;
      CopiesBehind(t, s[n], x);
      p := n;
      if limit > hit { p := LastTaken(t, x, limit - hit); }
      SuffixBehind(s, x, p);
      forall q | p < q <= |s| ensures Copies(s[q..], x) < Min(limit, Copies(s, x)) {
        if q <= n { SuffixBehind(s, x, q); }
      }
    }
  }

  /** LREM with a positive count takes its copies from the shortest prefix that holds them. */
  lemma TakenFromHead(s: seq<Bytes>, count: int, x: Bytes) returns (p: nat)
    requires count > 0
    ensures p <= |s| && Copies(s[..p], x) == Min(count, Copies(s, x))
    ensures forall q :: 0 <= q < p ==> Copies(s[..q], x) < Min(count, Copies(s, x))
    ensures Removed(s, count, x) == Others(s[..p], x) + s[p..]
  {
    p := FirstTaken(s, x, count);
  }

  /** With a negative count, from the shortest suffix. */
  lemma TakenFromTail(s: seq<Bytes>, count: int, x: Bytes) returns (p: nat)
    requires count < 0
    ensures p <= |s| && Copies(s[p..], x) == Min(-count, Copies(s, x))
    ensures forall q :: p < q <= |s| ==> Copies(s[q..], x) < Min(-count, Copies(s, x))
    ensures Removed(s, count, x) == s[..p] + Others(s[p..], x)
  {
    p := LastTaken(s, x, -count);
  }

  lemma NothingThere(count: int, x: Bytes, p: nat)
    ensures Removed([], count, x) == [] && Others([], x) == []
  {
  }

  /** With zero, all of them. */
  lemma TakenEverywhere(s: seq<Bytes>, x: Bytes)
    ensures Removed(s, 0, x) == Others(s, x)
  {
    AllTaken(s, x);
  }

  lemma {:induction false} OthersKept(s: seq<Bytes>, x: Bytes, y: Bytes)
    ensures Copies(Others(s, x), y) == if y == x then 0 else Copies(s, y)
    decreases |s|
  {
    hide Copies;
    NoCopies(y);
    if |s| == 0 {
    } else {
      OthersKept(s[1..], x, y);
      assert s == [s[0]] + s[1..] && [] + Others(s[1..], x) == Others(s[1..], x);
      CopiesAhead(s[0], s[1..], y);
      CopiesAhead(s[0], Others(s[1..], x), y);
    }
  }

  // ----- both ends and the middle -----

  /** LPUSH of several values leaves the last one first, and all in reverse in front;
      RPUSH leaves them in order behind. */
  lemma {:induction false} PushedAt(s: seq<Bytes>, vals: seq<Bytes>, i: nat)
    requires i < |s| + |vals|
    ensures |Pushed(s, true, vals)| == |Pushed(s, false, vals)| == |s| + |vals|
    ensures Pushed(s, true, vals)[i] == if i < |vals| then vals[|vals| - 1 - i] else s[i - |vals|]
    ensures Pushed(s, false, vals)[i] == if i < |s| then s[i] else vals[i - |s|]
  {
    ReverseTwice(vals);
    if i < |vals| { ReverseAt(vals, i); }
  }

  lemma {:induction false} ReverseAt(s: seq<Bytes>, i: nat)
    requires i < |s|
    ensures |Reverse(s)| == |s| && Reverse(s)[i] == s[|s| - 1 - i]
    decreases |s|
  {
    ReverseTwice(s);
    ReverseTwice(s[1..]);
    if i < |s| - 1 { ReverseAt(s[1..], i); }
  }

  /** What is pushed at an end is what is popped there, and leaves the list as it was. */
  lemma PushThenPop(s: seq<Bytes>, x: Bytes, left: bool)
    ensures |Pushed(s, left, [x])| > 0
    ensures PoppedItem(Pushed(s, left, [x]), left) == x && Popped(Pushed(s, left, [x]), left) == s
  {
    assert Reverse([x]) == [x];
  }

  /** LRANGE: an index pair within the list takes both ends; -1 is the last element;
      what lies beyond an end is cut off there. */
  lemma SliceLaws(s: seq<Bytes>, i: int, j: int)
    ensures 0 <= i <= j < |s| ==> Slice(s, i, j) == s[i..j + 1]
    ensures -|s| <= i < 0 ==> Slice(s, i, j) == Slice(s, i + |s|, j)
    ensures i < -|s| ==> Slice(s, i, j) == Slice(s, 0, j)
    ensures -|s| <= j < 0 ==> Slice(s, i, j) == Slice(s, i, j + |s|)
    ensures j < -|s| || i >= |s| || (0 <= j < i) ==> Slice(s, i, j) == []
    ensures |s| > 0 && j >= |s| ==> Slice(s, i, j) == Slice(s, i, |s| - 1)
  {
  }
}
