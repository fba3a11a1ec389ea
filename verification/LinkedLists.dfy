/** The doubly linked list behind a LIST value: every operation keeps head, tail, both
    link directions and the length coherent, and means what module Lists says. */
module LinkedLists {
  import opened Common
  import opened Lists

  class ListNode {
    const val: Bytes
    var prev: ListNode?
    var next: ListNode?

    constructor (x: Bytes)
      ensures val == x && prev == null && next == null
    {
      val, prev, next := x, null, null;
    }
  }

  function Vals(nodes: seq<ListNode>): (s: seq<Bytes>)
    ensures |s| == |nodes| && forall i :: 0 <= i < |s| ==> s[i] == nodes[i].val
  {
    seq(|nodes|, i requires 0 <= i < |nodes| => nodes[i].val)
  }

  ghost function At(nodes: seq<ListNode>, i: int): ListNode? {
    if 0 <= i < |nodes| then nodes[i] else null
  }

  /** Both links of node i are right. */
  ghost predicate Joined(nodes: seq<ListNode>, i: nat)
    requires i < |nodes|
    reads nodes[i]
  {
    nodes[i].prev == At(nodes, i - 1) && nodes[i].next == At(nodes, i + 1)
  }

  ghost predicate Distinct(nodes: seq<ListNode>) {
    forall i, j :: 0 <= i < j < |nodes| ==> nodes[i] != nodes[j]
  }

  lemma DistinctAt(nodes: seq<ListNode>, i: nat, j: nat)
    requires Distinct(nodes) && i < |nodes| && j < |nodes| && i != j
    ensures nodes[i] != nodes[j]
  {
    var k, m := if i < j then i else j, if i < j then j else i;
    assert nodes[k] != nodes[m];
  }

  lemma DistinctFront(nodes: seq<ListNode>, x: ListNode)
    requires Distinct(nodes) && x !in nodes
    ensures Distinct([x] + nodes) && Distinct(nodes + [x])
  {
  }

  lemma DistinctWithout(nodes: seq<ListNode>, i: nat)
    requires Distinct(nodes) && i < |nodes|
    ensures Distinct(nodes[..i] + nodes[i + 1..])
  {
  }

  class LinkedList {
    var head: ListNode?
    var tail: ListNode?
    var len: nat
    ghost var nodes: seq<ListNode>

    ghost predicate Valid()
      reads this, nodes
    {
      && len == |nodes| && Distinct(nodes)
      && head == At(nodes, 0) && tail == At(nodes, |nodes| - 1)
      && forall i :: 0 <= i < |nodes| ==> Joined(nodes, i)
    }

    ghost function Contents(): seq<Bytes>
      reads this
    {
      Vals(nodes)
    }

    constructor ()
      ensures Valid() && Contents() == [] && nodes == []
    {
      head, tail, len, nodes := null, null, 0, [];
    }

    /** The linking step of LPUSH. */
    method PushHead(x: Bytes)
      requires Valid()
      modifies this, nodes
      ensures Valid() && exists n: ListNode :: fresh(n) && n.val == x && nodes == [n] + old(nodes)
    {
      hide Distinct;
      var node := new ListNode(x);
      node.next := head;
      if head != null { head.prev := node; } else { tail := node; }
      head := node;
      DistinctFront(nodes, node);
      nodes := [node] + nodes;
      len := len + 1;
      forall i | 0 <= i < |nodes| ensures Joined(nodes, i) {
        if i > 0 {
          assert old(Joined(nodes, i - 1));
          if i > 1 { DistinctAt(old(nodes), 0, i - 1); }
        }
      }
    }

    /** The linking step of RPUSH. */
    method PushTail(x: Bytes)
      requires Valid()
      modifies this, nodes
      ensures Valid() && exists n: ListNode :: fresh(n) && n.val == x && nodes == old(nodes) + [n]
    {
      hide Distinct;
      var node := new ListNode(x);
      node.prev := tail;
      if tail != null { tail.next := node; } else { head := node; }
      tail := node;
      DistinctFront(nodes, node);
      nodes := nodes + [node];
      len := len + 1;
      forall i | 0 <= i < |nodes| ensures Joined(nodes, i) {
        if i < len - 1 {
          assert old(Joined(nodes, i));
          if i < len - 2 { DistinctAt(old(nodes), len - 2, i); }
        }
      }
    }

    /** The loop of ar_list_push. */
    method Push(left: bool, vals: seq<Bytes>)
      requires Valid()
      modifies this, nodes
      ensures Valid() && Contents() == Pushed(old(Contents()), left, vals)
      ensures forall n :: n in nodes ==> n in old(nodes) || fresh(n)
    {
      hide Valid, Vals;
      ghost var start := Contents();
      PushedNone(start, left, vals);
      for i := 0 to |vals|
        invariant Valid() && Contents() == Pushed(start, left, vals[..i])
        invariant forall n :: n in nodes ==> n in old(nodes) || fresh(n)
      {
        PushedNext(start, left, vals, i);
        ghost var prior := nodes;
        assert forall k :: 0 <= k < |nodes| ==> nodes[k] in nodes;
        if left { PushHead(vals[i]); } else { PushTail(vals[i]); }
        PushedVals(prior, if left then nodes[0] else nodes[|prior|], left);
        assert nodes == if left then [nodes[0]] + prior else prior + [nodes[|prior|]];
      }
      assert vals[..|vals|] == vals;
    }

    /** ar_list_pop on a list that is not empty. */
    method Pop(left: bool) returns (x: Bytes)
      requires Valid() && len > 0
      modifies this, nodes
      ensures Valid() && Contents() == Popped(old(Contents()), left) && x == PoppedItem(old(Contents()), left)
      ensures nodes == if left then old(nodes)[1..] else old(nodes)[..|old(nodes)| - 1]
    {
      hide Distinct;
      assert Joined(nodes, 0) && Joined(nodes, len - 1);
      if left {
        x := head.val;
        PopHead();
      } else {
        x := tail.val;
        PopTail();
      }
    }

    method PopHead()
      requires Valid() && len > 0
      modifies this, nodes
      ensures Valid() && nodes == old(nodes)[1..]
    {
      hide Distinct;
      assert Joined(nodes, 0);
      DistinctWithout(nodes, 0);
      assert nodes[..0] + nodes[1..] == nodes[1..];
      head := head.next;
      if head != null { head.prev := null; } else { tail := null; }
      nodes := nodes[1..];
      len := len - 1;
      forall i | 0 <= i < |nodes| ensures Joined(nodes, i) {
        assert old(Joined(nodes, i + 1));
        if i > 0 { DistinctAt(old(nodes), 1, i + 1); }
      }
    }

    method PopTail()
      requires Valid() && len > 0
      modifies this, nodes
      ensures Valid() && nodes == old(nodes)[..|old(nodes)| - 1]
    {
      hide Distinct;
      var n := len - 1;
      assert Joined(nodes, n);
      DistinctWithout(nodes, n);
      assert nodes[..n] + nodes[n + 1..] == nodes[..n];
      tail := tail.prev;
      if tail != null { tail.next := null; } else { head := null; }
      nodes := nodes[..n];
      len := n;
      forall i | 0 <= i < |nodes| ensures Joined(nodes, i) {
        assert old(Joined(nodes, i));
        if i < n - 1 { DistinctAt(old(nodes), n - 1, i); }
      }
    }

    /** Take one node out of the middle. */
    method Unlink(node: ListNode, ghost i: nat)
      requires Valid() && i < |nodes| && nodes[i] == node
      modifies this, nodes
      ensures Valid() && nodes == old(nodes)[..i] + old(nodes)[i + 1..]
      ensures forall n :: n in nodes ==> n in old(nodes)
    {
      hide Distinct;
      assert Joined(nodes, i);
      DistinctWithout(nodes, i);
      if i > 0 { DistinctAt(nodes, i - 1, i); }
      if i + 1 < |nodes| { DistinctAt(nodes, i + 1, i); }
      if node.prev != null { node.prev.next := node.next; } else { head := node.next; }
      if node.next != null { node.next.prev := node.prev; } else { tail := node.prev; }
      len := len - 1;
      nodes := nodes[..i] + nodes[i + 1..];
      forall k | 0 <= k < |nodes| ensures Joined(nodes, k) {
        ghost var was := old(nodes);
        ghost var m := if k < i then k else k + 1;
        assert nodes[k] == was[m];
        assert old(Joined(nodes, m));
        if i > 0 && m != i - 1 { DistinctAt(was, i - 1, m); }
        if i + 1 < |was| && m != i + 1 { DistinctAt(was, i + 1, m); }
      }
    }

    lemma Ends()
      requires Valid()
      ensures head == At(nodes, 0) && tail == At(nodes, |nodes| - 1) && len == |nodes|
    {
    }

    lemma LinksAt(i: nat)
      requires Valid() && i < |nodes|
      ensures nodes[i].prev == At(nodes, i - 1) && nodes[i].next == At(nodes, i + 1)
    {
      assert Joined(nodes, i);
    }

    /** The forward scan of ar_list_lrem. */
    method RemoveForward(x: Bytes, limit: nat) returns (removed: nat)
      requires Valid()
      modifies this, nodes
      ensures Valid() && Contents() == DropFirst(old(Contents()), x, limit)
      ensures removed == |old(Contents())| - |Contents()|
    {
      hide Valid, Vals, Distinct, DropFirst, Left, Joined, Scanned;
      ghost var before, i := nodes, 0;
      removed := 0;
      Ends();
      StartScan(before, x, limit);
      var node := head;
      while node != null
        invariant Valid() && i <= |nodes| && node == At(nodes, i)
        invariant i + removed <= |before| && nodes[i..] == before[i + removed..]
        invariant forall n :: n in nodes ==> n in before
        invariant limit == 0 || removed < limit
        invariant Scanned(nodes[..i], before, i + removed, x, limit, Left(limit, removed))
        decreases |nodes| - i
      {
        ghost var prior := nodes;
        LinksAt(i);
        SameRest(nodes, before, i, i + removed);
        var next := node.next;
        if node.val == x {
          assert forall k :: 0 <= k < |nodes| ==> nodes[k] in nodes;
          Unlink(node, i);
          Spliced(prior, i);
          ScanHit(prior[..i], before, i + removed, x, limit, removed);
          removed := removed + 1;
          if limit > 0 && removed >= limit {
            ValsLength(before);
            ValsLength(nodes);
            return;
          }
        } else {
          ScanMiss(prior[..i], before, i + removed, x, limit, Left(limit, removed));
          assert prior[..i + 1] == prior[..i] + [node];
          i := i + 1;
        }
        node := next;
      }
      Ends();
      Whole(nodes);
      ScanEnd(nodes, before, x, limit, Left(limit, removed));
      ValsLength(before);
      ValsLength(nodes);
    }

    /** The backward scan, for a negative count. */
    method RemoveBackward(x: Bytes, limit: nat) returns (removed: nat)
      requires Valid() && limit > 0
      modifies this, nodes
      ensures Valid() && Contents() == DropLast(old(Contents()), x, limit)
      ensures removed == |old(Contents())| - |Contents()|
    {
      hide Valid, Vals, Distinct, DropLast, Joined, ScannedBack;
      ghost var before, j: nat := nodes, |nodes|;
      removed := 0;
      Ends();
      StartScanBack(before, x, limit);
      var node := tail;
      while node != null
        invariant Valid() && j <= |nodes| && node == At(nodes, j - 1)
        invariant |nodes| + removed == |before| && j <= |before| && nodes[..j] == before[..j]
        invariant forall n :: n in nodes ==> n in before
        invariant removed < limit
        invariant ScannedBack(nodes[j..], before, j, x, limit, limit - removed)
        decreases j
      {
        ghost var prior := nodes;
        LinksAt(j - 1);
        SameFront(nodes, before, j);
        var back := node.prev;
        if node.val == x {
          assert forall k :: 0 <= k < |nodes| ==> nodes[k] in nodes;
          Unlink(node, j - 1);
          Spliced(prior, j - 1);
          ScanBackHit(prior[j..], before, j, x, limit, limit - removed);
          removed := removed + 1;
          if removed >= limit {
            ValsLength(before);
            ValsLength(nodes);
            return;
          }
        } else {
          ScanBackMiss(prior[j..], before, j, x, limit, limit - removed);
          assert prior[j - 1..] == [node] + prior[j..];
        }
        j := j - 1;
        node := back;
      }
      Ends();
      Whole(nodes);
      ScanBackEnd(nodes, before, x, limit, limit - removed);
      ValsLength(before);
      ValsLength(nodes);
    }

    /** The index arithmetic LTRIM and LRANGE start with. */
    method Bounds(start: int, stop: int) returns (a: int, z: int)
      ensures (a, z) == Clamp(len, start, stop)
    {
      a, z := start, stop;
      if a < 0 { a := len + a; }
      if z < 0 { z := len + z; }
      if a < 0 { a := 0; }
      if z >= len { z := len - 1; }
    }

    method DropHeads(n: nat)
      requires Valid() && n <= len
      modifies this, nodes
      ensures Valid() && nodes == old(nodes)[n..]
    {
      hide Valid, Distinct, At, Joined;
      ghost var before := nodes;
      Ends();
      for i := 0 to n
        invariant Valid() && nodes == before[i..]
      {
        Ends();
        assert forall k :: 0 <= k < |nodes| ==> nodes[k] in nodes && nodes[k] in before;
        PopHead();
      }
    }

    method DropTails(keep: nat)
      requires Valid() && keep <= len
      modifies this, nodes
      ensures Valid() && nodes == old(nodes)[..keep]
    {
      hide Valid, Distinct, At, Joined;
      ghost var before := nodes;
      Ends();
      while len > keep
        invariant Valid() && len == |nodes| && keep <= len <= |before| && nodes == before[..len]
        decreases len
      {
        assert forall k :: 0 <= k < |nodes| ==> nodes[k] in nodes && nodes[k] in before;
        PopTail();
        Ends();
      }
    }

    /** ar_list_ltrim: true when nothing is kept and the caller frees the key; then the
        nodes are left as they are. */
    method Trim(start: int, stop: int) returns (gone: bool)
      requires Valid()
      modifies this, nodes
      ensures Valid() && gone == (Slice(old(Contents()), start, stop) == [])
      ensures Contents() == if gone then old(Contents()) else Slice(old(Contents()), start, stop)
    {
      hide Valid, Vals, Distinct, Joined, At, Slice, Clamp;
      ghost var before := nodes;
      Ends();
      ValsLength(before);
      SliceIs(Vals(before), start, stop);
      var a, z := Bounds(start, stop);
      if a > z || a >= len || len == 0 { return true; }
      DropHeads(a);
      Ends();
      assert forall k :: 0 <= k < |nodes| ==> nodes[k] in nodes && nodes[k] in before;
      DropTails(z - a + 1);
      ValsPart(before, a, z + 1);
      assert before[a..][..z - a + 1] == before[a..z + 1];
      return false;
    }

    /** The walk of LRANGE. */
    method Range(start: int, stop: int) returns (items: seq<Bytes>)
      requires Valid()
      ensures items == Slice(Contents(), start, stop)
    {
      hide Valid, Vals, Distinct, Joined, Slice, Clamp;
      items := [];
      Ends();
      ValsLength(nodes);
      SliceIs(Vals(nodes), start, stop);
      var a, z := Bounds(start, stop);
      if len == 0 || a > z || a >= len { return; }
      var node := head;
      for i := 0 to a
        invariant node == At(nodes, i)
      {
        LinksAt(i);
        node := node.next;
      }
      for i := 0 to z - a + 1
        invariant node == At(nodes, a + i) && items == Vals(nodes)[a..a + i]
      {
        LinksAt(a + i);
        ValsItem(nodes, a, a + i);
        items := items + [node.val];
        node := node.next;
      }
    }

    /** ar_list_lrem: how many nodes went, and the list that is left. */
    method Remove(count: int, x: Bytes) returns (removed: nat)
      requires Valid()
      modifies this, nodes
      ensures Valid() && Contents() == Removed(old(Contents()), count, x)
      ensures removed == Hits(old(Contents()), count, x)
    {
      hide Valid, Vals;
      RemovedCounts(Contents(), count, x);
      if count >= 0 {
        removed := RemoveForward(x, count);
      } else {
        removed := RemoveBackward(x, -count);
      }
    }
  }

  // ----- the scans of LREM -----

  function Left(limit: nat, removed: nat): nat {
    if limit == 0 || removed >= limit then 0 else limit - removed
  }

  lemma PushedVals(prior: seq<ListNode>, n: ListNode, left: bool)
    ensures Vals(if left then [n] + prior else prior + [n]) == Pushed(Vals(prior), left, [n.val])
  {
    hide Vals, Reverse;
    ReverseOne(n.val);
    ValsOne(n);
    if left { ValsAppend([n], prior); } else { ValsAppend(prior, [n]); }
  }

  lemma ReverseOne(x: Bytes)
    ensures Reverse([x]) == [x]
  {
    var one: seq<Bytes> := [x];
    assert one[1..] == [];
  }

  lemma PushedNone(s: seq<Bytes>, left: bool, vals: seq<Bytes>)
    ensures Pushed(s, left, vals[..0]) == s
  {
    assert vals[..0] == [];
  }

  lemma PushedNext(s: seq<Bytes>, left: bool, vals: seq<Bytes>, i: nat)
    requires i < |vals|
    ensures Pushed(Pushed(s, left, vals[..i]), left, [vals[i]]) == Pushed(s, left, vals[..i + 1])
  {
    hide Reverse;
    assert vals[..i + 1] == vals[..i] + [vals[i]];
    ReverseAppend(vals[..i], [vals[i]]);
    ReverseOne(vals[i]);
    var r := Reverse(vals[..i]);
    assert [vals[i]] + (r + s) == [vals[i]] + r + s;
    assert s + vals[..i] + [vals[i]] == s + (vals[..i] + [vals[i]]);
  }

  lemma SameRest(nodes: seq<ListNode>, before: seq<ListNode>, i: nat, j: nat)
    requires i < |nodes| && j <= |before| && nodes[i..] == before[j..]
    ensures j < |before| && nodes[i] == before[j] && nodes[i + 1..] == before[j + 1..]
    ensures nodes[..i + 1] == nodes[..i] + [nodes[i]]
  {
    assert nodes[i..][0] == nodes[i] && before[j..][0] == before[j];
    assert nodes[i + 1..] == nodes[i..][1..] && before[j + 1..] == before[j..][1..];
  }

  lemma SameFront(nodes: seq<ListNode>, before: seq<ListNode>, j: nat)
    requires 0 < j <= |nodes| && j <= |before| && nodes[..j] == before[..j]
    ensures nodes[j - 1] == before[j - 1] && nodes[..j - 1] == before[..j - 1]
    ensures nodes[j - 1..] == [nodes[j - 1]] + nodes[j..]
  {
    assert nodes[..j][j - 1] == nodes[j - 1] && before[..j][j - 1] == before[j - 1];
    assert nodes[..j - 1] == nodes[..j][..j - 1] && before[..j - 1] == before[..j][..j - 1];
  }

  lemma Spliced(prior: seq<ListNode>, i: nat)
    requires i < |prior|
    ensures var r := prior[..i] + prior[i + 1..];
      && r[..i] == prior[..i] && r[i..] == prior[i + 1..] && |r| == |prior| - 1
      && At(r, i) == At(prior, i + 1) && At(r, i - 1) == At(prior, i - 1)
  {
  }

  lemma Whole(nodes: seq<ListNode>)
    ensures nodes[..|nodes|] == nodes && nodes[0..] == nodes
  {
  }

  /** `kept` is what the scan has let stand of the first j nodes. */
  ghost predicate Scanned(kept: seq<ListNode>, before: seq<ListNode>, j: nat, x: Bytes, limit: nat, left: nat)
    requires j <= |before|
  {
    DropFirst(Vals(before), x, limit) == Vals(kept) + DropFirst(Vals(before[j..]), x, left)
  }

  lemma StartScan(before: seq<ListNode>, x: Bytes, limit: nat)
    ensures Scanned(before[..0], before, 0, x, limit, Left(limit, 0))
  {
    assert before[0..] == before;
    assert Vals(before[..0]) == [];
  }

  lemma ScanMiss(kept: seq<ListNode>, before: seq<ListNode>, j: nat, x: Bytes, limit: nat, left: nat)
    requires j < |before| && Scanned(kept, before, j, x, limit, left) && before[j].val != x
    ensures Scanned(kept + [before[j]], before, j + 1, x, limit, left)
  {
    var s, t := Vals(before[j..]), Vals(before[j + 1..]);
    assert s[0] == before[j].val && s[1..] == t;
    assert Vals(kept + [before[j]]) == Vals(kept) + [before[j].val];
    var rest := DropFirst(t, x, left);
    assert Vals(kept) + ([before[j].val] + rest) == Vals(kept) + [before[j].val] + rest;
  }

  lemma ScanHit(kept: seq<ListNode>, before: seq<ListNode>, j: nat, x: Bytes, limit: nat, removed: nat)
    requires j < |before| && Scanned(kept, before, j, x, limit, Left(limit, removed)) && before[j].val == x
    requires limit == 0 || removed < limit
    ensures limit == 0 || removed + 1 < limit ==> Scanned(kept, before, j + 1, x, limit, Left(limit, removed + 1))
    ensures limit > 0 && removed + 1 >= limit ==> DropFirst(Vals(before), x, limit) == Vals(kept + before[j + 1..])
  {
    var s, t := Vals(before[j..]), Vals(before[j + 1..]);
    assert s[0] == before[j].val && s[1..] == t;
    ValsAppend(kept, before[j + 1..]);
  }

  lemma ScanEnd(kept: seq<ListNode>, before: seq<ListNode>, x: Bytes, limit: nat, left: nat)
    requires Scanned(kept, before, |before|, x, limit, left)
    ensures DropFirst(Vals(before), x, limit) == Vals(kept)
  {
    assert before[|before|..] == [];
    assert Vals([]) == [] && Vals(kept) + [] == Vals(kept);
  }

  /** The same from the tail: `kept` is what stands of the nodes from j on. */
  ghost predicate ScannedBack(kept: seq<ListNode>, before: seq<ListNode>, j: nat, x: Bytes, limit: nat, left: nat)
    requires j <= |before|
  {
    DropLast(Vals(before), x, limit) == DropLast(Vals(before[..j]), x, left) + Vals(kept)
  }

  lemma StartScanBack(before: seq<ListNode>, x: Bytes, limit: nat)
    ensures ScannedBack(before[|before|..], before, |before|, x, limit, limit)
  {
    assert before[..|before|] == before;
    assert Vals(before[|before|..]) == [];
  }

  lemma LastOf(before: seq<ListNode>, j: nat)
    requires 0 < j <= |before|
    ensures var s := Vals(before[..j]); |s| == j && s[j - 1] == before[j - 1].val && s[..j - 1] == Vals(before[..j - 1])
  {
  }

  lemma ScanBackMiss(kept: seq<ListNode>, before: seq<ListNode>, j: nat, x: Bytes, limit: nat, left: nat)
    requires 0 < j <= |before| && ScannedBack(kept, before, j, x, limit, left) && before[j - 1].val != x
    ensures ScannedBack([before[j - 1]] + kept, before, j - 1, x, limit, left)
  {
    hide Vals;
    LastOf(before, j);
    ValsAppend([before[j - 1]], kept);
    ValsOne(before[j - 1]);
    var d := DropLast(Vals(before[..j - 1]), x, left);
    assert d + [before[j - 1].val] + Vals(kept) == d + ([before[j - 1].val] + Vals(kept));
  }

  lemma ScanBackHit(kept: seq<ListNode>, before: seq<ListNode>, j: nat, x: Bytes, limit: nat, left: nat)
    requires 0 < j <= |before| && ScannedBack(kept, before, j, x, limit, left) && before[j - 1].val == x && left > 0
    ensures left > 1 ==> ScannedBack(kept, before, j - 1, x, limit, left - 1)
    ensures left == 1 ==> DropLast(Vals(before), x, limit) == Vals(before[..j - 1] + kept)
  {
    hide Vals;
    LastOf(before, j);
    ValsAppend(before[..j - 1], kept);
  }

  lemma ScanBackEnd(kept: seq<ListNode>, before: seq<ListNode>, x: Bytes, limit: nat, left: nat)
    requires ScannedBack(kept, before, 0, x, limit, left)
    ensures DropLast(Vals(before), x, limit) == Vals(kept)
  {
    assert Vals(before[..0]) == [] && [] + Vals(kept) == Vals(kept);
  }

  lemma SliceIs(s: seq<Bytes>, start: int, stop: int)
    ensures var (a, z) := Clamp(|s|, start, stop);
      && 0 <= a && z < |s|
      && (if a > z || a >= |s| then Slice(s, start, stop) == []
          else Slice(s, start, stop) == s[a..z + 1] && Slice(s, start, stop) != [])
  {
    var (a, z) := Clamp(|s|, start, stop);
    if !(a > z || a >= |s|) { assert |s[a..z + 1]| > 0; }
  }

  lemma ValsPart(nodes: seq<ListNode>, a: nat, b: nat)
    requires a <= b <= |nodes|
    ensures Vals(nodes[a..b]) == Vals(nodes)[a..b]
  {
  }

  lemma ValsItem(nodes: seq<ListNode>, a: nat, i: nat)
    requires a <= i < |nodes|
    ensures |Vals(nodes)| == |nodes| && Vals(nodes)[a..i + 1] == Vals(nodes)[a..i] + [nodes[i].val]
  {
  }

  lemma ValsOne(n: ListNode)
    ensures Vals([n]) == [n.val]
  {
  }

  lemma ValsLength(nodes: seq<ListNode>)
    ensures |Vals(nodes)| == |nodes|
  {
  }

  lemma ValsAppend(a: seq<ListNode>, b: seq<ListNode>)
    ensures Vals(a + b) == Vals(a) + Vals(b)
  {
  }
}
