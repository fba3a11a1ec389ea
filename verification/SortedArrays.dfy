/** The array behind a ZSET value, changed in place: members found by a scan, nodes moved
    by memmove, room made by doubling. Each operation is the one of module SortedSets
    on the used part of the array. */
module SortedArrays {
  import opened Common
  import opened Chains
  import opened SortedSets
  import Values

  /** memcmp over the common length, then the lengths. */
  method CompareBytes(a: Bytes, b: Bytes) returns (c: int)
    ensures c < 0 <==> BytesLess(a, b)
    ensures c > 0 <==> BytesLess(b, a)
  {
    var i := 0;
    assert a[0..] == a && b[0..] == b;
    while i < |a| && i < |b|
      invariant i <= |a| && i <= |b|
      invariant BytesLess(a, b) == BytesLess(a[i..], b[i..]) && BytesLess(b, a) == BytesLess(b[i..], a[i..])
    {
      assert a[i..][0] == a[i] && a[i..][1..] == a[i + 1..];
      assert b[i..][0] == b[i] && b[i..][1..] == b[i + 1..];
      if a[i] != b[i] { return if a[i] < b[i] then -1 else 1; }
      i := i + 1;
    }
    return if |a| < |b| then -1 else if |a| > |b| then 1 else 0;
  }

  /** zcmp. */
  method Compare(a: Member, b: Member) returns (c: int)
    ensures c < 0 <==> Before(a, b)
  {
    if ScoreLess(a.val, b.val) { return -1; }
    if ScoreLess(b.val, a.val) { return 1; }
    c := CompareBytes(a.key, b.key);
  }

  class SortedArray {
    var arr: array<Member>
    var len: nat

    ghost predicate Valid()
      reads this
    {
      len <= arr.Length
    }

    ghost function Contents(): seq<Member>
      reads this, arr
      requires Valid()
    {
      arr[..len]
    }

    constructor ()
      ensures Valid() && Contents() == [] && arr.Length == 0 && fresh(arr)
    {
      arr, len := new Member[0], 0;
    }

    /** zfind_member. */
    method FindMember(k: Bytes) returns (r: Option<nat>)
      requires Valid()
      ensures match r
        case None => FindC(Contents(), k).None?
        case Some(i) => i < len && arr[i].key == k && FindC(Contents(), k) == Some(arr[i].val)
                        && DropC(Contents(), k) == Contents()[..i] + Contents()[i + 1..]
    {
      var i := 0;
      ghost var c := Contents();
      while i < len
        invariant i <= len && forall j :: 0 <= j < i ==> c[j].key != k
      {
        if arr[i].key == k {
          FoundAt(c, i, k);
          return Some(i);
        }
        i := i + 1;
      }
      NotThere(c, k);
      return None;
    }

    /** memmove of what follows i over it. */
    method Close(i: nat)
      requires Valid() && i < len
      modifies this`len, arr
      ensures Valid() && Contents() == old(Contents())[..i] + old(Contents())[i + 1..]
    {
      forall j | i <= j < len - 1 { arr[j] := arr[j + 1]; }
      len := len - 1;
    }

    /** memmove of what stands from i on, one place up, and x put there. */
    method Open(i: nat, x: Member)
      requires Valid() && i <= len < arr.Length
      modifies this`len, arr
      ensures Valid() && Contents() == old(Contents())[..i] + [x] + old(Contents())[i..]
    {
      forall j | i < j <= len { arr[j] := arr[j - 1]; }
      arr[i] := x;
      len := len + 1;
    }

    /** zensure_cap. */
    method Reserve(need: nat)
      requires Valid()
      modifies this`arr
      ensures Valid() && Contents() == old(Contents())
      ensures arr == old(arr) || fresh(arr)
      ensures arr.Length == Values.Grow(old(arr.Length), need)
    {
      if arr.Length >= need { return; }
      var cap := if arr.Length > 0 then arr.Length * 2 else 8;
      while cap < need
        invariant cap > 0 && Values.Grow(cap, need) == Values.Grow(arr.Length, need)
        decreases need - cap
      {
        cap := cap * 2;
      }
      var bigger := new Member[cap];
      forall j | 0 <= j < len { bigger[j] := arr[j]; }
      assert bigger[..len] == arr[..len];
      arr := bigger;
    }

    /** The scan for the insertion place. */
    method Place(x: Member) returns (pos: nat)
      requires Valid()
      ensures pos <= len && Insert(Contents(), x) == Contents()[..pos] + [x] + Contents()[pos..]
    {
      pos := 0;
      ghost var c := Contents();
      while pos < len
        invariant pos <= len && forall j :: 0 <= j < pos ==> Before(c[j], x)
      {
        var order := Compare(arr[pos], x);
        if order >= 0 { break; }
        pos := pos + 1;
      }
      InsertAt(c, x, pos);
    }

    /** One pair of ZADD: true if its member is new. */
    method AddOne(x: Member) returns (added: bool)
      requires Valid()
      modifies this, arr
      ensures Valid() && (arr == old(arr) || fresh(arr))
      ensures Contents() == Added(old(Contents()), x)
      ensures added == FindC(old(Contents()), x.key).None?
      ensures arr.Length == Values.Grow(old(arr.Length), |Contents()|)
    {
      hide FindC, DropC, Insert, Before;
      ghost var c := Contents();
      var i := FindMember(x.key);
      if i.Some? { Close(i.value); } else { Dropped(c, x.key); }
      added := i.None?;
      Reserve(len + 1);
      var pos := Place(x);
      Open(pos, x);
    }

    /** ZADD: none if the batch could pass the member cap, else the number of new members. */
    method Add(batch: seq<Member>) returns (r: Option<nat>)
      requires Valid() && Unique(Contents())
      modifies this, arr
      ensures Valid() && Contents() == StepArray(old(Contents()), Op.Add(batch))
      ensures r.Some? == Fits(old(Contents()), batch)
      ensures r.Some? ==> r.value == |Contents()| - |old(Contents())|
      ensures arr.Length ==
        if r.Some? then Values.CapAfter(old(Contents()), old(arr.Length), batch) else old(arr.Length)
    {
      hide Unique, FindC, Added;
      ghost var c, cap := Contents(), arr.Length;
      var brandNew := 0;
      for i := 0 to |batch|
        invariant Valid() && Contents() == c && arr == old(arr)
        invariant FreshPairs(c, batch) == brandNew + FreshPairs(c, batch[i..])
        invariant brandNew >= 0
      {
        var at := FindMember(batch[i].key);
        assert batch[i..][0] == batch[i] && batch[i..][1..] == batch[i + 1..];
        if at.None? { brandNew := brandNew + 1; }
      }
      assert batch[|batch|..] == [];
      if brandNew > 0 && len + brandNew > MAX_MEMBERS { return None; }
      var added := 0;
      assert batch[0..] == batch;
      for i := 0 to |batch|
        invariant Valid() && Unique(Contents()) && (arr == old(arr) || fresh(arr)) && added >= 0
        invariant AddedAll(c, batch) == AddedAll(Contents(), batch[i..])
        invariant Values.CapAfter(c, cap, batch) == Values.CapAfter(Contents(), arr.Length, batch[i..])
        invariant added == |Contents()| - |c|
      {
        assert batch[i..][0] == batch[i] && batch[i..][1..] == batch[i + 1..];
        AddedOne(Contents(), batch[i]);
        var isNew := AddOne(batch[i]);
        if isNew { added := added + 1; }
      }
      assert batch[|batch|..] == [];
      return Some(added);
    }

    /** ZREM: the number of members removed. */
    method Remove(members: seq<Bytes>) returns (removed: nat)
      requires Valid()
      modifies this`len, arr
      ensures Valid() && Contents() == StepArray(old(Contents()), Op.Remove(members))
      ensures removed == |old(Contents())| - |Contents()|
    {
      hide FindC, DropC;
      ghost var c := Contents();
      removed := 0;
      assert members[0..] == members;
      for i := 0 to |members|
        invariant Valid() && DroppedAll(c, members) == DroppedAll(Contents(), members[i..])
        invariant removed == |c| - |Contents()|
      {
        assert members[i..][0] == members[i] && members[i..][1..] == members[i + 1..];
        var at := FindMember(members[i]);
        if at.None? {
          Dropped(Contents(), members[i]);
          continue;
        }
        Close(at.value);
        removed := removed + 1;
      }
      assert members[|members|..] == [];
    }
  }

  lemma Dropped(c: seq<Member>, k: Bytes)
    requires FindC(c, k).None?
    ensures DropC(c, k) == c
  {
    DropAbsent(c, k);
  }

  lemma {:induction false} FoundAt(c: seq<Member>, i: nat, k: Bytes)
    requires i < |c| && c[i].key == k && forall j :: 0 <= j < i ==> c[j].key != k
    ensures FindC(c, k) == Some(c[i].val) && DropC(c, k) == c[..i] + c[i + 1..]
    decreases i
  {
    if i == 0 {
      assert c[..0] + c[1..] == c[1..];
    } else {
      FoundAt(c[1..], i - 1, k);
      assert c[1..][..i - 1] == c[1..i] && [c[0]] + c[1..i] == c[..i] && c[1..][i..] == c[i + 1..];
    }
  }

  lemma {:induction false} NotThere(c: seq<Member>, k: Bytes)
    requires forall j :: 0 <= j < |c| ==> c[j].key != k
    ensures FindC(c, k).None?
    decreases |c|
  {
    if |c| == 0 {
    } else {
      NotThere(c[1..], k);
    }
  }

  lemma {:induction false} InsertAt(c: seq<Member>, x: Member, pos: nat)
    requires pos <= |c| && (forall j :: 0 <= j < pos ==> Before(c[j], x)) && (pos < |c| ==> !Before(c[pos], x))
    ensures Insert(c, x) == c[..pos] + [x] + c[pos..]
    decreases pos
  {
    if pos == 0 {
      assert c[0..] == c && c[..0] == [];
    } else {
      InsertAt(c[1..], x, pos - 1);
      assert c[1..][..pos - 1] == c[1..pos] && [c[0]] + c[1..pos] == c[..pos] && c[1..][pos - 1..] == c[pos..];
    }
  }
}
