/** HSCAN: a cursor over the buckets of one hash value. */
module HashScan {
  import opened Common
  import opened Chains
  import opened Values
  import opened Keyspace
  import Positions
  import Glob

  type Pair = (Bytes, Bytes)

  ghost predicate OncePerField(elems: seq<Pair>) {
    forall i, j :: 0 <= i < j < |elems| ==> elems[i].0 != elems[j].0
  }

  /** Which pairs a range of buckets has to yield. */
  ghost predicate Belongs(p: Pair, t: Table<Bytes>, pattern: Bytes, from: nat, end: nat)
    requires |t| > 0
  {
    Find(t, p.0) == Some(p.1) && from <= Slot(p.0, |t|) < end && Selected(pattern, p.0)
  }

  /** The pairs are exactly the selected fields, with their values, whose bucket lies
      in the range, no field twice. */
  ghost predicate Listed(elems: seq<Pair>, t: Table<Bytes>, pattern: Bytes, from: nat, end: nat)
    requires |t| > 0
  {
    OncePerField(elems) && forall p: Pair :: p in elems <==> Belongs(p, t, pattern, from, end)
  }

  ghost predicate HasField(elems: seq<Pair>, f: Bytes) {
    exists v: Bytes :: (f, v) in elems
  }

  lemma ListedJoin(a: seq<Pair>, b: seq<Pair>, t: Table<Bytes>, pattern: Bytes, from: nat, mid: nat, end: nat)
    requires |t| > 0 && from <= mid <= end
    requires Listed(a, t, pattern, from, mid) && Listed(b, t, pattern, mid, end)
    ensures Listed(a + b, t, pattern, from, end)
  {
    hide Selected, Find;
    var c := a + b;
    forall i, j | 0 <= i < j < |c| ensures c[i].0 != c[j].0 {
      if i < |a| <= j {
        assert a[i] in a && b[j - |a|] in b;
        assert Belongs(a[i], t, pattern, from, mid) && Belongs(b[j - |a|], t, pattern, mid, end);
      }
    }
    forall p: Pair ensures p in c <==> Belongs(p, t, pattern, from, end) {
      assert p in c <==> p in a || p in b;
    }
  }

  function Matching(c: Chain<Bytes>, pattern: Bytes): seq<Pair> {
    if |c| == 0 then []
    else (if Selected(pattern, c[0].key) then [(c[0].key, c[0].val)] else []) + Matching(c[1..], pattern)
  }

  lemma {:induction false} MatchingIs(c: Chain<Bytes>, b: nat, n: nat, pattern: Bytes)
    requires n > 0 && ChainOk(c, b, n)
    ensures OncePerField(Matching(c, pattern))
    ensures forall p: Pair :: p in Matching(c, pattern) <==> FindC(c, p.0) == Some(p.1) && Selected(pattern, p.0)
    decreases |c|
  {
    hide Selected, Slot;
    if |c| == 0 {
    } else {
      MatchingIs(c[1..], b, n, pattern);
      var rest := Matching(c[1..], pattern);
      forall j | 0 <= j < |rest| ensures rest[j].0 != c[0].key { assert rest[j] in rest; }
    }
  }

  lemma MatchingListed(t: Table<Bytes>, b: nat, pattern: Bytes)
    requires Placed(t) && b < |t|
    ensures Listed(Matching(t[b], pattern), t, pattern, b, b + 1)
  {
    hide Glob.Matches, FindC, Hash;
    MatchingIs(t[b], b, |t|, pattern);
    forall p: Pair ensures p in Matching(t[b], pattern) <==> Belongs(p, t, pattern, b, b + 1) {
      if FindC(t[b], p.0).Some? { FindAtSlot(t[b], b, |t|, p.0); }
    }
  }

  lemma MatchingNext(c: Chain<Bytes>, j: nat, pattern: Bytes, elems: seq<Pair>)
    requires j < |c|
    ensures var more := if Selected(pattern, c[j].key) then elems + [(c[j].key, c[j].val)] else elems;
      more + Matching(c[j + 1..], pattern) == elems + Matching(c[j..], pattern)
  {
    hide Selected;
    assert c[j..][0] == c[j] && c[j..][1..] == c[j + 1..];
    var rest := Matching(c[j + 1..], pattern);
    assert elems + [(c[j].key, c[j].val)] + rest == elems + ([(c[j].key, c[j].val)] + rest);
    assert elems + ([] + rest) == elems + rest;
  }

  lemma MatchingEnds(c: Chain<Bytes>, pattern: Bytes, elems: seq<Pair>)
    ensures elems + Matching(c[|c|..], pattern) == elems
  {
  }

  lemma SelectedIs(pattern: Bytes, k: Bytes)
    ensures Selected(pattern, k) <==> |pattern| == 0 || Glob.Matches(pattern, k)
  {
  }

  /** One bucket's matching fields. */
  method WalkFields(t: Table<Bytes>, b: nat, pattern: Bytes) returns (elems: seq<Pair>)
    requires Placed(t) && b < |t|
    ensures Listed(elems, t, pattern, b, b + 1)
  {
    hide Glob.Matches, FindC, Hash, Listed, Matching, Selected;
    var c := t[b];
    elems := [];
    assert c[0..] == c && [] + Matching(c, pattern) == Matching(c, pattern);
    for j := 0 to |c|
      invariant elems + Matching(c[j..], pattern) == Matching(c, pattern)
    {
      MatchingNext(c, j, pattern, elems);
      var hit := true;
      if |pattern| > 0 { hit := Glob.GlobMatch(pattern, c[j].key); }
      assert hit == Selected(pattern, c[j].key) by { SelectedIs(pattern, c[j].key); }
      if hit { elems := elems + [(c[j].key, c[j].val)]; }
    }
    MatchingEnds(c, pattern, elems);
    MatchingListed(t, b, pattern);
  }

  /** ar_hscan on an existing hash. */
  method HScan(t: Table<Bytes>, nfields: nat, cursor: nat, pattern: Bytes, count: int)
    returns (elems: seq<Pair>, next: nat)
    requires Placed(t) && nfields == |MapOf(t)|
    ensures next == 0 || cursor < next < |t|
    ensures Listed(elems, t, pattern, cursor, if next != 0 then next else Max(cursor, |t|))
    ensures var end := cursor + if count < 1 then 10 else if count > 10_000 then 10_000 else count;
      next == if nfields == 0 || end >= |t| then 0 else end
  {
    hide Selected, ChainOk, Listed, MapOf;
    NoRange(t, pattern, cursor);
    if nfields == 0 {
      NoFields(t, pattern, cursor, Max(cursor, |t|));
      return [], 0;
    }
    if cursor >= |t| { return [], 0; }
    var slots := if count <= 0 then 10 else Min(count, 10_000);
    elems := [];
    var idx := cursor;
    while idx - cursor < slots && idx < |t|
      invariant cursor <= idx <= |t| && idx - cursor <= slots && Listed(elems, t, pattern, cursor, idx)
      decreases |t| - idx
    {
      var page := WalkFields(t, idx, pattern);
      ListedJoin(elems, page, t, pattern, cursor, idx, idx + 1);
      elems, idx := elems + page, idx + 1;
    }
    next := if idx >= |t| then 0 else idx;
  }

  lemma NoRange(t: Table<Bytes>, pattern: Bytes, from: nat)
    requires |t| > 0
    ensures Listed([], t, pattern, from, from)
  {
  }

  lemma NoFields(t: Table<Bytes>, pattern: Bytes, from: nat, end: nat)
    requires |t| > 0 && |MapOf(t)| == 0
    ensures Listed([], t, pattern, from, end)
  {
    MapOfFind(t);
    forall f ensures Find(t, f).None? { assert f !in MapOf(t); }
  }

  // ----- a walk over a hash in use -----

  /** What happens to the hash while a client walks it, its own pages among it. */
  datatype Event = SetOne(field: Bytes, val: Bytes) | DropOne(field: Bytes) | Page(count: int)

  /** The field table at one moment of the walk, and the cursor the client holds. */
  datatype View = View(fields: Table<Bytes>, nfields: nat, cursor: nat)

  ghost predicate Stepped(a: View, e: Event, b: View, elems: seq<Pair>, pattern: Bytes) {
    Placed(a.fields) && Placed(b.fields) &&
    match e
    case SetOne(f, x) =>
      && elems == [] && b.cursor == a.cursor && MapOf(b.fields) == MapOf(a.fields)[f := x]
      && (|b.fields| == |a.fields| || |b.fields| == 2 * |a.fields|)
    case DropOne(f) =>
      && elems == [] && b.cursor == a.cursor && MapOf(b.fields) == MapOf(a.fields) - {f}
      && |b.fields| == |a.fields|
    case Page(_) =>
      && b.fields == a.fields && (b.cursor == 0 || a.cursor < b.cursor < |a.fields|)
      && Listed(elems, a.fields, pattern, a.cursor,
                if b.cursor != 0 then b.cursor else Max(a.cursor, |a.fields|))
  }

  lemma PageHas(elems: seq<Pair>, t: Table<Bytes>, pattern: Bytes, from: nat, end: nat, f: Bytes)
    requires |t| > 0 && Listed(elems, t, pattern, from, end) && f in MapOf(t) && Selected(pattern, f)
    requires from <= Slot(f, |t|) < end
    ensures HasField(elems, f)
  {
    MapOfFind(t);
    assert Belongs((f, Find(t, f).value), t, pattern, from, end);
  }

  /** A pending field is returned by an event, or is pending after it. */
  lemma StillPending(a: View, e: Event, b: View, elems: seq<Pair>, pattern: Bytes, f: Bytes)
    requires Stepped(a, e, b, elems, pattern) && f in MapOf(a.fields) && Selected(pattern, f)
    requires |a.fields| > 0 && |b.fields| > 0 && a.cursor <= Slot(f, |a.fields|)
    ensures HasField(elems, f) || (b.cursor <= Slot(f, |b.fields|) && (e.Page? ==> b.cursor != 0))
  {
    hide Placed, MapOf, Listed, Selected, HasField;
    if e.Page? {
      var end := if b.cursor != 0 then b.cursor else Max(a.cursor, |a.fields|);
      if Slot(f, |a.fields|) < end { PageHas(elems, a.fields, pattern, a.cursor, end, f); }
    } else {
      Positions.DoubledSlot(f, |a.fields|);
    }
  }

  /** One event run on the field table. */
  method Happen(v: View, e: Event, pattern: Bytes) returns (r: View, elems: seq<Pair>)
    requires Placed(v.fields) && v.nfields == |MapOf(v.fields)|
    ensures Placed(r.fields) && r.nfields == |MapOf(r.fields)| && Stepped(v, e, r, elems, pattern)
  {
    hide Placed, MapOf, Listed;
    elems := [];
    match e
    case SetOne(f, x) =>
      var t, n := SetField(v.fields, v.nfields, f, x);
      r := View(t, n, v.cursor);
    case DropOne(f) =>
      var t, n := DropField(v.fields, v.nfields, f);
      r := View(t, n, v.cursor);
    case Page(count) =>
      var next;
      elems, next := HScan(v.fields, v.nfields, v.cursor, pattern, count);
      r := v.(cursor := next);
  }

  /** The field is in the hash at every one of the moments. */
  ghost predicate Stays(trace: seq<View>, f: Bytes) {
    forall t :: 0 <= t < |trace| ==> f in MapOf(trace[t].fields)
  }

  /** HSCAN never misses: a walk from cursor 0 back to cursor 0, with fields set and
      deleted between its pages and the table doubling as it has to, returns every
      selected field that is in the hash throughout. */
  method HScanAmid(t: Table<Bytes>, nfields: nat, pattern: Bytes, events: seq<Event>)
    returns (elems: seq<Pair>, done: bool, trace: seq<View>, pages: seq<seq<Pair>>)
    requires Placed(t) && nfields == |MapOf(t)|
    ensures 0 < |trace| <= |events| + 1 && |pages| == |trace| - 1 && trace[0] == View(t, nfields, 0)
    ensures forall i :: 0 <= i < |pages| ==> Stepped(trace[i], events[i], trace[i + 1], pages[i], pattern)
    ensures forall p :: p in elems <==> exists i :: 0 <= i < |pages| && p in pages[i]
    ensures done <==> |pages| > 0 && events[|pages| - 1].Page? && trace[|pages|].cursor == 0
    ensures !done ==> |pages| == |events|
    ensures done ==> forall f :: Stays(trace, f) && Selected(pattern, f) ==> HasField(elems, f)
  {
    hide Placed, MapOf, Selected, Stepped, HasField;
    var v := View(t, nfields, 0);
    elems, done, trace, pages := [], false, [v], [];
    SomeBuckets(t);
    for i := 0 to |events|
      invariant Placed(v.fields) && v.nfields == |MapOf(v.fields)| && |v.fields| > 0 && !done
      invariant |trace| == i + 1 && |pages| == i && trace[0] == View(t, nfields, 0) && trace[i] == v
      invariant forall j :: 0 <= j < i ==> Stepped(trace[j], events[j], trace[j + 1], pages[j], pattern)
      invariant forall p :: p in elems <==> exists j :: 0 <= j < i && p in pages[j]
      invariant i > 0 && events[i - 1].Page? ==> v.cursor != 0
      invariant forall f :: Stays(trace, f) && Selected(pattern, f) ==>
        HasField(elems, f) || v.cursor <= Slot(f, |v.fields|)
    {
      ghost var a, was, traceBefore, pagesBefore := v, elems, trace, pages;
      var page;
      v, page := Happen(v, events[i], pattern);
      SomeBuckets(v.fields);
      elems, trace, pages := elems + page, trace + [v], pages + [page];
      MorePages(was, pagesBefore, page);
      forall f | Stays(trace, f) && Selected(pattern, f)
        ensures HasField(elems, f) || (v.cursor <= Slot(f, |v.fields|) && (events[i].Page? ==> v.cursor != 0))
      {
        StaysBefore(traceBefore, v, f);
        if !HasField(was, f) { StillPending(a, events[i], v, page, pattern, f); }
        HasMore(was, page, f);
      }
      if events[i].Page? && v.cursor == 0 {
        done := true;
        return;
      }
    }
  }

  lemma SomeBuckets(t: Table<Bytes>)
    requires Placed(t)
    ensures |t| > 0
  {
  }

  lemma StaysBefore(trace: seq<View>, v: View, f: Bytes)
    requires |trace| > 0 && Stays(trace + [v], f)
    ensures Stays(trace, f) && f in MapOf(trace[|trace| - 1].fields)
  {
    hide MapOf;
    var more := trace + [v];
    forall t | 0 <= t < |trace| ensures f in MapOf(trace[t].fields) { assert more[t] == trace[t]; }
  }

  lemma HasMore(elems: seq<Pair>, page: seq<Pair>, f: Bytes)
    ensures HasField(elems, f) || HasField(page, f) ==> HasField(elems + page, f)
  {
    if HasField(elems, f) {
      var i :| 0 <= i < |elems| && elems[i].0 == f;
      assert (elems + page)[i].0 == f;
    }
    if HasField(page, f) {
      var i :| 0 <= i < |page| && page[i].0 == f;
      assert (elems + page)[|elems| + i].0 == f;
    }
  }
}
