/** Client connections as far as transactions need them, and the notification of
    watchers. For every connection a ghost `sight` remembers what each watched key
    held when WATCH first named it. */
module Watching {
  import opened Common
  import opened Values
  import opened Reference

  const WATCH_MAX: nat := 64
  const QUEUE_MAX: nat := 128

  datatype Conn = Conn(inUse: bool, watch: seq<Bytes>, dirty: bool, inMulti: bool, queue: seq<Command>)

  const FREE_CONN := Conn(false, [], false, false, [])

  /** Type, payload and deadline of a stored key. */
  datatype Image = Image(data: Data, deadline: nat)
  type Sight = map<Bytes, Option<Image>>

  function ImageIn(db: Db, k: Bytes): Option<Image> {
    if k in db then Some(Image(db[k].data, db[k].deadline)) else None
  }

  /** As long as the connection is not dirty, every key it watches is as it was
      first seen, keys in `pending` excepted. */
  ghost predicate Undisturbed(c: Conn, sight: Sight, db: Db, pending: set<Bytes>) {
    c.inUse && !c.dirty ==>
      forall k :: k in c.watch && k !in pending ==> k in sight && sight[k] == ImageIn(db, k)
  }

  ghost predicate Sighted(conns: seq<Conn>, seen: seq<Sight>, db: Db, pending: set<Bytes>) {
    && |seen| == |conns|
    && forall i :: 0 <= i < |conns| ==> Undisturbed(conns[i], seen[i], db, pending)
  }

  /** Why a connection became dirty: it watches a key that was named by a write, or that
      is gone. And no key is new that was not named. */
  ghost predicate Warns(a: seq<Conn>, b: seq<Conn>, before: Db, after: Db, named: iset<Bytes>) {
    && |a| == |b|
    && (forall k :: k in after ==> k in before || k in named)
    && forall i :: 0 <= i < |a| && b[i].dirty && !a[i].dirty ==> Cause(a[i].watch, before, after, named)
  }

  ghost predicate Cause(watch: seq<Bytes>, before: Db, after: Db, named: iset<Bytes>) {
    exists k :: k in watch && (k in named || (k in before && k !in after))
  }

  lemma WarnsSelf(a: seq<Conn>, db: Db, named: iset<Bytes>)
    ensures Warns(a, a, db, db, named)
  {
  }

  lemma WarnsOn(a: seq<Conn>, b: seq<Conn>, c: seq<Conn>, da: Db, db: Db, dc: Db, m: iset<Bytes>, n: iset<Bytes>,
                named: iset<Bytes>)
    requires Warns(a, b, da, db, m) && Warns(b, c, db, dc, n) && SameClients(a, b) && m <= named && n <= named
    ensures Warns(a, c, da, dc, named)
  {
    forall i | 0 <= i < |a| && c[i].dirty && !a[i].dirty ensures Cause(a[i].watch, da, dc, named) {
      if b[i].dirty {
        var k :| k in a[i].watch && (k in m || (k in da && k !in db));
        assert k in named || (k in da && k !in dc);
      } else {
        assert Cause(b[i].watch, db, dc, n);
        var k :| k in b[i].watch && (k in n || (k in db && k !in dc));
        assert k in named || (k in da && k !in dc);
      }
    }
  }

  lemma WarnsWiden(a: seq<Conn>, b: seq<Conn>, da: Db, db: Db, m: iset<Bytes>, n: iset<Bytes>)
    requires Warns(a, b, da, db, m) && m <= n
    ensures Warns(a, b, da, db, n)
  {
    WarnsSelf(a, da, n);
    forall i | 0 <= i < |a| && b[i].dirty && !a[i].dirty ensures Cause(a[i].watch, da, db, n) {
      var k :| k in a[i].watch && (k in m || (k in da && k !in db));
      assert k in n || (k in da && k !in db);
    }
  }

  /** The moment a request began, and the keys its writes have named so far. */
  datatype Since = Since(conns: seq<Conn>, db: Db, named: iset<Bytes>)

  /** No connection has changed what it watches. */
  ghost predicate SameWatches(a: seq<Conn>, b: seq<Conn>) {
    |a| == |b| && forall i :: 0 <= i < |a| ==> a[i].watch == b[i].watch
  }

  ghost predicate Explained(conns: seq<Conn>, since: Since, db: Db) {
    SameWatches(since.conns, conns) && Warns(since.conns, conns, since.db, db, since.named)
  }

  ghost predicate WatchOk(conns: seq<Conn>, seen: seq<Sight>, since: Since, db: Db, pending: set<Bytes>) {
    Sighted(conns, seen, db, pending) && Explained(conns, since, db)
  }

  function Naming(since: Since, k: Bytes): Since {
    since.(named := since.named + iset{k})
  }

  /** Nothing but dirty flags changed, and those only from clear to set. */
  ghost predicate SameClients(a: seq<Conn>, b: seq<Conn>) {
    |a| == |b| && forall i :: 0 <= i < |a| ==> b[i] == a[i] || b[i] == a[i].(dirty := true)
  }

  lemma SameClientsTwice(a: seq<Conn>, b: seq<Conn>, c: seq<Conn>)
    requires SameClients(a, b) && SameClients(b, c)
    ensures SameClients(a, c)
  {
  }

  function Touched(c: Conn, k: Bytes): Conn {
    if c.inUse && !c.dirty && k in c.watch then c.(dirty := true) else c
  }

  /** ar_watch_touch: mark every connection that watches the key. */
  method WatchTouch(conns: seq<Conn>, k: Bytes) returns (r: seq<Conn>)
    ensures |r| == |conns| && forall i :: 0 <= i < |r| ==> r[i] == Touched(conns[i], k)
  {
    r := conns;
    for i := 0 to |conns|
      invariant |r| == |conns|
      invariant forall j :: 0 <= j < i ==> r[j] == Touched(conns[j], k)
      invariant forall j :: i <= j < |r| ==> r[j] == conns[j]
    {
      var c := conns[i];
      if c.inUse && |c.watch| > 0 && !c.dirty {
        for w := 0 to |c.watch|
          invariant k !in c.watch[..w]
          invariant r == r[i := c]
        {
          if c.watch[w] == k {
            r := r[i := c.(dirty := true)];
            break;
          }
        }
      }
    }
  }

  /** ar_watch_touch_all. */
  method WatchTouchAll(conns: seq<Conn>) returns (r: seq<Conn>)
    ensures |r| == |conns|
    ensures forall i :: 0 <= i < |r| ==>
      r[i] == if conns[i].inUse && |conns[i].watch| > 0 then conns[i].(dirty := true) else conns[i]
  {
    r := conns;
    for i := 0 to |conns|
      invariant |r| == |conns|
      invariant forall j :: 0 <= j < i ==>
        r[j] == if conns[j].inUse && |conns[j].watch| > 0 then conns[j].(dirty := true) else conns[j]
      invariant forall j :: i <= j < |r| ==> r[j] == conns[j]
    {
      if conns[i].inUse && |conns[i].watch| > 0 { r := r[i := conns[i].(dirty := true)]; }
    }
  }

  ghost predicate AllTouchedBy(conns: seq<Conn>, r: seq<Conn>, k: Bytes) {
    |r| == |conns| && forall i :: 0 <= i < |r| ==> r[i] == Touched(conns[i], k)
  }

  lemma TouchSettles(conns: seq<Conn>, r: seq<Conn>, seen: seq<Sight>, since: Since, db: Db, pending: set<Bytes>,
                     k: Bytes)
    requires WatchOk(conns, seen, since, db, pending) && AllTouchedBy(conns, r, k)
    ensures WatchOk(r, seen, Naming(since, k), db, pending - {k}) && SameClients(conns, r)
  {
    hide Explained;
    forall i | 0 <= i < |r| ensures Undisturbed(r[i], seen[i], db, pending - {k}) {
      assert Undisturbed(conns[i], seen[i], db, pending);
    }
    TouchExplained(conns, r, since, db, k);
  }

  lemma TouchExplained(conns: seq<Conn>, r: seq<Conn>, since: Since, db: Db, k: Bytes)
    requires Explained(conns, since, db) && AllTouchedBy(conns, r, k)
    ensures Explained(r, Naming(since, k), db)
  {
    var s := Naming(since, k);
    forall i | 0 <= i < |r| && r[i].dirty && !s.conns[i].dirty ensures Cause(s.conns[i].watch, s.db, db, s.named) {
      if conns[i].dirty {
        var q :| q in since.conns[i].watch && (q in since.named || (q in since.db && q !in db));
        assert q in s.named || (q in s.db && q !in db);
      } else {
        assert k in s.named;
      }
    }
  }

  /** A freed key: its watchers are dirty. */
  lemma FreedSettles(conns: seq<Conn>, r: seq<Conn>, seen: seq<Sight>, since: Since, db: Db, pending: set<Bytes>,
                     k: Bytes)
    requires WatchOk(conns, seen, since, db, pending) && AllTouchedBy(conns, r, k) && k in db
    ensures WatchOk(r, seen, since, db - {k}, pending - {k}) && SameClients(conns, r)
  {
    hide Explained;
    forall i | 0 <= i < |r| ensures Undisturbed(r[i], seen[i], db - {k}, pending - {k}) {
      assert Undisturbed(conns[i], seen[i], db, pending);
    }
    FreedExplained(conns, r, since, db, k);
  }

  lemma FreedExplained(conns: seq<Conn>, r: seq<Conn>, since: Since, db: Db, k: Bytes)
    requires Explained(conns, since, db) && AllTouchedBy(conns, r, k) && k in db
    ensures Explained(r, since, db - {k})
  {
    forall i | 0 <= i < |r| && r[i].dirty && !since.conns[i].dirty
      ensures Cause(since.conns[i].watch, since.db, db - {k}, since.named)
    {
      if conns[i].dirty {
        var q :| q in since.conns[i].watch && (q in since.named || (q in since.db && q !in db));
        assert q in since.named || (q in since.db && q !in db - {k});
      } else {
        assert k in since.named || (k in since.db && k !in db - {k});
      }
    }
  }

  lemma WriteWithin(conns: seq<Conn>, seen: seq<Sight>, since: Since, db: Db, pending: set<Bytes>, k: Bytes, r: Rec)
    requires WatchOk(conns, seen, since, db, pending)
    ensures k in db ==> WatchOk(conns, seen, since, db[k := r], pending + {k})
    ensures WatchOk(conns, seen, Naming(since, k), db[k := r], pending + {k})
    ensures ImageIn(db, k) == Some(Image(r.data, r.deadline)) ==> WatchOk(conns, seen, since, db[k := r], pending)
  {
    hide Explained;
    forall i | 0 <= i < |conns| ensures Undisturbed(conns[i], seen[i], db[k := r], pending + {k}) {
      assert Undisturbed(conns[i], seen[i], db, pending);
    }
    if ImageIn(db, k) == Some(Image(r.data, r.deadline)) {
      forall i | 0 <= i < |conns| ensures Undisturbed(conns[i], seen[i], db[k := r], pending) {
        assert Undisturbed(conns[i], seen[i], db, pending);
      }
    }
    if k in db { WriteExplained(conns, since, since, db, k, r); }
    WriteExplained(conns, since, Naming(since, k), db, k, r);
  }

  lemma WriteExplained(conns: seq<Conn>, since: Since, s: Since, db: Db, k: Bytes, r: Rec)
    requires Explained(conns, since, db) && (s == Naming(since, k) || (s == since && k in db))
    ensures Explained(conns, s, db[k := r])
  {
    forall i | 0 <= i < |conns| && conns[i].dirty && !s.conns[i].dirty
      ensures Cause(s.conns[i].watch, s.db, db[k := r], s.named)
    {
      var q :| q in since.conns[i].watch && (q in since.named || (q in since.db && q !in db));
      assert q in s.named || (q in s.db && q !in db[k := r]);
    }
  }

  lemma DropWithin(conns: seq<Conn>, seen: seq<Sight>, since: Since, db: Db, pending: set<Bytes>, k: Bytes)
    requires WatchOk(conns, seen, since, db, pending)
    ensures WatchOk(conns, seen, since, db - {k}, pending + {k})
  {
    forall i | 0 <= i < |conns| ensures Undisturbed(conns[i], seen[i], db - {k}, pending + {k}) {
      assert Undisturbed(conns[i], seen[i], db, pending);
    }
    forall i | 0 <= i < |conns| && conns[i].dirty && !since.conns[i].dirty
      ensures Cause(since.conns[i].watch, since.db, db - {k}, since.named)
    {
      var q :| q in since.conns[i].watch && (q in since.named || (q in since.db && q !in db));
      assert q in since.named || (q in since.db && q !in db - {k});
    }
  }

  /** After touching everyone, nothing is left to promise. */
  lemma AllTouched(conns: seq<Conn>, r: seq<Conn>, seen: seq<Sight>, since: Since, db: Db)
    requires |seen| == |conns| == |r| && since.conns == conns
    requires forall i :: 0 <= i < |r| ==>
      r[i] == if conns[i].inUse && |conns[i].watch| > 0 then conns[i].(dirty := true) else conns[i]
    ensures WatchOk(r, seen, since.(named := EVERY), db, {}) && SameClients(conns, r)
  {
    forall i | 0 <= i < |r| ensures Undisturbed(r[i], seen[i], db, {}) {
    }
    forall i | 0 <= i < |r| && r[i].dirty && !since.conns[i].dirty ensures Cause(r[i].watch, since.db, db, EVERY) {
      if !conns[i].dirty { assert conns[i].watch[0] in conns[i].watch && conns[i].watch[0] in EVERY; }
    }
  }

  lemma WatchWiden(conns: seq<Conn>, seen: seq<Sight>, since: Since, db: Db, p: set<Bytes>, q: set<Bytes>)
    requires WatchOk(conns, seen, since, db, p) && p <= q
    ensures WatchOk(conns, seen, since, db, q)
  {
    hide Explained;
    forall i | 0 <= i < |conns| ensures Undisturbed(conns[i], seen[i], db, q) {
      assert Undisturbed(conns[i], seen[i], db, p);
    }
  }

  /** A key that was written and is back to what it was needs no notification. */
  lemma Reverted(before: seq<Conn>, conns: seq<Conn>, seen: seq<Sight>, s: Since, since: Since, a: Db, b: Db, k: Bytes)
    requires WatchOk(before, seen, s, a, {}) && SameClients(before, conns)
    requires WatchOk(conns, seen, since, b, {k}) && ImageIn(a, k) == ImageIn(b, k)
    ensures WatchOk(conns, seen, since, b, {})
  {
    hide Explained;
    forall i | 0 <= i < |conns| ensures Undisturbed(conns[i], seen[i], b, {}) {
      assert Undisturbed(conns[i], seen[i], b, {k}) && Undisturbed(before[i], seen[i], a, {});
    }
  }

  /** A request begins. */
  lemma BeginOk(conns: seq<Conn>, seen: seq<Sight>, db: Db, pending: set<Bytes>)
    requires Sighted(conns, seen, db, pending)
    ensures WatchOk(conns, seen, Since(conns, db, iset{}), db, pending) && |seen| == |conns|
  {
  }

  /** What a request that began at `since` has done to the clients. */
  lemma Told(conns: seq<Conn>, seen: seq<Sight>, since: Since, db: Db, pending: set<Bytes>, named: iset<Bytes>)
    requires WatchOk(conns, seen, since, db, pending) && since.named <= named
    ensures Warns(since.conns, conns, since.db, db, named)
  {
    WarnsWiden(since.conns, conns, since.db, db, since.named, named);
  }
}
