/** ZSET values: an array of (member, score) kept in order by linear insertion.
    A score is the 64-bit pattern of an IEEE double, ordered as C orders doubles,
    so the NaN patterns are there too. */
module SortedSets {
  import opened Common
  import opened Chains

  const MAX_MEMBERS: nat := 4096

  type Score = x: int | 0 <= x < 0x1_0000_0000_0000_0000
  type Member = Node<Score>

  const SIGN: int := 0x8000_0000_0000_0000
  const INFINITY: Score := 0x7FF0_0000_0000_0000

  predicate IsNaN(s: Score) {
    (if s < SIGN then s else s - SIGN) > INFINITY
  }

  /** Sign and magnitude as an integer; both zeros map to 0. */
  function Rank(s: Score): int {
    if s < SIGN then s else SIGN - s
  }

  /** C's `a < b` on doubles: false whenever a NaN is involved. */
  predicate ScoreLess(a: Score, b: Score) {
    !IsNaN(a) && !IsNaN(b) && Rank(a) < Rank(b)
  }

  /** memcmp over the common length, then the shorter string first. */
  predicate BytesLess(a: Bytes, b: Bytes) {
    |b| > 0 && (|a| == 0 || a[0] < b[0] || (a[0] == b[0] && BytesLess(a[1..], b[1..])))
  }

  /** zcmp(a, b) < 0. */
  predicate Before(a: Member, b: Member) {
    ScoreLess(a.val, b.val) || (!ScoreLess(b.val, a.val) && BytesLess(a.key, b.key))
  }

  // ----- the array as a sequence -----

  predicate Unique(c: seq<Member>) {
    ChainOk(c, 0, 1)
  }

  predicate Numbers(c: seq<Member>) {
    forall i :: 0 <= i < |c| ==> !IsNaN(c[i].val)
  }

  /** Strictly ascending by (score, member). */
  predicate Sorted(c: seq<Member>) {
    forall i, j :: 0 <= i < j < |c| ==> Before(c[i], c[j])
  }

  ghost function Scores(c: seq<Member>): map<Bytes, Score> {
    MapOf([c])
  }

  function Insert(c: seq<Member>, x: Member): seq<Member> {
    if |c| == 0 || !Before(c[0], x) then [x] + c else [c[0]] + Insert(c[1..], x)
  }

  /** ZADD of one pair: drop the old node, insert at the first place not before it. */
  function Added(c: seq<Member>, x: Member): seq<Member> {
    Insert(DropC(c, x.key), x)
  }

  function AddedAll(c: seq<Member>, batch: seq<Member>): seq<Member>
    decreases |batch|
  {
    if |batch| == 0 then c else AddedAll(Added(c, batch[0]), batch[1..])
  }

  function DroppedAll(c: seq<Member>, members: seq<Bytes>): seq<Member>
    decreases |members|
  {
    if |members| == 0 then c else DroppedAll(DropC(c, members[0]), members[1..])
  }

  /** The count ZADD makes before it starts: pairs whose member is not there yet,
      a member given twice counting twice. */
  function FreshPairs(c: seq<Member>, batch: seq<Member>): nat {
    if |batch| == 0 then 0
    else (if FindC(c, batch[0].key).None? then 1 else 0) + FreshPairs(c, batch[1..])
  }

  predicate Fits(c: seq<Member>, batch: seq<Member>) {
    FreshPairs(c, batch) == 0 || |c| + FreshPairs(c, batch) <= MAX_MEMBERS
  }

  datatype Op = Add(batch: seq<Member>) | Remove(members: seq<Bytes>)

  function StepArray(c: seq<Member>, op: Op): seq<Member> {
    match op
    case Add(batch) => if Fits(c, batch) then AddedAll(c, batch) else c
    case Remove(members) => DroppedAll(c, members)
  }

  function Run(c: seq<Member>, ops: seq<Op>): seq<Member>
    decreases |ops|
  {
    if |ops| == 0 then c else Run(StepArray(c, ops[0]), ops[1..])
  }

  // ----- the map a run of commands describes -----

  function PutAll(m: map<Bytes, Score>, batch: seq<Member>): map<Bytes, Score>
    decreases |batch|
  {
    if |batch| == 0 then m else PutAll(m[batch[0].key := batch[0].val], batch[1..])
  }

  function RemoveAll(m: map<Bytes, Score>, members: seq<Bytes>): map<Bytes, Score> {
    if |members| == 0 then m else RemoveAll(m - {members[0]}, members[1..])
  }

  // ----- the order -----

  lemma {:induction false} BytesTotal(a: Bytes, b: Bytes)
    ensures BytesLess(a, b) || BytesLess(b, a) || a == b
    ensures !(BytesLess(a, b) && BytesLess(b, a))
    ensures !BytesLess(a, a)
    decreases |a|
  {
    if |a| == 0 {
    } else {
      BytesTotal(a[1..], a[1..]);
    }
    if |a| == 0 {
    } else if |b| > 0 && a[0] == b[0] {
      BytesTotal(a[1..], b[1..]);
      assert a == [a[0]] + a[1..] && b == [b[0]] + b[1..];
    }
  }

  lemma {:induction false} BytesTransitive(a: Bytes, b: Bytes, c: Bytes)
    requires BytesLess(a, b) && BytesLess(b, c)
    ensures BytesLess(a, c)
    decreases |a|
  {
    if |a| == 0 {
    } else if a[0] == b[0] && b[0] == c[0] {
      BytesTransitive(a[1..], b[1..], c[1..]);
    }
  }

  /** Scores among which the comparison is an order: none is NaN, or all that are not
      have one rank, so that only the members decide. */
  ghost predicate Tame(scores: iset<Score>) {
    || (forall s :: s in scores ==> !IsNaN(s))
    || (forall s, t :: s in scores && t in scores && !IsNaN(s) && !IsNaN(t) ==> Rank(s) == Rank(t))
  }

  ghost predicate From(c: seq<Member>, scores: iset<Score>) {
    forall i :: 0 <= i < |c| ==> c[i].val in scores
  }

  ghost const NUMBERS: iset<Score> := iset s: Score | !IsNaN(s)

  lemma NumbersAreTame(c: seq<Member>)
    ensures Tame(NUMBERS) && (Numbers(c) <==> From(c, NUMBERS))
  {
  }

  lemma BeforeTotal(a: Member, b: Member, scores: iset<Score>)
    requires Tame(scores) && a.val in scores && b.val in scores
    ensures a.key != b.key ==> Before(a, b) || Before(b, a)
    ensures !(Before(a, b) && Before(b, a))
  {
    BytesTotal(a.key, b.key);
  }

  lemma BeforeTransitive(a: Member, b: Member, c: Member, scores: iset<Score>)
    requires Tame(scores) && a.val in scores && b.val in scores && c.val in scores
    requires Before(a, b) && Before(b, c)
    ensures Before(a, c)
  {
    if BytesLess(a.key, b.key) && BytesLess(b.key, c.key) { BytesTransitive(a.key, b.key, c.key); }
  }

  // ----- one insertion -----

  lemma {:induction false} InsertFinds(c: seq<Member>, x: Member)
    requires Unique(c) && FindC(c, x.key).None?
    ensures Unique(Insert(c, x)) && |Insert(c, x)| == |c| + 1
    ensures forall q :: FindC(Insert(c, x), q) == if q == x.key then Some(x.val) else FindC(c, q)
    decreases |c|
  {
    if |c| == 0 || !Before(c[0], x) {
      assert ([x] + c)[1..] == c;
    } else {
      InsertFinds(c[1..], x);
      assert ([c[0]] + Insert(c[1..], x))[1..] == Insert(c[1..], x);
    }
  }

  lemma {:induction false} InsertKeepsAll(c: seq<Member>, x: Member, y: Member)
    ensures y in Insert(c, x) <==> y == x || y in c
    decreases |c|
  {
    if |c| == 0 {
    } else {
      assert c == [c[0]] + c[1..];
      if Before(c[0], x) { InsertKeepsAll(c[1..], x, y); }
    }
  }

  lemma {:induction false} MissingKey(c: seq<Member>, k: Bytes)
    requires FindC(c, k).None?
    ensures forall i :: 0 <= i < |c| ==> c[i].key != k
    decreases |c|
  {
    if |c| == 0 {
    } else {
      MissingKey(c[1..], k);
      forall i | 0 <= i < |c| ensures c[i].key != k { if i > 0 { assert c[i] == c[1..][i - 1]; } }
    }
  }

  /** Linear insertion keeps the array strictly ascending. */
  lemma {:induction false} InsertSorts(c: seq<Member>, x: Member, scores: iset<Score>)
    requires Tame(scores) && From(c, scores) && x.val in scores && Sorted(c) && FindC(c, x.key).None?
    ensures Sorted(Insert(c, x)) && From(Insert(c, x), scores)
    decreases |c|
  {
    hide Tame, Before;
    var r := Insert(c, x);
    MissingKey(c, x.key);
    if |c| == 0 {
      assert r == [x];
    } else if Before(c[0], x) {
      var t := Insert(c[1..], x);
      InsertSorts(c[1..], x, scores);
      forall j | 0 < j < |r| ensures Before(r[0], r[j]) {
        assert r[j] == t[j - 1] && t[j - 1] in t;
        InsertKeepsAll(c[1..], x, t[j - 1]);
        if r[j] != x { var i :| 0 <= i < |c[1..]| && c[1..][i] == r[j]; assert c[i + 1] == r[j]; }
      }
      assert forall i, j :: 0 < i < j < |r| ==> r[i] == t[i - 1] && r[j] == t[j - 1];
    } else {
      BeforeTotal(x, c[0], scores);
      forall j | 0 < j < |r| ensures Before(r[0], r[j]) {
        if j > 1 { BeforeTransitive(x, c[0], c[j - 1], scores); }
      }
    }
  }

  lemma {:induction false} DropSorts(c: seq<Member>, k: Bytes)
    ensures Sorted(c) ==> Sorted(DropC(c, k))
    ensures Numbers(c) ==> Numbers(DropC(c, k))
    ensures forall y :: y in DropC(c, k) ==> y in c
    ensures |DropC(c, k)| == |c| - (if FindC(c, k).Some? then 1 else 0)
    decreases |c|
  {
    if |c| == 0 {
    } else if c[0].key != k {
      var t := DropC(c[1..], k);
      DropSorts(c[1..], k);
      var r := [c[0]] + t;
      assert forall j :: 0 < j < |r| ==> r[j] == t[j - 1] && t[j - 1] in t;
      if Sorted(c) {
        forall j | 0 < j < |r| ensures Before(r[0], r[j]) {
          assert t[j - 1] in c[1..];
          var i :| 0 <= i < |c[1..]| && c[1..][i] == r[j];
          assert c[i + 1] == r[j];
        }
      }
      if Numbers(c) {
        forall j | 0 < j < |r| ensures !IsNaN(r[j].val) { assert r[j] == t[j - 1]; }
      }
    }
  }

  lemma SameScores(c: seq<Member>)
    ensures forall k :: (k in Scores(c)) == FindC(c, k).Some?
    ensures forall k :: k in Scores(c) ==> Scores(c)[k] == FindC(c, k).value
  {
    MapOfFind([c]);
    assert forall k :: Find([c], k) == FindC(c, k);
  }

  lemma ScoresPut(c: seq<Member>, d: seq<Member>, k: Bytes, v: Score)
    requires forall q :: FindC(d, q) == if q == k then Some(v) else FindC(c, q)
    ensures Scores(d) == Scores(c)[k := v]
  {
    forall q ensures Find([d], q) == if q == k then Some(v) else Find([c], q) {
      assert Find([d], q) == FindC(d, q) && Find([c], q) == FindC(c, q);
    }
    MapPut([c], [d], k, v);
  }

  lemma ScoresDrop(c: seq<Member>, d: seq<Member>, k: Bytes)
    requires forall q :: FindC(d, q) == if q == k then None else FindC(c, q)
    ensures Scores(d) == Scores(c) - {k}
  {
    forall q ensures Find([d], q) == if q == k then None else Find([c], q) {
      assert Find([d], q) == FindC(d, q) && Find([c], q) == FindC(c, q);
    }
    MapDrop([c], [d], k);
  }

  lemma AddedFinds(c: seq<Member>, x: Member)
    requires Unique(c)
    ensures Unique(Added(c, x)) && |Added(c, x)| == |c| + (if FindC(c, x.key).None? then 1 else 0)
    ensures forall q :: FindC(Added(c, x), q) == if q == x.key then Some(x.val) else FindC(c, q)
  {
    DropChain(c, 0, 1, x.key);
    DropSorts(c, x.key);
    InsertFinds(DropC(c, x.key), x);
  }

  lemma AddedSorts(c: seq<Member>, x: Member, scores: iset<Score>)
    requires Unique(c) && Sorted(c) && Tame(scores) && From(c, scores) && x.val in scores
    ensures Sorted(Added(c, x)) && From(Added(c, x), scores)
  {
    hide Tame, Sorted;
    DropChain(c, 0, 1, x.key);
    DropSorts(c, x.key);
    DropFrom(c, x.key, scores);
    InsertSorts(DropC(c, x.key), x, scores);
  }

  lemma DropFrom(c: seq<Member>, k: Bytes, scores: iset<Score>)
    requires From(c, scores)
    ensures From(DropC(c, k), scores)
  {
    DropSorts(c, k);
    var d := DropC(c, k);
    forall i | 0 <= i < |d| ensures d[i].val in scores { assert d[i] in c; }
  }

  lemma AddedOne(c: seq<Member>, x: Member)
    requires Unique(c)
    ensures var r := Added(c, x);
      && Unique(r) && Scores(r) == Scores(c)[x.key := x.val]
      && |r| == |c| + (if FindC(c, x.key).None? then 1 else 0)
      && (Sorted(c) && Numbers(c) && !IsNaN(x.val) ==> Sorted(r) && Numbers(r))
  {
    AddedFinds(c, x);
    ScoresPut(c, Added(c, x), x.key, x.val);
    if Sorted(c) && Numbers(c) && !IsNaN(x.val) {
      NumbersAreTame(c);
      NumbersAreTame(Added(c, x));
      AddedSorts(c, x, NUMBERS);
    }
  }

  lemma DroppedOne(c: seq<Member>, k: Bytes)
    requires Unique(c)
    ensures var r := DropC(c, k);
      && Unique(r) && Scores(r) == Scores(c) - {k}
      && |r| == |c| - (if FindC(c, k).Some? then 1 else 0)
      && (Sorted(c) ==> Sorted(r)) && (Numbers(c) ==> Numbers(r))
  {
    DropChain(c, 0, 1, k);
    DropSorts(c, k);
    ScoresDrop(c, DropC(c, k), k);
  }

  // ----- whole commands -----

  predicate AllNumbers(op: Op) {
    op.Remove? || Numbers(op.batch)
  }

  lemma {:induction false} AddedAllIs(c: seq<Member>, batch: seq<Member>)
    requires Unique(c)
    ensures var r := AddedAll(c, batch);
      && Unique(r) && Scores(r) == PutAll(Scores(c), batch)
      && |c| <= |r| <= |c| + FreshPairs(c, batch)
      && (Sorted(c) && Numbers(c) && Numbers(batch) ==> Sorted(r) && Numbers(r))
    decreases |batch|
  {
    if |batch| == 0 {
    } else {
      var d := Added(c, batch[0]);
      AddedOne(c, batch[0]);
      AddedAllIs(d, batch[1..]);
      AddedFinds(c, batch[0]);
      FewerFresh(c, d, batch[1..]);
    }
  }

  lemma {:induction false} FreshAtMost(c: seq<Member>, batch: seq<Member>)
    ensures FreshPairs(c, batch) <= |batch|
    decreases |batch|
  {
    if |batch| == 0 {
    } else {
      FreshAtMost(c, batch[1..]);
    }
  }

  lemma {:induction false} FewerFresh(c: seq<Member>, d: seq<Member>, batch: seq<Member>)
    requires forall k :: FindC(c, k).Some? ==> FindC(d, k).Some?
    ensures FreshPairs(d, batch) <= FreshPairs(c, batch)
    decreases |batch|
  {
    if |batch| == 0 {
    } else {
      FewerFresh(c, d, batch[1..]);
    }
  }

  lemma {:induction false} DroppedAllIs(c: seq<Member>, members: seq<Bytes>)
    requires Unique(c)
    ensures var r := DroppedAll(c, members);
      && Unique(r) && Scores(r) == RemoveAll(Scores(c), members) && |r| <= |c|
      && (Sorted(c) ==> Sorted(r)) && (Numbers(c) ==> Numbers(r))
    decreases |members|
  {
    if |members| == 0 {
    } else {
      DroppedOne(c, members[0]);
      DroppedAllIs(DropC(c, members[0]), members[1..]);
    }
  }

  lemma {:induction false} DroppedNone(c: seq<Member>, members: seq<Bytes>)
    requires Unique(c) && |DroppedAll(c, members)| == |c|
    ensures DroppedAll(c, members) == c
    decreases |members|
  {
    if |members| == 0 {
    } else {
      DroppedOne(c, members[0]);
      DroppedAllIs(DropC(c, members[0]), members[1..]);
      DropAbsent(c, members[0]);
      DroppedNone(c, members[1..]);
    }
  }

  /** The length of the array is the number of members it stands for. */
  lemma {:induction false} LengthIs(c: seq<Member>)
    requires Unique(c)
    ensures |Scores(c)| == |c|
    decreases |c|
  {
    if |c| == 0 {
      SameScores(c);
      assert Scores(c) == map[];
    } else {
      LengthIs(c[1..]);
      SameScores(c[1..]);
      ScoresPut(c[1..], c, c[0].key, c[0].val);
    }
  }

  /** The map semantics of a run, in which ZADD is refused exactly when the pairs
      with a member not in the map, counted one by one, would pass the cap. */
  function FreshIn(m: map<Bytes, Score>, batch: seq<Member>): nat {
    if |batch| == 0 then 0 else (if batch[0].key in m then 0 else 1) + FreshIn(m, batch[1..])
  }

  function StepMap(m: map<Bytes, Score>, op: Op): map<Bytes, Score> {
    match op
    case Add(batch) =>
      if FreshIn(m, batch) == 0 || |m| + FreshIn(m, batch) <= MAX_MEMBERS then PutAll(m, batch) else m
    case Remove(members) => RemoveAll(m, members)
  }

  function RunMap(m: map<Bytes, Score>, ops: seq<Op>): map<Bytes, Score>
    decreases |ops|
  {
    if |ops| == 0 then m else RunMap(StepMap(m, ops[0]), ops[1..])
  }

  lemma {:induction false} FreshIs(c: seq<Member>, batch: seq<Member>)
    ensures FreshIn(Scores(c), batch) == FreshPairs(c, batch)
    decreases |batch|
  {
    if |batch| == 0 {
    } else {
      SameScores(c);
      FreshIs(c, batch[1..]);
    }
  }

  /** One command: uniqueness and the cap hold afterwards, the array stands for the
      updated map, and as long as no score is NaN it stays in order. */
  lemma StepIs(c: seq<Member>, op: Op)
    requires Unique(c) && |c| <= MAX_MEMBERS
    ensures var r := StepArray(c, op);
      && Unique(r) && |r| <= MAX_MEMBERS && Scores(r) == StepMap(Scores(c), op)
      && (Sorted(c) && Numbers(c) && AllNumbers(op) ==> Sorted(r) && Numbers(r))
  {
    hide AddedAll, FreshPairs, FreshIn, PutAll, Scores, Unique, Sorted, Numbers, DroppedAll, RemoveAll;
    match op
    case Add(batch) =>
      AddedAllIs(c, batch);
      FreshIs(c, batch);
      LengthIs(c);
    case Remove(members) => DroppedAllIs(c, members);
  }

  /** Over every run of ZADD and ZREM: the array stands for the run's map, member
      for member, and is strictly ascending if no NaN was ever added. */
  lemma {:induction false} RunIs(c: seq<Member>, ops: seq<Op>)
    requires Unique(c) && |c| <= MAX_MEMBERS
    ensures var r := Run(c, ops);
      && Unique(r) && |r| <= MAX_MEMBERS && Scores(r) == RunMap(Scores(c), ops) && |r| == |Scores(r)|
      && (Sorted(c) && Numbers(c) && (forall i :: 0 <= i < |ops| ==> AllNumbers(ops[i]))
          ==> Sorted(r) && Numbers(r))
    decreases |ops|
  {
    if |ops| > 0 {
      StepIs(c, ops[0]);
      RunIs(StepArray(c, ops[0]), ops[1..]);
    } else {
      LengthIs(c);
    }
  }

  lemma {:induction false} FoundMember(c: seq<Member>, x: Member)
    requires FindC(c, x.key) == Some(x.val)
    ensures x in c
    decreases |c|
  {
    if c[0].key == x.key {
      assert c[0] == x;
    } else {
      FoundMember(c[1..], x);
    }
  }

  /** An ordered array is determined by the map it stands for: whatever commands
      built it, the same members and scores give the same order. */
  lemma {:induction false} OrderDetermined(c: seq<Member>, d: seq<Member>)
    requires Unique(c) && Sorted(c) && Numbers(c) && Unique(d) && Sorted(d) && Numbers(d)
    requires forall k :: FindC(c, k) == FindC(d, k)
    ensures c == d
    decreases |c|
  {
    if |c| == 0 {
      var first := if |d| > 0 then FindC(d, d[0].key) else None;
    } else {
      assert FindC(d, c[0].key) == Some(c[0].val);
      FoundMember(d, c[0]);
      FoundMember(c, d[0]);
      if c[0] != d[0] {
        var i :| 0 <= i < |c| && c[i] == d[0];
        var j :| 0 <= j < |d| && d[j] == c[0];
        NumbersAreTame(c);
        BeforeTotal(c[i], d[j], NUMBERS);
      }
      assert c == [c[0]] + c[1..] && d == [d[0]] + d[1..];
      forall k ensures FindC(c[1..], k) == FindC(d[1..], k) {
        assert FindC(c, k) == FindC(d, k);
      }
      OrderDetermined(c[1..], d[1..]);
    }
  }

  // ----- exactly when the order survives -----

  /** ZADD accepts the score "nan". Every score a command adds is one of these. */
  ghost predicate OpFrom(op: Op, scores: iset<Score>) {
    op.Remove? || From(op.batch, scores)
  }

  ghost predicate RunFrom(ops: seq<Op>, scores: iset<Score>) {
    forall i :: 0 <= i < |ops| ==> OpFrom(ops[i], scores)
  }

  lemma {:induction false} AddedAllSorts(c: seq<Member>, batch: seq<Member>, scores: iset<Score>)
    requires Unique(c) && Sorted(c) && Tame(scores) && From(c, scores) && From(batch, scores)
    ensures var r := AddedAll(c, batch); Unique(r) && Sorted(r) && From(r, scores)
    decreases |batch|
  {
    hide Tame, Sorted, Added, Unique;
    if |batch| == 0 {
    } else {
      AddedOne(c, batch[0]);
      AddedSorts(c, batch[0], scores);
      AddedAllSorts(Added(c, batch[0]), batch[1..], scores);
    }
  }

  lemma {:induction false} DroppedAllSorts(c: seq<Member>, members: seq<Bytes>, scores: iset<Score>)
    requires Unique(c) && Sorted(c) && From(c, scores)
    ensures var r := DroppedAll(c, members); Unique(r) && Sorted(r) && From(r, scores)
    decreases |members|
  {
    hide Sorted, Unique;
    if |members| == 0 {
    } else {
      DroppedOne(c, members[0]);
      DropFrom(c, members[0], scores);
      DroppedAllSorts(DropC(c, members[0]), members[1..], scores);
    }
  }

  lemma {:induction false} RunSorts(c: seq<Member>, ops: seq<Op>, scores: iset<Score>)
    requires Unique(c) && Sorted(c) && Tame(scores) && From(c, scores) && RunFrom(ops, scores)
    ensures Sorted(Run(c, ops))
    decreases |ops|
  {
    hide Tame, Sorted, Unique, From;
    if |ops| == 0 {
    } else {
      assert OpFrom(ops[0], scores);
      match ops[0] {
        case Add(batch) => AddedAllSorts(c, batch, scores);
        case Remove(members) => DroppedAllSorts(c, members, scores);
      }
      RunSorts(StepArray(c, ops[0]), ops[1..], scores);
    }
  }

  /** Four members added at once, a NaN among two different ranks: the scan for the last
      one stops in front of the NaN member although a smaller score stands behind it. */
  lemma DisordersFour(low: Score, nan: Score, high: Score)
    requires IsNaN(nan) && ScoreLess(low, high)
    ensures var batch: seq<Member> := [Node([97], low), Node([98], nan), Node([99], low), Node([48], high)];
      !Sorted(Run([], [Add(batch)]))
  {
    var a, n, c, z: Member := Node([97], low), Node([98], nan), Node([99], low), Node([48], high);
    var batch := [a, n, c, z];
    assert BytesLess([97], [98]) && BytesLess([98], [99]) && BytesLess([97], [99]);
    assert !BytesLess([98], [48]) && !BytesLess([97], [48]);
    assert Before(a, n) && Before(n, c) && Before(a, c) && Before(a, z) && !Before(n, z) && !Before(z, c);
    AddsFour(a, n, c, z);
    RunsOne(batch);
    var r := Run([], [Add(batch)]);
    assert r == [a, z, n, c] && r[1] == z && r[3] == c;
  }

  lemma AddsFour(a: Member, n: Member, c: Member, z: Member)
    requires a.key != n.key && a.key != c.key && a.key != z.key && n.key != c.key && n.key != z.key && c.key != z.key
    requires Before(a, n) && Before(n, c) && Before(a, c) && Before(a, z) && !Before(n, z)
    ensures StepArray([], Add([a, n, c, z])) == [a, z, n, c]
  {
    hide Before;
    var none: seq<Member> := [];
    var batch := [a, n, c, z];
    var three, two, one := [n, c, z], [c, z], [z];
    assert batch[1..] == three && three[1..] == two && two[1..] == one && one[1..] == none;
    FreshAtMost(none, batch);
    AddsEach(a, n, c, z);
    assert AddedAll(none, batch) == AddedAll([a], three);
    assert AddedAll([a], three) == AddedAll([a, n], two);
    assert AddedAll([a, n], two) == AddedAll([a, n, c], one);
    assert AddedAll([a, n, c], one) == AddedAll([a, z, n, c], none);
  }

  lemma AddsEach(a: Member, n: Member, c: Member, z: Member)
    requires a.key != n.key && a.key != c.key && a.key != z.key && n.key != c.key && n.key != z.key && c.key != z.key
    requires Before(a, n) && Before(n, c) && Before(a, c) && Before(a, z) && !Before(n, z)
    ensures Added([], a) == [a] && Added([a], n) == [a, n] && Added([a, n], c) == [a, n, c]
    ensures Added([a, n, c], z) == [a, z, n, c]
  {
    hide Before;
    var none: seq<Member> := [];
    PassOver(none, a, n);
    PassOver(none, n, c);
    PassOver([n], a, c);
    PassOver([n, c], a, z);
    assert DropC(none, a.key) == none && DropC(none, n.key) == none && DropC(none, c.key) == none;
    assert DropC(none, z.key) == none && Insert(none, a) == [a] && Insert(none, n) == [n] && Insert(none, c) == [c];
    assert [a] + none == [a] && [n] + none == [n] && [a] + [n] == [a, n] && [n] + [c] == [n, c];
    assert [a] + [n, c] == [a, n, c] && [a] + [z, n, c] == [a, z, n, c];
    KeepBefore(none, c, z);
    KeepBefore([c], n, z);
    assert [c] + none == [c];
    assert Insert([n, c], z) == [z] + [n, c] == [z, n, c];
  }

  /** The head of the array, passed over. */
  lemma PassOver(c: seq<Member>, a: Member, x: Member)
    requires a.key != x.key && Before(a, x)
    ensures DropC([a] + c, x.key) == [a] + DropC(c, x.key) && Insert([a] + c, x) == [a] + Insert(c, x)
  {
    assert ([a] + c)[1..] == c;
  }

  lemma KeepBefore(c: seq<Member>, a: Member, x: Member)
    requires a.key != x.key
    ensures DropC([a] + c, x.key) == [a] + DropC(c, x.key)
  {
    assert ([a] + c)[1..] == c;
  }

  lemma RunsOne(batch: seq<Member>)
    ensures Run([], [Add(batch)]) == StepArray([], Add(batch))
  {
    var ops: seq<Op> := [Add(batch)];
    assert ops[1..] == [];
  }

  /** Every run from the empty array with scores from a set stays in order if and only if
      the set has no NaN, or all its other scores have one rank. */
  lemma OrderSurvives(scores: iset<Score>)
    ensures (forall ops: seq<Op> :: RunFrom(ops, scores) ==> Sorted(Run([], ops))) <==> Tame(scores)
  {
    if Tame(scores) {
      forall ops: seq<Op> | RunFrom(ops, scores) ensures Sorted(Run([], ops)) {
        RunSorts([], ops, scores);
      }
    } else {
      var nan :| nan in scores && IsNaN(nan);
      var s, t :| s in scores && t in scores && !IsNaN(s) && !IsNaN(t) && Rank(s) != Rank(t);
      var low, high := if Rank(s) < Rank(t) then s else t, if Rank(s) < Rank(t) then t else s;
      var batch: seq<Member> := [Node([97], low), Node([98], nan), Node([99], low), Node([48], high)];
      DisordersFour(low, nan, high);
      assert RunFrom([Add(batch)], scores);
    }
  }

  lemma {:induction false} DropAbsent(c: seq<Member>, k: Bytes)
    requires FindC(c, k).None?
    ensures DropC(c, k) == c
    decreases |c|
  {
    if |c| == 0 {
    } else {
      DropAbsent(c[1..], k);
    }
  }

  // ----- the order, in numbers -----

  function Two(n: nat): nat {
    if n == 0 then 1 else 2 * Two(n - 1)
  }

  /** The fields of a double: sign, exponent and fraction. */
  function ExponentOf(s: Score): nat {
    s % 9223372036854775808 / 4503599627370496
  }

  function FractionOf(s: Score): nat {
    s % 4503599627370496
  }

  /** What a double stands for, in units of the smallest positive one; infinity is where the
      next larger number would be. */
  function ScaledOf(s: Score): int {
    var m := if ExponentOf(s) == 0 then FractionOf(s)
             else (4503599627370496 + FractionOf(s)) * Two(ExponentOf(s) - 1);
    if s < 9223372036854775808 then m else -m
  }

  function SizeOf(p: nat): nat {
    var e, f := p / 4503599627370496, p % 4503599627370496;
    if e == 0 then f else (4503599627370496 + f) * Two(e - 1)
  }

  lemma {:induction false} TwoGrows(a: nat, b: nat)
    requires a <= b
    ensures 0 < Two(a) <= Two(b)
    decreases b
  {
    if b == 0 {
    } else if a < b {
      TwoGrows(a, b - 1);
    } else {
      TwoGrows(0, b - 1);
    }
  }

  /** A larger bit pattern is a larger size. */
  lemma SizeGrows(p: nat, q: nat)
    requires p < q
    ensures SizeOf(p) < SizeOf(q)
  {
    var d, e, f, g := p / 4503599627370496, q / 4503599627370496, p % 4503599627370496, q % 4503599627370496;
    assert p == 4503599627370496 * d + f && q == 4503599627370496 * e + g;
    if d == e {
      if e > 0 {
        TwoGrows(0, e - 1);
        Scale(4503599627370496 + f, 4503599627370496 + g, Two(e - 1));
      }
    } else {
      assert d < e;
      TwoGrows(d, e - 1);
      TwoGrows(0, d);
      Above(g, Two(e - 1));
      if d > 0 {
        TwoGrows(0, d - 1);
        Below(f, Two(d - 1));
        assert Two(d) == 2 * Two(d - 1);
      }
    }
  }

  lemma Scale(a: nat, b: nat, t: nat)
    requires a < b && t > 0
    ensures a * t < b * t
  {
  }

  lemma Below(f: nat, t: nat)
    requires f < 4503599627370496 && t > 0
    ensures (4503599627370496 + f) * t < 4503599627370496 * (2 * t)
  {
    Scale(4503599627370496 + f, 9007199254740992, t);
  }

  lemma Above(g: nat, t: nat)
    ensures (4503599627370496 + g) * t >= 4503599627370496 * t
  {
    assert (4503599627370496 + g) * t == 4503599627370496 * t + g * t;
  }

  /** NaN is exponent 2047 with a fraction; among the others the order is that of the
      numbers they stand for, both zeros being the same. */
  lemma OrderOfNumbers(a: Score, b: Score)
    ensures IsNaN(a) <==> ExponentOf(a) == 2047 && FractionOf(a) != 0
    ensures !IsNaN(a) && !IsNaN(b) ==> (ScoreLess(a, b) <==> ScaledOf(a) < ScaledOf(b))
  {
    hide SizeOf, ScaledOf;
    var p, q := a % 9223372036854775808, b % 9223372036854775808;
    ScaledIs(a);
    ScaledIs(b);
    if p < q { SizeGrows(p, q); }
    if q < p { SizeGrows(q, p); }
    SizeZero(p);
    SizeZero(q);
  }

  lemma ScaledIs(s: Score)
    ensures ScaledOf(s) == if s < 9223372036854775808 then SizeOf(s) else 0 - SizeOf(s - 9223372036854775808)
    ensures s % 9223372036854775808 == if s < 9223372036854775808 then s else s - 9223372036854775808
  {
  }

  lemma SizeZero(p: nat)
    ensures SizeOf(p) > 0 <==> p > 0
  {
    if p > 0 { SizeGrows(0, p); }
  }

  /** The order of byte strings: by the first byte that differs, a prefix first. */
  ghost predicate FirstDiffers(a: Bytes, b: Bytes, i: nat) {
    i <= |a| && i < |b| && a[..i] == b[..i] && (i == |a| || a[i] < b[i])
  }

  lemma {:induction false} OrderOfBytes(a: Bytes, b: Bytes)
    ensures BytesLess(a, b) <==> exists i :: FirstDiffers(a, b, i)
    decreases |a|
  {
    if |a| == 0 {
      if |b| > 0 { assert FirstDiffers(a, b, 0); }
    } else if |b| > 0 {
      OrderOfBytes(a[1..], b[1..]);
      if a[0] < b[0] { assert FirstDiffers(a, b, 0); }
      forall i: nat | FirstDiffers(a[1..], b[1..], i) && a[0] == b[0] ensures FirstDiffers(a, b, i + 1) {
        assert a[..i + 1] == [a[0]] + a[1..][..i] && b[..i + 1] == [b[0]] + b[1..][..i];
      }
      forall i: nat | FirstDiffers(a, b, i) && i > 0 ensures a[0] == b[0] && FirstDiffers(a[1..], b[1..], i - 1) {
        assert a[0] == a[..i][0] && b[0] == b[..i][0];
        assert a[1..][..i - 1] == a[..i][1..] && b[1..][..i - 1] == b[..i][1..];
      }
    }
  }

  /** The order of a sorted set: smaller score first, among equal scores by the bytes of the
      members. */
  lemma OrderOfMembers(x: Member, y: Member)
    requires !IsNaN(x.val) && !IsNaN(y.val)
    ensures Before(x, y) <==>
      (|| ScaledOf(x.val) < ScaledOf(y.val)
       || (ScaledOf(x.val) == ScaledOf(y.val) && exists i :: FirstDiffers(x.key, y.key, i)))
  {
    OrderOfNumbers(x.val, y.val);
    OrderOfNumbers(y.val, x.val);
    OrderOfBytes(x.key, y.key);
  }

  /** A batch is refused exactly if it has new members and they would make more than 4096. */
  lemma RefusedWhen(c: seq<Member>, batch: seq<Member>)
    requires Unique(c)
    ensures var more := FreshPairs(c, batch);
      StepArray(c, Add(batch)) == if more > 0 && |c| + more > 4096 then c else AddedAll(c, batch)
  {
  }
}
