/** The aura-rdb snapshot format: how a store's live entries are written, how the
    loading loop reads them back into a keyspace, and what the loop for an expired
    record skips. A file is what is left of it to read. */
module Rdb {
  import opened Common
  import opened Chains
  import opened Values
  import opened Reference
  import opened Tiers
  import opened Listing
  import SortedSets
  import Lists

  const MAGIC: Bytes := [65, 85, 82, 65, 82, 68, 66, 0]
  const MAX_BLOB: nat := 16_777_216
  const MAX_ELEMS: nat := 1_000_000
  const MAX_ENTRIES: nat := 10_000_000
  /** Longer byte strings are refused when written. */
  const MAX_WRITTEN: nat := 0x7FFF_FFFF

  // ----- writing -----

  /** The low bytes of n, least significant first. */
  function LE(n: nat, width: nat): Bytes {
    if width == 0 then [] else [n % 256] + LE(n / 256, width - 1)
  }

  function Blob(b: Bytes): Bytes {
    LE(|b|, 4) + b
  }

  function Code(kind: Kind): Byte {
    match kind
    case KString => 0
    case KHash => 1
    case KList => 2
    case KZSet => 3
  }

  function Packed(x: Item): Bytes {
    match x
    case Field(f, v) => Blob(f) + Blob(v)
    case Elem(b) => Blob(b)
    case Scored(score, m) => LE(score, 8) + Blob(m)
  }

  function PackedAll(items: seq<Item>): Bytes {
    if |items| == 0 then [] else Packed(items[0]) + PackedAll(items[1..])
  }

  function Body(v: Value): Bytes {
    if v.StrV? then Blob(v.bytes) else LE(|ItemsOf(v)|, 4) + PackedAll(ItemsOf(v))
  }

  function Written(n: Node<Entry>): Bytes {
    [Code(KindOf(n.val.value))] + Blob(n.key) + LE(n.val.expireAt, 8) + Body(n.val.value)
  }

  function WrittenAll(c: Chain<Entry>): Bytes {
    if |c| == 0 then [] else Written(c[0]) + WrittenAll(c[1..])
  }

  function Dump(c: Chain<Entry>): Bytes {
    MAGIC + LE(2, 4) + LE(|c|, 8) + WrittenAll(c)
  }

  // ----- reading -----

  datatype Read<+T> = Broken | Done(value: T, rest: Bytes)

  function FromLE(b: Bytes): (n: nat) {
    if |b| == 0 then 0 else b[0] + 256 * FromLE(b[1..])
  }

  function ReadInt(s: Bytes, width: nat): Read<nat> {
    if |s| < width then Broken else Done(FromLE(s[..width]), s[width..])
  }

  function ReadBlob(s: Bytes): Read<Bytes> {
    match ReadInt(s, 4)
    case Broken => Broken
    case Done(n, t) => if n > MAX_BLOB || |t| < n then Broken else Done(t[..n], t[n..])
  }

  function ReadItem(kind: Kind, s: Bytes): Read<Item> {
    match kind
    case KString => Broken
    case KHash =>
      (match ReadBlob(s)
       case Broken => Broken
       case Done(f, t) =>
         match ReadBlob(t)
         case Broken => Broken
         case Done(v, u) => Done(Field(f, v), u))
    case KList =>
      (match ReadBlob(s)
       case Broken => Broken
       case Done(b, t) => Done(Elem(b), t))
    case KZSet =>
      (match ReadInt(s, 8)
       case Broken => Broken
       case Done(n, t) =>
         match ReadBlob(t)
         case Broken => Broken
         case Done(m, u) => WideEnough(s[..8]); Done(Scored(n, m), u))
  }

  lemma WideEnough(b: Bytes)
    requires |b| == 8
    ensures FromLE(b) < 0x1_0000_0000_0000_0000
  {
    FromLEBound(b);
    PowersOf256();
  }

  function KindOfCode(code: Byte): Option<Kind> {
    if code == 0 then Some(KString)
    else if code == 1 then Some(KHash)
    else if code == 2 then Some(KList)
    else if code == 3 then Some(KZSet)
    else None
  }

  // ----- skipping: what an expired record's payload is read with -----

  function DrainItems(kind: Kind, s: Bytes, n: nat): Read<()>
    decreases n
  {
    if n == 0 then Done((), s)
    else match ReadItem(kind, s)
      case Broken => Broken
      case Done(_, t) => DrainItems(kind, t, n - 1)
  }

  function DrainBody(kind: Kind, s: Bytes): Read<()> {
    if kind.KString? then
      (match ReadBlob(s)
       case Broken => Broken
       case Done(_, t) => Done((), t))
    else match ReadInt(s, 4)
      case Broken => Broken
      case Done(n, t) => if n > MAX_ELEMS then Broken else DrainItems(kind, t, n)
  }

  /** The part of a record before its payload. */
  datatype Heading = Heading(kind: Kind, key: Bytes, deadline: nat)

  function ReadHeading(s: Bytes): Read<Heading> {
    if |s| == 0 then Broken
    else match ReadBlob(s[1..])
      case Broken => Broken
      case Done(k, t) =>
        match ReadInt(t, 8)
        case Broken => Broken
        case Done(deadline, u) =>
          match KindOfCode(s[0])
          case None => Broken
          case Some(kind) => Done(Heading(kind, k, deadline), u)
  }

  function DrainOne(s: Bytes): Read<()> {
    match ReadHeading(s)
    case Broken => Broken
    case Done(h, t) => DrainBody(h.kind, t)
  }

  /** A record of the older format: key, value, deadline. */
  function ReadOld(s: Bytes): Read<(Bytes, Bytes, nat)> {
    match ReadBlob(s)
    case Broken => Broken
    case Done(k, t) =>
      match ReadBlob(t)
      case Broken => Broken
      case Done(v, u) =>
        match ReadInt(u, 8)
        case Broken => Broken
        case Done(deadline, w) => Done((k, v, deadline), w)
  }

  function DrainMany(legacy: bool, s: Bytes, n: nat): Read<()>
    decreases n
  {
    if n == 0 then Done((), s)
    else if legacy then
      (match ReadOld(s)
       case Broken => Broken
       case Done(_, t) => DrainMany(legacy, t, n - 1))
    else match DrainOne(s)
      case Broken => Broken
      case Done(_, t) => DrainMany(legacy, t, n - 1)
  }

  datatype Preamble = Preamble(legacy: bool, count: nat)

  function ReadPreamble(s: Bytes): Read<Preamble> {
    if |s| < |MAGIC| || s[..|MAGIC|] != MAGIC then Broken
    else match ReadInt(s[|MAGIC|..], 4)
      case Broken => Broken
      case Done(version, t) =>
        if version != 1 && version != 2 then Broken
        else match ReadInt(t, 8)
          case Broken => Broken
          case Done(n, u) => if n > MAX_ENTRIES then Broken else Done(Preamble(version == 1, n), u)
  }

  /** The file as a format, whatever it is loaded into. */
  function Skim(s: Bytes): Read<()> {
    match ReadPreamble(s)
    case Broken => Broken
    case Done(p, t) => DrainMany(p.legacy, t, p.count)
  }

  // ----- loading -----

  datatype Loading = Loading(db: Db, loaded: nat, skipped: nat)

  /** Whether one of the next n items has a score that is not a number. */
  predicate NaNAhead(kind: Kind, s: Bytes, n: nat)
    decreases n
  {
    n > 0 &&
    match ReadItem(kind, s)
    case Broken => false
    case Done(x, t) => (x.Scored? && SortedSets.IsNaN(x.score)) || NaNAhead(kind, t, n - 1)
  }

  function SpoiltBody(h: Heading, s: Bytes): set<Bytes> {
    if h.kind.KString? then {}
    else match ReadInt(s, 4)
      case Broken => {}
      case Done(n, t) => if NaNAhead(h.kind, t, n) then {h.key} else {}
  }

  function SpoiltOne(s: Bytes): set<Bytes> {
    match ReadHeading(s)
    case Broken => {}
    case Done(h, t) => SpoiltBody(h, t)
  }

  function SpoiltMany(legacy: bool, s: Bytes, n: nat): set<Bytes>
    decreases n
  {
    if legacy || n == 0 then {}
    else SpoiltOne(s) + (match DrainOne(s) case Broken => {} case Done(_, t) => SpoiltMany(legacy, t, n - 1))
  }

  /** The keys of a file with a NaN among their scores. */
  function SpoiltIn(s: Bytes): set<Bytes> {
    match ReadPreamble(s)
    case Broken => {}
    case Done(p, t) => SpoiltMany(p.legacy, t, p.count)
  }

  /** The store call made for one item of a collection. */
  function ItemCommand(k: Bytes, x: Item): Command {
    match x
    case Field(f, v) => HSet(k, [(f, v)])
    case Elem(b) => Push(k, false, [b])
    case Scored(score, m) => ZAdd(k, [Node(m, score)])
  }

  function LoadItems(db: Db, k: Bytes, kind: Kind, s: Bytes, n: nat, now: nat): Read<Db>
    decreases n
  {
    if n == 0 then Done(db, s)
    else match ReadItem(kind, s)
      case Broken => Broken
      case Done(x, t) =>
        var (d, reply) := Step(db, ItemCommand(k, x), now);
        if reply.Fail? then Broken else LoadItems(d, k, kind, t, n - 1, now)
  }

  /** Seconds until the deadline, rounded up. */
  function SecondsTo(deadline: nat, now: nat): nat
    requires now < deadline
  {
    (deadline - now + 999) / 1000
  }

  /** apply_expire_abs. */
  function Expiring(db: Db, k: Bytes, deadline: nat, now: nat): Option<Db> {
    if deadline == 0 || now >= deadline then Some(db)
    else
      var (d, reply) := Step(db, Expire(k, Ex(SecondsTo(deadline, now))), now);
      if reply == Int(1) then Some(d) else None
  }

  function SetText(k: Bytes, v: Bytes, deadline: nat): Command {
    Set(k, v, Always, if deadline == 0 then Forget else At(PxAt(deadline)))
  }

  function LoadBody(db: Db, h: Heading, s: Bytes, now: nat): Read<Db> {
    if h.kind.KString? then
      (match ReadBlob(s)
       case Broken => Broken
       case Done(v, t) => Done(Step(db, SetText(h.key, v, h.deadline), now).0, t))
    else match ReadInt(s, 4)
      case Broken => Broken
      case Done(n, t) =>
        if n > MAX_ELEMS then Broken
        else match LoadItems(db, h.key, h.kind, t, n, now)
          case Broken => Broken
          case Done(d, u) =>
            match Expiring(d, h.key, h.deadline, now)
            case None => Broken
            case Some(e) => Done(e, u)
  }

  function LoadOne(l: Loading, s: Bytes, now: nat): Read<Loading> {
    match ReadHeading(s)
    case Broken => Broken
    case Done(h, t) =>
      if Due(h.deadline, now) then
        (match DrainBody(h.kind, t)
         case Broken => Broken
         case Done(_, u) => Done(l.(skipped := l.skipped + 1), u))
      else match LoadBody(l.db, h, t, now)
        case Broken => Broken
        case Done(d, u) => Done(l.(db := d, loaded := l.loaded + 1), u)
  }

  function LoadOld(l: Loading, s: Bytes, now: nat): Read<Loading> {
    match ReadOld(s)
    case Broken => Broken
    case Done((k, v, deadline), t) =>
      if Due(deadline, now) then Done(l.(skipped := l.skipped + 1), t)
      else Done(l.(db := Step(l.db, SetText(k, v, deadline), now).0, loaded := l.loaded + 1), t)
  }

  function LoadNext(legacy: bool, l: Loading, s: Bytes, now: nat): Read<Loading> {
    if legacy then LoadOld(l, s, now) else LoadOne(l, s, now)
  }

  function LoadMany(legacy: bool, l: Loading, s: Bytes, n: nat, now: nat): Read<Loading>
    decreases n
  {
    if n == 0 then Done(l, s)
    else match LoadNext(legacy, l, s, now)
      case Broken => Broken
      case Done(m, t) => LoadMany(legacy, m, t, n - 1, now)
  }

  function Load(db: Db, s: Bytes, now: nat): Read<Loading> {
    match ReadPreamble(s)
    case Broken => Broken
    case Done(p, t) => LoadMany(p.legacy, Loading(db, 0, 0), t, p.count, now)
  }

  // ----- integers -----

  function Pow256(w: nat): nat {
    if w == 0 then 1 else 256 * Pow256(w - 1)
  }

  lemma PowersOf256()
    ensures Pow256(4) == 0x1_0000_0000 && Pow256(8) == 0x1_0000_0000_0000_0000
  {
    assert Pow256(1) == 256 * Pow256(0) && Pow256(2) == 256 * Pow256(1) && Pow256(3) == 256 * Pow256(2);
    assert Pow256(5) == 256 * Pow256(4) && Pow256(6) == 256 * Pow256(5) && Pow256(7) == 256 * Pow256(6);
  }

  lemma {:induction false} FromLEBound(b: Bytes)
    ensures FromLE(b) < Pow256(|b|)
    decreases |b|
  {
    if |b| == 0 {
    } else {
      FromLEBound(b[1..]);
    }
  }

  lemma {:induction false} LERoundTrip(n: nat, width: nat)
    requires n < Pow256(width)
    ensures |LE(n, width)| == width && FromLE(LE(n, width)) == n
    decreases width
  {
    if width == 0 {
    } else {
      LERoundTrip(n / 256, width - 1);
      assert LE(n, width)[1..] == LE(n / 256, width - 1);
    }
  }

  /** An integer that fits is read back, and what follows it is left. */
  lemma IntRead(n: nat, width: nat, t: Bytes)
    requires n < Pow256(width)
    ensures ReadInt(LE(n, width) + t, width) == Done(n, t)
  {
    LERoundTrip(n, width);
    var s := LE(n, width) + t;
    assert s[..width] == LE(n, width) && s[width..] == t;
  }

  /** A byte string of at most 16 MiB is read back; a longer one is written and
      refused when read. */
  lemma BlobRead(b: Bytes, t: Bytes)
    requires |b| <= 0x7FFF_FFFF
    ensures ReadBlob(Blob(b) + t) == if |b| <= 16_777_216 then Done(b, t) else Broken
  {
    PowersOf256();
    IntRead(|b|, 4, b + t);
    assert Blob(b) + t == LE(|b|, 4) + (b + t);
    assert (b + t)[..|b|] == b && (b + t)[|b|..] == t;
  }

  // ----- limits -----

  /** What the loader accepts. */
  predicate SmallItem(x: Item) {
    match x
    case Field(f, v) => |f| <= 16_777_216 && |v| <= 16_777_216
    case Elem(b) => |b| <= 16_777_216
    case Scored(_, m) => |m| <= 16_777_216
  }

  /** What the writer accepts. */
  predicate WritableItem(x: Item) {
    match x
    case Field(f, v) => |f| <= 0x7FFF_FFFF && |v| <= 0x7FFF_FFFF
    case Elem(b) => |b| <= 0x7FFF_FFFF
    case Scored(_, m) => |m| <= 0x7FFF_FFFF
  }

  ghost predicate Small(n: Node<Entry>) {
    && |n.key| <= 16_777_216
    && (match n.val.value
        case StrV(b) => |b| <= 16_777_216
        case v => |ItemsOf(v)| <= 1_000_000 && forall i :: 0 <= i < |ItemsOf(v)| ==> SmallItem(ItemsOf(v)[i]))
  }

  ghost predicate Writable(n: Node<Entry>) {
    && |n.key| <= 0x7FFF_FFFF
    && (match n.val.value
        case StrV(b) => |b| <= 0x7FFF_FFFF
        case v => forall i :: 0 <= i < |ItemsOf(v)| ==> WritableItem(ItemsOf(v)[i]))
  }

  /** An entry of a store: its value is sound, a collection is not empty, and the
      counts and the deadline fit the machine integers that hold them. */
  ghost predicate Stored(n: Node<Entry>) {
    && Sound(n.val.value) && !EmptyTyped(n.val.value)
    && n.val.expireAt < 0x1_0000_0000_0000_0000
    && |ItemsOf(n.val.value)| < 0x1_0000_0000
  }

  ghost predicate AllSmall(c: Chain<Entry>) {
    forall i :: 0 <= i < |c| ==> Small(c[i])
  }

  ghost predicate AllWritable(c: Chain<Entry>) {
    forall i :: 0 <= i < |c| ==> Writable(c[i])
  }

  ghost predicate AllStored(c: Chain<Entry>) {
    forall i :: 0 <= i < |c| ==> Stored(c[i])
  }

  // ----- what was written is skipped exactly, or refused -----

  lemma ItemRead(kind: Kind, x: Item, t: Bytes)
    requires ItemFits(kind, x) && WritableItem(x)
    ensures ReadItem(kind, Packed(x) + t) == if SmallItem(x) then Done(x, t) else Broken
  {
    hide ReadBlob, Blob, ReadInt, LE;
    match x
    case Field(f, v) =>
      assert Packed(x) + t == Blob(f) + (Blob(v) + t);
      BlobRead(f, Blob(v) + t);
      BlobRead(v, t);
    case Elem(b) => BlobRead(b, t);
    case Scored(score, m) =>
      assert Packed(x) + t == LE(score, 8) + (Blob(m) + t);
      PowersOf256();
      IntRead(score, 8, Blob(m) + t);
      BlobRead(m, t);
  }

  lemma {:induction false} ItemsDrain(kind: Kind, items: seq<Item>, t: Bytes)
    requires AllFit(kind, items) && forall i :: 0 <= i < |items| ==> WritableItem(items[i])
    ensures DrainItems(kind, PackedAll(items) + t, |items|)
         == if forall i :: 0 <= i < |items| ==> SmallItem(items[i]) then Done((), t) else Broken
    decreases |items|
  {
    hide ReadItem, Packed, SmallItem, WritableItem, ItemFits;
    if |items| == 0 {
      assert PackedAll(items) + t == t;
    } else {
      assert PackedAll(items) + t == Packed(items[0]) + (PackedAll(items[1..]) + t);
      ItemRead(kind, items[0], PackedAll(items[1..]) + t);
      ItemsDrain(kind, items[1..], t);
      assert items == [items[0]] + items[1..];
    }
  }

  lemma BodyDrains(v: Value, t: Bytes)
    requires Sound(v) && |ItemsOf(v)| < 0x1_0000_0000
    requires match v
      case StrV(b) => |b| <= 0x7FFF_FFFF
      case _ => forall i :: 0 <= i < |ItemsOf(v)| ==> WritableItem(ItemsOf(v)[i])
    ensures DrainBody(KindOf(v), Body(v) + t)
      == if (match v
             case StrV(b) => |b| <= 16_777_216
             case _ => |ItemsOf(v)| <= 1_000_000 && forall i :: 0 <= i < |ItemsOf(v)| ==> SmallItem(ItemsOf(v)[i]))
         then Done((), t) else Broken
  {
    hide ReadBlob, Blob, ReadInt, LE, DrainItems, PackedAll, ItemsOf, Sound, SmallItem, WritableItem;
    if v.StrV? {
      BlobRead(v.bytes, t);
    } else {
      var items := ItemsOf(v);
      assert Body(v) + t == LE(|items|, 4) + (PackedAll(items) + t);
      PowersOf256();
      IntRead(|items|, 4, PackedAll(items) + t);
      ItemsRebuild(v);
      ItemsDrain(KindOf(v), items, t);
    }
  }

  lemma HeadingRead(n: Node<Entry>, t: Bytes)
    requires |n.key| <= 0x7FFF_FFFF && n.val.expireAt < 0x1_0000_0000_0000_0000
    ensures ReadHeading(Written(n) + t)
      == if |n.key| <= 16_777_216 then Done(Heading(KindOf(n.val.value), n.key, n.val.expireAt), Body(n.val.value) + t)
         else Broken
  {
    hide ReadBlob, Blob, ReadInt, LE, Body;
    var s := Written(n) + t;
    var rest := Body(n.val.value) + t;
    assert s == [Code(KindOf(n.val.value))] + (Blob(n.key) + (LE(n.val.expireAt, 8) + rest));
    assert s[1..] == Blob(n.key) + (LE(n.val.expireAt, 8) + rest);
    BlobRead(n.key, LE(n.val.expireAt, 8) + rest);
    PowersOf256();
    IntRead(n.val.expireAt, 8, rest);
  }

  lemma RecordDrains(n: Node<Entry>, t: Bytes)
    requires Stored(n) && Writable(n)
    ensures DrainOne(Written(n) + t) == if Small(n) then Done((), t) else Broken
  {
    hide ReadHeading, DrainBody, Written, Body, ItemsOf, Sound, SmallItem, WritableItem, EmptyTyped;
    HeadingRead(n, t);
    BodyDrains(n.val.value, t);
  }

  lemma {:induction false} RecordsDrain(c: Chain<Entry>, t: Bytes)
    requires AllStored(c) && AllWritable(c)
    ensures DrainMany(false, WrittenAll(c) + t, |c|) == if AllSmall(c) then Done((), t) else Broken
    decreases |c|
  {
    hide DrainOne, Written, Small, Stored, Writable;
    if |c| == 0 {
      assert WrittenAll(c) + t == t;
    } else {
      assert WrittenAll(c) + t == Written(c[0]) + (WrittenAll(c[1..]) + t);
      RecordDrains(c[0], WrittenAll(c[1..]) + t);
      RecordsDrain(c[1..], t);
      assert c == [c[0]] + c[1..];
    }
  }

  lemma PreambleRead(c: Chain<Entry>, t: Bytes)
    requires |c| < 0x1_0000_0000_0000_0000
    ensures ReadPreamble(Dump(c) + t)
      == if |c| <= 10_000_000 then Done(Preamble(false, |c|), WrittenAll(c) + t) else Broken
  {
    hide ReadInt, LE, WrittenAll;
    var rest := WrittenAll(c) + t;
    Regrouped(MAGIC, LE(2, 4), LE(|c|, 8), WrittenAll(c), t);
    PowersOf256();
    IntRead(2, 4, LE(|c|, 8) + rest);
    IntRead(|c|, 8, rest);
  }

  lemma Regrouped(a: Bytes, b: Bytes, c: Bytes, d: Bytes, t: Bytes)
    ensures (a + b + c + d + t)[..|a|] == a
    ensures (a + b + c + d + t)[|a|..] == b + (c + (d + t))
  {
  }

  /** A dump is read exactly to its last byte if every byte string, collection and the
      number of entries are within the loader's limits, and refused otherwise. */
  lemma DumpSkims(c: Chain<Entry>, t: Bytes)
    requires AllStored(c) && AllWritable(c) && |c| < 0x1_0000_0000_0000_0000
    ensures Skim(Dump(c) + t) == if AllSmall(c) && |c| <= 10_000_000 then Done((), t) else Broken
  {
    hide ReadPreamble, Dump, DrainMany, WrittenAll, AllStored, AllSmall, AllWritable;
    PreambleRead(c, t);
    RecordsDrain(c, t);
  }

  lemma {:induction false} ItemsAhead(kind: Kind, items: seq<Item>, t: Bytes)
    requires AllFit(kind, items)
    requires forall i :: 0 <= i < |items| ==> WritableItem(items[i]) && SmallItem(items[i])
    ensures NaNAhead(kind, PackedAll(items) + t, |items|) <==> !NoNaN(items)
    decreases |items|
  {
    hide ReadItem, Packed, SmallItem, WritableItem, ItemFits, NoNaN;
    if |items| == 0 {
      NothingScored(items);
    } else {
      assert PackedAll(items) + t == Packed(items[0]) + (PackedAll(items[1..]) + t);
      ItemRead(kind, items[0], PackedAll(items[1..]) + t);
      ItemsAhead(kind, items[1..], t);
      NoNaNSplits(items);
    }
  }

  /** The entries of a walk with a NaN among their scores. */
  ghost function NaNKeys(c: Chain<Entry>): set<Bytes> {
    if |c| == 0 then {}
    else (if NoNaN(ItemsOf(c[0].val.value)) then {} else {c[0].key}) + NaNKeys(c[1..])
  }

  lemma RecordSpoils(n: Node<Entry>, t: Bytes)
    requires Stored(n) && Small(n)
    ensures SpoiltOne(Written(n) + t) == if NoNaN(ItemsOf(n.val.value)) then {} else {n.key}
  {
    hide ReadHeading, Written, ReadInt, LE, PackedAll, ItemsOf, Sound, SmallItem, WritableItem, EmptyTyped, NaNAhead,
      NoNaN;
    SmallWritable(n);
    HeadingRead(n, t);
    var v := n.val.value;
    var items := ItemsOf(v);
    if v.StrV? {
      NoNaNListed(v);
    } else {
      assert Body(v) + t == LE(|items|, 4) + (PackedAll(items) + t);
      PowersOf256();
      IntRead(|items|, 4, PackedAll(items) + t);
      ItemsRebuild(v);
      forall i | 0 <= i < |items| ensures WritableItem(items[i]) && SmallItem(items[i]) { SmallIsWritable(items[i]); }
      ItemsAhead(KindOf(v), items, t);
    }
  }

  lemma {:induction false} RecordsSpoil(c: Chain<Entry>, t: Bytes)
    requires AllStored(c) && AllSmall(c)
    ensures SpoiltMany(false, WrittenAll(c) + t, |c|) == NaNKeys(c)
    decreases |c|
  {
    hide DrainOne, SpoiltOne, Written, Small, Stored, Writable, NoNaN, ItemsOf;
    if |c| == 0 {
    } else {
      assert WrittenAll(c) + t == Written(c[0]) + (WrittenAll(c[1..]) + t);
      SmallWritable(c[0]);
      RecordDrains(c[0], WrittenAll(c[1..]) + t);
      RecordSpoils(c[0], WrittenAll(c[1..]) + t);
      assert c == [c[0]] + c[1..];
      RecordsSpoil(c[1..], t);
    }
  }

  /** The keys a dump spoils are those that were written with a NaN. */
  lemma DumpSpoils(c: Chain<Entry>, t: Bytes)
    requires AllStored(c) && AllSmall(c) && |c| <= MAX_ENTRIES
    ensures SpoiltIn(Dump(c) + t) == NaNKeys(c)
  {
    hide ReadPreamble, Dump, SpoiltMany, WrittenAll, AllStored, AllSmall, NaNKeys;
    PreambleRead(c, t);
    RecordsSpoil(c, t);
  }

  lemma {:induction false} SpoiltKey(c: Chain<Entry>, k: Bytes)
    requires NoRepeats(c) && k in NaNKeys(c)
    ensures FindC(c, k).Some? && !NoNaN(ItemsOf(FindC(c, k).value.value))
    decreases |c|
  {
    hide ItemsOf, NoNaN;
    if |c| == 0 {
    } else if k in NaNKeys(c[1..]) {
      SpoiltKey(c[1..], k);
    }
  }

  // ----- what was written is loaded -----

  /** A record as it comes back: not pinned; the deadline of a string exact, that of a
      collection the next whole number of seconds from now. */
  function Rebuilt(r: Rec, now: nat): Rec
    requires !Due(r.deadline, now)
  {
    Rec(r.data,
        if r.deadline == 0 || r.data.DStr? then r.deadline else now + SecondsTo(r.deadline, now) * 1000,
        false)
  }

  /** No deadline is lost or gained, none comes early, and none is a second late. */
  lemma RebuiltDeadline(r: Rec, now: nat)
    requires !Due(r.deadline, now)
    ensures var q := Rebuilt(r, now);
      && q.data == r.data && !Due(q.deadline, now)
      && (r.data.DStr? ==> q.deadline == r.deadline)
      && (q.deadline == 0 <==> r.deadline == 0)
      && r.deadline <= q.deadline && (r.deadline != 0 ==> q.deadline < r.deadline + 1000)
  {
  }

  /** The keyspace in the middle of loading a collection under a fresh key. */
  function Part(base: Db, k: Bytes, d: Data): Db {
    if d == NewData(DataKind(d)) then base else base[k := Rec(d, 0, false)]
  }

  predicate HasRoom(d: Data, more: nat) {
    d.DZSet? ==> |d.scores| + more <= SortedSets.MAX_MEMBERS
  }

  function Present(d: Data): Option<Rec> {
    if d == NewData(DataKind(d)) then None else Some(Rec(d, 0, false))
  }

  lemma OneField(k: Bytes, m: map<Bytes, Bytes>, f: Bytes, v: Bytes, now: nat)
    ensures var (e, reply) := OnKey(HSet(k, [(f, v)]), Present(DHash(m)), now);
      !reply.Fail? && e == Write(Rec(DHash(m[f := v]), 0, false))
  {
    var pairs := [(f, v)];
    assert pairs[1..] == [];
    assert SetFields(m, pairs) == SetFields(m[f := v], []) == m[f := v];
  }

  lemma OneElement(k: Bytes, items: seq<Bytes>, b: Bytes, now: nat)
    ensures var (e, reply) := OnKey(Push(k, false, [b]), Present(DList(items)), now);
      !reply.Fail? && e == Write(Rec(DList(items + [b]), 0, false))
  {
    assert Lists.Pushed(items, false, [b]) == items + [b];
    assert [] + [b] == [b];
  }

  lemma OneMember(k: Bytes, m: map<Bytes, SortedSets.Score>, x: Bytes, score: SortedSets.Score, now: nat)
    requires |m| < SortedSets.MAX_MEMBERS
    ensures var (e, reply) := OnKey(ZAdd(k, [Node(x, score)]), Present(DZSet(m)), now);
      !reply.Fail? && e == Write(Rec(DZSet(m[x := score]), 0, false))
  {
    var batch: seq<SortedSets.Member> := [Node(x, score)];
    assert batch[1..] == [];
    assert SortedSets.PutAll(m, batch) == SortedSets.PutAll(m[x := score], []) == m[x := score];
    assert SortedSets.FreshIn(m, batch) == (if x in m then 0 else 1) + SortedSets.FreshIn(m, []);
  }

  lemma ItemOnKey(k: Bytes, d: Data, x: Item, now: nat)
    requires ItemFits(DataKind(d), x) && HasRoom(d, 1)
    ensures var (e, reply) := OnKey(ItemCommand(k, x), Present(d), now);
      !reply.Fail? && e == Write(Rec(Extended(d, x), 0, false))
  {
    hide OnKey, Present;
    match d
    case DHash(m) => OneField(k, m, x.field, x.val, now);
    case DList(items) => OneElement(k, items, x.bytes, now);
    case DZSet(m) => OneMember(k, m, x.member, x.score, now);
    case DStr(_) =>
  }

  lemma StillRoom(d: Data, x: Item, more: nat)
    requires ItemFits(DataKind(d), x) && HasRoom(d, more + 1)
    ensures HasRoom(Extended(d, x), more) && DataKind(Extended(d, x)) == DataKind(d)
    ensures Extended(d, x) != NewData(DataKind(d))
  {
    match d
    case DZSet(m) => MinusOne(m[x.member := x.score], x.member);
      assert m[x.member := x.score] - {x.member} == m - {x.member};
      MinusOne(m, x.member);
      assert x.member in m[x.member := x.score];
    case DHash(m) => assert x.field in m[x.field := x.val];
    case _ =>
  }

  /** The command for one item adds that item. */
  lemma ItemStep(base: Db, k: Bytes, d: Data, x: Item, now: nat)
    requires k !in base && ItemFits(DataKind(d), x) && HasRoom(d, 1)
    ensures var (after, reply) := Step(Part(base, k, d), ItemCommand(k, x), now);
      !reply.Fail? && after == Part(base, k, Extended(d, x))
  {
    hide OnKey, Extended, HasRoom, ItemFits;
    ItemOnKey(k, d, x, now);
    StillRoom(d, x, 0);
    var cmd := ItemCommand(k, x);
    assert cmd.key == k;
    assert Get(Part(base, k, d), k, now) == Present(d);
    var r := Rec(Extended(d, x), 0, false);
    assert base[k := Rec(d, 0, false)][k := r] == base[k := r];
  }

  lemma {:induction false} LoadsItems(base: Db, k: Bytes, d: Data, items: seq<Item>, t: Bytes, now: nat)
    requires k !in base && AllFit(DataKind(d), items) && HasRoom(d, |items|)
    requires forall i :: 0 <= i < |items| ==> SmallItem(items[i]) && WritableItem(items[i])
    ensures LoadItems(Part(base, k, d), k, DataKind(d), PackedAll(items) + t, |items|, now)
         == Done(Part(base, k, Gathered(d, items)), t)
    decreases |items|
  {
    hide Step, ReadItem, Packed, SmallItem, WritableItem, ItemFits, Part, HasRoom, Extended;
    if |items| == 0 {
      assert PackedAll(items) + t == t;
    } else {
      assert PackedAll(items) + t == Packed(items[0]) + (PackedAll(items[1..]) + t);
      ItemRead(DataKind(d), items[0], PackedAll(items[1..]) + t);
      StillRoom(d, items[0], |items| - 1);
      LessRoom(d, |items|);
      ItemStep(base, k, d, items[0], now);
      LoadsItems(base, k, Extended(d, items[0]), items[1..], t, now);
    }
  }

  lemma LessRoom(d: Data, n: nat)
    requires HasRoom(d, n) && n > 0
    ensures HasRoom(d, 1)
  {
  }

  lemma SmallIsWritable(x: Item)
    requires SmallItem(x)
    ensures WritableItem(x)
  {
  }

  /** EXPIRE on a key just built. */
  lemma Expires(base: Db, k: Bytes, d: Data, deadline: nat, now: nat)
    requires k !in base && !Due(deadline, now) && d != NewData(DataKind(d)) && !d.DStr?
    ensures Expiring(Part(base, k, d), k, deadline, now)
         == Some(base[k := Rebuilt(Rec(d, deadline, false), now)])
  {
    if deadline != 0 {
      var sec := SecondsTo(deadline, now);
      assert sec > 0;
      var db := Part(base, k, d);
      assert Get(db, k, now) == Some(Rec(d, 0, false));
      assert OnKey(Expire(k, Ex(sec)), Some(Rec(d, 0, false)), now)
          == (Write(Rec(d, now + sec * 1000, false)), Int(1));
      var r := Rec(d, now + sec * 1000, false);
      assert base[k := Rec(d, 0, false)][k := r] == base[k := r];
    }
  }

  lemma TextSet(db: Db, k: Bytes, v: Bytes, deadline: nat, now: nat)
    requires k !in db
    ensures Step(db, SetText(k, v, deadline), now).0 == db[k := Rec(DStr(v), deadline, false)]
  {
  }

  lemma EmptyItems(v: Value)
    requires Sound(v) && !EmptyTyped(v) && !v.StrV?
    ensures Seen(v) != NewData(KindOf(v)) && DataKind(Seen(v)) == KindOf(v)
  {
    hide Placed, MapOf, SortedSets.Unique, SortedSets.Scores;
    if v.ZSetV? { SortedSets.LengthIs(v.nodes); }
  }

  lemma RoomFor(v: Value)
    requires Sound(v) && !v.StrV?
    ensures HasRoom(NewData(KindOf(v)), |ItemsOf(v)|)
  {
    ItemsCount(v);
  }

  /** A live record of the dump is rebuilt under its key. */
  lemma RecordLoads(l: Loading, n: Node<Entry>, t: Bytes, now: nat)
    requires Stored(n) && Small(n) && n.key !in l.db && !Due(n.val.expireAt, now)
    ensures LoadOne(l, Written(n) + t, now)
         == Done(Loading(l.db[n.key := Rebuilt(RecOf(n.val), now)], l.loaded + 1, l.skipped), t)
  {
    hide ReadHeading, Written, Body, LoadBody, DrainBody, Sound, ItemsOf, EmptyTyped, SmallItem, Rebuilt;
    HeadingRead(n, t);
    BodyLoads(l.db, n, t, now);
  }

  lemma BodyLoads(db: Db, n: Node<Entry>, t: Bytes, now: nat)
    requires Stored(n) && Small(n) && n.key !in db && !Due(n.val.expireAt, now)
    ensures LoadBody(db, Heading(KindOf(n.val.value), n.key, n.val.expireAt), Body(n.val.value) + t, now)
         == Done(db[n.key := Rebuilt(RecOf(n.val), now)], t)
  {
    hide ReadBlob, Blob, ReadInt, LE, LoadItems, PackedAll, ItemsOf, Sound, SmallItem, WritableItem, EmptyTyped,
      Gathered, Step, Expiring, Seen, Part, NewData, AllFit, HasRoom;
    var v, k := n.val.value, n.key;
    if v.StrV? {
      BlobRead(v.bytes, t);
      TextSet(db, k, v.bytes, n.val.expireAt, now);
      SeenText(v);
    } else {
      var items := ItemsOf(v);
      assert Body(v) + t == LE(|items|, 4) + (PackedAll(items) + t);
      PowersOf256();
      IntRead(|items|, 4, PackedAll(items) + t);
      ItemsRebuild(v);
      EmptyItems(v);
      RoomFor(v);
      NewIs(KindOf(v));
      forall i | 0 <= i < |items| ensures WritableItem(items[i]) { SmallIsWritable(items[i]); }
      NewPart(db, k, KindOf(v));
      LoadsItems(db, k, NewData(KindOf(v)), items, t, now);
      Expires(db, k, Seen(v), n.val.expireAt, now);
      RebuiltPin(RecOf(n.val), now);
    }
  }

  lemma SeenText(v: Value)
    requires v.StrV?
    ensures Seen(v) == DStr(v.bytes)
  {
  }

  lemma NewPart(base: Db, k: Bytes, kind: Kind)
    ensures Part(base, k, NewData(kind)) == base && DataKind(NewData(kind)) == kind
  {
  }

  lemma RebuiltPin(r: Rec, now: nat)
    requires !Due(r.deadline, now)
    ensures Rebuilt(r, now) == Rebuilt(r.(pinned := false), now)
  {
  }

  /** The keyspace after loading a list of entries, the due ones passed over. */
  ghost function LoadedDb(db: Db, c: Chain<Entry>, now: nat): Db
    decreases |c|
  {
    if |c| == 0 then db
    else if Due(c[0].val.expireAt, now) then LoadedDb(db, c[1..], now)
    else LoadedDb(db[c[0].key := Rebuilt(RecOf(c[0].val), now)], c[1..], now)
  }

  ghost predicate Absent(c: Chain<Entry>, db: Db) {
    forall k :: k in db ==> FindC(c, k).None?
  }

  lemma {:induction false} LoadedDbIs(db: Db, c: Chain<Entry>, now: nat)
    requires NoRepeats(c) && Absent(c, db)
    ensures var r := LoadedDb(db, c, now);
      && (forall k :: k in r <==> k in db || IfLive(FindC(c, k), now).Some?)
      && (forall k :: k in r ==>
            r[k] == if IfLive(FindC(c, k), now).Some? then Rebuilt(RecOf(FindC(c, k).value), now) else db[k])
    decreases |c|
  {
    hide Rebuilt;
    if |c| == 0 {
    } else {
      assert FindC(c, c[0].key).Some?;
      LoadedDbIs(if Due(c[0].val.expireAt, now) then db else db[c[0].key := Rebuilt(RecOf(c[0].val), now)],
                 c[1..], now);
    }
  }

  lemma {:induction false} RecordsLoad(l: Loading, c: Chain<Entry>, t: Bytes, now: nat)
    requires AllStored(c) && AllSmall(c) && NoRepeats(c) && Absent(c, l.db)
    ensures var r := LoadMany(false, l, WrittenAll(c) + t, |c|, now);
      && r.Done? && r.rest == t && r.value.db == LoadedDb(l.db, c, now)
      && r.value.loaded == l.loaded + |LiveOf(c, now)|
      && r.value.skipped == l.skipped + |c| - |LiveOf(c, now)|
    decreases |c|
  {
    hide LoadOne, Written, Small, Stored, Rebuilt;
    if |c| == 0 {
      assert WrittenAll(c) + t == t;
    } else {
      var rest := WrittenAll(c[1..]) + t;
      assert WrittenAll(c) + t == Written(c[0]) + rest;
      assert FindC(c, c[0].key).Some?;
      var next: Loading;
      if Due(c[0].val.expireAt, now) {
        next := l.(skipped := l.skipped + 1);
        RecordSkips(l, c[0], rest, now);
      } else {
        next := Loading(l.db[c[0].key := Rebuilt(RecOf(c[0].val), now)], l.loaded + 1, l.skipped);
        RecordLoads(l, c[0], rest, now);
      }
      RecordsLoad(next, c[1..], t, now);
    }
  }

  lemma SmallWritable(n: Node<Entry>)
    requires Small(n)
    ensures Writable(n)
  {
    hide ItemsOf;
    if !n.val.value.StrV? {
      var items := ItemsOf(n.val.value);
      forall i | 0 <= i < |items| ensures WritableItem(items[i]) { SmallIsWritable(items[i]); }
    }
  }

  lemma RecordSkips(l: Loading, n: Node<Entry>, t: Bytes, now: nat)
    requires Stored(n) && Small(n) && Due(n.val.expireAt, now)
    ensures LoadOne(l, Written(n) + t, now) == Done(l.(skipped := l.skipped + 1), t)
  {
    hide ReadHeading, Written, Body, LoadBody, DrainBody, Sound, ItemsOf, EmptyTyped, SmallItem, WritableItem;
    HeadingRead(n, t);
    SmallWritable(n);
    BodyDrains(n.val.value, t);
  }

  // ----- loading and skipping read alike -----

  lemma {:induction false} ItemsAlike(db: Db, k: Bytes, kind: Kind, s: Bytes, n: nat, now: nat)
    requires LoadItems(db, k, kind, s, n, now).Done?
    ensures DrainItems(kind, s, n) == Done((), LoadItems(db, k, kind, s, n, now).rest)
    decreases n
  {
    hide ReadItem, Step;
    if n == 0 {
    } else {
      var r := ReadItem(kind, s);
      ItemsAlike(Step(db, ItemCommand(k, r.value), now).0, k, kind, r.rest, n - 1, now);
    }
  }

  /** Whatever the bytes are, a record that loads is skipped by exactly as many bytes. */
  lemma OneAlike(l: Loading, s: Bytes, now: nat)
    requires LoadOne(l, s, now).Done?
    ensures DrainOne(s) == Done((), LoadOne(l, s, now).rest)
    ensures LoadOne(l, s, now).value.loaded + LoadOne(l, s, now).value.skipped == l.loaded + l.skipped + 1
  {
    hide ReadHeading, ReadInt, ReadBlob, Step, LoadItems, DrainItems;
    var h := ReadHeading(s);
    assert DrainBody(h.value.kind, h.rest).Done? ==> DrainBody(h.value.kind, h.rest).value == ();
    if !Due(h.value.deadline, now) && !h.value.kind.KString? {
      var n := ReadInt(h.rest, 4);
      ItemsAlike(l.db, h.value.key, h.value.kind, n.rest, n.value, now);
    }
  }

  lemma {:induction false} ManyAlike(legacy: bool, l: Loading, s: Bytes, n: nat, now: nat)
    requires LoadMany(legacy, l, s, n, now).Done?
    ensures DrainMany(legacy, s, n) == Done((), LoadMany(legacy, l, s, n, now).rest)
    ensures var r := LoadMany(legacy, l, s, n, now).value; r.loaded + r.skipped == l.loaded + l.skipped + n
    decreases n
  {
    hide ReadOld, DrainOne, LoadOne, Step;
    if n == 0 {
    } else {
      var r := LoadNext(legacy, l, s, now);
      if !legacy { OneAlike(l, s, now); }
      ManyAlike(legacy, r.value, r.rest, n - 1, now);
    }
  }

  /** Every file that loads, into whatever keyspace, is used up to the same byte, and
      every record of its count was either loaded or skipped. */
  lemma LoadSkims(db: Db, s: Bytes, now: nat)
    requires Load(db, s, now).Done?
    ensures Skim(s) == Done((), Load(db, s, now).rest)
    ensures var r := Load(db, s, now).value; r.loaded + r.skipped == ReadPreamble(s).value.count
  {
    hide ReadPreamble, LoadMany, DrainMany;
    var p := ReadPreamble(s);
    ManyAlike(p.value.legacy, Loading(db, 0, 0), p.rest, p.value.count, now);
  }

  // ----- more bytes never change what was read -----

  lemma IntMore(s: Bytes, width: nat, t: Bytes)
    requires ReadInt(s, width).Done?
    ensures ReadInt(s + t, width) == Done(ReadInt(s, width).value, ReadInt(s, width).rest + t)
  {
    assert (s + t)[..width] == s[..width] && (s + t)[width..] == s[width..] + t;
  }

  lemma BlobMore(s: Bytes, t: Bytes)
    requires ReadBlob(s).Done?
    ensures ReadBlob(s + t) == Done(ReadBlob(s).value, ReadBlob(s).rest + t)
  {
    hide ReadInt;
    IntMore(s, 4, t);
    var r := ReadInt(s, 4);
    assert (r.rest + t)[..r.value] == r.rest[..r.value];
    assert (r.rest + t)[r.value..] == r.rest[r.value..] + t;
  }

  lemma ItemMore(kind: Kind, s: Bytes, t: Bytes)
    requires ReadItem(kind, s).Done?
    ensures ReadItem(kind, s + t) == Done(ReadItem(kind, s).value, ReadItem(kind, s).rest + t)
  {
    hide ReadInt, ReadBlob;
    match kind
    case KHash =>
      BlobMore(s, t);
      BlobMore(ReadBlob(s).rest, t);
    case KList => BlobMore(s, t);
    case KZSet =>
      IntMore(s, 8, t);
      BlobMore(ReadInt(s, 8).rest, t);
    case KString =>
  }

  lemma {:induction false} ItemsMore(kind: Kind, s: Bytes, n: nat, t: Bytes)
    requires DrainItems(kind, s, n).Done?
    ensures DrainItems(kind, s + t, n) == Done((), DrainItems(kind, s, n).rest + t)
    decreases n
  {
    hide ReadItem;
    if n == 0 {
    } else {
      ItemMore(kind, s, t);
      ItemsMore(kind, ReadItem(kind, s).rest, n - 1, t);
    }
  }

  lemma HeadingMore(s: Bytes, t: Bytes)
    requires ReadHeading(s).Done?
    ensures ReadHeading(s + t) == Done(ReadHeading(s).value, ReadHeading(s).rest + t)
  {
    hide ReadInt, ReadBlob;
    assert (s + t)[0] == s[0] && (s + t)[1..] == s[1..] + t;
    BlobMore(s[1..], t);
    IntMore(ReadBlob(s[1..]).rest, 8, t);
  }

  lemma RecordMore(s: Bytes, t: Bytes)
    requires DrainOne(s).Done?
    ensures DrainOne(s + t) == Done((), DrainOne(s).rest + t)
  {
    hide ReadHeading, ReadInt, ReadBlob, DrainItems;
    HeadingMore(s, t);
    var h := ReadHeading(s);
    if h.value.kind.KString? {
      BlobMore(h.rest, t);
    } else {
      IntMore(h.rest, 4, t);
      ItemsMore(h.value.kind, ReadInt(h.rest, 4).rest, ReadInt(h.rest, 4).value, t);
    }
  }

  lemma OldMore(s: Bytes, t: Bytes)
    requires ReadOld(s).Done?
    ensures ReadOld(s + t) == Done(ReadOld(s).value, ReadOld(s).rest + t)
  {
    hide ReadInt, ReadBlob;
    BlobMore(s, t);
    var k := ReadBlob(s);
    BlobMore(k.rest, t);
    IntMore(ReadBlob(k.rest).rest, 8, t);
  }

  lemma {:induction false} ManyMore(legacy: bool, s: Bytes, n: nat, t: Bytes)
    requires DrainMany(legacy, s, n).Done?
    ensures DrainMany(legacy, s + t, n) == Done((), DrainMany(legacy, s, n).rest + t)
    decreases n
  {
    hide DrainOne, ReadOld;
    if n == 0 {
    } else {
      if legacy {
        OldMore(s, t);
        ManyMore(legacy, ReadOld(s).rest, n - 1, t);
      } else {
        RecordMore(s, t);
        ManyMore(legacy, DrainOne(s).rest, n - 1, t);
      }
    }
  }

  lemma SkimMore(s: Bytes, t: Bytes)
    requires Skim(s).Done?
    ensures Skim(s + t) == Done((), Skim(s).rest + t)
  {
    hide ReadInt, DrainMany;
    var m := |MAGIC|;
    assert (s + t)[..m] == s[..m] && (s + t)[m..] == s[m..] + t;
    IntMore(s[m..], 4, t);
    IntMore(ReadInt(s[m..], 4).rest, 8, t);
    var p := ReadPreamble(s);
    ManyMore(p.value.legacy, p.rest, p.value.count, t);
  }

  // ----- the format as a whole -----

  /** Snapshot round trip. A dump of the live entries of a store at `saved`, loaded into
      an empty store at `now`, gives exactly the records still live then, each rebuilt;
      nothing but the dump is read; and every entry is counted. */
  lemma RoundTrip(s: Tiers, saved: nat, now: nat, t: Bytes)
    requires Wellformed(s) && saved <= now
    requires var c := LiveEntries(s, saved); AllStored(c) && AllSmall(c) && |c| <= MAX_ENTRIES
    ensures var c := LiveEntries(s, saved);
      var r := Load(map[], Dump(c) + t, now);
      && r.Done? && r.rest == t
      && r.value.loaded == |LiveOf(c, now)| && r.value.loaded + r.value.skipped == |c|
      && (forall k :: k in r.value.db <==> Get(Records(s), k, now).Some?)
      && (forall k :: k in r.value.db ==> r.value.db[k] == Rebuilt(Get(Records(s), k, now).value, now))
  {
    hide ReadPreamble, Dump, WrittenAll, LoadMany, LoadedDb, AllStored, AllSmall, LiveOf, Rebuilt, Wellformed,
      Records, NoRepeats;
    var c := LiveEntries(s, saved);
    LiveEntriesAre(s, saved);
    PreambleRead(c, t);
    RecordsLoad(Loading(map[], 0, 0), c, t, now);
    LoadedDbIs(map[], c, now);
    FewerLive(c, now);
    var r := Load(map[], Dump(c) + t, now);
    forall k
      ensures k in r.value.db <==> Get(Records(s), k, now).Some?
      ensures k in r.value.db ==> r.value.db[k] == Rebuilt(Get(Records(s), k, now).value, now)
    {
      LiveLater(s, k, saved, now);
    }
  }

  lemma {:induction false} FewerLive(c: Chain<Entry>, now: nat)
    ensures |LiveOf(c, now)| <= |c|
    decreases |c|
  {
    if |c| == 0 {
    } else {
      FewerLive(c[1..], now);
    }
  }

  lemma LiveLater(s: Tiers, k: Bytes, saved: nat, now: nat)
    requires saved <= now
    requires FindC(LiveEntries(s, saved), k).Some? == Get(Records(s), k, saved).Some?
    requires Get(Records(s), k, saved).Some? ==>
      Get(Records(s), k, saved).value == RecOf(FindC(LiveEntries(s, saved), k).value)
    ensures var e := IfLive(FindC(LiveEntries(s, saved), k), now);
      && e.Some? == Get(Records(s), k, now).Some?
      && (e.Some? ==> RecOf(e.value) == Get(Records(s), k, now).value)
  {
  }

  /** A dump loads, into whatever keyspace, only if it is within the loader's limits:
      saving does not enforce them. Into an empty one it loads exactly then. */
  lemma LoadsWhen(db: Db, c: Chain<Entry>, now: nat)
    requires AllStored(c) && AllWritable(c) && |c| < 0x1_0000_0000_0000_0000 && NoRepeats(c)
    ensures Load(db, Dump(c), now).Done? ==> AllSmall(c) && |c| <= 10_000_000
    ensures Load(map[], Dump(c), now).Done? <==> AllSmall(c) && |c| <= 10_000_000
  {
    hide ReadPreamble, Dump, LoadMany, DrainMany, Skim, AllStored, AllSmall, AllWritable, Load, NoRepeats,
      WrittenAll;
    DumpSkims(c, []);
    assert Dump(c) + [] == Dump(c);
    if Load(db, Dump(c), now).Done? { LoadSkims(db, Dump(c), now); }
    if Load(map[], Dump(c), now).Done? { LoadSkims(map[], Dump(c), now); }
    if AllSmall(c) && |c| <= MAX_ENTRIES { LoadsEmpty(c, now); }
  }

  lemma LoadsEmpty(c: Chain<Entry>, now: nat)
    requires AllStored(c) && AllSmall(c) && |c| <= MAX_ENTRIES && NoRepeats(c)
    ensures Load(map[], Dump(c), now).Done?
  {
    hide ReadPreamble, Dump, LoadMany, AllStored, AllSmall, NoRepeats, WrittenAll;
    PreambleRead(c, []);
    assert Dump(c) + [] == Dump(c);
    RecordsLoad(Loading(map[], 0, 0), c, [], now);
  }

  /** Every strict prefix of a dump fails to load, whatever is there already. */
  lemma PrefixFails(db: Db, c: Chain<Entry>, p: nat, now: nat)
    requires AllStored(c) && AllWritable(c) && |c| < 0x1_0000_0000_0000_0000 && p < |Dump(c)|
    ensures Load(db, Dump(c)[..p], now) == Broken
  {
    hide Dump, Load, Skim, AllStored, AllSmall, AllWritable;
    var s, t := Dump(c)[..p], Dump(c)[p..];
    assert s + t == Dump(c) && Dump(c) + [] == Dump(c);
    DumpSkims(c, []);
    if Load(db, s, now).Done? {
      LoadSkims(db, s, now);
      SkimMore(s, t);
    }
  }
}
