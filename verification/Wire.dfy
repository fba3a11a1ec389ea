/** The wire in numbers: what the encoder writes and exactly what the reader takes, naming
    none of their constants or functions. */
module Wire {
  import opened Common
  import opened Resp

  // ----- what is written -----

  /** A number in decimal. */
  function Decimal(n: nat): Bytes {
    if n < 10 then [48 + n] else Decimal(n / 10) + [48 + n % 10]
  }

  /** A dollar sign, the length, a line end, the bytes, a line end. */
  function BulkBytes(a: Bytes): Bytes {
    [36] + Decimal(|a|) + [13, 10] + a + [13, 10]
  }

  function BulksBytes(args: seq<Bytes>): Bytes {
    if |args| == 0 then [] else BulkBytes(args[0]) + BulksBytes(args[1..])
  }

  /** An asterisk, the number of arguments, a line end, the arguments. */
  function CommandBytes(args: seq<Bytes>): Bytes {
    [42] + Decimal(|args|) + [13, 10] + BulksBytes(args)
  }

  lemma {:induction false} DecimalIs(n: nat)
    ensures Digits(n) == Decimal(n)
  {
    if n < 10 {
    } else {
      DecimalIs(n / 10);
    }
  }

  lemma {:induction false} BulksAre(args: seq<Bytes>)
    ensures Bulks(args) == BulksBytes(args)
    decreases |args|
  {
    hide Digits, Decimal;
    if |args| == 0 {
    } else {
      DecimalIs(|args[0]|);
      BulksAre(args[1..]);
    }
  }

  /** Every command as it is written. */
  lemma EncodeIs(args: seq<Bytes>)
    ensures Encode(args) == CommandBytes(args)
  {
    hide Digits, Decimal;
    DecimalIs(|args|);
    BulksAre(args);
  }

  // ----- what is read -----

  function NumberIn(d: Bytes): int {
    if |d| == 0 then 0 else NumberIn(d[..|d| - 1]) * 10 + d[|d| - 1] - 48
  }

  /** Decimal digits, leading zeros allowed. */
  ghost predicate Numeral(d: Bytes, n: nat) {
    |d| > 0 && (forall i :: 0 <= i < |d| ==> 48 <= d[i] <= 57) && NumberIn(d) == n
  }

  /** One argument: its length in at most ten digits, at most 16 MiB of bytes. */
  ghost predicate BulkWith(b: Bytes, a: Bytes, d: Bytes) {
    Numeral(d, |a|) && |d| <= 10 && |a| <= 16777216 && b == [36] + d + [13, 10] + a + [13, 10]
  }

  ghost predicate BulkShape(b: Bytes, a: Bytes) {
    exists d :: BulkWith(b, a, d)
  }

  ghost predicate ArgsShape(b: Bytes, args: seq<Bytes>)
    decreases |args|
  {
    if |args| == 0 then b == []
    else exists i: nat :: i <= |b| && BulkShape(b[..i], args[0]) && ArgsShape(b[i..], args[1..])
  }

  ghost predicate CommandWith(b: Bytes, args: seq<Bytes>, d: Bytes, rest: Bytes) {
    Numeral(d, |args|) && |args| <= 64 && b == [42] + d + [13, 10] + rest && ArgsShape(rest, args)
  }

  /** A command: an asterisk, the number of arguments, at most 64, and the arguments. */
  ghost predicate CommandShape(b: Bytes, args: seq<Bytes>) {
    exists d, rest :: CommandWith(b, args, d, rest)
  }

  lemma {:induction false} NumberIs(d: Bytes)
    ensures AllDigits(d) <==> forall i :: 0 <= i < |d| ==> 48 <= d[i] <= 57
    ensures AllDigits(d) ==> Value(d) == NumberIn(d)
    decreases |d|
  {
    if |d| == 0 {
    } else {
      NumberIs(d[..|d| - 1]);
    }
  }

  /** The capped loop stops behind a number in at most ten digits. */
  lemma {:induction false} ScanCappedStops(p: Bytes, t: Bytes)
    requires AllDigits(p) && |p| <= 10 && ScanCapped(t, Value(p), |p|).Some?
    ensures var (n, k) := ScanCapped(t, Value(p), |p|).value;
      |p| <= k <= 10 && k - |p| <= |t| && AllDigits(p + t[..k - |p|]) && Value(p + t[..k - |p|]) == n
    decreases |t|
  {
    if |t| == 0 || !IsDigit(t[0]) {
      assert p + t[..0] == p;
    } else {
      var q := p + [t[0]];
      assert q[..|q| - 1] == p;
      ScanCappedStops(q, t[1..]);
      var k := ScanCapped(t, Value(p), |p|).value.1;
      assert q + t[1..][..k - |q|] == p + t[..k - |p|];
    }
  }

  lemma {:induction false} ScanDigitsStops(p: Bytes, t: Bytes)
    requires AllDigits(p)
    ensures var (n, k) := ScanDigits(t, Value(p), |p|);
      |p| <= k && k - |p| <= |t| && AllDigits(p + t[..k - |p|]) && Value(p + t[..k - |p|]) == n
    decreases |t|
  {
    if |t| == 0 || !IsDigit(t[0]) {
      assert p + t[..0] == p;
    } else {
      var q := p + [t[0]];
      assert q[..|q| - 1] == p;
      ScanDigitsStops(q, t[1..]);
      var k := ScanDigits(t, Value(p), |p|).1;
      assert q + t[1..][..k - |q|] == p + t[..k - |p|];
    }
  }

  lemma BulkPieces(s: Bytes, k: nat, n: nat)
    requires |s| >= k + n + 5 && s[0] == 36 && s[k + 1] == s[k + n + 3] == 13 && s[k + 2] == s[k + n + 4] == 10
    ensures s[..k + n + 5] == [36] + s[1..][..k] + [13, 10] + s[k + 3..k + 3 + n] + [13, 10]
  {
  }

  /** An argument read has that shape. */
  lemma BulkTaken(s: Bytes, v: Variant)
    requires ParseBulk(s, v).Got? && ParseBulk(s, v).value.Some?
    ensures var r := ParseBulk(s, v); r.used <= |s| && BulkShape(s[..r.used], r.value.value)
  {
    hide ScanCapped, Value, NumberIn;
    NoDigits([]);
    var none: Bytes := [];
    assert none[..0] == none;
    ScanCappedStops([], s[1..]);
    var (n, k) := ScanCapped(s[1..], 0, 0).value;
    var d := s[1..][..k];
    assert [] + d == d;
    NumberIs(d);
    var j := 1 + k + 2;
    var a := s[j..j + n];
    var b := s[..j + n + 2];
    BulkPieces(s, k, n);
    assert BulkWith(b, a, d);
  }

  /** Bytes of that shape are read as that argument, whatever follows. */
  lemma BulkTakes(a: Bytes, d: Bytes, b: Bytes, rest: Bytes, v: Variant)
    requires BulkWith(b, a, d)
    ensures ParseBulk(b + rest, v) == Got(Some(a), |b|)
  {
    hide ScanCapped, Value, NumberIn;
    NumberIs(d);
    var tail: Bytes := [CR, LF] + a + [CR, LF] + rest;
    var s := b + rest;
    assert s == [DOLLAR] + d + tail;
    assert s[1..] == d + tail && d[0..] == d;
    ScanCappedReads(d, 0, tail) by { NoDigits(d); }
    NoDigits(d);
    var j := 1 + |d| + 2;
    assert s[1 + |d|] == CR && s[1 + |d| + 1] == LF;
    assert s[j..j + |a|] == a && s[j + |a|] == CR && s[j + |a| + 1] == LF;
    assert s[1] == d[0];
  }

  lemma BulkReads(a: Bytes, b: Bytes, rest: Bytes, v: Variant)
    requires BulkShape(b, a)
    ensures ParseBulk(b + rest, v) == Got(Some(a), |b|)
  {
    hide BulkWith, ParseBulk;
    var d :| BulkWith(b, a, d);
    BulkTakes(a, d, b, rest, v);
  }

  lemma {:induction false} ArgsTaken(s: Bytes, n: nat, v: Variant)
    requires ParseArgs(s, n, v).Got?
    ensures var r := ParseArgs(s, n, v); r.used <= |s| && |r.value| == n && ArgsShape(s[..r.used], r.value)
    decreases n
  {
    hide ParseBulk, BulkShape;
    if n == 0 {
    } else {
      var b := ParseBulk(s, v);
      BulkTaken(s, v);
      var t := s[b.used..];
      ArgsTaken(t, n - 1, v);
      var r, whole := ParseArgs(t, n - 1, v), ParseArgs(s, n, v);
      assert whole.value[1..] == r.value && whole.used == b.used + r.used;
      assert s[..whole.used][..b.used] == s[..b.used] && s[..whole.used][b.used..] == t[..r.used];
      ghost var shape := s[..whole.used];
      assert BulkShape(shape[..b.used], whole.value[0]) && ArgsShape(shape[b.used..], whole.value[1..]);
    }
  }

  lemma {:induction false} ArgsTakes(b: Bytes, args: seq<Bytes>, rest: Bytes, v: Variant)
    requires ArgsShape(b, args)
    ensures ParseArgs(b + rest, |args|, v) == Got(args, |b|)
    decreases |args|
  {
    hide ParseBulk, BulkShape;
    if |args| == 0 {
    } else {
      var i: nat :| i <= |b| && BulkShape(b[..i], args[0]) && ArgsShape(b[i..], args[1..]);
      assert b + rest == b[..i] + (b[i..] + rest);
      BulkReads(args[0], b[..i], b[i..] + rest, v);
      assert (b + rest)[i..] == b[i..] + rest;
      ArgsTakes(b[i..], args[1..], rest, v);
      assert [args[0]] + args[1..] == args;
    }
  }

  lemma CommandTaken(s: Bytes, v: Variant)
    requires ParseCommand(s, v).Got?
    ensures var r := ParseCommand(s, v); r.used <= |s| && CommandShape(s[..r.used], r.value)
  {
    hide ScanDigits, Value, NumberIn, ParseArgs, ArgsShape;
    NoDigits([]);
    var none: Bytes := [];
    assert none[..0] == none;
    ScanDigitsStops([], s[1..]);
    var (n, k) := ScanDigits(s[1..], 0, 0);
    var d := s[1..][..k];
    assert [] + d == d;
    NumberIs(d);
    var j := 1 + k + 2;
    ArgsTaken(s[j..], n, v);
    var r, whole := ParseArgs(s[j..], n, v), ParseCommand(s, v);
    assert whole.used == j + r.used && whole.value == r.value;
    assert s[..whole.used] == [42] + d + [13, 10] + s[j..][..r.used];
    assert CommandWith(s[..whole.used], whole.value, d, s[j..][..r.used]);
  }

  lemma CommandTakes(b: Bytes, args: seq<Bytes>, rest: Bytes, v: Variant)
    requires CommandShape(b, args)
    ensures ParseCommand(b + rest, v) == Got(args, |b|)
  {
    hide ScanDigits, Value, NumberIn, ParseArgs, ArgsShape;
    var d, bulks :| CommandWith(b, args, d, bulks);
    NumberIs(d);
    var tail: Bytes := [CR, LF] + (bulks + rest);
    var s := b + rest;
    assert s == [ASTERISK] + d + tail && s[1..] == d + tail && d[0..] == d;
    NoDigits(d);
    ScanDigitsReads(d, 0, tail);
    assert s[1 + |d|] == CR && s[1 + |d| + 1] == LF;
    assert s[1 + |d| + 2..] == bulks + rest;
    ArgsTakes(bulks, args, rest, v);
  }

  /** The reader takes a command off the front of a buffer if and only if the buffer begins
      with one, and then exactly that one. */
  lemma ReadsWhen(s: Bytes, args: seq<Bytes>, used: nat, v: Variant)
    ensures ParseCommand(s, v) == Got(args, used) <==> used <= |s| && CommandShape(s[..used], args)
  {
    hide ParseCommand, CommandShape;
    if ParseCommand(s, v) == Got(args, used) { CommandTaken(s, v); }
    if used <= |s| && CommandShape(s[..used], args) {
      CommandTakes(s[..used], args, s[used..], v);
      assert s[..used] + s[used..] == s;
    }
  }
}
