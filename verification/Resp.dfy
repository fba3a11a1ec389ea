/** Commands on the wire: RESP arrays of bulk strings (sections "Arrays" and "Bulk
    strings" of the Redis serialization protocol specification), as the replication
    code writes them and the connection code reads them. */
module Resp {
  import opened Common

  const CR: Byte := 13
  const LF: Byte := 10
  const DOLLAR: Byte := 36
  const ASTERISK: Byte := 42
  const MINUS: Byte := 45
  const ZERO: Byte := 48

  const MAX_BULK: nat := 16_777_216
  const MAX_ARGV: nat := 64

  // ----- writing -----

  /** "%d" of a non-negative number. */
  function Digits(n: nat): Bytes {
    if n < 10 then [ZERO + n] else Digits(n / 10) + [ZERO + n % 10]
  }

  function Bulk(a: Bytes): Bytes {
    [DOLLAR] + Digits(|a|) + [CR, LF] + a + [CR, LF]
  }

  function Header(n: nat): Bytes {
    [ASTERISK] + Digits(n) + [CR, LF]
  }

  function Bulks(args: seq<Bytes>): Bytes {
    if |args| == 0 then [] else Bulk(args[0]) + Bulks(args[1..])
  }

  function Encode(args: seq<Bytes>): Bytes {
    Header(|args|) + Bulks(args)
  }

  function EncodeAll(cmds: seq<seq<Bytes>>): Bytes {
    if |cmds| == 0 then [] else Encode(cmds[0]) + EncodeAll(cmds[1..])
  }

  /** What the parser accepts back. */
  predicate Sendable(args: seq<Bytes>) {
    |args| <= MAX_ARGV && forall i :: 0 <= i < |args| ==> |args[i]| <= MAX_BULK
  }

  // ----- reading -----

  datatype Parsed<+T> = Incomplete | Bad | Got(value: T, used: nat)

  /** The parser as written, and the same with one return value changed: at the end of
      the buffer, where the next bulk has not begun, "incomplete" instead of "error". */
  datatype Variant = AsWritten | Repaired

  predicate IsDigit(b: Byte) {
    ZERO <= b <= ZERO + 9
  }

  /** The digit loop of a bulk length: the value and the number of digits, or none if
      there are more than ten digits or the value passes 16 MiB with more to come. */
  function ScanCapped(s: Bytes, n: nat, digits: nat): Option<(nat, nat)>
    decreases |s|
  {
    if |s| == 0 || !IsDigit(s[0]) then Some((n, digits))
    else if digits > 9 || n > MAX_BULK then None
    else ScanCapped(s[1..], n * 10 + (s[0] - ZERO), digits + 1)
  }

  /** The digit loop of an array header, which has no cap. */
  function ScanDigits(s: Bytes, n: nat, digits: nat): (nat, nat)
    decreases |s|
  {
    if |s| == 0 || !IsDigit(s[0]) then (n, digits)
    else ScanDigits(s[1..], n * 10 + (s[0] - ZERO), digits + 1)
  }

  /** CR LF expected at i: how far the line end is there. */
  function LineEnd(s: Bytes, i: nat): Parsed<()> {
    if i >= |s| then Incomplete
    else if s[i] != CR then Bad
    else if i + 1 >= |s| then Incomplete
    else if s[i + 1] != LF then Bad
    else Got((), i + 2)
  }

  /** parse_bulk on the rest of the buffer; a null bulk has no value. */
  function ParseBulk(s: Bytes, v: Variant): Parsed<Option<Bytes>> {
    if |s| == 0 then (if v.Repaired? then Incomplete else Bad)
    else if s[0] != DOLLAR then Bad
    else
      var neg := |s| > 1 && s[1] == MINUS;
      var start := if neg then 2 else 1;
      match ScanCapped(s[start..], 0, 0)
      case None => Bad
      case Some((n, digits)) => BulkBody(s, start + digits, n, digits, neg)
  }

  function BulkBody(s: Bytes, i: nat, n: nat, digits: nat, neg: bool): Parsed<Option<Bytes>> {
    if digits == 0 then (if i >= |s| then Incomplete else Bad)
    else match LineEnd(s, i)
      case Incomplete => Incomplete
      case Bad => Bad
      case Got(_, j) =>
        if neg then Got(None, j)
        else if n > MAX_BULK then Bad
        else if j + n + 2 > |s| then Incomplete
        else if s[j + n] != CR || s[j + n + 1] != LF then Bad
        else Got(Some(s[j..j + n]), j + n + 2)
  }

  function ParseArgs(s: Bytes, n: nat, v: Variant): Parsed<seq<Bytes>>
    decreases n
  {
    if n == 0 then Got([], 0)
    else match ParseBulk(s, v)
      case Incomplete => Incomplete
      case Bad => Bad
      case Got(None, _) => Bad
      case Got(Some(a), used) =>
        if used > |s| then Bad
        else match ParseArgs(s[used..], n - 1, v)
          case Got(rest, more) => Got([a] + rest, used + more)
          case Incomplete => Incomplete
          case Bad => Bad
  }

  /** The header of a command: the argument count and where the first bulk starts. */
  function ParseHeader(s: Bytes): Parsed<nat> {
    if |s| == 0 then Incomplete
    else if s[0] != ASTERISK then Bad
    else
      var (n, digits) := ScanDigits(s[1..], 0, 0);
      var i := 1 + digits;
      if digits == 0 then (if i >= |s| then Incomplete else Bad)
      else match LineEnd(s, i)
        case Incomplete => Incomplete
        case Bad => Bad
        case Got(_, j) => if n > MAX_ARGV then Bad else Got(n, j)
  }

  /** parse_command on the rest of the buffer. */
  function ParseCommand(s: Bytes, v: Variant): Parsed<seq<Bytes>> {
    match ParseHeader(s)
    case Incomplete => Incomplete
    case Bad => Bad
    case Got(n, i) =>
      if i > |s| then Bad
      else match ParseArgs(s[i..], n, v)
        case Got(args, used) => Got(args, i + used)
        case Incomplete => Incomplete
        case Bad => Bad
  }

  // ----- bounds -----

  lemma {:induction false} ScanCappedBound(s: Bytes, n: nat, digits: nat)
    requires ScanCapped(s, n, digits).Some?
    ensures digits <= ScanCapped(s, n, digits).value.1 <= digits + |s|
    decreases |s|
  {
    if |s| == 0 {
    } else if IsDigit(s[0]) {
      ScanCappedBound(s[1..], n * 10 + (s[0] - ZERO), digits + 1);
    }
  }

  lemma {:induction false} ScanDigitsBound(s: Bytes, n: nat, digits: nat)
    ensures digits <= ScanDigits(s, n, digits).1 <= digits + |s|
    decreases |s|
  {
    if |s| == 0 {
    } else if IsDigit(s[0]) {
      ScanDigitsBound(s[1..], n * 10 + (s[0] - ZERO), digits + 1);
    }
  }

  lemma BulkBound(s: Bytes, v: Variant)
    ensures ParseBulk(s, v).Got? ==> 0 < ParseBulk(s, v).used <= |s|
  {
  }

  lemma {:induction false} ArgsBound(s: Bytes, n: nat, v: Variant)
    ensures ParseArgs(s, n, v).Got? ==> ParseArgs(s, n, v).used <= |s| && |ParseArgs(s, n, v).value| == n
    decreases n
  {
    hide ParseBulk;
    if n == 0 {
    } else {
      var b := ParseBulk(s, v);
      BulkBound(s, v);
      if b.Got? && b.value.Some? {
        var rest := ParseArgs(s[b.used..], n - 1, v);
        ArgsBound(s[b.used..], n - 1, v);
        if rest.Got? { assert |[b.value.value] + rest.value| == n; }
      }
    }
  }

  lemma HeaderBound(s: Bytes)
    ensures ParseHeader(s).Got? ==> 0 < ParseHeader(s).used <= |s| && ParseHeader(s).value <= MAX_ARGV
  {
    if |s| > 0 { ScanDigitsBound(s[1..], 0, 0); }
  }

  lemma CommandBound(s: Bytes, v: Variant)
    ensures ParseCommand(s, v).Got? ==> 0 < ParseCommand(s, v).used <= |s|
  {
    HeaderBound(s);
    var h := ParseHeader(s);
    if h.Got? && h.used <= |s| { ArgsBound(s[h.used..], h.value, v); }
  }

  // ----- more bytes never change a verdict -----

  lemma {:induction false} ScanCappedMore(s: Bytes, t: Bytes, n: nat, digits: nat)
    requires ScanCapped(s, n, digits).None? || ScanCapped(s, n, digits).value.1 < digits + |s|
    ensures ScanCapped(s + t, n, digits) == ScanCapped(s, n, digits)
    decreases |s|
  {
    if |s| == 0 {
    } else {
      assert (s + t)[0] == s[0] && (s + t)[1..] == s[1..] + t;
      if IsDigit(s[0]) && !(digits > 9 || n > MAX_BULK) {
        ScanCappedMore(s[1..], t, n * 10 + (s[0] - ZERO), digits + 1);
      }
    }
  }

  lemma {:induction false} ScanDigitsMore(s: Bytes, t: Bytes, n: nat, digits: nat)
    requires ScanDigits(s, n, digits).1 < digits + |s|
    ensures ScanDigits(s + t, n, digits) == ScanDigits(s, n, digits)
    decreases |s|
  {
    assert (s + t)[0] == s[0] && (s + t)[1..] == s[1..] + t;
    if IsDigit(s[0]) { ScanDigitsMore(s[1..], t, n * 10 + (s[0] - ZERO), digits + 1); }
  }

  lemma LineEndMore(s: Bytes, t: Bytes, i: nat)
    requires !LineEnd(s, i).Incomplete?
    ensures LineEnd(s + t, i) == LineEnd(s, i)
  {
  }

  lemma BulkBodyMore(s: Bytes, t: Bytes, i: nat, n: nat, digits: nat, neg: bool)
    requires !BulkBody(s, i, n, digits, neg).Incomplete? && (digits == 0 ==> i < |s|)
    ensures BulkBody(s + t, i, n, digits, neg) == BulkBody(s, i, n, digits, neg)
  {
    if digits > 0 {
      LineEndMore(s, t, i);
      var e := LineEnd(s, i);
      if e.Got? && !neg && n <= MAX_BULK { assert (s + t)[e.used..e.used + n] == s[e.used..e.used + n]; }
    }
  }

  lemma DollarOnly(s: Bytes, v: Variant)
    requires |s| == 1 && s[0] == DOLLAR
    ensures ParseBulk(s, v).Incomplete?
  {
    assert s[1..] == [];
  }

  /** A bulk accepted, or refused for any reason but an empty buffer, stays so. */
  lemma BulkMore(s: Bytes, t: Bytes, v: Variant)
    requires !ParseBulk(s, v).Incomplete? && |s| > 0
    ensures ParseBulk(s + t, v) == ParseBulk(s, v)
  {
    if s[0] == DOLLAR {
      if |s| == 1 {
        DollarOnly(s, v);
      } else {
        var neg := s[1] == MINUS;
        var start := if neg then 2 else 1;
        assert (s + t)[start..] == s[start..] + t;
        var r := ScanCapped(s[start..], 0, 0);
        if r.Some? { ScanCappedBound(s[start..], 0, 0); }
        if r.None? || r.value.1 < |s[start..]| {
          ScanCappedMore(s[start..], t, 0, 0);
          if r.Some? { BulkBodyMore(s, t, start + r.value.1, r.value.0, r.value.1, neg); }
        }
      }
    }
  }

  lemma {:induction false} ArgsMore(s: Bytes, t: Bytes, n: nat, v: Variant)
    requires !ParseArgs(s, n, v).Incomplete? && (ParseArgs(s, n, v).Bad? ==> v.Repaired?)
    ensures ParseArgs(s + t, n, v) == ParseArgs(s, n, v)
    decreases n
  {
    if n == 0 {
    } else if |s| > 0 {
      var b := ParseBulk(s, v);
      BulkMore(s, t, v);
      BulkBound(s, v);
      if b.Got? && b.value.Some? {
        assert (s + t)[b.used..] == s[b.used..] + t;
        ArgsMore(s[b.used..], t, n - 1, v);
      }
    }
  }

  lemma HeaderMore(s: Bytes, t: Bytes)
    requires !ParseHeader(s).Incomplete?
    ensures ParseHeader(s + t) == ParseHeader(s)
  {
    if s[0] == ASTERISK {
      assert (s + t)[1..] == s[1..] + t;
      ScanDigitsBound(s[1..], 0, 0);
      var (n, digits) := ScanDigits(s[1..], 0, 0);
      if digits < |s[1..]| {
        ScanDigitsMore(s[1..], t, 0, 0);
        if digits > 0 { LineEndMore(s, t, 1 + digits); }
      }
    }
  }

  /** A command that parses keeps parsing the same way whatever follows; and in the
      repaired parser a refusal is final too. */
  lemma CommandMore(s: Bytes, t: Bytes, v: Variant)
    requires !ParseCommand(s, v).Incomplete? && (ParseCommand(s, v).Bad? ==> v.Repaired?)
    ensures ParseCommand(s + t, v) == ParseCommand(s, v)
  {
    HeaderMore(s, t);
    HeaderBound(s);
    var h := ParseHeader(s);
    if h.Got? {
      assert (s + t)[h.used..] == s[h.used..] + t;
      ArgsMore(s[h.used..], t, h.value, v);
    }
  }

  // ----- round trip -----

  predicate AllDigits(d: Bytes) {
    forall i :: 0 <= i < |d| ==> IsDigit(d[i])
  }

  function Value(d: Bytes): nat
    requires AllDigits(d)
  {
    if |d| == 0 then 0 else Value(d[..|d| - 1]) * 10 + (d[|d| - 1] - ZERO)
  }

  function Pow10(k: nat): nat {
    if k == 0 then 1 else 10 * Pow10(k - 1)
  }

  lemma {:induction false} DigitsAre(n: nat)
    ensures AllDigits(Digits(n)) && |Digits(n)| > 0 && Value(Digits(n)) == n
  {
    if n < 10 {
      assert Digits(n)[..0] == [];
    } else {
      DigitsAre(n / 10);
      var d := Digits(n);
      assert d[..|d| - 1] == Digits(n / 10);
    }
  }

  lemma {:induction false} DigitsLength(n: nat, k: nat)
    requires k > 0 && n < Pow10(k)
    ensures |Digits(n)| <= k
    decreases k
  {
    if n >= 10 {
      assert k > 1 by { assert Pow10(1) == 10 * Pow10(0); }
      DigitsLength(n / 10, k - 1);
    }
  }

  lemma {:induction false} ValueGrows(d: Bytes, i: nat)
    requires AllDigits(d) && i <= |d|
    ensures Value(d[..i]) <= Value(d)
    decreases |d|
  {
    if i < |d| {
      ValueGrows(d[..|d| - 1], i);
      assert d[..|d| - 1][..i] == d[..i];
    } else {
      assert d[..i] == d;
    }
  }

  /** The capped loop reads a number of at most 16 MiB back. */
  lemma {:induction false} ScanCappedReads(d: Bytes, i: nat, rest: Bytes)
    requires AllDigits(d) && i <= |d| <= 10 && Value(d) <= MAX_BULK
    requires |rest| > 0 && !IsDigit(rest[0])
    ensures ScanCapped(d[i..] + rest, Value(d[..i]), i) == Some((Value(d), |d|))
    decreases |d| - i
  {
    if i == |d| {
      assert d[i..] + rest == rest && d[..i] == d;
    } else {
      var s := d[i..] + rest;
      assert s[0] == d[i] && s[1..] == d[i + 1..] + rest;
      ValueGrows(d, i);
      assert d[..i + 1][..i] == d[..i];
      ScanCappedReads(d, i + 1, rest);
    }
  }

  lemma {:induction false} ScanDigitsReads(d: Bytes, i: nat, rest: Bytes)
    requires AllDigits(d) && i <= |d| && |rest| > 0 && !IsDigit(rest[0])
    ensures ScanDigits(d[i..] + rest, Value(d[..i]), i) == (Value(d), |d|)
    decreases |d| - i
  {
    if i == |d| {
      assert d[i..] + rest == rest && d[..i] == d;
    } else {
      var s := d[i..] + rest;
      assert s[0] == d[i] && s[1..] == d[i + 1..] + rest;
      assert d[..i + 1][..i] == d[..i];
      ScanDigitsReads(d, i + 1, rest);
    }
  }

  /** A bulk written is the bulk read, whatever follows it. */
  lemma BulkRoundTrip(a: Bytes, rest: Bytes, v: Variant)
    requires |a| <= MAX_BULK
    ensures ParseBulk(Bulk(a) + rest, v) == Got(Some(a), |Bulk(a)|)
  {
    hide ScanCapped, Digits, Value;
    var d := Digits(|a|);
    DigitsAre(|a|);
    assert |d| <= 10 by { BulkLength(|a|); }
    var tail: Bytes := [CR, LF] + a + [CR, LF] + rest;
    var s := Bulk(a) + rest;
    assert s == [DOLLAR] + d + tail;
    assert s[1..] == d + tail && d[0..] == d;
    assert ScanCapped(s[1..], 0, 0) == Some((|a|, |d|)) by {
      ScanCappedReads(d, 0, tail);
      assert Value(d[..0]) == 0 by { NoDigits(d); }
    }
    var j := 1 + |d| + 2;
    assert s[1 + |d|] == CR && s[1 + |d| + 1] == LF;
    assert s[j..j + |a|] == a && s[j + |a|] == CR && s[j + |a| + 1] == LF;
    assert s[1] == d[0];
  }

  lemma NoDigits(d: Bytes)
    ensures Value(d[..0]) == 0
  {
  }

  lemma BulkLength(n: nat)
    requires n <= MAX_BULK
    ensures |Digits(n)| <= 10
  {
    assert Pow10(1) == 10 && Pow10(2) == 100 && Pow10(3) == 1000 && Pow10(4) == 10_000;
    assert Pow10(5) == 100_000 && Pow10(6) == 1_000_000 && Pow10(7) == 10_000_000 && Pow10(8) == 100_000_000;
    DigitsLength(n, 8);
  }

  lemma {:induction false} ArgsRoundTrip(args: seq<Bytes>, rest: Bytes, v: Variant)
    requires forall i :: 0 <= i < |args| ==> |args[i]| <= MAX_BULK
    ensures ParseArgs(Bulks(args) + rest, |args|, v) == Got(args, |Bulks(args)|)
    decreases |args|
  {
    hide ParseBulk, Bulk;
    if |args| == 0 {
    } else {
      var more := Bulks(args[1..]) + rest;
      var s := Bulks(args) + rest;
      assert s == Bulk(args[0]) + more;
      BulkRoundTrip(args[0], more, v);
      assert s[|Bulk(args[0])|..] == more;
      ArgsRoundTrip(args[1..], rest, v);
      assert [args[0]] + args[1..] == args;
    }
  }

  lemma HeaderRoundTrip(n: nat, rest: Bytes)
    requires n <= MAX_ARGV
    ensures ParseHeader(Header(n) + rest) == Got(n, |Header(n)|)
  {
    hide ScanDigits, Digits, Value;
    var d := Digits(n);
    DigitsAre(n);
    var tail: Bytes := [CR, LF] + rest;
    var s := Header(n) + rest;
    assert s == [ASTERISK] + d + tail && s[1..] == d + tail && d[0..] == d;
    assert ScanDigits(s[1..], 0, 0) == (n, |d|) by {
      ScanDigitsReads(d, 0, tail);
      NoDigits(d);
    }
    assert s[1 + |d|] == CR && s[1 + |d| + 1] == LF;
  }

  /** RESP round trip: parsing an encoded command followed by anything returns its
      arguments and consumes exactly the encoding. */
  lemma RoundTrip(args: seq<Bytes>, rest: Bytes, v: Variant)
    requires Sendable(args)
    ensures ParseCommand(Encode(args) + rest, v) == Got(args, |Encode(args)|)
  {
    hide ParseHeader, ParseArgs, Header, Bulks;
    var h := Header(|args|);
    var s := Encode(args) + rest;
    assert s == h + (Bulks(args) + rest);
    HeaderRoundTrip(|args|, Bulks(args) + rest);
    assert s[|h|..] == Bulks(args) + rest;
    ArgsRoundTrip(args, rest, v);
  }

  // ----- the read loop -----

  datatype Reading = Reading(commands: seq<seq<Bytes>>, rest: Bytes, broken: bool)

  /** process_reads on a buffer: commands dispatched in order, the unparsed tail, and
      whether the connection is closed for a protocol error. */
  function Drain(buf: Bytes, v: Variant): Reading
    decreases |buf|
  {
    if |buf| == 0 then Reading([], [], false)
    else match ParseCommand(buf, v)
      case Incomplete => Reading([], buf, false)
      case Bad => Reading([], buf, true)
      case Got(args, used) =>
        CommandBound(buf, v);
        var more := Drain(buf[used..], v);
        more.(commands := [args] + more.commands)
  }

  /** Data arriving in chunks, each appended to what is left over; a closed connection
      reads no more. */
  function Feed(left: Reading, chunks: seq<Bytes>, v: Variant): Reading
    decreases |chunks|
  {
    if |chunks| == 0 || left.broken then left
    else
      var next := Drain(left.rest + chunks[0], v);
      Feed(next.(commands := left.commands + next.commands), chunks[1..], v)
  }

  function Concat(chunks: seq<Bytes>): Bytes {
    if |chunks| == 0 then [] else chunks[0] + Concat(chunks[1..])
  }

  const NOTHING_READ := Reading([], [], false)

  /** Pipelining: a buffer of encoded commands followed by a tail dispatches exactly
      those commands, in order, and goes on with the tail. */
  lemma {:induction false} Pipelined(cmds: seq<seq<Bytes>>, tail: Bytes, v: Variant)
    requires forall i :: 0 <= i < |cmds| ==> Sendable(cmds[i])
    ensures var t := Drain(tail, v);
      Drain(EncodeAll(cmds) + tail, v) == t.(commands := cmds + t.commands)
    decreases |cmds|
  {
    hide ParseCommand, Encode, Drain, Sendable;
    if |cmds| == 0 {
      assert EncodeAll(cmds) + tail == tail;
    } else {
      var rest := EncodeAll(cmds[1..]) + tail;
      var buf := EncodeAll(cmds) + tail;
      assert buf == Encode(cmds[0]) + rest;
      RoundTrip(cmds[0], rest, v);
      DrainNext(buf, v, cmds[0], |Encode(cmds[0])|);
      assert buf[|Encode(cmds[0])|..] == rest;
      Pipelined(cmds[1..], tail, v);
      var t := Drain(tail, v);
      assert [cmds[0]] + (cmds[1..] + t.commands) == cmds + t.commands;
    }
  }

  lemma DrainNext(buf: Bytes, v: Variant, args: seq<Bytes>, used: nat)
    requires ParseCommand(buf, v) == Got(args, used)
    ensures 0 < used <= |buf|
    ensures var more := Drain(buf[used..], v); Drain(buf, v) == more.(commands := [args] + more.commands)
  {
    hide ParseCommand;
    CommandBound(buf, v);
  }

  /** What an unbroken read leaves behind is only ever an incomplete command. */
  lemma {:induction false} DrainLeaves(buf: Bytes, v: Variant)
    ensures var d := Drain(buf, v);
      |d.rest| <= |buf| && (|d.rest| > 0 && !d.broken ==> ParseCommand(d.rest, v).Incomplete?)
    decreases |buf|
  {
    hide ParseCommand;
    if |buf| == 0 {
    } else {
      var p := ParseCommand(buf, v);
      CommandBound(buf, v);
      if p.Got? { DrainLeaves(buf[p.used..], v); }
    }
  }

  /** Reading a buffer and then more of it is reading it all at once, as long as what
      was read first was not refused; a refusal of the repaired parser is final. */
  lemma {:induction false} DrainMore(buf: Bytes, t: Bytes, v: Variant)
    ensures var d := Drain(buf, v);
      var e := Drain(d.rest + t, v);
      var whole := Drain(buf + t, v);
      && (!d.broken ==> whole == e.(commands := d.commands + e.commands))
      && (d.broken && v.Repaired? ==> whole == Reading(d.commands, d.rest + t, true))
    decreases |buf|
  {
    hide ParseCommand;
    if |buf| == 0 {
      assert buf + t == t && [] + t == t;
    } else {
      var p := ParseCommand(buf, v);
      CommandBound(buf, v);
      match p
      case Incomplete =>
      case Bad => if v.Repaired? { CommandMore(buf, t, v); }
      case Got(args, used) =>
        CommandMore(buf, t, v);
        CommandBound(buf + t, v);
        assert (buf + t)[used..] == buf[used..] + t;
        DrainMore(buf[used..], t, v);
    }
  }

  /** Partial reads do not matter to the repaired parser: every chunking of every byte
      stream dispatches the same commands and is refused in the same case. */
  lemma {:induction false} ChunksDoNotMatter(left: Reading, chunks: seq<Bytes>)
    requires !left.broken && Drain(left.rest, Repaired) == Reading([], left.rest, false)
    ensures var fed := Feed(left, chunks, Repaired);
      var whole := Drain(left.rest + Concat(chunks), Repaired);
      && fed.commands == left.commands + whole.commands && fed.broken == whole.broken
      && (!fed.broken ==> fed.rest == whole.rest)
    decreases |chunks|
  {
    hide Drain;
    if |chunks| == 0 {
      assert left.rest + Concat(chunks) == left.rest;
    } else {
      var buf := left.rest + chunks[0];
      var d := Drain(buf, Repaired);
      var more := Concat(chunks[1..]);
      assert left.rest + Concat(chunks) == buf + more;
      DrainMore(buf, more, Repaired);
      if !d.broken {
        DrainTwice(buf, Repaired);
        ChunksDoNotMatter(d.(commands := left.commands + d.commands), chunks[1..]);
      }
    }
  }

  lemma DrainTwice(buf: Bytes, v: Variant)
    requires !Drain(buf, v).broken
    ensures Drain(Drain(buf, v).rest, v) == Reading([], Drain(buf, v).rest, false)
  {
    DrainLeaves(buf, v);
  }

  // ----- the parser as written: where it refuses a command that is only cut short -----

  /** The buffer ends exactly where the next of n bulks should begin. */
  predicate BoundaryArgs(s: Bytes, n: nat)
    decreases n
  {
    n > 0 &&
    (|s| == 0 ||
     (var b := ParseBulk(s, Repaired);
      b.Got? && b.value.Some? && b.used <= |s| && BoundaryArgs(s[b.used..], n - 1)))
  }

  /** The buffer holds a command header and zero or more whole bulks, no more, and
      more bulks are due. */
  predicate AtBoundary(s: Bytes) {
    var h := ParseHeader(s);
    h.Got? && h.used <= |s| && BoundaryArgs(s[h.used..], h.value)
  }

  lemma {:induction false} ArgsVariants(s: Bytes, n: nat)
    ensures ParseArgs(s, n, AsWritten) == if BoundaryArgs(s, n) then Bad else ParseArgs(s, n, Repaired)
    ensures BoundaryArgs(s, n) ==> ParseArgs(s, n, Repaired) == Incomplete
    decreases n
  {
    if n == 0 {
    } else if |s| > 0 {
      var b := ParseBulk(s, Repaired);
      assert ParseBulk(s, AsWritten) == b;
      if b.Got? && b.value.Some? && b.used <= |s| { ArgsVariants(s[b.used..], n - 1); }
    }
  }

  /** The code differs from the repaired parser on exactly these buffers. */
  lemma VariantsDiffer(s: Bytes)
    ensures ParseCommand(s, AsWritten) == if AtBoundary(s) then Bad else ParseCommand(s, Repaired)
    ensures AtBoundary(s) ==> ParseCommand(s, Repaired) == Incomplete
  {
    hide ParseHeader, ParseArgs, BoundaryArgs;
    var h := ParseHeader(s);
    if h.Got? && h.used <= |s| { ArgsVariants(s[h.used..], h.value); }
  }

  lemma BulkPrefix(a: Bytes, p: nat)
    requires |a| <= MAX_BULK && 0 < p < |Bulk(a)|
    ensures ParseBulk(Bulk(a)[..p], Repaired).Incomplete?
  {
    hide ParseBulk, Bulk;
    var s, t := Bulk(a)[..p], Bulk(a)[p..];
    assert s + t == Bulk(a) && Bulk(a) + [] == Bulk(a);
    BulkRoundTrip(a, [], Repaired);
    BulkBound(s, Repaired);
    if !ParseBulk(s, Repaired).Incomplete? { BulkMore(s, t, Repaired); }
  }

  /** p bytes into the bulks: is that between two of them? */
  ghost predicate BetweenBulks(args: seq<Bytes>, p: nat) {
    exists j :: 0 <= j < |args| && p == |Bulks(args[..j])|
  }

  lemma {:induction false} BulksPrefix(args: seq<Bytes>, p: nat)
    requires forall i :: 0 <= i < |args| ==> |args[i]| <= MAX_BULK
    requires p <= |Bulks(args)|
    ensures BoundaryArgs(Bulks(args)[..p], |args|) <==> BetweenBulks(args, p)
    decreases |args|
  {
    hide ParseBulk, Bulk;
    if |args| == 0 {
    } else {
      var b, more := Bulk(args[0]), Bulks(args[1..]);
      var s := Bulks(args)[..p];
      assert Bulks(args) == b + more;
      BulkRoundTrip(args[0], [], Repaired);
      assert b + [] == b;
      BulkBound(b, Repaired);
      forall j | 0 < j < |args| ensures Bulks(args[..j]) == b + Bulks(args[1..][..j - 1]) {
        assert args[..j][0] == args[0] && args[..j][1..] == args[1..][..j - 1];
      }
      assert Bulks(args[..0]) == [];
      if p == 0 {
        assert p == |Bulks(args[..0])|;
      } else if p < |b| {
        assert s == b[..p];
        BulkPrefix(args[0], p);
      } else {
        assert s == b + more[..p - |b|];
        BulkRoundTrip(args[0], more[..p - |b|], Repaired);
        assert s[|b|..] == more[..p - |b|];
        BulksPrefix(args[1..], p - |b|);
        ShiftBetween(args, p);
      }
    }
  }

  lemma ShiftBetween(args: seq<Bytes>, p: nat)
    requires |args| > 0 && p >= |Bulk(args[0])| > 0
    requires forall j :: 0 < j < |args| ==> Bulks(args[..j]) == Bulk(args[0]) + Bulks(args[1..][..j - 1])
    ensures BetweenBulks(args, p) <==> BetweenBulks(args[1..], p - |Bulk(args[0])|)
  {
    hide Bulk;
    if BetweenBulks(args, p) {
      var j :| 0 <= j < |args| && p == |Bulks(args[..j])|;
      assert Bulks(args[..0]) == [];
      assert j > 0;
      assert p - |Bulk(args[0])| == |Bulks(args[1..][..j - 1])|;
    }
    if BetweenBulks(args[1..], p - |Bulk(args[0])|) {
      var j :| 0 <= j < |args[1..]| && p - |Bulk(args[0])| == |Bulks(args[1..][..j])|;
      assert p == |Bulks(args[..j + 1])|;
    }
  }

  /** Every strict prefix of an encoded command is incomplete to the repaired parser;
      to the code as written it is, too, unless it ends exactly before a bulk, and
      then it is refused. It is never taken for a whole command. */
  lemma PrefixVerdict(args: seq<Bytes>, p: nat)
    requires Sendable(args) && p < |Encode(args)|
    ensures ParseCommand(Encode(args)[..p], Repaired) == Incomplete
    ensures ParseCommand(Encode(args)[..p], AsWritten)
         == if p >= |Header(|args|)| && BetweenBulks(args, p - |Header(|args|)|) then Bad else Incomplete
  {
    hide ParseHeader, ParseArgs, Header, Bulks, BoundaryArgs, BetweenBulks, ParseCommand;
    var whole := Encode(args);
    var h := Header(|args|);
    var s, t := whole[..p], whole[p..];
    assert s + t == whole && whole + [] == whole && h + [] == h;
    RoundTrip(args, [], Repaired);
    CommandBound(s, Repaired);
    if !ParseCommand(s, Repaired).Incomplete? { CommandMore(s, t, Repaired); }
    VariantsDiffer(s);
    HeaderRoundTrip(|args|, []);
    HeaderBound(s);
    if p < |h| {
      assert s == h[..p] && h[..p] + h[p..] == h;
      if !ParseHeader(s).Incomplete? { HeaderMore(s, h[p..]); }
    } else {
      assert s == h + Bulks(args)[..p - |h|];
      HeaderRoundTrip(|args|, Bulks(args)[..p - |h|]);
      assert s[|h|..] == Bulks(args)[..p - |h|];
      BulksPrefix(args, p - |h|);
    }
  }

  lemma {:induction false} DrainVariants(buf: Bytes)
    ensures var d := Drain(buf, Repaired);
      Drain(buf, AsWritten) == if !d.broken && AtBoundary(d.rest) then d.(broken := true) else d
    decreases |buf|
  {
    hide ParseCommand, AtBoundary;
    if |buf| == 0 {
      assert !AtBoundary([]) by { NotAtBoundary(); }
    } else {
      var p := ParseCommand(buf, Repaired);
      VariantsDiffer(buf);
      CommandBound(buf, Repaired);
      if p.Got? { DrainVariants(buf[p.used..]); }
    }
  }

  lemma NotAtBoundary()
    ensures !AtBoundary([])
  {
  }

  /** Some chunk of the stream ends, for a reader that has kept up, at such a boundary. */
  predicate Stalls(left: Reading, chunks: seq<Bytes>)
    decreases |chunks|
  {
    |chunks| > 0 && !left.broken &&
    (var next := Drain(left.rest + chunks[0], Repaired);
     || (!next.broken && AtBoundary(next.rest))
     || Stalls(next.(commands := left.commands + next.commands), chunks[1..]))
  }

  lemma {:induction false} FeedGrows(left: Reading, chunks: seq<Bytes>)
    requires !left.broken && Drain(left.rest, Repaired) == Reading([], left.rest, false)
    ensures var fed := Feed(left, chunks, Repaired);
      |fed.commands| >= |left.commands|
      && (fed.broken && |fed.commands| == |left.commands| ==> |fed.rest| > |left.rest|)
    decreases |chunks|
  {
    hide Drain;
    if |chunks| == 0 {
    } else {
      var buf := left.rest + chunks[0];
      var next := Drain(buf, Repaired);
      NoCommandNoProgress(buf);
      if |chunks[0]| == 0 { assert buf == left.rest; }
      if !next.broken {
        DrainTwice(buf, Repaired);
        FeedGrows(next.(commands := left.commands + next.commands), chunks[1..]);
      }
    }
  }

  lemma NoCommandNoProgress(buf: Bytes)
    ensures |Drain(buf, Repaired).commands| == 0 ==> Drain(buf, Repaired).rest == buf
  {
  }

  /** The code as written reads a chunked stream exactly as the repaired parser does if
      and only if no chunk ends at such a boundary. */
  lemma {:induction false} ChunksMatterWhen(left: Reading, chunks: seq<Bytes>)
    requires !left.broken && Drain(left.rest, Repaired) == Reading([], left.rest, false)
    ensures Feed(left, chunks, AsWritten) == Feed(left, chunks, Repaired) <==> !Stalls(left, chunks)
    decreases |chunks|
  {
    hide Drain, AtBoundary;
    if |chunks| == 0 {
    } else {
      var buf := left.rest + chunks[0];
      var next := Drain(buf, Repaired);
      DrainVariants(buf);
      if !next.broken {
        DrainTwice(buf, Repaired);
        var on := next.(commands := left.commands + next.commands);
        if AtBoundary(next.rest) {
          FeedGrows(on, chunks[1..]);
        } else {
          ChunksMatterWhen(on, chunks[1..]);
        }
      }
    }
  }

  /** The shortest case: a command with arguments that arrives as header and rest is
      dispatched by the repaired parser and closes the connection in the code. */
  lemma HeaderAlone(args: seq<Bytes>)
    requires Sendable(args) && |args| > 0
    ensures Feed(NOTHING_READ, [Header(|args|), Bulks(args)], AsWritten) == Reading([], Header(|args|), true)
    ensures Feed(NOTHING_READ, [Header(|args|), Bulks(args)], Repaired) == Reading([args], [], false)
  {
    hide ParseCommand, Header, Bulks, Feed, Drain;
    var h, b := Header(|args|), Bulks(args);
    FeedTwo(h, b, AsWritten);
    FeedTwo(h, b, Repaired);
    HeaderVerdict(args);
    DrainStops(h, AsWritten);
    DrainStops(h, Repaired);
    RoundTrip(args, [], Repaired);
    assert Encode(args) + [] == h + b;
    DrainOne(h + b, args, Repaired);
  }

  lemma DrainStops(buf: Bytes, v: Variant)
    requires |buf| > 0 && !ParseCommand(buf, v).Got?
    ensures Drain(buf, v) == Reading([], buf, ParseCommand(buf, v).Bad?)
  {
    hide ParseCommand;
  }

  lemma DrainOne(buf: Bytes, args: seq<Bytes>, v: Variant)
    requires ParseCommand(buf, v) == Got(args, |buf|)
    ensures Drain(buf, v) == Reading([args], [], false)
  {
    hide ParseCommand;
    CommandBound(buf, v);
    assert buf[|buf|..] == [];
  }

  lemma HeaderVerdict(args: seq<Bytes>)
    requires Sendable(args) && |args| > 0
    ensures ParseCommand(Header(|args|), AsWritten) == Bad
    ensures ParseCommand(Header(|args|), Repaired) == Incomplete && |Header(|args|)| > 0
  {
    hide ParseCommand, Bulks;
    var h := Header(|args|);
    BulksLength(args);
    FirstBulk(args);
    assert Encode(args)[..|h|] == h;
    PrefixVerdict(args, |h|);
  }

  lemma FeedTwo(a: Bytes, b: Bytes, v: Variant)
    ensures var d := Drain(a, v);
      var e := Drain(d.rest + b, v);
      Feed(NOTHING_READ, [a, b], v) == if d.broken then d else e.(commands := d.commands + e.commands)
  {
    hide Drain;
    var chunks: seq<Bytes> := [a, b];
    var last: seq<Bytes> := [b];
    assert chunks[1..] == last && last[1..] == [];
    assert NOTHING_READ.rest + a == a;
    var d := Drain(a, v);
    assert NOTHING_READ.commands + d.commands == d.commands;
    assert Feed(NOTHING_READ, chunks, v) == Feed(d, last, v);
  }

  lemma BulksLength(args: seq<Bytes>)
    requires |args| > 0
    ensures |Bulks(args)| > 0
  {
  }

  lemma FirstBulk(args: seq<Bytes>)
    requires |args| > 0
    ensures BetweenBulks(args, 0)
  {
    assert args[..0] == [];
    assert |Bulks(args[..0])| == 0;
  }

  // ----- commands the parser does not accept -----

  /** The capped loop on any number: it stops, or reads the number. */
  lemma {:induction false} ScanCappedAny(d: Bytes, i: nat, rest: Bytes)
    requires AllDigits(d) && i <= |d| && |rest| > 0 && !IsDigit(rest[0])
    ensures var r := ScanCapped(d[i..] + rest, Value(d[..i]), i); r.None? || r == Some((Value(d), |d|))
    decreases |d| - i
  {
    if i == |d| {
      assert d[i..] + rest == rest && d[..i] == d;
    } else {
      var s := d[i..] + rest;
      assert s[0] == d[i] && s[1..] == d[i + 1..] + rest;
      assert d[..i + 1][..i] == d[..i];
      ScanCappedAny(d, i + 1, rest);
    }
  }

  /** A bulk over 16 MiB is refused. */
  lemma LongBulkRefused(a: Bytes, rest: Bytes, v: Variant)
    requires |a| > MAX_BULK
    ensures ParseBulk(Bulk(a) + rest, v) == Bad
  {
    hide ScanCapped, Digits, Value;
    var d := Digits(|a|);
    DigitsAre(|a|);
    var tail: Bytes := [CR, LF] + a + [CR, LF] + rest;
    var s := Bulk(a) + rest;
    assert s == [DOLLAR] + d + tail;
    assert s[1..] == d + tail && d[0..] == d;
    assert ScanCapped(s[1..], 0, 0).None? || ScanCapped(s[1..], 0, 0) == Some((|a|, |d|)) by {
      ScanCappedAny(d, 0, tail);
      NoDigits(d);
    }
    assert s[1] == d[0];
    assert s[1 + |d|] == CR && s[1 + |d| + 1] == LF;
  }

  lemma {:induction false} ArgsRefused(args: seq<Bytes>, rest: Bytes, v: Variant)
    requires exists i :: 0 <= i < |args| && |args[i]| > MAX_BULK
    ensures ParseArgs(Bulks(args) + rest, |args|, v) == Bad
    decreases |args|
  {
    hide ParseBulk, Bulk;
    var more := Bulks(args[1..]) + rest;
    var s := Bulks(args) + rest;
    assert s == Bulk(args[0]) + more;
    if |args[0]| > MAX_BULK {
      LongBulkRefused(args[0], more, v);
    } else {
      BulkRoundTrip(args[0], more, v);
      assert s[|Bulk(args[0])|..] == more;
      var i :| 0 <= i < |args| && |args[i]| > MAX_BULK;
      assert args[1..][i - 1] == args[i];
      ArgsRefused(args[1..], rest, v);
    }
  }

  lemma LongHeaderRefused(n: nat, rest: Bytes)
    requires n > MAX_ARGV
    ensures ParseHeader(Header(n) + rest) == Bad
  {
    hide ScanDigits, Digits, Value;
    var d := Digits(n);
    DigitsAre(n);
    var tail: Bytes := [CR, LF] + rest;
    var s := Header(n) + rest;
    assert s == [ASTERISK] + d + tail && s[1..] == d + tail && d[0..] == d;
    assert ScanDigits(s[1..], 0, 0) == (n, |d|) by {
      ScanDigitsReads(d, 0, tail);
      NoDigits(d);
    }
    assert s[1 + |d|] == CR && s[1 + |d| + 1] == LF;
  }

  /** A command outside the limits is refused, not misread. */
  lemma Refused(args: seq<Bytes>, rest: Bytes, v: Variant)
    requires !Sendable(args)
    ensures ParseCommand(Encode(args) + rest, v) == Bad
  {
    hide ParseHeader, ParseArgs, Header, Bulks;
    var h := Header(|args|);
    var s := Encode(args) + rest;
    assert s == h + (Bulks(args) + rest);
    if |args| > MAX_ARGV {
      LongHeaderRefused(|args|, Bulks(args) + rest);
    } else {
      HeaderRoundTrip(|args|, Bulks(args) + rest);
      assert s[|h|..] == Bulks(args) + rest;
      ArgsRefused(args, rest, v);
    }
  }

  predicate AllSendable(cmds: seq<seq<Bytes>>) {
    forall i :: 0 <= i < |cmds| ==> Sendable(cmds[i])
  }

  /** A stream of encoded commands is read to its end if all of them are within the
      limits, and is refused at the first that is not, those before it dispatched. */
  lemma {:induction false} StreamRead(cmds: seq<seq<Bytes>>, v: Variant) returns (n: nat)
    ensures n <= |cmds| && AllSendable(cmds[..n]) && (n < |cmds| ==> !Sendable(cmds[n]))
    ensures Drain(EncodeAll(cmds), v).commands == cmds[..n]
    ensures Drain(EncodeAll(cmds), v).broken == (n < |cmds|)
    ensures n == |cmds| ==> Drain(EncodeAll(cmds), v).rest == []
    decreases |cmds|
  {
    hide ParseCommand, Encode, Sendable;
    if |cmds| == 0 {
      n := 0;
    } else {
      var buf, rest := EncodeAll(cmds), EncodeAll(cmds[1..]);
      assert |buf| > 0 by { EncodeSome(cmds[0]); }
      if Sendable(cmds[0]) {
        RoundTrip(cmds[0], rest, v);
        CommandBound(buf, v);
        assert buf[|Encode(cmds[0])|..] == rest;
        var m := StreamRead(cmds[1..], v);
        n := m + 1;
        assert cmds[..n] == [cmds[0]] + cmds[1..][..m];
      } else {
        Refused(cmds[0], rest, v);
        n := 0;
      }
    }
  }

  lemma EncodeSome(args: seq<Bytes>)
    ensures |Encode(args)| > 0
  {
  }

  // ----- the index loops of the C code -----

  /** The digit loop of parse_bulk. */
  method ScanLength(buf: Bytes, start: nat) returns (r: Option<(nat, nat)>)
    requires start <= |buf|
    ensures r == ScanCapped(buf[start..], 0, 0)
    ensures r.Some? ==> start + r.value.1 <= |buf|
  {
    var i := start;
    var n: nat, digits: nat := 0, 0;
    while i < |buf| && IsDigit(buf[i])
      invariant start <= i <= |buf| && i == start + digits
      invariant ScanCapped(buf[i..], n, digits) == ScanCapped(buf[start..], 0, 0)
    {
      assert buf[i..][0] == buf[i] && buf[i..][1..] == buf[i + 1..];
      if digits > 9 || n > MAX_BULK { return None; }
      n, i, digits := n * 10 + (buf[i] - ZERO), i + 1, digits + 1;
    }
    return Some((n, digits));
  }

  /** parse_bulk at a position of the buffer. */
  method ParseBulkAt(buf: Bytes, pos: nat) returns (r: Parsed<Option<Bytes>>)
    requires pos <= |buf|
    ensures r == ParseBulk(buf[pos..], AsWritten)
  {
    hide ScanCapped, BulkBody;
    if pos >= |buf| || buf[pos] != DOLLAR { return Bad; }
    ghost var s := buf[pos..];
    var i := pos + 1;
    var neg := false;
    if i < |buf| && buf[i] == MINUS { neg, i := true, i + 1; }
    assert s[i - pos..] == buf[i..];
    var length := ScanLength(buf, i);
    if length.None? { return Bad; }
    r := ParseBodyAt(buf, pos, i + length.value.1, length.value.0, length.value.1, neg);
  }

  /** What follows the digits of a bulk length. */
  method ParseBodyAt(buf: Bytes, pos: nat, at: nat, n: nat, digits: nat, neg: bool) returns (r: Parsed<Option<Bytes>>)
    requires pos <= at <= |buf|
    ensures r == BulkBody(buf[pos..], at - pos, n, digits, neg)
  {
    var i := at;
    if digits == 0 { return if i >= |buf| then Incomplete else Bad; }
    if i >= |buf| { return Incomplete; }
    if buf[i] != CR { return Bad; }
    if i + 1 >= |buf| { return Incomplete; }
    if buf[i + 1] != LF { return Bad; }
    i := i + 2;
    if neg { return Got(None, i - pos); }
    if n > MAX_BULK { return Bad; }
    if i + n + 2 > |buf| { return Incomplete; }
    if buf[i + n] != CR || buf[i + n + 1] != LF { return Bad; }
    assert buf[pos..][i - pos..i - pos + n] == buf[i..i + n];
    return Got(Some(buf[i..i + n]), i + n + 2 - pos);
  }

  /** parse_command at a position of the buffer. */
  method ParseCommandAt(buf: Bytes, pos: nat) returns (r: Parsed<seq<Bytes>>)
    requires pos <= |buf|
    ensures r == ParseCommand(buf[pos..], AsWritten)
  {
    hide ParseArgs, ParseBulk;
    var h := ParseHeaderAt(buf, pos);
    HeaderBound(buf[pos..]);
    if !h.Got? { return if h.Incomplete? then Incomplete else Bad; }
    var i, argc := pos + h.used, h.value;
    var argv: seq<Bytes> := [];
    ghost var s := buf[pos..][h.used..];
    assert s == buf[i..];
    OntoNothing(ParseArgs(s, argc, AsWritten));
    while |argv| < argc
      invariant i <= |buf| && |argv| <= argc && pos + h.used <= i
      invariant ParseArgs(s, argc, AsWritten)
             == Onto(argv, i - pos - h.used, ParseArgs(buf[i..], argc - |argv|, AsWritten))
      decreases argc - |argv|
    {
      ArgsStep(buf[i..], argc - |argv|);
      var b := ParseBulkAt(buf, i);
      BulkBound(buf[i..], AsWritten);
      if !b.Got? { return if b.Incomplete? then Incomplete else Bad; }
      if b.value.None? { return Bad; }
      assert buf[i..][b.used..] == buf[i + b.used..];
      OntoTwice(argv, i - pos - h.used, b.value.value, b.used,
                ParseArgs(buf[i + b.used..], argc - |argv| - 1, AsWritten));
      argv, i := argv + [b.value.value], i + b.used;
    }
    ArgsStep(buf[i..], 0);
    assert argv + [] == argv;
    return Got(argv, i - pos);
  }

  /** The parse of the remaining bulks, put behind those already read. */
  function Onto(argv: seq<Bytes>, used: nat, r: Parsed<seq<Bytes>>): Parsed<seq<Bytes>> {
    match r
    case Got(rest, more) => Got(argv + rest, used + more)
    case other => other
  }

  lemma OntoNothing(r: Parsed<seq<Bytes>>)
    ensures Onto([], 0, r) == r
  {
    if r.Got? { assert [] + r.value == r.value; }
  }

  lemma OntoTwice(argv: seq<Bytes>, used: nat, a: Bytes, more: nat, r: Parsed<seq<Bytes>>)
    ensures Onto(argv, used, Onto([a], more, r)) == Onto(argv + [a], used + more, r)
  {
    if r.Got? { assert argv + ([a] + r.value) == argv + [a] + r.value; }
  }

  lemma ArgsStep(s: Bytes, n: nat)
    ensures ParseArgs(s, n, AsWritten) ==
      if n == 0 then Got([], 0)
      else match ParseBulk(s, AsWritten)
        case Incomplete => Incomplete
        case Bad => Bad
        case Got(None, _) => Bad
        case Got(Some(a), used) =>
          if used > |s| then Bad else Onto([a], used, ParseArgs(s[used..], n - 1, AsWritten))
  {
  }

  method ParseHeaderAt(buf: Bytes, pos: nat) returns (r: Parsed<nat>)
    requires pos <= |buf|
    ensures r == ParseHeader(buf[pos..])
  {
    if pos >= |buf| { return Incomplete; }
    if buf[pos] != ASTERISK { return Bad; }
    ghost var s := buf[pos..];
    var i := pos + 1;
    var n: nat, digits: nat := 0, 0;
    while i < |buf| && IsDigit(buf[i])
      invariant pos + 1 <= i <= |buf| && i == pos + 1 + digits
      invariant ScanDigits(buf[i..], n, digits) == ScanDigits(s[1..], 0, 0)
    {
      assert buf[i..][0] == buf[i] && buf[i..][1..] == buf[i + 1..];
      n, i, digits := n * 10 + (buf[i] - ZERO), i + 1, digits + 1;
    }
    if digits == 0 { return if i >= |buf| then Incomplete else Bad; }
    if i >= |buf| { return Incomplete; }
    if buf[i] != CR { return Bad; }
    if i + 1 >= |buf| { return Incomplete; }
    if buf[i + 1] != LF { return Bad; }
    if n > MAX_ARGV { return Bad; }
    return Got(n, i + 2 - pos);
  }

  /** The parsing loop of process_reads. */
  method ProcessReads(buf: Bytes) returns (r: Reading)
    ensures r == Drain(buf, AsWritten)
  {
    hide ParseCommand;
    var cmds: seq<seq<Bytes>> := [];
    var pos := 0;
    var broken := false;
    assert buf[0..] == buf;
    while pos < |buf| && !broken
      invariant pos <= |buf|
      invariant !broken ==> (var d := Drain(buf[pos..], AsWritten);
                             Drain(buf, AsWritten) == d.(commands := cmds + d.commands))
      invariant broken ==> Drain(buf, AsWritten) == Reading(cmds, buf[pos..], true)
      decreases |buf| - pos, !broken
    {
      var p := ParseCommandAt(buf, pos);
      CommandBound(buf[pos..], AsWritten);
      if p.Incomplete? { break; }
      if p.Bad? {
        broken := true;
      } else {
        assert buf[pos..][p.used..] == buf[pos + p.used..];
        assert forall d: Reading :: (cmds + [p.value]) + d.commands == cmds + ([p.value] + d.commands);
        cmds, pos := cmds + [p.value], pos + p.used;
      }
    }
    return Reading(cmds, buf[pos..], broken);
  }
}
