/** How a connection's bytes reach the parser: in bursts, into a read buffer that may not
    fill up to 16 MiB; and which streams of commands can arrive at all. */
module Arrivals {
  import opened Common
  import opened Resp

  /** The buffer doubles from 64 KiB; the connection is closed when 16 MiB are full. */
  const READ_LIMIT: nat := 16_777_216

  /** handle_read and process_reads, burst by burst. */
  function Receive(left: Reading, chunks: seq<Bytes>, v: Variant): Reading
    decreases |chunks|
  {
    if |chunks| == 0 || left.broken then left
    else
      var buf := left.rest + chunks[0];
      if |buf| >= READ_LIMIT then Reading(left.commands, buf, true)
      else
        var next := Drain(buf, v);
        Receive(next.(commands := left.commands + next.commands), chunks[1..], v)
  }

  /** Some burst fills the buffer. */
  predicate Overflows(left: Reading, chunks: seq<Bytes>, v: Variant)
    decreases |chunks|
  {
    |chunks| > 0 && !left.broken &&
    (var buf := left.rest + chunks[0];
     var next := Drain(buf, v);
     |buf| >= READ_LIMIT || Overflows(next.(commands := left.commands + next.commands), chunks[1..], v))
  }

  /** Unless a burst fills the buffer the limit makes no difference. */
  lemma {:induction false} ReceiveIsFeed(left: Reading, chunks: seq<Bytes>, v: Variant)
    ensures if Overflows(left, chunks, v) then Receive(left, chunks, v).broken
            else Receive(left, chunks, v) == Feed(left, chunks, v)
    decreases |chunks|
  {
    hide Drain;
    if |chunks| == 0 {
    } else if !left.broken {
      var next := Drain(left.rest + chunks[0], v);
      ReceiveIsFeed(next.(commands := left.commands + next.commands), chunks[1..], v);
    }
  }

  /** A command that can arrive: at most 64 arguments, and under 16 MiB when encoded. */
  predicate Fits(args: seq<Bytes>) {
    |args| <= 64 && |Encode(args)| < 16_777_216
  }

  predicate AllFit(cmds: seq<seq<Bytes>>) {
    forall i :: 0 <= i < |cmds| ==> Fits(cmds[i])
  }

  lemma {:induction false} BulksHold(args: seq<Bytes>, i: nat)
    requires i < |args|
    ensures |args[i]| <= |Bulks(args)|
    decreases i
  {
    if i == 0 {
    } else {
      BulksHold(args[1..], i - 1);
    }
  }

  lemma FitsSendable(args: seq<Bytes>)
    requires Fits(args)
    ensures Sendable(args)
  {
    forall i | 0 <= i < |args| ensures |args[i]| <= MAX_BULK { BulksHold(args, i); }
  }

  /** A command read from the middle of a stream is its first one. */
  lemma FirstTaken(b: Bytes, t: Bytes, cmds: seq<seq<Bytes>>, v: Variant)
    requires b + t == EncodeAll(cmds) && |b| > 0 && ParseCommand(b, v).Got?
    ensures |cmds| > 0 && Sendable(cmds[0]) && ParseCommand(b, v) == Got(cmds[0], |Encode(cmds[0])|)
    ensures 0 < |Encode(cmds[0])| <= |b| && b[|Encode(cmds[0])|..] + t == EncodeAll(cmds[1..])
  {
    hide ParseCommand, Encode, Sendable;
    CommandMore(b, t, v);
    CommandBound(b, v);
    NotNothing(b, t, cmds);
    var rest := EncodeAll(cmds[1..]);
    assert b + t == Encode(cmds[0]) + rest;
    if !Sendable(cmds[0]) { Refused(cmds[0], rest, v); }
    RoundTrip(cmds[0], rest, v);
    var used := ParseCommand(b, v).used;
    assert (b + t)[used..] == b[used..] + t;
    assert (Encode(cmds[0]) + rest)[used..] == rest;
  }

  /** What a buffer in the middle of a stream of commands dispatches: the commands that are
      whole in it, each no longer than the buffer. */
  lemma {:induction false} DrainPrefix(b: Bytes, t: Bytes, cmds: seq<seq<Bytes>>, v: Variant) returns (n: nat)
    requires b + t == EncodeAll(cmds) && !Drain(b, v).broken
    ensures n <= |cmds| && Drain(b, v).commands == cmds[..n]
    ensures Drain(b, v).rest + t == EncodeAll(cmds[n..])
    ensures forall i :: 0 <= i < n ==> Sendable(cmds[i]) && |Encode(cmds[i])| <= |b|
    decreases |b|
  {
    hide ParseCommand, Encode, Sendable;
    n := 0;
    assert cmds[0..] == cmds && cmds[..0] == [];
    if |b| == 0 {
      assert [] + t == t && b + t == t;
    } else {
      var p := ParseCommand(b, v);
      if p.Got? {
        FirstTaken(b, t, cmds, v);
        var m := DrainPrefix(b[p.used..], t, cmds[1..], v);
        n := m + 1;
        assert cmds[..n] == [cmds[0]] + cmds[1..][..m] && cmds[n..] == cmds[1..][m..];
      }
    }
  }

  lemma NotNothing(b: Bytes, t: Bytes, cmds: seq<seq<Bytes>>)
    requires b + t == EncodeAll(cmds) && |b| > 0
    ensures |cmds| > 0
  {
  }

  lemma BrokenStays(left: Reading, chunks: seq<Bytes>, v: Variant)
    ensures left.broken ==> Receive(left, chunks, v) == left
  {
  }

  /** What is left over when the whole stream has been read is nothing. */
  lemma NothingLeft(rest: Bytes, cmds: seq<seq<Bytes>>, v: Variant)
    requires Drain(rest, v) == Reading([], rest, false) && rest == EncodeAll(cmds)
    ensures rest == [] && cmds == []
  {
    hide ParseCommand, Encode, Sendable;
    if |cmds| > 0 {
      var more := EncodeAll(cmds[1..]);
      assert |rest| > 0 by { EncodeSome(cmds[0]); }
      if Sendable(cmds[0]) { RoundTrip(cmds[0], more, v); } else { Refused(cmds[0], more, v); }
    }
  }

  /** However a stream of commands arrives: if the connection stays open, every command of
      it was dispatched, in order, and every one fits. */
  lemma {:induction false} TakenFits(left: Reading, chunks: seq<Bytes>, cmds: seq<seq<Bytes>>, v: Variant)
    requires !left.broken && Drain(left.rest, v) == Reading([], left.rest, false)
    requires left.rest + Concat(chunks) == EncodeAll(cmds) && !Receive(left, chunks, v).broken
    ensures Receive(left, chunks, v) == Reading(left.commands + cmds, [], false) && AllFit(cmds)
    decreases |chunks|
  {
    hide Drain, Encode;
    if |chunks| == 0 {
      assert left.rest + Concat(chunks) == left.rest;
      NothingLeft(left.rest, cmds, v);
      assert left.commands + [] == left.commands;
    } else {
      var buf, t := left.rest + chunks[0], Concat(chunks[1..]);
      assert left.rest + Concat(chunks) == buf + t;
      var d := Drain(buf, v);
      BrokenStays(d.(commands := left.commands + d.commands), chunks[1..], v);
      var n := DrainPrefix(buf, t, cmds, v);
      DrainTwice(buf, v);
      TakenFits(d.(commands := left.commands + d.commands), chunks[1..], cmds[n..], v);
      assert left.commands + cmds[..n] + cmds[n..] == left.commands + cmds;
      forall i | 0 <= i < |cmds| ensures Fits(cmds[i]) {
        if i >= n { assert cmds[i] == cmds[n..][i - n]; }
      }
    }
  }

  /** One command a burst. */
  function Singly(cmds: seq<seq<Bytes>>): seq<Bytes> {
    if |cmds| == 0 then [] else [Encode(cmds[0])] + Singly(cmds[1..])
  }

  lemma {:induction false} SinglyTaken(left: Reading, cmds: seq<seq<Bytes>>, v: Variant)
    requires !left.broken && left.rest == [] && AllFit(cmds)
    ensures Concat(Singly(cmds)) == EncodeAll(cmds)
    ensures Receive(left, Singly(cmds), v) == Reading(left.commands + cmds, [], false)
    decreases |cmds|
  {
    hide Drain, Encode, Fits;
    if |cmds| == 0 {
      assert left.commands + [] == left.commands;
    } else {
      var b := Encode(cmds[0]);
      assert [] + b == b && Singly(cmds)[1..] == Singly(cmds[1..]);
      assert Fits(cmds[0]);
      assert |b| < READ_LIMIT && Drain(b, v) == Reading([cmds[0]], [], false) by { OneBurst(cmds[0], v); }
      SinglyTaken(Reading(left.commands + [cmds[0]], [], false), cmds[1..], v);
      assert left.commands + [cmds[0]] + cmds[1..] == left.commands + cmds;
    }
  }

  lemma OneBurst(args: seq<Bytes>, v: Variant)
    requires Fits(args)
    ensures |Encode(args)| < READ_LIMIT && Drain(Encode(args), v) == Reading([args], [], false)
  {
    hide ParseCommand, Encode, Drain;
    FitsSendable(args);
    RoundTrip(args, [], v);
    assert Encode(args) + [] == Encode(args);
    DrainOne(Encode(args), args, v);
  }

  /** The stream of these commands can arrive so that the connection stays open. */
  ghost predicate CanArrive(cmds: seq<seq<Bytes>>, v: Variant) {
    exists chunks: seq<Bytes> :: Concat(chunks) == EncodeAll(cmds) && !Receive(NOTHING_READ, chunks, v).broken
  }

  /** It can if and only if every command fits. */
  lemma ArrivesWhen(cmds: seq<seq<Bytes>>, v: Variant)
    ensures CanArrive(cmds, v) <==> AllFit(cmds)
  {
    hide AllFit, Receive;
    if AllFit(cmds) { SinglyTaken(NOTHING_READ, cmds, v); }
    if CanArrive(cmds, v) {
      var chunks: seq<Bytes> :| Concat(chunks) == EncodeAll(cmds) && !Receive(NOTHING_READ, chunks, v).broken;
      assert NOTHING_READ.rest + Concat(chunks) == Concat(chunks);
      TakenFits(NOTHING_READ, chunks, cmds, v);
    }
  }
}
