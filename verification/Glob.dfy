/** The MATCH pattern language of SCAN, HSCAN and KEYS: `*` and `?`. */
module Glob {
  import opened Common

  const STAR: Byte := 42
  const QUESTION: Byte := 63

  /** `?` is any one byte, `*` any run of bytes, everything else itself. */
  predicate Matches(p: Bytes, s: Bytes)
    decreases |p| + |s|
  {
    if |p| == 0 then |s| == 0
    else if p[0] == STAR then Matches(p[1..], s) || (|s| > 0 && Matches(p, s[1..]))
    else |s| > 0 && (p[0] == QUESTION || p[0] == s[0]) && Matches(p[1..], s[1..])
  }

  /** A pattern that starts with a star matches a string if it matches a suffix. */
  lemma {:induction false} StarSkips(p: Bytes, s: Bytes, i: nat)
    requires |p| > 0 && p[0] == STAR && i <= |s| && Matches(p, s[i..])
    ensures Matches(p, s)
    decreases i
  {
    if i == 0 {
      assert s[0..] == s;
    } else {
      assert s[1..][i - 1..] == s[i..];
      StarSkips(p, s[1..], i - 1);
    }
  }

  /** A leading star matches exactly when the rest matches some suffix. */
  lemma {:induction false} StarSplits(p: Bytes, s: Bytes) returns (i: nat)
    requires |p| > 0 && p[0] == STAR && Matches(p, s)
    ensures i <= |s| && Matches(p[1..], s[i..])
    decreases |s|
  {
    if Matches(p[1..], s) {
      i := 0;
      assert s[0..] == s;
    } else {
      var j := StarSplits(p, s[1..]);
      i := j + 1;
      assert s[1..][j..] == s[i..];
    }
  }

  /** A star-free stretch `q` consumes one byte per pattern byte. */
  predicate StarFree(q: Bytes) {
    forall i :: 0 <= i < |q| ==> q[i] != STAR
  }

  /** Why remembering only the last star loses nothing: if the stretch between two
      stars fits at its earliest place, then whatever a later place would allow, the
      second star already allows from the earlier one. */
  lemma {:induction false} LaterPlaceAddsNothing(q: Bytes, rest: Bytes, s: Bytes, early: nat, late: nat)
    requires StarFree(q) && |rest| > 0 && rest[0] == STAR
    requires early <= late && late <= |s| && early + |q| <= |s|
    requires Matches(q + rest, s[late..])
    ensures Matches(rest, s[early + |q|..])
  {
    Consumes(q, rest, s[late..]);
    assert s[late..][|q|..] == s[late + |q|..];
    assert s[early + |q|..][late - early..] == s[late + |q|..];
    StarSkips(rest, s[early + |q|..], late - early);
  }

  lemma {:induction false} Consumes(q: Bytes, rest: Bytes, s: Bytes)
    requires StarFree(q) && Matches(q + rest, s)
    ensures |q| <= |s| && Matches(rest, s[|q|..])
    decreases |q|
  {
    if |q| == 0 {
      assert q + rest == rest && s[0..] == s;
    } else {
      assert (q + rest)[0] == q[0] && (q + rest)[1..] == q[1..] + rest;
      Consumes(q[1..], rest, s[1..]);
      assert s[1..][|q| - 1..] == s[|q|..];
    }
  }

  // one step of the scan, seen from the recursive meaning

  lemma StepForward(pat: Bytes, str: Bytes, pi: nat, si: nat)
    requires pi < |pat| && si < |str| && pat[pi] != STAR && (pat[pi] == QUESTION || pat[pi] == str[si])
    ensures Matches(pat[pi..], str[si..]) <==> Matches(pat[pi + 1..], str[si + 1..])
  {
    assert pat[pi..][1..] == pat[pi + 1..] && str[si..][1..] == str[si + 1..];
  }

  lemma StepStuck(pat: Bytes, str: Bytes, pi: nat, si: nat)
    requires pi <= |pat| && si < |str|
    requires pi < |pat| ==> pat[pi] != STAR && pat[pi] != QUESTION && pat[pi] != str[si]
    ensures !Matches(pat[pi..], str[si..])
  {
  }

  lemma StepBack(pat: Bytes, str: Bytes, starP: nat, starS: nat)
    requires starP < |pat| && pat[starP] == STAR && starS < |str|
    requires !Matches(pat[starP + 1..], str[starS..])
    ensures Matches(pat[starP..], str[starS..]) <==> Matches(pat[starP..], str[starS + 1..])
  {
    assert pat[starP..][1..] == pat[starP + 1..] && str[starS..][1..] == str[starS + 1..];
  }

  /** The closing loop: only stars may be left over. */
  method TrailingStars(pat: Bytes, from: nat) returns (r: bool)
    requires from <= |pat|
    ensures r == Matches(pat[from..], [])
  {
    var pi := from;
    while pi < |pat| && pat[pi] == STAR
      invariant from <= pi <= |pat|
      invariant Matches(pat[from..], []) <==> Matches(pat[pi..], [])
    {
      assert pat[pi..][1..] == pat[pi + 1..];
      pi := pi + 1;
    }
    return pi == |pat|;
  }

  /** What is known between two steps. Without a star so far, the rest of the pattern
      must match the rest of the string. With one, trying from the last star on decides
      the match, and everything since it was consumed byte for byte. */
  ghost predicate OnTrack(pat: Bytes, str: Bytes, star: Option<(nat, nat)>, pi: nat, si: nat)
    requires pi <= |pat| && si <= |str|
  {
    match star
    case None => pi == si && (Matches(pat, str) <==> Matches(pat[pi..], str[si..]))
    case Some((starP, starS)) =>
      && starP < pi && pat[starP] == STAR && starS <= si
      && si - starS == pi - starP - 1 && StarFree(pat[starP + 1..pi])
      && (Matches(pat, str) <==> Matches(pat[starP..], str[starS..]))
      && (Matches(pat[starP + 1..], str[starS..]) <==> Matches(pat[pi..], str[si..]))
  }

  lemma OnStart(pat: Bytes, str: Bytes)
    ensures OnTrack(pat, str, None, 0, 0)
  {
    assert pat[0..] == pat && str[0..] == str;
  }

  lemma OnStar(pat: Bytes, str: Bytes, star: Option<(nat, nat)>, pi: nat, si: nat)
    requires pi < |pat| && si <= |str| && OnTrack(pat, str, star, pi, si) && pat[pi] == STAR
    ensures OnTrack(pat, str, Some((pi, si)), pi + 1, si)
    ensures star.Some? ==> star.value.0 < pi
  {
    hide Matches, StarFree;
    if star.Some? { NextStar(pat, str, star.value.0, star.value.1, pi, si); }
    NoneStarFree(pat, pi + 1);
  }

  lemma OnMatch(pat: Bytes, str: Bytes, star: Option<(nat, nat)>, pi: nat, si: nat)
    requires pi < |pat| && si < |str| && OnTrack(pat, str, star, pi, si)
    requires pat[pi] != STAR && (pat[pi] == QUESTION || pat[pi] == str[si])
    ensures OnTrack(pat, str, star, pi + 1, si + 1)
  {
    hide Matches, StarFree;
    StepForward(pat, str, pi, si);
    if star.Some? { StarFreeGrows(pat, star.value.0 + 1, pi); }
  }

  lemma OnRetry(pat: Bytes, str: Bytes, starP: nat, starS: nat, pi: nat, si: nat)
    requires pi <= |pat| && si < |str| && OnTrack(pat, str, Some((starP, starS)), pi, si)
    requires pi < |pat| ==> pat[pi] != STAR && pat[pi] != QUESTION && pat[pi] != str[si]
    ensures starP < |pat| && starS < |str| && OnTrack(pat, str, Some((starP, starS + 1)), starP + 1, starS + 1)
  {
    hide Matches, StarFree;
    StepStuck(pat, str, pi, si);
    StepBack(pat, str, starP, starS);
    NoneStarFree(pat, starP + 1);
  }

  lemma OnEnd(pat: Bytes, str: Bytes, star: Option<(nat, nat)>, pi: nat)
    requires pi <= |pat| && OnTrack(pat, str, star, pi, |str|)
    ensures Matches(pat, str) <==> Matches(pat[pi..], [])
  {
    hide Matches, StarFree;
    assert str[|str|..] == [];
    if star.Some? { TailDecides(pat, str, star.value.0, star.value.1, pi); }
  }

  /** ar_glob_match: one pass that backtracks to the last star only. */
  method GlobMatch(pat: Bytes, str: Bytes) returns (r: bool)
    ensures r == Matches(pat, str)
  {
    if |pat| == 0 { return |str| == 0; }
    if |pat| == 1 && pat[0] == STAR {
      OnlyStars(pat, str);
      return true;
    }
    r := Backtrack(pat, str);
  }

  method Backtrack(pat: Bytes, str: Bytes) returns (r: bool)
    ensures r == Matches(pat, str)
  {
    hide Matches, OnTrack;
    var pi: nat, si: nat := 0, 0;
    var star: Option<(nat, nat)> := None;
    OnStart(pat, str);
    while si < |str|
      invariant pi <= |pat| && si <= |str| && OnTrack(pat, str, star, pi, si)
      invariant star.Some? ==> star.value.0 < |pat| && star.value.1 <= si
      decreases if star.Some? then |pat| - star.value.0 else |pat| + 1,
                if star.Some? then |str| - star.value.1 else 0, |str| - si
    {
      if pi < |pat| && pat[pi] == STAR {
        OnStar(pat, str, star, pi, si);
        star, pi := Some((pi, si)), pi + 1;
      } else if pi < |pat| && (pat[pi] == QUESTION || pat[pi] == str[si]) {
        OnMatch(pat, str, star, pi, si);
        pi, si := pi + 1, si + 1;
      } else if star.Some? {
        OnRetry(pat, str, star.value.0, star.value.1, pi, si);
        star := Some((star.value.0, star.value.1 + 1));
        pi, si := star.value.0 + 1, star.value.1;
      } else {
        Missed(pat, str, pi, si);
        return false;
      }
    }
    OnEnd(pat, str, star, pi);
    r := TrailingStars(pat, pi);
  }

  lemma Missed(pat: Bytes, str: Bytes, pi: nat, si: nat)
    requires pi <= |pat| && si < |str| && OnTrack(pat, str, None, pi, si)
    requires pi < |pat| ==> pat[pi] != STAR && pat[pi] != QUESTION && pat[pi] != str[si]
    ensures !Matches(pat, str)
  {
    hide Matches;
    StepStuck(pat, str, pi, si);
  }

  lemma NoneStarFree(pat: Bytes, i: nat)
    requires i <= |pat|
    ensures StarFree(pat[i..i])
  {
  }

  lemma StarFreeGrows(pat: Bytes, i: nat, j: nat)
    requires i <= j < |pat| && StarFree(pat[i..j]) && pat[j] != STAR
    ensures StarFree(pat[i..j + 1])
  {
    assert pat[i..j + 1] == pat[i..j] + [pat[j]];
  }

  lemma {:induction false} OnlyStars(p: Bytes, s: Bytes)
    requires |p| == 1 && p[0] == STAR
    ensures Matches(p, s)
    decreases |s|
  {
    if |s| == 0 {
      assert p[1..] == [];
    } else {
      OnlyStars(p, s[1..]);
    }
  }

  /** At a new star the pattern up to it can be forgotten. */
  lemma NextStar(pat: Bytes, str: Bytes, starP: nat, starS: nat, pi: nat, si: nat)
    requires starP < pi < |pat| && pat[starP] == STAR && pat[pi] == STAR && starS <= si <= |str|
    requires si - starS == pi - starP - 1 && StarFree(pat[starP + 1..pi])
    requires Matches(pat[starP + 1..], str[starS..]) <==> Matches(pat[pi..], str[si..])
    ensures Matches(pat[starP..], str[starS..]) <==> Matches(pat[pi..], str[si..])
  {
    var p, s := pat[starP..], str[starS..];
    assert p[0] == STAR && p[1..] == pat[starP + 1..];
    if Matches(p, s) {
      var t := StarSplits(p, s);
      var q := pat[starP + 1..pi];
      assert p[1..] == q + pat[pi..];
      LaterPlaceAddsNothing(q, pat[pi..], s, 0, t);
      assert s[|q|..] == str[si..];
    }
  }

  /** When the string is used up, only the place tried last can still match. */
  lemma TailDecides(pat: Bytes, str: Bytes, starP: nat, starS: nat, pi: nat)
    requires starP < pi <= |pat| && pat[starP] == STAR && starS <= |str|
    requires |str| - starS == pi - starP - 1 && StarFree(pat[starP + 1..pi])
    requires Matches(pat[starP + 1..], str[starS..]) <==> Matches(pat[pi..], [])
    ensures Matches(pat[starP..], str[starS..]) <==> Matches(pat[pi..], [])
  {
    var p, s := pat[starP..], str[starS..];
    assert p[0] == STAR && p[1..] == pat[starP + 1..];
    if Matches(p, s) {
      var t := StarSplits(p, s);
      var q := pat[starP + 1..pi];
      assert p[1..] == q + pat[pi..];
      Consumes(q, pat[pi..], s[t..]);
      assert t == 0 && s[0..] == s;
    }
  }

  // ----- what the patterns mean, without recursion -----

  function Joined(pieces: seq<Bytes>): Bytes {
    if |pieces| == 0 then [] else pieces[0] + Joined(pieces[1..])
  }

  /** One piece of the string for each byte of the pattern: any piece for a star (42), any one
      byte for a question mark (63), the byte itself otherwise. */
  ghost predicate PieceFits(c: Byte, piece: Bytes) {
    c == 42 || (|piece| == 1 && (c == 63 || piece[0] == c))
  }

  ghost predicate Cuts(p: Bytes, s: Bytes, pieces: seq<Bytes>) {
    |pieces| == |p| && Joined(pieces) == s && forall i :: 0 <= i < |p| ==> PieceFits(p[i], pieces[i])
  }

  lemma {:induction false} CutOf(p: Bytes, s: Bytes) returns (pieces: seq<Bytes>)
    requires Matches(p, s)
    ensures Cuts(p, s, pieces)
    decreases |p|
  {
    if |p| == 0 {
      pieces := [];
    } else {
      var i := 1;
      if p[0] == STAR { i := StarSplits(p, s); }
      var rest := CutOf(p[1..], s[i..]);
      pieces := [s[..i]] + rest;
      assert pieces[1..] == rest && s == s[..i] + s[i..];
      forall j | 0 <= j < |p| ensures PieceFits(p[j], pieces[j]) {
        if j > 0 { assert PieceFits(p[1..][j - 1], rest[j - 1]); }
      }
    }
  }

  lemma {:induction false} CutMatches(p: Bytes, s: Bytes, pieces: seq<Bytes>)
    requires Cuts(p, s, pieces)
    ensures Matches(p, s)
    decreases |p|
  {
    if |p| == 0 {
    } else {
      var i := |pieces[0]|;
      assert s[i..] == Joined(pieces[1..]) && PieceFits(p[0], pieces[0]);
      forall j | 0 <= j < |p[1..]| ensures PieceFits(p[1..][j], pieces[1..][j]) {
        assert PieceFits(p[j + 1], pieces[j + 1]);
      }
      CutMatches(p[1..], s[i..], pieces[1..]);
      if p[0] == STAR { StarMore(p, s, i); }
    }
  }

  lemma StarMore(p: Bytes, s: Bytes, i: nat)
    requires |p| > 0 && p[0] == STAR && i <= |s| && Matches(p[1..], s[i..])
    ensures Matches(p, s)
  {
    assert Matches(p, s[i..]);
    StarSkips(p, s, i);
  }

  /** A pattern matches exactly the strings that can be cut into such pieces. */
  lemma MatchesWhen(p: Bytes, s: Bytes)
    ensures Matches(p, s) <==> exists pieces :: Cuts(p, s, pieces)
  {
    if Matches(p, s) { var pieces := CutOf(p, s); }
    if exists pieces :: Cuts(p, s, pieces) {
      var pieces :| Cuts(p, s, pieces);
      CutMatches(p, s, pieces);
    }
  }
}
