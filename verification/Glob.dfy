/** Wildcard matching within one path segment. */
module Glob {

  /** The meaning of a pattern: `?` is any one character, `*` any run of characters. */
  predicate Matches(p: string, s: string)
    decreases |p| + |s|
  {
    if p == [] then s == []
    else if p[0] == '*' then Matches(p[1..], s) || (s != [] && Matches(p, s[1..]))
    else s != [] && (p[0] == '?' || p[0] == s[0]) && Matches(p[1..], s[1..])
  }

  function Joined(pieces: seq<string>): string {
    if pieces == [] then [] else pieces[0] + Joined(pieces[1..])
  }

  /** What a pattern character stands for: a star any piece, `?` any one character, another itself. */
  predicate StandsFor(c: char, piece: string) {
    c == '*' || (|piece| == 1 && (c == '?' || piece[0] == c))
  }

  /** The subject cut into one piece for each pattern character. */
  predicate CutInto(p: string, s: string, pieces: seq<string>) {
    |pieces| == |p| && Joined(pieces) == s && forall i :: 0 <= i < |p| ==> StandsFor(p[i], pieces[i])
  }

  lemma CutMore(p: string, s: string, piece: string, pieces: seq<string>)
    requires p != [] && StandsFor(p[0], piece) && CutInto(p[1..], s, pieces)
    ensures CutInto(p, piece + s, [piece] + pieces)
  {
    forall i | 0 <= i < |p|
      ensures StandsFor(p[i], ([piece] + pieces)[i])
    {
      assert i > 0 ==> p[i] == p[1..][i - 1];
    }
  }

  lemma {:induction false} MatchesCuts(p: string, s: string) returns (pieces: seq<string>)
    requires Matches(p, s)
    ensures CutInto(p, s, pieces)
    decreases |p| + |s|
  {
    if p == [] {
      pieces := [];
    } else if p[0] == '*' && !Matches(p[1..], s) {
      var rest := MatchesCuts(p, s[1..]);
      pieces := [[s[0]] + rest[0]] + rest[1..];
      assert Joined(pieces) == [s[0]] + rest[0] + Joined(rest[1..]);
    } else {
      var n := if p[0] == '*' then 0 else 1;
      var rest := MatchesCuts(p[1..], s[n..]);
      pieces := [s[..n]] + rest;
      CutMore(p, s[n..], s[..n], rest);
      assert s[..n] + s[n..] == s;
    }
  }

  lemma {:induction false} CutsMatch(p: string, s: string, pieces: seq<string>)
    requires CutInto(p, s, pieces)
    ensures Matches(p, s)
    decreases |p| + |s|
  {
    if p != [] {
      var first, rest := pieces[0], pieces[1..];
      if p[0] == '*' && first != [] {
        var less := [first[1..]] + rest;
        assert s[1..] == Joined(less) && |s| > 0;
        CutsMatch(p, s[1..], less);
      } else {
        assert s[|first|..] == Joined(rest);
        CutsMatch(p[1..], s[|first|..], rest);
      }
    }
  }

  /** A pattern means that the subject can be cut up by it. */
  lemma MatchesIff(p: string, s: string)
    ensures Matches(p, s) <==> exists pieces :: CutInto(p, s, pieces)
  {
    if Matches(p, s) {
      var pieces := MatchesCuts(p, s);
    }
    if pieces :| CutInto(p, s, pieces) {
      CutsMatch(p, s, pieces);
    }
  }

  /** Where the matcher stands: next pattern and subject positions, the last star taken and where it was tried. */
  datatype Cursor = Cursor(pi: nat, si: nat, star: int, ss: nat)

  /** One turn of the loop; None when the loop returns false. */
  datatype Turn = Go(next: Cursor) | Refuse

  predicate Placed(p: string, s: string, c: Cursor) {
    && c.pi <= |p| && c.ss <= c.si <= |s|
    && -1 <= c.star < c.pi + (if c.star == -1 then 1 else 0)
    && (if c.star == -1 then c.ss == 0 else p[c.star] == '*')
  }

  function Advance(p: string, s: string, c: Cursor): Turn
    requires Placed(p, s, c) && c.si < |s|
  {
    if c.pi < |p| && (p[c.pi] == '?' || p[c.pi] == s[c.si]) then
      Go(c.(pi := c.pi + 1, si := c.si + 1))
    else if c.pi < |p| && p[c.pi] == '*' then
      Go(Cursor(c.pi + 1, c.si, c.pi, c.si))
    else if c.star != -1 then
      Go(Cursor((c.star + 1) as nat, c.ss + 1, c.star, c.ss + 1))
    else
      Refuse
  }

  predicate OnlyStars(p: string, pi: nat)
    requires pi <= |p|
    decreases |p| - pi
  {
    pi == |p| || (p[pi] == '*' && OnlyStars(p, pi + 1))
  }

  /** The outcome of the loop from a cursor on. */
  predicate Greedy(p: string, s: string, c: Cursor)
    requires Placed(p, s, c)
    decreases |s| - c.ss, |p| - c.star, |s| - c.si
  {
    if c.si == |s| then OnlyStars(p, c.pi)
    else
      match Advance(p, s, c)
      case Refuse => false
      case Go(next) => Greedy(p, s, next)
  }

  const START := Cursor(0, 0, -1, 0)

  /** seg_match. */
  method SegMatch(p: string, s: string) returns (r: bool)
    ensures r == Greedy(p, s, START)
    ensures r ==> Matches(p, s)
    ensures '*' !in s ==> (r <==> Matches(p, s))
  {
    GreedyIsRest(p, s, START);
    var pi, si: nat := 0, 0;
    var star, ss: nat := -1, 0;
    while si < |s|
      invariant Placed(p, s, Cursor(pi, si, star, ss))
      invariant Greedy(p, s, START) == Greedy(p, s, Cursor(pi, si, star, ss))
      decreases |s| - ss, |p| - star, |s| - si
    {
      if pi < |p| && (p[pi] == '?' || p[pi] == s[si]) {
        pi := pi + 1;
        si := si + 1;
      } else if pi < |p| && p[pi] == '*' {
        star := pi;
        ss := si;
        pi := pi + 1;
      } else if star != -1 {
        pi := star + 1;
        ss := ss + 1;
        si := ss;
      } else {
        return false;
      }
    }
    while pi < |p| && p[pi] == '*'
      invariant pi <= |p| && OnlyStars(p, pi) == Greedy(p, s, START)
    {
      pi := pi + 1;
    }
    r := pi == |p|;
  }

  lemma {:induction false} OnlyStarsMatchesEmpty(p: string, pi: nat)
    requires pi <= |p|
    ensures OnlyStars(p, pi) <==> Matches(p[pi..], [])
    decreases |p| - pi
  {
    if pi < |p| {
      OnlyStarsMatchesEmpty(p, pi + 1);
    }
  }

  /** The pattern characters since the last star match the subject characters since its trial position one for one. */
  ghost predicate Aligned(p: string, s: string, c: Cursor)
    requires Placed(p, s, c)
  {
    var from := c.star + 1;
    && c.pi - from == c.si - c.ss
    && forall i :: from <= i < c.pi ==> p[i] == '?' || p[i] == s[c.ss + (i - from)]
  }

  /** Matching from the last star on, or from the start. */
  ghost predicate Rest(p: string, s: string, c: Cursor)
    requires Placed(p, s, c)
  {
    if c.star == -1 then Matches(p, s) else Matches(p[c.star..], s[c.ss..])
  }

  /** Aligned characters can be put back on both sides. */
  lemma {:induction false} RestoreAligned(p: string, s: string, from: nat, at: nat, n: nat)
    requires from + n <= |p| && at + n <= |s|
    requires forall i :: from <= i < from + n ==> p[i] == '?' || p[i] == s[at + (i - from)]
    requires Matches(p[from + n..], s[at + n..])
    ensures Matches(p[from..], s[at..])
    decreases n
  {
    if n > 0 {
      assert p[from + 1..] == p[from..][1..] && s[at + 1..] == s[at..][1..];
      RestoreAligned(p, s, from + 1, at + 1, n - 1);
      if p[from] == '*' {
        assert Matches(p[from..], s[at..][1..]);
      }
    }
  }

  /** A match of a run of non-star pattern characters consumes exactly as many subject characters. */
  lemma {:induction false} MatchLiterals(p: string, s: string, from: nat, n: nat, at: nat)
    requires from + n <= |p| && at <= |s| && forall i :: from <= i < from + n ==> p[i] != '*'
    requires Matches(p[from..], s[at..])
    ensures at + n <= |s| && Matches(p[from + n..], s[at + n..])
    decreases n
  {
    if n > 0 {
      assert p[from..][1..] == p[from + 1..] && s[at..][1..] == s[at + 1..];
      MatchLiterals(p, s, from + 1, n - 1, at + 1);
    }
  }

  /** A pattern that starts with a star matches every extension of what it matches. */
  lemma {:induction false} StarAbsorbs(p: string, s: string, at: nat, later: nat)
    requires p != [] && p[0] == '*' && at <= later <= |s| && Matches(p, s[later..])
    ensures Matches(p, s[at..])
    decreases later - at
  {
    if at < later {
      StarAbsorbs(p, s, at + 1, later);
      assert s[at + 1..] == s[at..][1..];
    }
  }

  /** Whatever the last star takes, the pattern after the aligned run matches no earlier than at si. */
  lemma {:induction false} RestAfterRun(p: string, s: string, c: Cursor, at: nat) returns (k: nat)
    requires Placed(p, s, c) && Aligned(p, s, c) && c.star >= 0 && '*' !in s
    requires c.ss <= at <= |s| && Matches(p[c.star..], s[at..])
    ensures c.si <= k <= |s| && Matches(p[c.pi..], s[k..])
    decreases |s| - at
  {
    var from := (c.star + 1) as nat;
    assert p[c.star..][1..] == p[from..];
    if Matches(p[from..], s[at..]) {
      MatchLiterals(p, s, from, c.pi - from, at);
      k := at + (c.pi - from);
    } else {
      assert s[at..][1..] == s[at + 1..];
      k := RestAfterRun(p, s, c, at + 1);
    }
  }

  /** A new star takes over from the previous one without loss. */
  lemma NewStar(p: string, s: string, c: Cursor)
    requires Placed(p, s, c) && Aligned(p, s, c) && c.pi < |p| && p[c.pi] == '*'
    ensures Matches(p[c.pi..], s[c.si..]) ==> Rest(p, s, c)
    ensures '*' !in s && Rest(p, s, c) ==> Matches(p[c.pi..], s[c.si..])
  {
    var from := (c.star + 1) as nat;
    if Matches(p[c.pi..], s[c.si..]) {
      RestoreAligned(p, s, from, c.ss, c.pi - from);
      RunStarts(p, s, c);
    }
    if '*' !in s && Rest(p, s, c) {
      if c.star == -1 {
        RunStarts(p, s, c);
        MatchLiterals(p, s, 0, c.pi, 0);
      } else {
        var k := RestAfterRun(p, s, c, c.ss);
        StarAbsorbs(p[c.pi..], s, c.si, k);
      }
    }
  }

  /** Matching the run at its trial position is one way to match the rest. */
  lemma RunStarts(p: string, s: string, c: Cursor)
    requires Placed(p, s, c)
    ensures Matches(p[c.star + 1..], s[c.ss..]) ==> Rest(p, s, c)
    ensures c.star == -1 ==> p[c.star + 1..] == p && s[c.ss..] == s
  {
    if c.star == -1 {
      assert p[0..] == p && s[0..] == s;
    } else {
      assert p[c.star..][1..] == p[c.star + 1..];
      assert Matches(p[c.star..], s[c.ss..]) <== Matches(p[c.star..][1..], s[c.ss..]);
    }
  }

  /** After a mismatch, or with the pattern used up, the last star must take one more character. */
  lemma Backtrack(p: string, s: string, c: Cursor)
    requires Placed(p, s, c) && Aligned(p, s, c) && c.si < |s| && c.star >= 0
    requires c.pi == |p| || (p[c.pi] != '*' && p[c.pi] != '?' && p[c.pi] != s[c.si])
    ensures Matches(p[c.star..], s[c.ss + 1..]) ==> Rest(p, s, c)
    ensures '*' !in s && Rest(p, s, c) ==> Matches(p[c.star..], s[c.ss + 1..])
  {
    var from := (c.star + 1) as nat;
    assert p[c.star..][1..] == p[from..] && s[c.ss..][1..] == s[c.ss + 1..];
    if '*' !in s && Matches(p[from..], s[c.ss..]) {
      MatchLiterals(p, s, from, c.pi - from, c.ss);
    }
  }

  /** At the end of the subject only stars may be left, and then the whole pattern matches. */
  lemma Ending(p: string, s: string, c: Cursor)
    requires Placed(p, s, c) && Aligned(p, s, c) && c.si == |s|
    ensures OnlyStars(p, c.pi) ==> Rest(p, s, c)
    ensures '*' !in s && Rest(p, s, c) ==> OnlyStars(p, c.pi)
  {
    var from := (c.star + 1) as nat;
    OnlyStarsMatchesEmpty(p, c.pi);
    assert s[c.si..] == [];
    RunStarts(p, s, c);
    if OnlyStars(p, c.pi) {
      RestoreAligned(p, s, from, c.ss, c.pi - from);
    }
    if '*' !in s && Rest(p, s, c) {
      if c.star == -1 {
        MatchLiterals(p, s, 0, c.pi, 0);
      } else {
        var k := RestAfterRun(p, s, c, c.ss);
      }
    }
  }

  /** A refusal without a star to go back to is final. */
  lemma Refusal(p: string, s: string, c: Cursor)
    requires Placed(p, s, c) && Aligned(p, s, c) && c.si < |s| && Advance(p, s, c).Refuse? && '*' !in s
    ensures !Rest(p, s, c)
  {
    RunStarts(p, s, c);
    if Matches(p, s) {
      MatchLiterals(p, s, 0, c.pi, 0);
    }
  }

  /** One turn of the loop loses no match, and finds none that is not there. */
  lemma TurnKeepsRest(p: string, s: string, c: Cursor, next: Cursor)
    requires Placed(p, s, c) && Aligned(p, s, c) && c.si < |s| && Advance(p, s, c) == Go(next)
    ensures Placed(p, s, next) && Aligned(p, s, next)
    ensures Rest(p, s, next) ==> Rest(p, s, c)
    ensures '*' !in s && Rest(p, s, c) ==> Rest(p, s, next)
  {
    if c.pi < |p| && (p[c.pi] == '?' || p[c.pi] == s[c.si]) {
    } else if c.pi < |p| && p[c.pi] == '*' {
      NewStar(p, s, c);
    } else {
      Backtrack(p, s, c);
    }
  }

  /** From any cursor: the loop accepts only true matches, and all of them when the subject has no star. */
  lemma {:induction false} GreedyIsRest(p: string, s: string, c: Cursor)
    requires Placed(p, s, c) && Aligned(p, s, c)
    ensures Greedy(p, s, c) ==> Rest(p, s, c)
    ensures '*' !in s && Rest(p, s, c) ==> Greedy(p, s, c)
    decreases |s| - c.ss, |p| - c.star, |s| - c.si
  {
    if c.si == |s| {
      Ending(p, s, c);
    } else {
      match Advance(p, s, c) {
        case Refuse =>
          if '*' !in s {
            Refusal(p, s, c);
          }
        case Go(next) =>
          TurnKeepsRest(p, s, c, next);
          GreedyIsRest(p, s, next);
      }
    }
  }

  /** n times the pattern character `?`. */
  function Any(n: nat): string {
    if n == 0 then [] else "?" + Any(n - 1)
  }

  lemma {:induction false} AnyMatches(s: string)
    ensures Matches(Any(|s|), s)
  {
    if s != [] {
      AnyMatches(s[1..]);
    }
  }

  /**
   * The pattern that tells the matcher and the definition apart on a segment with a
   * star at position i: single-character wildcards with an extra `*` at i. The star
   * in the segment is taken for the one in the pattern, and a `?` is left over.
   */
  function Breaker(s: string, i: nat): string
    requires i < |s|
  {
    Any(i) + "*" + Any(|s| - i)
  }

  lemma {:induction false} BreakerMatches(s: string, i: nat)
    requires i < |s|
    ensures Matches(Breaker(s, i), s)
    decreases i
  {
    var b := Breaker(s, i);
    if i == 0 {
      assert b[1..] == Any(|s|);
      AnyMatches(s);
    } else {
      assert b[1..] == Breaker(s[1..], i - 1);
      BreakerMatches(s[1..], i - 1);
    }
  }

  lemma {:induction false} AnyAt(n: nat, k: nat)
    requires k < n
    ensures |Any(n)| == n && Any(n)[k] == '?'
  {
    if k > 0 {
      AnyAt(n - 1, k - 1);
    } else if n > 1 {
      AnyAt(n - 1, 0);
    }
  }

  lemma {:induction false} BreakerRefused(s: string, i: nat, k: nat)
    requires i < |s| && s[i] == '*' && k <= |s|
    ensures Placed(Breaker(s, i), s, Cursor(k, k, -1, 0)) && !Greedy(Breaker(s, i), s, Cursor(k, k, -1, 0))
    decreases |s| - k
  {
    var b := Breaker(s, i);
    assert |b| == |s| + 1 && (forall j :: 0 <= j < |b| ==> b[j] == if j == i then '*' else '?') by {
      forall n: nat ensures |Any(n)| == n {
        if n > 0 { AnyAt(n, 0); }
      }
      forall j | 0 <= j < |b| ensures b[j] == if j == i then '*' else '?' {
        if j < i { AnyAt(i, j); } else if j > i { AnyAt(|s| - i, j - i - 1); }
      }
    }
    if k < |s| {
      BreakerRefused(s, i, k + 1);
    }
  }

  /** The matcher agrees with the definition on every pattern exactly for the segments without a star. */
  lemma AgreesIffNoStar(s: string)
    ensures (forall p :: Greedy(p, s, START) == Matches(p, s)) <==> '*' !in s
  {
    if '*' !in s {
      forall p ensures Greedy(p, s, START) == Matches(p, s) {
        GreedyIsRest(p, s, START);
      }
    } else {
      var i :| 0 <= i < |s| && s[i] == '*';
      BreakerMatches(s, i);
      BreakerRefused(s, i, 0);
    }
  }

  /** The concrete case: the segment `*x` matches the pattern `*`, but the matcher refuses it. */
  lemma StarInSegment()
    ensures Matches("*", "*x") && !Greedy("*", "*x", START)
  {
    assert Matches("*", "*x") by {
      assert "*x"[1..] == "x" && "x"[1..] == "";
      assert Matches("*", "") && Matches("*", "x");
    }
    assert !Greedy("*", "*x", Cursor(1, 1, -1, 0));
  }
}
