/**
 * Changed hunks, what a clean or dirty verdict on a range means, and the
 * coordinate map. The diff itself is any valid edit script.
 */
module Diff {
  import Records

  datatype Op =
    | Equal(oldIndex: nat, newIndex: nat, len: nat)
    | Delete(oldIndex: nat, newIndex: nat, oldLen: nat)
    | Insert(oldIndex: nat, newIndex: nat, newLen: nat)
    | Replace(oldIndex: nat, newIndex: nat, oldLen: nat, newLen: nat)
  {
    function OldExtent(): nat {
      match this
      case Equal(_, _, len) => len
      case Delete(_, _, oldLen) => oldLen
      case Insert(_, _, _) => 0
      case Replace(_, _, oldLen, _) => oldLen
    }

    function NewExtent(): nat {
      match this
      case Equal(_, _, len) => len
      case Delete(_, _, _) => 0
      case Insert(_, _, newLen) => newLen
      case Replace(_, _, _, newLen) => newLen
    }
  }

  /** ops turn was[i..] into now[j..], piece after piece. */
  ghost predicate Script<T>(ops: seq<Op>, was: seq<T>, now: seq<T>, i: nat, j: nat)
    decreases |ops|
  {
    if ops == [] then i == |was| && j == |now|
    else
      var op := ops[0];
      var i', j' := i + op.OldExtent(), j + op.NewExtent();
      && op.oldIndex == i && op.newIndex == j && i' <= |was| && j' <= |now|
      && (op.Equal? ==> was[i..i'] == now[j..j'])
      && (op.Replace? ==> op.oldLen > 0)
      && Script(ops[1..], was, now, i', j')
  }

  datatype Hunk = Hunk(pos: nat, len: nat, insertion: bool, oldLen: nat, newLen: nat)

  function Max(a: nat, b: nat): nat {
    if a > b then a else b
  }

  /** hunks_from_ops. */
  function HunksOf(ops: seq<Op>): seq<Hunk> {
    if ops == [] then []
    else
      var rest := HunksOf(ops[1..]);
      match ops[0]
      case Equal(_, _, _) => rest
      case Delete(i, _, n) => [Hunk(i, n, false, n, 0)] + rest
      case Insert(i, _, n) => [Hunk(i, n, true, 0, n)] + rest
      case Replace(i, _, n, m) => [Hunk(i, Max(n, m), false, n, m)] + rest
  }

  lemma {:induction false} HunksLieAhead<T>(ops: seq<Op>, was: seq<T>, now: seq<T>, i: nat, j: nat)
    requires Script(ops, was, now, i, j)
    ensures forall h :: h in HunksOf(ops) ==> i <= h.pos
    decreases |ops|
  {
    if ops != [] {
      HunksLieAhead(ops[1..], was, now, i + ops[0].OldExtent(), j + ops[0].NewExtent());
    }
  }

  // ---- Dirty ranges ----

  datatype Span = Span(start: nat, end: nat)

  predicate Touches(h: Hunk, r: Span) {
    (h.pos < r.end && h.pos + h.len > r.start) || (h.insertion && h.pos == r.end)
  }

  predicate Dirtied(hunks: seq<Hunk>, r: Span) {
    exists h :: h in hunks && Touches(h, r)
  }

  /**
   * A piece of a script that does not concern a range. A change counts with the larger of what it
   * takes and what it puts in its place: it must end before the range that far, or begin behind it.
   * An insertion right at the end of the range does concern it.
   */
  predicate LeavesAlone(op: Op, r: Span) {
    match op
    case Equal(_, _, _) => true
    case Delete(i, _, gone) => i + gone <= r.start || r.end <= i
    case Insert(i, _, put) => (i + put <= r.start && i < r.end) || r.end < i
    case Replace(i, _, gone, put) => (i + gone <= r.start && i + put <= r.start) || r.end <= i
  }

  /** Some piece of the script concerns the range. */
  predicate Disturbed(ops: seq<Op>, r: Span) {
    exists op :: op in ops && !LeavesAlone(op, r)
  }

  /** The hunks of a script dirty a range exactly when some piece of the script concerns it. */
  lemma {:induction false} DirtiedIff(ops: seq<Op>, r: Span)
    requires r.start <= r.end
    ensures Dirtied(HunksOf(ops), r) <==> Disturbed(ops, r)
    decreases |ops|
  {
    if ops != [] {
      var op, rest := ops[0], ops[1..];
      DirtiedIff(rest, r);
      assert ops == [op] + rest;
      assert Disturbed(ops, r) <==> !LeavesAlone(op, r) || Disturbed(rest, r);
      if op.Equal? {
        assert HunksOf(ops) == HunksOf(rest);
      } else {
        var h := HunksOf(ops)[0];
        assert HunksOf(ops) == [h] + HunksOf(rest);
        assert Touches(h, r) <==> !LeavesAlone(op, r);
        assert Dirtied(HunksOf(ops), r) <==> Touches(h, r) || Dirtied(HunksOf(rest), r);
      }
    }
  }

  /** dirtied_by: for the hunks of any script it marks exactly the ranges that a piece of the script concerns. */
  method DirtiedBy(hunks: seq<Hunk>, ranges: seq<Span>) returns (dirty: seq<bool>)
    ensures |dirty| == |ranges| && forall k :: 0 <= k < |ranges| ==> dirty[k] == Dirtied(hunks, ranges[k])
    ensures forall ops, k :: HunksOf(ops) == hunks && 0 <= k < |ranges| && ranges[k].start <= ranges[k].end ==>
      dirty[k] == Disturbed(ops, ranges[k])
  {
    dirty := [];
    for k := 0 to |ranges|
      invariant |dirty| == k && forall m :: 0 <= m < k ==> dirty[m] == Dirtied(hunks, ranges[m])
    {
      var any := false;
      for n := 0 to |hunks|
        invariant any <==> exists m :: 0 <= m < n && Touches(hunks[m], ranges[k])
      {
        if Touches(hunks[n], ranges[k]) {
          any := true;
        }
      }
      assert any <==> Dirtied(hunks, ranges[k]);
      dirty := dirty + [any];
    }
    forall ops, k | HunksOf(ops) == hunks && 0 <= k < |ranges| && ranges[k].start <= ranges[k].end
      ensures dirty[k] == Disturbed(ops, ranges[k])
    {
      DirtiedIff(ops, ranges[k]);
    }
  }

  predicate Occurs<T(==)>(fragment: seq<T>, content: seq<T>, k: nat) {
    k + |fragment| <= |content| && content[k..k + |fragment|] == fragment
  }

  /** Inside an undirtied range the script copies on without a break. */
  lemma {:induction false} UndirtiedCopies<T>(ops: seq<Op>, was: seq<T>, now: seq<T>, i: nat, j: nat, r: Span)
    requires Script(ops, was, now, i, j) && r.start < i <= r.end <= |was| && !Dirtied(HunksOf(ops), r)
    ensures j + (r.end - i) <= |now| && now[j..j + (r.end - i)] == was[i..r.end]
    decreases |ops|
  {
    if ops != [] && i < r.end {
      var op, rest := ops[0], ops[1..];
      var i', j' := i + op.OldExtent(), j + op.NewExtent();
      if !op.Equal? {
        var h := HunksOf(ops)[0];
        assert h in HunksOf(ops) && Touches(h, r);
        assert false;
      }
      assert HunksOf(ops) == HunksOf(rest);
      if i' <= r.end {
        UndirtiedCopies(rest, was, now, i', j', r);
        JoinedSlices(was, i, i', r.end);
        JoinedSlices(now, j, j', j + (r.end - i));
      } else {
        SliceOfSlice(was, i, i', 0, r.end - i);
        SliceOfSlice(now, j, j', 0, r.end - i);
      }
    }
  }

  /** A range that no hunk dirties survives in one piece. */
  lemma {:induction false} UndirtiedSurvives<T>(ops: seq<Op>, was: seq<T>, now: seq<T>, i: nat, j: nat, r: Span)
    returns (k: nat)
    requires Script(ops, was, now, i, j) && i <= r.start < r.end <= |was| && !Dirtied(HunksOf(ops), r)
    ensures Occurs(was[r.start..r.end], now, k)
    decreases |ops|
  {
    var op, rest := ops[0], ops[1..];
    var i', j' := i + op.OldExtent(), j + op.NewExtent();
    assert forall h :: h in HunksOf(rest) ==> h in HunksOf(ops);
    if i' <= r.start {
      k := UndirtiedSurvives(rest, was, now, i', j', r);
    } else {
      if !op.Equal? {
        var h := HunksOf(ops)[0];
        assert h in HunksOf(ops) && Touches(h, r);
        assert false;
      }
      k := j + (r.start - i);
      CopiedPart(ops, was, now, i, j, r);
    }
  }

  lemma CopiedPart<T>(ops: seq<Op>, was: seq<T>, now: seq<T>, i: nat, j: nat, r: Span)
    requires Script(ops, was, now, i, j) && r.start < r.end <= |was| && !Dirtied(HunksOf(ops), r)
    requires ops != [] && ops[0].Equal? && i <= r.start < i + ops[0].len
    ensures Occurs(was[r.start..r.end], now, j + (r.start - i))
  {
    var i', j', k := i + ops[0].len, j + ops[0].len, j + (r.start - i);
    var n := r.end - r.start;
    if r.end <= i' {
      SliceOfSlice(was, i, i', r.start - i, r.end - i);
      SliceOfSlice(now, j, j', r.start - i, r.end - i);
    } else {
      UndirtiedCopies(ops[1..], was, now, i', j', r);
      SliceOfSlice(was, i, i', r.start - i, i' - i);
      SliceOfSlice(now, j, j', r.start - i, i' - i);
      JoinedSlices(was, r.start, i', r.end);
      JoinedSlices(now, k, j', k + n);
    }
  }

  lemma SliceOfSlice<T>(s: seq<T>, a: nat, b: nat, c: nat, d: nat)
    requires a <= b <= |s| && c <= d <= b - a
    ensures s[a..b][c..d] == s[a + c..a + d]
  {
    var middle := s[a..b];
    assert forall i: nat {:trigger middle[i]} :: i < |middle| ==> middle[i] == s[a + i];
    assert middle[c..d] == s[a + c..a + d];
  }

  lemma JoinedSlices<T>(s: seq<T>, a: nat, b: nat, c: nat)
    requires a <= b <= c <= |s|
    ensures s[a..b] + s[b..c] == s[a..c]
  {
  }

  // ---- Candidates and verdicts ----

  datatype Mode = Text | Byte

  predicate Increasing(c: seq<nat>) {
    forall a, b :: 0 <= a < b < |c| ==> c[a] < c[b]
  }

  /** Every place the fragment occurs, from k on. */
  function ByteCandidates<T(==)>(fragment: seq<T>, content: seq<T>, k: nat): (c: seq<nat>)
    ensures forall a :: 0 <= a < |c| ==> k <= c[a] && Occurs(fragment, content, c[a])
    ensures Increasing(c)
    decreases |content| - k
  {
    if fragment == [] || k + |fragment| > |content| then []
    else if content[k..k + |fragment|] == fragment then [k] + ByteCandidates(fragment, content, k + 1)
    else ByteCandidates(fragment, content, k + 1)
  }

  /** match_indices: the search goes on behind the match it found. */
  function TextCandidates<T(==)>(fragment: seq<T>, content: seq<T>, k: nat): (c: seq<nat>)
    ensures forall a :: 0 <= a < |c| ==> k <= c[a] && Occurs(fragment, content, c[a])
    ensures Increasing(c)
    decreases |content| - k
  {
    if fragment == [] || k + |fragment| > |content| then []
    else if content[k..k + |fragment|] == fragment then [k] + TextCandidates(fragment, content, k + |fragment|)
    else TextCandidates(fragment, content, k + 1)
  }

  function Candidates<T(==)>(mode: Mode, fragment: seq<T>, content: seq<T>): seq<nat> {
    if mode == Byte then ByteCandidates(fragment, content, 0) else TextCandidates(fragment, content, 0)
  }

  /** The byte search misses no occurrence. */
  lemma {:induction false} ByteCandidatesComplete<T>(fragment: seq<T>, content: seq<T>, k: nat, m: nat)
    requires fragment != [] && k <= m && Occurs(fragment, content, m)
    ensures m in ByteCandidates(fragment, content, k)
    decreases |content| - k
  {
    if m != k {
      ByteCandidatesComplete(fragment, content, k + 1, m);
    }
  }

  /** The text search misses only occurrences that overlap a reported one. */
  lemma {:induction false} TextCandidatesCover<T>(fragment: seq<T>, content: seq<T>, k: nat, m: nat) returns (a: nat)
    requires fragment != [] && k <= m && Occurs(fragment, content, m)
    ensures a in TextCandidates(fragment, content, k) && a <= m < a + |fragment|
    decreases |content| - k
  {
    var next := if Occurs(fragment, content, k) then k + |fragment| else k + 1;
    if m < next {
      a := k;
    } else {
      a := TextCandidatesCover(fragment, content, next, m);
    }
  }

  datatype Verdict = Clean | Dirty | Locate | Unverified

  /** assess_range for a range with a body, once both contents are at hand. */
  function Assess<T(==)>(mode: Mode, was: seq<T>, now: seq<T>, ops: seq<Op>, r: Span): Verdict
    requires r.start <= r.end
  {
    if r.end > |was| then Unverified
    else
      var candidates := Candidates(mode, was[r.start..r.end], now);
      if |candidates| > 1 then Locate
      else if |candidates| == 1 && candidates[0] != r.start then Locate
      else if Dirtied(HunksOf(ops), r) then Dirty
      else Clean
  }

  /** Nothing occurs from k on up to the next place searched. */
  lemma {:induction false} ByteSkips<T>(fragment: seq<T>, content: seq<T>, a: nat, b: nat)
    requires fragment != [] && a <= b && forall k :: a <= k < b ==> !Occurs(fragment, content, k)
    ensures ByteCandidates(fragment, content, a) == ByteCandidates(fragment, content, b)
    decreases b - a
  {
    if a < b {
      assert !Occurs(fragment, content, a);
      ByteSkips(fragment, content, a + 1, b);
    }
  }

  lemma {:induction false} TextSkips<T>(fragment: seq<T>, content: seq<T>, a: nat, b: nat)
    requires fragment != [] && a <= b && forall k :: a <= k < b ==> !Occurs(fragment, content, k)
    ensures TextCandidates(fragment, content, a) == TextCandidates(fragment, content, b)
    decreases b - a
  {
    if a < b {
      assert !Occurs(fragment, content, a);
      TextSkips(fragment, content, a + 1, b);
    }
  }

  /** Every occurrence starts inside the span at from, and there is one at from itself. */
  ghost predicate OnlyAt<T>(fragment: seq<T>, content: seq<T>, from: nat) {
    Occurs(fragment, content, from) && forall k: nat :: Occurs(fragment, content, k) ==> from <= k < from + |fragment|
  }

  /** What it means in each mode that the fragment is where it was. */
  ghost predicate InPlace<T>(mode: Mode, fragment: seq<T>, content: seq<T>, from: nat) {
    match mode
    case Byte => forall k: nat :: Occurs(fragment, content, k) <==> k == from
    case Text => OnlyAt(fragment, content, from)
  }

  ghost predicate Absent<T>(fragment: seq<T>, content: seq<T>) {
    forall k: nat :: !Occurs(fragment, content, k)
  }

  /** A search reports one place exactly when the fragment is in place there. */
  lemma SearchAloneIff<T>(mode: Mode, fragment: seq<T>, content: seq<T>, from: nat)
    requires fragment != []
    ensures Candidates(mode, fragment, content) == [from] <==> InPlace(mode, fragment, content, from)
  {
    if Candidates(mode, fragment, content) == [from] {
      assert from in Candidates(mode, fragment, content);
      forall k: nat | Occurs(fragment, content, k)
        ensures if mode == Byte then k == from else from <= k < from + |fragment|
      {
        if mode == Byte {
          ByteCandidatesComplete(fragment, content, 0, k);
        } else {
          var a := TextCandidatesCover(fragment, content, 0, k);
        }
      }
    } else if InPlace(mode, fragment, content, from) {
      assert Occurs(fragment, content, from);
      var next := if mode == Byte then from + 1 else from + |fragment|;
      if mode == Byte {
        ByteSkips(fragment, content, 0, from);
        ByteSkips(fragment, content, next, next + |content|);
      } else {
        TextSkips(fragment, content, 0, from);
        TextSkips(fragment, content, next, next + |content|);
      }
    }
  }

  /** It reports nothing exactly when the fragment occurs nowhere. */
  lemma SearchEmptyIff<T>(mode: Mode, fragment: seq<T>, content: seq<T>)
    requires fragment != []
    ensures Candidates(mode, fragment, content) == [] <==> Absent(fragment, content)
  {
    if Candidates(mode, fragment, content) == [] {
      forall k: nat
        ensures !Occurs(fragment, content, k)
      {
        if Occurs(fragment, content, k) {
          if mode == Byte {
            ByteCandidatesComplete(fragment, content, 0, k);
          } else {
            var a := TextCandidatesCover(fragment, content, 0, k);
          }
        }
      }
    } else {
      assert Candidates(mode, fragment, content)[0] in Candidates(mode, fragment, content);
      assert Occurs(fragment, content, Candidates(mode, fragment, content)[0]);
    }
  }

  /**
   * What each verdict on a range means, in terms of where its recorded text occurs now and of the
   * pieces of the script. An empty range is nowhere to be found, so only the script decides.
   */
  ghost predicate Means<T>(mode: Mode, was: seq<T>, now: seq<T>, ops: seq<Op>, r: Span, v: Verdict)
    requires r.start <= r.end
  {
    var dirtied := Disturbed(ops, r);
    if r.end > |was| then v == Unverified
    else if r.start == r.end then v == if dirtied then Dirty else Clean
    else
      var f := was[r.start..r.end];
      && (v == Clean <==> InPlace(mode, f, now, r.start) && !dirtied)
      && (v == Dirty <==> (InPlace(mode, f, now, r.start) || Absent(f, now)) && dirtied)
      && (v == Locate <==> !InPlace(mode, f, now, r.start) && !Absent(f, now))
      && v != Unverified
  }

  /** The verdict on every range, in both modes, both ways. */
  lemma VerdictMeans<T>(mode: Mode, was: seq<T>, now: seq<T>, ops: seq<Op>, r: Span)
    requires Script(ops, was, now, 0, 0) && r.start <= r.end
    ensures Means(mode, was, now, ops, r, Assess(mode, was, now, ops, r))
  {
    DirtiedIff(ops, r);
    if r.start < r.end <= |was| {
      var f := was[r.start..r.end];
      SearchAloneIff(mode, f, now, r.start);
      SearchEmptyIff(mode, f, now);
      if !Dirtied(HunksOf(ops), r) {
        var k := UndirtiedSurvives(ops, was, now, 0, 0, r);
      }
    }
  }

  /**
   * In byte mode a nonempty range is clean exactly when no piece of the script concerns it and its bytes
   * occur at their old place and nowhere else.
   */
  lemma ByteCleanIff<T>(was: seq<T>, now: seq<T>, ops: seq<Op>, r: Span)
    requires Script(ops, was, now, 0, 0) && r.start < r.end
    ensures Assess(Byte, was, now, ops, r) == Clean <==>
      && r.end <= |was| && (forall op :: op in ops ==> LeavesAlone(op, r))
      && (forall k: nat :: Occurs(was[r.start..r.end], now, k) <==> k == r.start)
  {
    VerdictMeans(Byte, was, now, ops, r);
  }

  /**
   * In text mode a nonempty range is clean exactly when no piece of the script concerns it, its text is
   * in place and every other occurrence begins inside it.
   */
  lemma TextCleanIff<T>(was: seq<T>, now: seq<T>, ops: seq<Op>, r: Span)
    requires Script(ops, was, now, 0, 0) && r.start < r.end
    ensures Assess(Text, was, now, ops, r) == Clean <==>
      && r.end <= |was| && (forall op :: op in ops ==> LeavesAlone(op, r))
      && OnlyAt(was[r.start..r.end], now, r.start)
  {
    VerdictMeans(Text, was, now, ops, r);
  }

  /** A proper beginning of the fragment that is also an end of it. */
  ghost predicate HasBorder<T>(fragment: seq<T>) {
    exists m :: 0 < m < |fragment| && fragment[m..] == fragment[..|fragment| - m]
  }

  /** Two occurrences that overlap give the fragment a border. */
  lemma OverlapIsBorder<T>(fragment: seq<T>, content: seq<T>, k: nat, m: nat)
    requires Occurs(fragment, content, k) && Occurs(fragment, content, k + m) && 0 < m < |fragment|
    ensures HasBorder(fragment)
  {
    var n := |fragment|;
    SliceOfSlice(content, k, k + n, m, n);
    SliceOfSlice(content, k + m, k + m + n, 0, n - m);
    assert fragment[m..] == fragment[m..n];
  }

  lemma NoOverlap<T>(fragment: seq<T>, content: seq<T>, k: nat)
    requires !HasBorder(fragment) && Occurs(fragment, content, k)
    ensures forall i :: k + 1 <= i < k + |fragment| ==> !Occurs(fragment, content, i)
  {
    forall i | k + 1 <= i < k + |fragment|
      ensures !Occurs(fragment, content, i)
    {
      if Occurs(fragment, content, i) {
        OverlapIsBorder(fragment, content, k, i - k);
      }
    }
  }

  /** Without a border both searches find the same places. */
  lemma {:induction false} SearchesAgree<T>(fragment: seq<T>, content: seq<T>, k: nat)
    requires fragment != [] && !HasBorder(fragment)
    ensures TextCandidates(fragment, content, k) == ByteCandidates(fragment, content, k)
    decreases |content| - k
  {
    if k + |fragment| <= |content| {
      if Occurs(fragment, content, k) {
        NoOverlap(fragment, content, k);
        ByteSkips(fragment, content, k + 1, k + |fragment|);
        SearchesAgree(fragment, content, k + |fragment|);
      } else {
        SearchesAgree(fragment, content, k + 1);
      }
    }
  }

  ghost predicate ModesAgree<T>(was: seq<T>, now: seq<T>, ops: seq<Op>, r: Span)
    requires r.start <= r.end
  {
    Assess(Text, was, now, ops, r) == Assess(Byte, was, now, ops, r)
  }

  /** The recorded content holds the fragment at the range, and the script leads to the current content. */
  ghost predicate Recorded<T>(fragment: seq<T>, was: seq<T>, now: seq<T>, ops: seq<Op>, r: Span) {
    r.start <= r.end <= |was| && was[r.start..r.end] == fragment && Script(ops, was, now, 0, 0)
  }

  /**
   * Text and byte verdicts agree on a range, whatever its surroundings and whatever became of them,
   * exactly when the text of the range has no border.
   */
  lemma ModesAgreeIffNoBorder<T>(fragment: seq<T>)
    requires fragment != []
    ensures (forall was: seq<T>, now: seq<T>, ops,
      r :: Recorded(fragment, was, now, ops, r) ==> ModesAgree(was, now, ops, r))
      <==> !HasBorder(fragment)
  {
    if HasBorder(fragment) {
      var was, ops, r := BorderTellsThemApart(fragment);
    } else {
      forall was: seq<T>, now: seq<T>, ops, r | Recorded(fragment, was, now, ops, r)
        ensures ModesAgree(was, now, ops, r)
      {
        SearchesAgree(fragment, now, 0);
      }
    }
  }

  /** Unchanged content in which the fragment overlaps itself: clean in text mode, to be located in byte mode. */
  lemma BorderTellsThemApart<T>(fragment: seq<T>) returns (was: seq<T>, ops: seq<Op>, r: Span)
    requires HasBorder(fragment)
    ensures Recorded(fragment, was, was, ops, r) && !ModesAgree(was, was, ops, r)
  {
    var n := |fragment|;
    var m :| 0 < m < n && fragment[m..] == fragment[..n - m];
    was, ops, r := fragment + fragment[n - m..], [Equal(0, 0, n + m)], Span(0, n);
    assert was[0..n] == fragment;
    Twice(fragment, m);
    assert Occurs(fragment, was, 0) && Occurs(fragment, was, m);
    assert Script(ops[1..], was, was, n + m, n + m);
    assert HunksOf(ops[1..]) == [] && HunksOf(ops) == [];
    ByteCleanIff(was, was, ops, r);
    forall k: nat | Occurs(fragment, was, k)
      ensures 0 <= k < n
    {
    }
    TextCleanIff(was, was, ops, r);
  }

  /** A fragment with a border, followed by its own end, occurs again at that distance. */
  lemma Twice<T>(fragment: seq<T>, m: nat)
    requires 0 < m < |fragment| && fragment[m..] == fragment[..|fragment| - m]
    ensures (fragment + fragment[|fragment| - m..])[m..m + |fragment|] == fragment
  {
    var n := |fragment|;
    var long := fragment + fragment[n - m..];
    forall i | 0 <= i < n
      ensures long[m + i] == fragment[i]
    {
      if m + i < n {
        assert fragment[m..][i] == fragment[..n - m][i];
      }
    }
  }

  /** Text mode does miss overlapping occurrences: "aa" in an unchanged "aaa" is clean at 0 and also occurs at 1. */
  lemma TextMissesOverlap()
    ensures var ops := [Equal(0, 0, 3)];
      && Script(ops, "aaa", "aaa", 0, 0)
      && Assess(Text, "aaa", "aaa", ops, Span(0, 2)) == Clean
      && Occurs("aaa"[0..2], "aaa", 1)
      && Assess(Byte, "aaa", "aaa", ops, Span(0, 2)) == Locate
  {
    var ops := [Equal(0, 0, 3)];
    assert Script(ops[1..], "aaa", "aaa", 3, 3);
    assert HunksOf(ops) == [];
    var f := "aaa"[0..2];
    assert f == "aa" && "aaa"[0..2] == f && "aaa"[1..3] == f;
    assert TextCandidates(f, "aaa", 2) == [];
    assert TextCandidates(f, "aaa", 0) == [0];
    assert ByteCandidates(f, "aaa", 2) == [];
    assert ByteCandidates(f, "aaa", 1) == [1];
    assert ByteCandidates(f, "aaa", 0) == [0, 1];
  }

  // ---- Mapping coordinates ----

  /** The loop of map_position from a point in the hunk list on. */
  function MapLoop(hunks: seq<Hunk>, p: nat, isStart: bool, acc: int): int {
    if hunks == [] then acc
    else
      var h := hunks[0];
      if h.pos > p then acc
      else if p < h.pos + h.oldLen && h.oldLen > 0 then h.pos + h.newLen
      else if h.pos == p && h.insertion && !isStart then acc
      else MapLoop(hunks[1..], p, isStart, acc + (h.newLen - h.oldLen))
  }

  method MapPosition(hunks: seq<Hunk>, p: nat, isStart: bool) returns (pos: int)
    ensures pos == MapLoop(hunks, p, isStart, p)
  {
    pos := p;
    for k := 0 to |hunks|
      invariant MapLoop(hunks[k..], p, isStart, pos) == MapLoop(hunks, p, isStart, p)
    {
      var h := hunks[k];
      if h.pos > p {
        break;
      }
      if p < h.pos + h.oldLen && h.oldLen > 0 {
        return h.pos + h.newLen;
      }
      if h.pos == p && h.insertion && !isStart {
        break;
      }
      pos := pos + (h.newLen - h.oldLen);
    }
  }

  /** The running coordinate of every hunk the loop passes; as a u64 it must not be negative. */
  ghost predicate NeverNegative(hunks: seq<Hunk>, p: nat, isStart: bool, acc: int) {
    && acc >= 0
    && (hunks == [] ||
        var h := hunks[0];
        h.pos > p || (p < h.pos + h.oldLen && h.oldLen > 0) || (h.pos == p && h.insertion && !isStart)
        || NeverNegative(hunks[1..], p, isStart, acc + (h.newLen - h.oldLen)))
  }

  /** The shift arithmetic never goes below zero, for any script and any position. */
  lemma {:induction false} ShiftNeverNegative<T>(
    ops: seq<Op>, was: seq<T>, now: seq<T>, i: nat, j: nat, p: nat, isStart: bool)
    requires Script(ops, was, now, i, j) && i <= p
    ensures NeverNegative(HunksOf(ops), p, isStart, p + j - i)
    decreases |ops|
  {
    if ops != [] {
      var op, rest := ops[0], ops[1..];
      var i', j' := i + op.OldExtent(), j + op.NewExtent();
      if i' <= p {
        ShiftNeverNegative(rest, was, now, i', j', p, isStart);
      } else if op.Equal? {
        HunksLieAhead(rest, was, now, i', j');
        if HunksOf(rest) != [] {
          assert HunksOf(rest)[0] in HunksOf(rest);
        }
      }
    }
  }

  /** Where a position belongs in the new content: a removed one at the end of what replaced it. */
  ghost function Image(ops: seq<Op>, i: nat, j: nat, p: nat, isStart: bool): int {
    if ops == [] then j + p - i
    else
      var op := ops[0];
      var i', j' := i + op.OldExtent(), j + op.NewExtent();
      if op.Equal? && p < i' then j + p - i
      else if !op.Equal? && p < i' then j'
      else if op.Insert? && p == i && !isStart then j
      else Image(ops[1..], i', j', p, isStart)
  }

  /** The piece of the script that removes position p, if any: how far the new content had shifted before it. */
  ghost function RemovedAtShift(ops: seq<Op>, i: nat, j: nat, p: nat, isStart: bool): Records.Option<int> {
    if ops == [] then Records.None
    else
      var op := ops[0];
      var i', j' := i + op.OldExtent(), j + op.NewExtent();
      if op.Equal? && p < i' then Records.None
      else if !op.Equal? && p < i' then Records.Some(j - i)
      else if op.Insert? && p == i && !isStart then Records.None
      else RemovedAtShift(ops[1..], i', j', p, isStart)
  }

  /** What the loop computes: the image, except that a removed position loses the shift before its hunk. */
  lemma {:induction false} MapLoopIs<T>(ops: seq<Op>, was: seq<T>, now: seq<T>, i: nat, j: nat, p: nat, isStart: bool)
    requires Script(ops, was, now, i, j) && i <= p
    ensures MapLoop(HunksOf(ops), p, isStart, p + j - i) ==
      Image(ops, i, j, p,
        isStart) - (match RemovedAtShift(ops, i, j, p, isStart) case None => 0 case Some(shift) => shift)
    decreases |ops|
  {
    if ops != [] {
      var op, rest := ops[0], ops[1..];
      var i', j' := i + op.OldExtent(), j + op.NewExtent();
      if op.Equal? && p < i' {
        HunksLieAhead(rest, was, now, i', j');
        if HunksOf(rest) != [] {
          assert HunksOf(rest)[0] in HunksOf(rest);
        }
      } else if i' <= p && !(op.Insert? && p == i && !isStart) {
        MapLoopIs(rest, was, now, i', j', p, isStart);
        if !op.Equal? {
          assert HunksOf(ops)[1..] == HunksOf(rest);
        }
      }
    }
  }

  /** The pieces of a script come one after the other in the old content. */
  lemma {:induction false} PieceBegins<T>(ops: seq<Op>, was: seq<T>, now: seq<T>, i: nat, j: nat, k: nat)
    requires Script(ops, was, now, i, j) && k < |ops|
    ensures i <= ops[k].oldIndex && (k > 0 ==> i + ops[0].OldExtent() <= ops[k].oldIndex)
    decreases k
  {
    if k > 0 {
      PieceBegins(ops[1..], was, now, i + ops[0].OldExtent(), j + ops[0].NewExtent(), k - 1);
    }
  }

  /** No insertion among the first k pieces is right at the position, or it is the start of a range. */
  predicate PassesInsertions(ops: seq<Op>, k: nat, p: nat, isStart: bool)
    requires k <= |ops|
  {
    isStart || forall m :: 0 <= m < k ==> !(ops[m].Insert? && ops[m].oldIndex == p)
  }

  /** A position in a copied piece belongs as far into the copy, one in a removed piece behind what replaced it. */
  lemma {:induction false} ImageInPiece<T>(
    ops: seq<Op>, was: seq<T>, now: seq<T>, i: nat, j: nat, p: nat, isStart: bool, k: nat)
    requires Script(ops, was, now, i, j) && k < |ops| && PassesInsertions(ops, k, p, isStart)
    requires ops[k].oldIndex <= p < ops[k].oldIndex + ops[k].OldExtent()
    ensures Image(ops, i, j, p, isStart) ==
      ops[k].newIndex + if ops[k].Equal? then p - ops[k].oldIndex else ops[k].NewExtent()
    ensures RemovedAtShift(ops, i, j, p, isStart) ==
      if ops[k].Equal? then Records.None else Records.Some(ops[k].newIndex - ops[k].oldIndex)
    decreases k
  {
    PieceBegins(ops, was, now, i, j, k);
    if k > 0 {
      assert PassesInsertions(ops[1..], k - 1, p, isStart) by {
        assert forall m :: 0 <= m < k - 1 ==> ops[1..][m] == ops[m + 1];
      }
      ImageInPiece(ops[1..], was, now, i + ops[0].OldExtent(), j + ops[0].NewExtent(), p, isStart, k - 1);
    }
  }

  /** The end of a range at an insertion stays in front of it. */
  lemma {:induction false} ImageAtInsertion<T>(ops: seq<Op>, was: seq<T>, now: seq<T>, i: nat, j: nat, p: nat, k: nat)
    requires Script(ops, was, now, i, j) && k < |ops| && PassesInsertions(ops, k, p, false)
    requires ops[k].Insert? && ops[k].oldIndex == p
    ensures Image(ops, i, j, p, false) == ops[k].newIndex && RemovedAtShift(ops, i, j, p, false) == Records.None
    decreases k
  {
    PieceBegins(ops, was, now, i, j, k);
    if k > 0 {
      assert PassesInsertions(ops[1..], k - 1, p, false) by {
        assert forall m :: 0 <= m < k - 1 ==> ops[1..][m] == ops[m + 1];
      }
      ImageAtInsertion(ops[1..], was, now, i + ops[0].OldExtent(), j + ops[0].NewExtent(), p, k - 1);
    }
  }

  /** The end of the old content belongs at the end of the new. */
  lemma {:induction false} ImageAtEnd<T>(ops: seq<Op>, was: seq<T>, now: seq<T>, i: nat, j: nat, isStart: bool)
    requires Script(ops, was, now, i, j) && PassesInsertions(ops, |ops|, |was|, isStart)
    ensures Image(ops, i, j, |was|, isStart) == |now| && RemovedAtShift(ops, i, j, |was|, isStart) == Records.None
    decreases |ops|
  {
    if ops != [] {
      assert PassesInsertions(ops[1..], |ops| - 1, |was|, isStart) by {
        assert forall m :: 0 <= m < |ops| - 1 ==> ops[1..][m] == ops[m + 1];
      }
      ImageAtEnd(ops[1..], was, now, i + ops[0].OldExtent(), j + ops[0].NewExtent(), isStart);
    }
  }

  /**
   * map_position, piece by piece: a position in a copied piece goes as far into the copy, one in a removed piece
   * as far from the piece's old place as what replaced it is long, the end of a range at an insertion to
   * the insertion, and the end of the content to the new end.
   */
  lemma MapPositionByPiece<T>(ops: seq<Op>, was: seq<T>, now: seq<T>, p: nat, isStart: bool, k: nat)
    requires Script(ops, was, now, 0, 0) && k <= |ops| && PassesInsertions(ops, k, p, isStart)
    ensures k < |ops| && ops[k].oldIndex <= p < ops[k].oldIndex + ops[k].OldExtent() ==>
      MapLoop(HunksOf(ops), p, isStart, p) ==
        if ops[k].Equal? then ops[k].newIndex + (p - ops[k].oldIndex) else ops[k].oldIndex + ops[k].NewExtent()
    ensures k < |ops| && ops[k].Insert? && ops[k].oldIndex == p && !isStart ==>
      MapLoop(HunksOf(ops), p, isStart, p) == ops[k].newIndex
    ensures k == |ops| && p == |was| ==> MapLoop(HunksOf(ops), p, isStart, p) == |now|
  {
    MapLoopIs(ops, was, now, 0, 0, p, isStart);
    if k == |ops| {
      if p == |was| {
        ImageAtEnd(ops, was, now, 0, 0, isStart);
      }
    } else if ops[k].oldIndex <= p < ops[k].oldIndex + ops[k].OldExtent() {
      ImageInPiece(ops, was, now, 0, 0, p, isStart, k);
    } else if ops[k].Insert? && ops[k].oldIndex == p && !isStart {
      ImageAtInsertion(ops, was, now, 0, 0, p, k);
    }
  }

  /**
   * map_position gives the image of a position exactly when the position survives or
   * nothing before the hunk that removes it has shifted the new content.
   */
  lemma MapPositionExactIff<T>(ops: seq<Op>, was: seq<T>, now: seq<T>, p: nat, isStart: bool)
    requires Script(ops, was, now, 0, 0)
    ensures MapLoop(HunksOf(ops), p, isStart, p) == Image(ops, 0, 0, p, isStart)
      <==> RemovedAtShift(ops, 0, 0, p, isStart) in {Records.None, Records.Some(0)}
  {
    MapLoopIs(ops, was, now, 0, 0, p, isStart);
  }

  /** The clamp without its shift: after three inserted characters, the removed position 1 maps to 1, not to 4. */
  lemma ClampLosesShift()
    ensures var ops := [Insert(0, 0, 3), Equal(0, 3, 1), Delete(1, 4, 1)];
      && Script(ops, "ab", "xyza", 0, 0)
      && MapLoop(HunksOf(ops), 1, true, 1) == 1 && Image(ops, 0, 0, 1, true) == 4
  {
    var ops := [Insert(0, 0, 3), Equal(0, 3, 1), Delete(1, 4, 1)];
    assert ops[1..] == [Equal(0, 3, 1), Delete(1, 4, 1)];
    assert ops[1..][1..] == [Delete(1, 4, 1)];
    assert Script([Delete(1, 4, 1)], "ab", "xyza", 1, 4);
    assert HunksOf([Delete(1, 4, 1)]) == [Hunk(1, 1, false, 1, 0)];
    assert HunksOf(ops) == [Hunk(0, 3, true, 0, 3), Hunk(1, 1, false, 1, 0)];
    assert HunksOf(ops)[1..] == [Hunk(1, 1, false, 1, 0)];
  }

  /** map_range: None when the mapped span collapses. */
  function MapRange(hunks: seq<Hunk>, r: Span): Records.Option<(int, int)> {
    var start, end := MapLoop(hunks, r.start, true, r.start), MapLoop(hunks, r.end, false, r.end);
    if end > start then Records.Some((start, end)) else Records.None
  }

  /** The hunk neither removes a position of [start, end], the end included, nor inserts strictly inside. */
  ghost predicate Avoids(h: Hunk, r: Span) {
    && (h.oldLen > 0 ==> r.end < h.pos || h.pos + h.oldLen <= r.start)
    && (h.insertion ==> h.pos <= r.start || r.end <= h.pos)
  }

  ghost predicate AvoidedByAll(ops: seq<Op>, r: Span) {
    forall h :: h in HunksOf(ops) ==> Avoids(h, r)
  }

  /** A copied piece followed by what the rest of the script copies. */
  lemma Joined<T>(was: seq<T>, now: seq<T>, i: nat, j: nat, len: nat, end: nat)
    requires i + len <= end <= |was| && j + (end - i) <= |now|
    requires was[i..i + len] == now[j..j + len] && now[j + len..j + (end - i)] == was[i + len..end]
    ensures now[j..j + (end - i)] == was[i..end]
  {
    assert was[i..end] == was[i..i + len] + was[i + len..end];
    assert now[j..j + (end - i)] == now[j..j + len] + now[j + len..j + (end - i)];
  }

  /** A part of a copied piece. */
  lemma Part<T>(was: seq<T>, now: seq<T>, i: nat, j: nat, len: nat, from: nat, to: nat)
    requires i + len <= |was| && j + len <= |now| && was[i..i + len] == now[j..j + len] && i <= from <= to <= i + len
    ensures now[j + (from - i)..j + (to - i)] == was[from..to]
  {
    var a, b := now[j + (from - i)..j + (to - i)], was[from..to];
    forall k | 0 <= k < |b|
      ensures a[k] == b[k]
    {
      assert was[i..i + len][from - i + k] == now[j..j + len][from - i + k];
    }
  }

  lemma AvoidedStep(ops: seq<Op>, r: Span)
    requires ops != [] && AvoidedByAll(ops, r)
    ensures AvoidedByAll(ops[1..], r)
    ensures var op := ops[0];
      && (!op.Equal? && op.OldExtent() > 0 ==> r.end < op.oldIndex || op.oldIndex + op.OldExtent() <= r.start)
      && (op.Insert? ==> op.oldIndex <= r.start || r.end <= op.oldIndex)
  {
    if !ops[0].Equal? {
      var h := HunksOf(ops)[0];
      assert h in HunksOf(ops) && Avoids(h, r);
    }
    forall h | h in HunksOf(ops[1..])
      ensures Avoids(h, r)
    {
      assert h in HunksOf(ops);
    }
  }

  lemma {:induction false} AvoidedEnd<T>(ops: seq<Op>, was: seq<T>, now: seq<T>, i: nat, j: nat, r: Span)
    requires Script(ops, was, now, i, j) && r.start < i <= r.end <= |was| && AvoidedByAll(ops, r)
    ensures Image(ops, i, j, r.end, false) == j + (r.end - i) <= |now|
    ensures now[j..j + (r.end - i)] == was[i..r.end] && RemovedAtShift(ops, i, j, r.end, false) == Records.None
    decreases |ops|
  {
    if ops != [] {
      var op, rest := ops[0], ops[1..];
      var i', j' := i + op.OldExtent(), j + op.NewExtent();
      AvoidedStep(ops, r);
      if op.Equal? {
        if i' <= r.end {
          AvoidedEnd(rest, was, now, i', j', r);
          Joined(was, now, i, j, op.len, r.end);
        } else {
          Part(was, now, i, j, op.len, i, r.end);
        }
      } else if op.Delete? {
        AvoidedEnd(rest, was, now, i', j', r);
      }
    }
  }

  /** Both ends of the range have images, and the text between them is the old one. */
  ghost predicate Carried<T>(ops: seq<Op>, was: seq<T>, now: seq<T>, i: nat, j: nat, r: Span)
    requires r.start <= r.end <= |was|
  {
    var s, e := Image(ops, i, j, r.start, true), Image(ops, i, j, r.end, false);
    && RemovedAtShift(ops, i, j, r.start, true) == RemovedAtShift(ops, i, j, r.end, false) == Records.None
    && 0 <= s && e == s + (r.end - r.start) <= |now| && now[s..e] == was[r.start..r.end]
  }

  lemma AvoidedFrom<T>(ops: seq<Op>, was: seq<T>, now: seq<T>, i: nat, j: nat, r: Span)
    requires Script(ops, was, now, i, j) && r.start < r.end <= |was| && AvoidedByAll(ops, r)
    requires ops != [] && ops[0].Equal? && i <= r.start < i + ops[0].len
    ensures Carried(ops, was, now, i, j, r)
  {
    var len := ops[0].len;
    var s := j + (r.start - i);
    if r.end < i + len {
      Part(was, now, i, j, len, r.start, r.end);
    } else {
      AvoidedStep(ops, r);
      AvoidedEnd(ops[1..], was, now, i + len, j + len, r);
      Part(was, now, i, j, len, r.start, i + len);
      Joined(was, now, r.start, s, i + len - r.start, r.end);
    }
  }

  lemma {:induction false} AvoidedRange<T>(ops: seq<Op>, was: seq<T>, now: seq<T>, i: nat, j: nat, r: Span)
    requires Script(ops, was, now, i, j) && i <= r.start < r.end <= |was| && AvoidedByAll(ops, r)
    ensures Carried(ops, was, now, i, j, r)
    decreases |ops|
  {
    AvoidedStep(ops, r);
    if i + ops[0].OldExtent() <= r.start {
      AvoidedRange(ops[1..], was, now, i + ops[0].OldExtent(), j + ops[0].NewExtent(), r);
    } else {
      AvoidedFrom(ops, was, now, i, j, r);
    }
  }

  /** Away from changes the mapped range holds exactly the old text, within the new content. */
  lemma MapRangeKeepsText<T>(ops: seq<Op>, was: seq<T>, now: seq<T>, r: Span)
    requires Script(ops, was, now, 0, 0) && r.start < r.end <= |was| && AvoidedByAll(ops, r)
    ensures MapRange(HunksOf(ops), r).Some?
    ensures var (s, e) := MapRange(HunksOf(ops), r).value;
      0 <= s && e <= |now| && now[s..e] == was[r.start..r.end]
  {
    AvoidedRange(ops, was, now, 0, 0, r);
    MapRangeIs(ops, was, now, r);
  }

  /** Where nothing is clamped the mapped ends are the images of the ends. */
  lemma MapRangeIs<T>(ops: seq<Op>, was: seq<T>, now: seq<T>, r: Span)
    requires Script(ops, was, now, 0, 0)
    requires RemovedAtShift(ops, 0, 0, r.start, true) == RemovedAtShift(ops, 0, 0, r.end, false) == Records.None
    requires Image(ops, 0, 0, r.start, true) < Image(ops, 0, 0, r.end, false)
    ensures MapRange(HunksOf(ops), r) == Records.Some((Image(ops, 0, 0, r.start, true), Image(ops, 0, 0, r.end, false)))
  {
    MapLoopIs(ops, was, now, 0, 0, r.start, true);
    MapLoopIs(ops, was, now, 0, 0, r.end, false);
  }

  /** A range whose ends both lie in one removed piece maps nowhere. */
  lemma MapRangeCollapses<T>(ops: seq<Op>, was: seq<T>, now: seq<T>, r: Span, k: nat)
    requires Script(ops, was, now, 0, 0) && k < |ops| && !ops[k].Equal? && PassesInsertions(ops, k, r.end, false)
    requires ops[k].oldIndex <= r.start <= r.end < ops[k].oldIndex + ops[k].OldExtent()
    ensures MapRange(HunksOf(ops), r) == Records.None
  {
    MapPositionByPiece(ops, was, now, r.start, true, k);
    MapPositionByPiece(ops, was, now, r.end, false, k);
  }
}
