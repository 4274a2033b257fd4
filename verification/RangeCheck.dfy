/** The body that a range has now, and the verdict on it. */
module RangeCheck {
  import opened Records
  import opened Chains
  import opened StoreState
  import opened Pipeline
  import opened PipelineLaws
  import Diff

  predicate HasBody(r: Record) {
    r.contentRef.Some? && r.payload.position.Some?
  }

  /** The newest commit of a chain that carries both a source version and a position. */
  function EffectiveIn(disk: Disk, c: seq<Id>): Option<Id>
    requires IsChain(disk, c)
  {
    if HasBody(disk[c[0]]) then Some(c[0])
    else if |c| == 1 then None
    else EffectiveIn(disk, c[1..])
  }

  /** It is on the chain, and no newer commit of the chain has a body; None means that none has. */
  lemma {:induction false} EffectiveIsNewest(disk: Disk, c: seq<Id>)
    requires IsChain(disk, c)
    ensures match EffectiveIn(disk, c)
      case Some(id) => exists i ::
        0 <= i < |c| && c[i] == id && id in disk && disk[id].contentRef.Some? && disk[id].payload.position.Some?
        && Bodiless(disk, c[..i])
      case None => Bodiless(disk, c)
    decreases |c|
  {
    if HasBody(disk[c[0]]) {
      assert Bodiless(disk, c[..0]);
    } else if |c| > 1 {
      EffectiveIsNewest(disk, c[1..]);
      assert c == [c[0]] + c[1..];
      match EffectiveIn(disk, c[1..]) {
        case Some(id) =>
          var i :| 0 <= i < |c[1..]| && c[1..][i] == id && Bodiless(disk, c[1..][..i]);
          assert c[..i + 1] == [c[0]] + c[1..][..i] && c[i + 1] == id;
        case None =>
      }
    }
  }

  predicate Bodiless(disk: Disk, ids: seq<Id>) {
    forall id :: id in ids ==> id in disk && (disk[id].contentRef == None || disk[id].payload.position == None)
  }

  lemma {:induction false} EffectiveOnOtherDisk(disk: Disk, other: Disk, c: seq<Id>)
    requires IsChain(disk, c) && forall id :: id in disk ==> id in other && other[id] == disk[id]
    ensures IsChain(other, c) && EffectiveIn(other, c) == EffectiveIn(disk, c)
    decreases |c|
  {
    if |c| > 1 {
      EffectiveOnOtherDisk(disk, other, c[1..]);
    }
  }

  /** A commit on a range replaces its body if it has one, and otherwise (markers, links, adapts, resets) leaves it. */
  lemma EffectiveAfterCommit(disk: Disk, cid: Id, r: Record)
    requires cid !in disk && cid != NO_COMMIT && NO_COMMIT !in disk && HasChain(disk, r.previous)
    ensures var after := disk[cid := r];
      && HasChain(after, cid)
      && EffectiveIn(after, ChainOf(after, cid)) ==
        if r.contentRef.Some? && r.payload.position.Some? then Some(cid)
        else EffectiveIn(disk, ChainOf(disk, r.previous))
  {
    ChainAppends(disk, cid, r);
    var below := ChainOf(disk, r.previous);
    assert ([cid] + below)[1..] == below;
    EffectiveOnOtherDisk(disk, disk[cid := r], below);
  }

  /**
   * A source commit with content and a position becomes the body of its range, with just that content and
   * position; a source commit without both, and any marker, leaves the body.
   */
  lemma CommitSetsBody(
    snap: Snap, mode: Mode, key: Key, kind: CommitKind, content: Option<Id>, payload: Payload, cid: Id, after: Snap)
    requires Sound(snap) && Fresh(snap.disk, cid) && key in snap.state.tips
    requires Append(snap, mode, Named(key), kind, content, payload, cid) == Ok(after)
    ensures HasChain(snap.disk, snap.state.tips[key])
    ensures key in after.state.tips && after.state.tips[key] == cid && HasChain(after.disk, cid)
    ensures EffectiveIn(after.disk, ChainOf(after.disk, cid)) ==
      if mode == Source && content.Some? && payload.position.Some? then Some(cid)
      else EffectiveIn(snap.disk, ChainOf(snap.disk, snap.state.tips[key]))
    ensures mode == Source ==>
      after.disk[cid].contentRef == content && after.disk[cid].payload.position == payload.position
  {
    SoundMeans(snap);
    LaterAdvances(snap, mode, Named(key), kind, content, payload, cid, after);
    EffectiveAfterCommit(snap.disk, cid, Draft(snap.state, mode, Named(key), kind, content, payload));
  }

  datatype Effective = Effective(root: Id, tip: Id, body: Option<Id>, parent: Key, path: string)

  datatype EffectiveError = UnknownNode | MissingParent

  /** What effective_range_state gives for a store that opens. */
  ghost predicate IsEffective(disk: Disk, s: State, node: Key, r: Result<Effective, EffectiveError>) {
    if node.kind != Range || node !in s.tips then r == Err(EffectiveError.UnknownNode)
    else
      && HasChain(disk, s.tips[node])
      && exists p :: Mounted(s, p, node) && r ==
           (if p in s.locations
            then Ok(Effective(node.root, s.tips[node], EffectiveIn(disk, ChainOf(disk, s.tips[node])), p,
              s.locations[p]))
            else Err(MissingParent))
  }

  method EffectiveRangeState(disk: Disk, s: State, node: Key) returns (r: Result<Effective, EffectiveError>)
    requires NO_COMMIT !in disk && IndexOk(disk, s)
    ensures IsEffective(disk, s, node, r)
    ensures r.Ok? ==>
      && node.kind == Range && node in s.tips && r.value.root == node.root && r.value.tip == s.tips[node]
      && Mounted(s, r.value.parent, node) && LocationOf(s, r.value.parent) == Some(r.value.path)
    ensures r == Err(EffectiveError.UnknownNode) <==> node.kind != Range || node !in s.tips
  {
    if node.kind != Range || node !in s.tips {
      return Err(EffectiveError.UnknownNode);
    }
    assert TipOk(disk, s, node);
    var tip := s.tips[node];
    var root := ChainRoot(disk, tip);
    if root != Ok(node.root) {
      return Err(EffectiveError.UnknownNode);
    }
    var parent := ParentOf(s, node);
    if parent.None? || parent.value !in s.locations {
      return Err(MissingParent);
    }
    var body := NewestBody(disk, tip);
    r := Ok(Effective(node.root, tip, body, parent.value, s.locations[parent.value]));
  }

  method NewestBody(disk: Disk, tip: Id) returns (body: Option<Id>)
    requires NO_COMMIT !in disk && HasChain(disk, tip)
    ensures body == EffectiveIn(disk, ChainOf(disk, tip))
  {
    ghost var c, i := ChainOf(disk, tip), 0;
    var current := tip;
    assert c[0..] == c;
    while current != NO_COMMIT
      invariant 0 <= i <= |c| && current == (if i < |c| then c[i] else NO_COMMIT)
      invariant i < |c| ==> IsChain(disk, c[i..]) && EffectiveIn(disk, c[i..]) == EffectiveIn(disk, c)
      invariant i == |c| ==> EffectiveIn(disk, c) == None
      decreases |c| - i
    {
      ChainElement(disk, c, i);
      if HasBody(disk[current]) {
        return Some(current);
      }
      current := disk[current].previous;
      assert i + 1 < |c| ==> c[i..][1..] == c[i + 1..];
      i := i + 1;
    }
    body := None;
  }

  datatype Assessment = Judged(verdict: Diff.Verdict) | NoBody

  type Text = seq<char>

  function SpanOf(p: Position): Diff.Span
    requires p.start <= p.end
  {
    Diff.Span(p.start, p.end)
  }

  /**
   * The assessment of a range. It is unverified when there is no such live range under a located
   * file or the recorded content cannot be read, has no body when no commit of its chain carries
   * one, and is otherwise the verdict on its newest position in the recorded content.
   */
  ghost predicate IsAssessment(
    disk: Disk, s: State, node: Key, bodies: map<Id, Text>, now: Text, diff: (Text, Text) -> seq<Diff.Op>,
    a: Assessment)
  {
    if !IsLiveRange(disk, s, node) then a == Judged(Diff.Unverified)
    else
      match EffectiveIn(disk, ChainOf(disk, s.tips[node]))
      case None => a == NoBody
      case Some(id) => id in disk && HasBody(disk[id]) && BodyJudged(disk[id], bodies, now, diff, a)
  }

  ghost predicate IsLiveRange(disk: Disk, s: State, node: Key) {
    && node.kind == Range && node in s.tips && HasChain(disk, s.tips[node])
    && exists p :: Mounted(s, p, node) && p in s.locations
  }

  function ModeOf(p: Position): Diff.Mode {
    if p.bytes then Diff.Byte else Diff.Text
  }

  /** The verdict on a body, and what it means for the text, in bytes or in characters as the position says. */
  ghost predicate BodyJudged(
    r: Record, bodies: map<Id, Text>, now: Text, diff: (Text, Text) -> seq<Diff.Op>, a: Assessment)
    requires HasBody(r)
  {
    var p := r.payload.position.value;
    if r.contentRef.value !in bodies then a == Judged(Diff.Unverified)
    else
      var was := bodies[r.contentRef.value];
      && p.start <= p.end
      && a == Judged(Diff.Assess(ModeOf(p), was, now, diff(was, now), SpanOf(p)))
      && (p.bytes ==> Diff.Means(Diff.Byte, was, now, diff(was, now), Diff.Span(p.start, p.end), a.verdict))
      && (!p.bytes ==> Diff.Means(Diff.Text, was, now, diff(was, now), Diff.Span(p.start, p.end), a.verdict))
  }

  /**
   * assess_range: bodies holds the recorded content of each version that can be read, in the
   * range's own units, and diff gives the edit script. Every position is the right way round,
   * as it was when it was recorded.
   */
  method AssessRange(
    disk: Disk, s: State, node: Key, bodies: map<Id, Text>, now: Text, diff: (Text, Text) -> seq<Diff.Op>)
    returns (a: Assessment)
    requires NO_COMMIT !in disk && IndexOk(disk, s)
    requires forall id :: id in disk && disk[id].payload.position.Some? ==>
      disk[id].payload.position.value.start <= disk[id].payload.position.value.end
    requires forall was :: Diff.Script(diff(was, now), was, now, 0, 0)
    ensures IsAssessment(disk, s, node, bodies, now, diff, a)
  {
    var state := EffectiveRangeState(disk, s, node);
    LiveRangeIff(disk, s, node, state);
    if state.Err? {
      return Judged(Diff.Unverified);
    }
    if state.value.body.None? {
      return NoBody;
    }
    EffectiveIsNewest(disk, ChainOf(disk, s.tips[node]));
    var r := disk[state.value.body.value];
    if r.contentRef.value !in bodies {
      return Judged(Diff.Unverified);
    }
    var was, span := bodies[r.contentRef.value], SpanOf(r.payload.position.value);
    var mode := ModeOf(r.payload.position.value);
    a := Judged(Diff.Assess(mode, was, now, diff(was, now), span));
    Diff.VerdictMeans(mode, was, now, diff(was, now), span);
  }

  /** The effective state is there exactly for live ranges under located files. */
  lemma {:induction false} LiveRangeIff(disk: Disk, s: State, node: Key, r: Result<Effective, EffectiveError>)
    requires MountedOnce(s) && IsEffective(disk, s, node, r)
    ensures r.Ok? <==> IsLiveRange(disk, s, node)
    ensures r.Ok? ==> r.value.body == EffectiveIn(disk, ChainOf(disk, s.tips[node]))
  {
    if node.kind == Range && node in s.tips {
      var p :| Mounted(s, p, node) && (r.Ok? <==> p in s.locations);
      forall q | Mounted(s, q, node)
        ensures q == p
      {
      }
    }
  }

  /** A clean verdict on a nonempty range: the current content has its recorded text at the recorded position. */
  lemma CleanMeans(
    disk: Disk, s: State, node: Key, bodies: map<Id, Text>, now: Text, diff: (Text, Text) -> seq<Diff.Op>, id: Id)
    requires IsAssessment(disk, s, node, bodies, now, diff, Judged(Diff.Clean))
    requires IsLiveRange(disk, s, node) && EffectiveIn(disk, ChainOf(disk, s.tips[node])) == Some(id)
    ensures id in disk && HasBody(disk[id]) && disk[id].contentRef.value in bodies
    ensures var was, p := bodies[disk[id].contentRef.value], disk[id].payload.position.value;
      && p.start <= p.end
      && (p.start < p.end ==>
            p.end <= |was| && p.end <= |now| && now[p.start..p.end] == was[p.start..p.end]
            && Diff.InPlace(if p.bytes then Diff.Byte else Diff.Text, was[p.start..p.end], now, p.start))
  {
    var was, p := bodies[disk[id].contentRef.value], disk[id].payload.position.value;
    if p.start < p.end {
      assert Diff.Occurs(was[p.start..p.end], now, p.start);
    }
  }
}
