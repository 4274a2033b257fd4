/** Whole runs of a store: what every sequence of operations keeps. */
module Runs {
  import opened Records
  import opened Chains
  import opened Blocks
  import opened StoreState
  import opened Pipeline
  import opened PipelineLaws
  import opened Resets
  import opened ResetLaws
  import opened BlockLaws
  import opened Gc
  import opened Imports

  /** The operations. A reset is Retreat, then the Write of its own commit unless the object is gone. */
  datatype Op =
    | Write(mode: Mode, loc: Locator, kind: CommitKind, content: Option<Id>, payload: Payload, cid: Id)
    | Move(kind: CommitKind, path: string, target: Option<string>, cid: Id)
    | Tie(node: Key, terms: Terms, cid: Id)
    | TiePeer(node: Key, terms: Terms, cid: Id)
    | Settle(node: Key, linkId: LinkId, changes: set<Id>, cid: Id)
    | Log(loc: Locator, kind: CommitKind, note: Option<string>, cid: Id)
    | Retreat(fileNode: Key, to: Id)
    | Sweep(held: set<Id>, orphans: set<Id>)

  /**
   * The external link: one end is a live range of this store at a version on its chain, the other a
   * range of a peer.
   */
  ghost predicate PeerTerms(snap: Snap, terms: Terms) {
    || (terms.source.Peer? && terms.source.key.kind == Range && LocalRange(snap, terms.target, terms.targetVersion))
    || (terms.target.Peer? && terms.target.key.kind == Range && LocalRange(snap, terms.source, terms.sourceVersion))
  }

  ghost predicate LocalRange(snap: Snap, e: Endpoint, version: Id) {
    e.Local? && e.key.kind == Range && e.key in snap.state.tips && OnChain(snap, e.key, version)
  }

  /** op succeeds in a and leads to b. */
  ghost predicate Step(op: Op, a: Snap, b: Snap) {
    match op
    case Write(mode, loc, kind, content, payload, cid) =>
      Fresh(a.disk, cid) && Append(a, mode, loc, kind, content, payload, cid) == Ok(b)
    case Move(kind, path, target, cid) => Fresh(a.disk, cid) && Lifecycle(a, kind, path, target, cid) == Ok(b)
    case Tie(node, terms, cid) => Fresh(a.disk, cid) && CommitLink(a, node, terms, cid) == Ok(b)
    case TiePeer(node, terms, cid) => Fresh(a.disk, cid) && PeerTerms(a, terms) && b == WithLink(a, node, terms, cid)
    case Settle(node, linkId, changes, cid) => Fresh(a.disk, cid) && CommitAdapt(a, node, linkId, changes, cid) == Ok(b)
    case Log(loc, kind, note, cid) => Fresh(a.disk, cid) && CommitJournal(a, loc, kind, note, cid) == Ok(b)
    case Retreat(fileNode, to) => Retreats(a, fileNode, to, b)
    case Sweep(held, orphans) => exists keep :: IsKeepSet(a.disk, a.state, held, keep) && b == Collect(a, keep, orphans)
  }

  ghost predicate Retreats(a: Snap, fileNode: Key, to: Id, b: Snap) {
    && fileNode in a.state.tips && ResetAllowed(a, fileNode, to) && b.disk == a.disk
    && ResetsTo(a, NodeOf(a, to).value, Landing(a.disk[to], to), b.state)
  }

  /** When each operation keeps the store sound. */
  ghost predicate Guarded(op: Op, a: Snap) {
    match op
    case Write(mode, loc, kind, content, payload, cid) => AppendGuard(a, mode, loc, kind, content, payload, cid)
    case Tie(node, _, _) => node in a.state.tips
    case TiePeer(node, _, _) => node in a.state.tips
    case Settle(node, _, _, _) => node in a.state.tips
    case Retreat(_, to) => RetreatGuard(a, to)
    case _ => true
  }

  ghost predicate RetreatGuard(a: Snap, to: Id) {
    HasChain(a.disk, to) && NodeOf(a, to).Some? && NodeOf(a, to).value.kind == File
      && HasChain(a.disk, Landing(a.disk[to], to)) ==>
      PlaceFree(a, NodeOf(a, to).value, LocationAt(a.disk, Landing(a.disk[to], to)))
  }

  lemma RetreatKeepsSoundIff(a: Snap, fileNode: Key, to: Id, b: Snap)
    requires Sound(a) && Retreats(a, fileNode, to, b)
    ensures Sound(b) <==> RetreatGuard(a, to)
  {
    ResetKeepsSound(a, fileNode, to, NodeOf(a, to).value, Landing(a.disk[to], to), b.state);
  }

  lemma TieKeepsSoundIff(a: Snap, node: Key, terms: Terms, cid: Id)
    requires Sound(a) && Fresh(a.disk, cid)
    requires terms.source.Local? ==> terms.sourceVersion in a.state.retained
    requires terms.target.Local? ==> terms.targetVersion in a.state.retained
    ensures Sound(WithLink(a, node, terms, cid)) <==> node in a.state.tips
  {
    SoundMeans(a);
    LinkKeepsIndexIff(a, node, terms, cid);
    LinkKeepsCoherent(a, node, terms, cid);
    SoundMeans(WithLink(a, node, terms, cid));
  }

  /** Every operation that succeeds on a sound store leaves it sound exactly when its guard held. */
  lemma StepKeepsSoundIff(op: Op, a: Snap, b: Snap)
    requires Sound(a) && Step(op, a, b)
    ensures Sound(b) <==> Guarded(op, a)
  {
    SoundMeans(a);
    match op {
      case Write(mode, loc, kind, content, payload, cid) =>
        AppendKeepsIndexIff(a, mode, loc, kind, content, payload, cid, b);
        AppendKeepsCoherent(a, mode, loc, kind, content, payload, cid, b);
      case Move(kind, path, target, cid) =>
        LifecycleKeepsIndex(a, kind, path, target, cid, b);
        LifecycleKeepsCoherent(a, kind, path, target, cid, b);
      case Tie(node, terms, cid) =>
        TieKeepsSoundIff(a, node, terms, cid);
      case TiePeer(node, terms, cid) =>
        TieKeepsSoundIff(a, node, terms, cid);
      case Settle(node, linkId, changes, cid) =>
        AdaptKeepsIndexIff(a, node, linkId, changes, cid, b);
        AdaptKeepsCoherent(a, node, linkId, changes, cid, b);
      case Log(loc, kind, note, cid) =>
        JournalKeepsIndex(a, loc, kind, note, cid, b);
        JournalKeepsCoherent(a, loc, kind, note, cid, b);
      case Retreat(fileNode, to) =>
        RetreatKeepsSoundIff(a, fileNode, to, b);
      case Sweep(held, orphans) =>
        var keep :| IsKeepSet(a.disk, a.state, held, keep) && b == Collect(a, keep, orphans);
        GcKeepsIndex(a, held, keep, orphans);
        GcKeepsCoherent(a, held, keep, orphans);
    }
    SoundMeans(b);
  }

  /** Whatever an operation does to the index, the records that the state needs stay on disk. */
  lemma StepKeepsCoherent(op: Op, a: Snap, b: Snap)
    requires Sound(a) && Step(op, a, b)
    ensures Coherent(b.disk, b.state)
  {
    match op {
      case Write(mode, loc, kind, content, payload, cid) =>
        AppendKeepsCoherent(a, mode, loc, kind, content, payload, cid, b);
      case Move(kind, path, target, cid) => LifecycleKeepsCoherent(a, kind, path, target, cid, b);
      case Tie(node, terms, cid) => LinkKeepsCoherent(a, node, terms, cid);
      case TiePeer(node, terms, cid) => LinkKeepsCoherent(a, node, terms, cid);
      case Settle(node, linkId, changes, cid) => AdaptKeepsCoherent(a, node, linkId, changes, cid, b);
      case Log(loc, kind, note, cid) => JournalKeepsCoherent(a, loc, kind, note, cid, b);
      case Retreat(fileNode, to) => RetreatKeepsCoherent(a, fileNode, to, b);
      case Sweep(held, orphans) =>
        var keep :| IsKeepSet(a.disk, a.state, held, keep) && b == Collect(a, keep, orphans);
        GcKeepsCoherent(a, held, keep, orphans);
    }
  }

  lemma RetreatKeepsCoherent(a: Snap, fileNode: Key, to: Id, b: Snap)
    requires Sound(a) && Retreats(a, fileNode, to, b)
    ensures Coherent(b.disk, b.state)
  {
    LandingOnNode(a, to);
    ResetKeepsCoherent(a, NodeOf(a, to).value, Landing(a.disk[to], to), b.state);
  }

  // ---- Imports ----

  lemma WriteKeepsImports(
    a: Snap, mode: Mode, loc: Locator, kind: CommitKind, content: Option<Id>, payload: Payload, cid: Id, b: Snap)
    requires Steady(a) && Fresh(a.disk, cid) && Append(a, mode, loc, kind, content, payload, cid) == Ok(b)
    requires AppendGuard(a, mode, loc, kind, content, payload, cid)
    ensures ImportsStay(b.disk, b.state)
  {
    SoundMeans(a);
    var r := Draft(a.state, mode, loc, kind, content, payload);
    if IsFirst(a.state, loc) {
      FirstRecord(a, mode, loc, kind, content, payload, cid, b);
      if r.kind == Import {
        FirstStays(a.disk, cid, r);
      } else {
        NoImportRoot(a.disk, cid, r);
      }
      CommitKeepsImports(a.disk, a.state, b.state, cid, r);
    } else {
      LaterAdvances(a, mode, loc, kind, content, payload, cid, b);
      LaterGuard(a, mode, loc, kind, content, payload, cid);
      AdvanceKeepsImports(a, b, loc.key, cid, r);
    }
  }

  lemma FirstRecord(
    a: Snap, mode: Mode, loc: Locator, kind: CommitKind, content: Option<Id>, payload: Payload, cid: Id, b: Snap)
    requires Append(a, mode, loc, kind, content, payload, cid) == Ok(b) && IsFirst(a.state, loc)
    requires KindOfRoot(Draft(a.state, mode, loc, kind, content, payload)) == Some(KindAt(loc))
    ensures var r := Draft(a.state, mode, loc, kind, content, payload);
      && b.disk == a.disk[cid := r] && b.state.retained == a.state.retained + [cid] && r.previous == NO_COMMIT
      && (r.kind == Import ==> KindOfRoot(r) == Some(File))
  {
    DraftOf(a, mode, loc, kind, content, payload);
  }

  lemma MoveKeepsImports(a: Snap, kind: CommitKind, path: string, target: Option<string>, cid: Id, b: Snap)
    requires Steady(a) && Fresh(a.disk, cid) && Lifecycle(a, kind, path, target, cid) == Ok(b)
    ensures ImportsStay(b.disk, b.state)
  {
    LocatedAreLive(a);
    var k, r := LifecycleAdvances(a, kind, path, target, cid, b);
    MoveRetains(a, kind, path, target, cid, b);
    AdvanceKeepsImports(a, b, k, cid, r);
  }

  lemma MoveRetains(a: Snap, kind: CommitKind, path: string, target: Option<string>, cid: Id, b: Snap)
    requires Lifecycle(a, kind, path, target, cid) == Ok(b)
    ensures b.state.retained == a.state.retained + [cid]
  {
  }

  lemma TieKeepsImports(a: Snap, node: Key, terms: Terms, cid: Id)
    requires Steady(a) && Fresh(a.disk, cid) && node in a.state.tips
    ensures ImportsStay(WithLink(a, node, terms, cid).disk, WithLink(a, node, terms, cid).state)
  {
    var b := WithLink(a, node, terms, cid);
    TieRecord(a, node, terms, cid);
    AdvanceKeepsImports(a, b, node, cid, b.disk[cid]);
  }

  lemma TieRecord(a: Snap, node: Key, terms: Terms, cid: Id)
    ensures var b := WithLink(a, node, terms, cid);
      && cid in b.disk && b.disk == a.disk[cid := b.disk[cid]] && b.state.retained == a.state.retained + [cid]
      && b.disk[cid].previous == TipOf(a.state, node) && forall at :: Relocate(at, b.disk[cid]) == at
  {
  }

  lemma SettleRecord(a: Snap, node: Key, linkId: LinkId, changes: set<Id>, cid: Id, b: Snap)
    requires CommitAdapt(a, node, linkId, changes, cid) == Ok(b)
    ensures cid in b.disk && b.disk == a.disk[cid := b.disk[cid]] && b.state.retained == a.state.retained + [cid]
    ensures b.disk[cid].previous == TipOf(a.state, node) && forall at :: Relocate(at, b.disk[cid]) == at
  {
  }

  lemma SettleKeepsImports(a: Snap, node: Key, linkId: LinkId, changes: set<Id>, cid: Id, b: Snap)
    requires Steady(a) && Fresh(a.disk, cid) && node in a.state.tips
    requires CommitAdapt(a, node, linkId, changes, cid) == Ok(b)
    ensures ImportsStay(b.disk, b.state)
  {
    SettleRecord(a, node, linkId, changes, cid, b);
    AdvanceKeepsImports(a, b, node, cid, b.disk[cid]);
  }

  lemma LogKeepsImports(a: Snap, loc: Locator, kind: CommitKind, note: Option<string>, cid: Id, b: Snap)
    requires Steady(a) && Fresh(a.disk, cid) && CommitJournal(a, loc, kind, note, cid) == Ok(b)
    ensures ImportsStay(b.disk, b.state)
  {
    SoundMeans(a);
    if IsFirst(a.state, loc) {
      NoImportRoot(a.disk, cid, b.disk[cid]);
      CommitKeepsImports(a.disk, a.state, b.state, cid, b.disk[cid]);
    } else {
      AdvanceKeepsImports(a, b, loc.key, cid, b.disk[cid]);
    }
  }

  lemma RetreatIsGuarded(a: Snap, fileNode: Key, to: Id, b: Snap)
    requires Steady(a) && Retreats(a, fileNode, to, b)
    ensures RetreatGuard(a, to) && ImportsStay(b.disk, b.state)
  {
    var node, landing := NodeOf(a, to).value, Landing(a.disk[to], to);
    LandingOnNode(a, to);
    if node.kind == File {
      ResetPlaceIsFree(a, node, landing);
    }
  }

  /** The conditions that a run has to meet: those of Guarded, without the one for resets. */
  ghost predicate Admissible(op: Op, a: Snap) {
    op.Retreat? || Guarded(op, a)
  }

  lemma StepKeepsImports(op: Op, a: Snap, b: Snap)
    requires Steady(a) && Step(op, a, b) && Admissible(op, a)
    ensures ImportsStay(b.disk, b.state) && Guarded(op, a)
  {
    match op {
      case Write(mode, loc, kind, content, payload, cid) =>
        WriteKeepsImports(a, mode, loc, kind, content, payload, cid, b);
      case Move(kind, path, target, cid) => MoveKeepsImports(a, kind, path, target, cid, b);
      case Tie(node, terms, cid) => TieKeepsImports(a, node, terms, cid);
      case TiePeer(node, terms, cid) => TieKeepsImports(a, node, terms, cid);
      case Settle(node, linkId, changes, cid) => SettleKeepsImports(a, node, linkId, changes, cid, b);
      case Log(loc, kind, note, cid) => LogKeepsImports(a, loc, kind, note, cid, b);
      case Retreat(fileNode, to) => RetreatIsGuarded(a, fileNode, to, b);
      case Sweep(held, orphans) =>
        var keep :| IsKeepSet(a.disk, a.state, held, keep) && b == Collect(a, keep, orphans);
        CollectKeepsImports(a, held, keep, orphans);
    }
  }

  /** Among steady stores every reset keeps the store steady, and so does every other operation whose guard holds. */
  lemma StepKeepsSteady(op: Op, a: Snap, b: Snap)
    requires Steady(a) && Step(op, a, b)
    ensures Steady(b) <==> Admissible(op, a)
    ensures Sound(b) <==> Admissible(op, a)
  {
    StepKeepsSoundIff(op, a, b);
    if Admissible(op, a) {
      StepKeepsImports(op, a, b);
    }
  }

  // ---- Runs ----

  ghost predicate IsRun(ops: seq<Op>, snaps: seq<Snap>) {
    && |snaps| == |ops| + 1
    && snaps[0] == Snap(map[], EMPTY_STATE)
    && forall i :: 0 <= i < |ops| ==> StepAt(ops, snaps, i)
  }

  ghost predicate StepAt(ops: seq<Op>, snaps: seq<Snap>, i: nat)
    requires i < |ops| && |snaps| == |ops| + 1
  {
    Step(ops[i], snaps[i], snaps[i + 1])
  }

  /** The first n operations were run with their guards true. */
  ghost predicate AllAdmissible(ops: seq<Op>, snaps: seq<Snap>, n: nat)
    requires n <= |ops| && |snaps| == |ops| + 1
  {
    forall j :: 0 <= j < n ==> Admissible(ops[j], snaps[j])
  }

  lemma RunStep(ops: seq<Op>, snaps: seq<Snap>, i: nat)
    requires IsRun(ops, snaps) && i < |ops| && Steady(snaps[i])
    ensures Steady(snaps[i + 1]) <==> Admissible(ops[i], snaps[i])
    ensures Sound(snaps[i + 1]) <==> Admissible(ops[i], snaps[i])
  {
    assert StepAt(ops, snaps, i);
    StepKeepsSteady(ops[i], snaps[i], snaps[i + 1]);
  }

  /** Every store that a run of admissible operations reaches opens, and has every record its state needs. */
  lemma {:induction false} RunsStaySteady(ops: seq<Op>, snaps: seq<Snap>, i: nat)
    requires IsRun(ops, snaps) && i < |snaps| && AllAdmissible(ops, snaps, i)
    ensures Steady(snaps[i])
    decreases i
  {
    if i == 0 {
      EmptyIsOk();
    } else {
      assert AllAdmissible(ops, snaps, i - 1) && Admissible(ops[i - 1], snaps[i - 1]);
      RunsStaySteady(ops, snaps, i - 1);
      RunStep(ops, snaps, i - 1);
    }
  }

  /** A run that breaks its store broke it first by an operation whose guard failed there, and that was not a reset. */
  lemma {:induction false} FirstBreak(ops: seq<Op>, snaps: seq<Snap>, n: nat) returns (i: nat)
    requires IsRun(ops, snaps) && n < |snaps| && !Steady(snaps[n])
    ensures i < n && Steady(snaps[i]) && !Admissible(ops[i], snaps[i]) && !Sound(snaps[i + 1])
    decreases n
  {
    if n == 0 {
      EmptyIsOk();
    } else if Steady(snaps[n - 1]) {
      RunStep(ops, snaps, n - 1);
      i := n - 1;
    } else {
      i := FirstBreak(ops, snaps, n - 1);
    }
  }

  // ---- Pending changes ----

  /** The pairs of a link and a change that it still has to be adapted to. */
  predicate Pending(s: State, l: LinkId, change: Id) {
    change in PendingOf(s, l)
  }

  /**
   * How a pending pair may go: adapted by name, withdrawn by a reset with the change or the link, or
   * collected with the change.
   */
  ghost predicate Discharges(op: Op, a: Snap, b: Snap, l: LinkId, change: Id) {
    match op
    case Settle(_, linkId, changes, _) => linkId == l && change in changes
    case Retreat(_, to) =>
      HasChain(a.disk, to) && NodeOf(a, to).Some? &&
      (change in WithdrawnBy(a, to) || (l in a.state.links && a.state.links[l].createdBy in WithdrawnBy(a, to)))
    case Sweep(_, _) => change in a.disk && change !in b.disk
    case _ => false
  }

  /** The commits that a reset to a target takes away, over all the chains that it moves. */
  ghost function WithdrawnBy(a: Snap, to: Id): set<Id>
    requires HasChain(a.disk, to) && NodeOf(a, to).Some?
  {
    var node, landing := NodeOf(a, to).value, Landing(a.disk[to], to);
    Withdrawn(a.disk, a.state,
      if node.kind == File && landing in a.disk then FileMoves(a.state, node, landing, a.disk[landing].rangeTips)
      else map[node := landing])
  }

  lemma RetreatProjection(a: Snap, fileNode: Key, to: Id, b: Snap) returns (moves: map<Key, Id>)
    requires Retreats(a, fileNode, to, b)
    ensures b.state.links == Moved(a.disk, a.state, moves).links
    ensures b.state.pending == Moved(a.disk, a.state, moves).pending
    ensures Withdrawn(a.disk, a.state, moves) == WithdrawnBy(a, to)
  {
    var node, landing := NodeOf(a, to).value, Landing(a.disk[to], to);
    if node.kind == File {
      assert IsChain(a.disk, ChainOf(a.disk, landing));
      moves := FileMoves(a.state, node, landing, a.disk[landing].rangeTips);
    } else {
      moves := map[node := landing];
    }
  }

  lemma MovedPending(disk: Disk, s: State, moves: map<Key, Id>, l: LinkId, change: Id)
    ensures Pending(Moved(disk, s, moves), l, change) <==>
      Pending(s, l, change) && change !in Withdrawn(disk, s, moves)
      && l in s.links && s.links[l].createdBy !in Withdrawn(disk, s, moves)
  {
  }

  lemma MarkedMembers(pending: map<LinkId, set<Id>>, at: set<LinkId>, cid: Id, l: LinkId, change: Id)
    ensures var after := Marked(pending, at, cid);
      (l in after && change in after[l]) <==> (l in pending && change in pending[l]) || (l in at && change == cid)
  {
  }

  /** A commit of a source adds itself to exactly the links at one or two hops from its object, and nothing else. */
  lemma SourceCommitObliges(
    a: Snap, mode: Mode, loc: Locator, kind: CommitKind, content: Option<Id>, payload: Payload, cid: Id, b: Snap,
    l: LinkId, change: Id)
    requires Append(a, mode, loc, kind, content, payload, cid) == Ok(b)
    ensures Pending(b.state, l, change) <==>
      Pending(a.state, l, change)
      || (mode == Source && change == cid && l in Downstream(a.state.links, PublishedKey(a.state, loc, cid)))
  {
    if mode == Source {
      MarkedMembers(a.state.pending, Downstream(a.state.links, PublishedKey(a.state, loc, cid)), cid, l, change);
    }
  }

  /** The link leaves the target of a link that leaves the object. */
  ghost predicate ReachedFrom(links: map<LinkId, Link>, key: Key, l: LinkId)
    requires l in links
  {
    exists d :: d in links && links[d].terms.source == Local(key) && links[d].terms.target == links[l].terms.source
  }

  /** One or two hops, spelled out. */
  lemma DownstreamMeans(links: map<LinkId, Link>, key: Key, l: LinkId)
    ensures l in Downstream(links, key) <==>
      l in links && (links[l].terms.source == Local(key) || ReachedFrom(links, key, l))
  {
    if l in Beyond(links, Direct(links, key)) {
      var d :| d in Direct(links, key) && d in links && links[d].terms.target == links[l].terms.source;
    }
    if l in links && ReachedFrom(links, key, l) {
      var d :| d in links && links[d].terms.source == Local(key) && links[d].terms.target == links[l].terms.source;
      assert d in Direct(links, key);
    }
  }

  /** A pending pair stays pending over a step unless the step discharges it, and only a source commit adds one. */
  ghost predicate PendingLaw(op: Op, a: Snap, b: Snap, l: LinkId, change: Id) {
    && (Pending(a.state, l, change) && !Pending(b.state, l, change) ==> Discharges(op, a, b, l, change))
    && (!Pending(a.state, l, change) && Pending(b.state, l, change) ==>
          op.Write? && op.mode == Source && change == op.cid
            && l in Downstream(a.state.links, PublishedKey(a.state, op.loc, op.cid)))
  }

  lemma PendingStep(op: Op, a: Snap, b: Snap, l: LinkId, change: Id)
    requires Step(op, a, b) && Sound(a)
    ensures PendingLaw(op, a, b, l, change)
  {
    SoundMeans(a);
    match op {
      case Write(mode, loc, kind, content, payload, cid) =>
        SourceCommitObliges(a, mode, loc, kind, content, payload, cid, b, l, change);
      case Retreat(fileNode, to) =>
        RetreatPending(a, fileNode, to, b, l, change);
      case Sweep(held, orphans) =>
        SweepPending(op, a, b, l, change);
      case _ =>
        CommitPending(op, a, b, l, change);
    }
  }

  lemma CommitPending(op: Op, a: Snap, b: Snap, l: LinkId, change: Id)
    requires Step(op, a, b) && !op.Write? && !op.Retreat? && !op.Sweep?
    ensures PendingLaw(op, a, b, l, change)
  {
    match op {
      case Move(kind, path, target, cid) =>
        MoveRecord(a, kind, path, target, cid, b);
      case Tie(node, terms, cid) =>
        TiePending(a, node, terms, cid, l, change);
      case TiePeer(node, terms, cid) =>
        TiePending(a, node, terms, cid, l, change);
      case Settle(node, linkId, changes, cid) =>
        SettlePending(a, node, linkId, changes, cid, b, l, change);
      case Log(loc, kind, note, cid) =>
        LogPending(a, loc, kind, note, cid, b);
    }
  }

  lemma MoveRecord(a: Snap, kind: CommitKind, path: string, target: Option<string>, cid: Id, b: Snap)
    requires Lifecycle(a, kind, path, target, cid) == Ok(b)
    ensures b.state.pending == a.state.pending && b.state.openBlocks == a.state.openBlocks
    ensures b.state.links == a.state.links
    ensures cid in b.disk && b.disk == a.disk[cid := b.disk[cid]]
    ensures var k := HolderOf(a, path, false);
      b.disk[cid].previous == TipOf(a.state, k) && !IsMarker(b.disk[cid].kind) && b.state.tips == a.state.tips[k := cid]
  {
  }

  lemma TiePending(a: Snap, node: Key, terms: Terms, cid: Id, l: LinkId, change: Id)
    ensures Pending(WithLink(a, node, terms, cid).state, l, change) <==> Pending(a.state, l, change)
  {
  }

  lemma SettlePending(a: Snap, node: Key, linkId: LinkId, changes: set<Id>, cid: Id, b: Snap, l: LinkId, change: Id)
    requires CommitAdapt(a, node, linkId, changes, cid) == Ok(b)
    ensures Pending(b.state, l, change) <==> Pending(a.state, l, change) && !(l == linkId && change in changes)
  {
  }

  lemma LogPending(a: Snap, loc: Locator, kind: CommitKind, note: Option<string>, cid: Id, b: Snap)
    requires CommitJournal(a, loc, kind, note, cid) == Ok(b)
    ensures b.state.pending == a.state.pending
  {
  }

  lemma RetreatPending(a: Snap, fileNode: Key, to: Id, b: Snap, l: LinkId, change: Id)
    requires Retreats(a, fileNode, to, b) && Sound(a)
    ensures HasChain(a.disk, to) && NodeOf(a, to).Some?
    ensures Pending(b.state, l, change) <==>
      Pending(a.state, l, change) && change !in WithdrawnBy(a, to)
      && l in a.state.links && a.state.links[l].createdBy !in WithdrawnBy(a, to)
  {
    SoundMeans(a);
    var moves := RetreatProjection(a, fileNode, to, b);
    MovedPending(a.disk, a.state, moves, l, change);
    assert Pending(a.state, l, change) ==> l in a.state.links;
  }

  lemma SweepPending(op: Op, a: Snap, b: Snap, l: LinkId, change: Id)
    requires op.Sweep? && Step(op, a, b)
    ensures Pending(b.state, l, change) <==> Pending(a.state, l, change) && (change in a.disk ==> change in b.disk)
  {
  }

  /** The last point at which a pair was pending. */
  lemma {:induction false} LastPending(snaps: seq<Snap>, i: nat, j: nat, l: LinkId, change: Id) returns (k: nat)
    requires i <= j < |snaps| && Pending(snaps[i].state, l, change) && !Pending(snaps[j].state, l, change)
    ensures i <= k < j && Pending(snaps[k].state, l, change) && !Pending(snaps[k + 1].state, l, change)
    decreases j
  {
    if Pending(snaps[j - 1].state, l, change) {
      k := j - 1;
    } else {
      k := LastPending(snaps, i, j - 1, l, change);
    }
  }

  lemma RunPending(ops: seq<Op>, snaps: seq<Snap>, k: nat, l: LinkId, change: Id)
    requires IsRun(ops, snaps) && k < |ops| && Sound(snaps[k])
    requires Pending(snaps[k].state, l, change) && !Pending(snaps[k + 1].state, l, change)
    ensures Discharges(ops[k], snaps[k], snaps[k + 1], l, change)
  {
    assert StepAt(ops, snaps, k);
    PendingStep(ops[k], snaps[k], snaps[k + 1], l, change);
  }

  /** Over any run, a pending pair that is gone was discharged by a step that the run took in between. */
  lemma PendingLeavesOnlyWhenDischarged(ops: seq<Op>, snaps: seq<Snap>, i: nat, j: nat, l: LinkId, change: Id)
    returns (k: nat)
    requires IsRun(ops, snaps) && i <= j < |snaps| && AllAdmissible(ops, snaps, j)
    requires Pending(snaps[i].state, l, change) && !Pending(snaps[j].state, l, change)
    ensures i <= k < j && Discharges(ops[k], snaps[k], snaps[k + 1], l, change)
  {
    k := LastPending(snaps, i, j, l, change);
    RunsStaySteady(ops, snaps, k);
    RunPending(ops, snaps, k, l, change);
  }

  // ---- Open blocks ----

  lemma StepKeepsBlocks(op: Op, a: Snap, b: Snap)
    requires Step(op, a, b) && Sound(a) && BlocksFollow(a.disk, a.state) && !op.Retreat?
    ensures BlocksFollow(b.disk, b.state)
  {
    match op {
      case Write(mode, loc, kind, content, payload, cid) =>
        AppendKeepsBlocks(a, mode, loc, kind, content, payload, cid, b);
      case Move(kind, path, target, cid) =>
        MoveKeepsBlocks(a, kind, path, target, cid, b);
      case Tie(node, terms, cid) =>
        TieKeepsBlocks(a, node, terms, cid);
      case TiePeer(node, terms, cid) =>
        TieKeepsBlocks(a, node, terms, cid);
      case Settle(node, linkId, changes, cid) =>
        SettleKeepsBlocks(a, node, linkId, changes, cid, b);
      case Log(loc, kind, note, cid) =>
        LogKeepsBlocks(a, loc, kind, note, cid, b);
      case Sweep(held, orphans) =>
        var keep :| IsKeepSet(a.disk, a.state, held, keep) && b == Collect(a, keep, orphans);
        GcKeepsBlocks(a, held, keep, orphans);
    }
  }

  lemma MoveKeepsBlocks(a: Snap, kind: CommitKind, path: string, target: Option<string>, cid: Id, b: Snap)
    requires Sound(a) && BlocksFollow(a.disk, a.state) && Fresh(a.disk, cid)
    requires Lifecycle(a, kind, path, target, cid) == Ok(b)
    ensures BlocksFollow(b.disk, b.state)
  {
    MoveRecord(a, kind, path, target, cid, b);
    PlainCommitKeepsBlocks(a, b, HolderOf(a, path, false), cid, b.disk[cid]);
  }

  lemma TieKeepsBlocks(a: Snap, node: Key, terms: Terms, cid: Id)
    requires Sound(a) && BlocksFollow(a.disk, a.state) && Fresh(a.disk, cid)
    ensures BlocksFollow(WithLink(a, node, terms, cid).disk, WithLink(a, node, terms, cid).state)
  {
    var b := WithLink(a, node, terms, cid);
    PlainCommitKeepsBlocks(a, b, node, cid, b.disk[cid]);
  }

  lemma SettleKeepsBlocks(a: Snap, node: Key, linkId: LinkId, changes: set<Id>, cid: Id, b: Snap)
    requires Sound(a) && BlocksFollow(a.disk, a.state) && Fresh(a.disk, cid)
    requires CommitAdapt(a, node, linkId, changes, cid) == Ok(b)
    ensures BlocksFollow(b.disk, b.state)
  {
    PlainCommitKeepsBlocks(a, b, node, cid, b.disk[cid]);
  }

  lemma LogKeepsBlocks(a: Snap, loc: Locator, kind: CommitKind, note: Option<string>, cid: Id, b: Snap)
    requires Sound(a) && BlocksFollow(a.disk, a.state) && Fresh(a.disk, cid)
    requires CommitJournal(a, loc, kind, note, cid) == Ok(b)
    ensures BlocksFollow(b.disk, b.state)
  {
    if IsFirst(a.state, loc) {
      NewKey(a, loc, cid);
    }
    LogRecord(a, loc, kind, note, cid, b);
    PlainCommitKeepsBlocks(a, b, PublishedKey(a.state, loc, cid), cid, b.disk[cid]);
  }

  lemma LogRecord(a: Snap, loc: Locator, kind: CommitKind, note: Option<string>, cid: Id, b: Snap)
    requires CommitJournal(a, loc, kind, note, cid) == Ok(b)
    requires IsFirst(a.state, loc) ==> PublishedKey(a.state, loc, cid) !in a.state.tips
    ensures cid in b.disk && b.disk == a.disk[cid := b.disk[cid]] && b.state.openBlocks == a.state.openBlocks
    ensures var k := PublishedKey(a.state, loc, cid);
      b.disk[cid].previous == TipOf(a.state, k) && !IsMarker(b.disk[cid].kind) && b.state.tips == a.state.tips[k := cid]
  {
  }

  predicate NoResets(ops: seq<Op>, n: nat)
    requires n <= |ops|
  {
    forall j :: 0 <= j < n ==> !ops[j].Retreat?
  }

  lemma RunBlocks(ops: seq<Op>, snaps: seq<Snap>, k: nat)
    requires IsRun(ops, snaps) && k < |ops| && Sound(snaps[k]) && !ops[k].Retreat?
    requires BlocksFollow(snaps[k].disk, snaps[k].state)
    ensures BlocksFollow(snaps[k + 1].disk, snaps[k + 1].state)
  {
    assert StepAt(ops, snaps, k);
    StepKeepsBlocks(ops[k], snaps[k], snaps[k + 1]);
  }

  /** In a run without resets the state's open blocks are at every point what replaying each chain leaves open. */
  lemma {:induction false} BlocksFollowWithoutResets(ops: seq<Op>, snaps: seq<Snap>, i: nat)
    requires IsRun(ops, snaps) && i < |snaps| && AllAdmissible(ops, snaps, i) && NoResets(ops, i)
    ensures BlocksFollow(snaps[i].disk, snaps[i].state)
    decreases i
  {
    if i > 0 {
      assert AllAdmissible(ops, snaps, i - 1);
      BlocksFollowWithoutResets(ops, snaps, i - 1);
      RunsStaySteady(ops, snaps, i - 1);
      RunBlocks(ops, snaps, i - 1);
    }
  }
}
