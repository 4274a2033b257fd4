/** What a reset does to the open blocks of the state, and when a stale block goes. */
module ResetBlocks {
  import opened Records
  import opened Chains
  import opened Blocks
  import opened StoreState
  import opened Pipeline
  import opened PipelineLaws
  import opened BlockLaws
  import opened Resets
  import opened ResetLaws

  // ---- Open blocks after a reset ----

  /** An ordinary commit that is in no block is reached with no block open. */
  lemma OutermostReplaysEmpty(disk: Disk, id: Id)
    requires HasChain(disk, id) && MembershipOf(disk, id).None? && !IsMarker(disk[id].kind)
    ensures OpenAfter(disk, ChainOf(disk, id)) == []
  {
  }

  /** The objects whose blocks a reset forgets. */
  ghost function Forgotten(snap: Snap, node: Key, landing: Id): set<Key>
    requires node.kind == File ==> HasChain(snap.disk, landing)
  {
    if node.kind == File then Dropped(snap.state, node, snap.disk[landing].rangeTips)
    else if landing == NO_COMMIT then {node}
    else {}
  }

  lemma ResetForgets(snap: Snap, node: Key, landing: Id, pre: State)
    requires (node.kind == File ==> HasChain(snap.disk, landing)) && ResetsTo(snap, node, landing, pre)
    ensures pre.openBlocks == snap.state.openBlocks - Forgotten(snap, node, landing)
  {
  }

  lemma ForgottenHaveNoTip(snap: Snap, node: Key, landing: Id, k: Key)
    requires node.kind == File ==> HasChain(snap.disk, landing) && node !in snap.disk[landing].rangeTips
    requires k in snap.state.tips && (node.kind == File ==> node !in ChildrenOf(snap.state, node))
    ensures TipAfterReset(snap, node, landing, k).None? <==>
      k in Forgotten(snap, node, landing) || (k == node && landing == NO_COMMIT)
  {
  }

  /** A reset drops the blocks of objects that it withdraws, and leaves those of all others alone. */
  lemma ResetLeavesBlocks(snap: Snap, node: Key, landing: Id, pre: State, k: Key)
    requires Sound(snap) && (node.kind == File ==> FileResetAllowed(snap, node, landing))
    requires ResetsTo(snap, node, landing, pre)
    ensures k in pre.tips ==> OpenOf(pre, k) == OpenOf(snap.state, k)
    ensures k in pre.openBlocks && k in snap.state.tips ==> k in pre.tips
    ensures k in pre.openBlocks ==> k in snap.state.openBlocks
  {
    if node.kind == File {
      FileTipsReset(snap, node, landing, pre);
      FileNotItsOwnChild(snap, node);
    }
    ResetForgets(snap, node, landing, pre);
    ResetTips(snap, node, landing, pre, k);
    if k in snap.state.tips {
      ForgottenHaveNoTip(snap, node, landing, k);
    } else {
      ForgottenWereMounted(snap, node, landing, k);
    }
  }

  /** Only live objects are forgotten, and only those that end without a tip. */
  lemma ForgottenWereMounted(snap: Snap, node: Key, landing: Id, k: Key)
    requires Sound(snap) && (node.kind == File ==> HasChain(snap.disk, landing)) && k !in snap.state.tips
    ensures k in Forgotten(snap, node, landing) ==> TipAfterReset(snap, node, landing, k).None?
  {
    SoundMeans(snap);
    assert node in snap.state.mounts ==> MountOk(snap.state, node);
  }

  lemma FileNotItsOwnChild(snap: Snap, node: Key)
    requires Sound(snap) && node.kind == File
    ensures node !in ChildrenOf(snap.state, node)
  {
    SoundMeans(snap);
    assert node in snap.state.mounts ==> MountOk(snap.state, node);
  }

  /**
   * The blocks open at a commit that a reset accepts as a target or in a snapshot: none for an
   * ordinary commit; a marker is accepted wherever it is.
   */
  ghost function OpenAtAccepted(disk: Disk, id: Id): seq<Id>
    requires HasChain(disk, id)
  {
    if IsMarker(disk[id].kind) then OpenAfter(disk, ChainOf(disk, id)) else []
  }

  /**
   * Before the reset: every object that it moves and that stays has the same blocks open as it will
   * have where it goes. For an ordinary target that is: has no block open.
   */
  ghost predicate BlocksFit(snap: Snap, target: Id, node: Key, landing: Id)
    requires HasChain(snap.disk, target) && landing == Landing(snap.disk[target], target)
    requires node.kind == File ==> FileResetAllowed(snap, node, landing)
  {
    && (if !IsMarker(snap.disk[target].kind) then OpenOf(snap.state, node) == []
        else landing != NO_COMMIT && HasChain(snap.disk, landing) ==>
          OpenOf(snap.state, node) == OpenAfter(snap.disk, ChainOf(snap.disk, landing)))
    && (node.kind == File ==> forall c :: c in snap.disk[landing].rangeTips ==> ChildBlocksFit(snap, landing, c))
  }

  ghost predicate ChildBlocksFit(snap: Snap, landing: Id, c: Key)
    requires landing in snap.disk && c in snap.disk[landing].rangeTips
  {
    var tip := snap.disk[landing].rangeTips[c];
    HasChain(snap.disk, tip) && OpenOf(snap.state, c) == OpenAtAccepted(snap.disk, tip)
  }

  lemma NodeBlocksIff(snap: Snap, target: Id, node: Key, landing: Id, pre: State)
    requires Sound(snap) && HasChain(snap.disk, target) && MembershipOf(snap.disk, target).None?
    requires landing == Landing(snap.disk[target], target) && landing != NO_COMMIT
    requires NodeOf(snap, landing) == Some(node)
    requires node.kind == File ==> FileResetAllowed(snap, node, landing)
    requires ResetsTo(snap, node, landing, pre)
    ensures node in pre.tips
    ensures BlocksAt(snap.disk, pre, node) <==>
      OpenOf(snap.state, node) ==
        if IsMarker(snap.disk[target].kind) then OpenAfter(snap.disk, ChainOf(snap.disk, landing)) else []
  {
    ResetTips(snap, node, landing, pre, node);
    ResetLeavesBlocks(snap, node, landing, pre, node);
    if !IsMarker(snap.disk[target].kind) {
      OutermostReplaysEmpty(snap.disk, target);
    }
  }

  lemma ChildBlocksIff(snap: Snap, node: Key, landing: Id, pre: State, c: Key)
    requires node.kind == File && FileResetAllowed(snap, node, landing) && ResetsTo(snap, node, landing, pre)
    requires Sound(snap) && c in snap.disk[landing].rangeTips && c != node
    ensures c in pre.tips
    ensures BlocksAt(snap.disk, pre, c) <==> ChildBlocksFit(snap, landing, c)
  {
    var tip := snap.disk[landing].rangeTips[c];
    assert ChildOk(snap, node, c, tip);
    ResetTips(snap, node, landing, pre, c);
    ResetLeavesBlocks(snap, node, landing, pre, c);
    if !IsMarker(snap.disk[tip].kind) {
      OutermostReplaysEmpty(snap.disk, tip);
    }
  }

  /** Objects that a reset does not touch keep their open blocks right. */
  lemma UntouchedBlocks(snap: Snap, node: Key, landing: Id, pre: State, k: Key)
    requires Sound(snap) && BlocksFollow(snap.disk, snap.state) && k in pre.tips && k != node
    requires node.kind == File ==> FileResetAllowed(snap, node, landing) && k !in snap.disk[landing].rangeTips
    requires ResetsTo(snap, node, landing, pre)
    ensures BlocksAt(snap.disk, pre, k)
  {
    ResetTips(snap, node, landing, pre, k);
    ResetLeavesBlocks(snap, node, landing, pre, k);
    assert BlocksAt(snap.disk, snap.state, k);
  }

  /**
   * A reset never recomputes open blocks. From a state in which they are right for every object,
   * an allowed reset leaves them right for every object exactly when they fit where it goes.
   */
  lemma ResetBlocksFollowIff(snap: Snap, fileNode: Key, target: Id, node: Key, landing: Id, pre: State)
    requires Sound(snap) && BlocksFollow(snap.disk, snap.state) && ResetAllowed(snap, fileNode, target)
    requires NodeOf(snap, target) == Some(node) && landing == Landing(snap.disk[target], target)
    requires ResetsTo(snap, node, landing, pre)
    ensures BlocksFollow(snap.disk, pre) <==> BlocksFit(snap, target, node, landing)
  {
    LandingOnNode(snap, target);
    BlockKeysStay(snap, node, landing, pre);
    OthersFollow(snap, node, landing, pre);
    if node.kind == File {
      NodeBlocksIff(snap, target, node, landing, pre);
      FileBlocksFollowIff(snap, node, landing, pre);
    } else {
      if landing != NO_COMMIT {
        NodeBlocksIff(snap, target, node, landing, pre);
      } else {
        ResetTips(snap, node, landing, pre, node);
      }
      FollowIff(snap.disk, pre, {node});
    }
  }

  /** With every other object right, all are right exactly when the moved ones are. */
  lemma FollowIff(disk: Disk, pre: State, moved: set<Key>)
    requires forall k :: k in pre.tips && k !in moved ==> BlocksAt(disk, pre, k)
    requires forall k :: k in pre.openBlocks ==> k in pre.tips
    ensures BlocksFollow(disk, pre) <==> forall k :: k in moved && k in pre.tips ==> BlocksAt(disk, pre, k)
  {
  }

  lemma FileBlocksFollowIff(snap: Snap, node: Key, landing: Id, pre: State)
    requires Sound(snap) && node.kind == File && FileResetAllowed(snap, node, landing)
    requires ResetsTo(snap, node, landing, pre) && node in pre.tips
    requires forall k :: k in pre.tips && k != node && k !in snap.disk[landing].rangeTips ==>
      BlocksAt(snap.disk, pre, k)
    requires forall k :: k in pre.openBlocks ==> k in pre.tips
    ensures BlocksFollow(snap.disk, pre) <==>
      BlocksAt(snap.disk, pre, node)
      && forall c :: c in snap.disk[landing].rangeTips ==> ChildBlocksFit(snap, landing, c)
  {
    ChildrenFollowIff(snap, node, landing, pre);
    FollowIff(snap.disk, pre, {node} + snap.disk[landing].rangeTips.Keys);
  }

  lemma OthersFollow(snap: Snap, node: Key, landing: Id, pre: State)
    requires Sound(snap) && BlocksFollow(snap.disk, snap.state)
    requires node.kind == File ==> FileResetAllowed(snap, node, landing)
    requires ResetsTo(snap, node, landing, pre)
    ensures forall k :: k in pre.tips && k != node && (node.kind == File ==> k !in snap.disk[landing].rangeTips) ==>
      BlocksAt(snap.disk, pre, k)
  {
    forall k | k in pre.tips && k != node && (node.kind == File ==> k !in snap.disk[landing].rangeTips)
      ensures BlocksAt(snap.disk, pre, k)
    {
      UntouchedBlocks(snap, node, landing, pre, k);
    }
  }

  lemma ChildrenFollowIff(snap: Snap, node: Key, landing: Id, pre: State)
    requires Sound(snap) && node.kind == File && FileResetAllowed(snap, node, landing)
    requires ResetsTo(snap, node, landing, pre)
    ensures node !in snap.disk[landing].rangeTips
    ensures forall c :: c in snap.disk[landing].rangeTips ==>
      c in pre.tips && (BlocksAt(snap.disk, pre, c) <==> ChildBlocksFit(snap, landing, c))
  {
    FileTipsReset(snap, node, landing, pre);
    forall c | c in snap.disk[landing].rangeTips
      ensures c in pre.tips && (BlocksAt(snap.disk, pre, c) <==> ChildBlocksFit(snap, landing, c))
    {
      ChildBlocksIff(snap, node, landing, pre, c);
    }
  }

  lemma BlockKeysStay(snap: Snap, node: Key, landing: Id, pre: State)
    requires Sound(snap) && forall k :: k in snap.state.openBlocks ==> k in snap.state.tips
    requires node.kind == File ==> FileResetAllowed(snap, node, landing)
    requires ResetsTo(snap, node, landing, pre)
    ensures forall k :: k in pre.openBlocks ==> k in pre.tips
  {
    forall k | k in pre.openBlocks
      ensures k in pre.tips
    {
      ResetLeavesBlocks(snap, node, landing, pre, k);
    }
  }

  lemma MarkerLeavesBlocks(disk: Disk, pre: State, node: Key, cid: Id, after: Snap)
    requires node in pre.tips && Append(Snap(disk, pre), Marker, Named(node), Reset, None, NO_FIELDS, cid) == Ok(after)
    ensures cid in after.disk && after.disk == disk[cid := after.disk[cid]]
    ensures after.disk[cid].kind == Reset && after.disk[cid].previous == pre.tips[node]
    ensures after.state.openBlocks == pre.openBlocks && after.state.tips == pre.tips[node := cid]
  {
  }

  /** after has one commit more than pre, without a marker, on a live object. */
  predicate Continues(disk: Disk, pre: State, node: Key, cid: Id, after: Snap) {
    && node in pre.tips && cid in after.disk && after.disk == disk[cid := after.disk[cid]]
    && after.disk[cid].previous == pre.tips[node] && !IsMarker(after.disk[cid].kind)
    && after.state.openBlocks == pre.openBlocks && after.state.tips == pre.tips[node := cid]
  }

  lemma ContinuedBlocks(disk: Disk, pre: State, node: Key, cid: Id, after: Snap, k: Key)
    requires NO_COMMIT !in disk && Fresh(disk, cid) && Continues(disk, pre, node, cid, after)
    requires k in pre.tips && HasChain(disk, pre.tips[k])
    ensures k in after.state.tips && (BlocksAt(after.disk, after.state, k) <==> BlocksAt(disk, pre, k))
  {
    if k == node {
      OpenExtends(disk, cid, after.disk[cid]);
    } else {
      ChainGrows(disk, after.disk, pre.tips[k]);
      OpenOnOtherDisk(disk, after.disk, ChainOf(disk, pre.tips[k]));
    }
  }

  lemma ContinuedBlocksFollowIff(disk: Disk, pre: State, node: Key, cid: Id, after: Snap)
    requires NO_COMMIT !in disk && Fresh(disk, cid) && Continues(disk, pre, node, cid, after)
    requires forall k :: k in pre.tips ==> HasChain(disk, pre.tips[k])
    ensures BlocksFollow(after.disk, after.state) <==> BlocksFollow(disk, pre)
  {
    forall k | k in pre.tips
      ensures k in after.state.tips && (BlocksAt(after.disk, after.state, k) <==> BlocksAt(disk, pre, k))
    {
      ContinuedBlocks(disk, pre, node, cid, after, k);
    }
  }

  /** The reset's own commit changes nothing about that: it carries no marker. */
  lemma MarkerKeepsBlocksIff(disk: Disk, pre: State, node: Key, cid: Id, after: Snap)
    requires NO_COMMIT !in disk && Fresh(disk, cid) && node in pre.tips
    requires forall k :: k in pre.tips ==> HasChain(disk, pre.tips[k])
    requires Append(Snap(disk, pre), Marker, Named(node), Reset, None, NO_FIELDS, cid) == Ok(after)
    ensures BlocksFollow(after.disk, after.state) <==> BlocksFollow(disk, pre)
  {
    MarkerLeavesBlocks(disk, pre, node, cid, after);
    ContinuedBlocksFollowIff(disk, pre, node, cid, after);
  }

  /** For the whole reset, as the command leaves the store. */
  lemma ResetDoneBlocksFollowIff(
    before: Snap, fileNode: Key, target: Id, node: Key, landing: Id, cid: Id, mid: State, after: Snap)
    requires Sound(before) && BlocksFollow(before.disk, before.state) && ResetAllowed(before, fileNode, target)
    requires NodeOf(before, target) == Some(node) && landing == Landing(before.disk[target], target)
    requires Fresh(before.disk, cid) && ResetDone(before, node, landing, cid, mid, after)
    ensures BlocksFollow(after.disk, after.state) <==> BlocksFit(before, target, node, landing)
  {
    ResetBlocksFollowIff(before, fileNode, target, node, landing, mid);
    if landing != NO_COMMIT {
      LandingOnNode(before, target);
      TipsHaveChains(before, node, landing, mid);
      ResetTips(before, node, landing, mid, node);
      MarkerKeepsBlocksIff(before.disk, mid, node, cid, after);
    }
  }

  lemma TipsHaveChains(snap: Snap, node: Key, landing: Id, pre: State)
    requires Sound(snap) && (landing == NO_COMMIT || NodeOf(snap, landing) == Some(node))
    requires node.kind == File ==> FileResetAllowed(snap, node, landing)
    requires ResetsTo(snap, node, landing, pre)
    ensures NO_COMMIT !in snap.disk && forall k :: k in pre.tips ==> HasChain(snap.disk, pre.tips[k])
  {
    SoundMeans(snap);
    forall k | k in pre.tips
      ensures HasChain(snap.disk, pre.tips[k])
    {
      ResetTips(snap, node, landing, pre, k);
      ResetTipHasChain(snap, node, landing, k);
    }
  }

  // ---- When a stale block goes ----

  datatype Mark = Mark(kind: CommitKind, commit: Id)

  /** A stack of open blocks after more commits, oldest first. */
  function After(open: seq<Id>, marks: seq<Mark>): seq<Id> {
    if marks == [] then open
    else
      var last := |marks| - 1;
      AfterMarker(After(open, marks[..last]), marks[last].kind, marks[last].commit)
  }

  /** An END that finds no block open on the chain. */
  ghost predicate UnmatchedEnd(open: seq<Id>, marks: seq<Mark>) {
    exists i :: EndsNothing(open, marks, i)
  }

  predicate EndsNothing(open: seq<Id>, marks: seq<Mark>, i: int) {
    0 <= i < |marks| && marks[i].kind == AtomicEnd && After(open, marks[..i]) == []
  }

  /** One commit on a stack that holds one block too many: only an END with nothing to close brings the two together. */
  lemma StaleStep(state: seq<Id>, chain: seq<Id>, kind: CommitKind, commit: Id)
    requires |state| == |chain| + 1
    ensures var s, c := AfterMarker(state, kind, commit), AfterMarker(chain, kind, commit);
      if kind == AtomicEnd && chain == [] then s == c == [] else |s| == |c| + 1
  {
  }

  /**
   * A block that the state holds open beyond those of the chain stays until the first END that
   * closes nothing on the chain; from then on the two agree.
   */
  lemma {:induction false} StaleBlockGoesIff(state: seq<Id>, chain: seq<Id>, marks: seq<Mark>)
    requires |state| == |chain| + 1
    ensures After(state, marks) == After(chain, marks) <==> UnmatchedEnd(chain, marks)
    ensures !UnmatchedEnd(chain, marks) ==> |After(state, marks)| == |After(chain, marks)| + 1
    decreases |marks|
  {
    if marks != [] {
      var last := |marks| - 1;
      var less := marks[..last];
      StaleBlockGoesIff(state, chain, less);
      EarlierEnds(chain, marks);
      if !UnmatchedEnd(chain, less) {
        StaleStep(After(state, less), After(chain, less), marks[last].kind, marks[last].commit);
      }
    }
  }

  lemma EarlierEnds(chain: seq<Id>, marks: seq<Mark>)
    requires marks != []
    ensures var last := |marks| - 1;
      UnmatchedEnd(chain, marks) <==> UnmatchedEnd(chain, marks[..last]) || EndsNothing(chain, marks, last)
  {
    var last := |marks| - 1;
    var less := marks[..last];
    forall i | 0 <= i < last
      ensures EndsNothing(chain, less, i) <==> EndsNothing(chain, marks, i)
    {
      assert less[..i] == marks[..i];
    }
    if UnmatchedEnd(chain, marks) {
      var i :| EndsNothing(chain, marks, i);
    }
    if UnmatchedEnd(chain, less) {
      var i :| EndsNothing(chain, less, i);
      assert EndsNothing(chain, marks, i);
    }
  }

  /**
   * In the store: a commit on an object with a stale block makes its open blocks right exactly when it
   * is an END and the chain has none open.
   */
  lemma StaleAfterCommitIff(
    snap: Snap, mode: Mode, key: Key, kind: CommitKind, content: Option<Id>, payload: Payload, cid: Id, after: Snap)
    requires NO_COMMIT !in snap.disk && Fresh(snap.disk, cid) && key in snap.state.tips
    requires HasChain(snap.disk, snap.state.tips[key])
    requires |OpenOf(snap.state, key)| == |OpenAfter(snap.disk, ChainOf(snap.disk, snap.state.tips[key]))| + 1
    requires Append(snap, mode, Named(key), kind, content, payload, cid) == Ok(after)
    ensures key in after.state.tips
    ensures BlocksAt(after.disk, after.state, key) <==>
      kind == AtomicEnd && OpenAfter(snap.disk, ChainOf(snap.disk, snap.state.tips[key])) == []
  {
    LaterAdvances(snap, mode, Named(key), kind, content, payload, cid, after);
    DraftOf(snap, mode, Named(key), kind, content, payload);
    var r := Draft(snap.state, mode, Named(key), kind, content, payload);
    OpenExtends(snap.disk, cid, r);
    OpenMoves(snap.state, after.state, key, kind, cid);
    StaleStep(OpenOf(snap.state, key), OpenAfter(snap.disk, ChainOf(snap.disk, snap.state.tips[key])), kind, cid);
  }
}
