/** What a reset keeps, restores and withdraws. */
module ResetLaws {
  import opened Records
  import opened Chains
  import opened Blocks
  import opened StoreState
  import opened Pipeline
  import opened Index
  import opened PipelineLaws
  import opened Resets

  // ---- A file reset restores the snapshot ----

  /** Where each tip is once a file has been reset. */
  ghost predicate TipsReset(s: State, node: Key, landing: Id, tips: map<Key, Id>, after: map<Key, Id>) {
    && node in after && after[node] == landing
    && (forall c :: c in tips ==> c in after && after[c] == tips[c])
    && (forall j :: j != node && j !in tips ==> (j in after <==> j in s.tips && j !in ChildrenOf(s, node)))
    && (forall j :: j != node && j !in tips && j in after ==> after[j] == s.tips[j])
  }

  lemma FileTips(s: State, node: Key, landing: Id, tips: map<Key, Id>)
    requires landing != NO_COMMIT && node !in tips && forall c :: c in tips ==> tips[c] != NO_COMMIT
    ensures TipsReset(s, node, landing, tips, MovedTips(s.tips, FileMoves(s, node, landing, tips)))
  {
    var moves := FileMoves(s, node, landing, tips);
    assert moves[node] == landing;
    assert forall c :: c in tips ==> c in moves && moves[c] == tips[c];
    assert forall j :: j != node && j !in tips && j in ChildrenOf(s, node) ==>
      j in Dropped(s, node, tips) && j in moves && moves[j] == NO_COMMIT;
    assert forall j :: j != node && j !in tips && j !in ChildrenOf(s, node) ==>
      j !in Dropped(s, node, tips) && j !in moves;
  }

  lemma FileTipsReset(snap: Snap, node: Key, landing: Id, pre: State)
    requires node.kind == File && FileResetAllowed(snap, node, landing) && FileResetTo(snap, node, landing, pre)
    ensures TipsReset(snap.state, node, landing, snap.disk[landing].rangeTips, pre.tips)
    ensures node !in snap.disk[landing].rangeTips
  {
    var tips := snap.disk[landing].rangeTips;
    forall c | c in tips
      ensures tips[c] != NO_COMMIT && c != node
    {
      ChildIsRetained(snap, node, c, tips[c]);
    }
    FileTips(snap.state, node, landing, tips);
  }

  lemma SnapshotIs(s: State, node: Key, tips: map<Key, Id>)
    requires forall c :: c in ChildrenOf(s, node) <==> c in tips
    requires forall c :: c in tips ==> c in s.tips && s.tips[c] == tips[c]
    ensures SnapshotOf(s, node) == tips
  {
  }

  /**
   * After a file reset the mounted ranges and their tips are the landing's snapshot, and the file is
   * where its chain says.
   */
  lemma FileResetRestores(snap: Snap, node: Key, landing: Id, pre: State)
    requires node.kind == File && FileResetAllowed(snap, node, landing) && FileResetTo(snap, node, landing, pre)
    ensures TipOf(pre, node) == landing
    ensures forall c :: Mounted(pre, node, c) <==> c in snap.disk[landing].rangeTips
    ensures SnapshotOf(pre, node) == snap.disk[landing].rangeTips
    ensures LocationOf(pre, node) == LocationAt(snap.disk, landing)
  {
    FileTipsReset(snap, node, landing, pre);
    SnapshotIs(pre, node, snap.disk[landing].rangeTips);
  }

  lemma ChildIsRetained(snap: Snap, node: Key, c: Key, tip: Id)
    requires ChildOk(snap, node, c, tip)
    ensures tip != NO_COMMIT && tip in snap.state.retained && c.kind == Range
  {
    assert IsChain(snap.disk, ChainOf(snap.disk, tip));
  }

  /**
   * A commit of source or marker kind on a live file records the ranges mounted then, so a reset to it
   * brings exactly those back.
   */
  lemma ResetUndoesLaterChanges(
    before: Snap, mode: Mode, node: Key, kind: CommitKind, content: Option<Id>, payload: Payload, cid: Id, after: Snap,
    later: Snap, pre: State)
    requires node.kind == File && node in before.state.tips
    requires Append(before, mode, Named(node), kind, content, payload, cid) == Ok(after)
    requires cid in later.disk && later.disk[cid] == after.disk[cid]
    requires FileResetAllowed(later, node, cid) && FileResetTo(later, node, cid, pre)
    ensures SnapshotOf(pre, node) == SnapshotOf(before.state, node)
    ensures forall c :: Mounted(pre, node, c) <==> c in SnapshotOf(before.state, node)
  {
    FileResetRestores(later, node, cid, pre);
  }

  /**
   * Renames, deletes, links and adapts record no snapshot, so a reset that lands
   * on one takes every range away from the file.
   */
  lemma LandingWithoutSnapshot(snap: Snap, node: Key, landing: Id, pre: State)
    requires node.kind == File && FileResetAllowed(snap, node, landing) && FileResetTo(snap, node, landing, pre)
    requires snap.disk[landing].rangeTips == map[]
    ensures forall c :: Mounted(snap.state, node, c) && c != node ==> !Mounted(pre, node, c) && c !in pre.tips
  {
    FileResetRestores(snap, node, landing, pre);
    FileTipsReset(snap, node, landing, pre);
  }

  lemma LifecycleHasNoSnapshot(snap: Snap, kind: CommitKind, path: string, target: Option<string>, cid: Id, after: Snap)
    requires Lifecycle(snap, kind, path, target, cid) == Ok(after)
    ensures after.disk[cid].rangeTips == map[] && after.state.tips[HolderOf(snap, path, false)] == cid
  {
  }

  // ---- Shape ----

  /** The index facts of a state in which some objects have moved within their own chains. */
  lemma MovedObject(snap: Snap, node: Key, landing: Id, pre: State, j: Key)
    requires Sound(snap) && node.kind == File && FileResetAllowed(snap, node, landing)
    requires FileResetTo(snap, node, landing, pre)
    requires NodeOf(snap, landing) == Some(node) && j in pre.tips
    ensures TipOk(snap.disk, pre, j)
  {
    var tips := snap.disk[landing].rangeTips;
    FileResetRestores(snap, node, landing, pre);
    if j == node {
    } else if j in tips {
      RestoredTip(snap, node, landing, pre, j);
    } else {
      UntouchedTip(snap, node, landing, pre, j);
    }
  }

  lemma RestoredTip(snap: Snap, node: Key, landing: Id, pre: State, j: Key)
    requires Sound(snap) && node.kind == File && FileResetAllowed(snap, node, landing)
    requires FileResetTo(snap, node, landing, pre)
    requires j in snap.disk[landing].rangeTips
    ensures TipOk(snap.disk, pre, j)
  {
    SoundMeans(snap);
    FileResetRestores(snap, node, landing, pre);
    var tips := snap.disk[landing].rangeTips;
    assert ChildOk(snap, node, j, tips[j]) && j in SnapshotOf(pre, node) && pre.tips[j] == tips[j];
    assert j !in snap.state.locations && Mounted(pre, node, j);
  }

  lemma UntouchedTip(snap: Snap, node: Key, landing: Id, pre: State, j: Key)
    requires Sound(snap) && node.kind == File && FileResetAllowed(snap, node, landing)
    requires FileResetTo(snap, node, landing, pre)
    requires j in pre.tips && j != node && j !in snap.disk[landing].rangeTips
    ensures TipOk(snap.disk, pre, j)
  {
    SoundMeans(snap);
    var s := snap.state;
    FileTipsReset(snap, node, landing, pre);
    assert TipOk(snap.disk, s, j) && LocationOf(pre, j) == LocationOf(s, j);
    forall p | Mounted(s, p, j)
      ensures Mounted(pre, p, j)
    {
      assert p != node;
    }
  }

  /** Two parents of one range are the same parent. */
  lemma OneParent(s: State, p: Key, q: Key, c: Key)
    requires MountedOnce(s) && Mounted(s, p, c) && Mounted(s, q, c)
    ensures p == q
  {
  }

  lemma LiveRangeHasParent(disk: Disk, s: State, c: Key)
    requires IndexOk(disk, s) && c in s.tips && c.kind == Range
    ensures HasChain(disk, s.tips[c]) && ParentAt(disk, s.tips[c]).Some?
    ensures Mounted(s, ParentAt(disk, s.tips[c]).value, c)
  {
    assert TipOk(disk, s, c);
  }

  /** All commits of an object name the same parent. */
  lemma SameRootSameParent(disk: Disk, a: Id, b: Id)
    requires HasChain(disk, a) && HasChain(disk, b) && Root(ChainOf(disk, a)) == Root(ChainOf(disk, b))
    ensures Describe(disk, ChainOf(disk, a)).Ok? ==> ParentAt(disk, a) == ParentAt(disk, b)
  {
  }

  /** A range in the snapshot is mounted under the file or nowhere. */
  lemma SnapshotMount(snap: Snap, node: Key, c: Key, tip: Id, p: Key)
    requires Sound(snap) && ChildOk(snap, node, c, tip) && Mounted(snap.state, p, c)
    ensures p == node
  {
    SoundMeans(snap);
    var disk, s := snap.disk, snap.state;
    assert MountOk(s, p) && c in s.tips;
    LiveRangeHasParent(disk, s, c);
    assert TipOk(disk, s, c);
    SameRootSameParent(disk, tip, s.tips[c]);
    OneParent(s, p, node, c);
  }

  lemma FileResetMounts(snap: Snap, node: Key, landing: Id, pre: State, p: Key)
    requires Sound(snap) && node.kind == File && FileResetAllowed(snap, node, landing)
    requires FileResetTo(snap, node, landing, pre)
    requires p in pre.mounts && (node in snap.state.tips || p != node)
    ensures MountOk(pre, p)
  {
    SoundMeans(snap);
    var s := snap.state;
    FileTipsReset(snap, node, landing, pre);
    if p == node {
      forall c | c in ChildrenOf(pre, p)
        ensures c in pre.tips && c.kind == Range
      {
        ChildIsRetained(snap, node, c, snap.disk[landing].rangeTips[c]);
      }
    } else {
      assert MountOk(s, p) && ChildrenOf(pre, p) == ChildrenOf(s, p);
      ParentSurvives(snap, node, landing, pre, p);
      forall c | c in ChildrenOf(s, p)
        ensures c in pre.tips
      {
        assert Mounted(s, p, c);
        ChildSurvives(snap, node, landing, pre, p, c);
      }
    }
  }

  lemma ParentSurvives(snap: Snap, node: Key, landing: Id, pre: State, p: Key)
    requires Sound(snap) && node.kind == File && FileResetAllowed(snap, node, landing)
    requires FileResetTo(snap, node, landing, pre)
    requires p in snap.state.tips && p.kind == File
    ensures p in pre.tips
  {
    SoundMeans(snap);
    var s := snap.state;
    FileTipsReset(snap, node, landing, pre);
    assert node in s.mounts ==> MountOk(s, node);
  }

  lemma ChildSurvives(snap: Snap, node: Key, landing: Id, pre: State, p: Key, c: Key)
    requires Sound(snap) && node.kind == File && FileResetAllowed(snap, node, landing)
    requires FileResetTo(snap, node, landing, pre)
    requires p != node && Mounted(snap.state, p, c) && c in snap.state.tips
    ensures c in pre.tips && c !in snap.disk[landing].rangeTips
  {
    SoundMeans(snap);
    var s, tips := snap.state, snap.disk[landing].rangeTips;
    FileTipsReset(snap, node, landing, pre);
    if c in tips {
      SnapshotMount(snap, node, c, tips[c], p);
    }
    if Mounted(s, node, c) {
      OneParent(s, p, node, c);
    }
  }

  lemma FileResetShape(snap: Snap, node: Key, landing: Id, pre: State)
    requires Sound(snap) && node.kind == File && FileResetAllowed(snap, node, landing)
    requires FileResetTo(snap, node, landing, pre)
    requires node in snap.state.tips
    ensures ShapeOk(pre)
  {
    SoundMeans(snap);
    var s := snap.state;
    forall p | p in pre.mounts
      ensures MountOk(pre, p)
    {
      FileResetMounts(snap, node, landing, pre, p);
    }
    forall k | k in pre.locations
      ensures k in pre.tips && k.kind == File
    {
      FileTipsReset(snap, node, landing, pre);
      if k != node {
        ParentSurvives(snap, node, landing, pre, k);
      }
    }
    FileResetMountedOnce(snap, node, landing, pre);
  }

  lemma FileResetMountedOnce(snap: Snap, node: Key, landing: Id, pre: State)
    requires Sound(snap) && node.kind == File && FileResetAllowed(snap, node, landing)
    requires FileResetTo(snap, node, landing, pre)
    ensures MountedOnce(pre)
  {
    SoundMeans(snap);
    var s, tips := snap.state, snap.disk[landing].rangeTips;
    forall p, c | p in pre.mounts && p != node && c in pre.mounts[p]
      ensures c !in tips
    {
      assert Mounted(s, p, c) && MountOk(s, p);
      if c in tips {
        SnapshotMount(snap, node, c, tips[c], p);
      }
    }
    OnlyOneChanged(s, pre, node, tips.Keys);
  }

  lemma OnlyOneChanged(s: State, t: State, node: Key, kept: set<Key>)
    requires MountedOnce(s) && MountsRestored(s.mounts, t.mounts, node, kept)
    requires forall p, c :: p in t.mounts && p != node && c in t.mounts[p] ==> c !in kept
    ensures MountedOnce(t)
  {
    forall p, q, c | p in t.mounts && q in t.mounts && p != q && c in t.mounts[p]
      ensures c !in t.mounts[q]
    {
      if p != node && q != node {
        assert t.mounts[p] == s.mounts[p] && t.mounts[q] == s.mounts[q];
      }
    }
  }

  /** The file's restored place is free of other objects of its class. */
  ghost predicate PlaceFree(snap: Snap, node: Key, at: Option<string>) {
    at.Some? ==> forall k :: Holds(snap, k, at.value, IsStatistics(snap.disk, node)) ==> k == node
  }

  lemma RestoredPlace(snap: Snap, node: Key, pre: State, at: Option<string>)
    requires Sound(snap) && node.kind == File
    requires pre.locations == PlacedAt(snap.state, node, at)
    ensures PlacesUnique(snap.disk, pre) <==> PlaceFree(snap, node, at)
  {
    SoundMeans(snap);
    if at.None? {
      FewerPlaces(snap.disk, snap.state, pre, node);
    } else if PlaceFree(snap, node, at) {
      RootsOnDisk(snap.disk, snap.state);
      FreePlaceStaysUnique(snap, node, pre, at.value);
    } else {
      var k :| Holds(snap, k, at.value, IsStatistics(snap.disk, node)) && k != node;
      TakenPlace(snap.disk, snap.state, pre, node, k);
    }
  }

  lemma FewerPlaces(disk: Disk, s: State, t: State, node: Key)
    requires PlacesUnique(disk, s) && t.locations == s.locations - {node}
    ensures PlacesUnique(disk, t)
  {
    assert forall k :: k in t.locations ==> k in s.locations && PlaceOf(disk, t, k) == PlaceOf(disk, s, k);
  }

  lemma TakenPlace(disk: Disk, s: State, t: State, node: Key, k: Key)
    requires node in t.locations && t.locations == s.locations[node := t.locations[node]]
    requires k != node && k in s.locations && s.locations[k] == t.locations[node]
    requires IsStatistics(disk, k) == IsStatistics(disk, node)
    ensures !PlacesUnique(disk, t)
  {
    assert PlaceOf(disk, t, k) == PlaceOf(disk, t, node);
  }

  lemma FreePlaceStaysUnique(snap: Snap, node: Key, pre: State, at: string)
    requires Sound(snap) && node.kind == File && PlaceFree(snap, node, Some(at))
    requires pre.locations == snap.state.locations[node := at]
    requires forall k :: k in snap.state.locations ==> k.root in snap.disk
    ensures PlacesUnique(snap.disk, pre)
  {
    SoundMeans(snap);
    var disk, s := snap.disk, snap.state;
    forall i, j | i in pre.locations && j in pre.locations && i != j
      ensures PlaceOf(disk, pre, i) != PlaceOf(disk, pre, j)
    {
      if i == node {
        assert !Holds(snap, j, at, IsStatistics(disk, node));
      } else if j == node {
        assert !Holds(snap, i, at, IsStatistics(disk, node));
      } else {
        assert PlaceOf(disk, s, i) != PlaceOf(disk, s, j);
      }
    }
  }

  /**
   * A file reset keeps the index exactly when no other object of the file's class is
   * where the file goes back to. The program looks for content there, whatever the file is.
   */
  lemma FileResetKeepsIndexIff(snap: Snap, node: Key, landing: Id, pre: State)
    requires Sound(snap) && node.kind == File && FileResetAllowed(snap, node, landing)
    requires FileResetTo(snap, node, landing, pre)
    requires node in snap.state.tips && NodeOf(snap, landing) == Some(node)
    ensures IndexOk(snap.disk, pre) <==> PlaceFree(snap, node, LocationAt(snap.disk, landing))
  {
    forall j | j in pre.tips.Keys
      ensures TipOk(snap.disk, pre, j)
    {
      MovedObject(snap, node, landing, pre, j);
    }
    assert AllTipsOk(snap.disk, pre, pre.tips.Keys);
    FileResetShape(snap, node, landing, pre);
    RestoredPlace(snap, node, pre, LocationAt(snap.disk, landing));
  }

  /** For a file that is not an import the program's own check is enough. */
  lemma ContentResetKeepsIndex(snap: Snap, node: Key, landing: Id, pre: State)
    requires Sound(snap) && node.kind == File && FileResetAllowed(snap, node, landing)
    requires FileResetTo(snap, node, landing, pre)
    requires node in snap.state.tips && NodeOf(snap, landing) == Some(node) && !IsStatistics(snap.disk, node)
    ensures IndexOk(snap.disk, pre)
  {
    SoundMeans(snap);
    var at := LocationAt(snap.disk, landing);
    FileResetKeepsIndexIff(snap, node, landing, pre);
    if at.Some? {
      forall k | Holds(snap, k, at.value, false)
        ensures k == node
      {
        var h := HolderOf(snap, at.value, false);
        assert PlaceOf(snap.disk, snap.state, h) == PlaceOf(snap.disk, snap.state, k);
      }
    }
  }

  // ---- Ranges and journals ----

  lemma SameShape(s: State, t: State)
    requires ShapeOk(s) && t.mounts == s.mounts && t.locations == s.locations && s.tips.Keys <= t.tips.Keys
    ensures ShapeOk(t)
  {
    forall p | p in t.mounts
      ensures MountOk(t, p)
    {
      assert MountOk(s, p) && ChildrenOf(t, p) == ChildrenOf(s, p);
    }
  }

  lemma ObjectResetShape(snap: Snap, node: Key, landing: Id, pre: State)
    requires ShapeOk(snap.state) && node.kind != File && ResetsTo(snap, node, landing, pre)
    ensures ShapeOk(pre)
  {
    ObjectResetFields(snap, node, landing, pre);
    if landing == NO_COMMIT {
      WithdrawnShape(snap.state, pre, node);
    } else {
      SameShape(snap.state, pre);
    }
  }

  lemma ObjectResetFields(snap: Snap, node: Key, landing: Id, pre: State)
    requires node.kind != File && ResetsTo(snap, node, landing, pre)
    ensures pre.locations == snap.state.locations
    ensures pre.tips == if landing == NO_COMMIT then snap.state.tips - {node} else snap.state.tips[node := landing]
    ensures pre.mounts == if landing == NO_COMMIT then Unmounted(snap.state.mounts, node) else snap.state.mounts
  {
    OneMove(snap.disk, snap.state, node, landing);
  }

  /** Moving a range or a journal back along its own chain keeps the index. */
  lemma ObjectResetKeepsIndex(snap: Snap, node: Key, landing: Id, pre: State)
    requires Sound(snap) && node.kind != File && ResetsTo(snap, node, landing, pre)
    requires landing == NO_COMMIT || NodeOf(snap, landing) == Some(node)
    requires node.kind == Range ==> node in snap.state.tips
    ensures IndexOk(snap.disk, pre)
  {
    SoundMeans(snap);
    ObjectResetShape(snap, node, landing, pre);
    forall j | j in pre.tips.Keys
      ensures TipOk(snap.disk, pre, j)
    {
      ObjectMoved(snap, node, landing, pre, j);
    }
    assert AllTipsOk(snap.disk, pre, pre.tips.Keys);
    assert pre.locations == snap.state.locations;
    SamePlacesHere(snap.disk, snap.state, pre);
  }

  lemma {:induction false} KeptMembers(children: seq<Key>, kept: set<Key>)
    ensures forall c :: c in KeptOrder(children, kept) <==> c in children && c in kept
    decreases |children|
  {
    if children != [] {
      KeptMembers(children[1..], kept);
      assert children == [children[0]] + children[1..];
    }
  }

  lemma {:induction false} KeptDistinct(children: seq<Key>, kept: set<Key>)
    requires Distinct(children)
    ensures Distinct(KeptOrder(children, kept))
    decreases |children|
  {
    if children != [] {
      var rest := children[1..];
      assert forall i, j :: 0 <= i < j < |rest| ==> rest[i] == children[i + 1] && rest[j] == children[j + 1];
      KeptDistinct(rest, kept);
      KeptMembers(rest, kept);
    }
  }

  lemma WithdrawnMember(s: State, node: Key, p: Key)
    requires p in s.mounts
    ensures forall c :: c in KeptOrder(s.mounts[p], Others(s.mounts[p], node)) <==> c in s.mounts[p] && c != node
  {
    KeptMembers(s.mounts[p], Others(s.mounts[p], node));
  }

  lemma WithdrawnShape(s: State, t: State, node: Key)
    requires ShapeOk(s) && node.kind != File && t.mounts == Unmounted(s.mounts, node) && t.locations == s.locations
    requires t.tips == s.tips - {node}
    ensures ShapeOk(t)
  {
    forall p | p in t.mounts
      ensures MountOk(t, p)
    {
      assert MountOk(s, p) && ChildrenOf(s, p) == s.mounts[p];
      WithdrawnMember(s, node, p);
      KeptDistinct(s.mounts[p], Others(s.mounts[p], node));
    }
    forall p, q, c | p in t.mounts && q in t.mounts && p != q && c in t.mounts[p]
      ensures c !in t.mounts[q]
    {
      WithdrawnMember(s, node, p);
      WithdrawnMember(s, node, q);
    }
  }

  lemma ObjectMoved(snap: Snap, node: Key, landing: Id, pre: State, j: Key)
    requires Sound(snap) && node.kind != File && ResetsTo(snap, node, landing, pre) && j in pre.tips
    requires landing == NO_COMMIT || NodeOf(snap, landing) == Some(node)
    requires node.kind == Range ==> node in snap.state.tips
    ensures TipOk(snap.disk, pre, j)
  {
    SoundMeans(snap);
    var s := snap.state;
    if j == node {
      assert landing != NO_COMMIT && pre.tips[j] == landing;
      LandedTip(snap, node, landing, pre);
    } else {
      assert TipOk(snap.disk, s, j) && pre.tips[j] == s.tips[j];
      forall p | Mounted(s, p, j)
        ensures Mounted(pre, p, j)
      {
        WithdrawnMember(s, node, p);
      }
    }
  }

  lemma LandedTip(snap: Snap, node: Key, landing: Id, pre: State)
    requires Sound(snap) && node.kind != File && NodeOf(snap, landing) == Some(node)
    requires node.kind == Range ==> node in snap.state.tips
    requires node in pre.tips && pre.tips[node] == landing && pre.locations == snap.state.locations
    requires pre.mounts == snap.state.mounts
    ensures TipOk(snap.disk, pre, node)
  {
    SoundMeans(snap);
    var disk, s := snap.disk, snap.state;
    if node.kind == Range {
      LiveRangeHasParent(disk, s, node);
      assert TipOk(disk, s, node);
      SameRootSameParent(disk, landing, s.tips[node]);
    }
  }

  // ---- The whole reset ----

  lemma RetainedHasNode(snap: Snap, id: Id)
    requires NodeOf(snap, id).Some?
    ensures id in snap.state.retained && HasChain(snap.disk, id) && id != NO_COMMIT
  {
  }

  /** Nothing that a reset leaves in the state lacks its record: retained is untouched and links only go. */
  lemma MovedKeepsCoherent(disk: Disk, s: State, moves: map<Key, Id>, t: State)
    requires Coherent(disk, s) && SameProjection(t, Moved(disk, s, moves)) && t.retained == s.retained
    requires forall k :: k in moves && moves[k] != NO_COMMIT ==> moves[k] in s.retained
    ensures Coherent(disk, t)
  {
    forall k | k in t.tips
      ensures t.tips[k] in t.retained
    {
    }
    forall l | l in t.links
      ensures LinkCoherent(t, t.links[l])
    {
      assert l in s.links && t.links[l] == s.links[l] && LinkCoherent(s, s.links[l]);
    }
  }

  lemma FileMovesAreRetained(snap: Snap, node: Key, landing: Id, k: Key)
    requires FileResetAllowed(snap, node, landing) && landing in snap.state.retained
    ensures var moves := FileMoves(snap.state, node, landing, snap.disk[landing].rangeTips);
      k in moves && moves[k] != NO_COMMIT ==> moves[k] in snap.state.retained
  {
    var tips := snap.disk[landing].rangeTips;
    if k in tips {
      ChildIsRetained(snap, node, k, tips[k]);
    }
  }

  lemma ResetKeepsCoherent(snap: Snap, node: Key, landing: Id, pre: State)
    requires Sound(snap) && (landing == NO_COMMIT || NodeOf(snap, landing) == Some(node))
    requires node.kind == File ==> FileResetAllowed(snap, node, landing)
    requires ResetsTo(snap, node, landing, pre)
    ensures Coherent(snap.disk, pre)
  {
    SoundMeans(snap);
    if node.kind == File {
      forall k | k in FileMoves(snap.state, node, landing, snap.disk[landing].rangeTips)
        ensures var moves := FileMoves(snap.state, node, landing, snap.disk[landing].rangeTips);
          moves[k] != NO_COMMIT ==> moves[k] in snap.state.retained
      {
        FileMovesAreRetained(snap, node, landing, k);
      }
      MovedKeepsCoherent(snap.disk, snap.state, FileMoves(snap.state, node, landing, snap.disk[landing].rangeTips),
        pre);
    } else {
      MovedKeepsCoherent(snap.disk, snap.state, map[node := landing], pre);
    }
  }

  /** The landing that a reset resolves to belongs to the same object as its target. */
  lemma LandingOnNode(snap: Snap, target: Id)
    requires Sound(snap) && NodeOf(snap, target).Some?
    ensures HasChain(snap.disk, target)
    ensures var landing := Landing(snap.disk[target], target);
      landing == NO_COMMIT || NodeOf(snap, landing) == NodeOf(snap, target)
  {
    SoundMeans(snap);
    var landing := Landing(snap.disk[target], target);
    if landing != NO_COMMIT && landing != target {
      PreviousHasChain(snap.disk, target);
      var c, d := ChainOf(snap.disk, target), ChainOf(snap.disk, landing);
      assert Root(c) == Root(d);
    }
  }

  lemma ResetObjectKeepsSound(snap: Snap, node: Key, landing: Id, pre: State)
    requires Sound(snap) && node in snap.state.tips && (landing == NO_COMMIT || NodeOf(snap, landing) == Some(node))
    requires node.kind == File ==> FileResetAllowed(snap, node, landing)
    requires ResetsTo(snap, node, landing, pre)
    ensures IndexOk(snap.disk, pre) <==> (node.kind == File ==> PlaceFree(snap, node, LocationAt(snap.disk, landing)))
  {
    if node.kind == File {
      FileResetKeepsIndexIff(snap, node, landing, pre);
    } else {
      ObjectResetKeepsIndex(snap, node, landing, pre);
    }
  }

  /**
   * Every reset that the program allows publishes a sound state, except that an import
   * may go back to a path that another import holds.
   */
  lemma ResetKeepsSound(snap: Snap, fileNode: Key, target: Id, node: Key, landing: Id, pre: State)
    requires Sound(snap) && fileNode in snap.state.tips && ResetAllowed(snap, fileNode, target)
    requires NodeOf(snap, target) == Some(node) && landing == Landing(snap.disk[target], target)
    requires ResetsTo(snap, node, landing, pre)
    ensures Sound(Snap(snap.disk, pre)) <==>
      (node.kind == File ==> PlaceFree(snap, node, LocationAt(snap.disk, landing)))
  {
    SoundMeans(snap);
    LandingOnNode(snap, target);
    ResetKeepsCoherent(snap, node, landing, pre);
    if node.kind == File || node.kind == Range {
      ObjectIsLive(snap, fileNode, node);
      ResetObjectKeepsSound(snap, node, landing, pre);
    } else {
      ObjectResetKeepsIndex(snap, node, landing, pre);
    }
    SoundMeans(Snap(snap.disk, pre));
  }

  lemma ObjectIsLive(snap: Snap, fileNode: Key, node: Key)
    requires Sound(snap) && fileNode in snap.state.tips && Belongs(snap.state, node, fileNode)
    requires node.kind == Range || node.kind == File
    ensures node in snap.state.tips
  {
    SoundMeans(snap);
    assert node.kind == Range ==> Mounted(snap.state, fileNode, node) && MountOk(snap.state, fileNode);
  }

  lemma MarkerForm(snap: Snap, node: Key, cid: Id)
    requires node in snap.state.tips
    ensures var done := Append(snap, Marker, Named(node), Reset, None, NO_FIELDS, cid);
      && done.Ok? && done.value.state.tips == snap.state.tips[node := cid]
      && done.value.disk[cid].previous == snap.state.tips[node]
      && (node.kind == File ==> done.value.disk[cid].rangeTips == SnapshotOf(snap.state, node))
      && done.value.state.retained == snap.state.retained + [cid] && done.value.state.mounts == snap.state.mounts
      && AppendGuard(snap, Marker, Named(node), Reset, None, NO_FIELDS, cid)
  {
  }

  /** The reset's own commit on the landing keeps the store sound, and on a file it records the restored ranges. */
  lemma MarkerRecordsReset(disk: Disk, pre: State, node: Key, cid: Id)
    requires Sound(Snap(disk, pre)) && Fresh(disk, cid) && node in pre.tips
    ensures var done := Append(Snap(disk, pre), Marker, Named(node), Reset, None, NO_FIELDS, cid);
      && done.Ok? && Sound(done.value)
      && done.value.disk[cid].previous == pre.tips[node]
      && (node.kind == File ==> done.value.disk[cid].rangeTips == SnapshotOf(pre, node))
      && done.value.state.retained == pre.retained + [cid] && done.value.state.mounts == pre.mounts
      && done.value.state.tips == pre.tips[node := cid]
  {
    MarkerForm(Snap(disk, pre), node, cid);
    var done := Append(Snap(disk, pre), Marker, Named(node), Reset, None, NO_FIELDS, cid);
    AppendKeepsIndexIff(Snap(disk, pre), Marker, Named(node), Reset, None, NO_FIELDS, cid, done.value);
    AppendKeepsCoherent(Snap(disk, pre), Marker, Named(node), Reset, None, NO_FIELDS, cid, done.value);
  }

  /** The state published before the reset's own commit has a new publication number exactly when the object is gone. */
  lemma ResetPublicationIff(snap: Snap, node: Key, landing: Id, pre: State)
    requires node.kind == File ==> FileResetAllowed(snap, node, landing)
    requires ResetsTo(snap, node, landing, pre)
    ensures pre.publication > snap.state.publication <==> node !in pre.tips
  {
    if node.kind == File {
      FileTipsReset(snap, node, landing, pre);
    } else {
      ObjectResetFields(snap, node, landing, pre);
    }
  }

  // ---- What is withdrawn ----

  /**
   * Going back to an ancestor withdraws a link exactly when it was created above the landing,
   * and a pending change exactly when it is above it.
   */
  lemma AncestorResetWithdraws(disk: Disk, s: State, node: Key, landing: Id)
    requires node in s.tips && HasChain(disk, s.tips[node]) && landing in ChainOf(disk, s.tips[node])
    ensures HasChain(disk, landing)
    ensures forall l :: l in s.links ==>
      (l in Moved(disk, s, map[node := landing]).links <==>
        (s.links[l].createdBy in ChainOf(disk, s.tips[node]) ==> s.links[l].createdBy in ChainOf(disk, landing)))
    ensures forall l, id :: l in s.pending && l in Moved(disk, s, map[node := landing]).links && id in s.pending[l] ==>
      (id in PendingOf(Moved(disk, s, map[node := landing]), l) <==>
        (id in ChainOf(disk, s.tips[node]) ==> id in ChainOf(disk, landing)))
  {
    RemovedAboveAncestor(disk, s.tips[node], landing);
    var moves := map[node := landing];
    assert forall id :: id in Withdrawn(disk, s, moves) <==> id in Removed(disk, s.tips[node], landing) by {
      assert forall id :: id in Removed(disk, TipOf(s, node), moves[node]) ==> id in Withdrawn(disk, s, moves);
    }
  }

  /**
   * Going anywhere off the chain withdraws every link created on it, also by commits that the landing
   * descends from.
   */
  lemma SidewaysResetWithdrawsAll(disk: Disk, s: State, node: Key, landing: Id, l: LinkId)
    requires node in s.tips && HasChain(disk, s.tips[node]) && landing !in ChainOf(disk, s.tips[node])
    requires l in s.links && s.links[l].createdBy in ChainOf(disk, s.tips[node])
    ensures l !in Moved(disk, s, map[node := landing]).links
  {
    RemovedOffChain(disk, s.tips[node], landing);
    var moves := map[node := landing];
    assert node in moves && s.links[l].createdBy in Removed(disk, TipOf(s, node), moves[node]);
  }

  /**
   * Withdrawing exactly what is not on the landing's chain: a reset does that, for the links made
   * on the old chain, exactly when it lands on that chain or no such link was made by a commit
   * that both chains share.
   */
  lemma WithdrawsOnlyAboveIff(disk: Disk, s: State, node: Key, landing: Id)
    requires node in s.tips && HasChain(disk, s.tips[node]) && HasChain(disk, landing)
    ensures (forall l :: MadeOn(disk, s, l, s.tips[node]) ==>
        (l in Moved(disk, s, map[node := landing]).links <==> MadeOn(disk, s, l, landing)))
      <==> (landing in ChainOf(disk, s.tips[node])
            || !exists l :: MadeOn(disk, s, l, s.tips[node]) && MadeOn(disk, s, l, landing))
  {
    if landing in ChainOf(disk, s.tips[node]) {
      AncestorResetWithdraws(disk, s, node, landing);
    } else {
      forall l | MadeOn(disk, s, l, s.tips[node])
        ensures l !in Moved(disk, s, map[node := landing]).links
      {
        SidewaysResetWithdrawsAll(disk, s, node, landing, l);
      }
    }
  }

  /** An effective link created by a commit on the chain of a tip. */
  ghost predicate MadeOn(disk: Disk, s: State, l: LinkId, tip: Id)
    requires HasChain(disk, tip)
  {
    l in s.links && s.links[l].createdBy in ChainOf(disk, tip)
  }

  // ---- Where every tip ends ----

  /** The tip of an object once a reset of node to the landing is through, before its own commit. */
  ghost function TipAfterReset(snap: Snap, node: Key, landing: Id, k: Key): Option<Id>
    requires node.kind == File ==> HasChain(snap.disk, landing)
  {
    if k == node then if landing == NO_COMMIT then None else Some(landing)
    else if node.kind == File && k in snap.disk[landing].rangeTips then Some(snap.disk[landing].rangeTips[k])
    else if node.kind == File && k in ChildrenOf(snap.state, node) then None
    else if k in snap.state.tips then Some(snap.state.tips[k])
    else None
  }

  lemma ResetTips(snap: Snap, node: Key, landing: Id, pre: State, k: Key)
    requires node.kind == File ==> FileResetAllowed(snap, node, landing)
    requires ResetsTo(snap, node, landing, pre)
    ensures (if k in pre.tips then Some(pre.tips[k]) else None) == TipAfterReset(snap, node, landing, k)
  {
    if node.kind == File {
      FileTipsReset(snap, node, landing, pre);
    } else {
      ObjectResetFields(snap, node, landing, pre);
    }
  }

  /** A tip that is left after a reset has its chain. */
  lemma ResetTipHasChain(snap: Snap, node: Key, landing: Id, k: Key)
    requires Sound(snap) && (landing == NO_COMMIT || NodeOf(snap, landing) == Some(node))
    requires node.kind == File ==> FileResetAllowed(snap, node, landing)
    ensures var tip := TipAfterReset(snap, node, landing, k); tip.Some? ==> HasChain(snap.disk, tip.value)
  {
    SoundMeans(snap);
    if node.kind == File && k in snap.disk[landing].rangeTips {
      assert ChildOk(snap, node, k, snap.disk[landing].rangeTips[k]);
    }
  }
}
