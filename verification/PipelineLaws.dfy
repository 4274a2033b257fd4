/** Exactly when each pipeline operation keeps the store sound. */
module PipelineLaws {
  import opened Records
  import opened Chains
  import opened StoreState
  import opened Pipeline
  import opened Index

  predicate Looking(n: nat) {
    true
  }

  /**
   * A store that opens, and whose state names only records it has. The quantifier keeps proofs
   * that only pass the fact on from unfolding it; SoundMeans opens it.
   */
  ghost predicate Sound(snap: Snap) {
    forall n: nat :: Looking(n) ==> IndexOk(snap.disk, snap.state) && Coherent(snap.disk, snap.state)
  }

  lemma SoundMeans(snap: Snap)
    ensures Sound(snap) <==> IndexOk(snap.disk, snap.state) && Coherent(snap.disk, snap.state)
  {
    assert Looking(0);
  }

  lemma MountsAreOnce(snap: Snap)
    requires Sound(snap)
    ensures MountedOnce(snap.state)
  {
    SoundMeans(snap);
  }

  predicate Fresh(disk: Disk, cid: Id) {
    cid !in disk && cid != NO_COMMIT
  }

  // ---- commit_source and commit_marker ----

  /** A commit that leaves a file that is at before where it is. */
  predicate StaysPut(before: Option<string>, kind: CommitKind, payload: Payload) {
    match kind
    case Delete => before.None?
    case Rename => payload.target == before
    case _ => before.Some? || payload.path.None?
  }

  /**
   * When commit_source and commit_marker keep the index. A first commit must be of a kind
   * that starts the object asked for, under a name of its own; commit_source must not be
   * used to import over an import; and a later commit on a file must not move it.
   */
  ghost predicate AppendGuard(
    snap: Snap, mode: Mode, loc: Locator, kind: CommitKind, content: Option<Id>, payload: Payload, cid: Id) {
    var s := snap.state;
    if IsFirst(s, loc) then
      && PublishedKey(s, loc, cid).root == cid
      && KindOfRoot(Draft(s, mode, loc, kind, content, payload)) == Some(KindAt(loc))
      && (KindAt(loc) == File && mode == Source && kind == Import && payload.path.Some? ==>
        !Occupied(snap, payload.path.value, true))
    else KindAt(loc) == File ==> StaysPut(LocationOf(s, loc.key), kind, payload)
  }

  lemma DraftOf(snap: Snap, mode: Mode, loc: Locator, kind: CommitKind, content: Option<Id>, payload: Payload)
    ensures var r := Draft(snap.state, mode, loc, kind, content, payload);
      && r.previous == PreviousAt(snap.state, loc) && r.kind == kind && r.payload.path == payload.path
      && r.payload.target == payload.target && r.payload.mount == payload.mount
  {
  }

  /** Every commit_source and commit_marker that succeeds keeps the index exactly when its guard holds. */
  lemma AppendKeepsIndexIff(
    snap: Snap, mode: Mode, loc: Locator, kind: CommitKind, content: Option<Id>, payload: Payload, cid: Id, after: Snap)
    requires Sound(snap) && Fresh(snap.disk, cid) && Append(snap, mode, loc, kind, content, payload, cid) == Ok(after)
    ensures IndexOk(after.disk, after.state) <==> AppendGuard(snap, mode, loc, kind, content, payload, cid)
  {
    if IsFirst(snap.state, loc) {
      AppendFirst(snap, mode, loc, kind, content, payload, cid, after);
    } else {
      AppendLater(snap, mode, loc, kind, content, payload, cid, after);
    }
  }

  lemma NewKey(snap: Snap, loc: Locator, cid: Id)
    requires Sound(snap) && Fresh(snap.disk, cid) && IsFirst(snap.state, loc)
    ensures PublishedKey(snap.state, loc, cid) !in snap.state.tips
  {
    SoundMeans(snap);
    RootsOnDisk(snap.disk, snap.state);
  }

  lemma FirstCreates(
    snap: Snap, mode: Mode, loc: Locator, kind: CommitKind, content: Option<Id>, payload: Payload, cid: Id, after: Snap)
    requires Append(snap, mode, loc, kind, content, payload, cid) == Ok(after)
    requires IsFirst(snap.state, loc) && PublishedKey(snap.state, loc, cid) !in snap.state.tips
    ensures after.disk == snap.disk[cid := Draft(snap.state, mode, loc, kind, content, payload)]
    ensures Creates(snap.state, after.state, PublishedKey(snap.state, loc, cid), cid,
      Draft(snap.state, mode, loc, kind, content, payload))
    ensures KindAt(loc) == File ==>
      payload.path.Some? && !Occupied(snap, payload.path.value, mode == Marker && kind == Import)
  {
    DraftOf(snap, mode, loc, kind, content, payload);
  }

  lemma AppendFirst(
    snap: Snap, mode: Mode, loc: Locator, kind: CommitKind, content: Option<Id>, payload: Payload, cid: Id, after: Snap)
    requires Sound(snap) && Fresh(snap.disk, cid) && Append(snap, mode, loc, kind, content, payload, cid) == Ok(after)
    requires IsFirst(snap.state, loc)
    ensures IndexOk(after.disk, after.state) <==> AppendGuard(snap, mode, loc, kind, content, payload, cid)
  {
    SoundMeans(snap);
    NewKey(snap, loc, cid);
    FirstCreates(snap, mode, loc, kind, content, payload, cid, after);
    DraftOf(snap, mode, loc, kind, content, payload);
    CreateKeepsIndexIff(snap, after.state, PublishedKey(snap.state, loc, cid), cid,
      Draft(snap.state, mode, loc, kind, content, payload));
  }

  lemma LaterAdvances(
    snap: Snap, mode: Mode, loc: Locator, kind: CommitKind, content: Option<Id>, payload: Payload, cid: Id, after: Snap)
    requires Append(snap, mode, loc, kind, content, payload, cid) == Ok(after) && !IsFirst(snap.state, loc)
    ensures after.disk == snap.disk[cid := Draft(snap.state, mode, loc, kind, content, payload)]
    ensures after.state.tips == snap.state.tips[loc.key := cid]
    ensures after.state.mounts == snap.state.mounts && after.state.locations == snap.state.locations
  {
  }

  lemma LaterGuard(
    snap: Snap, mode: Mode, loc: Locator, kind: CommitKind, content: Option<Id>, payload: Payload, cid: Id)
    requires !IsFirst(snap.state, loc)
    ensures var r := Draft(snap.state, mode, loc, kind, content, payload);
      && r.previous == snap.state.tips[loc.key]
      && (AppendGuard(snap, mode, loc, kind, content, payload, cid) <==>
            (loc.key.kind == File ==> Relocate(LocationOf(snap.state, loc.key), r) == LocationOf(snap.state, loc.key)))
  {
    DraftOf(snap, mode, loc, kind, content, payload);
  }

  lemma AppendLater(
    snap: Snap, mode: Mode, loc: Locator, kind: CommitKind, content: Option<Id>, payload: Payload, cid: Id, after: Snap)
    requires Sound(snap) && Fresh(snap.disk, cid) && Append(snap, mode, loc, kind, content, payload, cid) == Ok(after)
    requires !IsFirst(snap.state, loc)
    ensures IndexOk(after.disk, after.state) <==> AppendGuard(snap, mode, loc, kind, content, payload, cid)
  {
    LaterAdvances(snap, mode, loc, kind, content, payload, cid, after);
    LaterGuard(snap, mode, loc, kind, content, payload, cid);
    AdvanceInPlace(snap, after, loc.key, cid, Draft(snap.state, mode, loc, kind, content, payload));
  }

  /** A record that is published at a live object with no change of place. */
  lemma AdvanceInPlace(snap: Snap, after: Snap, k: Key, cid: Id, r: Record)
    requires Sound(snap) && Fresh(snap.disk, cid) && k in snap.state.tips && r.previous == snap.state.tips[k]
    requires after.disk == snap.disk[cid := r] && after.state.tips == snap.state.tips[k := cid]
    requires after.state.mounts == snap.state.mounts && after.state.locations == snap.state.locations
    ensures IndexOk(after.disk, after.state) <==>
      (k.kind == File ==> Relocate(LocationOf(snap.state, k), r) == LocationOf(snap.state, k))
  {
    SoundMeans(snap);
    assert SameElsewhere(snap.state, after.state, k);
    AdvanceKeepsIndexIff(snap.disk, snap.state, after.state, k, cid, r);
    SamePlacesHere(snap.disk, snap.state, after.state);
  }

  lemma SamePlacesHere(disk: Disk, s: State, t: State)
    requires t.locations == s.locations
    ensures PlacesUnique(disk, t) <==> PlacesUnique(disk, s)
  {
    assert forall k :: k in t.locations ==> PlaceOf(disk, t, k) == PlaceOf(disk, s, k);
  }

  /**
   * The guard is needed: a file that was deleted stays live, and any later commit on it that
   * carries a path succeeds and gives its chain a location which the state does not list.
   */
  lemma PathRevivesTombstone(snap: Snap, mode: Mode, key: Key, content: Option<Id>, path: string, cid: Id)
    requires Sound(snap) && Fresh(snap.disk, cid) && key in snap.state.tips && key.kind == File
    requires key !in snap.state.locations
    ensures var r := Append(snap, mode, Named(key), Commit, content, NO_FIELDS.(path := Some(path)), cid);
      r.Ok? && !IndexOk(r.value.disk, r.value.state)
  {
    var payload := NO_FIELDS.(path := Some(path));
    var after := Append(snap, mode, Named(key), Commit, content, payload, cid).value;
    AppendKeepsIndexIff(snap, mode, Named(key), Commit, content, payload, cid, after);
  }

  /** Creating a file in an empty store and deleting it leaves such a tombstone. */
  lemma DeleteLeavesTombstone(a: Id, b: Id, path: string) returns (deleted: Snap)
    requires a != b && a != NO_COMMIT && b != NO_COMMIT
    ensures Sound(deleted) && Key(File, a) in deleted.state.tips && Key(File, a) !in deleted.state.locations
  {
    var created := CreateFile(a, path);
    deleted := DeleteFile(created, a, b, path);
    LifecycleKeepsIndex(created, Delete, path, None, b, deleted);
    LifecycleKeepsCoherent(created, Delete, path, None, b, deleted);
  }

  lemma DeleteFile(created: Snap, a: Id, b: Id, path: string) returns (deleted: Snap)
    requires created.disk.Keys == {a} && created.disk[a].kind == Init
    requires created.state.tips == map[Key(File, a) := a] && created.state.locations == map[Key(File, a) := path]
    ensures Lifecycle(created, Delete, path, None, b) == Ok(deleted)
    ensures Key(File, a) in deleted.state.tips && Key(File, a) !in deleted.state.locations
  {
    assert Holds(created, Key(File, a), path, false);
    assert HolderOf(created, path, false) == Key(File, a);
    deleted := Lifecycle(created, Delete, path, None, b).value;
  }

  lemma CreateFile(a: Id, path: string) returns (created: Snap)
    requires a != NO_COMMIT
    ensures Sound(created)
    ensures created.disk == map[a := Record(NO_COMMIT, Init, None, NO_FIELDS.(path := Some(path)), map[])]
    ensures created.state == NewFileState(a, path)
  {
    var empty := Snap(map[], EMPTY_STATE);
    var payload := NO_FIELDS.(path := Some(path));
    EmptyIsOk();
    SoundMeans(empty);
    created := FirstFile(a, path);
    AppendKeepsIndexIff(empty, Marker, Pending(File), Init, None, payload, a, created);
    AppendKeepsCoherent(empty, Marker, Pending(File), Init, None, payload, a, created);
    SoundMeans(created);
  }

  /** The state of a store whose only object is a new file. */
  function NewFileState(a: Id, path: string): State {
    EMPTY_STATE.(publication := 1, tips := map[Key(File, a) := a], locations := map[Key(File, a) := path],
      retained := [a])
  }

  lemma FirstFile(a: Id, path: string) returns (created: Snap)
    ensures var empty := Snap(map[], EMPTY_STATE);
      var payload := NO_FIELDS.(path := Some(path));
      && Append(empty, Marker, Pending(File), Init, None, payload, a) == Ok(created)
      && AppendGuard(empty, Marker, Pending(File), Init, None, payload, a)
    ensures created.disk == map[a := Record(NO_COMMIT, Init, None, NO_FIELDS.(path := Some(path)), map[])]
    ensures created.state == NewFileState(a, path)
  {
    var payload := NO_FIELDS.(path := Some(path));
    created := Append(Snap(map[], EMPTY_STATE), Marker, Pending(File), Init, None, payload, a).value;
  }

  // ---- commit_lifecycle ----

  lemma LifecycleAdvances(snap: Snap, kind: CommitKind, path: string, target: Option<string>, cid: Id, after: Snap)
    returns (k: Key, r: Record)
    requires Lifecycle(snap, kind, path, target, cid) == Ok(after) && snap.state.locations.Keys <= snap.state.tips.Keys
    ensures k == HolderOf(snap, path, false) && k.kind == File && k in snap.state.locations
    ensures !IsStatistics(snap.disk, k)
    ensures after.disk == snap.disk[cid := r] && r.previous == snap.state.tips[k]
    ensures after.state.tips == snap.state.tips[k := cid] && after.state.mounts == snap.state.mounts
    ensures LocationOf(after.state, k) == Relocate(LocationOf(snap.state, k), r)
    ensures SameElsewhere(snap.state, after.state, k)
    ensures after.state.locations == snap.state.locations - {k}
      || (k in after.state.locations && after.state.locations == snap.state.locations[k := after.state.locations[k]]
          && !Occupied(snap, after.state.locations[k], false))
  {
    k := HolderOf(snap, path, false);
    r := after.disk[cid];
  }

  lemma LocatedAreLive(snap: Snap)
    requires Sound(snap)
    ensures snap.state.locations.Keys <= snap.state.tips.Keys
  {
    SoundMeans(snap);
  }

  /** Renaming and deleting always keep the index. */
  lemma LifecycleKeepsIndex(snap: Snap, kind: CommitKind, path: string, target: Option<string>, cid: Id, after: Snap)
    requires Sound(snap) && Fresh(snap.disk, cid) && Lifecycle(snap, kind, path, target, cid) == Ok(after)
    ensures IndexOk(after.disk, after.state)
  {
    SoundMeans(snap);
    assert forall k :: k in snap.state.locations ==> k in snap.state.tips;
    var key, r := LifecycleAdvances(snap, kind, path, target, cid, after);
    AdvanceKeepsIndexIff(snap.disk, snap.state, after.state, key, cid, r);
    MovedPlaces(snap, after.state, key);
  }

  lemma MovedPlaces(snap: Snap, t: State, k: Key)
    requires Sound(snap) && k in snap.state.locations && !IsStatistics(snap.disk, k)
    requires t.locations == snap.state.locations - {k}
      || (k in t.locations && t.locations == snap.state.locations[k := t.locations[k]]
        && !Occupied(snap, t.locations[k], false))
    ensures PlacesUnique(snap.disk, t)
  {
    SoundMeans(snap);
    var disk, s := snap.disk, snap.state;
    RootsOnDisk(disk, s);
    forall i, j | i in t.locations && j in t.locations && i != j
      ensures PlaceOf(disk, t, i) != PlaceOf(disk, t, j)
    {
      assert i != k && j != k ==> PlaceOf(disk, s, i) != PlaceOf(disk, s, j);
      if k in t.locations {
        assert !Holds(snap, i, t.locations[k], false) && !Holds(snap, j, t.locations[k], false);
      }
    }
  }

  // ---- Links, adapts and journals ----

  /** A record at an object that is not live starts a chain with no object kind. */
  lemma StrayBreaksIndex(snap: Snap, after: Snap, k: Key, cid: Id, r: Record)
    requires Sound(snap) && Fresh(snap.disk, cid) && k !in snap.state.tips && r.previous == NO_COMMIT
    requires KindOfRoot(r).None?
    requires after.disk == snap.disk[cid := r] && after.state.tips == snap.state.tips[k := cid]
    ensures !IndexOk(after.disk, after.state)
  {
    SoundMeans(snap);
    DescribeFirst(snap.disk, cid, r);
    assert !TipOk(after.disk, after.state, k);
  }

  lemma StructuralKeepsIndexIff(snap: Snap, after: Snap, k: Key, cid: Id, r: Record)
    requires Sound(snap) && Fresh(snap.disk, cid) && r.previous == TipOf(snap.state, k)
    requires (r.kind == LinkKind || r.kind == Adapt) && r.payload.path.None? && r.payload.mount.None?
    requires after.disk == snap.disk[cid := r] && after.state.tips == snap.state.tips[k := cid]
    requires after.state.mounts == snap.state.mounts && after.state.locations == snap.state.locations
    ensures IndexOk(after.disk, after.state) <==> k in snap.state.tips
  {
    if k in snap.state.tips {
      AdvanceInPlace(snap, after, k, cid, r);
    } else {
      StrayBreaksIndex(snap, after, k, cid, r);
    }
  }

  /** A link keeps the index exactly when it is recorded at a live object. */
  lemma LinkKeepsIndexIff(snap: Snap, node: Key, terms: Terms, cid: Id)
    requires Sound(snap) && Fresh(snap.disk, cid)
    ensures var after := WithLink(snap, node, terms, cid); IndexOk(after.disk, after.state) <==> node in snap.state.tips
  {
    var after := WithLink(snap, node, terms, cid);
    StructuralKeepsIndexIff(snap, after, node, cid, after.disk[cid]);
  }

  lemma AdaptKeepsIndexIff(snap: Snap, node: Key, linkId: LinkId, changes: set<Id>, cid: Id, after: Snap)
    requires Sound(snap) && Fresh(snap.disk, cid) && CommitAdapt(snap, node, linkId, changes, cid) == Ok(after)
    ensures IndexOk(after.disk, after.state) <==> node in snap.state.tips
  {
    StructuralKeepsIndexIff(snap, after, node, cid, after.disk[cid]);
  }

  /** Journal commits always keep the index. */
  lemma JournalKeepsIndex(snap: Snap, loc: Locator, kind: CommitKind, target: Option<string>, cid: Id, after: Snap)
    requires Sound(snap) && Fresh(snap.disk, cid) && CommitJournal(snap, loc, kind, target, cid) == Ok(after)
    ensures IndexOk(after.disk, after.state)
  {
    SoundMeans(snap);
    var s := snap.state;
    var r := after.disk[cid];
    if IsFirst(s, loc) {
      RootsOnDisk(snap.disk, s);
      assert Creates(s, after.state, Key(loc.kind, cid), cid, r);
      CreateKeepsIndexIff(snap, after.state, Key(loc.kind, cid), cid, r);
    } else {
      AdvanceInPlace(snap, after, loc.key, cid, r);
    }
  }

  /**
   * A patch is accepted on exactly the live journals, audits and notes alike, whichever of the two it is
   * a patch for.
   */
  lemma PatchAcceptedIff(snap: Snap, loc: Locator, kind: CommitKind, target: Option<string>, cid: Id)
    requires kind == AuditPatch || kind == NotePatch
    ensures CommitJournal(snap, loc, kind, target, cid).Ok? <==>
      && loc.Named? && loc.key in snap.state.tips && (loc.key.kind == Audit || loc.key.kind == Note)
      && (target.Some? <==> kind == NotePatch)
  {
  }

  // ---- Records behind the state ----

  /** Publishing one record on retained records keeps the state coherent. */
  lemma PublishKeepsCoherent(disk: Disk, s: State, t: State, k: Key, cid: Id, r: Record)
    requires Coherent(disk, s) && Fresh(disk, cid)
    requires r.previous == NO_COMMIT || r.previous in s.retained
    requires forall c :: c in r.rangeTips ==> r.rangeTips[c] in s.retained
    requires t.tips == s.tips[k := cid] && t.retained == s.retained + [cid]
    requires forall l :: l in t.links ==> LinkCoherent(t, t.links[l])
    requires forall l :: l in t.pending ==> l in t.links
    ensures Coherent(disk[cid := r], t)
  {
    var after := disk[cid := r];
    ChainAppends(disk, cid, r);
    forall id | id in t.retained
      ensures HasChain(after, id)
      ensures after[id].previous != NO_COMMIT ==> after[id].previous in t.retained
    {
      if id != cid {
        ChainGrows(disk, after, id);
      }
    }
    RetainedTips(disk, s, t, cid, r, after);
  }

  lemma RetainedTips(disk: Disk, s: State, t: State, cid: Id, r: Record, after: Disk)
    requires Coherent(disk, s) && Fresh(disk, cid) && t.retained == s.retained + [cid] && after == disk[cid := r]
    requires forall c :: c in r.rangeTips ==> r.rangeTips[c] in s.retained
    ensures forall id, c :: id in t.retained && id in after && c in after[id].rangeTips ==>
      after[id].rangeTips[c] in t.retained
  {
  }

  lemma LinksStayCoherent(s: State, t: State)
    requires forall l :: l in s.links ==> LinkCoherent(s, s.links[l])
    requires t.links == s.links && forall id :: id in s.retained ==> id in t.retained
    ensures forall l :: l in t.links ==> LinkCoherent(t, t.links[l])
  {
  }

  lemma AppendKeepsCoherent(
    snap: Snap, mode: Mode, loc: Locator, kind: CommitKind, content: Option<Id>, payload: Payload, cid: Id, after: Snap)
    requires Sound(snap) && Fresh(snap.disk, cid) && Append(snap, mode, loc, kind, content, payload, cid) == Ok(after)
    ensures Coherent(after.disk, after.state)
  {
    SoundMeans(snap);
    LinksStayCoherent(snap.state, after.state);
    PublishKeepsCoherent(snap.disk, snap.state, after.state, PublishedKey(snap.state, loc, cid), cid, after.disk[cid]);
  }

  lemma LifecycleKeepsCoherent(snap: Snap, kind: CommitKind, path: string, target: Option<string>, cid: Id, after: Snap)
    requires Sound(snap) && Fresh(snap.disk, cid) && Lifecycle(snap, kind, path, target, cid) == Ok(after)
    ensures Coherent(after.disk, after.state)
  {
    SoundMeans(snap);
    LinksStayCoherent(snap.state, after.state);
    PublishKeepsCoherent(snap.disk, snap.state, after.state, HolderOf(snap, path, false), cid, after.disk[cid]);
  }

  lemma LinkKeepsCoherent(snap: Snap, node: Key, terms: Terms, cid: Id)
    requires Sound(snap) && Fresh(snap.disk, cid)
    requires terms.source.Local? ==> terms.sourceVersion in snap.state.retained
    requires terms.target.Local? ==> terms.targetVersion in snap.state.retained
    ensures var after := WithLink(snap, node, terms, cid); Coherent(after.disk, after.state)
  {
    SoundMeans(snap);
    var after := WithLink(snap, node, terms, cid);
    forall l | l in after.state.links
      ensures LinkCoherent(after.state, after.state.links[l])
    {
      assert l in snap.state.links ==> LinkCoherent(snap.state, snap.state.links[l]);
    }
    PublishKeepsCoherent(snap.disk, snap.state, after.state, node, cid, after.disk[cid]);
  }

  lemma AdaptKeepsCoherent(snap: Snap, node: Key, linkId: LinkId, changes: set<Id>, cid: Id, after: Snap)
    requires Sound(snap) && Fresh(snap.disk, cid) && CommitAdapt(snap, node, linkId, changes, cid) == Ok(after)
    ensures Coherent(after.disk, after.state)
  {
    SoundMeans(snap);
    LinksStayCoherent(snap.state, after.state);
    PublishKeepsCoherent(snap.disk, snap.state, after.state, node, cid, after.disk[cid]);
  }

  lemma JournalKeepsCoherent(snap: Snap, loc: Locator, kind: CommitKind, target: Option<string>, cid: Id, after: Snap)
    requires Sound(snap) && Fresh(snap.disk, cid) && CommitJournal(snap, loc, kind, target, cid) == Ok(after)
    ensures Coherent(after.disk, after.state)
  {
    SoundMeans(snap);
    LinksStayCoherent(snap.state, after.state);
    PublishKeepsCoherent(snap.disk, snap.state, after.state, PublishedKey(snap.state, loc, cid), cid, after.disk[cid]);
  }
}
