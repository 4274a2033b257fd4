/** Which landings of a file reset bring back the ranges of the moment they were made. */
module Landings {
  import opened Records
  import opened Chains
  import opened Blocks
  import opened StoreState
  import opened Pipeline
  import opened PipelineLaws
  import opened BlockLaws
  import opened Resets
  import opened ResetLaws
  import opened Index
  import opened Runs

  /** op led from a to b and made commit cid the tip of the object. */
  ghost predicate Makes(op: Op, a: Snap, b: Snap, node: Key, cid: Id) {
    Step(op, a, b) && cid !in a.disk && cid in b.disk && node in b.state.tips && b.state.tips[node] == cid
  }

  lemma TipsOnDisk(snap: Snap)
    requires Sound(snap)
    ensures forall k :: k in snap.state.tips ==> snap.state.tips[k] in snap.disk && snap.state.tips[k] != NO_COMMIT
    ensures forall k :: k in snap.state.tips ==> k.root in snap.disk
  {
    SoundMeans(snap);
    RootsOnDisk(snap.disk, snap.state);
    forall k | k in snap.state.tips
      ensures snap.state.tips[k] in snap.disk && snap.state.tips[k] != NO_COMMIT
    {
      assert IsChain(snap.disk, ChainOf(snap.disk, snap.state.tips[k]));
    }
  }

  lemma NoRangesUnderNothing(snap: Snap, node: Key)
    requires Sound(snap) && node !in snap.state.tips
    ensures SnapshotOf(snap.state, node) == map[]
  {
    SoundMeans(snap);
    assert node in snap.state.mounts ==> MountOk(snap.state, node);
  }

  /** b is a with one commit, which records the ranges of a live file. */
  ghost predicate Advances(a: Snap, b: Snap, loc: Locator, made: Id) {
    && b.state.tips == a.state.tips[PublishedKey(a.state, loc, made) := made]
    && made in b.disk && b.disk == a.disk[made := b.disk[made]]
    && b.disk[made].rangeTips == if KindAt(loc) == File && !IsFirst(a.state, loc) then SnapshotOf(a.state, loc.key)
      else map[]
  }

  lemma WriteSnapshot(a: Snap, b: Snap, loc: Locator, made: Id, node: Key, cid: Id)
    requires Sound(a) && Advances(a, b, loc, made)
    requires cid !in a.disk && cid in b.disk && node in b.state.tips && b.state.tips[node] == cid && node.kind == File
    ensures b.disk[cid].rangeTips == SnapshotOf(a.state, node)
  {
    TipsOnDisk(a);
    assert node == PublishedKey(a.state, loc, made);
    if node !in a.state.tips {
      NoRangesUnderNothing(a, node);
    }
  }

  lemma WriteForm(
    a: Snap, mode: Mode, loc: Locator, kind: CommitKind, content: Option<Id>, payload: Payload, made: Id, b: Snap)
    requires Append(a, mode, loc, kind, content, payload, made) == Ok(b)
    ensures Advances(a, b, loc, made)
  {
  }

  /** What the commits of the other operations record: nothing. */
  lemma StructuralSnapshot(op: Op, a: Snap, b: Snap, node: Key, cid: Id)
    requires Sound(a) && Makes(op, a, b, node, cid) && !op.Write?
    ensures b.disk[cid].rangeTips == map[]
  {
    match op {
      case Move(kind, path, target, made) => MoveRecord(a, kind, path, target, made, b);
      case Tie(_, _, _) =>
      case TiePeer(_, _, _) =>
      case Settle(_, _, _, _) =>
      case Log(_, _, _, _) =>
      case Retreat(_, _) =>
      case Sweep(_, _) =>
    }
  }

  lemma MadeSnapshot(op: Op, a: Snap, b: Snap, node: Key, cid: Id)
    requires Sound(a) && Makes(op, a, b, node, cid) && node.kind == File
    ensures b.disk[cid].rangeTips == if op.Write? then SnapshotOf(a.state, node) else map[]
  {
    match op {
      case Write(mode, loc, kind, content, payload, made) =>
        WriteForm(a, mode, loc, kind, content, payload, made, b);
        WriteSnapshot(a, b, loc, made, node, cid);
      case _ =>
        StructuralSnapshot(op, a, b, node, cid);
    }
  }

  /**
   * A file reset brings back the ranges of the moment at which its landing was made exactly when the
   * landing is a source or marker commit, or the file had no range then. Renames, deletes, links
   * and adapts record no ranges, so landing on one of them loses all that there were.
   */
  lemma LandingRestoresIff(op: Op, a: Snap, b: Snap, node: Key, cid: Id, later: Snap, pre: State)
    requires Sound(a) && Makes(op, a, b, node, cid) && node.kind == File
    requires cid in later.disk && later.disk[cid] == b.disk[cid]
    requires FileResetAllowed(later, node, cid) && FileResetTo(later, node, cid, pre)
    ensures SnapshotOf(pre, node) == SnapshotOf(a.state, node) <==> op.Write? || SnapshotOf(a.state, node) == map[]
    ensures !op.Write? ==> forall c :: !Mounted(pre, node, c)
  {
    MadeSnapshot(op, a, b, node, cid);
    FileResetRestores(later, node, cid, pre);
  }

  // ---- Such a store ----

  /** A new file with one range. */
  lemma AddRange(a: Id, b: Id, path: string, version: Id) returns (created: Snap, ranged: Snap)
    requires a != b && a != NO_COMMIT && b != NO_COMMIT
    ensures Sound(ranged) && BlocksFollow(ranged.disk, ranged.state)
    ensures ranged.disk.Keys == {a, b} && ranged.disk[a].kind == Init
    ensures ranged.state == RangedState(a, b, path)
  {
    created := CreateFile(a, path);
    SoundMeans(created);
    var file := Key(File, a);
    var payload := NO_FIELDS.(mount := Some(file));
    ranged := RangeAppended(created, a, b, path, version);
    AppendKeepsIndexIff(created, Source, Pending(Range), Commit, Some(version), payload, b, ranged);
    AppendKeepsCoherent(created, Source, Pending(Range), Commit, Some(version), payload, b, ranged);
    SoundMeans(ranged);
    FileBlocks(created, a, path);
    AppendKeepsBlocks(created, Source, Pending(Range), Commit, Some(version), payload, b, ranged);
  }

  function RangedState(a: Id, b: Id, path: string): State {
    NewFileState(a, path).(publication := 2, tips := map[Key(File, a) := a, Key(Range, b) := b],
      mounts := map[Key(File, a) := [Key(Range, b)]], retained := [a, b])
  }

  lemma RangeAppended(created: Snap, a: Id, b: Id, path: string, version: Id) returns (ranged: Snap)
    requires a != b && created.disk.Keys == {a} && created.disk[a].kind == Init
    requires created.state == NewFileState(a, path)
    ensures var payload := NO_FIELDS.(mount := Some(Key(File, a)));
      && Append(created, Source, Pending(Range), Commit, Some(version), payload, b) == Ok(ranged)
      && AppendGuard(created, Source, Pending(Range), Commit, Some(version), payload, b)
    ensures ranged.disk.Keys == {a, b} && ranged.disk[a].kind == Init && ranged.state == RangedState(a, b, path)
  {
    var payload := NO_FIELDS.(mount := Some(Key(File, a)));
    var r := RangeDraft(created.state, a, path, version);
    RangePublished(a, b, path, r);
    ranged := Append(created, Source, Pending(Range), Commit, Some(version), payload, b).value;
  }

  lemma RangeDraft(s: State, a: Id, path: string, version: Id) returns (r: Record)
    requires s == NewFileState(a, path)
    ensures r == Draft(s, Source, Pending(Range), Commit, Some(version), NO_FIELDS.(mount := Some(Key(File, a))))
    ensures r == Record(NO_COMMIT, Commit, Some(version), NO_FIELDS.(mount := Some(Key(File, a))), map[])
  {
    r := Record(NO_COMMIT, Commit, Some(version), NO_FIELDS.(mount := Some(Key(File, a))), map[]);
  }

  lemma RangePublished(a: Id, b: Id, path: string, r: Record)
    requires a != b && r.kind == Commit && r.payload == NO_FIELDS.(mount := Some(Key(File, a)))
    ensures Published(NewFileState(a, path), Source, Pending(Range), r, b) == RangedState(a, b, path)
  {
    var s := NewFileState(a, path);
    assert Downstream(s.links, Key(Range, b)) == {};
    assert Marked(s.pending, {}, b) == map[];
    assert s.retained + [b] == [a, b];
    assert s.tips[Key(Range, b) := b] == map[Key(File, a) := a, Key(Range, b) := b];
    assert ChildrenOf(s, Key(File, a)) + [Key(Range, b)] == [Key(Range, b)];
    assert s.mounts[Key(File, a) := [Key(Range, b)]] == map[Key(File, a) := [Key(Range, b)]];
  }

  lemma FileBlocks(created: Snap, a: Id, path: string)
    requires Sound(created) && created.disk.Keys == {a} && created.disk[a].kind == Init
    requires created.state == NewFileState(a, path)
    ensures BlocksFollow(created.disk, created.state)
  {
    SoundMeans(created);
    var c := ChainOf(created.disk, a);
    ChainMembers(created.disk, c);
    if |c| > 1 {
      assert c[1] in c;
      ChainDistinct(created.disk, c, 0, 1);
    }
  }

  lemma RenameRanged(ranged: Snap, a: Id, b: Id, c: Id, path: string, target: string) returns (renamed: Snap)
    requires Sound(ranged) && BlocksFollow(ranged.disk, ranged.state) && Fresh(ranged.disk, c) && path != target
    requires a != b
    requires ranged.disk.Keys == {a, b} && ranged.disk[a].kind == Init && ranged.state == RangedState(a, b, path)
    ensures Lifecycle(ranged, Rename, path, Some(target), c) == Ok(renamed)
    ensures Sound(renamed) && BlocksFollow(renamed.disk, renamed.state) && renamed.disk.Keys == {a, b, c}
    ensures renamed.disk[a] == ranged.disk[a] && renamed.disk[c].kind == Rename
    ensures renamed.disk[c].rangeTips == map[] && renamed.disk[c].payload.inBlock.None?
    ensures renamed.state == RenamedState(a, b, c, target)
  {
    renamed := RenameForm(ranged, a, b, c, path, target);
    LifecycleKeepsIndex(ranged, Rename, path, Some(target), c, renamed);
    LifecycleKeepsCoherent(ranged, Rename, path, Some(target), c, renamed);
    SoundMeans(renamed);
    MoveKeepsBlocks(ranged, Rename, path, Some(target), c, renamed);
  }

  lemma RenameForm(ranged: Snap, a: Id, b: Id, c: Id, path: string, target: string) returns (renamed: Snap)
    requires path != target && a != b && c !in {a, b}
    requires ranged.disk.Keys == {a, b} && ranged.disk[a].kind == Init && ranged.state == RangedState(a, b, path)
    ensures Lifecycle(ranged, Rename, path, Some(target), c) == Ok(renamed)
    ensures renamed.disk.Keys == {a, b, c} && renamed.disk[a] == ranged.disk[a] && renamed.disk[c].kind == Rename
    ensures renamed.disk[c].rangeTips == map[] && renamed.disk[c].payload.inBlock.None?
    ensures renamed.state == RenamedState(a, b, c, target)
  {
    var file := Key(File, a);
    assert Holds(ranged, file, path, false);
    assert HolderOf(ranged, path, false) == file;
    renamed := Lifecycle(ranged, Rename, path, Some(target), c).value;
    RenamedFields(a, b, c, path, target);
  }

  function RenamedState(a: Id, b: Id, c: Id, target: string): State {
    RangedState(a, b, target).(publication := 3, tips := map[Key(File, a) := c, Key(Range, b) := b],
      retained := [a, b, c])
  }

  lemma RenamedFields(a: Id, b: Id, c: Id, path: string, target: string)
    requires a != b
    ensures var s := RangedState(a, b, path);
      Advanced(s, Key(File, a), c).(locations := s.locations[Key(File, a) := target]) == RenamedState(a, b, c, target)
  {
    var s := RangedState(a, b, path);
    assert s.tips[Key(File, a) := c] == map[Key(File, a) := c, Key(Range, b) := b];
    assert s.locations[Key(File, a) := target] == map[Key(File, a) := target];
    assert s.retained + [c] == [a, b, c];
  }

  /**
   * A store that creating a file, adding a range to it and renaming it leads to. Resetting the file
   * to its own tip, the rename, is allowed there, and takes the range away.
   */
  lemma ResetToRenameLosesRange(a: Id, b: Id, c: Id, path: string, target: string, version: Id)
    returns (renamed: Snap, pre: State)
    requires a != b && b != c && a != c && NO_COMMIT !in {a, b, c} && path != target
    ensures Sound(renamed) && TipOf(renamed.state, Key(File, a)) == c && ResetAllowed(renamed, Key(File, a), c)
    ensures ResetsTo(renamed, Key(File, a), c, pre)
    ensures Mounted(renamed.state, Key(File, a), Key(Range, b)) && Key(Range, b) in renamed.state.tips
    ensures !Mounted(pre, Key(File, a), Key(Range, b)) && Key(Range, b) !in pre.tips
  {
    var created, ranged := AddRange(a, b, path, version);
    renamed := RenameRanged(ranged, a, b, c, path, target);
    RenameIsAllowed(renamed, a, b, c, target);
    pre := Planned(renamed, a, b, c, target);
    FileTipsReset(renamed, Key(File, a), c, pre);
  }

  lemma RenameIsAllowed(renamed: Snap, a: Id, b: Id, c: Id, target: string)
    requires Sound(renamed) && BlocksFollow(renamed.disk, renamed.state)
    requires renamed.state == RenamedState(a, b, c, target)
    requires c in renamed.disk && renamed.disk[c].kind == Rename && renamed.disk[c].rangeTips == map[]
    requires renamed.disk[c].payload.inBlock.None? && c != NO_COMMIT
    ensures ResetAllowed(renamed, Key(File, a), c) && NodeOf(renamed, c) == Some(Key(File, a))
    ensures FileResetAllowed(renamed, Key(File, a), c)
  {
    SoundMeans(renamed);
    var file := Key(File, a);
    assert TipOk(renamed.disk, renamed.state, file) && BlocksAt(renamed.disk, renamed.state, file);
    assert NodeOf(renamed, c) == Some(file);
    assert MembershipOf(renamed.disk, c).None?;
    var at := LocationAt(renamed.disk, c);
    if at.Some? && Occupied(renamed, at.value, false) {
      assert HolderOf(renamed, at.value, false) in renamed.state.locations;
    }
  }

  lemma Planned(renamed: Snap, a: Id, b: Id, c: Id, target: string) returns (pre: State)
    requires renamed.state == RenamedState(a, b, c, target) && HasChain(renamed.disk, c)
    requires renamed.disk[c].rangeTips == map[]
    ensures ResetsTo(renamed, Key(File, a), c, pre)
  {
    var s, file := renamed.state, Key(File, a);
    pre := Moved(renamed.disk, s, FileMoves(s, file, c, map[])).(
      locations := PlacedAt(s, file, LocationAt(renamed.disk, c)),
      mounts := map[file := []],
      openBlocks := s.openBlocks - Dropped(s, file, map[]));
    assert KeptOrder([Key(Range, b)], {}) == [];
    assert MountsRestored(s.mounts, pre.mounts, file, {});
    assert ResetFromRestored(s, pre.resetFrom, map[]);
  }
}
