/** What a commit leaves behind, told by the store before and after it. */
module CommitMeans {
  import opened Records
  import opened Chains
  import opened StoreState
  import opened Pipeline
  import opened PipelineLaws

  // ---- commit_source and commit_marker ----

  predicate IsLive(s: State, loc: Locator) {
    loc.Named? && loc.key in s.tips
  }

  /** The object of a commit: the one named, or a new file or pending object, which takes its name from the commit. */
  function Goal(s: State, loc: Locator, cid: Id): Key {
    match loc
    case Pending(kind) => Key(kind, cid)
    case Named(k) => if k.kind == File && k !in s.tips then Key(File, cid) else k
  }

  /** The file over a range: where it is mounted, or else where its commit asks to mount it. */
  ghost predicate IsOver(s: State, loc: Locator, mount: Option<Key>, p: Key) {
    if loc.Named? && (exists q :: Mounted(s, q, loc.key)) then Mounted(s, p, loc.key) else mount == Some(p)
  }

  /** p has a block open that a commit on a range under it joins. */
  ghost predicate Encloses(s: State, mode: Mode, loc: Locator, mount: Option<Key>, p: Key) {
    mode == Source && KindAt(loc) == Range && IsOver(s, loc, mount, p) && OpenOf(s, p) != []
  }

  ghost predicate Enclosed(s: State, mode: Mode, loc: Locator, mount: Option<Key>) {
    exists p :: Encloses(s, mode, loc, mount, p)
  }

  /** The record: on the old tip, with the content if it was observed, the parent's innermost block and the ranges. */
  ghost predicate RecordIs(
    s: State, mode: Mode, loc: Locator, kind: CommitKind, content: Option<Id>, payload: Payload, r: Record) {
    && r.previous == (if IsLive(s, loc) then s.tips[loc.key] else NO_COMMIT)
    && r.kind == kind && r.contentRef == (match mode case Source => content case Marker => None)
    && r.payload == payload.(inBlock := r.payload.inBlock)
    && (forall p :: Encloses(s, mode, loc, payload.mount, p) ==>
          r.payload.inBlock == Some(OpenOf(s, p)[|OpenOf(s, p)| - 1]))
    && (!Enclosed(s, mode, loc, payload.mount) ==> r.payload.inBlock == payload.inBlock)
    && (forall k :: k in r.rangeTips <==>
          IsLive(s, loc) && loc.key.kind == File && Mounted(s, loc.key, k) && k in s.tips)
    && (forall k :: k in r.rangeTips && k in s.tips ==> r.rangeTips[k] == s.tips[k])
  }

  /** The commit is one hop from the link's source, or two. */
  ghost predicate Obliges(s: State, key: Key, l: LinkId) {
    l in s.links && (s.links[l].terms.source == Local(key) || exists d :: OneHop(s, key, d, s.links[l].terms.source))
  }

  predicate OneHop(s: State, key: Key, d: LinkId, e: Endpoint) {
    d in s.links && s.links[d].terms.source == Local(key) && s.links[d].terms.target == e
  }

  /** The tip of the object, and the numbers. */
  predicate TipsAre(s: State, t: State, key: Key, cid: Id) {
    && t.tips == s.tips[key := cid] && t.retained == s.retained + [cid] && t.publication == s.publication + 1
    && t.links == s.links && t.inbound == s.inbound && t.resetFrom == s.resetFrom
  }

  /** A new file is where its record says, a new range under the file that its record names. */
  ghost predicate PlacesAre(s: State, t: State, key: Key, first: bool, p: Payload) {
    && (forall k :: LocationOf(t, k) ==
          if k == key && first && key.kind == File && p.path.Some? then p.path else LocationOf(s, k))
    && (forall f :: ChildrenOf(t, f) ==
          if Some(f) == p.mount && first && key.kind == Range then ChildrenOf(s, f) + [key] else ChildrenOf(s, f))
  }

  /** An observed commit becomes pending on exactly the links that it obliges. */
  ghost predicate PendingIs(s: State, t: State, mode: Mode, key: Key, cid: Id) {
    && (forall l :: l in t.pending <==> l in s.pending || (mode == Source && Obliges(s, key, l)))
    && (forall l, id :: id in PendingOf(t, l) <==>
          id in PendingOf(s, l) || (mode == Source && id == cid && Obliges(s, key, l)))
  }

  /** A BEGIN opens a block, an END closes the innermost, and no other object's blocks change. */
  ghost predicate BlocksAre(s: State, t: State, key: Key, kind: CommitKind, cid: Id) {
    && (forall k :: k != key ==> OpenOf(t, k) == OpenOf(s, k))
    && match kind
       case AtomicBegin => OpenOf(t, key) == OpenOf(s, key) + [cid]
       case AtomicEnd => (OpenOf(s, key) == [] && OpenOf(t, key) == [])
         || exists b :: OpenOf(s, key) == OpenOf(t, key) + [b]
       case _ => OpenOf(t, key) == OpenOf(s, key)
  }

  ghost predicate StateIs(s: State, t: State, mode: Mode, loc: Locator, r: Record, cid: Id) {
    var key := Goal(s, loc, cid);
    && TipsAre(s, t, key, cid) && PlacesAre(s, t, key, !IsLive(s, loc), r.payload)
    && PendingIs(s, t, mode, key, cid) && BlocksAre(s, t, key, r.kind, cid)
  }

  /** What a new object needs: a file a path that no file of its class has, a range a live file to be mounted on. */
  predicate PlaceFits(snap: Snap, mode: Mode, loc: Locator, kind: CommitKind, payload: Payload) {
    match KindAt(loc)
    case File =>
      && payload.path.Some?
      && forall k :: k in snap.state.locations && snap.state.locations[k] == payload.path.value && k.kind == File
           && k.root in snap.disk
           ==> (snap.disk[k.root].kind == Import) != (mode == Marker && kind == Import)
    case Range => payload.mount.Some? && payload.mount.value in snap.state.tips && payload.mount.value.kind == File
    case _ => true
  }

  /** When a source or marker commit is accepted. */
  ghost predicate Accepts(snap: Snap, mode: Mode, loc: Locator, kind: CommitKind, payload: Payload) {
    && PayloadAllowed(kind, payload.(inBlock := None))
    && (payload.inBlock.Some? || Enclosed(snap.state, mode, loc, payload.mount) ==>
          kind in {Commit, Clean, Unclean, FileVerify})
    && (IsLive(snap.state, loc) || PlaceFits(snap, mode, loc, kind, payload))
  }

  /** What each refusal of a source or marker commit means. */
  ghost predicate CommitRefused(
    snap: Snap, mode: Mode, loc: Locator, kind: CommitKind, payload: Payload, error: PipelineError) {
    match error
    case BadPayload =>
      !PayloadAllowed(kind, payload.(inBlock := None))
      || ((payload.inBlock.Some? || Enclosed(snap.state, mode, loc, payload.mount))
          && kind !in {Commit, Clean, Unclean, FileVerify})
    case PathRequired => !IsLive(snap.state, loc) && KindAt(loc) == File && payload.path == None
    case PlaceTaken =>
      !IsLive(snap.state, loc) && KindAt(loc) == File && payload.path.Some?
      && !PlaceFits(snap, mode, loc, kind, payload)
    case MountRequired => !IsLive(snap.state, loc) && KindAt(loc) == Range && payload.mount == None
    case MountNotLive =>
      !IsLive(snap.state, loc) && KindAt(loc) == Range && payload.mount.Some?
      && !PlaceFits(snap, mode, loc, kind, payload)
    case _ => false
  }

  lemma EnclosedIff(s: State, mode: Mode, loc: Locator, mount: Option<Key>)
    requires MountedOnce(s)
    ensures var block := if mode == Source && KindAt(loc) == Range then ParentBlock(s, loc, mount) else None;
      && (block.Some? <==> Enclosed(s, mode, loc, mount))
      && forall p :: Encloses(s, mode, loc, mount, p) ==> block == Some(OpenOf(s, p)[|OpenOf(s, p)| - 1])
  {
    if mode == Source && KindAt(loc) == Range {
      var mounted := if loc.Named? then ParentIn(s, loc.key) else None;
      var parent := if mounted.Some? then mounted else mount;
      forall p
        ensures IsOver(s, loc, mount, p) <==> parent == Some(p)
      {
      }
      if parent.Some? && OpenOf(s, parent.value) != [] {
        assert Encloses(s, mode, loc, mount, parent.value);
      }
    }
  }

  lemma DraftIs(
    s: State, mode: Mode, loc: Locator, kind: CommitKind, content: Option<Id>, payload: Payload)
    requires MountedOnce(s)
    ensures RecordIs(s, mode, loc, kind, content, payload, Draft(s, mode, loc, kind, content, payload))
  {
    EnclosedIff(s, mode, loc, payload.mount);
  }

  lemma AllowedInBlock(kind: CommitKind, payload: Payload, block: Option<Id>)
    ensures PayloadAllowed(kind, payload.(inBlock := block)) <==>
      PayloadAllowed(kind, payload.(inBlock := None)) && (block.Some? ==> kind in {Commit, Clean, Unclean, FileVerify})
  {
  }

  lemma PlaceIff(snap: Snap, mode: Mode, loc: Locator, kind: CommitKind, payload: Payload)
    ensures FirstError(snap, mode, loc, kind, payload).None? <==> PlaceFits(snap, mode, loc, kind, payload)
  {
    if KindAt(loc) == File && payload.path.Some? {
      var statistics := mode == Marker && kind == Import;
      forall k
        ensures Holds(snap, k, payload.path.value, statistics) <==>
          k in snap.state.locations && snap.state.locations[k] == payload.path.value && k.kind == File
          && k.root in snap.disk && (snap.disk[k.root].kind == Import) == statistics
      {
      }
    }
  }

  lemma DraftAllowed(
    s: State, mode: Mode, loc: Locator, kind: CommitKind, content: Option<Id>, payload: Payload)
    requires MountedOnce(s)
    ensures PayloadAllowed(kind, Draft(s, mode, loc, kind, content, payload).payload) <==>
      && PayloadAllowed(kind, payload.(inBlock := None))
      && (payload.inBlock.Some? || Enclosed(s, mode, loc, payload.mount) ==>
            kind in {Commit, Clean, Unclean, FileVerify})
  {
    EnclosedIff(s, mode, loc, payload.mount);
    var r := Draft(s, mode, loc, kind, content, payload);
    assert r.payload == payload.(inBlock := r.payload.inBlock);
    AllowedInBlock(kind, payload, r.payload.inBlock);
  }

  lemma AcceptsIff(
    snap: Snap, mode: Mode, loc: Locator, kind: CommitKind, content: Option<Id>, payload: Payload, cid: Id)
    requires MountedOnce(snap.state)
    ensures var r := Append(snap, mode, loc, kind, content, payload, cid);
      && (r.Ok? <==> Accepts(snap, mode, loc, kind, payload))
      && (r.Err? ==> CommitRefused(snap, mode, loc, kind, payload, r.error))
  {
    DraftAllowed(snap.state, mode, loc, kind, content, payload);
    PlaceIff(snap, mode, loc, kind, payload);
  }

  lemma ObligesIff(s: State, key: Key, l: LinkId)
    ensures l in Downstream(s.links, key) <==> Obliges(s, key, l)
  {
    if l in s.links {
      var e := s.links[l].terms.source;
      if d :| OneHop(s, key, d, e) {
        assert d in Direct(s.links, key);
      }
      if l in Beyond(s.links, Direct(s.links, key)) {
        var d :| d in Direct(s.links, key) && d in s.links && s.links[d].terms.target == s.links[l].terms.source;
        assert OneHop(s, key, d, e);
      }
    }
  }

  lemma MarkedIs(s: State, t: State, mode: Mode, key: Key, cid: Id)
    requires t.pending == PendingAfter(s, mode, key, cid)
    ensures PendingIs(s, t, mode, key, cid)
  {
    forall l
      ensures l in Downstream(s.links, key) <==> Obliges(s, key, l)
    {
      ObligesIff(s, key, l);
    }
  }

  lemma PlacedIs(s: State, t: State, loc: Locator, key: Key, p: Payload)
    requires t.locations == LocationsAfter(s, loc, key, p.path) && t.mounts == MountsAfter(s, loc, key, p.mount)
    ensures PlacesAre(s, t, key, !IsLive(s, loc), p)
  {
  }

  lemma BlocksMove(s: State, t: State, key: Key, kind: CommitKind, cid: Id)
    requires t.openBlocks == BlocksAfter(s.openBlocks, key, kind, cid)
    ensures BlocksAre(s, t, key, kind, cid)
  {
    if kind == AtomicEnd && OpenOf(s, key) != [] {
      var open := OpenOf(s, key);
      assert open == OpenOf(t, key) + [open[|open| - 1]];
    }
  }

  lemma PublishedIs(s: State, mode: Mode, loc: Locator, r: Record, cid: Id)
    ensures StateIs(s, Published(s, mode, loc, r, cid), mode, loc, r, cid)
  {
    var t, key := Published(s, mode, loc, r, cid), PublishedKey(s, loc, cid);
    assert key == Goal(s, loc, cid);
    MarkedIs(s, t, mode, key, cid);
    PlacedIs(s, t, loc, key, r.payload);
    BlocksMove(s, t, key, r.kind, cid);
  }

  /** Every source or marker commit that goes through leaves this record and this state. */
  lemma AppendIs(
    snap: Snap, mode: Mode, loc: Locator, kind: CommitKind, content: Option<Id>, payload: Payload, cid: Id, after: Snap)
    requires MountedOnce(snap.state) && Append(snap, mode, loc, kind, content, payload, cid) == Ok(after)
    ensures cid in after.disk && after.disk == snap.disk[cid := after.disk[cid]]
    ensures RecordIs(snap.state, mode, loc, kind, content, payload, after.disk[cid])
    ensures StateIs(snap.state, after.state, mode, loc, after.disk[cid], cid)
  {
    DraftIs(snap.state, mode, loc, kind, content, payload);
    PublishedIs(snap.state, mode, loc, Draft(snap.state, mode, loc, kind, content, payload), cid);
  }

  /** The first commits that start an object of their kind. */
  predicate Starts(what: Kind, kind: CommitKind, payload: Payload) {
    match what
    case File => payload.mount == None && kind in {Init, Import}
    case Range => payload.mount.Some?
    case Audit => payload.mount == None && kind == AuditInit
    case Note => payload.mount == None && kind == NoteInit
  }

  predicate NoImportAt(snap: Snap, path: Option<string>) {
    forall k :: k in snap.state.locations && Some(snap.state.locations[k]) == path && k.root in snap.disk ==>
      snap.disk[k.root].kind != Import
  }

  lemma StartsIff(what: Kind, r: Record, kind: CommitKind, payload: Payload)
    requires r.kind == kind && r.payload.mount == payload.mount && (what == Range ==> payload.mount.Some?)
    ensures KindOfRoot(r) == Some(what) <==> Starts(what, kind, payload)
  {
  }

  lemma FirstGuardIff(
    snap: Snap, mode: Mode, loc: Locator, kind: CommitKind, content: Option<Id>, payload: Payload, cid: Id)
    requires !IsLive(snap.state, loc) && Sound(snap) && PlaceFits(snap, mode, loc, kind, payload)
    ensures AppendGuard(snap, mode, loc, kind, content, payload, cid) <==>
      && Goal(snap.state, loc, cid).root == cid && Starts(KindAt(loc), kind, payload)
      && (KindAt(loc) == File && mode == Source && kind == Import ==> NoImportAt(snap, payload.path))
  {
    DraftOf(snap, mode, loc, kind, content, payload);
    StartsIff(KindAt(loc), Draft(snap.state, mode, loc, kind, content, payload), kind, payload);
    if KindAt(loc) == File {
      ImportsIff(snap, payload.path.value);
    }
  }

  /**
   * A first commit leaves a store that opens exactly when the object is named after it, its kind starts such an
   * object, and a source commit of kind import finds no import at its path.
   */
  lemma FirstCommitKeepsIndexIff(
    snap: Snap, mode: Mode, loc: Locator, kind: CommitKind, content: Option<Id>, payload: Payload, cid: Id, after: Snap)
    requires Sound(snap) && Fresh(snap.disk, cid) && Append(snap, mode, loc, kind, content, payload, cid) == Ok(after)
    requires !IsLive(snap.state, loc)
    ensures IndexOk(after.disk, after.state) <==>
      && Goal(snap.state, loc, cid).root == cid && Starts(KindAt(loc), kind, payload)
      && (KindAt(loc) == File && mode == Source && kind == Import ==> NoImportAt(snap, payload.path))
  {
    AppendKeepsIndexIff(snap, mode, loc, kind, content, payload, cid, after);
    PlaceIff(snap, mode, loc, kind, payload);
    FirstGuardIff(snap, mode, loc, kind, content, payload, cid);
  }

  lemma ImportsIff(snap: Snap, path: string)
    requires Sound(snap)
    ensures Occupied(snap, path, true) <==> !NoImportAt(snap, Some(path))
  {
    SoundMeans(snap);
    forall k
      ensures Holds(snap, k, path, true) <==>
        k in snap.state.locations && snap.state.locations[k] == path && k.root in snap.disk
        && snap.disk[k.root].kind == Import
    {
    }
  }

  // ---- commit_lifecycle ----

  /** k is the content file at the path. */
  predicate IsContentAt(snap: Snap, k: Key, path: string) {
    && k in snap.state.locations && snap.state.locations[k] == path && k.kind == File
    && k.root in snap.disk && snap.disk[k.root].kind != Import
  }

  ghost predicate HasContentAt(snap: Snap, path: string) {
    exists k :: IsContentAt(snap, k, path)
  }

  /** A rename needs a content file at the path and none at the target, a delete needs a content file. */
  ghost predicate AcceptsMove(snap: Snap, kind: CommitKind, path: string, target: Option<string>) {
    HasContentAt(snap, path) &&
    match kind
    case Rename => target.Some? && !HasContentAt(snap, target.value)
    case Delete => target == None
    case _ => false
  }

  ghost predicate MoveRefused(
    snap: Snap, kind: CommitKind, path: string, target: Option<string>, error: PipelineError) {
    match error
    case NotTracked => !HasContentAt(snap, path)
    case TargetRequired => kind == Rename && target == None
    case PlaceTaken => kind == Rename && target.Some? && HasContentAt(snap, target.value)
    case BadPayload => kind != Rename && (kind != Delete || target.Some?)
    case _ => false
  }

  /** The file at the path has one more commit, and is at the target, or nowhere. */
  ghost predicate FileMoves(
    before: Snap, k: Key, kind: CommitKind, path: string, target: Option<string>, cid: Id, after: Snap) {
    var s, t := before.state, after.state;
    && IsContentAt(before, k, path)
    && after.disk == before.disk[cid :=
      Record(TipOf(s, k), kind, None, NO_FIELDS.(path := Some(path), target := target), map[])]
    && t == s.(publication := s.publication + 1, tips := s.tips[k := cid], retained := s.retained + [cid],
      locations := t.locations)
    && LocationOf(t, k) == (if kind == Delete then None else target)
    && forall j :: j != k ==> LocationOf(t, j) == LocationOf(s, j)
  }

  lemma ContentIff(snap: Snap, k: Key, path: string)
    ensures Holds(snap, k, path, false) <==> IsContentAt(snap, k, path)
  {
  }

  lemma HasContentIff(snap: Snap, path: string)
    ensures Occupied(snap, path, false) <==> HasContentAt(snap, path)
  {
    if k :| Holds(snap, k, path, false) {
      assert IsContentAt(snap, k, path);
    }
    if k :| IsContentAt(snap, k, path) {
      assert Holds(snap, k, path, false);
    }
  }

  lemma MovePayload(kind: CommitKind, path: string, target: Option<string>)
    ensures (kind == Rename || kind == Delete) && PayloadAllowed(kind, NO_FIELDS.(path := Some(path), target := target))
      <==> (kind == Rename && target.Some?) || (kind == Delete && target == None)
  {
  }

  lemma LifecycleAccepts(snap: Snap, kind: CommitKind, path: string, target: Option<string>, cid: Id)
    ensures var r := Lifecycle(snap, kind, path, target, cid);
      && (r.Ok? <==> AcceptsMove(snap, kind, path, target))
      && (r.Err? ==> MoveRefused(snap, kind, path, target, r.error))
  {
    HasContentIff(snap, path);
    if target.Some? {
      HasContentIff(snap, target.value);
    }
    MovePayload(kind, path, target);
  }

  lemma LifecycleIs(snap: Snap, kind: CommitKind, path: string, target: Option<string>, cid: Id)
    requires Lifecycle(snap, kind, path, target, cid).Ok?
    ensures exists k :: FileMoves(snap, k, kind, path, target, cid, Lifecycle(snap, kind, path, target, cid).value)
  {
    var k := HolderOf(snap, path, false);
    ContentIff(snap, k, path);
    assert FileMoves(snap, k, kind, path, target, cid, Lifecycle(snap, kind, path, target, cid).value);
  }

  // ---- Links ----

  /** A live range or journal, and a version on its chain. */
  ghost predicate EndFits(snap: Snap, e: Endpoint, version: Id) {
    && e.Local? && e.key.kind != File && e.key in snap.state.tips && version in snap.state.retained
    && HasChain(snap.disk, version)
    && ChainOf(snap.disk, version)[|ChainOf(snap.disk, version)| - 1] == e.key.root
  }

  /** The node has a link commit with these terms, and the link stands with them and with no new pending change. */
  ghost predicate LinkStands(before: Snap, node: Key, terms: Terms, cid: Id, after: Snap) {
    var s, t := before.state, after.state;
    && after.disk == before.disk[cid :=
      Record(TipOf(s, node), LinkKind, None, NO_FIELDS.(link := Some(terms)), map[])]
    && t == s.(publication := s.publication + 1, tips := s.tips[node := cid], retained := s.retained + [cid],
      links := s.links[terms.linkId := Link(terms, cid)], pending := t.pending)
    && t.pending.Keys == s.pending.Keys + {terms.linkId} && forall l :: PendingOf(t, l) == PendingOf(s, l)
  }

  ghost predicate LinkRefused(snap: Snap, terms: Terms, error: PipelineError) {
    var s, ends := snap.state, {terms.source, terms.target};
    match error
    case BadEndpoint => exists e :: e in ends && (e.Peer? || e.key.kind == File)
    case EndpointMissing => exists e :: e in ends && e.key !in s.tips
    case BadVersion =>
      !EndFits(snap, terms.source, terms.sourceVersion) || !EndFits(snap, terms.target, terms.targetVersion)
    case _ => false
  }

  lemma LinkIs(snap: Snap, node: Key, terms: Terms, cid: Id)
    ensures LinkStands(snap, node, terms, cid, WithLink(snap, node, terms, cid))
    ensures var r := CommitLink(snap, node, terms, cid);
      && (r.Ok? <==>
            EndFits(snap, terms.source, terms.sourceVersion) && EndFits(snap, terms.target, terms.targetVersion))
      && (r.Err? ==> LinkRefused(snap, terms, r.error))
  {
  }

  /** The node has an adapt commit, and exactly the selected changes are off exactly the one link. */
  ghost predicate ChangesGo(before: Snap, node: Key, linkId: LinkId, changes: set<Id>, cid: Id, after: Snap) {
    var s, t := before.state, after.state;
    && after.disk == before.disk[cid := Record(TipOf(s, node), Adapt, None, NO_FIELDS.(changes := changes), map[])]
    && t == s.(publication := s.publication + 1, tips := s.tips[node := cid], retained := s.retained + [cid],
      pending := t.pending)
    && t.pending.Keys == s.pending.Keys
    && forall l, id :: id in PendingOf(t, l) <==> id in PendingOf(s, l) && !(l == linkId && id in changes)
  }

  lemma AdaptIs(snap: Snap, node: Key, linkId: LinkId, changes: set<Id>, cid: Id)
    ensures var r := CommitAdapt(snap, node, linkId, changes, cid);
      && (r.Ok? <==> changes != {} && linkId in snap.state.links)
      && (r.Ok? ==> ChangesGo(snap, node, linkId, changes, cid, r.value))
      && (r.Err? ==> r.error == if changes == {} then NoChanges else UnknownLink)
  {
  }

  // ---- commit_journal ----

  /** A new audit or note is asked for by its kind, and a patch goes to any live journal. */
  predicate AcceptsEntry(snap: Snap, loc: Locator, kind: CommitKind, target: Option<string>) {
    match kind
    case AuditInit => loc == Pending(Audit) && target == None
    case NoteInit => loc == Pending(Note) && target.Some?
    case AuditPatch => IsLive(snap.state, loc) && loc.key.kind in {Audit, Note} && target == None
    case NotePatch => IsLive(snap.state, loc) && loc.key.kind in {Audit, Note} && target.Some?
    case _ => false
  }

  predicate EntryRefused(
    snap: Snap, loc: Locator, kind: CommitKind, target: Option<string>, error: PipelineError) {
    match error
    case BadLocator =>
      || kind !in {AuditInit, NoteInit, AuditPatch, NotePatch}
      || (kind == AuditInit && loc != Pending(Audit)) || (kind == NoteInit && loc != Pending(Note))
      || (kind in {AuditPatch, NotePatch} && KindAt(loc) !in {Audit, Note})
    case UnknownJournal => kind in {AuditPatch, NotePatch} && !IsLive(snap.state, loc)
    case BadPayload => target.Some? != (kind in {NoteInit, NotePatch})
    case _ => false
  }

  /** The journal has one more entry, and nothing else changes. */
  ghost predicate EntryStands(
    before: Snap, loc: Locator, kind: CommitKind, target: Option<string>, cid: Id, after: Snap) {
    var s, key := before.state, Goal(before.state, loc, cid);
    && after.disk == before.disk[cid :=
      Record(if IsLive(s, loc) then s.tips[loc.key] else NO_COMMIT, kind, None, NO_FIELDS.(target := target), map[])]
    && after.state == s.(publication := s.publication + 1, tips := s.tips[key := cid], retained := s.retained + [cid])
  }

  lemma JournalAccepts(snap: Snap, loc: Locator, kind: CommitKind, target: Option<string>, cid: Id)
    ensures var r := CommitJournal(snap, loc, kind, target, cid);
      && (r.Ok? <==> AcceptsEntry(snap, loc, kind, target))
      && (r.Err? ==> EntryRefused(snap, loc, kind, target, r.error))
  {
  }

  lemma JournalIs(snap: Snap, loc: Locator, kind: CommitKind, target: Option<string>, cid: Id)
    requires CommitJournal(snap, loc, kind, target, cid).Ok?
    ensures EntryStands(snap, loc, kind, target, cid, CommitJournal(snap, loc, kind, target, cid).value)
  {
  }
}
