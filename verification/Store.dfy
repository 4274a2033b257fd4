/** The store object: its records and state, and the pipeline operations that update them in place. */
module Store {
  import opened Records
  import opened Chains
  import opened StoreState
  import opened Pipeline
  import opened PipelineLaws
  import opened CommitMeans

  class LockedStore {
    var disk: Disk
    var state: State

    constructor ()
      ensures Now() == Snap(map[], EMPTY_STATE) && Sound(Now())
    {
      disk, state := map[], EMPTY_STATE;
      new;
      EmptyIsOk();
    }

    function Now(): Snap
      reads this
    {
      Snap(disk, state)
    }

    /** publish: the record first, then the state. */
    method Publish(cid: Id, record: Record, next: State)
      requires Fresh(disk, cid)
      modifies this
      ensures Now() == Snap(old(disk)[cid := record], next)
    {
      disk := disk[cid := record];
      state := next;
    }

    /** set_state_locked: the state alone. */
    method SetState(next: State)
      modifies this
      ensures Now() == Snap(old(disk), next)
    {
      state := next;
    }

    /** Removes one record file. */
    method Remove(id: Id)
      modifies this
      ensures Now() == Snap(old(disk) - {id}, old(state))
    {
      disk := disk - {id};
    }

    /** object_at_path: the object of a class at a path, if any. */
    method ObjectAtPath(path: string, statistics: bool) returns (found: Option<Key>)
      ensures found.Some? <==> Occupied(Now(), path, statistics)
      ensures found.Some? ==> Holds(Now(), found.value, path, statistics)
    {
      var todo := state.locations.Keys;
      while todo != {}
        invariant todo <= state.locations.Keys
        invariant forall k :: Holds(Now(), k, path, statistics) ==> k in todo
        decreases |todo|
      {
        var k :| k in todo;
        if k.kind == File && k.root in disk && state.locations[k] == path
          && (disk[k.root].kind == Import) == statistics {
          assert Holds(Now(), k, path, statistics);
          return Some(k);
        }
        todo := todo - {k};
      }
      found := None;
    }

    /** The tips of the ranges mounted under a file, as its commits record them. */
    method ChildTips(p: Key) returns (tips: map<Key, Id>)
      ensures tips == SnapshotOf(state, p)
    {
      tips := map[];
      var children := ChildrenOf(state, p);
      for i := 0 to |children|
        invariant tips == map c | c in children[..i] && c in state.tips :: state.tips[c]
      {
        assert children[..i + 1] == children[..i] + [children[i]];
        if children[i] in state.tips {
          tips := tips[children[i] := state.tips[children[i]]];
        }
      }
      assert children[..|children|] == children;
    }

    method BlockOfParent(loc: Locator, mount: Option<Key>) returns (block: Option<Id>)
      requires MountedOnce(state)
      ensures block == ParentBlock(state, loc, mount)
    {
      var parent: Option<Key> := None;
      if loc.Named? {
        parent := ParentOf(state, loc.key);
        SameParent(state, loc.key, parent);
      }
      if parent.None? {
        parent := mount;
      }
      block := None;
      if parent.Some? && parent.value in state.openBlocks && state.openBlocks[parent.value] != [] {
        var open := state.openBlocks[parent.value];
        block := Some(open[|open| - 1]);
      }
    }

    /** Adds a commit to the pending changes of some links. */
    method Oblige(pending: map<LinkId, set<Id>>, at: set<LinkId>, cid: Id) returns (next: map<LinkId, set<Id>>)
      ensures next == Marked(pending, at, cid)
    {
      next := pending;
      var todo := at;
      ghost var done: set<LinkId> := {};
      MarkedNothing(pending, cid);
      while todo != {}
        invariant done !! todo && forall l :: l in at <==> l in done || l in todo
        invariant next == Marked(pending, done, cid)
        decreases todo
      {
        var l :| l in todo;
        MarkedStep(pending, done, l, cid);
        next := next[l := (if l in next then next[l] else {}) + {cid}];
        todo, done := todo - {l}, done + {l};
      }
      assert done == at;
    }

    /** A payload with the block of the parent file, for a range commit that observes its source. */
    method InBlock(loc: Locator, payload: Payload) returns (p: Payload)
      requires MountedOnce(state)
      ensures p == (if KindAt(loc) == Range && ParentBlock(state, loc, payload.mount).Some?
                    then payload.(inBlock := ParentBlock(state, loc, payload.mount)) else payload)
    {
      p := payload;
      if KindAt(loc) == Range {
        var block := BlockOfParent(loc, payload.mount);
        if block.Some? {
          p := p.(inBlock := block);
        }
      }
    }

    /** The record of a new commit on a node. */
    method FormRecord(mode: Mode, loc: Locator, kind: CommitKind, content: Option<Id>, payload: Payload)
      returns (r: Record)
      requires MountedOnce(state)
      ensures r == Draft(state, mode, loc, kind, content, payload)
    {
      var p := payload;
      if mode == Source {
        p := InBlock(loc, payload);
      }
      var tips: map<Key, Id> := map[];
      if KindAt(loc) == File && !IsFirst(state, loc) {
        tips := ChildTips(loc.key);
      }
      r := Record(PreviousAt(state, loc), kind, if mode == Source then content else None, p, tips);
    }

    /** The open blocks once a marker is published. */
    method MoveBlocks(key: Key, kind: CommitKind, cid: Id) returns (open: map<Key, seq<Id>>)
      ensures open == BlocksAfter(state.openBlocks, key, kind, cid)
    {
      open := state.openBlocks;
      if kind == AtomicBegin {
        open := open[key := OpenOf(state, key) + [cid]];
      } else if kind == AtomicEnd && key in open {
        var blocks := open[key];
        if blocks != [] {
          blocks := blocks[..|blocks| - 1];
        }
        open := open[key := blocks];
      }
    }

    /** The checks on a first commit. */
    method CheckFirst(mode: Mode, loc: Locator, kind: CommitKind, payload: Payload) returns (bad: Option<PipelineError>)
      requires IsFirst(state, loc)
      ensures bad == FirstError(Now(), mode, loc, kind, payload)
    {
      if KindAt(loc) == File {
        if payload.path.None? {
          return Some(PathRequired);
        }
        var taken := ObjectAtPath(payload.path.value, mode == Marker && kind == Import);
        if taken.Some? {
          return Some(PlaceTaken);
        }
      }
      if KindAt(loc) == Range {
        if payload.mount.None? {
          return Some(MountRequired);
        }
        if payload.mount.value !in state.tips || payload.mount.value.kind != File {
          return Some(MountNotLive);
        }
      }
      bad := None;
    }

    /** A commit that observes its source becomes a pending change of the links one and two hops away. */
    method ObligeDownstream(mode: Mode, key: Key, cid: Id) returns (pending: map<LinkId, set<Id>>)
      ensures pending == PendingAfter(state, mode, key, cid)
    {
      pending := state.pending;
      if mode == Source {
        var direct := Direct(state.links, key);
        pending := Oblige(state.pending, direct, cid);
        pending := Oblige(pending, Beyond(state.links, direct), cid);
        MarkedTwice(state.pending, direct, Beyond(state.links, direct), cid);
      }
    }

    /** Where a first commit puts its object. */
    method Place(loc: Locator, key: Key, p: Payload) returns (locations: map<Key, string>, mounts: map<Key, seq<Key>>)
      ensures locations == LocationsAfter(state, loc, key, p.path)
      ensures mounts == MountsAfter(state, loc, key, p.mount)
    {
      locations, mounts := state.locations, state.mounts;
      if IsFirst(state, loc) {
        if key.kind == File && p.path.Some? {
          locations := locations[key := p.path.value];
        }
        if key.kind == Range && p.mount.Some? {
          var children := if p.mount.value in mounts then mounts[p.mount.value] else [];
          mounts := mounts[p.mount.value := children + [key]];
        }
      }
    }

    /** The state to publish with a record. */
    method NextState(mode: Mode, loc: Locator, r: Record, cid: Id) returns (next: State)
      ensures next == Published(state, mode, loc, r, cid)
    {
      var key := PublishedKey(state, loc, cid);
      var locations, mounts := Place(loc, key, r.payload);
      var pending := ObligeDownstream(mode, key, cid);
      var open := MoveBlocks(key, r.kind, cid);
      next := Advanced(state, key, cid).(locations := locations, mounts := mounts, pending := pending,
        openBlocks := open);
    }

    /** commit_source and commit_marker, under the lock. */
    method CommitTo(mode: Mode, loc: Locator, kind: CommitKind, content: Option<Id>, payload: Payload, cid: Id)
      returns (r: Result<Id, PipelineError>)
      requires MountedOnce(state) && Fresh(disk, cid)
      modifies this
      ensures Outcome(old(Now()), Append(old(Now()), mode, loc, kind, content, payload, cid), r, cid, Now())
      ensures r.Ok? <==> Accepts(old(Now()), mode, loc, kind, payload)
      ensures r.Err? ==> CommitRefused(old(Now()), mode, loc, kind, payload, r.error)
      ensures r.Ok? ==>
        && cid in disk && disk == old(disk)[cid := disk[cid]]
        && RecordIs(old(state), mode, loc, kind, content, payload, disk[cid])
        && StateIs(old(state), state, mode, loc, disk[cid], cid)
    {
      AcceptsIff(Now(), mode, loc, kind, content, payload, cid);
      var record := FormRecord(mode, loc, kind, content, payload);
      DraftOf(Now(), mode, loc, kind, content, payload);
      if !PayloadAllowed(kind, record.payload) {
        return Err(BadPayload);
      }
      if IsFirst(state, loc) {
        var bad := CheckFirst(mode, loc, kind, payload);
        if bad.Some? {
          return Err(bad.value);
        }
      }
      AppendIs(Now(), mode, loc, kind, content, payload, cid,
        Append(Now(), mode, loc, kind, content, payload, cid).value);
      var next := NextState(mode, loc, record, cid);
      Publish(cid, record, next);
      r := Ok(cid);
    }

    /** commit_lifecycle: rename and delete. */
    method CommitLifecycle(kind: CommitKind, path: string, target: Option<string>, cid: Id)
      returns (r: Result<Id, PipelineError>)
      requires Sound(Now()) && Fresh(disk, cid)
      modifies this
      ensures Outcome(old(Now()), Lifecycle(old(Now()), kind, path, target, cid), r, cid, Now())
      ensures r.Ok? <==> AcceptsMove(old(Now()), kind, path, target)
      ensures r.Err? ==> MoveRefused(old(Now()), kind, path, target, r.error)
      ensures r.Ok? ==> exists k :: FileMoves(old(Now()), k, kind, path, target, cid, Now())
    {
      LifecycleAccepts(Now(), kind, path, target, cid);
      if AcceptsMove(Now(), kind, path, target) {
        LifecycleIs(Now(), kind, path, target, cid);
      }
      var found := ObjectAtPath(path, false);
      if found.None? {
        return Err(NotTracked);
      }
      if kind == Rename {
        if target.None? {
          return Err(TargetRequired);
        }
        var taken := ObjectAtPath(target.value, false);
        if taken.Some? {
          return Err(PlaceTaken);
        }
      }
      var payload := NO_FIELDS.(path := Some(path), target := target);
      if !(kind == Rename || kind == Delete) || !PayloadAllowed(kind, payload) {
        return Err(BadPayload);
      }
      var key := found.value;
      HolderIsUnique(Now(), key, path, false);
      var next := Advanced(state, key, cid);
      if kind == Rename {
        next := next.(locations := next.locations[key := target.value]);
      } else {
        next := next.(locations := next.locations - {key});
      }
      Publish(cid, Record(TipOf(state, key), kind, None, payload, map[]), next);
      r := Ok(cid);
    }
  
    /** resolve_version_on_chain, for a full id. */
    method VersionOnChain(key: Key, version: Id) returns (ok: bool)
      requires Sound(Now())
      ensures ok <==> OnChain(Now(), key, version)
    {
      SoundMeans(Now());
      if version !in state.retained {
        return false;
      }
      var root := ChainRoot(disk, version);
      ok := root == Ok(key.root);
    }

    /** commit_link. */
    method LinkObjects(node: Key, terms: Terms, cid: Id) returns (r: Result<Id, PipelineError>)
      requires Sound(Now()) && Fresh(disk, cid)
      modifies this
      ensures Outcome(old(Now()), CommitLink(old(Now()), node, terms, cid), r, cid, Now())
      ensures r.Ok? <==>
        EndFits(old(Now()), terms.source, terms.sourceVersion) && EndFits(old(Now()), terms.target, terms.targetVersion)
      ensures r.Err? ==> LinkRefused(old(Now()), terms, r.error)
      ensures r.Ok? ==> LinkStands(old(Now()), node, terms, cid, Now())
    {
      LinkIs(Now(), node, terms, cid);
      if !LocalEnd(terms.source) || !LocalEnd(terms.target) {
        return Err(BadEndpoint);
      }
      if terms.source.key !in state.tips || terms.target.key !in state.tips {
        return Err(EndpointMissing);
      }
      var ok := VersionOnChain(terms.source.key, terms.sourceVersion);
      if ok {
        ok := VersionOnChain(terms.target.key, terms.targetVersion);
      }
      if !ok {
        return Err(BadVersion);
      }
      PublishLink(node, terms, cid);
      r := Ok(cid);
    }

    method PublishLink(node: Key, terms: Terms, cid: Id)
      requires Fresh(disk, cid)
      modifies this
      ensures Now() == WithLink(old(Now()), node, terms, cid)
      ensures LinkStands(old(Now()), node, terms, cid, Now())
    {
      LinkIs(Now(), node, terms, cid);
      var record := Record(TipOf(state, node), LinkKind, None, NO_FIELDS.(link := Some(terms)), map[]);
      var next := Advanced(state, node, cid);
      next := next.(links := next.links[terms.linkId := Link(terms, cid)]);
      if terms.linkId !in next.pending {
        next := next.(pending := next.pending[terms.linkId := {}]);
      }
      assert terms.linkId in state.pending ==>
        state.pending[terms.linkId := PendingOf(state, terms.linkId)] == state.pending;
      Publish(cid, record, next);
    }

    /** commit_adapt: takes the selected changes off one link. */
    method AdaptLink(node: Key, linkId: LinkId, changes: set<Id>, cid: Id) returns (r: Result<Id, PipelineError>)
      requires Sound(Now()) && Fresh(disk, cid)
      modifies this
      ensures Outcome(old(Now()), CommitAdapt(old(Now()), node, linkId, changes, cid), r, cid, Now())
      ensures r.Ok? <==> changes != {} && linkId in old(state).links
      ensures r.Err? ==> r.error == if changes == {} then NoChanges else UnknownLink
      ensures r.Ok? ==> ChangesGo(old(Now()), node, linkId, changes, cid, Now())
    {
      AdaptIs(Now(), node, linkId, changes, cid);
      if changes == {} {
        return Err(NoChanges);
      }
      if linkId !in state.links {
        return Err(UnknownLink);
      }
      var record := Record(TipOf(state, node), Adapt, None, NO_FIELDS.(changes := changes), map[]);
      var next := Advanced(state, node, cid);
      if linkId in next.pending {
        var pend := Without(next.pending[linkId], changes);
        next := next.(pending := next.pending[linkId := pend]);
      }
      Publish(cid, record, next);
      r := Ok(cid);
    }

    method Without(pend: set<Id>, changes: set<Id>) returns (rest: set<Id>)
      ensures rest == pend - changes
    {
      rest := pend;
      var todo := changes;
      while todo != {}
        invariant todo <= changes
        invariant forall c :: c in rest <==> c in pend && (c in todo || c !in changes)
        decreases todo
      {
        var c :| c in todo;
        rest := rest - {c};
        todo := todo - {c};
      }
    }

    /** commit_journal. */
    method CommitToJournal(loc: Locator, kind: CommitKind, target: Option<string>, cid: Id)
      returns (r: Result<Id, PipelineError>)
      requires Sound(Now()) && Fresh(disk, cid)
      modifies this
      ensures Outcome(old(Now()), CommitJournal(old(Now()), loc, kind, target, cid), r, cid, Now())
      ensures r.Ok? <==> AcceptsEntry(old(Now()), loc, kind, target)
      ensures r.Err? ==> EntryRefused(old(Now()), loc, kind, target, r.error)
      ensures r.Ok? ==> EntryStands(old(Now()), loc, kind, target, cid, Now())
    {
      JournalAccepts(Now(), loc, kind, target, cid);
      if AcceptsEntry(Now(), loc, kind, target) {
        JournalIs(Now(), loc, kind, target, cid);
      }
      if !IsJournal(kind) {
        return Err(BadLocator);
      }
      var first := kind == AuditInit || kind == NoteInit;
      var named := if kind == AuditInit then loc == Pending(Audit)
                   else if kind == NoteInit then loc == Pending(Note)
                   else KindAt(loc) == Audit || KindAt(loc) == Note;
      if !named {
        return Err(BadLocator);
      }
      if !first && IsFirst(state, loc) {
        return Err(UnknownJournal);
      }
      var payload := NO_FIELDS.(target := target);
      if !PayloadAllowed(kind, payload) {
        return Err(BadPayload);
      }
      var previous := if first then NO_COMMIT else state.tips[loc.key];
      Publish(cid, Record(previous, kind, None, payload, map[]), Advanced(state, PublishedKey(state, loc, cid), cid));
      r := Ok(cid);
    }
  }

  /** A call that succeeds leaves the store as specified; one that fails leaves it alone. */
  ghost predicate Outcome(
    before: Snap, spec: Result<Snap, PipelineError>, r: Result<Id, PipelineError>, cid: Id, after: Snap) {
    match spec
    case Ok(next) => r == Ok(cid) && after == next
    case Err(e) => r == Err(e) && after == before
  }

  lemma MarkedTwice(pending: map<LinkId, set<Id>>, a: set<LinkId>, b: set<LinkId>, cid: Id)
    ensures Marked(Marked(pending, a, cid), b, cid) == Marked(pending, a + b, cid)
  {
    var once := Marked(pending, a, cid);
    assert forall l :: l in a && l in b ==> once[l] + {cid} == once[l];
  }

  lemma HolderIsUnique(snap: Snap, k: Key, path: string, statistics: bool)
    requires Sound(snap) && Holds(snap, k, path, statistics)
    ensures HolderOf(snap, path, statistics) == k
  {
    SoundMeans(snap);
    var j := HolderOf(snap, path, statistics);
    assert PlaceOf(snap.disk, snap.state, j) == PlaceOf(snap.disk, snap.state, k);
  }

  lemma SameParent(s: State, c: Key, parent: Option<Key>)
    requires forall p :: Mounted(s, p, c) <==> parent == Some(p)
    ensures parent == ParentIn(s, c)
  {
    if parent.Some? {
      assert Mounted(s, parent.value, c);
    }
  }

  lemma MarkedNothing(pending: map<LinkId, set<Id>>, cid: Id)
    ensures Marked(pending, {}, cid) == pending
  {
    assert Marked(pending, {}, cid).Keys == pending.Keys;
  }

  lemma MarkedStep(pending: map<LinkId, set<Id>>, done: set<LinkId>, l: LinkId, cid: Id)
    requires l !in done
    ensures var was := Marked(pending, done, cid);
      Marked(pending, done + {l}, cid) == was[l := (if l in was then was[l] else {}) + {cid}]
  {
    var was := Marked(pending, done, cid);
    var now := Marked(pending, done + {l}, cid);
    assert now.Keys == was.Keys + {l};
    assert forall m :: m in now && m != l ==> m in was && now[m] == was[m];
  }
}
