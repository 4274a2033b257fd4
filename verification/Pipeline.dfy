/** The commit pipeline: what each operation publishes, as a function of the store it starts from. */
module Pipeline {
  import opened Records
  import opened Chains
  import opened Blocks
  import opened StoreState

  /** What is on disk: the commit records, and the state file. */
  datatype Snap = Snap(disk: Disk, state: State)

  /** Whether a commit observes source bytes (commit_source) or not (commit_marker). */
  datatype Mode = Source | Marker

  /** A node argument: an object, or the "pending" name of an object to create. */
  datatype Locator = Named(key: Key) | Pending(kind: Kind)

  datatype PipelineError =
    | BadPayload | PathRequired | PlaceTaken | MountRequired | MountNotLive
    | NotTracked | TargetRequired | BadEndpoint | EndpointMissing | BadVersion
    | UnknownLink | NoChanges | BadLocator | UnknownJournal

  /** The payload keys that Commit::validate allows and requires, for the fields modelled. */
  predicate PayloadAllowed(kind: CommitKind, p: Payload) {
    && (p.path.Some? ==> !IsJournal(kind))
    && (kind == Init || kind == Import || kind == Remove || kind == Tag ==> p.path.Some?)
    && (p.target.Some? ==> kind == Rename || kind == NoteInit || kind == NotePatch)
    && (kind == Rename || kind == NoteInit || kind == NotePatch ==> p.target.Some?)
    && (p.mount.Some? ==> IsContent(kind) || IsMarker(kind))
    && (p.position.Some? ==> IsContent(kind) || kind == Init)
    && (p.inBlock.Some? ==> IsContent(kind))
    && (p.link.Some? <==> kind == LinkKind)
    && (p.changes != {} ==> IsContent(kind) || kind == Adapt)
  }

  predicate IsContent(kind: CommitKind) {
    kind == Commit || kind == Clean || kind == Unclean || kind == FileVerify
  }

  predicate IsJournal(kind: CommitKind) {
    kind == AuditInit || kind == AuditPatch || kind == NoteInit || kind == NotePatch
  }

  // ---- Lookups ----

  /** object_at_path_in: some object of the class at the path. */
  ghost predicate Occupied(snap: Snap, path: string, statistics: bool) {
    exists k :: Holds(snap, k, path, statistics)
  }

  predicate Holds(snap: Snap, k: Key, path: string, statistics: bool) {
    && k in snap.state.locations && snap.state.locations[k] == path
    && k.kind == File && k.root in snap.disk && IsStatistics(snap.disk, k) == statistics
  }

  ghost function HolderOf(snap: Snap, path: string, statistics: bool): (k: Key)
    requires Occupied(snap, path, statistics)
    ensures Holds(snap, k, path, statistics)
  {
    var k :| Holds(snap, k, path, statistics);
    k
  }

  /** parent_of */
  ghost function ParentIn(s: State, c: Key): (p: Option<Key>)
    ensures p.Some? ==> Mounted(s, p.value, c)
    ensures p.None? ==> forall q :: !Mounted(s, q, c)
  {
    if exists q :: Mounted(s, q, c) then
      var q :| Mounted(s, q, c);
      Some(q)
    else None
  }

  function IsFirst(s: State, loc: Locator): bool {
    loc.Pending? || loc.key !in s.tips
  }

  function KindAt(loc: Locator): Kind {
    if loc.Pending? then loc.kind else loc.key.kind
  }

  /** published_node_key: a new file takes its key from the commit; any other new name is kept unless pending. */
  function PublishedKey(s: State, loc: Locator, cid: Id): Key {
    if loc.Pending? || (loc.key !in s.tips && loc.key.kind == File) then Key(KindAt(loc), cid) else loc.key
  }

  function PreviousAt(s: State, loc: Locator): Id {
    if IsFirst(s, loc) then NO_COMMIT else s.tips[loc.key]
  }

  // ---- Records ----

  /** The tips of the ranges mounted under a file. */
  function SnapshotOf(s: State, p: Key): map<Key, Id> {
    map c | c in ChildrenOf(s, p) && c in s.tips :: s.tips[c]
  }

  /** The block of the parent file that a range commit joins. */
  ghost function ParentBlock(s: State, loc: Locator, mount: Option<Key>): Option<Id> {
    var mounted := if loc.Named? then ParentIn(s, loc.key) else None;
    var parent := if mounted.Some? then mounted else mount;
    if parent.Some? && OpenOf(s, parent.value) != [] then
      var open := OpenOf(s, parent.value);
      Some(open[|open| - 1])
    else None
  }

  /** The record that commit_source or commit_marker forms. */
  ghost function Draft(
    s: State, mode: Mode, loc: Locator, kind: CommitKind, content: Option<Id>, payload: Payload): Record {
    var block := if mode == Source && KindAt(loc) == Range then ParentBlock(s, loc, payload.mount) else None;
    Record(PreviousAt(s, loc), kind, if mode == Source then content else None,
      if block.Some? then payload.(inBlock := block) else payload,
      if KindAt(loc) == File && !IsFirst(s, loc) then SnapshotOf(s, loc.key) else map[])
  }

  // ---- Obligations ----

  function Direct(links: map<LinkId, Link>, key: Key): set<LinkId> {
    set l | l in links && links[l].terms.source == Local(key)
  }

  /** Links that leave a target of one of the given links. */
  function Beyond(links: map<LinkId, Link>, from: set<LinkId>): set<LinkId> {
    set l, d | l in links && d in from && d in links && links[d].terms.target == links[l].terms.source :: l
  }

  /** The links at one or two hops from an object. */
  function Downstream(links: map<LinkId, Link>, key: Key): set<LinkId> {
    Direct(links, key) + Beyond(links, Direct(links, key))
  }

  function Marked(pending: map<LinkId, set<Id>>, at: set<LinkId>, cid: Id): map<LinkId, set<Id>> {
    map l | l in pending.Keys + at ::
      if l in at then (if l in pending then pending[l] else {}) + {cid} else pending[l]
  }

  // ---- commit_source and commit_marker ----

  /** The open blocks after a commit of the given kind. */
  function BlocksAfter(open: map<Key, seq<Id>>, key: Key, kind: CommitKind, cid: Id): map<Key, seq<Id>> {
    if kind == AtomicBegin || (kind == AtomicEnd && key in open) then
      open[key := AfterMarker(if key in open then open[key] else [], kind, cid)]
    else open
  }

  function LocationsAfter(s: State, loc: Locator, key: Key, path: Option<string>): map<Key, string> {
    if IsFirst(s, loc) && key.kind == File && path.Some? then s.locations[key := path.value] else s.locations
  }

  function MountsAfter(s: State, loc: Locator, key: Key, mount: Option<Key>): map<Key, seq<Key>> {
    if IsFirst(s, loc) && key.kind == Range && mount.Some? then
      s.mounts[mount.value := ChildrenOf(s, mount.value) + [key]]
    else s.mounts
  }

  function PendingAfter(s: State, mode: Mode, key: Key, cid: Id): map<LinkId, set<Id>> {
    if mode == Source then Marked(s.pending, Downstream(s.links, key), cid) else s.pending
  }

  /** The state after a new record at the tip of an object. */
  function Advanced(s: State, key: Key, cid: Id): State {
    s.(publication := s.publication + 1, tips := s.tips[key := cid], retained := s.retained + [cid])
  }

  /** The state that commit_source or commit_marker publishes. */
  function Published(s: State, mode: Mode, loc: Locator, r: Record, cid: Id): State {
    var key := PublishedKey(s, loc, cid);
    Advanced(s, key, cid).(
      locations := LocationsAfter(s, loc, key, r.payload.path),
      mounts := MountsAfter(s, loc, key, r.payload.mount),
      pending := PendingAfter(s, mode, key, cid),
      openBlocks := BlocksAfter(s.openBlocks, key, r.kind, cid))
  }

  /** What a first commit is refused for. */
  ghost function FirstError(
    snap: Snap, mode: Mode, loc: Locator, kind: CommitKind, payload: Payload): Option<PipelineError> {
    match KindAt(loc)
    case File =>
      if payload.path.None? then Some(PathRequired)
      else if Occupied(snap, payload.path.value, mode == Marker && kind == Import) then Some(PlaceTaken)
      else None
    case Range =>
      if payload.mount.None? then Some(MountRequired)
      else if !(payload.mount.value in snap.state.tips && payload.mount.value.kind == File) then Some(MountNotLive)
      else None
    case _ => None
  }

  ghost function Append(
    snap: Snap, mode: Mode, loc: Locator, kind: CommitKind, content: Option<Id>, payload: Payload, cid: Id)
    : Result<Snap, PipelineError>
  {
    var s := snap.state;
    var r := Draft(s, mode, loc, kind, content, payload);
    var first := IsFirst(s, loc);
    if !PayloadAllowed(kind, r.payload) then Err(BadPayload)
    else if first && FirstError(snap, mode, loc, kind, payload).Some? then
      Err(FirstError(snap, mode, loc, kind, payload).value)
    else Ok(Snap(snap.disk[cid := r], Published(s, mode, loc, r, cid)))
  }

  // ---- commit_lifecycle ----

  ghost function Lifecycle(
    snap: Snap, kind: CommitKind, path: string, target: Option<string>, cid: Id): Result<Snap, PipelineError> {
    var s := snap.state;
    if !Occupied(snap, path, false) then Err(NotTracked)
    else if kind == Rename && target.None? then Err(TargetRequired)
    else if kind == Rename && Occupied(snap, target.value, false) then Err(PlaceTaken)
    else
      var key := HolderOf(snap, path, false);
      var payload := NO_FIELDS.(path := Some(path), target := target);
      // The payload always has a source, which only these kinds allow with no link id.
      if !(kind == Rename || kind == Delete) || !PayloadAllowed(kind, payload) then Err(BadPayload)
      else
        var r := Record(TipOf(s, key), kind, None, payload, map[]);
        Ok(Snap(snap.disk[cid := r], Advanced(s, key, cid).(
          locations := if kind == Rename then s.locations[key := target.value] else s.locations - {key})))
  }

  // ---- Links ----

  /** resolve_version_on_chain, for a full id. */
  ghost predicate OnChain(snap: Snap, key: Key, version: Id) {
    version in snap.state.retained && HasChain(snap.disk, version) && Root(ChainOf(snap.disk, version)) == key.root
  }

  /** What a link commit publishes at a node, for local and for peer endpoints alike. */
  function WithLink(snap: Snap, node: Key, terms: Terms, cid: Id): Snap {
    var s := snap.state;
    var r := Record(TipOf(s, node), LinkKind, None, NO_FIELDS.(link := Some(terms)), map[]);
    Snap(snap.disk[cid := r], Advanced(s, node, cid).(
      links := s.links[terms.linkId := Link(terms, cid)],
      pending := s.pending[terms.linkId := PendingOf(s, terms.linkId)]))
  }

  predicate LocalEnd(e: Endpoint) {
    e.Local? && e.key.kind != File
  }

  ghost function CommitLink(snap: Snap, node: Key, terms: Terms, cid: Id): Result<Snap, PipelineError> {
    if !LocalEnd(terms.source) || !LocalEnd(terms.target) then Err(BadEndpoint)
    else if terms.source.key !in snap.state.tips || terms.target.key !in snap.state.tips then Err(EndpointMissing)
    else if !OnChain(snap, terms.source.key, terms.sourceVersion) then Err(BadVersion)
    else if !OnChain(snap, terms.target.key, terms.targetVersion) then Err(BadVersion)
    else Ok(WithLink(snap, node, terms, cid))
  }

  function CommitAdapt(snap: Snap, node: Key, linkId: LinkId, changes: set<Id>, cid: Id): Result<Snap, PipelineError> {
    var s := snap.state;
    if changes == {} then Err(NoChanges)
    else if linkId !in s.links then Err(UnknownLink)
    else
      var r := Record(TipOf(s, node), Adapt, None, NO_FIELDS.(changes := changes), map[]);
      Ok(Snap(snap.disk[cid := r], Advanced(s, node, cid).(
        pending := if linkId in s.pending then s.pending[linkId := s.pending[linkId] - changes] else s.pending)))
  }

  // ---- commit_journal ----

  function CommitJournal(
    snap: Snap, loc: Locator, kind: CommitKind, target: Option<string>, cid: Id): Result<Snap, PipelineError> {
    var s := snap.state;
    var first := kind == AuditInit || kind == NoteInit;
    var payload := NO_FIELDS.(target := target);
    if !IsJournal(kind) then Err(BadLocator)
    else if kind == AuditInit && loc != Pending(Audit) then Err(BadLocator)
    else if kind == NoteInit && loc != Pending(Note) then Err(BadLocator)
    else if !first && KindAt(loc) != Audit && KindAt(loc) != Note then Err(BadLocator)
    else if !first && IsFirst(s, loc) then Err(UnknownJournal)
    else if !PayloadAllowed(kind, payload) then Err(BadPayload)
    else
      var r := Record(PreviousAt(s, loc), kind, None, payload, map[]);
      Ok(Snap(snap.disk[cid := r], Advanced(s, PublishedKey(s, loc, cid), cid)))
  }
}
