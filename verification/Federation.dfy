/**
 * Several stores, changed by sessions that lock them, one file at a time, and that may
 * crash between any two steps.
 */
module Federation {
  import opened Records
  import opened StoreState
  import opened Pipeline
  import opened PipelineLaws
  import opened Runs

  /** The protection that a peer store keeps for one link commit of a consumer. */
  datatype Credential = Credential(consumer: StoreId, record: Id, link: LinkId, target: Key, version: Id)

  /** What one store has on disk: commit records, the state file, and the credential files. */
  datatype Site = Site(disk: Disk, state: State, files: map<Id, Credential>)

  datatype Phase = Planned | Recorded | Published
  datatype CrossPhase = Checked | Filed | Selected | Written | Linked

  datatype Session =
    /** An operation on one store, holding the locks of others as well when it collects garbage. */
    | Busy(at: StoreId, others: set<StoreId>, before: Snap, after: Snap, orphans: set<Id>, phase: Phase)
    /** An external link from a consumer store to a peer store, holding both. */
    | Crossing(
        consumer: StoreId, peer: StoreId, before: Snap, after: Snap, there: State,
        credential: Id, cred: Credential, stage: CrossPhase)
    /** A gc that has read the state and the credentials, and holds no lock yet. */
    | Watching(at: StoreId, publication: nat, seen: map<Id, Credential>)

  datatype System = System(sites: map<StoreId, Site>, sessions: map<nat, Session>)

  function SnapOf(site: Site): Snap {
    Snap(site.disk, site.state)
  }

  /** The stores that a session has locked. */
  function Locks(s: Session): set<StoreId> {
    match s
    case Busy(at, others, _, _, _, _) => {at} + others
    case Crossing(consumer, peer, _, _, _, _, _, _) => {consumer, peer}
    case Watching(_, _, _) => {}
  }

  /** try_lock: nobody holds any of the stores. */
  predicate Free(sys: System, stores: set<StoreId>) {
    forall i :: i in sys.sessions ==> Locks(sys.sessions[i]) !! stores
  }

  // ---- Steps ----

  datatype Action =
    | Start(sid: nat, at: StoreId, op: Op, after: Snap)
    | Watch(sid: nat, at: StoreId)
    | StartGc(sid: nat, others: set<StoreId>, orphans: set<Id>, after: Snap)
    | StartCross(
        sid: nat, consumer: StoreId, peer: StoreId, node: Key, terms: Terms,
        record: Id, credential: Id, cred: Credential)
    | WriteRecord(sid: nat)
    | Swap(sid: nat)
    | DeleteRecord(sid: nat, id: Id)
    | DeleteCredential(sid: nat, id: Id)
    | FileCredential(sid: nat)
    | SelectCredential(sid: nat)
    | WriteLink(sid: nat)
    | SwapLink(sid: nat)
    | Stop(sid: nat)

  function WithSite(sys: System, at: StoreId, site: Site, sid: nat, s: Session): System {
    System(sys.sites[at := site], sys.sessions[sid := s])
  }

  function WithSession(sys: System, sid: nat, s: Session): System {
    sys.(sessions := sys.sessions[sid := s])
  }

  /** The versions protected by the credentials that are not given up. */
  function HeldVersions(seen: map<Id, Credential>, orphans: set<Id>): set<Id> {
    set id | id in seen && id !in orphans :: seen[id].version
  }

  /** A credential may be given up only if its consumer is locked and does not retain its record. */
  predicate Orphaned(sys: System, others: set<StoreId>, cred: Credential) {
    && cred.consumer in others && cred.consumer in sys.sites
    && cred.record !in sys.sites[cred.consumer].state.retained
  }

  /** The store opens: validate_identity_index accepts it. */
  ghost predicate Opens(site: Site) {
    IndexOk(site.disk, site.state)
  }

  /** Any operation that succeeds may start at a store that opens, also one that leaves it unable to open. */
  ghost predicate StartEnabled(sys: System, sid: nat, at: StoreId, op: Op, after: Snap) {
    && sid !in sys.sessions && at in sys.sites && Free(sys, {at})
    && !op.TiePeer? && !op.Sweep?
    && Opens(sys.sites[at]) && Step(op, SnapOf(sys.sites[at]), after)
  }

  /** Gc goes on after locking only if the publication it read is still the current one. */
  ghost predicate GcEnabled(sys: System, sid: nat, others: set<StoreId>, orphans: set<Id>, after: Snap) {
    && sid in sys.sessions && sys.sessions[sid].Watching?
    && var w := sys.sessions[sid];
    && w.at in sys.sites && Opens(sys.sites[w.at]) && w.at !in others && others <= sys.sites.Keys
      && Free(sys, {w.at} + others)
    && sys.sites[w.at].state.publication == w.publication
    && orphans <= w.seen.Keys && (forall id :: id in orphans ==> Orphaned(sys, others, w.seen[id]))
    && Step(Sweep(HeldVersions(w.seen, orphans), orphans), SnapOf(sys.sites[w.at]), after)
  }

  /** cred protects the peer end of the terms, for the link commit record. */
  predicate Covers(cred: Credential, consumer: StoreId, peer: StoreId, terms: Terms, record: Id) {
    || (terms.source.Peer? && terms.target.Local? && terms.source.store == peer
        && cred == Credential(consumer, record, terms.linkId, terms.source.key, terms.sourceVersion))
    || (terms.target.Peer? && terms.source.Local? && terms.target.store == peer
        && cred == Credential(consumer, record, terms.linkId, terms.target.key, terms.targetVersion))
  }

  /** The checks of an external link, made with both stores locked. */
  ghost predicate CrossEnabled(
    sys: System, sid: nat, consumer: StoreId, peer: StoreId, node: Key, terms: Terms, record: Id, credential: Id,
    cred: Credential) {
    && sid !in sys.sessions && consumer != peer && consumer in sys.sites && peer in sys.sites
      && Free(sys, {consumer, peer})
    && var here, there := SnapOf(sys.sites[consumer]), SnapOf(sys.sites[peer]);
    && Opens(sys.sites[consumer]) && Opens(sys.sites[peer])
    && Fresh(here.disk, record) && PeerTerms(here, terms)
    && Covers(cred, consumer, peer, terms, record)
    && cred.target in there.state.tips && OnChain(there, cred.target, cred.version)
    && credential !in sys.sites[peer].files
  }

  ghost predicate Act(sys: System, a: Action, next: System) {
    match a
    case Start(sid, at, op, after) =>
      && StartEnabled(sys, sid, at, op, after)
      && next == WithSession(sys, sid, Busy(at, {}, SnapOf(sys.sites[at]), after, {}, Planned))
    case Watch(sid, at) =>
      && sid !in sys.sessions && at in sys.sites
      && next == WithSession(sys, sid, Watching(at, sys.sites[at].state.publication, Selections(sys.sites[at])))
    case StartGc(sid, others, orphans, after) =>
      && GcEnabled(sys, sid, others, orphans, after)
      && var at := sys.sessions[sid].at;
         next == WithSession(sys, sid, Busy(at, others, SnapOf(sys.sites[at]), after, orphans, Planned))
    case StartCross(sid, consumer, peer, node, terms, record, credential, cred) =>
      && CrossEnabled(sys, sid, consumer, peer, node, terms, record, credential, cred)
      && var before := SnapOf(sys.sites[consumer]);
         next == WithSession(sys, sid,
           Crossing(consumer, peer, before, WithLink(before, node, terms, record), sys.sites[peer].state, credential,
             cred, Checked))
    case WriteRecord(sid) => IsBusy(sys, sid, Planned) && next == Recording(sys, sid)
    case Swap(sid) => IsBusy(sys, sid, Recorded) && next == Swapping(sys, sid)
    case DeleteRecord(sid, id) =>
      IsBusy(sys, sid, Published) && Collected(sys.sessions[sid], id) && next == Deleting(sys, sid, id)
    case DeleteCredential(sid, id) =>
      IsBusy(sys, sid, Published) && id in sys.sessions[sid].orphans && next == Unfiling(sys, sid, id)
    case FileCredential(sid) => IsCrossing(sys, sid, Checked) && next == Filing(sys, sid)
    case SelectCredential(sid) => IsCrossing(sys, sid, Filed) && next == Selecting(sys, sid)
    case WriteLink(sid) => IsCrossing(sys, sid, Selected) && next == WritingLink(sys, sid)
    case SwapLink(sid) => IsCrossing(sys, sid, Written) && next == SwappingLink(sys, sid)
    case Stop(sid) => sid in sys.sessions && next == sys.(sessions := sys.sessions - {sid})
  }

  /** The credentials that the state selects and the store can read. */
  function Selections(site: Site): map<Id, Credential> {
    map id | id in site.state.inbound && id in site.files :: site.files[id]
  }

  predicate IsBusy(sys: System, sid: nat, phase: Phase) {
    sid in sys.sessions && sys.sessions[sid].Busy? && sys.sessions[sid].phase == phase
      && sys.sessions[sid].at in sys.sites
  }

  /** A record that the session's gc has dropped from the state. */
  predicate Collected(s: Session, id: Id)
    requires s.Busy?
  {
    id in s.before.disk && id !in s.after.disk
  }

  predicate IsCrossing(sys: System, sid: nat, stage: CrossPhase) {
    && sid in sys.sessions && sys.sessions[sid].Crossing? && sys.sessions[sid].stage == stage
    && sys.sessions[sid].consumer in sys.sites && sys.sessions[sid].peer in sys.sites
  }

  // ---- What each file operation does ----

  function Recording(sys: System, sid: nat): System
    requires IsBusy(sys, sid, Planned)
  {
    var s := sys.sessions[sid];
    var site := sys.sites[s.at];
    WithSite(sys, s.at, site.(disk := site.disk + s.after.disk), sid, s.(phase := Recorded))
  }

  function Swapping(sys: System, sid: nat): System
    requires IsBusy(sys, sid, Recorded)
  {
    var s := sys.sessions[sid];
    WithSite(sys, s.at, sys.sites[s.at].(state := s.after.state), sid, s.(phase := Published))
  }

  function Deleting(sys: System, sid: nat, id: Id): System
    requires IsBusy(sys, sid, Published)
  {
    var s := sys.sessions[sid];
    var site := sys.sites[s.at];
    WithSite(sys, s.at, site.(disk := site.disk - {id}), sid, s)
  }

  function Unfiling(sys: System, sid: nat, id: Id): System
    requires IsBusy(sys, sid, Published)
  {
    var s := sys.sessions[sid];
    var site := sys.sites[s.at];
    WithSite(sys, s.at, site.(files := site.files - {id}), sid, s)
  }

  function Filing(sys: System, sid: nat): System
    requires IsCrossing(sys, sid, Checked)
  {
    var s := sys.sessions[sid];
    var site := sys.sites[s.peer];
    WithSite(sys, s.peer, site.(files := site.files[s.credential := s.cred]), sid, s.(stage := Filed))
  }

  function Selecting(sys: System, sid: nat): System
    requires IsCrossing(sys, sid, Filed)
  {
    var s := sys.sessions[sid];
    WithSite(sys, s.peer, AlsoSelecting(sys.sites[s.peer], s.credential), sid, s.(stage := Selected))
  }

  /** The state of persist_inbound: one credential more, and a new publication. */
  function AlsoSelected(s: State, credential: Id): State {
    s.(publication := s.publication + 1, inbound := s.inbound + {credential})
  }

  function AlsoSelecting(site: Site, credential: Id): Site {
    site.(state := AlsoSelected(site.state, credential))
  }

  function WritingLink(sys: System, sid: nat): System
    requires IsCrossing(sys, sid, Selected)
  {
    var s := sys.sessions[sid];
    var site := sys.sites[s.consumer];
    WithSite(sys, s.consumer, site.(disk := s.after.disk), sid, s.(stage := Written))
  }

  function SwappingLink(sys: System, sid: nat): System
    requires IsCrossing(sys, sid, Written)
  {
    var s := sys.sessions[sid];
    WithSite(sys, s.consumer, sys.sites[s.consumer].(state := s.after.state), sid, s.(stage := Linked))
  }

  // ---- Runs of the whole system ----

  function NewSite(): Site {
    Site(map[], EMPTY_STATE, map[])
  }

  predicate Fresh0(sys: System) {
    sys.sessions == map[] && forall p :: p in sys.sites ==> sys.sites[p] == NewSite()
  }

  /** A system that some sequence of steps leads to from new stores. */
  ghost predicate IsHistory(history: seq<System>, actions: seq<Action>) {
    && |history| == |actions| + 1 && Fresh0(history[0])
    && forall i :: 0 <= i < |actions| ==> ActAt(history, actions, i)
  }

  ghost predicate ActAt(history: seq<System>, actions: seq<Action>, i: nat)
    requires i < |actions| && |history| == |actions| + 1
  {
    Act(history[i], actions[i], history[i + 1])
  }
}
