/** What holds of several stores at every moment, crashes included. */
module FederationLaws {
  import opened Records
  import opened Chains
  import opened StoreState
  import opened Pipeline
  import opened PipelineLaws
  import opened Resets
  import opened Gc
  import opened Runs
  import opened Federation

  // ---- Disks that grow and shrink under a state ----

  predicate Within(small: Disk, big: Disk) {
    forall id :: id in small ==> id in big && big[id] == small[id]
  }

  /**
   * Every id that the state names has its record and its ancestry on disk; the quantifier keeps
   * proofs that only pass the fact on from unfolding it.
   */
  ghost predicate Backed(snap: Snap) {
    forall n: nat :: Looking(n) ==> Coherent(snap.disk, snap.state)
  }

  lemma BackedMeans(snap: Snap)
    ensures Backed(snap) <==> Coherent(snap.disk, snap.state)
  {
    assert Looking(0);
  }

  /** A store that opens and has its records is sound. */
  lemma OpenIsSound(site: Site)
    requires Opens(site) && Backed(SnapOf(site))
    ensures Sound(SnapOf(site))
  {
    BackedMeans(SnapOf(site));
    SoundMeans(SnapOf(site));
  }

  /** Records that no state names yet, or any more, do no harm. */
  lemma BackedOnLargerDisk(small: Disk, big: Disk, s: State)
    requires Backed(Snap(small, s)) && Within(small, big) && NO_COMMIT !in big
    ensures Backed(Snap(big, s))
  {
    BackedMeans(Snap(small, s));
    LargerCoherent(small, big, s);
    BackedMeans(Snap(big, s));
  }

  lemma LargerCoherent(small: Disk, big: Disk, s: State)
    requires Coherent(small, s) && Within(small, big) && NO_COMMIT !in big
    ensures Coherent(big, s)
  {
    forall id | id in s.retained
      ensures HasChain(big, id) && id in small && big[id] == small[id]
    {
      ChainGrows(small, big, id);
      assert IsChain(small, ChainOf(small, id));
    }
  }

  lemma OnChainGrows(a: Snap, b: Snap, key: Key, version: Id)
    requires OnChain(a, key, version) && Within(a.disk, b.disk) && version in b.state.retained
    ensures OnChain(b, key, version)
  {
    ChainGrows(a.disk, b.disk, version);
  }

  // ---- What one operation leaves alone ----

  predicate HasPeer(link: Link) {
    link.terms.source.Peer? || link.terms.target.Peer?
  }

  /** Links to peers are only ever taken away. */
  predicate NoNewPeerLinks(s: State, t: State) {
    forall l :: l in t.links && HasPeer(t.links[l]) ==> l in s.links && s.links[l] == t.links[l]
  }

  ghost predicate LocalEffect(a: Snap, b: Snap) {
    && Within(a.disk, b.disk) && NO_COMMIT !in b.disk
    && b.state.inbound == a.state.inbound && a.state.publication <= b.state.publication
    && (forall id :: id in a.state.retained ==> id in b.state.retained)
    && NoNewPeerLinks(a.state, b.state)
  }

  /** Every operation but gc and the external link adds records, keeps what is retained, and touches no protection. */
  lemma StepIsLocal(op: Op, a: Snap, b: Snap)
    requires Sound(a) && Step(op, a, b) && !op.Sweep? && !op.TiePeer?
    ensures LocalEffect(a, b)
  {
    SoundMeans(a);
    match op {
      case Write(mode, loc, kind, content, payload, cid) =>
        WriteIsLocal(a, mode, loc, kind, content, payload, cid, b);
      case Move(kind, path, target, cid) =>
        MoveIsLocal(a, kind, path, target, cid, b);
      case Tie(node, terms, cid) =>
        TieIsLocal(a, node, terms, cid, b);
      case Settle(node, linkId, changes, cid) =>
        SettleIsLocal(a, node, linkId, changes, cid, b);
      case Log(loc, kind, note, cid) =>
        LogIsLocal(a, loc, kind, note, cid, b);
      case Retreat(fileNode, to) =>
        RetreatIsLocal(a, fileNode, to, b);
    }
  }

  lemma WriteIsLocal(
    a: Snap, mode: Mode, loc: Locator, kind: CommitKind, content: Option<Id>, payload: Payload, cid: Id, b: Snap)
    requires NO_COMMIT !in a.disk && Fresh(a.disk, cid) && Append(a, mode, loc, kind, content, payload, cid) == Ok(b)
    ensures LocalEffect(a, b)
  {
  }

  lemma MoveIsLocal(a: Snap, kind: CommitKind, path: string, target: Option<string>, cid: Id, b: Snap)
    requires NO_COMMIT !in a.disk && Fresh(a.disk, cid) && Lifecycle(a, kind, path, target, cid) == Ok(b)
    ensures LocalEffect(a, b)
  {
  }

  lemma TieIsLocal(a: Snap, node: Key, terms: Terms, cid: Id, b: Snap)
    requires NO_COMMIT !in a.disk && Fresh(a.disk, cid) && CommitLink(a, node, terms, cid) == Ok(b)
    ensures LocalEffect(a, b)
  {
  }

  lemma SettleIsLocal(a: Snap, node: Key, linkId: LinkId, changes: set<Id>, cid: Id, b: Snap)
    requires NO_COMMIT !in a.disk && Fresh(a.disk, cid) && CommitAdapt(a, node, linkId, changes, cid) == Ok(b)
    ensures LocalEffect(a, b)
  {
  }

  lemma LogIsLocal(a: Snap, loc: Locator, kind: CommitKind, note: Option<string>, cid: Id, b: Snap)
    requires NO_COMMIT !in a.disk && Fresh(a.disk, cid) && CommitJournal(a, loc, kind, note, cid) == Ok(b)
    ensures LocalEffect(a, b)
  {
  }

  lemma RetreatIsLocal(a: Snap, fileNode: Key, to: Id, b: Snap)
    requires NO_COMMIT !in a.disk && Retreats(a, fileNode, to, b)
    ensures LocalEffect(a, b)
  {
    var moves := RetreatProjection(a, fileNode, to, b);
    assert b.state.links == KeptLinks(a.state.links, Withdrawn(a.disk, a.state, moves));
  }

  // ---- The invariant ----

  /** A selected credential has its file, and its target is on the range's chain and retained. */
  ghost predicate CredentialsOk(snap: Snap, files: map<Id, Credential>) {
    forall id :: id in snap.state.inbound ==> id in files && OnChain(snap, files[id].target, files[id].version)
  }

  ghost predicate SiteOk(site: Site) {
    Backed(SnapOf(site)) && CredentialsOk(SnapOf(site), site.files)
  }

  /** The peer selects a credential with exactly these contents. */
  ghost predicate Protected(peer: Site, cred: Credential) {
    exists id :: Selects(peer, id, cred)
  }

  predicate Selects(site: Site, id: Id, cred: Credential) {
    id in site.state.inbound && id in site.files && site.files[id] == cred
  }

  /** The credential that an end of a link calls for. */
  function CredFor(consumer: StoreId, link: Link, end: Endpoint, version: Id): Credential {
    Credential(consumer, link.createdBy, link.terms.linkId, end.key, version)
  }

  ghost predicate EndProtected(sys: System, consumer: StoreId, link: Link, end: Endpoint, version: Id) {
    end.Peer? && end.store in sys.sites ==> Protected(sys.sites[end.store], CredFor(consumer, link, end, version))
  }

  ghost predicate LinkProtected(sys: System, consumer: StoreId, link: Link) {
    && EndProtected(sys, consumer, link, link.terms.source, link.terms.sourceVersion)
    && EndProtected(sys, consumer, link, link.terms.target, link.terms.targetVersion)
  }

  ghost predicate LinksProtected(sys: System, consumer: StoreId)
    requires consumer in sys.sites
  {
    forall l :: l in sys.sites[consumer].state.links ==>
      LinkProtected(sys, consumer, sys.sites[consumer].state.links[l])
  }

  // ---- Sessions ----

  /** What a planned operation on one store may do to its protections. */
  ghost predicate PlanOk(before: Snap, after: Snap, orphans: set<Id>, files: map<Id, Credential>) {
    && Backed(before) && Backed(after) && Agree(before.disk, after.disk)
    && after.state.inbound == before.state.inbound - orphans
    && CredentialsOk(after, files)
    && NoNewPeerLinks(before.state, after.state)
    && before.state.publication <= after.state.publication
    && (before.state.publication == after.state.publication ==> after.state.inbound == before.state.inbound)
  }

  predicate Agree(a: Disk, b: Disk) {
    forall id :: id in a && id in b ==> a[id] == b[id]
  }

  ghost predicate BusyOk(sys: System, s: Session)
    requires s.Busy?
  {
    && s.at in sys.sites && s.at !in s.others && s.others <= sys.sites.Keys
    && var site := sys.sites[s.at];
    && PlanOk(s.before, s.after, s.orphans, site.files)
    && match s.phase
       case Planned => SnapOf(site) == s.before && OrphansOk(sys, s)
       case Recorded => site.state == s.before.state && site.disk == s.before.disk + s.after.disk && OrphansOk(sys, s)
       case Published => site.state == s.after.state && Within(s.after.disk, site.disk) && NO_COMMIT !in site.disk
  }

  ghost predicate OrphansOk(sys: System, s: Session)
    requires s.Busy? && s.at in sys.sites
  {
    forall id :: id in s.orphans && id in s.before.state.inbound && id in sys.sites[s.at].files ==>
      Orphaned(sys, s.others, sys.sites[s.at].files[id])
  }

  /** The new link of a plan is the one its credential covers; other links to peers were there before. */
  ghost predicate CrossPlanOk(s: Session)
    requires s.Crossing?
  {
    && s.consumer != s.peer && Backed(s.before) && Backed(s.after) && Within(s.before.disk, s.after.disk)
    && s.after.state.inbound == s.before.state.inbound && s.before.state.publication < s.after.state.publication
    && (forall id :: id in s.before.state.retained ==> id in s.after.state.retained)
    && forall l :: l in s.after.state.links ==> NewOrOld(s, l)
  }

  predicate NewOrOld(s: Session, l: LinkId)
    requires s.Crossing? && l in s.after.state.links
  {
    var link := s.after.state.links[l];
    || (l in s.before.state.links && s.before.state.links[l] == link)
    || Covers(s.cred, s.consumer, s.peer, link.terms, link.createdBy)
  }

  ghost predicate CrossingOk(sys: System, s: Session)
    requires s.Crossing?
  {
    && CrossPlanOk(s) && s.consumer in sys.sites && s.peer in sys.sites
    && var here, there := sys.sites[s.consumer], sys.sites[s.peer];
    && OnChain(SnapOf(there), s.cred.target, s.cred.version)
    && there.state == (if s.stage == Checked || s.stage == Filed then s.there else AlsoSelected(s.there, s.credential))
    && (s.stage == Checked ==> s.credential !in there.files)
    && (s.stage == Filed ==>
      s.credential in there.files && there.files[s.credential] == s.cred && s.credential !in there.state.inbound)
    && (s.stage == Selected || s.stage == Written || s.stage == Linked ==> Selects(there, s.credential, s.cred))
    && (if s.stage == Linked then here.state == s.after.state else here.state == s.before.state)
    && (if s.stage == Written || s.stage == Linked then here.disk == s.after.disk else here.disk == s.before.disk)
  }

  /** While the publication a gc has read is current, so are the credentials it has read. */
  predicate WatchingOk(sys: System, s: Session)
    requires s.Watching?
  {
    && s.at in sys.sites && s.publication <= sys.sites[s.at].state.publication
    && (s.publication == sys.sites[s.at].state.publication ==> s.seen == Selections(sys.sites[s.at]))
  }

  ghost predicate SessionOk(sys: System, s: Session) {
    match s
    case Busy(_, _, _, _, _, _) => BusyOk(sys, s)
    case Crossing(_, _, _, _, _, _, _, _) => CrossingOk(sys, s)
    case Watching(_, _, _) => WatchingOk(sys, s)
  }

  /** No store is locked twice. */
  predicate Exclusive(sys: System) {
    forall i, j :: i in sys.sessions && j in sys.sessions && i != j ==> Locks(sys.sessions[i]) !! Locks(sys.sessions[j])
  }

  ghost predicate AllSitesOk(sys: System) {
    forall p :: p in sys.sites ==> SiteOk(sys.sites[p])
  }

  ghost predicate AllLinksProtected(sys: System) {
    forall p :: p in sys.sites ==> LinksProtected(sys, p)
  }

  ghost predicate AllSessionsOk(sys: System) {
    forall i :: i in sys.sessions ==> SessionOk(sys, sys.sessions[i])
  }

  ghost predicate InOrder(sys: System) {
    AllSitesOk(sys) && AllLinksProtected(sys) && AllSessionsOk(sys) && Exclusive(sys)
  }

  /** What holds at every moment: InOrder, behind a quantifier so that proofs which only pass it on do not unfold it. */
  ghost predicate Good(sys: System) {
    forall n: nat :: Looking(n) ==> InOrder(sys)
  }

  lemma GoodIsInOrder(sys: System)
    ensures Good(sys) <==> InOrder(sys)
  {
    assert Looking(0);
  }

  // ---- One site changes, the others do not ----

  predicate SameSites(sys: System, next: System, at: set<StoreId>) {
    next.sites.Keys == sys.sites.Keys && forall p :: p in at && p in sys.sites ==> next.sites[p] == sys.sites[p]
  }

  lemma BusyFramed(sys: System, next: System, s: Session)
    requires s.Busy? && BusyOk(sys, s) && SameSites(sys, next, Locks(s))
    ensures BusyOk(next, s)
  {
    assert next.sites[s.at] == sys.sites[s.at];
    if s.phase != Published {
      OrphansFramed(sys, next, s);
    }
  }

  lemma OrphansFramed(sys: System, next: System, s: Session)
    requires s.Busy? && s.at in sys.sites && OrphansOk(sys, s) && SameSites(sys, next, Locks(s))
    ensures OrphansOk(next, s)
  {
  }

  lemma CrossingFramed(sys: System, next: System, s: Session)
    requires s.Crossing? && CrossingOk(sys, s) && SameSites(sys, next, Locks(s))
    ensures CrossingOk(next, s)
  {
    assert next.sites[s.consumer] == sys.sites[s.consumer] && next.sites[s.peer] == sys.sites[s.peer];
  }

  /** What every file operation leaves true of a site for a gc that only watches it. */
  predicate Watchable(site: Site, after: Site) {
    && site.state.publication <= after.state.publication
    && (site.state.publication == after.state.publication ==> Selections(after) == Selections(site))
  }

  lemma SessionFramed(sys: System, next: System, x: StoreId, s: Session)
    requires SessionOk(sys, s) && x in sys.sites && x in next.sites && next.sites == sys.sites[x := next.sites[x]]
    requires x !in Locks(s) && Watchable(sys.sites[x], next.sites[x])
    ensures SessionOk(next, s)
  {
    assert SameSites(sys, next, Locks(s));
    match s {
      case Busy(_, _, _, _, _, _) => BusyFramed(sys, next, s);
      case Crossing(_, _, _, _, _, _, _, _) => CrossingFramed(sys, next, s);
      case Watching(_, _, _) =>
    }
  }

  /** Every selected credential of a site stays selected, or belongs to a record that its consumer no longer retains. */
  predicate KeepsSelected(sys: System, site: Site, after: Site) {
    forall id :: id in site.state.inbound && id in site.files ==>
      Selects(after, id, site.files[id])
      || (site.files[id].consumer in sys.sites
        && site.files[id].record !in sys.sites[site.files[id].consumer].state.retained)
  }

  lemma EndFramed(sys: System, next: System, x: StoreId, consumer: StoreId, link: Link, end: Endpoint, version: Id)
    requires x in sys.sites && x in next.sites && next.sites == sys.sites[x := next.sites[x]]
    requires KeepsSelected(sys, sys.sites[x], next.sites[x])
    requires consumer in sys.sites && link.createdBy in sys.sites[consumer].state.retained
    requires EndProtected(sys, consumer, link, end, version)
    ensures EndProtected(next, consumer, link, end, version)
  {
    if end.Peer? && end.store in sys.sites {
      var cred := CredFor(consumer, link, end, version);
      var id :| Selects(sys.sites[end.store], id, cred);
      assert Selects(next.sites[end.store], id, cred);
    }
  }

  lemma LinkFramed(sys: System, next: System, x: StoreId, consumer: StoreId, l: LinkId)
    requires x in sys.sites && x in next.sites && next.sites == sys.sites[x := next.sites[x]]
    requires KeepsSelected(sys, sys.sites[x], next.sites[x]) && AllSitesOk(sys) && AllLinksProtected(sys)
    requires consumer in sys.sites && l in sys.sites[consumer].state.links
    ensures LinkProtected(next, consumer, sys.sites[consumer].state.links[l])
  {
    var s := sys.sites[consumer].state;
    var link := s.links[l];
    assert SiteOk(sys.sites[consumer]);
    BackedMeans(SnapOf(sys.sites[consumer]));
    assert LinksProtected(sys, consumer);
    EndFramed(sys, next, x, consumer, link, link.terms.source, link.terms.sourceVersion);
    EndFramed(sys, next, x, consumer, link, link.terms.target, link.terms.targetVersion);
  }

  /** The links of the changed site are old ones, or protected in the new system. */
  ghost predicate LinksAccounted(sys: System, next: System, x: StoreId)
    requires x in sys.sites && x in next.sites
  {
    forall l :: l in next.sites[x].state.links ==> LinkAccounted(sys, next, x, l)
  }

  ghost predicate LinkAccounted(sys: System, next: System, x: StoreId, l: LinkId)
    requires x in sys.sites && x in next.sites && l in next.sites[x].state.links
  {
    var link := next.sites[x].state.links[l];
    || (l in sys.sites[x].state.links && sys.sites[x].state.links[l] == link)
    || LinkProtected(next, x, link)
  }

  lemma LinksFramed(sys: System, next: System, x: StoreId)
    requires x in sys.sites && x in next.sites && next.sites == sys.sites[x := next.sites[x]]
    requires KeepsSelected(sys, sys.sites[x], next.sites[x]) && AllSitesOk(sys) && AllLinksProtected(sys)
    requires LinksAccounted(sys, next, x)
    ensures AllLinksProtected(next)
  {
    forall p | p in next.sites
      ensures LinksProtected(next, p)
    {
      forall l | l in next.sites[p].state.links
        ensures LinkProtected(next, p, next.sites[p].state.links[l])
      {
        if p == x {
          assert LinkAccounted(sys, next, x, l);
        }
        if l in sys.sites[p].state.links && sys.sites[p].state.links[l] == next.sites[p].state.links[l] {
          LinkFramed(sys, next, x, p, l);
        }
      }
    }
  }

  lemma SitesStepped(sys: System, x: StoreId, site: Site, sid: nat, s: Session)
    requires AllSitesOk(sys) && SiteOk(site)
    ensures AllSitesOk(WithSite(sys, x, site, sid, s))
  {
  }

  lemma SessionsStepped(sys: System, x: StoreId, site: Site, sid: nat, s: Session)
    requires AllSessionsOk(sys) && Exclusive(sys)
    requires sid in sys.sessions && x in sys.sites && x in Locks(sys.sessions[sid]) && Watchable(sys.sites[x], site)
    requires SessionOk(WithSite(sys, x, site, sid, s), s)
    ensures AllSessionsOk(WithSite(sys, x, site, sid, s))
  {
    var next := WithSite(sys, x, site, sid, s);
    assert next.sites[x] == site;
    forall i | i in next.sessions
      ensures SessionOk(next, next.sessions[i])
    {
      if i != sid {
        assert Locks(sys.sessions[i]) !! Locks(sys.sessions[sid]);
        SessionFramed(sys, next, x, sys.sessions[i]);
      }
    }
  }

  lemma LocksStepped(sys: System, next: System, sid: nat, s: Session)
    requires Exclusive(sys) && sid in sys.sessions && next.sessions == sys.sessions[sid := s]
    requires Locks(s) <= Locks(sys.sessions[sid])
    ensures Exclusive(next)
  {
    forall i, j | i in next.sessions && j in next.sessions && i != j
      ensures Locks(next.sessions[i]) !! Locks(next.sessions[j])
    {
      assert Locks(sys.sessions[i]) !! Locks(sys.sessions[j]);
    }
  }

  /** What a file operation must show about the site it changes. */
  ghost predicate StepOk(sys: System, sid: nat, x: StoreId, site: Site, s: Session)
    requires x in sys.sites
  {
    && SiteOk(site) && Watchable(sys.sites[x], site) && KeepsSelected(sys, sys.sites[x], site)
    && SessionOk(WithSite(sys, x, site, sid, s), s) && LinksAccounted(sys, WithSite(sys, x, site, sid, s), x)
  }

  /** A file operation of a session that keeps its own site in order keeps the whole system in order. */
  lemma SiteStepKeepsGood(sys: System, sid: nat, x: StoreId, site: Site, s: Session)
    requires Good(sys) && sid in sys.sessions && x in sys.sites && x in Locks(sys.sessions[sid])
    requires Locks(s) == Locks(sys.sessions[sid])
    requires StepOk(sys, sid, x, site, s)
    ensures Good(WithSite(sys, x, site, sid, s))
  {
    GoodIsInOrder(sys);
    var next := WithSite(sys, x, site, sid, s);
    assert next.sites[x] == site;
    SitesStepped(sys, x, site, sid, s);
    LinksFramed(sys, next, x);
    SessionsStepped(sys, x, site, sid, s);
    LocksStepped(sys, next, sid, s);
    GoodIsInOrder(next);
  }

  // ---- Sessions begin and end ----

  lemma SessionOnSameSites(sys: System, next: System, s: Session)
    requires SessionOk(sys, s) && next.sites == sys.sites
    ensures SessionOk(next, s)
  {
    match s {
      case Busy(_, _, _, _, _, _) => BusyFramed(sys, next, s);
      case Crossing(_, _, _, _, _, _, _, _) => CrossingFramed(sys, next, s);
      case Watching(_, _, _) =>
    }
  }

  lemma LinksOnSameSites(sys: System, next: System)
    requires AllLinksProtected(sys) && next.sites == sys.sites
    ensures AllLinksProtected(next)
  {
    forall p | p in next.sites
      ensures LinksProtected(next, p)
    {
      forall l | l in next.sites[p].state.links
        ensures LinkProtected(next, p, next.sites[p].state.links[l])
      {
        assert LinksProtected(sys, p);
        EndOnSameSites(sys, next, p, next.sites[p].state.links[l]);
      }
    }
  }

  lemma EndOnSameSites(sys: System, next: System, consumer: StoreId, link: Link)
    requires LinkProtected(sys, consumer, link) && next.sites == sys.sites
    ensures LinkProtected(next, consumer, link)
  {
  }

  lemma OfGood(sys: System, sid: nat, x: StoreId)
    requires Good(sys) && sid in sys.sessions && x in sys.sites
    ensures SessionOk(sys, sys.sessions[sid]) && SiteOk(sys.sites[x])
  {
    GoodIsInOrder(sys);
  }

  lemma SiteOfGood(sys: System, x: StoreId)
    requires Good(sys) && x in sys.sites
    ensures SiteOk(sys.sites[x])
  {
    GoodIsInOrder(sys);
  }

  /** A session may begin, or go on from only watching, when it has its plan in order and nobody holds its stores. */
  lemma BeginKeepsGood(sys: System, sid: nat, s: Session)
    requires Good(sys) && (sid in sys.sessions ==> sys.sessions[sid].Watching?)
    requires SessionOk(sys, s) && Free(sys, Locks(s))
    ensures Good(WithSession(sys, sid, s))
  {
    GoodIsInOrder(sys);
    var next := WithSession(sys, sid, s);
    LinksOnSameSites(sys, next);
    BeginSessions(sys, sid, s);
    BeginLocks(sys, sid, s);
    GoodIsInOrder(next);
  }

  lemma BeginSessions(sys: System, sid: nat, s: Session)
    requires AllSessionsOk(sys) && SessionOk(sys, s)
    ensures AllSessionsOk(WithSession(sys, sid, s))
  {
    var next := WithSession(sys, sid, s);
    forall i | i in next.sessions
      ensures SessionOk(next, next.sessions[i])
    {
      SessionOnSameSites(sys, next, next.sessions[i]);
    }
  }

  lemma BeginLocks(sys: System, sid: nat, s: Session)
    requires Exclusive(sys) && Free(sys, Locks(s))
    ensures Exclusive(WithSession(sys, sid, s))
  {
  }

  /** A session may end at any moment: what is on disk is in order without it. */
  lemma StopKeepsGood(sys: System, sid: nat)
    requires Good(sys)
    ensures Good(sys.(sessions := sys.sessions - {sid}))
  {
    GoodIsInOrder(sys);
    var next := sys.(sessions := sys.sessions - {sid});
    LinksOnSameSites(sys, next);
    forall i | i in next.sessions
      ensures SessionOk(next, next.sessions[i])
    {
      SessionOnSameSites(sys, next, next.sessions[i]);
    }
    GoodIsInOrder(next);
  }

  lemma CredentialsGrow(a: Snap, b: Snap, files: map<Id, Credential>)
    requires CredentialsOk(a, files) && Within(a.disk, b.disk) && b.state.inbound <= a.state.inbound
    requires forall id :: id in a.state.retained ==> id in b.state.retained
    ensures CredentialsOk(b, files)
  {
    forall id | id in b.state.inbound
      ensures OnChain(b, files[id].target, files[id].version)
    {
      OnChainGrows(a, b, files[id].target, files[id].version);
    }
  }

  lemma StartPlan(site: Site, op: Op, after: Snap)
    requires SiteOk(site) && Opens(site) && !op.TiePeer? && !op.Sweep? && Step(op, SnapOf(site), after)
    ensures PlanOk(SnapOf(site), after, {}, site.files)
  {
    OpenIsSound(site);
    StepKeepsCoherent(op, SnapOf(site), after);
    BackedMeans(after);
    StepIsLocal(op, SnapOf(site), after);
    LocalPlan(SnapOf(site), after, site.files);
  }

  lemma LocalPlan(a: Snap, b: Snap, files: map<Id, Credential>)
    requires Backed(a) && Backed(b) && LocalEffect(a, b) && CredentialsOk(a, files)
    ensures PlanOk(a, b, {}, files)
  {
    CredentialsGrow(a, b, files);
  }

  /** Gc keeps every credential that it does not give up, with its target's chain. */
  lemma GcPlan(site: Site, orphans: set<Id>, after: Snap)
    requires SiteOk(site) && Opens(site)
    requires Step(Sweep(HeldVersions(Selections(site), orphans), orphans), SnapOf(site), after)
    ensures PlanOk(SnapOf(site), after, orphans, site.files)
  {
    var a := SnapOf(site);
    var held := HeldVersions(Selections(site), orphans);
    OpenIsSound(site);
    StepKeepsCoherent(Sweep(held, orphans), a, after);
    BackedMeans(after);
    var keep :| IsKeepSet(a.disk, a.state, held, keep) && after == Collect(a, keep, orphans);
    CollectEffect(a, keep, orphans);
    forall id | id in after.state.inbound
      ensures OnChain(after, site.files[id].target, site.files[id].version)
    {
      assert id in Selections(site) && site.files[id].version in held;
      HeldOnChain(a, held, keep, orphans, site.files[id].target, site.files[id].version);
    }
  }

  lemma CollectEffect(a: Snap, keep: set<Id>, orphans: set<Id>)
    ensures var b := Collect(a, keep, orphans);
      && b.state.inbound == a.state.inbound - orphans && Agree(a.disk, b.disk) && b.state.links == a.state.links
      && a.state.publication <= b.state.publication
      && (a.state.publication == b.state.publication ==> b == a)
  {
  }

  lemma HeldOnChain(a: Snap, held: set<Id>, keep: set<Id>, orphans: set<Id>, key: Key, version: Id)
    requires Sound(a) && IsKeepSet(a.disk, a.state, held, keep) && version in held && OnChain(a, key, version)
    ensures OnChain(Collect(a, keep, orphans), key, version)
  {
    GcKeepsExactly(a, held, keep, orphans, version);
    assert version in Seeds(a.disk, a.state, held);
    KeptIdsMembers(a.state.retained, a.disk.Keys - keep);
  }

  lemma StartSession(sys: System, sid: nat, at: StoreId, op: Op, after: Snap)
    requires StartEnabled(sys, sid, at, op, after) && SiteOk(sys.sites[at])
    ensures var s := Busy(at, {}, SnapOf(sys.sites[at]), after, {}, Planned);
      SessionOk(sys, s) && Locks(s) == {at}
  {
    StartPlan(sys.sites[at], op, after);
    StartBusy(sys, Busy(at, {}, SnapOf(sys.sites[at]), after, {}, Planned));
  }

  lemma StartKeepsGood(sys: System, sid: nat, at: StoreId, op: Op, after: Snap)
    requires Good(sys) && StartEnabled(sys, sid, at, op, after)
    ensures Good(WithSession(sys, sid, Busy(at, {}, SnapOf(sys.sites[at]), after, {}, Planned)))
  {
    SiteOfGood(sys, at);
    StartSession(sys, sid, at, op, after);
    BeginKeepsGood(sys, sid, Busy(at, {}, SnapOf(sys.sites[at]), after, {}, Planned));
  }

  lemma StartBusy(sys: System, s: Session)
    requires s.Busy? && s.phase == Planned && s.at in sys.sites && s.at !in s.others && s.others <= sys.sites.Keys
    requires SnapOf(sys.sites[s.at]) == s.before && PlanOk(s.before, s.after, s.orphans, sys.sites[s.at].files)
    requires forall id :: id in s.orphans && id in sys.sites[s.at].files ==>
      Orphaned(sys, s.others, sys.sites[s.at].files[id])
    ensures SessionOk(sys, s)
  {
    assert OrphansOk(sys, s);
  }

  lemma StartCrossing(sys: System, s: Session)
    requires s.Crossing? && s.stage == Checked && CrossPlanOk(s) && s.consumer in sys.sites && s.peer in sys.sites
    requires SnapOf(sys.sites[s.consumer]) == s.before && s.credential !in sys.sites[s.peer].files
    requires sys.sites[s.peer].state == s.there
    requires OnChain(SnapOf(sys.sites[s.peer]), s.cred.target, s.cred.version)
    ensures SessionOk(sys, s)
  {
  }

  lemma StartGcSession(sys: System, sid: nat, others: set<StoreId>, orphans: set<Id>, after: Snap)
    requires GcEnabled(sys, sid, others, orphans, after) && WatchingOk(sys, sys.sessions[sid])
    requires SiteOk(sys.sites[sys.sessions[sid].at])
    ensures var at := sys.sessions[sid].at;
      var s := Busy(at, others, SnapOf(sys.sites[at]), after, orphans, Planned);
      SessionOk(sys, s) && Locks(s) == {at} + others
  {
    var w := sys.sessions[sid];
    GcPlan(sys.sites[w.at], orphans, after);
    GcOrphans(sys, w, others, orphans);
    StartBusy(sys, Busy(w.at, others, SnapOf(sys.sites[w.at]), after, orphans, Planned));
  }

  lemma StartGcKeepsGood(sys: System, sid: nat, others: set<StoreId>, orphans: set<Id>, after: Snap)
    requires Good(sys) && GcEnabled(sys, sid, others, orphans, after)
    ensures var at := sys.sessions[sid].at;
      Good(WithSession(sys, sid, Busy(at, others, SnapOf(sys.sites[at]), after, orphans, Planned)))
  {
    var at := sys.sessions[sid].at;
    OfGood(sys, sid, at);
    StartGcSession(sys, sid, others, orphans, after);
    BeginKeepsGood(sys, sid, Busy(at, others, SnapOf(sys.sites[at]), after, orphans, Planned));
  }

  lemma GcOrphans(sys: System, w: Session, others: set<StoreId>, orphans: set<Id>)
    requires w.Watching? && w.at in sys.sites && w.seen == Selections(sys.sites[w.at])
    requires orphans <= w.seen.Keys && forall id :: id in orphans ==> Orphaned(sys, others, w.seen[id])
    ensures forall id :: id in orphans && id in sys.sites[w.at].files ==>
      Orphaned(sys, others, sys.sites[w.at].files[id])
  {
  }

  lemma CrossPlan(before: Snap, s: Session, node: Key, terms: Terms, record: Id)
    requires s.Crossing? && s.before == before && s.after == WithLink(before, node, terms, record)
    requires s.consumer != s.peer
    requires Sound(before) && Fresh(before.disk, record) && PeerTerms(before, terms)
    requires Covers(s.cred, s.consumer, s.peer, terms, record)
    ensures CrossPlanOk(s)
  {
    assert Step(TiePeer(node, terms, record), before, s.after);
    StepKeepsCoherent(TiePeer(node, terms, record), before, s.after);
    SoundMeans(before);
    BackedMeans(before);
    BackedMeans(s.after);
    CrossLinks(before, s, node, terms, record);
  }

  lemma CrossLinks(before: Snap, s: Session, node: Key, terms: Terms, record: Id)
    requires s.Crossing? && s.before == before && s.after == WithLink(before, node, terms, record)
    requires Fresh(before.disk, record) && Covers(s.cred, s.consumer, s.peer, terms, record)
    ensures Within(before.disk, s.after.disk) && s.after.state.inbound == before.state.inbound
    ensures before.state.publication < s.after.state.publication
    ensures forall id :: id in before.state.retained ==> id in s.after.state.retained
    ensures forall l :: l in s.after.state.links ==> NewOrOld(s, l)
  {
  }

  lemma StartCrossSession(
    sys: System, sid: nat, consumer: StoreId, peer: StoreId, node: Key, terms: Terms, record: Id, credential: Id,
    cred: Credential)
    requires CrossEnabled(sys, sid, consumer, peer, node, terms, record, credential, cred)
    requires SiteOk(sys.sites[consumer])
    ensures var before := SnapOf(sys.sites[consumer]);
      var s := Crossing(consumer, peer, before, WithLink(before, node, terms, record), sys.sites[peer].state,
        credential, cred, Checked);
      SessionOk(sys, s) && Locks(s) == {consumer, peer}
  {
    var before := SnapOf(sys.sites[consumer]);
    var s := Crossing(consumer, peer, before, WithLink(before, node, terms, record), sys.sites[peer].state,
      credential, cred, Checked);
    CrossPlan(before, s, node, terms, record);
    StartCrossing(sys, s);
  }

  lemma StartCrossKeepsGood(
    sys: System, sid: nat, consumer: StoreId, peer: StoreId, node: Key, terms: Terms, record: Id, credential: Id,
    cred: Credential)
    requires Good(sys) && CrossEnabled(sys, sid, consumer, peer, node, terms, record, credential, cred)
    ensures var before := SnapOf(sys.sites[consumer]);
      Good(WithSession(sys, sid, Crossing(consumer, peer, before, WithLink(before, node, terms, record),
        sys.sites[peer].state, credential, cred, Checked)))
  {
    var before := SnapOf(sys.sites[consumer]);
    SiteOfGood(sys, consumer);
    StartCrossSession(sys, sid, consumer, peer, node, terms, record, credential, cred);
    BeginKeepsGood(sys, sid, Crossing(consumer, peer, before, WithLink(before, node, terms, record),
      sys.sites[peer].state, credential, cred, Checked));
  }

  // ---- The file operations ----

  lemma SameLinksAccounted(sys: System, next: System, x: StoreId)
    requires x in sys.sites && x in next.sites && next.sites[x].state.links == sys.sites[x].state.links
    ensures LinksAccounted(sys, next, x)
  {
    forall l | l in next.sites[x].state.links
      ensures LinkAccounted(sys, next, x, l)
    {
    }
  }

  lemma BackedIgnoresProtection(disk: Disk, s: State, t: State)
    requires Backed(Snap(disk, s)) && t == s.(publication := t.publication, inbound := t.inbound)
    ensures Backed(Snap(disk, t))
  {
    BackedMeans(Snap(disk, s));
    forall l | l in t.links
      ensures LinkCoherent(t, t.links[l])
    {
      assert LinkCoherent(s, s.links[l]);
    }
    BackedMeans(Snap(disk, t));
  }

  lemma MergedDisk(a: Disk, b: Disk)
    requires Agree(a, b)
    ensures Within(a, a + b) && Within(b, a + b)
  {
  }

  lemma CredentialsOnLargerDisk(small: Disk, big: Disk, s: State, files: map<Id, Credential>)
    requires CredentialsOk(Snap(small, s), files) && Within(small, big)
    ensures CredentialsOk(Snap(big, s), files)
  {
    CredentialsGrow(Snap(small, s), Snap(big, s), files);
  }

  lemma SiteOnLargerDisk(small: Disk, big: Disk, s: State, files: map<Id, Credential>)
    requires Backed(Snap(small, s)) && CredentialsOk(Snap(small, s), files) && Within(small, big) && NO_COMMIT !in big
    ensures SiteOk(Site(big, s, files))
  {
    BackedOnLargerDisk(small, big, s);
    CredentialsOnLargerDisk(small, big, s, files);
  }

  lemma RecordingOk(sys: System, sid: nat)
    requires IsBusy(sys, sid, Planned) && BusyOk(sys, sys.sessions[sid])
    requires SiteOk(sys.sites[sys.sessions[sid].at])
    ensures var s := sys.sessions[sid];
      StepOk(sys, sid, s.at, sys.sites[s.at].(disk := sys.sites[s.at].disk + s.after.disk), s.(phase := Recorded))
  {
    var s := sys.sessions[sid];
    var site := sys.sites[s.at];
    var after := site.(disk := site.disk + s.after.disk);
    MergedDisk(site.disk, s.after.disk);
    BackedMeans(s.before);
    BackedMeans(s.after);
    SiteOnLargerDisk(site.disk, after.disk, site.state, site.files);
    var next := WithSite(sys, s.at, after, sid, s.(phase := Recorded));
    SameLinksAccounted(sys, next, s.at);
    assert OrphansOk(sys, s);
    OrphansElsewhere(sys, next, s, s.(phase := Recorded));
  }

  lemma OrphansElsewhere(sys: System, next: System, s: Session, t: Session)
    requires s.Busy? && t.Busy? && s.at in sys.sites && s.at !in s.others && OrphansOk(sys, s)
    requires t.orphans == s.orphans && t.others == s.others && t.at == s.at && t.before == s.before
    requires s.at in next.sites && next.sites == sys.sites[s.at := next.sites[s.at]]
    requires next.sites[s.at].files == sys.sites[s.at].files
    ensures OrphansOk(next, t)
  {
  }

  lemma SwappingOk(sys: System, sid: nat)
    requires IsBusy(sys, sid, Recorded) && BusyOk(sys, sys.sessions[sid]) && SiteOk(sys.sites[sys.sessions[sid].at])
    ensures var s := sys.sessions[sid];
      StepOk(sys, sid, s.at, sys.sites[s.at].(state := s.after.state), s.(phase := Published))
  {
    var s := sys.sessions[sid];
    var site := sys.sites[s.at];
    var after := site.(state := s.after.state);
    MergedDisk(s.before.disk, s.after.disk);
    BackedMeans(s.before);
    BackedMeans(s.after);
    SiteOnLargerDisk(s.after.disk, after.disk, after.state, site.files);
    var next := WithSite(sys, s.at, after, sid, s.(phase := Published));
    SwapKeepsSelected(sys, s);
    SwapAccounts(sys, next, s);
  }

  /** Gc gives up only credentials whose consumer does not retain the record. */
  lemma SwapKeepsSelected(sys: System, s: Session)
    requires s.Busy? && s.at in sys.sites && OrphansOk(sys, s) && sys.sites[s.at].state == s.before.state
    requires s.after.state.inbound == s.before.state.inbound - s.orphans
    ensures KeepsSelected(sys, sys.sites[s.at], sys.sites[s.at].(state := s.after.state))
  {
  }

  lemma SwapAccounts(sys: System, next: System, s: Session)
    requires s.Busy? && s.at in sys.sites && s.at in next.sites && sys.sites[s.at].state == s.before.state
    requires next.sites[s.at].state == s.after.state && NoNewPeerLinks(s.before.state, s.after.state)
    ensures LinksAccounted(sys, next, s.at)
  {
    forall l | l in next.sites[s.at].state.links
      ensures LinkAccounted(sys, next, s.at, l)
    {
      if !HasPeer(next.sites[s.at].state.links[l]) {
        assert LinkProtected(next, s.at, next.sites[s.at].state.links[l]);
      }
    }
  }

  lemma DeletingOk(sys: System, sid: nat, id: Id)
    requires IsBusy(sys, sid, Published) && BusyOk(sys, sys.sessions[sid]) && Collected(sys.sessions[sid], id)
    ensures var s := sys.sessions[sid];
      StepOk(sys, sid, s.at, sys.sites[s.at].(disk := sys.sites[s.at].disk - {id}), s)
  {
    var s := sys.sessions[sid];
    var site := sys.sites[s.at];
    var after := site.(disk := site.disk - {id});
    SiteOnLargerDisk(s.after.disk, after.disk, site.state, site.files);
    SameLinksAccounted(sys, WithSite(sys, s.at, after, sid, s), s.at);
  }

  lemma UnfilingOk(sys: System, sid: nat, id: Id)
    requires IsBusy(sys, sid, Published) && BusyOk(sys, sys.sessions[sid]) && id in sys.sessions[sid].orphans
    requires SiteOk(sys.sites[sys.sessions[sid].at])
    ensures var s := sys.sessions[sid];
      StepOk(sys, sid, s.at, sys.sites[s.at].(files := sys.sites[s.at].files - {id}), s)
  {
    var s := sys.sessions[sid];
    var site := sys.sites[s.at];
    var after := site.(files := site.files - {id});
    assert id !in site.state.inbound;
    UnselectedFile(site, after, id);
    SameLinksAccounted(sys, WithSite(sys, s.at, after, sid, s), s.at);
  }

  lemma UnselectedFile(site: Site, after: Site, id: Id)
    requires id !in site.state.inbound && after.state == site.state && after.files == site.files - {id}
    ensures Selections(after) == Selections(site)
    ensures forall i :: i in site.state.inbound && i in site.files ==> Selects(after, i, site.files[i])
  {
  }

  lemma FilingOk(sys: System, sid: nat)
    requires IsCrossing(sys, sid, Checked) && CrossingOk(sys, sys.sessions[sid])
    requires SiteOk(sys.sites[sys.sessions[sid].peer])
    ensures var s := sys.sessions[sid];
      StepOk(sys, sid, s.peer, sys.sites[s.peer].(files := sys.sites[s.peer].files[s.credential := s.cred]),
        s.(stage := Filed))
  {
    var s := sys.sessions[sid];
    var site := sys.sites[s.peer];
    var after := site.(files := site.files[s.credential := s.cred]);
    assert s.credential !in site.state.inbound;
    assert Selections(after) == Selections(site);
    SameLinksAccounted(sys, WithSite(sys, s.peer, after, sid, s.(stage := Filed)), s.peer);
  }

  lemma SelectingSiteOk(site: Site, credential: Id, cred: Credential)
    requires SiteOk(site) && credential in site.files && site.files[credential] == cred
    requires OnChain(SnapOf(site), cred.target, cred.version)
    ensures SiteOk(AlsoSelecting(site, credential))
  {
    var after := AlsoSelecting(site, credential);
    BackedIgnoresProtection(site.disk, site.state, after.state);
    forall id | id in after.state.inbound
      ensures id in site.files && OnChain(SnapOf(after), site.files[id].target, site.files[id].version)
    {
      assert OnChain(SnapOf(site), site.files[id].target, site.files[id].version);
    }
  }

  lemma SelectingOk(sys: System, sid: nat)
    requires IsCrossing(sys, sid, Filed) && CrossingOk(sys, sys.sessions[sid])
    requires SiteOk(sys.sites[sys.sessions[sid].peer])
    ensures var s := sys.sessions[sid];
      StepOk(sys, sid, s.peer, AlsoSelecting(sys.sites[s.peer], s.credential), s.(stage := Selected))
  {
    var s := sys.sessions[sid];
    var site := sys.sites[s.peer];
    var after := AlsoSelecting(site, s.credential);
    SelectingSiteOk(site, s.credential, s.cred);
    SameLinksAccounted(sys, WithSite(sys, s.peer, after, sid, s.(stage := Selected)), s.peer);
  }

  lemma WritingLinkOk(sys: System, sid: nat)
    requires IsCrossing(sys, sid, Selected) && CrossingOk(sys, sys.sessions[sid])
    requires SiteOk(sys.sites[sys.sessions[sid].consumer])
    ensures var s := sys.sessions[sid];
      StepOk(sys, sid, s.consumer, sys.sites[s.consumer].(disk := s.after.disk), s.(stage := Written))
  {
    var s := sys.sessions[sid];
    var site := sys.sites[s.consumer];
    var after := site.(disk := s.after.disk);
    BackedMeans(s.after);
    SiteOnLargerDisk(site.disk, after.disk, site.state, site.files);
    SameLinksAccounted(sys, WithSite(sys, s.consumer, after, sid, s.(stage := Written)), s.consumer);
  }

  lemma SwappingLinkOk(sys: System, sid: nat)
    requires IsCrossing(sys, sid, Written) && CrossingOk(sys, sys.sessions[sid])
    requires SiteOk(sys.sites[sys.sessions[sid].consumer])
    ensures var s := sys.sessions[sid];
      StepOk(sys, sid, s.consumer, sys.sites[s.consumer].(state := s.after.state), s.(stage := Linked))
  {
    var s := sys.sessions[sid];
    var site := sys.sites[s.consumer];
    var after := site.(state := s.after.state);
    CredentialsGrow(SnapOf(site), SnapOf(after), site.files);
    var next := WithSite(sys, s.consumer, after, sid, s.(stage := Linked));
    forall l | l in after.state.links
      ensures LinkAccounted(sys, next, s.consumer, l)
    {
      assert NewOrOld(s, l);
      if Covers(s.cred, s.consumer, s.peer, after.state.links[l].terms, after.state.links[l].createdBy) {
        CoveredLink(next, s, after.state.links[l]);
      }
    }
  }

  /** The link that the session publishes is protected by the credential that the peer has selected. */
  lemma CoveredLink(next: System, s: Session, link: Link)
    requires s.Crossing? && s.peer in next.sites && Selects(next.sites[s.peer], s.credential, s.cred)
    requires Covers(s.cred, s.consumer, s.peer, link.terms, link.createdBy)
    ensures LinkProtected(next, s.consumer, link)
  {
  }

  // ---- Every step, every history ----

  lemma RecordingKeepsGood(sys: System, sid: nat)
    requires Good(sys) && IsBusy(sys, sid, Planned)
    ensures Good(Recording(sys, sid))
  {
    var s := sys.sessions[sid];
    OfGood(sys, sid, s.at);
    RecordingOk(sys, sid);
    SiteStepKeepsGood(sys, sid, s.at, sys.sites[s.at].(disk := sys.sites[s.at].disk + s.after.disk),
      s.(phase := Recorded));
  }

  lemma SwappingKeepsGood(sys: System, sid: nat)
    requires Good(sys) && IsBusy(sys, sid, Recorded)
    ensures Good(Swapping(sys, sid))
  {
    var s := sys.sessions[sid];
    OfGood(sys, sid, s.at);
    SwappingOk(sys, sid);
    SiteStepKeepsGood(sys, sid, s.at, sys.sites[s.at].(state := s.after.state), s.(phase := Published));
  }

  lemma DeletingKeepsGood(sys: System, sid: nat, id: Id)
    requires Good(sys) && IsBusy(sys, sid, Published) && Collected(sys.sessions[sid], id)
    ensures Good(Deleting(sys, sid, id))
  {
    var s := sys.sessions[sid];
    OfGood(sys, sid, s.at);
    DeletingOk(sys, sid, id);
    SiteStepKeepsGood(sys, sid, s.at, sys.sites[s.at].(disk := sys.sites[s.at].disk - {id}), s);
  }

  lemma UnfilingKeepsGood(sys: System, sid: nat, id: Id)
    requires Good(sys) && IsBusy(sys, sid, Published) && id in sys.sessions[sid].orphans
    ensures Good(Unfiling(sys, sid, id))
  {
    var s := sys.sessions[sid];
    OfGood(sys, sid, s.at);
    UnfilingOk(sys, sid, id);
    SiteStepKeepsGood(sys, sid, s.at, sys.sites[s.at].(files := sys.sites[s.at].files - {id}), s);
  }

  lemma FilingKeepsGood(sys: System, sid: nat)
    requires Good(sys) && IsCrossing(sys, sid, Checked)
    ensures Good(Filing(sys, sid))
  {
    var s := sys.sessions[sid];
    OfGood(sys, sid, s.peer);
    FilingOk(sys, sid);
    SiteStepKeepsGood(sys, sid, s.peer, sys.sites[s.peer].(files := sys.sites[s.peer].files[s.credential := s.cred]),
      s.(stage := Filed));
  }

  lemma SelectingKeepsGood(sys: System, sid: nat)
    requires Good(sys) && IsCrossing(sys, sid, Filed)
    ensures Good(Selecting(sys, sid))
  {
    var s := sys.sessions[sid];
    OfGood(sys, sid, s.peer);
    SelectingOk(sys, sid);
    SiteStepKeepsGood(sys, sid, s.peer, AlsoSelecting(sys.sites[s.peer], s.credential), s.(stage := Selected));
  }

  lemma WritingLinkKeepsGood(sys: System, sid: nat)
    requires Good(sys) && IsCrossing(sys, sid, Selected)
    ensures Good(WritingLink(sys, sid))
  {
    var s := sys.sessions[sid];
    OfGood(sys, sid, s.consumer);
    WritingLinkOk(sys, sid);
    SiteStepKeepsGood(sys, sid, s.consumer, sys.sites[s.consumer].(disk := s.after.disk), s.(stage := Written));
  }

  lemma SwappingLinkKeepsGood(sys: System, sid: nat)
    requires Good(sys) && IsCrossing(sys, sid, Written)
    ensures Good(SwappingLink(sys, sid))
  {
    var s := sys.sessions[sid];
    OfGood(sys, sid, s.consumer);
    SwappingLinkOk(sys, sid);
    SiteStepKeepsGood(sys, sid, s.consumer, sys.sites[s.consumer].(state := s.after.state), s.(stage := Linked));
  }

  /** No step of any session, and no crash, breaks what holds at every moment. */
  lemma ActKeepsGood(sys: System, a: Action, next: System)
    requires Good(sys) && Act(sys, a, next)
    ensures Good(next)
  {
    match a {
      case Start(sid, at, op, after) => StartKeepsGood(sys, sid, at, op, after);
      case Watch(sid, at) =>
        BeginKeepsGood(sys, sid, Watching(at, sys.sites[at].state.publication, Selections(sys.sites[at])));
      case StartGc(sid, others, orphans, after) => StartGcKeepsGood(sys, sid, others, orphans, after);
      case StartCross(sid, consumer, peer, node, terms, record, credential, cred) =>
        StartCrossKeepsGood(sys, sid, consumer, peer, node, terms, record, credential, cred);
      case Stop(sid) => StopKeepsGood(sys, sid);
      case WriteRecord(sid) => RecordingKeepsGood(sys, sid);
      case Swap(sid) => SwappingKeepsGood(sys, sid);
      case DeleteRecord(sid, id) => DeletingKeepsGood(sys, sid, id);
      case DeleteCredential(sid, id) => UnfilingKeepsGood(sys, sid, id);
      case FileCredential(sid) => FilingKeepsGood(sys, sid);
      case SelectCredential(sid) => SelectingKeepsGood(sys, sid);
      case WriteLink(sid) => WritingLinkKeepsGood(sys, sid);
      case SwapLink(sid) => SwappingLinkKeepsGood(sys, sid);
    }
  }

  lemma NewIsGood(sys: System)
    requires Fresh0(sys)
    ensures Good(sys)
  {
    EmptyIsOk();
    assert forall p :: p in sys.sites ==> SiteOk(sys.sites[p]);
    assert forall p :: p in sys.sites ==> LinksProtected(sys, p);
    GoodIsInOrder(sys);
  }

  lemma {:induction false} HistoryIsGood(history: seq<System>, actions: seq<Action>, i: nat)
    requires IsHistory(history, actions) && i < |history|
    ensures Good(history[i])
    decreases i
  {
    if i == 0 {
      NewIsGood(history[0]);
    } else {
      HistoryIsGood(history, actions, i - 1);
      assert ActAt(history, actions, i - 1);
      ActKeepsGood(history[i - 1], actions[i - 1], history[i]);
    }
  }

  /**
   * At every moment of every history, whatever operations were run, whatever is in progress and
   * whatever has crashed, every store on disk has all the records its state needs, ancestry included,
   * and every credential it selects names a version on its range's chain.
   */
  lemma StoresAlwaysBacked(history: seq<System>, actions: seq<Action>, i: nat, p: StoreId)
    requires IsHistory(history, actions) && i < |history| && p in history[i].sites
    ensures var site := history[i].sites[p]; Coherent(site.disk, site.state) && CredentialsOk(SnapOf(site), site.files)
  {
    HistoryIsGood(history, actions, i);
    SiteOfGood(history[i], p);
    BackedMeans(SnapOf(history[i].sites[p]));
  }

  /**
   * At every moment, each end of an effective link that lies in another store of the system
   * has a selected credential there for that very record, link, range and version, and the
   * version's whole ancestry is on that store's disk.
   */
  lemma PeerLinksAlwaysProtected(
    history: seq<System>, actions: seq<Action>, i: nat, consumer: StoreId, l: LinkId, end: Endpoint, version: Id)
    requires IsHistory(history, actions) && i < |history| && consumer in history[i].sites
    requires l in history[i].sites[consumer].state.links
    requires var terms := history[i].sites[consumer].state.links[l].terms;
      (end == terms.source && version == terms.sourceVersion) || (end == terms.target && version == terms.targetVersion)
    requires end.Peer? && end.store in history[i].sites
    ensures var peer := history[i].sites[end.store];
      && Protected(peer, CredFor(consumer, history[i].sites[consumer].state.links[l], end, version))
      && OnChain(SnapOf(peer), end.key, version)
      && forall id :: id in ChainOf(peer.disk, version) ==> id in peer.disk
  {
    HistoryIsGood(history, actions, i);
    ProtectedEnd(history[i], consumer, l, end, version);
    ChainMembers(history[i].sites[end.store].disk, ChainOf(history[i].sites[end.store].disk, version));
  }

  lemma ProtectedEnd(sys: System, consumer: StoreId, l: LinkId, end: Endpoint, version: Id)
    requires Good(sys) && consumer in sys.sites && l in sys.sites[consumer].state.links
    requires var terms := sys.sites[consumer].state.links[l].terms;
      (end == terms.source && version == terms.sourceVersion) || (end == terms.target && version == terms.targetVersion)
    requires end.Peer? && end.store in sys.sites
    ensures Protected(sys.sites[end.store], CredFor(consumer, sys.sites[consumer].state.links[l], end, version))
    ensures OnChain(SnapOf(sys.sites[end.store]), end.key, version)
  {
    GoodIsInOrder(sys);
    var link := sys.sites[consumer].state.links[l];
    var cred := CredFor(consumer, link, end, version);
    assert LinksProtected(sys, consumer) && LinkProtected(sys, consumer, link);
    assert EndProtected(sys, consumer, link, end, version);
    var id :| Selects(sys.sites[end.store], id, cred);
    assert SiteOk(sys.sites[end.store]) && CredentialsOk(SnapOf(sys.sites[end.store]), sys.sites[end.store].files);
  }

  // ---- Publication ----

  ghost predicate SwapsBase(sys: System, next: System, sid: nat) {
    && IsBusy(sys, sid, Recorded)
    && var s := sys.sessions[sid];
    && s.at in next.sites
    && sys.sites[s.at].state == s.before.state && Within(s.before.disk, sys.sites[s.at].disk)
    && next.sites[s.at].state == s.after.state && Within(s.after.disk, next.sites[s.at].disk)
  }

  ghost predicate SwapsLinkBase(sys: System, next: System, sid: nat) {
    && IsCrossing(sys, sid, Written)
    && var s := sys.sessions[sid];
    && s.consumer in next.sites && sys.sites[s.consumer].state == s.before.state
    && SnapOf(next.sites[s.consumer]) == s.after
  }

  /** The state that a session reads when it takes the lock is the state that its publication replaces. */
  lemma PublicationReplacesItsBase(history: seq<System>, actions: seq<Action>, i: nat, sid: nat)
    requires IsHistory(history, actions) && i < |actions|
    ensures actions[i] == Swap(sid) ==> SwapsBase(history[i], history[i + 1], sid)
    ensures actions[i] == SwapLink(sid) ==> SwapsLinkBase(history[i], history[i + 1], sid)
  {
    assert ActAt(history, actions, i);
    if actions[i] == Swap(sid) || actions[i] == SwapLink(sid) {
      HistoryIsGood(history, actions, i);
      SessionOfGood(history[i], sid);
      if actions[i] == Swap(sid) {
        var s := history[i].sessions[sid];
        MergedDisk(s.before.disk, s.after.disk);
      }
    }
  }

  lemma SessionOfGood(sys: System, sid: nat)
    requires Good(sys) && sid in sys.sessions
    ensures SessionOk(sys, sys.sessions[sid])
  {
    GoodIsInOrder(sys);
  }

  /**
   * Wherever an operation on one store is cut off, the state file is the old or the new one, and the
   * records that it needs are there.
   */
  lemma OldOrNew(history: seq<System>, actions: seq<Action>, i: nat, sid: nat)
    requires IsHistory(history, actions) && i < |history| && sid in history[i].sessions
    requires history[i].sessions[sid].Busy?
    ensures var s := history[i].sessions[sid];
      && s.at in history[i].sites
      && OldOrNewAt(history[i].sites[s.at], s.before, s.after)
  {
    HistoryIsGood(history, actions, i);
    SessionOfGood(history[i], sid);
    var s := history[i].sessions[sid];
    MergedDisk(s.before.disk, s.after.disk);
  }

  /** The state file is the one before or the one after, and the records of that state are there. */
  predicate OldOrNewAt(site: Site, before: Snap, after: Snap) {
    || (site.state == before.state && Within(before.disk, site.disk))
    || (site.state == after.state && Within(after.disk, site.disk))
  }

  /**
   * The same for an external link, on both sides: the consumer has its old or its new state, the peer
   * has its old state or that state with the credential selected, and the consumer has the new state
   * only once the peer has selected the credential.
   */
  lemma OldOrNewAcross(history: seq<System>, actions: seq<Action>, i: nat, sid: nat)
    requires IsHistory(history, actions) && i < |history| && sid in history[i].sessions
    requires history[i].sessions[sid].Crossing?
    ensures var s := history[i].sessions[sid];
      && s.consumer in history[i].sites && s.peer in history[i].sites
      && var here, there := history[i].sites[s.consumer], history[i].sites[s.peer];
      && OldOrNewAt(here, s.before, s.after)
      && (there.state == s.there
        || (there.state == AlsoSelected(s.there, s.credential) && Selects(there, s.credential, s.cred)))
      && (here.state == s.after.state ==> Selects(there, s.credential, s.cred))
  {
    HistoryIsGood(history, actions, i);
    SessionOfGood(history[i], sid);
  }

  /** A gc that finds the publication it has read still current has read the current credentials. */
  lemma CurrentPublicationCurrentCredentials(history: seq<System>, actions: seq<Action>, i: nat, sid: nat)
    requires IsHistory(history, actions) && i < |history| && sid in history[i].sessions
    requires history[i].sessions[sid].Watching?
    ensures var w := history[i].sessions[sid];
      w.at in history[i].sites &&
      (w.publication == history[i].sites[w.at].state.publication ==> w.seen == Selections(history[i].sites[w.at]))
  {
    HistoryIsGood(history, actions, i);
    SessionOfGood(history[i], sid);
  }

  /** Only a gc has credentials to give up. */
  predicate GivesUp(s: Session) {
    s.Busy? && s.orphans != {}
  }

  predicate StartedAsGc(actions: seq<Action>, n: nat, sid: nat, s: Session)
    requires n <= |actions| && s.Busy?
  {
    exists j :: 0 <= j < n && actions[j].StartGc? && actions[j].sid == sid && actions[j].orphans == s.orphans
      && actions[j].others == s.others
  }

  lemma {:induction false} OnlyGcGivesUp(history: seq<System>, actions: seq<Action>, i: nat, sid: nat)
    requires IsHistory(history, actions) && i < |history| && sid in history[i].sessions
    requires GivesUp(history[i].sessions[sid])
    ensures StartedAsGc(actions, i, sid, history[i].sessions[sid])
    decreases i
  {
    if i > 0 {
      assert ActAt(history, actions, i - 1);
      SessionsComeFrom(history[i - 1], actions[i - 1], history[i], sid);
      if SameGc(history[i - 1], history[i], sid) {
        OnlyGcGivesUp(history, actions, i - 1, sid);
        var j :| 0 <= j < i - 1 && actions[j].StartGc? && actions[j].sid == sid
          && actions[j].orphans == history[i].sessions[sid].orphans
            && actions[j].others == history[i].sessions[sid].others;
      }
    }
  }

  predicate SameGc(sys: System, next: System, sid: nat)
    requires sid in next.sessions && next.sessions[sid].Busy?
  {
    && sid in sys.sessions && sys.sessions[sid].Busy?
    && sys.sessions[sid].orphans == next.sessions[sid].orphans && sys.sessions[sid].others == next.sessions[sid].others
  }

  /** A session that gives credentials up either did so already or has just been started as a gc. */
  lemma SessionsComeFrom(sys: System, a: Action, next: System, sid: nat)
    requires Act(sys, a, next) && sid in next.sessions && GivesUp(next.sessions[sid])
    ensures SameGc(sys, next, sid)
      || (a.StartGc? && a.sid == sid && a.orphans == next.sessions[sid].orphans
        && a.others == next.sessions[sid].others)
  {
  }

  /**
   * A credential is given up only by a gc, and only when that gc has its consumer locked and the
   * consumer no longer retains its record.
   */
  lemma CredentialGoesOnlyWithItsRecord(
    history: seq<System>, actions: seq<Action>, i: nat, p: StoreId, id: Id, cred: Credential)
    requires IsHistory(history, actions) && i < |actions| && p in history[i].sites
    requires Selects(history[i].sites[p], id, cred)
    ensures p in history[i + 1].sites
    ensures !Selects(history[i + 1].sites[p], id, cred) ==>
      && actions[i].Swap? && cred.consumer in history[i].sites
        && cred.record !in history[i].sites[cred.consumer].state.retained
      && var sid := actions[i].sid;
      && sid in history[i].sessions && GivesUp(history[i].sessions[sid])
        && StartedAsGc(actions, i, sid, history[i].sessions[sid])
      && id in history[i].sessions[sid].orphans && cred.consumer in history[i].sessions[sid].others
  {
    assert ActAt(history, actions, i);
    HistoryIsGood(history, actions, i);
    CredentialStep(history[i], actions[i], history[i + 1], p, id, cred);
    if !Selects(history[i + 1].sites[p], id, cred) {
      OnlyGcGivesUp(history, actions, i, actions[i].sid);
    }
  }

  lemma CredentialStep(sys: System, a: Action, next: System, p: StoreId, id: Id, cred: Credential)
    requires Good(sys) && Act(sys, a, next) && p in sys.sites && Selects(sys.sites[p], id, cred)
    ensures p in next.sites
    ensures !Selects(next.sites[p], id, cred) ==>
      && a.Swap? && cred.consumer in sys.sites && cred.record !in sys.sites[cred.consumer].state.retained
      && a.sid in sys.sessions && sys.sessions[a.sid].Busy?
      && id in sys.sessions[a.sid].orphans && cred.consumer in sys.sessions[a.sid].others
  {
    match a {
      case Swap(sid) => SwapUnselects(sys, sid);
      case DeleteCredential(sid, gone) => OrphansUnselected(sys, sid, gone);
      case FileCredential(sid) => FiledIsNew(sys, sid);
      case SwapLink(sid) => LinkKeepsInbound(sys, sid);
      case _ =>
    }
  }

  lemma SwapUnselects(sys: System, sid: nat)
    requires Good(sys) && IsBusy(sys, sid, Recorded)
    ensures var s := sys.sessions[sid];
      var site := sys.sites[s.at];
      forall id :: id in site.state.inbound && id in site.files && id !in s.after.state.inbound ==>
        id in s.orphans && Orphaned(sys, s.others, site.files[id])
  {
    SessionOfGood(sys, sid);
  }

  lemma OrphansUnselected(sys: System, sid: nat, gone: Id)
    requires Good(sys) && IsBusy(sys, sid, Published) && gone in sys.sessions[sid].orphans
    ensures gone !in sys.sites[sys.sessions[sid].at].state.inbound
  {
    SessionOfGood(sys, sid);
  }

  lemma FiledIsNew(sys: System, sid: nat)
    requires Good(sys) && IsCrossing(sys, sid, Checked)
    ensures sys.sessions[sid].credential !in sys.sites[sys.sessions[sid].peer].files
  {
    SessionOfGood(sys, sid);
  }

  lemma LinkKeepsInbound(sys: System, sid: nat)
    requires Good(sys) && IsCrossing(sys, sid, Written)
    ensures sys.sessions[sid].after.state.inbound == sys.sites[sys.sessions[sid].consumer].state.inbound
  {
    SessionOfGood(sys, sid);
  }
}
