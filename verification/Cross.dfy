/** The peer's side of an external link: storing and reading back protection credentials. */
module Cross {
  import opened Records
  import opened Chains
  import opened StoreState
  import opened Pipeline
  import opened PipelineLaws
  import opened Federation
  import opened FederationLaws
  import opened Runs
  import opened Store
  import LinkStrata

  datatype CrossError = NotRegistered | NotARange | BadTarget | AlreadyThere | Unreadable

  /** A credential can protect a version on the chain of a range. */
  ghost predicate Protectable(site: Site, cred: Credential) {
    cred.target.kind == Range && OnChain(SnapOf(site), cred.target, cred.version)
  }

  /** What each refusal of a credential means. */
  ghost predicate StoreRefused(
    site: Site, cred: Credential, idOf: Credential -> Id, registered: bool, error: CrossError) {
    match error
    case NotRegistered => !registered
    case NotARange => cred.target.kind != Range
    case BadTarget => !OnChain(SnapOf(site), cred.target, cred.version)
    case AlreadyThere => idOf(cred) in site.files
    case Unreadable => false
  }

  class PeerStore {
    var disk: Disk
    var state: State
    var files: map<Id, Credential>

    constructor (site: Site)
      ensures Contents() == site
    {
      disk, state, files := site.disk, site.state, site.files;
    }

    function Contents(): Site
      reads this
    {
      Site(disk, state, files)
    }

    /** resolve_version_on_chain, for a full id. */
    method ResolveOnChain(target: Key, version: Id) returns (ok: bool)
      requires Backed(SnapOf(Contents()))
      ensures ok <==> OnChain(SnapOf(Contents()), target, version)
    {
      BackedMeans(SnapOf(Contents()));
      if version !in state.retained {
        return false;
      }
      var root := ChainRoot(disk, version);
      ok := root == Ok(target.root);
    }

    /**
     * persist_inbound: the file first, then the state. idOf is the content hash that names the
     * file; registered says whether the consumer's registration is the selected one.
     */
    method PersistInbound(cred: Credential, idOf: Credential -> Id, registered: bool)
      returns (r: Result<Id, CrossError>)
      requires Backed(SnapOf(Contents()))
      modifies this
      ensures r.Ok? <==> registered && Protectable(old(Contents()), cred) && idOf(cred) !in old(files)
      ensures r.Ok? ==> r.value == idOf(cred)
      ensures r.Ok? ==>
        Contents() == AlsoSelecting(old(Contents()).(files := old(files)[idOf(cred) := cred]), idOf(cred))
      ensures r.Err? ==> Contents() == old(Contents()) && StoreRefused(old(Contents()), cred, idOf, registered, r.error)
    {
      if !registered {
        return Err(NotRegistered);
      }
      if cred.target.kind != Range {
        return Err(NotARange);
      }
      var ok := ResolveOnChain(cred.target, cred.version);
      if !ok {
        return Err(BadTarget);
      }
      var id := idOf(cred);
      if id in files {
        return Err(AlreadyThere);
      }
      files := files[id := cred];
      state := state.(publication := state.publication + 1, inbound := state.inbound + {id});
      r := Ok(id);
    }

    /** read_inbound: the file must carry its own content hash and name a version on its range's chain. */
    method ReadInbound(id: Id, idOf: Credential -> Id) returns (r: Result<Credential, CrossError>)
      requires Backed(SnapOf(Contents()))
      ensures r.Ok? <==> id in files && idOf(files[id]) == id && Protectable(Contents(), files[id])
      ensures r.Ok? ==> r.value == files[id]
    {
      if id !in files || idOf(files[id]) != id || files[id].target.kind != Range {
        return Err(Unreadable);
      }
      var ok := ResolveOnChain(files[id].target, files[id].version);
      r := if ok then Ok(files[id]) else Err(Unreadable);
    }
  }

  datatype Direction = PeerToLocal | LocalToPeer

  datatype LinkError = NoLocalRange | BadLocalVersion | NoPeerRange | BadPeerVersion | Protection(error: CrossError)

  /** plan_xlink: which end is which. */
  function TermsOf(
    linkId: LinkId, here: Key, hereVersion: Id, peerId: StoreId, there: Key, thereVersion: Id,
    direction: Direction): Terms {
    match direction
    case PeerToLocal => Terms(linkId, Peer(peerId, there), Local(here), thereVersion, hereVersion)
    case LocalToPeer => Terms(linkId, Local(here), Peer(peerId, there), hereVersion, thereVersion)
  }

  /** What both ends of an external link must be. */
  ghost predicate EndsOk(here: Snap, there: Snap, local: Key, localVersion: Id, remote: Key, remoteVersion: Id) {
    && local.kind == Range && local in here.state.tips && OnChain(here, local, localVersion)
    && remote.kind == Range && remote in there.state.tips && OnChain(there, remote, remoteVersion)
  }

  /**
   * Both stores once an external link is made: the peer selects a credential that covers the link that
   * the consumer now has.
   */
  ghost predicate CrossLinked(
    here: Snap, there: Site, hereAfter: Snap, thereAfter: Site, consumerId: StoreId, peerId: StoreId, node: Key,
    terms: Terms,
    record: Id, cred: Credential, id: Id) {
    && hereAfter == WithLink(here, node, terms, record) && PeerTerms(here, terms)
    && Covers(cred, consumerId, peerId, terms, record)
    && thereAfter == AlsoSelecting(there.(files := there.files[id := cred]), id)
  }

  /**
   * commit_external_link_protected, with both stores locked and their identities checked:
   * the commit is planned, the peer stores a credential for exactly that commit, and only
   * then is the commit published. From a local range to a peer the local end is the source, and the other way
   * round the target. It fails without changing either store.
   */
  method LinkToPeer(
    store: LockedStore, peer: PeerStore, consumerId: StoreId, peerId: StoreId, node: Key, local: Key, localVersion: Id,
    remote: Key, remoteVersion: Id, linkId: LinkId, direction: Direction, record: Id, idOf: Credential -> Id,
    registered: bool)
    returns (r: Result<Id, LinkError>)
    requires Sound(store.Now()) && Backed(SnapOf(peer.Contents())) && Fresh(store.disk, record)
    modifies store, peer
    ensures r.Ok? <==>
      registered && idOf(Credential(consumerId, record, linkId, remote, remoteVersion)) !in old(peer.files)
      && EndsOk(old(store.Now()), SnapOf(old(peer.Contents())), local, localVersion, remote, remoteVersion)
    ensures r.Ok? ==>
      CrossLinked(old(store.Now()), old(peer.Contents()), store.Now(), peer.Contents(), consumerId, peerId, node,
      TermsOf(linkId, local, localVersion, peerId, remote, remoteVersion, direction), record,
      Credential(consumerId, record, linkId, remote, remoteVersion), r.value)
    ensures r.Ok? ==>
      && peer.files == old(peer.files)[r.value := Credential(consumerId, record, linkId, remote, remoteVersion)]
      && peer.state.inbound == old(peer.state).inbound + {r.value}
      && linkId in store.state.links && store.state.links[linkId].createdBy == record
    ensures r.Ok? && direction == LocalToPeer ==>
      var terms := store.state.links[linkId].terms;
      && terms.source == Local(local) && terms.sourceVersion == localVersion
      && terms.target == Peer(peerId, remote) && terms.targetVersion == remoteVersion
    ensures r.Ok? && direction == PeerToLocal ==>
      var terms := store.state.links[linkId].terms;
      && terms.source == Peer(peerId, remote) && terms.sourceVersion == remoteVersion
      && terms.target == Local(local) && terms.targetVersion == localVersion
    ensures r.Ok? ==> (linkId in Direct(store.state.links, local) <==> direction == LocalToPeer)
    ensures r.Err? ==> store.Now() == old(store.Now()) && peer.Contents() == old(peer.Contents())
    ensures r.Err? ==>
      match r.error
      case Protection(e) =>
        StoreRefused(old(peer.Contents()), Credential(consumerId, record, linkId, remote, remoteVersion), idOf,
          registered, e)
      case NoLocalRange => local.kind != Range || local !in old(store.state).tips
      case BadLocalVersion => !OnChain(old(store.Now()), local, localVersion)
      case NoPeerRange => remote.kind != Range || remote !in old(peer.state).tips
      case BadPeerVersion => !OnChain(SnapOf(old(peer.Contents())), remote, remoteVersion)
  {
    var bad := CheckEnds(store, peer, local, localVersion, remote, remoteVersion);
    if bad.Some? {
      return Err(bad.value);
    }
    var terms := TermsOf(linkId, local, localVersion, peerId, remote, remoteVersion, direction);
    var cred := Credential(consumerId, record, linkId, remote, remoteVersion);
    TermsFit(store.Now(), SnapOf(peer.Contents()), consumerId, peerId, local, localVersion, remote, remoteVersion,
      linkId, direction, record);
    var stored := peer.PersistInbound(cred, idOf, registered);
    if stored.Err? {
      return Err(Protection(stored.error));
    }
    store.PublishLink(node, terms, record);
    r := Ok(stored.value);
  }

  method CheckEnds(store: LockedStore, peer: PeerStore, local: Key, localVersion: Id, remote: Key, remoteVersion: Id)
    returns (bad: Option<LinkError>)
    requires Sound(store.Now()) && Backed(SnapOf(peer.Contents()))
    ensures bad.None? <==> EndsOk(store.Now(), SnapOf(peer.Contents()), local, localVersion, remote, remoteVersion)
    ensures bad.Some? ==>
      match bad.value
      case NoLocalRange => local.kind != Range || local !in store.state.tips
      case BadLocalVersion => !OnChain(store.Now(), local, localVersion)
      case NoPeerRange => remote.kind != Range || remote !in peer.state.tips
      case BadPeerVersion => !OnChain(SnapOf(peer.Contents()), remote, remoteVersion)
      case Protection(_) => false
  {
    if local.kind != Range || local !in store.state.tips {
      return Some(NoLocalRange);
    }
    var ok := store.VersionOnChain(local, localVersion);
    if !ok {
      return Some(BadLocalVersion);
    }
    if remote.kind != Range || remote !in peer.state.tips {
      return Some(NoPeerRange);
    }
    ok := peer.ResolveOnChain(remote, remoteVersion);
    if !ok {
      return Some(BadPeerVersion);
    }
    bad := None;
  }

  lemma TermsFit(
    here: Snap, there: Snap, consumerId: StoreId, peerId: StoreId, local: Key, localVersion: Id, remote: Key,
    remoteVersion: Id,
    linkId: LinkId, direction: Direction, record: Id)
    requires EndsOk(here, there, local, localVersion, remote, remoteVersion)
    ensures var terms := TermsOf(linkId, local, localVersion, peerId, remote, remoteVersion, direction);
      PeerTerms(here, terms)
        && Covers(Credential(consumerId, record, linkId, remote, remoteVersion), consumerId, peerId, terms, record)
  {
  }

  /** d is a link from the local range to the peer range. */
  predicate LeadsTo(links: map<LinkId, Link>, d: LinkId, local: Key, peerId: StoreId, remote: Key) {
    d in links && links[d].terms.source == Local(local) && links[d].terms.target == Peer(peerId, remote)
  }

  lemma ReachedByOthers(
    was: map<LinkId, Link>, now: map<LinkId, Link>, linkId: LinkId, local: Key, peerId: StoreId, remote: Key)
    requires linkId in now && now == was[linkId := now[linkId]]
    requires now[linkId].terms.source == Peer(peerId, remote)
    ensures ReachedFrom(now, local, linkId) <==> exists d :: LeadsTo(was, d, local, peerId, remote) && d != linkId
  {
    if d :| d in now && now[d].terms.source == Local(local) && now[d].terms.target == now[linkId].terms.source {
      assert LeadsTo(was, d, local, peerId, remote);
    }
    if d :| LeadsTo(was, d, local, peerId, remote) && d != linkId {
      assert d in now && now[d].terms.source == Local(local);
    }
  }

  lemma CommitObliges(
    a: Snap, local: Key, kind: CommitKind, content: Option<Id>, payload: Payload, cid: Id, b: Snap, linkId: LinkId)
    requires Append(a, Source, Named(local), kind, content, payload, cid) == Ok(b) && local.kind == Range
    requires linkId in a.state.links && cid !in PendingOf(a.state, linkId)
    ensures cid in PendingOf(b.state, linkId) <==>
      a.state.links[linkId].terms.source == Local(local) || ReachedFrom(a.state.links, local, linkId)
  {
    SourceCommitObliges(a, Source, Named(local), kind, content, payload, cid, b, linkId, cid);
    DownstreamMeans(a.state.links, local, linkId);
  }

  /**
   * A source commit on the local range right after the link is made becomes a pending change of it exactly
   * when the range is the link's source, or another link already led from the range to the same peer range.
   */
  method LinkThenCommit(
    store: LockedStore, peer: PeerStore, consumerId: StoreId, peerId: StoreId, node: Key, local: Key, localVersion: Id,
    remote: Key, remoteVersion: Id, linkId: LinkId, direction: Direction, record: Id, idOf: Credential -> Id,
    registered: bool, kind: CommitKind, content: Option<Id>, payload: Payload, cid: Id)
    returns (r: Result<Id, LinkError>, done: Result<Id, PipelineError>)
    requires Sound(store.Now()) && Backed(SnapOf(peer.Contents())) && Fresh(store.disk, record)
    requires Fresh(store.disk, cid) && cid != record && cid !in PendingOf(store.state, linkId)
    modifies store, peer
    ensures r.Ok? && done.Ok? && direction == LocalToPeer ==> cid in PendingOf(store.state, linkId)
    ensures r.Ok? && done.Ok? && direction == PeerToLocal ==>
      (cid in PendingOf(store.state, linkId) <==>
        exists d :: LeadsTo(old(store.state).links, d, local, peerId, remote) && d != linkId)
  {
    MountsAreOnce(store.Now());
    ghost var was := store.state.links;
    r := LinkToPeer(store, peer, consumerId, peerId, node, local, localVersion, remote, remoteVersion, linkId,
      direction, record, idOf, registered);
    done := Err(BadEndpoint);
    if r.Ok? {
      if direction == PeerToLocal {
        ReachedByOthers(was, store.state.links, linkId, local, peerId, remote);
      }
      done := CommitOnLocal(store, local, kind, content, payload, cid, linkId);
    }
  }

  /** A source commit on a range, and what it does to one link. */
  method CommitOnLocal(
    store: LockedStore, local: Key, kind: CommitKind, content: Option<Id>, payload: Payload, cid: Id, linkId: LinkId)
    returns (done: Result<Id, PipelineError>)
    requires MountedOnce(store.state) && Fresh(store.disk, cid) && local.kind == Range
    requires linkId in store.state.links && cid !in PendingOf(store.state, linkId)
    modifies store
    ensures done.Ok? ==>
      (cid in PendingOf(store.state, linkId) <==>
        old(store.state).links[linkId].terms.source == Local(local)
        || ReachedFrom(old(store.state).links, local, linkId))
  {
    ghost var was := store.Now();
    done := store.CommitTo(Source, Named(local), kind, content, payload, cid);
    if done.Ok? {
      CommitObliges(was, local, kind, content, payload, cid, store.Now(), linkId);
    }
  }

  /** Of the two ends of an external link the source is never on a higher stratum than the target. */
  lemma ExternalLinkLayers(links: seq<Link>, i: nat, local: Key, peerId: StoreId, remote: Key, hl: nat, hp: nat)
    requires i < |links|
    requires LinkStrata.IsStratum(links, Local(local), hl) && LinkStrata.IsStratum(links, Peer(peerId, remote), hp)
    ensures links[i].terms.source == Local(local) && links[i].terms.target == Peer(peerId, remote) ==>
      hl <= hp && (hl == hp <==> LinkStrata.Leads(links, Peer(peerId, remote), Local(local)))
    ensures links[i].terms.source == Peer(peerId, remote) && links[i].terms.target == Local(local) ==>
      hp <= hl && (hl == hp <==> LinkStrata.Leads(links, Local(local), Peer(peerId, remote)))
  {
    if links[i].terms.source == Local(local) && links[i].terms.target == Peer(peerId, remote) {
      LinkStrata.LinkKeepsOrRaises(links, i, hl, hp);
    }
    if links[i].terms.source == Peer(peerId, remote) && links[i].terms.target == Local(local) {
      LinkStrata.LinkKeepsOrRaises(links, i, hp, hl);
    }
  }

  /** Storing a credential keeps the peer in order. */
  lemma PersistKeepsSite(site: Site, cred: Credential, id: Id)
    requires SiteOk(site) && OnChain(SnapOf(site), cred.target, cred.version) && id !in site.files
    ensures SiteOk(AlsoSelecting(site.(files := site.files[id := cred]), id))
  {
    var filed := site.(files := site.files[id := cred]);
    assert SiteOk(filed);
    SelectingSiteOk(filed, id, cred);
  }

  /** What is stored can be read back, and storing the same credential a second time is refused. */
  method StoreTwice(peer: PeerStore, cred: Credential, idOf: Credential -> Id)
    returns (first: Result<Id, CrossError>, back: Result<Credential, CrossError>, again: Result<Id, CrossError>)
    requires SiteOk(peer.Contents())
    modifies peer
    ensures first.Ok? ==> back == Ok(cred) && again.Err?
    ensures SiteOk(peer.Contents())
  {
    ghost var was := peer.Contents();
    first := peer.PersistInbound(cred, idOf, true);
    if first.Err? {
      return first, Err(Unreadable), first;
    }
    PersistKeepsSite(was, cred, idOf(cred));
    back := peer.ReadInbound(first.value, idOf);
    again := peer.PersistInbound(cred, idOf, true);
  }
}
