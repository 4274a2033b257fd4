/** Whether the version a link was made at is still on its object's chain. */
module Liveness {
  import opened Records
  import opened Chains
  import opened StoreState
  import opened Pipeline
  import opened PipelineLaws
  import opened Resets
  import opened ResetLaws

  /** A peer endpoint always counts as alive; a local one while its pinned version is on the chain of the tip. */
  ghost predicate Alive(disk: Disk, s: State, endpoint: Endpoint, pinned: Id) {
    match endpoint
    case Peer(_, _) => true
    case Local(k) => k in s.tips && HasChain(disk, s.tips[k]) && pinned in ChainOf(disk, s.tips[k])
  }

  /**
   * endpoint_alive; limit is the program's 100000. It decides Alive on a chain within the
   * limit, and on a longer one reports every version further back than that as dead.
   */
  method EndpointAlive(disk: Disk, s: State, endpoint: Endpoint, pinned: Id, limit: nat) returns (alive: bool)
    requires NO_COMMIT !in disk
    requires endpoint.Local? && endpoint.key in s.tips ==> HasChain(disk, s.tips[endpoint.key])
    ensures endpoint.Local? && endpoint.key in s.tips && |ChainOf(disk, s.tips[endpoint.key])| > limit ==>
      (alive <==> pinned in ChainOf(disk, s.tips[endpoint.key])[..limit])
    ensures !(endpoint.Local? && endpoint.key in s.tips && |ChainOf(disk, s.tips[endpoint.key])| > limit) ==>
      (alive <==> Alive(disk, s, endpoint, pinned))
  {
    if endpoint.Peer? {
      return true;
    }
    if endpoint.key !in s.tips {
      return false;
    }
    var current, guard := s.tips[endpoint.key], 0;
    ghost var c := ChainOf(disk, current);
    while current != NO_COMMIT && guard < limit
      invariant guard <= |c| && guard <= limit && current == (if guard < |c| then c[guard] else NO_COMMIT)
      invariant pinned !in c[..guard]
      decreases limit - guard
    {
      if current == pinned {
        assert |c| > limit ==> c[..limit][guard] == pinned;
        return true;
      }
      ChainElement(disk, c, guard);
      if current !in disk {
        return false;
      }
      current := disk[current].previous;
      assert c[..guard + 1] == c[..guard] + [c[guard]];
      guard := guard + 1;
    }
    if guard < |c| {
      ChainElement(disk, c, guard);
    } else {
      assert c[..guard] == c;
    }
    alive := false;
  }

  /**
   * After a reset to an ancestor, a version of the object is alive exactly when it is the landing or an
   * ancestor of it.
   */
  lemma PinnedSurvivesIff(disk: Disk, s: State, k: Key, landing: Id, pinned: Id)
    requires k in s.tips && HasChain(disk, s.tips[k]) && landing in ChainOf(disk, s.tips[k]) && landing != NO_COMMIT
    requires Alive(disk, s, Local(k), pinned)
    ensures HasChain(disk, landing)
    ensures Alive(disk, Moved(disk, s, map[k := landing]), Local(k), pinned) <==>
      pinned !in Removed(disk, s.tips[k], landing)
    ensures Alive(disk, Moved(disk, s, map[k := landing]), Local(k), pinned) <==> pinned in ChainOf(disk, landing)
  {
    RemovedAboveAncestor(disk, s.tips[k], landing);
  }

  /**
   * After the whole reset, as the command leaves the store: a version recorded before is alive on an
   * object exactly when it is on the chain of the tip that the reset gives that object. The file or
   * object reset has the landing, a range of the file its tip in the landing's snapshot, a range that
   * the snapshot does not list no tip, and everything else the tip it had.
   */
  lemma AliveAfterResetIff(before: Snap, node: Key, landing: Id, cid: Id, mid: State, after: Snap, k: Key, pinned: Id)
    requires Sound(before) && Fresh(before.disk, cid) && pinned in before.disk
    requires landing == NO_COMMIT || NodeOf(before, landing) == Some(node)
    requires node.kind == File ==> FileResetAllowed(before, node, landing)
    requires ResetDone(before, node, landing, cid, mid, after)
    ensures var tip := TipAfterReset(before, node, landing, k);
      && (tip.Some? ==> HasChain(before.disk, tip.value))
      && (Alive(after.disk, after.state, Local(k), pinned) <==> tip.Some? && pinned in ChainOf(before.disk, tip.value))
  {
    ResetTips(before, node, landing, mid, k);
    ResetTipHasChain(before, node, landing, k);
    if landing != NO_COMMIT {
      ResetTips(before, node, landing, mid, node);
      NoEmptyId(before);
      AliveAfterMarker(before.disk, mid, node, cid, after, k, pinned);
    }
  }

  lemma NoEmptyId(snap: Snap)
    requires Sound(snap)
    ensures NO_COMMIT !in snap.disk
  {
    SoundMeans(snap);
  }

  /** The reset's own commit kills nothing and revives nothing. */
  lemma AliveAfterMarker(disk: Disk, pre: State, node: Key, cid: Id, after: Snap, k: Key, pinned: Id)
    requires NO_COMMIT !in disk && Fresh(disk, cid) && node in pre.tips && pinned in disk
    requires (k in pre.tips ==> HasChain(disk, pre.tips[k])) && (k == node ==> k in pre.tips)
    requires Append(Snap(disk, pre), Marker, Named(node), Reset, None, NO_FIELDS, cid) == Ok(after)
    ensures Alive(after.disk, after.state, Local(k), pinned) <==> Alive(disk, pre, Local(k), pinned)
  {
    MarkerForm(Snap(disk, pre), node, cid);
    if k == node {
      ChainAppends(disk, cid, after.disk[cid]);
    } else if k in pre.tips {
      ChainGrows(disk, after.disk, pre.tips[k]);
    }
  }
}
