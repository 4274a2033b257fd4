/** The open blocks that the state keeps, against the replay of each chain. */
module BlockLaws {
  import opened Records
  import opened Chains
  import opened Blocks
  import opened StoreState
  import opened Pipeline
  import opened PipelineLaws
  import opened Resets

  /** The state's open blocks of every object are what replaying its chain leaves open. */
  ghost predicate BlocksFollow(disk: Disk, s: State) {
    && (forall k :: k in s.tips ==> BlocksAt(disk, s, k))
    && (forall k :: k in s.openBlocks ==> k in s.tips)
  }

  ghost predicate BlocksAt(disk: Disk, s: State, k: Key)
    requires k in s.tips
  {
    HasChain(disk, s.tips[k]) && OpenOf(s, k) == OpenAfter(disk, ChainOf(disk, s.tips[k]))
  }

  lemma {:induction false} OpenOnOtherDisk(disk: Disk, other: Disk, c: seq<Id>)
    requires IsChain(disk, c) && forall id :: id in disk ==> id in other && other[id] == disk[id]
    ensures IsChain(other, c) && OpenAfter(other, c) == OpenAfter(disk, c)
    decreases |c|
  {
    if |c| > 1 {
      OpenOnOtherDisk(disk, other, c[1..]);
    }
  }

  /** Replaying one commit more. */
  lemma OpenExtends(disk: Disk, cid: Id, r: Record)
    requires Fresh(disk, cid) && NO_COMMIT !in disk && (r.previous == NO_COMMIT || HasChain(disk, r.previous))
    ensures var after := disk[cid := r];
      && HasChain(after, cid)
      && OpenAfter(after, ChainOf(after, cid)) ==
           AfterMarker(if r.previous == NO_COMMIT then [] else OpenAfter(disk, ChainOf(disk, r.previous)), r.kind, cid)
  {
    var after := disk[cid := r];
    ChainAppends(disk, cid, r);
    if r.previous != NO_COMMIT {
      var below := ChainOf(disk, r.previous);
      assert ([cid] + below)[1..] == below;
      OpenOnOtherDisk(disk, after, below);
    }
  }

  /** A commit that moves the open blocks of its own object by its own kind keeps them following. */
  lemma CommitKeepsBlocks(disk: Disk, s: State, t: State, k: Key, cid: Id, r: Record)
    requires BlocksFollow(disk, s) && Fresh(disk, cid) && NO_COMMIT !in disk
    requires r.previous == TipOf(s, k) && t.tips == s.tips[k := cid]
    requires t.openBlocks == BlocksAfter(s.openBlocks, k, r.kind, cid)
    ensures BlocksFollow(disk[cid := r], t)
  {
    var after := disk[cid := r];
    OpenExtends(disk, cid, r);
    OpenMoves(s, t, k, r.kind, cid);
    forall j | j in t.tips
      ensures BlocksAt(after, t, j)
    {
      if j == k {
        assert k in s.tips ==> BlocksAt(disk, s, k);
        assert s.tips.Keys !! {k} ==> OpenOf(s, k) == [];
      } else {
        assert BlocksAt(disk, s, j);
        ChainGrows(disk, after, s.tips[j]);
        OpenOnOtherDisk(disk, after, ChainOf(disk, s.tips[j]));
      }
    }
  }

  lemma OpenMoves(s: State, t: State, k: Key, kind: CommitKind, cid: Id)
    requires t.openBlocks == BlocksAfter(s.openBlocks, k, kind, cid)
    ensures OpenOf(t, k) == AfterMarker(OpenOf(s, k), kind, cid)
    ensures forall j :: j != k ==> OpenOf(t, j) == OpenOf(s, j) && (j in t.openBlocks <==> j in s.openBlocks)
  {
  }

  lemma AppendKeepsBlocks(
    snap: Snap, mode: Mode, loc: Locator, kind: CommitKind, content: Option<Id>, payload: Payload, cid: Id, after: Snap)
    requires Sound(snap) && Fresh(snap.disk, cid) && Append(snap, mode, loc, kind, content, payload, cid) == Ok(after)
    requires BlocksFollow(snap.disk, snap.state)
    ensures BlocksFollow(after.disk, after.state)
  {
    SoundMeans(snap);
    var key := PublishedKey(snap.state, loc, cid);
    if IsFirst(snap.state, loc) {
      NewKey(snap, loc, cid);
    }
    DraftOf(snap, mode, loc, kind, content, payload);
    CommitKeepsBlocks(snap.disk, snap.state, after.state, key, cid,
      Draft(snap.state, mode, loc, kind, content, payload));
  }

  /** The other commits carry no marker and touch no blocks. */
  lemma PlainCommitKeepsBlocks(snap: Snap, after: Snap, k: Key, cid: Id, r: Record)
    requires Sound(snap) && Fresh(snap.disk, cid) && BlocksFollow(snap.disk, snap.state)
    requires after.disk == snap.disk[cid := r] && r.previous == TipOf(snap.state, k) && !IsMarker(r.kind)
    requires after.state.tips == snap.state.tips[k := cid] && after.state.openBlocks == snap.state.openBlocks
    ensures BlocksFollow(after.disk, after.state)
  {
    SoundMeans(snap);
    CommitKeepsBlocks(snap.disk, snap.state, after.state, k, cid, r);
  }

  /** Resetting to just before a BEGIN, on a chain that ends with it, leaves that block open in the state. */
  lemma ResetOverBeginLeavesBlockOpen(disk: Disk, s: State, k: Key, begin: Id)
    requires k in s.tips && s.tips[k] == begin && BlocksAt(disk, s, k)
    requires disk[begin].kind == AtomicBegin && disk[begin].previous != NO_COMMIT
    ensures var landing := Landing(disk[begin], begin);
      var pre := Moved(disk, s, map[k := landing]);
      && HasChain(disk, landing) && k in pre.tips && pre.tips[k] == landing
      && !BlocksAt(disk, pre, k) && OpenOf(pre, k) == OpenAfter(disk, ChainOf(disk, landing)) + [begin]
  {
    PreviousHasChain(disk, begin);
    var c := ChainOf(disk, begin);
    assert c[1..] == ChainOf(disk, disk[begin].previous);
  }

  /**
   * A commit inside a block is a member of it for good: an observed range commit of the block that
   * its file had open, any other commit of the innermost block of its own object. So no reset can
   * land on it.
   */
  lemma CommitJoinsOpenBlock(
    snap: Snap, mode: Mode, key: Key, kind: CommitKind, content: Option<Id>, payload: Payload, cid: Id, after: Snap)
    requires Sound(snap) && Fresh(snap.disk, cid) && key in snap.state.tips && BlocksFollow(snap.disk, snap.state)
    requires Append(snap, mode, Named(key), kind, content, payload, cid) == Ok(after) && !IsMarker(kind)
    requires payload.inBlock.None?
    ensures HasChain(after.disk, cid)
    ensures var parents := if mode == Source
      && key.kind == Range then ParentBlock(snap.state, Named(key), payload.mount) else None;
      var own := OpenOf(snap.state, key);
      MembershipOf(after.disk, cid) ==
        if parents.Some? then Some(Membership(ParentFile, parents.value))
        else if own != [] then Some(Membership(SameChain, own[|own| - 1]))
        else None
  {
    SoundMeans(snap);
    LaterAdvances(snap, mode, Named(key), kind, content, payload, cid, after);
    var r := Draft(snap.state, mode, Named(key), kind, content, payload);
    DraftOf(snap, mode, Named(key), kind, content, payload);
    assert BlocksAt(snap.disk, snap.state, key);
    OpenExtends(snap.disk, cid, r);
  }
}
