/** Imports never move, so no reset can put two of them at one place. */
module Imports {
  import opened Records
  import opened Chains
  import opened StoreState
  import opened Pipeline
  import opened Index
  import opened PipelineLaws
  import opened Resets
  import opened ResetLaws
  import opened Gc

  /** Every commit of an import's chain has the location of the first one. */
  ghost predicate ImportStays(disk: Disk, id: Id)
    requires HasChain(disk, id)
  {
    var root := Root(ChainOf(disk, id));
    root in disk && (disk[root].kind == Import ==> LocationAt(disk, id) == disk[root].payload.path)
  }

  ghost predicate ImportsStay(disk: Disk, s: State) {
    forall id :: id in s.retained ==> HasChain(disk, id) && ImportStays(disk, id)
  }

  /** A sound store in which every import is where it was created. */
  ghost predicate Steady(snap: Snap) {
    Sound(snap) && ImportsStay(snap.disk, snap.state)
  }

  lemma StaysOnLargerDisk(small: Disk, big: Disk, id: Id)
    requires HasChain(small, id) && ImportStays(small, id) && forall i :: i in small ==> i in big && big[i] == small[i]
    ensures HasChain(big, id) && ImportStays(big, id)
  {
    ChainGrows(small, big, id);
    DescribeGrows(small, big, id);
  }

  lemma FirstStays(disk: Disk, cid: Id, r: Record)
    requires NO_COMMIT !in disk && Fresh(disk, cid) && r.previous == NO_COMMIT && KindOfRoot(r) == Some(File)
    ensures HasChain(disk[cid := r], cid) && ImportStays(disk[cid := r], cid)
  {
    DescribeFirst(disk, cid, r);
  }

  lemma NoImportRoot(disk: Disk, cid: Id, r: Record)
    requires NO_COMMIT !in disk && Fresh(disk, cid) && r.previous == NO_COMMIT && r.kind != Import
    ensures HasChain(disk[cid := r], cid) && ImportStays(disk[cid := r], cid)
  {
    DescribeFirst(disk, cid, r);
  }

  /** A commit on top of another one keeps an import in place if it leaves every location as it was. */
  lemma LaterStays(disk: Disk, cid: Id, r: Record)
    requires NO_COMMIT !in disk && Fresh(disk, cid) && HasChain(disk, r.previous) && ImportStays(disk, r.previous)
    requires Describe(disk, ChainOf(disk, r.previous)).Ok?
    requires disk[Root(ChainOf(disk, r.previous))].kind == Import ==>
      Describe(disk, ChainOf(disk, r.previous)).value.kind == File ==>
      Relocate(LocationAt(disk, r.previous), r) == LocationAt(disk, r.previous)
    ensures HasChain(disk[cid := r], cid) && ImportStays(disk[cid := r], cid)
  {
    var after := disk[cid := r];
    DescribeExtends(disk, cid, r);
    ChainAppends(disk, cid, r);
    var below := ChainOf(disk, r.previous);
    assert Root(ChainOf(after, cid)) == Root(below) by {
      assert ChainOf(after, cid) == [cid] + below;
    }
    ChainElement(disk, below, |below| - 1);
  }

  /** One commit more. */
  lemma CommitKeepsImports(disk: Disk, s: State, t: State, cid: Id, r: Record)
    requires ImportsStay(disk, s) && t.retained == s.retained + [cid] && Fresh(disk, cid)
    requires HasChain(disk[cid := r], cid) && ImportStays(disk[cid := r], cid)
    ensures ImportsStay(disk[cid := r], t)
  {
    forall id | id in t.retained
      ensures HasChain(disk[cid := r], id) && ImportStays(disk[cid := r], id)
    {
      if id != cid {
        StaysOnLargerDisk(disk, disk[cid := r], id);
      }
    }
  }

  /** A live object that advances in place. */
  lemma AdvanceKeepsImports(snap: Snap, after: Snap, k: Key, cid: Id, r: Record)
    requires Steady(snap) && Fresh(snap.disk, cid) && k in snap.state.tips && r.previous == snap.state.tips[k]
    requires after.disk == snap.disk[cid := r] && after.state.retained == snap.state.retained + [cid]
    requires k.kind == File && IsStatistics(snap.disk, k) ==>
      Relocate(LocationOf(snap.state, k), r) == LocationOf(snap.state, k)
    ensures ImportsStay(after.disk, after.state)
  {
    TipFacts(snap, k);
    LaterStays(snap.disk, cid, r);
    CommitKeepsImports(snap.disk, snap.state, after.state, cid, r);
  }

  lemma TipFacts(snap: Snap, k: Key)
    requires Steady(snap) && k in snap.state.tips
    ensures var tip := snap.state.tips[k];
      && NO_COMMIT !in snap.disk && HasChain(snap.disk, tip) && ImportStays(snap.disk, tip)
      && Describe(snap.disk, ChainOf(snap.disk, tip)).Ok?
      && Root(ChainOf(snap.disk, tip)) == k.root && Describe(snap.disk, ChainOf(snap.disk, tip)).value.kind == k.kind
      && (k.kind == File ==> LocationAt(snap.disk, tip) == LocationOf(snap.state, k))
  {
    SoundMeans(snap);
    assert TipOk(snap.disk, snap.state, k);
  }

  /** The place that a reset gives back to an import is the one it has, so no other import is there. */
  lemma ResetPlaceIsFree(snap: Snap, node: Key, landing: Id)
    requires Steady(snap) && node in snap.state.tips && node.kind == File && NodeOf(snap, landing) == Some(node)
    requires FileResetAllowed(snap, node, landing)
    ensures PlaceFree(snap, node, LocationAt(snap.disk, landing))
  {
    var at := LocationAt(snap.disk, landing);
    if at.Some? {
      if IsStatistics(snap.disk, node) {
        TipFacts(snap, node);
        assert ImportStays(snap.disk, landing);
        assert LocationOf(snap.state, node) == at;
      }
      forall k | Holds(snap, k, at.value, IsStatistics(snap.disk, node))
        ensures k == node
      {
        OneHolder(snap, node, at.value, k);
      }
    }
  }

  lemma OneHolder(snap: Snap, node: Key, path: string, k: Key)
    requires Sound(snap) && Holds(snap, k, path, IsStatistics(snap.disk, node))
    requires IsStatistics(snap.disk, node) ==> LocationOf(snap.state, node) == Some(path)
    requires !IsStatistics(snap.disk, node) ==> NoOtherContent(snap, node, Some(path))
    ensures k == node
  {
    SoundMeans(snap);
    if IsStatistics(snap.disk, node) {
      assert PlaceOf(snap.disk, snap.state, k) == PlaceOf(snap.disk, snap.state, node);
    } else {
      var h := HolderOf(snap, path, false);
      assert PlaceOf(snap.disk, snap.state, h) == PlaceOf(snap.disk, snap.state, k);
    }
  }

  lemma CollectKeepsImports(snap: Snap, held: set<Id>, keep: set<Id>, orphans: set<Id>)
    requires Steady(snap) && IsKeepSet(snap.disk, snap.state, held, keep)
    ensures ImportsStay(Collect(snap, keep, orphans).disk, Collect(snap, keep, orphans).state)
  {
    var after := Collect(snap, keep, orphans);
    if after != snap {
      KeptIdsMembers(snap.state.retained, snap.disk.Keys - keep);
      forall id | id in after.state.retained
        ensures HasChain(after.disk, id) && ImportStays(after.disk, id)
      {
        RetainedOnDisk(snap, id);
        KeptDescribes(snap.disk, keep, id, after.disk);
        KeptChain(snap.disk, keep, id, after.disk);
        var c := ChainOf(snap.disk, id);
        assert Root(c) in c;
      }
    }
  }

  /** What a file reset asks of the landing, the place aside. */
  ghost predicate SnapshotOk(snap: Snap, node: Key, landing: Id) {
    && landing != NO_COMMIT && HasChain(snap.disk, landing)
    && forall c :: c in snap.disk[landing].rangeTips ==> ChildOk(snap, node, c, snap.disk[landing].rangeTips[c])
  }

  /**
   * The check of the place looks at content whatever the file is. So an import, which never moves,
   * can go back to a commit of its own exactly when no content file is where the import is.
   */
  lemma ImportResetAllowedIff(snap: Snap, node: Key, landing: Id)
    requires Steady(snap) && node in snap.state.tips && node.kind == File && IsStatistics(snap.disk, node)
    requires NodeOf(snap, landing) == Some(node) && SnapshotOk(snap, node, landing)
    ensures FileResetAllowed(snap, node, landing) <==>
      !(node in snap.state.locations && Occupied(snap, snap.state.locations[node], false))
  {
    TipFacts(snap, node);
    assert ImportStays(snap.disk, landing);
    assert LocationAt(snap.disk, landing) == LocationOf(snap.state, node);
  }

  /** An import whose path is tracked as content too cannot be reset at all: the check looks at content. */
  lemma ImportBesideContentCannotReset(snap: Snap, node: Key, landing: Id, k: Key)
    requires Steady(snap) && node in snap.state.tips && node.kind == File && IsStatistics(snap.disk, node)
    requires NodeOf(snap, landing) == Some(node) && node in snap.state.locations
    requires Holds(snap, k, snap.state.locations[node], false)
    ensures !FileResetAllowed(snap, node, landing)
  {
    TipFacts(snap, node);
    assert ImportStays(snap.disk, landing);
    assert Holds(snap, HolderOf(snap, snap.state.locations[node], false), snap.state.locations[node], false);
  }
}
