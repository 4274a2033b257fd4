/** Which pipeline operations keep the index invariant, exactly. */
module Index {
  import opened Records
  import opened Chains
  import opened StoreState
  import opened Pipeline

  // ---- Facts of longer chains ----

  lemma {:induction false} LocationOnOtherDisk(disk: Disk, other: Disk, c: seq<Id>)
    requires IsChain(disk, c) && forall id :: id in disk ==> id in other && other[id] == disk[id]
    ensures IsChain(other, c) && LocationAfter(other, c) == LocationAfter(disk, c)
    decreases |c|
  {
    if |c| > 1 {
      LocationOnOtherDisk(disk, other, c[1..]);
    }
  }

  /** Adding records changes nothing that a chain tells. */
  lemma DescribeGrows(disk: Disk, other: Disk, tip: Id)
    requires HasChain(disk, tip) && forall id :: id in disk ==> id in other && other[id] == disk[id]
    ensures HasChain(other, tip) && Describe(other, ChainOf(other, tip)) == Describe(disk, ChainOf(disk, tip))
  {
    var c := ChainOf(disk, tip);
    ChainGrows(disk, other, tip);
    LocationOnOtherDisk(disk, other, c);
    ChainElement(disk, c, |c| - 1);
  }

  /** A new commit on a tip keeps the object's identity and moves its location as Relocate says. */
  lemma DescribeExtends(disk: Disk, cid: Id, r: Record)
    requires cid !in disk && cid != NO_COMMIT && NO_COMMIT !in disk && HasChain(disk, r.previous)
    ensures var after := disk[cid := r];
      && HasChain(after, cid)
      && match Describe(disk, ChainOf(disk, r.previous))
         case Err(e) => Describe(after, ChainOf(after, cid)) == Err(e)
         case Ok(f) =>
           (Describe(after, ChainOf(after, cid))
             == Ok(f.(location := if f.kind == File then Relocate(f.location, r) else None)))
  {
    var after := disk[cid := r];
    var below := ChainOf(disk, r.previous);
    ChainAppends(disk, cid, r);
    DescribeGrows(disk, after, r.previous);
    ChainGrows(disk, after, r.previous);
    var c := ChainOf(after, cid);
    assert c == [cid] + below && c[1..] == below && Root(c) == Root(below);
    ChainElement(disk, below, |below| - 1);
    LocationOnOtherDisk(disk, after, below);
  }

  lemma DescribeFirst(disk: Disk, cid: Id, r: Record)
    requires cid !in disk && cid != NO_COMMIT && NO_COMMIT !in disk && r.previous == NO_COMMIT
    ensures var after := disk[cid := r];
      && HasChain(after, cid) && ChainOf(after, cid) == [cid]
      && Describe(after, [cid]) == (match KindOfRoot(r)
         case None => Err(UnknownNode)
         case Some(kind) => Ok(Facts(kind, cid, if kind == File then Relocate(None, r) else None, r.payload.mount)))
  {
    ChainAppends(disk, cid, r);
    assert [cid] + [] == [cid];
  }

  // ---- One object ----

  ghost predicate SameElsewhere(s: State, t: State, k: Key) {
    && (forall j :: j != k ==> (j in t.tips <==> j in s.tips) && LocationOf(t, j) == LocationOf(s, j))
    && (forall j :: j != k && j in s.tips ==> t.tips[j] == s.tips[j])
  }

  lemma OtherTip(disk: Disk, s: State, t: State, k: Key, cid: Id, r: Record, j: Key)
    requires j in s.tips && TipOk(disk, s, j) && cid !in disk && j != k && SameElsewhere(s, t, k)
    requires forall p :: Mounted(s, p, j) ==> Mounted(t, p, j)
    ensures TipOk(disk[cid := r], t, j)
  {
    DescribeGrows(disk, disk[cid := r], s.tips[j]);
    assert t.tips[j] == s.tips[j] && LocationOf(t, j) == LocationOf(s, j);
  }

  /**
   * A live object that advances is still described by its projections exactly when its location follows
   * the new commit.
   */
  lemma AdvancedTip(disk: Disk, s: State, t: State, k: Key, cid: Id, r: Record)
    requires NO_COMMIT !in disk && cid !in disk && cid != NO_COMMIT
    requires k in s.tips && TipOk(disk, s, k) && r.previous == s.tips[k]
    requires k in t.tips && t.tips[k] == cid && t.mounts == s.mounts
    requires (k.kind != File ==> LocationOf(t, k) == LocationOf(s, k))
    ensures TipOk(disk[cid := r], t, k) <==> (k.kind == File ==> LocationOf(t, k) == Relocate(LocationOf(s, k), r))
  {
    DescribeExtends(disk, cid, r);
    assert forall p :: Mounted(t, p, k) <==> Mounted(s, p, k);
  }

  /** A first commit is described by its projections exactly when key, kind and projections come from it. */
  lemma FirstTip(disk: Disk, t: State, k: Key, cid: Id, r: Record)
    requires NO_COMMIT !in disk && cid !in disk && cid != NO_COMMIT && r.previous == NO_COMMIT
    requires k in t.tips && t.tips[k] == cid
    requires k.kind == File ==> LocationOf(t, k) == r.payload.path && r.payload.path.Some?
    requires k.kind != File ==> k !in t.locations
    requires k.kind == Range ==> r.payload.mount.Some? && Mounted(t, r.payload.mount.value, k)
    ensures TipOk(disk[cid := r], t, k) <==> k.root == cid && KindOfRoot(r) == Some(k.kind)
  {
    DescribeFirst(disk, cid, r);
  }

  lemma PlacesOnGrownDisk(disk: Disk, s: State, cid: Id, r: Record)
    requires forall k :: k in s.locations ==> k.root != cid
    ensures PlacesUnique(disk[cid := r], s) <==> PlacesUnique(disk, s)
  {
    assert forall k :: k in s.locations ==> PlaceOf(disk[cid := r], s, k) == PlaceOf(disk, s, k);
  }

  /** A live object's root is on disk. */
  lemma RootOnDisk(disk: Disk, s: State, k: Key)
    requires k in s.tips && TipOk(disk, s, k)
    ensures k.root in disk
  {
    var c := ChainOf(disk, s.tips[k]);
    ChainElement(disk, c, |c| - 1);
  }

  lemma RootsOnDisk(disk: Disk, s: State)
    requires AllTipsOk(disk, s, s.tips.Keys)
    ensures forall k :: k in s.tips ==> k.root in disk
  {
    forall k | k in s.tips
      ensures k.root in disk
    {
      RootOnDisk(disk, s, k);
    }
  }

  // ---- Whole states ----

  lemma OtherTips(disk: Disk, s: State, t: State, k: Key, cid: Id, r: Record)
    requires AllTipsOk(disk, s, s.tips.Keys) && cid !in disk && SameElsewhere(s, t, k)
    requires forall p, j :: j != k && Mounted(s, p, j) ==> Mounted(t, p, j)
    ensures AllTipsOk(disk[cid := r], t, t.tips.Keys - {k})
  {
    forall j | j in t.tips.Keys - {k}
      ensures TipOk(disk[cid := r], t, j)
    {
      OtherTip(disk, s, t, k, cid, r, j);
    }
  }

  lemma ShapeAdvances(s: State, t: State, k: Key)
    requires ShapeOk(s) && t.tips.Keys == s.tips.Keys && t.mounts == s.mounts
    requires forall j :: j in t.locations ==> j in s.tips && j.kind == File
    ensures ShapeOk(t)
  {
    forall p | p in t.mounts
      ensures MountOk(t, p)
    {
      assert MountOk(s, p) && ChildrenOf(t, p) == ChildrenOf(s, p);
    }
  }

  lemma LocationKeysAdvance(s: State, t: State, k: Key)
    requires SameElsewhere(s, t, k) && k in s.tips && (k.kind != File ==> LocationOf(t, k) == LocationOf(s, k))
    requires forall j :: j in s.locations ==> j in s.tips && j.kind == File
    ensures forall j :: j in t.locations ==> j in s.tips && j.kind == File
  {
    forall j | j in t.locations
      ensures j in s.tips && j.kind == File
    {
      assert j != k ==> LocationOf(t, j) == LocationOf(s, j);
    }
  }

  /** With every other object in order, the invariant turns on one object and on the places. */
  lemma IndexAt(disk: Disk, t: State, k: Key)
    requires k in t.tips && AllTipsOk(disk, t, t.tips.Keys - {k}) && ShapeOk(t)
    ensures IndexOk(disk, t) <==> TipOk(disk, t, k) && PlacesUnique(disk, t)
  {
    assert forall j :: j in t.tips.Keys ==> j == k || j in t.tips.Keys - {k};
  }

  /** Advancing one live object. */
  lemma AdvanceKeepsIndexIff(disk: Disk, s: State, t: State, k: Key, cid: Id, r: Record)
    requires IndexOk(disk, s) && NO_COMMIT !in disk && cid !in disk && cid != NO_COMMIT
    requires k in s.tips && r.previous == s.tips[k]
    requires t.tips == s.tips[k := cid] && t.mounts == s.mounts && SameElsewhere(s, t, k)
    requires k.kind != File ==> LocationOf(t, k) == LocationOf(s, k)
    ensures IndexOk(disk[cid := r], t) <==>
      (k.kind == File ==> LocationOf(t, k) == Relocate(LocationOf(s, k), r)) && PlacesUnique(disk, t)
  {
    AdvancedTip(disk, s, t, k, cid, r);
    LocationKeysAdvance(s, t, k);
    RootsOnDisk(disk, s);
    PlacesOnGrownDisk(disk, t, cid, r);
    OtherTips(disk, s, t, k, cid, r);
    ShapeAdvances(s, t, k);
    IndexAt(disk[cid := r], t, k);
  }

  // ---- A new object ----

  lemma MountsGrow(s: State, t: State, p: Key, k: Key)
    requires ShapeOk(s) && k !in s.tips && k.kind == Range && p in s.tips && p.kind == File
    requires t.mounts == s.mounts[p := ChildrenOf(s, p) + [k]] && t.tips.Keys == s.tips.Keys + {k}
    requires t.locations == s.locations
    ensures ShapeOk(t)
  {
    forall q | q in t.mounts
      ensures MountOk(t, q)
    {
      if q in s.mounts {
        assert MountOk(s, q);
      }
    }
    NotYetMounted(s, k);
    forall q, u, c | q in t.mounts && u in t.mounts && q != u && c in t.mounts[q]
      ensures c !in t.mounts[u]
    {
      assert c == k || c in ChildrenOf(s, q);
    }
  }

  lemma NotYetMounted(s: State, k: Key)
    requires ShapeOk(s) && k !in s.tips
    ensures forall p :: p in s.mounts ==> k !in s.mounts[p]
  {
    forall p | p in s.mounts
      ensures k !in s.mounts[p]
    {
      assert MountOk(s, p) && ChildrenOf(s, p) == s.mounts[p];
    }
  }

  lemma ShapeFirst(s: State, t: State, k: Key)
    requires ShapeOk(s) && t.tips.Keys == s.tips.Keys + {k} && t.mounts == s.mounts
    requires forall j :: j in t.locations ==> j in s.locations || (j == k && k.kind == File)
    ensures ShapeOk(t)
  {
    forall p | p in t.mounts
      ensures MountOk(t, p)
    {
      assert MountOk(s, p) && ChildrenOf(t, p) == ChildrenOf(s, p);
    }
  }

  /** A new file keeps places unique exactly when nothing of its class is at its path. */
  lemma PlaceTaken(snap: Snap, t: State, k: Key, path: string, cid: Id, r: Record)
    requires IndexOk(snap.disk, snap.state) && cid !in snap.disk && k == Key(File, cid)
    requires t.locations == snap.state.locations[k := path]
    ensures PlacesUnique(snap.disk[cid := r], t) <==> !Occupied(snap, path, r.kind == Import)
  {
    var disk, s, after := snap.disk, snap.state, snap.disk[cid := r];
    RootsOnDisk(disk, s);
    NewPlace(disk, s, t, k, path, cid, r);
    if Occupied(snap, path, r.kind == Import) {
      var j := HolderOf(snap, path, r.kind == Import);
      assert PlaceOf(after, t, j) == PlaceOf(after, t, k);
    } else if !PlacesUnique(after, t) {
      var i, j :| i in t.locations && j in t.locations && PlaceOf(after, t, i) == PlaceOf(after, t, j) && i != j;
      assert Holds(snap, if i == k then j else i, path, r.kind == Import);
    }
  }

  lemma NewPlace(disk: Disk, s: State, t: State, k: Key, path: string, cid: Id, r: Record)
    requires cid !in disk && k == Key(File, cid) && t.locations == s.locations[k := path]
    requires forall j :: j in s.locations ==> j.root in disk
    ensures k !in s.locations && PlaceOf(disk[cid := r], t, k) == (r.kind == Import, path)
    ensures forall j :: j in s.locations ==> PlaceOf(disk[cid := r], t, j) == PlaceOf(disk, s, j)
  {
  }

  /** t is s with a new object k, created by commit cid with record r. */
  ghost predicate Creates(s: State, t: State, k: Key, cid: Id, r: Record) {
    && k !in s.tips && r.previous == NO_COMMIT && t.tips == s.tips[k := cid]
    && t.locations == (if k.kind == File && r.payload.path.Some? then s.locations[k := r.payload.path.value]
      else s.locations)
    && (k.kind == File ==> r.payload.path.Some?)
    && (if k.kind == Range then MountsAt(s, t, k, r.payload.mount) else t.mounts == s.mounts)
  }

  predicate MountsAt(s: State, t: State, k: Key, mount: Option<Key>) {
    && mount.Some? && mount.value in s.tips && mount.value.kind == File
    && t.mounts == s.mounts[mount.value := ChildrenOf(s, mount.value) + [k]]
  }

  lemma CreateKeepsShape(s: State, t: State, k: Key, cid: Id, r: Record)
    requires ShapeOk(s) && Creates(s, t, k, cid, r)
    ensures ShapeOk(t)
  {
    if k.kind == Range {
      MountsGrow(s, t, r.payload.mount.value, k);
    } else {
      ShapeFirst(s, t, k);
    }
  }

  lemma CreateLeavesOthers(disk: Disk, s: State, t: State, k: Key, cid: Id, r: Record)
    requires AllTipsOk(disk, s, s.tips.Keys) && cid !in disk && Creates(s, t, k, cid, r)
    ensures AllTipsOk(disk[cid := r], t, t.tips.Keys - {k})
  {
    forall p, j | j != k && Mounted(s, p, j)
      ensures Mounted(t, p, j)
    {
    }
    OtherTips(disk, s, t, k, cid, r);
  }

  lemma CreatedTip(disk: Disk, s: State, t: State, k: Key, cid: Id, r: Record)
    requires NO_COMMIT !in disk && cid !in disk && cid != NO_COMMIT && ShapeOk(s) && Creates(s, t, k, cid, r)
    ensures TipOk(disk[cid := r], t, k) <==> k.root == cid && KindOfRoot(r) == Some(k.kind)
  {
    if k.kind == Range {
      assert Mounted(t, r.payload.mount.value, k);
    }
    FirstTip(disk, t, k, cid, r);
  }

  /** Creating one object. */
  lemma CreateKeepsIndexIff(snap: Snap, t: State, k: Key, cid: Id, r: Record)
    requires IndexOk(snap.disk, snap.state) && Creates(snap.state, t, k, cid, r)
    requires NO_COMMIT !in snap.disk && cid !in snap.disk && cid != NO_COMMIT
    ensures IndexOk(snap.disk[cid := r], t) <==>
      && k.root == cid && KindOfRoot(r) == Some(k.kind)
      && (k.kind == File ==> !Occupied(snap, r.payload.path.value, r.kind == Import))
  {
    var disk, s := snap.disk, snap.state;
    CreatedTip(disk, s, t, k, cid, r);
    CreateKeepsShape(s, t, k, cid, r);
    CreateLeavesOthers(disk, s, t, k, cid, r);
    IndexAt(disk[cid := r], t, k);
    if k.root == cid {
      CreatedPlaces(snap, t, k, cid, r);
    }
  }

  lemma CreatedPlaces(snap: Snap, t: State, k: Key, cid: Id, r: Record)
    requires IndexOk(snap.disk, snap.state) && Creates(snap.state, t, k, cid, r) && cid !in snap.disk && k.root == cid
    ensures PlacesUnique(snap.disk[cid := r], t) <==>
      (k.kind == File ==> !Occupied(snap, r.payload.path.value, r.kind == Import))
  {
    if k.kind == File {
      PlaceTaken(snap, t, k, r.payload.path.value, cid, r);
    } else {
      RootsOnDisk(snap.disk, snap.state);
      SamePlaces(snap.disk, snap.state, t, cid, r);
    }
  }

  lemma SamePlaces(disk: Disk, s: State, t: State, cid: Id, r: Record)
    requires PlacesUnique(disk, s) && t.locations == s.locations && cid !in disk
    requires forall k :: k in s.tips ==> k.root in disk
    requires forall k :: k in s.locations ==> k in s.tips
    ensures PlacesUnique(disk[cid := r], t)
  {
    assert forall k :: k in t.locations ==> PlaceOf(disk[cid := r], t, k) == PlaceOf(disk, s, k);
  }
}
