/** What a reset comes to, told by the chains of the objects before and after it. */
module ResetMeans {
  import opened Records
  import opened Chains
  import opened Blocks
  import opened StoreState
  import opened Pipeline
  import opened Index
  import opened PipelineLaws
  import opened Resets
  import opened ResetLaws

  /** The commits of an object from its tip back; none for an object that is not live. */
  ghost function ChainAt(snap: Snap, k: Key): seq<Id> {
    if k in snap.state.tips && HasChain(snap.disk, snap.state.tips[k]) then ChainOf(snap.disk, snap.state.tips[k])
    else []
  }

  /** The same without the commit that the reset adds itself. */
  ghost function LeftAt(snap: Snap, k: Key, cid: Id): seq<Id> {
    var c := ChainAt(snap, k);
    if c != [] && c[0] == cid then c[1..] else c
  }

  /** What a reset to a commit leaves of the chain below it: BEGIN and END themselves go, other commits stay. */
  ghost function Remains(disk: Disk, target: Id): seq<Id>
    requires HasChain(disk, target)
  {
    if disk[target].kind == AtomicBegin || disk[target].kind == AtomicEnd then ChainOf(disk, target)[1..]
    else ChainOf(disk, target)
  }

  /** Going from chain c to chain d keeps what a commit has done: it was not on c, or both lead through it. */
  predicate Spared(id: Id, c: seq<Id>, d: seq<Id>) {
    id in c ==> d != [] && d[0] in c && id in d
  }

  ghost predicate SparedByAll(before: Snap, after: Snap, cid: Id, id: Id) {
    forall k :: k in before.state.tips ==> Spared(id, ChainAt(before, k), LeftAt(after, k, cid))
  }

  /** The chain of the object reset: it goes altogether, or the reset's own commit sits on what remains. */
  ghost predicate NodeGoesBack(before: Snap, node: Key, target: Id, cid: Id, after: Snap)
    requires HasChain(before.disk, target)
  {
    var rest := Remains(before.disk, target);
    if rest == [] then node !in after.state.tips && after.disk == before.disk
    else
      && ChainAt(after, node) == [cid] + rest
      && cid in after.disk && after.disk[cid].kind == Reset && after.disk == before.disk[cid := after.disk[cid]]
  }

  /** Every other object: the ranges of a file reset go where the commit reached had them, or away. */
  ghost predicate OthersGoBack(before: Snap, node: Key, target: Id, after: Snap)
    requires HasChain(before.disk, target)
  {
    forall k :: k != node ==> OtherGoesBack(before, Snapshot(before, node, target), node, after, k)
  }

  ghost predicate OtherGoesBack(before: Snap, tips: Option<map<Key, Id>>, node: Key, after: Snap, k: Key) {
    if tips.Some? && k in tips.value then k in after.state.tips && after.state.tips[k] == tips.value[k]
    else if tips.Some? && Mounted(before.state, node, k) then k !in after.state.tips
    else TipIn(after.state, k) == TipIn(before.state, k)
  }

  /** The tip of an object, if it is live. */
  function TipIn(s: State, k: Key): Option<Id> {
    if k in s.tips then Some(s.tips[k]) else None
  }

  /** The range tips that a file reset goes back to. */
  ghost function Snapshot(before: Snap, node: Key, target: Id): Option<map<Key, Id>>
    requires HasChain(before.disk, target)
  {
    var rest := Remains(before.disk, target);
    if node.kind != File then None
    else if rest != [] && rest[0] in before.disk then Some(before.disk[rest[0]].rangeTips)
    else Some(map[])
  }

  /** A link stays exactly when its creator is spared, and of its pending changes exactly the spared ones. */
  ghost predicate LinksGoBack(before: Snap, after: Snap, cid: Id) {
    && (forall l :: l in after.state.links <==>
          l in before.state.links && SparedByAll(before, after, cid, before.state.links[l].createdBy))
    && (forall l :: l in after.state.links ==> after.state.links[l] == before.state.links[l])
    && (forall l :: l in after.state.pending <==> l in before.state.pending && l in after.state.links)
    && (forall l, id :: l in after.state.pending ==>
          (id in after.state.pending[l] <==> id in before.state.pending[l] && SparedByAll(before, after, cid, id)))
  }

  // ---- Proofs ----

  lemma RemovedIff(disk: Disk, tip: Id, landing: Id, id: Id)
    requires HasChain(disk, tip) && (landing == NO_COMMIT || HasChain(disk, landing)) && NO_COMMIT !in disk
    ensures id in Removed(disk, tip, landing) <==>
      !Spared(id, ChainOf(disk, tip), if landing == NO_COMMIT then [] else ChainOf(disk, landing))
  {
    ChainMembers(disk, ChainOf(disk, tip));
    if landing in ChainOf(disk, tip) {
      RemovedAboveAncestor(disk, tip, landing);
    } else {
      RemovedOffChain(disk, tip, landing);
    }
  }

  lemma RemainsAtLanding(disk: Disk, target: Id)
    requires HasChain(disk, target) && NO_COMMIT !in disk
    ensures var landing := Landing(disk[target], target);
      && (landing == NO_COMMIT <==> Remains(disk, target) == [])
      && (landing != NO_COMMIT ==> HasChain(disk, landing) && Remains(disk, target) == ChainOf(disk, landing))
  {
    var c := ChainOf(disk, target);
    if |c| > 1 {
      ChainElement(disk, c, 1);
      PreviousHasChain(disk, target);
    }
  }

  /** A reset that went through, from a store in order, to a landing on the object's own chain. */
  ghost predicate Went(before: Snap, node: Key, landing: Id, cid: Id, mid: State, after: Snap) {
    forall n: nat :: Looking(n) ==>
      && Sound(before) && Fresh(before.disk, cid) && (landing == NO_COMMIT || NodeOf(before, landing) == Some(node))
      && (node.kind == File ==> FileResetAllowed(before, node, landing))
      && ResetDone(before, node, landing, cid, mid, after)
  }

  lemma WentMeans(before: Snap, node: Key, landing: Id, cid: Id, mid: State, after: Snap)
    ensures Went(before, node, landing, cid, mid, after) <==>
      && Sound(before) && Fresh(before.disk, cid) && (landing == NO_COMMIT || NodeOf(before, landing) == Some(node))
      && (node.kind == File ==> FileResetAllowed(before, node, landing))
      && ResetDone(before, node, landing, cid, mid, after)
  {
    assert Looking(0);
  }

  /** Where each tip is before the reset's own commit. */
  lemma WentTip(before: Snap, node: Key, landing: Id, cid: Id, mid: State, after: Snap, k: Key)
    requires Went(before, node, landing, cid, mid, after)
    ensures node.kind == File ==> FileResetAllowed(before, node, landing)
    ensures NO_COMMIT !in before.disk && Fresh(before.disk, cid)
    ensures TipIn(mid, k) == TipAfterReset(before, node, landing, k)
    ensures k in mid.tips ==> HasChain(before.disk, mid.tips[k])
  {
    WentMeans(before, node, landing, cid, mid, after);
    SoundMeans(before);
    ResetTips(before, node, landing, mid, k);
    ResetTipHasChain(before, node, landing, k);
  }

  /** The records, the tips and the links after the reset's own commit. */
  lemma WentForm(before: Snap, node: Key, landing: Id, cid: Id, mid: State, after: Snap)
    requires Went(before, node, landing, cid, mid, after)
    ensures Recorded(before, node, landing, cid, mid, after)
    ensures after.state.links == mid.links && after.state.pending == mid.pending
  {
    WentMeans(before, node, landing, cid, mid, after);
    WentTip(before, node, landing, cid, mid, after, node);
    if landing != NO_COMMIT {
      MarkerForm(Snap(before.disk, mid), node, cid);
    }
  }

  /** The reset's own commit: none if the object is gone. */
  predicate Recorded(before: Snap, node: Key, landing: Id, cid: Id, mid: State, after: Snap) {
    if landing == NO_COMMIT then after == Snap(before.disk, mid) && node !in mid.tips
    else
      && node in mid.tips && mid.tips[node] == landing && after.state.tips == mid.tips[node := cid]
      && cid in after.disk && after.disk[cid].previous == landing && after.disk[cid].kind == Reset
      && after.disk == before.disk[cid := after.disk[cid]]
  }

  /** Without the reset's own commit, every object has the chain of the tip it was moved to. */
  lemma LeftIs(before: Snap, node: Key, landing: Id, cid: Id, mid: State, after: Snap, k: Key)
    requires Recorded(before, node, landing, cid, mid, after) && NO_COMMIT !in before.disk && Fresh(before.disk, cid)
    requires k in mid.tips ==> HasChain(before.disk, mid.tips[k])
    ensures LeftAt(after, k, cid) == if k in mid.tips then ChainOf(before.disk, mid.tips[k]) else []
    ensures k == node && landing != NO_COMMIT ==> ChainAt(after, k) == [cid] + ChainOf(before.disk, landing)
    ensures k != node ==> TipIn(after.state, k) == TipIn(mid, k)
  {
    if k == node && landing != NO_COMMIT {
      ChainAppends(before.disk, cid, after.disk[cid]);
      assert ([cid] + ChainOf(before.disk, landing))[1..] == ChainOf(before.disk, landing);
    } else if k in mid.tips {
      ChainGrows(before.disk, after.disk, mid.tips[k]);
      assert IsChain(before.disk, ChainOf(before.disk, mid.tips[k]));
    }
  }

  ghost function MovesOf(snap: Snap, node: Key, landing: Id): map<Key, Id>
    requires node.kind == File ==> HasChain(snap.disk, landing)
  {
    if node.kind == File then FileMoves(snap.state, node, landing, snap.disk[landing].rangeTips)
    else map[node := landing]
  }

  /** Every move goes to the new tip, and what is not moved stays. */
  lemma MovesGo(snap: Snap, node: Key, landing: Id, k: Key)
    requires node.kind == File ==> FileResetAllowed(snap, node, landing)
    ensures var tip, moves := TipAfterReset(snap, node, landing, k), MovesOf(snap, node, landing);
      if k in moves then tip == if moves[k] == NO_COMMIT then None else Some(moves[k])
      else tip == if k in snap.state.tips then Some(snap.state.tips[k]) else None
  {
    if node.kind == File && k in snap.disk[landing].rangeTips {
      ChildIsRetained(snap, node, k, snap.disk[landing].rangeTips[k]);
    }
  }

  /** What the moves withdraw is what some object does not spare. */
  lemma WithdrawnIff(before: Snap, node: Key, landing: Id, cid: Id, mid: State, after: Snap, id: Id)
    requires Went(before, node, landing, cid, mid, after) && (node.kind == File ==> HasChain(before.disk, landing))
    ensures id in Withdrawn(before.disk, before.state, MovesOf(before, node, landing))
      <==> !SparedByAll(before, after, cid, id)
  {
    var moves := MovesOf(before, node, landing);
    if id in Withdrawn(before.disk, before.state, moves) {
      var k :| k in moves && id in Removed(before.disk, TipOf(before.state, k), moves[k]);
      OneWithdrawn(before, node, landing, cid, mid, after, id, k);
    }
    if k :| k in before.state.tips && !Spared(id, ChainAt(before, k), LeftAt(after, k, cid)) {
      OneWithdrawn(before, node, landing, cid, mid, after, id, k);
    }
  }

  lemma OneWithdrawn(before: Snap, node: Key, landing: Id, cid: Id, mid: State, after: Snap, id: Id, k: Key)
    requires Went(before, node, landing, cid, mid, after)
    ensures node.kind == File ==> HasChain(before.disk, landing)
    ensures OneSpares(before, after, cid, MovesOf(before, node, landing), id, k)
  {
    OldTipHasChain(before, node, landing, cid, mid, after, k);
    WentTip(before, node, landing, cid, mid, after, k);
    WentForm(before, node, landing, cid, mid, after);
    LeftIs(before, node, landing, cid, mid, after, k);
    MovesGo(before, node, landing, k);
    SparesBy(before, after, cid, MovesOf(before, node, landing), id, k, mid);
  }

  lemma OldTipHasChain(before: Snap, node: Key, landing: Id, cid: Id, mid: State, after: Snap, k: Key)
    requires Went(before, node, landing, cid, mid, after)
    ensures k in before.state.tips ==> HasChain(before.disk, before.state.tips[k])
  {
    WentMeans(before, node, landing, cid, mid, after);
    SoundMeans(before);
  }

  ghost predicate OneSpares(before: Snap, after: Snap, cid: Id, moves: map<Key, Id>, id: Id, k: Key) {
    (k in before.state.tips && !Spared(id, ChainAt(before, k), LeftAt(after, k, cid)))
    <==> (k in moves && id in Removed(before.disk, TipOf(before.state, k), moves[k]))
  }

  lemma SparesBy(before: Snap, after: Snap, cid: Id, moves: map<Key, Id>, id: Id, k: Key, mid: State)
    requires NO_COMMIT !in before.disk
    requires k in before.state.tips ==> HasChain(before.disk, before.state.tips[k])
    requires TipIn(mid, k) ==
      if k in moves then if moves[k] == NO_COMMIT then None else Some(moves[k]) else TipIn(before.state, k)
    requires k in mid.tips ==> HasChain(before.disk, mid.tips[k])
    requires LeftAt(after, k, cid) == if k in mid.tips then ChainOf(before.disk, mid.tips[k]) else []
    ensures OneSpares(before, after, cid, moves, id, k)
  {
    NoChainOfNothing(before.disk);
    if k in before.state.tips {
      if k in moves {
        RemovedIff(before.disk, before.state.tips[k], moves[k], id);
      } else {
        assert ChainAt(before, k)[0] in ChainAt(before, k);
      }
    }
  }

  lemma NoChainOfNothing(disk: Disk)
    requires NO_COMMIT !in disk
    ensures !HasChain(disk, NO_COMMIT)
  {
  }

  lemma LinksGo(before: Snap, node: Key, landing: Id, cid: Id, mid: State, after: Snap)
    requires Went(before, node, landing, cid, mid, after)
    ensures LinksGoBack(before, after, cid)
  {
    WentMeans(before, node, landing, cid, mid, after);
    WentForm(before, node, landing, cid, mid, after);
    var gone := Withdrawn(before.disk, before.state, MovesOf(before, node, landing));
    forall id
      ensures id in gone <==> !SparedByAll(before, after, cid, id)
    {
      WithdrawnIff(before, node, landing, cid, mid, after, id);
    }
    LinksByWithdrawn(before, after, cid, gone);
  }

  lemma LinksByWithdrawn(before: Snap, after: Snap, cid: Id, gone: set<Id>)
    requires forall id :: id in gone <==> !SparedByAll(before, after, cid, id)
    requires after.state.links == KeptLinks(before.state.links, gone)
    requires after.state.pending == KeptPending(before.state.pending, after.state.links, gone)
    ensures LinksGoBack(before, after, cid)
  {
  }

  lemma NodeGoes(before: Snap, node: Key, target: Id, cid: Id, mid: State, after: Snap)
    requires HasChain(before.disk, target)
    requires Went(before, node, Landing(before.disk[target], target), cid, mid, after)
    ensures NodeGoesBack(before, node, target, cid, after)
  {
    var landing := Landing(before.disk[target], target);
    WentTip(before, node, landing, cid, mid, after, node);
    RemainsAtLanding(before.disk, target);
    WentForm(before, node, landing, cid, mid, after);
    LeftIs(before, node, landing, cid, mid, after, node);
  }

  lemma OthersGo(before: Snap, node: Key, target: Id, cid: Id, mid: State, after: Snap)
    requires HasChain(before.disk, target)
    requires Went(before, node, Landing(before.disk[target], target), cid, mid, after)
    ensures OthersGoBack(before, node, target, after)
  {
    var landing := Landing(before.disk[target], target);
    WentForm(before, node, landing, cid, mid, after);
    WentTip(before, node, landing, cid, mid, after, node);
    SnapshotIsLandings(before, node, target);
    forall k | k != node
      ensures TipIn(after.state, k) == TipAfterReset(before, node, landing, k)
    {
      WentTip(before, node, landing, cid, mid, after, k);
      LeftIs(before, node, landing, cid, mid, after, k);
    }
    OthersByTip(before, node, target, after);
  }

  lemma SnapshotIsLandings(before: Snap, node: Key, target: Id)
    requires HasChain(before.disk, target) && NO_COMMIT !in before.disk
    requires var landing := Landing(before.disk[target], target);
      node.kind == File ==> FileResetAllowed(before, node, landing)
    ensures var landing := Landing(before.disk[target], target);
      Snapshot(before, node, target) ==
        if node.kind == File then Some(before.disk[landing].rangeTips) else None
  {
    RemainsAtLanding(before.disk, target);
  }

  lemma OthersByTip(before: Snap, node: Key, target: Id, after: Snap)
    requires HasChain(before.disk, target)
    requires var landing := Landing(before.disk[target], target);
      && (node.kind == File ==> HasChain(before.disk, landing))
      && Snapshot(before, node, target) ==
        (if node.kind == File then Some(before.disk[landing].rangeTips) else None)
      && forall k :: k != node ==> TipIn(after.state, k) == TipAfterReset(before, node, landing, k)
    ensures OthersGoBack(before, node, target, after)
  {
    forall k | k != node
      ensures OtherGoesBack(before, Snapshot(before, node, target), node, after, k)
    {
      assert TipIn(after.state, k) == TipAfterReset(before, node, Landing(before.disk[target], target), k);
    }
  }

  /** Every reset that goes through takes the object, its ranges and the links back as told above. */
  lemma ResetGoesBack(before: Snap, node: Key, target: Id, cid: Id, mid: State, after: Snap)
    requires Sound(before) && Fresh(before.disk, cid) && NodeOf(before, target) == Some(node)
    requires HasChain(before.disk, target)
    requires var landing := Landing(before.disk[target], target);
      && (node.kind == File ==> FileResetAllowed(before, node, landing))
      && ResetDone(before, node, landing, cid, mid, after)
    ensures NodeGoesBack(before, node, target, cid, after)
    ensures OthersGoBack(before, node, target, after)
    ensures LinksGoBack(before, after, cid)
    ensures FieldsGoBack(before, node, target, cid, after)
  {
    var landing := Landing(before.disk[target], target);
    LandingOnNode(before, target);
    WentMeans(before, node, landing, cid, mid, after);
    NodeGoes(before, node, target, cid, mid, after);
    OthersGo(before, node, target, cid, mid, after);
    LinksGo(before, node, landing, cid, mid, after);
    FieldsGo(before, node, target, cid, mid, after);
  }

  // ---- The other fields ----

  predicate Before<T(==)>(a: seq<T>, x: T, y: T) {
    exists p, q :: 0 <= p < q < |a| && a[p] == x && a[q] == y
  }

  /** What b has of a comes first in it, in the order of a. */
  ghost predicate InOldOrder(a: seq<Key>, b: seq<Key>) {
    forall i, j :: 0 <= i < j < |b| && b[j] in a ==> Before(a, b[i], b[j])
  }

  /** The ranges of a file after it: those of the snapshot, the ones it had before in their order. */
  ghost predicate RangesGoBack(s: State, t: State, node: Key, tips: map<Key, Id>) {
    && (forall p :: p != node ==> (p in t.mounts <==> p in s.mounts) && ChildrenOf(t, p) == ChildrenOf(s, p))
    && (forall c :: c in ChildrenOf(t, node) <==> c in tips)
    && Distinct(ChildrenOf(t, node)) && InOldOrder(ChildrenOf(s, node), ChildrenOf(t, node))
  }

  /** The mounts without an object that is gone: no list is left empty, and the lists keep their order. */
  ghost predicate RangeGoes(s: State, t: State, node: Key) {
    forall p ::
      && (p in t.mounts ==> ChildrenOf(t, p) != [])
      && (forall c :: c in ChildrenOf(t, p) <==> c in ChildrenOf(s, p) && c != node)
      && (Distinct(ChildrenOf(s, p)) ==> Distinct(ChildrenOf(t, p)) && InOldOrder(ChildrenOf(s, p), ChildrenOf(t, p)))
  }

  /** A restored tip remembers the tip it took the place of, and no other entry changes. */
  ghost predicate OriginsGoBack(s: State, t: State, tips: map<Key, Id>) {
    && (forall c :: c in tips && TipOf(s, c) != tips[c] ==>
          tips[c] in t.resetFrom && t.resetFrom[tips[c]] == TipOf(s, c))
    && (forall id ::
          SameAt(s.resetFrom, t.resetFrom, id) || exists c :: c in tips && tips[c] == id && TipOf(s, c) != id)
  }

  /** The rest of the state. */
  ghost predicate FieldsGoBack(before: Snap, node: Key, target: Id, cid: Id, after: Snap)
    requires HasChain(before.disk, target)
  {
    var s, t, rest := before.state, after.state, Remains(before.disk, target);
    && t.publication == s.publication + 1 && t.inbound == s.inbound
    && t.retained == (if rest == [] then s.retained else s.retained + [cid])
    && (forall k :: k != node ==> LocationOf(t, k) == LocationOf(s, k))
    && match Snapshot(before, node, target)
       case Some(tips) =>
         && RangesGoBack(s, t, node, tips) && OriginsGoBack(s, t, tips)
         && (forall k :: OpenOf(t, k) == if Mounted(s, node, k) && k !in tips then [] else OpenOf(s, k))
         && rest != [] && HasChain(before.disk, rest[0]) && LocationOf(t, node) == LocationAt(before.disk, rest[0])
       case None =>
         && (if rest == [] then RangeGoes(s, t, node) else t.mounts == s.mounts) && t.resetFrom == s.resetFrom
         && (forall k :: OpenOf(t, k) == if rest == [] && k == node then [] else OpenOf(s, k))
         && LocationOf(t, node) == LocationOf(s, node)
  }

  lemma {:induction false} KeptInOrder(children: seq<Key>, kept: set<Key>, i: nat, j: nat)
    requires i < j < |KeptOrder(children, kept)|
    ensures Before(children, KeptOrder(children, kept)[i], KeptOrder(children, kept)[j])
    decreases |children|
  {
    var rest := children[1..];
    var k := KeptOrder(rest, kept);
    var first := if children[0] in kept then 1 else 0;
    if i >= first {
      KeptInOrder(rest, kept, i - first, j - first);
      var p, q :| 0 <= p < q < |rest| && rest[p] == k[i - first] && rest[q] == k[j - first];
      assert children[p + 1] == k[i - first] && children[q + 1] == k[j - first];
    } else {
      KeptMembers(rest, kept);
      assert k[j - 1] in k && k[j - 1] in rest;
      var q :| 0 <= q < |rest| && rest[q] == k[j - 1];
      assert children[q + 1] == k[j - 1];
    }
  }

  /** A list without repetition that begins with the kept ones keeps their order. */
  lemma KeptFirst(a: seq<Key>, b: seq<Key>, kept: set<Key>)
    requires KeptOrder(a, kept) <= b && Distinct(b) && forall c :: c in b ==> c in kept
    ensures InOldOrder(a, b)
  {
    var k := KeptOrder(a, kept);
    KeptMembers(a, kept);
    forall i, j | 0 <= i < j < |b| && b[j] in a
      ensures Before(a, b[i], b[j])
    {
      assert b[j] in k;
      var m :| 0 <= m < |k| && k[m] == b[j];
      assert b[m] == b[j];
      KeptInOrder(a, kept, i, j);
    }
  }

  lemma MountsRestoredMeans(s: State, t: State, node: Key, tips: map<Key, Id>)
    requires MountsRestored(s.mounts, t.mounts, node, tips.Keys)
    ensures RangesGoBack(s, t, node, tips)
  {
    if node in s.mounts {
      KeptFirst(s.mounts[node], t.mounts[node], tips.Keys);
    }
  }

  lemma UnmountedMeans(s: State, t: State, node: Key)
    requires t.mounts == Unmounted(s.mounts, node)
    ensures RangeGoes(s, t, node)
  {
    forall p
      ensures p in t.mounts ==> ChildrenOf(t, p) != []
      ensures forall c :: c in ChildrenOf(t, p) <==> c in ChildrenOf(s, p) && c != node
      ensures Distinct(ChildrenOf(s, p)) ==>
        Distinct(ChildrenOf(t, p)) && InOldOrder(ChildrenOf(s, p), ChildrenOf(t, p))
    {
      var a := ChildrenOf(s, p);
      if p in s.mounts {
        WithdrawnMember(s, node, p);
        assert ChildrenOf(t, p) == KeptOrder(a, Others(a, node));
        if Distinct(a) {
          KeptDistinct(a, Others(a, node));
          KeptFirst(a, ChildrenOf(t, p), Others(a, node));
        }
      }
    }
  }

  lemma OriginsMean(s: State, t: State, tips: map<Key, Id>)
    requires ResetFromRestored(s, t.resetFrom, tips)
    ensures OriginsGoBack(s, t, tips)
  {
    forall id | !SameAt(s.resetFrom, t.resetFrom, id)
      ensures exists c :: c in tips && tips[c] == id && TipOf(s, c) != id
    {
      assert Replaces(s, tips, id);
    }
  }

  /** t is s with one more commit, which changes nothing but the numbers. */
  predicate SameFields(s: State, t: State, own: seq<Id>) {
    && t.mounts == s.mounts && t.locations == s.locations && t.openBlocks == s.openBlocks
    && t.resetFrom == s.resetFrom && t.inbound == s.inbound
    && t.retained == s.retained + own && t.publication == s.publication + |own|
  }

  lemma MarkerFields(snap: Snap, node: Key, cid: Id)
    requires node in snap.state.tips
    ensures var done := Append(snap, Marker, Named(node), Reset, None, NO_FIELDS, cid);
      done.Ok? && SameFields(snap.state, done.value.state, [cid])
  {
  }

  lemma OwnCommitFields(before: Snap, node: Key, landing: Id, cid: Id, mid: State, after: Snap)
    requires Went(before, node, landing, cid, mid, after)
    ensures SameFields(mid, after.state, if landing == NO_COMMIT then [] else [cid])
  {
    WentForm(before, node, landing, cid, mid, after);
    if landing != NO_COMMIT {
      WentMeans(before, node, landing, cid, mid, after);
      MarkerFields(Snap(before.disk, mid), node, cid);
    }
  }

  lemma FieldsGo(before: Snap, node: Key, target: Id, cid: Id, mid: State, after: Snap)
    requires HasChain(before.disk, target)
    requires Went(before, node, Landing(before.disk[target], target), cid, mid, after)
    ensures FieldsGoBack(before, node, target, cid, after)
  {
    var landing := Landing(before.disk[target], target);
    WentTip(before, node, landing, cid, mid, after, node);
    OwnCommitFields(before, node, landing, cid, mid, after);
    RemainsAtLanding(before.disk, target);
    SnapshotIsLandings(before, node, target);
    WentMeans(before, node, landing, cid, mid, after);
    if node.kind == File {
      FileFields(before, node, target, landing, cid, mid, after);
    } else {
      ObjectFields(before, node, target, landing, cid, mid, after);
    }
  }

  lemma FileFields(before: Snap, node: Key, target: Id, landing: Id, cid: Id, mid: State, after: Snap)
    requires HasChain(before.disk, target) && HasChain(before.disk, landing) && node.kind == File
    requires FileResetTo(before, node, landing, mid)
    requires Remains(before.disk, target) == ChainOf(before.disk, landing)
    requires Snapshot(before, node, target) == Some(before.disk[landing].rangeTips)
    requires SameFields(mid, after.state, [cid])
    ensures FieldsGoBack(before, node, target, cid, after)
  {
    var tips := before.disk[landing].rangeTips;
    var s, t := before.state, after.state;
    MountsRestoredMeans(s, t, node, tips);
    OriginsMean(s, t, tips);
    BlocksWithout(s, t, node, tips);
    PlacedMeans(s, t, node, LocationAt(before.disk, landing));
    NumbersMoved(before, node, landing, mid);
  }

  lemma NumbersMoved(before: Snap, node: Key, landing: Id, mid: State)
    requires HasChain(before.disk, landing) && FileResetTo(before, node, landing, mid)
    ensures mid.publication == before.state.publication && mid.inbound == before.state.inbound
    ensures mid.retained == before.state.retained
  {
  }

  lemma BlocksWithout(s: State, t: State, node: Key, tips: map<Key, Id>)
    requires t.openBlocks == s.openBlocks - Dropped(s, node, tips)
    ensures forall k :: OpenOf(t, k) == if Mounted(s, node, k) && k !in tips then [] else OpenOf(s, k)
  {
  }

  lemma PlacedMeans(s: State, t: State, node: Key, at: Option<string>)
    requires t.locations == PlacedAt(s, node, at)
    ensures LocationOf(t, node) == at && forall k :: k != node ==> LocationOf(t, k) == LocationOf(s, k)
  {
  }

  lemma ObjectFields(before: Snap, node: Key, target: Id, landing: Id, cid: Id, mid: State, after: Snap)
    requires HasChain(before.disk, target) && node.kind != File && ResetsTo(before, node, landing, mid)
    requires landing == NO_COMMIT <==> Remains(before.disk, target) == []
    requires Snapshot(before, node, target) == None
    requires SameFields(mid, after.state, if landing == NO_COMMIT then [] else [cid])
    ensures FieldsGoBack(before, node, target, cid, after)
  {
    if landing == NO_COMMIT {
      UnmountedMeans(before.state, after.state, node);
    }
  }

  // ---- When a reset goes through ----

  /** A marker, or a commit with no block open around it, neither on its own chain nor on the parent file. */
  ghost predicate OutsideBlocks(disk: Disk, id: Id)
    requires HasChain(disk, id)
  {
    disk[id].kind == AtomicBegin || disk[id].kind == AtomicEnd
    || (disk[id].payload.inBlock == None && OpenAfter(disk, ChainOf(disk, id)) == [])
  }

  /** The range entry of a snapshot is a retained commit of that range outside blocks, and the range is the file's. */
  ghost predicate EntryFits(snap: Snap, node: Key, range: Key, tip: Id) {
    && range.kind == Range && NodeOf(snap, tip) == Some(range) && HasChain(snap.disk, tip)
    && OutsideBlocks(snap.disk, tip)
    && range.root in snap.disk && snap.disk[range.root].payload.mount == Some(node)
  }

  /** No content file but this one is at the place. */
  predicate NoContentBut(snap: Snap, node: Key, at: Option<string>) {
    forall k :: k in snap.state.locations && Some(snap.state.locations[k]) == at && k != node ==>
      IsStatistics(snap.disk, k)
  }

  /** What a reset through a file to a target needs. */
  ghost predicate MayGoBack(snap: Snap, fileNode: Key, target: Id) {
    && HasChain(snap.disk, target) && NodeOf(snap, target).Some? && OutsideBlocks(snap.disk, target)
    && var node, rest := NodeOf(snap, target).value, Remains(snap.disk, target);
       match node.kind
       case File =>
         && node == fileNode && rest != [] && rest[0] in snap.disk
         && (forall c :: c in snap.disk[rest[0]].rangeTips ==>
               EntryFits(snap, node, c, snap.disk[rest[0]].rangeTips[c]))
         && HasChain(snap.disk, rest[0]) && NoContentBut(snap, node, LocationAt(snap.disk, rest[0]))
       case Range => Mounted(snap.state, fileNode, node)
       case _ => true
  }

  lemma OutsideIff(disk: Disk, id: Id)
    requires HasChain(disk, id)
    ensures OutsideBlocks(disk, id) <==> MembershipOf(disk, id).None?
  {
  }

  lemma EntryIff(snap: Snap, node: Key, range: Key, tip: Id)
    ensures EntryFits(snap, node, range, tip) <==> ChildOk(snap, node, range, tip)
  {
    if HasChain(snap.disk, tip) {
      OutsideIff(snap.disk, tip);
      ChainElement(snap.disk, ChainOf(snap.disk, tip), |ChainOf(snap.disk, tip)| - 1);
    }
  }

  lemma PlaceIff(snap: Snap, node: Key, at: Option<string>)
    requires Sound(snap) && node.kind == File
    ensures NoContentBut(snap, node, at) <==> NoOtherContent(snap, node, at)
  {
    SoundMeans(snap);
    RootsOnDisk(snap.disk, snap.state);
    forall k | at.Some?
      ensures Holds(snap, k, at.value, false) <==>
        k in snap.state.locations && Some(snap.state.locations[k]) == at && !IsStatistics(snap.disk, k)
    {
    }
    if at.Some? && Occupied(snap, at.value, false) {
      var h := HolderOf(snap, at.value, false);
      assert forall k :: Holds(snap, k, at.value, false) ==>
        PlaceOf(snap.disk, snap.state, k) == PlaceOf(snap.disk, snap.state, h);
    }
  }

  lemma AllowedIff(snap: Snap, fileNode: Key, target: Id)
    requires Sound(snap)
    ensures MayGoBack(snap, fileNode, target) <==> ResetAllowed(snap, fileNode, target)
  {
    SoundMeans(snap);
    if NodeOf(snap, target).Some? && HasChain(snap.disk, target) {
      OutsideIff(snap.disk, target);
      if NodeOf(snap, target).value.kind == File {
        FileAllowedIff(snap, NodeOf(snap, target).value, target);
      }
    }
  }

  lemma FileAllowedIff(snap: Snap, node: Key, target: Id)
    requires Sound(snap) && node.kind == File && HasChain(snap.disk, target)
    ensures FileResetAllowed(snap, node, Landing(snap.disk[target], target)) <==>
      var rest := Remains(snap.disk, target);
      && rest != [] && rest[0] in snap.disk
      && (forall c :: c in snap.disk[rest[0]].rangeTips ==> EntryFits(snap, node, c, snap.disk[rest[0]].rangeTips[c]))
      && HasChain(snap.disk, rest[0]) && NoContentBut(snap, node, LocationAt(snap.disk, rest[0]))
  {
    SoundMeans(snap);
    RemainsAtLanding(snap.disk, target);
    var landing := Landing(snap.disk[target], target);
    if landing != NO_COMMIT {
      assert Remains(snap.disk, target)[0] == landing && IsChain(snap.disk, ChainOf(snap.disk, landing));
      PlaceIff(snap, node, LocationAt(snap.disk, landing));
      forall c | c in snap.disk[landing].rangeTips
        ensures EntryFits(snap, node, c, snap.disk[landing].rangeTips[c])
          <==> ChildOk(snap, node, c, snap.disk[landing].rangeTips[c])
      {
        EntryIff(snap, node, c, snap.disk[landing].rangeTips[c]);
      }
    }
  }

  // ---- A reset to a marker ----

  /**
   * A reset to a BEGIN or an END takes the marker itself off the chain, with every link that it or a commit
   * above it made.
   */
  lemma MarkerGoesToo(before: Snap, node: Key, target: Id, cid: Id, after: Snap, l: LinkId)
    requires HasChain(before.disk, target) && Fresh(before.disk, cid)
    requires NodeGoesBack(before, node, target, cid, after) && LinksGoBack(before, after, cid)
    requires before.disk[target].kind == AtomicBegin || before.disk[target].kind == AtomicEnd
    ensures target !in ChainAt(after, node)
    ensures node in before.state.tips && l in before.state.links
      && before.state.links[l].createdBy in ChainAt(before, node)
      && before.state.links[l].createdBy !in ChainOf(before.disk, target)[1..]
      ==> l !in after.state.links
  {
    var c := ChainOf(before.disk, target);
    ChainMembers(before.disk, c);
    if target in c[1..] {
      var i :| 0 <= i < |c| - 1 && c[1..][i] == target;
      ChainDistinct(before.disk, c, 0, i + 1);
    }
    assert target in c;
  }
}
