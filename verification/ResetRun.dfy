/** The reset command as the program runs it: checks first, then a copy of the state edited step by step. */
module ResetRun {
  import opened Records
  import opened Chains
  import opened Blocks
  import opened StoreState
  import opened Pipeline
  import opened PipelineLaws
  import opened Resets
  import opened ResetLaws
  import opened ResetMeans
  import opened Store

  /** Every chain that the store can name is short enough for the guarded walks. */
  ghost predicate WithinGuard(snap: Snap, limit: nat) {
    forall id :: id in snap.state.retained && HasChain(snap.disk, id) ==> |ChainOf(snap.disk, id)| <= limit
  }

  // ---- The walk ----

  lemma {:induction false} AboveIsPrefix(c: seq<Id>, landing: Id, k: nat)
    requires k <= |c| && landing !in c[..k]
    ensures Above(c, landing) == c[..k] + Above(c[k..], landing)
    decreases k
  {
    if k > 0 {
      assert c[0] in c[..k] && forall id :: id in c[1..][..k - 1] ==> id in c[..k];
      AboveIsPrefix(c[1..], landing, k - 1);
      assert c[1..][k - 1..] == c[k..] && [c[0]] + c[1..][..k - 1] == c[..k];
    } else {
      assert c[0..] == c;
    }
  }

  /** The walk from the old tip to the landing. */
  method RemovedBy(disk: Disk, tip: Id, landing: Id, limit: nat) returns (removed: set<Id>)
    requires NO_COMMIT !in disk
    requires tip == NO_COMMIT || (HasChain(disk, tip) && |ChainOf(disk, tip)| <= limit)
    ensures removed == Removed(disk, tip, landing)
  {
    removed := {};
    var cur, guard := tip, 0;
    ghost var c := if HasChain(disk, tip) then ChainOf(disk, tip) else [];
    while cur != NO_COMMIT && cur != landing && guard < limit
      invariant guard <= |c| && cur == (if guard < |c| then c[guard] else NO_COMMIT)
      invariant landing !in c[..guard]
      invariant forall id :: id in removed <==> id in c[..guard]
      decreases limit - guard
    {
      ChainElement(disk, c, guard);
      removed := removed + {cur};
      cur := if cur in disk then disk[cur].previous else NO_COMMIT;
      assert c[..guard + 1] == c[..guard] + [c[guard]];
      guard := guard + 1;
    }
    AboveIsPrefix(c, landing, guard);
    if guard < |c| {
      ChainElement(disk, c, guard);
      assert c[guard..][0] == landing;
    }
    assert Above(c[guard..], landing) == [];
    assert Above(c, landing) == c[..guard];
  }

  /** apply_reset_to_state */
  method ApplyReset(disk: Disk, st: State, node: Key, landing: Id, limit: nat) returns (pre: State)
    requires NO_COMMIT !in disk
    requires TipOf(st, node) == NO_COMMIT
      || (HasChain(disk, TipOf(st, node)) && |ChainOf(disk, TipOf(st, node))| <= limit)
    ensures pre == Moved(disk, st, map[node := landing])
  {
    var oldTip := TipOf(st, node);
    var tips := if landing == NO_COMMIT then st.tips - {node} else st.tips[node := landing];
    var removed := RemovedBy(disk, oldTip, landing, limit);
    var links := KeptLinks(st.links, removed);
    var pending := KeptPending(st.pending, links, removed);
    pre := st.(tips := tips, links := links, pending := pending);
    OneMove(disk, st, node, landing);
  }

  // ---- commit_to_node ----

  method CommitToNode(store: LockedStore, id: Id) returns (node: Option<Key>)
    requires Sound(store.Now())
    ensures node == NodeOf(store.Now(), id)
  {
    SoundMeans(store.Now());
    if id !in store.state.retained {
      return None;
    }
    var root := ChainRoot(store.disk, id);
    RootDescribes(store.disk, id);
    if root.Err? {
      return None;
    }
    var facts := AuthoritativeObject(store.disk, root.value);
    node := if facts.Err? then None else Some(Key(facts.value.kind, root.value));
  }

  /** A root tells the kind of its whole chain. */
  lemma RootDescribes(disk: Disk, id: Id)
    requires HasChain(disk, id)
    ensures var root := Root(ChainOf(disk, id));
      && HasChain(disk, root)
      && match Describe(disk, ChainOf(disk, id))
         case Ok(f) => Describe(disk, ChainOf(disk, root)).Ok?
           && Describe(disk, ChainOf(disk, root)).value.kind == f.kind && f.root == root
         case Err(_) => Describe(disk, ChainOf(disk, root)).Err?
  {
    var c := ChainOf(disk, id);
    ChainSuffix(disk, c, |c| - 1);
    assert c[|c| - 1..] == [Root(c)];
    assert IsChain(disk, [Root(c)]) && [Root(c)][0] == Root(c);
    ChainUnique(disk, [Root(c)], ChainOf(disk, Root(c)));
  }

  // ---- The checks on a snapshot ----

  /** file_reset_children_checked: no range may go back to the inside of a block. */
  method ChildrenOutermost(disk: Disk, tips: map<Key, Id>, limit: nat) returns (bad: Option<ResetError>)
    requires NO_COMMIT !in disk
    requires forall c :: c in tips ==> HasChain(disk, tips[c]) && |ChainOf(disk, tips[c])| <= limit
    ensures bad.None? <==> forall c :: c in tips ==> MembershipOf(disk, tips[c]).None?
    ensures bad.Some? ==> bad.value.ChildInterior? && bad.value.child in tips
    ensures bad.Some? ==> MembershipOf(disk, tips[bad.value.child]) == Some(bad.value.membership)
  {
    var todo := tips.Keys;
    while todo != {}
      invariant todo <= tips.Keys
      invariant forall c :: c in tips && c !in todo ==> MembershipOf(disk, tips[c]).None?
      decreases todo
    {
      var c :| c in todo;
      var member := BlockMembership(disk, tips[c], limit);
      if member.value.Some? {
        return Some(ChildInterior(c, member.value.value));
      }
      todo := todo - {c};
    }
    bad := None;
  }

  /** Each entry must be a commit of the range it is listed under, and that range must be the file's. */
  method ChildrenBelong(store: LockedStore, node: Key, tips: map<Key, Id>) returns (ok: bool)
    requires Sound(store.Now()) && forall c :: c in tips ==> HasChain(store.disk, tips[c])
    ensures ok <==> forall c :: c in tips ==>
      NodeOf(store.Now(), tips[c]) == Some(c) && ParentAt(store.disk, tips[c]) == Some(node)
  {
    SoundMeans(store.Now());
    var todo := tips.Keys;
    while todo != {}
      invariant todo <= tips.Keys
      invariant forall c :: c in tips && c !in todo ==>
        NodeOf(store.Now(), tips[c]) == Some(c) && ParentAt(store.disk, tips[c]) == Some(node)
      decreases todo
    {
      var c :| c in todo;
      var owner := CommitToNode(store, tips[c]);
      if owner != Some(c) {
        return false;
      }
      var facts := AuthoritativeObject(store.disk, tips[c]);
      if facts.value.parent != Some(node) {
        return false;
      }
      todo := todo - {c};
    }
    ok := true;
  }

  // ---- The edits to the ranges ----

  lemma NothingGone(pending: map<LinkId, set<Id>>, links: map<LinkId, Link>)
    requires forall l :: l in pending ==> l in links
    ensures KeptPending(pending, links, {}) == pending
  {
    assert forall l :: l in pending ==> pending[l] - {} == pending[l];
  }

  lemma MovedNothing(disk: Disk, s: State)
    requires forall l :: l in s.pending ==> l in s.links
    ensures SameProjection(s, Moved(disk, s, map[]))
  {
    assert Withdrawn(disk, s, map[]) == {};
    assert KeptLinks(s.links, {}) == s.links;
    NothingGone(s.pending, s.links);
  }

  /** Takes one more object back, in a state where some have moved already. */
  method MoveOne(disk: Disk, ghost s: State, ghost moves: map<Key, Id>, st: State, k: Key, landing: Id, limit: nat)
    returns (pre: State)
    requires NO_COMMIT !in disk && k !in moves && SameProjection(st, Moved(disk, s, moves))
    requires TipOf(s, k) == NO_COMMIT || (HasChain(disk, TipOf(s, k)) && |ChainOf(disk, TipOf(s, k))| <= limit)
    ensures SameProjection(pre, Moved(disk, s, moves[k := landing]))
    ensures pre == st.(tips := pre.tips, links := pre.links, pending := pre.pending)
  {
    assert TipOf(st, k) == TipOf(s, k);
    MovedStep(disk, s, moves, st, k, landing);
    pre := ApplyReset(disk, st, k, landing, limit);
  }

  ghost predicate TipsWithin(disk: Disk, s: State, limit: nat) {
    forall k :: k in s.tips ==> HasChain(disk, s.tips[k]) && |ChainOf(disk, s.tips[k])| <= limit
  }

  function DroppedBefore(children: seq<Key>, i: nat, tips: map<Key, Id>): set<Key>
    requires i <= |children|
  {
    set c | c in children[..i] && c !in tips
  }

  lemma DroppedStep(children: seq<Key>, i: nat, tips: map<Key, Id>)
    requires i < |children| && Distinct(children)
    ensures DroppedBefore(children, i + 1, tips) ==
      (if children[i] in tips then DroppedBefore(children, i, tips)
        else DroppedBefore(children, i, tips) + {children[i]})
    ensures children[i] !in DroppedBefore(children, i, tips)
  {
    assert children[..i + 1] == children[..i] + [children[i]];
  }

  lemma DroppedEnd(s: State, node: Key, tips: map<Key, Id>)
    ensures DroppedBefore(ChildrenOf(s, node), |ChildrenOf(s, node)|, tips) == Dropped(s, node, tips)
  {
    assert ChildrenOf(s, node)[..|ChildrenOf(s, node)|] == ChildrenOf(s, node);
  }

  lemma NothingMore(gone: set<Key>, c: Key)
    ensures ToNothing(gone)[c := NO_COMMIT] == ToNothing(gone + {c})
  {
  }

  /** st is s with some ranges taken away. */
  ghost predicate WithoutRanges(disk: Disk, s: State, gone: set<Key>, st: State) {
    && SameProjection(st, Moved(disk, s, ToNothing(gone)))
    && st == s.(tips := st.tips, links := st.links, pending := st.pending, openBlocks := s.openBlocks - gone)
  }

  method WithdrawOne(disk: Disk, ghost s: State, ghost gone: set<Key>, st: State, c: Key, limit: nat)
    returns (pre: State)
    requires NO_COMMIT !in disk && TipsWithin(disk, s, limit) && WithoutRanges(disk, s, gone, st) && c !in gone
    ensures WithoutRanges(disk, s, gone + {c}, pre)
  {
    NothingMore(gone, c);
    pre := MoveOne(disk, s, ToNothing(gone), st, c, NO_COMMIT, limit);
    pre := pre.(openBlocks := pre.openBlocks - {c});
    assert pre.openBlocks == s.openBlocks - (gone + {c});
  }

  lemma WithoutNothing(disk: Disk, s: State)
    requires forall l :: l in s.pending ==> l in s.links
    ensures WithoutRanges(disk, s, {}, s)
  {
    MovedNothing(disk, s);
    assert ToNothing({}) == map[] && s.openBlocks - {} == s.openBlocks;
  }

  /** Takes away the mounted ranges that the snapshot does not list. */
  method WithdrawChildren(disk: Disk, s: State, node: Key, tips: map<Key, Id>, limit: nat) returns (pre: State)
    requires NO_COMMIT !in disk && Distinct(ChildrenOf(s, node)) && TipsWithin(disk, s, limit)
    requires forall l :: l in s.pending ==> l in s.links
    ensures WithoutRanges(disk, s, Dropped(s, node, tips), pre)
  {
    pre := s;
    var children := ChildrenOf(s, node);
    ghost var gone: set<Key> := {};
    WithoutNothing(disk, s);
    for i := 0 to |children|
      invariant gone == DroppedBefore(children, i, tips) && WithoutRanges(disk, s, gone, pre)
    {
      DroppedStep(children, i, tips);
      if children[i] !in tips {
        pre := WithdrawOne(disk, s, gone, pre, children[i], limit);
        gone := gone + {children[i]};
      }
    }
    DroppedEnd(s, node, tips);
  }

  function Only(tips: map<Key, Id>, done: set<Key>): map<Key, Id> {
    map c | c in tips && c in done :: tips[c]
  }

  /** MountsRestored once the ranges in done have been put back. */
  ghost predicate MountsPartly(
    before: map<Key, seq<Key>>, after: map<Key, seq<Key>>, node: Key, kept: set<Key>, done: set<Key>) {
    && (forall p :: p != node ==> (p in after <==> p in before))
    && (forall p :: p != node && p in before ==> after[p] == before[p])
    && (node in after <==> node in before || done != {})
    && (node in after ==> Distinct(after[node]))
    && (node in after ==> forall c :: c in after[node] <==>
      c in done || (node in before && c in before[node] && c in kept))
    && (node in before ==> KeptOrder(before[node], kept) <= after[node])
  }

  lemma MountsFiltered(mounts: map<Key, seq<Key>>, node: Key, kept: set<Key>)
    requires node in mounts ==> Distinct(mounts[node])
    ensures MountsPartly(mounts, if node in mounts then mounts[node := KeptOrder(mounts[node], kept)] else mounts,
      node, kept, {})
  {
    if node in mounts {
      KeptDistinct(mounts[node], kept);
      KeptMembers(mounts[node], kept);
    }
  }

  /** Mounts a restored range unless it is mounted already. */
  method MountChild(
    ghost before: map<Key, seq<Key>>, mounts: map<Key, seq<Key>>, node: Key, ghost kept: set<Key>,
    ghost done: set<Key>, c: Key)
    returns (after: map<Key, seq<Key>>)
    requires MountsPartly(before, mounts, node, kept, done) && c in kept && c !in done
    ensures MountsPartly(before, after, node, kept, done + {c})
  {
    var children := if node in mounts then mounts[node] else [];
    if c !in children {
      children := children + [c];
    }
    after := mounts[node := children];
  }

  ghost predicate Injective(tips: map<Key, Id>) {
    forall c, d :: c in tips && d in tips && tips[c] == tips[d] ==> c == d
  }

  function ResetFromWith(s: State, was: map<Id, Id>, c: Key, tip: Id): map<Id, Id> {
    if TipOf(s, c) != tip then was[tip := TipOf(s, c)] else was
  }

  lemma ResetFromStep(s: State, was: map<Id, Id>, tips: map<Key, Id>, done: set<Key>, c: Key)
    requires Injective(tips) && c in tips && c !in done && ResetFromRestored(s, was, Only(tips, done))
    ensures ResetFromRestored(s, ResetFromWith(s, was, c, tips[c]), Only(tips, done + {c}))
  {
    var less, more := Only(tips, done), Only(tips, done + {c});
    var after := ResetFromWith(s, was, c, tips[c]);
    forall d | d in more && TipOf(s, d) != more[d]
      ensures more[d] in after && after[more[d]] == TipOf(s, d)
    {
      assert d != c ==> d in less && less[d] == more[d];
    }
    forall id | !Replaces(s, more, id)
      ensures SameAt(s.resetFrom, after, id)
    {
      NotReplaced(s, tips, done, c, id);
    }
  }

  lemma NotReplaced(s: State, tips: map<Key, Id>, done: set<Key>, c: Key, id: Id)
    requires c in tips && !Replaces(s, Only(tips, done + {c}), id)
    ensures !Replaces(s, Only(tips, done), id) && (TipOf(s, c) != tips[c] ==> tips[c] != id)
  {
    var less, more := Only(tips, done), Only(tips, done + {c});
    assert c in more && more[c] == tips[c];
    assert forall d :: d in less ==> d in more && more[d] == less[d];
  }

  /** The state once the ranges in done are back. */
  ghost predicate PartlyRestored(disk: Disk, s: State, node: Key, tips: map<Key, Id>, done: set<Key>, st: State) {
    && SameProjection(st, Moved(disk, s, ToNothing(Dropped(s, node, tips)) + Only(tips, done)))
    && st == s.(tips := st.tips, links := st.links, pending := st.pending, mounts := st.mounts,
      resetFrom := st.resetFrom,
                openBlocks := s.openBlocks - Dropped(s, node, tips))
    && MountsPartly(s.mounts, st.mounts, node, tips.Keys, done)
    && ResetFromRestored(s, st.resetFrom, Only(tips, done))
  }

  lemma OneMoreMove(gone: set<Key>, tips: map<Key, Id>, done: set<Key>, c: Key)
    requires c in tips && c !in done && c !in gone
    ensures (ToNothing(gone) + Only(tips, done))[c := tips[c]] == ToNothing(gone) + Only(tips, done + {c})
    ensures c !in ToNothing(gone) + Only(tips, done)
  {
  }

  method RestoreOne(
    disk: Disk, s: State, node: Key, tips: map<Key, Id>, ghost done: set<Key>, st: State, c: Key, limit: nat)
    returns (pre: State)
    requires NO_COMMIT !in disk && TipsWithin(disk, s, limit) && Injective(tips)
    requires PartlyRestored(disk, s, node, tips, done, st) && c in tips && c !in done
    ensures PartlyRestored(disk, s, node, tips, done + {c}, pre)
  {
    OneMoreMove(Dropped(s, node, tips), tips, done, c);
    var oldTip := TipOf(s, c);
    ResetFromStep(s, st.resetFrom, tips, done, c);
    pre := MoveOne(disk, s, ToNothing(Dropped(s, node, tips)) + Only(tips, done), st, c, tips[c], limit);
    var mounts := MountChild(s.mounts, pre.mounts, node, tips.Keys, done, c);
    pre := pre.(mounts := mounts);
    if oldTip != tips[c] {
      pre := pre.(resetFrom := pre.resetFrom[tips[c] := oldTip]);
    }
    assert pre.resetFrom == ResetFromWith(s, st.resetFrom, c, tips[c]);
  }

  lemma NoneRestored(disk: Disk, s: State, node: Key, tips: map<Key, Id>, st: State, mounts: map<Key, seq<Key>>)
    requires WithoutRanges(disk, s, Dropped(s, node, tips), st) && Distinct(ChildrenOf(s, node))
    requires mounts == if node in s.mounts then s.mounts[node := KeptOrder(s.mounts[node], tips.Keys)] else s.mounts
    ensures PartlyRestored(disk, s, node, tips, {}, st.(mounts := mounts))
  {
    MountsFiltered(s.mounts, node, tips.Keys);
    OnlyNone(s, node, tips);
  }

  lemma OnlyNone(s: State, node: Key, tips: map<Key, Id>)
    ensures ToNothing(Dropped(s, node, tips)) + Only(tips, {}) == ToNothing(Dropped(s, node, tips))
    ensures ResetFromRestored(s, s.resetFrom, Only(tips, {}))
  {
    assert Only(tips, {}) == map[];
  }

  /** Puts the ranges of the snapshot back at their tips. */
  method RestoreChildren(disk: Disk, s: State, node: Key, tips: map<Key, Id>, limit: nat) returns (pre: State)
    requires NO_COMMIT !in disk && Distinct(ChildrenOf(s, node)) && TipsWithin(disk, s, limit) && Injective(tips)
    requires forall l :: l in s.pending ==> l in s.links
    ensures PartlyRestored(disk, s, node, tips, tips.Keys, pre)
  {
    pre := WithdrawChildren(disk, s, node, tips, limit);
    var mounts := pre.mounts;
    if node in mounts {
      mounts := mounts[node := KeptOrder(mounts[node], tips.Keys)];
    }
    NoneRestored(disk, s, node, tips, pre, mounts);
    pre := pre.(mounts := mounts);
    var todo := tips.Keys;
    ghost var done: set<Key> := {};
    while todo != {}
      invariant done !! todo && forall c :: c in tips <==> c in done || c in todo
      invariant PartlyRestored(disk, s, node, tips, done, pre)
      decreases todo
    {
      var c :| c in todo;
      pre := RestoreOne(disk, s, node, tips, done, pre, c, limit);
      todo, done := todo - {c}, done + {c};
    }
    assert done == tips.Keys;
  }

  // ---- The command ----

  datatype ResetFailure = NoSuchNode | NotOfFile | Refused(ResetError) | NoLanding | ChildElsewhere | PlaceOccupied

  /** What each refusal of a reset means. */
  ghost predicate ResetRefused(snap: Snap, fileNode: Key, target: Id, failure: ResetFailure) {
    match failure
    case NoSuchNode => NodeOf(snap, target).None?
    case NotOfFile =>
      && NodeOf(snap, target).Some?
      && var node := NodeOf(snap, target).value;
         (node.kind == File && node != fileNode) || (node.kind == Range && !Mounted(snap.state, fileNode, node))
    case Refused(Interior(_)) => HasChain(snap.disk, target) && !OutsideBlocks(snap.disk, target)
    case NoLanding => HasChain(snap.disk, target) && Remains(snap.disk, target) == []
    case Refused(ChildInterior(_, _)) => SomeEntry(snap, target, false)
    case ChildElsewhere => SomeEntry(snap, target, true)
    case PlaceOccupied =>
      && HasChain(snap.disk, target) && Remains(snap.disk, target) != []
      && var landing := Remains(snap.disk, target)[0];
         HasChain(snap.disk, landing)
         && NodeOf(snap, target).Some?
         && !NoContentBut(snap, NodeOf(snap, target).value, LocationAt(snap.disk, landing))
    case _ => false
  }

  /** Some entry of the snapshot reached is inside a block, or is no commit of its range under the file. */
  ghost predicate SomeEntry(snap: Snap, target: Id, outside: bool) {
    && HasChain(snap.disk, target) && Remains(snap.disk, target) != [] && NodeOf(snap, target).Some?
    && Remains(snap.disk, target)[0] in snap.disk
    && var tips := snap.disk[Remains(snap.disk, target)[0]].rangeTips;
       exists c :: c in tips && HasChain(snap.disk, tips[c])
         && BadEntry(snap, NodeOf(snap, target).value, c, tips[c], outside)
  }

  ghost predicate BadEntry(snap: Snap, node: Key, range: Key, tip: Id, outside: bool)
    requires HasChain(snap.disk, tip)
  {
    if outside then NodeOf(snap, tip) != Some(range) || ParentAt(snap.disk, tip) != Some(node)
    else !OutsideBlocks(snap.disk, tip)
  }

  /** The same for a landing that has been found. */
  ghost predicate PlanRefused(snap: Snap, node: Key, landing: Id, failure: ResetFailure) {
    match failure
    case NoLanding => landing == NO_COMMIT
    case Refused(ChildInterior(_, _)) => landing in snap.disk && BadEntryOf(snap, node, landing, false)
    case ChildElsewhere => landing in snap.disk && BadEntryOf(snap, node, landing, true)
    case PlaceOccupied => HasChain(snap.disk, landing) && !NoOtherContent(snap, node, LocationAt(snap.disk, landing))
    case _ => false
  }

  ghost predicate BadEntryOf(snap: Snap, node: Key, landing: Id, outside: bool)
    requires landing in snap.disk
  {
    var tips := snap.disk[landing].rangeTips;
    exists c :: c in tips && HasChain(snap.disk, tips[c]) && BadEntry(snap, node, c, tips[c], outside)
  }

  /** What a plan is refused for is told of the target. */
  lemma PlanRefusedMeans(snap: Snap, fileNode: Key, target: Id, node: Key, failure: ResetFailure)
    requires Sound(snap) && NodeOf(snap, target) == Some(node) && HasChain(snap.disk, target) && node.kind == File
    requires PlanRefused(snap, node, Landing(snap.disk[target], target), failure)
    ensures ResetRefused(snap, fileNode, target, failure)
  {
    PendingOnLinks(snap);
    RemainsAtLanding(snap.disk, target);
    var landing := Landing(snap.disk[target], target);
    NoChainOfNothing(snap.disk);
    if failure.PlaceOccupied? {
      PlaceIff(snap, node, LocationAt(snap.disk, landing));
    }
  }

  lemma FileMovesLast(s: State, node: Key, landing: Id, tips: map<Key, Id>)
    ensures (ToNothing(Dropped(s, node, tips)) + Only(tips, tips.Keys))[node := landing]
      == FileMoves(s, node, landing, tips)
  {
    assert Only(tips, tips.Keys) == tips;
  }

  lemma EverythingRestored(s: State, mounts: map<Key, seq<Key>>, node: Key, tips: map<Key, Id>)
    requires MountsPartly(s.mounts, mounts, node, tips.Keys, tips.Keys)
    ensures MountsRestored(s.mounts, mounts, node, tips.Keys) && Only(tips, tips.Keys) == tips
  {
  }

  lemma ReadyToReset(snap: Snap, node: Key, limit: nat)
    requires Sound(snap) && WithinGuard(snap, limit)
    ensures Distinct(ChildrenOf(snap.state, node)) && TipsWithin(snap.disk, snap.state, limit)
  {
    SoundMeans(snap);
    assert node in snap.state.mounts ==> MountOk(snap.state, node);
  }

  lemma SnapshotIsRetained(snap: Snap, landing: Id, limit: nat)
    requires Sound(snap) && WithinGuard(snap, limit) && landing in snap.state.retained
    ensures landing in snap.disk
    ensures var tips := snap.disk[landing].rangeTips;
      forall c :: c in tips ==>
        tips[c] in snap.state.retained && HasChain(snap.disk, tips[c]) && |ChainOf(snap.disk, tips[c])| <= limit
  {
    SoundMeans(snap);
  }

  lemma OwnersAreInjective(snap: Snap, tips: map<Key, Id>)
    requires forall c :: c in tips ==> NodeOf(snap, tips[c]) == Some(c)
    ensures Injective(tips)
  {
  }

  lemma RangesHaveParents(snap: Snap, node: Key, tips: map<Key, Id>, c: Key)
    requires c in tips && HasChain(snap.disk, tips[c]) && NodeOf(snap, tips[c]) == Some(c)
    requires ParentAt(snap.disk, tips[c]) == Some(node)
    ensures c.kind == Range
  {
  }

  /** The edits of the state for the ranges and the tip of a file. */
  method MoveFile(disk: Disk, s: State, node: Key, landing: Id, tips: map<Key, Id>, limit: nat) returns (pre: State)
    requires NO_COMMIT !in disk && Distinct(ChildrenOf(s, node)) && TipsWithin(disk, s, limit) && Injective(tips)
    requires (forall l :: l in s.pending ==> l in s.links) && node !in tips && node !in ChildrenOf(s, node)
    ensures SameProjection(pre, Moved(disk, s, FileMoves(s, node, landing, tips)))
    ensures pre == s.(tips := pre.tips, links := pre.links, pending := pre.pending, mounts := pre.mounts,
                      resetFrom := pre.resetFrom, openBlocks := s.openBlocks - Dropped(s, node, tips))
    ensures MountsRestored(s.mounts, pre.mounts, node, tips.Keys) && ResetFromRestored(s, pre.resetFrom, tips)
  {
    pre := RestoreChildren(disk, s, node, tips, limit);
    EverythingRestored(s, pre.mounts, node, tips);
    FileMovesLast(s, node, landing, tips);
    pre := MoveOne(disk, s, ToNothing(Dropped(s, node, tips)) + Only(tips, tips.Keys), pre, node, landing, limit);
  }

  /** The checks on a file reset that come before any edit. */
  method CheckSnapshot(store: LockedStore, node: Key, landing: Id, limit: nat) returns (bad: Option<ResetFailure>)
    requires Sound(store.Now()) && WithinGuard(store.Now(), limit) && landing in store.state.retained
    requires landing in store.disk
    ensures bad.None? <==>
      forall c :: c in store.disk[landing].rangeTips ==> ChildOk(store.Now(), node, c, store.disk[landing].rangeTips[c])
    ensures bad.Some? ==> PlanRefused(store.Now(), node, landing, bad.value)
  {
    SoundMeans(store.Now());
    var tips := store.disk[landing].rangeTips;
    SnapshotIsRetained(store.Now(), landing, limit);
    var interior := ChildrenOutermost(store.disk, tips, limit);
    if interior.Some? {
      assert !ChildOk(store.Now(), node, interior.value.child, tips[interior.value.child]);
      OutsideIff(store.disk, tips[interior.value.child]);
      assert BadEntry(store.Now(), node, interior.value.child, tips[interior.value.child], false);
      return Some(Refused(interior.value));
    }
    var belong := ChildrenBelong(store, node, tips);
    if !belong {
      ghost var c :| c in tips
        && !(NodeOf(store.Now(), tips[c]) == Some(c) && ParentAt(store.disk, tips[c]) == Some(node));
      assert BadEntry(store.Now(), node, c, tips[c], true);
      return Some(ChildElsewhere);
    }
    forall c | c in tips
      ensures ChildOk(store.Now(), node, c, tips[c])
    {
      RangesHaveParents(store.Now(), node, tips, c);
    }
    bad := None;
  }

  /** Where the file goes back to, unless another content file is there. */
  method PlaceFile(store: LockedStore, node: Key, landing: Id) returns (r: Result<map<Key, string>, ResetFailure>)
    requires Sound(store.Now()) && HasChain(store.disk, landing)
    requires Describe(store.disk, ChainOf(store.disk, landing)).Ok?
    ensures r == if NoOtherContent(store.Now(), node, LocationAt(store.disk, landing))
      then Ok(PlacedAt(store.state, node, LocationAt(store.disk, landing))) else Err(PlaceOccupied)
  {
    SoundMeans(store.Now());
    var facts := AuthoritativeObject(store.disk, landing);
    var at := facts.value.location;
    if at.Some? {
      var occupied := store.ObjectAtPath(at.value, false);
      if occupied.Some? {
        HolderIsUnique(store.Now(), occupied.value, at.value, false);
        if occupied.value != node {
          return Err(PlaceOccupied);
        }
      }
      return Ok(store.state.locations[node := at.value]);
    }
    r := Ok(store.state.locations - {node});
  }

  method MoveChecked(store: LockedStore, node: Key, landing: Id, limit: nat) returns (pre: State)
    requires Sound(store.Now()) && WithinGuard(store.Now(), limit) && node.kind == File
    requires NodeOf(store.Now(), landing) == Some(node)
    requires landing in store.disk
    requires forall c :: c in store.disk[landing].rangeTips ==>
      ChildOk(store.Now(), node, c, store.disk[landing].rangeTips[c])
    ensures FileResetTo(store.Now(), node, landing,
      pre.(locations := PlacedAt(store.state, node, LocationAt(store.disk, landing))))
  {
    var tips := store.disk[landing].rangeTips;
    ReadyToReset(store.Now(), node, limit);
    OwnersAreInjective(store.Now(), tips);
    FileIsNoRange(store.Now(), node, tips);
    PendingOnLinks(store.Now());
    pre := MoveFile(store.disk, store.state, node, landing, tips, limit);
  }

  lemma PendingOnLinks(snap: Snap)
    requires Sound(snap)
    ensures forall l :: l in snap.state.pending ==> l in snap.state.links
    ensures NO_COMMIT !in snap.disk
  {
    SoundMeans(snap);
  }

  method PlanFileReset(store: LockedStore, node: Key, landing: Id, limit: nat) returns (r: Result<State, ResetFailure>)
    requires Sound(store.Now()) && WithinGuard(store.Now(), limit) && node.kind == File
    requires landing == NO_COMMIT || NodeOf(store.Now(), landing) == Some(node)
    ensures r.Ok? <==> FileResetAllowed(store.Now(), node, landing)
    ensures r.Ok? ==> FileResetTo(store.Now(), node, landing, r.value)
    ensures r.Err? ==> PlanRefused(store.Now(), node, landing, r.error)
  {
    if landing == NO_COMMIT {
      return Err(NoLanding);
    }
    RetainedHasNode(store.Now(), landing);
    var bad := CheckSnapshot(store, node, landing, limit);
    if bad.Some? {
      return Err(bad.value);
    }
    var pre := MoveChecked(store, node, landing, limit);
    var placed := PlaceFile(store, node, landing);
    if placed.Err? {
      return Err(placed.error);
    }
    r := Ok(pre.(locations := placed.value));
  }

  lemma FileIsNoRange(snap: Snap, node: Key, tips: map<Key, Id>)
    requires Sound(snap) && node.kind == File && forall c :: c in tips ==> ChildOk(snap, node, c, tips[c])
    ensures node !in tips && node !in ChildrenOf(snap.state, node)
  {
    SoundMeans(snap);
    assert node in snap.state.mounts ==> MountOk(snap.state, node);
  }

  method IsBelonging(s: State, node: Key, fileNode: Key) returns (ok: bool)
    requires MountedOnce(s)
    ensures ok <==> Belongs(s, node, fileNode)
  {
    match node.kind {
      case File => ok := node == fileNode;
      case Range =>
        var parent := ParentOf(s, node);
        ok := parent == Some(fileNode);
      case _ => ok := true;
    }
  }

  method PlanObjectReset(store: LockedStore, node: Key, landing: Id, limit: nat) returns (pre: State)
    requires Sound(store.Now()) && WithinGuard(store.Now(), limit) && node.kind != File
    ensures ResetsTo(store.Now(), node, landing, pre)
  {
    ReadyToReset(store.Now(), node, limit);
    PendingOnLinks(store.Now());
    pre := ApplyReset(store.disk, store.state, node, landing, limit);
    if landing == NO_COMMIT {
      pre := pre.(mounts := Unmounted(pre.mounts, node), openBlocks := pre.openBlocks - {node},
        publication := pre.publication + 1);
    }
  }

  ghost predicate Resolves(snap: Snap, fileNode: Key, target: Id) {
    && NodeOf(snap, target).Some? && Belongs(snap.state, NodeOf(snap, target).value, fileNode)
    && MembershipOf(snap.disk, target).None?
  }

  /** What the command checks before it plans anything: where the target is, whose it is, and where it lands. */
  method ResolveTarget(store: LockedStore, fileNode: Key, target: Id, limit: nat)
    returns (r: Result<(Key, Id), ResetFailure>)
    requires Sound(store.Now()) && WithinGuard(store.Now(), limit)
    ensures r.Ok? <==> Resolves(store.Now(), fileNode, target)
    ensures r.Err? ==> ResetRefused(store.Now(), fileNode, target, r.error)
    ensures r.Ok? ==>
      target in store.disk && r.value == (NodeOf(store.Now(), target).value, Landing(store.disk[target], target))
  {
    var node := CommitToNode(store, target);
    if node.None? {
      return Err(NoSuchNode);
    }
    RetainedHasNode(store.Now(), target);
    PendingOnLinks(store.Now());
    MountsAreOnce(store.Now());
    var belongs := IsBelonging(store.state, node.value, fileNode);
    if !belongs {
      return Err(NotOfFile);
    }
    var landing := ResolveReset(store.disk, target, limit);
    OutsideIff(store.disk, target);
    if landing.Err? {
      return Err(Refused(landing.error));
    }
    r := Ok((node.value, landing.value));
  }

  /** Before its own commit, a reset leaves the node live and every range mounted once. */
  lemma PlannedResetIsUsable(snap: Snap, node: Key, landing: Id, pre: State)
    requires Sound(snap) && landing != NO_COMMIT && NodeOf(snap, landing) == Some(node)
    requires node.kind == File ==> FileResetAllowed(snap, node, landing)
    requires ResetsTo(snap, node, landing, pre)
    ensures MountedOnce(pre)
    ensures node in pre.tips && pre.tips[node] == landing
  {
    SoundMeans(snap);
    if node.kind == File {
      FileTipsReset(snap, node, landing, pre);
      FileResetMountedOnce(snap, node, landing, pre);
    } else {
      ObjectResetShape(snap, node, landing, pre);
      ObjectResetTip(snap, node, landing, pre);
    }
  }

  lemma ObjectResetTip(snap: Snap, node: Key, landing: Id, pre: State)
    requires node.kind != File && landing != NO_COMMIT && ResetsTo(snap, node, landing, pre)
    ensures node in pre.tips && pre.tips[node] == landing
  {
  }

  /** The state to publish for a resolved target. */
  method Plan(store: LockedStore, node: Key, landing: Id, limit: nat) returns (r: Result<State, ResetFailure>)
    requires Sound(store.Now()) && WithinGuard(store.Now(), limit)
    requires landing == NO_COMMIT || NodeOf(store.Now(), landing) == Some(node)
    ensures r.Ok? <==> (node.kind == File ==> FileResetAllowed(store.Now(), node, landing))
    ensures r.Ok? ==> ResetsTo(store.Now(), node, landing, r.value)
    ensures r.Err? ==> node.kind == File && PlanRefused(store.Now(), node, landing, r.error)
  {
    if node.kind == File {
      r := PlanFileReset(store, node, landing, limit);
    } else {
      var pre := PlanObjectReset(store, node, landing, limit);
      r := Ok(pre);
    }
  }

  /**
   * The reset command. It succeeds exactly when the target is outside blocks and on the file named, a range
   * under it or a journal, and a file's snapshot and place can be had again. It then publishes
   * the moved state, with the publication number unchanged unless the object is gone,
   * and records itself on what remains of the chain. When it fails nothing has changed.
   */
  method ResetCommand(store: LockedStore, fileNode: Key, target: Id, cid: Id, limit: nat)
    returns (r: Result<Id, ResetFailure>, ghost mid: State)
    requires Sound(store.Now()) && WithinGuard(store.Now(), limit) && Fresh(store.disk, cid)
    modifies store
    ensures r.Ok? <==> ResetAllowed(old(store.Now()), fileNode, target)
    ensures r.Err? ==> store.Now() == old(store.Now()) && ResetRefused(old(store.Now()), fileNode, target, r.error)
    ensures r.Ok? <==> MayGoBack(old(store.Now()), fileNode, target)
    ensures r.Ok? ==> ResetDone(old(store.Now()), NodeOf(old(store.Now()), target).value,
      Landing(old(store.disk)[target], target), cid, mid, store.Now())
    ensures r.Ok? ==> var node := NodeOf(old(store.Now()), target).value;
      && NodeGoesBack(old(store.Now()), node, target, cid, store.Now())
      && OthersGoBack(old(store.Now()), node, target, store.Now())
      && LinksGoBack(old(store.Now()), store.Now(), cid)
      && FieldsGoBack(old(store.Now()), node, target, cid, store.Now())
  {
    ghost var was := store.Now();
    mid := store.state;
    AllowedIff(was, fileNode, target);
    var resolved := ResolveTarget(store, fileNode, target, limit);
    if resolved.Err? {
      r := Err(resolved.error);
      return;
    }
    var (node, landing) := resolved.value;
    LandingOnNode(was, target);
    var plan := Plan(store, node, landing, limit);
    if plan.Err? {
      PlanRefusedMeans(was, fileNode, target, node, plan.error);
      r := Err(plan.error);
      return;
    }
    mid := plan.value;
    store.SetState(plan.value);
    if landing == NO_COMMIT {
      r := Ok(NO_COMMIT);
    } else {
      PlannedResetIsUsable(was, node, landing, mid);
      MarkerForm(Snap(was.disk, mid), node, cid);
      var done := store.CommitTo(Marker, Named(node), Reset, None, NO_FIELDS, cid);
      r := Ok(cid);
    }
    ResetGoesBack(was, node, target, cid, mid, store.Now());
  }
}
