/** Reset: moving tips back, and what that withdraws. */
module Resets {
  import opened Records
  import opened Chains
  import opened Blocks
  import opened StoreState
  import opened Pipeline

  // ---- The walk from the tip to the landing ----

  /** The commits met walking back from c[0] before the landing. */
  function Above(c: seq<Id>, landing: Id): seq<Id> {
    if c == [] || c[0] == landing then [] else [c[0]] + Above(c[1..], landing)
  }

  ghost function Removed(disk: Disk, tip: Id, landing: Id): set<Id> {
    if HasChain(disk, tip) then set id | id in Above(ChainOf(disk, tip), landing) else {}
  }

  lemma {:induction false} AboveStops(c: seq<Id>, landing: Id, i: nat)
    requires i < |c| && c[i] == landing && forall j :: 0 <= j < i ==> c[j] != landing
    ensures Above(c, landing) == c[..i]
    decreases i
  {
    if i > 0 {
      AboveStops(c[1..], landing, i - 1);
      assert [c[0]] + c[1..][..i - 1] == c[..i];
    }
  }

  lemma {:induction false} AboveAll(c: seq<Id>, landing: Id)
    requires landing !in c
    ensures Above(c, landing) == c
    decreases |c|
  {
    if c != [] {
      assert forall id :: id in c[1..] ==> id in c;
      AboveAll(c[1..], landing);
    }
  }

  /** A landing on the chain takes away exactly the commits above it. */
  lemma RemovedAboveAncestor(disk: Disk, tip: Id, landing: Id)
    requires HasChain(disk, tip) && landing in ChainOf(disk, tip)
    ensures HasChain(disk, landing)
    ensures forall id :: id in Removed(disk, tip, landing) <==>
      id in ChainOf(disk, tip) && id !in ChainOf(disk, landing)
  {
    var c := ChainOf(disk, tip);
    var i :| 0 <= i < |c| && c[i] == landing;
    ChainSuffix(disk, c, i);
    assert IsChain(disk, c[i..]) && c[i..][0] == landing;
    ChainUnique(disk, c[i..], ChainOf(disk, landing));
    forall j: nat | j < i
      ensures c[j] != landing
    {
      if c[j] == landing {
        ChainDistinct(disk, c, j, i);
      }
    }
    AboveStops(c, landing, i);
    forall id
      ensures id in c[..i] <==> id in c && id !in c[i..]
    {
      SplitMembership(disk, c, i, id);
    }
  }

  lemma SplitMembership(disk: Disk, c: seq<Id>, i: nat, id: Id)
    requires IsChain(disk, c) && i <= |c|
    ensures id in c[..i] <==> id in c && id !in c[i..]
  {
    if id in c[..i] && id in c[i..] {
      var j :| 0 <= j < i && c[..i][j] == id;
      var k :| 0 <= k < |c| - i && c[i..][k] == id;
      ChainDistinct(disk, c, j, i + k);
    }
    assert c == c[..i] + c[i..];
  }

  /** A landing off the chain takes all of it away, commits that the landing shares included. */
  lemma RemovedOffChain(disk: Disk, tip: Id, landing: Id)
    requires HasChain(disk, tip) && landing !in ChainOf(disk, tip)
    ensures Removed(disk, tip, landing) == set id | id in ChainOf(disk, tip)
  {
    AboveAll(ChainOf(disk, tip), landing);
  }

  // ---- Moving tips ----

  /** The commits that a set of moves takes away. */
  ghost function Withdrawn(disk: Disk, s: State, moves: map<Key, Id>): set<Id> {
    set k, id | k in moves && id in Removed(disk, TipOf(s, k), moves[k]) :: id
  }

  function MovedTips(tips: map<Key, Id>, moves: map<Key, Id>): map<Key, Id> {
    map k | k in tips.Keys + moves.Keys && !(k in moves && moves[k] == NO_COMMIT) :: if k in moves then moves[k]
      else tips[k]
  }

  function KeptLinks(links: map<LinkId, Link>, gone: set<Id>): map<LinkId, Link> {
    map l | l in links && links[l].createdBy !in gone :: links[l]
  }

  function KeptPending(pending: map<LinkId, set<Id>>, links: map<LinkId, Link>, gone: set<Id>): map<LinkId, set<Id>> {
    map l | l in pending && l in links :: pending[l] - gone
  }

  /** The state once each object in moves has gone back to its landing (NO_COMMIT: to nothing). */
  ghost function Moved(disk: Disk, s: State, moves: map<Key, Id>): State {
    var gone := Withdrawn(disk, s, moves);
    var links := KeptLinks(s.links, gone);
    s.(tips := MovedTips(s.tips, moves), links := links, pending := KeptPending(s.pending, links, gone))
  }

  /** Moving one more object is one more application of the same step. */
  lemma MovedStep(disk: Disk, s: State, moves: map<Key, Id>, st: State, k: Key, landing: Id)
    requires k !in moves
    requires var was := Moved(disk, s, moves); st.tips == was.tips && st.links == was.links && st.pending == was.pending
    ensures var more := moves[k := landing];
      var next := Moved(disk, st, map[k := landing]);
      var all := Moved(disk, s, more);
      next.tips == all.tips && next.links == all.links && next.pending == all.pending
  {
    var one := map[k := landing];
    var more := moves[k := landing];
    assert TipOf(st, k) == TipOf(s, k);
    WithdrawnStep(disk, s, moves, st, k, landing);
    TipsStep(s.tips, moves, k, landing);
    LinksStep(s.links, s.pending, Withdrawn(disk, s, moves), Withdrawn(disk, st, one));
  }

  lemma WithdrawnStep(disk: Disk, s: State, moves: map<Key, Id>, st: State, k: Key, landing: Id)
    requires k !in moves && TipOf(st, k) == TipOf(s, k)
    ensures Withdrawn(disk, s, moves[k := landing])
      == Withdrawn(disk, s, moves) + Withdrawn(disk, st, map[k := landing])
  {
    var more := moves[k := landing];
    forall id
      ensures id in Withdrawn(disk, s, more) <==>
        id in Withdrawn(disk, s, moves) || id in Withdrawn(disk, st, map[k := landing])
    {
      if id in Withdrawn(disk, s, moves) {
        var j :| j in moves && id in Removed(disk, TipOf(s, j), moves[j]);
        assert j in more && more[j] == moves[j];
      }
      if id in Withdrawn(disk, st, map[k := landing]) {
        assert k in more && id in Removed(disk, TipOf(s, k), more[k]);
      }
      if id in Withdrawn(disk, s, more) {
        var j :| j in more && id in Removed(disk, TipOf(s, j), more[j]);
        var one := map[k := landing];
        assert j == k ==> k in one && id in Removed(disk, TipOf(st, k), one[k]);
        assert j != k ==> j in moves && more[j] == moves[j];
      }
    }
  }

  lemma TipsStep(tips: map<Key, Id>, moves: map<Key, Id>, k: Key, landing: Id)
    requires k !in moves
    ensures MovedTips(MovedTips(tips, moves), map[k := landing]) == MovedTips(tips, moves[k := landing])
  {
  }

  lemma LinksStep(links: map<LinkId, Link>, pending: map<LinkId, set<Id>>, a: set<Id>, b: set<Id>)
    ensures KeptLinks(KeptLinks(links, a), b) == KeptLinks(links, a + b)
    ensures KeptPending(KeptPending(pending, KeptLinks(links, a), a), KeptLinks(links, a + b), b)
      == KeptPending(pending, KeptLinks(links, a + b), a + b)
  {
    var all := KeptLinks(links, a + b);
    assert forall l :: l in pending ==> (pending[l] - a) - b == pending[l] - (a + b);
  }

  lemma OneMove(disk: Disk, s: State, node: Key, landing: Id)
    ensures Withdrawn(disk, s, map[node := landing]) == Removed(disk, TipOf(s, node), landing)
    ensures MovedTips(s.tips, map[node := landing]) == if landing == NO_COMMIT then s.tips - {node}
      else s.tips[node := landing]
  {
    var moves := map[node := landing];
    assert forall id :: id in Removed(disk, TipOf(s, node), moves[node]) ==> id in Withdrawn(disk, s, moves);
  }

  // ---- What a reset is allowed to do ----

  /** commit_to_node: the object a retained commit belongs to. */
  ghost function NodeOf(snap: Snap, id: Id): Option<Key> {
    if id in snap.state.retained && HasChain(snap.disk, id) then
      match Describe(snap.disk, ChainOf(snap.disk, id))
      case Ok(facts) => Some(Key(facts.kind, facts.root))
      case Err(_) => None
    else None
  }

  /** The reset target must be on the file the command names, on a range under it, or on a journal. */
  predicate Belongs(s: State, node: Key, fileNode: Key) {
    match node.kind
    case File => node == fileNode
    case Range => Mounted(s, fileNode, node)
    case _ => true
  }

  /** A snapshot entry that a file reset accepts: an outermost commit of that very range, which is the file's. */
  ghost predicate ChildOk(snap: Snap, node: Key, child: Key, tip: Id) {
    && NodeOf(snap, tip) == Some(child) && child.kind == Range
    && HasChain(snap.disk, tip) && MembershipOf(snap.disk, tip).None?
    && ParentAt(snap.disk, tip) == Some(node)
  }

  ghost function ParentAt(disk: Disk, tip: Id): Option<Key>
    requires HasChain(disk, tip)
  {
    match Describe(disk, ChainOf(disk, tip))
    case Ok(facts) => facts.parent
    case Err(_) => None
  }

  ghost function LocationAt(disk: Disk, tip: Id): Option<string>
    requires HasChain(disk, tip)
  {
    match Describe(disk, ChainOf(disk, tip))
    case Ok(facts) => facts.location
    case Err(_) => None
  }

  ghost predicate FileResetAllowed(snap: Snap, node: Key, landing: Id) {
    && landing != NO_COMMIT && HasChain(snap.disk, landing)
    && (forall c :: c in snap.disk[landing].rangeTips ==> ChildOk(snap, node, c, snap.disk[landing].rangeTips[c]))
    && NoOtherContent(snap, node, LocationAt(snap.disk, landing))
  }

  /** No content file other than node is at the place. */
  ghost predicate NoOtherContent(snap: Snap, node: Key, at: Option<string>) {
    at.Some? && Occupied(snap, at.value, false) ==> HolderOf(snap, at.value, false) == node
  }

  function PlacedAt(s: State, node: Key, at: Option<string>): map<Key, string> {
    if at.Some? then s.locations[node := at.value] else s.locations - {node}
  }

  ghost predicate ResetAllowed(snap: Snap, fileNode: Key, target: Id) {
    && NodeOf(snap, target).Some? && HasChain(snap.disk, target)
    && Belongs(snap.state, NodeOf(snap, target).value, fileNode)
    && MembershipOf(snap.disk, target).None?
    && (NodeOf(snap, target).value.kind == File ==>
          FileResetAllowed(snap, NodeOf(snap, target).value, Landing(snap.disk[target], target)))
  }

  // ---- What it does ----

  /** The ranges under a file that a snapshot does not list. */
  function Dropped(s: State, node: Key, tips: map<Key, Id>): set<Key> {
    set c | c in ChildrenOf(s, node) && c !in tips
  }

  function ToNothing(gone: set<Key>): map<Key, Id> {
    map c | c in gone :: NO_COMMIT
  }

  /** Every range of the file goes to its tip in the snapshot, or to nothing; the file goes to the landing. */
  function FileMoves(s: State, node: Key, landing: Id, tips: map<Key, Id>): map<Key, Id> {
    ToNothing(Dropped(s, node, tips)) + tips + map[node := landing]
  }

  predicate SameProjection(s: State, t: State) {
    s.tips == t.tips && s.links == t.links && s.pending == t.pending
  }

  /** The file's ranges become exactly kept, in their old order with restored ones at the end. */
  ghost predicate MountsRestored(before: map<Key, seq<Key>>, after: map<Key, seq<Key>>, node: Key, kept: set<Key>) {
    && (forall p :: p != node ==> (p in after <==> p in before))
    && (forall p :: p != node && p in before ==> after[p] == before[p])
    && (node in after <==> node in before || kept != {})
    && (node in after ==> Distinct(after[node]) && forall c :: c in after[node] <==> c in kept)
    && (node in before ==> KeptOrder(before[node], kept) <= after[node])
  }

  function KeptOrder(children: seq<Key>, kept: set<Key>): seq<Key> {
    if children == [] then []
    else (if children[0] in kept then [children[0]] else []) + KeptOrder(children[1..], kept)
  }

  /** tip is where the snapshot puts a range that is elsewhere now. */
  ghost predicate Replaces(s: State, tips: map<Key, Id>, tip: Id) {
    exists c :: c in tips && tips[c] == tip && TipOf(s, c) != tip
  }

  predicate SameAt(a: map<Id, Id>, b: map<Id, Id>, id: Id) {
    (id in a <==> id in b) && (id in a ==> a[id] == b[id])
  }

  /** reset_from gets, for each restored tip that differs, the tip it replaced. */
  ghost predicate ResetFromRestored(s: State, after: map<Id, Id>, tips: map<Key, Id>) {
    && (forall c :: c in tips && TipOf(s, c) != tips[c] ==> tips[c] in after && after[tips[c]] == TipOf(s, c))
    && (forall id :: !Replaces(s, tips, id) ==> SameAt(s.resetFrom, after, id))
  }

  ghost predicate FileResetTo(snap: Snap, node: Key, landing: Id, pre: State)
    requires HasChain(snap.disk, landing)
  {
    var s := snap.state;
    var tips := snap.disk[landing].rangeTips;
    && SameProjection(pre, Moved(snap.disk, s, FileMoves(s, node, landing, tips)))
    && pre.publication == s.publication && pre.retained == s.retained && pre.inbound == s.inbound
    && pre.locations == PlacedAt(s, node, LocationAt(snap.disk, landing))
    && MountsRestored(s.mounts, pre.mounts, node, tips.Keys)
    && pre.openBlocks == s.openBlocks - Dropped(s, node, tips)
    && ResetFromRestored(s, pre.resetFrom, tips)
  }

  /** Mounts without a range, and without the lists that are or become empty. */
  function Unmounted(mounts: map<Key, seq<Key>>, node: Key): map<Key, seq<Key>> {
    map p | p in mounts && KeptOrder(mounts[p], Others(mounts[p], node)) != [] ::
      KeptOrder(mounts[p], Others(mounts[p], node))
  }

  function Others(children: seq<Key>, node: Key): set<Key> {
    set c | c in children && c != node
  }

  /** The state that a reset publishes before it records itself. */
  ghost predicate ResetsTo(snap: Snap, node: Key, landing: Id, pre: State)
    requires node.kind == File ==> HasChain(snap.disk, landing)
  {
    var s := snap.state;
    if node.kind == File then FileResetTo(snap, node, landing, pre)
    else if landing == NO_COMMIT then
      pre == Moved(snap.disk, s, map[node := NO_COMMIT]).(
        mounts := Unmounted(s.mounts, node), openBlocks := s.openBlocks - {node}, publication := s.publication + 1)
    else pre == Moved(snap.disk, s, map[node := landing])
  }

  /** A reset that went through: mid is published first, then the reset's own commit. */
  ghost predicate ResetDone(before: Snap, node: Key, landing: Id, cid: Id, mid: State, after: Snap) {
    && (node.kind == File ==> HasChain(before.disk, landing))
    && ResetsTo(before, node, landing, mid)
    && if landing == NO_COMMIT then after == Snap(before.disk, mid)
       else Append(Snap(before.disk, mid), Marker, Named(node), Reset, None, NO_FIELDS, cid) == Ok(after)
  }
}
