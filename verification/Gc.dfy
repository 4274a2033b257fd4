/** Garbage collection: what it keeps, and that the store stays sound. */
module Gc {
  import opened Records
  import opened Chains
  import opened Blocks
  import opened StoreState
  import opened Pipeline
  import opened PipelineLaws
  import opened BlockLaws
  import opened Store

  // ---- What must stay ----

  function TipSeeds(s: State): set<Id> {
    set k | k in s.tips :: s.tips[k]
  }

  function LinkSeeds(s: State): set<Id> {
    (set l | l in s.links :: s.links[l].terms.sourceVersion)
    + (set l | l in s.links :: s.links[l].terms.targetVersion)
    + (set l | l in s.links :: s.links[l].createdBy)
  }

  /** The commits that live notes annotate. */
  function NoteSeeds(disk: Disk, s: State): set<Id> {
    set k | k in s.tips && k.kind == Note && k.root in disk && disk[k.root].payload.target.Some? ::
      disk[k.root].payload.target.value
  }

  /** held: the targets of the inbound credentials that are not orphaned. */
  function Seeds(disk: Disk, s: State, held: set<Id>): set<Id> {
    TipSeeds(s) + held + LinkSeeds(s) + NoteSeeds(disk, s)
  }

  function RefsOf(r: Record): set<Id> {
    (if r.previous == NO_COMMIT then {} else {r.previous}) + r.rangeTips.Values
  }

  /** Every record of a commit in the set finds its predecessor and its snapshot there. */
  predicate Closed(disk: Disk, keep: set<Id>) {
    forall id :: id in keep && id in disk ==> RefsOf(disk[id]) <= keep
  }

  /** The least closed set above the seeds. */
  ghost predicate IsKeepSet(disk: Disk, s: State, held: set<Id>, keep: set<Id>) {
    && Seeds(disk, s, held) <= keep && Closed(disk, keep) && Needed(disk, Seeds(disk, s, held), keep)
  }

  /** Every closed set above the seeds holds all of keep. */
  ghost predicate Needed(disk: Disk, seeds: set<Id>, keep: set<Id>) {
    forall other :: seeds <= other && Closed(disk, other) ==> keep <= other
  }

  lemma KeepSetUnique(disk: Disk, s: State, held: set<Id>, a: set<Id>, b: set<Id>)
    requires IsKeepSet(disk, s, held, a) && IsKeepSet(disk, s, held, b)
    ensures a == b
  {
  }

  // ---- What the kept set is ----

  function Ends(link: Link): set<Id> {
    {link.terms.sourceVersion, link.terms.targetVersion, link.createdBy}
  }

  /**
   * A commit that gc keeps for its own sake: a live tip, a version or the creator of an effective link, a
   * protected version, or the commit that the first record of a live note names.
   */
  ghost predicate IsRoot(disk: Disk, s: State, held: set<Id>, id: Id) {
    || (exists k :: k in s.tips && s.tips[k] == id)
    || (exists l :: l in s.links && id in Ends(s.links[l]))
    || id in held
    || (exists k :: k in s.tips && k.kind == Note && k.root in disk && disk[k.root].payload.target == Some(id))
  }

  /** The record of a names b as its predecessor or in its snapshot. */
  ghost predicate Names(disk: Disk, a: Id, b: Id) {
    && a in disk
    && ((disk[a].previous == b && b != NO_COMMIT)
        || exists c :: c in disk[a].rangeTips && disk[a].rangeTips[c] == b)
  }

  ghost predicate IsTrail(disk: Disk, s: State, held: set<Id>, p: seq<Id>) {
    p != [] && IsRoot(disk, s, held, p[0]) && forall i :: 0 <= i < |p| - 1 ==> Names(disk, p[i], p[i + 1])
  }

  /** A commit that some root leads to, by predecessors and snapshots. */
  ghost predicate Reached(disk: Disk, s: State, held: set<Id>, id: Id) {
    exists p :: IsTrail(disk, s, held, p) && p[|p| - 1] == id
  }

  lemma SeedIff(disk: Disk, s: State, held: set<Id>, id: Id)
    ensures id in Seeds(disk, s, held) <==> IsRoot(disk, s, held, id)
  {
    if k :| k in s.tips && s.tips[k] == id {
      assert id in TipSeeds(s);
    }
    if l :| l in s.links && id in Ends(s.links[l]) {
      assert id in LinkSeeds(s);
    }
    if k :| k in s.tips && k.kind == Note && k.root in disk && disk[k.root].payload.target == Some(id) {
      assert id in NoteSeeds(disk, s);
    }
  }

  lemma ReachedStep(disk: Disk, s: State, held: set<Id>, a: Id, b: Id)
    requires Reached(disk, s, held, a) && Names(disk, a, b)
    ensures Reached(disk, s, held, b)
  {
    var p :| IsTrail(disk, s, held, p) && p[|p| - 1] == a;
    assert IsTrail(disk, s, held, p + [b]);
  }

  lemma {:induction false} TrailStays(disk: Disk, s: State, held: set<Id>, keep: set<Id>, p: seq<Id>)
    requires IsTrail(disk, s, held, p) && Seeds(disk, s, held) <= keep && Closed(disk, keep)
    ensures p[|p| - 1] in keep
    decreases |p|
  {
    if |p| == 1 {
      SeedIff(disk, s, held, p[0]);
    } else {
      var q := p[..|p| - 1];
      forall i | 0 <= i < |q| - 1
        ensures Names(disk, q[i], q[i + 1])
      {
        assert Names(disk, p[i], p[i + 1]);
      }
      TrailStays(disk, s, held, keep, q);
      assert Names(disk, p[|p| - 2], p[|p| - 2 + 1]);
      assert p[|p| - 1] in RefsOf(disk[p[|p| - 2]]);
    }
  }

  /** The kept set holds exactly what the roots lead to. */
  lemma KeepSetIsReached(disk: Disk, s: State, held: set<Id>, keep: set<Id>)
    requires IsKeepSet(disk, s, held, keep)
    ensures forall id :: id in keep <==> Reached(disk, s, held, id)
  {
    forall id | Reached(disk, s, held, id)
      ensures id in keep
    {
      var p :| IsTrail(disk, s, held, p) && p[|p| - 1] == id;
      TrailStays(disk, s, held, keep, p);
    }
    ReachedCloses(disk, s, held, keep, set id | id in keep && Reached(disk, s, held, id));
  }

  lemma ReachedCloses(disk: Disk, s: State, held: set<Id>, keep: set<Id>, reached: set<Id>)
    requires Seeds(disk, s, held) <= keep && Closed(disk, keep)
    requires forall id :: id in reached <==> id in keep && Reached(disk, s, held, id)
    ensures Seeds(disk, s, held) <= reached && Closed(disk, reached)
  {
    forall id | id in Seeds(disk, s, held)
      ensures id in reached
    {
      SeedIff(disk, s, held, id);
      assert IsTrail(disk, s, held, [id]);
    }
    forall id | id in reached && id in disk
      ensures RefsOf(disk[id]) <= reached
    {
      RefsReached(disk, s, held, id);
    }
  }

  lemma RefsReached(disk: Disk, s: State, held: set<Id>, id: Id)
    requires id in disk && Reached(disk, s, held, id)
    ensures forall b :: b in RefsOf(disk[id]) ==> Reached(disk, s, held, b)
  {
    forall b | b in RefsOf(disk[id])
      ensures Reached(disk, s, held, b)
    {
      assert Names(disk, id, b);
      ReachedStep(disk, s, held, id, b);
    }
  }

  // ---- The worklist ----

  /** Everything that a record on disk can name. */
  ghost function Mentioned(disk: Disk): set<Id> {
    set c, id | c in disk && id in RefsOf(disk[c]) :: id
  }

  lemma RefsAreMentioned(disk: Disk, c: Id)
    requires c in disk
    ensures RefsOf(disk[c]) <= Mentioned(disk)
  {
  }

  /** Every kept commit whose references may be missing is still queued. */
  predicate Covered(disk: Disk, keep: set<Id>, queue: seq<Id>) {
    forall id :: id in keep && id in disk ==> id in queue || RefsOf(disk[id]) <= keep
  }

  /** Adds ids to the kept set and queues the new ones. */
  method Enqueue(keep: set<Id>, queue: seq<Id>, ids: set<Id>) returns (grown: set<Id>, longer: seq<Id>)
    ensures grown == keep + ids
    ensures queue <= longer && forall id :: id in longer <==> id in queue || (id in ids && id !in keep)
    ensures ids <= keep ==> longer == queue
  {
    grown, longer := keep, queue;
    var todo := ids;
    while todo != {}
      invariant todo <= ids
      invariant forall id :: id in grown <==> id in keep || (id in ids && id !in todo)
      invariant queue <= longer && forall id :: id in longer <==>
        id in queue || (id in ids && id !in todo && id !in keep)
      invariant ids <= keep ==> longer == queue
      decreases todo
    {
      var id :| id in todo;
      if id !in grown {
        grown, longer := grown + {id}, longer + [id];
      }
      todo := todo - {id};
    }
  }

  /** The walk from the tips: the live commits and their ancestors. */
  method Reachable(disk: Disk, s: State) returns (reachable: set<Id>)
    requires NO_COMMIT !in disk && forall k :: k in s.tips ==> HasChain(disk, s.tips[k])
    ensures forall id :: id in reachable <==> exists k :: k in s.tips && id in ChainOf(disk, s.tips[k])
  {
    reachable := {};
    var todo := s.tips.Keys;
    while todo != {}
      invariant todo <= s.tips.Keys
      invariant forall id :: id in reachable <==>
        exists k :: k in s.tips && k !in todo && id in ChainOf(disk, s.tips[k])
      decreases todo
    {
      var k :| k in todo;
      var added := WalkBack(disk, s, todo, reachable, s.tips[k]);
      reachable := reachable + added;
      todo := todo - {k};
    }
  }

  /** One tip's walk: it stops at the first commit seen before, whose ancestors have been seen too. */
  method WalkBack(disk: Disk, ghost s: State, ghost todo: set<Key>, reachable: set<Id>, tip: Id)
    returns (added: set<Id>)
    requires NO_COMMIT !in disk && HasChain(disk, tip) && (forall k :: k in s.tips ==> HasChain(disk, s.tips[k]))
    requires forall id :: id in reachable <==> exists k :: k in s.tips && k !in todo && id in ChainOf(disk, s.tips[k])
    ensures forall id :: id in reachable + added <==> id in reachable || id in ChainOf(disk, tip)
  {
    added := {};
    var cur := tip;
    ghost var c, i := ChainOf(disk, tip), 0;
    while cur != NO_COMMIT && cur !in reachable && cur !in added
      invariant 0 <= i <= |c| && cur == (if i < |c| then c[i] else NO_COMMIT)
      invariant forall id :: id in added <==> id in c[..i]
      decreases |c| - i
    {
      ChainElement(disk, c, i);
      assert c[..i + 1] == c[..i] + [c[i]];
      added := added + {cur};
      cur := if cur in disk then disk[cur].previous else NO_COMMIT;
      i := i + 1;
    }
    if i < |c| {
      ChainElement(disk, c, i);
      if cur in added {
        var j :| 0 <= j < i && c[..i][j] == c[i];
        ChainDistinct(disk, c, j, i);
      }
      RestSeen(disk, s, todo, c, i);
    }
    assert c == c[..i] + c[i..];
  }

  lemma RestSeen(disk: Disk, s: State, todo: set<Key>, c: seq<Id>, i: nat)
    requires IsChain(disk, c) && i < |c| && (forall k :: k in s.tips ==> HasChain(disk, s.tips[k]))
    requires exists k :: k in s.tips && k !in todo && c[i] in ChainOf(disk, s.tips[k])
    ensures exists k :: k in s.tips && k !in todo && forall id :: id in c[i..] ==> id in ChainOf(disk, s.tips[k])
  {
    var k :| k in s.tips && k !in todo && c[i] in ChainOf(disk, s.tips[k]);
    var d := ChainOf(disk, s.tips[k]);
    var j :| 0 <= j < |d| && d[j] == c[i];
    ChainSuffix(disk, c, i);
    ChainSuffix(disk, d, j);
    ChainUnique(disk, c[i..], d[j..]);
    forall id | id in c[i..]
      ensures id in d
    {
      assert id in d[j..];
    }
  }

  lemma {:induction false} ChainInClosed(disk: Disk, c: seq<Id>, keep: set<Id>)
    requires IsChain(disk, c) && Closed(disk, keep) && c[0] in keep
    ensures forall id :: id in c ==> id in keep
    decreases |c|
  {
    if |c| > 1 {
      ChainElement(disk, c, 1);
      assert disk[c[0]].previous in RefsOf(disk[c[0]]);
      ChainInClosed(disk, c[1..], keep);
    }
  }

  lemma StartIsNeeded(disk: Disk, s: State, held: set<Id>, reachable: set<Id>)
    requires forall k :: k in s.tips ==> HasChain(disk, s.tips[k])
    requires forall id :: id in reachable <==> exists k :: k in s.tips && id in ChainOf(disk, s.tips[k])
    ensures Needed(disk, Seeds(disk, s, held), reachable + Seeds(disk, s, held))
    ensures TipSeeds(s) <= reachable
  {
    forall other | Seeds(disk, s, held) <= other && Closed(disk, other)
      ensures reachable <= other
    {
      forall id | id in reachable
        ensures id in other
      {
        var k :| k in s.tips && id in ChainOf(disk, s.tips[k]);
        assert s.tips[k] in TipSeeds(s);
        ChainInClosed(disk, ChainOf(disk, s.tips[k]), other);
      }
    }
    forall k | k in s.tips
      ensures s.tips[k] in reachable
    {
      assert ChainOf(disk, s.tips[k])[0] in ChainOf(disk, s.tips[k]);
    }
  }

  lemma MoreIsNeeded(disk: Disk, seeds: set<Id>, keep: set<Id>, id: Id)
    requires Needed(disk, seeds, keep) && id in keep && id in disk
    ensures Needed(disk, seeds, keep + RefsOf(disk[id]))
  {
  }

  lemma CoveredStep(disk: Disk, keep: set<Id>, queue: seq<Id>, more: set<Id>, longer: seq<Id>, id: Id)
    requires Covered(disk, keep, queue + [id]) && keep <= more && queue <= longer
    requires forall x :: x in more && x !in keep ==> x in longer
    requires id in disk ==> RefsOf(disk[id]) <= more
    ensures Covered(disk, more, longer)
  {
  }

  /** The closure loop of gc: it computes the least closed set above the seeds. */
  method KeepSet(disk: Disk, s: State, held: set<Id>) returns (keep: set<Id>)
    requires NO_COMMIT !in disk && forall k :: k in s.tips ==> HasChain(disk, s.tips[k])
    ensures IsKeepSet(disk, s, held, keep)
    ensures forall id :: id in keep <==> Reached(disk, s, held, id)
  {
    ghost var seeds := Seeds(disk, s, held);
    var reachable := Reachable(disk, s);
    StartIsNeeded(disk, s, held, reachable);
    keep := reachable + held + LinkSeeds(s) + NoteSeeds(disk, s);
    assert keep == reachable + seeds;
    ghost var all := keep + Mentioned(disk);
    var none, queue := Enqueue({}, [], keep);
    while queue != []
      invariant Growing(disk, seeds, all, keep, queue)
      decreases all - keep, |queue|
    {
      keep, queue := KeepStep(disk, seeds, all, keep, queue);
    }
    KeepSetIsReached(disk, s, held, keep);
  }

  /** The worklist loop's invariant. */
  ghost predicate Growing(disk: Disk, seeds: set<Id>, all: set<Id>, keep: set<Id>, queue: seq<Id>) {
    && seeds <= keep <= all && Mentioned(disk) <= all
    && Covered(disk, keep, queue) && Needed(disk, seeds, keep)
    && forall id :: id in queue ==> id in keep
  }

  lemma LastOf(queue: seq<Id>)
    requires queue != []
    ensures queue == queue[..|queue| - 1] + [queue[|queue| - 1]]
  {
  }

  lemma Closer(all: set<Id>, was: set<Id>, keep: set<Id>)
    requires was < keep <= all
    ensures all - keep < all - was
  {
    var id :| id in keep && id !in was;
    assert id in all - was && id !in all - keep;
  }

  /** Takes one commit off the worklist and keeps what it refers to. */
  method KeepStep(disk: Disk, ghost seeds: set<Id>, ghost all: set<Id>, keep: set<Id>, queue: seq<Id>)
    returns (grown: set<Id>, longer: seq<Id>)
    requires queue != [] && Growing(disk, seeds, all, keep, queue)
    ensures Growing(disk, seeds, all, grown, longer)
    ensures all - grown < all - keep || (grown == keep && |longer| < |queue|)
  {
    var current, rest := queue[|queue| - 1], queue[..|queue| - 1];
    LastOf(queue);
    grown, longer := keep, rest;
    if current in disk {
      RefsAreMentioned(disk, current);
      MoreIsNeeded(disk, seeds, keep, current);
      grown, longer := Enqueue(keep, rest, RefsOf(disk[current]));
      if grown != keep {
        Closer(all, keep, grown);
      }
    }
    CoveredStep(disk, keep, rest, grown, longer, current);
  }

  // ---- Collecting the rest ----

  function KeptIds(ids: seq<Id>, gone: set<Id>): seq<Id> {
    if ids == [] then [] else (if ids[0] in gone then [] else [ids[0]]) + KeptIds(ids[1..], gone)
  }

  lemma {:induction false} KeptIdsMembers(ids: seq<Id>, gone: set<Id>)
    ensures forall id :: id in KeptIds(ids, gone) <==> id in ids && id !in gone
    decreases |ids|
  {
    if ids != [] {
      KeptIdsMembers(ids[1..], gone);
      assert ids == [ids[0]] + ids[1..];
    }
  }

  /** b is the list a without the ids in gone: the same entries in the same order. */
  ghost predicate Filters(a: seq<Id>, gone: set<Id>, b: seq<Id>) {
    exists at :: PickedAt(a, gone, b, at)
  }

  ghost predicate PickedAt(a: seq<Id>, gone: set<Id>, b: seq<Id>, at: seq<nat>) {
    && |at| == |b| && (forall i, j :: 0 <= i < j < |at| ==> at[i] < at[j])
    && (forall i :: 0 <= i < |at| ==> at[i] < |a| && b[i] == a[at[i]])
    && forall n :: 0 <= n < |a| ==> (n in at <==> a[n] !in gone)
  }

  lemma {:induction false} KeptIdsLast(ids: seq<Id>, gone: set<Id>, last: Id)
    ensures KeptIds(ids + [last], gone) == KeptIds(ids, gone) + if last in gone then [] else [last]
    decreases |ids|
  {
    if ids == [] {
      assert [] + [last] == [last];
    } else {
      assert (ids + [last])[1..] == ids[1..] + [last];
      KeptIdsLast(ids[1..], gone, last);
    }
  }

  lemma {:induction false} KeptIdsFilter(ids: seq<Id>, gone: set<Id>) returns (at: seq<nat>)
    ensures PickedAt(ids, gone, KeptIds(ids, gone), at)
    decreases |ids|
  {
    if ids == [] {
      at := [];
    } else {
      var n := |ids| - 1;
      assert ids == ids[..n] + [ids[n]];
      KeptIdsLast(ids[..n], gone, ids[n]);
      at := KeptIdsFilter(ids[..n], gone);
      PickedMore(ids[..n], gone, KeptIds(ids[..n], gone), at, ids[n]);
      at := at + if ids[n] in gone then [] else [n];
    }
  }

  lemma PickedMore(a: seq<Id>, gone: set<Id>, b: seq<Id>, at: seq<nat>, last: Id)
    requires PickedAt(a, gone, b, at)
    ensures if last in gone then PickedAt(a + [last], gone, b, at)
      else PickedAt(a + [last], gone, b + [last], at + [|a|])
  {
  }

  /** The state that gc publishes when it collects something. */
  function CollectedState(s: State, gone: set<Id>, orphans: set<Id>): State {
    s.(publication := s.publication + 1,
      retained := KeptIds(s.retained, gone),
      resetFrom := map id | id in s.resetFrom && id !in gone && s.resetFrom[id] !in gone :: s.resetFrom[id],
      pending := map l | l in s.pending :: s.pending[l] - gone,
      inbound := s.inbound - orphans)
  }

  function Collect(snap: Snap, keep: set<Id>, orphans: set<Id>): Snap {
    var gone := snap.disk.Keys - keep;
    if gone == {} && orphans == {} then snap
    else Snap(snap.disk - gone, CollectedState(snap.state, gone, orphans))
  }

  /** A kept commit keeps its whole chain. */
  lemma KeptChain(disk: Disk, keep: set<Id>, tip: Id, other: Disk)
    requires HasChain(disk, tip) && tip in keep && Closed(disk, keep) && other == disk - (disk.Keys - keep)
    ensures HasChain(other, tip) && ChainOf(other, tip) == ChainOf(disk, tip)
    ensures forall id :: id in ChainOf(disk, tip) ==> id in other && other[id] == disk[id]
  {
    var c := ChainOf(disk, tip);
    ChainInClosed(disk, c, keep);
    ChainMembers(disk, c);
    ChainOnOtherDisk(disk, other, c);
    ChainUnique(other, c, ChainOf(other, tip));
  }

  lemma {:induction false} LocationOnKeptDisk(disk: Disk, other: Disk, c: seq<Id>)
    requires IsChain(disk, c) && forall id :: id in c ==> id in disk && id in other && other[id] == disk[id]
    ensures IsChain(other, c) && LocationAfter(other, c) == LocationAfter(disk, c)
    decreases |c|
  {
    assert c[0] in c;
    if |c| > 1 {
      assert forall id :: id in c[1..] ==> id in c;
      LocationOnKeptDisk(disk, other, c[1..]);
    }
  }

  lemma KeptDescribes(disk: Disk, keep: set<Id>, tip: Id, other: Disk)
    requires HasChain(disk, tip) && tip in keep && Closed(disk, keep) && other == disk - (disk.Keys - keep)
    ensures HasChain(other, tip) && Describe(other, ChainOf(other, tip)) == Describe(disk, ChainOf(disk, tip))
  {
    KeptChain(disk, keep, tip, other);
    var c := ChainOf(disk, tip);
    ChainMembers(disk, c);
    LocationOnKeptDisk(disk, other, c);
    ChainElement(disk, c, |c| - 1);
    assert c[|c| - 1] in c;
  }

  lemma GcKeepsTip(snap: Snap, keep: set<Id>, orphans: set<Id>, k: Key)
    requires k in snap.state.tips && TipOk(snap.disk, snap.state, k) && snap.state.tips[k] in keep
    requires Closed(snap.disk, keep)
    ensures TipOk(Collect(snap, keep, orphans).disk, Collect(snap, keep, orphans).state, k)
    ensures k.root in keep && k.root in snap.disk
  {
    var after := Collect(snap, keep, orphans);
    var c := ChainOf(snap.disk, snap.state.tips[k]);
    ChainInClosed(snap.disk, c, keep);
    ChainElement(snap.disk, c, |c| - 1);
    assert k.root == c[|c| - 1];
    if after != snap {
      KeptDescribes(snap.disk, keep, snap.state.tips[k], after.disk);
      assert forall p :: Mounted(after.state, p, k) <==> Mounted(snap.state, p, k);
      assert LocationOf(after.state, k) == LocationOf(snap.state, k);
    }
  }

  lemma TipsAreKept(disk: Disk, s: State, held: set<Id>, keep: set<Id>)
    requires IsKeepSet(disk, s, held, keep)
    ensures forall k :: k in s.tips ==> s.tips[k] in keep
    ensures forall l :: l in s.links ==>
      s.links[l].terms.sourceVersion in keep && s.links[l].terms.targetVersion in keep && s.links[l].createdBy in keep
  {
    forall k | k in s.tips
      ensures s.tips[k] in keep
    {
      assert s.tips[k] in TipSeeds(s) && TipSeeds(s) <= Seeds(disk, s, held);
    }
    forall l | l in s.links
      ensures s.links[l].terms.sourceVersion in keep && s.links[l].terms.targetVersion in keep
      ensures s.links[l].createdBy in keep
    {
      assert {s.links[l].terms.sourceVersion, s.links[l].terms.targetVersion, s.links[l].createdBy} <= LinkSeeds(s);
      assert LinkSeeds(s) <= Seeds(disk, s, held);
    }
  }

  lemma GcKeepsShape(s: State, t: State)
    requires ShapeOk(s) && t.mounts == s.mounts && t.locations == s.locations && t.tips == s.tips
    ensures ShapeOk(t)
  {
    forall p | p in t.mounts
      ensures MountOk(t, p)
    {
      assert MountOk(s, p) && ChildrenOf(t, p) == ChildrenOf(s, p);
    }
  }

  lemma GcKeepsPlaces(disk: Disk, s: State, other: Disk, t: State)
    requires PlacesUnique(disk, s) && t.locations == s.locations
    requires forall k :: k in s.locations ==> k.root in disk && k.root in other && other[k.root] == disk[k.root]
    ensures PlacesUnique(other, t)
  {
    assert forall k :: k in s.locations ==> PlaceOf(other, t, k) == PlaceOf(disk, s, k);
  }

  /** Gc keeps the index: every live object keeps its chain, its root and its place. */
  lemma GcKeepsIndex(snap: Snap, held: set<Id>, keep: set<Id>, orphans: set<Id>)
    requires Sound(snap) && IsKeepSet(snap.disk, snap.state, held, keep)
    ensures IndexOk(Collect(snap, keep, orphans).disk, Collect(snap, keep, orphans).state)
  {
    SoundMeans(snap);
    var after := Collect(snap, keep, orphans);
    TipsAreKept(snap.disk, snap.state, held, keep);
    forall k | k in snap.state.tips.Keys
      ensures TipOk(after.disk, after.state, k) && k.root in keep && k.root in snap.disk
    {
      GcKeepsTip(snap, keep, orphans, k);
    }
    assert AllTipsOk(after.disk, after.state, after.state.tips.Keys);
    GcKeepsShape(snap.state, after.state);
    assert forall k :: k in snap.state.locations ==> k in snap.state.tips;
    GcKeepsPlaces(snap.disk, snap.state, after.disk, after.state);
  }

  /** Gc keeps the state coherent: whatever stays retained keeps its ancestry and its snapshots on disk. */
  lemma GcKeepsCoherent(snap: Snap, held: set<Id>, keep: set<Id>, orphans: set<Id>)
    requires Sound(snap) && IsKeepSet(snap.disk, snap.state, held, keep)
    ensures Coherent(Collect(snap, keep, orphans).disk, Collect(snap, keep, orphans).state)
  {
    SoundMeans(snap);
    var after := Collect(snap, keep, orphans);
    var gone := snap.disk.Keys - keep;
    if after != snap {
      KeptIdsMembers(snap.state.retained, gone);
      TipsAreKept(snap.disk, snap.state, held, keep);
      forall id | id in after.state.retained
        ensures HasChain(after.disk, id)
        ensures RefsOf(after.disk[id]) <= keep && after.disk[id] == snap.disk[id]
      {
        RetainedOnDisk(snap, id);
        KeptChain(snap.disk, keep, id, after.disk);
      }
      RetainedRefs(snap, after, keep);
      forall l | l in after.state.links
        ensures LinkCoherent(after.state, after.state.links[l])
      {
        assert LinkCoherent(snap.state, snap.state.links[l]);
      }
    }
  }

  lemma RetainedOnDisk(snap: Snap, id: Id)
    requires Sound(snap) && id in snap.state.retained
    ensures HasChain(snap.disk, id) && id in snap.disk
  {
    SoundMeans(snap);
  }

  lemma RetainedRefs(snap: Snap, after: Snap, keep: set<Id>)
    requires Sound(snap)
    requires forall id :: id in after.state.retained <==> id in snap.state.retained && id !in snap.disk.Keys - keep
    requires forall id :: id in after.state.retained ==>
      id in after.disk && id in snap.disk && RefsOf(after.disk[id]) <= keep && after.disk[id] == snap.disk[id]
    ensures forall id :: id in after.state.retained && after.disk[id].previous != NO_COMMIT ==>
      after.disk[id].previous in after.state.retained
    ensures forall id, k :: id in after.state.retained && k in after.disk[id].rangeTips ==>
      after.disk[id].rangeTips[k] in after.state.retained
  {
    SoundMeans(snap);
    forall id | id in after.state.retained && after.disk[id].previous != NO_COMMIT
      ensures after.disk[id].previous in after.state.retained
    {
      assert after.disk[id].previous in RefsOf(after.disk[id]);
    }
    forall id, k | id in after.state.retained && k in after.disk[id].rangeTips
      ensures after.disk[id].rangeTips[k] in after.state.retained
    {
      assert after.disk[id].rangeTips[k] in RefsOf(after.disk[id]);
    }
  }

  /** What gc leaves on disk is exactly the kept part of what was there, and kept commits keep their chains. */
  lemma GcKeepsExactly(snap: Snap, held: set<Id>, keep: set<Id>, orphans: set<Id>, id: Id)
    requires Sound(snap) && IsKeepSet(snap.disk, snap.state, held, keep)
    ensures var after := Collect(snap, keep, orphans);
      && (id in after.disk <==> id in snap.disk && id in keep)
      && (id in after.disk ==> after.disk[id] == snap.disk[id])
      && (id in keep && HasChain(snap.disk, id) ==>
        HasChain(after.disk, id) && ChainOf(after.disk, id) == ChainOf(snap.disk, id))
  {
    SoundMeans(snap);
    if id in keep && HasChain(snap.disk, id) && Collect(snap, keep, orphans) != snap {
      KeptChain(snap.disk, keep, id, Collect(snap, keep, orphans).disk);
    }
  }

  /** The whole ancestry of every protected commit survives. */
  lemma HeldSurvives(snap: Snap, held: set<Id>, keep: set<Id>, orphans: set<Id>, version: Id)
    requires Sound(snap) && IsKeepSet(snap.disk, snap.state, held, keep) && version in held
    requires HasChain(snap.disk, version)
    ensures var after := Collect(snap, keep, orphans);
      HasChain(after.disk, version) && ChainOf(after.disk, version) == ChainOf(snap.disk, version)
  {
    GcKeepsExactly(snap, held, keep, orphans, version);
  }

  lemma GcKeepsBlocks(snap: Snap, held: set<Id>, keep: set<Id>, orphans: set<Id>)
    requires Sound(snap) && IsKeepSet(snap.disk, snap.state, held, keep) && BlocksFollow(snap.disk, snap.state)
    ensures BlocksFollow(Collect(snap, keep, orphans).disk, Collect(snap, keep, orphans).state)
  {
    var after := Collect(snap, keep, orphans);
    TipsAreKept(snap.disk, snap.state, held, keep);
    if after != snap {
      forall k | k in after.state.tips
        ensures BlocksAt(after.disk, after.state, k)
      {
        assert BlocksAt(snap.disk, snap.state, k);
        KeptChain(snap.disk, keep, snap.state.tips[k], after.disk);
        OpenOnKeptDisk(snap.disk, after.disk, ChainOf(snap.disk, snap.state.tips[k]));
      }
    }
  }

  lemma {:induction false} OpenOnKeptDisk(disk: Disk, other: Disk, c: seq<Id>)
    requires IsChain(disk, c) && forall id :: id in c ==> id in disk && id in other && other[id] == disk[id]
    ensures IsChain(other, c) && OpenAfter(other, c) == OpenAfter(disk, c)
    decreases |c|
  {
    assert c[0] in c;
    if |c| > 1 {
      assert forall id :: id in c[1..] ==> id in c;
      OpenOnKeptDisk(disk, other, c[1..]);
    }
  }

  // ---- The command ----

  /** The state after gc: the lists and maps of commits without the collected ones, nothing else changed. */
  ghost predicate Swept(s: State, t: State, collected: set<Id>, orphans: set<Id>) {
    if collected == {} && orphans == {} then t == s
    else
      && t.publication == s.publication + 1 && t.inbound == s.inbound - orphans
      && t.tips == s.tips && t.mounts == s.mounts && t.locations == s.locations && t.openBlocks == s.openBlocks
      && t.links == s.links
      && Filters(s.retained, collected, t.retained)
      && (forall id :: id in t.resetFrom <==>
            id in s.resetFrom && id !in collected && s.resetFrom[id] !in collected)
      && (forall id :: id in t.resetFrom ==> t.resetFrom[id] == s.resetFrom[id])
      && (forall l :: l in t.pending <==> l in s.pending)
      && (forall l, id :: l in t.pending ==> (id in t.pending[l] <==> id in s.pending[l] && id !in collected))
  }

  lemma CollectSweeps(snap: Snap, keep: set<Id>, orphans: set<Id>)
    ensures Swept(snap.state, Collect(snap, keep, orphans).state, snap.disk.Keys - keep, orphans)
  {
    var gone := snap.disk.Keys - keep;
    if gone != {} || orphans != {} {
      var at := KeptIdsFilter(snap.state.retained, gone);
    }
  }

  /** Everything that a root leads back to stays on disk. */
  lemma RootSurvives(snap: Snap, held: set<Id>, keep: set<Id>, orphans: set<Id>, id: Id)
    requires Sound(snap) && IsKeepSet(snap.disk, snap.state, held, keep)
    requires IsRoot(snap.disk, snap.state, held, id) && HasChain(snap.disk, id)
    ensures var after := Collect(snap, keep, orphans);
      HasChain(after.disk, id) && ChainOf(after.disk, id) == ChainOf(snap.disk, id)
  {
    SeedIff(snap.disk, snap.state, held, id);
    GcKeepsExactly(snap, held, keep, orphans, id);
  }

  /**
   * The record part of the gc command. The new state is published before any record is
   * deleted. A record stays on disk exactly when a root leads to it: a live tip, a version or creator of a
   * link, a protected version, or the commit that a live note annotates. Whatever roots have a chain keep it.
   */
  method CollectGarbage(store: LockedStore, held: set<Id>, orphans: set<Id>) returns (collected: set<Id>, keep: set<Id>)
    requires Sound(store.Now())
    modifies store
    ensures IsKeepSet(old(store.disk), old(store.state), held, keep) && collected == old(store.disk).Keys - keep
    ensures store.Now() == Collect(old(store.Now()), keep, orphans) && Sound(store.Now())
    ensures forall id :: id in store.disk <==>
      id in old(store.disk) && Reached(old(store.disk), old(store.state), held, id)
    ensures forall id :: id in store.disk ==> store.disk[id] == old(store.disk)[id]
    ensures forall id :: IsRoot(old(store.disk), old(store.state), held, id) && HasChain(old(store.disk), id) ==>
      HasChain(store.disk, id) && ChainOf(store.disk, id) == ChainOf(old(store.disk), id)
    ensures Swept(old(store.state), store.state, collected, orphans)
  {
    SoundMeans(store.Now());
    keep := KeepSet(store.disk, store.state, held);
    GcKeepsIndex(store.Now(), held, keep, orphans);
    GcKeepsCoherent(store.Now(), held, keep, orphans);
    GcMeans(store.Now(), held, keep, orphans);
    collected := Candidates(store.disk, keep);
    if collected == {} && orphans == {} {
      return;
    }
    store.SetState(CollectedState(store.state, collected, orphans));
    RemoveAll(store, collected);
    SoundMeans(store.Now());
  }

  lemma GcMeans(snap: Snap, held: set<Id>, keep: set<Id>, orphans: set<Id>)
    requires Sound(snap) && IsKeepSet(snap.disk, snap.state, held, keep)
    ensures var after := Collect(snap, keep, orphans);
      && (forall id :: id in after.disk <==> id in snap.disk && Reached(snap.disk, snap.state, held, id))
      && (forall id :: id in after.disk ==> after.disk[id] == snap.disk[id])
      && (forall id :: IsRoot(snap.disk, snap.state, held, id) && HasChain(snap.disk, id) ==>
        HasChain(after.disk, id) && ChainOf(after.disk, id) == ChainOf(snap.disk, id))
      && Swept(snap.state, after.state, snap.disk.Keys - keep, orphans)
  {
    var after := Collect(snap, keep, orphans);
    KeepSetIsReached(snap.disk, snap.state, held, keep);
    CollectSweeps(snap, keep, orphans);
    forall id
      ensures id in after.disk <==> id in snap.disk && id in keep
      ensures id in after.disk ==> after.disk[id] == snap.disk[id]
    {
      GcKeepsExactly(snap, held, keep, orphans, id);
    }
    forall id | IsRoot(snap.disk, snap.state, held, id) && HasChain(snap.disk, id)
      ensures HasChain(after.disk, id) && ChainOf(after.disk, id) == ChainOf(snap.disk, id)
    {
      RootSurvives(snap, held, keep, orphans, id);
    }
  }

  method Candidates(disk: Disk, keep: set<Id>) returns (collected: set<Id>)
    ensures collected == disk.Keys - keep
  {
    collected := {};
    var todo := disk.Keys;
    while todo != {}
      invariant todo <= disk.Keys
      invariant forall id :: id in collected <==> id in disk && id !in todo && id !in keep
      decreases todo
    {
      var id :| id in todo;
      if id !in keep {
        collected := collected + {id};
      }
      todo := todo - {id};
    }
  }

  method RemoveAll(store: LockedStore, ids: set<Id>)
    modifies store
    ensures store.Now() == Snap(old(store.disk) - ids, old(store.state))
  {
    var todo := ids;
    ghost var done: set<Id> := {};
    while todo != {}
      invariant done !! todo && forall id :: id in ids <==> id in done || id in todo
      invariant store.Now() == Snap(old(store.disk) - done, old(store.state))
      decreases todo
    {
      var id :| id in todo;
      store.Remove(id);
      assert old(store.disk) - (done + {id}) == (old(store.disk) - done) - {id};
      todo, done := todo - {id}, done + {id};
    }
    assert done == ids;
  }
}
