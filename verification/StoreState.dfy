/** The mutable state of a store, and the index invariant that opening a store checks. */
module StoreState {
  import opened Records
  import opened Chains

  /** The fields of state.toml that the modelled operations read or change. */
  datatype State = State(
    publication: nat,
    tips: map<Key, Id>,
    mounts: map<Key, seq<Key>>,
    locations: map<Key, string>,
    retained: seq<Id>,
    openBlocks: map<Key, seq<Id>>,
    resetFrom: map<Id, Id>,
    links: map<LinkId, Link>,
    pending: map<LinkId, set<Id>>,
    inbound: set<Id>)

  const EMPTY_STATE := State(0, map[], map[], map[], [], map[], map[], map[], map[], {})

  function TipOf(s: State, k: Key): Id {
    if k in s.tips then s.tips[k] else NO_COMMIT
  }

  function LocationOf(s: State, k: Key): Option<string> {
    if k in s.locations then Some(s.locations[k]) else None
  }

  function ChildrenOf(s: State, p: Key): seq<Key> {
    if p in s.mounts then s.mounts[p] else []
  }

  function OpenOf(s: State, k: Key): seq<Id> {
    if k in s.openBlocks then s.openBlocks[k] else []
  }

  function PendingOf(s: State, l: LinkId): set<Id> {
    if l in s.pending then s.pending[l] else {}
  }

  predicate Mounted(s: State, p: Key, c: Key) {
    c in ChildrenOf(s, p)
  }

  predicate Distinct<T(==)>(c: seq<T>) {
    forall i, j :: 0 <= i < j < |c| ==> c[i] != c[j]
  }

  /** Statistics objects are rooted in an import; everything else located is content. */
  predicate IsStatistics(disk: Disk, k: Key) {
    k.root in disk && disk[k.root].kind == Import
  }

  // ---- The index invariant ----

  /** The projections of one live object agree with the facts its chain gives. */
  ghost predicate TipOk(disk: Disk, s: State, k: Key) {
    && k in s.tips && HasChain(disk, s.tips[k])
    && match Describe(disk, ChainOf(disk, s.tips[k]))
       case Err(_) => false
       case Ok(facts) =>
         && facts.root == k.root && facts.kind == k.kind
         && match k.kind
            case File => LocationOf(s, k) == facts.location
            case Range => k !in s.locations && facts.parent.Some? && Mounted(s, facts.parent.value, k)
            case _ => k !in s.locations
  }

  predicate MountOk(s: State, p: Key) {
    && p in s.tips && p.kind == File && Distinct(ChildrenOf(s, p))
    && forall c :: c in ChildrenOf(s, p) ==> c in s.tips && c.kind == Range
  }

  predicate MountedOnce(s: State) {
    forall p, q :: p in s.mounts && q in s.mounts && p != q ==> forall c :: c in s.mounts[p] ==> c !in s.mounts[q]
  }

  /** The class and the path that a located object holds. */
  function PlaceOf(disk: Disk, s: State, k: Key): (bool, string)
    requires k in s.locations
  {
    (IsStatistics(disk, k), s.locations[k])
  }

  /** Two located objects of one class are at two places. */
  predicate PlacesUnique(disk: Disk, s: State) {
    forall j, k :: j in s.locations && k in s.locations && PlaceOf(disk, s, j) == PlaceOf(disk, s, k) ==> j == k
  }

  /** What validate_identity_index accepts. */
  ghost predicate IndexOk(disk: Disk, s: State) {
    && AllTipsOk(disk, s, s.tips.Keys)
    && PlacesUnique(disk, s)
    && ShapeOk(s)
  }

  ghost predicate AllTipsOk(disk: Disk, s: State, done: set<Key>) {
    forall k :: k in done ==> TipOk(disk, s, k)
  }

  /** What the invariant asks of the state file on its own. */
  ghost predicate ShapeOk(s: State) {
    && (forall k :: k in s.locations ==> k in s.tips && k.kind == File)
    && (forall p :: p in s.mounts ==> MountOk(s, p))
    && MountedOnce(s)
  }

  /** Every id that the state relies on has its record, with its whole ancestry, on disk. */
  ghost predicate Coherent(disk: Disk, s: State) {
    && NO_COMMIT !in disk
    && (forall id :: id in s.retained ==> HasChain(disk, id))
    && (forall id :: id in s.retained && disk[id].previous != NO_COMMIT ==> disk[id].previous in s.retained)
    && (forall id, k :: id in s.retained && k in disk[id].rangeTips ==> disk[id].rangeTips[k] in s.retained)
    && (forall k :: k in s.tips ==> s.tips[k] in s.retained)
    && (forall l :: l in s.links ==> LinkCoherent(s, s.links[l]))
    && (forall l :: l in s.pending ==> l in s.links)
  }

  ghost predicate LinkCoherent(s: State, link: Link) {
    && link.createdBy in s.retained
    && (link.terms.source.Local? ==> link.terms.sourceVersion in s.retained)
    && (link.terms.target.Local? ==> link.terms.targetVersion in s.retained)
  }

  lemma EmptyIsOk()
    ensures IndexOk(map[], EMPTY_STATE) && Coherent(map[], EMPTY_STATE)
  {
  }

  // ---- validate_identity_index ----

  /** First pass: the set of mounted ranges, or a range mounted more than once. */
  method CollectMounted(s: State) returns (once: bool, projected: set<Key>)
    ensures once <==> MountedOnce(s) && forall p :: p in s.mounts ==> Distinct(s.mounts[p])
    ensures once ==> forall c :: c in projected <==> exists p :: p in s.mounts && c in s.mounts[p]
  {
    projected := {};
    var todo := s.mounts.Keys;
    while todo != {}
      invariant todo <= s.mounts.Keys
      invariant forall c :: c in projected <==> exists p :: p in s.mounts && p !in todo && c in s.mounts[p]
      invariant forall p :: p in s.mounts && p !in todo ==> Distinct(s.mounts[p])
      invariant forall p, q :: p in s.mounts && q in s.mounts && p !in todo && q !in todo && p != q ==>
        forall c :: c in s.mounts[p] ==> c !in s.mounts[q]
      decreases |todo|
    {
      var p :| p in todo;
      var children := s.mounts[p];
      ghost var before := projected;
      for i := 0 to |children|
        invariant forall c :: c in projected <==> c in before || c in children[..i]
        invariant Distinct(children[..i])
        invariant forall c :: c in children[..i] ==> c !in before
      {
        if children[i] in projected {
          if children[i] in children[..i] {
            var j :| 0 <= j < i && children[j] == children[i];
            assert !Distinct(children);
          } else {
            var q :| q in s.mounts && q !in todo && children[i] in s.mounts[q];
            assert !MountedOnce(s);
          }
          return false, projected;
        }
        projected := projected + {children[i]};
        assert children[..i + 1] == children[..i] + [children[i]];
      }
      assert children[..|children|] == children;
      todo := todo - {p};
    }
    once := true;
  }

  /** The per-object checks of the main pass. */
  method CheckTip(disk: Disk, s: State, projected: set<Key>, k: Key) returns (ok: bool)
    requires NO_COMMIT !in disk && k in s.tips
    requires MountedOnce(s) && forall c :: c in projected <==> exists p :: p in s.mounts && c in s.mounts[p]
    ensures ok <==> TipOk(disk, s, k) && (k.kind != Range ==> k !in projected)
  {
    var facts := AuthoritativeObject(disk, s.tips[k]);
    if facts.Err? || facts.value.root != k.root || facts.value.kind != k.kind {
      return false;
    }
    var f := facts.value;
    match k.kind {
      case File =>
        if k in projected {
          return false;
        }
        ok := LocationOf(s, k) == f.location;
      case Range =>
        if k in s.locations {
          return false;
        }
        var parent := ParentOf(s, k);
        ok := parent == f.parent && k in projected;
      case _ =>
        ok := k !in s.locations && k !in projected;
    }
  }

  /** parent_of: the mount that lists the range. */
  method ParentOf(s: State, c: Key) returns (parent: Option<Key>)
    requires MountedOnce(s)
    ensures forall p :: Mounted(s, p, c) <==> parent == Some(p)
  {
    var todo := s.mounts.Keys;
    while todo != {}
      invariant todo <= s.mounts.Keys
      invariant forall p :: p in s.mounts && p !in todo ==> c !in s.mounts[p]
      decreases |todo|
    {
      var p :| p in todo;
      if c in s.mounts[p] {
        return Some(p);
      }
      todo := todo - {p};
    }
    parent := None;
  }

  /** The whole check: it accepts a store exactly when the invariant holds. */
  method ValidateIdentityIndex(disk: Disk, s: State) returns (ok: bool)
    requires NO_COMMIT !in disk
    ensures ok <==> IndexOk(disk, s)
  {
    var once, projected := CollectMounted(s);
    if !once {
      if p :| p in s.mounts && !Distinct(s.mounts[p]) {
        assert !MountOk(s, p);
      }
      return false;
    }
    var tipsOk := CheckTips(disk, s, projected);
    if !tipsOk {
      return false;
    }
    ok := CheckLocationKeys(s);
    if !ok {
      return;
    }
    ok := CheckMountKeys(s);
  }

  method CheckLocationKeys(s: State) returns (ok: bool)
    ensures ok <==> forall k :: k in s.locations ==> k in s.tips && k.kind == File
  {
    var todo := s.locations.Keys;
    while todo != {}
      invariant todo <= s.locations.Keys
      invariant forall k :: k in s.locations && k !in todo ==> k in s.tips && k.kind == File
      decreases |todo|
    {
      var k :| k in todo;
      if k !in s.tips || k.kind != File {
        return false;
      }
      todo := todo - {k};
    }
    ok := true;
  }

  method CheckMountKeys(s: State) returns (ok: bool)
    requires forall p :: p in s.mounts ==> Distinct(s.mounts[p])
    ensures ok <==> forall p :: p in s.mounts ==> MountOk(s, p)
  {
    var todo := s.mounts.Keys;
    while todo != {}
      invariant todo <= s.mounts.Keys
      invariant forall p :: p in s.mounts && p !in todo ==> MountOk(s, p)
      decreases |todo|
    {
      var p :| p in todo;
      if p !in s.tips || p.kind != File {
        return false;
      }
      var children := s.mounts[p];
      for i := 0 to |children|
        invariant forall c :: c in children[..i] ==> c in s.tips && c.kind == Range
      {
        if children[i] !in s.tips || children[i].kind != Range {
          assert children[i] in ChildrenOf(s, p);
          return false;
        }
        assert children[..i + 1] == children[..i] + [children[i]];
      }
      assert children[..|children|] == children;
      todo := todo - {p};
    }
    ok := true;
  }

  predicate Located(s: State, k: Key) {
    k.kind == File && k in s.locations
  }

  /** seen lists the places of the objects in done. */
  predicate SeenBy(disk: Disk, s: State, done: set<Key>, seen: map<(bool, string), Key>) {
    && (forall k :: k in done && Located(s, k) ==> PlaceOf(disk, s, k) in seen && seen[PlaceOf(disk, s, k)] == k)
    && (forall c :: c in seen ==> seen[c] in done && seen[c] in s.locations && c == PlaceOf(disk, s, seen[c]))
  }

  lemma SeenGrows(disk: Disk, s: State, done: set<Key>, seen: map<(bool, string), Key>, k: Key)
    requires SeenBy(disk, s, done, seen) && k !in done
    requires Located(s, k) ==> PlaceOf(disk, s, k) !in seen
    ensures SeenBy(disk, s, done + {k}, if Located(s, k) then seen[PlaceOf(disk, s, k) := k] else seen)
  {
  }

  lemma AllSeen(disk: Disk, s: State, done: set<Key>, seen: map<(bool, string), Key>)
    requires SeenBy(disk, s, done, seen) && forall k :: k in s.locations ==> k in done && Located(s, k)
    ensures PlacesUnique(disk, s)
  {
  }

  /** The pass over tips, with the places seen so far. */
  method CheckTips(disk: Disk, s: State, projected: set<Key>) returns (ok: bool)
    requires NO_COMMIT !in disk && MountedOnce(s)
    requires forall c :: c in projected <==> exists p :: p in s.mounts && c in s.mounts[p]
    ensures ok ==> AllTipsOk(disk, s, s.tips.Keys)
    ensures ok && (forall k :: k in s.locations ==> k in s.tips && k.kind == File) ==> PlacesUnique(disk, s)
    ensures !ok ==> !IndexOk(disk, s)
  {
    var seen: map<(bool, string), Key> := map[];
    var todo := s.tips.Keys;
    ghost var done: set<Key> := {};
    assert AllTipsOk(disk, s, {});
    while todo != {}
      invariant todo <= s.tips.Keys && done == s.tips.Keys - todo
      invariant AllTipsOk(disk, s, done)
      invariant SeenBy(disk, s, done, seen)
      decreases |todo|
    {
      var k :| k in todo;
      var good := CheckTip(disk, s, projected, k);
      if !good {
        NotATip(disk, s, projected, k);
        return false;
      }
      if k.kind == File && k in s.locations {
        var place := PlaceOf(disk, s, k);
        if place in seen {
          SamePlace(disk, s, seen[place], k);
          return false;
        }
        SeenGrows(disk, s, done, seen, k);
        seen := seen[place := k];
      } else {
        SeenGrows(disk, s, done, seen, k);
      }
      TipsGrow(disk, s, done, k);
      todo := todo - {k};
      done := done + {k};
    }
    ok := true;
    assert done == s.tips.Keys;
    if forall k :: k in s.locations ==> k in s.tips && k.kind == File {
      AllSeen(disk, s, done, seen);
    }
  }

  lemma TipsGrow(disk: Disk, s: State, done: set<Key>, k: Key)
    requires AllTipsOk(disk, s, done) && TipOk(disk, s, k)
    ensures AllTipsOk(disk, s, done + {k})
  {
  }

  lemma SamePlace(disk: Disk, s: State, j: Key, k: Key)
    requires j in s.locations && k in s.locations && j != k && PlaceOf(disk, s, j) == PlaceOf(disk, s, k)
    ensures !IndexOk(disk, s)
  {
  }

  lemma NotATip(disk: Disk, s: State, projected: set<Key>, k: Key)
    requires k in s.tips && !(TipOk(disk, s, k) && (k.kind != Range ==> k !in projected))
    requires k in projected ==> exists p :: p in s.mounts && k in s.mounts[p]
    ensures !IndexOk(disk, s)
  {
    if TipOk(disk, s, k) {
      var p :| p in s.mounts && k in s.mounts[p];
      assert Mounted(s, p, k) && !MountOk(s, p);
    }
  }
}
