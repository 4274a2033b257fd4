/** Commit chains, and what relations/identity.rs derives from them. */
module Chains {
  import opened Records

  /** c lists a chain from its tip c[0] back to a first commit. */
  predicate IsChain(disk: Disk, c: seq<Id>) {
    && |c| > 0 && c[0] in disk && c[0] != NO_COMMIT
    && if |c| == 1 then disk[c[0]].previous == NO_COMMIT
       else disk[c[0]].previous == c[1] && IsChain(disk, c[1..])
  }

  ghost predicate HasChain(disk: Disk, tip: Id) {
    exists c :: IsChain(disk, c) && c[0] == tip
  }

  ghost function ChainOf(disk: Disk, tip: Id): (c: seq<Id>)
    requires HasChain(disk, tip)
    ensures IsChain(disk, c) && c[0] == tip
  {
    var c :| IsChain(disk, c) && c[0] == tip;
    c
  }

  function Root(c: seq<Id>): Id
    requires |c| > 0
  {
    c[|c| - 1]
  }

  lemma {:induction false} ChainUnique(disk: Disk, c: seq<Id>, d: seq<Id>)
    requires IsChain(disk, c) && IsChain(disk, d) && c[0] == d[0]
    ensures c == d
    decreases |c|
  {
    if |c| > 1 && |d| > 1 {
      ChainUnique(disk, c[1..], d[1..]);
      assert c == [c[0]] + c[1..] && d == [d[0]] + d[1..];
    }
  }

  lemma {:induction false} ChainSuffix(disk: Disk, c: seq<Id>, i: nat)
    requires IsChain(disk, c) && i < |c|
    ensures IsChain(disk, c[i..])
    decreases i
  {
    if i > 0 {
      ChainSuffix(disk, c[1..], i - 1);
      assert c[1..][i - 1..] == c[i..];
    }
  }

  /** No commit occurs twice on a chain, so ancestry has no cycles. */
  lemma ChainDistinct(disk: Disk, c: seq<Id>, i: nat, j: nat)
    requires IsChain(disk, c) && i < |c| && j < |c| && c[i] == c[j]
    ensures i == j
  {
    ChainSuffix(disk, c, i);
    ChainSuffix(disk, c, j);
    ChainUnique(disk, c[i..], c[j..]);
  }

  lemma ChainElement(disk: Disk, c: seq<Id>, i: nat)
    requires IsChain(disk, c) && i < |c|
    ensures c[i] in disk && c[i] != NO_COMMIT
    ensures disk[c[i]].previous == if i + 1 < |c| then c[i + 1] else NO_COMMIT
  {
    ChainSuffix(disk, c, i);
  }

  /** A chain depends only on the records it lists. */
  lemma {:induction false} ChainOnOtherDisk(disk: Disk, other: Disk, c: seq<Id>)
    requires IsChain(disk, c) && forall id :: id in c ==> id in other && id in disk && other[id] == disk[id]
    ensures IsChain(other, c)
    decreases |c|
  {
    assert c[0] in c;
    if |c| > 1 {
      assert forall id :: id in c[1..] ==> id in c;
      ChainOnOtherDisk(disk, other, c[1..]);
    }
  }

  lemma ChainMembers(disk: Disk, c: seq<Id>)
    requires IsChain(disk, c)
    ensures forall id :: id in c ==> id in disk && id != NO_COMMIT
  {
    forall id | id in c
      ensures id in disk && id != NO_COMMIT
    {
      var i :| 0 <= i < |c| && c[i] == id;
      ChainElement(disk, c, i);
    }
  }

  /** Adding records keeps every chain. */
  lemma ChainGrows(disk: Disk, other: Disk, tip: Id)
    requires HasChain(disk, tip) && forall id :: id in disk ==> id in other && other[id] == disk[id]
    ensures HasChain(other, tip) && ChainOf(other, tip) == ChainOf(disk, tip)
  {
    var c := ChainOf(disk, tip);
    ChainMembers(disk, c);
    ChainOnOtherDisk(disk, other, c);
    ChainUnique(other, c, ChainOf(other, tip));
  }

  /** A new record on a live tip, or as a first commit, has the chain one expects. */
  lemma ChainAppends(disk: Disk, id: Id, r: Record)
    requires id !in disk && id != NO_COMMIT && NO_COMMIT !in disk
    requires r.previous == NO_COMMIT || HasChain(disk, r.previous)
    ensures HasChain(disk[id := r], id)
    ensures ChainOf(disk[id := r], id) == [id] + if r.previous == NO_COMMIT then [] else ChainOf(disk, r.previous)
  {
    var after := disk[id := r];
    var below := if r.previous == NO_COMMIT then [] else ChainOf(disk, r.previous);
    if r.previous != NO_COMMIT {
      ChainGrows(disk, after, r.previous);
    }
    var c := [id] + below;
    assert c[1..] == below;
    assert IsChain(after, c);
    ChainUnique(after, c, ChainOf(after, id));
  }

  lemma PreviousHasChain(disk: Disk, id: Id)
    requires HasChain(disk, id) && disk[id].previous != NO_COMMIT
    ensures HasChain(disk, disk[id].previous) && ChainOf(disk, id) == [id] + ChainOf(disk, disk[id].previous)
  {
    var c := ChainOf(disk, id);
    assert IsChain(disk, c[1..]) && c[1..][0] == disk[id].previous;
    ChainUnique(disk, c[1..], ChainOf(disk, disk[id].previous));
  }

  // ---- Facts derived from a chain ----

  datatype Facts = Facts(kind: Kind, root: Id, location: Option<string>, parent: Option<Key>)

  datatype RefError = AncestryCycle | MissingPredecessor | UnknownVersion | UnknownNode

  /** The object kind that a first commit gives its chain. */
  function KindOfRoot(root: Record): Option<Kind> {
    if root.payload.mount.Some? then Some(Range)
    else if root.kind == Init || root.kind == Import then Some(File)
    else if root.kind == AuditInit then Some(Audit)
    else if root.kind == NoteInit then Some(Note)
    else None
  }

  /** A file's location once commit r is applied where it was at before. */
  function Relocate(before: Option<string>, r: Record): Option<string> {
    if r.kind == Delete then None
    else if r.kind == Rename then r.payload.target
    else if before.None? then r.payload.path
    else before
  }

  function LocationAfter(disk: Disk, c: seq<Id>): Option<string>
    requires IsChain(disk, c)
  {
    Relocate(if |c| == 1 then None else LocationAfter(disk, c[1..]), disk[c[0]])
  }

  function Describe(disk: Disk, c: seq<Id>): Result<Facts, RefError>
    requires IsChain(disk, c)
  {
    ChainElement(disk, c, |c| - 1);
    var root := disk[Root(c)];
    match KindOfRoot(root)
    case None => Err(UnknownNode)
    case Some(kind) =>
      Ok(Facts(kind, Root(c), if kind == File then LocationAfter(disk, c) else None, root.payload.mount))
  }

  /** p walks back from p[0], and its last commit names next as its predecessor. */
  ghost predicate Linked(disk: Disk, p: seq<Id>, start: Id, next: Id)
    decreases |p|
  {
    if p == [] then next == start
    else
      var last := p[|p| - 1];
      last in disk && last != NO_COMMIT && disk[last].previous == next && Linked(disk, p[..|p| - 1], start, last)
  }

  lemma {:induction false} LinkedThenChain(disk: Disk, p: seq<Id>, start: Id, next: Id, c: seq<Id>)
    requires Linked(disk, p, start, next)
    requires (if c == [] then next == NO_COMMIT && p != [] else IsChain(disk, c) && c[0] == next)
    ensures IsChain(disk, p + c) && (p + c)[0] == start
    decreases |p|
  {
    if p == [] {
      assert p + c == c;
    } else {
      var last := p[|p| - 1];
      var d := [last] + c;
      assert d[1..] == c;
      LinkedThenChain(disk, p[..|p| - 1], start, last, d);
      assert p[..|p| - 1] + d == p + c;
    }
  }

  /** A walk from a tip that has a chain is the beginning of that chain. */
  lemma {:induction false} LinkedIsPrefix(disk: Disk, p: seq<Id>, start: Id, next: Id, c: seq<Id>)
    requires Linked(disk, p, start, next) && IsChain(disk, c) && c[0] == start && NO_COMMIT !in disk
    ensures |p| <= |c| && p == c[..|p|] && next == if |p| < |c| then c[|p|] else NO_COMMIT
    decreases |p|
  {
    if p != [] {
      var k := |p| - 1;
      LinkedIsPrefix(disk, p[..k], start, p[k], c);
      ChainElement(disk, c, k);
      assert p == p[..k] + [p[k]];
    }
  }

  /** Why a tip has no chain: there is none, the walk back from it leaves the disk, or it comes back on itself. */
  ghost predicate WalkFails(disk: Disk, tip: Id, error: RefError) {
    match error
    case UnknownVersion => tip == NO_COMMIT
    case MissingPredecessor => exists p, next :: Linked(disk, p, tip, next) && next !in disk && next != NO_COMMIT
    case AncestryCycle => exists p, next :: Linked(disk, p, tip, next) && next in p
    case UnknownNode => false
  }

  /**
   * authoritative_object: walks back with a visited set. It gives the facts folded
   * from the chain exactly when the tip has one, and an error otherwise.
   */
  method AuthoritativeObject(disk: Disk, tip: Id) returns (r: Result<Facts, RefError>)
    requires NO_COMMIT !in disk
    ensures HasChain(disk, tip) ==> r == Describe(disk, ChainOf(disk, tip))
    ensures !HasChain(disk, tip) ==> r.Err? && WalkFails(disk, tip, r.error)
  {
    var chain: seq<Id>, current, visited: set<Id> := [], tip, {};
    while current != NO_COMMIT
      invariant Linked(disk, chain, tip, current)
      invariant visited <= disk.Keys && forall id :: id in visited <==> id in chain
      decreases disk.Keys - visited
    {
      if current in visited {
        NotWhenChained(disk, chain, tip, current);
        return Err(AncestryCycle);
      }
      if current !in disk {
        NotWhenChained(disk, chain, tip, current);
        return Err(MissingPredecessor);
      }
      visited := visited + {current};
      chain := chain + [current];
      current := disk[current].previous;
      assert chain[..|chain| - 1] + [chain[|chain| - 1]] == chain;
    }
    if chain == [] {
      return Err(UnknownVersion);
    }
    LinkedThenChain(disk, chain, tip, current, []);
    assert chain + [] == chain;
    ChainUnique(disk, chain, ChainOf(disk, tip));
    ChainElement(disk, chain, |chain| - 1);
    var root := disk[chain[|chain| - 1]];
    var kind := KindOfRoot(root);
    if kind.None? {
      return Err(UnknownNode);
    }
    var location: Option<string> := None;
    if kind.value == File {
      var i := |chain|;
      while i > 0
        invariant 0 <= i <= |chain|
        invariant i < |chain| ==> IsChain(disk, chain[i..]) && location == LocationAfter(disk, chain[i..])
        invariant i == |chain| ==> location.None?
      {
        i := i - 1;
        ChainSuffix(disk, chain, i);
        ChainElement(disk, chain, i);
        assert chain[i..][1..] == chain[i + 1..];
        var commit := disk[chain[i]];
        match commit.kind {
          case Delete => location := None;
          case Rename => location := commit.payload.target;
          case _ =>
            if location.None? {
              location := commit.payload.path;
            }
        }
      }
      assert chain[0..] == chain;
    }
    r := Ok(Facts(kind.value, chain[|chain| - 1], location, root.payload.mount));
  }

  /** A walk that comes back on itself or leaves the disk belongs to a tip without a chain. */
  lemma NotWhenChained(disk: Disk, p: seq<Id>, start: Id, next: Id)
    requires Linked(disk, p, start, next) && next != NO_COMMIT && NO_COMMIT !in disk
    requires next in p || next !in disk
    ensures !HasChain(disk, start)
  {
    if HasChain(disk, start) {
      var c := ChainOf(disk, start);
      LinkedIsPrefix(disk, p, start, next, c);
      ChainElement(disk, c, |p|);
      var i :| 0 <= i < |p| && p[i] == next;
      ChainDistinct(disk, c, i, |p|);
    }
  }

  /** chain_root: the strict walk to the first commit. */
  method ChainRoot(disk: Disk, commit: Id) returns (r: Result<Id, RefError>)
    requires NO_COMMIT !in disk
    ensures HasChain(disk, commit) ==> r == Ok(Root(ChainOf(disk, commit)))
    ensures !HasChain(disk, commit) ==> r.Err? && (commit != NO_COMMIT ==> WalkFails(disk, commit, r.error))
  {
    var current, visited: set<Id> := commit, {};
    ghost var chain: seq<Id> := [];
    while true
      invariant Linked(disk, chain, commit, current)
      invariant visited <= disk.Keys && forall id :: id in visited <==> id in chain
      invariant chain != [] ==> current != NO_COMMIT
      decreases disk.Keys - visited
    {
      if current in visited {
        NotWhenChained(disk, chain, commit, current);
        return Err(AncestryCycle);
      }
      visited := visited + {current};
      if current !in disk {
        if current != NO_COMMIT {
          NotWhenChained(disk, chain, commit, current);
        }
        return Err(MissingPredecessor);
      }
      chain := chain + [current];
      assert chain[..|chain| - 1] + [chain[|chain| - 1]] == chain;
      if disk[current].previous == NO_COMMIT {
        LinkedThenChain(disk, chain, commit, NO_COMMIT, []);
        assert chain + [] == chain;
        ChainUnique(disk, chain, ChainOf(disk, commit));
        return Ok(current);
      }
      current := disk[current].previous;
    }
  }
}
