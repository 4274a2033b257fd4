/**
 * ATOMIC blocks: the forward stack of open BEGINs, and the backward depth scan
 * that reset uses to find the block around a commit.
 */
module Blocks {
  import opened Records
  import opened Chains

  /** Unclosed BEGINs, outermost first. */
  class AtomicStack {
    var open: seq<Id>

    constructor ()
      ensures open == []
    {
      open := [];
    }

    method Begin(commit: Id)
      modifies this
      ensures open == old(open) + [commit]
    {
      open := open + [commit];
    }

    /** Closes the nearest open BEGIN; an END with none open closes nothing. */
    method End() returns (closed: Option<Id>)
      modifies this
      ensures old(open) == [] ==> closed == None && open == []
      ensures old(open) != [] ==> closed.Some? && old(open) == open + [closed.value]
    {
      if open == [] {
        return None;
      }
      closed := Some(open[|open| - 1]);
      open := open[..|open| - 1];
    }

    predicate IsOpen()
      reads this
    {
      open != []
    }
  }

  function AfterMarker(open: seq<Id>, kind: CommitKind, commit: Id): seq<Id> {
    if kind == AtomicBegin then open + [commit]
    else if kind == AtomicEnd && open != [] then open[..|open| - 1]
    else open
  }

  /** The open blocks after replaying a chain from its first commit to its tip c[0]. */
  function OpenAfter(disk: Disk, c: seq<Id>): seq<Id>
    requires IsChain(disk, c)
  {
    AfterMarker(if |c| == 1 then [] else OpenAfter(disk, c[1..]), disk[c[0]].kind, c[0])
  }

  /** Replaying the chain oldest first through the stack. */
  method Replay(disk: Disk, c: seq<Id>) returns (stack: AtomicStack)
    requires IsChain(disk, c)
    ensures fresh(stack) && stack.open == OpenAfter(disk, c)
  {
    stack := new AtomicStack();
    var i := |c|;
    while i > 0
      invariant 0 <= i <= |c|
      invariant i < |c| ==> IsChain(disk, c[i..]) && stack.open == OpenAfter(disk, c[i..])
      invariant i == |c| ==> stack.open == []
      modifies stack
    {
      i := i - 1;
      ChainSuffix(disk, c, i);
      assert i + 1 < |c| ==> c[i..][1..] == c[i + 1..];
      if disk[c[i]].kind == AtomicBegin {
        stack.Begin(c[i]);
      } else if disk[c[i]].kind == AtomicEnd {
        var closed := stack.End();
      }
    }
    assert c[0..] == c;
  }

  /** The first BEGIN met going back from c[0] that is not matched by one of depth + the ENDs passed. */
  function Scan(disk: Disk, c: seq<Id>, depth: nat): Option<Id>
    requires IsChain(disk, c)
  {
    var kind := disk[c[0]].kind;
    if kind == AtomicBegin && depth == 0 then Some(c[0])
    else if |c| == 1 then None
    else Scan(disk, c[1..], if kind == AtomicEnd then depth + 1 else if kind == AtomicBegin then depth - 1 else depth)
  }

  /** Going back with a depth finds the block that many places below the top of the replayed stack. */
  lemma {:induction false} ScanIsStackEntry(disk: Disk, c: seq<Id>, depth: nat)
    requires IsChain(disk, c)
    ensures var open := OpenAfter(disk, c);
      Scan(disk, c, depth) == if depth < |open| then Some(open[|open| - 1 - depth]) else None
    decreases |c|
  {
    var kind := disk[c[0]].kind;
    if |c| > 1 && !(kind == AtomicBegin && depth == 0) {
      ScanIsStackEntry(disk, c[1..],
        if kind == AtomicEnd then depth + 1 else if kind == AtomicBegin then depth - 1 else depth);
    }
  }

  /**
   * A commit is inside a block exactly when replaying up to it leaves a block open, and the block named
   * is the innermost.
   */
  lemma EnclosingBlock(disk: Disk, c: seq<Id>)
    requires IsChain(disk, c)
    ensures var open := OpenAfter(disk, c);
      Scan(disk, c, 0) == if open == [] then None else Some(open[|open| - 1])
  {
    ScanIsStackEntry(disk, c, 0);
  }

  /** commit_is_block_member and the same-chain part of reset_block_membership; limit is the program's 100000. */
  method EnclosingBegin(disk: Disk, commit: Id, limit: nat) returns (block: Option<Id>)
    requires NO_COMMIT !in disk && HasChain(disk, commit) && |ChainOf(disk, commit)| <= limit + 2
    ensures block == Scan(disk, ChainOf(disk, commit), 0)
    ensures var open := OpenAfter(disk, ChainOf(disk, commit));
      block == if open == [] then None else Some(open[|open| - 1])
  {
    var depth: int, cur, guard := 0, commit, 0;
    ghost var c := ChainOf(disk, commit);
    ghost var k := 0;
    EnclosingBlock(disk, c);
    assert c[0..] == c;
    while cur in disk
      invariant 0 <= k < |c| && cur == c[k] && guard == k && depth >= 0
      invariant IsChain(disk, c[k..]) && Scan(disk, c, 0) == Scan(disk, c[k..], depth)
      decreases limit + 2 - guard
    {
      ChainElement(disk, c, k);
      if disk[cur].kind == AtomicEnd {
        depth := depth + 1;
      } else if disk[cur].kind == AtomicBegin {
        if depth == 0 {
          return Some(cur);
        }
        depth := depth - 1;
      }
      if disk[cur].previous == NO_COMMIT || guard > limit {
        break;
      }
      guard := guard + 1;
      cur := disk[cur].previous;
      assert c[k..][1..] == c[k + 1..];
      k := k + 1;
    }
    block := None;
  }

  datatype Scope = ParentFile | SameChain

  datatype Membership = Membership(scope: Scope, block: Id)

  datatype ResetError = UnknownTarget | Interior(Membership) | ChildInterior(child: Key, membership: Membership)

  predicate IsMarker(kind: CommitKind) {
    kind == AtomicBegin || kind == AtomicEnd
  }

  /** What reset_block_membership decides about a commit with a chain. */
  ghost function MembershipOf(disk: Disk, target: Id): Option<Membership>
    requires HasChain(disk, target)
  {
    var r := disk[target];
    var open := OpenAfter(disk, ChainOf(disk, target));
    if IsMarker(r.kind) then None
    else if r.payload.inBlock.Some? then Some(Membership(ParentFile, r.payload.inBlock.value))
    else if open == [] then None
    else Some(Membership(SameChain, open[|open| - 1]))
  }

  method BlockMembership(disk: Disk, target: Id, limit: nat) returns (r: Result<Option<Membership>, ResetError>)
    requires NO_COMMIT !in disk
    requires target in disk ==> HasChain(disk, target) && |ChainOf(disk, target)| <= limit + 2
    ensures r == if target in disk then Ok(MembershipOf(disk, target)) else Err(UnknownTarget)
  {
    if target !in disk {
      return Err(UnknownTarget);
    }
    if IsMarker(disk[target].kind) {
      return Ok(None);
    }
    if disk[target].payload.inBlock.Some? {
      return Ok(Some(Membership(ParentFile, disk[target].payload.inBlock.value)));
    }
    var block := EnclosingBegin(disk, target, limit);
    r := Ok(if block.None? then None else Some(Membership(SameChain, block.value)));
  }

  /** Where a reset to target lands: a marker on its predecessor, an ordinary commit on itself. */
  function Landing(r: Record, target: Id): Id {
    if IsMarker(r.kind) then r.previous else target
  }

  /** reset: refuses ordinary members of a block, otherwise gives the landing. */
  method ResolveReset(disk: Disk, target: Id, limit: nat) returns (r: Result<Id, ResetError>)
    requires NO_COMMIT !in disk
    requires target in disk ==> HasChain(disk, target) && |ChainOf(disk, target)| <= limit + 2
    ensures r == if target !in disk then Err(UnknownTarget)
                 else if MembershipOf(disk, target).Some? then Err(Interior(MembershipOf(disk, target).value))
                 else Ok(Landing(disk[target], target))
    ensures r.Ok? ==> r.value == if disk[target].kind == AtomicBegin || disk[target].kind == AtomicEnd
                                 then disk[target].previous else target
  {
    if target !in disk {
      return Err(UnknownTarget);
    }
    if IsMarker(disk[target].kind) {
      return Ok(disk[target].previous);
    }
    var membership := BlockMembership(disk, target, limit);
    if membership.value.Some? {
      return Err(Interior(membership.value.value));
    }
    r := Ok(target);
  }
}
