/**
 * The iterative strongly-connected-components pass of link_strata: an explicit
 * call stack of (node, next edge) frames instead of recursion.
 */
module Tarjan {
  import opened Graph

  /** Marks a node that has no component yet (usize::MAX in the program). */
  const UNASSIGNED := -1

  /** The vectors the loop updates, taken together. */
  datatype Dfs = Dfs(
    index: seq<int>, low: seq<int>, sccOf: seq<int>, onStack: seq<bool>,
    stack: seq<nat>, nextIndex: int, sccCount: int)

  /**
   * What the proof adds to them: the nodes being explored, outermost first; how
   * many edges of each node have been looked at; and, for a stacked node, the
   * position in path under which it was stacked.
   */
  datatype Trail = Trail(path: seq<nat>, cur: seq<nat>, owner: seq<nat>)

  type Frame = (nat, nat)

  /** Stands for reachability in the graph at hand; only its closure properties are used. */
  type Relation = (nat, nat) -> bool

  ghost predicate Reaching(adj: seq<seq<nat>>, r: Relation) {
    && (forall u :: 0 <= u < |adj| ==> r(u, u))
    && (forall u, k :: 0 <= u < |adj| && 0 <= k < |adj[u]| ==> r(u, adj[u][k]))
    && (forall u, v, w :: r(u, v) && r(v, w) ==> r(u, w))
  }

  ghost predicate Sized(n: nat, d: Dfs, t: Trail) {
    && |d.index| == |d.low| == |d.sccOf| == |d.onStack| == |t.cur| == |t.owner| == n
    && 0 <= d.nextIndex && 0 <= d.sccCount
    && (forall i :: 0 <= i < |t.path| ==> t.path[i] < n)
    && (forall i :: 0 <= i < |d.stack| ==> d.stack[i] < n)
  }

  /** A looked-at edge leads to a visited node, and low of the owner bounds it if it is stacked. */
  ghost predicate EdgeSeen(n: nat, d: Dfs, head: nat, w: nat)
    requires |d.index| == |d.low| == |d.onStack| == n && head < n
  {
    w < n && d.index[w] >= 0 && (d.onStack[w] ==> d.low[head] <= d.index[w])
  }

  /** An edge of a finished node stays within finished nodes and never goes to a higher component. */
  ghost predicate EdgeDone(n: nat, d: Dfs, u: nat, w: nat)
    requires |d.sccOf| == n && u < n
  {
    w < n && d.sccOf[w] != UNASSIGNED && d.sccOf[w] <= d.sccOf[u]
  }

  /** y is stacked under the path node that owns it; both reach each other. */
  ghost predicate StackedOk(adj: seq<seq<nat>>, r: Relation, d: Dfs, t: Trail, y: nat)
    requires Sized(|adj|, d, t) && y < |adj|
  {
    && d.sccOf[y] == UNASSIGNED && d.index[y] >= 0
    && t.owner[y] < |t.path|
    && d.index[t.path[t.owner[y]]] <= d.index[y]
    && (t.owner[y] + 1 < |t.path| ==> d.index[y] < d.index[t.path[t.owner[y] + 1]])
    && r(t.path[t.owner[y]], y) && r(y, t.path[t.owner[y]])
    && t.cur[y] <= |adj[y]|
    && (t.path[t.owner[y]] != y ==> t.cur[y] == |adj[y]|)
    && (forall k :: 0 <= k < t.cur[y] ==> EdgeSeen(|adj|, d, t.path[t.owner[y]], adj[y][k]))
  }

  /** Each node is unvisited, stacked or finished. */
  ghost predicate NodeOk(adj: seq<seq<nat>>, r: Relation, d: Dfs, t: Trail, y: nat)
    requires Sized(|adj|, d, t) && y < |adj|
  {
    && -1 <= d.index[y] < d.nextIndex
    && UNASSIGNED <= d.sccOf[y] < d.sccCount
    && (d.onStack[y] ==> StackedOk(adj, r, d, t, y))
    && (!d.onStack[y] ==> (d.sccOf[y] == UNASSIGNED <==> d.index[y] == -1))
    && (d.sccOf[y] != UNASSIGNED ==> forall k :: 0 <= k < |adj[y]| ==> EdgeDone(|adj|, d, y, adj[y][k]))
  }

  /** low of a path node is the index of some stacked node it reaches. */
  ghost predicate LowAt(n: nat, r: Relation, d: Dfs, v: nat, z: nat)
    requires |d.index| == |d.low| == |d.onStack| == n && v < n
  {
    z < n && d.onStack[z] && d.index[z] == d.low[v] && r(v, z)
  }

  ghost predicate PathOk(n: nat, r: Relation, d: Dfs, t: Trail, i: nat)
    requires Sized(n, d, t) && i < |t.path|
  {
    var v := t.path[i];
    d.onStack[v] && t.owner[v] == i && d.low[v] <= d.index[v] && exists z: nat :: LowAt(n, r, d, v, z)
  }

  ghost predicate Ordered(n: nat, r: Relation, d: Dfs, t: Trail)
    requires Sized(n, d, t)
  {
    && (forall i, j :: 0 <= i < j < |t.path| ==> d.index[t.path[i]] < d.index[t.path[j]] && r(t.path[i], t.path[j]))
    && (forall i, j :: 0 <= i < j < |d.stack| ==> d.index[d.stack[i]] < d.index[d.stack[j]])
    && (forall v :: 0 <= v < n ==> (d.onStack[v] <==> v in d.stack))
  }

  ghost predicate Mutual(n: nat, r: Relation, sccOf: seq<int>)
    requires |sccOf| == n
  {
    forall u, w :: 0 <= u < n && 0 <= w < n && sccOf[u] == sccOf[w] != UNASSIGNED ==> r(u, w)
  }

  ghost predicate Inv(adj: seq<seq<nat>>, r: Relation, d: Dfs, t: Trail) {
    && Sized(|adj|, d, t)
    && (forall y :: 0 <= y < |adj| ==> NodeOk(adj, r, d, t, y))
    && (forall i :: 0 <= i < |t.path| ==> PathOk(|adj|, r, d, t, i))
    && Ordered(|adj|, r, d, t)
    && Mutual(|adj|, r, d.sccOf)
  }

  /** The caller has just looked at the edge to an unvisited node v, or v is a new root. */
  ghost predicate Pending(adj: seq<seq<nat>>, r: Relation, d: Dfs, t: Trail, v: nat) {
    && Inv(adj, r, d, t) && v < |adj| && d.index[v] == -1
    && (|t.path| > 0 ==> r(t.path[|t.path| - 1], v))
  }

  function Enter(d: Dfs, v: nat): Dfs
    requires v < |d.index| == |d.low| == |d.onStack|
  {
    d.(index := d.index[v := d.nextIndex], low := d.low[v := d.nextIndex], nextIndex := d.nextIndex + 1,
       stack := d.stack + [v], onStack := d.onStack[v := true])
  }

  ghost function EnterTrail(t: Trail, v: nat): Trail
    requires v < |t.cur| == |t.owner|
  {
    Trail(t.path + [v], t.cur[v := 0], t.owner[v := |t.path|])
  }

  lemma EnterNode(adj: seq<seq<nat>>, r: Relation, d: Dfs, t: Trail, v: nat, y: nat)
    requires Sized(|adj|, d, t) && v < |adj| && d.index[v] == -1 && !d.onStack[v] && d.sccOf[v] == UNASSIGNED
    requires Sized(|adj|, Enter(d, v), EnterTrail(t, v))
    requires forall i :: 0 <= i < |t.path| ==> t.path[i] != v
    requires y < |adj| && NodeOk(adj, r, d, t, y) && r(v, v)
    ensures NodeOk(adj, r, Enter(d, v), EnterTrail(t, v), y)
  {
    var e, s := Enter(d, v), EnterTrail(t, v);
    if y != v && d.onStack[y] {
      forall k | 0 <= k < s.cur[y]
        ensures EdgeSeen(|adj|, e, s.path[s.owner[y]], adj[y][k])
      {
        assert EdgeSeen(|adj|, d, t.path[t.owner[y]], adj[y][k]);
      }
    }
    if d.sccOf[y] != UNASSIGNED {
      forall k | 0 <= k < |adj[y]|
        ensures EdgeDone(|adj|, e, y, adj[y][k])
      {
        assert EdgeDone(|adj|, d, y, adj[y][k]);
      }
    }
  }

  lemma EnterPath(n: nat, r: Relation, d: Dfs, t: Trail, v: nat, i: nat)
    requires Sized(n, d, t) && v < n && d.index[v] == -1 && !d.onStack[v] && r(v, v)
    requires Sized(n, Enter(d, v), EnterTrail(t, v))
    requires i < |t.path| ==> PathOk(n, r, d, t, i)
    requires i <= |t.path|
    ensures PathOk(n, r, Enter(d, v), EnterTrail(t, v), i)
  {
    var e, s := Enter(d, v), EnterTrail(t, v);
    if i == |t.path| {
      assert LowAt(n, r, e, v, v);
    } else {
      var z: nat :| LowAt(n, r, d, t.path[i], z);
      assert LowAt(n, r, e, t.path[i], z);
    }
  }

  lemma EnterOrder(adj: seq<seq<nat>>, r: Relation, d: Dfs, t: Trail, v: nat)
    requires Sized(|adj|, d, t) && v < |adj| && d.index[v] == -1 && !d.onStack[v]
    requires Sized(|adj|, Enter(d, v), EnterTrail(t, v))
    requires forall y :: 0 <= y < |adj| ==> d.index[y] < d.nextIndex
    requires forall i :: 0 <= i < |t.path| ==> t.path[i] != v && r(t.path[i], v)
    requires Ordered(|adj|, r, d, t)
    ensures Ordered(|adj|, r, Enter(d, v), EnterTrail(t, v))
  {
    var e := Enter(d, v);
    assert e.stack[|d.stack|] == v;
    assert forall y :: y in d.stack ==> y in e.stack;
    assert v !in d.stack;
  }

  /** Visiting the pending node. */
  lemma EnterKeeps(adj: seq<seq<nat>>, r: Relation, d: Dfs, t: Trail, v: nat)
    requires Reaching(adj, r) && Pending(adj, r, d, t, v)
    ensures Inv(adj, r, Enter(d, v), EnterTrail(t, v))
  {
    var e, s := Enter(d, v), EnterTrail(t, v);
    assert NodeOk(adj, r, d, t, v);
    forall i | 0 <= i < |t.path|
      ensures t.path[i] != v && r(t.path[i], v)
    {
      assert PathOk(|adj|, r, d, t, i);
      assert i == |t.path| - 1 || r(t.path[i], t.path[|t.path| - 1]);
    }
    forall y | 0 <= y < |adj|
      ensures d.index[y] < d.nextIndex && NodeOk(adj, r, e, s, y)
    {
      assert NodeOk(adj, r, d, t, y);
      EnterNode(adj, r, d, t, v, y);
    }
    forall i | 0 <= i < |s.path|
      ensures PathOk(|adj|, r, e, s, i)
    {
      EnterPath(|adj|, r, d, t, v, i);
    }
    EnterOrder(adj, r, d, t, v);
  }

  /** Moving the cursor of a path node past an edge that meets its obligation. */
  lemma AdvanceKeeps(adj: seq<seq<nat>>, r: Relation, d: Dfs, t: Trail, i: nat)
    requires Inv(adj, r, d, t) && i < |t.path|
    requires t.cur[t.path[i]] < |adj[t.path[i]]|
    requires EdgeSeen(|adj|, d, t.path[i], adj[t.path[i]][t.cur[t.path[i]]])
    ensures Inv(adj, r, d, t.(cur := t.cur[t.path[i] := t.cur[t.path[i]] + 1]))
  {
    var v := t.path[i];
    var s := t.(cur := t.cur[v := t.cur[v] + 1]);
    assert PathOk(|adj|, r, d, t, i);
    forall y | 0 <= y < |adj|
      ensures NodeOk(adj, r, d, s, y)
    {
      assert NodeOk(adj, r, d, t, y);
    }
    forall j | 0 <= j < |s.path|
      ensures PathOk(|adj|, r, d, s, j)
    {
      assert PathOk(|adj|, r, d, t, j);
    }
  }

  lemma LowerNode(adj: seq<seq<nat>>, r: Relation, d: Dfs, t: Trail, v: nat, low: int, y: nat)
    requires Sized(|adj|, d, t) && v < |adj| && low <= d.low[v]
    requires y < |adj| && NodeOk(adj, r, d, t, y)
    ensures NodeOk(adj, r, d.(low := d.low[v := low]), t, y)
  {
    var e := d.(low := d.low[v := low]);
    if d.onStack[y] {
      forall k | 0 <= k < t.cur[y]
        ensures EdgeSeen(|adj|, e, t.path[t.owner[y]], adj[y][k])
      {
        assert EdgeSeen(|adj|, d, t.path[t.owner[y]], adj[y][k]);
      }
    }
    if d.sccOf[y] != UNASSIGNED {
      forall k | 0 <= k < |adj[y]|
        ensures EdgeDone(|adj|, e, y, adj[y][k])
      {
        assert EdgeDone(|adj|, d, y, adj[y][k]);
      }
    }
  }

  /** Lowering low of a path node to the index of a stacked node that it reaches. */
  lemma LowerKeeps(adj: seq<seq<nat>>, r: Relation, d: Dfs, t: Trail, i: nat, z: nat)
    requires Inv(adj, r, d, t) && i < |t.path| && z < |adj| && d.onStack[z] && r(t.path[i], z)
    requires d.index[z] <= d.low[t.path[i]]
    ensures Inv(adj, r, d.(low := d.low[t.path[i] := d.index[z]]), t)
  {
    var v := t.path[i];
    var e := d.(low := d.low[v := d.index[z]]);
    forall y | 0 <= y < |adj|
      ensures NodeOk(adj, r, e, t, y)
    {
      LowerNode(adj, r, d, t, v, d.index[z], y);
    }
    forall j | 0 <= j < |t.path|
      ensures PathOk(|adj|, r, e, t, j)
    {
      assert PathOk(|adj|, r, d, t, j);
      if t.path[j] == v {
        assert LowAt(|adj|, r, e, v, z);
      } else {
        var x: nat :| LowAt(|adj|, r, d, t.path[j], x);
        assert LowAt(|adj|, r, e, t.path[j], x);
      }
    }
  }

  /** A stacked node belongs to the innermost path node exactly when it is not older than it. */
  lemma OwnedByLast(adj: seq<seq<nat>>, r: Relation, d: Dfs, t: Trail, y: nat)
    requires Inv(adj, r, d, t) && |t.path| > 0 && y < |adj| && d.onStack[y]
    ensures t.owner[y] == |t.path| - 1 <==> d.index[t.path[|t.path| - 1]] <= d.index[y]
  {
    assert NodeOk(adj, r, d, t, y);
    var o, last := t.owner[y], |t.path| - 1;
    if o < last {
      assert d.index[y] < d.index[t.path[o + 1]];
      assert o + 1 == last || d.index[t.path[o + 1]] < d.index[t.path[last]];
    }
  }

  /** A path node whose low lies below its own index reaches the path node before it. */
  lemma ReachesParent(adj: seq<seq<nat>>, r: Relation, d: Dfs, t: Trail)
    requires Reaching(adj, r) && Inv(adj, r, d, t) && |t.path| > 0
    requires d.low[t.path[|t.path| - 1]] < d.index[t.path[|t.path| - 1]]
    ensures |t.path| > 1 && r(t.path[|t.path| - 1], t.path[|t.path| - 2])
  {
    var last := |t.path| - 1;
    var v := t.path[last];
    assert PathOk(|adj|, r, d, t, last);
    var z: nat :| LowAt(|adj|, r, d, v, z);
    assert NodeOk(adj, r, d, t, z);
    OwnedByLast(adj, r, d, t, z);
    var o := t.owner[z];
    assert r(v, z) && r(z, t.path[o]);
    assert o == last - 1 || r(t.path[o], t.path[last - 1]);
  }

  ghost function RetireTrail(t: Trail): Trail
    requires |t.path| > 1
  {
    var last := |t.path| - 1;
    Trail(t.path[..last], t.cur,
      seq(|t.owner|, y requires 0 <= y < |t.owner| => if t.owner[y] == last then (last - 1) as nat else t.owner[y]))
  }

  lemma RetireNode(adj: seq<seq<nat>>, r: Relation, d: Dfs, t: Trail, y: nat)
    requires Sized(|adj|, d, t) && |t.path| > 1 && Sized(|adj|, d, RetireTrail(t))
    requires y < |adj| && NodeOk(adj, r, d, t, y)
    requires var v := t.path[|t.path| - 1]; var p := t.path[|t.path| - 2];
      && t.cur[v] == |adj[v]| && d.low[p] <= d.low[v] && d.index[p] <= d.index[v]
      && (r(y, v) ==> r(y, p)) && (r(v, y) ==> r(p, y))
    ensures NodeOk(adj, r, d, RetireTrail(t), y)
  {
    var s := RetireTrail(t);
    if d.onStack[y] {
      forall k | 0 <= k < s.cur[y]
        ensures EdgeSeen(|adj|, d, s.path[s.owner[y]], adj[y][k])
      {
        assert EdgeSeen(|adj|, d, t.path[t.owner[y]], adj[y][k]);
      }
    }
  }

  /** Leaving an explored node that stays stacked: its part of the stack goes to its parent. */
  lemma RetireKeeps(adj: seq<seq<nat>>, r: Relation, d: Dfs, t: Trail)
    requires Reaching(adj, r) && Inv(adj, r, d, t) && |t.path| > 1
    requires var v := t.path[|t.path| - 1]; var p := t.path[|t.path| - 2];
      t.cur[v] == |adj[v]| && d.low[v] < d.index[v] && d.low[p] <= d.low[v]
    ensures Inv(adj, r, d, RetireTrail(t))
  {
    var s := RetireTrail(t);
    var v, p := t.path[|t.path| - 1], t.path[|t.path| - 2];
    ReachesParent(adj, r, d, t);
    assert d.index[p] < d.index[v] && r(p, v);
    forall y | 0 <= y < |adj|
      ensures NodeOk(adj, r, d, s, y)
    {
      assert NodeOk(adj, r, d, t, y);
      RetireNode(adj, r, d, t, y);
    }
    forall i | 0 <= i < |s.path|
      ensures PathOk(|adj|, r, d, s, i)
    {
      assert PathOk(|adj|, r, d, t, i);
    }
  }

  /** e is d after the part of the stack owned by the last path node has become component sccCount. */
  ghost predicate Popped(n: nat, d: Dfs, t: Trail, e: Dfs)
    requires Sized(n, d, t) && |t.path| > 0
  {
    && e.index == d.index && e.low == d.low && e.nextIndex == d.nextIndex && e.sccCount == d.sccCount + 1
    && |e.sccOf| == |e.onStack| == n
    && (forall y :: 0 <= y < n ==>
          if d.onStack[y] && t.owner[y] == |t.path| - 1 then !e.onStack[y] && e.sccOf[y] == d.sccCount
          else e.onStack[y] == d.onStack[y] && e.sccOf[y] == d.sccOf[y])
    && e.stack <= d.stack
    && (forall y :: 0 <= y < n ==> (e.onStack[y] <==> y in e.stack))
  }

  ghost function PopTrail(t: Trail): Trail
    requires |t.path| > 0
  {
    t.(path := t.path[..|t.path| - 1])
  }

  lemma PopStacked(adj: seq<seq<nat>>, r: Relation, d: Dfs, t: Trail, e: Dfs, y: nat)
    requires Sized(|adj|, d, t) && |t.path| > 0 && Popped(|adj|, d, t, e) && Sized(|adj|, e, PopTrail(t))
    requires y < |adj| && NodeOk(adj, r, d, t, y) && e.onStack[y]
    ensures NodeOk(adj, r, e, PopTrail(t), y)
  {
    forall k | 0 <= k < t.cur[y]
      ensures EdgeSeen(|adj|, e, t.path[t.owner[y]], adj[y][k])
    {
      assert EdgeSeen(|adj|, d, t.path[t.owner[y]], adj[y][k]);
    }
  }

  lemma PopDone(adj: seq<seq<nat>>, r: Relation, d: Dfs, t: Trail, e: Dfs, y: nat)
    requires Sized(|adj|, d, t) && |t.path| > 0 && Popped(|adj|, d, t, e) && Sized(|adj|, e, PopTrail(t))
    requires y < |adj| && NodeOk(adj, r, d, t, y) && !d.onStack[y]
    requires forall w :: 0 <= w < |adj| && d.onStack[w] ==> d.sccOf[w] == UNASSIGNED
    ensures NodeOk(adj, r, e, PopTrail(t), y)
  {
    if d.sccOf[y] != UNASSIGNED {
      forall k | 0 <= k < |adj[y]|
        ensures EdgeDone(|adj|, e, y, adj[y][k])
      {
        assert EdgeDone(|adj|, d, y, adj[y][k]);
      }
    }
  }

  lemma PopComponent(adj: seq<seq<nat>>, r: Relation, d: Dfs, t: Trail, e: Dfs, y: nat)
    requires Inv(adj, r, d, t) && |t.path| > 0 && Popped(|adj|, d, t, e) && Sized(|adj|, e, PopTrail(t))
    requires var v := t.path[|t.path| - 1]; t.cur[v] == |adj[v]| && d.low[v] == d.index[v]
    requires y < |adj| && d.onStack[y] && t.owner[y] == |t.path| - 1
    ensures NodeOk(adj, r, e, PopTrail(t), y)
  {
    var v := t.path[|t.path| - 1];
    assert NodeOk(adj, r, d, t, y);
    forall k | 0 <= k < |adj[y]|
      ensures EdgeDone(|adj|, e, y, adj[y][k])
    {
      var w := adj[y][k];
      assert EdgeSeen(|adj|, d, v, w);
      assert NodeOk(adj, r, d, t, w);
      if d.onStack[w] {
        OwnedByLast(adj, r, d, t, w);
      }
    }
  }

  lemma PopMutual(adj: seq<seq<nat>>, r: Relation, d: Dfs, t: Trail, e: Dfs)
    requires Reaching(adj, r) && Inv(adj, r, d, t) && |t.path| > 0 && Popped(|adj|, d, t, e)
    ensures Mutual(|adj|, r, e.sccOf)
  {
    var v := t.path[|t.path| - 1];
    forall u, w | 0 <= u < |adj| && 0 <= w < |adj| && e.sccOf[u] == e.sccOf[w] != UNASSIGNED
      ensures r(u, w)
    {
      assert NodeOk(adj, r, d, t, u) && NodeOk(adj, r, d, t, w);
      if d.onStack[u] && t.owner[u] == |t.path| - 1 {
        assert r(u, v) && r(v, w);
      }
    }
  }

  /** A node whose low equals its index closes a component. */
  lemma PopKeeps(adj: seq<seq<nat>>, r: Relation, d: Dfs, t: Trail, e: Dfs)
    requires Reaching(adj, r) && Inv(adj, r, d, t) && |t.path| > 0 && Popped(|adj|, d, t, e)
    requires var v := t.path[|t.path| - 1]; t.cur[v] == |adj[v]| && d.low[v] == d.index[v]
    ensures Inv(adj, r, e, PopTrail(t))
  {
    var s := PopTrail(t);
    assert forall i :: 0 <= i < |e.stack| ==> e.stack[i] == d.stack[i];
    PopMutual(adj, r, d, t, e);
    forall w | 0 <= w < |adj| && d.onStack[w]
      ensures d.sccOf[w] == UNASSIGNED
    {
      assert NodeOk(adj, r, d, t, w);
    }
    forall y | 0 <= y < |adj|
      ensures NodeOk(adj, r, e, s, y)
    {
      assert NodeOk(adj, r, d, t, y);
      if e.onStack[y] {
        PopStacked(adj, r, d, t, e, y);
      } else if d.onStack[y] {
        PopComponent(adj, r, d, t, e, y);
      } else {
        PopDone(adj, r, d, t, e, y);
      }
    }
    forall i | 0 <= i < |s.path|
      ensures PathOk(|adj|, r, e, s, i)
    {
      PopPath(adj, r, d, t, e, i);
    }
  }

  lemma PopPath(adj: seq<seq<nat>>, r: Relation, d: Dfs, t: Trail, e: Dfs, i: nat)
    requires Inv(adj, r, d, t) && |t.path| > 0 && Popped(|adj|, d, t, e) && Sized(|adj|, e, PopTrail(t))
    requires i < |t.path| - 1
    ensures PathOk(|adj|, r, e, PopTrail(t), i)
  {
    assert PathOk(|adj|, r, d, t, i);
    var v := t.path[i];
    var z: nat :| LowAt(|adj|, r, d, v, z);
    OwnedByLast(adj, r, d, t, z);
    assert d.index[v] < d.index[t.path[|t.path| - 1]];
    assert LowAt(|adj|, r, e, v, z);
  }

  ghost function ChildTrail(t: Trail, v: nat): Trail
    requires v < |t.cur| == |t.owner|
    requires |t.path| > 0 ==> t.path[|t.path| - 1] < |t.cur|
  {
    var s := EnterTrail(t, v);
    if |t.path| == 0 then s
    else
      var p := t.path[|t.path| - 1];
      s.(cur := s.cur[p := s.cur[p] + 1])
  }

  /** Visiting v over the edge that the innermost path node looks at next, or as a root. */
  lemma EnterChild(adj: seq<seq<nat>>, r: Relation, d: Dfs, t: Trail, v: nat)
    requires Reaching(adj, r) && Inv(adj, r, d, t) && v < |adj| && d.index[v] == -1
    requires |t.path| > 0 ==>
      var p := t.path[|t.path| - 1]; t.cur[p] < |adj[p]| && adj[p][t.cur[p]] == v
    ensures Inv(adj, r, Enter(d, v), ChildTrail(t, v))
  {
    EnterKeeps(adj, r, d, t, v);
    if |t.path| > 0 {
      var i := |t.path| - 1;
      var p := t.path[i];
      assert PathOk(|adj|, r, d, t, i);
      assert NodeOk(adj, r, d, t, p);
      AdvanceKeeps(adj, r, Enter(d, v), EnterTrail(t, v), i);
    }
  }

  /** The edge loop for one node: stops at the first edge to an unvisited node. */
  method ScanEdges(adj: seq<seq<nat>>, d0: Dfs, v: nat, cursor: nat, ghost r: Relation, ghost t0: Trail)
    returns (d: Dfs, next: nat, recursed: bool, ghost t: Trail)
    requires Valid(adj) && Reaching(adj, r) && Inv(adj, r, d0, t0)
    requires |t0.path| > 0 && t0.path[|t0.path| - 1] == v && t0.cur[v] == cursor <= |adj[v]|
    ensures Inv(adj, r, d, t) && d == d0.(low := d.low)
    ensures next <= |adj[v]| && t == t0.(cur := t0.cur[v := next])
    ensures recursed ==> next < |adj[v]| && adj[v][next] < |adj| && d.index[adj[v][next]] == -1
    ensures !recursed ==> next == |adj[v]|
  {
    d, next, recursed, t := d0, cursor, false, t0;
    ghost var last := |t0.path| - 1;
    while next < |adj[v]|
      invariant next <= |adj[v]| && t == t0.(cur := t0.cur[v := next])
      invariant Inv(adj, r, d, t) && d == d0.(low := d.low)
    {
      var w := adj[v][next];
      if d.index[w] == -1 {
        recursed := true;
        break;
      } else if d.onStack[w] {
        if d.index[w] < d.low[v] {
          assert r(v, w);
          LowerKeeps(adj, r, d, t, last, w);
          d := d.(low := d.low[v := d.index[w]]);
        }
      }
      assert d.index[w] >= 0 && (d.onStack[w] ==> d.low[v] <= d.index[w]) by {
        assert NodeOk(adj, r, d, t, w);
      }
      AdvanceKeeps(adj, r, d, t, last);
      t := t.(cur := t.cur[v := next + 1]);
      next := next + 1;
    }
  }

  /** Pops the stack down to and including v and numbers what was popped. */
  method PopDownTo(n: nat, d0: Dfs, v: nat, ghost pos: nat) returns (d: Dfs)
    requires |d0.sccOf| == |d0.onStack| == n
    requires forall i :: 0 <= i < |d0.stack| ==> d0.stack[i] < n
    requires pos < |d0.stack| && d0.stack[pos] == v && forall j :: pos < j < |d0.stack| ==> d0.stack[j] != v
    ensures d == d0.(stack := d0.stack[..pos], sccOf := d.sccOf, onStack := d.onStack, sccCount := d0.sccCount + 1)
    ensures |d.sccOf| == |d.onStack| == n
    ensures forall y :: 0 <= y < n ==>
      if y in d0.stack[pos..] then !d.onStack[y] && d.sccOf[y] == d0.sccCount
      else d.onStack[y] == d0.onStack[y] && d.sccOf[y] == d0.sccOf[y]
  {
    var stack, sccOf, onStack := d0.stack, d0.sccOf, d0.onStack;
    while true
      invariant pos < |stack| <= |d0.stack| && stack == d0.stack[..|stack|]
      invariant |sccOf| == |onStack| == n
      invariant forall y :: 0 <= y < n ==>
        if y in d0.stack[|stack|..] then !onStack[y] && sccOf[y] == d0.sccCount
        else onStack[y] == d0.onStack[y] && sccOf[y] == d0.sccOf[y]
      decreases |stack|
    {
      var w := stack[|stack| - 1];
      ghost var k := |stack| - 1;
      assert d0.stack[k..] == [w] + d0.stack[k + 1..];
      stack := stack[..|stack| - 1];
      onStack := onStack[w := false];
      sccOf := sccOf[w := d0.sccCount];
      if w == v {
        break;
      }
    }
    d := d0.(stack := stack, sccOf := sccOf, onStack := onStack, sccCount := d0.sccCount + 1);
  }

  method CloseComponent(adj: seq<seq<nat>>, d0: Dfs, v: nat, ghost r: Relation, ghost t: Trail) returns (d: Dfs)
    requires Reaching(adj, r) && Inv(adj, r, d0, t) && |t.path| > 0 && t.path[|t.path| - 1] == v
    requires t.cur[v] == |adj[v]| && d0.low[v] == d0.index[v]
    ensures Inv(adj, r, d, PopTrail(t)) && d.index == d0.index && d.low == d0.low
  {
    assert PathOk(|adj|, r, d0, t, |t.path| - 1);
    ghost var pos: nat :| pos < |d0.stack| && d0.stack[pos] == v;
    PoppedSegment(adj, r, d0, t, pos);
    d := PopDownTo(|adj|, d0, v, pos);
    PopKeeps(adj, r, d0, t, d);
  }

  /** The stack from the innermost path node upwards is what that node owns. */
  lemma PoppedSegment(adj: seq<seq<nat>>, r: Relation, d: Dfs, t: Trail, pos: nat)
    requires Inv(adj, r, d, t) && |t.path| > 0 && pos < |d.stack| && d.stack[pos] == t.path[|t.path| - 1]
    ensures forall y :: 0 <= y < |adj| ==> (y in d.stack[pos..] <==> d.onStack[y] && t.owner[y] == |t.path| - 1)
    ensures forall y :: 0 <= y < |adj| ==> (y in d.stack[..pos] <==> d.onStack[y] && t.owner[y] != |t.path| - 1)
  {
    forall y | 0 <= y < |adj|
      ensures y in d.stack[pos..] <==> d.onStack[y] && t.owner[y] == |t.path| - 1
      ensures y in d.stack[..pos] <==> d.onStack[y] && t.owner[y] != |t.path| - 1
    {
      if d.onStack[y] {
        OwnedByLast(adj, r, d, t, y);
        var j :| 0 <= j < |d.stack| && d.stack[j] == y;
        if j < pos {
          assert d.stack[..pos][j] == y;
        } else {
          assert d.stack[pos..][j - pos] == y;
        }
      }
    }
  }

  ghost predicate Shows(call: seq<Frame>, t: Trail) {
    && |call| <= |t.path|
    && (forall i :: 0 <= i < |call| ==>
          call[i].0 == t.path[i] < |t.cur| && call[i].1 == t.cur[t.path[i]] > 0)
  }

  /**
   * The call stack shows the path and its cursors. While its top frame is a node
   * not visited yet, the frame below already points past the edge to that node.
   */
  ghost predicate Frames(adj: seq<seq<nat>>, d: Dfs, t: Trail, call: seq<Frame>)
    requires Sized(|adj|, d, t)
  {
    if |call| > 0 && call[|call| - 1].1 == 0 then
      var v := call[|call| - 1].0;
      && v < |adj| && d.index[v] == -1 && |call| == |t.path| + 1
      && Shows(call[..|call| - 1], ChildTrail(t, v))
      && (|t.path| > 0 ==>
            var p := t.path[|t.path| - 1];
            t.cur[p] < |adj[p]| && adj[p][t.cur[p]] == v)
    else
      |call| == |t.path| && Shows(call, t)
  }

  /**
   * Leaving a node whose edges are all done: close its component if it is a root, then fold its low into
   * its parent.
   */
  method Leave(adj: seq<seq<nat>>, d0: Dfs, v: nat, call: seq<Frame>, ghost r: Relation, ghost t0: Trail)
    returns (d: Dfs, ghost t: Trail)
    requires Reaching(adj, r) && Inv(adj, r, d0, t0) && |t0.path| == |call| + 1 && t0.path[|call|] == v
    requires t0.cur[v] == |adj[v]| && Shows(call, t0)
    ensures Inv(adj, r, d, t) && d.index == d0.index
    ensures t.path == t0.path[..|call|] && t.cur == t0.cur
  {
    d, t := d0, t0;
    assert PathOk(|adj|, r, d0, t0, |call|);
    if d.low[v] == d.index[v] {
      d := CloseComponent(adj, d, v, r, t);
      t := PopTrail(t);
    } else {
      ReachesParent(adj, r, d, t);
    }
    if |call| > 0 {
      var parent := call[|call| - 1].0;
      assert parent == t0.path[|call| - 1];
      assert PathOk(|adj|, r, d0, t0, |call| - 1);
      assert d0.index[parent] < d0.index[v];
      if d.low[v] < d.low[parent] {
        ghost var z: nat :| LowAt(|adj|, r, d0, v, z);
        assert r(parent, v) && r(v, z);
        LowerKeeps(adj, r, d, t, |call| - 1, z);
        d := d.(low := d.low[parent := d.low[v]]);
      }
      if d0.low[v] != d0.index[v] {
        RetireKeeps(adj, r, d, t);
        t := RetireTrail(t);
      }
    }
  }

  /** Visits the top frame's node if it is new. */
  method Visit(adj: seq<seq<nat>>, d0: Dfs, call0: seq<Frame>, ghost r: Relation, ghost t0: Trail)
    returns (d: Dfs, ghost t: Trail)
    requires Valid(adj) && Reaching(adj, r) && Inv(adj, r, d0, t0) && |call0| > 0 && Frames(adj, d0, t0, call0)
    ensures Inv(adj, r, d, t) && Shows(call0[..|call0| - 1], t)
    ensures |t.path| == |call0| && t.path[|call0| - 1] == call0[|call0| - 1].0
    ensures t.cur[call0[|call0| - 1].0] == call0[|call0| - 1].1
    ensures forall u :: 0 <= u < |adj| && d0.index[u] != -1 ==> d.index[u] != -1
    ensures d.index[call0[|call0| - 1].0] != -1
  {
    var (v, cursor) := call0[|call0| - 1];
    d, t := d0, t0;
    PathVisited(adj, r, d, t);
    if cursor == 0 {
      EnterChild(adj, r, d, t, v);
      d, t := Enter(d, v), ChildTrail(t, v);
    }
  }

  /** Scans the edges of the visited node v: either descends into a new node or leaves v. */
  method ScanOrLeave(
    adj: seq<seq<nat>>, d0: Dfs, v: nat, cursor: nat, call0: seq<Frame>, ghost r: Relation, ghost t0: Trail)
    returns (d: Dfs, call: seq<Frame>, ghost t: Trail)
    requires Valid(adj) && Reaching(adj, r) && Inv(adj, r, d0, t0)
    requires |t0.path| == |call0| + 1 && t0.path[|call0|] == v && t0.cur[v] == cursor && Shows(call0, t0)
    ensures Inv(adj, r, d, t) && Frames(adj, d, t, call) && d.index == d0.index
    ensures |call| <= |call0| || (|call| > 0 && call[|call| - 1].1 == 0)
  {
    var next, recursed;
    d, call := d0, call0;
    NodeCursor(adj, r, d, t0, v);
    d, next, recursed, t := ScanEdges(adj, d, v, cursor, r, t0);
    ShowsRest(adj, r, d, t, t0, call, v);
    if recursed {
      DescendFrames(adj, r, d, t, call, v, adj[v][next]);
      call := call + [(v, next + 1), (adj[v][next], 0)];
    } else {
      d, t := Leave(adj, d, v, call, r, t);
      assert Shows(call, t);
    }
  }

  /** The frames below v do not depend on the cursor of v. */
  lemma ShowsRest(adj: seq<seq<nat>>, r: Relation, d: Dfs, t: Trail, t1: Trail, call: seq<Frame>, v: nat)
    requires Inv(adj, r, d, t) && |t.path| == |call| + 1 && t.path[|call|] == v
    requires v < |t1.cur| && t.cur[v] <= |adj[v]| && t == t1.(cur := t1.cur[v := t.cur[v]]) && Shows(call, t1)
    ensures Shows(call, t)
  {
    forall i | 0 <= i < |call|
      ensures t.path[i] != v
    {
      assert d.index[t.path[i]] < d.index[t.path[|call|]];
    }
  }

  lemma DescendFrames(adj: seq<seq<nat>>, r: Relation, d: Dfs, t: Trail, call: seq<Frame>, v: nat, w: nat)
    requires Inv(adj, r, d, t) && |t.path| == |call| + 1 && t.path[|call|] == v && Shows(call, t)
    requires t.cur[v] < |adj[v]| && adj[v][t.cur[v]] == w < |adj| && d.index[w] == -1
    ensures Frames(adj, d, t, call + [(v, t.cur[v] + 1), (w, 0)])
  {
    var c := call + [(v, t.cur[v] + 1), (w, 0)];
    var s := ChildTrail(t, w);
    PathVisited(adj, r, d, t);
    forall i | 0 <= i < |call|
      ensures t.path[i] != v && t.path[i] != w
    {
      assert d.index[t.path[i]] < d.index[t.path[|call|]];
    }
    assert c[..|c| - 1] == call + [(v, t.cur[v] + 1)];
  }

  lemma PathVisited(adj: seq<seq<nat>>, r: Relation, d: Dfs, t: Trail)
    requires Inv(adj, r, d, t)
    ensures forall i :: 0 <= i < |t.path| ==> d.index[t.path[i]] >= 0
  {
    forall i | 0 <= i < |t.path|
      ensures d.index[t.path[i]] >= 0
    {
      assert PathOk(|adj|, r, d, t, i);
      assert NodeOk(adj, r, d, t, t.path[i]);
    }
  }

  lemma NodeCursor(adj: seq<seq<nat>>, r: Relation, d: Dfs, t: Trail, v: nat)
    requires Inv(adj, r, d, t) && |t.path| > 0 && t.path[|t.path| - 1] == v
    ensures t.cur[v] <= |adj[v]|
  {
    assert PathOk(|adj|, r, d, t, |t.path| - 1);
    assert NodeOk(adj, r, d, t, v);
  }

  /**
   * Tarjan's components of a graph: two nodes get the same number exactly when
   * each reaches the other, and an edge never goes to a higher number.
   */
  method Components(adj: seq<seq<nat>>) returns (sccOf: seq<int>, sccCount: nat)
    requires Valid(adj)
    ensures |sccOf| == |adj| && forall v :: 0 <= v < |adj| ==> 0 <= sccOf[v] < sccCount
    ensures forall u: nat, v: nat :: u < |adj| && v < |adj| ==>
      (sccOf[u] == sccOf[v] <==> Reach(adj, u, v) && Reach(adj, v, u))
    ensures forall u, k :: 0 <= u < |adj| && 0 <= k < |adj[u]| ==> sccOf[adj[u][k]] <= sccOf[u]
  {
    var n := |adj|;
    ghost var r: Relation := (u: nat, v: nat) => Reach(adj, u, v);
    ReachIsReaching(adj, r);
    var d := Dfs(seq(n, _ => -1), seq(n, _ => 0), seq(n, _ => UNASSIGNED), seq(n, _ => false), [], 0, 0);
    ghost var t := Trail([], seq(n, _ => 0), seq(n, _ => 0));
    assert Inv(adj, r, d, t);
    for root := 0 to n
      invariant Inv(adj, r, d, t) && |t.path| == 0
      invariant forall u :: 0 <= u < root ==> d.index[u] != -1
    {
      if d.index[root] == -1 {
        d, t := Explore(adj, d, root, r, t);
      }
    }
    sccOf, sccCount := d.sccOf, d.sccCount;
    AllFinished(adj, r, d, t);
    forall u: nat, v: nat | u < n && v < n
      ensures sccOf[u] == sccOf[v] <==> Reach(adj, u, v) && Reach(adj, v, u)
    {
      if sccOf[u] == sccOf[v] {
        assert r(u, v) && r(v, u);
      }
      if Reach(adj, u, v) && Reach(adj, v, u) {
        ReachDescends(adj, sccOf, u, v);
        ReachDescends(adj, sccOf, v, u);
      }
    }
  }

  /** The call loop for one root. */
  method Explore(adj: seq<seq<nat>>, d0: Dfs, root: nat, ghost r: Relation, ghost t0: Trail)
    returns (d: Dfs, ghost t: Trail)
    requires Valid(adj) && Reaching(adj, r) && Inv(adj, r, d0, t0) && |t0.path| == 0
    requires root < |adj| && d0.index[root] == -1
    ensures Inv(adj, r, d, t) && |t.path| == 0
    ensures d.index[root] != -1
    ensures forall u :: 0 <= u < |adj| && d0.index[u] != -1 ==> d.index[u] != -1
  {
    d, t := d0, t0;
    var call: seq<Frame> := [(root, 0)];
    while |call| > 0
      invariant Inv(adj, r, d, t) && Frames(adj, d, t, call)
      invariant forall u :: 0 <= u < |adj| && d0.index[u] != -1 ==> d.index[u] != -1
      invariant d.index[root] != -1 || call == [(root, 0)]
      decreases Unvisited(d), if |call| > 0 && call[|call| - 1].1 == 0 then 0 else 1, |call|
    {
      var (v, cursor) := call[|call| - 1];
      ghost var before := d;
      d, t := Visit(adj, d, call, r, t);
      assert Unvisited(d) <= Unvisited(before);
      assert cursor == 0 ==> v in Unvisited(before) && v !in Unvisited(d);
      d, call, t := ScanOrLeave(adj, d, v, cursor, call[..|call| - 1], r, t);
    }
  }

  ghost function Unvisited(d: Dfs): set<nat> {
    set v: nat | v < |d.index| && d.index[v] == -1
  }

  lemma ReachIsReaching(adj: seq<seq<nat>>, r: Relation)
    requires Valid(adj) && forall u: nat, v: nat :: r(u, v) <==> Reach(adj, u, v)
    ensures Reaching(adj, r)
  {
    forall u | 0 <= u < |adj|
      ensures r(u, u)
    {
      ReachSelf(adj, u);
    }
    forall u, k | 0 <= u < |adj| && 0 <= k < |adj[u]|
      ensures r(u, adj[u][k])
    {
      ReachEdge(adj, u, adj[u][k]);
    }
    forall u: nat, v: nat, w: nat | r(u, v) && r(v, w)
      ensures r(u, w)
    {
      ReachTrans(adj, u, v, w);
    }
  }

  lemma AllFinished(adj: seq<seq<nat>>, r: Relation, d: Dfs, t: Trail)
    requires Inv(adj, r, d, t) && |t.path| == 0 && forall u :: 0 <= u < |adj| ==> d.index[u] != -1
    ensures forall v :: 0 <= v < |adj| ==> 0 <= d.sccOf[v] < d.sccCount
    ensures forall u, k :: 0 <= u < |adj| && 0 <= k < |adj[u]| ==> adj[u][k] < |adj| && d.sccOf[adj[u][k]] <= d.sccOf[u]
  {
    forall v | 0 <= v < |adj|
      ensures 0 <= d.sccOf[v] < d.sccCount
      ensures forall k :: 0 <= k < |adj[v]| ==> adj[v][k] < |adj| && d.sccOf[adj[v][k]] <= d.sccOf[v]
    {
      assert NodeOk(adj, r, d, t, v);
      assert forall k :: 0 <= k < |adj[v]| ==> EdgeDone(|adj|, d, v, adj[v][k]);
    }
  }

  /** Component numbers never rise along a walk. */
  lemma ReachDescends(adj: seq<seq<nat>>, sccOf: seq<int>, u: nat, v: nat)
    requires Valid(adj) && |sccOf| == |adj| && Reach(adj, u, v)
    requires forall x, k :: 0 <= x < |adj| && 0 <= k < |adj[x]| ==> sccOf[adj[x][k]] <= sccOf[x]
    ensures u < |adj| && v < |adj| && sccOf[v] <= sccOf[u]
  {
    var p :| Joins(adj, p, u, v);
    WalkDescends(adj, sccOf, p);
  }

  lemma {:induction false} WalkDescends(adj: seq<seq<nat>>, sccOf: seq<int>, p: seq<nat>)
    requires Valid(adj) && |sccOf| == |adj| && IsWalk(adj, p)
    requires forall x, k :: 0 <= x < |adj| && 0 <= k < |adj[x]| ==> sccOf[adj[x][k]] <= sccOf[x]
    ensures sccOf[p[|p| - 1]] <= sccOf[p[0]]
  {
    if |p| > 1 {
      var q := p[..|p| - 1];
      WalkDescends(adj, sccOf, q);
      var i := |p| - 2;
      assert p[i + 1] in adj[p[i]];
    }
  }
}
