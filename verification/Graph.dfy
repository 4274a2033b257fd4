/** Directed graphs given by adjacency lists over the nodes 0..n, and reachability in them. */
module Graph {

  predicate Valid(adj: seq<seq<nat>>) {
    forall v, i :: 0 <= v < |adj| && 0 <= i < |adj[v]| ==> adj[v][i] < |adj|
  }

  /** A nonempty walk along edges. */
  predicate IsWalk(adj: seq<seq<nat>>, p: seq<nat>) {
    && |p| > 0
    && (forall i :: 0 <= i < |p| ==> p[i] < |adj|)
    && (forall i {:trigger p[i + 1]} :: 0 <= i < |p| - 1 ==> p[i + 1] in adj[p[i]])
  }

  ghost predicate Joins(adj: seq<seq<nat>>, p: seq<nat>, u: nat, v: nat) {
    IsWalk(adj, p) && p[0] == u && p[|p| - 1] == v
  }

  ghost predicate Reach(adj: seq<seq<nat>>, u: nat, v: nat) {
    exists p :: Joins(adj, p, u, v)
  }

  lemma ReachSelf(adj: seq<seq<nat>>, u: nat)
    requires u < |adj|
    ensures Reach(adj, u, u)
  {
    assert Joins(adj, [u], u, u);
  }

  lemma ReachEdge(adj: seq<seq<nat>>, u: nat, v: nat)
    requires Valid(adj) && u < |adj| && v in adj[u]
    ensures Reach(adj, u, v)
  {
    assert Joins(adj, [u, v], u, v);
  }

  lemma ReachTrans(adj: seq<seq<nat>>, u: nat, v: nat, w: nat)
    requires Reach(adj, u, v) && Reach(adj, v, w)
    ensures Reach(adj, u, w)
  {
    var p :| Joins(adj, p, u, v);
    var q :| Joins(adj, q, v, w);
    var r := p + q[1..];
    forall i | 0 <= i < |r| - 1
      ensures r[i + 1] in adj[r[i]]
    {
      if i < |p| - 1 {
        assert p[i + 1] in adj[p[i]];
      } else {
        var j := i - (|p| - 1);
        assert q[j + 1] in adj[q[j]];
        assert r[i] == q[j] && r[i + 1] == q[j + 1];
      }
    }
    assert Joins(adj, r, u, w);
  }
}
