/**
 * The layering pass of link_strata: the components condensed into a DAG, and
 * relaxation of its longest-path numbers until nothing changes.
 */
module Layering {
  import opened Graph

  /** Condensed edges lead from higher component numbers to lower ones. */
  ghost predicate Descending(cond: seq<set<nat>>) {
    forall c, t :: 0 <= c < |cond| && t in cond[c] ==> t < c
  }

  /** Length of the longest condensed path that ends at c. */
  ghost function Longest(cond: seq<set<nat>>, c: nat): nat
    requires Descending(cond)
    decreases |cond| - c, 1, 0
  {
    LongestVia(cond, c, |cond|)
  }

  /** The same, when the last step comes from a component below m. */
  ghost function LongestVia(cond: seq<set<nat>>, c: nat, m: nat): nat
    requires Descending(cond) && m <= |cond|
    decreases |cond| - c, 0, m
  {
    if m == 0 then 0
    else
      var rest := LongestVia(cond, c, m - 1);
      if c in cond[m - 1] && Longest(cond, m - 1) + 1 > rest then Longest(cond, m - 1) + 1 else rest
  }

  lemma {:induction false} LongestViaBounds(cond: seq<set<nat>>, c: nat, m: nat)
    requires Descending(cond) && m <= |cond|
    ensures forall p :: 0 <= p < m && c in cond[p] ==> Longest(cond, p) + 1 <= LongestVia(cond, c, m)
    ensures LongestVia(cond, c, m) == 0
      || exists p :: 0 <= p < m && c in cond[p] && LongestVia(cond, c, m) == Longest(cond, p) + 1
    decreases m
  {
    if m > 0 {
      LongestViaBounds(cond, c, m - 1);
      if c in cond[m - 1] && Longest(cond, m - 1) + 1 > LongestVia(cond, c, m - 1) {
        assert LongestVia(cond, c, m) == Longest(cond, m - 1) + 1;
      }
    }
  }

  /** A condensed path cannot be longer than the number of components above its end. */
  lemma {:induction false} LongestFits(cond: seq<set<nat>>, c: nat)
    requires Descending(cond) && c < |cond|
    ensures Longest(cond, c) < |cond| - c
    decreases |cond| - c
  {
    LongestViaBounds(cond, c, |cond|);
    if Longest(cond, c) > 0 {
      var p :| 0 <= p < |cond| && c in cond[p] && Longest(cond, c) == Longest(cond, p) + 1;
      LongestFits(cond, p);
    }
  }

  /** Largest assigned number among the predecessors of c below m; -1 if there is none. */
  function Best(cond: seq<set<nat>>, stratum: seq<int>, c: nat, m: nat): int
    requires m <= |cond| == |stratum|
  {
    if m == 0 then -1
    else
      var rest := Best(cond, stratum, c, m - 1);
      if c in cond[m - 1] && stratum[m - 1] > rest then stratum[m - 1] else rest
  }

  /** Once the predecessors have their final numbers, so does the component computed from them. */
  lemma {:induction false} BestIsLongest(cond: seq<set<nat>>, stratum: seq<int>, c: nat, m: nat)
    requires Descending(cond) && m <= |cond| == |stratum|
    requires forall p :: 0 <= p < m && c in cond[p] ==> stratum[p] == Longest(cond, p)
    ensures Best(cond, stratum, c, m) + 1 == LongestVia(cond, c, m)
    decreases m
  {
    if m > 0 {
      BestIsLongest(cond, stratum, c, m - 1);
    }
  }

  /** A numbering that every component agrees with is the longest-path numbering. */
  lemma {:induction false} StableIsLongest(cond: seq<set<nat>>, stratum: seq<int>, c: nat)
    requires Descending(cond) && c < |cond| == |stratum|
    requires forall b :: 0 <= b < |cond| ==> stratum[b] == Best(cond, stratum, b, |cond|) + 1
    ensures stratum[c] == Longest(cond, c)
    decreases |cond| - c
  {
    forall p | 0 <= p < |cond| && c in cond[p]
      ensures stratum[p] == Longest(cond, p)
    {
      StableIsLongest(cond, stratum, p);
    }
    BestIsLongest(cond, stratum, c, |cond|);
  }

  ghost predicate Exact(cond: seq<set<nat>>, stratum: seq<int>, c: nat)
    requires Descending(cond) && c < |stratum|
  {
    stratum[c] == Longest(cond, c)
  }

  method BestPredecessor(cond: seq<set<nat>>, stratum: seq<int>, scc: nat) returns (value: int)
    requires |cond| == |stratum| && forall i :: 0 <= i < |stratum| ==> stratum[i] >= -1
    ensures value == Best(cond, stratum, scc, |cond|) + 1
  {
    var best, reachable := -1, false;
    for from := 0 to |cond|
      invariant best == Best(cond, stratum, scc, from)
      invariant reachable <==> best >= 0
    {
      if scc in cond[from] {
        var f := stratum[from];
        if f >= 0 {
          reachable := true;
          best := if f > best then f else best;
        }
      }
    }
    value := if reachable then best + 1 else 0;
  }

  /** One pass over all components. A pass makes the next path length exact, and only a needed pass changes anything. */
  method Round(cond: seq<set<nat>>, isTarget: seq<bool>, stratum0: seq<int>, ghost rounds: nat)
    returns (stratum: seq<int>, changed: bool)
    requires Descending(cond) && |cond| == |isTarget| == |stratum0|
    requires forall t :: 0 <= t < |cond| ==> (isTarget[t] <==> exists c :: 0 <= c < |cond| && t in cond[c])
    requires forall c :: 0 <= c < |cond| ==>
      stratum0[c] >= -1 && (Longest(cond, c) < rounds ==> Exact(cond, stratum0, c))
    ensures |stratum| == |cond|
    ensures forall c :: 0 <= c < |cond| ==> stratum[c] >= -1 && (Longest(cond, c) <= rounds ==> Exact(cond, stratum, c))
    ensures changed ==> rounds < |cond|
    ensures !changed ==> forall c :: 0 <= c < |cond| ==> stratum[c] == Best(cond, stratum, c, |cond|) + 1
  {
    stratum, changed := stratum0, false;
    for scc := 0 to |cond|
      invariant |stratum| == |cond|
      invariant forall c :: 0 <= c < |cond| ==>
        stratum[c] >= -1 && (Longest(cond, c) < rounds ==> Exact(cond, stratum, c))
      invariant forall c :: 0 <= c < scc && Longest(cond, c) <= rounds ==> Exact(cond, stratum, c)
      invariant changed ==> rounds < |cond|
      invariant !changed ==> stratum == stratum0
      invariant !changed ==> forall c :: 0 <= c < scc ==> stratum[c] == Best(cond, stratum, c, |cond|) + 1
    {
      var value := 0;
      if isTarget[scc] {
        value := BestPredecessor(cond, stratum, scc);
      } else {
        NoPredecessor(cond, stratum, scc, |cond|);
      }
      RoundExact(cond, stratum, scc, rounds, value);
      if stratum[scc] != value {
        stratum := stratum[scc := value];
        changed := true;
      }
    }
  }

  lemma NoPredecessor(cond: seq<set<nat>>, stratum: seq<int>, c: nat, m: nat)
    requires m <= |cond| == |stratum| && forall p :: 0 <= p < m ==> c !in cond[p]
    ensures Best(cond, stratum, c, m) == -1
  {
  }

  lemma RoundExact(cond: seq<set<nat>>, stratum: seq<int>, c: nat, rounds: nat, value: int)
    requires Descending(cond) && c < |cond| == |stratum| && value == Best(cond, stratum, c, |cond|) + 1
    requires forall b :: 0 <= b < |cond| && Longest(cond, b) < rounds ==> Exact(cond, stratum, b)
    ensures Longest(cond, c) <= rounds ==> value == Longest(cond, c)
    ensures rounds >= |cond| ==> value == stratum[c]
    ensures value >= 0
  {
    LongestViaBounds(cond, c, |cond|);
    LongestFits(cond, c);
    if Longest(cond, c) <= rounds {
      BestIsLongest(cond, stratum, c, |cond|);
    }
    BestAtLeast(cond, stratum, c, |cond|);
  }

  lemma BestAtLeast(cond: seq<set<nat>>, stratum: seq<int>, c: nat, m: nat)
    requires m <= |cond| == |stratum|
    ensures Best(cond, stratum, c, m) >= -1
  {
  }

  /** Relaxation until nothing changes ends, with the longest-path length of every component. */
  method Relax(cond: seq<set<nat>>, isTarget: seq<bool>) returns (stratum: seq<int>)
    requires Descending(cond) && |cond| == |isTarget|
    requires forall t :: 0 <= t < |cond| ==> (isTarget[t] <==> exists c :: 0 <= c < |cond| && t in cond[c])
    ensures |stratum| == |cond| && forall c :: 0 <= c < |cond| ==> stratum[c] == Longest(cond, c)
  {
    stratum := seq(|cond|, _ => -1);
    var changed := true;
    ghost var rounds := 0;
    while changed
      invariant |stratum| == |cond|
      invariant forall c :: 0 <= c < |cond| ==>
        stratum[c] >= -1 && (Longest(cond, c) < rounds ==> Exact(cond, stratum, c))
      invariant changed ==> rounds <= |cond|
      invariant !changed ==> forall c :: 0 <= c < |cond| ==> stratum[c] == Best(cond, stratum, c, |cond|) + 1
      decreases |cond| + 1 - rounds
    {
      stratum, changed := Round(cond, isTarget, stratum, rounds);
      rounds := rounds + 1;
    }
    forall c | 0 <= c < |cond|
      ensures stratum[c] == Longest(cond, c)
    {
      StableIsLongest(cond, stratum, c);
    }
  }

  /** Some edge of the graph leads from component c to the different component t. */
  ghost predicate Crosses(adj: seq<seq<nat>>, sccOf: seq<int>, c: nat, t: nat)
    requires Valid(adj) && |sccOf| == |adj|
  {
    c != t && exists v, k :: 0 <= v < |adj| && 0 <= k < |adj[v]| && sccOf[v] == c && sccOf[adj[v][k]] == t
  }

  method Condense(adj: seq<seq<nat>>, sccOf: seq<int>, sccCount: nat) returns (cond: seq<set<nat>>)
    requires Valid(adj) && |sccOf| == |adj| && forall v :: 0 <= v < |adj| ==> 0 <= sccOf[v] < sccCount
    ensures |cond| == sccCount
    ensures forall c, t :: 0 <= c < sccCount ==> (t in cond[c] <==> Crosses(adj, sccOf, c, t))
  {
    cond := seq(sccCount, _ => {});
    for v := 0 to |adj|
      invariant |cond| == sccCount
      invariant forall c, t :: 0 <= c < sccCount ==> (t in cond[c] <==>
        c != t && exists u, k :: 0 <= u < v && 0 <= k < |adj[u]| && sccOf[u] == c && sccOf[adj[u][k]] == t)
    {
      var c0: nat := sccOf[v];
      ghost var before := cond;
      for k := 0 to |adj[v]|
        invariant |cond| == sccCount
        invariant forall c :: 0 <= c < sccCount && c != c0 ==> cond[c] == before[c]
        invariant forall t :: t in cond[c0] <==>
          t in before[c0] || (c0 != t && exists j :: 0 <= j < k && sccOf[adj[v][j]] == t)
      {
        var t0: nat := sccOf[adj[v][k]];
        if sccOf[v] != sccOf[adj[v][k]] {
          cond := cond[c0 := cond[c0] + {t0}];
        }
      }
    }
  }

  method Targets(cond: seq<set<nat>>) returns (isTarget: seq<bool>)
    requires Descending(cond)
    ensures |isTarget| == |cond|
    ensures forall t :: 0 <= t < |cond| ==> (isTarget[t] <==> exists c :: 0 <= c < |cond| && t in cond[c])
  {
    isTarget := seq(|cond|, _ => false);
    for from := 0 to |cond|
      invariant |isTarget| == |cond|
      invariant forall t :: 0 <= t < |cond| ==> (isTarget[t] <==> exists c :: 0 <= c < from && t in cond[c])
    {
      var todo := cond[from];
      ghost var before := isTarget;
      while todo != {}
        invariant |isTarget| == |cond| && todo <= cond[from]
        invariant forall t :: 0 <= t < |cond| ==> (isTarget[t] <==> before[t] || (t in cond[from] && t !in todo))
        decreases |todo|
      {
        var t :| t in todo;
        isTarget := isTarget[t := true];
        todo := todo - {t};
      }
    }
  }
}
