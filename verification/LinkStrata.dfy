/**
 * Strata of link endpoints. The stratum of an endpoint is the length of the
 * longest cascade that ends at it, where each endpoint of a cascade leads to the
 * next one along links and cannot be reached back from it.
 */
module LinkStrata {
  import opened Records
  import opened Graph
  import opened Tarjan
  import opened Layering

  ghost predicate IsEndpoint(links: seq<Link>, e: Endpoint) {
    exists i :: 0 <= i < |links| && (links[i].terms.source == e || links[i].terms.target == e)
  }

  ghost predicate LinkStep(links: seq<Link>, a: Endpoint, b: Endpoint) {
    exists i :: 0 <= i < |links| && links[i].terms.source == a && links[i].terms.target == b
  }

  ghost predicate IsRoute(links: seq<Link>, p: seq<Endpoint>, a: Endpoint, b: Endpoint) {
    && |p| > 0 && p[0] == a && p[|p| - 1] == b
    && (forall i :: 0 <= i < |p| ==> IsEndpoint(links, p[i]))
    && (forall i {:trigger p[i + 1]} :: 0 <= i < |p| - 1 ==> LinkStep(links, p[i], p[i + 1]))
  }

  ghost predicate Leads(links: seq<Link>, a: Endpoint, b: Endpoint) {
    exists p :: IsRoute(links, p, a, b)
  }

  ghost predicate Upstream(links: seq<Link>, a: Endpoint, b: Endpoint) {
    Leads(links, a, b) && !Leads(links, b, a)
  }

  ghost predicate IsCascade(links: seq<Link>, c: seq<Endpoint>, e: Endpoint) {
    && |c| > 0 && c[|c| - 1] == e && IsEndpoint(links, c[0])
    && (forall i {:trigger c[i + 1]} :: 0 <= i < |c| - 1 ==> Upstream(links, c[i], c[i + 1]))
  }

  /** h is the number of steps of the longest cascade ending at e. */
  ghost predicate IsStratum(links: seq<Link>, e: Endpoint, h: nat) {
    && (exists c :: IsCascade(links, c, e) && |c| == h + 1)
    && (forall c :: IsCascade(links, c, e) ==> |c| <= h + 1)
  }

  // ---- What the definition gives a reader of the strata ----

  lemma LeadsTrans(links: seq<Link>, a: Endpoint, b: Endpoint, c: Endpoint)
    requires Leads(links, a, b) && Leads(links, b, c)
    ensures Leads(links, a, c)
  {
    var p :| IsRoute(links, p, a, b);
    var q :| IsRoute(links, q, b, c);
    var r := p + q[1..];
    forall i | 0 <= i < |r| - 1
      ensures LinkStep(links, r[i], r[i + 1])
    {
      if i < |p| - 1 {
        assert LinkStep(links, p[i], p[i + 1]);
      } else {
        var j := i - (|p| - 1);
        assert LinkStep(links, q[j], q[j + 1]);
        assert r[i] == q[j] && r[i + 1] == q[j + 1];
      }
    }
    assert IsRoute(links, r, a, c);
  }

  lemma StepLeads(links: seq<Link>, a: Endpoint, b: Endpoint)
    requires LinkStep(links, a, b)
    ensures Leads(links, a, b)
  {
    assert IsRoute(links, [a, b], a, b);
  }

  /** Strictly downstream means a strictly later stratum. */
  lemma UpstreamRaises(links: seq<Link>, a: Endpoint, b: Endpoint, ha: nat, hb: nat)
    requires IsStratum(links, a, ha) && IsStratum(links, b, hb) && Upstream(links, a, b)
    ensures ha < hb
  {
    var c :| IsCascade(links, c, a) && |c| == ha + 1;
    CascadeExtends(links, c, a, b);
  }

  lemma CascadeExtends(links: seq<Link>, c: seq<Endpoint>, a: Endpoint, b: Endpoint)
    requires IsCascade(links, c, a) && Upstream(links, a, b)
    ensures IsCascade(links, c + [b], b)
  {
    var d := c + [b];
    forall i | 0 <= i < |d| - 1
      ensures Upstream(links, d[i], d[i + 1])
    {
      if i < |c| - 1 {
        assert Upstream(links, c[i], c[i + 1]);
      }
    }
  }

  /** Endpoints that lead to each other share one stratum. */
  lemma CycleShares(links: seq<Link>, a: Endpoint, b: Endpoint, ha: nat, hb: nat)
    requires IsStratum(links, a, ha) && IsStratum(links, b, hb) && Leads(links, a, b) && Leads(links, b, a)
    ensures ha == hb
  {
    CycleAtMost(links, a, b, ha, hb);
    CycleAtMost(links, b, a, hb, ha);
  }

  lemma CycleAtMost(links: seq<Link>, a: Endpoint, b: Endpoint, ha: nat, hb: nat)
    requires IsStratum(links, a, ha) && IsStratum(links, b, hb) && Leads(links, a, b) && Leads(links, b, a)
    ensures ha <= hb
  {
    var c :| IsCascade(links, c, a) && |c| == ha + 1;
    if ha > 0 {
      var d := CascadeAcross(links, c, a, b);
    }
  }

  /** The last endpoint of a cascade can be swapped for any endpoint of its cycle. */
  lemma CascadeAcross(links: seq<Link>, c: seq<Endpoint>, a: Endpoint, b: Endpoint) returns (d: seq<Endpoint>)
    requires IsCascade(links, c, a) && |c| > 1 && Leads(links, a, b) && Leads(links, b, a)
    ensures IsCascade(links, d, b) && |d| == |c|
  {
    var m := |c| - 2;
    assert Upstream(links, c[m], c[m + 1]);
    UpstreamOfCycle(links, c[m], a, b);
    CascadePrefix(links, c, a, m);
    CascadeExtends(links, c[..m + 1], c[m], b);
    d := c[..m + 1] + [b];
  }

  lemma UpstreamOfCycle(links: seq<Link>, x: Endpoint, a: Endpoint, b: Endpoint)
    requires Upstream(links, x, a) && Leads(links, a, b) && Leads(links, b, a)
    ensures Upstream(links, x, b)
  {
    LeadsTrans(links, x, a, b);
    if Leads(links, b, x) {
      LeadsTrans(links, a, b, x);
    }
  }

  lemma CascadePrefix(links: seq<Link>, c: seq<Endpoint>, e: Endpoint, m: nat)
    requires IsCascade(links, c, e) && m < |c|
    ensures IsCascade(links, c[..m + 1], c[m])
  {
    var d := c[..m + 1];
    forall i | 0 <= i < |d| - 1
      ensures Upstream(links, d[i], d[i + 1])
    {
      assert Upstream(links, c[i], c[i + 1]);
    }
  }

  /**
   * A link either stays inside a cycle and inside one stratum, or strictly raises the
   * stratum; which of the two is decided by whether its target leads back to its source.
   */
  lemma LinkKeepsOrRaises(links: seq<Link>, i: nat, hs: nat, ht: nat)
    requires i < |links| && IsStratum(links, links[i].terms.source, hs) && IsStratum(links, links[i].terms.target, ht)
    ensures hs <= ht && (hs == ht <==> Leads(links, links[i].terms.target, links[i].terms.source))
  {
    StepLeads(links, links[i].terms.source, links[i].terms.target);
    if Leads(links, links[i].terms.target, links[i].terms.source) {
      CycleShares(links, links[i].terms.source, links[i].terms.target, hs, ht);
    } else {
      UpstreamRaises(links, links[i].terms.source, links[i].terms.target, hs, ht);
    }
  }

  /** Stratum 0 holds exactly the endpoints with nothing strictly upstream. */
  lemma RootsAreZero(links: seq<Link>, e: Endpoint, h: nat)
    requires IsStratum(links, e, h)
    ensures h == 0 <==> !exists a :: Upstream(links, a, e)
  {
    var c :| IsCascade(links, c, e) && |c| == h + 1;
    if h > 0 {
      var m := h - 1;
      assert Upstream(links, c[m], c[m + 1]);
    }
    if a :| Upstream(links, a, e) {
      var p :| IsRoute(links, p, a, e);
      assert IsCascade(links, [a, e], e);
    }
  }

  lemma StratumUnique(links: seq<Link>, e: Endpoint, h: nat, k: nat)
    requires IsStratum(links, e, h) && IsStratum(links, e, k)
    ensures h == k
  {
  }

  // ---- The program: index the endpoints, find components, layer them ----

  ghost predicate Distinct<T>(s: seq<T>) {
    forall i, j :: 0 <= i < j < |s| ==> s[i] != s[j]
  }

  /** adj is the link graph over positions in keys. */
  ghost predicate Represents(links: seq<Link>, keys: seq<Endpoint>, adj: seq<seq<nat>>) {
    && Distinct(keys) && |adj| == |keys| && Valid(adj)
    && (forall e :: e in keys <==> IsEndpoint(links, e))
    && (forall u: nat, v: nat :: u < |keys| && v < |keys| ==> (v in adj[u] <==> LinkStep(links, keys[u], keys[v])))
  }

  method CollectKeys(links: seq<Link>) returns (keys: seq<Endpoint>)
    ensures Distinct(keys) && forall e :: e in keys <==> IsEndpoint(links, e)
  {
    keys := [];
    for n := 0 to |links|
      invariant Distinct(keys)
      invariant forall e :: e in keys <==>
        exists i :: 0 <= i < n && (links[i].terms.source == e || links[i].terms.target == e)
    {
      if links[n].terms.source !in keys {
        keys := keys + [links[n].terms.source];
      }
      if links[n].terms.target !in keys {
        keys := keys + [links[n].terms.target];
      }
    }
  }

  method IndexOf(keys: seq<Endpoint>, e: Endpoint) returns (k: nat)
    requires e in keys
    ensures k < |keys| && keys[k] == e
  {
    k := 0;
    while keys[k] != e
      invariant k < |keys| && e in keys[k..]
      decreases |keys| - k
    {
      assert keys[k..] == [keys[k]] + keys[k + 1..];
      k := k + 1;
    }
  }

  method Adjacency(links: seq<Link>, keys: seq<Endpoint>) returns (adj: seq<seq<nat>>)
    requires Distinct(keys) && forall e :: e in keys <==> IsEndpoint(links, e)
    ensures Represents(links, keys, adj)
  {
    adj := seq(|keys|, _ => []);
    for n := 0 to |links|
      invariant |adj| == |keys| && Valid(adj)
      invariant forall u: nat, v: nat :: u < |keys| && v < |keys| ==>
        (v in adj[u] <==> Before(links, n, keys[u], keys[v]))
    {
      assert IsEndpoint(links, links[n].terms.source) && IsEndpoint(links, links[n].terms.target);
      var s := IndexOf(keys, links[n].terms.source);
      var t := IndexOf(keys, links[n].terms.target);
      forall a, b
        ensures Before(links, n + 1, a, b) <==> Before(links, n, a, b) || (a == keys[s] && b == keys[t])
      {
        BeforeStep(links, n, a, b);
      }
      adj := adj[s := adj[s] + [t]];
    }
  }

  /** One of the first n links goes from a to b. */
  ghost predicate Before(links: seq<Link>, n: nat, a: Endpoint, b: Endpoint)
    requires n <= |links|
  {
    exists i :: 0 <= i < n && links[i].terms.source == a && links[i].terms.target == b
  }

  lemma BeforeStep(links: seq<Link>, n: nat, a: Endpoint, b: Endpoint)
    requires n < |links|
    ensures Before(links, n + 1, a, b) <==>
      Before(links, n, a, b) || (links[n].terms.source == a && links[n].terms.target == b)
  {
  }

  lemma ReachIsLeads(links: seq<Link>, keys: seq<Endpoint>, adj: seq<seq<nat>>, u: nat, v: nat)
    requires Represents(links, keys, adj) && u < |keys| && v < |keys|
    ensures Reach(adj, u, v) <==> Leads(links, keys[u], keys[v])
  {
    if Reach(adj, u, v) {
      var p :| Joins(adj, p, u, v);
      var q := seq(|p|, i requires 0 <= i < |p| => keys[p[i]]);
      forall i | 0 <= i < |q| - 1
        ensures LinkStep(links, q[i], q[i + 1])
      {
        assert p[i + 1] in adj[p[i]];
      }
      assert forall i :: 0 <= i < |q| ==> q[i] in keys;
      assert IsRoute(links, q, keys[u], keys[v]);
    }
    if Leads(links, keys[u], keys[v]) {
      var q :| IsRoute(links, q, keys[u], keys[v]);
      RouteReaches(links, keys, adj, q, u, v);
    }
  }

  lemma {:induction false} RouteReaches(
    links: seq<Link>, keys: seq<Endpoint>, adj: seq<seq<nat>>, q: seq<Endpoint>, u: nat, v: nat)
    requires Represents(links, keys, adj) && u < |keys| && v < |keys| && IsRoute(links, q, keys[u], keys[v])
    ensures Reach(adj, u, v)
    decreases |q|
  {
    if |q| == 1 {
      assert u == v;
      ReachSelf(adj, u);
    } else {
      var m := |q| - 2;
      assert LinkStep(links, q[m], q[m + 1]);
      var w: nat :| w < |keys| && keys[w] == q[m];
      RouteReaches(links, keys, adj, q[..|q| - 1], u, w);
      ReachEdge(adj, w, v);
      ReachTrans(adj, u, w, v);
    }
  }

  /** sccOf numbers the components of adj the way Tarjan's pass promises. */
  ghost predicate Numbered(adj: seq<seq<nat>>, sccOf: seq<int>, sccCount: nat)
    requires Valid(adj)
  {
    && |sccOf| == |adj|
    && (forall v :: 0 <= v < |adj| ==> 0 <= sccOf[v] < sccCount)
    && (forall u: nat, v: nat :: u < |adj| && v < |adj| ==>
          (sccOf[u] == sccOf[v] <==> Reach(adj, u, v) && Reach(adj, v, u)))
    && (forall u, k :: 0 <= u < |adj| && 0 <= k < |adj[u]| ==> sccOf[adj[u][k]] <= sccOf[u])
  }

  ghost predicate Condensed(adj: seq<seq<nat>>, sccOf: seq<int>, sccCount: nat, cond: seq<set<nat>>)
    requires Valid(adj) && |sccOf| == |adj|
  {
    && |cond| == sccCount && Descending(cond)
    && (forall c, t :: 0 <= c < sccCount ==> (t in cond[c] <==> Crosses(adj, sccOf, c, t)))
  }

  /** Along a walk the longest-path number never falls, and rises if the component changes. */
  lemma {:induction false} WalkRaises(adj: seq<seq<nat>>, sccOf: seq<int>, n: nat, cond: seq<set<nat>>, p: seq<nat>)
    requires Valid(adj) && Numbered(adj, sccOf, n) && Condensed(adj, sccOf, n, cond) && IsWalk(adj, p)
    ensures sccOf[p[0]] == sccOf[p[|p| - 1]] || Longest(cond, sccOf[p[0]]) < Longest(cond, sccOf[p[|p| - 1]])
    decreases |p|
  {
    if |p| > 1 {
      var m := |p| - 2;
      WalkRaises(adj, sccOf, n, cond, p[..|p| - 1]);
      assert p[m + 1] in adj[p[m]];
      var a: nat, b: nat := sccOf[p[m]], sccOf[p[m + 1]];
      if a != b {
        assert Crosses(adj, sccOf, a, b);
        LongestViaBounds(cond, b, |cond|);
      }
    }
  }

  lemma StrictRaises(adj: seq<seq<nat>>, sccOf: seq<int>, n: nat, cond: seq<set<nat>>, u: nat, v: nat)
    requires Valid(adj) && Numbered(adj, sccOf, n) && Condensed(adj, sccOf, n, cond)
    requires u < |adj| && v < |adj| && Reach(adj, u, v) && !Reach(adj, v, u)
    ensures Longest(cond, sccOf[u]) < Longest(cond, sccOf[v])
  {
    var p :| Joins(adj, p, u, v);
    WalkRaises(adj, sccOf, n, cond, p);
  }

  /** No cascade ending at keys[v] has more steps than the longest condensed path to its component. */
  lemma {:induction false} CascadeFits(
    links: seq<Link>, keys: seq<Endpoint>, adj: seq<seq<nat>>, sccOf: seq<int>, n: nat,
    cond: seq<set<nat>>, c: seq<Endpoint>, v: nat)
    requires Represents(links, keys, adj) && Numbered(adj, sccOf, n) && Condensed(adj, sccOf, n, cond)
    requires v < |keys| && IsCascade(links, c, keys[v])
    ensures |c| <= Longest(cond, sccOf[v]) + 1
    decreases |c|
  {
    if |c| > 1 {
      var m := |c| - 2;
      assert Upstream(links, c[m], c[m + 1]);
      var q :| IsRoute(links, q, c[m], keys[v]);
      var u: nat :| u < |keys| && keys[u] == c[m];
      CascadeFits(links, keys, adj, sccOf, n, cond, c[..|c| - 1], u);
      ReachIsLeads(links, keys, adj, u, v);
      ReachIsLeads(links, keys, adj, v, u);
      StrictRaises(adj, sccOf, n, cond, u, v);
    }
  }

  /** And some cascade has that many. */
  lemma {:induction false} CascadeExists(
    links: seq<Link>, keys: seq<Endpoint>, adj: seq<seq<nat>>, sccOf: seq<int>, n: nat,
    cond: seq<set<nat>>, v: nat) returns (c: seq<Endpoint>)
    requires Represents(links, keys, adj) && Numbered(adj, sccOf, n) && Condensed(adj, sccOf, n, cond)
    requires v < |keys|
    ensures IsCascade(links, c, keys[v]) && |c| == Longest(cond, sccOf[v]) + 1
    decreases n - sccOf[v]
  {
    var s: nat := sccOf[v];
    LongestViaBounds(cond, s, |cond|);
    assert keys[v] in keys;
    if Longest(cond, s) == 0 {
      c := [keys[v]];
    } else {
      var b: nat :| b < |cond| && s in cond[b] && Longest(cond, s) == Longest(cond, b) + 1;
      assert Crosses(adj, sccOf, b, s);
      var u: nat, k: nat :| u < |adj| && k < |adj[u]| && sccOf[u] == b && sccOf[adj[u][k]] == s;
      var c0 := CascadeExists(links, keys, adj, sccOf, n, cond, u);
      ReachEdge(adj, u, adj[u][k]);
      ReachTrans(adj, u, adj[u][k], v);
      ReachIsLeads(links, keys, adj, u, v);
      ReachIsLeads(links, keys, adj, v, u);
      CascadeExtends(links, c0, keys[u], keys[v]);
      c := c0 + [keys[v]];
    }
  }

  /** link_strata: every endpoint mentioned by the links with its stratum. */
  method ComputeStrata(links: seq<Link>) returns (strata: map<Endpoint, nat>)
    ensures forall e :: e in strata <==> IsEndpoint(links, e)
    ensures forall e :: e in strata ==> IsStratum(links, e, strata[e])
  {
    var keys := CollectKeys(links);
    var adj := Adjacency(links, keys);
    var sccOf, sccCount := Components(adj);
    var cond := Condense(adj, sccOf, sccCount);
    CondenseDescends(adj, sccOf, sccCount, cond);
    var isTarget := Targets(cond);
    var sccStratum := Relax(cond, isTarget);
    strata := map[];
    for i := 0 to |keys|
      invariant forall e :: e in strata <==> e in keys[..i]
      invariant forall e :: e in strata ==> IsStratum(links, e, strata[e])
    {
      var c := CascadeExists(links, keys, adj, sccOf, sccCount, cond, i);
      forall d | IsCascade(links, d, keys[i])
        ensures |d| <= |c|
      {
        CascadeFits(links, keys, adj, sccOf, sccCount, cond, d, i);
      }
      strata := strata[keys[i] := if sccStratum[sccOf[i]] > 0 then sccStratum[sccOf[i]] else 0];
    }
  }

  lemma CondenseDescends(adj: seq<seq<nat>>, sccOf: seq<int>, n: nat, cond: seq<set<nat>>)
    requires Valid(adj) && Numbered(adj, sccOf, n) && |cond| == n
    requires forall c, t :: 0 <= c < n ==> (t in cond[c] <==> Crosses(adj, sccOf, c, t))
    ensures Condensed(adj, sccOf, n, cond)
  {
  }
}
