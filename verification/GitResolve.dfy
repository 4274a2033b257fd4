/**
 * Recovering a path of a Git commit tree through its symbolic links. The commit
 * tree is any finite map from paths to entries; a link's blob is given parsed.
 */
module GitResolve {
  import opened Records

  type Path = seq<string>

  datatype Component = CurDir | ParentDir | Normal(name: string)

  /** What a link's blob says: not UTF-8, holding a NUL or absolute, or a relative path. */
  datatype Target = NotUtf8 | Outside | Relative(parts: seq<Component>)

  datatype Entry = Blob(bytes: seq<bv8>) | Tree | Symlink(target: Target) | Unsupported

  type CommitTree = map<Path, Entry>

  datatype Error =
    | Missing(path: Path) | UnsupportedType(path: Path) | NotATree(path: Path) | NotABlob(path: Path)
    | LinkCycle | TargetNotUtf8 | Escapes

  datatype Object = TreeObject | BlobObject(bytes: seq<bv8>)

  datatype Found = Found(path: Path, item: Object)

  /** Normalisation of parent joined with a relative target: `..` removes a component and must find one. */
  function Normalized(parent: Path, parts: seq<Component>): Option<Path>
    decreases |parts|
  {
    if parts == [] then Some(parent)
    else
      match parts[0]
      case CurDir => Normalized(parent, parts[1..])
      case Normal(name) => Normalized(parent + [name], parts[1..])
      case ParentDir => if parent == [] then None else Normalized(parent[..|parent| - 1], parts[1..])
  }

  /** Directory levels gained by the first k components. */
  function Net(parts: seq<Component>, k: nat): int
    requires k <= |parts|
  {
    if k == 0 then 0
    else Net(parts, k - 1) + (match parts[k - 1] case CurDir => 0 case Normal(_) => 1 case ParentDir => -1)
  }

  lemma NetShift(parts: seq<Component>, k: nat)
    requires 0 < k <= |parts|
    ensures Net(parts, k) == Net(parts, 1) + Net(parts[1..], k - 1)
  {
    if k > 1 {
      NetShift(parts, k - 1);
    }
  }

  /** After k components a path that starts at the given depth is above the root. */
  ghost predicate AboveRoot(depth: nat, parts: seq<Component>, k: nat) {
    k <= |parts| && depth + Net(parts, k) < 0
  }

  /** A target is refused exactly when some prefix of it climbs above the root of the commit tree. */
  lemma {:induction false} NormalizedFailsAboveRoot(parent: Path, parts: seq<Component>)
    ensures Normalized(parent, parts) == None <==> exists k: nat :: AboveRoot(|parent|, parts, k)
    ensures Normalized(parent, parts).Some? ==> |Normalized(parent, parts).value| == |parent| + Net(parts, |parts|)
    decreases |parts|
  {
    if parts == [] {
      assert forall k: nat :: !AboveRoot(|parent|, parts, k);
    } else {
      var step := Net(parts, 1);
      assert step == Net(parts, 0) + (match parts[0] case CurDir => 0 case Normal(_) => 1 case ParentDir => -1);
      if parts[0].ParentDir? && parent == [] {
        assert AboveRoot(|parent|, parts, 1);
      } else {
        var next := match parts[0] case CurDir => parent case Normal(name) => parent + [name]
                                   case ParentDir => parent[..|parent| - 1];
        NormalizedFailsAboveRoot(next, parts[1..]);
        forall k: nat | k <= |parts[1..]|
          ensures AboveRoot(|parent|, parts, k + 1) <==> AboveRoot(|next|, parts[1..], k)
          ensures |parent| + Net(parts, k + 1) == |next| + Net(parts[1..], k)
        {
          NetShift(parts, k + 1);
        }
        if k: nat :| AboveRoot(|parent|, parts, k) {
          assert k > 0;
          assert AboveRoot(|next|, parts[1..], k - 1);
        }
        if k: nat :| AboveRoot(|next|, parts[1..], k) {
          assert AboveRoot(|parent|, parts, k + 1);
        }
      }
    }
  }

  // ---- What a target says, component by component ----

  /** From component k on the path stays deeper than i. */
  ghost predicate StaysBelow(parent: Path, parts: seq<Component>, i: nat, k: nat) {
    forall m :: k <= m <= |parts| ==> |parent| + Net(parts, m) > i
  }

  /** Position i of the result is the parent's own, which nothing ever removed. */
  ghost predicate FromParent(parent: Path, parts: seq<Component>, i: nat, name: string) {
    i < |parent| && name == parent[i] && StaysBelow(parent, parts, i, 0)
  }

  /** Position i of the result is the name that component j put there, and nothing after j removed it. */
  ghost predicate FromName(parent: Path, parts: seq<Component>, i: nat, j: nat, name: string) {
    j < |parts| && parts[j] == Normal(name) && |parent| + Net(parts, j) == i && StaysBelow(parent, parts, i, j + 1)
  }

  /** Every `..` removes the component before it, and nothing else is removed. */
  ghost predicate Lands(parent: Path, parts: seq<Component>, r: Path) {
    && |r| == |parent| + Net(parts, |parts|)
    && forall i :: 0 <= i < |r| ==>
      FromParent(parent, parts, i, r[i]) || exists j: nat :: FromName(parent, parts, i, j, r[i])
  }

  ghost predicate ClimbsOut(parent: Path, parts: seq<Component>) {
    exists k: nat :: AboveRoot(|parent|, parts, k)
  }

  lemma {:induction false} NormalizedAt(parent: Path, parts: seq<Component>, i: nat) returns (j: nat)
    requires Normalized(parent, parts).Some? && i < |Normalized(parent, parts).value|
    ensures var name := Normalized(parent, parts).value[i];
      FromParent(parent, parts, i, name) || FromName(parent, parts, i, j, name)
    decreases |parts|
  {
    j := 0;
    if parts != [] {
      var step := Net(parts, 1);
      assert step == Net(parts, 0) + (match parts[0] case CurDir => 0 case Normal(_) => 1 case ParentDir => -1);
      var next := match parts[0] case CurDir => parent case Normal(name) => parent + [name]
                                 case ParentDir => parent[..|parent| - 1];
      var name := Normalized(next, parts[1..]).value[i];
      var j' := NormalizedAt(next, parts[1..], i);
      StaysShift(parent, next, parts, i, 0);
      if FromParent(next, parts[1..], i, name) {
        assert Net(parts, 0) == 0;
        if i < |parent| {
          StaysFrom(parent, parts, i);
        }
      } else {
        StaysShift(parent, next, parts, i, j' + 1);
        NetShift(parts, j' + 1);
        j := j' + 1;
      }
    }
  }

  lemma StaysShift(parent: Path, next: Path, parts: seq<Component>, i: nat, k: nat)
    requires parts != [] && |next| == |parent| + Net(parts, 1)
    ensures StaysBelow(next, parts[1..], i, k) <==> StaysBelow(parent, parts, i, k + 1)
  {
    forall m | 0 <= m <= |parts| - 1
      ensures |next| + Net(parts[1..], m) == |parent| + Net(parts, m + 1)
    {
      NetShift(parts, m + 1);
    }
    if StaysBelow(next, parts[1..], i, k) {
      forall m | k + 1 <= m <= |parts|
        ensures |parent| + Net(parts, m) > i
      {
        assert |next| + Net(parts[1..], m - 1) > i;
      }
    }
  }

  lemma StaysFrom(parent: Path, parts: seq<Component>, i: nat)
    requires StaysBelow(parent, parts, i, 1) && i < |parent|
    ensures StaysBelow(parent, parts, i, 0)
  {
    assert Net(parts, 0) == 0;
  }

  /** No other path fits the description. */
  lemma LandsUnique(parent: Path, parts: seq<Component>, a: Path, b: Path)
    requires Lands(parent, parts, a) && Lands(parent, parts, b)
    ensures a == b
  {
    forall i | 0 <= i < |a|
      ensures a[i] == b[i]
    {
      SamePlace(parent, parts, i, a[i], b[i]);
    }
  }

  lemma OnlyFromParent(parent: Path, parts: seq<Component>, i: nat)
    requires StaysBelow(parent, parts, i, 0)
    ensures forall j: nat, name :: !FromName(parent, parts, i, j, name)
  {
  }

  lemma OneName(parent: Path, parts: seq<Component>, i: nat, j: nat, x: string, k: nat, y: string)
    requires FromName(parent, parts, i, j, x) && FromName(parent, parts, i, k, y)
    ensures x == y
  {
    assert j == k;
  }

  lemma SamePlace(parent: Path, parts: seq<Component>, i: nat, x: string, y: string)
    requires FromParent(parent, parts, i, x) || exists j: nat :: FromName(parent, parts, i, j, x)
    requires FromParent(parent, parts, i, y) || exists j: nat :: FromName(parent, parts, i, j, y)
    ensures x == y
  {
    if StaysBelow(parent, parts, i, 0) {
      OnlyFromParent(parent, parts, i);
    } else {
      var j: nat :| FromName(parent, parts, i, j, x);
      var k: nat :| FromName(parent, parts, i, k, y);
      OneName(parent, parts, i, j, x, k, y);
    }
  }

  /** A target leads exactly to the path described, unless it climbs above the root. */
  lemma NormalizedIff(parent: Path, parts: seq<Component>, r: Path)
    ensures Normalized(parent, parts) == Some(r) <==> !ClimbsOut(parent, parts) && Lands(parent, parts, r)
  {
    NormalizedFailsAboveRoot(parent, parts);
    if Normalized(parent, parts).Some? {
      var n := Normalized(parent, parts).value;
      forall i | 0 <= i < |n|
        ensures FromParent(parent, parts, i, n[i]) || exists j: nat :: FromName(parent, parts, i, j, n[i])
      {
        var j := NormalizedAt(parent, parts, i);
      }
      assert Lands(parent, parts, n);
      if Lands(parent, parts, r) {
        LandsUnique(parent, parts, n, r);
      }
    }
  }

  /**
   * The result begins with the parent's components down to the least depth ever reached, and has only names of
   * the target after them.
   */
  lemma LeastDepthSurvives(parent: Path, parts: seq<Component>, r: Path, m: nat, at: nat)
    requires Normalized(parent, parts) == Some(r) && at <= |parts| && m == |parent| + Net(parts, at)
    requires forall k :: 0 <= k <= |parts| ==> m <= |parent| + Net(parts, k)
    ensures m <= |parent| && m <= |r| && r[..m] == parent[..m]
    ensures forall i :: m <= i < |r| ==> Normal(r[i]) in parts
  {
    NormalizedIff(parent, parts, r);
    assert Net(parts, 0) == 0;
    forall i | 0 <= i < |r|
      ensures i < m ==> r[i] == parent[i]
      ensures i >= m ==> Normal(r[i]) in parts
    {
      if i < m {
        OnlyFromParent(parent, parts, i);
      } else {
        assert |parent| + Net(parts, at) <= i;
      }
    }
  }

  method NormalizeRepoPath(parent: Path, parts: seq<Component>) returns (r: Option<Path>)
    ensures r == Normalized(parent, parts)
    ensures r == None <==> ClimbsOut(parent, parts)
    ensures forall p :: r == Some(p) <==> !ClimbsOut(parent, parts) && Lands(parent, parts, p)
  {
    NormalizedFailsAboveRoot(parent, parts);
    forall p
      ensures Normalized(parent, parts) == Some(p) <==> !ClimbsOut(parent, parts) && Lands(parent, parts, p)
    {
      NormalizedIff(parent, parts, p);
    }
    var path := parent;
    for i := 0 to |parts|
      invariant Normalized(path, parts[i..]) == Normalized(parent, parts)
    {
      match parts[i] {
        case CurDir =>
        case Normal(name) => path := path + [name];
        case ParentDir =>
          if path == [] {
            return None;
          }
          path := path[..|path| - 1];
      }
    }
    r := Some(path);
  }

  // ---- Targets in parts ----

  function Names(names: seq<string>): (parts: seq<Component>)
    ensures |parts| == |names| && forall i :: 0 <= i < |names| ==> parts[i] == Normal(names[i])
  {
    seq(|names|, i requires 0 <= i < |names| => Normal(names[i]))
  }

  function Ups(n: nat): (parts: seq<Component>)
    ensures |parts| == n && forall i :: 0 <= i < n ==> parts[i] == ParentDir
  {
    seq(n, i => ParentDir)
  }

  /** A target in two parts leads where the second part leads from where the first part leads. */
  lemma {:induction false} NormalizedConcat(parent: Path, first: seq<Component>, second: seq<Component>)
    ensures Normalized(parent, first + second) ==
      if Normalized(parent, first).None? then None else Normalized(Normalized(parent, first).value, second)
    decreases |first|
  {
    if first == [] {
      assert [] + second == second;
    } else {
      assert (first + second)[1..] == first[1..] + second;
      match first[0] {
        case CurDir => NormalizedConcat(parent, first[1..], second);
        case Normal(name) => NormalizedConcat(parent + [name], first[1..], second);
        case ParentDir =>
          if parent != [] {
            NormalizedConcat(parent[..|parent| - 1], first[1..], second);
          }
      }
    }
  }

  lemma {:induction false} DownNames(parent: Path, names: seq<string>)
    ensures Normalized(parent, Names(names)) == Some(parent + names)
    decreases |names|
  {
    if names == [] {
      assert parent + [] == parent;
    } else {
      assert Names(names)[1..] == Names(names[1..]);
      DownNames(parent + [names[0]], names[1..]);
      assert parent + [names[0]] + names[1..] == parent + names;
    }
  }

  lemma {:induction false} UpLevels(parent: Path, n: nat)
    ensures Normalized(parent, Ups(n)) == if n <= |parent| then Some(parent[..|parent| - n]) else None
    decreases n
  {
    if n == 0 {
      assert parent[..|parent|] == parent;
    } else if parent != [] {
      assert Ups(n)[1..] == Ups(n - 1);
      UpLevels(parent[..|parent| - 1], n - 1);
      if n <= |parent| {
        assert parent[..|parent| - 1][..|parent| - n] == parent[..|parent| - n];
      }
    }
  }

  /** As many `..` as names before them change nothing, whatever the path. */
  lemma DownThenUp(parent: Path, names: seq<string>)
    ensures Normalized(parent, Names(names) + Ups(|names|)) == Some(parent)
  {
    NormalizedConcat(parent, Names(names), Ups(|names|));
    DownNames(parent, names);
    UpLevels(parent + names, |names|);
    assert (parent + names)[..|parent|] == parent;
  }

  /** `..` removes as many of the last components of the directory, and the names follow what is left. */
  lemma UpThenDown(dir: Path, n: nat, names: seq<string>)
    ensures Normalized(dir, Ups(n) + Names(names)) == if n <= |dir| then Some(dir[..|dir| - n] + names) else None
  {
    NormalizedConcat(dir, Ups(n), Names(names));
    UpLevels(dir, n);
    if n <= |dir| {
      DownNames(dir[..|dir| - n], names);
    }
  }

  /**
   * The resolution relation, without any record of active links: out is what
   * remaining names below resolved, by a derivation of height at most n.
   */
  ghost predicate Derives(n: nat, t: CommitTree, resolved: Path, remaining: Path, out: Found)
    decreases n
  {
    n > 0 &&
    if remaining == [] then out == Found(resolved, TreeObject)
    else
      var path := resolved + [remaining[0]];
      var rest := remaining[1..];
      && path in t
      && match t[path]
         case Tree => if rest == [] then out == Found(path, TreeObject) else Derives(n - 1, t, path, rest, out)
         case Blob(bytes) => rest == [] && out == Found(path, BlobObject(bytes))
         case Unsupported => false
         case Symlink(target) =>
           && target.Relative? && Normalized(resolved, target.parts).Some?
           && exists mid ::
                && Derives(n - 1, t, [], Normalized(resolved, target.parts).value, mid)
                && if rest == [] then out == mid else mid.item.TreeObject? && Derives(n - 1, t, mid.path, rest, out)
  }

  lemma {:induction false} DerivesMore(n: nat, m: nat, t: CommitTree, resolved: Path, remaining: Path, out: Found)
    requires Derives(n, t, resolved, remaining, out) && n <= m
    ensures Derives(m, t, resolved, remaining, out)
    decreases n
  {
    if remaining != [] {
      var path, rest := resolved + [remaining[0]], remaining[1..];
      match t[path] {
        case Tree =>
          if rest != [] {
            DerivesMore(n - 1, m - 1, t, path, rest, out);
          }
        case Symlink(target) =>
          var goal := Normalized(resolved, target.parts).value;
          var mid :| Derives(n - 1, t, [], goal, mid)
            && if rest == [] then out == mid else mid.item.TreeObject? && Derives(n - 1, t, mid.path, rest, out);
          DerivesMore(n - 1, m - 1, t, [], goal, mid);
          if rest != [] {
            DerivesMore(n - 1, m - 1, t, mid.path, rest, out);
          }
        case Blob(_) =>
      }
    }
  }

  /** The relation is a partial function: no path resolves to two objects. */
  lemma {:induction false} DerivesUnique(
    n: nat, m: nat, t: CommitTree, resolved: Path, remaining: Path, out: Found, other: Found)
    requires Derives(n, t, resolved, remaining, out) && Derives(m, t, resolved, remaining, other)
    ensures out == other
    decreases n
  {
    if remaining != [] {
      var path, rest := resolved + [remaining[0]], remaining[1..];
      match t[path] {
        case Tree =>
          if rest != [] {
            DerivesUnique(n - 1, m - 1, t, path, rest, out, other);
          }
        case Symlink(target) =>
          var goal := Normalized(resolved, target.parts).value;
          var mid :| Derives(n - 1, t, [], goal, mid)
            && if rest == [] then out == mid else mid.item.TreeObject? && Derives(n - 1, t, mid.path, rest, out);
          var mid' :| Derives(m - 1, t, [], goal, mid')
            && if rest == [] then other == mid' else mid'.item.TreeObject? && Derives(m - 1, t, mid'.path, rest, other);
          DerivesUnique(n - 1, m - 1, t, [], goal, mid, mid');
          if rest != [] {
            DerivesUnique(n - 1, m - 1, t, mid.path, rest, out, other);
          }
        case Blob(_) =>
      }
    }
  }

  ghost predicate IsLink(t: CommitTree, p: Path) {
    p in t && p != [] && t[p].Symlink?
  }

  /** The target of link p resolves by a derivation of height at most n. */
  ghost predicate Opens(n: nat, t: CommitTree, p: Path) {
    && IsLink(t, p) && t[p].target.Relative?
    && var goal := Normalized(p[..|p| - 1], t[p].target.parts);
       goal.Some? && exists mid :: Derives(n, t, [], goal.value, mid)
  }

  lemma OpensMore(n: nat, m: nat, t: CommitTree, p: Path)
    requires Opens(n, t, p) && n <= m
    ensures Opens(m, t, p)
  {
    var goal := Normalized(p[..|p| - 1], t[p].target.parts).value;
    var mid :| Derives(n, t, [], goal, mid);
    DerivesMore(n, m, t, [], goal, mid);
  }

  /** A link that opens at all opens first at some height. */
  lemma LeastOpening(n: nat, t: CommitTree, p: Path) returns (m: nat)
    requires Opens(n, t, p)
    ensures 0 < m <= n && Opens(m, t, p) && !Opens(m - 1, t, p)
  {
    m := n;
    while m > 0 && Opens(m - 1, t, p)
      invariant m <= n && Opens(m, t, p)
    {
      m := m - 1;
    }
    var goal := Normalized(p[..|p| - 1], t[p].target.parts).value;
    var mid :| Derives(m, t, [], goal, mid);
  }

  /** Resolvable by a derivation too low to pass through any active link again. */
  ghost predicate Fits(n: nat, t: CommitTree, resolved: Path, remaining: Path, active: set<Path>, out: Found) {
    Derives(n, t, resolved, remaining, out) && forall p :: p in active && n > 0 ==> !Opens(n - 1, t, p)
  }

  ghost predicate Resolvable(t: CommitTree, resolved: Path, remaining: Path, active: set<Path>) {
    exists n: nat, out: Found :: Fits(n, t, resolved, remaining, active, out)
  }

  /** Below a tree entry, resolvability passes to the rest of the path. */
  lemma TreeStep(t: CommitTree, resolved: Path, remaining: Path, active: set<Path>)
    requires |remaining| > 1 && Resolvable(t, resolved, remaining, active)
    requires resolved + [remaining[0]] in t && t[resolved + [remaining[0]]].Tree?
    ensures Resolvable(t, resolved + [remaining[0]], remaining[1..], active)
  {
    var n: nat, out: Found :| Fits(n, t, resolved, remaining, active, out);
    forall p | p in active && n - 1 > 0
      ensures !Opens(n - 2, t, p)
    {
      if Opens(n - 2, t, p) {
        OpensMore(n - 2, n - 1, t, p);
      }
    }
    assert Fits(n - 1, t, resolved + [remaining[0]], remaining[1..], active, out);
  }

  /** At a link, its target is resolvable with the link active, so the link was not active before. */
  lemma LinkOpens(t: CommitTree, resolved: Path, remaining: Path, active: set<Path>, parts: seq<Component>)
    requires remaining != [] && Resolvable(t, resolved, remaining, active)
    requires resolved + [remaining[0]] in t && t[resolved + [remaining[0]]] == Symlink(Relative(parts))
    ensures resolved + [remaining[0]] !in active && Normalized(resolved, parts).Some?
    ensures Resolvable(t, [], Normalized(resolved, parts).value, active + {resolved + [remaining[0]]})
  {
    var path := resolved + [remaining[0]];
    assert path[..|path| - 1] == resolved;
    var n: nat, out: Found :| Fits(n, t, resolved, remaining, active, out);
    var goal := Normalized(resolved, parts).value;
    var first :| Derives(n - 1, t, [], goal, first)
      && if |remaining| == 1 then out == first
         else first.item.TreeObject? && Derives(n - 1, t, first.path, remaining[1..], out);
    assert Opens(n - 1, t, path);
    var m := LeastOpening(n - 1, t, path);
    var mid :| Derives(m, t, [], goal, mid);
    forall p | p in active + {path}
      ensures !Opens(m - 1, t, p)
    {
      if p in active && Opens(m - 1, t, p) {
        OpensMore(m - 1, n - 1, t, p);
      }
    }
    assert Fits(m, t, [], goal, active + {path}, mid);
  }

  /** What follows a link is resolvable below the link's tree, with the same links active as before it. */
  lemma LinkStep(
    t: CommitTree, resolved: Path, remaining: Path, active: set<Path>, parts: seq<Component>, k: nat, mid: Found)
    requires |remaining| > 1 && Resolvable(t, resolved, remaining, active)
    requires resolved + [remaining[0]] in t && t[resolved + [remaining[0]]] == Symlink(Relative(parts))
    requires Normalized(resolved, parts).Some? && Derives(k, t, [], Normalized(resolved, parts).value, mid)
    ensures mid.item.TreeObject? && Resolvable(t, mid.path, remaining[1..], active)
  {
    var rest := remaining[1..];
    var n: nat, out: Found :| Fits(n, t, resolved, remaining, active, out);
    var mid' :| Derives(n - 1, t, [], Normalized(resolved, parts).value, mid')
      && mid'.item.TreeObject? && Derives(n - 1, t, mid'.path, rest, out);
    DerivesUnique(k, n - 1, t, [], Normalized(resolved, parts).value, mid, mid');
    forall p | p in active && n - 1 > 0
      ensures !Opens(n - 2, t, p)
    {
      if Opens(n - 2, t, p) {
        OpensMore(n - 2, n - 1, t, p);
      }
    }
    assert Fits(n - 1, t, mid.path, rest, active, out);
  }

  /** No nonempty prefix of p is a link. */
  ghost predicate LinkFree(t: CommitTree, p: Path) {
    forall k :: 0 < k <= |p| ==> !IsLink(t, p[..k])
  }

  ghost function Links(t: CommitTree): set<Path> {
    set p | p in t && IsLink(t, p)
  }

  /** What the tree holds for each error of the resolution. */
  ghost predicate Explains(t: CommitTree, error: Error) {
    match error
    case Missing(p) => p !in t
    case UnsupportedType(p) => p in t && t[p].Unsupported?
    case NotATree(p) => p in t && (t[p].Blob? || t[p].Symlink?)
    case TargetNotUtf8 => exists p :: IsLink(t, p) && t[p].target.NotUtf8?
    case Escapes => exists p :: IsLink(t, p) && LeavesTree(p, t[p].target)
    case LinkCycle => Links(t) != {}
    case NotABlob(_) => false
  }

  /** An absolute target or the like, or one that climbs above the root from the link's own directory. */
  ghost predicate LeavesTree(p: Path, target: Target)
    requires p != []
  {
    target.Outside? || (target.Relative? && ClimbsOut(p[..|p| - 1], target.parts))
  }

  lemma LinkDerives(
    n: nat, m: nat, t: CommitTree, resolved: Path, remaining: Path, parts: seq<Component>, mid: Found, out: Found)
    requires remaining != []
    requires resolved + [remaining[0]] in t && t[resolved + [remaining[0]]] == Symlink(Relative(parts))
    requires Normalized(resolved, parts).Some? && Derives(n, t, [], Normalized(resolved, parts).value, mid)
    requires if |remaining| == 1 then out == mid
             else mid.item.TreeObject? && Derives(m, t, mid.path, remaining[1..], out)
    ensures Derives(n + m + 1, t, resolved, remaining, out)
  {
    DerivesMore(n, n + m, t, [], Normalized(resolved, parts).value, mid);
    if |remaining| > 1 {
      DerivesMore(m, n + m, t, mid.path, remaining[1..], out);
    }
  }

  /**
   * resolve_path. It always ends: a link is entered only while it is not active,
   * and otherwise the remaining path gets shorter. On success the active links are
   * as before, the path returned passes through no link, and the result is the one
   * the resolution relation gives. It succeeds whenever the relation gives one.
   */
  method ResolvePath(t: CommitTree, resolved: Path, remaining: Path, active: set<Path>)
    returns (r: Result<Found, Error>, active': set<Path>)
    requires LinkFree(t, resolved)
    ensures r.Ok? ==> active' == active && LinkFree(t, r.value.path)
    ensures r.Ok? ==> exists n: nat :: Derives(n, t, resolved, remaining, r.value)
    ensures Resolvable(t, resolved, remaining, active) ==> r.Ok?
    ensures r.Err? ==> Explains(t, r.error)
    decreases Links(t) - active, |remaining|
  {
    active' := active;
    if remaining == [] {
      assert Derives(1, t, resolved, remaining, Found(resolved, TreeObject));
      return Ok(Found(resolved, TreeObject)), active';
    }
    var rest := remaining[1..];
    var path := resolved + [remaining[0]];
    if path !in t {
      return Err(Missing(path)), active';
    }
    match t[path] {
      case Unsupported =>
        r := Err(UnsupportedType(path));
      case Blob(bytes) =>
        if rest == [] {
          PrefixLinkFree(t, resolved, remaining[0]);
          assert Derives(1, t, resolved, remaining, Found(path, BlobObject(bytes)));
          r := Ok(Found(path, BlobObject(bytes)));
        } else {
          r := Err(NotATree(path));
        }
      case Tree =>
        PrefixLinkFree(t, resolved, remaining[0]);
        if rest == [] {
          assert Derives(1, t, resolved, remaining, Found(path, TreeObject));
          r := Ok(Found(path, TreeObject));
        } else {
          if Resolvable(t, resolved, remaining, active) {
            TreeStep(t, resolved, remaining, active);
          }
          r, active' := ResolvePath(t, path, rest, active);
          if r.Ok? {
            ghost var n: nat :| Derives(n, t, path, rest, r.value);
            assert Derives(n + 1, t, resolved, remaining, r.value);
          }
        }
      case Symlink(target) =>
        r, active' := FollowLink(t, resolved, remaining, active, target);
    }
  }

  lemma PrefixLinkFree(t: CommitTree, resolved: Path, c: string)
    requires LinkFree(t, resolved) && !IsLink(t, resolved + [c])
    ensures LinkFree(t, resolved + [c])
  {
    var p := resolved + [c];
    forall k | 0 < k <= |p|
      ensures !IsLink(t, p[..k])
    {
      assert p[..k] == if k == |p| then p else resolved[..k];
    }
  }

  /** The link branch of resolve_path. */
  method FollowLink(t: CommitTree, resolved: Path, remaining: Path, active: set<Path>, target: Target)
    returns (r: Result<Found, Error>, active': set<Path>)
    requires LinkFree(t, resolved) && remaining != []
    requires resolved + [remaining[0]] in t && t[resolved + [remaining[0]]] == Symlink(target)
    ensures r.Ok? ==> active' == active && LinkFree(t, r.value.path)
    ensures r.Ok? ==> exists n: nat :: Derives(n, t, resolved, remaining, r.value)
    ensures Resolvable(t, resolved, remaining, active) ==> r.Ok?
    ensures r.Err? ==> Explains(t, r.error)
    decreases Links(t) - active, |remaining|, 0
  {
    var rest := remaining[1..];
    var path := resolved + [remaining[0]];
    active' := active;
    assert IsLink(t, path) && path in Links(t) && path[..|path| - 1] == resolved;
    ghost var resolvable := Resolvable(t, resolved, remaining, active);
    if resolvable && target.Relative? {
      LinkOpens(t, resolved, remaining, active, target.parts);
    }
    if path in active {
      return Err(LinkCycle), active';
    }
    active' := active' + {path};
    if target.NotUtf8? {
      return Err(TargetNotUtf8), active';
    }
    if target.Outside? {
      return Err(Escapes), active';
    }
    var goal := NormalizeRepoPath(resolved, target.parts);
    if goal.None? {
      return Err(Escapes), active';
    }
    assert path in Links(t) - active;
    r, active' := ResolvePath(t, [], goal.value, active');
    if r.Err? {
      return;
    }
    active' := active' - {path};
    assert active' == active;
    var entry := r.value;
    ghost var k: nat :| Derives(k, t, [], goal.value, entry);
    if rest == [] {
      LinkDerives(k, 0, t, resolved, remaining, target.parts, entry, entry);
      return;
    }
    if resolvable {
      LinkStep(t, resolved, remaining, active, target.parts, k, entry);
    }
    if !entry.item.TreeObject? {
      return Err(NotATree(path)), active';
    }
    r, active' := ResolvePath(t, entry.path, rest, active');
    if r.Ok? {
      ghost var m: nat :| Derives(m, t, entry.path, rest, r.value);
      LinkDerives(k, m, t, resolved, remaining, target.parts, entry, r.value);
    }
  }

  // ---- Where a link leads ----

  /** A path through something resolves below what the something resolves to. */
  lemma {:induction false} DerivesSplit(n: nat, t: CommitTree, resolved: Path, a: Path, b: Path, out: Found)
    returns (mid: Found)
    requires Derives(n, t, resolved, a + b, out) && b != []
    ensures mid.item.TreeObject? && Derives(n, t, resolved, a, mid) && Derives(n, t, mid.path, b, out)
    decreases n
  {
    if a == [] {
      mid := Found(resolved, TreeObject);
      assert a + b == b;
    } else {
      var path, rest := resolved + [a[0]], (a + b)[1..];
      assert rest == a[1..] + b;
      match t[path] {
        case Tree =>
          if a[1..] == [] {
            mid := Found(path, TreeObject);
            assert rest == b;
          } else {
            mid := DerivesSplit(n - 1, t, path, a[1..], b, out);
          }
          DerivesMore(n - 1, n, t, mid.path, b, out);
        case Symlink(target) =>
          var goal := Normalized(resolved, target.parts).value;
          var entry :| Derives(n - 1, t, [], goal, entry)
            && entry.item.TreeObject? && Derives(n - 1, t, entry.path, rest, out);
          if a[1..] == [] {
            mid := entry;
            assert rest == b;
          } else {
            mid := DerivesSplit(n - 1, t, entry.path, a[1..], b, out);
          }
          DerivesMore(n - 1, n, t, mid.path, b, out);
      }
    }
  }

  lemma {:induction false} DerivesJoin(
    n: nat, m: nat, t: CommitTree, resolved: Path, a: Path, b: Path, mid: Found, out: Found)
    requires Derives(n, t, resolved, a, mid) && mid.item.TreeObject? && Derives(m, t, mid.path, b, out) && b != []
    ensures Derives(n + m, t, resolved, a + b, out)
    decreases n
  {
    if a == [] {
      assert a + b == b;
      DerivesMore(m, n + m, t, resolved, b, out);
    } else {
      var path, rest := resolved + [a[0]], (a + b)[1..];
      assert rest == a[1..] + b;
      match t[path] {
        case Tree =>
          if a[1..] == [] {
            assert rest == b;
            DerivesMore(m, n + m - 1, t, path, b, out);
          } else {
            DerivesJoin(n - 1, m, t, path, a[1..], b, mid, out);
          }
        case Symlink(target) =>
          var goal := Normalized(resolved, target.parts).value;
          var entry :| Derives(n - 1, t, [], goal, entry)
            && if a[1..] == [] then mid == entry
               else entry.item.TreeObject? && Derives(n - 1, t, entry.path, a[1..], mid);
          DerivesMore(n - 1, n + m - 1, t, [], goal, entry);
          if a[1..] == [] {
            assert rest == b;
            DerivesMore(m, n + m - 1, t, entry.path, b, out);
          } else {
            DerivesJoin(n - 1, m, t, entry.path, a[1..], b, mid, out);
          }
      }
    }
  }

  ghost predicate Resolves(t: CommitTree, path: Path, out: Found) {
    exists n: nat :: Derives(n, t, [], path, out)
  }

  /** A directory that is reached through no link. */
  ghost predicate IsDirectory(t: CommitTree, dir: Path) {
    forall k :: 0 < k <= |dir| ==> dir[..k] in t && t[dir[..k]] == Tree
  }

  lemma {:induction false} DirectoryResolves(t: CommitTree, dir: Path)
    requires IsDirectory(t, dir)
    ensures Derives(|dir| + 1, t, [], dir, Found(dir, TreeObject))
    decreases |dir|
  {
    if dir != [] {
      var up, last := dir[..|dir| - 1], [dir[|dir| - 1]];
      forall k | 0 < k <= |up|
        ensures up[..k] in t && t[up[..k]] == Tree
      {
        assert up[..k] == dir[..k];
      }
      DirectoryResolves(t, up);
      assert dir[..|dir|] == dir && up + last == dir;
      assert Derives(1, t, up, last, Found(dir, TreeObject));
      DerivesJoin(|up| + 1, 1, t, [], up, last, Found(up, TreeObject), Found(dir, TreeObject));
    }
  }

  /** Below a directory a path resolves by what the directory holds. */
  lemma BelowDirectory(t: CommitTree, dir: Path, rest: Path, out: Found)
    requires IsDirectory(t, dir) && rest != []
    ensures Resolves(t, dir + rest, out) <==> exists n: nat :: Derives(n, t, dir, rest, out)
  {
    DirectoryResolves(t, dir);
    if n: nat :| Derives(n, t, [], dir + rest, out) {
      var mid := DerivesSplit(n, t, [], dir, rest, out);
      DerivesUnique(n, |dir| + 1, t, [], dir, mid, Found(dir, TreeObject));
      assert Derives(n, t, dir, rest, out);
    }
    if n: nat :| Derives(n, t, dir, rest, out) {
      DerivesJoin(|dir| + 1, n, t, [], dir, rest, Found(dir, TreeObject), out);
      assert Resolves(t, dir + rest, out);
    }
  }

  /** What a directory holds itself resolves to just that. */
  lemma EntryResolves(t: CommitTree, dir: Path, name: string, rest: Path, out: Found)
    requires IsDirectory(t, dir)
    ensures var path := dir + [name];
      && (path !in t || t[path].Unsupported? ==> !Resolves(t, path + rest, out))
      && (path in t && t[path].Blob? ==>
        (Resolves(t, path + rest, out) <==> rest == [] && out == Found(path, BlobObject(t[path].bytes))))
      && (path in t && t[path].Tree? && rest == [] ==>
        (Resolves(t, path + rest, out) <==> out == Found(path, TreeObject)))
  {
    var path := dir + [name];
    assert path + rest == dir + ([name] + rest) && ([name] + rest)[1..] == rest;
    BelowDirectory(t, dir, [name] + rest, out);
    if path in t && (t[path].Blob? || t[path].Tree?) && rest == [] {
      var item := if t[path].Tree? then TreeObject else BlobObject(t[path].bytes);
      assert Derives(1, t, dir, [name] + rest, Found(path, item));
    }
  }

  /** A link in a directory, whatever follows it, leads where its normalised target with the same rest leads. */
  lemma LinkLeads(t: CommitTree, dir: Path, name: string, parts: seq<Component>, rest: Path, out: Found)
    requires IsDirectory(t, dir) && dir + [name] in t && t[dir + [name]] == Symlink(Relative(parts))
    ensures Resolves(t, dir + [name] + rest, out) <==>
      Normalized(dir, parts).Some? && Resolves(t, Normalized(dir, parts).value + rest, out)
  {
    assert dir + [name] + rest == dir + ([name] + rest);
    BelowDirectory(t, dir, [name] + rest, out);
    assert ([name] + rest)[1..] == rest;
    if n: nat :| Derives(n, t, dir, [name] + rest, out) {
      LinkLeadsThere(n, t, dir, name, parts, rest, out);
    }
    if Normalized(dir, parts).Some? {
      var goal := Normalized(dir, parts).value;
      if n: nat :| Derives(n, t, [], goal + rest, out) {
        if rest == [] {
          assert goal + rest == goal;
          assert [name] + rest == [name];
          LinkDerives(n, 0, t, dir, [name] + rest, parts, out, out);
          assert Derives(n + 1, t, dir, [name] + rest, out);
        } else {
          var mid := DerivesSplit(n, t, [], goal, rest, out);
          LinkDerives(n, n, t, dir, [name] + rest, parts, mid, out);
          assert Derives(n + n + 1, t, dir, [name] + rest, out);
        }
      }
    }
  }

  lemma LinkLeadsThere(n: nat, t: CommitTree, dir: Path, name: string, parts: seq<Component>, rest: Path, out: Found)
    requires dir + [name] in t && t[dir + [name]] == Symlink(Relative(parts))
    requires Derives(n, t, dir, [name] + rest, out)
    ensures Normalized(dir, parts).Some? && Resolves(t, Normalized(dir, parts).value + rest, out)
  {
    assert ([name] + rest)[1..] == rest;
    var goal := Normalized(dir, parts).value;
    var mid :| Derives(n - 1, t, [], goal, mid)
      && if rest == [] then out == mid else mid.item.TreeObject? && Derives(n - 1, t, mid.path, rest, out);
    if rest == [] {
      assert goal + rest == goal;
    } else {
      DerivesJoin(n - 1, n - 1, t, [], goal, rest, mid, out);
    }
  }

  /**
   * A link in a directory whose target goes up n levels and then down leads to what is that many levels
   * above the directory, and out of the commit tree, so to nothing, if the directory is not that deep.
   */
  lemma UpwardLinkLeads(
    t: CommitTree, dir: Path, name: string, n: nat, names: seq<string>, rest: Path, out: Found)
    requires IsDirectory(t, dir) && dir + [name] in t
    requires t[dir + [name]] == Symlink(Relative(Ups(n) + Names(names)))
    ensures Resolves(t, dir + [name] + rest, out) <==>
      n <= |dir| && Resolves(t, dir[..|dir| - n] + names + rest, out)
  {
    LinkLeads(t, dir, name, Ups(n) + Names(names), rest, out);
    UpThenDown(dir, n, names);
  }

  /**
   * read_blob after normalisation: a blob is returned exactly when the resolution
   * relation gives that blob, so neither the cycle error nor any other is spurious.
   */
  method ReadBlob(t: CommitTree, path: Path) returns (r: Result<seq<bv8>, Error>)
    ensures forall bytes :: r == Ok(bytes) <==>
      exists n: nat, p: Path :: Derives(n, t, [], path, Found(p, BlobObject(bytes)))
    ensures r == Err(LinkCycle) ==> !exists n: nat, out: Found :: Derives(n, t, [], path, out)
    ensures r == Err(NotABlob(path)) <==> exists p :: Resolves(t, path, Found(p, TreeObject))
    ensures r.Err? && r.error != NotABlob(path) ==> Explains(t, r.error)
  {
    var found, active := ResolvePath(t, [], path, {});
    forall n: nat, out: Found | Derives(n, t, [], path, out)
      ensures found == Ok(out)
    {
      assert Fits(n, t, [], path, {}, out);
      assert Resolvable(t, [], path, {});
      var m: nat :| Derives(m, t, [], path, found.value);
      DerivesUnique(n, m, t, [], path, out, found.value);
    }
    match found {
      case Err(e) => r := Err(e);
      case Ok(f) =>
        match f.item {
          case TreeObject =>
            assert Resolves(t, path, Found(f.path, TreeObject));
            r := Err(NotABlob(path));
          case BlobObject(bytes) => r := Ok(bytes);
        }
    }
  }
}
