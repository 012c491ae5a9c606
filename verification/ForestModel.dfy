/** The forest of an acyclic inheritance graph: every class is shown below every one of its
    bases, with the path from the root as its key. */
module ForestModel {
  import opened NameOrder
  import Naming

  /** The names of the derived classes, for every class. */
  type Graph = map<string, seq<string>>

  type Path = seq<string>

  datatype TreeNode = TreeNode(key: string, title: string, children: seq<TreeNode>)

  ghost predicate Closed(g: Graph) {
    forall n, c | n in g && c in g[n] :: c in g
  }

  ghost predicate IsPath(g: Graph, p: Path) {
    && |p| > 0
    && (forall i | 0 <= i < |p| :: p[i] in g)
    && (forall i | 0 <= i < |p| - 1 :: p[i + 1] in g[p[i]])
  }

  /** No class is below itself. */
  ghost predicate Acyclic(g: Graph) {
    forall p | IsPath(g, p) && |p| > 1 :: p[0] != p[|p| - 1]
  }

  /** No class is listed twice below the same base. */
  ghost predicate NoRepeats(g: Graph) {
    forall n | n in g :: Distinct(g[n])
  }

  function Last(p: Path): string
    requires |p| > 0
  {
    p[|p| - 1]
  }

  /** The key of the node at the end of a path. */
  function Join(p: Path): string
    requires |p| > 0
  {
    if |p| == 1 then p[0] else Join(p[..|p| - 1]) + "-" + Last(p)
  }

  lemma JoinSnoc(p: Path, c: string)
    requires |p| > 0
    ensures Join(p + [c]) == Join(p) + "-" + c
  {
    assert (p + [c])[..|p|] == p;
  }

  // ---- paths

  lemma SubPath(g: Graph, p: Path, i: nat, j: nat)
    requires IsPath(g, p) && i < j <= |p|
    ensures IsPath(g, p[i..j])
  {
  }

  lemma PathExtends(g: Graph, p: Path, c: string)
    requires Closed(g) && IsPath(g, p) && c in g[Last(p)]
    ensures IsPath(g, p + [c])
  {
  }

  lemma PathIsDistinct(g: Graph, p: Path)
    requires Acyclic(g) && IsPath(g, p)
    ensures Distinct(p)
  {
    forall i, j | 0 <= i < j < |p| ensures p[i] != p[j] {
      SubPath(g, p, i, j + 1);
    }
  }

  lemma {:induction false} DistinctFits(p: Path, names: set<string>)
    requires Distinct(p) && forall x | x in p :: x in names
    ensures |p| <= |names|
  {
    if p != [] {
      var init := p[..|p| - 1];
      assert p == init + [Last(p)];
      DistinctFits(init, names - {Last(p)});
    }
  }

  /** A path without repetition is no longer than the graph has classes. */
  lemma DistinctPathIsBounded(g: Graph, p: Path)
    requires IsPath(g, p) && Distinct(p)
    ensures |p| <= |g|
  {
    DistinctFits(p, g.Keys);
    assert |g.Keys| == |g|;
  }

  /** A path of an acyclic graph is no longer than the graph has classes. */
  lemma PathIsBounded(g: Graph, p: Path)
    requires Acyclic(g) && IsPath(g, p)
    ensures |p| <= |g|
  {
    PathIsDistinct(g, p);
    DistinctPathIsBounded(g, p);
  }

  /** No way on from p repeats a class. */
  ghost predicate Tame(g: Graph, p: Path) {
    forall q | IsPath(g, q) && p <= q :: Distinct(q)
  }

  /** A step down a tame path gives a tame path, and there are only finitely many. */
  lemma TameStep(g: Graph, p: Path, c: string)
    requires Closed(g) && IsPath(g, p) && Tame(g, p) && c in g[Last(p)]
    ensures IsPath(g, p + [c]) && Tame(g, p + [c]) && |p| < |g|
  {
    PathExtends(g, p, c);
    assert p <= p + [c];
    DistinctPathIsBounded(g, p + [c]);
  }

  // ---- the unfolding

  ghost function Unfold(g: Graph, p: Path): TreeNode
    requires Closed(g) && IsPath(g, p) && Tame(g, p)
    decreases |g| - |p|, 1
  {
    DistinctPathIsBounded(g, p);
    TreeNode(Join(p), Last(p), UnfoldBelow(g, p, g[Last(p)]))
  }

  ghost function UnfoldBelow(g: Graph, p: Path, names: seq<string>): (r: seq<TreeNode>)
    requires Closed(g) && IsPath(g, p) && Tame(g, p) && forall c | c in names :: c in g[Last(p)]
    ensures |r| == |names|
    decreases |g| - |p|, 0, |names|
  {
    if names == [] then []
    else
      TameStep(g, p, names[0]);
      [Unfold(g, p + [names[0]])] + UnfoldBelow(g, p, names[1..])
  }

  ghost function Roots(g: Graph): set<string> {
    set n | n in g && forall m | m in g :: n !in g[m]
  }

  ghost function UnfoldRoots(g: Graph, roots: seq<string>): (r: seq<TreeNode>)
    requires Closed(g) && forall n | n in roots :: n in g && Tame(g, [n])
    ensures |r| == |roots|
  {
    if roots == [] then [] else [Unfold(g, [roots[0]])] + UnfoldRoots(g, roots[1..])
  }

  /** No path from a root repeats a class. A cycle that no root reaches does no harm. */
  ghost predicate Ends(g: Graph) {
    forall r | r in Roots(g) :: Tame(g, [r])
  }

  lemma AcyclicEnds(g: Graph)
    requires Acyclic(g)
    ensures Ends(g)
  {
    forall r, q | r in Roots(g) && IsPath(g, q) && [r] <= q ensures Distinct(q) {
      PathIsDistinct(g, q);
    }
  }

  ghost function ForestOf(le: Order, g: Graph): seq<TreeNode>
    requires TotalOrder(le) && Closed(g) && Ends(g)
  {
    ArrangeIsSet(le, Roots(g));
    UnfoldRoots(g, Arrange(le, Roots(g)))
  }

  // ---- what a forest shows

  /** A node of a forest, with the titles from the root down to it. */
  datatype Visit = Visit(path: Path, key: string, title: string)

  /** The nodes of a tree in preorder; the tree hangs below the path above. */
  function Walk(t: TreeNode, above: Path): seq<Visit> {
    var path := above + [t.title];
    [Visit(path, t.key, t.title)] + WalkAll(t.children, path)
  }

  function WalkAll(trees: seq<TreeNode>, above: Path): seq<Visit> {
    if trees == [] then [] else Walk(trees[0], above) + WalkAll(trees[1..], above)
  }

  ghost predicate IsRootPath(g: Graph, p: Path) {
    IsPath(g, p) && p[0] in Roots(g)
  }

  /** The visits are those of exactly the given paths, each once, with the right keys. The
      key of a root is its title. */
  ghost predicate Shows(visits: seq<Visit>, paths: iset<Path>) {
    && (forall v | v in visits && |v.path| == 1 :: v.key == v.title)
    && (forall v | v in visits :: v.path in paths && |v.path| > 0 && v.key == Join(v.path) && v.title == Last(v.path))
    && (forall p | p in paths :: exists v :: v in visits && v.path == p)
    && (forall i, j | 0 <= i < j < |visits| :: visits[i].path != visits[j].path)
  }

  ghost function From(g: Graph, p: Path): iset<Path> {
    iset q | IsPath(g, q) && p <= q
  }

  /** The paths that continue p with one of the names. */
  ghost function FromAny(g: Graph, p: Path, names: seq<string>): iset<Path> {
    iset q | IsPath(g, q) && p < q && q[|p|] in names
  }

  lemma ShowsBoth(a: seq<Visit>, b: seq<Visit>, ps: iset<Path>, qs: iset<Path>)
    requires Shows(a, ps) && Shows(b, qs) && ps !! qs
    ensures Shows(a + b, ps + qs)
  {
    forall p | p in ps + qs ensures exists v :: v in a + b && v.path == p {
      if p in ps {
        var v :| v in a && v.path == p;
        assert v in a + b;
      } else {
        var v :| v in b && v.path == p;
        assert v in a + b;
      }
    }
    forall i, j | 0 <= i < j < |a + b| ensures (a + b)[i].path != (a + b)[j].path {
      if i < |a| <= j {
        assert a[i].path in ps && b[j - |a|].path in qs;
      }
    }
  }

  lemma FromSplits(g: Graph, p: Path)
    requires IsPath(g, p)
    ensures From(g, p) == iset{p} + FromAny(g, p, g[Last(p)]) && p !in FromAny(g, p, g[Last(p)])
  {
    forall q | IsPath(g, q) && p < q ensures q[|p|] in g[Last(p)] {
      assert q[|p| - 1] == Last(p) && q[|p| - 1 + 1] in g[q[|p| - 1]];
    }
    forall q ensures q in From(g, p) <==> q == p || q in FromAny(g, p, g[Last(p)]) {
      if q in From(g, p) && q != p {
        assert p < q;
      }
    }
  }

  lemma ShowsOne(v: Visit)
    requires |v.path| > 0 && v.key == Join(v.path) && v.title == Last(v.path)
    ensures Shows([v], iset{v.path})
  {
    assert v in [v];
  }

  /** The tree of a path shows exactly the continuations of the path, each once. */
  lemma {:induction false} UnfoldShows(g: Graph, p: Path)
    requires Closed(g) && NoRepeats(g) && IsPath(g, p) && Tame(g, p)
    ensures Shows(Walk(Unfold(g, p), p[..|p| - 1]), From(g, p))
    decreases |g| - |p|, 1
  {
    DistinctPathIsBounded(g, p);
    assert p[..|p| - 1] + [Last(p)] == p;
    var below := WalkAll(UnfoldBelow(g, p, g[Last(p)]), p);
    UnfoldBelowShows(g, p, g[Last(p)]);
    ShowsOne(Visit(p, Join(p), Last(p)));
    FromSplits(g, p);
    ShowsBoth([Visit(p, Join(p), Last(p))], below, iset{p}, FromAny(g, p, g[Last(p)]));
  }

  lemma FromAnySplits(g: Graph, p: Path, names: seq<string>)
    requires names != [] && Distinct(names)
    ensures FromAny(g, p, names) == From(g, p + [names[0]]) + FromAny(g, p, names[1..])
    ensures From(g, p + [names[0]]) !! FromAny(g, p, names[1..])
  {
    var c, rest := names[0], names[1..];
    assert names == [c] + rest;
    forall q ensures q in FromAny(g, p, names) <==> q in From(g, p + [c]) || q in FromAny(g, p, rest) {
      if q in FromAny(g, p, names) && q[|p|] == c {
        assert p + [c] <= q;
      }
    }
    assert c !in rest;
  }

  lemma {:induction false} UnfoldBelowShows(g: Graph, p: Path, names: seq<string>)
    requires Closed(g) && NoRepeats(g) && IsPath(g, p) && Tame(g, p) && Distinct(names)
    requires forall c | c in names :: c in g[Last(p)]
    ensures Shows(WalkAll(UnfoldBelow(g, p, names), p), FromAny(g, p, names))
    decreases |g| - |p|, 0, |names|
  {
    if names != [] {
      var c, rest := names[0], names[1..];
      var next := p + [c];
      TameStep(g, p, c);
      UnfoldShows(g, next);
      assert next[..|next| - 1] == p;
      UnfoldBelowShows(g, p, rest);
      FromAnySplits(g, p, names);
      ShowsBoth(Walk(Unfold(g, next), p), WalkAll(UnfoldBelow(g, p, rest), p), From(g, next), FromAny(g, p, rest));
    }
  }

  lemma {:induction false} UnfoldRootsShows(g: Graph, roots: seq<string>)
    requires Closed(g) && NoRepeats(g) && Distinct(roots) && forall n | n in roots :: n in g && Tame(g, [n])
    ensures Shows(WalkAll(UnfoldRoots(g, roots), []), iset q | IsPath(g, q) && q[0] in roots)
  {
    if roots != [] {
      var r, rest := roots[0], roots[1..];
      UnfoldShows(g, [r]);
      assert [r][..0] == [];
      UnfoldRootsShows(g, rest);
      var here, there := From(g, [r]), iset q | IsPath(g, q) && q[0] in rest;
      forall q ensures q in here + there <==> IsPath(g, q) && q[0] in roots {
        assert r in roots && (forall d | d in rest :: d in roots);
        if IsPath(g, q) && q[0] == r {
          assert [r] <= q;
        }
      }
      assert r !in rest;
      ShowsBoth(Walk(Unfold(g, [r]), []), WalkAll(UnfoldRoots(g, rest), []), here, there);
      assert here + there == iset q | IsPath(g, q) && q[0] in roots;
    }
  }

  /** A path from a root that repeats a class can be made as long as one likes. */
  lemma {:induction false} CycleIsEndless(g: Graph, p: Path, i: nat, j: nat, n: nat) returns (q: Path)
    requires IsRootPath(g, p) && i < j < |p| && p[i] == p[j]
    ensures IsRootPath(g, q) && |q| > n
    decreases n - |p|
  {
    if |p| > n {
      return p;
    }
    var longer := p[..j] + p[i..];
    forall k | 0 <= k < |longer| - 1 ensures longer[k + 1] in g[longer[k]] {
      if k == j - 1 {
        assert p[k + 1] in g[p[k]];
      } else if k >= j {
        assert p[i + (k - j) + 1] in g[p[i + (k - j)]];
      }
    }
    q := CycleIsEndless(g, longer, i, j, n);
  }

  ghost predicate RootPathsWithin(g: Graph, n: nat) {
    forall p | IsRootPath(g, p) :: |p| <= n
  }

  lemma RootPathIsDistinct(g: Graph, p: Path)
    requires Ends(g) && IsRootPath(g, p)
    ensures Distinct(p) && |p| <= |g|
  {
    assert Tame(g, [p[0]]) && [p[0]] <= p;
    DistinctPathIsBounded(g, p);
  }

  /** The unfolding of the roots is defined, and finite, exactly when the paths from roots
      are bounded. */
  lemma UnfoldingEndsIff(g: Graph)
    ensures (exists n: nat :: RootPathsWithin(g, n)) <==> Ends(g)
  {
    if n: nat :| RootPathsWithin(g, n) {
      forall r, p | r in Roots(g) && IsPath(g, p) && [r] <= p ensures Distinct(p) {
        assert IsRootPath(g, p);
        forall i, j | 0 <= i < j < |p| ensures p[i] != p[j] {
          if p[i] == p[j] {
            var q := CycleIsEndless(g, p, i, j, n);
          }
        }
      }
    }
    if Ends(g) {
      forall p | IsRootPath(g, p) ensures |p| <= |g| {
        RootPathIsDistinct(g, p);
      }
      assert RootPathsWithin(g, |g|);
    }
  }

  ghost function RootPaths(g: Graph): iset<Path> {
    iset q | IsRootPath(g, q)
  }

  /** The nodes of the forest are, one to one, the paths from a root to a class. */
  lemma ForestShowsRootPaths(le: Order, g: Graph)
    requires TotalOrder(le) && Closed(g) && Ends(g) && NoRepeats(g)
    ensures Shows(WalkAll(ForestOf(le, g), []), RootPaths(g))
  {
    var roots := Arrange(le, Roots(g));
    ArrangeIsSet(le, Roots(g));
    UnfoldRootsShows(g, roots);
    assert RootPaths(g) == iset q | IsPath(g, q) && q[0] in roots;
  }

  // ---- occurrences

  function Occurrences(visits: seq<Visit>, c: string): nat {
    if visits == [] then 0 else (if visits[0].title == c then 1 else 0) + Occurrences(visits[1..], c)
  }

  /** The given paths, each made one class longer. */
  ghost function Longer(g: Graph, paths: set<Path>): set<Path> {
    set p, c | p in paths && c in g && IsPath(g, p) && c in g[Last(p)] :: p + [c]
  }

  /** All paths of n classes at most that begin at a root. */
  ghost function PathsUpTo(g: Graph, n: nat): set<Path> {
    if n == 0 then {}
    else PathsUpTo(g, n - 1) + (set r | r in Roots(g) :: [r]) + Longer(g, PathsUpTo(g, n - 1))
  }

  lemma LongerAre(g: Graph, paths: set<Path>, p: Path)
    requires Closed(g) && forall q | q in paths :: IsRootPath(g, q)
    ensures p in Longer(g, paths) <==> |p| > 1 && p[..|p| - 1] in paths && IsRootPath(g, p)
  {
    if p in Longer(g, paths) {
      var q, c :| q in paths && c in g && IsPath(g, q) && c in g[Last(q)] && p == q + [c];
      PathExtends(g, q, c);
      assert p[..|p| - 1] == q;
    }
    if |p| > 1 && p[..|p| - 1] in paths && IsRootPath(g, p) {
      var q := p[..|p| - 1];
      assert p == q + [Last(p)];
      assert Last(p) == p[|p| - 2 + 1] && Last(q) == p[|p| - 2];
    }
  }

  lemma {:induction false} PathsUpToAre(g: Graph, n: nat)
    requires Closed(g)
    ensures forall p :: p in PathsUpTo(g, n) <==> IsRootPath(g, p) && |p| <= n
  {
    if n > 0 {
      PathsUpToAre(g, n - 1);
      forall p ensures p in PathsUpTo(g, n) <==> IsRootPath(g, p) && |p| <= n {
        LongerAre(g, PathsUpTo(g, n - 1), p);
        if |p| == 1 {
          assert p == [p[0]];
        } else if |p| > 1 && IsRootPath(g, p) {
          SubPath(g, p, 0, |p| - 1);
          assert p[0..|p| - 1] == p[..|p| - 1];
        }
      }
    }
  }

  /** The finite set of paths from a root to one class. */
  ghost function PathsTo(g: Graph, c: string): set<Path> {
    set p | p in PathsUpTo(g, |g|) && |p| > 0 && Last(p) == c
  }

  lemma PathsToAre(g: Graph, c: string, p: Path)
    requires Closed(g) && Ends(g)
    ensures p in PathsTo(g, c) <==> IsRootPath(g, p) && Last(p) == c
  {
    PathsUpToAre(g, |g|);
    if IsRootPath(g, p) {
      RootPathIsDistinct(g, p);
    }
  }

  lemma {:induction false} CountPaths(visits: seq<Visit>, c: string, paths: set<Path>)
    requires forall i, j | 0 <= i < j < |visits| :: visits[i].path != visits[j].path
    requires forall p :: p in paths <==> exists v :: v in visits && v.path == p && v.title == c
    ensures Occurrences(visits, c) == |paths|
  {
    if visits == [] {
      assert paths == {};
    } else {
      var v, rest := visits[0], visits[1..];
      var others := if v.title == c then paths - {v.path} else paths;
      forall p ensures p in others <==> exists w :: w in rest && w.path == p && w.title == c {
        if p in others {
          var w :| w in visits && w.path == p && w.title == c;
          assert w in rest;
        }
        if w :| w in rest && w.path == p && w.title == c {
          assert w in visits;
          var i :| 0 <= i < |rest| && rest[i] == w;
          assert visits[i + 1] == w;
        }
      }
      CountPaths(rest, c, others);
      assert v in visits;
    }
  }

  /** A class is shown as often as there are paths from a root to it. */
  lemma OccursOncePerPath(le: Order, g: Graph, c: string)
    requires TotalOrder(le) && Closed(g) && Ends(g) && NoRepeats(g)
    ensures Occurrences(WalkAll(ForestOf(le, g), []), c) == |PathsTo(g, c)|
  {
    var visits := WalkAll(ForestOf(le, g), []);
    ForestShowsRootPaths(le, g);
    forall p ensures p in PathsTo(g, c) <==> exists v :: v in visits && v.path == p && v.title == c {
      PathsToAre(g, c, p);
      if p in PathsTo(g, c) {
        assert p in RootPaths(g);
      }
    }
    CountPaths(visits, c, PathsTo(g, c));
  }

  /** Every path is the end of one from a root. */
  lemma {:induction false} ReachedFromRoot(g: Graph, p: Path) returns (q: Path)
    requires Closed(g) && Acyclic(g) && IsPath(g, p)
    ensures IsRootPath(g, q) && Last(q) == Last(p)
    decreases |g| - |p|
  {
    if p[0] in Roots(g) {
      return p;
    }
    var m :| m in g && p[0] in g[m];
    assert IsPath(g, [m] + p);
    PathIsBounded(g, [m] + p);
    q := ReachedFromRoot(g, [m] + p);
  }

  /** A class is shown exactly if a root reaches it. */
  lemma ShownIffReached(le: Order, g: Graph, c: string)
    requires TotalOrder(le) && Closed(g) && Ends(g) && NoRepeats(g)
    ensures Occurrences(WalkAll(ForestOf(le, g), []), c) >= 1 <==> exists p :: IsRootPath(g, p) && Last(p) == c
  {
    OccursOncePerPath(le, g, c);
    if p :| IsRootPath(g, p) && Last(p) == c {
      PathsToAre(g, c, p);
    }
    if PathsTo(g, c) != {} {
      var p :| p in PathsTo(g, c);
      PathsToAre(g, c, p);
    }
  }

  /** No class of an acyclic graph is missing from the forest. */
  lemma EveryClassIsShown(le: Order, g: Graph, c: string)
    requires TotalOrder(le) && Closed(g) && Acyclic(g) && NoRepeats(g) && c in g
    ensures Ends(g) && Occurrences(WalkAll(ForestOf(le, g), []), c) >= 1
  {
    AcyclicEnds(g);
    var q := ReachedFromRoot(g, [c]);
    ShownIffReached(le, g, c);
  }

  /** Two classes derived from each other have no root: the graph is not acyclic, the code
      ends all the same, and nothing is shown. */
  lemma RootlessCycle(le: Order, a: string, b: string)
    requires TotalOrder(le) && a != b
    ensures var g: Graph := map[a := [b], b := [a]];
      !Acyclic(g) && Closed(g) && Ends(g) && ForestOf(le, g) == []
  {
    var g: Graph := map[a := [b], b := [a]];
    assert IsPath(g, [a, b, a]);
    assert b in g[a] && a in g[b];
    assert Roots(g) == {};
    assert |multiset(Arrange(le, Roots(g)))| == 0;
  }

  // ---- keys

  predicate Plain(name: string) {
    '-' !in name
  }

  /** Of two splits at a dash, the earlier one leaves a dash behind. */
  lemma DashInside(x: string, a: string, y: string, b: string)
    requires x + "-" + a == y + "-" + b && |x| < |y|
    ensures !Plain(a)
  {
    var s := x + "-" + a;
    assert s[|y|] == '-';
    assert a[|y| - |x| - 1] == s[|y|];
  }

  /** The last name of a key is what follows its last dash. */
  lemma LastDash(x: string, a: string, y: string, b: string)
    requires Plain(a) && Plain(b) && x + "-" + a == y + "-" + b
    ensures x == y && a == b
  {
    if |x| < |y| {
      DashInside(x, a, y, b);
    } else if |y| < |x| {
      DashInside(y, b, x, a);
    } else {
      var s := x + "-" + a;
      assert s[..|x|] == x && s[..|x|] == y && s[|x| + 1..] == a && s[|x| + 1..] == b;
    }
  }

  lemma JoinIsPlain(p: Path)
    requires |p| > 0 && forall n | n in p :: Plain(n)
    ensures Plain(Join(p)) <==> |p| == 1
  {
    if |p| > 1 {
      assert Join(p)[|Join(p[..|p| - 1])|] == '-';
    }
  }

  lemma {:induction false} JoinIsInjective(p: Path, q: Path)
    requires |p| > 0 && |q| > 0 && Join(p) == Join(q)
    requires (forall n | n in p :: Plain(n)) && (forall n | n in q :: Plain(n))
    ensures p == q
  {
    JoinIsPlain(p);
    JoinIsPlain(q);
    var p', q' := p[..|p| - 1], q[..|q| - 1];
    assert p == p' + [Last(p)] && q == q' + [Last(q)];
    if |p| > 1 {
      LastDash(Join(p'), Last(p), Join(q'), Last(q));
      JoinIsInjective(p', q');
    }
  }

  /** Brackets close in the name, and every dash of it is inside brackets, as in the name of
      a specialization with a negative argument. */
  ghost predicate Nested(name: string) {
    Naming.Closed(name) && forall i | 0 <= i < |name| && name[i] == '-' :: Naming.Depth(name[..i]) > 0
  }

  lemma DashDepth(k: string)
    ensures Naming.Depth(k + "-") == Naming.Depth(k)
  {
    assert (k + "-")[..|k|] == k;
  }

  /** The depth behind a dash counts on. */
  lemma DepthAcrossDash(k: string, c: string, i: nat)
    requires i <= |c|
    ensures Naming.Depth((k + "-" + c)[..|k| + 1 + i]) == Naming.Depth(k) + Naming.Depth(c[..i])
  {
    assert (k + "-" + c)[..|k| + 1 + i] == k + "-" + c[..i];
    DashDepth(k);
    Naming.DepthConcat(k + "-", c[..i]);
  }

  lemma NotNested(s: string, i: nat)
    requires i < |s| && s[i] == '-' && Naming.Depth(s[..i]) == 0
    ensures !Nested(s)
  {
  }

  /** Of two splits at a dash outside all brackets, the earlier one leaves such a dash behind. */
  lemma TopDashInside(x: string, a: string, y: string, b: string)
    requires x + "-" + a == y + "-" + b && |x| < |y| && Naming.Depth(x) == Naming.Depth(y) == 0
    ensures !Nested(a)
  {
    var i := |y| - |x| - 1;
    assert (y + "-" + b)[|y|] == '-' && (x + "-" + a)[|y|] == a[i];
    assert (y + "-" + b)[..|y|] == y;
    DepthAcrossDash(x, a, i);
  }

  lemma LastTopDash(x: string, a: string, y: string, b: string)
    requires Nested(a) && Nested(b) && Naming.Depth(x) == Naming.Depth(y) == 0 && x + "-" + a == y + "-" + b
    ensures x == y && a == b
  {
    if |x| < |y| {
      TopDashInside(x, a, y, b);
    } else if |y| < |x| {
      TopDashInside(y, b, x, a);
    } else {
      var s := x + "-" + a;
      assert s[..|x|] == x && s[..|x|] == y && s[|x| + 1..] == a && s[|x| + 1..] == b;
    }
  }

  lemma {:induction false} NestedJoin(p: Path)
    requires |p| > 0 && forall n | n in p :: Nested(n)
    ensures Naming.Depth(Join(p)) == 0 && (Nested(Join(p)) <==> |p| == 1)
  {
    assert Nested(Last(p));
    if |p| > 1 {
      var k, c := Join(p[..|p| - 1]), Last(p);
      NestedJoin(p[..|p| - 1]);
      DashDepth(k);
      Naming.DepthConcat(k + "-", c);
      assert Join(p) == k + "-" + c && Join(p)[..|k|] == k;
      NotNested(Join(p), |k|);
    }
  }

  /** Names whose dashes are inside brackets can be read off a key, too. */
  lemma {:induction false} NestedJoinIsInjective(p: Path, q: Path)
    requires |p| > 0 && |q| > 0 && Join(p) == Join(q)
    requires (forall n | n in p :: Nested(n)) && (forall n | n in q :: Nested(n))
    ensures p == q
  {
    NestedJoin(p);
    NestedJoin(q);
    var p', q' := p[..|p| - 1], q[..|q| - 1];
    assert p == p' + [Last(p)] && q == q' + [Last(q)];
    if |p| > 1 {
      NestedJoin(p');
      NestedJoin(q');
      LastTopDash(Join(p'), Last(p), Join(q'), Last(q));
      NestedJoinIsInjective(p', q');
    }
  }

  /** One class derived from another, and a class with the name of their path. */
  function Clashing(a: string, b: string): Graph {
    map[a := [b], b := [], a + "-" + b := []]
  }

  lemma ClashingIsAcyclic(a: string, b: string)
    requires a != b
    ensures Closed(Clashing(a, b)) && Acyclic(Clashing(a, b)) && NoRepeats(Clashing(a, b)) && Ends(Clashing(a, b))
    ensures IsRootPath(Clashing(a, b), [a, b]) && IsRootPath(Clashing(a, b), [a + "-" + b])
  {
    var g := Clashing(a, b);
    forall p | IsPath(g, p) && |p| > 1 ensures p[0] == a && p[|p| - 1] == b {
      assert p[0 + 1] in g[p[0]] && p[|p| - 2 + 1] in g[p[|p| - 2]];
    }
    AcyclicEnds(g);
  }

  /** Whenever a name is two other names joined by a dash, some forest has a key twice. */
  lemma DashesClash(le: Order, a: string, b: string)
    requires TotalOrder(le) && a != b
    ensures var g := Clashing(a, b);
      && Closed(g) && Acyclic(g) && Ends(g)
      && exists v, w :: v in WalkAll(ForestOf(le, g), []) && w in WalkAll(ForestOf(le, g), [])
                        && v.path != w.path && v.key == w.key
  {
    var g := Clashing(a, b);
    ClashingIsAcyclic(a, b);
    ForestShowsRootPaths(le, g);
    var visits := WalkAll(ForestOf(le, g), []);
    assert [a, b] in RootPaths(g) && [a + "-" + b] in RootPaths(g);
    var v :| v in visits && v.path == [a, b];
    var w :| w in visits && w.path == [a + "-" + b];
    assert [a, b][..1] == [a] && Join([a, b]) == a + "-" + b;
    assert v.key == w.key && v.path != w.path;
  }

  /** The keys of a forest are pairwise distinct when no class name has a dash, and also when
      all dashes of all names are inside balanced brackets. */
  lemma KeysAreDistinct(le: Order, g: Graph)
    requires TotalOrder(le) && Closed(g) && Ends(g) && NoRepeats(g)
    requires (forall n | n in g :: Plain(n)) || (forall n | n in g :: Nested(n))
    ensures var visits := WalkAll(ForestOf(le, g), []);
      forall i, j | 0 <= i < j < |visits| :: visits[i].key != visits[j].key
  {
    var visits := WalkAll(ForestOf(le, g), []);
    ForestShowsRootPaths(le, g);
    forall i, j | 0 <= i < j < |visits| ensures visits[i].key != visits[j].key {
      var p, q := visits[i].path, visits[j].path;
      assert visits[i] in visits && visits[j] in visits;
      assert p in RootPaths(g) && q in RootPaths(g) && p != q;
      PathsAreDistinguished(g, p, q);
    }
  }

  lemma PathsAreDistinguished(g: Graph, p: Path, q: Path)
    requires IsPath(g, p) && IsPath(g, q) && p != q
    requires (forall n | n in g :: Plain(n)) || (forall n | n in g :: Nested(n))
    ensures Join(p) != Join(q)
  {
    if Join(p) == Join(q) {
      if forall n | n in g :: Nested(n) {
        NestedJoinIsInjective(p, q);
      } else {
        JoinIsInjective(p, q);
      }
    }
  }

  // ---- what a forest looks like, node by node

  function Titles(trees: seq<TreeNode>): (names: seq<string>)
    ensures |names| == |trees| && forall i | 0 <= i < |names| :: names[i] == trees[i].title
  {
    seq(|trees|, i requires 0 <= i < |trees| => trees[i].title)
  }

  /** The children of the node are sorted by title, they are the classes that the lists give
      for its title, each as often as there, and each child's key continues that of the node
      by a dash and the child's title; and so on down the tree. */
  ghost predicate Laid(le: Order, lists: map<string, seq<string>>, node: TreeNode) {
    && Sorted(le, Titles(node.children))
    && multiset(Titles(node.children)) == (if node.title in lists then multiset(lists[node.title]) else multiset{})
    && forall i | 0 <= i < |node.children| ::
         node.children[i].key == node.key + "-" + node.children[i].title && Laid(le, lists, node.children[i])
  }

  /** The trees are sorted by title, there is one for each of the names that no list
      contains, and the key of each root is its title. */
  ghost predicate LaidForest(le: Order, lists: map<string, seq<string>>, names: set<string>, trees: seq<TreeNode>) {
    && Sorted(le, Titles(trees)) && Distinct(Titles(trees))
    && (forall c :: c in Titles(trees) <==> c in names && forall b | b in lists :: c !in lists[b])
    && forall i | 0 <= i < |trees| :: trees[i].key == trees[i].title && Laid(le, lists, trees[i])
  }

  ghost predicate AllSorted(le: Order, g: Graph) {
    forall n | n in g :: Sorted(le, g[n])
  }

  /** The children of the unfolding of a path, one by one. */
  lemma {:induction false} UnfoldBelowAt(g: Graph, p: Path, names: seq<string>, i: nat)
    requires Closed(g) && IsPath(g, p) && Tame(g, p) && (forall c | c in names :: c in g[Last(p)]) && i < |names|
    ensures IsPath(g, p + [names[i]]) && Tame(g, p + [names[i]])
    ensures UnfoldBelow(g, p, names)[i] == Unfold(g, p + [names[i]])
    decreases |names|
  {
    TameStep(g, p, names[i]);
    if i > 0 {
      UnfoldBelowAt(g, p, names[1..], i - 1);
    }
  }

  lemma UnfoldTitles(g: Graph, p: Path)
    requires Closed(g) && IsPath(g, p) && Tame(g, p)
    ensures Titles(Unfold(g, p).children) == g[Last(p)]
  {
    forall i | 0 <= i < |g[Last(p)]| ensures Titles(Unfold(g, p).children)[i] == g[Last(p)][i] {
      UnfoldBelowAt(g, p, g[Last(p)], i);
    }
  }

  lemma {:induction false} UnfoldIsLaid(le: Order, g: Graph, p: Path)
    requires Closed(g) && AllSorted(le, g) && IsPath(g, p) && Tame(g, p)
    ensures Laid(le, g, Unfold(g, p)) && Unfold(g, p).key == Join(p) && Unfold(g, p).title == Last(p)
    decreases |g| - |p|
  {
    DistinctPathIsBounded(g, p);
    var node, names := Unfold(g, p), g[Last(p)];
    UnfoldTitles(g, p);
    forall i | 0 <= i < |node.children|
      ensures node.children[i].key == node.key + "-" + node.children[i].title && Laid(le, g, node.children[i])
    {
      UnfoldBelowAt(g, p, names, i);
      TameStep(g, p, names[i]);
      UnfoldIsLaid(le, g, p + [names[i]]);
      JoinSnoc(p, names[i]);
    }
  }

  lemma {:induction false} UnfoldRootsAt(g: Graph, roots: seq<string>, i: nat)
    requires Closed(g) && (forall n | n in roots :: n in g && Tame(g, [n])) && i < |roots|
    ensures UnfoldRoots(g, roots)[i] == Unfold(g, [roots[i]])
  {
    if i > 0 {
      UnfoldRootsAt(g, roots[1..], i - 1);
    }
  }

  /** The forest of a graph with sorted lists looks like this. */
  lemma ForestIsLaid(le: Order, g: Graph)
    requires TotalOrder(le) && Closed(g) && Ends(g) && AllSorted(le, g)
    ensures LaidForest(le, g, g.Keys, ForestOf(le, g))
  {
    var roots, trees := Arrange(le, Roots(g)), ForestOf(le, g);
    ArrangeIsSet(le, Roots(g));
    forall i | 0 <= i < |trees|
      ensures trees[i].title == roots[i] && trees[i].key == trees[i].title && Laid(le, g, trees[i])
    {
      UnfoldRootsAt(g, roots, i);
      UnfoldIsLaid(le, g, [roots[i]]);
    }
    assert Titles(trees) == roots;
  }

  /** Only the multiset of each list matters. */
  lemma {:induction false} Relaid(le: Order, lists: map<string, seq<string>>, others: map<string, seq<string>>,
                                  node: TreeNode)
    requires Laid(le, lists, node)
    requires forall n :: (if n in lists then multiset(lists[n]) else multiset{}) ==
                         (if n in others then multiset(others[n]) else multiset{})
    ensures Laid(le, others, node)
  {
    forall i | 0 <= i < |node.children| ensures Laid(le, others, node.children[i]) {
      Relaid(le, lists, others, node.children[i]);
    }
  }

  /** The lists leave no choice: below a given title and key there is one tree. */
  lemma {:induction false} LaidIsUnique(le: Order, lists: map<string, seq<string>>, t: TreeNode, u: TreeNode)
    requires TotalOrder(le) && Laid(le, lists, t) && Laid(le, lists, u) && t.title == u.title && t.key == u.key
    ensures t == u
  {
    SortedIsUnique(le, Titles(t.children), Titles(u.children));
    forall i | 0 <= i < |t.children| ensures t.children[i] == u.children[i] {
      assert Titles(t.children)[i] == Titles(u.children)[i];
      LaidIsUnique(le, lists, t.children[i], u.children[i]);
    }
  }

  /** And there is one forest. */
  lemma LaidForestIsUnique(le: Order, lists: map<string, seq<string>>, names: set<string>,
                           ts: seq<TreeNode>, us: seq<TreeNode>)
    requires TotalOrder(le) && LaidForest(le, lists, names, ts) && LaidForest(le, lists, names, us)
    ensures ts == us
  {
    assert Elements(Titles(ts)) == Elements(Titles(us));
    DistinctIsSet(Titles(ts));
    DistinctIsSet(Titles(us));
    SortedIsUnique(le, Titles(ts), Titles(us));
    forall i | 0 <= i < |ts| ensures ts[i] == us[i] {
      assert Titles(ts)[i] == Titles(us)[i];
      LaidIsUnique(le, lists, ts[i], us[i]);
    }
  }

  // ---- building the children and the roots one by one

  lemma {:induction false} UnfoldBelowSnoc(g: Graph, p: Path, names: seq<string>, c: string)
    requires Closed(g) && IsPath(g, p) && Tame(g, p) && (forall d | d in names :: d in g[Last(p)]) && c in g[Last(p)]
    requires IsPath(g, p + [c]) && Tame(g, p + [c])
    ensures (forall d | d in names + [c] :: d in g[Last(p)])
    ensures UnfoldBelow(g, p, names + [c]) == UnfoldBelow(g, p, names) + [Unfold(g, p + [c])]
  {
    if names == [] {
      assert [] + [c] == [c];
      assert UnfoldBelow(g, p, [c]) == [Unfold(g, p + [c])] + UnfoldBelow(g, p, [c][1..]);
    } else {
      assert (names + [c])[1..] == names[1..] + [c];
      UnfoldBelowSnoc(g, p, names[1..], c);
    }
  }

  lemma {:induction false} UnfoldRootsSnoc(g: Graph, roots: seq<string>, r: string)
    requires Closed(g) && (forall n | n in roots :: n in g && Tame(g, [n])) && r in g && Tame(g, [r])
    ensures UnfoldRoots(g, roots + [r]) == UnfoldRoots(g, roots) + [Unfold(g, [r])]
  {
    if roots == [] {
      assert [] + [r] == [r];
      assert UnfoldRoots(g, [r]) == [Unfold(g, [r])] + UnfoldRoots(g, [r][1..]);
    } else {
      assert (roots + [r])[1..] == roots[1..] + [r];
      UnfoldRootsSnoc(g, roots[1..], r);
    }
  }
}
