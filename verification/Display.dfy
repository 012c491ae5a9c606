/** From the requests a server has received to the forest a browser shows. */
module Displays {
  import opened NameOrder
  import opened StorageModel
  import opened Storages
  import opened ForestModel
  import opened InheritanceTrees

  ghost predicate EndsAreClasses(f: Facts) {
    forall pair | pair in f.inherits :: pair.0 in f.classes && pair.1 in f.classes
  }

  ghost function DerivedIn(f: Facts, base: string): set<string> {
    set pair | pair in f.inherits && pair.1 == base :: pair.0
  }

  /** The inheritance graph of the facts. */
  ghost function GraphOf(le: Order, f: Facts): Graph
    requires TotalOrder(le)
  {
    map n | n in f.classes :: Arrange(le, DerivedIn(f, n))
  }

  lemma GraphOfFacts(le: Order, f: Facts)
    requires TotalOrder(le) && EndsAreClasses(f)
    ensures var g := GraphOf(le, f);
      Closed(g) && NoRepeats(g) && forall n, c | n in g :: c in g[n] <==> (c, n) in f.inherits
  {
    var g := GraphOf(le, f);
    forall n | n in g ensures Distinct(g[n]) && forall c :: c in g[n] <==> (c, n) in f.inherits {
      ArrangeIsSet(le, DerivedIn(f, n));
      forall c ensures c in DerivedIn(f, n) <==> (c, n) in f.inherits {
        if (c, n) in f.inherits {
          assert (c, n).0 in DerivedIn(f, n);
        }
      }
    }
  }

  /** The forest of the facts: a function of three sets and of the name order only. */
  ghost function ForestOfFacts(le: Order, f: Facts): seq<TreeNode>
    requires TotalOrder(le) && EndsAreClasses(f) && Ends(GraphOf(le, f))
  {
    GraphOfFacts(le, f);
    ForestOf(le, GraphOf(le, f))
  }

  // ---- grouping and rebuilding

  /** What GroupByBase promises. */
  ghost predicate Grouped(pairs: seq<(string, string)>, content: Lists) {
    && (forall base :: base in content <==> exists pair :: pair in pairs && pair.1 == base)
    && (forall base | base in content :: content[base] == DerivedOf(pairs, base))
  }

  /** The list of a base has each derived class as often as the pairs do. */
  lemma GroupedCounts(pairs: seq<(string, string)>, content: Lists, base: string, derived: string)
    requires Grouped(pairs, content)
    ensures multiset(ListOf(content, base))[derived] == multiset(pairs)[(derived, base)]
  {
    DerivedOfCounts(pairs, base, derived);
    if base !in content {
      assert !((derived, base) in pairs && (derived, base).1 == base);
    }
  }

  lemma GroupedIsIn(pairs: seq<(string, string)>, content: Lists, base: string, derived: string)
    requires Grouped(pairs, content)
    ensures derived in ListOf(content, base) <==> (derived, base) in pairs
  {
    GroupedCounts(pairs, content, base, derived);
    assert derived in ListOf(content, base) <==> derived in multiset(ListOf(content, base));
    assert (derived, base) in pairs <==> (derived, base) in multiset(pairs);
  }

  lemma GroupedNeverDerived(pairs: seq<(string, string)>, content: Lists, name: string)
    requires Grouped(pairs, content)
    ensures NeverDerived(content, name) <==> forall pair | pair in pairs :: pair.0 != name
  {
    if NeverDerived(content, name) {
      forall pair | pair in pairs ensures pair.0 != name {
        GroupedIsIn(pairs, content, pair.1, pair.0);
      }
    } else {
      var base :| base in content && name in content[base];
      GroupedIsIn(pairs, content, base, name);
    }
  }

  /** The name is an end of some pair. */
  ghost predicate IsEnd(pairs: seq<(string, string)>, name: string) {
    exists pair :: pair in pairs && (pair.0 == name || pair.1 == name)
  }

  lemma GroupedMentions(pairs: seq<(string, string)>, content: Lists, name: string)
    requires Grouped(pairs, content)
    ensures name in Mentioned(content) <==> IsEnd(pairs, name)
  {
    if base :| base in content && name in content[base] {
      GroupedIsIn(pairs, content, base, name);
    }
    if pair :| pair in pairs && (pair.0 == name || pair.1 == name) {
      GroupedIsIn(pairs, content, pair.1, pair.0);
      assert pair.1 in content;
    }
  }

  /** The object stands for the pairs that have its name as base, with their multiplicity,
      and is a first base exactly if its class is never derived. */
  ghost predicate StandsFor(c: CppClass, pairs: seq<(string, string)>)
    reads c
  {
    && (forall derived :: multiset(Names(c.derivedClasses))[derived] == multiset(pairs)[(derived, c.name)])
    && (c.isFirstBase <==> forall pair | pair in pairs :: pair.0 != c.name)
  }

  /** The round trip of the pairs through the grouped lists and the object graph: one object
      for each pair end and each listed class, sorted by name and shared by all its bases,
      and the edges between them are exactly the pairs. */
  method Rebuild(le: Order, pairs: seq<(string, string)>, classes: seq<string>) returns (cppClasses: seq<CppClass>)
    requires TotalOrder(le)
    ensures Sorted(le, Names(cppClasses)) && Distinct(Names(cppClasses))
    ensures forall name :: name in Names(cppClasses) <==> name in classes || IsEnd(pairs, name)
    ensures forall i | 0 <= i < |cppClasses| ::
              StandsFor(cppClasses[i], pairs) && forall d | d in cppClasses[i].derivedClasses :: d in cppClasses
  {
    var content := GroupByBase(pairs);
    ghost var mapping: ClassMapping;
    cppClasses, mapping := CreateCppClasses(le, content, classes);
    assert Grouped(pairs, content);
    ArrangeIsSet(le, mapping.entries.Keys);
    forall name ensures name in Names(cppClasses) <==> name in classes || IsEnd(pairs, name) {
      GroupedMentions(pairs, content, name);
    }
    forall i | 0 <= i < |cppClasses|
      ensures StandsFor(cppClasses[i], pairs) && forall d | d in cppClasses[i].derivedClasses :: d in cppClasses
    {
      EntryStandsFor(pairs, content, mapping, cppClasses[i].name);
      SharedObjects(mapping, cppClasses, cppClasses[i].derivedClasses);
    }
  }

  lemma EntryStandsFor(pairs: seq<(string, string)>, content: Lists, mapping: ClassMapping, name: string)
    requires Grouped(pairs, content) && mapping.Valid() && mapping.lists == content && name in mapping.entries
    ensures StandsFor(mapping.entries[name], pairs) && Linked(mapping.entries, mapping.entries[name].derivedClasses)
  {
    assert mapping.EntryOk(name);
    GroupedNeverDerived(pairs, content, name);
    forall derived
      ensures multiset(Names(mapping.entries[name].derivedClasses))[derived] == multiset(pairs)[(derived, name)]
    {
      GroupedCounts(pairs, content, name, derived);
    }
  }

  /** Objects linked by name are among the objects of all names. */
  lemma SharedObjects(mapping: ClassMapping, cppClasses: seq<CppClass>, list: seq<CppClass>)
    requires Linked(mapping.entries, cppClasses) && Linked(mapping.entries, list)
    requires forall name :: name in Names(cppClasses) <==> name in mapping.entries
    ensures forall d | d in list :: d in cppClasses
  {
    forall d | d in list ensures d in cppClasses {
      var j :| 0 <= j < |list| && list[j] == d;
      var i :| 0 <= i < |cppClasses| && Names(cppClasses)[i] == d.name;
      assert cppClasses[i].name == d.name;
    }
  }

  /** Lists without repetition of the facts rebuild the graph of the facts. */
  lemma GroupedGraph(le: Order, f: Facts, pairs: seq<(string, string)>, content: Lists, classes: seq<string>)
    requires TotalOrder(le) && EndsAreClasses(f) && Grouped(pairs, content)
    requires Distinct(pairs) && Elements(pairs) == f.inherits && Elements(classes) == f.classes
    ensures GraphFrom(le, content, classes) == GraphOf(le, f)
  {
    GroupedNames(f, pairs, content);
    assert Mentioned(content) + Elements(classes) == f.classes;
    forall n | n in f.classes ensures Sort(le, ListOf(content, n)) == Arrange(le, DerivedIn(f, n)) {
      ListIsArranged(le, f, pairs, content, n);
    }
    SameGraph(le, f, content, classes);
  }

  lemma SameGraph(le: Order, f: Facts, content: Lists, classes: seq<string>)
    requires TotalOrder(le) && Mentioned(content) + Elements(classes) == f.classes
    requires forall n | n in f.classes :: Sort(le, ListOf(content, n)) == Arrange(le, DerivedIn(f, n))
    ensures GraphFrom(le, content, classes) == GraphOf(le, f)
  {
  }

  lemma ListIsArranged(le: Order, f: Facts, pairs: seq<(string, string)>, content: Lists, base: string)
    requires TotalOrder(le) && Grouped(pairs, content) && Distinct(pairs) && Elements(pairs) == f.inherits
    ensures Sort(le, ListOf(content, base)) == Arrange(le, DerivedIn(f, base))
  {
    ListIsDerivedIn(f, pairs, content, base);
    SortArranges(le, ListOf(content, base));
  }

  lemma GroupedNames(f: Facts, pairs: seq<(string, string)>, content: Lists)
    requires EndsAreClasses(f) && Grouped(pairs, content) && Elements(pairs) == f.inherits
    ensures Mentioned(content) <= f.classes
  {
    forall name | name in Mentioned(content) ensures name in f.classes {
      GroupedMentions(pairs, content, name);
      var pair :| pair in pairs && (pair.0 == name || pair.1 == name);
      assert pair in f.inherits;
    }
  }

  lemma ListIsDerivedIn(f: Facts, pairs: seq<(string, string)>, content: Lists, base: string)
    requires Grouped(pairs, content) && Distinct(pairs) && Elements(pairs) == f.inherits
    ensures Distinct(ListOf(content, base)) && Elements(ListOf(content, base)) == DerivedIn(f, base)
  {
    var list := ListOf(content, base);
    forall d ensures d in Elements(list) <==> d in DerivedIn(f, base) {
      GroupedIsIn(pairs, content, base, d);
      if (d, base) in pairs {
        assert (d, base) in f.inherits && (d, base).0 in DerivedIn(f, base);
      }
      if d in DerivedIn(f, base) {
        assert (d, base) in f.inherits;
        assert (d, base) in Elements(pairs);
      }
    }
    DistinctIsSet(pairs);
    forall d ensures multiset(list)[d] == multiset(Elements(list))[d] {
      GroupedCounts(pairs, content, base, d);
      assert multiset(pairs)[(d, base)] <= 1;
      assert d in list <==> d in multiset(list);
    }
    assert multiset(list) == multiset(Elements(list));
    SetIsDistinct(list, Elements(list));
  }

  // ---- end to end

  /** Both ends of every stored pair are classes. */
  lemma {:induction false} HistoryKeepsEnds(ops: seq<Operation>, project: string)
    ensures EndsAreClasses(Of(ExecuteAll(ops).0, project))
  {
    if ops != [] {
      HistoryKeepsEnds(ops[..|ops| - 1], project);
      HistoryKeepsEnds(ops[..|ops| - 1], ops[|ops| - 1].project);
    }
  }

  /** The answers of the storage, grouped and rebuilt, give the forest of its facts. */
  method ShowProject(storage: Storage, project: string, le: Order) returns (forest: Result<seq<TreeNode>>)
    requires storage.Valid() && TotalOrder(le)
    requires project in storage.model ==>
               EndsAreClasses(storage.model[project]) && Ends(GraphOf(le, storage.model[project]))
    modifies storage.pool
    ensures storage.Valid()
    ensures forest == if project in storage.model then Success(ForestOfFacts(le, storage.model[project])) else NotFound
  {
    var inheritances := storage.GetInheritances(project);
    if inheritances == NotFound {
      return NotFound;
    }
    var classes := storage.GetClasses(project);
    var content := GroupByBase(inheritances.value);
    GroupedGraph(le, storage.model[project], inheritances.value, content, classes.value);
    var treeData := BuildTree(le, content, classes.value);
    return Success(treeData);
  }

  // ---- the forest in terms of the requests

  /** The children of a node are, sorted and each once, the classes that were sent as derived
      from its class, and their keys continue its key; and so on down the tree. */
  ghost predicate Pictured(le: Order, ops: seq<Operation>, project: string, node: TreeNode) {
    && Sorted(le, Titles(node.children)) && Distinct(Titles(node.children))
    && (forall c :: c in Titles(node.children) <==> AddInheritance(project, c, node.title) in ops)
    && forall i | 0 <= i < |node.children| ::
         node.children[i].key == node.key + "-" + node.children[i].title
         && Pictured(le, ops, project, node.children[i])
  }

  /** The roots are, sorted and each once, the requested classes that were never sent as
      derived, and their keys are their titles. */
  ghost predicate PicturedForest(le: Order, ops: seq<Operation>, project: string, trees: seq<TreeNode>) {
    && Sorted(le, Titles(trees)) && Distinct(Titles(trees))
    && (forall c :: c in Titles(trees) <==>
          ClassRequested(ops, project, c) && forall base :: AddInheritance(project, c, base) !in ops)
    && forall i | 0 <= i < |trees| :: trees[i].key == trees[i].title && Pictured(le, ops, project, trees[i])
  }

  /** The graph has an edge exactly for each request. */
  ghost predicate Draws(g: Graph, ops: seq<Operation>, project: string) {
    && NoRepeats(g)
    && (forall n, c | n in g :: c in g[n] <==> AddInheritance(project, c, n) in ops)
    && (forall n, c | AddInheritance(project, c, n) in ops :: n in g)
  }

  lemma ChildrenAreRequests(g: Graph, ops: seq<Operation>, project: string, node: TreeNode)
    requires Draws(g, ops, project)
    requires multiset(Titles(node.children)) == if node.title in g then multiset(g[node.title]) else multiset{}
    ensures Distinct(Titles(node.children))
    ensures forall c :: c in Titles(node.children) <==> AddInheritance(project, c, node.title) in ops
  {
    var titles := Titles(node.children);
    var list := if node.title in g then g[node.title] else [];
    DistinctIsSet(list);
    SetIsDistinct(titles, Elements(list));
    assert forall c :: c in titles <==> c in Elements(titles);
  }

  lemma {:induction false} LaidIsPictured(le: Order, g: Graph, ops: seq<Operation>, project: string, node: TreeNode)
    requires Draws(g, ops, project) && Laid(le, g, node)
    ensures Pictured(le, ops, project, node)
  {
    ChildrenAreRequests(g, ops, project, node);
    forall i | 0 <= i < |node.children| ensures Pictured(le, ops, project, node.children[i]) {
      LaidIsPictured(le, g, ops, project, node.children[i]);
    }
  }

  lemma FactsDraw(le: Order, ops: seq<Operation>, project: string)
    requires TotalOrder(le)
    ensures Draws(GraphOf(le, Of(ExecuteAll(ops).0, project)), ops, project)
  {
    var f := Of(ExecuteAll(ops).0, project);
    var g := GraphOf(le, f);
    HistoryKeepsEnds(ops, project);
    GraphOfFacts(le, f);
    forall n, c ensures (c, n) in f.inherits <==> AddInheritance(project, c, n) in ops {
      PairsAreRequests(ops, project, c, n);
    }
    forall n, c | AddInheritance(project, c, n) in ops ensures n in g {
      assert (c, n) in f.inherits && (c, n).1 in f.classes;
    }
  }

  lemma RootIsRequested(le: Order, ops: seq<Operation>, project: string, c: string)
    requires TotalOrder(le) && Clean(OpsOf(ops))
    ensures var g := GraphOf(le, Of(ExecuteAll(ops).0, project));
      c in g && (forall m | m in g :: c !in g[m]) <==>
      ClassRequested(ops, project, c) && forall base :: AddInheritance(project, c, base) !in ops
  {
    FactsDraw(le, ops, project);
    ClassesAreRequests(ops, project, c);
  }

  /** The forest of the facts is the picture of the requests. */
  lemma FactsArePictured(le: Order, ops: seq<Operation>, project: string)
    requires TotalOrder(le) && Clean(OpsOf(ops)) && Ends(GraphOf(le, Of(ExecuteAll(ops).0, project)))
    ensures var f := Of(ExecuteAll(ops).0, project);
            EndsAreClasses(f) && PicturedForest(le, ops, project, ForestOfFacts(le, f))
  {
    var f := Of(ExecuteAll(ops).0, project);
    var g := GraphOf(le, f);
    HistoryKeepsEnds(ops, project);
    GraphOfFacts(le, f);
    FactsDraw(le, ops, project);
    ForestIsLaid(le, g);
    var trees := ForestOfFacts(le, f);
    forall i | 0 <= i < |trees| ensures Pictured(le, ops, project, trees[i]) {
      LaidIsPictured(le, g, ops, project, trees[i]);
    }
    forall c ensures c in Titles(trees) <==>
                     ClassRequested(ops, project, c) && forall base :: AddInheritance(project, c, base) !in ops
    {
      RootIsRequested(le, ops, project, c);
    }
  }

  /** The same names in the same order. */
  lemma SameTitles(le: Order, s: seq<string>, t: seq<string>)
    requires TotalOrder(le) && Sorted(le, s) && Sorted(le, t) && Distinct(s) && Distinct(t)
    requires forall c :: c in s <==> c in t
    ensures s == t
  {
    assert Elements(s) == Elements(t);
    DistinctIsSet(s);
    DistinctIsSet(t);
    SortedIsUnique(le, s, t);
  }

  lemma {:induction false} PictureIsUnique(le: Order, ops: seq<Operation>, project: string, t: TreeNode, u: TreeNode)
    requires TotalOrder(le) && Pictured(le, ops, project, t) && Pictured(le, ops, project, u)
    requires t.title == u.title && t.key == u.key
    ensures t == u
  {
    SameTitles(le, Titles(t.children), Titles(u.children));
    forall i | 0 <= i < |t.children| ensures t.children[i] == u.children[i] {
      assert Titles(t.children)[i] == Titles(u.children)[i];
      PictureIsUnique(le, ops, project, t.children[i], u.children[i]);
    }
  }

  /** The requests leave no choice: there is one forest that pictures them. */
  lemma ForestIsUnique(le: Order, ops: seq<Operation>, project: string, ts: seq<TreeNode>, us: seq<TreeNode>)
    requires TotalOrder(le) && PicturedForest(le, ops, project, ts) && PicturedForest(le, ops, project, us)
    ensures ts == us
  {
    SameTitles(le, Titles(ts), Titles(us));
    forall i | 0 <= i < |ts| ensures ts[i] == us[i] {
      assert Titles(ts)[i] == Titles(us)[i];
      PictureIsUnique(le, ops, project, ts[i], us[i]);
    }
  }

  /** Whatever the order, interleaving and repetition of the same requests, the forest of a
      project is that of the set of its facts, and it pictures the requests. */
  method Display(operations: seq<Operation>, project: string, le: Order) returns (forest: Result<seq<TreeNode>>)
    requires TotalOrder(le) && Clean(OpsOf(operations)) && Ends(GraphOf(le, FactsOf(OpsOf(operations), project)))
    ensures EndsAreClasses(FactsOf(OpsOf(operations), project))
    ensures forest ==
            if project in ProjectNames(OpsOf(operations))
            then Success(ForestOfFacts(le, FactsOf(OpsOf(operations), project))) else NotFound
    ensures forest == NotFound <==> forall op | op in operations :: op.project != project
    ensures forest.Success? ==> PicturedForest(le, operations, project, forest.value)
  {
    StateIsFunctionOfFacts(operations);
    HistoryKeepsEnds(operations, project);
    OfModelOf(OpsOf(operations), project);
    FactsArePictured(le, operations, project);
    var storage := Serve(operations);
    forest := ShowProject(storage, project, le);
  }
}
