/** From (derived, base) pairs to the forest that is shown: grouping by base, the shared
    object graph of classes, and its unfolding into tree nodes. */
module InheritanceTrees {
  import opened NameOrder
  import opened ForestModel

  /** The names of derived classes, for every base that has any. */
  type Lists = map<string, seq<string>>

  function ListOf(lists: Lists, name: string): seq<string> {
    if name in lists then lists[name] else []
  }

  // ---- grouping by base

  function DerivedOf(pairs: seq<(string, string)>, base: string): seq<string> {
    if pairs == [] then []
    else
      var last := pairs[|pairs| - 1];
      DerivedOf(pairs[..|pairs| - 1], base) + if last.1 == base then [last.0] else []
  }

  /** Each pair contributes once to the list of its base and to no other list. */
  lemma {:induction false} DerivedOfCounts(pairs: seq<(string, string)>, base: string, derived: string)
    ensures multiset(DerivedOf(pairs, base))[derived] == multiset(pairs)[(derived, base)]
  {
    if pairs != [] {
      var init, last := pairs[..|pairs| - 1], pairs[|pairs| - 1];
      assert pairs == init + [last];
      DerivedOfCounts(init, base, derived);
    }
  }

  /** The list has the first components of the pairs with that base, in the order of the
      pairs: its entries stand at increasing positions, which are all positions of the base. */
  ghost predicate Picks(pairs: seq<(string, string)>, base: string, positions: seq<nat>, list: seq<string>) {
    && |positions| == |list|
    && (forall j, k | 0 <= j < k < |positions| :: positions[j] < positions[k])
    && (forall k | 0 <= k < |list| :: positions[k] < |pairs| && pairs[positions[k]] == (list[k], base))
    && (forall i: nat | i < |pairs| && pairs[i].1 == base :: i in positions)
  }

  lemma {:induction false} DerivedOfPicks(pairs: seq<(string, string)>, base: string) returns (positions: seq<nat>)
    ensures Picks(pairs, base, positions, DerivedOf(pairs, base))
  {
    if pairs == [] {
      positions := [];
    } else {
      var last := |pairs| - 1;
      var before := DerivedOfPicks(pairs[..last], base);
      positions := before + if pairs[last].1 == base then [last] else [];
      forall i: nat | i < |pairs| && pairs[i].1 == base ensures i in positions {
        if i < last {
          assert pairs[..last][i] == pairs[i];
          assert i in before;
        }
      }
    }
  }

  lemma PicksBefore(pairs: seq<(string, string)>, base: string, positions: seq<nat>, list: seq<string>)
    requires pairs != [] && Picks(pairs, base, positions, list)
    ensures var last := pairs[|pairs| - 1];
            if last.1 == base then
              list != [] && list[|list| - 1] == last.0
              && Picks(pairs[..|pairs| - 1], base, positions[..|list| - 1], list[..|list| - 1])
            else Picks(pairs[..|pairs| - 1], base, positions, list)
  {
    var last := |pairs| - 1;
    if pairs[last].1 == base {
      assert last in positions;
      var k :| 0 <= k < |positions| && positions[k] == last;
      assert k == |positions| - 1;
    }
  }

  /** The pairs leave no choice: this list is the only one. */
  lemma {:induction false} PicksIsUnique(pairs: seq<(string, string)>, base: string, positions: seq<nat>,
                                         list: seq<string>)
    requires Picks(pairs, base, positions, list)
    ensures list == DerivedOf(pairs, base)
  {
    if pairs == [] {
      assert |list| == 0;
    } else {
      PicksBefore(pairs, base, positions, list);
      var init, n := pairs[..|pairs| - 1], |list| - 1;
      if pairs[|pairs| - 1].1 == base {
        PicksIsUnique(init, base, positions[..n], list[..n]);
      } else {
        PicksIsUnique(init, base, positions, list);
      }
    }
  }

  /** The loop of the handler of GET inheritances. */
  method GroupByBase(pairs: seq<(string, string)>) returns (content: Lists)
    ensures forall base | base in content :: exists positions :: Picks(pairs, base, positions, content[base])
    ensures forall base :: base in content <==> exists pair :: pair in pairs && pair.1 == base
    ensures forall base | base in content :: content[base] == DerivedOf(pairs, base)
  {
    content := map[];
    for i := 0 to |pairs|
      invariant forall base :: base in content <==> exists j :: 0 <= j < i && pairs[j].1 == base
      invariant forall base :: ListOf(content, base) == DerivedOf(pairs[..i], base)
    {
      var (derived, base) := pairs[i];
      assert pairs[..i + 1][..i] == pairs[..i];
      if base in content {
        content := content[base := content[base] + [derived]];
      } else {
        content := content[base := [derived]];
      }
    }
    assert pairs[..|pairs|] == pairs;
    forall base | base in content ensures exists positions :: Picks(pairs, base, positions, content[base]) {
      var positions := DerivedOfPicks(pairs, base);
    }
  }

  // ---- the object graph

  class CppClass {
    const name: string
    var isFirstBase: bool
    var derivedClasses: seq<CppClass>

    constructor (name: string)
      ensures this.name == name && isFirstBase && derivedClasses == []
    {
      this.name := name;
      isFirstBase, derivedClasses := true, [];
    }

    /** Sorts the list of derived classes in place. */
    method SortDerived(le: Order, ghost g: Graph, ghost entries: Entries, ghost nodes: set<CppClass>)
      returns (list: seq<CppClass>)
      requires TotalOrder(le) && Drawable(le, g, entries, nodes) && name in entries && entries[name] == this
      modifies nodes`derivedClasses
      ensures Drawable(le, g, entries, nodes) && Linked(entries, list) && Names(list) == g[name]
    {
      assert NodeOk(le, g, entries, name);
      SortClassesSorts(le, derivedClasses);
      SortTwice(le, Names(derivedClasses));
      SortedIsLinked(le, entries, derivedClasses);
      derivedClasses := SortClasses(le, derivedClasses);
      list := derivedClasses;
      forall n | n in entries ensures NodeOk(le, g, entries, n) {
        assert old(NodeOk(le, g, entries, n));
      }
    }

    /** CppClass._toTreeNode: sorts the derived classes in place and unfolds them. */
    method ToTreeNode(key: string, le: Order, ghost path: Path, ghost g: Graph, ghost entries: Entries,
                      ghost nodes: set<CppClass>)
      returns (node: TreeNode)
      requires TotalOrder(le) && Closed(g) && Drawable(le, g, entries, nodes)
      requires IsPath(g, path) && Tame(g, path) && Last(path) == name && entries[name] == this && key == Join(path)
      modifies nodes`derivedClasses
      ensures Drawable(le, g, entries, nodes) && node == Unfold(g, path)
      decreases |g| - |path|
    {
      var list := SortDerived(le, g, entries, nodes);
      var children := [];
      for i := 0 to |list|
        invariant Drawable(le, g, entries, nodes)
        invariant children == UnfoldBelow(g, path, Names(list)[..i])
      {
        var c := list[i];
        StepDown(g, path, c.name);
        var child := c.ToTreeNode(key + "-" + c.name, le, path + [c.name], g, entries, nodes);
        UnfoldBelowSnoc(g, path, Names(list)[..i], c.name);
        ElementsSnoc(Names(list), i);
        children := children + [child];
      }
      assert Names(list)[..|list|] == g[name];
      node := TreeNode(key, name, children);
    }
  }

  lemma StepDown(g: Graph, path: Path, name: string)
    requires Closed(g) && IsPath(g, path) && Tame(g, path) && name in g[Last(path)]
    ensures IsPath(g, path + [name]) && Tame(g, path + [name]) && |path| < |g|
    ensures Join(path + [name]) == Join(path) + "-" + name
  {
    TameStep(g, path, name);
    JoinSnoc(path, name);
  }

  // ---- sorting objects by name

  function InsertClass(le: Order, c: CppClass, s: seq<CppClass>): seq<CppClass> {
    if s == [] then [c] else if le(c.name, s[0].name) then [c] + s else [s[0]] + InsertClass(le, c, s[1..])
  }

  function SortClasses(le: Order, s: seq<CppClass>): seq<CppClass> {
    if s == [] then [] else InsertClass(le, s[0], SortClasses(le, s[1..]))
  }

  lemma {:induction false} InsertClassInserts(le: Order, c: CppClass, s: seq<CppClass>)
    ensures Names(InsertClass(le, c, s)) == Insert(le, c.name, Names(s))
  {
    if s != [] {
      assert s == [s[0]] + s[1..] && Names(s)[1..] == Names(s[1..]);
      InsertClassInserts(le, c, s[1..]);
      assert Names([s[0]] + InsertClass(le, c, s[1..])) == [s[0].name] + Names(InsertClass(le, c, s[1..]));
      assert Names([c] + s) == [c.name] + Names(s);
    }
  }

  /** The names of the sorted objects are the sorted names. */
  lemma {:induction false} SortClassesSorts(le: Order, s: seq<CppClass>)
    ensures Names(SortClasses(le, s)) == Sort(le, Names(s))
  {
    if s != [] {
      assert s == [s[0]] + s[1..] && Names(s)[1..] == Names(s[1..]);
      SortClassesSorts(le, s[1..]);
      InsertClassInserts(le, s[0], SortClasses(le, s[1..]));
    }
  }

  lemma {:induction false} InsertIsLinked(le: Order, entries: Entries, c: CppClass, s: seq<CppClass>)
    requires Linked(entries, [c]) && Linked(entries, s)
    ensures Linked(entries, InsertClass(le, c, s))
  {
    if s != [] {
      assert [c][0] == c;
      InsertIsLinked(le, entries, c, s[1..]);
    }
  }

  /** Sorting keeps to the objects of the mapping. */
  lemma {:induction false} SortedIsLinked(le: Order, entries: Entries, s: seq<CppClass>)
    requires Linked(entries, s)
    ensures Linked(entries, SortClasses(le, s))
  {
    if s != [] {
      SortedIsLinked(le, entries, s[1..]);
      InsertIsLinked(le, entries, s[0], SortClasses(le, s[1..]));
    }
  }

  function Names(classes: seq<CppClass>): (r: seq<string>)
    ensures |r| == |classes| && forall i | 0 <= i < |r| :: r[i] == classes[i].name
  {
    seq(|classes|, i requires 0 <= i < |classes| => classes[i].name)
  }

  type Entries = map<string, CppClass>

  /** Every name stands for an object of that name. */
  ghost predicate Indexed(entries: Entries, nodes: set<CppClass>) {
    forall name | name in entries :: entries[name] in nodes && entries[name].name == name
  }

  /** Every name has one object, and every object is linked to by its name. */
  ghost predicate Linked(entries: Entries, classes: seq<CppClass>) {
    forall i | 0 <= i < |classes| :: classes[i].name in entries && entries[classes[i].name] == classes[i]
  }

  ghost predicate NodeOk(le: Order, g: Graph, entries: Entries, name: string)
    requires name in entries && name in g
    reads entries[name]
  {
    Linked(entries, entries[name].derivedClasses) && Sort(le, Names(entries[name].derivedClasses)) == g[name]
  }

  /** The objects form the graph, up to the order of derived classes. */
  ghost predicate Drawable(le: Order, g: Graph, entries: Entries, nodes: set<CppClass>)
    reads nodes
  {
    && entries.Keys == g.Keys
    && Indexed(entries, nodes)
    && (forall n {:trigger NodeOk(le, g, entries, n)} | n in entries :: NodeOk(le, g, entries, n))
  }

  ghost predicate NeverDerived(lists: Lists, name: string) {
    forall base | base in lists :: name !in lists[base]
  }

  lemma NeverDerivedBegin(lists: Lists, base: string, name: string)
    requires base !in lists
    ensures NeverDerived(lists[base := []], name) <==> NeverDerived(lists, name)
  {
    var more := lists[base := []];
    if NeverDerived(more, name) {
      forall b | b in lists ensures name !in lists[b] {
        assert b in more;
      }
    }
  }

  lemma NeverDerivedGrows(lists: Lists, base: string, derived: string, name: string)
    requires base in lists
    ensures NeverDerived(lists[base := lists[base] + [derived]], name) <==> NeverDerived(lists, name) && name != derived
  {
    var more := lists[base := lists[base] + [derived]];
    if NeverDerived(more, name) {
      assert base in more;
      forall b | b in lists ensures name !in lists[b] {
        assert b in more;
      }
    }
  }

  /** All names in the lists, as a base or as a derived class. */
  ghost function Mentioned(lists: Lists): set<string> {
    lists.Keys + set base, derived | base in lists && derived in lists[base] :: derived
  }

  lemma MentionedGrows(lists: Lists, base: string, list: seq<string>)
    requires base !in lists
    ensures Mentioned(lists[base := list]) == Mentioned(lists) + {base} + Elements(list)
  {
    var more := lists[base := list];
    forall d ensures d in Mentioned(more) <==> d in Mentioned(lists) || d == base || d in list {
      if d in list {
        assert d in more[base];
      }
      if b :| b in lists && d in lists[b] {
        assert d in more[b];
      }
    }
  }

  class ClassMapping {
    var entries: Entries
    ghost var nodes: set<CppClass>  // the footprint
    ghost var lists: Lists          // the lists read so far

    ghost predicate EntryOk(name: string)
      requires name in entries
      reads this, entries[name]
    {
      && Linked(entries, entries[name].derivedClasses)
      && Names(entries[name].derivedClasses) == ListOf(lists, name)
      && (entries[name].isFirstBase <==> NeverDerived(lists, name))
    }

    /** The objects represent exactly the lists. */
    ghost predicate Valid()
      reads this, nodes
    {
      && Indexed(entries, nodes)
      && (forall name {:trigger EntryOk(name)} | name in entries :: EntryOk(name))
      && lists.Keys <= entries.Keys
    }

    constructor ()
      ensures Valid() && entries == map[] && nodes == {} && lists == map[]
    {
      entries, nodes, lists := map[], {}, map[];
    }

    /** A name without an object is in no list. */
    lemma NewIsNeverDerived(name: string)
      requires Valid() && name !in entries
      ensures NeverDerived(lists, name)
    {
      forall base | base in lists ensures name !in lists[base] {
        assert EntryOk(base);
        forall i | 0 <= i < |lists[base]| ensures lists[base][i] in entries {
          assert entries[base].derivedClasses[i].name == lists[base][i];
        }
      }
    }

    /** The object that the mapping has for the name; a new one is stored if it has none. */
    method GetOrCreate(name: string) returns (cppClass: CppClass)
      requires Valid()
      modifies this`entries, this`nodes
      ensures Valid() && fresh(nodes - old(nodes)) && name in entries && entries[name] == cppClass
      ensures entries.Keys == old(entries.Keys) + {name}
      ensures forall n | n in old(entries) :: entries[n] == old(entries)[n]
    {
      if name in entries {
        return entries[name];
      }
      cppClass := new CppClass(name);
      NewIsNeverDerived(name);
      entries, nodes := entries[name := cppClass], nodes + {cppClass};
      forall n | n in entries ensures EntryOk(n) {
        if n != name {
          assert old(EntryOk(n));
        }
      }
    }

    /** The base is mentioned; its list begins empty. */
    ghost method Begin(base: string)
      requires Valid() && base in entries && base !in lists
      modifies this`lists
      ensures Valid() && lists == old(lists)[base := []]
    {
      lists := lists[base := []];
      forall n | n in entries ensures EntryOk(n) {
        assert old(EntryOk(n));
        NeverDerivedBegin(old(lists), base, n);
      }
    }

    /** One more derived class of the base, seen from the class at.2. */
    twostate lemma DerivedAgreesAt(at: (string, string, string))
      requires var (base, derived, n) := at;
               && base in entries && derived in entries && n in entries && entries == old(entries)
               && old(base in lists && EntryOk(base) && EntryOk(n)) && entries[derived].name == derived
               && lists == old(lists)[base := old(lists)[base] + [derived]]
               && Linked(entries, [entries[derived]])
               && entries[n].derivedClasses ==
                  old(entries[n].derivedClasses) + (if n == base then [entries[derived]] else [])
               && entries[n].isFirstBase == (old(entries[n].isFirstBase) && n != derived)
      ensures EntryOk(at.2)
    {
      var (base, derived, n) := at;
      var was := old(entries[n].derivedClasses);
      assert Names(was + [entries[derived]]) == Names(was) + [derived];
      NeverDerivedGrows(old(lists), base, derived, n);
    }

    /** One more derived class of the base. */
    method Derive(base: string, derived: string)
      requires Valid() && base in entries && derived in entries && base in lists
      modifies this`lists, entries[base], entries[derived]
      ensures Valid() && lists == old(lists)[base := old(lists)[base] + [derived]]
    {
      var baseClass, derivedClass := entries[base], entries[derived];
      assert EntryOk(base) && EntryOk(derived);
      baseClass.derivedClasses := baseClass.derivedClasses + [derivedClass];
      derivedClass.isFirstBase := false;
      lists := lists[base := lists[base] + [derived]];
      forall n | n in entries ensures EntryOk(n) {
        assert old(EntryOk(n)) && old(EntryOk(base));
        DerivedAgreesAt((base, derived, n));
      }
    }

    /** The inner loop body of createCppClasses. */
    method ReadDerived(base: string, derived: string)
      requires Valid() && base in lists
      modifies this, nodes
      ensures Valid() && fresh(nodes - old(nodes)) && entries.Keys == old(entries.Keys) + {derived}
      ensures lists == old(lists)[base := old(lists)[base] + [derived]]
    {
      var derivedClass := GetOrCreate(derived);
      Derive(base, derived);
    }
  }

  /** The inner loop of createCppClasses. */
  method ReadList(mapping: ClassMapping, base: string, list: seq<string>)
    requires mapping.Valid() && base in mapping.lists && mapping.lists[base] == []
    modifies mapping, mapping.nodes
    ensures mapping.Valid() && fresh(mapping.nodes - old(mapping.nodes))
    ensures mapping.lists == old(mapping.lists)[base := list]
    ensures mapping.entries.Keys == old(mapping.entries.Keys) + Elements(list)
  {
    ghost var lists, keys := mapping.lists, mapping.entries.Keys;
    for i := 0 to |list|
      invariant mapping.Valid() && fresh(mapping.nodes - old(mapping.nodes))
      invariant mapping.lists == lists[base := list[..i]]
      invariant mapping.entries.Keys == keys + Elements(list[..i])
    {
      mapping.ReadDerived(base, list[i]);
      ElementsSnoc(list, i);
      assert mapping.entries.Keys == keys + Elements(list[..i + 1]);
      assert mapping.lists == lists[base := list[..i + 1]];
    }
    assert list[..|list|] == list;
  }

  /** The outer loop body of createCppClasses. */
  method ReadBase(mapping: ClassMapping, base: string, list: seq<string>)
    requires mapping.Valid() && base !in mapping.lists
    modifies mapping, mapping.nodes
    ensures mapping.Valid() && fresh(mapping.nodes - old(mapping.nodes))
    ensures mapping.lists == old(mapping.lists)[base := list]
    ensures mapping.entries.Keys == old(mapping.entries.Keys) + {base} + Elements(list)
  {
    var baseClass := mapping.GetOrCreate(base);
    mapping.Begin(base);
    ReadList(mapping, base, list);
  }

  /** The objects of the mapping as a list, in some order. */
  method Values(mapping: ClassMapping) returns (list: seq<CppClass>)
    requires mapping.Valid()
    ensures Linked(mapping.entries, list) && Distinct(Names(list)) && Elements(Names(list)) == mapping.entries.Keys
  {
    var rest := mapping.entries.Keys;
    list := [];
    while rest != {}
      invariant rest <= mapping.entries.Keys && Linked(mapping.entries, list) && Distinct(Names(list))
      invariant Elements(Names(list)) == mapping.entries.Keys - rest
      decreases rest
    {
      var name :| name in rest;
      assert name !in Elements(Names(list));
      assert Names(list + [mapping.entries[name]]) == Names(list) + [name];
      assert Elements(Names(list) + [name]) == Elements(Names(list)) + {name};
      list := list + [mapping.entries[name]];
      rest := rest - {name};
    }
  }

  /** The values of the mapping, sorted by name. */
  method SortedValues(mapping: ClassMapping, le: Order) returns (cppClasses: seq<CppClass>)
    requires mapping.Valid() && TotalOrder(le)
    ensures Linked(mapping.entries, cppClasses) && Names(cppClasses) == Arrange(le, mapping.entries.Keys)
  {
    var list := Values(mapping);
    SortClassesSorts(le, list);
    SortArranges(le, Names(list));
    SortedIsLinked(le, mapping.entries, list);
    cppClasses := SortClasses(le, list);
  }

  /** The classes that no list mentions are added. */
  method ReadClasses(mapping: ClassMapping, classes: seq<string>)
    requires mapping.Valid()
    modifies mapping`entries, mapping`nodes
    ensures mapping.Valid() && fresh(mapping.nodes - old(mapping.nodes))
    ensures mapping.entries.Keys == old(mapping.entries.Keys) + Elements(classes)
  {
    for i := 0 to |classes|
      invariant mapping.Valid() && fresh(mapping.nodes - old(mapping.nodes))
      invariant mapping.entries.Keys == old(mapping.entries.Keys) + Elements(classes[..i])
    {
      if classes[i] !in mapping.entries {
        var cppClass := mapping.GetOrCreate(classes[i]);
      }
      ElementsSnoc(classes, i);
    }
    assert classes[..|classes|] == classes;
  }

  lemma OneMoreRead(dependencies: Lists, rest: set<string>, base: string)
    requires base in rest && base in dependencies
    ensures base !in dependencies - rest
    ensures (dependencies - rest)[base := dependencies[base]] == dependencies - (rest - {base})
  {
  }

  /** The outer loop of createCppClasses. The order in which the bases are read is arbitrary. */
  method ReadBases(mapping: ClassMapping, dependencies: Lists)
    requires mapping.Valid() && mapping.lists == map[] && mapping.entries == map[]
    modifies mapping, mapping.nodes
    ensures mapping.Valid() && fresh(mapping.nodes - old(mapping.nodes))
    ensures mapping.lists == dependencies && mapping.entries.Keys == Mentioned(dependencies)
  {
    var rest := dependencies.Keys;
    while rest != {}
      invariant mapping.Valid() && fresh(mapping.nodes - old(mapping.nodes)) && rest <= dependencies.Keys
      invariant mapping.lists == dependencies - rest
      invariant mapping.entries.Keys == Mentioned(mapping.lists)
      decreases rest
    {
      var base :| base in rest;
      MentionedGrows(mapping.lists, base, dependencies[base]);
      ReadBase(mapping, base, dependencies[base]);
      OneMoreRead(dependencies, rest, base);
      rest := rest - {base};
    }
    assert dependencies - {} == dependencies;
  }

  /** All bases, all derived classes and all listed classes have their objects. */
  method CreateMapping(dependencies: Lists, classes: seq<string>) returns (mapping: ClassMapping)
    ensures fresh(mapping) && fresh(mapping.nodes) && mapping.Valid() && mapping.lists == dependencies
    ensures mapping.entries.Keys == Mentioned(dependencies) + Elements(classes)
  {
    mapping := new ClassMapping();
    ReadBases(mapping, dependencies);
    ReadClasses(mapping, classes);
  }

  /** createCppClasses. */
  method CreateCppClasses(le: Order, dependencies: Lists, classes: seq<string>)
    returns (cppClasses: seq<CppClass>, ghost mapping: ClassMapping)
    requires TotalOrder(le)
    ensures fresh(mapping) && fresh(mapping.nodes) && mapping.Valid() && mapping.lists == dependencies
    ensures mapping.entries.Keys == Mentioned(dependencies) + Elements(classes)
    ensures Linked(mapping.entries, cppClasses) && Names(cppClasses) == Arrange(le, mapping.entries.Keys)
  {
    var classMapping := CreateMapping(dependencies, classes);
    mapping := classMapping;
    cppClasses := SortedValues(classMapping, le);
  }

  // ---- the forest

  /** The graph that the lists and the class names describe, with sorted lists. */
  ghost function GraphFrom(le: Order, lists: Lists, classes: seq<string>): Graph {
    map n | n in Mentioned(lists) + Elements(classes) :: Sort(le, ListOf(lists, n))
  }

  /** Its edges are exactly those of the lists, each as often as there. */
  lemma GraphFromEdges(le: Order, lists: Lists, classes: seq<string>)
    requires TotalOrder(le)
    ensures var g := GraphFrom(le, lists, classes);
      && Closed(g) && forall n | n in g :: multiset(g[n]) == multiset(ListOf(lists, n))
  {
    var g := GraphFrom(le, lists, classes);
    forall n | n in g ensures multiset(g[n]) == multiset(ListOf(lists, n)) {
      SortSorts(le, ListOf(lists, n));
    }
    forall n, c | n in g && c in g[n] ensures c in g {
      assert c in multiset(g[n]);
      assert n in lists && c in lists[n];
    }
  }

  /** The roots are the classes that are never derived. */
  lemma RootsAreNeverDerived(le: Order, lists: Lists, classes: seq<string>, name: string)
    requires TotalOrder(le) && name in GraphFrom(le, lists, classes)
    ensures name in Roots(GraphFrom(le, lists, classes)) <==> NeverDerived(lists, name)
  {
    var g := GraphFrom(le, lists, classes);
    GraphFromEdges(le, lists, classes);
    forall n | n in g ensures name in g[n] <==> name in ListOf(lists, n) {
      assert name in g[n] <==> name in multiset(g[n]);
    }
    if NeverDerived(lists, name) {
      forall n | n in g ensures name !in g[n] {
        assert name !in ListOf(lists, n);
      }
    } else {
      var base :| base in lists && name in lists[base];
      assert base in g && name in g[base];
    }
  }

  /** The roots among the first i names, in their order. */
  ghost predicate RootsAmong(le: Order, g: Graph, names: seq<string>, i: nat, roots: seq<string>)
    requires i <= |names|
  {
    Distinct(roots) && Sorted(le, roots) && (forall n :: n in roots <==> n in names[..i] && n in Roots(g))
  }

  lemma RootsGrow(le: Order, g: Graph, names: seq<string>, i: nat, roots: seq<string>)
    requires Distinct(names) && Sorted(le, names) && i < |names| && RootsAmong(le, g, names, i, roots)
    ensures RootsAmong(le, g, names, i + 1, if names[i] in Roots(g) then roots + [names[i]] else roots)
  {
    assert names[..i + 1] == names[..i] + [names[i]];
    forall r | r in roots ensures r != names[i] && le(r, names[i]) {
      assert r in names[..i];
      var j :| 0 <= j < i && names[j] == r;
    }
  }

  lemma AllRoots(le: Order, g: Graph, roots: seq<string>)
    requires TotalOrder(le)
    requires RootsAmong(le, g, Arrange(le, g.Keys), |Arrange(le, g.Keys)|, roots)
    ensures roots == Arrange(le, Roots(g))
  {
    var names := Arrange(le, g.Keys);
    ArrangeIsSet(le, g.Keys);
    assert names[..|names|] == names;
    assert Elements(roots) == Roots(g);
    DistinctIsSet(roots);
    SortedIsUnique(le, roots, Arrange(le, Roots(g)));
  }

  /** The trees of the roots among the first i names are drawn. */
  ghost predicate Drawn(le: Order, g: Graph, names: seq<string>, i: nat, roots: seq<string>, trees: seq<TreeNode>)
    requires i <= |names| && Closed(g) && Ends(g)
  {
    RootsAmong(le, g, names, i, roots) && trees == UnfoldRoots(g, roots)
  }

  lemma DrawnGrows(le: Order, g: Graph, names: seq<string>, i: nat, roots: seq<string>, trees: seq<TreeNode>)
    requires Closed(g) && Ends(g) && Distinct(names) && Sorted(le, names) && i < |names|
    requires Drawn(le, g, names, i, roots, trees)
    ensures if names[i] in Roots(g) then
              Drawn(le, g, names, i + 1, roots + [names[i]], trees + [Unfold(g, [names[i]])])
            else Drawn(le, g, names, i + 1, roots, trees)
  {
    RootsGrow(le, g, names, i, roots);
    if names[i] in Roots(g) {
      UnfoldRootsSnoc(g, roots, names[i]);
    }
  }

  /** A class that is a first base is shown. */
  method DrawIfRoot(cppClass: CppClass, le: Order, ghost g: Graph, ghost entries: Entries, ghost nodes: set<CppClass>)
    returns (more: seq<TreeNode>)
    requires TotalOrder(le) && Closed(g) && Ends(g) && Drawable(le, g, entries, nodes) && Linked(entries, [cppClass])
    requires cppClass.isFirstBase <==> cppClass.name in Roots(g)
    modifies nodes`derivedClasses
    ensures Drawable(le, g, entries, nodes)
    ensures cppClass.name in Roots(g) ==> IsPath(g, [cppClass.name]) && more == [Unfold(g, [cppClass.name])]
    ensures cppClass.name !in Roots(g) ==> more == []
  {
    more := [];
    if cppClass.isFirstBase {
      var node := DrawRoot(cppClass, le, g, entries, nodes);
      more := [node];
    }
  }

  /** The body of that loop. */
  method DrawNext(cppClass: CppClass, le: Order, ghost g: Graph, ghost entries: Entries, ghost nodes: set<CppClass>,
                  ghost names: seq<string>, ghost i: nat, ghost roots: seq<string>, treeData: seq<TreeNode>)
    returns (grown: seq<TreeNode>, ghost grownRoots: seq<string>)
    requires TotalOrder(le) && Closed(g) && Ends(g) && Drawable(le, g, entries, nodes) && Linked(entries, [cppClass])
    requires cppClass.isFirstBase <==> cppClass.name in Roots(g)
    requires Distinct(names) && Sorted(le, names) && i < |names| && names[i] == cppClass.name
    requires Drawn(le, g, names, i, roots, treeData)
    modifies nodes`derivedClasses
    ensures Drawable(le, g, entries, nodes) && Drawn(le, g, names, i + 1, grownRoots, grown)
  {
    var more := DrawIfRoot(cppClass, le, g, entries, nodes);
    DrawnGrows(le, g, names, i, roots, treeData);
    grownRoots := if cppClass.name in Roots(g) then roots + [cppClass.name] else roots;
    grown := treeData + more;
  }

  /** The loop that shows every class that is a first base. */
  method DrawListed(cppClasses: seq<CppClass>, le: Order, ghost g: Graph, ghost entries: Entries,
                    ghost nodes: set<CppClass>, ghost names: seq<string>)
    returns (treeData: seq<TreeNode>, ghost roots: seq<string>)
    requires TotalOrder(le) && Closed(g) && Ends(g) && Drawable(le, g, entries, nodes)
    requires Linked(entries, cppClasses) && Names(cppClasses) == names && Distinct(names) && Sorted(le, names)
    requires forall n | n in entries :: entries[n].isFirstBase <==> n in Roots(g)
    modifies nodes`derivedClasses
    ensures Drawn(le, g, names, |names|, roots, treeData)
  {
    treeData, roots := [], [];
    for i := 0 to |cppClasses|
      invariant Drawable(le, g, entries, nodes) && Drawn(le, g, names, i, roots, treeData)
    {
      treeData, roots := DrawNext(cppClasses[i], le, g, entries, nodes, names, i, roots, treeData);
    }
  }

  /** What the page shows: the tree of every class that is a first base. */
  method DrawRoots(cppClasses: seq<CppClass>, le: Order, ghost g: Graph, ghost entries: Entries,
                   ghost nodes: set<CppClass>)
    returns (treeData: seq<TreeNode>)
    requires TotalOrder(le) && Closed(g) && Ends(g) && Drawable(le, g, entries, nodes)
    requires Linked(entries, cppClasses) && Names(cppClasses) == Arrange(le, g.Keys)
    requires forall n | n in entries :: entries[n].isFirstBase <==> n in Roots(g)
    modifies nodes`derivedClasses
    ensures treeData == ForestOf(le, g) && LaidForest(le, g, g.Keys, treeData)
  {
    ArrangeIsSet(le, g.Keys);
    DrawableIsSorted(le, g, entries, nodes);
    ForestIsLaid(le, g);
    ghost var roots;
    treeData, roots := DrawListed(cppClasses, le, g, entries, nodes, Names(cppClasses));
    AllRoots(le, g, roots);
  }

  lemma DrawableIsSorted(le: Order, g: Graph, entries: Entries, nodes: set<CppClass>)
    requires TotalOrder(le) && Drawable(le, g, entries, nodes)
    ensures AllSorted(le, g)
  {
    forall n | n in g ensures Sorted(le, g[n]) {
      assert NodeOk(le, g, entries, n);
      SortSorts(le, Names(entries[n].derivedClasses));
    }
  }

  /** CppClass.toTreeNode. */
  method DrawRoot(cppClass: CppClass, le: Order, ghost g: Graph, ghost entries: Entries, ghost nodes: set<CppClass>)
    returns (node: TreeNode)
    requires TotalOrder(le) && Closed(g) && Drawable(le, g, entries, nodes)
    requires Linked(entries, [cppClass]) && Tame(g, [cppClass.name])
    modifies nodes`derivedClasses
    ensures Drawable(le, g, entries, nodes) && IsPath(g, [cppClass.name]) && node == Unfold(g, [cppClass.name])
  {
    assert [cppClass][0] == cppClass;
    node := cppClass.ToTreeNode(cppClass.name, le, [cppClass.name], g, entries, nodes);
  }

  /** The objects of createCppClasses form the graph that the lists describe. */
  lemma BuiltIsDrawable(le: Order, mapping: ClassMapping, classes: seq<string>)
    requires TotalOrder(le) && mapping.Valid() && mapping.entries.Keys == Mentioned(mapping.lists) + Elements(classes)
    ensures var g := GraphFrom(le, mapping.lists, classes);
      && Drawable(le, g, mapping.entries, mapping.nodes)
      && forall n | n in mapping.entries :: mapping.entries[n].isFirstBase <==> n in Roots(g)
  {
    var g := GraphFrom(le, mapping.lists, classes);
    forall n | n in mapping.entries
      ensures NodeOk(le, g, mapping.entries, n) && (mapping.entries[n].isFirstBase <==> n in Roots(g))
    {
      assert mapping.EntryOk(n);
      RootsAreNeverDerived(le, mapping.lists, classes, n);
    }
  }

  /** From the lists and the class names to the forest: createCppClasses and the root loop. */
  method BuildTree(le: Order, dependencies: Lists, classes: seq<string>) returns (treeData: seq<TreeNode>)
    requires TotalOrder(le) && Ends(GraphFrom(le, dependencies, classes))
    ensures Closed(GraphFrom(le, dependencies, classes))
    ensures treeData == ForestOf(le, GraphFrom(le, dependencies, classes))
    ensures LaidForest(le, dependencies, dependencies.Keys + Elements(classes), treeData)
  {
    var cppClasses, mapping := CreateCppClasses(le, dependencies, classes);
    GraphFromEdges(le, dependencies, classes);
    BuiltIsDrawable(le, mapping, classes);
    treeData := DrawRoots(cppClasses, le, GraphFrom(le, dependencies, classes), mapping.entries, mapping.nodes);
    LaidOverLists(le, dependencies, classes, treeData);
  }

  lemma SameCounts(le: Order, lists: Lists, classes: seq<string>)
    requires TotalOrder(le)
    ensures var g := GraphFrom(le, lists, classes);
      forall n :: (if n in g then multiset(g[n]) else multiset{}) ==
                  (if n in lists then multiset(lists[n]) else multiset{})
  {
    GraphFromEdges(le, lists, classes);
  }

  /** What is said of the graph can be said of the lists. */
  lemma LaidOverLists(le: Order, lists: Lists, classes: seq<string>, trees: seq<TreeNode>)
    requires TotalOrder(le)
    requires var g := GraphFrom(le, lists, classes); LaidForest(le, g, g.Keys, trees)
    ensures LaidForest(le, lists, lists.Keys + Elements(classes), trees)
  {
    var g := GraphFrom(le, lists, classes);
    SameCounts(le, lists, classes);
    forall i | 0 <= i < |trees| ensures Laid(le, lists, trees[i]) {
      Relaid(le, g, lists, trees[i]);
    }
    forall c ensures c in Titles(trees) <==> c in lists.Keys + Elements(classes) && NeverDerived(lists, c) {
      RootIsNeverDerived(le, lists, classes, c);
    }
  }

  lemma RootIsNeverDerived(le: Order, lists: Lists, classes: seq<string>, c: string)
    requires TotalOrder(le)
    ensures var g := GraphFrom(le, lists, classes);
      c in g && (forall m | m in g :: c !in g[m]) <==>
      c in lists.Keys + Elements(classes) && NeverDerived(lists, c)
  {
    if c in GraphFrom(le, lists, classes) {
      RootsAreNeverDerived(le, lists, classes, c);
    }
  }
}
