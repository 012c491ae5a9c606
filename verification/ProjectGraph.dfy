/** Interned strings. An index is the identity of the pooled string. */
module StringPools {
  class StringIndex {
    const text: string

    constructor (text: string)
      ensures this.text == text
    {
      this.text := text;
    }
  }

  class StringPool {
    var cache: map<string, StringIndex>

    ghost predicate Valid()
      reads this
    {
      forall s | s in cache :: cache[s].text == s
    }

    constructor ()
      ensures Valid() && cache == map[]
    {
      cache := map[];
    }

    /** The one index of the text. Indices handed out earlier keep their meaning. */
    method EnsureStringInCache(text: string) returns (index: StringIndex)
      requires Valid()
      modifies this
      ensures Valid() && text in cache && cache[text] == index && index.text == text
      ensures text in old(cache) ==> cache == old(cache)
      ensures text !in old(cache) ==> fresh(index) && cache == old(cache)[text := index]
    {
      if text in cache {
        index := cache[text];
      } else {
        index := new StringIndex(text);
        cache := cache[text := index];
      }
    }

    /** Pooled indices are equal exactly when their texts are. */
    lemma IndexIsText(a: StringIndex, b: StringIndex)
      requires Valid() && a.text in cache && cache[a.text] == a && b.text in cache && cache[b.text] == b
      ensures a == b <==> a.text == b.text
    {
    }
  }
}

/** Symbols and the relationships between them. */
module Entities {
  import opened StringPools

  datatype SymbolKind = ClassNode | CodeNode
  datatype RelationshipKind = Inheritance | SourceCode

  class Relationship {
    const kind: RelationshipKind
    const source: Symbol
    const target: Symbol

    constructor (kind: RelationshipKind, source: Symbol, target: Symbol)
      ensures this.kind == kind && this.source == source && this.target == target
    {
      this.kind, this.source, this.target := kind, source, target;
    }
  }

  class Symbol {
    const kind: SymbolKind  // the dynamic type
    const name: StringIndex
    var relationships: map<RelationshipKind, seq<Relationship>>

    constructor (name: StringIndex, kind: SymbolKind)
      ensures this.name == name && this.kind == kind && relationships == map[]
    {
      this.name, this.kind := name, kind;
      relationships := map[];
    }

    /** Incoming and outgoing relationships of one kind, in order of creation. */
    function Related(kind: RelationshipKind): seq<Relationship>
      reads this
    {
      if kind in relationships then relationships[kind] else []
    }

    method AddRelationship(kind: RelationshipKind, relationship: Relationship)
      modifies this
      ensures Related(kind) == old(Related(kind)) + [relationship]
      ensures forall k: RelationshipKind | k != kind :: Related(k) == old(Related(k))
    {
      relationships := relationships[kind := Related(kind) + [relationship]];
    }

    /** The only relationship of the kind, if any; the source asserts that there is one. */
    method GetRelationship(kind: RelationshipKind) returns (relationship: Relationship?)
      requires |Related(kind)| <= 1
      ensures relationship == null <==> Related(kind) == []
      ensures relationship != null ==> Related(kind) == [relationship]
    {
      if kind in relationships && |relationships[kind]| > 0 {
        return relationships[kind][0];
      }
      return null;
    }
  }
}

/** One project: the owner of its symbols and relationships. */
module Projects {
  import opened StringPools
  import opened Entities
  import opened StorageModel

  type NodeMap = map<StringIndex, Symbol>

  /** The list holds exactly the owned relationships of one kind that the symbol belongs to,
      as source or as target, each once. */
  ghost predicate IndexAgrees(owned: set<Relationship>, symbol: Symbol, kind: RelationshipKind,
                              list: seq<Relationship>) {
    && (forall i | 0 <= i < |list| ::
          list[i] in owned && list[i].kind == kind && (list[i].source == symbol || list[i].target == symbol))
    && (forall r | r in owned && r.kind == kind && (r.source == symbol || r.target == symbol) :: r in list)
    && (forall i, j | 0 <= i < j < |list| :: list[i] != list[j])
  }

  ghost predicate Owns(nodes: NodeMap, symbol: Symbol) {
    symbol.name in nodes && nodes[symbol.name] == symbol
  }

  /** Inheritances link class to class, source codes class to code, and nothing to itself. */
  ghost predicate WellTyped(nodes: NodeMap, r: Relationship) {
    && Owns(nodes, r.source) && Owns(nodes, r.target) && r.source != r.target && r.source.kind == ClassNode
    && r.target.kind == if r.kind == Inheritance then ClassNode else CodeNode
  }

  function Other(kind: SymbolKind): SymbolKind {
    if kind == ClassNode then CodeNode else ClassNode
  }

  /** Every code text belongs to some (name, code) pair. */
  ghost predicate Covered(codes: set<string>, pairs: set<(string, string)>) {
    forall t | t in codes :: exists pair :: pair in pairs && pair.1 == t
  }

  lemma CoveredGrows(codes: set<string>, pairs: set<(string, string)>, name: string, code: string)
    requires Covered(codes, pairs)
    ensures Covered(codes + {code}, pairs + {(name, code)})
  {
    assert (name, code) in pairs + {(name, code)};
  }

  ghost predicate SameEnds(r: Relationship, q: Relationship) {
    r.kind == q.kind && r.source == q.source && r.target == q.target
  }

  /** Each name has one node, each text one name. */
  ghost predicate NodesOk(nodes: NodeMap) {
    && (forall n | n in nodes :: nodes[n].name == n)
    && (forall n, m | n in nodes && m in nodes && n.text == m.text :: n == m)
  }

  ghost predicate EdgesOk(nodes: NodeMap, owned: set<Relationship>) {
    && (forall r | r in owned :: WellTyped(nodes, r))
    && (forall r, q | r in owned && q in owned && SameEnds(r, q) :: r == q)
  }

  ghost function TextsOf(nodes: NodeMap, kind: SymbolKind): set<string> {
    set n | n in nodes && nodes[n].kind == kind :: n.text
  }

  function PairOf(r: Relationship): (string, string) {
    (r.source.name.text, r.target.name.text)
  }

  ghost function PairsOf(owned: set<Relationship>, kind: RelationshipKind): set<(string, string)> {
    set r | r in owned && r.kind == kind :: PairOf(r)
  }

  /** The lists of one symbol after the relationship r was created. */
  lemma IndexGrows(owned: set<Relationship>, symbol: Symbol, kind: RelationshipKind, list: seq<Relationship>,
                   r: Relationship)
    requires IndexAgrees(owned, symbol, kind, list) && r !in owned
    ensures IndexAgrees(owned + {r}, symbol, kind,
                        if kind == r.kind && (symbol == r.source || symbol == r.target) then list + [r] else list)
  {
  }

  /** A node that nothing refers to joins the others. */
  lemma NewNode(nodes: NodeMap, owned: set<Relationship>, symbol: Symbol)
    requires NodesOk(nodes) && EdgesOk(nodes, owned) && symbol.name !in nodes
    requires forall n | n in nodes :: n.text != symbol.name.text && nodes[n] != symbol
    ensures NodesOk(nodes[symbol.name := symbol]) && EdgesOk(nodes[symbol.name := symbol], owned)
    ensures forall kind :: IndexAgrees(owned, symbol, kind, [])
  {
    forall r | r in owned
      ensures r.source != symbol && r.target != symbol && WellTyped(nodes[symbol.name := symbol], r)
    {
      assert WellTyped(nodes, r);
    }
  }

  lemma EdgesGrow(nodes: NodeMap, owned: set<Relationship>, r: Relationship)
    requires EdgesOk(nodes, owned) && WellTyped(nodes, r) && forall q | q in owned :: !SameEnds(q, r)
    ensures EdgesOk(nodes, owned + {r})
  {
  }

  lemma PairsGrow(owned: set<Relationship>, r: Relationship)
    ensures PairsOf(owned + {r}, r.kind) == PairsOf(owned, r.kind) + {PairOf(r)}
    ensures forall k: RelationshipKind | k != r.kind :: PairsOf(owned + {r}, k) == PairsOf(owned, k)
  {
  }

  lemma TextsGrow(nodes: NodeMap, name: StringIndex, symbol: Symbol)
    requires name !in nodes
    ensures TextsOf(nodes[name := symbol], symbol.kind) == TextsOf(nodes, symbol.kind) + {name.text}
    ensures forall k: SymbolKind | k != symbol.kind :: TextsOf(nodes[name := symbol], k) == TextsOf(nodes, k)
  {
    var grown := nodes[name := symbol];
    forall k: SymbolKind, t: string
      ensures t in TextsOf(grown, k) <==> t in TextsOf(nodes, k) || (k == symbol.kind && t == name.text)
    {
      if t in TextsOf(nodes, k) {
        var n :| n in nodes && nodes[n].kind == k && n.text == t;
        assert n in grown && grown[n] == nodes[n];
      }
      assert name in grown;
    }
  }

  class Project {
    var nodeMap: NodeMap
    var relationshipMap: set<Relationship>
    ghost var symbols: set<Symbol>  // the footprint: every node of the project
    ghost var facts: Facts          // what the project means

    /** The lists of one node agree with the owned relationships. */
    ghost predicate IndexOk(n: StringIndex)
      requires n in nodeMap
      reads this`nodeMap, this`relationshipMap, nodeMap[n]
    {
      forall kind :: IndexAgrees(relationshipMap, nodeMap[n], kind, nodeMap[n].Related(kind))
    }

    /** What every operation keeps, up to code nodes that are still without an edge. */
    ghost predicate Consistent()
      reads this`nodeMap, this`relationshipMap, this`symbols, symbols
    {
      && (forall n | n in nodeMap :: nodeMap[n] in symbols)
      && NodesOk(nodeMap) && EdgesOk(nodeMap, relationshipMap)
      && (forall n {:trigger IndexOk(n)} | n in nodeMap :: IndexOk(n))
    }

    ghost predicate Valid()
      reads this, symbols
    {
      Consistent() && Covered(Texts(CodeNode), Pairs(SourceCode)) && facts == View()
    }

    ghost function Texts(kind: SymbolKind): set<string>
      reads this`nodeMap
    {
      TextsOf(nodeMap, kind)
    }

    ghost function Pairs(kind: RelationshipKind): set<(string, string)>
      reads this`relationshipMap
    {
      PairsOf(relationshipMap, kind)
    }

    ghost function View(): Facts
      reads this
    {
      Facts(Texts(ClassNode), Pairs(Inheritance), Pairs(SourceCode))
    }

    /** Only one index stands for the text of the name. */
    ghost predicate Knows(name: StringIndex)
      reads this
    {
      forall n | n in nodeMap && n.text == name.text :: n == name
    }

    constructor ()
      ensures Valid() && nodeMap == map[] && relationshipMap == {} && symbols == {} && facts == NO_FACTS
    {
      nodeMap, relationshipMap, symbols, facts := map[], {}, {}, NO_FACTS;
    }

    /** Returns the node of that name, whatever its kind, or adds one of the given kind. */
    method EnsureNode(name: StringIndex, kind: SymbolKind) returns (symbol: Symbol)
      requires Consistent() && Knows(name)
      modifies this`nodeMap, this`symbols
      ensures Consistent() && Owns(nodeMap, symbol) && symbol.name == name
      ensures name in old(nodeMap) ==> nodeMap == old(nodeMap) && symbols == old(symbols)
      ensures name !in old(nodeMap) ==>
                && fresh(symbol) && symbol.kind == kind && nodeMap == old(nodeMap)[name := symbol]
                && symbols == old(symbols) + {symbol}
    {
      if name in nodeMap {
        return nodeMap[name];
      }
      symbol := new Symbol(name, kind);
      NewNode(nodeMap, relationshipMap, symbol);
      nodeMap, symbols := nodeMap[name := symbol], symbols + {symbol};
      forall n | n in nodeMap ensures IndexOk(n) {
        if n != name {
          assert old(IndexOk(n));
        }
      }
    }

    /** Scans the mixed list of the source for an edge to the target. */
    method Scan(source: Symbol, target: Symbol, kind: RelationshipKind) returns (found: Relationship?)
      requires Consistent() && Owns(nodeMap, source) && source != target
      ensures found != null ==>
                found in relationshipMap && found.kind == kind && found.source == source && found.target == target
      ensures found == null ==>
                forall r | r in relationshipMap :: !(r.kind == kind && r.source == source && r.target == target)
    {
      var list := source.Related(kind);
      assert IndexOk(source.name) && IndexAgrees(relationshipMap, source, kind, list);
      for i := 0 to |list|
        invariant forall j | 0 <= j < i :: list[j].target != target
      {
        if list[i].target == target {
          return list[i];
        }
      }
      return null;
    }

    /** Creates a relationship that the project does not own yet. */
    method AddRelationship(source: Symbol, target: Symbol, kind: RelationshipKind)
      requires Consistent() && Owns(nodeMap, source) && Owns(nodeMap, target) && source != target
      requires source.kind == ClassNode && target.kind == if kind == Inheritance then ClassNode else CodeNode
      requires forall r | r in relationshipMap :: !(r.kind == kind && r.source == source && r.target == target)
      modifies this`relationshipMap, source, target
      ensures Consistent() && nodeMap == old(nodeMap)
      ensures Pairs(kind) == old(Pairs(kind)) + {(source.name.text, target.name.text)}
      ensures forall k: RelationshipKind | k != kind :: Pairs(k) == old(Pairs(k))
    {
      ghost var owned := relationshipMap;
      var r := new Relationship(kind, source, target);
      relationshipMap := relationshipMap + {r};
      source.AddRelationship(kind, r);
      target.AddRelationship(kind, r);
      EdgesGrow(nodeMap, owned, r);
      PairsGrow(owned, r);
      forall n | n in nodeMap ensures IndexOk(n) {
        assert old(IndexOk(n));
        forall k ensures IndexAgrees(relationshipMap, nodeMap[n], k, nodeMap[n].Related(k)) {
          IndexGrows(owned, nodeMap[n], k, old(nodeMap[n].Related(k)), r);
        }
      }
    }

    /** Creates the relationship unless it exists already. */
    method EnsureRelationship(source: Symbol, target: Symbol, kind: RelationshipKind)
      requires Consistent() && Owns(nodeMap, source) && Owns(nodeMap, target) && source != target
      requires source.kind == ClassNode && target.kind == if kind == Inheritance then ClassNode else CodeNode
      modifies this`relationshipMap, source, target
      ensures Consistent() && nodeMap == old(nodeMap)
      ensures Pairs(kind) == old(Pairs(kind)) + {(source.name.text, target.name.text)}
      ensures forall k: RelationshipKind | k != kind :: Pairs(k) == old(Pairs(k))
    {
      var found := Scan(source, target, kind);
      if found != null {
        assert PairOf(found) == (source.name.text, target.name.text);
        return;
      }
      AddRelationship(source, target, kind);
    }

    /** The code nodes are the codes of the (name, code) pairs. */
    lemma CodeNodesAreCodes()
      requires Valid()
      ensures CodeTexts(facts) == Texts(CodeNode)
    {
      forall pair | pair in Pairs(SourceCode) ensures pair.1 in Texts(CodeNode) {
        var r :| r in relationshipMap && r.kind == SourceCode && PairOf(r) == pair;
        assert WellTyped(nodeMap, r);
      }
    }

    lemma KindOfText(name: StringIndex, kind: SymbolKind)
      requires Consistent() && name in nodeMap
      ensures name.text in Texts(kind) <==> nodeMap[name].kind == kind
    {
    }

    /** EnsureNode for a name that no node of another kind bears. */
    method EnsureTypedNode(name: StringIndex, kind: SymbolKind) returns (symbol: Symbol)
      requires Consistent() && Knows(name) && name.text !in Texts(Other(kind))
      modifies this`nodeMap, this`symbols
      ensures Consistent() && Owns(nodeMap, symbol) && symbol.name == name && symbol.kind == kind
      ensures fresh(symbols - old(symbols)) && nodeMap.Keys == old(nodeMap.Keys) + {name}
      ensures forall n | n in old(nodeMap) :: nodeMap[n] == old(nodeMap)[n]
      ensures Texts(kind) == old(Texts(kind)) + {name.text}
      ensures Texts(Other(kind)) == old(Texts(Other(kind)))
    {
      ghost var nodes := nodeMap;
      if name in nodeMap {
        KindOfText(name, nodeMap[name].kind);
      }
      symbol := EnsureNode(name, kind);
      if name !in nodes {
        TextsGrow(nodes, name, symbol);
      }
    }

    method EnsureEnds(source: StringIndex, target: StringIndex, targetKind: SymbolKind)
      returns (sourceNode: Symbol, targetNode: Symbol)
      requires Consistent() && Knows(source) && Knows(target) && source.text != target.text
      requires source.text !in Texts(CodeNode) && target.text !in Texts(Other(targetKind))
      modifies this`nodeMap, this`symbols
      ensures Consistent() && fresh(symbols - old(symbols))
      ensures nodeMap.Keys == old(nodeMap.Keys) + {source, target}
      ensures Owns(nodeMap, sourceNode) && sourceNode.name == source && sourceNode.kind == ClassNode
      ensures Owns(nodeMap, targetNode) && targetNode.name == target && targetNode.kind == targetKind
      ensures Texts(ClassNode) ==
              old(Texts(ClassNode)) + {source.text} + if targetKind == ClassNode then {target.text} else {}
      ensures Texts(CodeNode) == old(Texts(CodeNode)) + if targetKind == CodeNode then {target.text} else {}
    {
      sourceNode := EnsureTypedNode(source, ClassNode);
      targetNode := EnsureTypedNode(target, targetKind);
    }

    /** Ensures both nodes and the relationship between them. */
    method EnsureNamedRelationship(source: StringIndex, sourceKind: SymbolKind,
                                   target: StringIndex, targetKind: SymbolKind, kind: RelationshipKind)
      requires Valid() && Knows(source) && Knows(target) && source.text != target.text
      requires sourceKind == ClassNode && targetKind == if kind == Inheritance then ClassNode else CodeNode
      requires source.text !in Texts(CodeNode) && target.text !in Texts(Other(targetKind))
      modifies this, symbols
      ensures Valid() && fresh(symbols - old(symbols))
      ensures nodeMap.Keys == old(nodeMap.Keys) + {source, target}
      ensures Texts(ClassNode) ==
              old(Texts(ClassNode)) + {source.text} + if targetKind == ClassNode then {target.text} else {}
      ensures Pairs(kind) == old(Pairs(kind)) + {(source.text, target.text)}
      ensures forall k: RelationshipKind | k != kind :: Pairs(k) == old(Pairs(k))
    {
      var sourceNode, targetNode := EnsureEnds(source, target, targetKind);
      EnsureRelationship(sourceNode, targetNode, kind);
      facts := View();
      CoveredGrows(old(Texts(CodeNode)), old(Pairs(SourceCode)), source.text, target.text);
    }

    /** The operation is acceptable in the current state and its names are known. */
    ghost predicate Takes(op: Operation, source: StringIndex, target: StringIndex)
      reads this
    {
      && Knows(source) && Knows(target) && Acceptable(facts, op)
      && match op
         case AddInheritance(_, derived, base) => source.text == derived && target.text == base
         case PutCode(_, name, code) => source.text == name && target.text == code
         case _ => false
    }

    /** The effect of ensure_relationship on what the project means. */
    method Relate(source: StringIndex, target: StringIndex, kind: RelationshipKind, ghost op: Operation)
      requires Valid() && Takes(op, source, target) && (kind == Inheritance <==> op.AddInheritance?)
      modifies this, symbols
      ensures Valid() && fresh(symbols - old(symbols))
      ensures nodeMap.Keys == old(nodeMap.Keys) + {source, target}
      ensures facts == Update(old(facts), op)
    {
      CodeNodesAreCodes();
      var targetKind := if kind == Inheritance then ClassNode else CodeNode;
      EnsureNamedRelationship(source, ClassNode, target, targetKind, kind);
    }

    /** A label makes its symbol a class node, unless the text is already a node. */
    method EnsureLabelled(name: StringIndex)
      requires Valid() && Knows(name)
      modifies this`nodeMap, this`symbols, this`facts
      ensures Valid() && fresh(symbols - old(symbols))
      ensures nodeMap.Keys == old(nodeMap.Keys) + {name}
      ensures forall project :: facts == Update(old(facts), PutLabel(project, name.text))
    {
      CodeNodesAreCodes();
      ghost var nodes := nodeMap;
      if name in nodeMap {
        KindOfText(name, CodeNode);
        KindOfText(name, ClassNode);
        assert Texts(ClassNode) + {name.text} == Texts(ClassNode) || name.text in Texts(CodeNode);
      } else {
        assert name.text !in Texts(CodeNode);
      }
      var symbol := EnsureNode(name, ClassNode);
      if name !in nodes {
        TextsGrow(nodes, name, symbol);
        assert Texts(CodeNode) == old(Texts(CodeNode));
      }
      facts := View();
    }

    /** Two owned relationships of one kind have different pairs of texts. */
    lemma PairsAreDistinct(r: Relationship, q: Relationship)
      requires Consistent() && r in relationshipMap && q in relationshipMap
      requires r.kind == q.kind && PairOf(r) == PairOf(q)
      ensures r == q
    {
      assert WellTyped(nodeMap, r) && WellTyped(nodeMap, q);
      assert SameEnds(r, q);
    }

    /** for_each_typed_relationship<Inheritance>, collecting the pairs of names. The order of
        a map keyed by addresses is arbitrary. */
    method CollectInheritances() returns (list: seq<(string, string)>)
      requires Valid()
      ensures (set pair | pair in list) == Pairs(Inheritance)
      ensures forall i, j | 0 <= i < j < |list| :: list[i] != list[j]
    {
      list := [];
      var rest := relationshipMap;
      while rest != {}
        invariant rest <= relationshipMap
        invariant forall pair | pair in list ::
                    exists r :: r in relationshipMap - rest && r.kind == Inheritance && PairOf(r) == pair
        invariant forall r | r in relationshipMap - rest && r.kind == Inheritance :: PairOf(r) in list
        invariant forall i, j | 0 <= i < j < |list| :: list[i] != list[j]
        decreases rest
      {
        var r :| r in rest;
        if r.kind == Inheritance {
          assert WellTyped(nodeMap, r);
          assert r.source.kind == ClassNode && r.target.kind == ClassNode;
          if PairOf(r) in list {
            var q :| q in relationshipMap - rest && q.kind == Inheritance && PairOf(q) == PairOf(r);
            PairsAreDistinct(r, q);
            assert false;
          }
          list := list + [PairOf(r)];
        }
        rest := rest - {r};
      }
    }

    /** for_each_typed_node<ClassSymbol>, collecting the names. */
    method CollectClasses() returns (list: seq<string>)
      requires Valid()
      ensures (set name | name in list) == Texts(ClassNode)
      ensures forall i, j | 0 <= i < j < |list| :: list[i] != list[j]
    {
      list := [];
      var rest := nodeMap.Keys;
      while rest != {}
        invariant rest <= nodeMap.Keys
        invariant forall name | name in list ::
                    exists n :: n in nodeMap.Keys - rest && nodeMap[n].kind == ClassNode && n.text == name
        invariant forall n | n in nodeMap.Keys - rest && nodeMap[n].kind == ClassNode :: n.text in list
        invariant forall i, j | 0 <= i < j < |list| :: list[i] != list[j]
        decreases rest
      {
        var n :| n in rest;
        if nodeMap[n].kind == ClassNode {
          assert nodeMap[n].name == n;
          assert n.text !in list;
          list := list + [nodeMap[n].name.text];
        }
        rest := rest - {n};
      }
    }

    /** The source code edges of a class with at most one code are at most one. */
    lemma OneCodeOneEdge(symbol: Symbol)
      requires Valid() && Owns(nodeMap, symbol) && symbol.kind == ClassNode
      requires forall p, q | p in Pairs(SourceCode) && q in Pairs(SourceCode) && p.0 == q.0 == symbol.name.text ::
                 p == q
      ensures var list := symbol.Related(SourceCode);
              && |list| <= 1
              && (forall r | r in list :: r.kind == SourceCode && r.source == symbol && WellTyped(nodeMap, r)
                                          && PairOf(r) in Pairs(SourceCode))
              && (list == [] ==> forall p | p in Pairs(SourceCode) :: p.0 != symbol.name.text)
    {
      var list := symbol.Related(SourceCode);
      assert IndexOk(symbol.name) && IndexAgrees(relationshipMap, symbol, SourceCode, list);
      forall i | 0 <= i < |list|
        ensures list[i].source == symbol && WellTyped(nodeMap, list[i]) && PairOf(list[i]) in Pairs(SourceCode)
      {
        assert WellTyped(nodeMap, list[i]);
      }
      if |list| > 1 {
        PairsAreDistinct(list[0], list[1]);
      }
      forall p | p in Pairs(SourceCode) && p.0 == symbol.name.text ensures list != [] {
        var r :| r in relationshipMap && r.kind == SourceCode && PairOf(r) == p;
        assert WellTyped(nodeMap, r) && r in list;
      }
    }

    /** A class with one source code edge at most has one code at most. */
    lemma OneEdgeOneCode(symbol: Symbol)
      requires Valid() && Owns(nodeMap, symbol) && symbol.kind == ClassNode && |symbol.Related(SourceCode)| <= 1
      ensures HasOneCode(facts, symbol.name.text)
    {
      var list := symbol.Related(SourceCode);
      assert IndexOk(symbol.name) && IndexAgrees(relationshipMap, symbol, SourceCode, list);
      forall p, q | p in Pairs(SourceCode) && q in Pairs(SourceCode) && p.0 == q.0 == symbol.name.text ensures p == q {
        var r :| r in relationshipMap && r.kind == SourceCode && PairOf(r) == p;
        var s :| s in relationshipMap && s.kind == SourceCode && PairOf(s) == q;
        assert WellTyped(nodeMap, r) && WellTyped(nodeMap, s);
        assert r in list && s in list;
      }
    }

    /** Code nodes have no code of their own. */
    lemma CodeHasNoCode(name: StringIndex)
      requires Valid() && name in nodeMap && nodeMap[name].kind != ClassNode
      ensures forall p | p in Pairs(SourceCode) :: p.0 != name.text
    {
      forall p | p in Pairs(SourceCode) ensures p.0 != name.text {
        var r :| r in relationshipMap && r.kind == SourceCode && PairOf(r) == p;
        assert WellTyped(nodeMap, r);
      }
    }

    /** Whether the assertion on the number of relationships holds for a node. */
    method HasSingleCode(name: StringIndex) returns (single: bool)
      requires Valid() && name in nodeMap
      ensures single <==> HasOneCode(facts, name.text)
    {
      var symbol := nodeMap[name];
      if symbol.kind != ClassNode {
        CodeHasNoCode(name);
        return true;
      }
      single := |symbol.Related(SourceCode)| <= 1;
      if single {
        OneEdgeOneCode(symbol);
      } else if HasOneCode(facts, name.text) {
        OneCodeOneEdge(symbol);
      }
    }

    /** The code of a node that exists and has at most one code. */
    method GetCode(name: StringIndex) returns (code: StringIndex?)
      requires Valid() && name in nodeMap
      requires forall p, q | p in Pairs(SourceCode) && q in Pairs(SourceCode) && p.0 == q.0 == name.text :: p == q
      ensures code != null ==> (name.text, code.text) in Pairs(SourceCode)
      ensures code == null ==> forall p | p in Pairs(SourceCode) :: p.0 != name.text
    {
      var symbol := nodeMap[name];
      if symbol.kind != ClassNode {
        CodeHasNoCode(name);
        return null;
      }
      OneCodeOneEdge(symbol);
      var relationship := symbol.GetRelationship(SourceCode);
      if relationship == null {
        return null;
      }
      assert relationship in symbol.Related(SourceCode);
      assert relationship.target.kind == CodeNode;
      code := relationship.target.name;
    }
  }
}
