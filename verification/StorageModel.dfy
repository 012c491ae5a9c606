/** What the storage means: per project a set of classes, a set of (derived, base) pairs and
    a set of (name, code) pairs. */
module StorageModel {
  datatype Facts = Facts(classes: set<string>, inherits: set<(string, string)>, sources: set<(string, string)>)

  type Model = map<string, Facts>

  datatype Operation =
    | PutProject(project: string)
    | AddInheritance(project: string, derived: string, base: string)
    | PutCode(project: string, name: string, code: string)
    | PutLabel(project: string, symbol: string)

  const NO_FACTS := Facts({}, {}, {})

  function Of(m: Model, project: string): Facts {
    if project in m then m[project] else NO_FACTS
  }

  function CodeTexts(f: Facts): set<string> {
    set pair | pair in f.sources :: pair.1
  }

  /** The text is a class or a code. */
  ghost predicate IsNode(f: Facts, text: string) {
    text in f.classes || text in CodeTexts(f)
  }

  /** No two codes are stored for the name. */
  ghost predicate HasOneCode(f: Facts, name: string) {
    forall p, q | p in f.sources && q in f.sources && p.0 == q.0 == name :: p == q
  }

  /** What the assertions of the storage demand of an operation in the state f of its
      project: no node is related to itself, and no text is both a class and a code. */
  predicate Acceptable(f: Facts, op: Operation) {
    match op
    case PutProject(_) => true
    case AddInheritance(_, derived, base) =>
      derived != base && derived !in CodeTexts(f) && base !in CodeTexts(f)
    case PutCode(_, name, code) =>
      name != code && name !in CodeTexts(f) && code !in f.classes
    case PutLabel(_, _) => true
  }

  function Update(f: Facts, op: Operation): Facts {
    match op
    case PutProject(_) => f
    case AddInheritance(_, derived, base) =>
      f.(classes := f.classes + {derived, base}, inherits := f.inherits + {(derived, base)})
    case PutCode(_, name, code) =>
      f.(classes := f.classes + {name}, sources := f.sources + {(name, code)})
    case PutLabel(_, symbol) =>
      // an existing node is returned whatever its kind
      if symbol in CodeTexts(f) then f else f.(classes := f.classes + {symbol})
  }

  function Execute(m: Model, op: Operation): Model {
    m[op.project := Update(Of(m, op.project), op)]
  }

  /** The operations in order; the second component says whether every assertion held. */
  function ExecuteAll(ops: seq<Operation>): (r: (Model, bool)) {
    if ops == [] then (map[], true)
    else
      var (m, ok) := ExecuteAll(ops[..|ops| - 1]);
      var op := ops[|ops| - 1];
      (Execute(m, op), ok && Acceptable(Of(m, op.project), op))
  }

  /** Every operation first makes sure that its project exists. */
  lemma ExecuteAfterPut(m: Model, op: Operation)
    ensures Of(Execute(m, PutProject(op.project)), op.project) == Of(m, op.project)
    ensures Execute(Execute(m, PutProject(op.project)), op) == Execute(m, op)
  {
  }

  // ---- the state in terms of the requests

  /** A pair is stored exactly if it was sent, whatever else was sent. */
  lemma {:induction false} PairsAreRequests(ops: seq<Operation>, project: string, derived: string, base: string)
    ensures (derived, base) in Of(ExecuteAll(ops).0, project).inherits <==>
            AddInheritance(project, derived, base) in ops
  {
    if ops != [] {
      var init, last := ops[..|ops| - 1], ops[|ops| - 1];
      assert ops == init + [last];
      PairsAreRequests(init, project, derived, base);
    }
  }

  /** A code of a name is stored exactly if it was sent, whatever else was sent. */
  lemma {:induction false} CodesAreRequests(ops: seq<Operation>, project: string, name: string, code: string)
    ensures (name, code) in Of(ExecuteAll(ops).0, project).sources <==> PutCode(project, name, code) in ops
  {
    if ops != [] {
      var init, last := ops[..|ops| - 1], ops[|ops| - 1];
      assert ops == init + [last];
      CodesAreRequests(init, project, name, code);
    }
  }

  /** Some request makes c a class: as derived class, as base, as owner of a code or by a
      label. */
  ghost predicate ClassRequested(ops: seq<Operation>, project: string, c: string) {
    || (exists base :: AddInheritance(project, c, base) in ops)
    || (exists derived :: AddInheritance(project, derived, c) in ops)
    || (exists code :: PutCode(project, c, code) in ops)
    || PutLabel(project, c) in ops
  }

  lemma OneRequestClass(op: Operation, project: string, c: string)
    ensures op.project == project && c in OwnClasses(op) <==> ClassRequested([op], project, c)
  {
    assert op in [op];
  }

  lemma RequestedIff(ops: seq<Operation>, project: string, c: string)
    ensures ClassRequested(ops, project, c) <==> exists op :: op in ops && ClassRequested([op], project, c)
  {
    if ClassRequested(ops, project, c) {
      if base :| AddInheritance(project, c, base) in ops {
        assert AddInheritance(project, c, base) in [AddInheritance(project, c, base)];
      } else if derived :| AddInheritance(project, derived, c) in ops {
        assert AddInheritance(project, derived, c) in [AddInheritance(project, derived, c)];
      } else if code :| PutCode(project, c, code) in ops {
        assert PutCode(project, c, code) in [PutCode(project, c, code)];
      } else {
        assert PutLabel(project, c) in [PutLabel(project, c)];
      }
    }
  }

  // ---- the state as a function of the facts

  function OpsOf(ops: seq<Operation>): set<Operation> {
    set op | op in ops
  }

  function ClassNames(ops: set<Operation>, project: string): set<string> {
    (set op | op in ops && op.AddInheritance? && op.project == project :: op.derived)
    + (set op | op in ops && op.AddInheritance? && op.project == project :: op.base)
    + (set op | op in ops && op.PutCode? && op.project == project :: op.name)
    + (set op | op in ops && op.PutLabel? && op.project == project :: op.symbol)
  }

  function Pairs(ops: set<Operation>, project: string): set<(string, string)> {
    set op | op in ops && op.AddInheritance? && op.project == project :: (op.derived, op.base)
  }

  function Codes(ops: set<Operation>, project: string): set<(string, string)> {
    set op | op in ops && op.PutCode? && op.project == project :: (op.name, op.code)
  }

  function FactsOf(ops: set<Operation>, project: string): Facts {
    Facts(ClassNames(ops, project), Pairs(ops, project), Codes(ops, project))
  }

  function ProjectNames(ops: set<Operation>): set<string> {
    set op | op in ops :: op.project
  }

  function ModelOf(ops: set<Operation>): (m: Model)
    ensures m.Keys == ProjectNames(ops) && forall project | project in m :: m[project] == FactsOf(ops, project)
  {
    map project | project in ProjectNames(ops) :: FactsOf(ops, project)
  }

  /** No class inherits from itself, and in no project is a text both a class and a code. */
  ghost predicate Clean(ops: set<Operation>) {
    && (forall op | op in ops && op.AddInheritance? :: op.derived != op.base)
    && (forall op | op in ops && op.PutCode? :: op.code !in ClassNames(ops, op.project))
  }

  lemma CleanSubset(ops: set<Operation>, more: set<Operation>)
    requires ops <= more && Clean(more)
    ensures Clean(ops)
  {
    forall op | op in ops && op.PutCode? ensures op.code !in ClassNames(ops, op.project) {
      assert op in more;
      assert ClassNames(ops, op.project) <= ClassNames(more, op.project);
    }
  }

  /** One more operation adds exactly its facts. */
  lemma FactsOfAdd(ops: set<Operation>, op: Operation)
    requires Clean(ops + {op})
    ensures FactsOf(ops + {op}, op.project) == Update(FactsOf(ops, op.project), op)
  {
    var all, p := ops + {op}, op.project;
    var f := FactsOf(ops, p);
    assert Pairs(all, p) == f.inherits + (if op.AddInheritance? then {(op.derived, op.base)} else {});
    assert Codes(all, p) == f.sources + (if op.PutCode? then {(op.name, op.code)} else {});
    ClassNamesAdd(ops, op);
    CodesAreNotClasses(ops, op);
  }

  lemma ClassNamesAdd(ops: set<Operation>, op: Operation)
    ensures ClassNames(ops + {op}, op.project) == ClassNames(ops, op.project) + OwnClasses(op)
  {
    forall c
      ensures c in ClassNames(ops + {op}, op.project) <==> c in ClassNames(ops, op.project) || c in OwnClasses(op)
    {
      NamesAClass(ops, op.project, c);
      NamesAClass(ops + {op}, op.project, c);
    }
  }

  /** The names of classes are those that some operation of the project names. */
  lemma NamesAClass(ops: set<Operation>, project: string, c: string)
    ensures c in ClassNames(ops, project) <==> exists op :: op in ops && op.project == project && c in OwnClasses(op)
  {
  }

  function OwnClasses(op: Operation): set<string> {
    match op
    case PutProject(_) => {}
    case AddInheritance(_, derived, base) => {derived, base}
    case PutCode(_, name, _) => {name}
    case PutLabel(_, symbol) => {symbol}
  }

  lemma CodesAreNotClasses(ops: set<Operation>, op: Operation)
    requires Clean(ops + {op})
    ensures CodeTexts(FactsOf(ops, op.project)) !! ClassNames(ops + {op}, op.project)
  {
    forall c | c in CodeTexts(FactsOf(ops, op.project)) ensures c !in ClassNames(ops + {op}, op.project) {
      var pair :| pair in Codes(ops, op.project) && pair.1 == c;
      var put :| put in ops && put.PutCode? && put.project == op.project && (put.name, put.code) == pair;
      assert put in ops + {op};
    }
  }

  lemma CleanIsAcceptable(ops: set<Operation>, op: Operation)
    requires Clean(ops + {op})
    ensures Acceptable(FactsOf(ops, op.project), op)
  {
    CodesAreNotClasses(ops, op);
    assert op in ops + {op};
    assert OwnClasses(op) <= ClassNames(ops + {op}, op.project);
    assert ClassNames(ops, op.project) <= ClassNames(ops + {op}, op.project);
  }

  lemma FactsOfOther(ops: set<Operation>, op: Operation, project: string)
    requires op.project != project
    ensures FactsOf(ops + {op}, project) == FactsOf(ops, project)
  {
    var all := ops + {op};
    assert Pairs(all, project) == Pairs(ops, project);
    assert Codes(all, project) == Codes(ops, project);
    assert ClassNames(all, project) == ClassNames(ops, project);
  }

  lemma NoFactsOf(ops: set<Operation>, project: string)
    requires forall op | op in ops :: op.project != project
    ensures FactsOf(ops, project) == NO_FACTS
  {
  }

  lemma OfModelOf(ops: set<Operation>, project: string)
    ensures Of(ModelOf(ops), project) == FactsOf(ops, project)
  {
    if project !in ProjectNames(ops) {
      NoFactsOf(ops, project);
    }
  }

  lemma ModelKeys(ops: set<Operation>, op: Operation)
    ensures Execute(ModelOf(ops), op).Keys == ModelOf(ops + {op}).Keys
  {
    assert ProjectNames(ops + {op}) == ProjectNames(ops) + {op.project};
  }

  lemma ModelEntry(ops: set<Operation>, op: Operation, project: string)
    requires Clean(ops + {op}) && project in Execute(ModelOf(ops), op)
    ensures Execute(ModelOf(ops), op)[project] == FactsOf(ops + {op}, project)
  {
    if project == op.project {
      OfModelOf(ops, op.project);
      FactsOfAdd(ops, op);
    } else {
      FactsOfOther(ops, op, project);
    }
  }

  lemma ExecuteOnModel(ops: set<Operation>, op: Operation)
    requires Clean(ops + {op})
    ensures Execute(ModelOf(ops), op) == ModelOf(ops + {op})
  {
    var m, r := Execute(ModelOf(ops), op), ModelOf(ops + {op});
    ModelKeys(ops, op);
    forall project | project in m ensures m[project] == r[project] {
      ModelEntry(ops, op, project);
    }
    assert m == r;
  }

  /** For clean facts no assertion fails and the final state is the one the set of facts
      describes, whatever the order and the repetitions. */
  lemma {:induction false} StateIsFunctionOfFacts(ops: seq<Operation>)
    requires Clean(OpsOf(ops))
    ensures ExecuteAll(ops) == (ModelOf(OpsOf(ops)), true)
  {
    if ops == [] {
      assert ModelOf(OpsOf(ops)) == map[];
    } else {
      var init, op := ops[..|ops| - 1], ops[|ops| - 1];
      assert OpsOf(ops) == OpsOf(init) + {op};
      CleanSubset(OpsOf(init), OpsOf(ops));
      StateIsFunctionOfFacts(init);
      CleanIsAcceptable(OpsOf(init), op);
      OfModelOf(OpsOf(init), op.project);
      ExecuteOnModel(OpsOf(init), op);
    }
  }

  /** For clean facts a name is a class exactly if some request makes it one. */
  lemma ClassesAreRequests(ops: seq<Operation>, project: string, c: string)
    requires Clean(OpsOf(ops))
    ensures c in Of(ExecuteAll(ops).0, project).classes <==> ClassRequested(ops, project, c)
  {
    StateIsFunctionOfFacts(ops);
    OfModelOf(OpsOf(ops), project);
    NamesAClass(OpsOf(ops), project, c);
    RequestedIff(ops, project, c);
    forall op: Operation ensures op.project == project && c in OwnClasses(op) <==> ClassRequested([op], project, c) {
      OneRequestClass(op, project, c);
    }
    assert forall op :: op in ops <==> op in OpsOf(ops);
  }

  /** Any order, interleaving and repetition of the same operations gives the same state. */
  lemma OrderDoesNotMatter(ops: seq<Operation>, others: seq<Operation>)
    requires OpsOf(ops) == OpsOf(others) && Clean(OpsOf(ops))
    ensures ExecuteAll(ops) == ExecuteAll(others) && ExecuteAll(ops).1
  {
    StateIsFunctionOfFacts(ops);
    StateIsFunctionOfFacts(others);
  }

  lemma {:induction false} FailureStays(first: seq<Operation>, more: seq<Operation>)
    requires !ExecuteAll(first).1
    ensures !ExecuteAll(first + more).1
  {
    if more == [] {
      assert first + more == first;
    } else {
      assert (first + more)[..|first + more| - 1] == first + more[..|more| - 1];
      FailureStays(first, more[..|more| - 1]);
    }
  }

  /** The class operation first, then the code operation it clashes with. */
  lemma ClashFails(op: Operation, put: Operation)
    requires put.PutCode? && op.project == put.project && put.code in OwnClasses(op)
    ensures !ExecuteAll([op, put]).1
  {
    assert [op, put][..1] == [op] && [op][..0] == [];
    assert ExecuteAll([op]).0 == Execute(map[], op);
    assert put.code in Of(Execute(map[], op), op.project).classes;
  }

  /** An operation that clashes with itself. */
  lemma SelfClashFails(op: Operation)
    requires (op.AddInheritance? && op.derived == op.base) || (op.PutCode? && op.code == op.name)
    ensures !ExecuteAll([op]).1
  {
    assert [op][..0] == [];
  }

  lemma TakeOut(ops: seq<Operation>, op: Operation) returns (rest: seq<Operation>)
    requires op in ops
    ensures multiset([op] + rest) == multiset(ops)
  {
    var i :| 0 <= i < |ops| && ops[i] == op;
    rest := ops[..i] + ops[i + 1..];
    assert ops == ops[..i] + [op] + ops[i + 1..];
  }

  /** Facts that are not clean fail in some order, each operation being executed as often as
      before: the operations that clash come first. */
  lemma UncleanFails(ops: seq<Operation>) returns (others: seq<Operation>)
    requires !Clean(OpsOf(ops))
    ensures multiset(others) == multiset(ops) && !ExecuteAll(others).1
  {
    if op :| op in OpsOf(ops) && op.AddInheritance? && op.derived == op.base {
      var rest := TakeOut(ops, op);
      SelfClashFails(op);
      FailureStays([op], rest);
      others := [op] + rest;
    } else {
      var put :| put in OpsOf(ops) && put.PutCode? && put.code in ClassNames(OpsOf(ops), put.project);
      var op :| op in OpsOf(ops) && op.project == put.project && put.code in OwnClasses(op);
      others := ClashFirst(ops, op, put);
    }
  }

  lemma ClashFirst(ops: seq<Operation>, op: Operation, put: Operation) returns (others: seq<Operation>)
    requires op in ops && put in ops && put.PutCode? && op.project == put.project && put.code in OwnClasses(op)
    ensures multiset(others) == multiset(ops) && !ExecuteAll(others).1
  {
    var rest := TakeOut(ops, op);
    if op == put {
      SelfClashFails(op);
      FailureStays([op], rest);
      others := [op] + rest;
    } else {
      assert put in multiset([op] + rest);
      var last := TakeOut(rest, put);
      ClashFails(op, put);
      FailureStays([op, put], last);
      others := [op, put] + last;
      assert others == [op] + ([put] + last);
      assert multiset(others) == multiset{op} + multiset([put] + last) == multiset([op] + rest);
    }
  }

  /** Every order of the same operations succeeds exactly when the facts are clean, whether
      or not operations may also be repeated. */
  lemma AllOrdersSucceedIffClean(ops: seq<Operation>)
    ensures Clean(OpsOf(ops)) <==> forall others | multiset(others) == multiset(ops) :: ExecuteAll(others).1
    ensures Clean(OpsOf(ops)) <==> forall others | OpsOf(others) == OpsOf(ops) :: ExecuteAll(others).1
  {
    forall others | multiset(others) == multiset(ops) ensures OpsOf(others) == OpsOf(ops) {
      forall op ensures op in others <==> op in ops {
        assert op in others <==> op in multiset(others);
        assert op in ops <==> op in multiset(ops);
      }
    }
    if Clean(OpsOf(ops)) {
      forall others | OpsOf(others) == OpsOf(ops) ensures ExecuteAll(others).1 {
        StateIsFunctionOfFacts(others);
      }
    } else {
      var others := UncleanFails(ops);
    }
  }

  /** An operation leaves every other project as it was, and never removes a fact. */
  lemma ExecuteFrames(m: Model, op: Operation, project: string)
    ensures project != op.project ==> (project in Execute(m, op) <==> project in m)
    ensures project != op.project ==> Of(Execute(m, op), project) == Of(m, project)
    ensures Of(m, project).classes <= Of(Execute(m, op), project).classes
    ensures Of(m, project).inherits <= Of(Execute(m, op), project).inherits
    ensures Of(m, project).sources <= Of(Execute(m, op), project).sources
  {
  }

  /** Without cleanness the order can matter: a label on a text that is already a code is
      dropped, while the same label given first makes the code an assertion failure. */
  lemma OrderMattersForClashes()
    ensures ExecuteAll([PutCode("p", "C", "x"), PutLabel("p", "x")]).1
    ensures !ExecuteAll([PutLabel("p", "x"), PutCode("p", "C", "x")]).1
  {
    var put, mark := PutCode("p", "C", "x"), PutLabel("p", "x");
    assert [put, mark][..1] == [put] && [put][..0] == [];
    assert [mark, put][..1] == [mark] && [mark][..0] == [];
    assert ExecuteAll([put]).1;
    assert "x" in Of(ExecuteAll([mark]).0, "p").classes;
  }
}
