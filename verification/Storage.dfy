/** The storage: interned strings and one project per name. Every operation is proved to
    do to the heap what the abstract state prescribes. */
module Storages {
  import opened StringPools
  import opened Entities
  import opened Projects
  import opened StorageModel

  datatype Result<+T> = Success(value: T) | NotFound

  datatype CodeAnswer = Answered(result: Result<string>) | Undefined

  datatype LabelKind = Record | OtherLabel

  type Cache = map<string, StringIndex>

  ghost predicate Pooled(cache: Cache, index: StringIndex) {
    index.text in cache && cache[index.text] == index
  }

  /** Nothing that was handed out changes its meaning. */
  ghost predicate Grows(cache: Cache, more: Cache) {
    forall t | t in cache :: t in more && more[t] == cache[t]
  }

  /** A valid project, all of whose names are pooled. */
  ghost predicate ProjectOk(cache: Cache, key: StringIndex, project: Project)
    reads project, project.symbols
  {
    Pooled(cache, key) && project.Valid() && forall n | n in project.nodeMap :: Pooled(cache, n)
  }

  /** No node is shared. */
  ghost predicate Separate(p: Project, q: Project)
    reads p, q
  {
    p != q && p.symbols !! q.symbols
  }

  lemma PoolGrows(cache: Cache, more: Cache, key: StringIndex, project: Project)
    requires ProjectOk(cache, key, project) && Grows(cache, more)
    ensures ProjectOk(more, key, project)
  {
  }

  class Storage {
    const pool: StringPool
    var projectMap: map<StringIndex, Project>
    ghost var owned: set<object>  // the footprint
    ghost var model: Model        // what the storage means

    ghost predicate Owned(key: StringIndex)
      requires key in projectMap
      reads this, projectMap[key]
    {
      projectMap[key] in owned && projectMap[key].symbols <= owned
    }

    ghost predicate Kept(key: StringIndex)
      requires key in projectMap
      reads this, pool, projectMap[key], projectMap[key].symbols
    {
      && ProjectOk(pool.cache, key, projectMap[key])
      && key.text in model && model[key.text] == projectMap[key].facts
    }

    ghost predicate Apart(key: StringIndex, other: StringIndex)
      requires key in projectMap && other in projectMap
      reads this, projectMap[key], projectMap[other]
    {
      Separate(projectMap[key], projectMap[other])
    }

    ghost predicate Known(name: string)
      reads this, pool
    {
      name in pool.cache && pool.cache[name] in projectMap
    }

    ghost predicate Valid()
      reads this, owned
    {
      && this !in owned && pool in owned && pool.Valid()
      && (forall key | key in projectMap :: projectMap[key] in owned)
      && (forall key {:trigger Owned(key)} | key in projectMap :: Owned(key))
      && (forall key {:trigger Owned(key)} {:trigger Kept(key)} | key in projectMap :: Owned(key) && Kept(key))
      && (forall key, other {:trigger Apart(key, other)} | key in projectMap && other in projectMap && key != other ::
            Apart(key, other))
      && (forall name {:trigger Known(name)} | name in model :: Known(name))
    }

    constructor ()
      ensures Valid() && fresh(owned) && model == map[]
    {
      pool := new StringPool();
      projectMap, model := map[], map[];
      owned := {pool};
    }

    /** Adds a string to the pool; nothing that was handed out or stored changes. */
    method Intern(text: string) returns (index: StringIndex)
      requires Valid()
      modifies pool
      ensures Valid() && Pooled(pool.cache, index) && index.text == text && Grows(old(pool.cache), pool.cache)
    {
      index := pool.EnsureStringInCache(text);
      forall key | key in projectMap ensures Owned(key) && Kept(key) {
        assert old(Owned(key) && Kept(key));
        PoolGrows(old(pool.cache), pool.cache, key, projectMap[key]);
      }
      forall key, other | key in projectMap && other in projectMap && key != other ensures Apart(key, other) {
        assert old(Apart(key, other));
      }
      forall name | name in model ensures Known(name) {
        assert old(Known(name));
      }
    }

    method AddProject(index: StringIndex) returns (project: Project)
      requires Valid() && Pooled(pool.cache, index) && index !in projectMap && index.text !in model
      modifies this
      ensures Valid() && projectMap == old(projectMap)[index := project]
      ensures fresh(project) && model == old(model)[index.text := NO_FACTS]
      ensures fresh(owned - old(owned))
    {
      project := new Project();
      projectMap := projectMap[index := project];
      owned := owned + {project};
      model := model[index.text := NO_FACTS];
      assert Owned(index) && Kept(index);
      OldOnesKept(index);
      NewOneApart(index);
      NamesStayKnown(index);
    }

    /** A step gave the key a project, a new one perhaps; the others are as they were. */
    twostate predicate OnlyOneDiffers(key: StringIndex)
      reads this
    {
      && projectMap.Keys == old(projectMap.Keys) + {key} && owned >= old(owned)
      && (forall k | k in old(projectMap) && k != key :: projectMap[k] == old(projectMap)[k])
      && model.Keys == old(model.Keys) + {key.text}
      && forall name | name in model && name != key.text :: model[name] == old(model)[name]
    }

    twostate lemma OldOnesKept(key: StringIndex)
      requires old(Valid()) && OnlyOneDiffers(key) && unchanged(pool) && Pooled(pool.cache, key)
      requires forall k | k in old(projectMap) && k != key ::
                 unchanged(old(projectMap)[k]) && unchanged(old(projectMap[k].symbols))
      ensures forall k {:trigger Owned(k)} {:trigger Kept(k)} | k in projectMap && k != key :: Owned(k) && Kept(k)
    {
      forall k | k in projectMap && k != key ensures Owned(k) && Kept(k) {
        assert old(Owned(k) && Kept(k));
        assert k.text != key.text;
      }
    }

    twostate lemma NewOneApart(key: StringIndex)
      requires old(Valid()) && OnlyOneDiffers(key) && key !in old(projectMap)
      requires fresh(projectMap[key]) && projectMap[key].symbols == {}
      requires forall k | k in old(projectMap) :: projectMap[k].symbols == old(projectMap[k].symbols)
      ensures forall k, other {:trigger Apart(k, other)} | k in projectMap && other in projectMap && k != other ::
                Apart(k, other)
    {
      forall k, other | k in projectMap && other in projectMap && k != other ensures Apart(k, other) {
        if k != key && other != key {
          assert old(Apart(k, other));
        } else {
          assert old(Owned(if k == key then other else k));
        }
      }
    }

    twostate lemma NamesStayKnown(key: StringIndex)
      requires old(Valid()) && OnlyOneDiffers(key) && unchanged(pool) && Pooled(pool.cache, key)
      ensures forall name {:trigger Known(name)} | name in model :: Known(name)
    {
      forall name | name in model ensures Known(name) {
        if name != key.text {
          assert old(Known(name));
        }
      }
    }

    /** The project of that name, a new and empty one if there is none. */
    method EnsureProject(index: StringIndex) returns (project: Project)
      requires Valid() && Pooled(pool.cache, index)
      modifies this
      ensures Valid() && model == Execute(old(model), StorageModel.PutProject(index.text))
      ensures index in projectMap && projectMap[index] == project && fresh(owned - old(owned))
      ensures forall k | k in old(projectMap) :: k in projectMap && projectMap[k] == old(projectMap)[k]
    {
      if index in projectMap {
        assert Kept(index);
        project := projectMap[index];
      } else {
        assert index.text in model ==> Known(index.text);
        project := AddProject(index);
      }
    }

    /** Storage::put_project: an existing project keeps everything. */
    method PutProject(name: string)
      requires Valid()
      modifies this, owned
      ensures Valid() && fresh(owned - old(owned)) && Grows(old(pool.cache), pool.cache)
      ensures model == Execute(old(model), StorageModel.PutProject(name))
      ensures forall other | other in old(projectMap) ::
                && other in projectMap && projectMap[other] == old(projectMap)[other]
                && unchanged(projectMap[other]) && unchanged(projectMap[other].symbols)
    {
      var index := Intern(name);
      var project := EnsureProject(index);
    }

    /** Of all owned objects only one project and its nodes may have changed. */
    twostate lemma OthersUntouched(key: StringIndex)
      requires old(Valid()) && key in old(projectMap)
      requires forall o | o in old(owned) && o != old(projectMap[key]) && o !in old(projectMap[key].symbols) ::
                 unchanged(o)
      ensures unchanged(pool)
      ensures forall other | other in old(projectMap) && other != key ::
                unchanged(old(projectMap[other])) && unchanged(old(projectMap[other].symbols))
    {
      forall other | other in old(projectMap) && other != key
        ensures unchanged(old(projectMap[other])) && unchanged(old(projectMap[other].symbols))
      {
        assert old(Apart(key, other) && Owned(other));
      }
    }

    /** New nodes of one project are not shared with another. */
    twostate lemma StillApart(key: StringIndex)
      requires old(Valid()) && key in projectMap && projectMap == old(projectMap)
      requires fresh(projectMap[key].symbols - old(projectMap[key].symbols))
      requires forall other | other in projectMap && other != key ::
                 projectMap[other].symbols == old(projectMap[other].symbols)
      ensures forall k, other {:trigger Apart(k, other)} | k in projectMap && other in projectMap && k != other ::
                Apart(k, other)
    {
      forall k, other | k in projectMap && other in projectMap && k != other ensures Apart(k, other) {
        assert old(Apart(k, other));
        assert old(Owned(k) && Owned(other));
      }
    }

    /** The project that was changed still has pooled names only. */
    twostate lemma ChangedIsKept(change: (StringIndex, StringIndex, StringIndex))
      requires change.0 in projectMap && projectMap == old(projectMap) && unchanged(pool) && old(Kept(change.0))
      requires projectMap[change.0].Valid()
      requires projectMap[change.0].nodeMap.Keys == old(projectMap[change.0].nodeMap.Keys) + {change.1, change.2}
      requires Pooled(pool.cache, change.1) && Pooled(pool.cache, change.2)
      requires model == old(model)[change.0.text := projectMap[change.0].facts]
      ensures Kept(change.0)
    {
      forall n | n in projectMap[change.0].nodeMap ensures Pooled(pool.cache, n) {
        assert n in old(projectMap[change.0].nodeMap) || n in {change.1, change.2};
      }
    }

    /** Only the project of one key was touched. It stayed valid on its own and got nodes for
        two pooled names at most. */
    twostate lemma OneProjectChanged(change: (StringIndex, StringIndex, StringIndex))
      requires old(Valid()) && change.0 in projectMap && projectMap == old(projectMap)
      requires forall o |
                 o in old(owned) && o != old(projectMap[change.0]) && o !in old(projectMap[change.0].symbols) ::
                 unchanged(o)
      requires projectMap[change.0].Valid()
      requires projectMap[change.0].nodeMap.Keys == old(projectMap[change.0].nodeMap.Keys) + {change.1, change.2}
      requires Pooled(pool.cache, change.1) && Pooled(pool.cache, change.2)
      requires fresh(projectMap[change.0].symbols - old(projectMap[change.0].symbols))
      requires owned == old(owned) + projectMap[change.0].symbols
      requires model == old(model)[change.0.text := projectMap[change.0].facts]
      ensures Valid()
    {
      var key := change.0;
      OthersUntouched(key);
      assert old(Owned(key) && Kept(key));
      ChangedIsKept(change);
      OldOnesKept(key);
      StillApart(key);
      NamesStayKnown(key);
    }

    /** What a project may rely on when it is handed pooled names. */
    lemma PooledIsKnown(key: StringIndex, name: StringIndex)
      requires Valid() && key in projectMap && Pooled(pool.cache, name)
      ensures projectMap[key].Knows(name)
    {
      assert Kept(key);
    }

    /** ensure_relationship on one project, whatever the others are. */
    method RelateIn(project: Project, source: StringIndex, target: StringIndex, kind: RelationshipKind,
                    ghost op: Operation)
      requires project.Valid() && this !in owned && project.symbols <= owned && Of(model, op.project) == project.facts
      requires project.Takes(op, source, target) && (kind == Inheritance <==> op.AddInheritance?)
      modifies this`owned, this`model, project, project.symbols
      ensures forall o | o in old(owned) && o != project && o !in old(project.symbols) :: unchanged(o)
      ensures project.Valid() && project.nodeMap.Keys == old(project.nodeMap.Keys) + {source, target}
      ensures fresh(project.symbols - old(project.symbols)) && owned == old(owned) + project.symbols
      ensures project.facts == Update(Of(old(model), op.project), op)
      ensures model == old(model)[op.project := project.facts]
    {
      model := Execute(model, op);
      project.Relate(source, target, kind, op);
      owned := owned + project.symbols;
    }

    /** ensure_relationship on the project of that key. */
    method Relate(key: StringIndex, source: StringIndex, target: StringIndex, kind: RelationshipKind,
                  ghost op: Operation)
      requires Valid() && key in projectMap && Pooled(pool.cache, source) && Pooled(pool.cache, target)
      requires op.project == key.text && projectMap[key].Takes(op, source, target)
      requires kind == Inheritance <==> op.AddInheritance?
      modifies this`owned, this`model, projectMap[key], projectMap[key].symbols
      ensures Valid() && model == Execute(old(model), op) && fresh(owned - old(owned))
      ensures forall other | other in old(projectMap) && other.text != key.text ::
                && other in projectMap && projectMap[other] == old(projectMap)[other]
                && unchanged(projectMap[other]) && unchanged(projectMap[other].symbols)
    {
      assert Owned(key) && Kept(key);
      RelateIn(projectMap[key], source, target, kind, op);
      OthersUntouched(key);
      OneProjectChanged((key, source, target));
    }

    /** The index of the project, which exists from now on, and the indices of two names. */
    method Resolve(projectName: string, first: string, second: string)
      returns (key: StringIndex, firstIndex: StringIndex, secondIndex: StringIndex)
      requires Valid()
      modifies this, pool
      ensures Valid() && fresh(owned - old(owned)) && Grows(old(pool.cache), pool.cache)
      ensures model == Execute(old(model), StorageModel.PutProject(projectName))
      ensures key.text == projectName && firstIndex.text == first && secondIndex.text == second
      ensures Pooled(pool.cache, firstIndex) && Pooled(pool.cache, secondIndex)
      ensures key in projectMap && projectMap[key] in owned && projectMap[key].symbols <= owned
      ensures projectMap[key].facts == Of(old(model), projectName)
      ensures projectMap[key].Knows(firstIndex) && projectMap[key].Knows(secondIndex)
      ensures forall k | k in old(projectMap) :: k in projectMap && projectMap[k] == old(projectMap)[k]
    {
      key := Intern(projectName);
      firstIndex := Intern(first);
      secondIndex := Intern(second);
      var project := EnsureProject(key);
      PooledIsKnown(key, firstIndex);
      PooledIsKnown(key, secondIndex);
      assert Kept(key) && Owned(key);
    }

    /** The same, with what callers of the storage need to know. */
    method RelateOnly(key: StringIndex, source: StringIndex, target: StringIndex, kind: RelationshipKind,
                      ghost op: Operation)
      requires Valid() && key in projectMap && Pooled(pool.cache, source) && Pooled(pool.cache, target)
      requires op.project == key.text && projectMap[key].Takes(op, source, target)
      requires kind == Inheritance <==> op.AddInheritance?
      modifies this`owned, this`model, owned - {pool}
      ensures Valid() && model == Execute(old(model), op) && fresh(owned - old(owned))
      ensures forall other | other in projectMap && other.text != op.project ::
                unchanged(projectMap[other]) && unchanged(projectMap[other].symbols)
    {
      assert Owned(key);
      Relate(key, source, target, kind, op);
    }

    /** Storage::add_inheritance. */
    method AddInheritance(projectName: string, derived: string, base: string)
      requires Valid() && Acceptable(Of(model, projectName), StorageModel.AddInheritance(projectName, derived, base))
      modifies this, owned
      ensures Valid() && fresh(owned - old(owned)) && Grows(old(pool.cache), pool.cache)
      ensures model == Execute(old(model), StorageModel.AddInheritance(projectName, derived, base))
      ensures forall other | other in old(projectMap) && other.text != projectName ::
                && other in projectMap && projectMap[other] == old(projectMap)[other]
                && unchanged(projectMap[other]) && unchanged(projectMap[other].symbols)
    {
      ghost var op := StorageModel.AddInheritance(projectName, derived, base);
      var key, baseIndex, derivedIndex := Resolve(projectName, base, derived);
      ExecuteAfterPut(old(model), op);
      RelateOnly(key, derivedIndex, baseIndex, Inheritance, op);
    }

    /** Storage::put_code. */
    method PutCode(projectName: string, name: string, code: string)
      requires Valid() && Acceptable(Of(model, projectName), StorageModel.PutCode(projectName, name, code))
      modifies this, owned
      ensures Valid() && fresh(owned - old(owned)) && Grows(old(pool.cache), pool.cache)
      ensures model == Execute(old(model), StorageModel.PutCode(projectName, name, code))
      ensures forall other | other in old(projectMap) && other.text != projectName ::
                && other in projectMap && projectMap[other] == old(projectMap)[other]
                && unchanged(projectMap[other]) && unchanged(projectMap[other].symbols)
    {
      ghost var op := StorageModel.PutCode(projectName, name, code);
      var key, nameIndex, codeIndex := Resolve(projectName, name, code);
      ExecuteAfterPut(old(model), op);
      RelateOnly(key, nameIndex, codeIndex, SourceCode, op);
    }

    /** ensure_node on one project, whatever the others are. */
    method MarkIn(project: Project, name: StringIndex, ghost projectName: string)
      requires project.Valid() && project.Knows(name) && this !in owned && project.symbols <= owned
      requires Of(model, projectName) == project.facts
      modifies this`owned, this`model, project
      ensures forall o | o in old(owned) && o != project && o !in old(project.symbols) :: unchanged(o)
      ensures project.Valid() && project.nodeMap.Keys == old(project.nodeMap.Keys) + {name}
      ensures fresh(project.symbols - old(project.symbols)) && owned == old(owned) + project.symbols
      ensures project.facts == Update(Of(old(model), projectName), StorageModel.PutLabel(projectName, name.text))
      ensures model == old(model)[projectName := project.facts]
    {
      model := Execute(model, StorageModel.PutLabel(projectName, name.text));
      project.EnsureLabelled(name);
      owned := owned + project.symbols;
    }

    /** ensure_node on the project of that key. */
    method Mark(key: StringIndex, name: StringIndex)
      requires Valid() && key in projectMap && Pooled(pool.cache, name) && projectMap[key].Knows(name)
      modifies this`owned, this`model, projectMap[key]
      ensures Valid() && model == Execute(old(model), StorageModel.PutLabel(key.text, name.text))
      ensures fresh(owned - old(owned))
      ensures forall other | other in old(projectMap) && other.text != key.text ::
                && other in projectMap && projectMap[other] == old(projectMap)[other]
                && unchanged(projectMap[other]) && unchanged(projectMap[other].symbols)
    {
      assert Owned(key) && Kept(key);
      MarkIn(projectMap[key], name, key.text);
      OthersUntouched(key);
      OneProjectChanged((key, name, name));
    }

    method EnsureMarked(key: StringIndex, name: StringIndex)
      requires Valid() && Pooled(pool.cache, key) && Pooled(pool.cache, name)
      modifies this, owned - {pool}
      ensures Valid() && fresh(owned - old(owned))
      ensures model == Execute(old(model), StorageModel.PutLabel(key.text, name.text))
      ensures forall other | other in old(projectMap) && other.text != key.text ::
                && other in projectMap && projectMap[other] == old(projectMap)[other]
                && unchanged(projectMap[other]) && unchanged(projectMap[other].symbols)
    {
      var project := EnsureProject(key);
      ExecuteAfterPut(old(model), StorageModel.PutLabel(key.text, name.text));
      PooledIsKnown(key, name);
      assert Owned(key);
      Mark(key, name);
    }

    /** Storage::put_label: only records are labelled; any other label is refused before
        the project is looked up. */
    method PutLabel(projectName: string, symbol: string, mark: LabelKind) returns (result: Result<()>)
      requires Valid()
      modifies this, owned
      ensures Valid() && fresh(owned - old(owned)) && Grows(old(pool.cache), pool.cache)
      ensures mark == Record ==>
                result == Success(()) && model == Execute(old(model), StorageModel.PutLabel(projectName, symbol))
      ensures mark != Record ==> result == NotFound && model == old(model)
      ensures forall other | other in old(projectMap) && other.text != projectName ::
                && other in projectMap && projectMap[other] == old(projectMap)[other]
                && unchanged(projectMap[other]) && unchanged(projectMap[other].symbols)
    {
      var key := Intern(projectName);
      var nameIndex := Intern(symbol);
      if mark != Record {
        return NotFound;
      }
      EnsureMarked(key, nameIndex);
      return Success(());
    }

    // ---- queries

    /** Storage::get_projects. The order of a map keyed by addresses is arbitrary. */
    method GetProjects() returns (list: seq<string>)
      requires Valid()
      ensures (set name | name in list) == model.Keys
      ensures forall i, j | 0 <= i < j < |list| :: list[i] != list[j]
    {
      list := [];
      var rest := projectMap.Keys;
      while rest != {}
        invariant rest <= projectMap.Keys
        invariant forall name | name in list :: exists key :: key in projectMap.Keys - rest && key.text == name
        invariant forall key | key in projectMap.Keys - rest :: key.text in list
        invariant forall i, j | 0 <= i < j < |list| :: list[i] != list[j]
        decreases rest
      {
        var key :| key in rest;
        forall other | other in projectMap.Keys - rest ensures other.text != key.text {
          assert Kept(other) && Kept(key);
        }
        assert key.text !in list;
        list := list + [key.text];
        rest := rest - {key};
      }
      forall name | name in model ensures name in list {
        assert Known(name) && Kept(pool.cache[name]);
      }
      forall name | name in list ensures name in model {
        var key :| key in projectMap && key.text == name;
        assert Kept(key);
      }
    }

    /** A pooled name is that of a project exactly when the model has the project. */
    lemma ProjectIsModelled(key: StringIndex)
      requires Valid() && Pooled(pool.cache, key)
      ensures key in projectMap <==> key.text in model
      ensures key in projectMap ==> projectMap[key].Valid() && model[key.text] == projectMap[key].facts
    {
      if key in projectMap {
        assert Kept(key);
      }
      if key.text in model {
        assert Known(key.text);
      }
    }

    /** Storage::get_inheritances. */
    method GetInheritances(projectName: string) returns (result: Result<seq<(string, string)>>)
      requires Valid()
      modifies pool
      ensures Valid() && Grows(old(pool.cache), pool.cache)
      ensures result == NotFound <==> projectName !in model
      ensures result.Success? ==>
                && (set pair | pair in result.value) == model[projectName].inherits
                && forall i, j | 0 <= i < j < |result.value| :: result.value[i] != result.value[j]
    {
      var key := Intern(projectName);
      ProjectIsModelled(key);
      if key !in projectMap {
        return NotFound;
      }
      var list := projectMap[key].CollectInheritances();
      return Success(list);
    }

    /** Storage::get_classes. */
    method GetClasses(projectName: string) returns (result: Result<seq<string>>)
      requires Valid()
      modifies pool
      ensures Valid() && Grows(old(pool.cache), pool.cache)
      ensures result == NotFound <==> projectName !in model
      ensures result.Success? ==>
                && (set name | name in result.value) == model[projectName].classes
                && forall i, j | 0 <= i < j < |result.value| :: result.value[i] != result.value[j]
    {
      var key := Intern(projectName);
      ProjectIsModelled(key);
      if key !in projectMap {
        return NotFound;
      }
      var list := projectMap[key].CollectClasses();
      return Success(list);
    }

    /** A pooled name is a node of its project exactly if the model knows it. */
    lemma NameIsNode(key: StringIndex, name: StringIndex)
      requires Valid() && key in projectMap && Pooled(pool.cache, name)
      ensures name in projectMap[key].nodeMap <==> IsNode(projectMap[key].facts, name.text)
    {
      assert Kept(key);
      projectMap[key].CodeNodesAreCodes();
      if IsNode(projectMap[key].facts, name.text) {
        var n :| n in projectMap[key].nodeMap && n.text == name.text;
        PooledIsKnown(key, name);
      }
      if name in projectMap[key].nodeMap {
        projectMap[key].KindOfText(name, projectMap[key].nodeMap[name].kind);
      }
    }

    /** Storage::get_code. The source has no defined answer when the project is known but the
        name is no node of it, for which it dereferences a null pointer, or when the name
        has several codes, for which an assertion fails. */
    method GetCode(projectName: string, name: string) returns (answer: CodeAnswer)
      requires Valid()
      modifies pool
      ensures Valid() && Grows(old(pool.cache), pool.cache)
      ensures answer == Undefined <==>
                projectName in model && !(IsNode(model[projectName], name) && HasOneCode(model[projectName], name))
      ensures forall code :: answer == Answered(Success(code)) ==>
                projectName in model && (name, code) in model[projectName].sources
      ensures answer == Answered(NotFound) ==>
                projectName !in model || forall code :: (name, code) !in model[projectName].sources
    {
      var key := Intern(projectName);
      var nameIndex := Intern(name);
      ProjectIsModelled(key);
      if key !in projectMap {
        return Answered(NotFound);
      }
      answer := CodeIn(key, nameIndex);
    }

    method CodeIn(key: StringIndex, name: StringIndex) returns (answer: CodeAnswer)
      requires Valid() && key in projectMap && Pooled(pool.cache, name)
      ensures var f := projectMap[key].facts;
              && (answer == Undefined <==> !(IsNode(f, name.text) && HasOneCode(f, name.text)))
              && (forall code :: answer == Answered(Success(code)) ==> (name.text, code) in f.sources)
              && (answer == Answered(NotFound) ==> forall code :: (name.text, code) !in f.sources)
    {
      NameIsNode(key, name);
      assert Kept(key);
      if name !in projectMap[key].nodeMap {
        return Undefined;
      }
      var single := projectMap[key].HasSingleCode(name);
      if !single {
        return Undefined;
      }
      var code := projectMap[key].GetCode(name);
      answer := Answered(if code == null then NotFound else Success(code.text));
    }
  }

  /** The server: requests are handled one after the other. Whatever the history, the storage
      means what the abstract state prescribes. */
  method Serve(operations: seq<Operation>) returns (storage: Storage)
    requires ExecuteAll(operations).1
    ensures fresh(storage.owned) && storage.Valid() && storage.model == ExecuteAll(operations).0
    ensures Clean(OpsOf(operations)) ==> storage.model == ModelOf(OpsOf(operations))
  {
    storage := new Storage();
    for i := 0 to |operations|
      invariant fresh(storage) && storage.Valid() && fresh(storage.owned)
      invariant storage.model == ExecuteAll(operations[..i]).0
    {
      PrefixSucceeds(operations, i + 1);
      assert operations[..i + 1][..i] == operations[..i];
      match operations[i]
      case PutProject(project) => storage.PutProject(project);
      case AddInheritance(project, derived, base) => storage.AddInheritance(project, derived, base);
      case PutCode(project, name, code) => storage.PutCode(project, name, code);
      case PutLabel(project, symbol) => var result := storage.PutLabel(project, symbol, Record);
    }
    assert operations[..|operations|] == operations;
    if Clean(OpsOf(operations)) {
      StateIsFunctionOfFacts(operations);
    }
  }

  lemma {:induction false} PrefixSucceeds(operations: seq<Operation>, n: nat)
    requires n <= |operations| && ExecuteAll(operations).1
    ensures ExecuteAll(operations[..n]).1
  {
    if n == |operations| {
      assert operations[..n] == operations;
    } else {
      assert operations[..|operations| - 1][..n] == operations[..n];
      PrefixSucceeds(operations[..|operations| - 1], n);
    }
  }
}
