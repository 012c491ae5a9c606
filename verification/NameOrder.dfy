/** Sorting by name. Name comparison is an abstract total order. */
module NameOrder {
  type Order = (string, string) -> bool

  ghost predicate TotalOrder(le: Order) {
    && (forall a, b :: le(a, b) || le(b, a))
    && (forall a, b | le(a, b) && le(b, a) :: a == b)
    && (forall a, b, c | le(a, b) && le(b, c) :: le(a, c))
  }

  predicate Sorted(le: Order, s: seq<string>) {
    forall i, j | 0 <= i < j < |s| :: le(s[i], s[j])
  }

  function Insert(le: Order, x: string, s: seq<string>): seq<string> {
    if s == [] then [x] else if le(x, s[0]) then [x] + s else [s[0]] + Insert(le, x, s[1..])
  }

  function Sort(le: Order, s: seq<string>): seq<string> {
    if s == [] then [] else Insert(le, s[0], Sort(le, s[1..]))
  }

  lemma {:induction false} InsertAdds(le: Order, x: string, s: seq<string>)
    ensures multiset(Insert(le, x, s)) == multiset(s) + multiset{x}
  {
    if s != [] {
      assert s == [s[0]] + s[1..];
      InsertAdds(le, x, s[1..]);
    }
  }

  lemma {:induction false} InsertKeeps(le: Order, x: string, s: seq<string>)
    requires TotalOrder(le) && Sorted(le, s)
    ensures Sorted(le, Insert(le, x, s)) && multiset(Insert(le, x, s)) == multiset(s) + multiset{x}
  {
    InsertAdds(le, x, s);
    if s != [] && !le(x, s[0]) {
      InsertKeeps(le, x, s[1..]);
      InsertAdds(le, x, s[1..]);
      forall y | y in Insert(le, x, s[1..]) ensures le(s[0], y) {
        assert y in multiset(s[1..]) + multiset{x};
      }
    }
  }

  /** Sorting orders the names and loses none. */
  lemma {:induction false} SortSorts(le: Order, s: seq<string>)
    requires TotalOrder(le)
    ensures Sorted(le, Sort(le, s)) && multiset(Sort(le, s)) == multiset(s)
  {
    if s != [] {
      assert s == [s[0]] + s[1..];
      SortSorts(le, s[1..]);
      InsertKeeps(le, s[0], Sort(le, s[1..]));
    }
  }

  lemma TailCounts<T>(s: seq<T>)
    requires s != []
    ensures multiset(s[1..]) == multiset(s) - multiset{s[0]}
  {
    assert s == [s[0]] + s[1..];
  }

  lemma HeadsAgree(le: Order, s: seq<string>, t: seq<string>)
    requires TotalOrder(le) && Sorted(le, s) && Sorted(le, t) && multiset(s) == multiset(t) && s != [] && t != []
    ensures s[0] == t[0]
  {
    assert s[0] in multiset(t) && t[0] in multiset(s);
    assert le(s[0], t[0]) && le(t[0], s[0]);
  }

  /** A multiset of names has one sorted list. */
  lemma {:induction false} SortedIsUnique(le: Order, s: seq<string>, t: seq<string>)
    requires TotalOrder(le) && Sorted(le, s) && Sorted(le, t) && multiset(s) == multiset(t)
    ensures s == t
  {
    if s == [] {
      assert |multiset(t)| == 0;
    } else {
      assert |multiset(t)| == |multiset(s)| == |s|;
      HeadsAgree(le, s, t);
      TailCounts(s);
      TailCounts(t);
      SortedIsUnique(le, s[1..], t[1..]);
    }
  }

  /** The sorted list of a set of names. */
  ghost function Arrange(le: Order, names: set<string>): (r: seq<string>)
    requires TotalOrder(le)
    ensures Sorted(le, r) && multiset(r) == multiset(names)
  {
    if names == {} then []
    else
      var x :| x in names;
      InsertKeeps(le, x, Arrange(le, names - {x}));
      Insert(le, x, Arrange(le, names - {x}))
  }

  predicate Distinct<T(==)>(s: seq<T>) {
    forall i, j | 0 <= i < j < |s| :: s[i] != s[j]
  }

  function Elements<T(==)>(s: seq<T>): set<T> {
    set x | x in s
  }

  lemma ElementsSnoc<T>(s: seq<T>, i: nat)
    requires i < |s|
    ensures s[..i + 1] == s[..i] + [s[i]] && Elements(s[..i + 1]) == Elements(s[..i]) + {s[i]}
  {
  }

  lemma {:induction false} DistinctIsSet<T>(s: seq<T>)
    requires Distinct(s)
    ensures multiset(s) == multiset(Elements(s))
  {
    if s != [] {
      var init, last := s[..|s| - 1], s[|s| - 1];
      assert s == init + [last];
      DistinctIsSet(init);
      assert Elements(s) == Elements(init) + {last};
    }
  }

  lemma SetIsDistinct<T>(s: seq<T>, names: set<T>)
    requires multiset(s) == multiset(names)
    ensures Distinct(s) && Elements(s) == names
  {
    forall i, j | 0 <= i < j < |s| ensures s[i] != s[j] {
      assert s == s[..j] + s[j..] && s[i] in s[..j] && s[j] in s[j..];
      assert multiset(s) == multiset(s[..j]) + multiset(s[j..]);
      assert multiset(s)[s[i]] <= 1;
    }
    forall x ensures x in s <==> x in names {
      assert x in s <==> x in multiset(s);
    }
  }

  lemma ArrangeIsSet(le: Order, names: set<string>)
    requires TotalOrder(le)
    ensures Distinct(Arrange(le, names)) && forall x :: x in Arrange(le, names) <==> x in names
  {
    SetIsDistinct(Arrange(le, names), names);
    assert forall x :: x in Arrange(le, names) <==> x in Elements(Arrange(le, names));
  }

  /** Sorting a list without repetition gives the arrangement of its set. */
  lemma SortArranges(le: Order, s: seq<string>)
    requires TotalOrder(le) && Distinct(s)
    ensures Sort(le, s) == Arrange(le, Elements(s))
  {
    SortSorts(le, s);
    DistinctIsSet(s);
    SortedIsUnique(le, Sort(le, s), Arrange(le, Elements(s)));
  }

  /** Sorting twice is sorting once. */
  lemma SortTwice(le: Order, s: seq<string>)
    requires TotalOrder(le)
    ensures Sort(le, Sort(le, s)) == Sort(le, s)
  {
    SortSorts(le, s);
    SortSorts(le, Sort(le, s));
    SortedIsUnique(le, Sort(le, Sort(le, s)), Sort(le, s));
  }
}
