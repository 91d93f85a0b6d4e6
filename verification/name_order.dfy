/** Python's `sorted` on test names: the one ordered arrangement of a multiset of strings. */
module NameOrder {
  predicate Before(a: string, b: string)
  {
    a == [] || (b != [] && (a[0] < b[0] || (a[0] == b[0] && Before(a[1..], b[1..]))))
  }

  lemma {:induction false} BeforeIsTotal(a: string, b: string)
    ensures Before(a, b) || Before(b, a)
    ensures Before(a, b) && Before(b, a) ==> a == b
    decreases |a|
  {
    if a != [] && b != [] && a[0] == b[0] {
      BeforeIsTotal(a[1..], b[1..]);
      assert a == [a[0]] + a[1..] && b == [b[0]] + b[1..];
    }
  }

  lemma {:induction false} BeforeIsTransitive(a: string, b: string, c: string)
    requires Before(a, b) && Before(b, c)
    ensures Before(a, c)
    decreases |a|
  {
    if a != [] && a[0] == b[0] && b[0] == c[0] { BeforeIsTransitive(a[1..], b[1..], c[1..]); }
  }

  /** Names are compared at the first character that differs; a name comes before its extensions. */
  lemma {:induction false} FirstDifferenceDecides(common: string, a: string, b: string)
    ensures Before(common, common + a)
    ensures Before(common + a, common) <==> a == []
    ensures a != [] && b != [] && a[0] != b[0] ==> (Before(common + a, common + b) <==> a[0] < b[0])
    decreases |common|
  {
    if common == [] {
      assert common + a == a && common + b == b;
    } else {
      FirstDifferenceDecides(common[1..], a, b);
      assert (common + a)[1..] == common[1..] + a && (common + b)[1..] == common[1..] + b;
    }
  }

  /** Every name comes before all later ones. */
  ghost predicate Ordered(s: seq<string>)
  {
    forall j, k :: 0 <= j < k < |s| ==> Before(s[j], s[k])
  }

  function Insert(x: string, s: seq<string>): (r: seq<string>)
    ensures multiset(r) == multiset(s) + multiset{x}
    decreases |s|
  {
    if s == [] || Before(x, s[0]) then [x] + s
    else
      assert s == [s[0]] + s[1..];
      [s[0]] + Insert(x, s[1..])
  }

  lemma {:induction false} InsertKeepsOrder(x: string, s: seq<string>)
    requires Ordered(s)
    ensures Ordered(Insert(x, s))
    decreases |s|
  {
    if s == [] {
    } else if Before(x, s[0]) {
      forall k | 0 < k < |s| ensures Before(x, s[k]) { BeforeIsTransitive(x, s[0], s[k]); }
    } else {
      InsertKeepsOrder(x, s[1..]);
      BeforeIsTotal(x, s[0]);
      var rest := Insert(x, s[1..]);
      forall k | 0 <= k < |rest| ensures Before(s[0], rest[k]) {
        assert rest[k] in multiset(rest);
        if rest[k] != x { assert rest[k] in multiset(s[1..]); }
      }
    }
  }

  function Sorted(s: seq<string>): (r: seq<string>)
    ensures multiset(r) == multiset(s)
    decreases |s|
  {
    if s == [] then []
    else
      assert s == [s[0]] + s[1..];
      Insert(s[0], Sorted(s[1..]))
  }

  lemma {:induction false} SortedIsOrdered(s: seq<string>)
    ensures Ordered(Sorted(s))
    decreases |s|
  {
    if s != [] {
      SortedIsOrdered(s[1..]);
      InsertKeepsOrder(s[0], Sorted(s[1..]));
    }
  }

  lemma {:induction false} HeadIsLeast(s: seq<string>, x: string)
    requires Ordered(s) && x in multiset(s)
    ensures s != [] && Before(s[0], x)
  {
    BeforeIsTotal(x, x);
  }

  lemma {:induction false} TailsAgree(a: seq<string>, b: seq<string>)
    requires a != [] && b != [] && a[0] == b[0] && multiset(a) == multiset(b)
    ensures multiset(a[1..]) == multiset(b[1..])
  {
    assert a == [a[0]] + a[1..] && b == [b[0]] + b[1..];
    assert multiset(a[1..]) == multiset(a) - multiset{a[0]};
    assert multiset(b[1..]) == multiset(b) - multiset{b[0]};
  }

  lemma {:induction false} OrderedIsUnique(a: seq<string>, b: seq<string>)
    requires Ordered(a) && Ordered(b) && multiset(a) == multiset(b)
    ensures a == b
    decreases |a|
  {
    assert |a| == |multiset(a)| && |b| == |multiset(b)|;
    if a != [] {
      HeadIsLeast(a, b[0]);
      HeadIsLeast(b, a[0]);
      BeforeIsTotal(a[0], b[0]);
      TailsAgree(a, b);
      OrderedIsUnique(a[1..], b[1..]);
      assert a == [a[0]] + a[1..] && b == [b[0]] + b[1..];
    }
  }

  /** Sorting depends only on how often each name occurs. */
  lemma {:induction false} SortedByCount(a: seq<string>, b: seq<string>)
    ensures Sorted(a) == Sorted(b) <==> multiset(a) == multiset(b)
  {
    SortedIsOrdered(a);
    SortedIsOrdered(b);
    if multiset(a) == multiset(b) { OrderedIsUnique(Sorted(a), Sorted(b)); }
  }

  lemma {:induction false} SortedKeepsMembers(s: seq<string>)
    ensures forall t :: t in Sorted(s) <==> t in s
  {
    forall t ensures t in Sorted(s) <==> t in s {
      assert t in multiset(Sorted(s)) <==> t in multiset(s);
    }
  }
}
