/** The order in which repository updates are applied: by update index, definitions before mappings
    within an index, and by hash id within a kind. */
module UpdateOrder {
  /** Where one update file stands in the log.  kind is 0 for definitions and 1 for mappings. */
  datatype Rank = Rank(index: int, kind: int, id: int)

  predicate Less(a: Rank, b: Rank) {
    || a.index < b.index
    || (a.index == b.index && a.kind < b.kind)
    || (a.index == b.index && a.kind == b.kind && a.id < b.id)
  }

  predicate StrictlySorted(s: seq<Rank>) {
    forall i, j | 0 <= i < j < |s| :: Less(s[i], s[j])
  }

  function Elements(s: seq<Rank>): set<Rank> {
    set r | r in s
  }

  predicate IsLeast(m: Rank, s: set<Rank>) {
    m in s && forall r | r in s :: m == r || Less(m, r)
  }

  lemma {:induction false} HasLeast(s: set<Rank>)
    requires s != {}
    ensures exists m :: IsLeast(m, s)
    decreases |s|
  {
    var x :| x in s;
    var rest := s - {x};
    assert s == rest + {x};
    if rest == {} {
      assert IsLeast(x, s);
    } else {
      HasLeast(rest);
      var m :| IsLeast(m, rest);
      assert IsLeast(if Less(x, m) then x else m, s);
    }
  }

  lemma ElementsAppend(a: seq<Rank>, b: seq<Rank>)
    ensures Elements(a + b) == Elements(a) + Elements(b)
  {
  }

  function Least(s: set<Rank>): (m: Rank)
    requires s != {}
    ensures IsLeast(m, s)
  {
    HasLeast(s);
    var m :| IsLeast(m, s);
    m
  }

  lemma LeastFirst(m: Rank, s: set<Rank>, rest: seq<Rank>)
    requires IsLeast(m, s) && StrictlySorted(rest) && Elements(rest) == s - {m}
    ensures StrictlySorted([m] + rest) && Elements([m] + rest) == s
  {
    assert forall i | 0 <= i < |rest| :: rest[i] in Elements(rest);
    ElementsAppend([m], rest);
    assert s == {m} + (s - {m});
  }

  /** The elements of s in increasing order. */
  function Sorted(s: set<Rank>): (result: seq<Rank>)
    ensures StrictlySorted(result) && Elements(result) == s
    decreases |s|
  {
    if s == {} then []
    else
      var m := Least(s);
      LeastFirst(m, s, Sorted(s - {m}));
      [m] + Sorted(s - {m})
  }

  lemma NoElements(s: seq<Rank>)
    ensures Elements(s) == {} <==> s == []
  {
    if s != [] { assert s[0] in Elements(s); }
  }

  /** Only one sequence lists a given set in increasing order. */
  lemma {:induction false} SortedIsUnique(a: seq<Rank>, b: seq<Rank>)
    requires StrictlySorted(a) && StrictlySorted(b) && Elements(a) == Elements(b)
    ensures a == b
    decreases |a|
  {
    if a == [] || b == [] {
      NoElements(a);
      NoElements(b);
    } else {
      assert a[0] in Elements(a) && b[0] in Elements(b);
      var i :| 0 <= i < |a| && a[i] == b[0];
      var j :| 0 <= j < |b| && b[j] == a[0];
      assert a[0] == b[0];
      TailElements(a);
      TailElements(b);
      SortedIsUnique(a[1..], b[1..]);
      assert a == [a[0]] + a[1..] && b == [b[0]] + b[1..];
    }
  }

  lemma TailElements(a: seq<Rank>)
    requires a != [] && StrictlySorted(a)
    ensures StrictlySorted(a[1..]) && Elements(a[1..]) == Elements(a) - {a[0]}
  {
    assert a == [a[0]] + a[1..];
    forall r | r in Elements(a[1..]) ensures r != a[0] {
      var i :| 0 <= i < |a[1..]| && a[1..][i] == r;
      assert Less(a[0], a[i + 1]);
    }
  }

  lemma {:induction false} DistinctElements(s: seq<Rank>)
    requires StrictlySorted(s)
    ensures |Elements(s)| == |s|
    decreases |s|
  {
    if s == [] {
      NoElements(s);
    } else {
      TailElements(s);
      DistinctElements(s[1..]);
      assert s[0] in Elements(s);
    }
  }

  /** Sorting a low set and a high set separately sorts their union. */
  lemma SortedAppend(low: set<Rank>, high: set<Rank>)
    requires forall a, b | a in low && b in high :: Less(a, b)
    ensures Sorted(low + high) == Sorted(low) + Sorted(high)
  {
    var a, b := Sorted(low), Sorted(high);
    assert forall i | 0 <= i < |a| :: a[i] in Elements(a);
    assert forall i | 0 <= i < |b| :: b[i] in Elements(b);
    assert Elements(a + b) == low + high;
    SortedIsUnique(Sorted(low + high), a + b);
  }

  /** s holds, with each of its elements, everything in all that comes before it. */
  predicate DownClosed(s: set<Rank>, all: set<Rank>) {
    s <= all && forall a, b | a in all && b in s && Less(a, b) :: a in s
  }

  /** A down-closed part of a set, sorted, is a prefix of the whole set, sorted. */
  lemma SortedPrefix(s: set<Rank>, all: set<Rank>)
    requires DownClosed(s, all)
    ensures Sorted(all) == Sorted(s) + Sorted(all - s)
    ensures Sorted(s) <= Sorted(all)
  {
    forall a, b | a in s && b in all - s ensures Less(a, b) {
      assert a == b || Less(a, b) || Less(b, a);
    }
    SortedAppend(s, all - s);
    assert s + (all - s) == all;
  }

  /** Conversely, the elements of a prefix of a sorted set are down-closed in it. */
  lemma PrefixIsDownClosed(p: seq<Rank>, all: set<Rank>)
    requires p <= Sorted(all)
    ensures DownClosed(Elements(p), all)
    ensures p == Sorted(Elements(p))
  {
    var whole := Sorted(all);
    forall r | r in Elements(p) ensures r in all {
      var i :| 0 <= i < |p| && p[i] == r;
      assert whole[i] in Elements(whole);
    }
    forall a, b | a in all && b in Elements(p) && Less(a, b) ensures a in Elements(p) {
      var j :| 0 <= j < |p| && p[j] == b;
      assert a in Elements(whole);
      var i :| 0 <= i < |whole| && whole[i] == a;
      assert whole[j] == b && !Less(whole[j], whole[i]);
      assert i <= j;
      assert p[i] == a;
    }
    assert StrictlySorted(p) by {
      forall i, j | 0 <= i < j < |p| ensures Less(p[i], p[j]) { assert Less(whole[i], whole[j]); }
    }
    SortedIsUnique(p, Sorted(Elements(p)));
  }
}
