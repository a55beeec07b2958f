/** Filtering sequences, and what filtering commutes with. */
module Sequences {

  /** The elements of `s` that satisfy `p`, in their order. */
  function Keep<T>(p: T -> bool, s: seq<T>): seq<T> {
    if s == [] then []
    else (if p(s[0]) then [s[0]] else []) + Keep(p, s[1..])
  }

  function Flatten<T>(ss: seq<seq<T>>): seq<T> {
    if ss == [] then [] else Flatten(ss[..|ss| - 1]) + ss[|ss| - 1]
  }

  lemma FlattenSnoc<T(!new)>(ss: seq<seq<T>>, s: seq<T>)
    ensures Flatten(ss + [s]) == Flatten(ss) + s
  {
    assert (ss + [s])[..|ss|] == ss;
  }

  lemma ConcatAssociates<T(!new)>(a: seq<T>, b: seq<T>, c: seq<T>)
    ensures (a + b) + c == a + (b + c)
  {
  }

  lemma TakeOneMore<T(!new)>(before: seq<T>, s: seq<T>, k: nat)
    requires k < |s|
    ensures before + s[..k + 1] == (before + s[..k]) + [s[k]]
  {
  }

  lemma {:induction false} KeepConcat<T(!new)>(p: T -> bool, a: seq<T>, b: seq<T>)
    ensures Keep(p, a + b) == Keep(p, a) + Keep(p, b)
  {
    if a == [] {
      assert a + b == b;
    } else {
      assert (a + b)[1..] == a[1..] + b;
      KeepConcat(p, a[1..], b);
      ConcatAssociates(if p(a[0]) then [a[0]] else [], Keep(p, a[1..]), Keep(p, b));
    }
  }

  lemma KeepSnoc<T(!new)>(p: T -> bool, s: seq<T>, i: nat)
    requires i < |s|
    ensures Keep(p, s[..i + 1]) == Keep(p, s[..i]) + (if p(s[i]) then [s[i]] else [])
  {
    assert s[..i + 1] == s[..i] + [s[i]];
    KeepConcat(p, s[..i], [s[i]]);
    assert Keep(p, [s[i]]) == if p(s[i]) then [s[i]] else [];
  }

  lemma {:induction false} KeepMembers<T(!new)>(p: T -> bool, s: seq<T>)
    ensures forall x :: x in Keep(p, s) <==> x in s && p(x)
  {
    if s != [] {
      KeepMembers(p, s[1..]);
      assert s == [s[0]] + s[1..];
    }
  }

  lemma {:induction false} KeepAll<T(!new)>(p: T -> bool, s: seq<T>)
    requires forall x :: x in s ==> p(x)
    ensures Keep(p, s) == s
  {
    if s != [] {
      KeepAll(p, s[1..]);
    }
  }

  lemma {:induction false} KeepNothing<T(!new)>(p: T -> bool, s: seq<T>)
    requires forall x :: x in s ==> !p(x)
    ensures Keep(p, s) == []
  {
    if s != [] {
      KeepNothing(p, s[1..]);
    }
  }

  /** A stronger filter may be applied after a weaker one. */
  lemma {:induction false} KeepTwice<T(!new)>(p: T -> bool, q: T -> bool, s: seq<T>)
    requires forall x :: x in s && p(x) ==> q(x)
    ensures Keep(p, Keep(q, s)) == Keep(p, s)
  {
    if s != [] {
      KeepTwice(p, q, s[1..]);
      KeepConcat(p, if q(s[0]) then [s[0]] else [], Keep(q, s[1..]));
    }
  }

  /** A predicate and its complement split a sequence. */
  lemma {:induction false} KeepPartition<T(!new)>(p: T -> bool, q: T -> bool, s: seq<T>)
    requires forall x :: x in s ==> (p(x) <==> !q(x))
    ensures |Keep(p, s)| + |Keep(q, s)| == |s|
  {
    if s != [] {
      KeepPartition(p, q, s[1..]);
    }
  }

  lemma {:induction false} KeepCount<T(!new)>(p: T -> bool, s: seq<T>, x: T)
    requires p(x)
    ensures multiset(Keep(p, s))[x] == multiset(s)[x]
  {
    if s != [] {
      KeepCount(p, s[1..], x);
      assert s == [s[0]] + s[1..];
    }
  }

  lemma PositionsSnoc<T(!new)>(p: T -> bool, s: seq<T>, x: T)
    ensures
      (set i | 0 <= i < |s + [x]| && p((s + [x])[i])) ==
      (set i | 0 <= i < |s| && p(s[i])) + if p(x) then {|s|} else {}
  {
  }

  /** How many elements are kept is how many positions hold one. */
  lemma {:induction false} KeepCardinality<T(!new)>(p: T -> bool, s: seq<T>)
    ensures |Keep(p, s)| == |set i | 0 <= i < |s| && p(s[i])|
  {
    var here := set i | 0 <= i < |s| && p(s[i]);
    assert s == [] ==> here == {};
    if s != [] {
      var front, last := s[..|s| - 1], s[|s| - 1];
      KeepCardinality(p, front);
      assert s == front + [last];
      KeptOneMore(p, front, last);
    }
  }

  lemma KeptOneMore<T(!new)>(p: T -> bool, s: seq<T>, x: T)
    requires |Keep(p, s)| == |set i | 0 <= i < |s| && p(s[i])|
    ensures |Keep(p, s + [x])| == |set i | 0 <= i < |s + [x]| && p((s + [x])[i])|
  {
    KeepConcat(p, s, [x]);
    assert Keep(p, [x]) == if p(x) then [x] else [];
    PositionsSnoc(p, s, x);
  }

  lemma KeptPositions<T(!new)>(p: T -> bool, s: seq<T>, here: set<int>)
    requires forall i :: i in here <==> 0 <= i < |s| && p(s[i])
    ensures |Keep(p, s)| == |here|
  {
    KeepCardinality(p, s);
    assert here == set i | 0 <= i < |s| && p(s[i]);
  }

  /** Only what a predicate says of the elements matters. */
  lemma {:induction false} KeepSame<T(!new)>(p: T -> bool, q: T -> bool, s: seq<T>)
    requires forall x :: x in s ==> p(x) == q(x)
    ensures Keep(p, s) == Keep(q, s)
  {
    if s != [] {
      KeepSame(p, q, s[1..]);
    }
  }

  lemma {:induction false} TotalIsCount<T(!new)>(f: T -> int, p: T -> bool, s: seq<T>)
    requires forall x :: f(x) == if p(x) then 1 else 0
    ensures Total(f, s) == |Keep(p, s)|
  {
    if s != [] {
      TotalIsCount(f, p, s[1..]);
    }
  }

  lemma PrefixCount<T(!new)>(s: seq<T>, n: nat, x: T)
    requires n <= |s|
    ensures multiset(s[..n])[x] <= multiset(s)[x]
  {
    assert s == s[..n] + s[n..];
  }

  /** The sum of `f` over a sequence. */
  function Total<T>(f: T -> int, s: seq<T>): int {
    if s == [] then 0 else f(s[0]) + Total(f, s[1..])
  }

  lemma {:induction false} TotalConcat<T(!new)>(f: T -> int, a: seq<T>, b: seq<T>)
    ensures Total(f, a + b) == Total(f, a) + Total(f, b)
  {
    if a == [] {
      assert a + b == b;
    } else {
      assert (a + b)[1..] == a[1..] + b;
      TotalConcat(f, a[1..], b);
    }
  }

  lemma TotalUpdate<T(!new)>(f: T -> int, s: seq<T>, i: nat, x: T)
    requires i < |s|
    ensures Total(f, s[i := x]) == Total(f, s) - f(s[i]) + f(x)
  {
    var before, after := s[..i], s[i + 1..];
    assert s == before + ([s[i]] + after);
    assert s[i := x] == before + ([x] + after);
    TotalConcat(f, before, [s[i]] + after);
    TotalConcat(f, before, [x] + after);
    assert ([s[i]] + after)[1..] == after && ([x] + after)[1..] == after;
  }

  lemma {:induction false} TotalBounds<T(!new)>(f: T -> int, s: seq<T>, low: int, high: int)
    requires forall x :: x in s ==> low <= f(x) <= high
    ensures |s| * low <= Total(f, s) <= |s| * high
  {
    if s != [] {
      TotalBounds(f, s[1..], low, high);
      assert |s| * low == low + |s[1..]| * low && |s| * high == high + |s[1..]| * high;
    }
  }

  // ---------------------------------------------------------------- stable sorting

  function Insert<T>(key: T -> int, e: T, s: seq<T>): seq<T> {
    if s == [] || key(e) <= key(s[0]) then [e] + s
    else [s[0]] + Insert(key, e, s[1..])
  }

  /** The stable sort by an integer key. */
  function SortBy<T>(key: T -> int, s: seq<T>): seq<T> {
    if s == [] then [] else Insert(key, s[0], SortBy(key, s[1..]))
  }

  ghost predicate OrderedBy<T>(key: T -> int, s: seq<T>) {
    forall i, j :: 0 <= i < j < |s| ==> key(s[i]) <= key(s[j])
  }

  function AtKey<T>(key: T -> int, k: int): T -> bool {
    x => key(x) == k
  }

  lemma {:induction false} InsertContents<T(!new)>(key: T -> int, e: T, s: seq<T>)
    ensures multiset(Insert(key, e, s)) == multiset{e} + multiset(s)
    ensures forall x :: x in Insert(key, e, s) ==> x == e || x in s
  {
    if s != [] && key(e) > key(s[0]) {
      assert s == [s[0]] + s[1..];
      InsertContents(key, e, s[1..]);
    }
  }

  lemma {:induction false} InsertKeepsOrder<T(!new)>(key: T -> int, e: T, s: seq<T>)
    requires OrderedBy(key, s)
    ensures OrderedBy(key, Insert(key, e, s))
  {
    if s != [] && key(e) > key(s[0]) {
      InsertKeepsOrder(key, e, s[1..]);
      InsertContents(key, e, s[1..]);
      var r := Insert(key, e, s[1..]);
      assert forall x :: x in r ==> key(s[0]) <= key(x);
      assert forall i :: 0 <= i < |r| ==> r[i] in r;
    }
  }

  lemma {:induction false} SortIsOrdered<T(!new)>(key: T -> int, s: seq<T>)
    ensures OrderedBy(key, SortBy(key, s))
    ensures multiset(SortBy(key, s)) == multiset(s)
    ensures |SortBy(key, s)| == |s|
  {
    if s != [] {
      SortIsOrdered(key, s[1..]);
      InsertKeepsOrder(key, s[0], SortBy(key, s[1..]));
      InsertContents(key, s[0], SortBy(key, s[1..]));
      assert s == [s[0]] + s[1..];
      assert |multiset(SortBy(key, s))| == |multiset(s)|;
    }
  }

  lemma KeepInsertFirst<T(!new)>(p: T -> bool, key: T -> int, e: T, s: seq<T>)
    requires OrderedBy(key, s) && (s == [] || key(e) <= key(s[0]))
    ensures Keep(p, [e] + s) == if p(e) then Insert(key, e, Keep(p, s)) else Keep(p, s)
  {
    KeepMembers(p, s);
    KeepConcat(p, [e], s);
    assert Keep(p, [e]) == if p(e) then [e] else [];
    if Keep(p, s) != [] {
      assert Keep(p, s)[0] in Keep(p, s);
    }
  }

  lemma {:induction false} KeepInsert<T(!new)>(p: T -> bool, key: T -> int, e: T, s: seq<T>)
    requires OrderedBy(key, s)
    ensures Keep(p, Insert(key, e, s)) == if p(e) then Insert(key, e, Keep(p, s)) else Keep(p, s)
  {
    if s == [] || key(e) <= key(s[0]) {
      KeepInsertFirst(p, key, e, s);
    } else {
      var rest := s[1..];
      KeepInsert(p, key, e, rest);
      var inserted := [s[0]] + Insert(key, e, rest);
      assert inserted[1..] == Insert(key, e, rest);
      var kept := Keep(p, s);
      if p(s[0]) {
        assert kept[0] == s[0] && kept[1..] == Keep(p, rest);
      } else {
        assert kept == Keep(p, rest);
      }
    }
  }

  /** Filtering a stably sorted list is stably sorting the filtered list. */
  lemma {:induction false} KeepSort<T(!new)>(p: T -> bool, key: T -> int, s: seq<T>)
    ensures Keep(p, SortBy(key, s)) == SortBy(key, Keep(p, s))
  {
    if s != [] {
      KeepSort(p, key, s[1..]);
      SortIsOrdered(key, s[1..]);
      KeepInsert(p, key, s[0], SortBy(key, s[1..]));
      assert p(s[0]) ==> Keep(p, s)[1..] == Keep(p, s[1..]);
      assert !p(s[0]) ==> Keep(p, s) == Keep(p, s[1..]);
    }
  }

  lemma {:induction false} SortOfEquals<T(!new)>(key: T -> int, s: seq<T>, k: int)
    requires forall x :: x in s ==> key(x) == k
    ensures SortBy(key, s) == s
  {
    if s != [] {
      SortOfEquals(key, s[1..], k);
    }
  }

  /** Elements with one key keep their order. */
  lemma SortIsStable<T(!new)>(key: T -> int, s: seq<T>, k: int)
    ensures Keep(AtKey(key, k), SortBy(key, s)) == Keep(AtKey(key, k), s)
  {
    KeepSort(AtKey(key, k), key, s);
    KeepMembers(AtKey(key, k), s);
    var same := Keep(AtKey(key, k), s);
    forall x | x in same ensures key(x) == k {
      assert AtKey(key, k)(x);
    }
    SortOfEquals(key, same, k);
  }

  lemma {:induction false} TotalInsert<T(!new)>(f: T -> int, key: T -> int, e: T, s: seq<T>)
    ensures Total(f, Insert(key, e, s)) == f(e) + Total(f, s)
  {
    if s == [] || key(e) <= key(s[0]) {
      assert ([e] + s)[1..] == s;
    } else {
      TotalInsert(f, key, e, s[1..]);
      assert ([s[0]] + Insert(key, e, s[1..]))[1..] == Insert(key, e, s[1..]);
    }
  }

  lemma {:induction false} TotalSort<T(!new)>(f: T -> int, key: T -> int, s: seq<T>)
    ensures Total(f, SortBy(key, s)) == Total(f, s)
  {
    if s != [] {
      TotalSort(f, key, s[1..]);
      TotalInsert(f, key, s[0], SortBy(key, s[1..]));
    }
  }
}
