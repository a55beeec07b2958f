/** Total orders, sorting by them, and why a sorted list is determined by its contents. */
module Orders {

  ghost predicate TotalOrder<T(!new)>(le: (T, T) -> bool) {
    && (forall x, y :: le(x, y) || le(y, x))
    && (forall x, y :: le(x, y) && le(y, x) ==> x == y)
    && (forall x, y, z :: le(x, y) && le(y, z) ==> le(x, z))
  }

  ghost predicate Sorted<T>(le: (T, T) -> bool, s: seq<T>) {
    forall i, j :: 0 <= i < j < |s| ==> le(s[i], s[j])
  }

  function Place<T>(le: (T, T) -> bool, x: T, s: seq<T>): seq<T> {
    if s == [] || le(x, s[0]) then [x] + s else [s[0]] + Place(le, x, s[1..])
  }

  function Sort<T>(le: (T, T) -> bool, s: seq<T>): seq<T> {
    if s == [] then [] else Place(le, s[0], Sort(le, s[1..]))
  }

  lemma {:induction false} PlaceSorts<T(!new)>(le: (T, T) -> bool, x: T, s: seq<T>)
    requires TotalOrder(le) && Sorted(le, s)
    ensures Sorted(le, Place(le, x, s))
    ensures multiset(Place(le, x, s)) == multiset{x} + multiset(s)
  {
    if s != [] && !le(x, s[0]) {
      PlaceSorts(le, x, s[1..]);
      var rest := Place(le, x, s[1..]);
      assert s == [s[0]] + s[1..];
      forall i | 0 <= i < |rest| ensures le(s[0], rest[i]) {
        assert rest[i] in multiset(rest);
        assert rest[i] == x || rest[i] in s[1..];
      }
    } else if s != [] {
      assert forall i :: 0 <= i < |s| ==> le(x, s[i]);
    }
  }

  lemma {:induction false} SortSorts<T(!new)>(le: (T, T) -> bool, s: seq<T>)
    requires TotalOrder(le)
    ensures Sorted(le, Sort(le, s)) && multiset(Sort(le, s)) == multiset(s)
  {
    if s != [] {
      SortSorts(le, s[1..]);
      PlaceSorts(le, s[0], Sort(le, s[1..]));
      assert s == [s[0]] + s[1..];
    }
  }

  lemma SmallestFirst<T(!new)>(le: (T, T) -> bool, s: seq<T>, t: seq<T>)
    requires TotalOrder(le) && Sorted(le, s) && multiset(s) == multiset(t) && s != [] && t != []
    ensures le(s[0], t[0])
  {
    assert t[0] in multiset(s);
    var j :| 0 <= j < |s| && s[j] == t[0];
  }

  /** Two sorted lists with the same contents are the same list. */
  lemma {:induction false} SortedIsUnique<T(!new)>(le: (T, T) -> bool, s: seq<T>, t: seq<T>)
    requires TotalOrder(le) && Sorted(le, s) && Sorted(le, t) && multiset(s) == multiset(t)
    ensures s == t
  {
    assert |s| == |multiset(s)| == |multiset(t)| == |t|;
    if s != [] {
      SmallestFirst(le, s, t);
      SmallestFirst(le, t, s);
      assert s == [s[0]] + s[1..] && t == [t[0]] + t[1..];
      assert multiset(s[1..]) == multiset(s) - multiset{s[0]};
      assert multiset(t[1..]) == multiset(t) - multiset{t[0]};
      SortedIsUnique(le, s[1..], t[1..]);
    }
  }

  /** Sorting forgets the order its input came in, and nothing else. */
  lemma SortDecidesContents<T(!new)>(le: (T, T) -> bool, s: seq<T>, t: seq<T>)
    requires TotalOrder(le)
    ensures Sort(le, s) == Sort(le, t) <==> multiset(s) == multiset(t)
  {
    SortSorts(le, s);
    SortSorts(le, t);
    if multiset(s) == multiset(t) {
      SortedIsUnique(le, Sort(le, s), Sort(le, t));
    }
  }

  // ---------------------------------------------------------------- lexicographic orders

  predicate LexLe<T(==)>(le: (T, T) -> bool, a: seq<T>, b: seq<T>) {
    if a == [] then true
    else if b == [] then false
    else if a[0] == b[0] then LexLe(le, a[1..], b[1..])
    else le(a[0], b[0])
  }

  function Lex<T(==)>(le: (T, T) -> bool): (seq<T>, seq<T>) -> bool {
    (a, b) => LexLe(le, a, b)
  }

  lemma {:induction false} LexTotal<T(!new)>(le: (T, T) -> bool, a: seq<T>, b: seq<T>)
    requires TotalOrder(le)
    ensures LexLe(le, a, b) || LexLe(le, b, a)
    ensures LexLe(le, a, b) && LexLe(le, b, a) ==> a == b
  {
    if a != [] && b != [] && a[0] == b[0] {
      LexTotal(le, a[1..], b[1..]);
      assert a == [a[0]] + a[1..] && b == [b[0]] + b[1..];
    }
  }

  lemma {:induction false} LexTransitive<T(!new)>(le: (T, T) -> bool, a: seq<T>, b: seq<T>, c: seq<T>)
    requires TotalOrder(le) && LexLe(le, a, b) && LexLe(le, b, c)
    ensures LexLe(le, a, c)
  {
    if a != [] && b != [] && c != [] && a[0] == b[0] == c[0] {
      LexTransitive(le, a[1..], b[1..], c[1..]);
    }
  }

  lemma LexIsTotalOrder<T(!new)>(le: (T, T) -> bool)
    requires TotalOrder(le)
    ensures TotalOrder(Lex(le))
  {
    forall a, b ensures Lex(le)(a, b) || Lex(le)(b, a) {
      LexTotal(le, a, b);
    }
    forall a, b | Lex(le)(a, b) && Lex(le)(b, a) ensures a == b {
      LexTotal(le, a, b);
    }
    forall a, b, c | Lex(le)(a, b) && Lex(le)(b, c) ensures Lex(le)(a, c) {
      LexTransitive(le, a, b, c);
    }
  }

  // ---------------------------------------------------------------- equal contents

  predicate NoRepeats<T(==)>(s: seq<T>) {
    forall i, j :: 0 <= i < j < |s| ==> s[i] != s[j]
  }

  lemma {:induction false} NoRepeatsCount<T(!new)>(s: seq<T>)
    requires NoRepeats(s)
    ensures forall x :: multiset(s)[x] == if x in s then 1 else 0
  {
    if s != [] {
      NoRepeatsCount(s[1..]);
      assert s == [s[0]] + s[1..];
    }
  }

  lemma SameMembersSameContents<T(!new)>(s: seq<T>, t: seq<T>)
    requires NoRepeats(s) && NoRepeats(t) && forall x :: x in s <==> x in t
    ensures multiset(s) == multiset(t)
  {
    NoRepeatsCount(s);
    NoRepeatsCount(t);
  }

  lemma SameContentsSameMembers<T(!new)>(s: seq<T>, t: seq<T>)
    requires multiset(s) == multiset(t)
    ensures forall x :: x in s <==> x in t
  {
    assert forall x :: x in s <==> x in multiset(s);
    assert forall x :: x in t <==> x in multiset(t);
  }

  function Without<T>(s: seq<T>, i: nat): (r: seq<T>)
    requires i < |s|
    ensures |r| == |s| - 1
    ensures forall k :: 0 <= k < |r| ==> r[k] == s[if k < i then k else k + 1]
  {
    s[..i] + s[i + 1..]
  }

  lemma ContentsWithout<T(!new)>(s: seq<T>, i: nat)
    requires i < |s|
    ensures multiset(s) == multiset{s[i]} + multiset(Without(s, i))
  {
    assert s == s[..i] + ([s[i]] + s[i + 1..]);
  }

  /** Wherever an item of `s` equals one of `s'`, the companions in `u` and `u'` are equal too. */
  ghost predicate Follows<T, U>(s: seq<T>, u: seq<U>, s': seq<T>, u': seq<U>) {
    && |s| == |u| && |s'| == |u'|
    && forall i, j {:trigger s[i], s'[j]} :: 0 <= i < |s| && 0 <= j < |s'| && s[i] == s'[j] ==> u[i] == u'[j]
  }

  lemma FollowsWithout<T(!new), U(!new)>(s: seq<T>, u: seq<U>, s': seq<T>, u': seq<U>, i: nat, j: nat)
    requires Follows(s, u, s', u') && i < |s| && j < |s'|
    ensures Follows(Without(s, i), Without(u, i), Without(s', j), Without(u', j))
  {
  }

  /**
   * Two views of two lists. If equal items in one view are equal in the other,
   * then equal contents in the one are equal contents in the other.
   */
  lemma {:induction false} ContentsTransfer<T(!new), U(!new)>(s: seq<T>, u: seq<U>, s': seq<T>, u': seq<U>)
    requires Follows(s, u, s', u') && multiset(s) == multiset(s')
    ensures multiset(u) == multiset(u')
    decreases |s|
  {
    assert |s| == |multiset(s)| == |multiset(s')| == |s'|;
    if s != [] {
      var j := HasItem(s', s[0], s);
      var r, r', v, v' := Without(s, 0), Without(s', j), Without(u, 0), Without(u', j);
      assert multiset(r) == multiset(r') by {
        ContentsWithout(s, 0);
        ContentsWithout(s', j);
        assert multiset(r) == multiset(s) - multiset{s[0]};
        assert multiset(r') == multiset(s') - multiset{s[0]};
      }
      FollowsWithout(s, u, s', u', 0, j);
      ContentsTransfer(r, v, r', v');
      ContentsWithout(u, 0);
      ContentsWithout(u', j);
    }
  }

  lemma HasItem<T(!new)>(t: seq<T>, x: T, s: seq<T>) returns (j: nat)
    requires multiset(s) == multiset(t) && x in s
    ensures j < |t| && t[j] == x
  {
    assert x in multiset(t);
    j :| 0 <= j < |t| && t[j] == x;
  }
}
