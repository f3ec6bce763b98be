/** Reordered lists, and stable sorting by a comparison. */
module Sorting {
  import opened Common

  // ---------------------------------------------------------------- the same members in another order

  lemma SameMembers<T(!new)>(a: seq<T>, b: seq<T>)
    requires multiset(a) == multiset(b)
    ensures (forall x :: x in a <==> x in b) && (Distinct(a) ==> Distinct(b))
  {
    forall x ensures x in a <==> x in b {
      assert x in a <==> x in multiset(a);
      assert x in b <==> x in multiset(b);
    }
    if Distinct(a) {
      forall i, j | 0 <= i < j < |b| ensures b[i] != b[j] {
        if b[i] == b[j] {
          TwoOccurrences(b, i, j);
          OneOccurrence(a, b[i]);
        }
      }
    }
  }

  lemma TwoOccurrences<T(!new)>(s: seq<T>, i: nat, j: nat)
    requires i < j < |s| && s[i] == s[j]
    ensures multiset(s)[s[i]] >= 2
  {
    assert s == s[..i] + [s[i]] + s[i + 1..j] + [s[j]] + s[j + 1..];
  }

  lemma {:induction false} OneOccurrence<T(!new)>(s: seq<T>, x: T)
    requires Distinct(s)
    ensures multiset(s)[x] <= 1
  {
    if s != [] {
      var init := s[..|s| - 1];
      OneOccurrence(init, x);
      assert s == init + [s[|s| - 1]];
      assert s[|s| - 1] == x ==> x !in init && multiset(init)[x] == 0;
    }
  }

  // ---------------------------------------------------------------- sorted lists

  /** Any two members can be compared, and the comparison is transitive. */
  ghost predicate Compares<T(!new)>(before: (T, T) -> bool, s: seq<T>) {
    && (forall x, y :: x in s && y in s ==> before(x, y) || before(y, x))
    && (forall x, y, z :: x in s && y in s && z in s && before(x, y) && before(y, z) ==> before(x, z))
  }

  ghost predicate Ordered<T(!new)>(before: (T, T) -> bool, s: seq<T>) {
    forall i, j :: 0 <= i < j < |s| ==> before(s[i], s[j])
  }

  function Inserted<T>(before: (T, T) -> bool, x: T, s: seq<T>): seq<T> {
    if s == [] then [x] else if before(x, s[0]) then [x] + s else [s[0]] + Inserted(before, x, s[1..])
  }

  function Sorted<T>(before: (T, T) -> bool, s: seq<T>): seq<T> {
    if s == [] then [] else Inserted(before, s[0], Sorted(before, s[1..]))
  }

  lemma {:induction false} InsertedHas<T(!new)>(before: (T, T) -> bool, x: T, s: seq<T>)
    ensures multiset(Inserted(before, x, s)) == multiset(s) + multiset{x}
    ensures forall y :: y in Inserted(before, x, s) <==> y == x || y in s
  {
    if s != [] {
      assert s == [s[0]] + s[1..];
      if !before(x, s[0]) {
        InsertedHas(before, x, s[1..]);
      }
    }
  }

  lemma ComparesFewer<T(!new)>(before: (T, T) -> bool, s: seq<T>, t: seq<T>)
    requires Compares(before, s) && forall x :: x in t ==> x in s
    ensures Compares(before, t)
  {
  }

  lemma OrderedCons<T(!new)>(before: (T, T) -> bool, x: T, s: seq<T>)
    requires Ordered(before, s) && forall y :: y in s ==> before(x, y)
    ensures Ordered(before, [x] + s)
  {
  }

  lemma {:induction false} InsertedIsOrdered<T(!new)>(before: (T, T) -> bool, x: T, s: seq<T>)
    requires Ordered(before, s) && Compares(before, [x] + s)
    ensures Ordered(before, Inserted(before, x, s))
  {
    if s == [] {
    } else if before(x, s[0]) {
      forall y | y in s ensures before(x, y) {
        assert x in [x] + s && s[0] in [x] + s && y in [x] + s;
      }
      OrderedCons(before, x, s);
    } else {
      assert s == [s[0]] + s[1..];
      assert x in [x] + s && s[0] in [x] + s;
      ComparesFewer(before, [x] + s, [x] + s[1..]);
      InsertedIsOrdered(before, x, s[1..]);
      InsertedHas(before, x, s[1..]);
      forall y | y in Inserted(before, x, s[1..]) ensures before(s[0], y) {
        assert y == x || y in s[1..];
      }
      OrderedCons(before, s[0], Inserted(before, x, s[1..]));
    }
  }

  lemma {:induction false} SortedHas<T(!new)>(before: (T, T) -> bool, s: seq<T>)
    ensures multiset(Sorted(before, s)) == multiset(s) && |Sorted(before, s)| == |s|
    ensures forall y :: y in Sorted(before, s) <==> y in s
  {
    if s != [] {
      assert s == [s[0]] + s[1..];
      SortedHas(before, s[1..]);
      InsertedHas(before, s[0], Sorted(before, s[1..]));
    }
    assert |multiset(Sorted(before, s))| == |multiset(s)|;
  }

  lemma {:induction false} SortedIsOrdered<T(!new)>(before: (T, T) -> bool, s: seq<T>)
    requires Compares(before, s)
    ensures Ordered(before, Sorted(before, s))
  {
    if s != [] {
      assert s == [s[0]] + s[1..];
      ComparesFewer(before, s, s[1..]);
      SortedIsOrdered(before, s[1..]);
      SortedHas(before, s[1..]);
      ComparesFewer(before, s, [s[0]] + Sorted(before, s[1..]));
      InsertedIsOrdered(before, s[0], Sorted(before, s[1..]));
    }
  }
}
