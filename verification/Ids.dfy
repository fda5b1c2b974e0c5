/** Identifiers and the order in which the kernel visits them.

    The program compares identifiers with its language's string order and sorts
    slices of them before every loop whose result could depend on map order. */
module Ids {

  /** A string, as the list of its characters. */
  datatype Id = Empty | Char(head: char, tail: Id)

  function FromString(s: string): Id {
    if s == [] then Empty else Char(s[0], FromString(s[1..]))
  }

  function Concat(a: Id, b: Id): Id {
    match a
    case Empty => b
    case Char(c, rest) => Char(c, Concat(rest, b))
  }

  predicate HasPrefix(a: Id, prefix: Id) {
    match prefix
    case Empty => true
    case Char(c, rest) => a.Char? && a.head == c && HasPrefix(a.tail, rest)
  }

  /** The strict lexicographic order on identifiers. */
  predicate Before(a: Id, b: Id) {
    b.Char? && (a.Empty? || a.head < b.head || (a.head == b.head && Before(a.tail, b.tail)))
  }

  lemma {:induction false} BeforeTransitive(a: Id, b: Id, c: Id)
    requires Before(a, b) && Before(b, c)
    ensures Before(a, c)
  {
    if a.Char? && a.head == b.head == c.head {
      BeforeTransitive(a.tail, b.tail, c.tail);
    }
  }

  lemma {:induction false} BeforeIsTotal(a: Id, b: Id)
    ensures a == b || Before(a, b) || Before(b, a)
    ensures !(Before(a, b) && Before(b, a))
    ensures !Before(a, a)
  {
    if a.Char? {
      BeforeIsTotal(a.tail, a.tail);
    }
    if a.Char? && b.Char? && a.head == b.head {
      BeforeIsTotal(a.tail, b.tail);
    }
  }

  lemma {:induction false} ConcatHasPrefix(prefix: Id, rest: Id)
    ensures HasPrefix(Concat(prefix, rest), prefix)
  {
    if prefix.Char? {
      ConcatHasPrefix(prefix.tail, rest);
    }
  }

  lemma {:induction false} RestOf(a: Id, prefix: Id) returns (rest: Id)
    requires HasPrefix(a, prefix)
    ensures a == Concat(prefix, rest)
  {
    if prefix.Char? {
      rest := RestOf(a.tail, prefix.tail);
    } else {
      rest := a;
    }
  }

  function Length(a: Id): nat {
    if a.Empty? then 0 else 1 + Length(a.tail)
  }

  function CharAt(a: Id, k: nat): char
    requires k < Length(a)
  {
    if k == 0 then a.head else CharAt(a.tail, k - 1)
  }

  /** The first `k` characters agree; then the first string ends, or has the smaller character. */
  ghost predicate Parts(a: Id, b: Id, k: nat) {
    && k <= Length(a) && k < Length(b)
    && (forall i: nat :: i < k ==> CharAt(a, i) == CharAt(b, i))
    && (k == Length(a) || CharAt(a, k) < CharAt(b, k))
  }

  lemma PartsLater(a: Id, b: Id, k: nat)
    requires a.Char? && b.Char? && a.head == b.head
    ensures Parts(a, b, k + 1) <==> Parts(a.tail, b.tail, k)
  {
    if Parts(a.tail, b.tail, k) {
      forall i: nat | i < k + 1
        ensures CharAt(a, i) == CharAt(b, i)
      {
        if i > 0 {
          assert CharAt(a.tail, i - 1) == CharAt(b.tail, i - 1);
        }
      }
    }
    if Parts(a, b, k + 1) {
      forall i: nat | i < k
        ensures CharAt(a.tail, i) == CharAt(b.tail, i)
      {
        assert CharAt(a, i + 1) == CharAt(b, i + 1);
      }
    }
  }

  lemma HeadsAgree(a: Id, b: Id, k: nat)
    requires Parts(a, b, k)
    ensures k > 0 <==> a.Char? && b.Char? && a.head == b.head
    ensures k == 0 ==> Before(a, b)
  {
    var first: nat := 0;
    assert k > 0 ==> CharAt(a, first) == CharAt(b, first);
    assert k == 0 && a.Char? ==> CharAt(a, first) < CharAt(b, first);
  }

  /** The order is that of strings: the first characters that differ decide, and a proper prefix comes
      first. */
  lemma {:induction false} BeforeIff(a: Id, b: Id)
    ensures Before(a, b) <==> exists k :: Parts(a, b, k)
  {
    if a.Char? && b.Char? && a.head == b.head {
      BeforeIff(a.tail, b.tail);
      if k :| Parts(a.tail, b.tail, k) {
        PartsLater(a, b, k);
      }
      if k: nat :| Parts(a, b, k) {
        HeadsAgree(a, b, k);
        PartsLater(a, b, k - 1);
      }
    } else if Before(a, b) {
      assert Parts(a, b, 0);
    } else if k: nat :| Parts(a, b, k) {
      HeadsAgree(a, b, k);
      assert false;
    }
  }

  predicate Sorted(s: seq<Id>) {
    forall i, j :: 0 <= i < j < |s| ==> !Before(s[j], s[i])
  }

  predicate Distinct<T(==)>(s: seq<T>) {
    forall i, j :: 0 <= i < j < |s| ==> s[i] != s[j]
  }

  function Elements<T>(s: seq<T>): set<T> {
    set x | x in s
  }

  /** Puts `x` in front of the first element that does not come before it. */
  function Insert(x: Id, s: seq<Id>): (r: seq<Id>)
    requires Sorted(s)
    ensures multiset(r) == multiset(s) + multiset{x}
    ensures Sorted(r)
  {
    if s == [] then [x]
    else if Before(s[0], x) then
      var rest := Insert(x, s[1..]);
      assert s == [s[0]] + s[1..];
      HeadStaysFirst(s, x, rest);
      [s[0]] + rest
    else
      InsertInFront(x, s);
      [x] + s
  }

  lemma HeadStaysFirst(s: seq<Id>, x: Id, rest: seq<Id>)
    requires s != [] && Sorted(s) && Before(s[0], x) && Sorted(rest)
    requires multiset(rest) == multiset(s[1..]) + multiset{x}
    ensures Sorted([s[0]] + rest)
  {
    forall j | 0 <= j < |rest|
      ensures !Before(rest[j], s[0])
    {
      assert rest[j] in multiset(rest);
      BeforeIsTotal(s[0], x);
      assert rest[j] == x || rest[j] in s[1..];
    }
  }

  lemma InsertInFront(x: Id, s: seq<Id>)
    requires s != [] && Sorted(s) && !Before(s[0], x)
    ensures Sorted([x] + s)
  {
    forall j | 0 <= j < |s|
      ensures !Before(s[j], x)
    {
      BeforeIsTotal(x, s[0]);
      BeforeIsTotal(s[j], s[0]);
      if Before(s[j], x) {
        if x != s[0] {
          BeforeTransitive(s[j], x, s[0]);
        }
        assert false;
      }
    }
  }

  /** The sorted arrangement of `s`; stands for the library sort on strings. */
  function Sort(s: seq<Id>): (r: seq<Id>)
    ensures multiset(r) == multiset(s) && Sorted(r)
  {
    if s == [] then []
    else
      assert s == [s[0]] + s[1..];
      Insert(s[0], Sort(s[1..]))
  }

  lemma SameMultiset<T>(r: seq<T>, s: seq<T>)
    requires multiset(r) == multiset(s)
    ensures |r| == |s|
    ensures forall x :: x in r <==> x in s
    ensures Distinct(r) == Distinct(s)
  {
    assert |multiset(r)| == |r| && |multiset(s)| == |s|;
    forall x
      ensures x in r <==> x in s
    {
      assert x in r <==> x in multiset(r);
      assert x in s <==> x in multiset(s);
    }
    DistinctCounts(r);
    DistinctCounts(s);
  }

  /** A sequence is free of repetitions exactly when nothing occurs twice in its multiset. */
  lemma {:induction false} DistinctCounts<T>(s: seq<T>)
    ensures Distinct(s) <==> forall x :: multiset(s)[x] <= 1
  {
    if s != [] {
      var t := s[1..];
      assert s == [s[0]] + t;
      DistinctCounts(t);
      if Distinct(s) {
        assert Distinct(t) by {
          forall i, j | 0 <= i < j < |t|
            ensures t[i] != t[j]
          {
            assert t[i] == s[i + 1] && t[j] == s[j + 1];
          }
        }
        assert s[0] !in t;
        assert multiset(t)[s[0]] == 0;
      } else {
        var i, j :| 0 <= i < j < |s| && s[i] == s[j];
        if i == 0 {
          assert t[j - 1] == s[0];
          assert s[0] in multiset(t);
          assert multiset(s)[s[0]] > 1;
        } else {
          assert t[i - 1] == t[j - 1];
          var x :| multiset(t)[x] > 1;
          assert multiset(s)[x] > 1;
        }
      }
    }
  }

  lemma SortedHeadsAgree(a: seq<Id>, b: seq<Id>)
    requires Sorted(a) && Sorted(b) && a != [] && b != []
    requires a[0] in b && b[0] in a
    ensures a[0] == b[0]
  {
    var i :| 0 <= i < |a| && a[i] == b[0];
    var j :| 0 <= j < |b| && b[j] == a[0];
    BeforeIsTotal(a[0], b[0]);
  }

  lemma DropHead<T>(a: seq<T>)
    requires a != []
    ensures multiset(a[1..]) == multiset(a) - multiset{a[0]}
  {
    assert a == [a[0]] + a[1..];
  }

  /** A multiset of identifiers has one sorted arrangement only, so `Sort` forgets input order. */
  lemma {:induction false} SortedIsUnique(a: seq<Id>, b: seq<Id>)
    requires Sorted(a) && Sorted(b) && multiset(a) == multiset(b)
    ensures a == b
  {
    SameMultiset(a, b);
    if a != [] {
      SortedHeadsAgree(a, b);
      DropHead(a);
      DropHead(b);
      SortedIsUnique(a[1..], b[1..]);
      assert a == [a[0]] + a[1..] && b == [b[0]] + b[1..];
    }
  }

  lemma SortForgetsOrder(a: seq<Id>, b: seq<Id>)
    requires multiset(a) == multiset(b)
    ensures Sort(a) == Sort(b)
  {
    SortedIsUnique(Sort(a), Sort(b));
  }

  lemma SortedSetsAgree(a: seq<Id>, b: seq<Id>)
    requires Sorted(a) && Sorted(b) && Distinct(a) && Distinct(b)
    requires forall n :: n in a <==> n in b
    ensures a == b
  {
    DistinctCounts(a);
    DistinctCounts(b);
    forall n
      ensures multiset(a)[n] == multiset(b)[n]
    {
      assert n in multiset(a) <==> n in a;
      assert n in multiset(b) <==> n in b;
    }
    SortedIsUnique(a, b);
  }

  lemma DistinctAppend<T>(a: seq<T>, b: seq<T>)
    requires Distinct(a) && Distinct(b) && forall x :: x in a ==> x !in b
    ensures Distinct(a + b)
  {
    forall i, j | 0 <= i < j < |a + b|
      ensures (a + b)[i] != (a + b)[j]
    {
      if i < |a| <= j {
        assert a[i] in a && b[j - |a|] in b;
      }
    }
  }

  lemma DistinctTail<T>(s: seq<T>)
    requires s != [] && Distinct(s)
    ensures Distinct(s[1..]) && s[0] !in s[1..]
    ensures forall x :: x in s <==> x == s[0] || x in s[1..]
  {
    assert s == [s[0]] + s[1..];
    forall i, j | 0 <= i < j < |s[1..]|
      ensures s[1..][i] != s[1..][j]
    {
      assert s[1..][i] == s[i + 1] && s[1..][j] == s[j + 1];
    }
    forall k | 0 <= k < |s[1..]|
      ensures s[1..][k] != s[0]
    {
      assert s[1..][k] == s[k + 1];
    }
  }

  lemma DistinctInsert<T>(a: seq<T>, x: T, b: seq<T>)
    requires Distinct(a + b) && x !in a + b
    ensures Distinct(a + [x] + b)
  {
    var before, after := a + b, a + [x] + b;
    forall i, j | 0 <= i < j < |after|
      ensures after[i] != after[j]
    {
      assert i < |a| ==> after[i] == before[i];
      assert i > |a| ==> after[i] == before[i - 1];
      assert j < |a| ==> after[j] == before[j];
      assert j > |a| ==> after[j] == before[j - 1];
    }
  }

  /** A repetition-free list of members of a finite set is no longer than the set. */
  lemma {:induction false} Pigeonhole<T>(s: seq<T>, bound: set<T>)
    requires Distinct(s) && forall x :: x in s ==> x in bound
    ensures |s| <= |bound|
  {
    if s != [] {
      var t := s[..|s| - 1];
      var last := s[|s| - 1];
      forall x | x in t
        ensures x in bound - {last}
      {
        assert exists i :: 0 <= i < |t| && t[i] == x;
      }
      Pigeonhole(t, bound - {last});
    }
  }

  /** A repetition-free list has as many entries as it has elements. */
  lemma {:induction false} DistinctSize<T>(s: seq<T>)
    requires Distinct(s)
    ensures |Elements(s)| == |s|
  {
    if s != [] {
      var t := s[..|s| - 1];
      DistinctSize(t);
      assert s == t + [s[|s| - 1]];
      assert Elements(s) == Elements(t) + {s[|s| - 1]};
    }
  }
}
