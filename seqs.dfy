/**
 * List operations the Java code gets from java.util: removal of the first
 * equal element (List.remove(Object)), first-match index (List.indexOf),
 * stream filtering, and the duplicate-free property the core keeps.
 */
module Seqs {

  datatype Option<T> = None | Some(value: T)

  predicate NoDup<T(==)>(s: seq<T>)
  {
    forall i, j :: 0 <= i < j < |s| ==> s[i] != s[j]
  }

  /** Like List.indexOf: the index of the first element equal to x, with |s| in place of -1 when there is none. */
  function IndexOf<T(==)>(s: seq<T>, x: T): (i: nat)
    ensures i <= |s|
    ensures i < |s| ==> s[i] == x
    ensures forall j :: 0 <= j < i ==> s[j] != x
    ensures i == |s| <==> x !in s
  {
    if s == [] then 0 else if s[0] == x then 0 else 1 + IndexOf(s[1..], x)
  }

  /** List.remove(Object): removes the first element equal to x, if there is one. */
  function RemoveFirst<T(==)>(s: seq<T>, x: T): seq<T>
  {
    if s == [] then [] else if s[0] == x then s[1..] else [s[0]] + RemoveFirst(s[1..], x)
  }

  /** Putting the head back in front of a tail with index i dropped drops index i + 1. */
  lemma ConsDrop<T>(s: seq<T>, i: nat)
    requires i + 1 < |s|
    ensures [s[0]] + (s[1..][..i] + s[1..][i + 1..]) == s[..i + 1] + s[i + 2..]
  {
    assert [s[0]] + s[1..][..i] == s[..i + 1];
    assert s[1..][i + 1..] == s[i + 2..];
  }

  /**
   * Removal drops exactly the first occurrence and keeps every other element
   * in its place; it is a no-op when x is absent.
   */
  lemma {:induction false} RemoveFirstSpec<T>(s: seq<T>, x: T)
    ensures var i := IndexOf(s, x);
            RemoveFirst(s, x) == if i < |s| then s[..i] + s[i + 1..] else s
  {
    if s != [] && s[0] != x {
      RemoveFirstSpec(s[1..], x);
      var i := IndexOf(s[1..], x);
      assert IndexOf(s, x) == i + 1;
      assert RemoveFirst(s, x) == [s[0]] + RemoveFirst(s[1..], x);
      if i < |s| - 1 {
        ConsDrop(s, i);
      } else {
        assert [s[0]] + s[1..] == s;
      }
    }
  }

  /** Dropping the element at index i shifts the later elements down by one. */
  lemma DropAt<T>(s: seq<T>, i: nat)
    requires i < |s|
    ensures |s[..i] + s[i + 1..]| == |s| - 1
    ensures forall k :: 0 <= k < |s| - 1 ==> (s[..i] + s[i + 1..])[k] == if k < i then s[k] else s[k + 1]
  {
  }

  /** Dropping index i keeps every element other than s[i]. */
  lemma DropAtMembers<T>(s: seq<T>, i: nat)
    requires i < |s|
    ensures forall y :: y != s[i] ==> (y in s[..i] + s[i + 1..] <==> y in s)
  {
    var r := s[..i] + s[i + 1..];
    DropAt(s, i);
    forall y | y != s[i] && y in s
      ensures y in r
    {
      var k :| 0 <= k < |s| && s[k] == y;
      assert r[if k < i then k else k - 1] == y;
    }
  }

  /** Dropping index i of a duplicate-free list leaves it duplicate-free and without s[i]. */
  lemma DropAtNoDup<T>(s: seq<T>, i: nat)
    requires i < |s| && NoDup(s)
    ensures NoDup(s[..i] + s[i + 1..])
    ensures s[i] !in s[..i] + s[i + 1..]
  {
    var r := s[..i] + s[i + 1..];
    DropAt(s, i);
    forall a, b | 0 <= a < b < |r|
      ensures r[a] != r[b]
    {
      var a', b' := if a < i then a else a + 1, if b < i then b else b + 1;
      assert r[a] == s[a'] && r[b] == s[b'] && a' < b';
    }
    forall k | 0 <= k < |r|
      ensures r[k] != s[i]
    {
      assert r[k] == s[if k < i then k else k + 1];
    }
  }

  /** On a duplicate-free list, removal leaves x absent, keeps the rest and keeps the list duplicate-free. */
  lemma RemoveFirstNoDup<T>(s: seq<T>, x: T)
    requires NoDup(s)
    ensures x !in RemoveFirst(s, x)
    ensures NoDup(RemoveFirst(s, x))
    ensures forall y :: y != x ==> (y in RemoveFirst(s, x) <==> y in s)
    ensures |RemoveFirst(s, x)| == if x in s then |s| - 1 else |s|
  {
    RemoveFirstSpec(s, x);
    var i := IndexOf(s, x);
    if i < |s| {
      DropAt(s, i);
      DropAtMembers(s, i);
      DropAtNoDup(s, i);
    }
  }

  /** Removing twice has the same effect as removing once, on a duplicate-free list. */
  lemma RemoveFirstIdempotent<T>(s: seq<T>, x: T)
    requires NoDup(s)
    ensures RemoveFirst(RemoveFirst(s, x), x) == RemoveFirst(s, x)
  {
    RemoveFirstNoDup(s, x);
    RemoveFirstSpec(RemoveFirst(s, x), x);
  }

  /** Appending x when it is absent keeps a list duplicate-free. */
  lemma AppendNoDup<T>(s: seq<T>, x: T)
    requires NoDup(s) && x !in s
    ensures NoDup(s + [x])
  {
  }

  /** Stream filter: the elements satisfying f, in their original order. */
  function Filter<T>(s: seq<T>, f: T -> bool): seq<T>
  {
    if s == [] then [] else Filter(s[..|s| - 1], f) + (if f(s[|s| - 1]) then [s[|s| - 1]] else [])
  }

  /** An element is kept exactly when it is in the list and satisfies f. */
  lemma {:induction false} FilterMembership<T>(s: seq<T>, f: T -> bool)
    ensures forall x :: x in Filter(s, f) <==> x in s && f(x)
  {
    if s != [] {
      FilterMembership(s[..|s| - 1], f);
      assert s == s[..|s| - 1] + [s[|s| - 1]];
    }
  }

  /** Filtering commutes with appending, so filtering preserves order. */
  lemma {:induction false} FilterAppend<T>(a: seq<T>, b: seq<T>, f: T -> bool)
    ensures Filter(a + b, f) == Filter(a, f) + Filter(b, f)
    decreases |b|
  {
    if b == [] {
      assert a + b == a;
    } else {
      assert (a + b)[..|a + b| - 1] == a + b[..|b| - 1];
      FilterAppend(a, b[..|b| - 1], f);
    }
  }

  /** The filter that keeps what is not in d. */
  function NotIn<T(==)>(d: seq<T>): T -> bool
  {
    x => x !in d
  }

  /** Nothing is filtered out by an empty exclusion list. */
  lemma {:induction false} Unfiltered<T>(s: seq<T>)
    ensures Filter(s, NotIn([])) == s
  {
    if s != [] {
      Unfiltered(s[..|s| - 1]);
    }
  }

  /** Removal from a concatenation happens in the first part that holds x. */
  lemma {:induction false} RemoveFirstAppend<T>(a: seq<T>, b: seq<T>, x: T)
    ensures RemoveFirst(a + b, x) == if x in a then RemoveFirst(a, x) + b else a + RemoveFirst(b, x)
  {
    if a == [] {
      assert a + b == b;
    } else if a[0] == x {
      assert (a + b)[1..] == a[1..] + b;
    } else {
      assert (a + b)[1..] == a[1..] + b;
      RemoveFirstAppend(a[1..], b, x);
      assert x in a <==> x in a[1..] by {
        assert a == [a[0]] + a[1..];
      }
      ConcatAssoc([a[0]], a[1..], b);
      if x in a[1..] {
        ConcatAssoc([a[0]], RemoveFirst(a[1..], x), b);
      } else {
        ConcatAssoc([a[0]], a[1..], RemoveFirst(b, x));
        assert [a[0]] + a[1..] == a;
      }
    }
  }

  /** Filters that agree on every element of s keep the same elements. */
  lemma {:induction false} FilterCongruent<T>(s: seq<T>, f: T -> bool, g: T -> bool)
    requires forall x :: x in s ==> f(x) == g(x)
    ensures Filter(s, f) == Filter(s, g)
  {
    if s != [] {
      FilterCongruent(s[..|s| - 1], f, g);
    }
  }

  /**
   * On a duplicate-free list, removing p from what is not in d leaves what
   * is not in d + [p].
   */
  lemma {:induction false} FilterNotInStep<T>(s: seq<T>, d: seq<T>, p: T)
    requires NoDup(s) && p !in d
    ensures RemoveFirst(Filter(s, NotIn(d)), p) == Filter(s, NotIn(d + [p]))
  {
    if s != [] {
      var init, h := s[..|s| - 1], s[|s| - 1];
      assert NoDup(init);
      var a := Filter(init, NotIn(d));
      var b := if h !in d then [h] else [];
      assert Filter(s, NotIn(d)) == a + b;
      assert Filter(s, NotIn(d + [p])) == Filter(init, NotIn(d + [p])) + (if h !in d + [p] then [h] else []);
      RemoveFirstAppend(a, b, p);
      FilterMembership(init, NotIn(d));
      if h == p {
        assert p !in init;
        FilterCongruent(init, NotIn(d), NotIn(d + [p]));
        RemoveFirstSpec(a, p);
      } else {
        FilterNotInStep(init, d, p);
        if p !in a {
          RemoveFirstSpec(a, p);
          RemoveFirstSpec(b, p);
        }
      }
    }
  }

  lemma ConcatAssoc<T>(x: seq<T>, y: seq<T>, z: seq<T>)
    ensures (x + y) + z == x + (y + z)
  {
  }

  /** Removing an element the second part lacks only touches the first part. */
  lemma RemoveFirstFront<T>(a: seq<T>, b: seq<T>, x: T)
    requires x !in b
    ensures RemoveFirst(a + b, x) == RemoveFirst(a, x) + b
  {
    RemoveFirstAppend(a, b, x);
    RemoveFirstSpec(a, x);
    RemoveFirstSpec(b, x);
  }

  /** Filtering a one-element list. */
  lemma FilterSingle<T>(p: T, keep: T -> bool)
    ensures Filter([p], keep) == if keep(p) then [p] else []
  {
    assert [p][..0] == [];
  }

  /**
   * The players of an instance after some moves: the original ones that were
   * not moved, then the moved ones that `keep` admits, in order. Moving one
   * more player p (removed, then appended if admitted) extends the pattern.
   */
  lemma {:induction false} AdmitStep<T>(s: seq<T>, d: seq<T>, p: T, keep: T -> bool)
    requires NoDup(s) && p !in d
    ensures RemoveFirst(Filter(s, NotIn(d)) + Filter(d, keep), p) + (if keep(p) then [p] else [])
            == Filter(s, NotIn(d + [p])) + Filter(d + [p], keep)
  {
    var a, b := Filter(s, NotIn(d)), Filter(d, keep);
    var a', b' := Filter(s, NotIn(d + [p])), Filter(d + [p], keep);
    var e := if keep(p) then [p] else [];
    assert p !in b by {
      FilterMembership(d, keep);
    }
    assert RemoveFirst(a + b, p) == a' + b by {
      RemoveFirstFront(a, b, p);
      FilterNotInStep(s, d, p);
    }
    assert b' == b + e by {
      FilterAppend(d, [p], keep);
      FilterSingle(p, keep);
    }
    ConcatAssoc(a', b, e);
  }
}
