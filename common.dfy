/** Small shared vocabulary: optional values, C unsigned 32-bit conversion, and
    the list operations that wl_list_insert / wl_list_remove perform on the
    intrusive lists of the compositor and of the client library. */
module Common {

  /** A nullable pointer or an absent value. */
  datatype Option<+T> = None | Some(value: T)

  const U32_MODULUS: int := 0x1_0000_0000

  /** Conversion of a C integer to uint32_t (or multiplication result kept in
      32-bit unsigned arithmetic): reduction modulo 2^32. Dafny's `%` is
      Euclidean, so a negative int32 maps to its two's-complement value. */
  function ToU32(x: int): (r: int)
    ensures 0 <= r < U32_MODULUS
    ensures 0 <= x < U32_MODULUS ==> r == x
    ensures -U32_MODULUS <= x < 0 ==> r == x + U32_MODULUS
  {
    x % U32_MODULUS
  }

  const I32_MODULUS: int := 0x8000_0000

  /** Conversion of an integer to int32_t by two's-complement wrap-around
      (what C compilers do for an unsigned value that does not fit). */
  function ToI32(x: int): (r: int)
    ensures -I32_MODULUS <= r < I32_MODULUS
    ensures -I32_MODULUS <= x < I32_MODULUS ==> r == x
    ensures (r - x) % U32_MODULUS == 0
  {
    (x + I32_MODULUS) % U32_MODULUS - I32_MODULUS
  }

  /** No element occurs twice: the shape of an intrusive list, where a node
      can be linked at most once. */
  predicate Distinct<T(==)>(s: seq<T>) {
    forall i, j :: 0 <= i < j < |s| ==> s[i] != s[j]
  }

  /** The list after wl_list_remove of the node x: every other element, in
      the order it had. */
  function Without<T(==)>(s: seq<T>, x: T): (r: seq<T>)
    ensures |r| <= |s|
    ensures x !in s ==> r == s
  {
    if s == [] then []
    else
      assert s == [s[0]] + s[1..];
      if s[0] == x then Without(s[1..], x)
      else [s[0]] + Without(s[1..], x)
  }

  /** Removing x drops every occurrence of x and keeps every other element
      as often as it occurred. */
  lemma {:induction false} WithoutMultiset<T>(s: seq<T>, x: T)
    ensures multiset(Without(s, x)) == multiset(s)[x := 0]
  {
    if s != [] {
      assert s == [s[0]] + s[1..];
      WithoutMultiset(s[1..], x);
    }
  }

  /** The members of the list after removing x are the other members. */
  lemma WithoutMembers<T>(s: seq<T>, x: T, y: T)
    ensures y in Without(s, x) <==> y in s && y != x
  {
    WithoutMultiset(s, x);
    var r := Without(s, x);
    assert y in r <==> y in multiset(r);
    assert y in s <==> y in multiset(s);
  }

  /** When every member of s belongs to t, so does the head of s. */
  lemma HeadMember<T>(s: seq<T>, t: seq<T>)
    requires forall x :: x in s ==> x in t
    ensures s != [] ==> s[0] in t
  {
  }

  /** The tail of a duplicate-free list is duplicate-free and does not hold
      its head. */
  lemma DistinctTail<T>(s: seq<T>)
    requires s != [] && Distinct(s)
    ensures Distinct(s[1..]) && s[0] !in s[1..]
  {
    forall a, b | 0 <= a < b < |s[1..]| ensures s[1..][a] != s[1..][b] {
      assert s[1..][a] == s[a + 1] && s[1..][b] == s[b + 1];
    }
    forall k | 0 <= k < |s[1..]| ensures s[1..][k] != s[0] {
      assert s[1..][k] == s[k + 1];
    }
  }

  /** Linking a new node at the head of a duplicate-free list keeps it
      duplicate-free. */
  lemma DistinctCons<T>(x: T, r: seq<T>)
    requires Distinct(r) && x !in r
    ensures Distinct([x] + r)
  {
    forall a, b | 0 <= a < b < |[x] + r| ensures ([x] + r)[a] != ([x] + r)[b] {
      assert ([x] + r)[b] == r[b - 1];
      if a > 0 {
        assert ([x] + r)[a] == r[a - 1];
      }
    }
  }

  /** Removing a node that sits at index i of a list without duplicates
      leaves exactly the elements before it followed by those after it: the
      other nodes keep their relative order. */
  lemma {:induction false} WithoutAt<T>(s: seq<T>, i: nat)
    requires i < |s| && Distinct(s)
    ensures Without(s, s[i]) == s[..i] + s[i + 1..]
  {
    DistinctTail(s);
    if i == 0 {
      assert s[..0] + s[1..] == s[1..];
    } else {
      assert s[1..][i - 1] == s[i];
      WithoutAt(s[1..], i - 1);
      assert s[0] != s[i];
      WithoutPastHead(s, i);
    }
  }

  /** One step of WithoutAt: a head different from the removed element
      stays in front of what remains of the tail. */
  lemma WithoutPastHead<T>(s: seq<T>, i: nat)
    requires 0 < i < |s| && s[0] != s[i]
    requires Without(s[1..], s[i]) == s[1..][..i - 1] + s[1..][i..]
    ensures Without(s, s[i]) == s[..i] + s[i + 1..]
  {
    var t := s[1..];
    assert s[..i] == [s[0]] + t[..i - 1];
    assert s[i + 1..] == t[i..];
    calc {
      Without(s, s[i]);
      [s[0]] + Without(t, s[i]);
      [s[0]] + (t[..i - 1] + t[i..]);
      ([s[0]] + t[..i - 1]) + t[i..];
    }
  }

  /** Removing an element keeps a list free of duplicates. */
  lemma {:induction false} WithoutDistinct<T>(s: seq<T>, x: T)
    requires Distinct(s)
    ensures Distinct(Without(s, x))
  {
    if s != [] {
      DistinctTail(s);
      WithoutDistinct(s[1..], x);
      if s[0] != x {
        WithoutMembers(s[1..], x, s[0]);
        DistinctCons(s[0], Without(s[1..], x));
      }
    }
  }

  /** A member of a duplicate-free list occurs in it exactly once. */
  lemma {:induction false} DistinctOnce<T>(s: seq<T>, x: T)
    requires Distinct(s) && x in s
    ensures multiset(s)[x] == 1
  {
    DistinctTail(s);
    assert s == [s[0]] + s[1..];
    if s[0] == x {
      assert multiset(s[1..])[x] == 0;
    } else {
      DistinctOnce(s[1..], x);
    }
  }

  /** Moving a member of a duplicate-free list to the head (wl_list_remove
      followed by wl_list_insert at the head) keeps it a permutation of the
      same elements without duplicates. */
  lemma MoveToFront<T>(s: seq<T>, x: T)
    requires Distinct(s) && x in s
    ensures Distinct([x] + Without(s, x))
    ensures multiset([x] + Without(s, x)) == multiset(s)
    ensures |[x] + Without(s, x)| == |s|
    ensures forall k :: 0 <= k < |s| ==> ([x] + Without(s, x))[k] in s
  {
    var r := [x] + Without(s, x);
    WithoutMultiset(s, x);
    WithoutDistinct(s, x);
    WithoutMembers(s, x, x);
    DistinctCons(x, Without(s, x));
    DistinctOnce(s, x);
    assert multiset(r) == multiset(s);
    assert |r| == |multiset(r)|;
    forall k | 0 <= k < |s| ensures r[k] in s {
      assert r[k] in multiset(r);
    }
  }

  /** Linking a node that is not in the list at the head and moving it to
      the head again leaves the list as it was after the first link. */
  lemma WithoutHead<T>(x: T, s: seq<T>)
    requires x !in s
    ensures Without([x] + s, x) == s
  {
    assert ([x] + s)[1..] == s;
  }

  /** Unlinking a node that occurs once, between two runs without it,
      joins the two runs. */
  lemma {:induction false} WithoutMiddle<T>(a: seq<T>, x: T, b: seq<T>)
    requires x !in a && x !in b
    ensures Without(a + [x] + b, x) == a + b
  {
    if a == [] {
      assert a + [x] + b == [x] + b;
      assert ([x] + b)[1..] == b;
    } else {
      assert (a + [x] + b)[1..] == a[1..] + [x] + b;
      WithoutMiddle(a[1..], x, b);
      assert a + b == [a[0]] + (a[1..] + b);
    }
  }
}
