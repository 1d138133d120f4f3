/** sort.Strings: Go's byte-wise order on strings, and why sorting forgets the order it was given. */
module Sorting {
  import opened Text

  predicate Le(a: Bytes, b: Bytes)
    decreases |a|
  {
    a == [] || (b != [] && (a[0] < b[0] || (a[0] == b[0] && Le(a[1..], b[1..]))))
  }

  lemma {:induction false} LeTotal(a: Bytes, b: Bytes)
    ensures Le(a, b) || Le(b, a)
    decreases |a|
  {
    if a != [] && b != [] && a[0] == b[0] {
      LeTotal(a[1..], b[1..]);
    }
  }

  lemma {:induction false} LeAntisymmetric(a: Bytes, b: Bytes)
    requires Le(a, b) && Le(b, a)
    ensures a == b
    decreases |a|
  {
    if a != [] {
      LeAntisymmetric(a[1..], b[1..]);
      assert a == [a[0]] + a[1..] && b == [b[0]] + b[1..];
    }
  }

  lemma {:induction false} LeTransitive(a: Bytes, b: Bytes, c: Bytes)
    requires Le(a, b) && Le(b, c)
    ensures Le(a, c)
    decreases |a|
  {
    if a != [] && a[0] == b[0] == c[0] {
      LeTransitive(a[1..], b[1..], c[1..]);
    }
  }

  /** No string of the list is smaller than `x`. */
  ghost predicate Above(x: Bytes, s: seq<Bytes>) {
    forall y | y in s :: Le(x, y)
  }

  ghost predicate Sorted(s: seq<Bytes>)
    decreases |s|
  {
    s == [] || (Above(s[0], s[1..]) && Sorted(s[1..]))
  }

  function Insert(x: Bytes, s: seq<Bytes>): seq<Bytes>
    decreases |s|
  {
    if s == [] || Le(x, s[0]) then [x] + s else [s[0]] + Insert(x, s[1..])
  }

  function Sort(s: seq<Bytes>): seq<Bytes>
    decreases |s|
  {
    if s == [] then [] else Insert(s[0], Sort(s[1..]))
  }

  lemma {:induction false} HeadTail<T>(s: seq<T>)
    requires s != []
    ensures multiset(s) == multiset{s[0]} + multiset(s[1..])
  {
    assert s == [s[0]] + s[1..];
  }

  lemma {:induction false} ConsMultiset<T>(x: T, s: seq<T>)
    ensures multiset([x] + s) == multiset{x} + multiset(s)
  {
  }

  lemma {:induction false} InsertAdds(x: Bytes, s: seq<Bytes>)
    ensures multiset(Insert(x, s)) == multiset{x} + multiset(s)
    decreases |s|
  {
    if s == [] || Le(x, s[0]) {
      ConsMultiset(x, s);
    } else {
      InsertAdds(x, s[1..]);
      ConsMultiset(s[0], Insert(x, s[1..]));
      HeadTail(s);
    }
  }

  lemma {:induction false} SameMembers<T>(a: seq<T>, x: T, b: seq<T>)
    requires multiset(a) == multiset{x} + multiset(b)
    ensures forall y :: y in a <==> y == x || y in b
  {
    forall y
      ensures y in a <==> y == x || y in b
    {
      assert y in a <==> y in multiset(a);
      assert y in b <==> y in multiset(b);
    }
  }

  lemma {:induction false} InsertSorts(x: Bytes, s: seq<Bytes>)
    requires Sorted(s)
    ensures Sorted(Insert(x, s))
    decreases |s|
  {
    if s == [] {
    } else if Le(x, s[0]) {
      forall y | y in s
        ensures Le(x, y)
      {
        LeTransitiveFromHead(x, s, y);
      }
      assert ([x] + s)[1..] == s;
    } else {
      InsertSorts(x, s[1..]);
      LeTotal(x, s[0]);
      var rest := Insert(x, s[1..]);
      InsertAdds(x, s[1..]);
      SameMembers(rest, x, s[1..]);
      assert ([s[0]] + rest)[1..] == rest;
      assert Above(s[0], rest);
    }
  }

  lemma {:induction false} LeTransitiveFromHead(x: Bytes, s: seq<Bytes>, y: Bytes)
    requires Sorted(s) && s != [] && Le(x, s[0]) && y in s
    ensures Le(x, y)
  {
    if y != s[0] {
      assert y in s[1..];
      LeTransitive(x, s[0], y);
    }
  }

  lemma {:induction false} SortSorts(s: seq<Bytes>)
    ensures Sorted(Sort(s)) && multiset(Sort(s)) == multiset(s)
    decreases |s|
  {
    if s != [] {
      SortSorts(s[1..]);
      InsertSorts(s[0], Sort(s[1..]));
      InsertAdds(s[0], Sort(s[1..]));
      HeadTail(s);
    }
  }

  lemma {:induction false} SortedIsUnique(a: seq<Bytes>, b: seq<Bytes>)
    requires Sorted(a) && Sorted(b) && multiset(a) == multiset(b)
    ensures a == b
    decreases |a|
  {
    assert |a| == |multiset(a)| == |multiset(b)| == |b|;
    if a != [] {
      HeadTail(a);
      HeadTail(b);
      SameHead(a, b);
      assert multiset(a[1..]) == multiset(a) - multiset{a[0]};
      SortedIsUnique(a[1..], b[1..]);
      Rejoin(a, b);
    }
  }

  lemma {:induction false} Rejoin<T>(a: seq<T>, b: seq<T>)
    requires a != [] && b != [] && a[0] == b[0] && a[1..] == b[1..]
    ensures a == b
  {
    assert a == [a[0]] + a[1..] && b == [b[0]] + b[1..];
  }

  lemma {:induction false} SameHead(a: seq<Bytes>, b: seq<Bytes>)
    requires a != [] && b != [] && Sorted(a) && Sorted(b) && multiset(a) == multiset(b)
    ensures a[0] == b[0]
  {
    assert a[0] in multiset(b) && b[0] in multiset(a);
    HeadIsLeast(a, b[0]);
    HeadIsLeast(b, a[0]);
    LeAntisymmetric(a[0], b[0]);
  }

  lemma {:induction false} HeadIsLeast(a: seq<Bytes>, x: Bytes)
    requires Sorted(a) && x in a
    ensures Le(a[0], x)
  {
    LeTotal(x, x);
    if x != a[0] {
      assert x in a[1..];
    }
  }

  /** Sorting forgets the order of its input. */
  lemma {:induction false} SortForgetsOrder(a: seq<Bytes>, b: seq<Bytes>)
    requires multiset(a) == multiset(b)
    ensures Sort(a) == Sort(b)
  {
    SortSorts(a);
    SortSorts(b);
    SortedIsUnique(Sort(a), Sort(b));
  }
}
