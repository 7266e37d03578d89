/** The operations of a .NET `List<T>` that the game code applies to its lists:
    `RemoveAt`, `Remove` and repeated `Remove`, with what they promise. */
module Lists {

  /** No element occurs twice. */
  predicate Distinct<T(==)>(s: seq<T>) {
    forall x | x in s :: multiset(s)[x] <= 1
  }

  /** Distinctness read pairwise: two different indices of a list without repetitions
      hold different elements. */
  lemma DistinctPairwise<T>(s: seq<T>, i: nat, j: nat)
    requires i < j < |s|
    ensures Distinct(s) ==> s[i] != s[j]
  {
    if s[i] == s[j] {
      assert s == s[..i] + [s[i]] + s[i + 1..j] + [s[j]] + s[j + 1..];
      assert multiset(s)[s[i]] >= 2;
    }
  }

  /** Two lists without repetitions and without common elements join into one without
      repetitions. */
  lemma DistinctAppend<T>(a: seq<T>, b: seq<T>)
    requires Distinct(a) && Distinct(b)
    requires forall x :: x in a ==> x !in b
    ensures Distinct(a + b)
  {
    forall x | x in a + b ensures multiset(a + b)[x] <= 1 {
      assert multiset(a + b)[x] == multiset(a)[x] + multiset(b)[x];
    }
  }

  /** Both parts of a list without repetitions are without repetitions. */
  lemma DistinctParts<T>(a: seq<T>, b: seq<T>)
    requires Distinct(a + b)
    ensures Distinct(a) && Distinct(b)
  {
    forall x | x in a ensures multiset(a)[x] <= 1 {
      assert multiset(a + b)[x] == multiset(a)[x] + multiset(b)[x];
    }
    forall x | x in b ensures multiset(b)[x] <= 1 {
      assert multiset(a + b)[x] == multiset(a)[x] + multiset(b)[x];
    }
  }

  /** Splitting a list without repetitions into two parts (as multisets) gives two parts
      without common or repeated elements, each drawn from the list. */
  lemma DistinctSplit<T>(s: seq<T>, a: seq<T>, b: seq<T>)
    requires Distinct(s)
    requires multiset(a) + multiset(b) == multiset(s)
    ensures Distinct(a + b)
    ensures forall x :: x in a ==> x in s && x !in b
    ensures forall x :: x in b ==> x in s
  {
    assert multiset(a + b) == multiset(s);
    forall x | x in a + b ensures multiset(a + b)[x] <= 1 {
      assert x in multiset(s);
    }
    forall x | x in a ensures x in s && x !in b {
      assert multiset(s)[x] == multiset(a)[x] + multiset(b)[x];
    }
    forall x | x in b ensures x in s {
      assert multiset(s)[x] == multiset(a)[x] + multiset(b)[x];
    }
  }

  /** `List.RemoveAt(i)`: the entry at index i goes and the others keep their order. */
  function RemoveAt<T>(s: seq<T>, i: nat): (r: seq<T>)
    requires i < |s|
    ensures |r| == |s| - 1
    ensures forall j :: 0 <= j < i ==> r[j] == s[j]
    ensures forall j :: i <= j < |r| ==> r[j] == s[j + 1]
    ensures multiset(r) == multiset(s) - multiset{s[i]}
  {
    assert s == s[..i] + [s[i]] + s[i + 1..];
    s[..i] + s[i + 1..]
  }

  /** The index of the first occurrence of x. */
  function IndexOf<T(==)>(s: seq<T>, x: T): (k: nat)
    requires x in s
    ensures k < |s| && s[k] == x && x !in s[..k]
  {
    if s[0] == x then 0
    else
      var k := IndexOf(s[1..], x);
      assert s[..k + 1] == [s[0]] + s[1..][..k];
      k + 1
  }

  /** `List.Remove(x)`: the first occurrence of x goes and the others keep their order;
      when x is absent the list is left as it is. */
  function Remove<T(==)>(s: seq<T>, x: T): (r: seq<T>)
    ensures x !in s ==> r == s
    ensures x in s ==> |r| == |s| - 1
  {
    if s == [] then []
    else if s[0] == x then s[1..]
    else [s[0]] + Remove(s[1..], x)
  }

  /** `Remove` takes one copy of x out of the multiset of entries, and none when x is absent. */
  lemma {:induction false} RemoveCount<T>(s: seq<T>, x: T)
    ensures multiset(Remove(s, x)) == multiset(s) - multiset{x}
  {
    if s != [] {
      assert s == [s[0]] + s[1..];
      if s[0] != x {
        RemoveCount(s[1..], x);
      }
    }
  }

  /** `Remove` takes out the first occurrence of x and nothing else: the entries before
      and after it keep their order. */
  lemma {:induction false} RemoveFirstOccurrence<T>(s: seq<T>, x: T)
    requires x in s
    ensures Remove(s, x) == s[..IndexOf(s, x)] + s[IndexOf(s, x) + 1..]
  {
    if s[0] != x {
      var t := s[1..];
      RemoveFirstOccurrence(t, x);
      var k := IndexOf(t, x);
      assert IndexOf(s, x) == k + 1;
      assert Remove(t, x) == t[..k] + t[k + 1..];
      assert [s[0]] + t[..k] == s[..k + 1];
      assert t[k + 1..] == s[k + 2..];
    }
  }

  /** One `List.Remove` per element of xs, in the order of xs. */
  function RemoveEach<T(==)>(s: seq<T>, xs: seq<T>): seq<T> {
    if xs == [] then s else Remove(RemoveEach(s, xs[..|xs| - 1]), xs[|xs| - 1])
  }

  /** `RemoveEach` takes one copy of each element of xs out of the multiset of entries
      (none for an element that is already gone). */
  lemma {:induction false} RemoveEachCount<T>(s: seq<T>, xs: seq<T>)
    ensures multiset(RemoveEach(s, xs)) == multiset(s) - multiset(xs)
  {
    if xs != [] {
      var init, last := xs[..|xs| - 1], xs[|xs| - 1];
      assert xs == init + [last];
      RemoveEachCount(s, init);
      RemoveCount(RemoveEach(s, init), last);
    }
  }

  lemma RemoveEachSnoc<T>(s: seq<T>, xs: seq<T>, x: T)
    ensures RemoveEach(s, xs + [x]) == Remove(RemoveEach(s, xs), x)
  {
    assert (xs + [x])[..|xs|] == xs;
  }

  /** Removing the elements of a + b is removing those of a, then those of b. */
  lemma {:induction false} RemoveEachAppend<T>(s: seq<T>, a: seq<T>, b: seq<T>)
    ensures RemoveEach(s, a + b) == RemoveEach(RemoveEach(s, a), b)
    decreases |b|
  {
    if b == [] {
      assert a + b == a;
    } else {
      var init, last := b[..|b| - 1], b[|b| - 1];
      RemoveEachAppend(s, a, init);
      assert a + b == (a + init) + [last];
      RemoveEachSnoc(s, a + init, last);
    }
  }

  /** On a list without repetitions, removing each element of xs leaves exactly the
      elements of s that are not in xs, still without repetitions. */
  lemma RemoveEachDistinct<T>(s: seq<T>, xs: seq<T>)
    requires Distinct(s)
    ensures Distinct(RemoveEach(s, xs))
    ensures forall x :: x in RemoveEach(s, xs) <==> x in s && x !in xs
  {
    var r := RemoveEach(s, xs);
    RemoveEachCount(s, xs);
    forall x ensures (x in r ==> multiset(r)[x] <= 1) && (x in r <==> x in s && x !in xs) {
      assert multiset(r)[x] == if multiset(s)[x] >= multiset(xs)[x] then multiset(s)[x] - multiset(xs)[x] else 0;
    }
  }
}
