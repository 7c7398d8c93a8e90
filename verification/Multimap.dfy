/** `std::multimap` keyed by coordinates, as a sequence in iteration order, with
    `nextNot` of Tools.h. */
module Multimap {
  import opened Basics
  import opened Model

  ghost predicate SortedByKey<T>(s: seq<T>, key: T -> Coord) {
    forall i, j :: 0 <= i < j < |s| ==> !Before(key(s[j]), key(s[i]))
  }

  /** The index where an equal key is inserted: after every entry not above it. */
  function UpperBound<T>(s: seq<T>, key: T -> Coord, c: Coord): (u: nat)
    ensures u <= |s|
    ensures forall i :: 0 <= i < u ==> !Before(c, key(s[i]))
    ensures u < |s| ==> Before(c, key(s[u]))
  {
    if s == [] || Before(c, key(s[0])) then 0
    else 1 + UpperBound(s[1..], key, c)
  }

  function Insert<T>(s: seq<T>, key: T -> Coord, x: T): seq<T> {
    var u := UpperBound(s, key, key(x));
    s[..u] + [x] + s[u..]
  }

  lemma InsertKeeps<T>(s: seq<T>, key: T -> Coord, x: T)
    ensures multiset(Insert(s, key, x)) == multiset(s) + multiset{x}
    ensures forall y :: y in Insert(s, key, x) <==> y in s || y == x
  {
    var u := UpperBound(s, key, key(x));
    assert s == s[..u] + s[u..];
    assert forall y :: y in Insert(s, key, x) <==> y in multiset(Insert(s, key, x));
  }

  lemma InsertSorted<T>(s: seq<T>, key: T -> Coord, x: T)
    requires SortedByKey(s, key)
    ensures SortedByKey(Insert(s, key, x), key)
  {
    var u := UpperBound(s, key, key(x));
    var r := Insert(s, key, x);
    forall i, j | 0 <= i < j < |r|
      ensures !Before(key(r[j]), key(r[i]))
    {
      if i == u {
        assert r[j] == s[j - 1] && !Before(key(s[j - 1]), key(s[u]));
      } else if j == u {
        assert r[i] == s[i];
      }
    }
  }

  function InsertAll<T>(xs: seq<T>, key: T -> Coord): seq<T> {
    if xs == [] then [] else Insert(InsertAll(xs[..|xs| - 1], key), key, xs[|xs| - 1])
  }

  /** The insertion loop that fills a multimap. */
  method Fill<T>(xs: seq<T>, key: T -> Coord) returns (s: seq<T>)
    ensures s == InsertAll(xs, key)
  {
    s := [];
    for i := 0 to |xs|
      invariant s == InsertAll(xs[..i], key)
    {
      assert xs[..i + 1][..i] == xs[..i];
      s := Insert(s, key, xs[i]);
    }
    assert xs[..|xs|] == xs;
  }

  /** Inserting one by one sorts by coordinate and loses nothing. */
  lemma {:induction false} InsertAllSorted<T>(xs: seq<T>, key: T -> Coord)
    ensures SortedByKey(InsertAll(xs, key), key)
    ensures multiset(InsertAll(xs, key)) == multiset(xs)
    ensures |InsertAll(xs, key)| == |xs|
    ensures forall y :: y in InsertAll(xs, key) <==> y in xs
  {
    if xs != [] {
      var front, x := xs[..|xs| - 1], xs[|xs| - 1];
      InsertAllSorted(front, key);
      InsertSorted(InsertAll(front, key), key, x);
      InsertKeeps(InsertAll(front, key), key, x);
      assert xs == front + [x];
    }
  }

  ghost predicate NoDuplicates<T>(s: seq<T>) {
    forall i, j :: 0 <= i < j < |s| ==> s[i] != s[j]
  }

  lemma InsertNoDuplicates<T>(s: seq<T>, key: T -> Coord, x: T)
    requires NoDuplicates(s) && x !in s
    ensures NoDuplicates(Insert(s, key, x))
  {
    var u := UpperBound(s, key, key(x));
    var r := Insert(s, key, x);
    forall i, j | 0 <= i < j < |r|
      ensures r[i] != r[j]
    {
      var i', j' := if i < u then i else i - 1, if j < u then j else j - 1;
      assert i != u ==> r[i] == s[i'];
      assert j != u ==> r[j] == s[j'];
    }
  }

  lemma {:induction false} InsertAllNoDuplicates<T>(xs: seq<T>, key: T -> Coord)
    requires NoDuplicates(xs)
    ensures NoDuplicates(InsertAll(xs, key))
  {
    if xs != [] {
      var front := xs[..|xs| - 1];
      InsertAllNoDuplicates(front, key);
      InsertAllSorted(front, key);
      InsertNoDuplicates(InsertAll(front, key), key, xs[|xs| - 1]);
    }
  }

  function NextNotFrom<T>(s: seq<T>, key: T -> Coord, c: Coord, j: nat): (r: nat)
    requires j <= |s|
    ensures j <= r <= |s|
    ensures forall k :: j <= k < r ==> key(s[k]) == c
    ensures r < |s| ==> key(s[r]) != c
    decreases |s| - j
  {
    if j < |s| && key(s[j]) == c then NextNotFrom(s, key, c, j + 1) else j
  }

  /** `nextNot`: the end of the run of entries with the key at `i`. */
  method NextNot<T>(s: seq<T>, key: T -> Coord, i: nat) returns (r: nat)
    requires i <= |s|
    ensures i <= r <= |s|
    ensures i < |s| ==> r == NextNotFrom(s, key, key(s[i]), i) && r > i
    ensures i == |s| ==> r == i
  {
    r := i;
    while r != |s| && key(s[r]) == key(s[i])
      invariant i <= r <= |s|
      invariant i < |s| ==> NextNotFrom(s, key, key(s[i]), i) == NextNotFrom(s, key, key(s[i]), r)
      decreases |s| - r
    {
      r := r + 1;
    }
  }

  /** In a sorted list the run found by `nextNot` holds every entry with that
      key that is not before it, and everything after it has a greater key. */
  lemma RunIsComplete<T>(s: seq<T>, key: T -> Coord, i: nat)
    requires SortedByKey(s, key) && i < |s|
    ensures var c := key(s[i]);
      var r := NextNotFrom(s, key, c, i);
      forall k :: r <= k < |s| ==> Before(c, key(s[k]))
  {
    var c := key(s[i]);
    var r := NextNotFrom(s, key, c, i);
    if r < |s| {
      assert !Before(key(s[r]), c) by {
        assert !Before(key(s[r]), key(s[i]));
      }
      forall k | r <= k < |s|
        ensures Before(c, key(s[k]))
      {
        if k > r {
          assert !Before(key(s[k]), key(s[r]));
        }
      }
    }
  }

  // --------------------------------------------------- entries of one key

  /** The entries with key `c`, in order. */
  function AtKey<T>(s: seq<T>, key: T -> Coord, c: Coord): seq<T> {
    if s == [] then []
    else
      var x := s[|s| - 1];
      AtKey(s[..|s| - 1], key, c) + if key(x) == c then [x] else []
  }

  lemma {:induction false} AtKeyJoin<T>(a: seq<T>, b: seq<T>, key: T -> Coord, c: Coord)
    ensures AtKey(a + b, key, c) == AtKey(a, key, c) + AtKey(b, key, c)
  {
    if b == [] {
      assert a + b == a;
    } else {
      assert (a + b)[..|a + b| - 1] == a + b[..|b| - 1];
      AtKeyJoin(a, b[..|b| - 1], key, c);
    }
  }

  lemma {:induction false} AtKeyNone<T>(s: seq<T>, key: T -> Coord, c: Coord)
    requires forall i :: 0 <= i < |s| ==> key(s[i]) != c
    ensures AtKey(s, key, c) == []
  {
    if s != [] {
      AtKeyNone(s[..|s| - 1], key, c);
    }
  }

  lemma {:induction false} AtKeyAll<T>(s: seq<T>, key: T -> Coord, c: Coord)
    requires forall i :: 0 <= i < |s| ==> key(s[i]) == c
    ensures AtKey(s, key, c) == s
  {
    if s != [] {
      AtKeyAll(s[..|s| - 1], key, c);
    }
  }

  lemma AtKeyOne<T>(x: T, key: T -> Coord, c: Coord)
    ensures AtKey([x], key, c) == if key(x) == c then [x] else []
  {
    assert [x][..0] == [];
  }

  lemma AtKeyThree<T>(a: seq<T>, b: seq<T>, d: seq<T>, key: T -> Coord, c: Coord)
    ensures AtKey(a + b + d, key, c) == AtKey(a, key, c) + AtKey(b, key, c) + AtKey(d, key, c)
  {
    hide AtKey;
    AtKeyJoin(a + b, d, key, c);
    AtKeyJoin(a, b, key, c);
  }

  /** Nothing from the upper bound of a key on has that key. */
  lemma AboveUpperBound<T>(s: seq<T>, key: T -> Coord, c: Coord)
    requires SortedByKey(s, key)
    ensures AtKey(s[UpperBound(s, key, c)..], key, c) == []
  {
    hide AtKey;
    var u := UpperBound(s, key, c);
    forall i | 0 <= i < |s| - u
      ensures key(s[u..][i]) != c
    {
      assert s[u..][i] == s[u + i] && Before(c, key(s[u]));
      assert i > 0 ==> !Before(key(s[u + i]), key(s[u]));
    }
    AtKeyNone(s[u..], key, c);
  }

  lemma AtKeySplit<T>(s: seq<T>, u: nat, key: T -> Coord, c: Coord)
    requires u <= |s|
    ensures AtKey(s, key, c) == AtKey(s[..u], key, c) + AtKey(s[u..], key, c)
  {
    hide AtKey;
    assert s == s[..u] + s[u..];
    AtKeyJoin(s[..u], s[u..], key, c);
  }

  /** A new entry goes behind those with its key. */
  lemma InsertStable<T>(s: seq<T>, key: T -> Coord, x: T, c: Coord)
    requires SortedByKey(s, key)
    ensures AtKey(Insert(s, key, x), key, c) == AtKey(s, key, c) + if key(x) == c then [x] else []
  {
    hide AtKey, SortedByKey, UpperBound;
    var u := UpperBound(s, key, key(x));
    AtKeySplit(s, u, key, c);
    AtKeyThree(s[..u], [x], s[u..], key, c);
    AtKeyOne(x, key, c);
    if key(x) == c {
      AboveUpperBound(s, key, c);
    }
  }

  /** Entries with equal keys keep the order in which they were inserted. */
  lemma {:induction false} InsertAllStable<T>(xs: seq<T>, key: T -> Coord, c: Coord)
    ensures AtKey(InsertAll(xs, key), key, c) == AtKey(xs, key, c)
  {
    if xs != [] {
      var front := xs[..|xs| - 1];
      InsertAllStable(front, key, c);
      InsertAllSorted(front, key);
      InsertStable(InsertAll(front, key), key, xs[|xs| - 1], c);
    }
  }

  /** A run found from its first entry is all the entries with its key. */
  lemma RunIsAtKey<T>(s: seq<T>, key: T -> Coord, i: nat)
    requires SortedByKey(s, key) && i < |s| && forall k :: 0 <= k < i ==> key(s[k]) != key(s[i])
    ensures var c := key(s[i]); s[i..NextNotFrom(s, key, c, i + 1)] == AtKey(s, key, c)
  {
    hide AtKey, SortedByKey, NextNotFrom;
    var c := key(s[i]);
    var j := NextNotFrom(s, key, c, i + 1);
    NothingOutside(s, key, i, j);
    ThreeParts(s, i, j);
    AtKeyThree(s[..i], s[i..j], s[j..], key, c);
    RunAll(s, key, c, i, j);
  }

  lemma ThreeParts<T>(s: seq<T>, i: nat, j: nat)
    requires i <= j <= |s|
    ensures s == s[..i] + s[i..j] + s[j..]
  {
  }

  lemma RunAll<T>(s: seq<T>, key: T -> Coord, c: Coord, i: nat, j: nat)
    requires i < j <= |s| && key(s[i]) == c && forall k :: i + 1 <= k < j ==> key(s[k]) == c
    ensures AtKey(s[i..j], key, c) == s[i..j]
  {
    hide AtKey;
    forall k | 0 <= k < j - i
      ensures key(s[i..j][k]) == c
    {
      assert s[i..j][k] == s[i + k];
    }
    AtKeyAll(s[i..j], key, c);
  }

  lemma NothingOutside<T>(s: seq<T>, key: T -> Coord, i: nat, j: nat)
    requires SortedByKey(s, key) && i < |s| && forall k :: 0 <= k < i ==> key(s[k]) != key(s[i])
    requires j == NextNotFrom(s, key, key(s[i]), i + 1)
    ensures AtKey(s[..i], key, key(s[i])) == [] && AtKey(s[j..], key, key(s[i])) == []
  {
    hide AtKey;
    var c := key(s[i]);
    assert j == NextNotFrom(s, key, c, i);
    RunIsComplete(s, key, i);
    AtKeyNone(s[..i], key, c);
    AtKeyNone(s[j..], key, c);
  }
}
