/** Ordering of query results.  Every list endpoint asks the database for
    `orderBy: { <field>: 'asc' | 'desc' }`; here that is a sort by an
    integer rank (descending order is ascending order of the negated
    field).  Rows with equal rank may come back in any order. */
module Ordering {

  ghost predicate Ascending<T>(s: seq<T>, rank: T -> int) {
    forall i, j :: 0 <= i < j < |s| ==> rank(s[i]) <= rank(s[j])
  }

  ghost predicate Distinct<T>(s: seq<T>) {
    forall i, j :: 0 <= i < j < |s| ==> s[i] != s[j]
  }

  /** Inserts `x` into an ascending sequence before the first element of
      greater or equal rank. */
  function Insert<T>(x: T, s: seq<T>, rank: T -> int): (r: seq<T>)
    requires Ascending(s, rank)
    ensures Ascending(r, rank)
    ensures multiset(r) == multiset(s) + multiset{x}
  {
    if s == [] then [x]
    else if rank(x) <= rank(s[0]) then [x] + s
    else
      var tail := Insert(x, s[1..], rank);
      InsertBehindHead(x, s, tail, rank);
      [s[0]] + tail
  }

  /** Putting the head back in front of the insertion into the rest keeps
      the order and the contents. */
  lemma InsertBehindHead<T>(x: T, s: seq<T>, tail: seq<T>, rank: T -> int)
    requires s != [] && Ascending(s, rank) && rank(s[0]) < rank(x)
    requires Ascending(tail, rank) && multiset(tail) == multiset(s[1..]) + multiset{x}
    ensures Ascending([s[0]] + tail, rank)
    ensures multiset([s[0]] + tail) == multiset(s) + multiset{x}
  {
    assert s == [s[0]] + s[1..];
    forall k | 0 <= k < |tail| ensures rank(s[0]) <= rank(tail[k]) {
      assert tail[k] in multiset(tail);
      if tail[k] != x {
        assert tail[k] in multiset(s[1..]);
        var j :| 0 <= j < |s[1..]| && s[1..][j] == tail[k];
        assert s[j + 1] == tail[k];
      }
    }
  }

  /** Insertion sort by rank: the result is ascending and a permutation of
      the input. */
  function SortByRank<T>(s: seq<T>, rank: T -> int): (r: seq<T>)
    ensures Ascending(r, rank)
    ensures multiset(r) == multiset(s)
  {
    if s == [] then []
    else
      assert s == [s[0]] + s[1..];
      Insert(s[0], SortByRank(s[1..], rank), rank)
  }

  /** The first `n` elements, or all of them when there are fewer
      (Prisma's `take`). */
  function Take<T>(s: seq<T>, n: nat): (r: seq<T>)
    ensures |r| <= n && |r| <= |s|
    ensures r == s[..|r|]
    ensures |s| <= n ==> r == s
  {
    if |s| <= n then s else s[..n]
  }

  lemma AscendingAt<T>(s: seq<T>, rank: T -> int, i: nat, j: nat)
    requires Ascending(s, rank) && i < j < |s|
    ensures rank(s[i]) <= rank(s[j])
  {
  }

  lemma DistinctCount<T>(s: seq<T>, x: T)
    requires Distinct(s)
    ensures multiset(s)[x] <= 1
  {
    if s != [] {
      var n := |s| - 1;
      assert s == s[..n] + [s[n]];
      DistinctCount(s[..n], x);
      if s[n] == x {
        assert x !in s[..n];
      }
    }
  }

  lemma DuplicateCount<T>(s: seq<T>, i: nat, j: nat)
    requires i < j < |s| && s[i] == s[j]
    ensures multiset(s)[s[i]] >= 2
  {
    assert s == s[..j] + s[j..];
    assert s[i] in s[..j];
    assert s[j] in s[j..];
  }

  /** A permutation of a sequence without repetitions has none either. */
  lemma {:induction false} DistinctPermutation<T>(a: seq<T>, b: seq<T>)
    requires multiset(a) == multiset(b)
    requires Distinct(a)
    ensures Distinct(b)
  {
    forall i, j | 0 <= i < j < |b| ensures b[i] != b[j] {
      if b[i] == b[j] {
        DuplicateCount(b, i, j);
        DistinctCount(a, b[i]);
      }
    }
  }

  lemma SameMembers<T>(a: seq<T>, b: seq<T>)
    requires multiset(a) == multiset(b)
    ensures forall x :: x in a <==> x in b
  {
    forall x ensures x in a <==> x in b {
      assert x in a <==> x in multiset(a);
      assert x in b <==> x in multiset(b);
    }
  }

  lemma PermutationMember<T>(a: seq<T>, b: seq<T>, x: T)
    requires multiset(a) == multiset(b)
    ensures x in a <==> x in b
  {
    assert x in a <==> x in multiset(a);
    assert x in b <==> x in multiset(b);
  }

  /** Gathers, in no particular order, the keys of `m` whose value passes
      `keep`: the `where` clause of a `findMany`. */
  method Collect<K(==), V>(m: map<K, V>, keep: V -> bool) returns (ks: seq<K>)
    ensures forall k :: k in ks <==> k in m && keep(m[k])
    ensures Distinct(ks)
  {
    ks := [];
    var remaining := m.Keys;
    while remaining != {}
      invariant remaining <= m.Keys
      invariant forall k :: k in ks <==> k in m && k !in remaining && keep(m[k])
      invariant Distinct(ks)
      decreases remaining
    {
      var k :| k in remaining;
      if keep(m[k]) {
        ks := ks + [k];
      }
      remaining := remaining - {k};
    }
  }

  /** Ranks a key by the rank of the row it names. */
  function KeyRank<K(==), V>(m: map<K, V>, rank: V -> int): K -> int {
    k => if k in m then rank(m[k]) else 0
  }

  lemma KeyRankOrder<K, V>(ks: seq<K>, m: map<K, V>, rank: V -> int, i: nat, j: nat)
    requires Ascending(ks, KeyRank(m, rank)) && i < j < |ks|
    requires ks[i] in m && ks[j] in m
    ensures rank(m[ks[i]]) <= rank(m[ks[j]])
  {
    assert KeyRank(m, rank)(ks[i]) <= KeyRank(m, rank)(ks[j]);
  }

  /** `findMany({ where, orderBy })` over a table keyed by id: the keys of
      the rows that pass `keep`, each once, in ascending rank. */
  method SelectOrdered<K(==), V>(m: map<K, V>, keep: V -> bool, rank: V -> int) returns (ks: seq<K>)
    ensures forall k :: k in ks <==> k in m && keep(m[k])
    ensures Distinct(ks)
    ensures forall i, j :: 0 <= i < j < |ks| ==> rank(m[ks[i]]) <= rank(m[ks[j]])
  {
    var found := Collect(m, keep);
    ks := SortByRank(found, KeyRank(m, rank));
    DistinctPermutation(found, ks);
    SameMembers(found, ks);
    forall i, j | 0 <= i < j < |ks| ensures ks[i] in m && ks[j] in m && rank(m[ks[i]]) <= rank(m[ks[j]]) {
      PermutationMember(found, ks, ks[i]);
      PermutationMember(found, ks, ks[j]);
      KeyRankOrder(ks, m, rank, i, j);
    }
  }
}
