/** Ranking by a strict total order: the ranking of a set of entries is unique. */
module Rankings {
  /** The order is strict and decides between any two different entries among those given. */
  ghost predicate StrictTotal<T(!new)>(less: (T, T) -> bool, among: iset<T>) {
    && (forall a, b :: a in among && b in among && less(a, b) ==> !less(b, a))
    && (forall a, b, c :: a in among && b in among && c in among && less(a, b) && less(b, c) ==> less(a, c))
    && (forall a, b :: a in among && b in among && a != b ==> less(a, b) || less(b, a))
  }

  ghost predicate Ascending<T(!new)>(less: (T, T) -> bool, s: seq<T>) {
    forall i, j :: 0 <= i < j < |s| ==> less(s[i], s[j])
  }

  /** The distinct entries given, in order. */
  ghost predicate IsRanking<T(!new)>(less: (T, T) -> bool, entries: set<T>, s: seq<T>) {
    (forall x :: x in s <==> x in entries) && Ascending(less, s)
  }

  ghost function Whole<T(!new)>(entries: set<T>): iset<T> {
    iset x | x in entries
  }

  lemma EmptyIff<T(!new)>(s: seq<T>)
    ensures s == [] <==> forall x :: x !in s
  {
    if |s| > 0 {
      assert s[0] in s;
    }
  }

  /** There is only one ranking. */
  lemma {:induction false} RankingUnique<T(!new)>(less: (T, T) -> bool, entries: set<T>, r: seq<T>, s: seq<T>)
    requires StrictTotal(less, Whole(entries)) && IsRanking(less, entries, r) && IsRanking(less, entries, s)
    ensures r == s
    decreases |r|
  {
    EmptyIff(r);
    EmptyIff(s);
    if |r| > 0 {
      assert r[0] in r && r[0] in s;
      var i :| 0 <= i < |s| && s[i] == r[0];
      assert s[0] in s && s[0] in r;
      var j :| 0 <= j < |r| && r[j] == s[0];
      assert i == 0 && j == 0;
      RestRanks(less, entries, r);
      RestRanks(less, entries, s);
      RankingUnique(less, entries - {r[0]}, r[1..], s[1..]);
      assert r == [r[0]] + r[1..] && s == [s[0]] + s[1..];
    }
  }

  lemma RestRanks<T(!new)>(less: (T, T) -> bool, entries: set<T>, r: seq<T>)
    requires StrictTotal(less, Whole(entries)) && IsRanking(less, entries, r) && r != []
    ensures StrictTotal(less, Whole(entries - {r[0]})) && IsRanking(less, entries - {r[0]}, r[1..])
  {
    assert r == [r[0]] + r[1..];
    forall x | x in r[1..] ensures x != r[0] {
      var i :| 0 <= i < |r| - 1 && r[1..][i] == x;
      assert r[i + 1] == x && x in r && less(r[0], r[i + 1]);
    }
  }

  ghost function Elements<T>(s: seq<T>): set<T> {
    set x | x in s
  }

  /** Putting one more entry in its place. */
  method Insert<T(!new, ==)>(ghost entries: set<T>, less: (T, T) -> bool, sorted: seq<T>, x: T) returns (r: seq<T>)
    requires IsRanking(less, entries, sorted) && x !in entries && StrictTotal(less, Whole(entries + {x}))
    ensures IsRanking(less, entries + {x}, r)
  {
    var i := |sorted|;
    while i > 0 && less(x, sorted[i - 1])
      invariant 0 <= i <= |sorted|
      invariant forall k :: i <= k < |sorted| ==> less(x, sorted[k])
    {
      i := i - 1;
    }
    r := sorted[..i] + [x] + sorted[i..];
    Placed(entries, less, sorted, x, i, r);
  }

  lemma PlacedEntries<T(!new)>(entries: set<T>, sorted: seq<T>, x: T, i: nat, r: seq<T>)
    requires i <= |sorted| && r == sorted[..i] + [x] + sorted[i..] && forall y :: y in sorted <==> y in entries
    ensures forall y :: y in r <==> y in entries + {x}
  {
    forall y ensures y in r <==> y in entries + {x} {
      assert y in r <==> y in sorted[..i] || y == x || y in sorted[i..];
      assert sorted == sorted[..i] + sorted[i..];
    }
  }

  /** Everything before the place of x is less than x. */
  lemma PlacedBehind<T(!new)>(entries: set<T>, less: (T, T) -> bool, sorted: seq<T>, x: T, i: nat, k: nat)
    requires IsRanking(less, entries, sorted) && x !in entries && StrictTotal(less, Whole(entries + {x}))
    requires k < i <= |sorted| && !less(x, sorted[i - 1])
    ensures less(sorted[k], x)
  {
    assert sorted[i - 1] in sorted && sorted[k] in sorted;
    assert less(sorted[i - 1], x);
    if k < i - 1 {
      assert less(sorted[k], sorted[i - 1]);
    }
  }

  lemma Placed<T(!new)>(entries: set<T>, less: (T, T) -> bool, sorted: seq<T>, x: T, i: nat, r: seq<T>)
    requires IsRanking(less, entries, sorted) && x !in entries && StrictTotal(less, Whole(entries + {x}))
    requires i <= |sorted| && r == sorted[..i] + [x] + sorted[i..]
    requires forall k :: i <= k < |sorted| ==> less(x, sorted[k])
    requires i > 0 ==> !less(x, sorted[i - 1])
    ensures IsRanking(less, entries + {x}, r)
  {
    PlacedEntries(entries, sorted, x, i, r);
    forall k, m | 0 <= k < m < |r| ensures less(r[k], r[m]) {
      assert r[k] == if k < i then sorted[k] else if k == i then x else sorted[k - 1];
      assert r[m] == if m < i then sorted[m] else if m == i then x else sorted[m - 1];
      if k < i == m {
        PlacedBehind(entries, less, sorted, x, i, k);
      }
    }
  }

  /** Sorting distinct entries; stability plays no part because the order is total on them. */
  method Sort<T(!new, ==)>(less: (T, T) -> bool, entries: seq<T>) returns (r: seq<T>)
    requires forall i, j :: 0 <= i < j < |entries| ==> entries[i] != entries[j]
    requires StrictTotal(less, Whole(Elements(entries)))
    ensures IsRanking(less, Elements(entries), r)
  {
    r := [];
    assert IsRanking(less, Elements(entries[..0]), r);
    for n := 0 to |entries|
      invariant IsRanking(less, Elements(entries[..n]), r)
    {
      ghost var before := Elements(entries[..n]);
      assert entries[..n + 1] == entries[..n] + [entries[n]];
      assert Elements(entries[..n + 1]) == before + {entries[n]};
      r := Insert(before, less, r, entries[n]);
    }
    assert entries[..|entries|] == entries;
  }
}
