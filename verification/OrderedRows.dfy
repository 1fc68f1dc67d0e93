/** Tables read in the order of a key: what an ordered, filtered and limited query returns. */
module OrderedRows {

  /** A sort key, compared component by component. */
  datatype Key = Key(first: nat, second: nat, third: nat)

  predicate Less(a: Key, b: Key) {
    a.first < b.first || (a.first == b.first && (a.second < b.second || (a.second == b.second && a.third < b.third)))
  }

  ghost predicate DistinctKeys<T>(rows: seq<T>, key: T -> Key) {
    forall i, j | 0 <= i < j < |rows| :: key(rows[i]) != key(rows[j])
  }

  ghost predicate Ascending<T>(s: seq<T>, key: T -> Key) {
    forall i, j | 0 <= i < j < |s| :: Less(key(s[i]), key(s[j]))
  }

  function Insert<T>(x: T, s: seq<T>, key: T -> Key): seq<T> {
    if s == [] || Less(key(x), key(s[0])) then [x] + s else [s[0]] + Insert(x, s[1..], key)
  }

  /** The rows of a table in ascending key order. */
  function Asc<T>(rows: seq<T>, key: T -> Key): seq<T> {
    if rows == [] then [] else Insert(rows[0], Asc(rows[1..], key), key)
  }

  function Reverse<T>(s: seq<T>): seq<T> {
    if s == [] then [] else Reverse(s[1..]) + [s[0]]
  }

  lemma {:induction false} ReverseAt<T>(s: seq<T>)
    ensures |Reverse(s)| == |s| && forall i | 0 <= i < |s| :: Reverse(s)[i] == s[|s| - 1 - i]
  {
    if s != [] {
      ReverseAt(s[1..]);
    }
  }

  function Filter<T>(s: seq<T>, keep: T -> bool): seq<T> {
    if s == [] then [] else (if keep(s[0]) then [s[0]] else []) + Filter(s[1..], keep)
  }

  function Take<T>(s: seq<T>, n: nat): seq<T> {
    if |s| <= n then s else s[..n]
  }

  /** WHERE keep ORDER BY key DESC LIMIT n. */
  function QueryDesc<T>(rows: seq<T>, keep: T -> bool, key: T -> Key, n: nat): seq<T> {
    Take(Reverse(Filter(Asc(rows, key), keep)), n)
  }

  lemma AscendingCons<T>(x: T, s: seq<T>, key: T -> Key)
    requires Ascending(s, key) && forall y | y in s :: Less(key(x), key(y))
    ensures Ascending([x] + s, key)
  {
  }

  lemma HeadLess<T>(s: seq<T>, key: T -> Key)
    requires Ascending(s, key) && s != []
    ensures forall y | y in s[1..] :: Less(key(s[0]), key(y))
  {
    forall y | y in s[1..] ensures Less(key(s[0]), key(y)) {
      var i :| 0 <= i < |s| - 1 && s[1..][i] == y;
      assert s[i + 1] == y;
    }
  }

  lemma {:induction false} InsertMembers<T>(x: T, s: seq<T>, key: T -> Key)
    ensures multiset(Insert(x, s, key)) == multiset(s) + multiset{x}
  {
    if s == [] || Less(key(x), key(s[0])) {
    } else {
      InsertMembers(x, s[1..], key);
      assert s == [s[0]] + s[1..];
    }
  }

  lemma {:induction false} InsertAscending<T>(x: T, s: seq<T>, key: T -> Key)
    requires Ascending(s, key) && forall y | y in s :: key(y) != key(x)
    ensures Ascending(Insert(x, s, key), key)
  {
    if s == [] || Less(key(x), key(s[0])) {
    } else {
      InsertAscending(x, s[1..], key);
      InsertMembers(x, s[1..], key);
      HeadLess(s, key);
      var rest := Insert(x, s[1..], key);
      forall y | y in rest ensures Less(key(s[0]), key(y)) {
        assert y in multiset(rest);
        assert y == x || y in multiset(s[1..]);
        assert s[0] in s;
      }
      AscendingCons(s[0], rest, key);
    }
  }

  lemma {:induction false} AscMembers<T>(rows: seq<T>, key: T -> Key)
    ensures multiset(Asc(rows, key)) == multiset(rows)
  {
    if rows != [] {
      AscMembers(rows[1..], key);
      InsertMembers(rows[0], Asc(rows[1..], key), key);
      assert rows == [rows[0]] + rows[1..];
    }
  }

  lemma SameSize<T>(a: seq<T>, b: seq<T>)
    requires multiset(a) == multiset(b)
    ensures |a| == |b|
  {
    assert |a| == |multiset(a)| == |multiset(b)| == |b|;
  }

  /** Distinct keys give one strictly ascending arrangement of exactly the rows of the table. */
  lemma {:induction false} AscSorts<T>(rows: seq<T>, key: T -> Key)
    requires DistinctKeys(rows, key)
    ensures Ascending(Asc(rows, key), key)
    ensures multiset(Asc(rows, key)) == multiset(rows)
    ensures |Asc(rows, key)| == |rows|
  {
    AscMembers(rows, key);
    SameSize(Asc(rows, key), rows);
    if rows != [] {
      var rest := Asc(rows[1..], key);
      AscSorts(rows[1..], key);
      forall y | y in rest ensures key(y) != key(rows[0]) {
        assert y in multiset(rest);
        assert y in rows[1..];
      }
      InsertAscending(rows[0], rest, key);
    }
  }

  /** A condition that holds exactly of the first `n` elements selects that prefix. */
  lemma {:induction false} FilterPrefix<T>(s: seq<T>, keep: T -> bool, n: nat)
    requires n <= |s|
    requires forall i | 0 <= i < |s| :: keep(s[i]) <==> i < n
    ensures Filter(s, keep) == s[..n]
  {
    if s != [] {
      if n == 0 {
        FilterPrefix(s[1..], keep, 0);
      } else {
        FilterPrefix(s[1..], keep, n - 1);
        assert s[..n] == [s[0]] + s[1..][..n - 1];
      }
    }
  }

  /** A condition that holds exactly from position `n` on selects that suffix. */
  lemma {:induction false} FilterSuffix<T>(s: seq<T>, keep: T -> bool, n: nat)
    requires n <= |s|
    requires forall i | 0 <= i < |s| :: keep(s[i]) <==> i >= n
    ensures Filter(s, keep) == s[n..]
  {
    if s != [] {
      if n == 0 {
        FilterSuffix(s[1..], keep, 0);
        assert s == [s[0]] + s[1..];
      } else {
        FilterSuffix(s[1..], keep, n - 1);
      }
    }
  }

  /** Filtering keeps exactly the rows that satisfy the condition, and keeps the order. */
  lemma {:induction false} FilterMember<T>(s: seq<T>, keep: T -> bool, x: T)
    ensures x in Filter(s, keep) <==> x in s && keep(x)
  {
    if s != [] {
      FilterMember(s[1..], keep, x);
      assert s == [s[0]] + s[1..];
    }
  }

  lemma {:induction false} FilterSize<T>(s: seq<T>, keep: T -> bool)
    ensures |Filter(s, keep)| <= |s|
  {
    if s != [] {
      FilterSize(s[1..], keep);
    }
  }

  lemma {:induction false} FilterTwice<T>(s: seq<T>, p: T -> bool, q: T -> bool, both: T -> bool)
    requires forall x | x in s :: both(x) <==> p(x) && q(x)
    ensures Filter(Filter(s, p), q) == Filter(s, both)
  {
    if s != [] {
      FilterTwice(s[1..], p, q, both);
      assert s[0] in s;
      var rest := Filter(s[1..], p);
      if p(s[0]) {
        assert Filter(s, p) == [s[0]] + rest;
        assert ([s[0]] + rest)[1..] == rest;
      } else {
        assert Filter(s, p) == rest;
      }
    }
  }

  lemma {:induction false} SameFilter<T>(s: seq<T>, p: T -> bool, q: T -> bool)
    requires forall x | x in s :: p(x) <==> q(x)
    ensures Filter(s, p) == Filter(s, q)
  {
    if s != [] {
      assert s[0] in s;
      SameFilter(s[1..], p, q);
    }
  }

  /** The last `n` elements. */
  function Last<T>(s: seq<T>, n: nat): seq<T> {
    if |s| <= n then s else s[|s| - n..]
  }

  lemma TakeReverse<T>(s: seq<T>, n: nat)
    ensures Take(Reverse(s), n) == Reverse(Last(s, n))
  {
    ReverseAt(s);
    ReverseAt(Last(s, n));
  }

  lemma ReverseTwice<T>(s: seq<T>)
    ensures Reverse(Reverse(s)) == s
  {
    ReverseAt(s);
    ReverseAt(Reverse(s));
  }

  lemma TakeTwice<T>(s: seq<T>, n: nat)
    ensures Take(Take(s, n + 1), n) == Take(s, n)
    ensures |Take(s, n + 1)| > n <==> |s| > n
  {
  }

  // ----- Reading in descending order -----

  function Desc<T>(rows: seq<T>, key: T -> Key): seq<T> {
    Reverse(Asc(rows, key))
  }

  ghost predicate Descending<T>(s: seq<T>, key: T -> Key) {
    forall i, j | 0 <= i < j < |s| :: Less(key(s[j]), key(s[i]))
  }

  lemma DescSorts<T>(rows: seq<T>, key: T -> Key)
    requires DistinctKeys(rows, key)
    ensures Descending(Desc(rows, key), key)
    ensures forall x :: x in Desc(rows, key) <==> x in rows
    ensures |Desc(rows, key)| == |rows|
  {
    var asc := Asc(rows, key);
    AscSorts(rows, key);
    ReverseAt(asc);
    forall x ensures x in Desc(rows, key) <==> x in rows {
      assert x in asc <==> x in multiset(asc);
      assert x in rows <==> x in multiset(rows);
      if x in asc {
        var i :| 0 <= i < |asc| && asc[i] == x;
        assert Reverse(asc)[|asc| - 1 - i] == x;
      }
    }
  }

  lemma {:induction false} FilterConcat<T>(s: seq<T>, t: seq<T>, keep: T -> bool)
    ensures Filter(s + t, keep) == Filter(s, keep) + Filter(t, keep)
  {
    if s == [] {
      assert s + t == t;
    } else {
      TailConcat(s, t);
      FilterConcat(s[1..], t, keep);
      Regroup(if keep(s[0]) then [s[0]] else [], Filter(s[1..], keep), Filter(t, keep));
    }
  }

  lemma TailConcat<T>(s: seq<T>, t: seq<T>)
    requires s != []
    ensures (s + t)[0] == s[0] && (s + t)[1..] == s[1..] + t
  {}

  lemma Regroup<T>(a: seq<T>, b: seq<T>, c: seq<T>)
    ensures (a + b) + c == a + (b + c)
  {}

  lemma {:induction false} FilterReverse<T>(s: seq<T>, keep: T -> bool)
    ensures Filter(Reverse(s), keep) == Reverse(Filter(s, keep))
  {
    if s != [] {
      var rest := Filter(s[1..], keep);
      FilterReverse(s[1..], keep);
      FilterConcat(Reverse(s[1..]), [s[0]], keep);
      if keep(s[0]) {
        assert Filter([s[0]], keep) == [s[0]];
        assert Filter(s, keep) == [s[0]] + rest;
        assert ([s[0]] + rest)[1..] == rest;
      } else {
        assert Filter([s[0]], keep) == [];
        assert Filter(s, keep) == rest;
        assert Reverse(rest) + [] == Reverse(rest);
      }
    }
  }

  /** A descending query is a prefix of the filtered descending table. */
  lemma QueryDescends<T>(rows: seq<T>, keep: T -> bool, key: T -> Key, n: nat)
    ensures QueryDesc(rows, keep, key, n) == Take(Filter(Desc(rows, key), keep), n)
  {
    FilterReverse(Asc(rows, key), keep);
  }

  lemma {:induction false} FilterDescending<T>(s: seq<T>, keep: T -> bool, key: T -> Key)
    requires Descending(s, key)
    ensures Descending(Filter(s, keep), key)
  {
    if s != [] {
      FilterDescending(s[1..], keep, key);
      var rest := Filter(s[1..], keep);
      forall j | 0 <= j < |rest| ensures Less(key(rest[j]), key(s[0])) {
        assert rest[j] in rest;
        FilterMember(s[1..], keep, rest[j]);
        var i :| 0 <= i < |s| - 1 && s[1..][i] == rest[j];
        assert s[i + 1] == rest[j];
      }
    }
  }

  /** In a descending sequence the elements below its `i`-th key are those that follow. */
  lemma BelowIsSuffix<T>(s: seq<T>, below: T -> bool, i: nat, key: T -> Key)
    requires Descending(s, key) && i < |s|
    requires forall x | x in s :: below(x) <==> Less(key(x), key(s[i]))
    ensures Filter(s, below) == s[i + 1..]
  {
    forall j | 0 <= j < |s| ensures below(s[j]) <==> j >= i + 1 {
      assert s[j] in s;
      if j < i {
        assert Less(key(s[i]), key(s[j]));
      }
    }
    FilterSuffix(s, below, i + 1);
  }

  /** Selecting the members of a prefix of a descending sequence gives that prefix. */
  lemma MembersOfPrefix<T>(s: seq<T>, chosen: T -> bool, n: nat, key: T -> Key)
    requires Descending(s, key) && n <= |s|
    requires forall x | x in s :: chosen(x) <==> x in s[..n]
    ensures Filter(s, chosen) == s[..n]
  {
    forall i | 0 <= i < |s| ensures chosen(s[i]) <==> i < n {
      assert s[i] in s;
      if s[i] in s[..n] {
        var j :| 0 <= j < n && s[j] == s[i];
        assert !Less(key(s[i]), key(s[i]));
      }
    }
    FilterPrefix(s, chosen, n);
  }
}
