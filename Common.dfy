/**
 * Relational building blocks shared by the queries: the Option type for
 * "zero or one row", a WHERE filter, a LIMIT and "the first row" of a result.
 */
module Common {

  datatype Option<+T> = None | Some(value: T)

  /** SELECT ... WHERE p: the rows of `s` satisfying `p`, each kept as often
      as it occurs, in table order. */
  function Filter<T(==,!new)>(s: seq<T>, p: T -> bool): (r: seq<T>)
    ensures |r| <= |s|
  {
    if s == [] then []
    else (if p(s[0]) then [s[0]] else []) + Filter(s[1..], p)
  }

  /** The filter keeps exactly the rows satisfying the predicate, each as
      often as it occurs in the table. */
  lemma {:induction false} FilterSpec<T(!new)>(s: seq<T>, p: T -> bool)
    ensures forall x :: multiset(Filter(s, p))[x] == if p(x) then multiset(s)[x] else 0
    ensures forall x :: x in Filter(s, p) <==> x in s && p(x)
  {
    if s != [] {
      assert s == [s[0]] + s[1..];
      FilterSpec(s[1..], p);
    }
  }

  /** A filter that no row satisfies selects nothing. */
  lemma FilterNone<T(!new)>(s: seq<T>, p: T -> bool)
    requires forall x :: x in s ==> !p(x)
    ensures Filter(s, p) == []
  {
    FilterSpec(s, p);
  }

  /** A filter distributes over the concatenation of two tables. */
  lemma {:induction false} FilterAppend<T(!new)>(a: seq<T>, b: seq<T>, p: T -> bool)
    ensures Filter(a + b, p) == Filter(a, p) + Filter(b, p)
  {
    if a == [] {
      assert a + b == b;
    } else {
      var c := a + b;
      assert c[0] == a[0] && c[1..] == a[1..] + b;
      FilterAppend(a[1..], b, p);
      var h := if p(a[0]) then [a[0]] else [];
      assert Filter(c, p) == h + Filter(a[1..] + b, p);
      assert Filter(a, p) == h + Filter(a[1..], p);
    }
  }

  /** A row the predicate rejects can be inserted anywhere without changing
      the filtered result. */
  lemma FilterIgnoresRejected<T(!new)>(a: seq<T>, x: T, b: seq<T>, p: T -> bool)
    requires !p(x)
    ensures Filter(a + [x] + b, p) == Filter(a + b, p)
  {
    var fa, fb := Filter(a, p), Filter(b, p);
    assert [x][1..] == [];
    assert Filter([x], p) == [];
    FilterAppend(a, [x], p);
    assert fa + [] == fa;
    assert Filter(a + [x], p) == fa;
    FilterAppend(a + [x], b, p);
    FilterAppend(a, b, p);
  }

  /** ... LIMIT n: the first n rows, or all of them when there are fewer. */
  function Take<T>(s: seq<T>, n: nat): (r: seq<T>)
    ensures |r| <= n && |r| <= |s|
    ensures |r| == n || r == s
    ensures r == s[..|r|]
  {
    if |s| <= n then s else s[..n]
  }

  /** `rows[0]` in JavaScript: the first row, or nothing (undefined) when the
      result is empty. */
  function First<T>(rows: seq<T>): (r: Option<T>)
    ensures r.None? <==> rows == []
    ensures r.Some? ==> r.value == rows[0]
  {
    if rows == [] then None else Some(rows[0])
  }

  /** The first row a filter selects is the first row of the table that
      satisfies it. */
  lemma {:induction false} FirstOfFilter<T(!new)>(s: seq<T>, p: T -> bool)
    requires Filter(s, p) != []
    ensures exists k :: 0 <= k < |s| && s[k] == Filter(s, p)[0] && p(s[k]) &&
                        forall j :: 0 <= j < k ==> !p(s[j])
  {
    if !p(s[0]) {
      FirstOfFilter(s[1..], p);
      var k :| 0 <= k < |s[1..]| && s[1..][k] == Filter(s[1..], p)[0] && p(s[1..][k]) &&
        forall j :: 0 <= j < k ==> !p(s[1..][j]);
      assert s[k + 1] == Filter(s, p)[0];
      assert forall j :: 1 <= j < k + 1 ==> !p(s[j]) by {
        forall j | 1 <= j < k + 1 ensures !p(s[j]) { assert s[j] == s[1..][j - 1]; }
      }
    } else {
      assert s[0] == Filter(s, p)[0];
    }
  }
}
