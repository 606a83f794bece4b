/** Small value types shared by every controller: optional values, the
    (status, payload) pair a controller answers with, the JavaScript notion of
    a "truthy" request field, and selection over table rows. */
module Common {

  datatype Option<T> = None | Some(value: T)

  /** What a controller sends back: an HTTP status code and, when the
      controller attaches one, a payload. */
  datatype Response<T> = Response(status: int, data: Option<T>)

  /** JavaScript truthiness of an optional string taken from a request body:
      an absent key, null and the empty string are falsy. */
  predicate Truthy(s: Option<string>) {
    s.Some? && s.value != ""
  }

  /** JavaScript truthiness of an optional number: an absent key, null and 0
      are falsy. */
  predicate TruthyNumber(n: Option<int>) {
    n.Some? && n.value != 0
  }

  /** The rows of `s` that `keep` accepts, in their original order (a SQL
      WHERE clause, or a DELETE read as "keep the others"). */
  function Filter<T(==,!new)>(s: seq<T>, keep: T -> bool): (r: seq<T>)
    ensures forall x :: x in r <==> x in s && keep(x)
    ensures |r| <= |s|
  {
    if s == [] then []
    else if keep(s[0]) then [s[0]] + Filter(s[1..], keep)
    else Filter(s[1..], keep)
  }

  /** Filtering distributes over concatenation. */
  lemma {:induction false} FilterAppend<T(!new)>(a: seq<T>, b: seq<T>, keep: T -> bool)
    ensures Filter(a + b, keep) == Filter(a, keep) + Filter(b, keep)
  {
    if a == [] {
      assert a + b == b;
    } else {
      assert (a + b)[0] == a[0];
      assert (a + b)[1..] == a[1..] + b;
      FilterAppend(a[1..], b, keep);
    }
  }

  /** A filter that keeps every row is the identity. */
  lemma {:induction false} FilterAll<T(!new)>(s: seq<T>, keep: T -> bool)
    requires forall x :: x in s ==> keep(x)
    ensures Filter(s, keep) == s
  {
    if s != [] {
      assert s[0] in s;
      assert forall x :: x in s[1..] ==> x in s;
      FilterAll(s[1..], keep);
    }
  }

  /** A filter that keeps no row is empty. */
  lemma {:induction false} FilterNone<T(!new)>(s: seq<T>, keep: T -> bool)
    requires forall x :: x in s ==> !keep(x)
    ensures Filter(s, keep) == []
  {
    if s != [] {
      assert s[0] in s;
      assert forall x :: x in s[1..] ==> x in s;
      FilterNone(s[1..], keep);
    }
  }

  /** Every earlier row stands in relation `apart` to every later one (a
      key that no two rows share, read by position). */
  predicate PairwiseApart<T>(s: seq<T>, apart: (T, T) -> bool) {
    forall i, j :: 0 <= i < j < |s| ==> apart(s[i], s[j])
  }

  /** Filtering keeps the rows in their order, so a pairwise property of
      the rows survives it. */
  lemma {:induction false} FilterKeepsApart<T(!new)>(s: seq<T>, keep: T -> bool, apart: (T, T) -> bool)
    requires PairwiseApart(s, apart)
    ensures PairwiseApart(Filter(s, keep), apart)
  {
    if s != [] {
      var rest := s[1..];
      assert PairwiseApart(rest, apart) by {
        forall i, j | 0 <= i < j < |rest| ensures apart(rest[i], rest[j]) {
          assert rest[i] == s[i + 1] && rest[j] == s[j + 1];
        }
      }
      FilterKeepsApart(rest, keep, apart);
      if keep(s[0]) {
        var fr := Filter(rest, keep);
        var r := [s[0]] + fr;
        forall j | 0 < j < |r| ensures apart(r[0], r[j]) {
          assert r[j] == fr[j - 1];
          assert fr[j - 1] in rest;
          var k :| 0 <= k < |rest| && rest[k] == fr[j - 1];
          assert s[k + 1] == rest[k];
        }
        forall i, j | 0 < i < j < |r| ensures apart(r[i], r[j]) {
          assert r[i] == fr[i - 1] && r[j] == fr[j - 1];
        }
      }
    }
  }

  /** A row of `s` that `hit` accepts, if there is one (a SELECT ... LIMIT 1
      without ORDER BY; read in table order, so it is the first such row,
      though the contract promises only what SQL does: some matching row). */
  function First<T(==,!new)>(s: seq<T>, hit: T -> bool): (r: Option<T>)
    ensures r.Some? <==> exists x :: x in s && hit(x)
    ensures r.Some? ==> r.value in s && hit(r.value)
  {
    if s == [] then None
    else if hit(s[0]) then Some(s[0])
    else
      assert forall x :: x in s[1..] ==> x in s;
      First(s[1..], hit)
  }

  /** An UPDATE ... WHERE: every row that `hit` accepts is replaced by
      `change` of it, the other rows stay, and the order is kept. */
  function Update<T>(s: seq<T>, hit: T -> bool, change: T -> T): (r: seq<T>)
    ensures |r| == |s|
    ensures forall i :: 0 <= i < |s| ==> r[i] == (if hit(s[i]) then change(s[i]) else s[i])
  {
    seq(|s|, i requires 0 <= i < |s| => if hit(s[i]) then change(s[i]) else s[i])
  }

  predicate Distinct<T(==,!new)>(s: seq<T>) {
    forall i, j :: 0 <= i < j < |s| ==> s[i] != s[j]
  }
}
