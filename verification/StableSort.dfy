/** The contract of Rust's stable `sort_by` and of its unstable sibling: ordered, a permutation, and equal
    elements keep their order. Used wherever the product sorts: scores, expert weights, folder names, tokens. */
module StableSort {

  ghost predicate TotalPreorder<T(!new)>(le: (T, T) -> bool) {
    && (forall x, y :: le(x, y) || le(y, x))
    && (forall x, y, z :: le(x, y) && le(y, z) ==> le(x, z))
  }

  ghost predicate Ordered<T>(le: (T, T) -> bool, s: seq<T>) {
    forall i, j | 0 <= i < j < |s| :: le(s[i], s[j])
  }

  /** Places `x` before the first element it does not exceed, so `x` stays ahead of its equals. */
  function Insert<T>(le: (T, T) -> bool, x: T, s: seq<T>): (r: seq<T>)
    ensures |r| == |s| + 1
  {
    if s == [] then [x]
    else if le(x, s[0]) then [x] + s
    else [s[0]] + Insert(le, x, s[1..])
  }

  function SortBy<T>(le: (T, T) -> bool, s: seq<T>): (r: seq<T>)
    ensures |r| == |s|
  {
    if s == [] then [] else Insert(le, s[0], SortBy(le, s[1..]))
  }

  lemma {:induction false} InsertKeepsElements<T>(le: (T, T) -> bool, x: T, s: seq<T>)
    ensures multiset(Insert(le, x, s)) == multiset(s) + multiset{x}
  {
    if s == [] || le(x, s[0]) {
    } else {
      InsertKeepsElements(le, x, s[1..]);
      assert s == [s[0]] + s[1..];
    }
  }

  lemma {:induction false} SortKeepsElements<T>(le: (T, T) -> bool, s: seq<T>)
    ensures multiset(SortBy(le, s)) == multiset(s)
  {
    if s == [] {
    } else {
      SortKeepsElements(le, s[1..]);
      InsertKeepsElements(le, s[0], SortBy(le, s[1..]));
      assert s == [s[0]] + s[1..];
    }
  }

  lemma SameElements<T>(a: seq<T>, b: seq<T>, x: T)
    requires multiset(a) == multiset(b)
    ensures x in a <==> x in b
  {
    assert x in a <==> x in multiset(a);
    assert x in b <==> x in multiset(b);
  }

  /** Whether `x` must stay before `y`: it is strictly smaller, or they tie and `before` says so. */
  ghost predicate InOrder<T>(le: (T, T) -> bool, before: (T, T) -> bool, x: T, y: T) {
    le(x, y) && (le(y, x) ==> before(x, y))
  }

  ghost predicate AllInOrder<T>(le: (T, T) -> bool, before: (T, T) -> bool, s: seq<T>) {
    forall i, j | 0 <= i < j < |s| :: InOrder(le, before, s[i], s[j])
  }

  lemma PrependOrders<T>(le: (T, T) -> bool, before: (T, T) -> bool, x: T, s: seq<T>)
    requires AllInOrder(le, before, s)
    requires forall y | y in s :: InOrder(le, before, x, y)
    ensures AllInOrder(le, before, [x] + s)
  {
    var r := [x] + s;
    forall i, j | 0 <= i < j < |r| ensures InOrder(le, before, r[i], r[j]) {
      assert r[j] == s[j - 1];
      if i > 0 {
        assert r[i] == s[i - 1];
      }
    }
  }

  lemma TailOrders<T>(le: (T, T) -> bool, before: (T, T) -> bool, s: seq<T>)
    requires s != [] && AllInOrder(le, before, s)
    ensures AllInOrder(le, before, s[1..])
    ensures forall y | y in s[1..] :: InOrder(le, before, s[0], y)
  {
    var rest := s[1..];
    forall i, j | 0 <= i < j < |rest| ensures InOrder(le, before, rest[i], rest[j]) {
      assert rest[i] == s[i + 1] && rest[j] == s[j + 1];
    }
    forall y | y in rest ensures InOrder(le, before, s[0], y) {
      var k :| 0 <= k < |rest| && rest[k] == y;
      assert y == s[k + 1];
    }
  }

  lemma {:induction false} InsertOrders<T(!new)>(le: (T, T) -> bool, before: (T, T) -> bool, x: T, s: seq<T>)
    requires TotalPreorder(le) && AllInOrder(le, before, s)
    requires forall y | y in s :: before(x, y)
    ensures AllInOrder(le, before, Insert(le, x, s))
  {
    if s == [] {
    } else {
      TailOrders(le, before, s);
      var rest := s[1..];
      if le(x, s[0]) {
        forall y | y in s ensures InOrder(le, before, x, y) {
          assert y == s[0] || y in rest;
        }
        PrependOrders(le, before, x, s);
      } else {
        InsertOrders(le, before, x, rest);
        InsertKeepsElements(le, x, rest);
        var tail := Insert(le, x, rest);
        forall y | y in tail ensures InOrder(le, before, s[0], y) {
          assert y in multiset(tail);
          assert y == x || y in rest;
        }
        PrependOrders(le, before, s[0], tail);
      }
    }
  }

  /** The sort's whole contract: a permutation in ascending order whose ties keep the input's order. */
  lemma {:induction false} SortIsStable<T(!new)>(le: (T, T) -> bool, before: (T, T) -> bool, s: seq<T>)
    requires TotalPreorder(le)
    requires forall i, j | 0 <= i < j < |s| :: before(s[i], s[j])
    ensures AllInOrder(le, before, SortBy(le, s))
    ensures Ordered(le, SortBy(le, s))
    ensures multiset(SortBy(le, s)) == multiset(s)
  {
    SortKeepsElements(le, s);
    if s == [] {
    } else {
      var rest := s[1..];
      SortIsStable(le, before, rest);
      forall y | y in SortBy(le, rest) ensures before(s[0], y) {
        SameElements(SortBy(le, rest), rest, y);
        var k :| 0 <= k < |rest| && rest[k] == y;
        assert before(s[0], s[k + 1]);
      }
      InsertOrders(le, before, s[0], SortBy(le, rest));
    }
    forall i, j | 0 <= i < j < |s| ensures le(SortBy(le, s)[i], SortBy(le, s)[j]) {
      assert InOrder(le, before, SortBy(le, s)[i], SortBy(le, s)[j]);
    }
  }
}
