/** Shared vocabulary: optional values, Python exceptions as results, and
    integer sums over sequences. */
module Common {

  datatype Option<+T> = None | Some(value: T)

  /** The Python exceptions that the modelled code lets escape to its caller. */
  datatype PyError =
    | KeyError        // a dictionary or data-frame lookup of a missing key
    | IndexError      // a list or string index out of range
    | ValueError      // a failed parse, or an explicit `raise ValueError`
    | TypeError       // unpacking `None`
    | ZeroDivisionError

  datatype Result<+T> = Ok(value: T) | Err(error: PyError)

  /** Python's `sum` over a list of integers. */
  function Sum(s: seq<int>): int
  {
    if s == [] then 0 else Sum(s[..|s| - 1]) + s[|s| - 1]
  }

  lemma SumAppend(s: seq<int>, x: int)
    ensures Sum(s + [x]) == Sum(s) + x
  {
    assert (s + [x])[..|s|] == s;
  }

  /** Every element lies in [lo, hi], so the sum lies in [|s|*lo, |s|*hi]. */
  lemma {:induction false} SumBounds(s: seq<int>, lo: int, hi: int)
    requires forall i :: 0 <= i < |s| ==> lo <= s[i] <= hi
    ensures |s| * lo <= Sum(s) <= |s| * hi
  {
    if s != [] {
      SumBounds(s[..|s| - 1], lo, hi);
    }
  }

  /** Number of occurrences of `x` in `s`. */
  function Count<T(==)>(s: seq<T>, x: T): nat
  {
    if s == [] then 0 else Count(s[..|s| - 1], x) + (if s[|s| - 1] == x then 1 else 0)
  }

  lemma CountAppend<T>(s: seq<T>, y: T, x: T)
    ensures Count(s + [y], x) == Count(s, x) + (if y == x then 1 else 0)
  {
    assert (s + [y])[..|s|] == s;
  }

  /** The distinct elements of `s` in order of first appearance (pandas
      `unique`, or a list grown only with elements not yet in it). */
  function Unique<T(==,!new)>(s: seq<T>): (r: seq<T>)
    ensures forall x :: x in r <==> x in s
    ensures forall i, j :: 0 <= i < j < |r| ==> r[i] != r[j]
  {
    if s == [] then []
    else
      var u := Unique(s[..|s| - 1]);
      assert forall x :: x in s <==> x in s[..|s| - 1] || x == s[|s| - 1];
      if s[|s| - 1] in u then u else u + [s[|s| - 1]]
  }

  /** Of two elements of `Unique(s)`, the earlier one occurs in `s` before
      any occurrence of the later one. */
  lemma {:induction false} UniqueFirstSeenOrder<T(!new)>(s: seq<T>, i: int, j: int)
    requires 0 <= i < j < |Unique(s)|
    ensures exists p :: 0 <= p < |s| && s[p] == Unique(s)[i] && forall q :: 0 <= q <= p ==> s[q] != Unique(s)[j]
  {
    var init := s[..|s| - 1];
    var u := Unique(init);
    assert forall q :: 0 <= q < |init| ==> init[q] == s[q];
    if s[|s| - 1] in u || j < |u| {
      UniqueFirstSeenOrder(init, i, j);
      var p :| 0 <= p < |init| && init[p] == u[i] && forall q :: 0 <= q <= p ==> init[q] != u[j];
      assert s[p] == Unique(s)[i];
    } else {
      assert Unique(s)[j] == s[|s| - 1] && s[|s| - 1] !in init;
      assert Unique(s)[i] == u[i] && u[i] in u;
      var p :| 0 <= p < |init| && init[p] == u[i];
    }
  }
}
