/** Option and Result, used for the values the platform leaves undefined and
    for the exceptions its functions raise; and what several models share. */
module Common {

  datatype Option<+T> = None | Some(value: T)

  datatype Result<+T, +E> = Ok(value: T) | Err(error: E) {

    predicate IsFailure() {
      Err?
    }

    function PropagateFailure<U>(): Result<U, E>
      requires Err?
    {
      Err(error)
    }

    function Extract(): T
      requires Ok?
    {
      value
    }
  }

  datatype OrderSide = Buy | Sell

  function Abs(x: real): real {
    if x < 0.0 then -x else x
  }

  function Min(x: real, y: real): real {
    if x <= y then x else y
  }

  function Max(x: real, y: real): real {
    if x >= y then x else y
  }

  // ----- sequences -----

  function Front<T>(s: seq<T>): seq<T>
    requires s != []
  {
    s[..|s| - 1]
  }

  function Last<T>(s: seq<T>): T
    requires s != []
  {
    s[|s| - 1]
  }

  lemma Associates<T>(a: seq<T>, b: seq<T>, c: seq<T>)
    ensures (a + b) + c == a + (b + c)
  {
  }

  lemma EmptyUnits<T>(a: seq<T>)
    ensures a + [] == a && [] + a == a
  {
  }

  lemma PrefixOfPrefix<T>(a: seq<T>, m: nat, n: nat)
    requires m <= n <= |a|
    ensures a[..n][..m] == a[..m]
  {
  }

  // ----- sizes of sets -----

  lemma NoElements<T>(s: set<T>)
    requires forall x :: x !in s
    ensures |s| == 0
  {
    assert s == {};
  }

  lemma OneElementMore<T>(all: set<T>, fewer: set<T>, x: T, more: bool)
    requires x !in fewer && forall y :: y in all <==> y in fewer || (y == x && more)
    ensures |all| == |fewer| + if more then 1 else 0
  {
    assert all == if more then fewer + {x} else fewer;
  }

  // ----- remainders -----

  lemma AtLeastOnce(q: int, p: int, n: int)
    requires q > p && n >= 1
    ensures q * n >= p * n + n
  {
    var d := q - p - 1;
    assert q * n == p * n + n + d * n;
    assert d * n >= 0;
  }

  lemma SameRemainder(q: int, r: int, p: int, t: int, n: int)
    requires 0 <= r < n && 0 <= t < n && q * n + r == p * n + t
    ensures r == t
  {
    if q > p {
      AtLeastOnce(q, p, n);
    } else if q < p {
      AtLeastOnce(p, q, n);
    }
  }

  /** Adding the divisor changes no remainder, and a small number is its own. */
  lemma RemainderAgain(x: int, n: int)
    requires n >= 1
    ensures (x + n) % n == x % n
    ensures 0 <= x < n ==> x % n == x
  {
    var q, r := x / n, x % n;
    assert x + n == (q + 1) * n + r;
    SameRemainder((x + n) / n, (x + n) % n, q + 1, r, n);
    if 0 <= x < n {
      SameRemainder(q, r, 0, x, n);
    }
  }

  // ----- real arithmetic -----

  /** A product the solver is not to look into while this is hidden. */
  function Times(x: real, y: real): real {
    x * y
  }

  lemma Scale(w: real, x: real, y: real)
    requires w >= 0.0 && x <= y
    ensures Times(w, x) <= Times(w, y)
  {
  }

  lemma QuotientTimesDivisor(x: real, y: real)
    requires y != 0.0
    ensures (x / y) * y == x
  {
  }

  lemma QuotientOfProduct(x: real, y: real)
    requires y != 0.0
    ensures (y * x) / y == x
  {
    var z := (y * x) / y;
    QuotientTimesDivisor(y * x, y);
    assert (z - x) * y == 0.0;
  }

  lemma QuotientNonNegative(x: real, y: real)
    requires x >= 0.0 && y > 0.0
    ensures x / y >= 0.0
  {
  }
}
