/** Shared vocabulary of the back end and the dashboard: optional values,
    handler replies, request-body fields as Express hands them over, and a
    fold that sums a quantity over a sequence of rows. */
module Common {

  datatype Option<T> = None | Some(value: T)

  /** The result of a step that may fail with a message (a thrown `Error`). */
  datatype Result<T> = Ok(value: T) | Err(message: string)

  /** What a request handler sends back: a success status with its data, or
      an error status with its message. */
  datatype Reply<T> = Done(status: int, value: T) | Refused(status: int, message: string)

  /** The message every handler sends with a 500 when the store throws. */
  const ServerError := "Internal server error"

  /** A request-body field: absent (`undefined`) or the text it was sent as. */
  type Field = Option<string>

  /** JavaScript truthiness of a field: present and not the empty string. */
  predicate Filled(f: Field) {
    f.Some? && f.value != ""
  }

  predicate IsDigit(c: char) {
    '0' <= c <= '9'
  }

  predicate AllDigits(s: string) {
    forall i :: 0 <= i < |s| ==> IsDigit(s[i])
  }

  /** The value of a string of decimal digits, most significant first. */
  function DecimalValue(s: string): (n: nat)
    requires AllDigits(s)
    decreases |s|
  {
    if s == [] then 0
    else 10 * DecimalValue(s[..|s| - 1]) + (s[|s| - 1] as int - '0' as int)
  }

  /** `Number(f)` on a body field, for the integer texts the forms send:
      the empty text converts to 0, a text of digits to its value, anything
      else (an absent field included) to NaN, written `None`. */
  function ToNumber(f: Field): (r: Option<int>)
    ensures f.None? ==> r.None?
    ensures f == Some("") ==> r == Some(0)
    ensures r.Some? ==> 0 <= r.value
    ensures f.Some? && AllDigits(f.value) <==> r.Some?
  {
    if f.Some? && AllDigits(f.value) then Some(DecimalValue(f.value)) else None
  }

  /** The decimal text of a natural number, as `toString()` writes it. */
  function DecimalText(n: nat): (s: string)
    ensures s != [] && AllDigits(s)
    decreases n
  {
    var d := ['0' + (n % 10) as char];
    if n < 10 then d else DecimalText(n / 10) + d
  }

  /** Writing a number as text and converting it back gives the number. */
  lemma {:induction false} DecimalRoundTrip(n: nat)
    ensures ToNumber(Some(DecimalText(n))) == Some(n)
    ensures DecimalValue(DecimalText(n)) == n
    decreases n
  {
    var s := DecimalText(n);
    if n < 10 {
      assert s == ['0' + n as char];
      assert s[..|s| - 1] == [];
      assert s[0] as int - '0' as int == n;
      assert DecimalValue(s) == n;
    } else {
      DecimalRoundTrip(n / 10);
      var d := ['0' + (n % 10) as char];
      assert s == DecimalText(n / 10) + d;
      assert s[..|s| - 1] == DecimalText(n / 10);
    }
  }

  /** The sum of `f` over the rows of `s`, folded from the left like
      `reduce((acc, x) => acc + f(x), 0)`. */
  function SumBy<T>(s: seq<T>, f: T -> real): real
    decreases |s|
  {
    if s == [] then 0.0 else SumBy(s[..|s| - 1], f) + f(s[|s| - 1])
  }

  /** Summing a concatenation sums its parts. */
  lemma {:induction false} SumByAppend<T>(a: seq<T>, b: seq<T>, f: T -> real)
    ensures SumBy(a + b, f) == SumBy(a, f) + SumBy(b, f)
    decreases |b|
  {
    if b == [] {
      assert a + b == a;
    } else {
      var b' := b[..|b| - 1];
      assert (a + b)[..|a + b| - 1] == a + b';
      SumByAppend(a, b', f);
    }
  }

  /** The sum over one row is that row's value. */
  lemma SumBySingle<T>(x: T, f: T -> real)
    ensures SumBy([x], f) == f(x)
  {
    assert [x][..0] == [];
  }

  /** Summing a row followed by more rows. */
  lemma SumByCons<T>(x: T, s: seq<T>, f: T -> real)
    ensures SumBy([x] + s, f) == f(x) + SumBy(s, f)
  {
    SumByAppend([x], s, f);
    SumBySingle(x, f);
  }

  /** A row between two runs of rows adds its own value to their sum. */
  lemma SumByMiddle<T>(a: seq<T>, x: T, b: seq<T>, f: T -> real)
    ensures SumBy(a + [x] + b, f) == SumBy(a + b, f) + f(x)
  {
    SumByAppend(a + [x], b, f);
    SumByAppend(a, [x], f);
    SumByAppend(a, b, f);
    SumBySingle(x, f);
  }

  /** A sequence is its rows before `i`, the row at `i` and the rows after. */
  lemma SplitAt<T>(s: seq<T>, i: nat)
    requires i < |s|
    ensures s == s[..i] + [s[i]] + s[i + 1..]
  {
  }

  /** Removing the row at `i` takes exactly `f` of that row off the sum. */
  lemma SumByRemove<T>(s: seq<T>, i: nat, f: T -> real)
    requires i < |s|
    ensures SumBy(s, f) == SumBy(s[..i] + s[i + 1..], f) + f(s[i])
  {
    SplitAt(s, i);
    SumByMiddle(s[..i], s[i], s[i + 1..], f);
  }

  /** Replacing the row at `i` changes the sum by the difference of the two rows. */
  lemma SumByUpdate<T>(s: seq<T>, i: nat, x: T, f: T -> real)
    requires i < |s|
    ensures SumBy(s[i := x], f) == SumBy(s, f) - f(s[i]) + f(x)
  {
    SumByRemove(s, i, f);
    SumByRemove(s[i := x], i, f);
    assert s[i := x][..i] + s[i := x][i + 1..] == s[..i] + s[i + 1..];
  }

  /** Taking the row at `i` out of a sequence takes one copy of it out of
      its multiset. */
  lemma MultisetRemove<T>(t: seq<T>, i: nat)
    requires i < |t|
    ensures multiset(t[..i] + t[i + 1..]) == multiset(t) - multiset{t[i]}
  {
    SplitAt(t, i);
    assert multiset(t) == multiset(t[..i]) + multiset{t[i]} + multiset(t[i + 1..]);
  }

  /** The last row of `s` sits somewhere in any reordering `t` of it, and
      the rest of `s` is a reordering of `t` without that row. */
  lemma PermutationStep<T>(s: seq<T>, t: seq<T>) returns (i: nat)
    requires s != [] && multiset(s) == multiset(t)
    ensures i < |t| && t[i] == s[|s| - 1]
    ensures multiset(s[..|s| - 1]) == multiset(t[..i] + t[i + 1..])
  {
    var x := s[|s| - 1];
    assert s == s[..|s| - 1] + [x];
    assert multiset(s) == multiset(s[..|s| - 1]) + multiset{x};
    assert x in multiset(t);
    i :| 0 <= i < |t| && t[i] == x;
    MultisetRemove(t, i);
  }

  /** The sum does not depend on the order of the rows. */
  lemma {:induction false} SumByPermutation<T>(s: seq<T>, t: seq<T>, f: T -> real)
    requires multiset(s) == multiset(t)
    ensures SumBy(s, f) == SumBy(t, f)
    decreases |s|
  {
    if s == [] {
      assert |t| == |multiset(t)| == 0;
    } else {
      var i := PermutationStep(s, t);
      SumByPermutation(s[..|s| - 1], t[..i] + t[i + 1..], f);
      SumByRemove(t, i, f);
    }
  }
}
