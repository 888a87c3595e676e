// Shared vocabulary of the bookstore model: optional values, the error results
// the services raise, Java's `int` bound and the decimal rendering of ids used
// in error messages.
module Common {

  datatype Option<T> = None | Some(value: T)

  /** The exceptions the services throw, as values. */
  datatype Error =
    | EntityNotFound(message: string)     // com.book.store.app.exception.EntityNotFoundException
    | PersistenceNotFound(message: string) // jakarta.persistence.EntityNotFoundException
    | Registration(message: string)       // RegistrationException
    | IllegalArgument(message: string)    // IllegalArgumentException from Enum.valueOf

  datatype Result<T> = Ok(value: T) | Err(error: Error)

  /** Largest value of a Java `int`. */
  const INT_MAX: int := 0x7fff_ffff

  function DigitChar(d: nat): char
    requires d < 10
  {
    "0123456789"[d]
  }

  /** Decimal rendering of a non-negative id, as Java's string concatenation of a Long gives it. */
  function DecimalString(n: nat): (r: string)
    ensures |r| >= 1
    ensures forall k :: 0 <= k < |r| ==> '0' <= r[k] <= '9'
    decreases n
  {
    if n < 10 then [DigitChar(n)] else DecimalString(n / 10) + [DigitChar(n % 10)]
  }

  /** Decimal rendering of a Long id taken from a request path, with its sign. */
  function IntString(n: int): (r: string)
    ensures n >= 0 ==> r == DecimalString(n)
    ensures n < 0 ==> r == "-" + DecimalString(-n)
  {
    if n < 0 then "-" + DecimalString(-n) else DecimalString(n)
  }
}

// Row removal for tables held as sequences, and rearrangements of rows.
module Tables {

  /** The table without its row at `k`: what `delete` of that row leaves. */
  function Without<T>(rows: seq<T>, k: nat): (r: seq<T>)
    requires k < |rows|
    ensures |r| == |rows| - 1
    ensures forall j :: 0 <= j < k ==> r[j] == rows[j]
    ensures forall j :: k <= j < |r| ==> r[j] == rows[j + 1]
    ensures multiset(r) + multiset{rows[k]} == multiset(rows)
  {
    assert rows == rows[..k] + [rows[k]] + rows[k + 1..];
    rows[..k] + rows[k + 1..]
  }

  /** Taking one occurrence of the first row out of both of two arrangements of the same rows. */
  lemma MultisetRemove<T>(l1: seq<T>, l2: seq<T>, i: nat)
    requires |l1| > 0 && i < |l2| && l2[i] == l1[0] && multiset(l1) == multiset(l2)
    ensures multiset(l1[1..]) == multiset(l2[..i] + l2[i + 1..])
  {
    var x := l1[0];
    var p, q := l2[..i], l2[i + 1..];
    assert l2 == p + [x] + q;
    assert l1 == [x] + l1[1..];
    assert multiset(l1[1..]) == multiset(l1) - multiset{x};
    assert multiset(p + q) == multiset(l2) - multiset{x};
  }

  /** A row moved from the front to between two parts keeps the rows, as often as before. */
  lemma MultisetMove<T>(whole: seq<T>, x: T, t: seq<T>, p: seq<T>, q: seq<T>)
    requires whole == [x] + t && multiset(t) == multiset(p + q)
    ensures multiset(whole) == multiset(p + [x] + q)
  {
  }
}
