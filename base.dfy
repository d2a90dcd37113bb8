/** Shared vocabulary of the LMS model: nullable values, operation outcomes,
    and the ASCII case mappings that Python's str.lower()/str.upper() perform
    on the characters this model considers. */
module Base {

  /** A nullable database column or an optional query result (`.first()`). */
  datatype Option<+T> = None | Some(value: T)

  /** The result of an operation that either succeeds or raises/returns an error. */
  datatype Outcome<+E> = Pass | Fail(error: E)

  /** A value-carrying result: `Ok(v)` or the error the source raises. */
  datatype Result<+T, +E> = Ok(value: T) | Err(error: E)

  /** Python truthiness of a nullable boolean column: `None` counts as false. */
  function Truthy(b: Option<bool>): (r: bool)
    ensures r <==> b == Some(true)
  {
    match b
    case None => false
    case Some(v) => v
  }

  predicate IsAsciiUpper(c: char) { 'A' <= c <= 'Z' }

  predicate IsAsciiLower(c: char) { 'a' <= c <= 'z' }

  /** Lower-cases one character: ASCII capitals map to their small letters. */
  function LowerChar(c: char): (r: char)
    ensures !IsAsciiUpper(r)
    ensures IsAsciiUpper(c) ==> IsAsciiLower(r)
    ensures !IsAsciiUpper(c) ==> r == c
  {
    if IsAsciiUpper(c) then (c as int + 32) as char else c
  }

  /** Upper-cases one character: ASCII small letters map to their capitals. */
  function UpperChar(c: char): (r: char)
    ensures !IsAsciiLower(r)
    ensures IsAsciiLower(c) ==> IsAsciiUpper(r)
    ensures !IsAsciiLower(c) ==> r == c
  {
    if IsAsciiLower(c) then (c as int - 32) as char else c
  }

  /** `s.lower()` restricted to ASCII letters. */
  function Lower(s: string): (r: string)
    ensures |r| == |s|
    ensures forall i :: 0 <= i < |s| ==> r[i] == LowerChar(s[i])
  {
    seq(|s|, i requires 0 <= i < |s| => LowerChar(s[i]))
  }

  /** `s.upper()` restricted to ASCII letters. */
  function Upper(s: string): (r: string)
    ensures |r| == |s|
    ensures forall i :: 0 <= i < |s| ==> r[i] == UpperChar(s[i])
  {
    seq(|s|, i requires 0 <= i < |s| => UpperChar(s[i]))
  }

  /** Lower-casing is idempotent, so comparing lower-cased strings is an
      equivalence that ignores the case of ASCII letters. */
  lemma LowerIdempotent(s: string)
    ensures Lower(Lower(s)) == Lower(s)
  {
    assert forall i :: 0 <= i < |s| ==> LowerChar(LowerChar(s[i])) == LowerChar(s[i]);
  }

  /** Comparing two reals scaled by the same positive factor compares the reals. */
  lemma Cancelar(x: real, y: real, t: real)
    requires t > 0.0
    ensures x * t >= y * t <==> x >= y
    ensures x * t == y * t <==> x == y
  {
    if x > y {
      assert x * t - y * t == (x - y) * t;
    } else if x < y {
      assert y * t - x * t == (y - x) * t;
    }
  }
}
