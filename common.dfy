/** Shared vocabulary of the backend model: optional values, results with the
    service layer's error kinds, and the ASCII case folding behind every
    "ignore case" comparison the services make. */
module Common {

  datatype Option<+T> = None | Some(value: T)

  datatype Result<+T> = Success(value: T) | Failure(error: Error)

  /** The result of a service call that returns nothing (a `void` method). */
  datatype Outcome = Ok | Fail(error: Error)

  /** The HTTP statuses the services raise through their request exception. */
  datatype Status = BadRequest | Unauthorized | NotFound | Conflict

  /** A service-layer exception: an HTTP request exception with its status and
      message, an IllegalArgumentException, a plain RuntimeException, or the
      database refusing a statement that breaks a foreign key (which the
      catch-all handler answers with status 500). */
  datatype Error =
    | Http(status: Status, message: string)
    | IllegalArgument(message: string)
    | Runtime(message: string)
    | IntegrityViolation

  /** Folds one ASCII upper-case letter to lower case; every other character is
      left as it is. */
  function LowerChar(c: char): (r: char)
    ensures 'A' <= c <= 'Z' ==> r as int == c as int + 32
    ensures !('A' <= c <= 'Z') ==> r == c
    ensures !('A' <= r <= 'Z')
  {
    if 'A' <= c <= 'Z' then (c as int + 32) as char else c
  }

  function Lower(s: string): (r: string)
    ensures |r| == |s|
    ensures forall i :: 0 <= i < |s| ==> r[i] == LowerChar(s[i])
  {
    seq(|s|, i requires 0 <= i < |s| => LowerChar(s[i]))
  }

  /** String.equalsIgnoreCase, restricted to ASCII letters. */
  predicate EqualsIgnoreCase(a: string, b: string)
  {
    Lower(a) == Lower(b)
  }

  /** Equal strings compare equal ignoring case; strings of different length
      never do; and the relation is symmetric. */
  lemma EqualsIgnoreCaseBasics(a: string, b: string)
    ensures a == b ==> EqualsIgnoreCase(a, b)
    ensures EqualsIgnoreCase(a, b) ==> |a| == |b|
    ensures EqualsIgnoreCase(a, b) <==> EqualsIgnoreCase(b, a)
  {
    if EqualsIgnoreCase(a, b) {
      assert |Lower(a)| == |Lower(b)|;
    }
  }

  /** Clock readings (LocalDateTime values) are whole nanoseconds on one
      time line; this is one minute of it. */
  const Minute: int := 60 * 1000000000

  /** String.startsWith. */
  predicate StartsWith(s: string, prefix: string)
  {
    |prefix| <= |s| && s[..|prefix|] == prefix
  }
}
