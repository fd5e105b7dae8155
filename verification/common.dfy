/** Shared vocabulary of the model: optional and failing results, the error
    kinds the service raises, the integration entity, and a subsequence
    relation used to state that a filtering operation keeps the relative
    order of what it keeps. */
module Common {

  /** A value that may be absent (Java's `null` / `Optional.empty()`). */
  datatype Option<+T> = None | Some(value: T) {
    function GetOr(default: T): T {
      match this
      case Some(v) => v
      case None => default
    }
  }

  /** The error codes of the service's `ErrorType` that the modelled code raises. */
  datatype ErrorType =
    | BadRequestError
    | IncorrectRequest
    | EmailConfigurationIsIncorrect
    | ForbiddenOperation
    | UnableInteractWithIntegration

  /** Everything that can end a modelled operation abnormally: a
      `ReportPortalException` carrying an error code, or one of the Java
      runtime exceptions the code lets escape. `DuplicateKey` is the
      `IllegalStateException` that `Collectors.toMap` throws on a repeated key. */
  datatype Error =
    | ReportPortal(errorType: ErrorType)
    | NumberFormatException
    | DuplicateKey(key: string)
    | NullPointerException

  datatype Result<+T> = Success(value: T) | Failure(error: Error) {
    predicate IsFailure() {
      Failure?
    }
    function PropagateFailure<U>(): Result<U>
      requires Failure?
    {
      Failure(error)
    }
    function Extract(): T
      requires Success?
    {
      value
    }
  }

  /** Pass/fail outcome of a check that returns nothing on success. */
  datatype Outcome = Pass | Fail(error: Error)

  /** An integration entity: its database id (absent until persisted) and its
      parameter object (absent until assigned), whose shape depends on the
      kind of integration. */
  datatype Integration<+P> = Integration(id: Option<int>, params: Option<P>)

  /** `sub` is obtained from `s` by deleting some elements. */
  predicate Subsequence<T(==)>(sub: seq<T>, s: seq<T>)
    decreases |s|
  {
    if |sub| == 0 then true
    else if |s| == 0 then false
    else (sub[0] == s[0] && Subsequence(sub[1..], s[1..])) || Subsequence(sub, s[1..])
  }

  lemma {:induction false} SubsequenceReflexive<T>(s: seq<T>)
    ensures Subsequence(s, s)
    decreases |s|
  {
    if |s| > 0 {
      SubsequenceReflexive(s[1..]);
    }
  }

  lemma {:induction false} SubsequenceTransitive<T>(a: seq<T>, b: seq<T>, c: seq<T>)
    requires Subsequence(a, b) && Subsequence(b, c)
    ensures Subsequence(a, c)
    decreases |c|
  {
    if |a| == 0 {
    } else if b[0] == c[0] && Subsequence(b[1..], c[1..]) {
      if a[0] == b[0] && Subsequence(a[1..], b[1..]) {
        SubsequenceTransitive(a[1..], b[1..], c[1..]);
      } else {
        SubsequenceTransitive(a, b[1..], c[1..]);
      }
    } else {
      SubsequenceTransitive(a, b, c[1..]);
    }
  }
}
