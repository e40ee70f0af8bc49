/** The client's exception hierarchy (lib/creditsafe/errors.rb) as an enumeration with an
    explicit parent relation, and the values the client can raise. */
module Errors {

  /** One constructor per class of the hierarchy. `Error` is the root. */
  datatype ErrorClass =
    | Error
    | HttpError
    | ApiError
    | TimeoutError
    | BadGatewayError
    | DataError
    | AccountError
    | RequestError
    | ProcessingError
    | UnknownApiError

  /** The direct superclass inside the hierarchy; the root has none (it derives from
      Ruby's StandardError, which is outside the model). */
  function Parent(c: ErrorClass): (p: ErrorClass)
    requires c != Error
  {
    match c
    case HttpError | ApiError => Error
    case TimeoutError | BadGatewayError => HttpError
    case DataError | AccountError | RequestError | ProcessingError | UnknownApiError => ApiError
  }

  /** The number of superclass steps from `c` up to the root. */
  function Depth(c: ErrorClass): nat
  {
    match c
    case Error => 0
    case HttpError | ApiError => 1
    case _ => 2
  }

  /** Ruby's `c <= ancestor`: `c` is `ancestor` or one of its (transitive) subclasses. */
  predicate IsA(c: ErrorClass, ancestor: ErrorClass)
    decreases Depth(c)
  {
    c == ancestor || (c != Error && IsA(Parent(c), ancestor))
  }

  predicate IsHttpError(c: ErrorClass) { IsA(c, HttpError) }

  predicate IsApiError(c: ErrorClass) { IsA(c, ApiError) }

  /** Every class of the hierarchy descends from the root `Error`. */
  lemma {:induction false} AllDescendFromError(c: ErrorClass)
    ensures IsA(c, Error)
    decreases Depth(c)
  {
    if c != Error {
      AllDescendFromError(Parent(c));
    }
  }

  /** The two families are exactly as declared: HttpError with its two subclasses, and
      ApiError with its five subclasses. */
  lemma Families(c: ErrorClass)
    ensures IsHttpError(c) <==> c in {HttpError, TimeoutError, BadGatewayError}
    ensures IsApiError(c) <==>
      c in {ApiError, DataError, AccountError, RequestError, ProcessingError, UnknownApiError}
  {
  }

  /** No class belongs to both families, and the root belongs to neither. */
  lemma FamiliesDisjoint(c: ErrorClass)
    ensures !(IsHttpError(c) && IsApiError(c))
    ensures !IsHttpError(Error) && !IsApiError(Error)
  {
    Families(c);
    Families(Error);
  }

  /** An exception value as it leaves the client: either one of the client's own classes
      with its message text, or some other Ruby exception, identified by class name, that
      the client lets through unchanged. */
  datatype Raised =
    | Creditsafe(kind: ErrorClass, text: string)
    | Foreign(className: string, text: string)

  /** Ruby's ArgumentError, raised by argument validation before any request is sent; it is
      not part of the hierarchy above. */
  datatype ArgumentError = ArgumentError(text: string)
}
