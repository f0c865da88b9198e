/** What the route handlers answer, and JavaScript truthiness of the body fields they test. */
module Http {
  import opened Wrappers

  /** A handler's answer; `D` is the document kind. */
  datatype Response<D> =
    | Found(doc: D)              // 200 with the document
    | Created(doc: D)            // 201, 'created successfully'
    | Updated(doc: D)            // 200, 'updated successfully'
    | Deleted                    // 200, 'deleted successfully'
    | BadRequest(errors: seq<string>)  // 400 with the validator messages
    | NotFound                   // 404, 'not found'
    | ServerError                // 500, e.g. a schema validation error thrown by save()

  function Status<D>(r: Response<D>): nat {
    match r
    case Found(_) => 200
    case Created(_) => 201
    case Updated(_) => 200
    case Deleted => 200
    case BadRequest(_) => 400
    case NotFound => 404
    case ServerError => 500
  }

  /** `if (s)` on a string field: defined and non-empty. */
  predicate TruthyText(s: Option<string>) {
    s.Some? && s.value != ""
  }

  /** `if (x)` on a number field: defined and non-zero. */
  predicate TruthyNumber(x: Option<real>) {
    x.Some? && x.value != 0.0
  }

  /** `s || fallback` on a string field. */
  function TextOr(s: Option<string>, fallback: string): (r: string)
    ensures TruthyText(s) ==> r == s.value
    ensures !TruthyText(s) ==> r == fallback
  {
    if TruthyText(s) then s.value else fallback
  }

  /** `x || fallback` on a number field. */
  function NumberOr(x: Option<real>, fallback: real): (r: real)
    ensures TruthyNumber(x) ==> r == x.value
    ensures !TruthyNumber(x) ==> r == fallback
  {
    if TruthyNumber(x) then x.value else fallback
  }
}
