/** What the Express routes see of a request and send back on failure: JSON
    bodies as ordered key/value lists, the errors the handlers throw with
    their HTTP status, and the Joi rules the schemas apply to one value. */
module Http {

  import opened Wrappers

  /** The errors the modelled handlers throw. `Unprocessable` is the 422 of
      the validation middleware (its message is Joi's and is not modelled);
      `Thrown` is an error raised by a library call, without a status of
      its own. */
  datatype Failure =
    | Unprocessable
    | Unauthorized(message: string)
    | Forbidden(message: string)
    | NotFound(message: string)
    | Thrown
  {
    function Status(): (code: int)
      requires !Thrown?
      ensures 400 <= code < 500
    {
      match this
      case Unprocessable => 422
      case Unauthorized(_) => 401
      case Forbidden(_) => 403
      case NotFound(_) => 404
    }
  }

  type Outcome<T> = Result<T, Failure>

  /** A JSON value as `express.json()` parses it; arrays and objects are
      `Structured`, since no modelled schema accepts them. */
  datatype Json = Number(n: real) | Text(s: string) | Bool(b: bool) | Null | Structured

  /** A parsed JSON object: its keys in insertion order, each at most once. */
  type Body = seq<(string, Json)>

  predicate DistinctKeys(body: Body) {
    forall i, j :: 0 <= i < j < |body| ==> body[i].0 != body[j].0
  }

  /** `body[key]`, `None` when the key is absent (`undefined`). */
  function Lookup(body: Body, key: string): (v: Option<Json>)
    ensures v.Some? <==> exists i :: 0 <= i < |body| && body[i].0 == key
    ensures v.Some? ==> exists i :: 0 <= i < |body| && body[i] == (key, v.value)
  {
    if body == [] then None
    else if body[0].0 == key then Some(body[0].1)
    else Lookup(body[1..], key)
  }

  /** `Number.MAX_SAFE_INTEGER`: Joi's `number()` refuses integers beyond it. */
  const MaxSafeInteger: int := 9007199254740991

  /** `Joi.number().integer()`: a finite number with no fractional part,
      within the safe-integer range. */
  predicate IsInteger(v: Json) {
    v.Number? && v.n == v.n.Floor as real && -MaxSafeInteger <= v.n.Floor <= MaxSafeInteger
  }

  /** `Joi.number().integer().min(lo)`. */
  predicate IsIntegerAtLeast(v: Json, lo: int) {
    IsInteger(v) && v.n.Floor >= lo
  }

  /** `Joi.string().max(max)`: a string of at most `max` characters; Joi
      refuses the empty string unless it is explicitly allowed. */
  predicate IsText(v: Json, max: nat) {
    v.Text? && 0 < |v.s| <= max
  }

  /** `Joi.string().valid(...options)`. */
  predicate IsOneOf(v: Json, options: seq<string>) {
    v.Text? && v.s in options
  }
}
