/** The responses a route handler sends. */
module Http {
  import opened Common
  import opened Listing

  datatype Reply<T> =
    | Ok(body: T)                       // 200 with a JSON body
    | Created(body: T)                  // 201 with the created row
    | NoContent                         // 204
    | BadInput(field: string)           // 400: zod rejected the body; `field` is the first failing field
    | Fail(status: int, message: string)
    | Unhandled                         // the handler throws outside any try/catch; no reply of its own

  const ServerError := "Server error"

  /**
   * One field of a JSON or form body, as a schema sees it: missing, a
   * string, an integer, a number with a fractional part, or anything else
   * (null, a boolean, an object).
   */
  datatype Json = Missing | Str(s: string) | Int(n: int) | Frac | Other

  /**
   * A numeric query parameter as `parseInt(q || fallback, 10)` sees it:
   * absent or empty (the fallback applies), an integer, or text that parses
   * to NaN.
   */
  datatype NumParam = Absent | Num(n: int) | NaN

  /** The parsed value, `None` standing for NaN. */
  function ParseOr(p: NumParam, fallback: int): (r: Option<int>)
    ensures p.Absent? ==> r == Some(fallback)
    ensures p.Num? ==> r == Some(p.n)
    ensures p.NaN? <==> r.None?
  {
    match p
    case Absent => Some(fallback)
    case Num(n) => Some(n)
    case NaN => None
  }

  /** The `skip` and `take` a list query hands to the ORM. */
  datatype Paging = Paging(skip: nat, take: nat)

  /**
   * `page` and `limit` (falling back to 1 and `fallbackLimit`), then
   * `skip = (page - 1) * limit` and `take = limit`. `None` when either
   * parameter is NaN or the skip or the take comes out negative: the ORM
   * rejects those.
   */
  function PagingOf(page: NumParam, limit: NumParam, fallbackLimit: int): (r: Option<Paging>)
    ensures r.Some? <==>
              && ParseOr(page, 1).Some? && ParseOr(limit, fallbackLimit).Some?
              && SkipOf(ParseOr(page, 1).value, ParseOr(limit, fallbackLimit).value) >= 0
              && ParseOr(limit, fallbackLimit).value >= 0
    ensures r.Some? ==> r.value.take == ParseOr(limit, fallbackLimit).value
    ensures r.Some? ==> r.value.skip == SkipOf(ParseOr(page, 1).value, r.value.take)
    ensures page.Absent? && limit.Absent? && fallbackLimit >= 0 ==> r == Some(Paging(0, fallbackLimit))
  {
    match (ParseOr(page, 1), ParseOr(limit, fallbackLimit))
    case (Some(p), Some(l)) =>
      if SkipOf(p, l) >= 0 && l >= 0 then Some(Paging(SkipOf(p, l), l)) else None
    case _ => None
  }

  /** The status code the client sees, when the handler itself answers. */
  function StatusOf<T>(r: Reply<T>): Option<int> {
    match r
    case Ok(_) => Some(200)
    case Created(_) => Some(201)
    case NoContent => Some(204)
    case BadInput(_) => Some(400)
    case Fail(s, _) => Some(s)
    case Unhandled => None
  }
}
