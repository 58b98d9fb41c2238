/** What the dashboard routes share: the `limit`/`offset` query parameters, the
    `.range(offset, offset + limit - 1)` window over an ordered result, and the shape
    of a create request's outcome. */
module Api {
  import opened Text

  /** The outcome of a create request: the stored row (status 201), or a refusal with
      its HTTP status and message. */
  datatype Created<T> = Created(row: T) | Refused(status: nat, error: string)

  /** The outcome of one check of a request: go on with what it established, or stop
      with an HTTP status and message. */
  datatype Checked<T> = Pass(value: T) | Stop(status: nat, error: string)

  /** `parseInt(param) || fallback`: a missing or unreadable parameter (`NaN`) and a
      zero both give the fallback. The parameter arrives as the number `parseInt`
      yields, or `None` for `NaN`. */
  function ParamOr(param: Option<int>, fallback: int): (r: int)
    ensures param.Some? && param.value != 0 ==> r == param.value
    ensures param.None? || param.value == 0 ==> r == fallback
  {
    if param.Some? && param.value != 0 then param.value else fallback
  }

  const DefaultLimit: int := 50
  const DefaultOffset: int := 0

  /** The positions `.range(offset, offset + limit - 1)` selects, as a half-open
      interval clipped to the result. */
  function PageStart(n: nat, offset: int): (lo: nat)
    ensures lo <= n
  {
    if offset < 0 then 0 else if offset > n then n else offset
  }

  function PageEnd(n: nat, offset: int, limit: int): (hi: nat)
    ensures PageStart(n, offset) <= hi <= n
  {
    var lo := PageStart(n, offset);
    if offset + limit < lo then lo else if offset + limit > n then n else offset + limit
  }

  /** The rows at positions `offset` to `offset + limit - 1` of the ordered result,
      those that exist. */
  function Page<T>(xs: seq<T>, offset: int, limit: int): (r: seq<T>)
    ensures |r| == PageEnd(|xs|, offset, limit) - PageStart(|xs|, offset)
  {
    xs[PageStart(|xs|, offset)..PageEnd(|xs|, offset, limit)]
  }

  /** A row is on the page exactly when its position lies in the requested window. */
  lemma PagePositions<T>(xs: seq<T>, offset: int, limit: int, i: int)
    requires 0 <= i < |xs|
    ensures (offset <= i < offset + limit) <==>
      (PageStart(|xs|, offset) <= i < PageEnd(|xs|, offset, limit))
  {
  }

  /** Every page holds at most `limit` rows, and a page starting inside the result
      holds exactly `limit` of them unless it reaches the end. */
  lemma PageSize<T>(xs: seq<T>, offset: nat, limit: nat)
    ensures |Page(xs, offset, limit)| <= limit
    ensures offset + limit <= |xs| ==> |Page(xs, offset, limit)| == limit
    ensures offset + limit > |xs| && limit > 0 ==> |Page(xs, offset, limit)| < limit
  {
  }

  /** `hasMore` (`rows.length === limit`) holds exactly when the window fits inside
      the result, so it also holds for a last page that happens to be full. */
  lemma HasMoreMeans<T>(xs: seq<T>, offset: nat, limit: nat)
    requires limit > 0
    ensures |Page(xs, offset, limit)| == limit <==> offset + limit <= |xs|
    ensures offset + limit == |xs| ==> |Page(xs, offset, limit)| == limit && Page(xs, offset + limit, limit) == []
  {
  }

  /** Consecutive pages tile the result: reading `a` rows and then `b` more is reading
      `a + b` rows. */
  lemma PagesTile<T>(xs: seq<T>, offset: nat, a: nat, b: nat)
    ensures Page(xs, offset, a) + Page(xs, offset + a, b) == Page(xs, offset, a + b)
  {
  }
}
