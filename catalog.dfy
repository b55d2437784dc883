/**
 * The catalog fetch `get_books` (book_finder.py, lines 5-10) over an
 * abstract response: the request itself is I/O and is not modelled.
 */
module Catalog {
  import opened Wrappers
  import opened BookRecord

  /** One entry of the response's `items` array. `book["volumeInfo"]` fails when the key is absent. */
  datatype Item = Item(volumeInfo: Option<VolumeInfo>)

  /** The response body as `response.json()` sees it. */
  datatype Body = Malformed | Json(items: Option<seq<Item>>)

  /** The outcome of `requests.get`: a reply, or a connection error raised by the call. */
  datatype Response = Reply(status: int, body: Body) | ConnectionFailed

  /** What `get_books` hands back: a list of items, or an exception that ends the page pass. */
  datatype Fetch = Fetched(items: seq<Item>) | Raised

  const StatusOk := 200

  function GetBooks(r: Response): (f: Fetch)
    ensures f.Raised? <==> r.ConnectionFailed? || (r.status == StatusOk && r.body.Malformed?)
    ensures r.Reply? && r.status != StatusOk ==> f == Fetched([])
    ensures r.Reply? && r.status == StatusOk && r.body.Json? && r.body.items.Some? ==>
              f == Fetched(r.body.items.value)
    ensures r.Reply? && r.status == StatusOk && r.body == Json(None) ==> f == Fetched([])
  {
    match r
    case ConnectionFailed => Raised
    case Reply(status, body) =>
      if status == StatusOk then
        match body
        case Malformed => Raised
        case Json(items) => Fetched(items.GetOr([]))
      else
        Fetched([])
  }

  /**
   * An error status and a successful reply without `items` cannot be told
   * apart by the caller: both give the empty list.
   */
  lemma FailureLooksLikeNoMatches(status: int, body: Body)
    requires status != StatusOk
    ensures GetBooks(Reply(status, body)) == GetBooks(Reply(StatusOk, Json(None)))
    ensures GetBooks(Reply(status, body)) == GetBooks(Reply(StatusOk, Json(Some([]))))
  {
  }
}
