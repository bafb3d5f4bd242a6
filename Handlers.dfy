/**
 * The read routes of src/main.ts:139-186. Each runs one prepared statement;
 * SQLite either reports an error or returns the rows, and the route sends
 * the rows (or, for a single resource, the first of them) or the text
 * `"Error: " + err`. Whether the statement fails is a parameter.
 */
module Handlers {
  import opened Common
  import opened Schema
  import opened Queries
  import opened Lookups

  /** The callback arguments of `Statement.all`: an error or the rows. */
  datatype QueryResult<T> = Rows(rows: seq<T>) | QueryError(err: string)

  /** What a route passes to `res.send`: a JSON value or a plain string. */
  datatype Reply<T> = Send(body: T) | SendText(text: string)

  const ErrorPrefix: string := "Error: "

  /** Runs a statement whose rows are `rows`, unless the database reports
      `failure`. */
  function Execute<T>(failure: Option<string>, rows: seq<T>): (q: QueryResult<T>)
    ensures q.Rows? <==> failure.None?
  {
    match failure
    case None => Rows(rows)
    case Some(err) => QueryError(err)
  }

  /** The callback shape shared by the list routes. */
  function Respond<T>(q: QueryResult<T>): (r: Reply<seq<T>>)
    ensures r.Send? <==> q.Rows?
    ensures q.Rows? ==> r.body == q.rows
    ensures q.QueryError? ==> r.text == ErrorPrefix + q.err
  {
    match q
    case Rows(rows) => Send(rows)
    case QueryError(err) => SendText(ErrorPrefix + err)
  }

  /** The callback of `/resources/:resourceName`: `rows[0]`. */
  function RespondFirst<T>(q: QueryResult<T>): (r: Reply<Option<T>>)
    ensures r.Send? <==> q.Rows?
    ensures q.Rows? ==> r.body == First(q.rows)
    ensures q.QueryError? ==> r.text == ErrorPrefix + q.err
  {
    match q
    case Rows(rows) => Send(First(rows))
    case QueryError(err) => SendText(ErrorPrefix + err)
  }

  /** Reads the error detail back out of an error reply's text. */
  function ErrorDetail(text: string): Option<string> {
    if |text| >= |ErrorPrefix| && text[..|ErrorPrefix|] == ErrorPrefix
    then Some(text[|ErrorPrefix|..]) else None
  }

  /** The text of an error reply carries the database's error unchanged
      behind the prefix. */
  lemma ErrorReplyRoundTrip<T>(err: string)
    ensures Respond(QueryResult<T>.QueryError(err)).SendText?
    ensures ErrorDetail(Respond(QueryResult<T>.QueryError(err)).text) == Some(err)
  {
    var text := ErrorPrefix + err;
    assert text[..|ErrorPrefix|] == ErrorPrefix && text[|ErrorPrefix|..] == err;
  }

  /** `GET /resources/:resourceName/images`. */
  function ResourceImagesRoute(failure: Option<string>, images: seq<ResourceImage>, name: string): (r: Reply<seq<string>>)
    ensures failure.None? ==> r == Send(ImageUrls(images, name))
    ensures failure.Some? ==> r == SendText(ErrorPrefix + failure.value)
  {
    Respond(Execute(failure, ImageUrls(images, name)))
  }

  /** `GET /resources/:resourceName/bookings?from=..&until=..`. */
  function ResourceBookingsRoute(failure: Option<string>, bookings: seq<Booking>, name: string, from: int, until: int): (r: Reply<seq<Booking>>)
    ensures failure.None? ==> r == Send(ResourceBookings(bookings, name, from, until))
    ensures failure.Some? ==> r == SendText(ErrorPrefix + failure.value)
  {
    Respond(Execute(failure, ResourceBookings(bookings, name, from, until)))
  }

  /** `GET /resources/:resourceName`. */
  function ResourceRoute(failure: Option<string>, resources: seq<Resource>, images: seq<ResourceImage>, tags: seq<ResourceTag>, name: string): (r: Reply<Option<ResourceView>>)
    ensures failure.None? ==> r == Send(GetResource(resources, images, tags, name))
    ensures failure.Some? ==> r == SendText(ErrorPrefix + failure.value)
  {
    RespondFirst(Execute(failure, ResourceRows(resources, images, tags, name)))
  }

  /** `GET /resources`. */
  function ResourcesRoute(failure: Option<string>, resources: seq<Resource>, images: seq<ResourceImage>, tags: seq<ResourceTag>): (r: Reply<seq<ResourceView>>)
    ensures failure.None? ==> r == Send(SearchResources(resources, images, tags))
    ensures failure.Some? ==> r == SendText(ErrorPrefix + failure.value)
  {
    Respond(Execute(failure, SearchResources(resources, images, tags)))
  }
}
