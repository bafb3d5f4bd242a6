# chershare mediaserver: resource views, lookups and image uploads in Dafny

This project models the read-side data shaping and the upload bookkeeping
of the chershare media server, a backend for booking shared resources
(rooms, equipment). It covers the following pieces:

- **The resource view** (`src/queries.ts`, module `Queries`). The
  `resourceBase` SQL query joins `resources` with their position-0
  `resource_images` and with the per-resource `GROUP_CONCAT` of
  `resource_tags`. It renames `contact_info` to `contactInfo` and
  `image_url` to `titleImage`. Two prepared statements are built on it:
  `getResourceQuery` adds a name filter, and `searchResourcesQuery` takes
  at most 100 rows. The tables are sequences of record datatypes
  (`Schema`), and the query is a function from the three tables to a
  sequence of view rows.
- **The lookups** (`src/main.ts:48-53`, module `Lookups`):
  - the image URLs of a resource, ordered by position;
  - the bookings of an account;
  - the bookings of a resource that overlap a closed window
    `[from, until]`.
- **Uploads and serving** (`src/main.ts:94-136`, module `Uploads`):
  - the three outcomes of `POST /resource-images`;
  - the generated file name `<timestamp>-<digits>.jpg`;
  - the path the upload writes to;
  - the path `serveFile` opens for a key.
- **The read routes** (`src/main.ts:139-186`, module `Handlers`). A
  database error becomes the text `"Error: " + err`. Otherwise the route
  sends the rows, or for a single resource the first row.
  A row of a one-column result, such as the `{image_url: ...}` rows of the
  images query, is modelled by its single value.

`Common` holds the relational building blocks: `WHERE` as `Filter`,
`LIMIT` as `Take`, and `rows[0]` as `First`. `Text` holds string search,
`GROUP_CONCAT` as `Join` with its inverse `Split`, and decimal numerals.

Some inputs are parameters of the model:
- the clock (`Date.now()`);
- the random fraction digits (`Math.random().toFixed(10).substring(2)`);
- whether the image library decoded, resized and wrote the file;
- whether the database reported an error, with the error's text.

The uploaded file is present or absent (an `Option`).

The model follows the code, which:
- **Joins with an inner join.** A resource without a position-0 image or
  without tags has no row in the view.
- **Has no owner filter.** `/resources` returns the first 100 view rows.
- **Does not check its inputs.** The booking window is passed to the query
  as given. The served key is appended to the directory as given, with no
  path-traversal check.
- **Serves `image/jpg`.** That is the content type set on a served file.
- **Has no account-bookings route.** The account-bookings statement is
  prepared (`src/main.ts:50`) but no route runs it, so it is modelled as a
  query only.
- **Streams missing files unchecked.** The serving route opens the path and
  streams whatever the file system gives, with no not-found reply.

SQLite does not fix the row order of a query without `ORDER BY`, the
order inside `GROUP_CONCAT`, or the order among images with equal
positions. The model fixes all three to table order:
- resources outermost, then images;
- tags in table order;
- a stable sort by position.

Some stated properties depend on that fixed order:
- `BaseRowIff` and `BaseRowHasTags` state that `tagList` is the join of the
  tags in table order;
- `GetResourceIsFirstMatch` says "first" in the fixed row order;
- `SearchResources` says the listing is a prefix of the view in that order.

`TagListRecoversTags`, `RowsPerResource`, `BaseRowHasTitleImage`,
`BaseRowCopiesResource`, `ImagelessResourceDropped` and
`TaglessResourceDropped` hold whatever order SQLite picks: they speak of
multisets of tags, counts of rows, and the fields of each row.

## Model

| member | source | states |
|---|---|---|
| Queries.ResourceBase | src/queries.ts:1-28 | definition of the `resourceBase` view; its properties are stated in `BaseRowIff`, `BaseRowHasTitleImage`, `BaseRowHasTags`, `BaseRowCopiesResource`, `RowsPerResource` and the two `*Dropped` lemmas |
| Queries.TagsOfCount | src/queries.ts:19-24 | the tags aggregated for a resource are exactly its `resource_tags` rows, each as often as it occurs |
| Queries.BaseRowIff | src/queries.ts:1-28 | a row is in `resourceBase` iff some resource and one of its position-0 image rows produce it (name, title, description, contact info copied, `titleImage` = `image_url`, `tagList` = the joined tags) and the resource has at least one tag |
| Queries.BaseRowHasTitleImage | src/queries.ts:5-16 | every row's `titleImage` is the `image_url` of an image row of the same resource at position 0 |
| Queries.BaseRowHasTags | src/queries.ts:18-27 | every row's resource has at least one tag, and its `tagList` is the ","-join of that resource's tags |
| Queries.TagListRecoversTags | src/queries.ts:20 | splitting a row's `tagList` on "," gives back exactly the resource's tags with duplicates, when no tag contains a comma |
| Queries.BaseRowCopiesResource | src/queries.ts:2-4 | every row's name, title, description and contactInfo equal those of one resource row |
| Queries.ImagelessResourceDropped | src/queries.ts:9-17 | a resource with no position-0 image row has no row in the view (inner join) |
| Queries.TaglessResourceDropped | src/queries.ts:18-27 | a resource with no tag row has no row in the view (join against the grouped tags) |
| Queries.RowsPerResource | src/queries.ts:9-27 | with unique resource names, a tagged resource has exactly as many view rows as it has position-0 image rows (no deduplication) |
| Queries.NonTitleImageIrrelevant | src/queries.ts:14-16 | inserting an image row at a position other than 0 anywhere in the table leaves the view unchanged |
| Queries.ForeignTagIrrelevant | src/queries.ts:19-27 | inserting a tag row of a resource not in the table leaves the view unchanged |
| Queries.ResourceRows | src/main.ts:45 | `getResourceQuery` returns exactly the view rows whose name is the requested one |
| Queries.GetResource | src/main.ts:167-170 | the single-resource route sends nothing iff no view row has the name, and otherwise a view row with that name |
| Queries.GetResourceIsFirstMatch | src/main.ts:169-170 | the row sent is the first view row with the requested name |
| Queries.SearchResources | src/main.ts:46 | the listing is a prefix of the view of exactly min(100, view size) rows: the whole view when it has at most 100 rows, its first 100 rows otherwise |
| Lookups.SortByPosition | src/main.ts:48 | `ORDER BY position` yields a permutation of its input in non-decreasing position order |
| Lookups.ImageRows | src/main.ts:48 | the image rows selected are exactly those of the resource, with multiplicity, in non-decreasing position order |
| Lookups.ImageUrls | src/main.ts:48 | one URL is returned per image row of the resource |
| Lookups.ImageUrlsExact | src/main.ts:48 | the URLs returned are a permutation of the `image_url`s of the resource's image rows, and are the URLs, in order, of a position-sorted permutation of exactly those rows |
| Lookups.BookingsForAccount | src/main.ts:50 | a booking is returned, as often as it occurs, iff its `booker_account_id` is the given id |
| Lookups.ResourceBookings | src/main.ts:51-53 | a booking is returned, as often as it occurs, iff `resource_name == rn && start <= until && end >= from` |
| Lookups.OverlapIsSharedInstant | src/main.ts:52 | for intervals with start <= end, the test holds iff the booking and the window share an instant (endpoints included) |
| Lookups.TouchingEndpointCounts | src/main.ts:52 | booking [10,20] is returned for window [20,30] and not for [21,30] |
| Text.Join | src/queries.ts:20 | `GROUP_CONCAT`: no parts give "" and one part gives that part; its inverse is stated in `SplitJoin` |
| Common.Take | src/main.ts:46 | `LIMIT n` keeps a prefix of the rows of length n, or all rows when there are fewer |
| Common.First | src/main.ts:170 | `rows[0]` is absent iff there are no rows, and is otherwise the first row |
| Text.SplitJoin | src/queries.ts:20 | splitting the `GROUP_CONCAT` of a non-empty list of comma-free strings on "," gives back the list |
| Text.DecimalRoundTrip | src/main.ts:98 | the decimal rendering of the timestamp reads back as the timestamp |
| Uploads.FileName | src/main.ts:98 | definition of the name `<timestamp>-<digits>.jpg`; its properties are stated in `FileNameRoundTrip` and `FileNamesDistinct` |
| Uploads.UploadPath | src/main.ts:99 | definition of the upload target under `./storage/resource-images/`; its properties are stated in `UploadThenServe` and `UploadsDoNotCollide` |
| Uploads.FileNameRoundTrip | src/main.ts:98 | the file name `<timestamp>-<digits>.jpg` parses back into its timestamp and digits |
| Uploads.FileNamesDistinct | src/main.ts:98 | distinct (timestamp, digits) pairs give distinct file names |
| Uploads.HandleUpload | src/main.ts:97-120 | no file gives `{ok:false, error:"no image"}` and no write; a failed resize/write gives `{ok:false, error:"failed to process images"}`; otherwise `{ok:true, relativeUrl}` with the generated name, written under `./storage/resource-images/` |
| Uploads.ServeFile | src/main.ts:127-131 | the served file has type `image/jpg` and its path is `./storage/`, then the directory and "/", then the key taken unchanged |
| Uploads.ServeResourceImage | src/main.ts:134-136 | the images route serves a key from the `resource-images` directory; its properties are stated in `ServeFile`, `UploadThenServe` and `ServedPathsDistinct` |
| Uploads.UploadThenServe | src/main.ts:99-135 | the path an upload writes is the path the serving route opens for the returned `relativeUrl` |
| Uploads.ServedPathsDistinct | src/main.ts:128 | distinct keys are served from distinct paths |
| Uploads.UploadsDoNotCollide | src/main.ts:98-99 | two successful uploads with distinct timestamps or digits return distinct keys and write distinct files |
| Handlers.Respond | src/main.ts:140-146 | the rows are sent iff the query succeeded; a failure sends "Error: " followed by the error |
| Handlers.RespondFirst | src/main.ts:167-174 | on success `rows[0]` (or nothing for no rows) is sent; a failure sends "Error: " followed by the error |
| Handlers.ErrorReplyRoundTrip | src/main.ts:144 | an error reply is text from which the database's error is recovered unchanged |
| Handlers.ResourceImagesRoute | src/main.ts:139-147 | the images route sends the resource's image URLs, or the error text |
| Handlers.ResourceBookingsRoute | src/main.ts:149-163 | the bookings route sends the bookings overlapping the window, or the error text |
| Handlers.ResourceRoute | src/main.ts:165-175 | the resource route sends the first view row of the name (or nothing), or the error text |
| Handlers.ResourcesRoute | src/main.ts:177-186 | the listing route sends the first 100 view rows, or the error text |

## Left out

- Express setup, CORS, routing, `app.listen` and the welcome route: transport plumbing with nothing to state.
- The `express-slow-down` limiter: a library configuration whose delay logic is not part of the source.
- multer multipart parsing and its field-size limits: a foreign library. The model only sees a file as present or absent.
- sharp decoding, resizing to 1024x1024 and JPEG encoding: image numerics in a foreign library, reduced to one success/failure outcome. The model records the path handed to sharp even when it fails, and says nothing about partial files.
- Directory creation, read streams and file writes: file-system I/O. Paths are strings, and a missing file is not modelled.
- The SQLite connection, busy timeout, asynchronous start-up and the prepare/finalize lifecycle of statements: plumbing with no stateable logic.
- `Date.now()`, `Math.random()` and `toFixed`: nondeterminism and floating point. The timestamp is a natural number and the fraction digits are a string parameter. The decimal rendering assumes an integral timestamp below 10^21, where JavaScript prints plain digits.
- SQLite NULLs and type affinity: the raw query-string `from`/`until` are compared as integers, and all columns are non-null. An absent `from` or `until` query parameter (`req.query.from` undefined, src/main.ts:154-155) cannot be represented, because the window bounds are `int` parameters.
- Queries.ResourceBase: SQLite's unspecified row order and `GROUP_CONCAT` order are fixed to table order, as described above. `BaseRowIff`, `BaseRowHasTags`, `GetResourceIsFirstMatch` and `SearchResources` depend on that choice; the other properties of the view do not.
- Lookups.SortByPosition: the sort is stable, while SQLite leaves the order of equal positions open. The stated contract claims only the order by position and the permutation.
- Features the code does not have are not modelled as present: a left join keeping imageless or tagless resources, an owner/creator filter, validation of the booking window, path-traversal rejection, not-found handling, a route for the account bookings, and release of the prepared statements at shutdown.
