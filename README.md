# File service asset lifecycle — a Dafny model

This project models the decision and string logic of the EGF2 file
service. The service creates file records. It resizes uploaded images into
the derivatives their kind asks for. It marks files as no longer standalone
once another entity names them. When a file record is deleted, it deletes
the file's objects from storage. Storage, image processing, the metadata
store and the event transport are external: their results are parameters
of the model.

Modules, one per component:

- `S3Bucket` (s3.js): `GenerateKey` gives the `<year>-<week>/<uuid>` key
  layout, with the clock and the uuid as parameters. `GetDownloadURL`
  strips the query from a signed URL.
- `Derivatives` / `DerivativeProperties` (resize.js, `resizeImage`): the
  resize pass. It skips a file whose specs all have a URL. Otherwise it
  fetches the origin once and runs one derivative job per spec without a
  URL. It writes `{dimensions, resizes}` in a single update only if every
  job and the origin size read succeed.
- `Cascade` / `CascadeProperties` (resize.js, `deleteFiles`): the URLs to
  delete, and how each URL is split into a bucket and a key.
- `References` / `ReferenceProperties` (resize.js, `checkFileReference`):
  with an `edge`, only `edge.dst` is looked up. Otherwise the whole body is
  walked over a tagged JSON value, and every leaf whose type resolves to
  `"file"` gets a `{standalone: false}` update.
- `Dispatch` (resize.js, `listen`): which handler a change event reaches.
- `Api` / `ApiProperties` (api.js): validation of a create-file request,
  the `resizes` list built from the configured kinds, the stored record,
  and the route table.
- `JsStrings`, `JsValues`, `Assets`, `Wrappers`: JavaScript `split`, `join`
  and `startsWith`, JavaScript values and truthiness, the file-record
  fields (a `url` is absent, `null` or a string), and `Option`.

The model keeps these behaviours of the code as written:

- Change events carry the methods `POST`, `PUT` and `DELETE`.
- A failed type lookup is not skipped per field. The lookups are joined by
  `Promise.all`, which has no `catch`, so one rejected lookup cancels every
  `{standalone: false}` update of that event
  (`ReferenceProperties.RejectedLookupMarksNothing`).
- The body walk starts at the entity itself. So the entity's own scalar
  fields (its id, `object_type`, timestamps) are looked up too.
- The bucket of a deleted URL is its third-to-last `/`-segment as it
  stands. The `.s3.amazonaws.com` check compares whole segments, and its
  `replace` result is discarded, so the suffix is never removed
  (`CascadeProperties.CallForShape`).
- A `url` that is absent or `null` throws at `url.split`, so no delete is
  issued for it. An empty-string `url` does not throw: it issues a delete
  with an `undefined` bucket and the empty key.
- `config.kinds[kind]` also finds the properties every object inherits
  (`constructor`, `toString`, …). For such a kind, `forEach` throws before
  the mime type is checked, and the handler passes the error to `next`
  (`ApiProperties.InheritedKindThrows`).
- The skip check tests whether `url` is a key of the spec. The per-spec test
  checks whether `url` is truthy. A spec whose `url` is present but empty
  therefore counts as done for the skip check, but a pass that runs anyway
  derives it again.

## Model

| member | source | states |
|---|---|---|
| `S3Bucket.GenerateKey` | s3.js:15-18 | a key built from a uuid without `/` splits on `/` into exactly two segments, `<year>-<week>` and the uuid |
| `S3Bucket.GetDownloadURL` | s3.js:20-22 | the result has no `?`, is a prefix of the input, and is either the whole input or stops right before its first `?` |
| `S3Bucket.DownloadURLWithoutQuery` | s3.js:20-22 | an input without `?` is returned unchanged |
| `S3Bucket.DownloadURLIdempotent` | s3.js:20-22 | stripping the query twice equals stripping it once |
| `S3Bucket.DownloadURLOfSigned` | s3.js:20-22 | `base?query` yields `base` when `base` has no `?` |
| `Derivatives.DeriveAll` | resize.js:31-59 | when every job succeeds, the derived list has one entry per spec |
| `Derivatives.Derive` | resize.js:32-57 | a spec fails only when it needs a derivative and its job failed; a spec with a truthy `url` passes unchanged; a derived spec keeps its box, has a `url`, and a new `url` has no query |
| `Derivatives.PendingIndices` | resize.js:31-36 | derivative jobs start for exactly the specs whose `url` is falsy, in increasing index order |
| `Derivatives.ResizePass` | resize.js:15-74 | the pass fetches iff some spec lacks a `url` key; when it skips, it starts no job and sends no update; an update is keyed by the file's id and keeps the length of `resizes` |
| `Derivatives.DeriveSpecs` | resize.js:31-59 | the `map` over the specs starts jobs for exactly the pending specs, rejects iff `DeriveAll` fails, and otherwise yields the `DeriveAll` list |
| `Derivatives.ResizeImage` | resize.js:15-74 | the skip check, the `map` over the specs and the all-or-nothing update produce exactly `ResizePass` |
| `ReferenceProperties.NestedLeaves` | resize.js:116-134 | the walk of `{k1: v, k2: {k3: id}}` looks up `v`, then the nested `id` |
| `DerivativeProperties.DeriveAllSucceedsIff` | resize.js:30-59 | `Promise.all` resolves iff every spec needing a derivative got an upload |
| `DerivativeProperties.DeriveAllShape` | resize.js:31-58 | length and order are kept; specs with a URL come back unchanged; every other spec keeps its box and gains the query-stripped signed URL of its own job |
| `DerivativeProperties.EmptyResizesNeverResized` | resize.js:17-19 | an empty `resizes` list is never fetched, resized or updated |
| `DerivativeProperties.PassPersistsIff` | resize.js:30-73 | an update is issued iff work was pending, the fetch succeeded, every pending job succeeded and the size read succeeded |
| `DerivativeProperties.PersistedPassIsComplete` | resize.js:59-71 | a successful pass sends one update keyed by the id, holding the origin size and a complete `resizes` list with the same boxes in the same order; jobs ran for exactly the specs without a URL |
| `DerivativeProperties.RedeliveryAfterSuccessSkips` | resize.js:17-19 | after a successful pass, a redelivered pass over the updated record does nothing, whatever its inputs |
| `Cascade.DeleteTargets` | resize.js:78-82 | the targets are `doc.url` followed by each spec's `url` in order, or `doc.url` alone when there is no `resizes` list |
| `Cascade.CallFor` | resize.js:84-85 | an absent or `null` URL throws at `split` and issues no call |
| `Cascade.CallsFor` | resize.js:83-101 | one URL issues at most one call, so there are never more calls than URLs |
| `Cascade.DeleteFiles` | resize.js:77-102 | the `forEach` issues exactly the calls `CallsFor` gives for the targets, in order, skipping the URLs that throw |
| `CascadeProperties.CallForShape` | resize.js:85-91 | with three or more segments, the bucket is the third-to-last segment as it stands and the key the last two joined by `/`; with fewer, the bucket is `undefined`, the key is the whole URL, and no call is issued exactly when a segment equals `.s3.amazonaws.com` |
| `CascadeProperties.CallsForMembership` | resize.js:83-101 | every call issued comes from one of the URLs, and every URL whose callback issues a call has that call issued |
| `CascadeProperties.CallsForAppend` | resize.js:83-101 | the `forEach` handles URLs in order: appending a URL appends its call, if it issues one |
| `CascadeProperties.CallsCountPresent` | resize.js:83-101 | with parsable URLs, there is one delete per string URL and none per absent or `null` URL |
| `CascadeProperties.CascadeCount` | resize.js:77-102 | deleting a record issues 1 + (number of specs whose `url` is a string) deletes; specs without a `url` or with a `null` one issue none |
| `CascadeProperties.LayoutRecovered` | resize.js:85-91 | `<origin>/<bucket>/<period>/<id>` is deleted from `bucket` under `<period>/<id>` |
| `CascadeProperties.GeneratedKeyRecovered` | resize.js:85-91 | a URL ending in a generated key is deleted under exactly that key |
| `CascadeProperties.SignedUploadRecovered` | resize.js:48 | a derivative uploaded under a generated key, and recorded by its query-stripped signed URL, is deleted from its bucket under that key |
| `CascadeProperties.NullUrlSkipped` | resize.js:83-101 | a `null` URL anywhere in the list issues nothing, and the URLs after it are still handled, in order |
| `CascadeProperties.NullDerivativeSkipped` | resize.js:78-101 | a record whose second derivative has a `null` URL issues the calls of its primary and first derivative alone |
| `CascadeProperties.LayoutPairRecovered` | resize.js:83-91 | two URLs under one bucket and period are deleted in order, each under its own `<period>/<id>` key |
| `CascadeProperties.RecordDeleted` | resize.js:77-102 | a record at `<origin>/<bucket>/<period>/<id1>` with derivatives at `…/<id2>` and at `null` issues exactly the deletes of `<period>/<id1>` and `<period>/<id2>` from `bucket` |
| `CascadeProperties.DeleteScenario` | resize.js:77-102 | a record at `https://store/b/2024-10/k1` with derivatives at `…/k2` and at `null` issues exactly the deletes of `2024-10/k1` and `2024-10/k2` from bucket `b` |
| `References.Leaves` | resize.js:116-133 | the walk yields only values that are not `typeof "object"` |
| `References.LeavesOfItems` | resize.js:117-132 | the leaves of an array's elements, walked by index, are never objects |
| `References.LeavesOfMembers` | resize.js:117-132 | the leaves of an object's properties, walked by key, are never objects |
| `References.ExtractFromObject` | resize.js:116-133 | the recursive walk pushes exactly `Leaves(obj)`, in order; `null` pushes nothing |
| `References.LeafAtAnyDepth` | resize.js:116-134 | a non-object value at any path of the body is looked up |
| `References.LeafHasPath` | resize.js:116-134 | every looked-up value is a non-object value at some path of the body |
| `References.LeavesAreReachable` | resize.js:116-134 | the walk yields a value iff it is not `typeof "object"` and sits at some path of the value walked |
| `References.EdgeDst` | resize.js:110-112 | no contract of its own; `ReferenceProperties.EdgeChecksDstOnly` states what is looked up |
| `References.HasEdge` | resize.js:109 | no contract of its own; the `Candidates` and `EdgeChecksDstOnly` rows state its effect |
| `References.Candidates` | resize.js:109-135 | with a truthy `edge`, only `edge.dst` is looked up; otherwise a value is looked up iff it is a non-object value at some path of the entity |
| `References.FileIds` | resize.js:107-136 | the ids are available iff every lookup resolves, and then they are exactly the candidates whose type is `"file"` |
| `References.ReferenceUpdates` | resize.js:136-142 | every update marks a candidate whose type is `"file"`; a rejected lookup among the candidates means no update at all |
| `References.SettleLookups` | resize.js:136-137 | settling the lookups one by one gives exactly `FileIds`: `None` once one rejects, otherwise the `"file"` ids in order |
| `References.CheckFileReference` | resize.js:106-143 | the walk, the lookups and the `Promise.all` join issue exactly `ReferenceUpdates` |
| `ReferenceProperties.NullPropertySkipped` | resize.js:117-131 | a `null` property adds no lookup, and the properties after it are still walked |
| `ReferenceProperties.EdgeChecksDstOnly` | resize.js:109-114 | with an `edge`, the only possible update marks `edge.dst`, and only when its type is `"file"` |
| `ReferenceProperties.BodyScanMarksExactlyFiles` | resize.js:115-141 | without an `edge`, once every lookup resolves, exactly the leaves of type `"file"` get `{standalone: false}` |
| `ReferenceProperties.RejectedLookupMarksNothing` | resize.js:136-142 | one rejected lookup cancels every update of the call |
| `ReferenceProperties.NoFileNoUpdate` | resize.js:136-141 | an entity that names no file changes no file |
| `ReferenceProperties.NestedFileMarked` | resize.js:115-141 | in `{k1: v, k2: {k3: id}}`, a nested file id is marked and nothing else is |
| `ReferenceProperties.AvatarScenario` | resize.js:115-141 | `{name: "avatar", profile: {picture: "a1"}}` marks only `a1` |
| `Dispatch.RouteEvent` | resize.js:151-163 | resize iff a `PUT` on a file object that is uploaded and has `resizes`; delete iff a `DELETE` on a file object; reference check iff a `POST`/`PUT` on anything else; each route carries the right entity |
| `Dispatch.ObjectType` | resize.js:151 | no contract of its own; `RouteEvent` states that an event with neither `current` nor `previous` goes nowhere |
| `Dispatch.ReadyToResize` | resize.js:155 | no contract of its own; `RouteEvent` states that only an uploaded file with `resizes` is resized |
| `Dispatch.FileCreationIgnored` | resize.js:152-160 | a `POST` on a file object goes nowhere |
| `Dispatch.OtherEventsIgnored` | resize.js:152-163 | any method other than `POST`/`PUT`, except a file `DELETE`, goes nowhere |
| `Dispatch.EdgeEventOnFileChecksReference` | resize.js:161-163 | a non-object `POST`/`PUT` is a reference check even on a file |
| `Api.KindConfigured` | api.js:24-25 | no contract of its own; `ResizesFor` states its effect |
| `Api.KindInherited` | api.js:25-26 | no contract of its own; `ResizesFor` and `InheritedKindThrows` state its effect |
| `Api.ResizesFor` | api.js:23-31 | a configured kind gives one spec without a URL per configured box, in configuration order; a missing or unknown kind gives none; an inherited property name throws, and only it |
| `Api.NewRecord` | api.js:41-51 | the stored `url` is a prefix of the signed URL without its query; the record is a hosted, standalone `"file"` |
| `Api.CreateFile` | api.js:17-66 | the handler throws iff the kind is an inherited property name; a 400 or a throw happens iff no upload URL was requested; a record is stored only after signing; the reply is `Created` iff the record was stored, carrying that record, its id and the signed URL |
| `Api.CreateFileHandler` | api.js:17-66 | the `forEach` push loop, the checks and the reply produce exactly `CreateFile` |
| `ApiProperties.InheritedKindThrows` | api.js:24-27 | a kind that names an inherited property makes the handler throw whatever the mime type: no upload request, no record, the error goes to `next` |
| `ApiProperties.MissingMimeTypeRejected` | api.js:33-35 | unless the kind lookup threw, a missing or empty `mime_type` gets `'mime_type' parameter requered`, with no upload request and no record |
| `ApiProperties.NonImageWithResizesRejected` | api.js:36-38 | a kind with boxes plus a non-`image/` mime type gets a 400, with no upload request and no record |
| `ApiProperties.NoKindAcceptsAnyMimeType` | api.js:23-39 | without a kind the lookup finds, any non-empty mime type is accepted and signed, and nothing will be resized |
| `ApiProperties.StoredRecordFields` | api.js:41-51 | the stored record is a hosted, standalone `"file"` with the request's mime type, title, size and user, the requested boxes without URLs, and the query-stripped upload URL |
| `ApiProperties.RoutesShareHandler` | api.js:83-87 | the route table (`Api.RouteFor`) sends `/v1/new_image` and `/v1/new_file` to the same handler, so `/v1/new_image` accepts a `text/plain` file that has no kind |

## Left out

- The HTTP layer: the restify server, query parsing, the healthcheck, the
  auth handler and `App.listen` (api.js:71-97), plus the wiring in
  index.js. A query parameter given twice arrives as an array; that case is
  not modelled.
- The storage SDK calls `getUploadURL`, `putObject`, `deleteObject` and
  `newS3Bucket` (s3.js:24-79). A signed URL is an opaque string, and each
  storage result is a parameter. Whether a delete call succeeds is not
  modelled; only the calls issued are.
- Image fetching and ImageMagick: the fetch, the crop-resize and the size
  read. Each is a success/failure parameter. The origin size is an opaque
  `Dimensions` value.
- Concurrency. The derivative jobs and the type lookups run one after
  another in the model. `filesIds` is kept in candidate order rather than
  promise-resolution order, so the reference properties speak of which ids
  are marked, not in what order. Races between passes, the `setInterval`
  timer and the event transport are not modelled.
- `checkAndRemoveStandaloneFiles`, the daily sweep (resize.js:174-183). Its
  cutoff uses `Date` arithmetic, and its paging runs inside an external
  searcher and `forEachPage`.
- components.js: config and environment loading, the logger and the
  searcher. Logging is left out everywhere.
- The `getObject` call before each `{standalone: false}` update. The update
  is keyed by the looked-up id; a failing `getObject` is not modelled. A
  synchronous throw from `getObjectType` is not modelled either.
- Reading a record's JSON into `Assets.Asset`. Routing passes the raw
  entity on, while the resize pass and the cascade take the typed record.
  A `url` holding a number, boolean or object is not modelled; like `null`,
  it would throw at `url.split`.
- `edge.dst` when `edge` has no `dst`: the model looks up `null` where the
  code passes `undefined`.
- JavaScript numbers inside entities are modelled as integers. They are
  only passed to the type lookup.
- After a derivative's transform succeeds, `resize.url` is set on the
  in-memory event object before `putObject` runs. If the upload then fails,
  no update is sent and the event object is discarded, so the model does
  not keep that intermediate state.
