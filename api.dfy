/** File creation over HTTP (`Controller.createFileHandler` and the route
    table of `App` in api.js). The handler validates the query, builds the
    requested derivative list from the configured kinds, asks storage for
    a signed upload URL and stores a new file record. Key generation, URL
    signing and the metadata store are external; their results are
    parameters:
    - `key`: what `s3Bucket.generateKey()` returned;
    - `signedUrl`: the signed upload URL, or `None` when signing failed;
    - `createdId`: the id `clientData.createObject` assigned, or `None`
      when it failed. */
module Api {
  import opened Wrappers
  import opened JsStrings
  import opened Assets
  import opened S3Bucket

  /** The query parameters the handler reads, and the session user. */
  datatype Request = Request(
    mimeType: Option<string>,
    title: Option<string>,
    size: Option<string>,
    kind: Option<string>,
    user: string)

  /** The record handed to `createObject`. It has no `upload_url`. */
  datatype FileRecord = FileRecord(
    user: string,
    objectType: string,
    title: Option<string>,
    mimeType: string,
    hosted: bool,
    resizes: seq<DerivativeSpec>,
    url: string,
    size: Option<string>,
    standalone: bool)

  /** What reaches the client: a 400 with its message, the `TypeError`
      the handler's own `try` passes to `next`, the error of a failed
      signing or store call, or the stored record with its id and the
      signed upload URL. */
  datatype Reply =
    | BadRequest(message: string)
    | HandlerThrew
    | UpstreamError
    | Created(id: string, file: FileRecord, uploadUrl: string)

  /** `getUploadURL(fileKey, mimeType)`. */
  datatype UploadRequest = UploadRequest(key: string, contentType: string)

  /** Everything one request does: the signing request it made, the record
      it handed to the store, and its reply. */
  datatype CreateEffects = CreateEffects(
    upload: Option<UploadRequest>,
    record: Option<FileRecord>,
    reply: Reply)

  const MimeTypeRequired := "'mime_type' parameter requered"
  const MimeTypeNotImage := "'mime_type' must be image type"

  /** The properties every plain object inherits from `Object.prototype`.
      `config.kinds[name]` finds them on a kinds object that has no own
      property of that name; each is a function (or, for `__proto__`, the
      prototype object itself), truthy and without a `forEach`. */
  const InheritedNames: set<string> := {
    "constructor", "__proto__", "hasOwnProperty", "isPrototypeOf",
    "propertyIsEnumerable", "toLocaleString", "toString", "valueOf",
    "__defineGetter__", "__defineSetter__", "__lookupGetter__", "__lookupSetter__"}

  /** `if (req.query.kind) { if (config.kinds[req.query.kind]) … }` finds
      an own entry of the kinds configuration. */
  predicate KindConfigured(kind: Option<string>, kinds: map<string, seq<Dimensions>>)
  {
    kind.Some? && kind.value != "" && kind.value in kinds
  }

  /** The lookup finds an inherited property instead: it is truthy, and
      calling `forEach` on it throws a `TypeError`. */
  predicate KindInherited(kind: Option<string>, kinds: map<string, seq<Dimensions>>)
  {
    kind.Some? && kind.value != "" && kind.value !in kinds && kind.value in InheritedNames
  }

  /** The `resizes` list a request asks for: one spec without a URL per
      configured box of its kind, in configuration order; none for a
      missing or unknown kind; `None` when building it throws. */
  function ResizesFor(kind: Option<string>, kinds: map<string, seq<Dimensions>>): (resizes: Option<seq<DerivativeSpec>>)
    ensures resizes.None? <==> KindInherited(kind, kinds)
    ensures KindConfigured(kind, kinds) ==>
      resizes.Some? && |resizes.value| == |kinds[kind.value]| &&
      forall i :: 0 <= i < |resizes.value| ==> resizes.value[i] == DerivativeSpec(kinds[kind.value][i], NoUrl)
    ensures !KindConfigured(kind, kinds) && !KindInherited(kind, kinds) ==> resizes == Some([])
  {
    if KindConfigured(kind, kinds) then
      var boxes := kinds[kind.value];
      Some(seq(|boxes|, i requires 0 <= i < |boxes| => DerivativeSpec(boxes[i], NoUrl)))
    else if KindInherited(kind, kinds) then None
    else Some([])
  }

  /** The record a valid request stores. */
  function NewRecord(req: Request, resizes: seq<DerivativeSpec>, signedUrl: string): (r: FileRecord)
    requires req.mimeType.Some?
    ensures r.url <= signedUrl && '?' !in r.url
    ensures r.objectType == "file" && r.hosted && r.standalone
  {
    FileRecord(
      user := req.user,
      objectType := "file",
      title := req.title,
      mimeType := req.mimeType.value,
      hosted := true,
      resizes := resizes,
      url := GetDownloadURL(signedUrl),
      size := req.size,
      standalone := true)
  }

  /** One call of the handler `createFileHandler()` returns. */
  function CreateFile(
    req: Request, kinds: map<string, seq<Dimensions>>,
    key: string, signedUrl: Option<string>, createdId: Option<string>): (effects: CreateEffects)
    ensures effects.reply.HandlerThrew? <==> KindInherited(req.kind, kinds)
    ensures effects.reply.BadRequest? || effects.reply.HandlerThrew? <==> effects.upload.None?
    ensures effects.record.Some? ==> effects.upload.Some?
    ensures effects.reply.Created? <==> effects.record.Some? && createdId.Some?
    ensures effects.reply.Created? ==>
      effects.reply.file == effects.record.value &&
      Some(effects.reply.id) == createdId && Some(effects.reply.uploadUrl) == signedUrl
  {
    match ResizesFor(req.kind, kinds)
    case None => CreateEffects(None, None, HandlerThrew)
    case Some(resizes) =>
    if req.mimeType.None? || req.mimeType.value == "" then
      CreateEffects(None, None, BadRequest(MimeTypeRequired))
    else if |resizes| > 0 && !StartsWith(req.mimeType.value, "image/") then
      CreateEffects(None, None, BadRequest(MimeTypeNotImage))
    else
      var upload := Some(UploadRequest(key, req.mimeType.value));
      match signedUrl
      case None => CreateEffects(upload, None, UpstreamError)
      case Some(signed) =>
        var record := NewRecord(req, resizes, signed);
        match createdId
        case None => CreateEffects(upload, Some(record), UpstreamError)
        case Some(id) => CreateEffects(upload, Some(record), Created(id, record, signed))
  }

  /** The handler itself: the `forEach` that pushes one spec per configured
      box (or throws on an inherited name), the two checks, and the reply
      with `upload_url` attached to the created record only. */
  method CreateFileHandler(
    req: Request, kinds: map<string, seq<Dimensions>>,
    key: string, signedUrl: Option<string>, createdId: Option<string>)
    returns (effects: CreateEffects)
    ensures effects == CreateFile(req, kinds, key, signedUrl, createdId)
  {
    var resizes: seq<DerivativeSpec> := [];
    if req.kind.Some? && req.kind.value != "" {
      if req.kind.value in kinds {
        var boxes := kinds[req.kind.value];
        var i := 0;
        while i < |boxes|
          invariant 0 <= i <= |boxes|
          invariant |resizes| == i
          invariant forall j :: 0 <= j < i ==> resizes[j] == DerivativeSpec(boxes[j], NoUrl)
        {
          resizes := resizes + [DerivativeSpec(boxes[i], NoUrl)];
          i := i + 1;
        }
        assert resizes == ResizesFor(req.kind, kinds).value;
      } else if req.kind.value in InheritedNames {
        return CreateEffects(None, None, HandlerThrew);
      }
    }
    assert Some(resizes) == ResizesFor(req.kind, kinds);
    if req.mimeType.None? || req.mimeType.value == "" {
      return CreateEffects(None, None, BadRequest(MimeTypeRequired));
    }
    var mimeType := req.mimeType.value;
    if |resizes| > 0 && !StartsWith(mimeType, "image/") {
      return CreateEffects(None, None, BadRequest(MimeTypeNotImage));
    }
    var upload := Some(UploadRequest(key, mimeType));
    if signedUrl.None? {
      return CreateEffects(upload, None, UpstreamError);
    }
    var file := NewRecord(req, resizes, signedUrl.value);
    if createdId.None? {
      return CreateEffects(upload, Some(file), UpstreamError);
    }
    effects := CreateEffects(upload, Some(file), Created(createdId.value, file, signedUrl.value));
  }

  /** The routes `App` registers for file creation. */
  datatype Handler = CreateFileRoute

  function RouteFor(path: string): Option<Handler>
  {
    if path == "/v1/new_image" || path == "/v1/new_file" then Some(CreateFileRoute) else None
  }
}

/** What file creation promises. */
module ApiProperties {
  import opened Wrappers
  import opened JsStrings
  import opened Assets
  import opened S3Bucket
  import opened Api

  /** A missing or empty `mime_type` is a 400, before any key is used or
      record stored, unless the kind lookup has already thrown. */
  lemma MissingMimeTypeRejected(
    req: Request, kinds: map<string, seq<Dimensions>>,
    key: string, signedUrl: Option<string>, createdId: Option<string>)
    requires req.mimeType.None? || req.mimeType == Some("")
    requires !KindInherited(req.kind, kinds)
    ensures CreateFile(req, kinds, key, signedUrl, createdId)
         == CreateEffects(None, None, BadRequest(MimeTypeRequired))
  {
  }

  /** A kind with boxes requires an image mime type; otherwise 400 and no
      record. */
  lemma NonImageWithResizesRejected(
    req: Request, kinds: map<string, seq<Dimensions>>,
    key: string, signedUrl: Option<string>, createdId: Option<string>)
    requires req.mimeType.Some? && req.mimeType.value != ""
    requires KindConfigured(req.kind, kinds) && |kinds[req.kind.value]| > 0
    requires !StartsWith(req.mimeType.value, "image/")
    ensures CreateFile(req, kinds, key, signedUrl, createdId)
         == CreateEffects(None, None, BadRequest(MimeTypeNotImage))
  {
  }

  /** An inherited property name as `kind` (`constructor`, `toString`, …)
      that the configuration does not define makes the handler throw before
      any check: the error goes to `next`, whatever the mime type, and no
      key is signed nor record stored. */
  lemma InheritedKindThrows(
    req: Request, kinds: map<string, seq<Dimensions>>,
    key: string, signedUrl: Option<string>, createdId: Option<string>)
    requires KindInherited(req.kind, kinds)
    ensures CreateFile(req, kinds, key, signedUrl, createdId) == CreateEffects(None, None, HandlerThrew)
  {
  }

  /** Without a configured kind, or with one the lookup does not find at
      all, nothing is resized and any non-empty mime type is accepted: the
      key is signed for it. */
  lemma NoKindAcceptsAnyMimeType(
    req: Request, kinds: map<string, seq<Dimensions>>,
    key: string, signedUrl: Option<string>, createdId: Option<string>)
    requires req.mimeType.Some? && req.mimeType.value != ""
    requires !KindConfigured(req.kind, kinds) && !KindInherited(req.kind, kinds)
    ensures var effects := CreateFile(req, kinds, key, signedUrl, createdId);
      effects.upload == Some(UploadRequest(key, req.mimeType.value)) &&
      !effects.reply.BadRequest? &&
      (effects.record.Some? ==> effects.record.value.resizes == [])
  {
  }

  /** The stored record: always a hosted, standalone `"file"` carrying the
      request's mime type, title and size, the requested boxes, and the
      query-stripped upload URL; none of the boxes has a URL yet. The signed
      URL itself is never stored. */
  lemma StoredRecordFields(
    req: Request, kinds: map<string, seq<Dimensions>>,
    key: string, signedUrl: Option<string>, createdId: Option<string>)
    requires CreateFile(req, kinds, key, signedUrl, createdId).record.Some?
    ensures var f := CreateFile(req, kinds, key, signedUrl, createdId).record.value;
      f.objectType == "file" && f.hosted && f.standalone &&
      req.mimeType == Some(f.mimeType) && f.mimeType != "" &&
      f.title == req.title && f.size == req.size && f.user == req.user &&
      Some(f.resizes) == ResizesFor(req.kind, kinds) &&
      (forall i :: 0 <= i < |f.resizes| ==> f.resizes[i].url.NoUrl?) &&
      signedUrl.Some? && f.url == GetDownloadURL(signedUrl.value) && '?' !in f.url
  {
  }

  /** `/v1/new_image` and `/v1/new_file` share one handler, so a non-image
      file without a kind is accepted through `/v1/new_image` as well. */
  lemma RoutesShareHandler(
    req: Request, kinds: map<string, seq<Dimensions>>,
    key: string, signedUrl: Option<string>, createdId: Option<string>)
    requires req.mimeType == Some("text/plain") && req.kind.None?
    ensures RouteFor("/v1/new_image") == RouteFor("/v1/new_file") == Some(CreateFileRoute)
    ensures !CreateFile(req, kinds, key, signedUrl, createdId).reply.BadRequest?
  {
  }
}
