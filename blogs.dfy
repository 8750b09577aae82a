/** The five blog request handlers. Each handler is specified by a function
    from the collection and the request to the response and the collection
    afterwards; the handler itself is a method over the store that works
    step by step as the controller does and is proved to agree with it.
    The collaborators the controller imports (`validateBlog`, `getBaseUrl`,
    `mongoose.Types.ObjectId.isValid`) are fields of `Env`; whether a store
    call throws is an input. */
module Blogs {
  import opened Wrappers
  import opened BlogModel
  import Upload

  const BlogImageKey: string := "blogImage"
  const BlogImageUrlKey: string := "blogImageUrl"
  const HttpPrefix: string := "http"

  /** The file the upload middleware stored: `req.file.filename`. */
  datatype UploadedFile = UploadedFile(filename: string)

  /** The controller's collaborators. */
  datatype Env = Env(baseUrl: string, validateBlog: Fields -> bool, isValidId: string -> bool)

  /** A document as the list and get handlers send it: `toObject()` without `__v`. */
  datatype BlogData = BlogData(id: string, fields: Fields)

  /** The `data` of a response body. */
  datatype Payload = Document(blog: Blog) | Shaped(item: BlogData) | ShapedList(items: seq<BlogData>)

  /** A response: the HTTP status and the JSON body's `message`, `data` and `error`. */
  datatype Response = Response(status: int, message: string, data: Option<Payload>, error: Option<string>)

  /** What `createBlog(body)` does: persists the body, resolves to nothing, or throws. */
  datatype CreateOutcome = Persists | ReturnsNull | Throws(message: string)

  /** What any other store call does: completes, or throws with a message. */
  datatype StoreCall = Completes | Fails(message: string)

  function Reply(status: int, message: string): Response
  {
    Response(status, message, None, None)
  }

  function ReplyWith(status: int, message: string, data: Payload): Response
  {
    Response(status, message, Some(data), None)
  }

  function ServerError(message: string): Response
  {
    Response(500, "Server error", None, Some(message))
  }

  predicate StartsWith(s: string, prefix: string)
  {
    |prefix| <= |s| && s[..|prefix|] == prefix
  }

  predicate EndsWith(s: string, suffix: string)
  {
    |suffix| <= |s| && s[|s| - |suffix|..] == suffix
  }

  /** JavaScript truthiness of a string field: present and non-empty. */
  predicate Truthy(body: Fields, key: string)
  {
    key in body && body[key] != ""
  }

  // ---------------------------------------------------------------------
  // Image resolution (create and update)
  // ---------------------------------------------------------------------

  /** Where an uploaded file is served from: `${baseUrl}/uploads/${filename}`. */
  function UploadPath(baseUrl: string, filename: string): string
  {
    baseUrl + "/uploads/" + filename
  }

  /** The image reference a request supplies: an uploaded file takes precedence
      over `blogImageUrl`; a URL is taken verbatim; with neither (or an empty
      URL) there is none. */
  function ResolveImage(file: Option<UploadedFile>, body: Fields, baseUrl: string): (r: Option<string>)
    ensures file.Some? ==> r == Some(UploadPath(baseUrl, file.value.filename))
    ensures file.None? ==> (r.Some? <==> Truthy(body, BlogImageUrlKey))
    ensures file.None? && r.Some? ==> r.value == body[BlogImageUrlKey]
    ensures r.Some? ==> r.value != ""
  {
    match file
    case Some(f) => Some(UploadPath(baseUrl, f.filename))
    case None => if Truthy(body, BlogImageUrlKey) then Some(body[BlogImageUrlKey]) else None
  }

  /** The body with `blogImage` set to the resolved reference, if any. */
  function WithImage(body: Fields, image: Option<string>): Fields
  {
    if image.Some? then body[BlogImageKey := image.value] else body
  }

  // ---------------------------------------------------------------------
  // Response shaping (list and get)
  // ---------------------------------------------------------------------

  /** A stored reference as served: prefixed with `${baseUrl}/` when it is
      non-empty and does not start with the letters "http". */
  function PublicImage(image: string, baseUrl: string): (r: string)
    ensures image == "" || StartsWith(image, HttpPrefix) ==> r == image
    ensures image != "" && !StartsWith(image, HttpPrefix) ==>
              StartsWith(r, baseUrl + "/") && r[|baseUrl| + 1..] == image
  {
    if image != "" && !StartsWith(image, HttpPrefix) then baseUrl + "/" + image else image
  }

  /** A document as served: the id and all fields kept, `__v` dropped, and
      `blogImage` (when present) rewritten by `PublicImage`. */
  function Shape(b: Blog, baseUrl: string): (d: BlogData)
    ensures d.id == b.id
    ensures d.fields.Keys == b.fields.Keys
    ensures forall k :: k in b.fields && k != BlogImageKey ==> d.fields[k] == b.fields[k]
    ensures BlogImageKey in b.fields ==> d.fields[BlogImageKey] == PublicImage(b.fields[BlogImageKey], baseUrl)
  {
    if BlogImageKey in b.fields
    then BlogData(b.id, b.fields[BlogImageKey := PublicImage(b.fields[BlogImageKey], baseUrl)])
    else BlogData(b.id, b.fields)
  }

  /** `blogs.map(...)`: every document shaped, same number, same order. */
  function ShapeAll(blogs: seq<Blog>, baseUrl: string): (r: seq<BlogData>)
    ensures |r| == |blogs|
    ensures forall i :: 0 <= i < |blogs| ==> r[i] == Shape(blogs[i], baseUrl)
  {
    if blogs == [] then [] else [Shape(blogs[0], baseUrl)] + ShapeAll(blogs[1..], baseUrl)
  }

  /** With an absolute base URL, a served reference is empty or absolute. */
  lemma PublicImageIsAbsolute(image: string, baseUrl: string)
    requires StartsWith(baseUrl, HttpPrefix)
    ensures var r := PublicImage(image, baseUrl); r == "" || StartsWith(r, HttpPrefix)
  {
    var r := PublicImage(image, baseUrl);
    if image != "" && !StartsWith(image, HttpPrefix) {
      assert r[..|HttpPrefix|] == baseUrl[..|HttpPrefix|];
    }
  }

  /** With an absolute base URL, serving a served reference again changes nothing. */
  lemma PublicImageIdempotent(image: string, baseUrl: string)
    requires StartsWith(baseUrl, HttpPrefix)
    ensures PublicImage(PublicImage(image, baseUrl), baseUrl) == PublicImage(image, baseUrl)
  {
    PublicImageIsAbsolute(image, baseUrl);
  }

  // ---------------------------------------------------------------------
  // The handlers, as functions of the collection
  // ---------------------------------------------------------------------

  /** handleCreateBlog: validate the body, resolve the image, persist. */
  function CreateBlog(db: Db, body: Fields, file: Option<UploadedFile>, env: Env,
                      outcome: CreateOutcome, newId: string): (r: (Response, Db))
    ensures r.0.status in {201, 400, 500}
    ensures r.0.status == 201 <==>
              env.validateBlog(body) && ResolveImage(file, body, env.baseUrl).Some? && outcome.Persists?
    ensures r.0.status != 201 ==> r.1 == db
  {
    if !env.validateBlog(body) then (Reply(400, "Fill required fields"), db)
    else
      var image := ResolveImage(file, body, env.baseUrl);
      if image.None? then (Reply(400, "Blog image is required"), db)
      else
        match outcome
        case Throws(m) => (ServerError(m), db)
        case ReturnsNull => (Reply(400, "Error creating blog"), db)
        case Persists =>
          var created := Blog(newId, WithImage(body, image), 0);
          (ReplyWith(201, "Blog created", Document(created)), WithBlog(db, created))
  }

  /** handleGetAllBlogs: list everything, 404 when there is nothing. */
  function GetAllBlogs(db: Db, env: Env, call: StoreCall): (r: Response)
    ensures r.status in {200, 404, 500}
    ensures r.status == 200 <==> call.Completes? && Listing(db) != []
    ensures r.status == 200 ==> r.data == Some(ShapedList(ShapeAll(Listing(db), env.baseUrl)))
    ensures call.Fails? ==> r == ServerError(call.message)
  {
    match call
    case Fails(m) => ServerError(m)
    case Completes =>
      var blogs := Listing(db);
      if |blogs| == 0 then Reply(404, "No blogs found")
      else ReplyWith(200, "Blogs retrieved", ShapedList(ShapeAll(blogs, env.baseUrl)))
  }

  /** handleGetBlogById. */
  function GetBlogById(db: Db, id: string, env: Env, call: StoreCall): (r: Response)
    ensures r.status in {200, 400, 404, 500}
    ensures r.status == 400 <==> !env.isValidId(id)
    ensures r.status == 200 <==> env.isValidId(id) && call.Completes? && id in db.records
    ensures r.status == 200 ==> r.data == Some(Shaped(Shape(db.records[id], env.baseUrl)))
    ensures env.isValidId(id) && call.Fails? ==> r == ServerError(call.message)
  {
    if !env.isValidId(id) then Reply(400, "Invalid blog ID")
    else
      match call
      case Fails(m) => ServerError(m)
      case Completes =>
        if id !in db.records then Reply(404, "Blog not found")
        else ReplyWith(200, "Blog retrieved", Shaped(Shape(db.records[id], env.baseUrl)))
  }

  /** handleUpdateBlog: resolve the image if one was supplied, then merge. */
  function UpdateBlog(db: Db, id: string, body: Fields, file: Option<UploadedFile>, env: Env,
                      call: StoreCall): (r: (Response, Db))
    ensures r.0.status in {200, 400, 404, 500}
    ensures r.0.status == 400 <==> !env.isValidId(id)
    ensures r.0.status == 200 <==> env.isValidId(id) && call.Completes? && id in db.records
    ensures r.0.status != 200 ==> r.1 == db
    ensures r.0.status == 200 ==> r.1.records.Keys == db.records.Keys && r.1.order == db.order
    ensures r.0.status == 200 ==>
              && r.1 == Patched(db, id, WithImage(body, ResolveImage(file, body, env.baseUrl)))
              && r.0.data == Some(Document(r.1.records[id]))
    ensures env.isValidId(id) && call.Fails? ==> r == (ServerError(call.message), db)
  {
    if !env.isValidId(id) then (Reply(400, "Invalid blog ID"), db)
    else
      var patch := WithImage(body, ResolveImage(file, body, env.baseUrl));
      match call
      case Fails(m) => (ServerError(m), db)
      case Completes =>
        if id !in db.records then (Reply(404, "Blog not found"), db)
        else
          var db' := Patched(db, id, patch);
          (ReplyWith(200, "Blog updated", Document(db'.records[id])), db')
  }

  /** handleDeleteBlog. */
  function DeleteBlog(db: Db, id: string, env: Env, call: StoreCall): (r: (Response, Db))
    ensures r.0.status in {200, 400, 404, 500}
    ensures r.0.status == 400 <==> !env.isValidId(id)
    ensures r.0.status == 200 <==> env.isValidId(id) && call.Completes? && id in db.records
    ensures r.0.status != 200 ==> r.1 == db
    ensures r.0.status == 200 ==> r.0.data == Some(Document(db.records[id])) && id !in r.1.records
    ensures r.0.status == 200 ==> r.1 == Removed(db, id) && r.1.records == db.records - {id}
    ensures env.isValidId(id) && call.Fails? ==> r == (ServerError(call.message), db)
  {
    if !env.isValidId(id) then (Reply(400, "Invalid blog ID"), db)
    else
      match call
      case Fails(m) => (ServerError(m), db)
      case Completes =>
        if id !in db.records then (Reply(404, "Blog not found"), db)
        else (ReplyWith(200, "Blog deleted", Document(db.records[id])), Removed(db, id))
  }

  // ---------------------------------------------------------------------
  // The handlers, over the store
  // ---------------------------------------------------------------------

  method HandleCreateBlog(store: BlogStore, body: Fields, file: Option<UploadedFile>, env: Env,
                          outcome: CreateOutcome, newId: string) returns (res: Response)
    requires store.Valid() && newId !in store.records
    modifies store
    ensures store.Valid()
    ensures (res, store.State()) == CreateBlog(old(store.State()), body, file, env, outcome, newId)
  {
    var doc := body;
    if !env.validateBlog(doc) {
      return Reply(400, "Fill required fields");
    }
    if file.Some? {
      doc := doc[BlogImageKey := UploadPath(env.baseUrl, file.value.filename)];
    } else if BlogImageUrlKey in doc && doc[BlogImageUrlKey] != "" {
      doc := doc[BlogImageKey := doc[BlogImageUrlKey]];
    } else {
      return Reply(400, "Blog image is required");
    }
    match outcome
    case Throws(m) =>
      return ServerError(m);
    case ReturnsNull =>
      return Reply(400, "Error creating blog");
    case Persists =>
      var created := store.Create(doc, newId);
      return ReplyWith(201, "Blog created", Document(created));
  }

  method HandleGetAllBlogs(store: BlogStore, env: Env, call: StoreCall) returns (res: Response)
    requires store.Valid()
    ensures res == GetAllBlogs(store.State(), env, call)
  {
    if call.Fails? {
      return ServerError(call.message);
    }
    var blogs := store.Find();
    if |blogs| == 0 {
      return Reply(404, "No blogs found");
    }
    var shaped := ShapeAll(blogs, env.baseUrl);
    return ReplyWith(200, "Blogs retrieved", ShapedList(shaped));
  }

  method HandleGetBlogById(store: BlogStore, id: string, env: Env, call: StoreCall) returns (res: Response)
    requires store.Valid()
    ensures res == GetBlogById(store.State(), id, env, call)
  {
    if !env.isValidId(id) {
      return Reply(400, "Invalid blog ID");
    }
    if call.Fails? {
      return ServerError(call.message);
    }
    var found := store.FindById(id);
    if found.None? {
      return Reply(404, "Blog not found");
    }
    var blog := found.value;
    var data := BlogData(blog.id, blog.fields);
    if BlogImageKey in data.fields {
      var image := data.fields[BlogImageKey];
      if image != "" && !StartsWith(image, HttpPrefix) {
        data := data.(fields := data.fields[BlogImageKey := env.baseUrl + "/" + image]);
      }
    }
    assert data == Shape(blog, env.baseUrl);
    return ReplyWith(200, "Blog retrieved", Shaped(data));
  }

  method HandleUpdateBlog(store: BlogStore, id: string, body: Fields, file: Option<UploadedFile>,
                          env: Env, call: StoreCall) returns (res: Response)
    requires store.Valid()
    modifies store
    ensures store.Valid()
    ensures (res, store.State()) == UpdateBlog(old(store.State()), id, body, file, env, call)
  {
    if !env.isValidId(id) {
      return Reply(400, "Invalid blog ID");
    }
    var doc := body;
    if file.Some? {
      doc := doc[BlogImageKey := UploadPath(env.baseUrl, file.value.filename)];
    } else if BlogImageUrlKey in doc && doc[BlogImageUrlKey] != "" {
      doc := doc[BlogImageKey := doc[BlogImageUrlKey]];
    }
    if call.Fails? {
      return ServerError(call.message);
    }
    var updated := store.FindByIdAndUpdate(id, doc);
    if updated.None? {
      return Reply(404, "Blog not found");
    }
    return ReplyWith(200, "Blog updated", Document(updated.value));
  }

  method HandleDeleteBlog(store: BlogStore, id: string, env: Env, call: StoreCall) returns (res: Response)
    requires store.Valid()
    modifies store
    ensures store.Valid()
    ensures (res, store.State()) == DeleteBlog(old(store.State()), id, env, call)
  {
    if !env.isValidId(id) {
      return Reply(400, "Invalid blog ID");
    }
    if call.Fails? {
      return ServerError(call.message);
    }
    var deleted := store.FindByIdAndDelete(id);
    if deleted.None? {
      return Reply(404, "Blog not found");
    }
    return ReplyWith(200, "Blog deleted", Document(deleted.value));
  }

  // ---------------------------------------------------------------------
  // Properties of the handlers
  // ---------------------------------------------------------------------

  /** A body that fails validation is refused before anything else. */
  lemma CreateRejectsInvalidBody(db: Db, body: Fields, file: Option<UploadedFile>, env: Env,
                                 outcome: CreateOutcome, newId: string)
    requires !env.validateBlog(body)
    ensures CreateBlog(db, body, file, env, outcome, newId) == (Reply(400, "Fill required fields"), db)
  {
  }

  /** Neither a file nor a URL: refused, nothing stored. */
  lemma CreateRequiresImage(db: Db, body: Fields, env: Env, outcome: CreateOutcome, newId: string)
    requires env.validateBlog(body) && !Truthy(body, BlogImageUrlKey)
    ensures CreateBlog(db, body, None, env, outcome, newId) == (Reply(400, "Blog image is required"), db)
  {
  }

  /** A successful create answers 201 with the stored document: the body with
      its resolved image, under the new id, at revision 0. It adds exactly
      that one document, at the end of the listing, and touches no other. */
  lemma {:induction false} CreateAddsOneBlog(db: Db, body: Fields, file: Option<UploadedFile>, env: Env,
                                             newId: string)
    requires WellFormed(db) && newId !in db.records
    requires env.validateBlog(body) && ResolveImage(file, body, env.baseUrl).Some?
    ensures var b := Blog(newId, WithImage(body, ResolveImage(file, body, env.baseUrl)), 0);
      CreateBlog(db, body, file, env, Persists, newId) == (ReplyWith(201, "Blog created", Document(b)), WithBlog(db, b))
    ensures var b := Blog(newId, WithImage(body, ResolveImage(file, body, env.baseUrl)), 0);
      && WellFormed(WithBlog(db, b))
      && WithBlog(db, b).records.Keys == db.records.Keys + {newId}
      && |WithBlog(db, b).records| == |db.records| + 1
      && (forall id :: id in db.records ==> WithBlog(db, b).records[id] == db.records[id])
      && Listing(WithBlog(db, b)) == Listing(db) + [b]
  {
    var b := Blog(newId, WithImage(body, ResolveImage(file, body, env.baseUrl)), 0);
    InsertKeepsWellFormed(db, b);
    InsertAddsOne(db, b);
    InsertAppendsToListing(db, b);
  }

  /** The store's failures: a null result is a 400, a thrown error a 500
      carrying the error's message; neither stores anything. */
  lemma CreateStoreFailures(db: Db, body: Fields, file: Option<UploadedFile>, env: Env,
                            newId: string, message: string)
    requires env.validateBlog(body) && ResolveImage(file, body, env.baseUrl).Some?
    ensures CreateBlog(db, body, file, env, ReturnsNull, newId) == (Reply(400, "Error creating blog"), db)
    ensures CreateBlog(db, body, file, env, Throws(message), newId)
              == (Response(500, "Server error", None, Some(message)), db)
  {
  }

  /** An uploaded file wins even when `blogImageUrl` is also given. */
  lemma CreateUploadWins(db: Db, body: Fields, f: UploadedFile, env: Env, newId: string)
    requires env.validateBlog(body)
    ensures var (res, db') := CreateBlog(db, body, Some(f), env, Persists, newId);
      && res.status == 201
      && db'.records[newId].fields[BlogImageKey] == env.baseUrl + "/uploads/" + f.filename
  {
  }

  /** Without a file, a non-empty `blogImageUrl` is stored verbatim. */
  lemma CreateUrlVerbatim(db: Db, body: Fields, env: Env, newId: string)
    requires env.validateBlog(body) && Truthy(body, BlogImageUrlKey)
    ensures var (res, db') := CreateBlog(db, body, None, env, Persists, newId);
      && res.status == 201
      && db'.records[newId].fields[BlogImageKey] == body[BlogImageUrlKey]
  {
  }

  /** A file stored by the upload middleware is served from under the same
      `uploads` folder it was written to, and keeps its original extension. */
  lemma UploadedImageKeepsExtension(db: Db, body: Fields, info: Upload.FileInfo, timestamp: nat,
                                    env: Env, newId: string)
    requires env.validateBlog(body)
    ensures var name := Upload.StoredFilename(info, timestamp);
      var (res, db') := CreateBlog(db, body, Some(UploadedFile(name)), env, Persists, newId);
      var image := db'.records[newId].fields[BlogImageKey];
      && res.status == 201
      && StartsWith(image, env.baseUrl + "/" + Upload.UploadsFolder + "/")
      && EndsWith(image, info.extension)
  {
    var name := Upload.StoredFilename(info, timestamp);
    var image := UploadPath(env.baseUrl, name);
    assert image == (env.baseUrl + "/" + Upload.UploadsFolder + "/") + name;
    assert image[|image| - |info.extension|..] == name[|name| - |info.extension|..];
  }

  /** Listing an empty collection is a 404, however often it is asked. */
  lemma ListingEmptyIsNotFound(db: Db, env: Env)
    requires WellFormed(db) && db.records == map[]
    ensures GetAllBlogs(db, env, Completes) == Reply(404, "No blogs found")
  {
    ListingOfWellFormed(db);
  }

  /** A non-empty listing has one served document per stored document, in
      natural order; each keeps its id and fields, loses `__v`, and has its
      image prefixed with the base URL exactly when it is relative. */
  lemma ListingServesEveryBlog(db: Db, env: Env)
    requires WellFormed(db) && db.records != map[]
    ensures var res := GetAllBlogs(db, env, Completes);
      && res.status == 200
      && res.data.Some? && res.data.value.ShapedList?
      && |res.data.value.items| == |db.order|
      && forall i :: 0 <= i < |db.order| ==>
           var b := db.records[db.order[i]];
           var d := res.data.value.items[i];
           && d.id == b.id
           && d.fields.Keys == b.fields.Keys
           && (forall k :: k in b.fields && k != BlogImageKey ==> d.fields[k] == b.fields[k])
           && (BlogImageKey in b.fields ==>
                 var image := b.fields[BlogImageKey];
                 d.fields[BlogImageKey] ==
                   if image != "" && !StartsWith(image, HttpPrefix) then env.baseUrl + "/" + image else image)
  {
    ListingOfWellFormed(db);
  }

  /** A malformed id is refused with 400 by get, update and delete, before
      the store is consulted: the outcome of the store call plays no part. */
  lemma MalformedIdRejected(db: Db, id: string, body: Fields, file: Option<UploadedFile>, env: Env,
                            call: StoreCall)
    requires !env.isValidId(id)
    ensures GetBlogById(db, id, env, call) == Reply(400, "Invalid blog ID")
    ensures UpdateBlog(db, id, body, file, env, call) == (Reply(400, "Invalid blog ID"), db)
    ensures DeleteBlog(db, id, env, call) == (Reply(400, "Invalid blog ID"), db)
  {
  }

  /** A well-formed id that names no document is a 404 for get, update and
      delete, and changes nothing. */
  lemma AbsentIdNotFound(db: Db, id: string, body: Fields, file: Option<UploadedFile>, env: Env)
    requires env.isValidId(id) && id !in db.records
    ensures GetBlogById(db, id, env, Completes) == Reply(404, "Blog not found")
    ensures UpdateBlog(db, id, body, file, env, Completes) == (Reply(404, "Blog not found"), db)
    ensures DeleteBlog(db, id, env, Completes) == (Reply(404, "Blog not found"), db)
  {
  }

  /** An update with neither a file nor a URL (nor a `blogImage` field of its
      own) leaves the stored image, the id, the revision and every other
      document as they were, and merges the rest of the body. */
  lemma UpdateWithoutImageKeepsImage(db: Db, id: string, body: Fields, env: Env)
    requires WellFormed(db) && env.isValidId(id) && id in db.records
    requires !Truthy(body, BlogImageUrlKey) && BlogImageKey !in body
    ensures var (res, db') := UpdateBlog(db, id, body, None, env, Completes);
      var before := db.records[id];
      var after := db'.records[id];
      && res == ReplyWith(200, "Blog updated", Document(after))
      && WellFormed(db')
      && after.id == id && after.version == before.version
      && (BlogImageKey in before.fields ==> after.fields[BlogImageKey] == before.fields[BlogImageKey])
      && (BlogImageKey in after.fields <==> BlogImageKey in before.fields)
      && (forall k :: k in body ==> after.fields[k] == body[k])
      && (forall other :: other in db.records && other != id ==> db'.records[other] == db.records[other])
  {
    PatchKeepsWellFormed(db, id, body);
  }

  /** An update that supplies an image (a file, else a non-empty URL) stores
      exactly the reference `ResolveImage` gives, whatever the body's own
      `blogImage` field said. */
  lemma UpdateWithImageReplacesImage(db: Db, id: string, body: Fields, file: Option<UploadedFile>, env: Env)
    requires WellFormed(db) && env.isValidId(id) && id in db.records
    requires ResolveImage(file, body, env.baseUrl).Some?
    ensures var (res, db') := UpdateBlog(db, id, body, file, env, Completes);
      && res.status == 200
      && db'.records[id].fields[BlogImageKey] == ResolveImage(file, body, env.baseUrl).value
  {
  }

  /** A store call that throws gives 500 "Server error" with the error's
      message, for list, and for get, update and delete once the id is well
      formed; nothing changes. */
  lemma StoreFailuresAreServerErrors(db: Db, id: string, body: Fields, file: Option<UploadedFile>,
                                     env: Env, message: string)
    requires env.isValidId(id)
    ensures GetAllBlogs(db, env, Fails(message)) == Response(500, "Server error", None, Some(message))
    ensures GetBlogById(db, id, env, Fails(message)) == Response(500, "Server error", None, Some(message))
    ensures UpdateBlog(db, id, body, file, env, Fails(message))
              == (Response(500, "Server error", None, Some(message)), db)
    ensures DeleteBlog(db, id, env, Fails(message))
              == (Response(500, "Server error", None, Some(message)), db)
  {
  }

  /** A successful update merges the body, with its resolved image, into the
      one document: every field the body names takes the body's value, every
      other field keeps its value, the id and revision stay, the answer
      carries the merged document, and no other document changes. */
  lemma UpdateMergesIntoOneBlog(db: Db, id: string, body: Fields, file: Option<UploadedFile>, env: Env)
    requires WellFormed(db) && env.isValidId(id) && id in db.records
    ensures var patch := WithImage(body, ResolveImage(file, body, env.baseUrl));
      var (res, db') := UpdateBlog(db, id, body, file, env, Completes);
      var before := db.records[id];
      var after := db'.records[id];
      && res == ReplyWith(200, "Blog updated", Document(after))
      && WellFormed(db')
      && db'.order == db.order
      && after.id == id && after.version == before.version
      && after.fields.Keys == before.fields.Keys + patch.Keys
      && (forall k :: k in patch ==> after.fields[k] == patch[k])
      && (forall k :: k in before.fields && k !in patch ==> after.fields[k] == before.fields[k])
      && (forall other :: other in db.records && other != id ==> db'.records[other] == db.records[other])
  {
    PatchKeepsWellFormed(db, id, WithImage(body, ResolveImage(file, body, env.baseUrl)));
  }

  /** A successful delete removes that one document and keeps every other
      document, and the order of the rest, as it was. */
  lemma DeleteRemovesOnlyThatBlog(db: Db, id: string, env: Env)
    requires WellFormed(db) && env.isValidId(id) && id in db.records
    ensures var (res, db') := DeleteBlog(db, id, env, Completes);
      && res == ReplyWith(200, "Blog deleted", Document(db.records[id]))
      && WellFormed(db')
      && db'.records.Keys == db.records.Keys - {id}
      && (forall other :: other in db.records && other != id ==> db'.records[other] == db.records[other])
      && db'.order == Without(db.order, id)
  {
    RemoveKeepsWellFormed(db, id);
  }

  /** Deleting twice: the first answers 200 with the document as it was, the
      second 404, and the second changes nothing. */
  lemma DeleteTwice(db: Db, id: string, env: Env)
    requires WellFormed(db) && env.isValidId(id) && id in db.records
    ensures var (first, db1) := DeleteBlog(db, id, env, Completes);
      var (second, db2) := DeleteBlog(db1, id, env, Completes);
      && first == ReplyWith(200, "Blog deleted", Document(db.records[id]))
      && WellFormed(db1)
      && |db1.records| == |db.records| - 1
      && second == Reply(404, "Blog not found")
      && db2 == db1
  {
    RemoveKeepsWellFormed(db, id);
  }

  /** Create, then get: the served document carries the created id and every
      created field unchanged, an absolute image URL included. */
  lemma CreateThenGet(db: Db, body: Fields, env: Env, newId: string)
    requires WellFormed(db) && newId !in db.records && env.isValidId(newId)
    requires env.validateBlog(body) && Truthy(body, BlogImageUrlKey)
    requires StartsWith(body[BlogImageUrlKey], HttpPrefix)
    ensures var (created, db') := CreateBlog(db, body, None, env, Persists, newId);
      var fetched := GetBlogById(db', newId, env, Completes);
      && created.status == 201
      && fetched.status == 200
      && fetched.data == Some(Shaped(BlogData(newId, created.data.value.blog.fields)))
      && created.data.value.blog.fields[BlogImageKey] == body[BlogImageUrlKey]
      && (forall k :: k in body && k != BlogImageKey ==> created.data.value.blog.fields[k] == body[k])
  {
    var (created, db') := CreateBlog(db, body, None, env, Persists, newId);
    var b := db'.records[newId];
    assert Shape(b, env.baseUrl) == BlogData(newId, b.fields) by {
      assert b.fields[BlogImageKey := b.fields[BlogImageKey]] == b.fields;
    }
  }
}
