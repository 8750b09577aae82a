# Blog backend: request handlers and upload rule

This project models the core of a small Express/Mongoose blog backend in Dafny:

- the five blog request handlers in `controllers/blogs.js`: create, list, get by id, update and delete;
- the upload middleware's configuration in `utilis/fileUploader.js`.

For the handlers, the model covers how an image reference is resolved and which status code each outcome gets. It also covers how stored documents are shaped for the caller and what each handler does to the collection.

Files:

- `wrappers.dfy`: module `Wrappers`, the `Option` type.
- `upload.dfy`: module `Upload`. It holds the `fileFilter` acceptance rule, the generated file name (`Date.now() + path.extname(originalname)`), the destination folder and the size limit. These are pure functions, with lemmas about them: the filter's exact accept set, and a round trip from a stored name back to the clock reading and extension.
- `blog_model.dfy`: module `BlogModel`, the blog collection.
  - `Db` is the collection as a value: documents by id, plus the ids in natural (insertion) order.
  - `Listing`, `WithBlog`, `Patched` and `Removed` give what find-all, create, `findByIdAndUpdate` and `findByIdAndDelete` do to that value. `createBlog` and `getBlogs` live in `models/BlogModel`, which is not part of this model; they are taken to insert the body as given and to list every document in insertion order (see "Left out").
  - `BlogStore` is the Mongoose model as a class. Its `records` map and `order` sequence are fields that its methods update in place. Each method is proved to move the store's `State()` exactly as the matching function says, while keeping `WellFormed`.
- `blogs.dfy`: module `Blogs`, the controller.
  - Each handler has a specification function from the collection and the request to the response and the new collection (`CreateBlog`, `GetAllBlogs`, `GetBlogById`, `UpdateBlog`, `DeleteBlog`).
  - It also has a method over the store that works step by step as the controller does (`HandleCreateBlog`, ...). The method copies the body, sets `blogImage` on the copy, and calls the store. It is proved to produce exactly what the specification function gives.
  - The lemmas state the promised behaviour. An uploaded file takes precedence over `blogImageUrl`. The status code for every outcome, and what is stored or left unchanged. An empty listing is a 404. Shaping drops `__v` and prefixes relative images with the base URL. Deleting twice gives 200, then 404. A create followed by a get returns the same fields.

The controller's unseen collaborators are fields of `Env`:

- `validateBlog` is an arbitrary predicate on the body;
- `getBaseUrl()` is a string;
- `mongoose.Types.ObjectId.isValid` is an arbitrary predicate on ids.

Whether a store call throws is an input: `StoreCall`, or `CreateOutcome` for create, which can also resolve to nothing. The id the database mints for a new document is an input `newId` that is not yet in use.

Notes on the code:

- `handleDeleteBlog` checks the id format (`controllers/blogs.js:61`), like get and update.
- A successful create answers 201.
- The "absolute URL" test is `startsWith("http")` on the raw string, not a scheme parse.
- The file filter accepts only `.glb`/`.usdz` models, not images.
- The size limit is 100 MiB, although its comment says 30 MB.
- On update, a body that carries its own `blogImage` text field, with no file and no `blogImageUrl`, overwrites the stored image (`controllers/blogs.js:93`). `Blogs.UpdateWithoutImageKeepsImage` therefore applies only to bodies without such a field.

## Model

| member | source | states |
|---|---|---|
| Upload.MaxFileSize | utilis/fileUploader.js:19 | the upload size limit is 100*1024*1024 = 104857600 bytes, more than the 30 MB the comment claims |
| Upload.ToLower | utilis/fileUploader.js:26-27 | lower-casing keeps the length and lower-cases each character in place |
| Upload.ToLowerEqualsIff | utilis/fileUploader.js:26-27 | `ext.toLowerCase() === w` holds exactly when `ext` spells `w` with case ignored |
| Upload.FileFilter | utilis/fileUploader.js:20-33 | a file is accepted iff its MIME type is `model/gltf-binary` or `model/vnd.usdz+zip`, or its extension is `.glb` or `.usdz` with case ignored; every rejection carries "Invalid file type, only .glb and .usdz files are allowed!" |
| Upload.UpperCaseGlbAccepted | utilis/fileUploader.js:26 | a `.GLB` extension is accepted whatever the MIME type |
| Upload.PngImageRejected | utilis/fileUploader.js:23-31 | an `image/png` file named `.png` is rejected with the fixed message: images are not admitted |
| Upload.DecimalString | utilis/fileUploader.js:12 | the clock reading is rendered as one or more decimal digits without a leading zero |
| Upload.DecimalRoundTrip | utilis/fileUploader.js:12 | the digits of the rendered clock reading denote that reading again |
| Upload.StoredFilename | utilis/fileUploader.js:10-13 | the stored name is a run of digits denoting the timestamp followed by exactly the original extension, so it ends with `extname(originalname)` |
| Upload.FilenameRoundTrip | utilis/fileUploader.js:12 | since an extension is empty or starts with a dot, splitting a stored name at its leading digits recovers the timestamp and the extension |
| Upload.Destination | utilis/fileUploader.js:6-9 | the destination is the project root followed by the fixed `/uploads` segment |
| Upload.DestinationIgnoresFile | utilis/fileUploader.js:6-9 | the destination does not depend on the file being stored |
| BlogModel.ListIn | controllers/blogs.js:37 | the found documents are those of the listed ids, one per id, in the listed order |
| BlogModel.ListingOfWellFormed | controllers/blogs.js:37-38 | a find-all returns one document per stored id in natural order, and is empty exactly when the collection is |
| BlogModel.InsertKeepsWellFormed | controllers/blogs.js:24 | inserting a document under a fresh id keeps ids unique, listed once each and matching their documents |
| BlogModel.InsertAddsOne | controllers/blogs.js:24 | inserting under a fresh id adds exactly that id, grows the collection by one and changes no other document |
| BlogModel.InsertAppendsToListing | controllers/blogs.js:24 | a newly inserted document appears at the end of the listing, after the unchanged earlier ones |
| BlogModel.PatchKeepsWellFormed | controllers/blogs.js:93 | merging fields into one document keeps the collection well formed, its ids and its order |
| BlogModel.RemoveKeepsWellFormed | controllers/blogs.js:66 | deleting a stored document keeps the collection well formed, shrinks it by one and removes that id |
| BlogModel.BlogStore.Create | controllers/blogs.js:24 | `createBlog`, taken to insert the body as given, stores it under the new id at revision 0, returns that document and adds it at the end |
| BlogModel.BlogStore.Find | controllers/blogs.js:37 | `getBlogs`, taken to be a find-all, returns every stored document once, in insertion order |
| BlogModel.BlogStore.FindById | controllers/blogs.js:113 | `findById` returns the document with that id exactly when one exists |
| BlogModel.BlogStore.FindByIdAndUpdate | controllers/blogs.js:93 | `findByIdAndUpdate(..., {new: true})` merges the body into the document and returns the merged document, or returns nothing and changes nothing |
| BlogModel.BlogStore.FindByIdAndDelete | controllers/blogs.js:66 | `findByIdAndDelete` removes the document and returns it as it was, or returns nothing and changes nothing |
| Blogs.ResolveImage | controllers/blogs.js:14-21 | an uploaded file gives `${baseUrl}/uploads/${filename}` even when `blogImageUrl` is set; otherwise a non-empty `blogImageUrl` is used verbatim; otherwise there is no image; a resolved image is never empty |
| Blogs.PublicImage | controllers/blogs.js:45-47 | a served image gets the `${baseUrl}/` prefix exactly when it is non-empty and does not start with "http", and the stored path follows that prefix unchanged |
| Blogs.Shape | controllers/blogs.js:43-48 | a served document keeps its id and every field, loses `__v`, and only its `blogImage` is rewritten |
| Blogs.ShapeAll | controllers/blogs.js:42-49 | the served listing has the same length and order as the stored one, each entry shaped |
| Blogs.PublicImageIsAbsolute | controllers/blogs.js:45-46 | with a base URL starting with "http", every served image is empty or starts with "http" |
| Blogs.PublicImageIdempotent | controllers/blogs.js:45-46 | with a base URL starting with "http", rewriting a served image again changes nothing |
| Blogs.CreateBlog | controllers/blogs.js:7-33 | create answers 201, 400 or 500; it answers 201 exactly when the body validates, an image resolves and the store persists; on every other answer the collection is unchanged |
| Blogs.GetAllBlogs | controllers/blogs.js:35-56 | the listing answers 200, 404 or 500; 200 exactly when the store call completes and the collection is non-empty, with the shaped listing as data; a thrown store call answers 500 "Server error" with its message |
| Blogs.GetBlogById | controllers/blogs.js:105-128 | get answers 400 exactly for a malformed id, and 200 exactly for a valid stored id with a completed store call, with that document shaped; with a valid id, a thrown store call answers 500 with its message |
| Blogs.UpdateBlog | controllers/blogs.js:77-103 | update answers 400 exactly for a malformed id and 200 exactly for a stored one; only a 200 changes the collection, into exactly the merge of the body (with its resolved image) into that one document, and answers with the merged document; with a valid id, a thrown store call answers 500 with its message and changes nothing |
| Blogs.DeleteBlog | controllers/blogs.js:58-75 | delete answers 400 exactly for a malformed id and 200 exactly for a stored one; a 200 returns the document as it was and leaves exactly the other documents; with a valid id, a thrown store call answers 500 with its message; nothing but a 200 changes the collection |
| Blogs.HandleCreateBlog | controllers/blogs.js:7-33 | the create handler, run over the store, gives exactly the response and new store state of `CreateBlog` |
| Blogs.HandleGetAllBlogs | controllers/blogs.js:35-56 | the list handler, run over the store, gives exactly the response of `GetAllBlogs` |
| Blogs.HandleGetBlogById | controllers/blogs.js:105-128 | the get handler, shaping the found document in place, gives exactly the response of `GetBlogById` |
| Blogs.HandleUpdateBlog | controllers/blogs.js:77-103 | the update handler, run over the store, gives exactly the response and new store state of `UpdateBlog` |
| Blogs.HandleDeleteBlog | controllers/blogs.js:58-75 | the delete handler, run over the store, gives exactly the response and new store state of `DeleteBlog` |
| Blogs.CreateRejectsInvalidBody | controllers/blogs.js:10-12 | a body failing `validateBlog` gets 400 "Fill required fields" and the collection is unchanged |
| Blogs.CreateRequiresImage | controllers/blogs.js:19-21 | with neither a file nor a non-empty `blogImageUrl`, create gets 400 "Blog image is required" and nothing is stored |
| Blogs.CreateAddsOneBlog | controllers/blogs.js:23-28 | a successful create answers 201 with the body plus its resolved image under the new id, adds exactly that one document at the end of the listing, and leaves every other document unchanged |
| Blogs.CreateStoreFailures | controllers/blogs.js:25-31 | a null result from the store gives 400 "Error creating blog"; a thrown error gives 500 "Server error" with the error's message; neither stores anything |
| Blogs.CreateUploadWins | controllers/blogs.js:14-16 | with an uploaded file the stored `blogImage` is `baseUrl + "/uploads/" + filename`, whatever `blogImageUrl` says |
| Blogs.CreateUrlVerbatim | controllers/blogs.js:17-18 | with no file, a non-empty `blogImageUrl` is stored as `blogImage` verbatim |
| Blogs.UploadedImageKeepsExtension | controllers/blogs.js:14-16 | an image stored by the upload middleware is served from under the same `uploads` folder and ends with the original file's extension |
| Blogs.ListingEmptyIsNotFound | controllers/blogs.js:38-40 | listing an empty collection answers 404 "No blogs found" |
| Blogs.ListingServesEveryBlog | controllers/blogs.js:42-51 | a non-empty listing answers 200 with one entry per document in natural order; each keeps its id and fields, lacks `__v`, and has `blogImage` prefixed with `baseUrl + "/"` exactly when it is non-empty and does not start with "http" |
| Blogs.MalformedIdRejected | controllers/blogs.js:61-110 | get, update and delete answer 400 "Invalid blog ID" for an id failing `isValid`, whatever the store would do, and change nothing |
| Blogs.AbsentIdNotFound | controllers/blogs.js:66-116 | for a valid id naming no document, get, update and delete answer 404 "Blog not found" and change nothing |
| Blogs.UpdateWithoutImageKeepsImage | controllers/blogs.js:86-98 | an update with no file, no non-empty `blogImageUrl` and no `blogImage` field in the body merges the body's fields and keeps the stored `blogImage`, the id, the revision and every other document |
| Blogs.UpdateWithImageReplacesImage | controllers/blogs.js:86-93 | an update with a file or a non-empty `blogImageUrl` stores the resolved reference as `blogImage` |
| Blogs.StoreFailuresAreServerErrors | controllers/blogs.js:52-126 | a thrown store call answers 500 "Server error" with the error's message in list, and in get, update and delete once the id is well formed, and changes nothing |
| Blogs.UpdateMergesIntoOneBlog | controllers/blogs.js:86-98 | a successful update keeps the other documents and the order; the updated document keeps its id and revision, takes the body's value (with the resolved image) for every field the body names, keeps every other field, and is the answer's data |
| Blogs.DeleteRemovesOnlyThatBlog | controllers/blogs.js:66-70 | a successful delete answers with the document as it was, removes exactly that id, and keeps every other document and the order of the rest |
| Blogs.DeleteTwice | controllers/blogs.js:66-70 | deleting the same id twice answers 200 with the removed document and shrinks the collection by one, then answers 404 and changes nothing |
| Blogs.CreateThenGet | controllers/blogs.js:17-123 | a document created with an absolute image URL and then fetched by its id comes back with the same id and the same fields, the URL unchanged |

## Left out

- Mongoose internals are not modelled:
  - `toObject()` conversion, schema casting and strict-mode dropping of unknown fields (the update merges every body field);
  - `runValidators` re-validation on update, which can only surface here as a thrown store error (a 500);
  - the exact `ObjectId.isValid` grammar, which is an arbitrary predicate in `Env`.
- Id minting: the database's fresh `_id` for a new document is the input `newId`. `BlogStore.Create` and `HandleCreateBlog` require it to be unused, which is the database's own guarantee.
- A body carrying its own `_id` or `__v` field is not distinguished from other fields.
- `createBlog` and `getBlogs` come from `models/BlogModel` (`controllers/blogs.js:2`), which is not part of this model. Three things are assumptions about them, not facts from the source: `createBlog` stores the body as given at revision 0; `getBlogs` lists every document; and it lists them in insertion order.
- Body and field values are strings only (`Fields = map<string, string>`), so two cases are not modelled:
  - Non-string body values have JavaScript truthiness, unlike the non-empty-string test used at `controllers/blogs.js:17` and `:89`. Examples are `0`, `false`, or an array from a repeated multipart field (`[]` is truthy).
  - A stored `blogImage` that is not a string makes `startsWith` throw at `:45` and `:120`, which gives a 500.
- `validateBlog` and `getBaseUrl` live in files that are not part of this model. They are an arbitrary predicate and a string, so the rule that a document always has a title and content is not modelled.
- When `createBlog` resolves to nothing is decided in a file that is not part of this model. The case is an input (`ReturnsNull`).
- The store's failures are an input (`StoreCall`, `CreateOutcome`), not derived from any cause.
- `async`/`await`, `console.error` logging and the Express `res` object are left out. A response is a returned value.
- Multer's disk writes and its enforcement of the size limit are left out. Only the limit constant is modelled.
- An uploaded file is written to disk even when the handler later refuses the request, and files are never removed on update or delete. No file lifecycle is modelled.
- `Upload.FileInfo` carries `extension` as an input standing for `path.extname(originalName)`. Nothing in the model ties it to `originalName`.
- `Date.now()`, `path.extname` and `path.join(__dirname, "../uploads")` are library and clock behaviour. The timestamp, the extension and the project root are inputs. `Upload.Destination` joins with a single `/` and does not normalise the path.
- Upload.ToLower: lower-cases ASCII letters only, whereas JavaScript's `toLowerCase` follows Unicode. The non-ASCII characters that JavaScript lower-cases to ASCII letters (the Kelvin sign to `k`, the dotted capital I to `i` plus a combining dot) spell no part of `.glb` or `.usdz`, so the filter's verdict is the same.
- `routes/blogRoutes.js` is route wiring only. Its imported `authenticateToken` is never used.
