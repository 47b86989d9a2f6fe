# qhh-server in Dafny

A model of the decision logic of the qhh-server HTTP service. The service keeps one JSON
document, `info`, with a `title`, a `file_url` and an `updated_date`. It is held in memory as
`state` and mirrored to `data/store.json`. `GET /api/info` reads it; `PUT /api/info` merges a
title and/or file URL into it. Every other `GET` is served as a static file from the public
directory.

The model has one module per piece of that logic:

- `Js`: parsed JSON values, property reads (`v.key`, which throws on `null`), sloppy-mode
  property writes, and JavaScript truthiness.
- `Text`: `String.prototype.trim` over an explicit white-space predicate (ECMAScript WhiteSpace
  and LineTerminator), plus `startsWith` and `endsWith`.
- `Paths`: POSIX `path.join` applied to the absolute public root. The joined string is cut at
  `/`; empty and `.` segments are dropped; `..` pops a segment but never climbs above `/`; a
  trailing `/` is kept.
- `StaticFiles`: `serveStatic`. It answers 403 when the joined path fails the string-prefix
  test against the root, 404 when the file cannot be read, and 200 otherwise. The content type
  is chosen by the `.js` suffix.
- `Router`: the dispatch table of the request callback, in priority order.
- `Info`: the PUT handler as a specification function `Put` over the in-memory document. It
  also has the `Store` class, which holds `state` (`doc`) and the content of store.json
  (`saved`). `Store.Update` builds `updates` field by field and assigns the merged object over
  `doc`, as the handler does. Persisting happens after the merge and inside the same `try`. So
  when the write fails, the document has already changed and the answer is 400 "Invalid JSON
  payload.". What store.json then holds depends on where the write failed. `fs.writeFileSync`
  opens the file with flag `'w'`, which empties it. A failure before that point (in
  `mkdirSync`, or when opening the file) leaves the old content. A failure after it leaves the
  file empty or cut short, and the next start-up cannot parse it (`Info.WriteResult`).
- `Persistence`: `loadData` over an abstract read/parse outcome. Failures fall back to the fixed
  document. A falsy `updated_date` is filled with the current time and written back. Any other
  parsed value is returned as it is. `Persistence.Start` builds the `Store` from the loaded
  document.
- `Server`: the request callback. It wires the router to the store and the static responder.

Inputs the program takes from its environment are parameters:

- `now` is the clock.
- `parse` is `JSON.parse`; `None` means it throws. An empty body never reaches it.
- `write` (in `Store.Update`), `fillWriteOk` and `fallbackWriteOk` are the outcomes of
  `persistData`.
- `files` is `fs.readFile`.
- `root` gives the segments of the public directory.

Behaviour of the code a reader may not expect:

- A failed write during PUT is not a clean failure. The merge is already in memory, and the
  error reported is the invalid-JSON one (`Info.AcceptedUpdate` with `writeOk` false).
- GET does not always return non-empty `title`, `file_url` and `updated_date`. `loadData`
  returns any parsed document whose `updated_date` is truthy unchanged, so it may lack the other
  two members (`Persistence.DatedObjectKept`).
- A stored document is re-dated when its `updated_date` is falsy (for example `""`, `0` or
  `null`), not only when the member is missing.
- The containment check is a string-prefix test. It refuses `../secret.txt`, but it admits a
  sibling directory whose name begins with the public directory's name, such as
  `../public-old` (`StaticFiles.SiblingForbiddenIff`). Through the router this path cannot
  arise, because the URL parser removes dot segments from the pathname first.
- If the write after filling `updated_date` fails, `loadData` falls back to the default
  document. If the fallback's own write fails, nothing catches the exception and start-up
  crashes (`Persistence.CrashIff`).

## Model

| member | source | states |
|---|---|---|
| Js.GetProperty | src/server.js:85-89 | reading a member of `null` throws and of no other value; only an object has `title`, `file_url` or `updated_date`, and then it is the stored member |
| Js.SetProperty | src/server.js:14 | an object gains or overwrites the member and keeps all others; a primitive or array is unchanged as JSON |
| Text.TrimStart | src/server.js:85-90 | the result is a suffix of the input, what was removed is all white space, and the result does not start with white space |
| Text.TrimEnd | src/server.js:85-90 | the result is a prefix of the input, what was removed is all white space, and the result does not end with white space |
| Text.Trim | src/server.js:85-90 | `trim()` is empty exactly when the string is all white space, and otherwise neither starts nor ends with white space |
| Text.TrimIsCore | src/server.js:85-90 | any split of a string into white space, a core without white space at either end, and white space has that core as its `trim()` |
| Text.TrimIdempotent | src/server.js:86-90 | the stored trimmed value is unchanged by trimming it again |
| Paths.Split | src/server.js:42 | cutting at `/` gives at least one piece and no piece holds a `/` |
| Paths.Resolve | src/server.js:42 | normalising segments onto a normalised path gives a normalised path (no empty, `.` or `..` segment) |
| Paths.Join | src/server.js:42 | `path.join` of the public root and a request path is an absolute path, and is `/` when every segment has been popped |
| Paths.SplitRoundTrip | src/server.js:42 | joining the pieces of a split with `/` gives back the string |
| Paths.InsideRoot | src/server.js:42-43 | a request path without a `..` segment joins to a path that starts with the public root |
| Paths.ParentOfRoot | src/server.js:42-43 | `..` joins to the root's parent, which does not start with the root |
| Paths.Sibling | src/server.js:42-43 | `../name` joins to the sibling `name` of the public directory and passes the prefix test exactly when `name` begins with that directory's name |
| StaticFiles.ContentType | src/server.js:55-57 | the type is `application/javascript` exactly when the resolved path ends in `.js`, and `text/html; charset=utf-8` otherwise |
| StaticFiles.ServeStatic | src/server.js:41-61 | 403 "Forbidden" with no content type exactly when the joined path does not start with the root; 404 "Not Found" with no content type exactly when it does and the file cannot be read; otherwise 200 with the file's bytes, typed `application/javascript` exactly when the path ends in `.js` and `text/html; charset=utf-8` otherwise |
| StaticFiles.NoDotDotNeverForbidden | src/server.js:42-47 | a request path with no `..` segment is never answered 403 |
| StaticFiles.ParentForbidden | src/server.js:42-47 | asking for `..` is answered 403 |
| StaticFiles.SiblingForbiddenIff | src/server.js:42-47 | `../name` is answered 403 exactly when `name` does not begin with the public directory's name |
| Router.Dispatch | src/server.js:66-125 | a static route is chosen only for GET and names a non-empty file; the two info routes only for the pathname `/api/info`; any method other than GET and PUT gets no route |
| Router.DispatchTable | src/server.js:66-125 | GET `/api/info` reads, PUT `/api/info` updates, any other GET with a pathname of two or more characters (or exactly `/`) is served statically, and every other request is the 404; each stated in both directions |
| Router.StaticTarget | src/server.js:111-122 | a static route names a non-empty file: `index.html` for `/` and `/index.html`, otherwise the pathname without its first character |
| Info.Accept | src/server.js:85-91 | a member is kept exactly when it is a string that is not all white space, and the kept value is its non-empty trimmed form |
| Info.Updates | src/server.js:83-91 | `updates` is missing exactly when the payload is `null` (reading its members throws); otherwise it has only `file_url` and `title`, each a non-empty string |
| Info.UpdatesFields | src/server.js:83-91 | for a non-null payload, `updates` has `file_url`/`title` exactly when that member is accepted, holds its trimmed value, and has no other member |
| Info.Merge | src/server.js:99-100 | the merged document has the members of the document, of `updates` and `updated_date`, which holds `now` |
| Info.Put | src/server.js:80-107 | the answer is 200 or 400; store.json is written only when the write succeeds, and then the answer is 200 with the whole document; every 400 is one of the two error messages; only the invalid-JSON 400 can come with a changed document; a changed document keeps every old member and has `updated_date` equal to `now` |
| Info.AttemptedIff | src/server.js:93-101 | `persistData` is reached exactly when the body parses to a payload that is acted on |
| Info.EmptyBodyAsksForFields | src/server.js:82-96 | an empty body gives 400 "Provide a file_url or title to update." and changes nothing |
| Info.InvalidPayloadRejected | src/server.js:82-105 | a body that does not parse, or parses to `null`, gives 400 "Invalid JSON payload." and changes nothing |
| Info.NoAcceptedFieldRejected | src/server.js:93-96 | a parsed payload with neither member accepted gives 400 "Provide a file_url or title to update." and changes nothing |
| Info.PutActing | src/server.js:98-105 | an acting payload is merged into the document; the answer is 200 with the whole document when the write succeeds and the invalid-JSON 400 when it fails |
| Info.CollectUpdates | src/server.js:83-91 | the `updates` object built one field at a time is that of `Updates`: each of `file_url` and `title` present exactly when accepted, holding its trimmed value; none when reading a member throws |
| Info.MergeAt | src/server.js:99-100 | after the merge, `updated_date` is `now`, a member of `updates` takes its new value, every other member of the document keeps its value, and no other member appears |
| Info.MergedPayload | src/server.js:83-100 | merging the updates of a non-null payload: a member is present exactly when it was before, is `updated_date`, or was accepted; accepted members hold their trimmed input and all other members keep their values |
| Info.AcceptedUpdate | src/server.js:98-105 | after an acting PUT, each accepted field equals its trimmed input, every other member keeps its value, `updated_date` equals `now`, store.json is written exactly when the write succeeds, and the answer is 200 with the whole new document or, on a failed write, the invalid-JSON 400 with the document already changed |
| Info.PutChangesOnlyWhenActing | src/server.js:93-105 | only an acting payload changes the document or store.json; store.json is rewritten exactly when the answer is 200, and a 200 carries the whole document |
| Info.MergeTwice | src/server.js:99-100 | merging the same updates twice is merging them once at the later time |
| Info.PutTwice | src/server.js:99-100 | repeating an acting PUT gives the same document as one PUT at the later time: `title` and `file_url` are unchanged by the repeat and only `updated_date` moves |
| Info.AssignCovering | src/server.js:100 | `Object.assign` onto `state` of an object holding all of its members leaves exactly that object |
| Info.Store.constructor | src/server.js:34 | the held document starts as the loaded document and store.json as what it holds at start-up |
| Info.Store.Read | src/server.js:66-69 | GET answers 200, typed `application/json`, with the whole held document |
| Info.Store.Update | src/server.js:80-107 | the held document and the response are those of `Put` on the parsed body; store.json holds the new document when the write succeeds, no parseable document when an attempted write fails after emptying the file, and its old content otherwise |
| Persistence.Fallback | src/server.js:19-23 | the fallback is an object with exactly `updated_date` set to `now`, `file_url` set to the fixed PDF URL and `title` set to `QHH - 327` |
| Persistence.LoadData | src/server.js:9-27 | what is written back is the document returned; start-up crashes only when the fallback write fails; a read or parse failure gives the fallback, written back |
| Persistence.LoadedAgreesWithDisk | src/server.js:9-26 | after loading, the document either was written to store.json or is exactly what store.json held |
| Persistence.LoadedObjectIsDated | src/server.js:13-16 | a loaded object always has a truthy `updated_date` |
| Persistence.FailureGivesFallback | src/server.js:18-26 | a read failure, a parse failure or a `null` document gives the fixed document (title `QHH - 327`, the fixed PDF URL, `now`), written back, or a crash when that write fails |
| Persistence.DatedObjectKept | src/server.js:13-17 | an object with a truthy `updated_date` is returned unchanged and not written |
| Persistence.UndatedObjectFilled | src/server.js:13-16 | an object with a missing or falsy `updated_date` gets `now` there, keeps every other member, and is written back; if that write fails the fallback is used |
| Persistence.CrashIff | src/server.js:15-24 | start-up crashes exactly when store.json cannot be used as it is and the fallback write then fails |
| Persistence.FallbackReloads | src/server.js:13-23 | the fallback, once written, is loaded back unchanged and not rewritten |
| Persistence.Start | src/server.js:9-34 | when start-up loads an object, the store holds it and store.json holds that same object; no store when start-up crashes |
| Persistence.WrittenDocumentReloads | src/server.js:98-101 | a document written by a PUT is loaded back unchanged at the next start-up |
| Server.Handle | src/server.js:63-126 | each request is answered by the handler the dispatch table picks, and only a PUT to `/api/info` can change the held document or store.json |

## Left out

- Sockets and HTTP framing are not modelled: `http.createServer`, `writeHead`/`end`, `listen`, `PORT` and the start-up log line. Responses are returned values.
- Body accumulation from chunks and the connection cut-off above 1,000,000 characters are not modelled. These are stream events, and `Store.Update` receives the complete body.
- URL parsing (`new URL`) is not modelled; the pathname is an input. This parsing is also what removes dot segments before the router.
- `JSON.parse` is not modelled; it is the `parse` parameter. `JSON.stringify` is not modelled; a JSON body is the value itself. Member order of objects is not kept.
- JSON numbers are exact reals, with no floating-point behaviour.
- File-system effects (`readFileSync`, `readFile`, `mkdirSync`, `writeFileSync`) are not modelled. Each is an abstract outcome passed in.
- The clock is the parameter `now`. When the write after filling `updated_date` fails, `loadData` reads the clock a second time for the fallback. The model uses the same `now` for both reads.
- Interleaving of concurrent requests on the shared `state` is not modelled. The code does not coordinate it, and the model is sequential.
- Persistence.Start: builds a store only from an object. A store.json that holds a JSON primitive or array is returned unchanged by `Persistence.LoadData`, but the later GET and PUT behaviour on such a non-object `state` is not modelled.
- Js.GetProperty: is defined only for the member names the server reads. For other names, such as `length` on a string, JavaScript's answer differs.
- Info.WriteResult: a write cut short is modelled as leaving no parseable document. The partial bytes themselves are not modelled.
- Js.SetProperty: on an array it drops the non-index property the write adds, because JSON never shows it.
