/** The request callback given to `http.createServer`: the dispatch table
    wired to the `info` store and to the static responder. */
module Server {
  import opened Js
  import opened Http
  import opened Paths
  import opened Router
  import opened StaticFiles
  import Info

  /** The answer to a request no route matches. */
  const NotFound := Response(404, Some("text/plain"), TextBody("Not Found"))

  /** Answers one request whose URL pathname is `pathname`; for a PUT the
      whole `body` has arrived. The public root is `root`. */
  method Handle(store: Info.Store, root: seq<string>, verb: string, pathname: string, body: string,
                parse: string -> Option<Json>, now: string, write: Info.WriteResult, files: string -> Option<seq<bv8>>)
    returns (resp: Response)
    requires Clean(root)
    modifies store
    ensures Dispatch(verb, pathname) != UpdateInfo ==> store.doc == old(store.doc) && store.saved == old(store.saved)
    ensures match Dispatch(verb, pathname)
      case ReadInfo => resp == SendJson(200, Obj(store.doc))
      case UpdateInfo =>
        var parsed := Info.ParseBody(body, parse);
        var o := Info.Put(old(store.doc), parsed, now, write == Info.Written);
        store.doc == o.doc && resp == o.response && store.saved == Info.SavedAfter(old(store.saved), o, parsed, write)
      case Static(file) => resp == ServeStatic(root, file, files)
      case NoRoute => resp == NotFound
  {
    if verb == "GET" && pathname == InfoPath {
      resp := store.Read();
      return;
    }
    if verb == "PUT" && pathname == InfoPath {
      resp := store.Update(body, parse, now, write);
      return;
    }
    if verb == "GET" && (pathname == "/" || pathname == "/index.html") {
      return ServeStatic(root, "index.html", files);
    }
    if verb == "GET" {
      var filePath := Rest(pathname);
      if filePath != "" {
        return ServeStatic(root, filePath, files);
      }
    }
    resp := NotFound;
  }
}
