/** The dispatch table of the request callback, in its priority order. */
module Router {

  datatype Route =
    | ReadInfo              // GET /api/info
    | UpdateInfo            // PUT /api/info
    | Static(file: string)  // serveStatic(res, file)
    | NoRoute               // 404 "Not Found", text/plain

  const InfoPath := "/api/info"

  /** `pathname.slice(1)`. */
  function Rest(pathname: string): string {
    if pathname == [] then [] else pathname[1..]
  }

  /** The handler chosen for a request method and URL pathname. */
  function Dispatch(verb: string, pathname: string): (r: Route)
    ensures r.Static? ==> verb == "GET" && r.file != []
    ensures r == ReadInfo || r == UpdateInfo ==> pathname == InfoPath
    ensures verb != "GET" && verb != "PUT" ==> r == NoRoute
  {
    if verb == "GET" && pathname == InfoPath then ReadInfo
    else if verb == "PUT" && pathname == InfoPath then UpdateInfo
    else if verb == "GET" && (pathname == "/" || pathname == "/index.html") then Static("index.html")
    else if verb == "GET" && Rest(pathname) != [] then Static(Rest(pathname))
    else NoRoute
  }

  /** Each outcome of the table, stated both ways. */
  lemma DispatchTable(verb: string, pathname: string)
    ensures Dispatch(verb, pathname) == ReadInfo <==> verb == "GET" && pathname == InfoPath
    ensures Dispatch(verb, pathname) == UpdateInfo <==> verb == "PUT" && pathname == InfoPath
    ensures Dispatch(verb, pathname).Static? <==> verb == "GET" && pathname != InfoPath && |pathname| >= 1 && (pathname == "/" || |pathname| >= 2)
    ensures Dispatch(verb, pathname) == NoRoute <==>
      (verb != "GET" || (|pathname| <= 1 && pathname != "/")) && !(verb == "PUT" && pathname == InfoPath)
  {
  }

  /** A static route names a non-empty file: `index.html` for the two index
      paths, otherwise the pathname without its first character. */
  lemma StaticTarget(verb: string, pathname: string)
    requires Dispatch(verb, pathname).Static?
    ensures var f := Dispatch(verb, pathname).file;
      f != [] &&
      (pathname == "/" || pathname == "/index.html" ==> f == "index.html") &&
      (pathname != "/" && pathname != "/index.html" ==> pathname == [pathname[0]] + f)
  {
  }
}
