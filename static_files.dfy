/** `serveStatic`: a file under the public root, refused when the joined
    path fails the prefix test against the root. */
module StaticFiles {
  import opened Js
  import opened Text
  import opened Paths
  import opened Http

  const JsType := "application/javascript"
  const HtmlType := "text/html; charset=utf-8"

  /** The type chosen from the resolved path alone. */
  function ContentType(resolved: string): (r: string)
    ensures r == JsType <==> EndsWith(resolved, ".js")
    ensures r in {JsType, HtmlType}
  {
    if EndsWith(resolved, ".js") then JsType else HtmlType
  }

  /** Serves `filepath` from the public root whose segments are `root`;
      `files` is what `fs.readFile` gives for a path (None on any error). */
  function ServeStatic(root: seq<string>, filepath: string, files: string -> Option<seq<bv8>>): (r: Response)
    requires Clean(root)
    ensures r.status == 403 <==> !StartsWith(Join(root, filepath), Render(root))
    ensures r.status == 404 <==> StartsWith(Join(root, filepath), Render(root)) && files(Join(root, filepath)).None?
    ensures r.status in {200, 403, 404}
    ensures r.status == 200 ==> r.body == FileBody(files(Join(root, filepath)).value)
    ensures r.status == 200 ==> (r.contentType == Some(JsType) <==> EndsWith(Join(root, filepath), ".js"))
    ensures r.status == 200 ==> r.contentType in {Some(JsType), Some(HtmlType)}
    ensures r.status != 200 ==> r.contentType == None
    ensures r.status == 403 ==> r.body == TextBody("Forbidden")
    ensures r.status == 404 ==> r.body == TextBody("Not Found")
  {
    var resolved := Join(root, filepath);
    if !StartsWith(resolved, Render(root)) then Response(403, None, TextBody("Forbidden"))
    else match files(resolved)
      case None => Response(404, None, TextBody("Not Found"))
      case Some(content) => Response(200, Some(ContentType(resolved)), FileBody(content))
  }

  /** A request path with no ".." segment is never refused. */
  lemma NoDotDotNeverForbidden(root: seq<string>, filepath: string, files: string -> Option<seq<bv8>>)
    requires Clean(root)
    requires forall k :: 0 <= k < |Split(filepath)| ==> Split(filepath)[k] != ".."
    ensures ServeStatic(root, filepath, files).status != 403
  {
    InsideRoot(root, filepath);
  }

  /** Asking for the root's parent is refused. */
  lemma ParentForbidden(root: seq<string>, files: string -> Option<seq<bv8>>)
    requires Clean(root) && root != []
    ensures ServeStatic(root, "..", files).status == 403
  {
    ParentOfRoot(root);
  }

  /** "../name" is refused exactly when `name` does not begin with the name
      of the public directory: "../secret.txt" is refused, but a sibling
      directory such as "public-old" next to "public" passes the test. */
  lemma SiblingForbiddenIff(root: seq<string>, name: string, files: string -> Option<seq<bv8>>)
    requires Clean(root) && root != []
    requires Clean([name])
    ensures ServeStatic(root, "../" + name, files).status == 403 <==> !StartsWith(name, root[|root| - 1])
  {
    Sibling(root, name);
  }
}
