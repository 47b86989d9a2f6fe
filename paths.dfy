/** POSIX `path.join(root, p)` for an absolute, already normalised `root`:
    the joined string is cut at '/', empty and "." segments are dropped,
    ".." removes the previous segment (never climbing above "/"), and a
    trailing '/' of `p` is kept. `root` is given by its segments. */
module Paths {
  import opened Text

  /** `s.split('/')`: always at least one piece, none holding a '/'. */
  function Split(s: string): (r: seq<string>)
    ensures |r| >= 1
    ensures forall k :: 0 <= k < |r| ==> '/' !in r[k]
  {
    if s == [] then [""]
    else
      var rest := Split(s[1..]);
      if s[0] == '/' then [""] + rest else [[s[0]] + rest[0]] + rest[1..]
  }

  /** The segments joined with '/' between them. */
  function JoinSlash(segs: seq<string>): string {
    if segs == [] then ""
    else if |segs| == 1 then segs[0]
    else segs[0] + "/" + JoinSlash(segs[1..])
  }

  /** The absolute path whose segments are `segs`. */
  function Render(segs: seq<string>): string {
    "/" + JoinSlash(segs)
  }

  /** Segments of a normalised absolute path. */
  predicate Clean(segs: seq<string>) {
    forall k :: 0 <= k < |segs| ==> segs[k] != "" && segs[k] != "." && segs[k] != ".." && '/' !in segs[k]
  }

  /** One step of normalisation on the stack of segments kept so far. */
  function Step(stack: seq<string>, seg: string): seq<string> {
    if seg == "" || seg == "." then stack
    else if seg == ".." then (if stack == [] then [] else stack[..|stack| - 1])
    else stack + [seg]
  }

  /** Normalises `segs` on top of `stack`; the result is a clean path when
      the stack was clean and no segment holds a '/'. */
  function Resolve(stack: seq<string>, segs: seq<string>): (r: seq<string>)
    requires Clean(stack)
    requires forall k :: 0 <= k < |segs| ==> '/' !in segs[k]
    ensures Clean(r)
    decreases |segs|
  {
    if segs == [] then stack else Resolve(Step(stack, segs[0]), segs[1..])
  }

  /** `path.join(Render(root), p)`. */
  function Join(root: seq<string>, p: string): (r: string)
    requires Clean(root)
    ensures |r| >= 1 && r[0] == '/'
    ensures Resolve(root, Split(p)) == [] ==> r == "/"
  {
    var segs := Resolve(root, Split(p));
    Render(segs) + (if segs != [] && p != [] && p[|p| - 1] == '/' then "/" else "")
  }

  /** Cutting at '/' and gluing back with '/' gives the string back. */
  lemma {:induction false} SplitRoundTrip(s: string)
    ensures JoinSlash(Split(s)) == s
  {
    if s != [] {
      var rest := Split(s[1..]);
      SplitRoundTrip(s[1..]);
      if s[0] == '/' {
        assert Split(s) == [""] + rest;
        assert ([""] + rest)[1..] == rest;
      } else if |rest| > 1 {
        assert Split(s)[1..] == rest[1..];
        assert JoinSlash(rest) == rest[0] + "/" + JoinSlash(rest[1..]);
      }
    }
  }

  /** Splitting a string at its first '/'. */
  lemma {:induction false} SplitAtSlash(a: string, b: string)
    requires '/' !in a
    ensures Split(a + "/" + b) == [a] + Split(b)
  {
    if a == [] {
      assert a + "/" + b == ['/'] + b;
      assert (['/'] + b)[1..] == b;
    } else {
      assert (a + "/" + b)[1..] == a[1..] + "/" + b;
      SplitAtSlash(a[1..], b);
      assert [a[0]] + a[1..] == a;
    }
  }

  /** A string without '/' is one segment. */
  lemma {:induction false} SplitNoSlash(a: string)
    requires '/' !in a
    ensures Split(a) == [a]
  {
    if a != [] {
      SplitNoSlash(a[1..]);
      assert [a[0]] + a[1..] == a;
    }
  }

  /** Without "..", normalising only pushes: the stack stays a prefix. */
  lemma {:induction false} ResolveKeepsStack(stack: seq<string>, segs: seq<string>)
    requires Clean(stack)
    requires forall k :: 0 <= k < |segs| ==> '/' !in segs[k] && segs[k] != ".."
    ensures |stack| <= |Resolve(stack, segs)| && Resolve(stack, segs)[..|stack|] == stack
    decreases |segs|
  {
    if segs != [] {
      var next := Step(stack, segs[0]);
      ResolveKeepsStack(next, segs[1..]);
      assert next[..|stack|] == stack;
    }
  }

  /** The rendering of a path starts with the rendering of any path it extends. */
  lemma {:induction false} JoinSlashPrefix(a: seq<string>, b: seq<string>)
    ensures StartsWith(JoinSlash(a + b), JoinSlash(a))
  {
    if |a| == 1 {
      if b != [] {
        assert (a + b)[1..] == b;
      }
    } else if |a| > 1 {
      assert (a + b)[1..] == a[1..] + b;
      JoinSlashPrefix(a[1..], b);
      var tail := JoinSlash(a[1..] + b);
      assert JoinSlash(a + b) == a[0] + "/" + tail;
      assert tail[..|JoinSlash(a[1..])|] == JoinSlash(a[1..]);
      assert (a[0] + "/" + tail)[..|a[0] + "/" + JoinSlash(a[1..])|] == a[0] + "/" + tail[..|JoinSlash(a[1..])|];
    }
  }

  /** Appending one segment to a path. */
  lemma {:induction false} JoinSlashSnoc(a: seq<string>, s: string)
    ensures JoinSlash(a + [s]) == if a == [] then s else JoinSlash(a) + "/" + s
  {
    if |a| > 1 {
      assert (a + [s])[1..] == a[1..] + [s];
      JoinSlashSnoc(a[1..], s);
    } else if |a| == 1 {
      assert (a + [s])[1..] == [s];
    }
  }

  /** Joining a path that has no ".." segment never leaves the root: the
      result starts with the root's rendering. */
  lemma InsideRoot(root: seq<string>, p: string)
    requires Clean(root)
    requires forall k :: 0 <= k < |Split(p)| ==> Split(p)[k] != ".."
    ensures StartsWith(Join(root, p), Render(root))
  {
    var segs := Resolve(root, Split(p));
    ResolveKeepsStack(root, Split(p));
    assert segs == root + segs[|root|..];
    JoinSlashPrefix(root, segs[|root|..]);
    var r, tail := Render(segs), if segs != [] && p != [] && p[|p| - 1] == '/' then "/" else "";
    assert Join(root, p) == r + tail;
    assert StartsWith(r, Render(root));
    assert (r + tail)[..|Render(root)|] == r[..|Render(root)|];
  }

  /** "..": the joined path is the root's parent, which is shorter than the
      root and so does not start with it. */
  lemma ParentOfRoot(root: seq<string>)
    requires Clean(root) && root != []
    ensures !StartsWith(Join(root, ".."), Render(root))
  {
    SplitNoSlash("..");
    var init := root[..|root| - 1];
    assert Resolve(root, [".."]) == Resolve(init, []);
    assert root == init + [root[|root| - 1]];
    JoinSlashSnoc(init, root[|root| - 1]);
  }

  /** The string "../name" normalises onto the root's parent. */
  lemma UpThenDown(root: seq<string>, name: string)
    requires Clean(root) && root != []
    requires Clean([name])
    ensures Join(root, "../" + name) == Render(root[..|root| - 1] + [name])
  {
    var init := root[..|root| - 1];
    assert "../" + name == ".." + "/" + name;
    SplitAtSlash("..", name);
    SplitNoSlash(name);
    assert Split("../" + name) == ["..", name];
    assert Resolve(root, ["..", name]) == Resolve(init, [name]);
    assert Resolve(init, [name]) == Resolve(init + [name], []);
    assert ("../" + name)[|"../" + name| - 1] == name[|name| - 1];
  }

  /** A common prefix does not change a prefix test. */
  lemma StartsWithCommonPrefix(pre: string, x: string, y: string)
    ensures StartsWith(pre + x, pre + y) <==> StartsWith(x, y)
  {
    if StartsWith(pre + x, pre + y) {
      assert (pre + x)[..|pre + y|][|pre|..] == x[..|y|];
    }
    if StartsWith(x, y) {
      assert (pre + x)[..|pre + y|] == pre + x[..|y|];
    }
  }

  /** The rendering of a directory, ready for a name to be appended. */
  function DirPrefix(a: seq<string>): string {
    if a == [] then "/" else Render(a) + "/"
  }

  lemma RenderSnoc(a: seq<string>, s: string)
    ensures Render(a + [s]) == DirPrefix(a) + s
  {
    JoinSlashSnoc(a, s);
  }

  /** "../name" with a plain name: the joined path is the sibling `name` of
      the root's last directory, and it passes the prefix test exactly when
      `name` begins with that directory's name. */
  lemma Sibling(root: seq<string>, name: string)
    requires Clean(root) && root != []
    requires Clean([name])
    ensures Join(root, "../" + name) == Render(root[..|root| - 1] + [name])
    ensures StartsWith(Join(root, "../" + name), Render(root)) <==> StartsWith(name, root[|root| - 1])
  {
    var init, last := root[..|root| - 1], root[|root| - 1];
    UpThenDown(root, name);
    RenderSnoc(init, name);
    RenderSnoc(init, last);
    assert root == init + [last];
    StartsWithCommonPrefix(DirPrefix(init), name, last);
  }
}
