/** What the request handler of server.js guarantees, stated over the model
    in EdgeServer. */
module EdgeServerFacts {
  import opened Wrappers
  import opened Text
  import opened EdgeServer
  import opened NodePath
  import opened NodePathFacts
  import opened NodePathSegments

  /** The proxy answer depends only on the request and the upstream, the
      static answer only on the path, the directory and the filesystem. */
  lemma RoutingSeparation(url: string, verb: string, headers: map<string, string>, verb': string,
                          headers': map<string, string>, dir: string, dir': string,
                          fs: FileSystem, fs': FileSystem,
                          up: ProxyOptions -> UpstreamReply, up': ProxyOptions -> UpstreamReply)
    ensures IsApiPath(url) ==> Respond(dir, url, verb, headers, fs, up) == Respond(dir', url, verb, headers, fs', up)
    ensures !IsApiPath(url) ==> Respond(dir, url, verb, headers, fs, up) == Respond(dir, url, verb', headers', fs, up')
  {
  }

  /** Every static answer is 200, 404 or 500, and the bytes of a 200 are
      those of the requested file or of the entry document. */
  lemma StaticResponseOrigin(dir: string, url: string, fs: FileSystem)
    ensures var r := StaticResponse(dir, url, fs);
      r.status in {200, 404, 500} &&
      (r.status == 200 <==> r.body.Content?) &&
      (r.body.Content? ==>
        Contents(r.body.bytes) in {ReadFile(fs, FilePath(dir, url)), ReadFile(fs, IndexPath(dir))})
    ensures var r := StaticResponse(dir, url, fs);
      r.status == 404 <==> !IsRegularFile(fs, FilePath(dir, url)) && Extname(SafePath(url)) != ""
  {
    ServedOrigin(dir, SafePath(url), FilePath(dir, url), fs);
  }

  /** `StaticResponseOrigin` for any safe path and file path. */
  lemma ServedOrigin(dir: string, safe: string, file: string, fs: FileSystem)
    ensures var r := ServeFile(dir, safe, file, fs);
      r.status in {200, 404, 500} &&
      (r.status == 200 <==> r.body.Content?) &&
      (r.body.Content? ==> Contents(r.body.bytes) in {ReadFile(fs, file), ReadFile(fs, IndexPath(dir))})
    ensures var r := ServeFile(dir, safe, file, fs);
      r.status == 404 <==> !IsRegularFile(fs, file) && Extname(safe) != ""
  {
  }

  lemma NormalizeRoot()
    ensures Normalize("/") == "/"
  {
    assert Split("/") == [""] + Split("");
    assert Collapse([], ["", ""], true) == [];
  }

  /** The root URL is rewritten to the entry document. */
  lemma RootIsEntryDocument()
    ensures SafePath("/") == "/index.html"
  {
    NormalizeRoot();
  }

  /** A request for "/" reads the entry document through the file branch: a
      missing index.html is answered 404, since "/index.html" has an
      extension, and never reaches the fallback's 500. */
  lemma RootRequest(dir: string, fs: FileSystem)
    requires dir != [] && dir[0] == '/'
    ensures var idx := IndexPath(dir); var r := StaticResponse(dir, "/", fs);
      (IsRegularFile(fs, idx) && ReadFile(fs, idx).Contents? ==>
         r == Response(200, map["Content-Type" := "text/html"], Content(ReadFile(fs, idx).bytes))) &&
      (IsRegularFile(fs, idx) && ReadFile(fs, idx).Unreadable? ==> r == Response(500, map[], Message("Server Error"))) &&
      (!IsRegularFile(fs, idx) ==> r == Response(404, map[], Message("Not found")))
  {
    var name := "index.html";
    IndexName();
    RootIsEntryDocument();
    IndexPathIs(dir);
    RootPathExtension();
    HtmlExtension(DirPrefix(dir));
    HtmlType(DirPrefix(dir) + name);
    NamedRequest(dir, "/", name, fs);
  }

  /** A URL whose safe path is "/name", for a plain name with an extension,
      reads the file of that name: typed by its extension when it is
      readable, 500 when it is not, 404 when it is missing. */
  lemma NamedRequest(dir: string, url: string, name: string, fs: FileSystem)
    requires dir != [] && dir[0] == '/' && IsPlainName(name)
    requires SafePath(url) == "/" + name && Extname("/" + name) != ""
    ensures var file := DirPrefix(dir) + name; var r := StaticResponse(dir, url, fs);
      (IsRegularFile(fs, file) && ReadFile(fs, file).Contents? ==>
         r == Response(200, map["Content-Type" := ContentType(file)], Content(ReadFile(fs, file).bytes))) &&
      (IsRegularFile(fs, file) && ReadFile(fs, file).Unreadable? ==> r == Response(500, map[], Message("Server Error"))) &&
      (!IsRegularFile(fs, file) ==> r == Response(404, map[], Message("Not found")))
  {
    JoinRootedPlainName(dir, name);
  }

  lemma IndexName()
    ensures IsPlainName("index.html") && "/" + "index.html" == "/index.html"
    ensures "index.html" == "index" + "." + "html" && "." + "html" == ".html"
  {
  }

  lemma HtmlType(file: string)
    requires Extname(file) == ".html"
    ensures ContentType(file) == "text/html"
  {
  }

  lemma RootPathExtension()
    ensures Extname("/index.html") == ".html"
  {
    IndexName();
    HtmlExtension("/");
  }

  lemma IndexPathIs(dir: string)
    requires dir != [] && dir[0] == '/'
    ensures IndexPath(dir) == DirPrefix(dir) + "index.html"
  {
    IndexName();
    JoinPlainName(dir, "index.html");
  }

  lemma RootFilePath(dir: string)
    requires dir != [] && dir[0] == '/'
    ensures Join(dir, "/index.html") == DirPrefix(dir) + "index.html"
  {
    IndexName();
    JoinRootedPlainName(dir, "index.html");
  }

  lemma HtmlExtension(prefix: string)
    requires prefix == [] || prefix[|prefix| - 1] == '/'
    ensures Extname(prefix + "index.html") == ".html"
  {
    IndexName();
    NamedExtension(prefix, "index", "html");
  }

  /** `ExtnameOfName` with the name written as one string. */
  lemma NamedExtension(prefix: string, stem: string, tail: string)
    requires prefix == [] || prefix[|prefix| - 1] == '/'
    requires stem != [] && stem != "." && '/' !in stem
    requires '/' !in tail && '.' !in tail
    ensures Extname(prefix + (stem + "." + tail)) == "." + tail
  {
    Associate(prefix, stem, tail);
    ExtnameOfName(prefix, stem, tail);
  }

  /** A one-segment URL is its own safe path. */
  lemma PlainUrl(name: string)
    requires IsPlainName(name)
    ensures SafePath("/" + name) == "/" + name
  {
    NormalizeRootedName(name);
    StripRooted("/" + name);
    assert ("/" + name)[1..] == name;
  }

  /** Normalising "/name" for a plain name changes nothing. */
  lemma NormalizeRootedName(name: string)
    requires IsPlainName(name)
    ensures NodePath.Normalize("/" + name) == "/" + name
  {
    SplitNoSeparator(name);
    SplitAround("", name);
    assert "" + "/" + name == "/" + name;
    var p := "/" + name;
    assert p[|p| - 1] == name[|name| - 1];
    assert name[|name| - 1] in name;
    CollapseName([], name);
  }

  /** A rooted path does not start with a parent reference. */
  lemma StripRooted(p: string)
    requires p != [] && p[0] == '/'
    ensures StripParentRefs(p) == p
  {
  }

  /** A request for "/stem.tail" is served from the file of that name in the
      public directory, typed by ".tail", and is 404 when there is no such
      file: a name with an extension never falls back to index.html. */
  lemma NamedFileRequest(dir: string, stem: string, tail: string, fs: FileSystem)
    requires dir != [] && dir[0] == '/'
    requires stem != [] && stem != "." && '/' !in stem
    requires '/' !in tail && '.' !in tail
    ensures var file := DirPrefix(dir) + stem + "." + tail;
      var ext := "." + tail;
      var r := StaticResponse(dir, "/" + stem + "." + tail, fs);
      (IsRegularFile(fs, file) && ReadFile(fs, file).Contents? ==>
         r == Response(200, map["Content-Type" := if ext in MimeTypes then MimeTypes[ext] else "application/octet-stream"],
                       Content(ReadFile(fs, file).bytes))) &&
      (!IsRegularFile(fs, file) ==> r == Response(404, map[], Message("Not found")))
  {
    var name := stem + "." + tail;
    NamedFileParts(dir, stem, tail);
    NamedRequest(dir, "/" + name, name, fs);
  }

  /** The facts about "stem.tail" that `NamedRequest` needs. */
  lemma NamedFileParts(dir: string, stem: string, tail: string)
    requires dir != [] && dir[0] == '/'
    requires stem != [] && stem != "." && '/' !in stem
    requires '/' !in tail && '.' !in tail
    ensures var name := stem + "." + tail; var ext := "." + tail;
      IsPlainName(name) && SafePath("/" + name) == "/" + name && Extname("/" + name) != "" &&
      "/" + stem + "." + tail == "/" + name &&
      DirPrefix(dir) + stem + "." + tail == DirPrefix(dir) + name &&
      ContentType(DirPrefix(dir) + name) == if ext in MimeTypes then MimeTypes[ext] else "application/octet-stream"
  {
    var name := stem + "." + tail;
    var d := DirPrefix(dir);
    DottedName(stem, tail);
    Associate("/", stem, tail);
    Associate(d, stem, tail);
    PlainUrl(name);
    ExtnameOfName(d, stem, tail);
    ExtnameOfName("/", stem, tail);
    ContentTypeTable(d + name);
  }

  lemma Associate(prefix: string, stem: string, tail: string)
    ensures prefix + stem + "." + tail == prefix + (stem + "." + tail)
  {
  }

  /** The query string is not split off: "/app.js?v=1" names the file
      "app.js?v=1", whose extension is ".js?v=1". */
  lemma QueryStringExtension()
    ensures Extname("/app.js?v=1") == ".js?v=1"
  {
    VersionedExtension("/");
    VersionedUrl();
  }

  lemma VersionedExtension(prefix: string)
    requires prefix == [] || prefix[|prefix| - 1] == '/'
    ensures Extname(prefix + "app.js?v=1") == ".js?v=1"
  {
    VersionedNameParts(prefix);
    VersionedNameSplit(prefix);
  }

  lemma VersionedNameParts(prefix: string)
    requires prefix == [] || prefix[|prefix| - 1] == '/'
    ensures Extname(prefix + "app" + "." + "js?v=1") == "." + "js?v=1"
  {
    assert '.' !in "js?v=1" && '/' !in "js?v=1" && '/' !in "app";
    ExtnameOfName(prefix, "app", "js?v=1");
  }

  lemma VersionedNameSplit(prefix: string)
    ensures prefix + "app.js?v=1" == prefix + "app" + "." + "js?v=1"
    ensures "." + "js?v=1" == ".js?v=1"
  {
  }

  /** ... so a versioned asset is typed application/octet-stream, and is 404
      when no file has the query string in its name. */
  lemma QueryStringStaysInTheName(dir: string, fs: FileSystem)
    requires dir != [] && dir[0] == '/'
    ensures var file := DirPrefix(dir) + "app.js?v=1";
      var r := StaticResponse(dir, "/app.js?v=1", fs);
      (IsRegularFile(fs, file) && ReadFile(fs, file).Contents? ==>
         r == Response(200, map["Content-Type" := "application/octet-stream"], Content(ReadFile(fs, file).bytes))) &&
      (!IsRegularFile(fs, file) ==> r == Response(404, map[], Message("Not found")))
  {
    var name := "app.js?v=1";
    VersionedIsPlain();
    VersionedExtension("/");
    VersionedExtension(DirPrefix(dir));
    VersionedUnlisted();
    VersionedUrl();
    UnlistedNamedRequest(dir, name, fs);
  }

  lemma VersionedIsPlain()
    ensures IsPlainName("app.js?v=1")
  {
  }

  lemma VersionedUnlisted()
    ensures ".js?v=1" !in MimeTypes && ".js?v=1" != ""
  {
  }

  lemma VersionedUrl()
    ensures "/" + "app.js?v=1" == "/app.js?v=1"
  {
  }

  /** A plain name whose extension is not in the table is served as
      application/octet-stream when the file exists, and is 404 when it
      does not. */
  lemma UnlistedNamedRequest(dir: string, name: string, fs: FileSystem)
    requires dir != [] && dir[0] == '/' && IsPlainName(name)
    requires Extname("/" + name) != "" && Extname(DirPrefix(dir) + name) !in MimeTypes
    ensures var file := DirPrefix(dir) + name;
      var r := StaticResponse(dir, "/" + name, fs);
      (IsRegularFile(fs, file) && ReadFile(fs, file).Contents? ==>
         r == Response(200, map["Content-Type" := "application/octet-stream"], Content(ReadFile(fs, file).bytes))) &&
      (!IsRegularFile(fs, file) ==> r == Response(404, map[], Message("Not found")))
  {
    var file := DirPrefix(dir) + name;
    PlainUrl(name);
    JoinRootedPlainName(dir, name);
    ContentTypeTable(file);
  }

  /** An extensionless client route ("/dashboard") with no file behind it is
      answered with the entry document. */
  lemma ClientRouteRequest(dir: string, name: string, fs: FileSystem)
    requires dir != [] && dir[0] == '/'
    requires IsPlainName(name) && '.' !in name[1..]
    ensures var file := DirPrefix(dir) + name;
      !IsRegularFile(fs, file) ==> StaticResponse(dir, "/" + name, fs) == IndexFallback(dir, fs)
  {
    PlainUrl(name);
    JoinRootedPlainName(dir, name);
    ExtnameWithoutDot("/", name);
  }
}

/** Request paths that start with '/' cannot leave the public directory;
    an absolute-form target, which does not, can reach its parent. */
module EdgeServerContainment {
  import opened EdgeServer
  import opened NodePath
  import opened NodePathFacts
  import opened NodePathSegments
  import opened NodePathContainment
  import opened EdgeServerFacts

  /** For a URL that starts with '/', as every origin-form request target
      does, the file path is the directory's own prefix followed by a
      relative remainder without any ".." segment. */
  lemma AbsoluteUrlStaysInside(dir: string, url: string)
    requires dir != [] && dir[0] == '/'
    requires url != [] && url[0] == '/'
    ensures var f := FilePath(dir, url); var d := DirPrefix(dir);
      |f| > |d| && f[..|d|] == d && ".." !in Split(f[|d|..])
  {
    NormalizeAbsolute(url);
    if AbsoluteSegments(url) == [] {
      CollapsedUrlInside(dir, url);
    } else {
      NamedUrlInside(dir, url);
    }
  }

  lemma CollapsedUrlInside(dir: string, url: string)
    requires dir != [] && dir[0] == '/'
    requires url != [] && url[0] == '/'
    requires Normalize(url) == "/"
    ensures var f := FilePath(dir, url); var d := DirPrefix(dir);
      |f| > |d| && f[..|d|] == d && ".." !in Split(f[|d|..])
  {
    assert StripParentRefs("/") == "/";
    assert SafePath(url) == "/index.html";
    RootFilePath(dir);
    IndexNameSplit();
    var d := DirPrefix(dir);
    var f := d + "index.html";
    assert f[|d|..] == "index.html";
  }

  lemma NamedUrlInside(dir: string, url: string)
    requires dir != [] && dir[0] == '/'
    requires url != [] && url[0] == '/'
    requires AbsoluteSegments(url) != [] && AllPlain(AbsoluteSegments(url))
    requires Normalize(url) == "/" + JoinSegments(AbsoluteSegments(url)) + TrailingMark(url)
    ensures var f := FilePath(dir, url); var d := DirPrefix(dir);
      |f| > |d| && f[..|d|] == d && ".." !in Split(f[|d|..])
  {
    var kept := AbsoluteSegments(url);
    var t := TrailingMark(url);
    var j := JoinSegments(kept);
    var n := "/" + j + t;
    JoinSegmentsNonEmpty(kept);
    assert StripParentRefs(n) == n;
    assert SafePath(url) == n;
    JoinNormalizedUnder(dir, kept, t);
    var d := DirPrefix(dir);
    var f := d + j + t;
    assert f == d + (j + t);
    SplitOfJoinedWithMark(kept, t);
    NoParentSegment(kept, if t == "/" then [""] else []);
  }

  lemma NoParentSegment(segs: seq<string>, tailSeg: seq<string>)
    requires AllPlain(segs) && tailSeg in {[], [""]}
    ensures ".." !in segs + tailSeg
  {
  }

  /** Leading ".." segments of an absolute URL stop at the root: a request
      for "/../../a/b" reads the file a/b of the public directory. */
  lemma TraversalIsClamped(dir: string, a: string, b: string)
    requires dir != [] && dir[0] == '/'
    requires IsPlainName(a) && IsPlainName(b)
    ensures SafePath("/../../" + a + "/" + b) == "/" + a + "/" + b
    ensures FilePath(dir, "/../../" + a + "/" + b) == DirPrefix(dir) + a + "/" + b
  {
    var url := "/../../" + a + "/" + b;
    TraversalNormalized(a, b);
    RootedPair(a, b);
    StripRooted("/" + a + "/" + b);
    JoinNormalizedUnder(dir, [a, b], "");
  }

  lemma TraversalNormalized(a: string, b: string)
    requires IsPlainName(a) && IsPlainName(b)
    ensures Normalize("/../../" + a + "/" + b) == "/" + a + "/" + b
  {
    var url := "/../../" + a + "/" + b;
    TraversalSegments(a, b);
    assert AbsoluteSegments(url) == [a, b];
    assert TrailingMark(url) == "" by {
      assert url[|url| - 1] == b[|b| - 1];
      assert b[|b| - 1] in b;
    }
    NormalizeAbsolute(url);
    RootedPair(a, b);
  }

  lemma RootedPair(a: string, b: string)
    ensures JoinSegments([a, b]) == a + "/" + b
    ensures "/" + JoinSegments([a, b]) + "" == "/" + a + "/" + b
    ensures AllPlain([a, b]) <==> IsPlainName(a) && IsPlainName(b)
  {
    assert [a, b][1..] == [b];
  }

  lemma TraversalSegments(a: string, b: string)
    requires IsPlainName(a) && IsPlainName(b)
    ensures Split("/../../" + a + "/" + b) == ["", "..", "..", a, b]
    ensures Collapse([], ["", "..", "..", a, b], true) == [a, b]
  {
    TraversalSplit(a, b);
    TraversalCollapse(a, b);
  }

  lemma TraversalSplit(a: string, b: string)
    requires IsPlainName(a) && IsPlainName(b)
    ensures Split("/../../" + a + "/" + b) == ["", "..", "..", a, b]
  {
    var ab := a + "/" + b;
    SplitNoSeparator(a);
    SplitNoSeparator(b);
    SplitAround(a, b);
    SplitParentThen(ab);
    SplitParentThen(".." + "/" + ab);
    SplitRootThen(".." + "/" + (".." + "/" + ab));
    TraversalSpelled(a, b);
  }

  lemma TraversalSpelled(a: string, b: string)
    ensures "/../../" + a + "/" + b == "/" + (".." + "/" + (".." + "/" + (a + "/" + b)))
  {
  }

  lemma SplitParentThen(x: string)
    ensures Split(".." + "/" + x) == [".."] + Split(x)
  {
    SplitNoSeparator("..");
    SplitAround("..", x);
  }

  lemma SplitRootThen(x: string)
    ensures Split("/" + x) == [""] + Split(x)
  {
    assert ("/" + x)[1..] == x;
  }

  lemma TraversalCollapse(a: string, b: string)
    requires IsPlainName(a) && IsPlainName(b)
    ensures Collapse([], ["", "..", "..", a, b], true) == [a, b]
  {
    var segs := ["", "..", "..", a, b];
    assert segs[1..] == ["..", "..", a, b];
    assert segs[1..][1..] == ["..", a, b];
    assert segs[1..][1..][1..] == [a, b];
    CollapsePlainPair(a, b);
    assert Collapse([], ["..", a, b], true) == [a, b];
    assert Collapse([], ["..", "..", a, b], true) == [a, b];
  }

  lemma CollapsePlainPair(a: string, b: string)
    requires IsPlainName(a) && IsPlainName(b)
    ensures Collapse([], [a, b], true) == [a, b]
  {
    CollapsePlain([], [a, b], true);
  }

  /** The absolute-form request target "scheme://host/../../..". */
  function AbsoluteFormTarget(scheme: string, host: string): string {
    scheme + "/" + ("/" + (host + "/" + (".." + "/" + (".." + "/" + ".."))))
  }

  /** An absolute-form request target does not start with '/': `normalize`
      treats it as a relative path and keeps one "..", the strip leaves that
      ".." alone because no separator follows it, and the file path is the
      parent of the public directory. When no regular file is there (it is
      a directory), the request gets the index fallback. */
  lemma AbsoluteFormReachesParent(dir: string, scheme: string, host: string, fs: FileSystem)
    requires dir != [] && dir[0] == '/'
    requires IsPlainName(scheme) && IsPlainName(host)
    ensures SafePath(AbsoluteFormTarget(scheme, host)) == ".."
    ensures var kept := AbsoluteSegments(dir);
      FilePath(dir, AbsoluteFormTarget(scheme, host))
        == if |kept| <= 1 then "/" else "/" + JoinSegments(kept[..|kept| - 1])
    ensures !IsRegularFile(fs, FilePath(dir, AbsoluteFormTarget(scheme, host)))
      ==> StaticResponse(dir, AbsoluteFormTarget(scheme, host), fs) == IndexFallback(dir, fs)
  {
    TargetNormalized(scheme, host);
    assert StripParentRefs("..") == "..";
    ParentJoin(dir);
    ParentExtension();
  }

  lemma TargetNormalized(scheme: string, host: string)
    requires IsPlainName(scheme) && IsPlainName(host)
    ensures Normalize(AbsoluteFormTarget(scheme, host)) == ".."
  {
    var url := AbsoluteFormTarget(scheme, host);
    TargetSplit(scheme, host);
    TargetCollapse(scheme, host);
    assert url[0] == scheme[0] by {
      assert scheme[0] in scheme;
    }
    assert url[|url| - 1] == '.';
    assert JoinSegments([".."]) == "..";
  }

  lemma TargetSplit(scheme: string, host: string)
    requires IsPlainName(scheme) && IsPlainName(host)
    ensures Split(AbsoluteFormTarget(scheme, host)) == [scheme, "", host, "..", "..", ".."]
  {
    var a := ".." + "/" + "..";
    var b := ".." + "/" + a;
    var c := host + "/" + b;
    SplitNamedThen("..", "..");
    SplitNoSeparator("..");
    SplitNamedThen("..", a);
    SplitNamedThen(host, b);
    SplitRootThen(c);
    SplitNamedThen(scheme, "/" + c);
  }

  lemma SplitNamedThen(name: string, x: string)
    requires '/' !in name
    ensures Split(name + "/" + x) == [name] + Split(x)
  {
    SplitNoSeparator(name);
    SplitAround(name, x);
  }

  lemma TargetCollapse(scheme: string, host: string)
    requires IsPlainName(scheme) && IsPlainName(host)
    ensures Collapse([], [scheme, "", host, "..", "..", ".."], false) == [".."]
  {
    var segs := [scheme, "", host, "..", "..", ".."];
    UpPastTwo(scheme, host);
    assert segs[1..] == ["", host, "..", "..", ".."];
    assert segs[1..][1..] == [host, "..", "..", ".."];
    assert segs[1..][1..][1..] == ["..", "..", ".."];
    assert [] + [scheme] == [scheme] && [scheme] + [host] == [scheme, host];
    assert Collapse([scheme], [host, "..", "..", ".."], false) == [".."];
    assert Collapse([scheme], ["", host, "..", "..", ".."], false) == [".."];
  }

  /** Three `..` segments pop two plain names and then, on an empty stack
      of a relative path, are kept. */
  lemma UpPastTwo(a: string, b: string)
    requires IsPlainName(a) && IsPlainName(b)
    ensures Collapse([a, b], ["..", "..", ".."], false) == [".."]
  {
    assert Collapse([], [".."], false) == [".."];
    assert [a][..0] == [];
    assert Collapse([a], ["..", ".."], false) == [".."];
    assert [a, b][..1] == [a];
  }

  /** `path.join(dir, "..")` drops the directory's last kept segment. */
  lemma ParentJoin(dir: string)
    requires dir != [] && dir[0] == '/'
    ensures var kept := AbsoluteSegments(dir);
      Join(dir, "..") == if |kept| <= 1 then "/" else "/" + JoinSegments(kept[..|kept| - 1])
  {
    var kept := AbsoluteSegments(dir);
    var p := dir + "/" + "..";
    NormalizeAbsolute(dir);
    SplitNoSeparator("..");
    SplitAround(dir, "..");
    CollapseAppend([], Split(dir), [".."], true);
    if kept != [] {
      assert IsPlainName(kept[|kept| - 1]);
    }
    assert p[0] == '/' && p[|p| - 1] == '.';
  }

  lemma ParentExtension()
    ensures Extname("..") == ""
  {
    assert LastComponent("..") == "..";
  }

  lemma IndexNameSplit()
    ensures Split("index.html") == ["index.html"]
    ensures ".." !in ["index.html"]
  {
    assert '/' !in "index.html";
    SplitNoSeparator("index.html");
  }
}
