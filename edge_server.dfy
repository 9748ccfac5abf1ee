/** The request handler of server.js: requests whose URL starts with
    "/SFCAPI" are forwarded to the fixed upstream host; every other request
    is served from the public directory, with index.html as the fallback for
    extensionless paths. The filesystem is a map from path to entry and the
    upstream is an oracle from the forwarded request to its reply. */
module EdgeServer {
  import opened Wrappers
  import opened Text
  import NodePath

  type byte = b: int | 0 <= b < 256

  const ApiPrefix := "/SFCAPI"
  const UpstreamHost := "10.16.137.111"
  const UpstreamPort := 80

  /** A response body: a short text the server writes itself, or raw bytes
      passed through from a file or from the upstream. */
  datatype Body = Message(text: string) | Content(bytes: seq<byte>)

  datatype Response = Response(status: int, headers: map<string, string>, body: Body)

  /** The options object handed to `http.request`. */
  datatype ProxyOptions = ProxyOptions(hostname: string, port: int, path: string, verb: string, headers: map<string, string>)

  /** What the upstream exchange ends in: a reply, or an `error` event. */
  datatype UpstreamReply = Reply(status: int, headers: map<string, string>, body: seq<byte>) | Failure(message: string)

  datatype ReadResult = Contents(bytes: seq<byte>) | Unreadable

  /** A filesystem entry: a regular file (whose read may fail) or anything
      else `fs.stat` reports as not a file. */
  datatype FsEntry = File(content: ReadResult) | Directory

  type FileSystem = map<string, FsEntry>

  // ---------------------------------------------------------------- routing

  predicate IsApiPath(url: string) {
    StartsWith(url, ApiPrefix)
  }

  /** The forwarded request: same path (query included) and method, port 80,
      and the inbound headers without `host`. */
  function ForwardedRequest(url: string, verb: string, headers: map<string, string>): (r: ProxyOptions)
    ensures r.hostname == UpstreamHost && r.port == 80
    ensures r.path == url && r.verb == verb
    ensures forall k :: k in r.headers <==> k in headers && k != "host"
    ensures forall k :: k in r.headers ==> r.headers[k] == headers[k]
  {
    ProxyOptions(UpstreamHost, UpstreamPort, url, verb, headers - {"host"})
  }

  /** The upstream's status, headers and body are relayed as they are; an
      upstream error is answered with 500 "Proxy Error". */
  function ProxyResponse(reply: UpstreamReply): (r: Response)
    ensures reply.Failure? ==> r == Response(500, map[], Message("Proxy Error"))
    ensures reply.Reply? ==> r.status == reply.status && r.headers == reply.headers && r.body == Content(reply.body)
  {
    match reply
    case Reply(status, headers, body) => Response(status, headers, Content(body))
    case Failure(_) => Response(500, map[], Message("Proxy Error"))
  }

  // ------------------------------------------------------- static file path

  predicate StartsWithParentRef(s: string) {
    |s| >= 3 && s[0] == '.' && s[1] == '.' && (s[2] == '/' || s[2] == '\\')
  }

  /** A string made of "../" and "..\" pieces only. */
  predicate IsParentRefRun(p: string)
    decreases |p|
  {
    p == [] || (StartsWithParentRef(p) && IsParentRefRun(p[3..]))
  }

  /** `.replace(/^(\.\.[\/\\])+/, '')`: removes the leading run of "../" and
      "..\" pieces, and only that run. */
  function StripParentRefs(s: string): (r: string)
    ensures |r| <= |s| && r == s[|s| - |r|..]
    ensures IsParentRefRun(s[..|s| - |r|])
    ensures !StartsWithParentRef(r)
    decreases |s|
  {
    if StartsWithParentRef(s) then
      var r := StripParentRefs(s[3..]);
      assert s[..|s| - |r|][3..] == s[3..][..|s[3..]| - |r|];
      r
    else s
  }

  /** `safePath` after its two assignments. */
  function SafePath(url: string): (r: string)
    ensures StripParentRefs(NodePath.Normalize(url)) == "/" ==> r == "/index.html"
    ensures StripParentRefs(NodePath.Normalize(url)) != "/" ==> r == StripParentRefs(NodePath.Normalize(url))
    ensures !StartsWithParentRef(r)
  {
    var p := StripParentRefs(NodePath.Normalize(url));
    if p == "/" then "/index.html" else p
  }

  function FilePath(publicDir: string, url: string): string {
    NodePath.Join(publicDir, SafePath(url))
  }

  function IndexPath(publicDir: string): string {
    NodePath.Join(publicDir, "index.html")
  }

  /** `fs.stat`: a path with a trailing separator names only directories
      (on a regular file the call fails with ENOTDIR). */
  function Stat(fs: FileSystem, p: string): Option<FsEntry> {
    if p in fs then Some(fs[p])
    else if |p| > 1 && p[|p| - 1] == '/' && p[..|p| - 1] in fs && fs[p[..|p| - 1]].Directory? then Some(Directory)
    else None
  }

  predicate IsRegularFile(fs: FileSystem, p: string) {
    var st := Stat(fs, p);
    st.Some? && st.value.File?
  }

  /** `fs.readFile`: fails for a missing path and for a directory. */
  function ReadFile(fs: FileSystem, p: string): ReadResult {
    var st := Stat(fs, p);
    if st.Some? && st.value.File? then st.value.content else Unreadable
  }

  const MimeTypes: map<string, string> := map[
    ".js" := "text/javascript", ".css" := "text/css", ".json" := "application/json",
    ".png" := "image/png", ".jpg" := "image/jpg", ".svg" := "image/svg+xml",
    ".html" := "text/html"]

  /** `getContentType`: a switch on the extension of the path. */
  function ContentType(filePath: string): string {
    var ext := NodePath.Extname(filePath);
    if ext == ".js" then "text/javascript"
    else if ext == ".css" then "text/css"
    else if ext == ".json" then "application/json"
    else if ext == ".png" then "image/png"
    else if ext == ".jpg" then "image/jpg"
    else if ext == ".svg" then "image/svg+xml"
    else if ext == ".html" then "text/html"
    else "application/octet-stream"
  }

  lemma ContentTypeTable(filePath: string)
    ensures var ext := NodePath.Extname(filePath);
      ContentType(filePath) == if ext in MimeTypes then MimeTypes[ext] else "application/octet-stream"
  {
    MimeTypeOf(NodePath.Extname(filePath));
  }

  lemma MimeTypeOf(ext: string)
    ensures ext in MimeTypes <==> ext in {".js", ".css", ".json", ".png", ".jpg", ".svg", ".html"}
    ensures ext == ".js" ==> MimeTypes[ext] == "text/javascript"
    ensures ext == ".css" ==> MimeTypes[ext] == "text/css"
    ensures ext == ".json" ==> MimeTypes[ext] == "application/json"
    ensures ext == ".png" ==> MimeTypes[ext] == "image/png"
    ensures ext == ".jpg" ==> MimeTypes[ext] == "image/jpg"
    ensures ext == ".svg" ==> MimeTypes[ext] == "image/svg+xml"
    ensures ext == ".html" ==> MimeTypes[ext] == "text/html"
  {
  }

  /** The entry document, served for extensionless paths with no file. */
  function IndexFallback(publicDir: string, fs: FileSystem): Response {
    match ReadFile(fs, IndexPath(publicDir))
    case Contents(b) => Response(200, map["Content-Type" := "text/html"], Content(b))
    case Unreadable => Response(500, map[], Message("Error loading index.html"))
  }

  /** The `fs.stat` callback, once the safe path and the file path are
      known. */
  function ServeFile(publicDir: string, safe: string, filePath: string, fs: FileSystem): Response {
    if IsRegularFile(fs, filePath) then
      match ReadFile(fs, filePath)
      case Contents(b) => Response(200, map["Content-Type" := ContentType(filePath)], Content(b))
      case Unreadable => Response(500, map[], Message("Server Error"))
    else if NodePath.Extname(safe) == "" then IndexFallback(publicDir, fs)
    else Response(404, map[], Message("Not found"))
  }

  function StaticResponse(publicDir: string, url: string, fs: FileSystem): Response {
    ServeFile(publicDir, SafePath(url), FilePath(publicDir, url), fs)
  }

  /** The whole handler as a function of the request, the filesystem and the
      upstream. */
  function Respond(publicDir: string, url: string, verb: string, headers: map<string, string>,
                   fs: FileSystem, upstream: ProxyOptions -> UpstreamReply): Response
  {
    if IsApiPath(url) then ProxyResponse(upstream(ForwardedRequest(url, verb, headers)))
    else StaticResponse(publicDir, url, fs)
  }

  // ------------------------------------------------------ the live objects

  /** `req`: the inbound request; its headers object is the one the proxy
      branch edits. */
  class IncomingMessage {
    const url: string
    const verb: string
    var headers: map<string, string>

    constructor (url: string, verb: string, headers: map<string, string>)
      ensures this.url == url && this.verb == verb && this.headers == headers
    {
      this.url := url;
      this.verb := verb;
      this.headers := headers;
    }
  }

  /** `res`: status and headers set by `writeHead`, body by `end`. */
  class ServerResponse {
    var statusCode: int
    var headers: map<string, string>
    var body: Body
    var finished: bool

    constructor ()
      ensures statusCode == 200 && headers == map[] && body == Message("") && !finished
    {
      statusCode, headers, body, finished := 200, map[], Message(""), false;
    }

    function Sent(): Response
      reads this
    {
      Response(statusCode, headers, body)
    }

    method WriteHead(status: int, hdrs: map<string, string>)
      requires !finished
      modifies this
      ensures statusCode == status && headers == hdrs && body == old(body) && !finished
    {
      statusCode, headers := status, hdrs;
    }

    method End(b: Body)
      requires !finished
      modifies this
      ensures finished && body == b && statusCode == old(statusCode) && headers == old(headers)
    {
      body, finished := b, true;
    }
  }

  /** The `http.createServer` callback. On the proxy branch `options.headers`
      is `req.headers` itself, so deleting `host` from the options removes it
      from the request; the forwarded options are returned. */
  method Handle(req: IncomingMessage, res: ServerResponse, publicDir: string, fs: FileSystem,
                upstream: ProxyOptions -> UpstreamReply) returns (forwarded: Option<ProxyOptions>)
    requires !res.finished
    modifies req, res
    ensures res.finished
    ensures res.Sent() == Respond(publicDir, req.url, req.verb, old(req.headers), fs, upstream)
    ensures IsApiPath(req.url) ==> req.headers == old(req.headers) - {"host"}
    ensures IsApiPath(req.url) ==> forwarded == Some(ForwardedRequest(req.url, req.verb, old(req.headers)))
    ensures IsApiPath(req.url) ==> forwarded.value.headers == req.headers
    ensures !IsApiPath(req.url) ==> req.headers == old(req.headers) && forwarded == None
  {
    if StartsWith(req.url, ApiPrefix) {
      var options := Forward(req, res, upstream);
      return Some(options);
    }
    ServeStatic(req.url, res, publicDir, fs);
    return None;
  }

  /** The proxy branch. */
  method Forward(req: IncomingMessage, res: ServerResponse, upstream: ProxyOptions -> UpstreamReply)
    returns (options: ProxyOptions)
    requires !res.finished
    modifies req, res
    ensures res.finished
    ensures options == ForwardedRequest(req.url, req.verb, old(req.headers))
    ensures req.headers == old(req.headers) - {"host"} && options.headers == req.headers
    ensures res.Sent() == ProxyResponse(upstream(options))
  {
    options := ProxyOptions(UpstreamHost, UpstreamPort, req.url, req.verb, req.headers);
    req.headers := req.headers - {"host"};
    options := options.(headers := req.headers);
    match upstream(options)
    case Reply(status, headers, body) =>
      res.WriteHead(status, headers);
      res.End(Content(body));
    case Failure(_) =>
      res.WriteHead(500, map[]);
      res.End(Message("Proxy Error"));
  }

  /** The static branch: the `fs.stat` / `fs.readFile` decision tree. */
  method ServeStatic(url: string, res: ServerResponse, publicDir: string, fs: FileSystem)
    requires !res.finished
    modifies res
    ensures res.finished
    ensures res.Sent() == StaticResponse(publicDir, url, fs)
  {
    var safePath := StripParentRefs(NodePath.Normalize(url));
    if safePath == "/" {
      safePath := "/index.html";
    }
    assert safePath == SafePath(url);
    var filePath := NodePath.Join(publicDir, safePath);

    if !IsRegularFile(fs, filePath) {
      if NodePath.Extname(safePath) == "" {
        match ReadFile(fs, NodePath.Join(publicDir, "index.html"))
        case Unreadable =>
          res.WriteHead(500, map[]);
          res.End(Message("Error loading index.html"));
        case Contents(content) =>
          res.WriteHead(200, map["Content-Type" := "text/html"]);
          res.End(Content(content));
      } else {
        res.WriteHead(404, map[]);
        res.End(Message("Not found"));
      }
    } else {
      match ReadFile(fs, filePath)
      case Unreadable =>
        res.WriteHead(500, map[]);
        res.End(Message("Server Error"));
      case Contents(content) =>
        res.WriteHead(200, map["Content-Type" := ContentType(filePath)]);
        res.End(Content(content));
    }
  }
}
