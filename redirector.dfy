/**
  The request handler of the documentation redirector: where the content
  version is read from, how the backing-store path of a request is composed,
  and what the handler writes into the response.

  Reads from Cloud Storage and over HTTP are foreign calls; they are given to
  the handler as one function `store` from a key or URL to its contents, where
  `None` stands for a read that raises.
 */
module Redirector {
  import opened Wrappers
  import opened PyStr
  import opened CachePolicy

  // Development server: the bucket's public HTTP root and its version marker.
  const LOCAL_PATH: string := "http://dartlang-docgen.storage.googleapis.com/"
  const LOCAL_VERSION: string := "http://dartlang-docgen.storage.googleapis.com/VERSION"

  // App Engine: the bucket's Cloud Storage root and its version marker.
  const GS_PATH: string := "/gs/dartlang-docgen/"
  const GS_VERSION: string := "/gs/dartlang-docgen/VERSION"

  /** The string whose length is cut off the front of the request path. */
  const DOCS: string := "docs/"

  /** The prefix every request routed to the handler has. */
  const ROUTE_PREFIX: string := "/docs/"

  /** The value of `SERVER_SOFTWARE` that marks the development server. */
  const DEVELOPMENT: string := "Development"

  // ---------------------------------------------------------------------
  // Root selection
  // ---------------------------------------------------------------------

  datatype Mode = Local | GoogleStorage

  /** The branch taken by `get`. */
  function ModeFor(serverSoftware: string): (m: Mode)
    ensures m == Local <==> StartsWith(serverSoftware, DEVELOPMENT)
  {
    if StartsWith(serverSoftware, DEVELOPMENT) then Local else GoogleStorage
  }

  /** The backing-store root of a mode. */
  function Root(m: Mode): (r: string)
    ensures |r| > 0 && r[|r| - 1] == '/'
  {
    match m
    case Local => LOCAL_PATH
    case GoogleStorage => GS_PATH
  }

  /** Where a mode reads the content version from. */
  function VersionKey(m: Mode): (k: string)
    ensures k == Root(m) + "VERSION"
  {
    match m
    case Local => LOCAL_VERSION
    case GoogleStorage => GS_VERSION
  }

  /** The development server reads from the HTTP root, App Engine from the
      Cloud Storage root, and each mode's version marker is the object
      `VERSION` directly under its root. */
  lemma RootSelection(serverSoftware: string)
    ensures Root(ModeFor(serverSoftware))
         == if StartsWith(serverSoftware, DEVELOPMENT) then LOCAL_PATH else GS_PATH
    ensures VersionKey(ModeFor(serverSoftware)) == Root(ModeFor(serverSoftware)) + "VERSION"
  {
  }

  // ---------------------------------------------------------------------
  // Path composition
  // ---------------------------------------------------------------------

  /** `root + version + request.path[len('docs/'):]`: the root and the version
      verbatim, then the request path without its first five characters,
      whatever they are. */
  function ComposePath(root: string, version: string, requestPath: string): (p: string)
    ensures StartsWith(p, root + version)
    ensures |p| == |root| + |version| + if |requestPath| <= |DOCS| then 0 else |requestPath| - |DOCS|
    ensures forall i :: |DOCS| <= i < |requestPath| ==> p[|root| + |version| + i - |DOCS|] == requestPath[i]
  {
    var p := root + version + SliceFrom(requestPath, |DOCS|);
    assert p[..|root + version|] == root + version;
    p
  }

  /** The path a mode composes for a request: both modes follow the same rule
      and differ only in the root. */
  function ComposedPath(m: Mode, version: string, requestPath: string): string {
    ComposePath(Root(m), version, requestPath)
  }

  /** Past the root, the composed path does not depend on the root: the two
      modes compose the same path under their different roots. */
  lemma RootOnlyDiffers(root1: string, root2: string, version: string, requestPath: string)
    ensures ComposePath(root1, version, requestPath)[|root1|..]
         == ComposePath(root2, version, requestPath)[|root2|..]
  {
    var rest := version + SliceFrom(requestPath, |DOCS|);
    assert ComposePath(root1, version, requestPath) == root1 + rest;
    assert ComposePath(root2, version, requestPath) == root2 + rest;
  }

  /** For a routed request `/docs/<rest>` the five characters cut off are `/docs`,
      so the composed path is the root, the version, a slash and the rest. */
  lemma ComposeRoutedRequest(root: string, version: string, rest: string)
    ensures ComposePath(root, version, ROUTE_PREFIX + rest) == root + version + "/" + rest
  {
    assert (ROUTE_PREFIX + rest)[|DOCS|..] == "/" + rest;
  }

  /** Version `42` and the request `/docs/a/b.js` give `<root>42/a/b.js`. */
  lemma ComposeExample(root: string)
    ensures ComposePath(root, "42", "/docs/a/b.js") == root + "42/a/b.js"
  {
    ComposeRoutedRequest(root, "42", "a/b.js");
  }

  /** Requests shorter than five characters leave nothing after the version. */
  lemma ComposeShortRequest(root: string, version: string, requestPath: string)
    requires |requestPath| <= |DOCS|
    ensures ComposePath(root, version, requestPath) == root + version
  {
  }

  /** Under one root and one version, distinct routed requests compose
      distinct paths. */
  lemma ComposeInjective(root: string, version: string, r1: string, r2: string)
    requires StartsWith(r1, ROUTE_PREFIX) && StartsWith(r2, ROUTE_PREFIX)
    requires ComposePath(root, version, r1) == ComposePath(root, version, r2)
    ensures r1 == r2
  {
    var p := ComposePath(root, version, r1);
    assert |r1| == |r2|;
    forall i | 0 <= i < |r1|
      ensures r1[i] == r2[i]
    {
      if i < |DOCS| {
        assert r1[i] == r1[..|ROUTE_PREFIX|][i] == r2[..|ROUTE_PREFIX|][i] == r2[i];
      } else {
        assert r1[i] == p[|root| + |version| + i - |DOCS|] == r2[i];
      }
    }
  }

  /** The lifetime is taken from the composed path, but for a routed request
      it is decided by the part after the version alone: neither the root nor
      the version can change it. */
  lemma CacheAgeOfRoutedRequest(root: string, version: string, requestPath: string)
    requires StartsWith(requestPath, ROUTE_PREFIX)
    ensures CacheAge(ComposePath(root, version, requestPath)) == CacheAge(SliceFrom(requestPath, |DOCS|))
  {
    var rest := SliceFrom(requestPath, |DOCS|);
    assert rest[0] == requestPath[|DOCS|] == ROUTE_PREFIX[|DOCS|] == '/';
    assert ComposePath(root, version, requestPath) == (root + version) + rest;
    CacheAgeAfterSlash(root + version, rest);
  }

  /** Whatever the request, a remainder of at least four characters decides
      the lifetime on its own. */
  lemma CacheAgeOfLongRemainder(root: string, version: string, requestPath: string)
    requires |requestPath| >= |DOCS| + 4
    ensures CacheAge(ComposePath(root, version, requestPath)) == CacheAge(SliceFrom(requestPath, |DOCS|))
  {
    var rest := SliceFrom(requestPath, |DOCS|);
    assert ComposePath(root, version, requestPath) == (root + version) + rest;
    CacheAgeOfLongSuffix(root + version, rest);
  }

  /** Unrouted and short, the request `/docsng` leaves the remainder `ng`, and a
      version ending in `p` turns the composed path into an image path. */
  lemma CacheAgeOfShortRemainder()
    ensures CacheAge(SliceFrom("/docsng", |DOCS|)) == ONE_HOUR
    ensures CacheAge(ComposePath(GS_PATH, "1p", "/docsng")) == ONE_DAY
  {
    assert SliceFrom("/docsng", |DOCS|) == "ng";
    assert ComposePath(GS_PATH, "1p", "/docsng") == "/gs/dartlang-docgen/1png";
  }

  // ---------------------------------------------------------------------
  // The handler
  // ---------------------------------------------------------------------

  /** The parts of the response the handler writes. */
  class Response {
    /** `response.headers` */
    var headers: map<string, string>
    /** what was written to `response.out` */
    var body: string
    /** the Cloud Storage object handed to `send_blob`, if any */
    var blob: Option<string>

    constructor ()
      ensures headers == map[] && body == "" && blob == None
    {
      headers := map[];
      body := "";
      blob := None;
    }
  }

  class RequestHandler {
    /** `request.path` */
    const requestPath: string
    const response: Response

    constructor (requestPath: string, response: Response)
      ensures this.requestPath == requestPath && this.response == response
    {
      this.requestPath := requestPath;
      this.response := response;
    }

    /** Sets `Cache-Control` from the lifetime of `path` and touches nothing else. */
    method HandleCacheAge(path: string)
      modifies response
      ensures response.headers == old(response.headers)[CACHE_CONTROL := CacheControlValue(CacheAge(path))]
      ensures response.body == old(response.body) && response.blob == old(response.blob)
    {
      var age: nat;
      if HasImageSuffix(path) {
        age := ONE_DAY;
      } else if EndsWith(path, ".ico") {
        age := ONE_WEEK;
      } else {
        age := ONE_HOUR;
      }
      response.headers := response.headers[CACHE_CONTROL := MAX_AGE + NatToDecimal(age) + S_MAXAGE + NatToDecimal(age)];
    }

    /** Development server: read the version over HTTP, then the content, then
        set the lifetime and write the content. A read that raises ends the
        request before anything is written. */
    method GetLocal(store: string -> Option<string>) returns (completed: bool)
      modifies response
      ensures store(LOCAL_VERSION).None? ==> !completed && unchanged(response)
      ensures store(LOCAL_VERSION).Some? ==>
        var path := ComposePath(LOCAL_PATH, store(LOCAL_VERSION).value, requestPath);
        && completed == store(path).Some?
        && (!completed ==> unchanged(response))
        && (completed ==>
              && response.headers == old(response.headers)[CACHE_CONTROL := CacheControlValue(CacheAge(path))]
              && response.body == old(response.body) + store(path).value
              && response.blob == old(response.blob))
    {
      var version := store(LOCAL_VERSION);
      if version.None? {
        return false;
      }
      var path := LOCAL_PATH + version.value + SliceFrom(requestPath, |DOCS|);
      var result := store(path);
      if result.None? {
        return false;
      }
      HandleCacheAge(path);
      response.body := response.body + result.value;
      completed := true;
    }

    /** App Engine: read the version from Cloud Storage, set the lifetime and
        hand the object at the composed path to `send_blob`. The object itself
        is not read here; only the version read is taken to raise, and
        `create_gs_key` is taken not to fail. */
    method GetGoogleStorage(store: string -> Option<string>) returns (completed: bool)
      modifies response
      ensures completed == store(GS_VERSION).Some?
      ensures !completed ==> unchanged(response)
      ensures completed ==>
        var path := ComposePath(GS_PATH, store(GS_VERSION).value, requestPath);
        && response.headers == old(response.headers)[CACHE_CONTROL := CacheControlValue(CacheAge(path))]
        && response.body == old(response.body)
        && response.blob == Some(path)
    {
      var version := store(GS_VERSION);
      if version.None? {
        return false;
      }
      var path := GS_PATH + version.value + SliceFrom(requestPath, |DOCS|);
      HandleCacheAge(path);
      response.blob := Some(path);
      completed := true;
    }

    /** Dispatches on `SERVER_SOFTWARE`. In both modes a completed request has
        its lifetime set from the path composed under that mode's root. */
    method Get(serverSoftware: string, store: string -> Option<string>) returns (completed: bool)
      modifies response
      ensures var m := ModeFor(serverSoftware);
        completed ==> (store(VersionKey(m)).Some? &&
          response.headers == old(response.headers)[CACHE_CONTROL :=
            CacheControlValue(CacheAge(ComposedPath(m, store(VersionKey(m)).value, requestPath)))])
      ensures !completed ==> unchanged(response)
      ensures ModeFor(serverSoftware) == Local ==>
        completed == (store(LOCAL_VERSION).Some? &&
                      store(ComposePath(LOCAL_PATH, store(LOCAL_VERSION).value, requestPath)).Some?)
      ensures ModeFor(serverSoftware) == Local && completed ==>
        var path := ComposePath(LOCAL_PATH, store(LOCAL_VERSION).value, requestPath);
        && store(path).Some?
        && response.body == old(response.body) + store(path).value
        && response.blob == old(response.blob)
      ensures ModeFor(serverSoftware) == GoogleStorage ==>
        && completed == store(GS_VERSION).Some?
        && (completed ==>
              && response.body == old(response.body)
              && response.blob == Some(ComposePath(GS_PATH, store(GS_VERSION).value, requestPath)))
    {
      if StartsWith(serverSoftware, DEVELOPMENT) {
        completed := GetLocal(store);
      } else {
        completed := GetGoogleStorage(store);
      }
    }
  }

}
