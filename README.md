# Documentation redirector: cache policy and path composition

This project models the App Engine request handler `scripts/redirector.py` of
the Dart documentation viewer. The handler serves documentation assets from
Cloud Storage. It does three things for each request under `/docs/`:

1. It picks a root by where it runs. On the development server it uses the
   public HTTP address of the `dartlang-docgen` bucket. On App Engine it uses
   the `/gs/dartlang-docgen/` Cloud Storage path.
2. It reads the current content version from the `VERSION` object under that
   root. It composes the backing-store path as `root + version +
   request.path[len('docs/'):]`.
3. It sets `Cache-Control` from the composed path. Paths ending in `png` or
   `jpg` get one day. Paths ending in `.ico` get one week. Everything else gets
   one hour.

On the development server it then writes the fetched content to the response.
On App Engine it hands the object to `send_blob`.

The model follows the code as written, which matters in four places:

- The first five characters of the request path are cut off by position and
  never checked. For a routed request `/docs/x` they are `/docs`, so the
  remainder keeps its leading `/`.
- The version is concatenated verbatim, with no trimming and no separator.
- There is no `..` rejection.
- The image test is Python's `re.search(r'(png|jpg)$', path)`. It needs no dot,
  and Python's `$` also matches just before a single trailing newline. So
  `xpng` and `x.png\n` both get one day, while `x.ico\n` gets one hour.

The handler does not validate the prefix, reject `..`, trim the version,
insert a `/` between version and remainder, or switch caching off on the
development server. The model does none of these either.

Modules:

- `Wrappers` (`wrappers.dfy`) holds `Option`.
- `PyStr` (`pystr.dfy`) models the Python built-ins the handler uses:
  `startswith`, `endswith`, the slice `s[k:]` and `str(n)`.
- `CachePolicy` (`cache_policy.dfy`) holds the lifetimes, the image pattern,
  the lifetime of a path and the `Cache-Control` value. It also has a reader
  for that value, which is the partner of the writer.
- `Redirector` (`redirector.dfy`) holds the constants, root selection, path
  composition and the handler. `Response` is the mutable response: its header
  map, its body and the blob handed to `send_blob`. `RequestHandler` holds the
  request path and the four handler methods.

Foreign reads (`urllib2.urlopen(...).read()` and `BlobReader.read()`) are one
parameter, `store: string -> Option<string>`. It maps a URL or a Cloud Storage
path to its contents. `None` stands for a read that raises. A raised exception
ends the handler, so a method that does not complete leaves the response
unchanged. `os.environ['SERVER_SOFTWARE']` is a string parameter.

## Model

| member | source | states |
|---|---|---|
| `CachePolicy.LifetimesOrdered` | scripts/redirector.py:23-25 | `ONE_HOUR` is 3600, `ONE_DAY` is 24 hours (86400) and `ONE_WEEK` is 7 days (604800); `0 < ONE_HOUR < ONE_DAY < ONE_WEEK` |
| `CachePolicy.HasImageSuffix` | scripts/redirector.py:60 | the executable image test holds exactly when `re.search` finds the image pattern (its meaning comes from `ImageSuffixIsPatternSearch`) |
| `CachePolicy.ImageSuffixIsPatternSearch` | scripts/redirector.py:60 | the suffix test (ends in `png`/`jpg`, or in one of them followed by one final newline) holds exactly when the image pattern (`png` or `jpg`, then the end anchor) is found at some position under Python's `$` semantics, both directions |
| `CachePolicy.CacheAge` | scripts/redirector.py:57-65 | the age is `ONE_DAY` iff the image pattern is found; `ONE_WEEK` iff it is not found and the path ends in `.ico`; `ONE_HOUR` iff neither — first match wins, and the three cases are exclusive and exhaustive |
| `CachePolicy.CacheAgeIsLifetime` | scripts/redirector.py:59-65 | every path gets one of the three lifetimes, so the age is never unset and always at least one hour |
| `CachePolicy.CacheAgeExamples` | scripts/redirector.py:60-65 | `x.png`, `x.jpg`, `xpng`, `x.png\n` get 86400; `x.ico` gets 604800; `x.html`, `x`, `x.ico\n` and the empty path get 3600 |
| `CachePolicy.CacheAgeOfLongSuffix` | scripts/redirector.py:60-65 | the lifetime of `prefix + rest` equals the lifetime of `rest` whenever `rest` has at least four characters |
| `CachePolicy.CacheAgeAfterSlash` | scripts/redirector.py:60-65 | the lifetime of `prefix + rest` equals that of `rest` whenever `rest` starts with `/`, whatever its length |
| `PyStr.NatToDecimal` | scripts/redirector.py:66-67 | `str(age)` is a non-empty string of decimal digits that starts with `0` only for zero |
| `PyStr.DecimalRoundTrip` | scripts/redirector.py:66-67 | reading back the digits written by `str(n)` gives `n` |
| `CachePolicy.ParseRender` | scripts/redirector.py:66-67 | the string `'max-age=' + str(a) + ',s-maxage=' + str(b)` reads back as exactly the pair `(a, b)` |
| `CachePolicy.Render` | scripts/redirector.py:66-67 | the value `max-age=<a>,s-maxage=<b>` built from a directive reads back as that directive (proved by `ParseRender`) |
| `CachePolicy.CacheControlValue` | scripts/redirector.py:66-67 | the header value written for an age reads back with `max-age` and `s-maxage` both equal to that age |
| `CachePolicy.LifetimeDigits` | scripts/redirector.py:66-67 | `str` of the three lifetimes is `3600`, `86400` and `604800` |
| `PyStr.StartsWithMeaning` | scripts/redirector.py:34 | gives `PyStr.StartsWith` (Python's `str.startswith`) its meaning: it holds exactly when the string is the prefix followed by something |
| `PyStr.EndsWithMeaning` | scripts/redirector.py:62 | gives `PyStr.EndsWith` (Python's `str.endswith`) its meaning: it holds exactly when the string is something followed by the suffix |
| `PyStr.SliceFrom` | scripts/redirector.py:42 | `s[k:]` has length `len(s) - k`, or 0 when `s` is shorter than `k`, and holds the characters of `s` from `k` on |
| `Redirector.ModeFor` | scripts/redirector.py:34 | the development mode is chosen exactly when `SERVER_SOFTWARE` starts with `Development` |
| `Redirector.Root` | scripts/redirector.py:16-20 | each mode's root is non-empty and ends with `/` (`LOCAL_PATH` or `GS_PATH`; see `RootSelection`) |
| `Redirector.VersionKey` | scripts/redirector.py:16-21 | each mode's version key is its root followed by `VERSION` |
| `Redirector.RootSelection` | scripts/redirector.py:16-37 | the root is `LOCAL_PATH` when `SERVER_SOFTWARE` starts with `Development`, otherwise `GS_PATH`; each mode's version key is its root followed by `VERSION` |
| `Redirector.ComposePath` | scripts/redirector.py:42 | the composed path starts with root and version verbatim; its length is theirs plus `len(request) - 5` (or plus 0 for shorter requests); past them it holds the request's characters from index 5 on |
| `Redirector.RootOnlyDiffers` | scripts/redirector.py:52 | past the root, the composed path is the same under any two roots, so the two modes differ only in the root |
| `Redirector.ComposeRoutedRequest` | scripts/redirector.py:42 | for a request `/docs/<rest>` the composed path is `root + version + "/" + rest` |
| `Redirector.ComposeExample` | scripts/redirector.py:42 | version `42` and request `/docs/a/b.js` give `root + "42/a/b.js"` |
| `Redirector.ComposeShortRequest` | scripts/redirector.py:42 | a request of at most five characters composes to `root + version` |
| `Redirector.ComposeInjective` | scripts/redirector.py:52 | under one root and version, two routed requests with the same composed path are the same request |
| `Redirector.CacheAgeOfRoutedRequest` | scripts/redirector.py:52-54 | for a routed request the lifetime of the composed path equals that of the remainder `request[5:]`: root and version cannot change it |
| `Redirector.CacheAgeOfLongRemainder` | scripts/redirector.py:52-54 | for any request whose remainder has at least four characters, the lifetime of the composed path equals that of the remainder |
| `Redirector.CacheAgeOfShortRemainder` | scripts/redirector.py:52-54 | with a remainder shorter than four characters the version can change the lifetime: the remainder `ng` of `/docsng` alone gets an hour, but after version `1p` it gets a day |
| `Redirector.RequestHandler.HandleCacheAge` | scripts/redirector.py:57-67 | sets `Cache-Control` to the value for `CacheAge(path)`, keeps every other header, and leaves body and blob unchanged |
| `Redirector.RequestHandler.GetLocal` | scripts/redirector.py:39-45 | if the version read raises, nothing changes; otherwise the path is composed under `LOCAL_PATH`; if the content read raises, nothing changes; otherwise `Cache-Control` is set from the composed path and the content is appended to the body |
| `Redirector.RequestHandler.GetGoogleStorage` | scripts/redirector.py:47-55 | completes exactly when the version read succeeds; then `Cache-Control` is set from the path composed under `GS_PATH`, and that path is handed to `send_blob`; the body is untouched |
| `Redirector.RequestHandler.Get` | scripts/redirector.py:30-37 | dispatches on `SERVER_SOFTWARE`; in development mode it completes exactly when both reads succeed, on App Engine exactly when the version read succeeds; a completed request has `Cache-Control` set from the path composed under the selected mode's root and version key, with that mode's body and blob effects; an uncompleted one changes nothing |

## Left out

- Network and storage reads (`urllib2.urlopen`, `BlobReader.read`) are not modelled as I/O. They are the `store` parameter, and a raised exception is a `None` result.
- `blobstore.create_gs_key` is not modelled: the foreign key it returns is represented by the path it was made from, and a failure of that call is left out (it is taken to succeed).
- `send_blob` and `response.out.write` are not modelled beyond recording the blob path and appending to the body. The headers `send_blob` sets itself and the streaming of the object are framework behaviour.
- A missing `SERVER_SOFTWARE` variable (a `KeyError`) is not modelled: the value is always given.
- The error response the framework produces once the handler raises is not modelled. The model only says that the handler's own writes did not happen.
- WSGI routing and application setup (scripts/redirector.py:69-72) are not modelled. The route `/docs/.*` appears only as the precondition `StartsWith(requestPath, "/docs/")` of the lemmas about routed requests.
- Case-insensitive header names in the framework's header dictionary are not modelled: headers are a plain map keyed by `Cache-Control`.
- Python 2 byte strings are not modelled as bytes: all strings, including the content read, are `seq<char>`.
- Prefix validation, `..` rejection, version trimming, deadlines and concurrency are not modelled because the code has none of them.
