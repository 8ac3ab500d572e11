# go-http-tunnel: HTTP routing and WebSocket classification, modelled in Dafny

This project models the client side of the tunnel's HTTP forwarding. A
request arrives over the tunnel with a *forwarding descriptor* (the control
message's `ForwardedBy`, usually `host:port`). The `HTTPProxy` picks the
local backend URL for that descriptor and rewrites the request to address
that backend. It also models the test echo server's check for WebSocket
upgrade requests.

Modules, one per source file or Go package used:

- `Tunnel` (`httpproxy.dfy`) covers `httpproxy.go`.
  - `HTTPProxy` is a datatype holding a default URL and an optional URL map.
    A nil map means single-backend mode.
  - `NewHTTPProxy` and `NewMultiHTTPProxy` model the constructors. Their
    panics on nil arguments become preconditions.
  - `LocalURLFor` is target resolution. It is specified against `FirstMatch`,
    a separate definition of "the first key with a non-nil entry wins".
  - `SingleJoiningSlash`, `MergeQuery` and `WithUserAgent` are the parts of
    the rewrite.
  - `Rewrite` is the whole rewritten request.
  - `Director` is an imperative method. It updates a `Request` object field
    by field, as the source does, and is proved to produce `Rewrite` or to
    leave the request unchanged.
  - `Proxy` copies the descriptor into the URL host and then runs `Director`.
- `IntegrationTest` (`tools.dfy`) covers `integrationtest/tools.go`.
  - `HeaderContains` is the nested loop over header lines and their
    comma-separated tokens. It is proved equal to the existential predicate
    `Contains`.
  - `IsWebSocketConn` is the classifier.
- Models of the Go standard library the core calls. They are not part of the
  repository. They are defined from Go's documented behaviour. The general
  lemmas about the proxy and the classifier use only their stated
  properties. The worked path examples (`Tunnel.JoinTwoPaths`,
  `Tunnel.JoinNoDoubledSlash`) evaluate the `GoPath` and `GoStrings`
  definitions themselves, so they hold only insofar as those definitions
  follow `path.Clean`'s documented rules.
  - `GoNet` (`gonet.dfy`): `net.SplitHostPort` follows Go's algorithm.
    `SplitHostPort` undoes `net.JoinHostPort` when neither the host nor the
    port holds a bracket and the port holds no colon (`SplitJoinHostPort`).
    The converse does not hold: `[a]:80` splits to `a` and `80`, which join
    to `a:80`.
  - `GoPath` (`gopath.dfy`): `path.Clean` and the two-argument
    `path.Join`, built from Clean's documented rules. The join's contract
    uses three properties `Clean` states: the result is non-empty, has no
    doubled slash, and is rooted exactly when the input is. The first and
    last of these go beyond the repeated-slash rule.
  - `GoStrings` (`gostrings.dfy`): `strings.Split`/`Join` with a
    one-character separator, plus ASCII versions of `TrimSpace` and
    `EqualFold`.
  - `GoHttp` (`gohttp.dfy`): the URL fields used, `http.Header`, and the
    `Request` class.
  - `Wrappers` (`wrappers.dfy`): `Option` stands for a nil pointer and
    `Result` for a Go error return.

Behaviour of the code worth noting, as modelled:

- **Failed split.** When `net.SplitHostPort` rejects the descriptor, its
  error is discarded and both the port step and the host step look up the
  empty string (httpproxy.go:163-171). The host step therefore does not use
  the descriptor's host. A bare `localhost` matches only through its full key
  or a `""` key (`FailedSplitUsesEmptyKey`, `BareNameMatches`).
- **Path join.** Joining two non-trivial paths goes through `path.Join`
  (httpproxy.go:148). That also cleans the path: `.` and `..` elements are
  resolved and a trailing slash is dropped. It does more than add one slash.
- **No target.** When no target is found, `Director` returns before touching
  the request (httpproxy.go:102-113). What the reverse proxy then sends is
  outside this model.

## Model

| member | source | states |
|---|---|---|
| `Tunnel.NewHTTPProxy` | httpproxy.go:36-52 | a single-backend proxy needs a non-nil `localURL` (the source panics otherwise) and has no URL map |
| `Tunnel.NewMultiHTTPProxy` | httpproxy.go:56-72 | a multi-backend proxy needs a non-nil map (the source panics otherwise) and has no default URL |
| `Tunnel.Lookup` | httpproxy.go:158-169 | `p.localURLMap[key]`: a URL exactly when the key is present with a non-nil entry, and then that entry; a missing key and a nil entry both give nil |
| `Tunnel.FirstMatch` | httpproxy.go:156-173 | the result is the entry of the first key whose entry is non-nil; when every key misses it is the default |
| `Tunnel.SplitForLookup` | httpproxy.go:163 | the split error is discarded: an unsplittable descriptor yields empty host and port, otherwise `SplitHostPort`'s host and port |
| `Tunnel.LocalURLFor` | httpproxy.go:151-174 | single-backend mode returns `localURL` for every input; otherwise the result is the first non-nil entry among full key, port, host, else `localURL` |
| `Tunnel.SingleBackendAlwaysDefault` | httpproxy.go:151-154 | `NewHTTPProxy(u)` resolves every descriptor to `u` |
| `Tunnel.ResolvedFromCandidate` | httpproxy.go:156-173 | the resolved target is always the default or the non-nil entry of one of the three candidate keys |
| `Tunnel.UnrelatedEntryIgnored` | httpproxy.go:156-173 | adding or changing an entry under any other key never changes the resolved target |
| `Tunnel.NilEntryIsMissing` | httpproxy.go:158-171 | a key mapped to nil resolves exactly as a missing key |
| `Tunnel.FailedSplitUsesEmptyKey` | httpproxy.go:163-171 | an unsplittable descriptor is looked up as itself and then only under `""` |
| `Tunnel.BareNameMatches` | httpproxy.go:157-171 | a name without a colon matches only by its full key or the `""` key |
| `Tunnel.MultiBackendNoTarget` | httpproxy.go:151-174 | a multi-backend proxy has no target exactly when none of the three candidate keys has a non-nil entry |
| `Tunnel.ExampleFullKeyWins` | httpproxy.go:156-160 | on `{a.com:80, 80, a.com}` the descriptor `a.com:80` resolves by its full key |
| `Tunnel.ResolvePlain` | httpproxy.go:156-173 | a descriptor `host:port` with a plain host is looked up under itself, then its port, then its host |
| `Tunnel.PortKeyBeatsHost` | httpproxy.go:162-166 | with no full-key entry, a port entry answers whatever the host entry is |
| `Tunnel.HostKeyFallback` | httpproxy.go:168-173 | with neither a full-key nor a port entry, the host entry answers, else the default |
| `Tunnel.FullKeyExample` | integrationtest/integration_test.go:104-109 | a table keyed `localhost:<port>` matches that descriptor |
| `Tunnel.SingleJoiningSlash` | httpproxy.go:140-149 | if the base is empty or `/`, the request path is kept; if the request path is empty or `/`, the base is kept; otherwise the join is non-empty, has no doubled slash and is rooted exactly when the base is |
| `Tunnel.JoinBaseCases` | httpproxy.go:141-146 | `("", "/p")` gives `/p` and `("/base", "")` gives `/base` |
| `Tunnel.JoinTwoPaths` | httpproxy.go:148 | `("/base", "/p")` gives `/base/p` |
| `Tunnel.JoinNoDoubledSlash` | httpproxy.go:148 | `("/a/", "/b")` gives `/a/b` |
| `Tunnel.MergeQuery` | httpproxy.go:119-124 | empty exactly when both queries are; one empty query yields the other; with both present the `&`-separated parameters are the target's followed by the request's |
| `Tunnel.MergeQueryExamples` | httpproxy.go:119-124 | `x=1`+`y=2` is `x=1&y=2`, `""`+`y=2` is `y=2`, both empty is `""` |
| `Tunnel.WithUserAgent` | httpproxy.go:125-128 | `User-Agent` is set to `[""]` exactly when it was absent, an existing one is kept, no other header changes |
| `Tunnel.Rewrite` | httpproxy.go:115-130 | the rewritten URL takes the target's scheme and host, `Host` equals the target host, path joined, query merged, headers with the agent default, method unchanged |
| `Tunnel.RewriteAddressesTarget` | httpproxy.go:115-130 | after a rewrite, scheme and both hosts are the target's, a `User-Agent` is always present, and every other header is kept unchanged |
| `Tunnel.Director` | httpproxy.go:98-138 | with no target the request is left exactly as it was; with a target the request becomes `Rewrite(target, old request)` |
| `Tunnel.Proxy` | httpproxy.go:90-92 | the descriptor becomes the URL host before `Director` runs, so the target is the one resolved for the descriptor |
| `GoNet.SplitHostPort` | httpproxy.go:163 | no colon means a missing-port error; on success the port is free of colons and brackets and the input is `host:port` or `[host]:port` |
| `GoNet.SplitJoinHostPort` | httpproxy.go:163 | splitting `JoinHostPort(h, p)` gives back `h` and `p` when neither holds brackets and `p` holds no colon |
| `GoPath.Clean` | httpproxy.go:148 | the cleaned path is non-empty, has no doubled slash, and is rooted exactly when the input is |
| `GoPath.JoinPath` | httpproxy.go:148 | `path.Join` of two elements has no doubled slash and is empty only when both are |
| `GoPath.JoinElements` | httpproxy.go:148 | elements joined with slashes have no doubled slash and no slash at either end |
| `GoStrings.Split` | integrationtest/tools.go:47 | there is always at least one piece and no piece holds the separator |
| `GoStrings.JoinSplit` | integrationtest/tools.go:47 | joining the pieces with the separator gives the line back |
| `GoStrings.SplitJoin` | integrationtest/tools.go:47 | splitting joined separator-free pieces gives the pieces back |
| `GoStrings.SplitAround` | integrationtest/tools.go:47 | splitting `a,b` gives the pieces of `a` followed by those of `b` |
| `GoStrings.TrimSpace` | integrationtest/tools.go:48 | the trimmed token neither starts nor ends with white space |
| `GoStrings.TrimSpaceIsSlice` | integrationtest/tools.go:48 | the trimmed token is the slice of the input right after its leading white space |
| `GoStrings.TrimSpaceRemovesOnlySpace` | integrationtest/tools.go:48 | only white space precedes and follows the trimmed token in the input |
| `GoStrings.TrimSpacePadded` | integrationtest/tools.go:48 | trimming a token padded with white space gives exactly the token |
| `GoStrings.EqualFoldPointwise` | integrationtest/tools.go:48 | two strings are equal under `EqualFold` exactly when they have the same length and agree at every position after ASCII lower-casing |
| `GoStrings.EqualFoldReflexive` | integrationtest/tools.go:48 | every string equals itself up to case |
| `GoHttp.Values` | integrationtest/tools.go:41-42 | `r.Header[name]`: the header's values when present, the empty (nil) list when absent |
| `IntegrationTest.HeaderContains` | integrationtest/tools.go:45-55 | true iff some header line has a comma-separated piece that, trimmed, equals the value up to case |
| `IntegrationTest.IsWebSocketConn` | integrationtest/tools.go:40-43 | true iff the method is exactly `GET`, `Connection` holds `upgrade` and `Upgrade` holds `websocket` |
| `IntegrationTest.EmptyHeaderNeverContains` | integrationtest/tools.go:45-55 | an absent or empty header list holds no token |
| `IntegrationTest.SingleToken` | integrationtest/tools.go:47-48 | a comma-free line matches exactly when its trimmed text equals the value up to case |
| `IntegrationTest.PlainToken` | integrationtest/tools.go:47-48 | a comma-free line with no white space at either end matches exactly when it equals the value up to case |
| `IntegrationTest.LaterTokenCounts` | integrationtest/tools.go:47-50 | `keep-alive, Upgrade` holds `upgrade`: any token counts, not only the first |
| `IntegrationTest.PlainTokenMatches` | integrationtest/tools.go:47-48 | a one-line header whose line is a comma-free token without surrounding white space, equal to the value up to case, contains the value |
| `IntegrationTest.UpperCaseMatches` | integrationtest/tools.go:48 | `UPGRADE` holds `upgrade` |
| `IntegrationTest.LongerTokenFails` | integrationtest/tools.go:48 | `upgrades` does not hold `upgrade`: whole tokens are compared, not substrings |
| `IntegrationTest.MoreLinesKeepMatch` | integrationtest/tools.go:46-52 | adding header lines before or after never turns a match into a miss |
| `IntegrationTest.MoreTokensKeepMatch` | integrationtest/tools.go:47-50 | adding tokens before or after within a line never turns a match into a miss |
| `IntegrationTest.LowerCaseGetIsNotUpgrade` | integrationtest/tools.go:41 | the method test does not fold case: `get` is never an upgrade |
| `IntegrationTest.WebSocketUpgradeLine` | integrationtest/tools.go:42 | the one-line header `websocket` contains `websocket` |
| `IntegrationTest.BrowserUpgradeIsWebSocket` | integrationtest/tools.go:40-43 | `GET` with `Connection: keep-alive, Upgrade` and `Upgrade: websocket` is an upgrade |

## Left out

- Reading and forwarding in `HTTPProxy.Proxy` is not modelled: the `http.ResponseWriter` type assertion and its panic, `http.ReadRequest` and its error path, and `ReverseProxy.ServeHTTP` with the backend round trip (httpproxy.go:75-89, 92). These are I/O and library code. Only line 90 and the `Director` call are modelled.
- Logging, the no-op default logger (httpproxy.go:41-43, 61-63), and the `context.WithCancel`/`cancel()` pair in `Director` (httpproxy.go:109-110) are left out because they do not change the request.
- A `url.URL` is modelled as a value with scheme, host, path and raw query only. `req.URL` is a pointer in Go, and its aliasing is not modelled. Other fields such as `RawPath`, `User` and `Fragment` are not modelled; `Director` does not touch them.
- Header names are taken as given. Go's canonicalisation of header keys is not modelled, and `Header.Set("User-Agent", …)` is taken to store under `User-Agent`, which is already canonical.
- `GoStrings.TrimSpace` and `GoStrings.EqualFold` use ASCII only. White space is tab, newline, vertical tab, form feed, carriage return and space; case folding covers `A`–`Z`. Go's Unicode white space and Unicode simple case folding are simplified away.
- Tunnel.SingleJoiningSlash: when both paths are non-trivial, the contract states only the three guarantees of `path.Clean` it relies on (non-empty, no doubled slash, rooted exactly when the base is). The exact value is that of `GoPath.JoinPath`, which the examples pin down.
- `net.SplitHostPort` and `path.Join`/`path.Clean` belong to the Go standard library, not to the repository. The model gives them definitions that follow Go's documented behaviour. The general lemmas about the repository's code use only their stated properties; the path examples `Tunnel.JoinTwoPaths` and `Tunnel.JoinNoDoubledSlash` evaluate the definitions.
- `EchoHTTP`, `EchoTCP`, `RandBytes` and `TLSConfig` (integrationtest/tools.go:18-38, 58-98) are left out. They are network servers, randomness and TLS setup.
- All of `integrationtest/integration_test.go` is end-to-end orchestration and is left out. Its map key form `localhost:<port>` is used in `Tunnel.FullKeyExample`.
- The WebSocket and TCP relays and the protocol dispatch are not part of this model. Their source is not among the modelled files, and their behaviour comes from concurrent byte copying.
