/**
 * The client side of the tunnel's HTTP forwarding: choosing the local
 * backend for a forwarded request and rewriting the request to address it.
 */
module Tunnel {
  import opened Wrappers
  import opened GoStrings
  import opened GoNet
  import opened GoPath
  import opened GoHttp

  /** A `map[string]*url.URL`: a key may be present and still map to nil. */
  type URLMap = map<string, Option<URL>>

  /**
   * An `HTTPProxy`: a default backend URL and an optional map from the
   * control message's `ForwardedBy` to backend URLs. A nil map means
   * single-backend mode.
   */
  datatype HTTPProxy = HTTPProxy(localURL: Option<URL>, localURLMap: Option<URLMap>)

  /** `NewHTTPProxy`: everything goes to `localURL`, which must not be nil (the source panics). */
  function NewHTTPProxy(localURL: Option<URL>): (p: HTTPProxy)
    requires localURL.Some?
    ensures p.localURL == localURL && p.localURLMap.None?
  {
    HTTPProxy(localURL, None)
  }

  /** `NewMultiHTTPProxy`: dispatch by `localURLMap`, which must not be nil; there is no default. */
  function NewMultiHTTPProxy(localURLMap: Option<URLMap>): (p: HTTPProxy)
    requires localURLMap.Some?
    ensures p.localURLMap == localURLMap && p.localURL.None?
  {
    HTTPProxy(None, localURLMap)
  }

  /** Go's `m[key]`: nil for a missing key as for a key mapped to nil. */
  function Lookup(m: URLMap, key: string): (r: Option<URL>)
    ensures r.Some? <==> key in m && m[key].Some?
    ensures r.Some? ==> r == m[key]
  {
    if key in m then m[key] else None
  }

  /** None of the first `k` keys has a non-nil entry. */
  predicate NoMatchBefore(m: URLMap, keys: seq<string>, k: nat)
    requires k <= |keys|
  {
    forall j :: 0 <= j < k ==> Lookup(m, keys[j]).None?
  }

  /**
   * Reference definition of "first match wins": the entry of the first key in
   * `keys` whose entry is not nil, or `default` when every key misses.
   */
  function FirstMatch(m: URLMap, keys: seq<string>, default: Option<URL>): (r: Option<URL>)
    ensures NoMatchBefore(m, keys, |keys|) ==> r == default
    ensures forall k :: 0 <= k < |keys| && Lookup(m, keys[k]).Some? && NoMatchBefore(m, keys, k) ==>
                        r == Lookup(m, keys[k])
    decreases |keys|
  {
    if keys == [] then default
    else if Lookup(m, keys[0]).Some? then Lookup(m, keys[0])
    else
      var r := FirstMatch(m, keys[1..], default);
      assert forall k :: 1 <= k < |keys| ==> keys[k] == keys[1..][k - 1];
      r
  }

  /**
   * The host and port `localURLFor` looks up: the error of `net.SplitHostPort`
   * is discarded, so an address that cannot be split gives two empty strings.
   */
  function SplitForLookup(hostPort: string): (hp: HostPort)
    ensures SplitHostPort(hostPort).Err? ==> hp == HostPort("", "")
    ensures SplitHostPort(hostPort).Ok? ==> hp == SplitHostPort(hostPort).value
  {
    SplitHostPort(hostPort).GetOr(HostPort("", ""))
  }

  /** The keys `localURLFor` tries, in order of precedence: host and port, then port, then host. */
  function Candidates(hostPort: string): (keys: seq<string>)
  {
    var hp := SplitForLookup(hostPort);
    [hostPort, hp.port, hp.host]
  }

  /**
   * `HTTPProxy.localURLFor`, given the request URL's host (the `ForwardedBy`
   * of the control message). Single-backend mode always answers `localURL`.
   * Otherwise the answer is the first non-nil entry for the host-and-port
   * string, its port or its host, and `localURL` when all three miss.
   */
  function LocalURLFor(p: HTTPProxy, hostPort: string): (r: Option<URL>)
    ensures p.localURLMap.None? ==> r == p.localURL
    ensures p.localURLMap.Some? ==> r == FirstMatch(p.localURLMap.value, Candidates(hostPort), p.localURL)
  {
    if p.localURLMap.None? then p.localURL
    else
      var m := p.localURLMap.value;
      if Lookup(m, hostPort).Some? then Lookup(m, hostPort)
      else
        var hp := SplitForLookup(hostPort);
        if Lookup(m, hp.port).Some? then Lookup(m, hp.port)
        else
          assert NoMatchBefore(m, Candidates(hostPort), 2);
          if Lookup(m, hp.host).Some? then Lookup(m, hp.host)
          else p.localURL
  }

  /**
   * `singleJoiningSlash(a, b)`: `b` alone under an empty or root base, `a`
   * alone for an empty or root request path, and otherwise `path.Join`,
   * whose result has no doubled slash and is rooted exactly when `a` is.
   */
  function SingleJoiningSlash(a: string, b: string): (r: string)
    ensures a == "" || a == "/" ==> r == b
    ensures a != "" && a != "/" && (b == "" || b == "/") ==> r == a
    ensures a != "" && a != "/" && b != "" && b != "/" ==>
      NoRepeatedSlash(r) && r != "" && (r[0] == '/' <==> a[0] == '/')
  {
    if a == "" || a == "/" then b
    else if b == "" || b == "/" then a
    else JoinPath(a, b)
  }

  /**
   * The merged raw query of the rewrite: the target's query, then the
   * request's, joined by `&` only when both are present. The `&`-separated
   * parameters of the result are those of the target followed by those of
   * the request.
   */
  function MergeQuery(targetQuery: string, query: string): (r: string)
    ensures r == "" <==> targetQuery == "" && query == ""
    ensures targetQuery == "" ==> r == query
    ensures query == "" ==> r == targetQuery
    ensures targetQuery != "" && query != "" ==> Split(r, '&') == Split(targetQuery, '&') + Split(query, '&')
  {
    if targetQuery == "" || query == "" then targetQuery + query
    else
      SplitAround(targetQuery, query, '&');
      targetQuery + "&" + query
  }

  const UserAgent: string := "User-Agent"

  /**
   * The header after the rewrite: an absent `User-Agent` is set to the one
   * empty value (so that no default agent is sent), a present one is kept,
   * and every other header is untouched.
   */
  function WithUserAgent(h: Header): (r: Header)
    ensures r.Keys == h.Keys + {UserAgent}
    ensures UserAgent in h ==> r[UserAgent] == h[UserAgent]
    ensures UserAgent !in h ==> r[UserAgent] == [""]
    ensures forall k :: k in h && k != UserAgent ==> r[k] == h[k]
  {
    if UserAgent in h then h else h[UserAgent := [""]]
  }

  /**
   * The request `Director` produces for target `t`: scheme and host of `t`
   * in the URL and as the request's Host, the joined path, the merged query,
   * the `User-Agent` default, and the method unchanged.
   */
  function Rewrite(t: URL, s: RequestState): (r: RequestState)
    ensures r.url.scheme == t.scheme && r.url.host == t.host && r.host == t.host
    ensures r.url.path == SingleJoiningSlash(t.path, s.url.path)
    ensures r.url.rawQuery == MergeQuery(t.rawQuery, s.url.rawQuery)
    ensures r.header == WithUserAgent(s.header) && r.httpMethod == s.httpMethod
  {
    var url := URL(t.scheme, t.host, SingleJoiningSlash(t.path, s.url.path), MergeQuery(t.rawQuery, s.url.rawQuery));
    RequestState(s.httpMethod, url, WithUserAgent(s.header), url.host)
  }

  /**
   * `HTTPProxy.Director`: resolve the target from the URL's host; without
   * one the request is left exactly as it was, otherwise it becomes
   * `Rewrite(target, request)`.
   */
  method Director(p: HTTPProxy, req: Request)
    modifies req
    ensures LocalURLFor(p, old(req.url.host)).None? ==> req.State() == old(req.State())
    ensures LocalURLFor(p, old(req.url.host)).Some? ==>
      req.State() == Rewrite(LocalURLFor(p, old(req.url.host)).value, old(req.State()))
  {
    var target := LocalURLFor(p, req.url.host);
    if target.None? {
      // the source logs and cancels a context derived from the request's; neither touches `req`
      return;
    }
    var t := target.value;
    req.url := req.url.(scheme := t.scheme);
    req.url := req.url.(host := t.host);
    req.url := req.url.(path := SingleJoiningSlash(t.path, req.url.path));

    var targetQuery := t.rawQuery;
    if targetQuery == "" || req.url.rawQuery == "" {
      req.url := req.url.(rawQuery := targetQuery + req.url.rawQuery);
    } else {
      req.url := req.url.(rawQuery := targetQuery + "&" + req.url.rawQuery);
    }
    if UserAgent !in req.header {
      req.header := req.header[UserAgent := [""]];
    }
    req.host := req.url.host;
  }

  /** The part of a `proto.ControlMessage` the proxy reads. */
  datatype ControlMessage = ControlMessage(forwardedBy: string)

  /**
   * The request handling of `HTTPProxy.Proxy` once the request is parsed:
   * the `ForwardedBy` descriptor becomes the URL's host, and the reverse
   * proxy then runs `Director`, so the target is the one resolved for the
   * descriptor. `req` stands for the request `Director` receives: in Go,
   * `ReverseProxy.ServeHTTP` copies the parsed request into an outgoing one,
   * runs `Director` on that copy and edits it further before sending it.
   */
  method Proxy(p: HTTPProxy, req: Request, msg: ControlMessage)
    modifies req
    ensures var forwarded := old(req.State()).(url := old(req.url).(host := msg.forwardedBy));
      && (LocalURLFor(p, msg.forwardedBy).None? ==> req.State() == forwarded)
      && (LocalURLFor(p, msg.forwardedBy).Some? ==>
            req.State() == Rewrite(LocalURLFor(p, msg.forwardedBy).value, forwarded))
  {
    req.url := req.url.(host := msg.forwardedBy);
    Director(p, req);
  }

  // ---------------------------------------------------------------------
  // Target resolution

  /** Single-backend mode: `NewHTTPProxy(u)` sends every descriptor to `u`. */
  lemma SingleBackendAlwaysDefault(u: URL, hostPort: string)
    ensures LocalURLFor(NewHTTPProxy(Some(u)), hostPort) == Some(u)
  {
  }

  /** A first match is either the default or the non-nil entry of one of the keys. */
  lemma {:induction false} FirstMatchOrigin(m: URLMap, keys: seq<string>, default: Option<URL>)
    ensures var r := FirstMatch(m, keys, default);
      r == default || (r.Some? && exists k :: 0 <= k < |keys| && Lookup(m, keys[k]) == r)
    decreases |keys|
  {
    if keys != [] && Lookup(m, keys[0]).None? {
      FirstMatchOrigin(m, keys[1..], default);
      var r := FirstMatch(m, keys, default);
      if r != default {
        var k :| 0 <= k < |keys[1..]| && Lookup(m, keys[1..][k]) == r;
        assert Lookup(m, keys[k + 1]) == r;
      }
    }
  }

  /** A first match depends only on the entries of the keys it is given. */
  lemma {:induction false} FirstMatchLocal(m1: URLMap, m2: URLMap, keys: seq<string>, default: Option<URL>)
    requires forall k :: 0 <= k < |keys| ==> Lookup(m1, keys[k]) == Lookup(m2, keys[k])
    ensures FirstMatch(m1, keys, default) == FirstMatch(m2, keys, default)
    decreases |keys|
  {
    if keys != [] {
      assert forall k :: 0 <= k < |keys[1..]| ==> keys[1..][k] == keys[k + 1];
      FirstMatchLocal(m1, m2, keys[1..], default);
    }
  }

  /**
   * What `localURLFor` answers is always the default `localURL` or the
   * non-nil entry of the host-and-port string, of its port or of its host.
   */
  lemma ResolvedFromCandidate(p: HTTPProxy, hostPort: string)
    requires p.localURLMap.Some?
    ensures var r := LocalURLFor(p, hostPort);
      r == p.localURL || (r.Some? && exists k :: k in Candidates(hostPort) && Lookup(p.localURLMap.value, k) == r)
  {
    FirstMatchOrigin(p.localURLMap.value, Candidates(hostPort), p.localURL);
  }

  /** An entry under a key that is none of the three candidates never changes the answer. */
  lemma UnrelatedEntryIgnored(p: HTTPProxy, hostPort: string, key: string, u: Option<URL>)
    requires p.localURLMap.Some? && key !in Candidates(hostPort)
    ensures LocalURLFor(p.(localURLMap := Some(p.localURLMap.value[key := u])), hostPort) == LocalURLFor(p, hostPort)
  {
    FirstMatchLocal(p.localURLMap.value[key := u], p.localURLMap.value, Candidates(hostPort), p.localURL);
  }

  /** Only non-nil entries count: a key mapped to nil behaves as a missing key. */
  lemma NilEntryIsMissing(p: HTTPProxy, hostPort: string, key: string)
    requires p.localURLMap.Some?
    ensures LocalURLFor(p.(localURLMap := Some(p.localURLMap.value[key := None])), hostPort)
         == LocalURLFor(p.(localURLMap := Some(p.localURLMap.value - {key})), hostPort)
  {
    var m := p.localURLMap.value;
    FirstMatchLocal(m[key := None], m - {key}, Candidates(hostPort), p.localURL);
  }

  /**
   * A descriptor that `net.SplitHostPort` rejects is looked up as itself and
   * then under the empty key (twice), never under its host; in particular a
   * bare name such as `localhost`, which has no port.
   */
  lemma FailedSplitUsesEmptyKey(p: HTTPProxy, hostPort: string)
    requires p.localURLMap.Some? && SplitHostPort(hostPort).Err?
    ensures Candidates(hostPort) == [hostPort, "", ""]
    ensures LocalURLFor(p, hostPort) == FirstMatch(p.localURLMap.value, [hostPort, ""], p.localURL)
  {
    assert [hostPort, ""][1..] == [""];
    assert [hostPort, "", ""][1..][1..] == [""];
  }

  /** A bare host name has no port, so it can only match by its full key or the empty key. */
  lemma BareNameMatches(p: HTTPProxy, name: string)
    requires p.localURLMap.Some? && ':' !in name
    ensures LocalURLFor(p, name) == FirstMatch(p.localURLMap.value, [name, ""], p.localURL)
  {
    FailedSplitUsesEmptyKey(p, name);
  }

  /**
   * A multi-backend proxy has no default, so it finds no target exactly when
   * none of the three candidate keys has a non-nil entry.
   */
  lemma MultiBackendNoTarget(m: URLMap, hostPort: string)
    ensures LocalURLFor(NewMultiHTTPProxy(Some(m)), hostPort).None?
        <==> NoMatchBefore(m, Candidates(hostPort), 3)
  {
    var keys := Candidates(hostPort);
    if !NoMatchBefore(m, keys, 3) {
      var k :| 0 <= k < 3 && Lookup(m, keys[k]).Some?;
      if Lookup(m, keys[0]).Some? {
      } else if Lookup(m, keys[1]).Some? {
        assert NoMatchBefore(m, keys, 1);
      } else {
        assert NoMatchBefore(m, keys, 2);
      }
    }
  }

  /** The table `{"a.com:80": t1, "80": t2, "a.com": t3}` of a multi-backend proxy. */
  function ExampleProxy(t1: URL, t2: URL, t3: URL): HTTPProxy
  {
    NewMultiHTTPProxy(Some(map["a.com:80" := Some(t1), "80" := Some(t2), "a.com" := Some(t3)]))
  }

  /** On the example table the full `host:port` key wins over the port and the host. */
  lemma ExampleFullKeyWins(t1: URL, t2: URL, t3: URL)
    ensures LocalURLFor(ExampleProxy(t1, t2, t3), "a.com:80") == Some(t1)
  {
  }

  /**
   * A descriptor `host:port` with a plain host is looked up under itself,
   * then its port, then its host.
   */
  lemma ResolvePlain(p: HTTPProxy, host: string, port: string)
    requires p.localURLMap.Some?
    requires ':' !in host && '[' !in host && ']' !in host
    requires ':' !in port && '[' !in port && ']' !in port
    ensures LocalURLFor(p, host + ":" + port) == FirstMatch(p.localURLMap.value, [host + ":" + port, port, host], p.localURL)
  {
    SplitJoinHostPort(host, port);
  }

  /** For a `host:port` descriptor without a full-key entry, a port entry wins over a host entry. */
  lemma PortKeyBeatsHost(p: HTTPProxy, host: string, port: string)
    requires p.localURLMap.Some?
    requires ':' !in host && '[' !in host && ']' !in host
    requires ':' !in port && '[' !in port && ']' !in port
    requires Lookup(p.localURLMap.value, host + ":" + port).None?
    requires Lookup(p.localURLMap.value, port).Some?
    ensures LocalURLFor(p, host + ":" + port) == Lookup(p.localURLMap.value, port)
  {
    ResolvePlain(p, host, port);
    assert NoMatchBefore(p.localURLMap.value, [host + ":" + port, port, host], 1);
  }

  /**
   * For a `host:port` descriptor with neither a full-key nor a port entry,
   * the host entry answers, and the default when that is nil too.
   */
  lemma HostKeyFallback(p: HTTPProxy, host: string, port: string)
    requires p.localURLMap.Some?
    requires ':' !in host && '[' !in host && ']' !in host
    requires ':' !in port && '[' !in port && ']' !in port
    requires Lookup(p.localURLMap.value, host + ":" + port).None?
    requires Lookup(p.localURLMap.value, port).None?
    ensures var u := Lookup(p.localURLMap.value, host);
      LocalURLFor(p, host + ":" + port) == if u.Some? then u else p.localURL
  {
    var m := p.localURLMap.value;
    var keys := [host + ":" + port, port, host];
    ResolvePlain(p, host, port);
    assert NoMatchBefore(m, keys, 2);
    if Lookup(m, host).None? {
      assert NoMatchBefore(m, keys, 3);
    }
  }

  /** A table keyed `localhost:<port>`, as the end-to-end test builds it, matches that descriptor by its full key. */
  lemma FullKeyExample(t: URL, port: string)
    ensures LocalURLFor(NewMultiHTTPProxy(Some(map["localhost:" + port := Some(t)])), "localhost:" + port) == Some(t)
  {
  }

  // ---------------------------------------------------------------------
  // Request rewrite

  /** An empty base keeps the request path, an empty request path keeps the base. */
  lemma JoinBaseCases()
    ensures SingleJoiningSlash("", "/p") == "/p"
    ensures SingleJoiningSlash("/base", "") == "/base"
  {
  }

  /** The elements of `/base//p`, the string `path.Join("/base", "/p")` cleans. */
  lemma SplitBaseP()
    ensures Split("/base" + "/" + "/p", '/') == ["", "base", "", "p"]
  {
    var s := "/base" + "/" + "/p";
    assert s == "" + "/" + ("base" + "/" + ("" + "/" + "p"));
    SplitAround("", "base" + "/" + ("" + "/" + "p"), '/');
    SplitAround("base", "" + "/" + "p", '/');
    SplitAround("", "p", '/');
    SplitWithoutSep("base", '/');
    SplitWithoutSep("p", '/');
  }

  /** A base and a request path are joined by exactly one slash. */
  lemma JoinTwoPaths()
    ensures SingleJoiningSlash("/base", "/p") == "/base/p"
  {
    SplitBaseP();
    assert Reduce(["", "base", "", "p"], true, []) == ["base", "p"];
    assert Join(["base", "p"], '/') == "base/p";
  }

  /** The elements of `/a///b`, the string `path.Join("/a/", "/b")` cleans. */
  lemma SplitAB()
    ensures Split("/a/" + "/" + "/b", '/') == ["", "a", "", "", "b"]
  {
    var s := "/a/" + "/" + "/b";
    assert s == "" + "/" + ("a" + "/" + ("" + "/" + ("" + "/" + "b")));
    SplitAround("", "a" + "/" + ("" + "/" + ("" + "/" + "b")), '/');
    SplitAround("a", "" + "/" + ("" + "/" + "b"), '/');
    SplitAround("", "" + "/" + "b", '/');
    SplitAround("", "b", '/');
    SplitWithoutSep("a", '/');
    SplitWithoutSep("b", '/');
  }

  /** A trailing slash on the base and a leading one on the request path do not double. */
  lemma JoinNoDoubledSlash()
    ensures SingleJoiningSlash("/a/", "/b") == "/a/b"
  {
    SplitAB();
    assert Reduce(["", "a", "", "", "b"], true, []) == ["a", "b"];
    assert Join(["a", "b"], '/') == "a/b";
  }

  /** The query merge on the three shapes of input. */
  lemma MergeQueryExamples()
    ensures MergeQuery("x=1", "y=2") == "x=1&y=2"
    ensures MergeQuery("", "y=2") == "y=2"
    ensures MergeQuery("", "") == ""
  {
  }

  /**
   * With a target, the rewritten request addresses the target's scheme and
   * host, sends the target's host as Host, keeps every header other than
   * `User-Agent`, and always carries a `User-Agent`.
   */
  lemma RewriteAddressesTarget(t: URL, s: RequestState)
    ensures var r := Rewrite(t, s);
      && r.url.scheme == t.scheme && r.url.host == r.host == t.host
      && UserAgent in r.header
      && (forall k :: k in s.header ==> k in r.header)
      && (forall k :: k in r.header && k != UserAgent ==> k in s.header && r.header[k] == s.header[k])
  {
  }
}
