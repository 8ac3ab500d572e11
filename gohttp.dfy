/**
 * The parts of Go's `net/url` and `net/http` types that the tunnel's HTTP
 * proxy and the WebSocket classifier read or write.
 */
module GoHttp {

  /** The fields of a `url.URL` that the proxy reads or writes. */
  datatype URL = URL(scheme: string, host: string, path: string, rawQuery: string)

  /** An `http.Header`: canonical header name to its list of values. */
  type Header = map<string, seq<string>>

  /** Go's `h[name]`: the values of a header, the empty (nil) list when it is absent. */
  function Values(h: Header, name: string): (vs: seq<string>)
    ensures name !in h ==> vs == []
    ensures name in h ==> vs == h[name]
  {
    if name in h then h[name] else []
  }

  /** A snapshot of every field of a `Request`. */
  datatype RequestState = RequestState(httpMethod: string, url: URL, header: Header, host: string)

  /** An `*http.Request` as the proxy sees it; handlers update its fields in place. */
  class Request {
    var httpMethod: string
    var url: URL
    var header: Header
    /** The `Host` the request is sent with (`req.Host`), distinct from `url.host`. */
    var host: string

    constructor (httpMethod: string, url: URL, header: Header, host: string)
      ensures State() == RequestState(httpMethod, url, header, host)
    {
      this.httpMethod := httpMethod;
      this.url := url;
      this.header := header;
      this.host := host;
    }

    /** The current value of every field. */
    function State(): RequestState
      reads this
    {
      RequestState(httpMethod, url, header, host)
    }
  }
}
