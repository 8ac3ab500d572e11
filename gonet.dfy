/**
 * Go's `net.SplitHostPort` and `net.JoinHostPort`, over strings. Splitting
 * undoes joining for a host and a port free of brackets and a port free of
 * colons; the converse fails (`[a]:80` splits to `a` and `80`, which join
 * to `a:80`).
 * `SplitHostPort` follows the standard library's algorithm: the port is what
 * follows the last colon, an IPv6 host is written in brackets, and a
 * malformed address is an error.
 */
module GoNet {
  import opened Wrappers

  /** Why an address could not be split (the messages of Go's `net.AddrError`). */
  datatype AddrError =
    | MissingPort             // "missing port in address"
    | TooManyColons           // "too many colons in address"
    | MissingCloseBracket     // "missing ']' in address"
    | UnexpectedOpenBracket   // "unexpected '[' in address"
    | UnexpectedCloseBracket  // "unexpected ']' in address"

  datatype HostPort = HostPort(host: string, port: string)

  /** The position of the last `c` in `s`, or -1 when there is none. */
  function LastIndex(s: string, c: char): (i: int)
    ensures -1 <= i < |s|
    ensures i >= 0 ==> s[i] == c
    ensures forall k :: i < k < |s| ==> s[k] != c
    decreases |s|
  {
    if s == [] then -1
    else if s[|s| - 1] == c then |s| - 1
    else LastIndex(s[..|s| - 1], c)
  }

  /** The position of the first `c` in `s`, or -1 when there is none. */
  function Index(s: string, c: char): (i: int)
    ensures -1 <= i < |s|
    ensures i >= 0 ==> s[i] == c
    ensures forall k :: 0 <= k < |s| && (i < 0 || k < i) ==> s[k] != c
    decreases |s|
  {
    if s == [] then -1
    else if s[0] == c then 0
    else
      var j := Index(s[1..], c);
      if j < 0 then -1 else j + 1
  }

  /** Go's `net.JoinHostPort`: a host containing a colon is put in brackets. */
  function JoinHostPort(host: string, port: string): string
  {
    if ':' in host then "[" + host + "]:" + port else host + ":" + port
  }

  /**
   * The final bracket checks of `SplitHostPort`, once `host` and the last
   * colon `i` are known: no `[` from `j` on and no `]` from `k` on, so none
   * in the port either.
   */
  function CheckBrackets(s: string, host: string, j: nat, k: nat, i: nat): (r: Result<HostPort, AddrError>)
    requires j <= i + 1 && k <= i + 1 && i < |s|
    ensures r.Ok? ==> r.value == HostPort(host, s[i + 1..])
    ensures r.Ok? ==> '[' !in s[i + 1..] && ']' !in s[i + 1..]
  {
    if '[' in s[j..] then Err(UnexpectedOpenBracket)
    else if ']' in s[k..] then Err(UnexpectedCloseBracket)
    else
      assert s[i + 1..] == s[j..][i + 1 - j..];
      assert s[i + 1..] == s[k..][i + 1 - k..];
      Ok(HostPort(host, s[i + 1..]))
  }

  /** The part of `SplitHostPort` for an address starting with `[`, whose last colon is at `i`. */
  function SplitBracketedAt(s: string, i: nat): (r: Result<HostPort, AddrError>)
    requires 0 < i < |s| && s[0] == '[' && s[i] == ':'
    ensures r.Ok? ==> r.value.port == s[i + 1..] && '[' !in r.value.port && ']' !in r.value.port
    ensures r.Ok? ==> s == "[" + r.value.host + "]:" + r.value.port
  {
    var end := Index(s, ']');
    if end < 0 then Err(MissingCloseBracket)
    else if end + 1 == |s| then Err(MissingPort)
    else if end + 1 != i then
      if s[end + 1] == ':' then Err(TooManyColons) else Err(MissingPort)
    else
      var r := CheckBrackets(s, s[1..end], 1, end + 1, i);
      assert s == [s[0]] + s[1..end] + [s[end], s[i]] + s[i + 1..];
      r
  }

  /** The part of `SplitHostPort` for an address not starting with `[`, whose last colon is at `i`. */
  function SplitPlainAt(s: string, i: nat): (r: Result<HostPort, AddrError>)
    requires i < |s| && s[i] == ':'
    ensures r.Ok? ==> r.value.port == s[i + 1..] && '[' !in r.value.port && ']' !in r.value.port
    ensures r.Ok? ==> s == r.value.host + ":" + r.value.port && ':' !in r.value.host
  {
    var host := s[..i];
    if ':' in host then Err(TooManyColons)
    else
      var r := CheckBrackets(s, host, 0, 0, i);
      assert s == host + ":" + s[i + 1..];
      r
  }

  /**
   * Go's `net.SplitHostPort`. An address without a colon has no port; on
   * success the port holds no colon and no bracket, and the address is
   * `host:port`, or `[host]:port` for a bracketed host.
   */
  function SplitHostPort(s: string): (r: Result<HostPort, AddrError>)
    ensures ':' !in s ==> r == Err(MissingPort)
    ensures r.Ok? ==> ':' !in r.value.port && '[' !in r.value.port && ']' !in r.value.port
    ensures r.Ok? ==>
      || (s == r.value.host + ":" + r.value.port && ':' !in r.value.host)
      || s == "[" + r.value.host + "]:" + r.value.port
  {
    var i := LastIndex(s, ':');
    if i < 0 then Err(MissingPort)
    else
      var port := s[i + 1..];
      assert ':' !in port by {
        forall k | 0 <= k < |port| ensures port[k] != ':' { assert port[k] == s[i + 1 + k]; }
      }
      if s[0] == '[' then SplitBracketedAt(s, i) else SplitPlainAt(s, i)
  }

  /** Splitting undoes joining, for a host and a port free of brackets and a port free of colons. */
  lemma SplitJoinHostPort(host: string, port: string)
    requires '[' !in host && ']' !in host
    requires ':' !in port && '[' !in port && ']' !in port
    ensures SplitHostPort(JoinHostPort(host, port)) == Ok(HostPort(host, port))
  {
    if ':' in host {
      SplitBracketed(host, port);
    } else {
      SplitPlain(host, port);
    }
  }

  lemma SplitPlain(host: string, port: string)
    requires ':' !in host && '[' !in host && ']' !in host
    requires ':' !in port && '[' !in port && ']' !in port
    ensures SplitHostPort(host + ":" + port) == Ok(HostPort(host, port))
  {
    var s := host + ":" + port;
    var n := |host|;
    assert LastIndex(s, ':') == n by {
      assert s[n] == ':';
      assert forall k :: n < k < |s| ==> s[k] == port[k - n - 1];
    }
    assert s[0] != '[' by {
      if host != [] { assert s[0] == host[0]; }
    }
    assert s[..n] == host;
    assert s[0..] == s;
    assert s[n + 1..] == port;
  }

  lemma SplitBracketed(host: string, port: string)
    requires '[' !in host && ']' !in host
    requires ':' !in port && '[' !in port && ']' !in port
    ensures SplitHostPort("[" + host + "]:" + port) == Ok(HostPort(host, port))
  {
    var s := "[" + host + "]:" + port;
    var n := |host| + 2;
    BracketedColon(host, port);
    assert SplitHostPort(s) == SplitBracketedAt(s, n);
    BracketedClose(host, port);
    BracketedParts(host, port);
    assert CheckBrackets(s, s[1..n - 1], 1, n, n) == Ok(HostPort(host, port));
  }

  /** The pieces of `[host]:port` that the bracket checks look at. */
  lemma BracketedParts(host: string, port: string)
    requires '[' !in host && ']' !in host
    requires '[' !in port && ']' !in port
    ensures var s := "[" + host + "]:" + port; var n := |host| + 2;
      && s[1..n - 1] == host && '[' !in s[1..] && ']' !in s[n..] && s[n + 1..] == port
  {
    var s := "[" + host + "]:" + port;
    var n := |host| + 2;
    assert s[1..] == host + "]:" + port;
    assert s[n..] == ":" + port;
    assert s[1..n - 1] == host;
    assert s[n + 1..] == port;
  }

  /** In `[host]:port` the last colon is the one after the bracket. */
  lemma BracketedColon(host: string, port: string)
    requires ':' !in port
    ensures var s := "[" + host + "]:" + port; LastIndex(s, ':') == |host| + 2 && s[0] == '['
  {
    var s := "[" + host + "]:" + port;
    var n := |host| + 2;
    assert s[n] == ':';
    assert forall k :: n < k < |s| ==> s[k] == port[k - n - 1];
  }

  /** In `[host]:port` the first closing bracket is the one after the host. */
  lemma BracketedClose(host: string, port: string)
    requires ']' !in host
    ensures var s := "[" + host + "]:" + port; Index(s, ']') == |host| + 1
  {
    var s := "[" + host + "]:" + port;
    var n := |host| + 2;
    assert s[n - 1] == ']';
    assert s[0] == '[';
    assert forall k :: 1 <= k < n - 1 ==> s[k] == host[k - 1];
  }
}
