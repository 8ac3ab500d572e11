/**
 * The WebSocket-upgrade test of the end-to-end test's echo server: a request
 * is an upgrade when its method is `GET`, its `Connection` header holds the
 * token `upgrade` and its `Upgrade` header the token `websocket`. A header
 * value is a comma-separated list of tokens, compared after trimming white
 * space and ignoring letter case.
 */
module IntegrationTest {
  import opened GoStrings
  import opened GoHttp

  /** One comma-separated piece of a header line, trimmed, equals `value` up to letter case. */
  predicate TokenMatches(piece: string, value: string)
  {
    EqualFold(TrimSpace(piece), value)
  }

  /** Some comma-separated token of the header line `h` matches `value`. */
  predicate LineContains(h: string, value: string)
  {
    exists j :: 0 <= j < |Split(h, ',')| && TokenMatches(Split(h, ',')[j], value)
  }

  /** Some line of the header's values holds a token matching `value`. */
  predicate Contains(header: seq<string>, value: string)
  {
    exists i :: 0 <= i < |header| && LineContains(header[i], value)
  }

  /**
   * `headerContains`: scan the lines, and the comma-separated tokens of each
   * line, for one that matches `value`; stop at the first.
   */
  method HeaderContains(header: seq<string>, value: string) returns (found: bool)
    ensures found <==> Contains(header, value)
  {
    for i := 0 to |header|
      invariant forall i' :: 0 <= i' < i ==> !LineContains(header[i'], value)
    {
      var pieces := Split(header[i], ',');
      for j := 0 to |pieces|
        invariant forall j' :: 0 <= j' < j ==> !TokenMatches(pieces[j'], value)
      {
        if EqualFold(TrimSpace(pieces[j]), value) {
          return true;
        }
      }
    }
    return false;
  }

  /** The classification `isWebSocketConn` computes, on a method and a header. */
  predicate IsWebSocket(httpMethod: string, h: Header)
  {
    && httpMethod == "GET"
    && Contains(Values(h, "Connection"), "upgrade")
    && Contains(Values(h, "Upgrade"), "websocket")
  }

  /** `isWebSocketConn`: the method test and the two token searches, evaluated left to right. */
  method IsWebSocketConn(r: Request) returns (ok: bool)
    ensures ok <==> IsWebSocket(r.httpMethod, r.header)
  {
    ok := r.httpMethod == "GET";
    if ok {
      ok := HeaderContains(Values(r.header, "Connection"), "upgrade");
    }
    if ok {
      ok := HeaderContains(Values(r.header, "Upgrade"), "websocket");
    }
  }

  // ---------------------------------------------------------------------
  // Properties of the token search

  /** No line, no match: an empty or absent header never contains a token. */
  lemma EmptyHeaderNeverContains(h: Header, name: string, value: string)
    requires name !in h || h[name] == []
    ensures !Contains(Values(h, name), value)
  {
  }

  /** A line with a single token matches exactly the values that token matches. */
  lemma {:induction false} SingleToken(token: string, value: string)
    requires ',' !in token
    ensures LineContains(token, value) <==> TokenMatches(token, value)
  {
    SplitWithoutSep(token, ',');
    assert Split(token, ',')[0] == token;
  }

  /** A one-line header whose line matches contains the value. */
  lemma OneLine(h: string, value: string)
    requires LineContains(h, value)
    ensures Contains([h], value)
  {
    assert [h][0] == h;
  }

  /** A token without surrounding white space and without a comma is compared as it stands. */
  lemma {:induction false} PlainToken(token: string, value: string)
    requires ',' !in token && (token == [] || (!IsSpace(token[0]) && !IsSpace(token[|token| - 1])))
    ensures LineContains(token, value) <==> EqualFold(token, value)
  {
    SingleToken(token, value);
    TrimSpacePadded("", token, "");
    assert "" + token + "" == token;
  }

  /** `Upgrade` after a space is the token `upgrade`. */
  lemma SpacedUpgrade()
    ensures LineContains(" Upgrade", "upgrade")
  {
    TrimSpacePadded(" ", "Upgrade", "");
    assert " " + "Upgrade" + "" == " Upgrade";
    SingleToken(" Upgrade", "upgrade");
  }

  /** A line whose second token is ` Upgrade` holds `upgrade`. */
  lemma UpgradeAfterKeepAlive()
    ensures LineContains("keep-alive" + "," + " Upgrade", "upgrade")
  {
    SpacedUpgrade();
    MoreTokensKeepMatch(" Upgrade", "keep-alive", "", "upgrade");
  }

  /** The line `keep-alive, Upgrade` holds `upgrade` in its second token. */
  lemma KeepAliveUpgradeLine()
    ensures LineContains("keep-alive, Upgrade", "upgrade")
  {
    UpgradeAfterKeepAlive();
    assert "keep-alive" + "," + " Upgrade" == "keep-alive, Upgrade";
  }

  /** Any token of a line counts, not only the first: `keep-alive, Upgrade` holds `upgrade`. */
  lemma LaterTokenCounts()
    ensures Contains(["keep-alive, Upgrade"], "upgrade")
  {
    KeepAliveUpgradeLine();
    OneLine("keep-alive, Upgrade", "upgrade");
  }

  /** A one-line header holding a plain token equal to the value up to case contains the value. */
  lemma PlainTokenMatches(token: string, value: string)
    requires ',' !in token && (token == [] || (!IsSpace(token[0]) && !IsSpace(token[|token| - 1])))
    requires EqualFold(token, value)
    ensures Contains([token], value)
  {
    PlainToken(token, value);
    OneLine(token, value);
  }

  /** Matching ignores letter case: `UPGRADE` holds `upgrade`. */
  lemma UpperCaseMatches()
    ensures Contains(["UPGRADE"], "upgrade")
  {
    PlainTokenMatches("UPGRADE", "upgrade");
  }

  /** Matching compares whole tokens: `upgrades` does not hold `upgrade`. */
  lemma LongerTokenFails()
    ensures !Contains(["upgrades"], "upgrade")
  {
    PlainToken("upgrades", "upgrade");
    assert ["upgrades"][0] == "upgrades";
  }

  /** Adding lines before or after never turns a match into a miss. */
  lemma MoreLinesKeepMatch(header: seq<string>, before: seq<string>, after: seq<string>, value: string)
    requires Contains(header, value)
    ensures Contains(before + header + after, value)
  {
    var i :| 0 <= i < |header| && LineContains(header[i], value);
    var all := before + header + after;
    assert all[|before| + i] == header[i];
    assert LineContains(all[|before| + i], value);
  }

  /** Adding tokens before or after a line never turns a match into a miss. */
  lemma MoreTokensKeepMatch(h: string, before: string, after: string, value: string)
    requires LineContains(h, value)
    ensures LineContains(before + "," + h, value)
    ensures LineContains(h + "," + after, value)
  {
    var j :| 0 <= j < |Split(h, ',')| && TokenMatches(Split(h, ',')[j], value);
    SplitAround(before, h, ',');
    assert Split(before + "," + h, ',')[|Split(before, ',')| + j] == Split(h, ',')[j];
    SplitAround(h, after, ',');
    assert Split(h + "," + after, ',')[j] == Split(h, ',')[j];
  }

  /** The method comparison does not fold case: a `get` request is never an upgrade. */
  lemma LowerCaseGetIsNotUpgrade(h: Header)
    ensures !IsWebSocket("get", h)
  {
  }

  /** The `Upgrade` line `websocket` of a browser's handshake holds `websocket`. */
  lemma WebSocketUpgradeLine()
    ensures Contains(["websocket"], "websocket")
  {
    var w := "websocket";
    assert ',' !in w && !IsSpace(w[0]) && !IsSpace(w[|w| - 1]);
    EqualFoldReflexive(w);
    PlainTokenMatches(w, w);
  }

  /** A browser's upgrade request is classified as WebSocket. */
  lemma BrowserUpgradeIsWebSocket(h: Header)
    requires "Connection" in h && h["Connection"] == ["keep-alive, Upgrade"]
    requires "Upgrade" in h && h["Upgrade"] == ["websocket"]
    ensures IsWebSocket("GET", h)
  {
    LaterTokenCounts();
    WebSocketUpgradeLine();
  }
}
