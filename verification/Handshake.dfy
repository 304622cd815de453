/** The opening-handshake scan `RFC6455Handler::parseHandshake` of cool_server/handler.cpp. */
module Handshake {

  // ---- Lines and searches -------------------------------------------------------------

  /** The first index of `c` at or after `from`, or the length of `s`. */
  function IndexOf(s: string, c: char, from: nat): (i: nat)
    requires from <= |s|
    ensures from <= i <= |s| && (i < |s| ==> s[i] == c) && forall k :: from <= k < i ==> s[k] != c
    decreases |s| - from
  {
    if from == |s| || s[from] == c then from else IndexOf(s, c, from + 1)
  }

  /** What repeated `getline` calls deliver. */
  function Lines(s: string): seq<string>
    decreases |s|
  {
    if s == "" then [] else
      var i := IndexOf(s, '\n', 0);
      if i == |s| then [s] else [s[..i]] + Lines(s[i + 1..])
  }

  predicate OccursAt(s: string, t: string, i: nat) {
    i + |t| <= |s| && s[i..i + |t|] == t
  }

  predicate Contains(s: string, t: string) {
    exists i :: 0 <= i <= |s| && OccursAt(s, t, i)
  }

  function SkipBlanks(s: string, from: nat): (i: nat)
    requires from <= |s|
    ensures from <= i <= |s|
    decreases |s| - from
  {
    if from < |s| && (s[from] == ' ' || s[from] == '\t') then SkipBlanks(s, from + 1) else from
  }

  predicate IsKeyLine(s: string) {
    Contains(s, "Sec-WebSocket-Key:")
  }

  predicate IsUpgradeLine(s: string) {
    !IsKeyLine(s) && Contains(s, "Upgrade: websocket")
  }

  predicate IsConnectionLine(s: string) {
    !IsKeyLine(s) && !IsUpgradeLine(s) && Contains(s, "Connection: Upgrade")
  }

  /** What follows the first colon, without leading blanks and up to a carriage return. */
  function ValueOf(s: string): string {
    var colon := IndexOf(s, ':', 0);
    if colon == |s| then "" else
      var start := SkipBlanks(s, colon + 1);
      s[start..IndexOf(s, '\r', start)]
  }

  /** The value of the last key line, if there is one. */
  function LastKey(lines: seq<string>, key: string): string {
    if lines == [] then key
    else if IsKeyLine(lines[|lines| - 1]) then ValueOf(lines[|lines| - 1])
    else LastKey(lines[..|lines| - 1], key)
  }

  function HeaderLines(request: string): seq<string> {
    if Lines(request) == [] then [] else Lines(request)[1..]
  }

  predicate IsGet(request: string) {
    Lines(request) != [] && Contains(Lines(request)[0], "GET")
  }

  /** A request is accepted if it is a GET, gives a key, and has both upgrade headers, in any order. */
  ghost predicate Accepted(request: string, key: string) {
    var headers := HeaderLines(request);
    && IsGet(request)
    && LastKey(headers, key) != ""
    && (exists i :: 0 <= i < |headers| && IsUpgradeLine(headers[i]))
    && (exists i :: 0 <= i < |headers| && IsConnectionLine(headers[i]))
  }

  lemma KeyLineHasColon(s: string)
    requires IsKeyLine(s)
    ensures IndexOf(s, ':', 0) < |s|
  {
    var t := "Sec-WebSocket-Key:";
    var i :| 0 <= i <= |s| && OccursAt(s, t, i);
    assert s[i + 17] == s[i..i + |t|][17] == ':';
  }

  method FindText(s: string, t: string) returns (found: bool)
    ensures found == Contains(s, t)
  {
    var i := 0;
    while i <= |s| - |t|
      invariant 0 <= i && forall k :: 0 <= k < i ==> !OccursAt(s, t, k)
    {
      if s[i..i + |t|] == t {
        assert OccursAt(s, t, i);
        return true;
      }
      i := i + 1;
    }
    return false;
  }

  method ExtractKey(line: string) returns (key: string)
    requires IsKeyLine(line)
    ensures key == ValueOf(line)
  {
    KeyLineHasColon(line);
    var start := IndexOf(line, ':', 0) + 1;
    while start < |line| && (line[start] == ' ' || line[start] == '\t')
      invariant IndexOf(line, ':', 0) < start <= |line|
      invariant SkipBlanks(line, start) == SkipBlanks(line, IndexOf(line, ':', 0) + 1)
    {
      start := start + 1;
    }
    key := line[start..IndexOf(line, '\r', start)];
  }

  /** `given` is the key the caller passes in; it is replaced by that of the last key line. */
  method ParseHandshake(request: string, given: string) returns (ok: bool, key: string)
    ensures ok <==> Accepted(request, given)
    ensures key == if IsGet(request) then LastKey(HeaderLines(request), given) else given
  {
    key := given;
    var lines := Lines(request);
    if lines == [] {
      return false, key;
    }
    var isGet := FindText(lines[0], "GET");
    if !isGet {
      return false, key;
    }
    var headers := lines[1..];
    var upgrade, connection := false, false;
    for i := 0 to |headers|
      invariant key == LastKey(headers[..i], given)
      invariant upgrade <==> exists k :: 0 <= k < i && IsUpgradeLine(headers[k])
      invariant connection <==> exists k :: 0 <= k < i && IsConnectionLine(headers[k])
    {
      assert headers[..i + 1][..i] == headers[..i];
      var line := headers[i];
      var keyLine := FindText(line, "Sec-WebSocket-Key:");
      if keyLine {
        key := ExtractKey(line);
      } else {
        var upgradeLine := FindText(line, "Upgrade: websocket");
        if upgradeLine {
          upgrade := true;
        } else {
          var connectionLine := FindText(line, "Connection: Upgrade");
          if connectionLine {
            connection := true;
          }
        }
      }
    }
    assert headers[..|headers|] == headers;
    ok := key != "" && upgrade && connection;
  }

  /** A text occurs in a line exactly if the line is something, the text, and something more. */
  lemma ContainsExactly(s: string, t: string)
    ensures Contains(s, t) <==> exists a: string, b: string :: s == a + t + b
  {
    if Contains(s, t) {
      var i :| 0 <= i <= |s| && OccursAt(s, t, i);
      assert s == s[..i] + t + s[i + |t|..];
    }
    if a: string, b: string :| s == a + t + b {
      assert OccursAt(s, t, |a|);
    }
  }

  // ---- A client's request -------------------------------------------------------------

  /** The lines of a request, each ended by a carriage return and a line feed. */
  function Wire(lines: seq<string>): string {
    if lines == [] then "" else lines[0] + "\r\n" + Wire(lines[1..])
  }

  predicate OneLine(s: string) {
    forall i :: 0 <= i < |s| ==> s[i] != '\n'
  }

  /** A line as `getline` delivers it, without its line feed. */
  function Delivered(line: string): string {
    line + "\r"
  }

  function WithReturns(lines: seq<string>): (r: seq<string>)
    ensures |r| == |lines|
  {
    seq(|lines|, i requires 0 <= i < |lines| => Delivered(lines[i]))
  }

  lemma LinesStep(l: string, rest: string)
    requires OneLine(l)
    ensures Lines(l + "\r\n" + rest) == [Delivered(l)] + Lines(rest)
  {
    var s := l + "\r\n" + rest;
    assert s[|l|] == '\r' && s[|l| + 1] == '\n';
    assert forall i :: 0 <= i < |l| ==> s[i] == l[i];
    assert IndexOf(s, '\n', 0) == |l| + 1;
    assert s[..|l| + 1] == Delivered(l) && s[|l| + 2..] == rest;
  }

  lemma {:induction false} LinesOfWire(lines: seq<string>)
    requires forall i :: 0 <= i < |lines| ==> OneLine(lines[i])
    ensures Lines(Wire(lines)) == WithReturns(lines)
  {
    hide Lines, OneLine, Delivered;
    if lines == [] {
      NoLines();
    } else {
      LinesStep(lines[0], Wire(lines[1..]));
      LinesOfWire(lines[1..]);
      assert WithReturns(lines) == [Delivered(lines[0])] + WithReturns(lines[1..]);
    }
  }

  lemma NoLines()
    ensures Lines("") == []
  {
  }

  predicate ValidKey(key: string) {
    key != "" && key[0] != ' ' && key[0] != '\t' && forall i :: 0 <= i < |key| ==> key[i] != '\r'
  }

  const KEY_HEADER := "Sec-WebSocket-Key: "

  lemma ValueOfKeyHeader(key: string)
    requires ValidKey(key)
    ensures IsKeyLine(Delivered(KEY_HEADER + key)) && ValueOf(Delivered(KEY_HEADER + key)) == key
  {
    var s := KEY_HEADER + key + "\r";
    assert s[0..18] == "Sec-WebSocket-Key:";
    assert OccursAt(s, "Sec-WebSocket-Key:", 0);
    assert forall i :: 0 <= i < 17 ==> s[i] != ':';
    assert s[17] == ':' && s[18] == ' ' && s[19] == key[0];
    assert IndexOf(s, ':', 0) == 17;
    assert SkipBlanks(s, 18) == SkipBlanks(s, 19) == 19;
    assert forall i :: 0 <= i < |key| ==> s[19 + i] == key[i];
    assert s[19 + |key|] == '\r';
    assert IndexOf(s, '\r', 19) == 19 + |key|;
    assert s[19..19 + |key|] == key;
  }

  lemma {:induction false} LastKeyFound(lines: seq<string>, k: nat, given: string)
    requires k < |lines| && IsKeyLine(lines[k]) && forall i :: k < i < |lines| ==> !IsKeyLine(lines[i])
    ensures LastKey(lines, given) == ValueOf(lines[k])
  {
    if k < |lines| - 1 {
      LastKeyFound(lines[..|lines| - 1], k, given);
    }
  }

  lemma HeadersOfWire(lines: seq<string>)
    requires lines != [] && forall i :: 0 <= i < |lines| ==> OneLine(lines[i])
    requires Contains(Delivered(lines[0]), "GET")
    ensures IsGet(Wire(lines))
    ensures var headers := HeaderLines(Wire(lines));
            |headers| == |lines| - 1 && forall i :: 0 < i < |lines| ==> headers[i - 1] == Delivered(lines[i])
  {
    hide Contains, Wire;
    LinesOfWire(lines);
  }

  /** A request written the way section 4.1 of RFC 6455 asks is accepted, and the key the server
      answers is the one the client sent, whatever other headers surround it in whatever order. */
  lemma RequestIsAccepted(lines: seq<string>, key: string, k: nat, u: nat, c: nat)
    requires forall i :: 0 <= i < |lines| ==> OneLine(lines[i])
    requires ValidKey(key)
    requires 0 < k < |lines| && 0 < u < |lines| && 0 < c < |lines|
    requires Contains(Delivered(lines[0]), "GET")
    requires lines[k] == KEY_HEADER + key && forall i :: k < i < |lines| ==> !IsKeyLine(Delivered(lines[i]))
    requires IsUpgradeLine(Delivered(lines[u])) && IsConnectionLine(Delivered(lines[c]))
    ensures Accepted(Wire(lines), "") && LastKey(HeaderLines(Wire(lines)), "") == key
  {
    hide Contains, IsKeyLine, IsUpgradeLine, IsConnectionLine, ValueOf, Wire;
    hide LastKey, HeaderLines, IsGet, OneLine, Delivered, ValidKey;
    HeadersOfWire(lines);
    ValueOfKeyHeader(key);
    var headers := HeaderLines(Wire(lines));
    assert headers[k - 1] == Delivered(KEY_HEADER + key);
    assert IsUpgradeLine(headers[u - 1]) && IsConnectionLine(headers[c - 1]);
    assert forall i :: k - 1 < i < |headers| ==> headers[i] == Delivered(lines[i + 1]);
    LastKeyFound(headers, k - 1, "");
    KeyIsThere(key);
  }

  lemma KeyIsThere(key: string)
    requires ValidKey(key)
    ensures key != ""
  {
  }

  /** The key line that counts is the last one; without one the key stays what it was. */
  lemma {:induction false} LastKeyExactly(lines: seq<string>, given: string)
    ensures (forall i :: 0 <= i < |lines| ==> !IsKeyLine(lines[i])) ==> LastKey(lines, given) == given
    ensures forall k :: 0 <= k < |lines| && IsKeyLine(lines[k])
                        && (forall i :: k < i < |lines| ==> !IsKeyLine(lines[i])) ==>
              LastKey(lines, given) == ValueOf(lines[k])
  {
    hide IsKeyLine, ValueOf;
    if lines != [] && !IsKeyLine(lines[|lines| - 1]) {
      LastKeyExactly(lines[..|lines| - 1], given);
    }
  }

  /** A request made of lines is accepted exactly if the first contains "GET", a later one that is no
      key line contains "Upgrade: websocket", a later one that is neither contains "Connection:
      Upgrade", and the key that counts is not empty. Without any one of them it is rejected. */
  lemma AcceptedExactly(lines: seq<string>, given: string)
    requires lines != [] && forall i :: 0 <= i < |lines| ==> OneLine(lines[i])
    ensures var ls := WithReturns(lines);
            Accepted(Wire(lines), given) <==>
              && Contains(ls[0], "GET")
              && LastKey(ls[1..], given) != ""
              && (exists u :: 0 < u < |ls| && Contains(ls[u], "Upgrade: websocket")
                              && !Contains(ls[u], "Sec-WebSocket-Key:"))
              && (exists c :: 0 < c < |ls| && Contains(ls[c], "Connection: Upgrade")
                              && !Contains(ls[c], "Upgrade: websocket") && !Contains(ls[c], "Sec-WebSocket-Key:"))
  {
    hide Wire, LastKey, Contains;
    LinesOfWire(lines);
    var ls, headers := WithReturns(lines), HeaderLines(Wire(lines));
    assert headers == ls[1..];
    assert forall i :: 0 < i < |ls| ==> ls[i] == headers[i - 1];
    assert forall i :: 0 <= i < |headers| ==> headers[i] == ls[i + 1];
    if IsGet(Wire(lines)) {
      if u :| 0 <= u < |headers| && IsUpgradeLine(headers[u]) {
        assert Contains(ls[u + 1], "Upgrade: websocket");
      }
      if c :| 0 <= c < |headers| && IsConnectionLine(headers[c]) {
        assert Contains(ls[c + 1], "Connection: Upgrade");
      }
    }
    hide Lines, Delivered;
    if u :| 0 < u < |ls| && Contains(ls[u], "Upgrade: websocket") && !Contains(ls[u], "Sec-WebSocket-Key:") {
      assert IsUpgradeLine(headers[u - 1]);
    }
    if c :| 0 < c < |ls| && Contains(ls[c], "Connection: Upgrade")
            && !Contains(ls[c], "Upgrade: websocket") && !Contains(ls[c], "Sec-WebSocket-Key:") {
      assert IsConnectionLine(headers[c - 1]);
    }
  }
}
