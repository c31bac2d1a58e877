/** Method, path and host of an HTTP request, read from the first bytes of a TCP
    payload. A byte is written as the character with its code. */
module Http {
  import opened Hosts
  import opened Utf8

  const MAX_PAYLOAD := 128

  /** A captured payload: a fixed window and the length the kernel reported. */
  datatype Event = Event(payloadLen: nat, payload: string)

  function PayloadBytes(e: Event): string {
    if e.payloadLen <= |e.payload| then e.payload[..e.payloadLen] else e.payload
  }

  /** The first position whose element satisfies `p`, or the length. */
  function Position<T>(s: seq<T>, p: T -> bool): (i: nat)
    ensures i <= |s|
    ensures forall j :: 0 <= j < i ==> !p(s[j])
    ensures i < |s| ==> p(s[i])
  {
    if s == [] || p(s[0]) then 0 else 1 + Position(s[1..], p)
  }

  function Decoded(s: string): Option<string> {
    if ValidUtf8(s) then Some(s) else None
  }

  function Is(c: char): char -> bool { d => d == c }

  function ParseMethod(payload: string): Option<string> {
    var space := Position(payload, Is(' '));
    if space == |payload| then None else Decoded(payload[..space])
  }

  function ParsePath(payload: string): Option<string> {
    var first := Position(payload, Is(' '));
    if first == |payload| then None
    else
      var rest := payload[first + 1..];
      Decoded(rest[..Position(rest, Is(' '))])
  }

  function Lower(c: char): char {
    if 'A' <= c <= 'Z' then (c as int + 32) as char else c
  }

  /** "Host:" in any case begins at position `i`. */
  predicate HostAt(s: string, i: nat) {
    && i + 5 <= |s|
    && Lower(s[i]) == 'h' && Lower(s[i + 1]) == 'o' && Lower(s[i + 2]) == 's' && Lower(s[i + 3]) == 't'
    && s[i + 4] == ':'
  }

  /** The first position where "Host:" begins, or the length. */
  function HostPosition(s: string, from: nat): (i: nat)
    requires from <= |s|
    ensures from <= i <= |s|
    ensures i < |s| ==> HostAt(s, i)
    ensures forall j :: from <= j < i ==> !HostAt(s, j)
    decreases |s| - from
  {
    if from == |s| then |s| else if HostAt(s, from) then from else HostPosition(s, from + 1)
  }

  predicate NotBlank(c: char) { c != ' ' && c != '\t' }

  predicate EndsLine(c: char) { c == '\r' || c == '\n' }

  function HeaderValue(after: string): Option<string> {
    var start := Position(after, NotBlank);
    if start == |after| then None
    else
      var value := after[start..];
      Some(value[..Position(value, EndsLine)])
  }

  function ParseHost(payload: string): Option<string> {
    var host := HostPosition(payload, 0);
    if host == |payload| then None
    else
      var value := HeaderValue(payload[host + 5..]);
      if value.None? || !ValidUtf8(value.value) then None else Some(StripPort(value.value))
  }

  /** "Host:" stands at position `i`, each letter in either case. */
  ghost predicate NamesHost(s: string, i: nat) {
    && i + 5 <= |s| && s[i] in {'h', 'H'} && s[i + 1] in {'o', 'O'} && s[i + 2] in {'s', 'S'}
    && s[i + 3] in {'t', 'T'} && s[i + 4] == ':'
  }

  lemma LowerIs(c: char)
    ensures Lower(c) == 'h' <==> c in {'h', 'H'}
    ensures Lower(c) == 'o' <==> c in {'o', 'O'}
    ensures Lower(c) == 's' <==> c in {'s', 'S'}
    ensures Lower(c) == 't' <==> c in {'t', 'T'}
  {
  }

  lemma HostAtIff(s: string, i: nat)
    ensures HostAt(s, i) <==> NamesHost(s, i)
  {
    if i + 5 <= |s| {
      LowerIs(s[i]);
      LowerIs(s[i + 1]);
      LowerIs(s[i + 2]);
      LowerIs(s[i + 3]);
    }
  }

  lemma PositionSplit<T>(front: seq<T>, back: seq<T>, p: T -> bool)
    requires forall i :: 0 <= i < |front| ==> !p(front[i])
    requires back != [] ==> p(back[0])
    ensures Position(front + back, p) == |front|
    ensures (front + back)[..|front|] == front && (front + back)[|front|..] == back
  {
    var s := front + back;
    assert forall i :: 0 <= i < |front| ==> s[i] == front[i];
    assert back != [] ==> s[|front|] == back[0];
  }

  lemma PositionCut<T>(s: seq<T>, p: T -> bool) returns (front: seq<T>, back: seq<T>)
    ensures s == front + back && front == s[..Position(s, p)] && back == s[Position(s, p)..]
    ensures forall i :: 0 <= i < |front| ==> !p(front[i])
    ensures back != [] ==> p(back[0])
  {
    front, back := s[..Position(s, p)], s[Position(s, p)..];
  }

  /** The method is what stands before the first space, if that is valid text. */
  lemma MethodExact(payload: string, httpMethod: string)
    ensures ParseMethod(payload) == Some(httpMethod)
       <==> httpMethod + " " <= payload && ' ' !in httpMethod && ValidUtf8(httpMethod)
  {
    var space := Position(payload, Is(' '));
    if httpMethod + " " <= payload && ' ' !in httpMethod {
      assert payload[|httpMethod|] == (httpMethod + " ")[|httpMethod|];
      assert payload[..|httpMethod|] == httpMethod;
      assert space == |httpMethod|;
    }
    if space < |payload| {
      assert payload[..space] + " " == payload[..space + 1];
    }
  }

  /** The path stands between the first space and the next one or the end. */
  ghost predicate RequestLine(payload: string, httpMethod: string, path: string) {
    && ' ' !in httpMethod && ' ' !in path
    && (payload == httpMethod + " " + path || httpMethod + " " + path + " " <= payload)
  }

  lemma RequestLineRead(payload: string, httpMethod: string, path: string, line: string)
    requires ' ' !in httpMethod && ' ' !in path && payload == httpMethod + ([' '] + (path + line))
    requires line != "" ==> line[0] == ' '
    ensures ParsePath(payload) == Decoded(path)
  {
    PositionSplit(httpMethod, [' '] + (path + line), Is(' '));
    PositionSplit(path, line, Is(' '));
    assert payload[|httpMethod| + 1..] == path + line;
  }

  lemma RequestLineSplit(payload: string, httpMethod: string, path: string) returns (line: string)
    requires RequestLine(payload, httpMethod, path)
    ensures payload == httpMethod + ([' '] + (path + line)) && (line != "" ==> line[0] == ' ')
  {
    line := payload[|httpMethod| + 1 + |path|..];
    var head := httpMethod + " " + path;
    if payload != head {
      assert head + " " <= payload;
      assert payload[|head|] == (head + " ")[|head|];
    }
    assert head <= payload;
    assert payload == head + line;
  }

  lemma PathSplit(payload: string) returns (httpMethod: string, path: string)
    requires Position(payload, Is(' ')) < |payload|
    ensures RequestLine(payload, httpMethod, path) && ParsePath(payload) == Decoded(path)
  {
    var back, line;
    httpMethod, back := PositionCut(payload, Is(' '));
    path, line := PositionCut(back[1..], Is(' '));
    assert back == [' '] + (path + line);
    assert payload == httpMethod + ([' '] + (path + line));
    RequestLineRead(payload, httpMethod, path, line);
    LineJoined(payload, httpMethod, path, line);
  }

  lemma LineJoined(payload: string, httpMethod: string, path: string, line: string)
    requires ' ' !in httpMethod && ' ' !in path && payload == httpMethod + ([' '] + (path + line))
    requires line != "" ==> line[0] == ' '
    ensures RequestLine(payload, httpMethod, path)
  {
    if line == "" {
      assert payload == httpMethod + " " + path;
    } else {
      assert line == " " + line[1..];
      assert payload == (httpMethod + " " + path + " ") + line[1..];
    }
  }

  lemma PathExact(payload: string, path: string)
    ensures ParsePath(payload) == Some(path)
       <==> ValidUtf8(path) && exists httpMethod :: RequestLine(payload, httpMethod, path)
  {
    if httpMethod :| RequestLine(payload, httpMethod, path) {
      var line := RequestLineSplit(payload, httpMethod, path);
      RequestLineRead(payload, httpMethod, path, line);
    }
    if ParsePath(payload) == Some(path) {
      var httpMethod, path' := PathSplit(payload);
    }
  }

  ghost predicate Blank(s: string) { forall i :: 0 <= i < |s| ==> s[i] == ' ' || s[i] == '\t' }

  ghost predicate OneLine(s: string) { forall i :: 0 <= i < |s| ==> s[i] != '\r' && s[i] != '\n' }

  /** What follows a field name: blanks, a host, perhaps a port, and then the
      end of the line or of the payload. */
  ghost predicate FieldValue(after: string, blanks: string, host: string, port: string, rest: string) {
    && after == blanks + host + port + rest
    && Blank(blanks) && OneLine(host + port) && ':' !in host
    && (port == "" || port[0] == ':')
    && (rest == "" || rest[0] == '\r' || rest[0] == '\n')
    && host + port + rest != "" && (host + port + rest)[0] != ' ' && (host + port + rest)[0] != '\t'
  }

  /** Position `i` is the first at which "Host:" stands. */
  ghost predicate FirstHost(payload: string, i: nat) {
    NamesHost(payload, i) && forall j: nat :: j < i ==> !NamesHost(payload, j)
  }

  lemma PortStripped(host: string, port: string)
    requires ':' !in host && (port == "" || port[0] == ':')
    ensures StripPort(host + port) == host
  {
    var s := host + port;
    assert forall i :: 0 <= i < |host| ==> s[i] == host[i];
    assert port != "" ==> s[|host|] == ':';
    assert s[..|host|] == host;
  }

  lemma ValueRead(after: string, blanks: string, host: string, port: string, rest: string)
    requires FieldValue(after, blanks, host, port, rest)
    ensures HeaderValue(after) == Some(host + port)
  {
    var value := host + port + rest;
    assert after == blanks + value;
    PositionSplit(blanks, value, NotBlank);
    PositionSplit(host + port, rest, EndsLine);
  }

  lemma ShownSplit(shown: string) returns (host: string, port: string)
    ensures shown == host + port && ':' !in host && (port == "" || port[0] == ':') && StripPort(shown) == host
  {
    var colon := IndexOf(shown, ':');
    host, port := shown[..colon], shown[colon..];
  }

  lemma ValueSplit(after: string) returns (blanks: string, value: string, shown: string, rest: string)
    requires HeaderValue(after).Some?
    ensures after == blanks + value && value == shown + rest && HeaderValue(after).value == shown
    ensures Blank(blanks) && value != "" && NotBlank(value[0])
    ensures OneLine(shown) && (rest == "" || EndsLine(rest[0]))
  {
    blanks, value := PositionCut(after, NotBlank);
    shown, rest := PositionCut(value, EndsLine);
  }

  lemma ValueFits(blanks: string, host: string, port: string, rest: string)
    requires Blank(blanks) && OneLine(host + port) && ':' !in host && (port == "" || port[0] == ':')
    requires rest == "" || EndsLine(rest[0])
    requires host + port + rest != "" && NotBlank((host + port + rest)[0])
    ensures FieldValue(blanks + (host + port + rest), blanks, host, port, rest)
  {
    assert blanks + (host + port + rest) == blanks + host + port + rest;
  }

  lemma FirstHostPosition(payload: string, i: nat)
    ensures FirstHost(payload, i) <==> HostPosition(payload, 0) == i && i < |payload|
  {
    forall j: nat ensures HostAt(payload, j) <==> NamesHost(payload, j) {
      HostAtIff(payload, j);
    }
  }

  /** The first "Host:" is at `i`, with this host and perhaps a port. */
  ghost predicate HostLine(payload: string, i: nat, blanks: string, host: string, port: string, rest: string) {
    && FirstHost(payload, i) && FieldValue(payload[i + 5..], blanks, host, port, rest)
    && ValidUtf8(host + port)
  }

  lemma HostLineRead(payload: string, i: nat, blanks: string, host: string, port: string, rest: string)
    requires HostLine(payload, i, blanks, host, port, rest)
    ensures ParseHost(payload) == Some(host)
  {
    FirstHostPosition(payload, i);
    ValueRead(payload[i + 5..], blanks, host, port, rest);
    PortStripped(host, port);
  }

  lemma HostLineFound(payload: string)
    returns (i: nat, blanks: string, host: string, port: string, rest: string)
    requires ParseHost(payload).Some?
    ensures HostLine(payload, i, blanks, host, port, rest) && ParseHost(payload).value == host
  {
    i := HostPosition(payload, 0);
    FirstHostPosition(payload, i);
    var value, shown;
    blanks, value, shown, rest := ValueSplit(payload[i + 5..]);
    host, port := ShownSplit(shown);
    ValueFits(blanks, host, port, rest);
  }

  /** The host is the value of the first "Host:" without its port, if the value
      is not missing and is valid text. */
  lemma HostExact(payload: string, host: string)
    ensures ParseHost(payload) == Some(host)
       <==> exists i, blanks, port, rest :: HostLine(payload, i, blanks, host, port, rest)
  {
    if i, blanks, port, rest :| HostLine(payload, i, blanks, host, port, rest) {
      HostLineRead(payload, i, blanks, host, port, rest);
    }
    if ParseHost(payload) == Some(host) {
      var i, blanks, host', port, rest := HostLineFound(payload);
    }
  }

  /** The bytes of a request up to the end of the Host header's value. */
  function Head(httpMethod: string, target: string, field: string, blanks: string, host: string, port: string): string {
    httpMethod + " " + target + " HTTP/1.1\r\n" + field + blanks + host + port
  }

  /** A method token, a target without spaces, a Host field name in any case
      followed by blanks, a host and perhaps a port. */
  ghost predicate WellFormed(httpMethod: string, target: string, field: string, blanks: string, host: string,
                             port: string) {
    && ' ' !in httpMethod && ':' !in httpMethod && ' ' !in target
    && (forall i: nat :: !NamesHost(target, i))
    && ValidUtf8(httpMethod) && ValidUtf8(target) && ValidUtf8(host + port)
    && |field| == 5 && NamesHost(field, 0) && Blank(blanks) && OneLine(host + port) && ':' !in host
    && (port == "" || port[0] == ':')
    && (host == "" || (host[0] != ' ' && host[0] != '\t'))
  }

  /** "Host:" holds no space and no line end, so it cannot straddle one. */
  lemma NoHostAcross(front: string, c: char, back: string, i: nat)
    requires c == ' ' || c == '\n'
    requires HostAt(front + [c] + back, i)
    ensures HostAt(front, i) || (i > |front| && HostAt(back, i - |front| - 1))
  {
    var s := front + [c] + back;
    assert s[|front|] == c;
    if i + 5 <= |front| {
      assert forall k :: i <= k < i + 5 ==> s[k] == front[k];
    } else if i > |front| {
      assert forall k :: i <= k < i + 5 ==> s[k] == back[k - |front| - 1];
    }
  }

  lemma NoHostBefore(httpMethod: string, target: string, back: string, i: nat)
    requires ':' !in httpMethod
    requires forall k: nat :: !HostAt(target, k)
    requires HostAt(httpMethod + [' '] + (target + [' '] + ("HTTP/1.1\r" + ['\n'] + back)), i)
    ensures i >= |httpMethod| + |target| + 12
  {
    var line := "HTTP/1.1\r" + ['\n'] + back;
    NoHostAcross(httpMethod, ' ', target + [' '] + line, i);
    assert !HostAt(httpMethod, i);
    var j := i - |httpMethod| - 1;
    NoHostAcross(target, ' ', line, j);
    var k := j - |target| - 1;
    NoHostAcross("HTTP/1.1\r", '\n', back, k);
  }

  lemma HostFound(payload: string, i: nat)
    requires HostAt(payload, i) && forall j: nat :: HostAt(payload, j) ==> j >= i
    ensures HostPosition(payload, 0) == i
  {
  }

  lemma HostOffset(httpMethod: string, target: string, field: string, after: string)
    requires ':' !in httpMethod && |field| == 5 && NamesHost(field, 0)
    requires forall k: nat :: !HostAt(target, k)
    ensures var payload := httpMethod + [' '] + (target + [' '] + ("HTTP/1.1\r" + ['\n'] + (field + after)));
            var offset := HostPosition(payload, 0);
            offset + 5 <= |payload| && payload[offset + 5..] == after
  {
    var payload := httpMethod + [' '] + (target + [' '] + ("HTTP/1.1\r" + ['\n'] + (field + after)));
    var offset := |httpMethod| + |target| + 12;
    assert payload[offset..] == field + after;
    assert forall k :: 0 <= k < 5 ==> payload[offset + k] == field[k];
    HostAtIff(payload, offset);
    forall j: nat | HostAt(payload, j) ensures j >= offset {
      NoHostBefore(httpMethod, target, field + after, j);
    }
    HostFound(payload, offset);
  }

  lemma HeadShape(httpMethod: string, target: string, field: string, blanks: string, host: string, port: string,
                  rest: string)
    ensures Head(httpMethod, target, field, blanks, host, port) + rest
         == httpMethod + [' '] + (target + [' '] + ("HTTP/1.1\r" + ['\n'] + (field + (blanks + host + port + rest))))
  {
    assert " HTTP/1.1\r\n" == [' '] + ("HTTP/1.1\r" + ['\n']);
  }

  lemma HeadParsed(httpMethod: string, target: string, field: string, blanks: string, host: string, port: string,
                   rest: string)
    requires WellFormed(httpMethod, target, field, blanks, host, port)
    requires host + port + rest != "" && (rest == "" || rest[0] == '\r' || rest[0] == '\n')
    ensures var payload := Head(httpMethod, target, field, blanks, host, port) + rest;
            && ParseMethod(payload) == Some(httpMethod) && ParsePath(payload) == Some(target)
            && ParseHost(payload) == Some(host)
  {
    var payload := Head(httpMethod, target, field, blanks, host, port) + rest;
    var after := blanks + host + port + rest;
    HeadShape(httpMethod, target, field, blanks, host, port, rest);
    LineParsed(payload, httpMethod, target, "HTTP/1.1\r" + ['\n'] + (field + after));
    forall k: nat ensures !HostAt(target, k) {
      HostAtIff(target, k);
    }
    HostOffset(httpMethod, target, field, after);
    AfterField(blanks, host, port, rest);
    HostParsed(payload, after, host, port);
  }

  lemma AfterField(blanks: string, host: string, port: string, rest: string)
    requires Blank(blanks) && OneLine(host + port) && ':' !in host && (port == "" || port[0] == ':')
    requires host == "" || (host[0] != ' ' && host[0] != '\t')
    requires host + port + rest != "" && (rest == "" || rest[0] == '\r' || rest[0] == '\n')
    ensures HeaderValue(blanks + host + port + rest) == Some(host + port) && StripPort(host + port) == host
  {
    var value := host + port + rest;
    assert value[0] == if host != "" then host[0] else if port != "" then port[0] else rest[0];
    ValueRead(blanks + host + port + rest, blanks, host, port, rest);
    PortStripped(host, port);
  }

  lemma HostParsed(payload: string, after: string, host: string, port: string)
    requires HostPosition(payload, 0) + 5 <= |payload| && payload[HostPosition(payload, 0) + 5..] == after
    requires HeaderValue(after) == Some(host + port) && StripPort(host + port) == host && ValidUtf8(host + port)
    ensures ParseHost(payload) == Some(host)
  {
  }

  lemma LineParsed(payload: string, httpMethod: string, target: string, line: string)
    requires payload == httpMethod + [' '] + (target + [' '] + line)
    requires ' ' !in httpMethod && ' ' !in target && ValidUtf8(httpMethod) && ValidUtf8(target)
    ensures ParseMethod(payload) == Some(httpMethod) && ParsePath(payload) == Some(target)
  {
    assert payload == (httpMethod + " ") + (target + [' '] + line);
    MethodExact(payload, httpMethod);
    assert payload == httpMethod + ([' '] + (target + ([' '] + line)));
    RequestLineRead(payload, httpMethod, target, [' '] + line);
  }

  /** A request as it is captured: cut at the window, padded with zeros. */
  function Captured(request: string): Event {
    Event(|request|,
          if |request| >= MAX_PAYLOAD then request[..MAX_PAYLOAD]
          else request + seq(MAX_PAYLOAD - |request|, i => '\0'))
  }

  /** The parsers see the first 128 bytes, and nothing of the padding. */
  lemma CapturedBytes(request: string)
    ensures |Captured(request).payload| == 128
    ensures PayloadBytes(Captured(request)) == if |request| >= 128 then request[..128] else request
  {
  }

  /** A request whose Host header comes first and fits the window of 128 bytes
      parses back to its method, target and host without port, however long the
      request goes on. */
  lemma RequestRoundTrip(httpMethod: string, target: string, field: string, blanks: string, host: string, port: string,
                         rest: string)
    requires WellFormed(httpMethod, target, field, blanks, host, port)
    requires host + port != "" && (rest == "" || rest[0] == '\r' || rest[0] == '\n')
    requires |Head(httpMethod, target, field, blanks, host, port)| <= 128
    ensures var bytes := PayloadBytes(Captured(Head(httpMethod, target, field, blanks, host, port) + rest));
            ParseMethod(bytes) == Some(httpMethod) && ParsePath(bytes) == Some(target) && ParseHost(bytes) == Some(host)
  {
    var head := Head(httpMethod, target, field, blanks, host, port);
    var bytes := PayloadBytes(Captured(head + rest));
    CapturedBytes(head + rest);
    assert bytes[..|head|] == head;
    var tail := bytes[|head|..];
    assert bytes == head + tail;
    assert tail != "" ==> tail[0] == (head + rest)[|head|] == rest[0];
    HeadParsed(httpMethod, target, field, blanks, host, port, tail);
  }

  lemma PositionPrefix<T>(s: seq<T>, t: seq<T>, p: T -> bool)
    requires s <= t
    ensures Position(s, p) < |s| ==> Position(t, p) == Position(s, p)
    ensures Position(s, p) == |s| ==> Position(t, p) >= |s|
    ensures s[..Position(s, p)] <= t[..Position(t, p)]
  {
    assert forall i :: 0 <= i < |s| ==> s[i] == t[i];
  }

  lemma HeaderValuePrefix(s: string, t: string)
    requires s <= t && HeaderValue(s).Some?
    ensures HeaderValue(t).Some? && HeaderValue(s).value <= HeaderValue(t).value
  {
    PositionPrefix(s, t, NotBlank);
    var start := Position(s, NotBlank);
    assert s[start..] <= t[start..];
    PositionPrefix(s[start..], t[start..], EndsLine);
  }

  lemma IndexOfPrefix(s: string, t: string, c: char)
    requires s <= t
    ensures s[..IndexOf(s, c)] <= t[..IndexOf(t, c)]
  {
    assert forall k :: 0 <= k < |s| ==> s[k] == t[k];
  }

  lemma HostPositionPrefix(s: string, t: string)
    requires s <= t && HostPosition(s, 0) < |s|
    ensures HostPosition(t, 0) == HostPosition(s, 0)
  {
    var i := HostPosition(s, 0);
    assert HostAt(t, i);
    forall j: nat | HostAt(t, j) ensures j >= i {
      if j < i {
        assert HostAt(s, j);
      }
    }
    HostFound(t, i);
  }

  lemma MethodTruncated(truncated: string, full: string)
    requires truncated <= full && ParseMethod(truncated).Some?
    ensures ParseMethod(truncated) == ParseMethod(full)
  {
    PositionPrefix(truncated, full, Is(' '));
    var space := Position(truncated, Is(' '));
    assert truncated[..space] == full[..space];
  }

  lemma PathTruncated(truncated: string, full: string)
    requires truncated <= full && ParsePath(truncated).Some? && ParsePath(full).Some?
    ensures ParsePath(truncated).value <= ParsePath(full).value
  {
    PositionPrefix(truncated, full, Is(' '));
    var first := Position(truncated, Is(' '));
    assert truncated[first + 1..] <= full[first + 1..];
    PositionPrefix(truncated[first + 1..], full[first + 1..], Is(' '));
  }

  lemma HostTruncated(truncated: string, full: string)
    requires truncated <= full && ParseHost(truncated).Some? && ParseHost(full).Some?
    ensures ParseHost(truncated).value <= ParseHost(full).value
  {
    HostPositionPrefix(truncated, full);
    var host := HostPosition(truncated, 0);
    assert truncated[host + 5..] <= full[host + 5..];
    HeaderValuePrefix(truncated[host + 5..], full[host + 5..]);
    IndexOfPrefix(HeaderValue(truncated[host + 5..]).value, HeaderValue(full[host + 5..]).value, ':');
  }

  /** Truncation only shortens: where both the truncated and the full payload
      parse, the truncated result is a prefix of the full one, and the methods
      are equal. */
  lemma TruncationPrefix(truncated: string, full: string)
    requires truncated <= full
    ensures ParseMethod(truncated).Some? ==> ParseMethod(truncated) == ParseMethod(full)
    ensures ParsePath(truncated).Some? && ParsePath(full).Some? ==> ParsePath(truncated).value <= ParsePath(full).value
    ensures ParseHost(truncated).Some? && ParseHost(full).Some? ==> ParseHost(truncated).value <= ParseHost(full).value
  {
    if ParseMethod(truncated).Some? {
      MethodTruncated(truncated, full);
    }
    if ParsePath(truncated).Some? && ParsePath(full).Some? {
      PathTruncated(truncated, full);
    }
    if ParseHost(truncated).Some? && ParseHost(full).Some? {
      HostTruncated(truncated, full);
    }
  }
}
