/**
 * The banner reader of `grab_banner`: which probe payload a port gets, and
 * which line of the reply becomes the banner. The socket itself is not
 * modelled: what the peer does with the connection is an input.
 */
module Banner {
  import opened Types
  import opened Strings

  /** Request sent to the HTTP ports 80, 8080 and 443. */
  const HeadProbe: string := "HEAD / HTTP/1.0\r\n\r\n"

  /** Request sent to the CUPS port 631. */
  const GetProbe: string := "GET / HTTP/1.0\r\nHost: localhost\r\n\r\n"

  /** Lower-cased prefix that marks an HTTP `Server:` header line. */
  const ServerPrefix: string := "server:"

  /**
   * Outcome of the single `read` into the 1024-byte buffer: `n` bytes
   * (at most 1024) arrived and `text` is their lossy UTF-8 decoding, or
   * the read failed or timed out.
   */
  datatype ReadResult = Read(n: nat, text: string) | ReadFailed

  /**
   * How the peer behaves on an open connection: whether a write of the
   * probe payload succeeds, and what the read returns.
   */
  datatype Peer = Peer(writeOk: bool, reply: ReadResult)

  /** The probe payload chosen by exact port number. */
  function ProbePayload(port: Port): (payload: string)
    ensures payload == HeadProbe <==> port == 80 || port == 8080 || port == 443
    ensures payload == GetProbe <==> port == 631
    ensures payload == [] <==> port !in {80, 8080, 443, 631}
  {
    match port
    case 80 | 8080 | 443 => HeadProbe
    case 631 => GetProbe
    case _ => ""
  }

  /** The first '\n' of `s` is at `k`. */
  lemma NewlineAt(s: string, k: nat)
    requires k < |s| && s[k] == '\n'
    requires forall i :: 0 <= i < k ==> s[i] != '\n'
    ensures NewlineIndex(s) == k
  {
  }

  /** The first line of a text that starts with `line` and a CRLF, and the text after it. */
  lemma {:induction false} FirstLineOf(text: string, line: string, rest: string)
    requires '\n' !in line && '\r' !in line
    requires text == line + "\r\n" + rest
    ensures Lines(text) == [line] + Lines(rest)
  {
    var k := |line| + 1;
    forall i | 0 <= i < k ensures text[i] != '\n' {
      if i < |line| {
        assert text[i] == line[i];
      }
    }
    NewlineAt(text, k);
    assert text[..k] == line + "\r";
    assert text[k + 1..] == rest;
  }

  /** The first line of `request` is `line` and the request ends with an empty line. */
  predicate IsHttpRequest(request: string, line: string) {
    && Lines(request) != [] && Lines(request)[0] == line
    && |request| >= 4 && request[|request| - 4..] == "\r\n\r\n"
  }

  /** A request made of a line, CRLF, and headers that end with an empty line. */
  lemma {:induction false} RequestShape(request: string, line: string, rest: string)
    requires '\n' !in line && '\r' !in line
    requires request == line + "\r\n" + rest
    requires |rest| >= 2 && request[|request| - 4..] == "\r\n\r\n"
    ensures IsHttpRequest(request, line)
  {
    FirstLineOf(request, line, rest);
  }

  /** The HEAD probe, taken apart. */
  lemma HeadProbeShape(request: string, line: string)
    requires request == HeadProbe && line == "HEAD / HTTP/1.0"
    ensures '\n' !in line && '\r' !in line
    ensures request == line + "\r\n" + "\r\n" && request[|request| - 4..] == "\r\n\r\n"
  {
  }

  /** The GET probe, taken apart. */
  lemma GetProbeShape(request: string, line: string, headers: string)
    requires request == GetProbe && line == "GET / HTTP/1.0" && headers == "Host: localhost\r\n\r\n"
    ensures '\n' !in line && '\r' !in line
    ensures request == line + "\r\n" + headers && request[|request| - 4..] == "\r\n\r\n"
  {
  }

  /** Every non-empty probe is one complete HTTP/1.0 request for "/". */
  lemma ProbesAreHttpRequests(port: Port)
    requires ProbePayload(port) != []
    ensures port == 631 ==> IsHttpRequest(ProbePayload(port), "GET / HTTP/1.0")
    ensures port != 631 ==> IsHttpRequest(ProbePayload(port), "HEAD / HTTP/1.0")
  {
    var request := ProbePayload(port);
    if port == 631 {
      GetProbeShape(request, "GET / HTTP/1.0", "Host: localhost\r\n\r\n");
      RequestShape(request, "GET / HTTP/1.0", "Host: localhost\r\n\r\n");
    } else {
      HeadProbeShape(request, "HEAD / HTTP/1.0");
      RequestShape(request, "HEAD / HTTP/1.0", "\r\n");
    }
  }

  /** The `find` predicate: the line, lower-cased, starts with "server:". */
  predicate IsServerLine(line: string): (b: bool)
    ensures b <==> |line| >= |ServerPrefix| && forall i :: 0 <= i < |ServerPrefix| ==> LowerChar(line[i]) == ServerPrefix[i]
  {
    StartsWith(ToLower(line), ServerPrefix)
  }

  /** `lines().find(..)`: index of the first `Server:` line, if any. */
  function FirstServerLine(lines: seq<string>, from: nat): (k: Option<nat>)
    requires from <= |lines|
    ensures k.Some? ==> from <= k.value < |lines| && IsServerLine(lines[k.value])
    ensures k.Some? ==> forall j :: from <= j < k.value ==> !IsServerLine(lines[j])
    ensures k.None? ==> forall j :: from <= j < |lines| ==> !IsServerLine(lines[j])
    decreases |lines| - from
  {
    if from == |lines| then None
    else if IsServerLine(lines[from]) then Some(from)
    else FirstServerLine(lines, from + 1)
  }

  /** The `Server:` line if there is one, else the first line, else "". */
  function SelectLine(lines: seq<string>): (line: string)
    ensures forall k :: 0 <= k < |lines| && IsServerLine(lines[k]) ==>
      ((forall j :: 0 <= j < k ==> !IsServerLine(lines[j])) ==> line == lines[k])
    ensures (forall k :: 0 <= k < |lines| ==> !IsServerLine(lines[k])) ==> line == if lines == [] then "" else lines[0]
    ensures lines == [] ==> line == []
    ensures lines != [] ==> line in lines
  {
    match FirstServerLine(lines, 0)
    case Some(k) => lines[k]
    case None => if lines == [] then "" else lines[0]
  }

  /** The banner taken from what the read returned. */
  function ExtractBanner(reply: ReadResult): (banner: Option<string>)
    ensures reply.ReadFailed? || reply.n == 0 ==> banner.None?
    ensures banner.Some? ==> banner.value != []
    ensures banner.Some? ==> !IsWhitespace(banner.value[0])
    ensures banner.Some? ==> !IsWhitespace(banner.value[|banner.value| - 1])
    ensures banner.Some? ==> '\n' !in banner.value
  {
    match reply
    case ReadFailed => None
    case Read(n, text) =>
      if n == 0 then None
      else
        var lines := Lines(text);
        var line := SelectLine(lines);
        var trimmed := Trim(line);
        if trimmed == [] then None else Some(trimmed)
  }

  /** `grab_banner` on an open connection to `port`. */
  function GrabBanner(port: Port, peer: Peer): (banner: Option<string>)
    ensures ProbePayload(port) != [] && !peer.writeOk ==> banner.None?
    ensures ProbePayload(port) == [] || peer.writeOk ==> banner == ExtractBanner(peer.reply)
  {
    var probe := ProbePayload(port);
    if probe != [] && !peer.writeOk then None
    else ExtractBanner(peer.reply)
  }

  /** Nothing is written to a port without a probe, so the write outcome cannot matter. */
  lemma PassivePortIgnoresWrite(port: Port, reply: ReadResult)
    requires port !in {80, 8080, 443, 631}
    ensures GrabBanner(port, Peer(true, reply)) == GrabBanner(port, Peer(false, reply))
  {
  }

  /** A lower-cased line that starts with whitespace cannot start with "server:". */
  lemma {:induction false} LeadingWhitespaceBlocksServer(line: string)
    requires line != [] && IsWhitespace(line[0])
    ensures !IsServerLine(line)
  {
    assert ToLower(line)[0] == line[0];
  }

  /** A `Server:` line survives trimming and stays a `Server:` line. */
  lemma {:induction false} TrimKeepsServerLine(line: string)
    requires IsServerLine(line)
    ensures Trim(line) != [] && IsServerLine(Trim(line))
    ensures StartsWith(line, Trim(line))
  {
    assert ToLower(line)[0] == 's' && ToLower(line)[6] == ':';
    assert !IsWhitespace(line[0]) && !IsWhitespace(line[6]);
    var e := TrailingStart(line);
    assert LeadingWhitespace(line) == 0;
    assert e > 6;
    assert Trim(line) == line[..e];
    assert ToLower(line[..e])[..7] == ToLower(line)[..7];
  }

  /**
   * When a line of the reply is a `Server:` line, the banner is the first
   * such line, trimmed, in its original casing.
   */
  lemma {:induction false} ServerLineWins(n: nat, text: string, k: nat)
    requires n > 0
    requires k < |Lines(text)| && IsServerLine(Lines(text)[k])
    requires forall j :: 0 <= j < k ==> !IsServerLine(Lines(text)[j])
    ensures ExtractBanner(Read(n, text)) == Some(Trim(Lines(text)[k]))
    ensures IsServerLine(Trim(Lines(text)[k]))
  {
    var lines := Lines(text);
    var found := FirstServerLine(lines, 0);
    assert found == Some(k);
    TrimKeepsServerLine(lines[k]);
  }

  /**
   * Without a `Server:` line the banner is the first line, trimmed; an empty
   * reply or a first line of whitespace only gives no banner.
   */
  lemma {:induction false} FirstLineFallback(n: nat, text: string)
    requires n > 0
    requires forall j :: 0 <= j < |Lines(text)| ==> !IsServerLine(Lines(text)[j])
    ensures text == [] ==> ExtractBanner(Read(n, text)).None?
    ensures text != [] ==>
      ExtractBanner(Read(n, text)) == if Trim(Lines(text)[0]) == [] then None else Some(Trim(Lines(text)[0]))
  {
  }

  /** A one-line greeting with nothing to trim is the banner as it stands. */
  lemma {:induction false} GreetingIsBanner(n: nat, greeting: string)
    requires n > 0 && greeting != []
    requires '\n' !in greeting && !IsServerLine(greeting) && Trim(greeting) == greeting
    ensures ExtractBanner(Read(n, greeting)) == Some(greeting)
  {
    assert NewlineIndex(greeting) == |greeting|;
    assert Lines(greeting) == [greeting];
    FirstLineFallback(n, greeting);
  }

  /** The OpenSSH greeting is a single line, not a `Server:` line, with nothing to trim. */
  lemma SshGreetingFacts(greeting: string)
    requires greeting == "SSH-2.0-OpenSSH_8.9"
    ensures '\n' !in greeting && !IsServerLine(greeting) && Trim(greeting) == greeting
  {
    assert ToLower(greeting)[1] == 's';
    NothingToTrim(greeting);
  }

  /** An SSH server that greets with "SSH-2.0-OpenSSH_8.9" on port 22 yields that banner. */
  lemma SshGreetingExample(greeting: string, peer: Peer)
    requires greeting == "SSH-2.0-OpenSSH_8.9"
    requires peer.reply == Read(|greeting|, greeting)
    ensures GrabBanner(22, peer) == Some(greeting)
  {
    SshGreetingFacts(greeting);
    GreetingIsBanner(|greeting|, greeting);
  }

  /** Two CRLF-terminated lines followed by `rest`, regrouped after the first line. */
  lemma TwoLines(first: string, second: string, rest: string)
    ensures first + "\r\n" + second + "\r\n" + rest == first + "\r\n" + (second + "\r\n" + rest)
  {
  }

  /** The first two lines of a text that starts with two CRLF-terminated lines. */
  lemma {:induction false} FirstTwoLines(first: string, second: string, rest: string)
    requires '\n' !in first && '\r' !in first && '\n' !in second && '\r' !in second
    ensures Lines(first + "\r\n" + second + "\r\n" + rest) == [first, second] + Lines(rest)
  {
    var text := first + "\r\n" + second + "\r\n" + rest;
    var tail := second + "\r\n" + rest;
    TwoLines(first, second, rest);
    FirstLineOf(text, first, tail);
    FirstLineOf(tail, second, rest);
  }

  /** A `Server:` line directly after the status line is the banner. */
  lemma {:induction false} ServerAfterStatusLine(n: nat, status: string, server: string, headers: string)
    requires n > 0
    requires '\n' !in status && '\r' !in status && '\n' !in server && '\r' !in server
    requires !IsServerLine(status) && IsServerLine(server)
    ensures ExtractBanner(Read(n, status + "\r\n" + server + "\r\n" + headers)) == Some(Trim(server))
  {
    var text := status + "\r\n" + server + "\r\n" + headers;
    FirstTwoLines(status, server, headers);
    ServerLineWins(n, text, 1);
  }

  /** The status line of an HTTP reply is a single line, not a `Server:` line, with nothing to trim. */
  lemma StatusLineFacts(status: string)
    requires status == "HTTP/1.1 200 OK"
    ensures '\n' !in status && '\r' !in status
    ensures !IsServerLine(status) && Trim(status) == status
  {
    assert ToLower(status)[0] == 'h';
    NothingToTrim(status);
  }

  /** "Server: nginx/1.18.0" is a single `Server:` line with nothing to trim. */
  lemma NginxServerLineFacts(server: string)
    requires server == "Server: nginx/1.18.0"
    ensures '\n' !in server && '\r' !in server
    ensures IsServerLine(server) && Trim(server) == server
  {
    assert ToLower(server)[..7] == ServerPrefix;
    NothingToTrim(server);
  }

  /** A `Server:` header among other header lines is returned verbatim. */
  lemma ServerHeaderExample(status: string, server: string, headers: string, text: string)
    requires status == "HTTP/1.1 200 OK" && server == "Server: nginx/1.18.0"
    requires headers == "Content-Type: text/html\r\n\r\n"
    requires text == status + "\r\n" + server + "\r\n" + headers
    ensures ExtractBanner(Read(|text|, text)) == Some(server)
  {
    StatusLineFacts(status);
    NginxServerLineFacts(server);
    ServerAfterStatusLine(|text|, status, server, headers);
  }

  /**
   * Whitespace before "Server:" defeats the header match, because the
   * prefix test runs before trimming; the first line is used instead.
   */
  lemma {:induction false} IndentedServerLineLoses(n: nat, status: string, server: string)
    requires n > 0
    requires '\n' !in status && '\r' !in status && '\n' !in server && '\r' !in server
    requires !IsServerLine(status) && server != [] && IsWhitespace(server[0])
    ensures ExtractBanner(Read(n, status + "\r\n" + server + "\r\n")) ==
      if Trim(status) == [] then None else Some(Trim(status))
  {
    var text := status + "\r\n" + server + "\r\n";
    assert text == status + "\r\n" + server + "\r\n" + "";
    FirstTwoLines(status, server, "");
    LeadingWhitespaceBlocksServer(server);
    FirstLineFallback(n, text);
  }

  /** " Server: x" is a single line that starts with a space. */
  lemma IndentedLineFacts(server: string)
    requires server == " Server: x"
    ensures '\n' !in server && '\r' !in server && server != [] && IsWhitespace(server[0])
  {
  }

  /** The indented `Server:` header of a reply is passed over for its status line. */
  lemma IndentedServerHeaderExample(status: string, server: string, text: string)
    requires status == "HTTP/1.1 200 OK" && server == " Server: x"
    requires text == status + "\r\n" + server + "\r\n"
    ensures ExtractBanner(Read(|text|, text)) == Some(status)
  {
    StatusLineFacts(status);
    IndentedLineFacts(server);
    IndentedServerLineLoses(|text|, status, server);
  }
}
