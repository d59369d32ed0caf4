/** The non-I/O part of `main` in index.js: validation in a fixed order,
    the choice of port, the request lines and their serialisation. */
module Curl {
  import opened Errors
  import opened Text
  import opened Decimal
  import opened Utf8
  import opened Validators
  import opened Builder

  /** The parts of `new URL(url)` that `main` reads. */
  datatype Url = Url(host: string, pathname: string, protocol: string)

  /** What `main` hands to the socket: where to connect and what to write. */
  datatype Outgoing = Outgoing(host: string, port: nat, text: string)

  /** `protocol === "http:" ? 80 : 443`. */
  function PortFor(protocol: string): (port: nat)
    ensures port == 80 <==> protocol == "http:"
    ensures port == 80 || port == 443
  {
    if protocol == "http:" then 80 else 443
  }

  /** `lines.join("\r\n")` followed by "\r\n\r\n": the lines, then the empty
      line that closes the header section. */
  function Serialize(lines: seq<string>): (text: string)
    ensures |text| >= 4 && text[|text| - 4..] == "\r\n\r\n"
    ensures text[..|text| - 4] == Join(lines, CRLF)
  {
    Join(lines, CRLF) + CRLF + CRLF
  }

  /** `main` without the socket: the method, then the body against the raw
      method, then the protocol while building the base lines, then for a raw
      POST or PUT the body extension; the text is the serialised lines. */
  function PrepareRequest(url: Url, rawMethod: Option<string>, body: Option<string>,
                          header: Option<seq<string>>): (r: Result<Outgoing>)
    ensures r.Ok? ==> r.value.host == url.host
    ensures r.Ok? ==> (r.value.port == 80 <==> url.protocol == "http:")
    ensures r.Ok? ==> (r.value.port == 443 <==> url.protocol == "https:")
  {
    match ValidateMethod(rawMethod)
    case Err(e) => Err(e)
    case Ok(httpMethod) =>
      match ValidateBody(body, rawMethod)
      case Fail(e) => Err(e)
      case Pass =>
        var port := PortFor(url.protocol);
        match BuildBaseProtocolText(url.host, url.pathname, url.protocol, httpMethod, header)
        case Err(e) => Err(e)
        case Ok(base) =>
          var lines := if BodyAllowed(rawMethod) then PutAndPostHttpExtension(body, base) else Ok(base);
          match lines
          case Err(e) => Err(e)
          case Ok(ls) => Ok(Outgoing(url.host, port, Serialize(ls)))
  }

  /** The method that goes on the request line. */
  function EffectiveMethod(rawMethod: Option<string>): string {
    if Truthy(rawMethod) then rawMethod.value else "GET"
  }

  /** The request lines a successful run sends, written out directly:
      request line, Host, Accept, Connection, the caller's headers, and for
      POST and PUT the Content-Length line, an empty line and the body. */
  function ExpectedLines(url: Url, rawMethod: Option<string>, body: Option<string>,
                         header: Option<seq<string>>): seq<string>
  {
    var standard := [EffectiveMethod(rawMethod) + " " + url.pathname + " HTTP/1.1",
                     "Host: " + url.host, "Accept: */*", "Connection: close"]
                    + HeadersOrEmpty(header);
    if BodyAllowed(rawMethod) && body.Some? then
      standard + [ContentLengthName + NatToString(ByteLength(body.value)), "", body.value]
    else standard
  }

  /** Every failure of `main` happens before any socket exists, and the
      first failing check decides the error: BadHttpMethod, then
      BodyNotAllowedMethod, then UnrecognisableProtocol, then NoBodyError,
      then NoContentTypeHeader. */
  lemma PrepareRequestErrorOrder(url: Url, rawMethod: Option<string>, body: Option<string>,
                                 header: Option<seq<string>>)
    ensures var r := PrepareRequest(url, rawMethod, body, header);
            var methodOk := !Truthy(rawMethod) || rawMethod.value in AcceptedMethods;
            var bodyOk := !Truthy(body) || BodyAllowed(rawMethod);
            var protocolOk := url.protocol == "http:" || url.protocol == "https:";
            var hasBody := Truthy(body);
            var hasType := HasContentType(HeadersOrEmpty(header));
            && (r == Err(BadHttpMethod) <==> !methodOk)
            && (r == Err(BodyNotAllowedMethod) <==> methodOk && !bodyOk)
            && (r == Err(UnrecognisableProtocol) <==> methodOk && bodyOk && !protocolOk)
            && (r == Err(NoBodyError) <==> methodOk && bodyOk && protocolOk && BodyAllowed(rawMethod) && !hasBody)
            && (r == Err(NoContentTypeHeader) <==>
                  methodOk && bodyOk && protocolOk && BodyAllowed(rawMethod) && hasBody && !hasType)
            && (r.Ok? <==> methodOk && bodyOk && protocolOk && (BodyAllowed(rawMethod) ==> hasBody && hasType))
            && r != Err(SocketConnectionError)
  {
    var vm := ValidateMethod(rawMethod);
    if vm.Ok? && ValidateBody(body, rawMethod).Pass? {
      var b := BuildBaseProtocolText(url.host, url.pathname, url.protocol, vm.value, header);
      if b.Ok? {
        ContentTypeOnlyFromCustomHeaders(url.host, url.pathname, url.protocol, vm.value, header);
      }
    }
  }

  /** On success the text written to the socket is exactly the expected
      lines serialised, and the body lines are there exactly when the raw
      method is POST or PUT, which is also exactly when a body was given. */
  lemma PrepareRequestText(url: Url, rawMethod: Option<string>, body: Option<string>,
                          header: Option<seq<string>>)
    requires PrepareRequest(url, rawMethod, body, header).Ok?
    ensures PrepareRequest(url, rawMethod, body, header).value.text
            == Serialize(ExpectedLines(url, rawMethod, body, header))
    ensures |ExpectedLines(url, rawMethod, body, header)|
            == 4 + |HeadersOrEmpty(header)| + (if BodyAllowed(rawMethod) then 3 else 0)
    ensures BodyAllowed(rawMethod) <==> Truthy(body)
  {
    var httpMethod := ValidateMethod(rawMethod).value;
    assert httpMethod == EffectiveMethod(rawMethod);
    var base := BuildBaseProtocolText(url.host, url.pathname, url.protocol, httpMethod, header).value;
    var hs := HeadersOrEmpty(header);
    var standard := [EffectiveMethod(rawMethod) + " " + url.pathname + " HTTP/1.1",
                     "Host: " + url.host, "Accept: */*", "Connection: close"] + hs;
    assert base == base[..4] + base[4..];
    assert base == standard;
    if BodyAllowed(rawMethod) {
      var ext := PutAndPostHttpExtension(body, base).value;
      assert ext == ext[..|base|] + ext[|base|..];
      assert ext[|base|..] == [ContentLengthHeader(body.value), "", body.value];
    }
  }

  /** Serialising is joining with CRLF after two more empty lines. */
  lemma SerializeAsJoin(lines: seq<string>)
    requires |lines| > 0
    ensures Serialize(lines) == Join(lines + ["", ""], CRLF)
  {
    JoinAppend(lines, ["", ""], CRLF);
    JoinCons("", [""], CRLF);
    assert Join(["", ""], CRLF) == CRLF;
  }

  /** Splitting the request text on CRLF gives back the expected lines and
      two empty strings, provided no input smuggles in a CRLF of its own. */
  lemma RequestRoundTrip(url: Url, rawMethod: Option<string>, body: Option<string>,
                         header: Option<seq<string>>)
    requires PrepareRequest(url, rawMethod, body, header).Ok?
    requires NoCrlf(url.host) && NoCrlf(url.pathname)
    requires forall k :: 0 <= k < |HeadersOrEmpty(header)| ==> NoCrlf(HeadersOrEmpty(header)[k])
    requires body.Some? ==> NoCrlf(body.value)
    ensures Split(PrepareRequest(url, rawMethod, body, header).value.text, CRLF)
            == ExpectedLines(url, rawMethod, body, header) + ["", ""]
  {
    PrepareRequestText(url, rawMethod, body, header);
    var lines := ExpectedLines(url, rawMethod, body, header);
    ExpectedLinesNoCrlf(url, rawMethod, body, header);
    var all := lines + ["", ""];
    assert forall k :: 0 <= k < |all| ==> NoCrlf(all[k]);
    SerializeAsJoin(lines);
    SplitJoinCrlf(all);
  }

  /** The standard lines hold no CRLF unless the host or the path does. */
  lemma StandardLinesNoCrlf(httpMethod: string, host: string, pathname: string)
    requires httpMethod in AcceptedMethods
    requires NoCrlf(host) && NoCrlf(pathname)
    ensures NoCrlf(httpMethod + " " + pathname + " HTTP/1.1")
    ensures NoCrlf("Host: " + host)
    ensures NoCrlf("Accept: */*") && NoCrlf("Connection: close")
  {
    NoCrlfWithoutCr(httpMethod + " ");
    NoCrlfWithoutCr(" HTTP/1.1");
    NoCrlfWithoutCr("Host: ");
    NoCrlfWithoutCr("Accept: */*");
    NoCrlfWithoutCr("Connection: close");
    NoCrlfConcat(httpMethod + " ", pathname);
    NoCrlfConcat(httpMethod + " " + pathname, " HTTP/1.1");
    NoCrlfConcat("Host: ", host);
  }

  /** The expected lines hold no CRLF unless an input does. */
  lemma ExpectedLinesNoCrlf(url: Url, rawMethod: Option<string>, body: Option<string>,
                            header: Option<seq<string>>)
    requires ValidateMethod(rawMethod).Ok?
    requires NoCrlf(url.host) && NoCrlf(url.pathname)
    requires forall k :: 0 <= k < |HeadersOrEmpty(header)| ==> NoCrlf(HeadersOrEmpty(header)[k])
    requires body.Some? ==> NoCrlf(body.value)
    ensures forall k :: 0 <= k < |ExpectedLines(url, rawMethod, body, header)|
                        ==> NoCrlf(ExpectedLines(url, rawMethod, body, header)[k])
  {
    var lines := ExpectedLines(url, rawMethod, body, header);
    var hs := HeadersOrEmpty(header);
    var m := EffectiveMethod(rawMethod);
    StandardLinesNoCrlf(m, url.host, url.pathname);
    forall k | 0 <= k < |lines| ensures NoCrlf(lines[k]) {
      if 4 <= k < 4 + |hs| {
        assert lines[k] == hs[k - 4];
      } else if BodyAllowed(rawMethod) && body.Some? && k == 4 + |hs| {
        var numeral := NatToString(ByteLength(body.value));
        NoCrlfWithoutCr(ContentLengthName);
        NoCrlfWithoutCr(numeral);
        NoCrlfConcat(ContentLengthName, numeral);
      }
    }
  }

  /** For POST and PUT the text is a header block ending in CRLF CRLF, then
      the body, then another CRLF CRLF: four bytes more than the
      Content-Length line announces follow the header block. */
  lemma BodyFraming(url: Url, rawMethod: Option<string>, body: Option<string>,
                    header: Option<seq<string>>)
    requires PrepareRequest(url, rawMethod, body, header).Ok?
    requires BodyAllowed(rawMethod)
    ensures var lines := ExpectedLines(url, rawMethod, body, header);
            var head := lines[..|lines| - 2];
            PrepareRequest(url, rawMethod, body, header).value.text
              == Join(head, CRLF) + "\r\n\r\n" + body.value + "\r\n\r\n"
  {
    PrepareRequestText(url, rawMethod, body, header);
    var lines := ExpectedLines(url, rawMethod, body, header);
    assert |lines| >= 3 && lines[|lines| - 2] == "" && lines[|lines| - 1] == body.value;
    SerializeWithBody(lines);
  }

  /** Serialising lines that end in an empty line and a body puts the body
      between two CRLF CRLF. */
  lemma SerializeWithBody(lines: seq<string>)
    requires |lines| >= 3 && lines[|lines| - 2] == ""
    ensures Serialize(lines) == Join(lines[..|lines| - 2], CRLF) + "\r\n\r\n" + lines[|lines| - 1] + "\r\n\r\n"
  {
    var head := lines[..|lines| - 2];
    var b := lines[|lines| - 1];
    assert lines == head + ["", b];
    JoinAppend(head, ["", b], CRLF);
    JoinCons("", [b], CRLF);
  }

  /** Joining one more line at the end. */
  lemma JoinSnoc(ps: seq<string>, x: string)
    requires |ps| > 0
    ensures Join(ps + [x], CRLF) == Join(ps, CRLF) + CRLF + x
  {
    JoinAppend(ps, [x], CRLF);
  }

  /** Joining four lines. */
  lemma JoinFour(a: string, b: string, c: string, d: string)
    ensures Join([a, b, c, d], CRLF) == a + CRLF + b + CRLF + c + CRLF + d
  {
    JoinSnoc([a], b);
    assert [a] + [b] == [a, b];
    JoinSnoc([a, b], c);
    assert [a, b] + [c] == [a, b, c];
    JoinSnoc([a, b, c], d);
    assert [a, b, c] + [d] == [a, b, c, d];
  }

  /** The first two lines of the GET example, joined. */
  lemma GetExampleFirstLines()
    ensures "GET /foo HTTP/1.1" + CRLF + "Host: example.com" + CRLF
            == "GET /foo HTTP/1.1\r\nHost: example.com\r\n"
  {
    assert "GET /foo HTTP/1.1" + CRLF == "GET /foo HTTP/1.1\r\n";
    assert "GET /foo HTTP/1.1\r\n" + "Host: example.com" == "GET /foo HTTP/1.1\r\nHost: example.com";
  }

  /** The four standard lines of the GET example, joined. */
  lemma GetExampleHead()
    ensures "GET /foo HTTP/1.1" + CRLF + "Host: example.com" + CRLF + "Accept: */*" + CRLF + "Connection: close"
            == "GET /foo HTTP/1.1\r\nHost: example.com\r\nAccept: */*\r\nConnection: close"
  {
    GetExampleFirstLines();
    assert "GET /foo HTTP/1.1\r\nHost: example.com\r\n" + "Accept: */*"
           == "GET /foo HTTP/1.1\r\nHost: example.com\r\nAccept: */*";
    assert "GET /foo HTTP/1.1\r\nHost: example.com\r\nAccept: */*" + CRLF
           == "GET /foo HTTP/1.1\r\nHost: example.com\r\nAccept: */*\r\n";
    assert "GET /foo HTTP/1.1\r\nHost: example.com\r\nAccept: */*\r\n" + "Connection: close"
           == "GET /foo HTTP/1.1\r\nHost: example.com\r\nAccept: */*\r\nConnection: close";
  }

  /** The four standard lines of the GET example, serialised. */
  lemma GetExampleText()
    ensures Serialize(["GET /foo HTTP/1.1", "Host: example.com", "Accept: */*", "Connection: close"])
            == "GET /foo HTTP/1.1\r\nHost: example.com\r\nAccept: */*\r\nConnection: close\r\n\r\n"
  {
    JoinFour("GET /foo HTTP/1.1", "Host: example.com", "Accept: */*", "Connection: close");
    GetExampleHead();
    AppendTwoCrlf("GET /foo HTTP/1.1\r\nHost: example.com\r\nAccept: */*\r\nConnection: close");
    assert "GET /foo HTTP/1.1\r\nHost: example.com\r\nAccept: */*\r\nConnection: close" + "\r\n\r\n"
           == "GET /foo HTTP/1.1\r\nHost: example.com\r\nAccept: */*\r\nConnection: close\r\n\r\n";
  }

  /** A plain GET of http://example.com/foo. */
  lemma GetExample()
    ensures PrepareRequest(Url("example.com", "/foo", "http:"), None, None, None)
            == Ok(Outgoing("example.com", 80,
                           "GET /foo HTTP/1.1\r\nHost: example.com\r\nAccept: */*\r\nConnection: close\r\n\r\n"))
  {
    var url := Url("example.com", "/foo", "http:");
    PrepareRequestErrorOrder(url, None, None, None);
    PrepareRequestText(url, None, None, None);
    assert EffectiveMethod(None) + " " + "/foo" + " HTTP/1.1" == "GET /foo HTTP/1.1";
    assert "Host: " + "example.com" == "Host: example.com";
    assert ExpectedLines(url, None, None, None)
           == ["GET /foo HTTP/1.1", "Host: example.com", "Accept: */*", "Connection: close"];
    GetExampleText();
  }

  /** The seven-byte JSON body of the POST example. */
  const ExampleBody: string := "{\"a\":1}"

  /** Joining six lines. */
  lemma JoinSix(a: string, b: string, c: string, d: string, e: string, f: string)
    ensures Join([a, b, c, d, e, f], CRLF) == a + CRLF + b + CRLF + c + CRLF + d + CRLF + e + CRLF + f
  {
    JoinFour(a, b, c, d);
    JoinSnoc([a, b, c, d], e);
    assert [a, b, c, d] + [e] == [a, b, c, d, e];
    JoinSnoc([a, b, c, d, e], f);
    assert [a, b, c, d, e] + [f] == [a, b, c, d, e, f];
  }

  /** The lines of the POST example. */
  lemma PostExampleLines()
    ensures |ExpectedLines(Url("example.com", "/foo", "http:"), Some("POST"), Some(ExampleBody),
                           Some(["Content-Type: application/json"]))| == 8
    ensures ExpectedLines(Url("example.com", "/foo", "http:"), Some("POST"), Some(ExampleBody),
                          Some(["Content-Type: application/json"]))[..6]
            == ["POST /foo HTTP/1.1", "Host: example.com", "Accept: */*", "Connection: close",
                "Content-Type: application/json", "content-Length: 7"]
  {
    PostExampleLineTexts();
    ExpectedLinesWithBody(Url("example.com", "/foo", "http:"), Some("POST"), ExampleBody,
                          ["Content-Type: application/json"],
                          "POST /foo HTTP/1.1", "Host: example.com", "content-Length: 7");
  }

  /** The three computed lines of the POST example, spelled out. */
  lemma PostExampleLineTexts()
    ensures "POST" + " " + "/foo" + " HTTP/1.1" == "POST /foo HTTP/1.1"
    ensures "Host: " + "example.com" == "Host: example.com"
    ensures ContentLengthName + NatToString(ByteLength(ExampleBody)) == "content-Length: 7"
  {
    ExampleBodyLength();
  }

  /** The expected lines of a POST or PUT with a body, laid out, given its computed lines. */
  lemma ExpectedLinesWithBody(url: Url, rawMethod: Option<string>, body: string, hs: seq<string>,
                              requestLine: string, hostLine: string, lengthLine: string)
    requires BodyAllowed(rawMethod)
    requires requestLine == rawMethod.value + " " + url.pathname + " HTTP/1.1"
    requires hostLine == "Host: " + url.host
    requires lengthLine == ContentLengthName + NatToString(ByteLength(body))
    ensures ExpectedLines(url, rawMethod, Some(body), Some(hs))
            == [requestLine, hostLine, "Accept: */*", "Connection: close"] + hs + [lengthLine, "", body]
  {
  }

  /** The example body is seven ASCII characters, so seven bytes. */
  lemma ExampleBodyLength()
    ensures NatToString(ByteLength(ExampleBody)) == "7"
  {
    assert IsAscii(ExampleBody);
    ByteLengthBounds(ExampleBody);
  }

  /** The POST example passes every check. */
  lemma PostExampleAccepted()
    ensures PrepareRequest(Url("example.com", "/foo", "http:"), Some("POST"), Some(ExampleBody),
                           Some(["Content-Type: application/json"])).Ok?
  {
    var header := ["Content-Type: application/json"];
    assert StartsWith(header[0], ContentTypePrefix);
    PrepareRequestErrorOrder(Url("example.com", "/foo", "http:"), Some("POST"), Some(ExampleBody), Some(header));
  }

  /** The POST example's text: the header block, CRLF CRLF, the body, CRLF CRLF. */
  lemma PostExampleFramed()
    ensures PrepareRequest(Url("example.com", "/foo", "http:"), Some("POST"), Some(ExampleBody),
                           Some(["Content-Type: application/json"])).Ok?
    ensures PrepareRequest(Url("example.com", "/foo", "http:"), Some("POST"), Some(ExampleBody),
                           Some(["Content-Type: application/json"])).value.text
            == Join(["POST /foo HTTP/1.1", "Host: example.com", "Accept: */*", "Connection: close",
                     "Content-Type: application/json", "content-Length: 7"], CRLF)
               + "\r\n\r\n" + ExampleBody + "\r\n\r\n"
  {
    var url := Url("example.com", "/foo", "http:");
    var header := Some(["Content-Type: application/json"]);
    PostExampleAccepted();
    BodyFraming(url, Some("POST"), Some(ExampleBody), header);
    PostExampleLines();
    var lines := ExpectedLines(url, Some("POST"), Some(ExampleBody), header);
    assert |lines| == 8;
    assert lines[..|lines| - 2]
           == ["POST /foo HTTP/1.1", "Host: example.com", "Accept: */*", "Connection: close",
               "Content-Type: application/json", "content-Length: 7"];
  }

  /** A POST with a seven-byte JSON body and a Content-Type header: the four
      standard lines, the Content-Type line, `content-Length: 7`, an empty
      line and the body, joined with CRLF and followed by CRLF CRLF. */
  lemma PostExample()
    ensures PrepareRequest(Url("example.com", "/foo", "http:"), Some("POST"), Some(ExampleBody),
                           Some(["Content-Type: application/json"]))
            == Ok(Outgoing("example.com", 80,
                           "POST /foo HTTP/1.1" + CRLF + "Host: example.com" + CRLF + "Accept: */*" + CRLF
                           + "Connection: close" + CRLF + "Content-Type: application/json" + CRLF
                           + "content-Length: 7" + CRLF + "" + CRLF + ExampleBody + CRLF + CRLF))
  {
    PostExampleFramed();
    JoinSix("POST /foo HTTP/1.1", "Host: example.com", "Accept: */*", "Connection: close",
            "Content-Type: application/json", "content-Length: 7");
    var x := Join(["POST /foo HTTP/1.1", "Host: example.com", "Accept: */*", "Connection: close",
                   "Content-Type: application/json", "content-Length: 7"], CRLF);
    var y := x + "\r\n\r\n" + ExampleBody;
    AppendTwoCrlf(x);
    assert x + CRLF + "" == x + CRLF;
    AppendTwoCrlf(y);
  }

  /** Two CRLFs in a row are the four characters of an empty line's end. */
  lemma AppendTwoCrlf(x: string)
    ensures x + CRLF + CRLF == x + "\r\n\r\n"
  {
  }

  /** A POST without a Content-Type header fails before any socket exists. */
  lemma PostWithoutContentTypeExample()
    ensures PrepareRequest(Url("example.com", "/", "http:"), Some("POST"), Some("x"), Some(["Accept-Language: en"]))
            == Err(NoContentTypeHeader)
  {
    var hs := ["Accept-Language: en"];
    assert hs[0][0] == 'A';
    assert !StartsWith(hs[0], ContentTypePrefix);
    assert !HasContentType(hs);
    PrepareRequestErrorOrder(Url("example.com", "/", "http:"), Some("POST"), Some("x"), Some(hs));
  }

  /** A PUT without a body fails before any socket exists. */
  lemma PutWithoutBodyExample()
    ensures PrepareRequest(Url("example.com", "/", "https:"), Some("PUT"), None, Some(["Content-Type: text/plain"]))
            == Err(NoBodyError)
  {
    PrepareRequestErrorOrder(Url("example.com", "/", "https:"), Some("PUT"), None, Some(["Content-Type: text/plain"]));
  }
}
