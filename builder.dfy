/** The request builder of index.js: the base lines every request carries and
    the extension that POST and PUT requests add. */
module Builder {
  import opened Errors
  import opened Text
  import opened Decimal
  import opened Utf8
  import opened Validators

  const AcceptedProtocols: seq<string> := ["http:", "https:"]
  const ContentLengthName: string := "content-Length: "

  /** `headers || []`: any array, even an empty one, is kept as given. */
  function HeadersOrEmpty(headers: Option<seq<string>>): (hs: seq<string>)
    ensures headers.Some? ==> hs == headers.value
    ensures headers.None? ==> hs == []
  {
    match headers
    case None => []
    case Some(hs) => hs
  }

  /** `buildBaseProtocolText`: refuses any protocol other than "http:" and
      "https:"; otherwise the request line, Host, Accept and Connection, then
      the caller's header lines untouched and in order. */
  function BuildBaseProtocolText(host: string, pathname: string, protocol: string,
                                 httpMethod: string, headers: Option<seq<string>>): (r: Result<seq<string>>)
    ensures r.Ok? <==> protocol == "http:" || protocol == "https:"
    ensures r.Err? ==> r.error == UnrecognisableProtocol
    ensures r.Ok? ==> |r.value| == 4 + |HeadersOrEmpty(headers)|
    ensures r.Ok? ==> (r.value[0] == httpMethod + " " + pathname + " HTTP/1.1"
                    && r.value[1] == "Host: " + host
                    && r.value[2] == "Accept: */*"
                    && r.value[3] == "Connection: close")
    ensures r.Ok? ==> r.value[4..] == HeadersOrEmpty(headers)
  {
    if protocol !in AcceptedProtocols then Err(UnrecognisableProtocol)
    else
      Ok([httpMethod + " " + pathname + " HTTP/1.1",
          "Host: " + host,
          "Accept: */*",
          "Connection: close"] + HeadersOrEmpty(headers))
  }

  /** `content-Length: <byte length>` for a body: the name, then the
      canonical decimal numeral of the body's UTF-8 byte length. */
  function ContentLengthHeader(body: string): (line: string)
    ensures StartsWith(line, ContentLengthName)
    ensures AllDigits(line[|ContentLengthName|..])
    ensures ParseNat(line[|ContentLengthName|..]) == ByteLength(body)
    ensures |line| > |ContentLengthName| + 1 ==> line[|ContentLengthName|] != '0'
  {
    var numeral := NatToString(ByteLength(body));
    ParseNatToString(ByteLength(body));
    assert (ContentLengthName + numeral)[|ContentLengthName|..] == numeral;
    ContentLengthName + numeral
  }

  /** `putAndPostHttpExtension`: first the body check, then the Content-Type
      check on the lines built so far; on success the lines are kept as a
      prefix and the Content-Length line, an empty line and the body follow. */
  function PutAndPostHttpExtension(body: Option<string>, lines: seq<string>): (r: Result<seq<string>>)
    ensures !Truthy(body) ==> r == Err(NoBodyError)
    ensures Truthy(body) && !HasContentType(lines) ==> r == Err(NoContentTypeHeader)
    ensures r.Ok? <==> Truthy(body) && HasContentType(lines)
    ensures r.Ok? ==> |r.value| == |lines| + 3 && r.value[..|lines|] == lines
    ensures r.Ok? ==> r.value[|lines| + 1] == "" && r.value[|lines| + 2] == body.value
    ensures r.Ok? ==> StartsWith(r.value[|lines|], ContentLengthName)
  {
    match CheckForBody(body)
    case Fail(e) => Err(e)
    case Pass =>
      match CheckForContentType(lines)
      case Fail(e) => Err(e)
      case Pass =>
        Ok(lines + [ContentLengthHeader(body.value), "", body.value])
  }

  /** The value of the Content-Length line is a plain decimal numeral that
      reads back as the UTF-8 byte length of the body. */
  lemma ContentLengthAnnouncesBody(body: Option<string>, lines: seq<string>)
    requires PutAndPostHttpExtension(body, lines).Ok?
    ensures var line := PutAndPostHttpExtension(body, lines).value[|lines|];
            var numeral := line[|ContentLengthName|..];
            && numeral == NatToString(ByteLength(body.value))
            && AllDigits(numeral) && ParseNat(numeral) == ByteLength(body.value)
            && (|numeral| > 1 ==> numeral[0] != '0')
  {
    var line := PutAndPostHttpExtension(body, lines).value[|lines|];
    assert line == ContentLengthHeader(body.value);
    assert line[|ContentLengthName|..] == NatToString(ByteLength(body.value));
    ParseNatToString(ByteLength(body.value));
  }

  /** None of the four standard lines starts with "Content-Type" when the
      method is an accepted one, so the Content-Type check on the base lines
      depends only on the caller's headers. */
  lemma ContentTypeOnlyFromCustomHeaders(host: string, pathname: string, protocol: string,
                                          httpMethod: string, headers: Option<seq<string>>)
    requires httpMethod in AcceptedMethods
    requires BuildBaseProtocolText(host, pathname, protocol, httpMethod, headers).Ok?
    ensures var lines := BuildBaseProtocolText(host, pathname, protocol, httpMethod, headers).value;
            HasContentType(lines) <==> HasContentType(HeadersOrEmpty(headers))
  {
    var lines := BuildBaseProtocolText(host, pathname, protocol, httpMethod, headers).value;
    var hs := HeadersOrEmpty(headers);
    forall k | 0 <= k < 4
      ensures !StartsWith(lines[k], ContentTypePrefix)
    {
      var line := lines[k];
      if k != 2 && |line| >= |ContentTypePrefix| {
        if k == 0 {
          assert line[0] == httpMethod[0];
          assert line[0] != 'C';
        } else if k == 1 {
          assert line[0] == 'H';
        } else {
          assert line[3] == 'n';
        }
        assert line[..|ContentTypePrefix|] != ContentTypePrefix;
      }
    }
    if HasContentType(lines) {
      var k :| 0 <= k < |lines| && StartsWith(lines[k], ContentTypePrefix);
      assert lines[k] == hs[k - 4];
    }
    if HasContentType(hs) {
      var k :| 0 <= k < |hs| && StartsWith(hs[k], ContentTypePrefix);
      assert lines[k + 4] == hs[k];
    }
  }
}
