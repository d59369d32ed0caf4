# edly-curl request construction, modelled in Dafny

edly-curl is a small command-line tool. It builds an HTTP/1.1 request one line
at a time, writes it to a raw TCP socket and logs the response. This project
models the part of `index.js` that has real behaviour:

- the validators: method, body-for-method, body present, Content-Type present;
- the request builder: the request line, `Host`, `Accept`, `Connection`, the
  caller's header lines, and for POST and PUT the `content-Length` line, an
  empty line and the body;
- the non-I/O part of `main`: the order of the checks, the choice of port, and
  the serialisation (the lines joined with CRLF, then CRLF CRLF);
- the split of an inbound chunk into header text and response text in `handleData`.

Every exception class becomes a constructor of `Errors.Error`. A thrown
exception becomes an `Err`/`Fail` value. A JavaScript `undefined` becomes
`None`, and a string option is truthy when it is `Some` and not empty.
`new URL(url)` is not modelled: host, pathname and protocol are inputs
(`Curl.Url`). `Buffer.byteLength` is modelled by a UTF-8 encoder (RFC 3629) over
Dafny characters, which are Unicode scalar values. `String.prototype.split`
and `Array.prototype.join` are modelled in `Text`.

Files: `errors.dfy` (error kinds, Option/Result/Outcome), `text.dfy` (startsWith,
indexOf, split, join), `decimal.dfy` (the numeral in `content-Length`),
`utf8.dfy` (byte length), `validators.dfy`, `builder.dfy`, `curl.dfy` (`main`),
and `response.dfy` (`handleData`).

Notes on the code as written:

- The Content-Length header is spelled `content-Length`. Field names are
  case-insensitive (section 5.1 of RFC 9110), so this is legal.
- A CRLF CRLF follows the body as well (`Curl.BodyFraming`). So four more bytes
  follow the header block than `content-Length` announces. With
  `Connection: close` the server ignores them or reads them as junk.
- `validateBody` is given the raw method, not the defaulted one. A body with no
  `-X` is therefore refused, and a body is never refused for POST or PUT.
- The port is 443 for every protocol other than `http:`. Only `https:` gets that
  far, because the protocol check comes later. No TLS is ever negotiated.
- Splitting the request text on CRLF ends in two empty strings, even for a
  POST or PUT whose last line is the body. This is because the text ends in
  CRLF CRLF after the body too (index.js:146, `Curl.RequestRoundTrip`).
- The protocol check is not a validator of its own. It happens inside
  `buildBaseProtocolText` (index.js:61-66), after the method and body checks.

## Model

| member | source | states |
|---|---|---|
| Validators.ValidateMethod | index.js:37-45 | an absent or empty method gives GET; it fails, always with BadHttpMethod, exactly when a non-empty method is not GET, DELETE, PUT or POST (so "get" fails); otherwise the given method is returned unchanged |
| Validators.ValidateBody | index.js:47-52 | fails, with BodyNotAllowedMethod, exactly when the body is non-empty and the raw method is neither POST nor PUT (so never for POST/PUT, and always for a body without a method) |
| Validators.CheckForBody | index.js:111-117 | passes exactly when a non-empty body is given, otherwise NoBodyError |
| Validators.ContentTypeLines | index.js:104 | the filter keeps every line that starts with "Content-Type", as many times as it occurs, and no other line |
| Validators.CheckForContentType | index.js:103-109 | passes exactly when some line has the case-sensitive prefix "Content-Type", otherwise NoContentTypeHeader |
| Text.StartsWithCharwise | index.js:104 | `startsWith` holds exactly when the prefix fits and agrees with the string character by character, so the check is case-sensitive |
| Builder.BuildBaseProtocolText | index.js:54-75 | succeeds exactly for protocol "http:" or "https:" (else UnrecognisableProtocol); the result is the request line, Host, "Accept: */*", "Connection: close" and then the caller's headers unchanged and in order, 4 + \|headers\| lines |
| Builder.HeadersOrEmpty | index.js:73 | `headers \|\| []`: the given array unchanged, even an empty one, and no lines when there is none |
| Builder.PutAndPostHttpExtension | index.js:119-125 | NoBodyError before NoContentTypeHeader; succeeds exactly with a non-empty body and a Content-Type line; then the input lines are a prefix and exactly three lines follow: content-Length, "", body |
| Builder.ContentLengthHeader | index.js:122-123 | the line starts with "content-Length: " and carries a digits-only numeral without a leading zero that reads back as the body's UTF-8 byte length |
| Builder.ContentLengthAnnouncesBody | index.js:122-123 | the value after "content-Length: " is the canonical decimal numeral of the body's UTF-8 byte length: digits only, no leading zero, reading back as that length |
| Builder.ContentTypeOnlyFromCustomHeaders | index.js:68-74 | for an accepted method none of the four standard lines starts with "Content-Type", so the check on the base lines succeeds exactly when a custom header has that prefix |
| Curl.PrepareRequest | index.js:127-149 | on success the connection goes to the URL's host, on port 80 exactly for "http:" and 443 exactly for "https:" |
| Curl.PortFor | index.js:133 | the port is 80 exactly for "http:", and 443 for every other protocol |
| Curl.Serialize | index.js:146 | the text is the CRLF-join of the lines followed by "\r\n\r\n", the empty line that ends the header section |
| Curl.PrepareRequestErrorOrder | index.js:127-145 | each error happens exactly when its check is the first to fail, in the order BadHttpMethod, BodyNotAllowedMethod, UnrecognisableProtocol, NoBodyError, NoContentTypeHeader; success exactly when all pass; never SocketConnectionError |
| Curl.PrepareRequestText | index.js:135-146 | on success the text is the expected lines (standard lines, headers, and for POST/PUT content-Length, "", body) joined with CRLF plus CRLF CRLF; the body lines are present exactly for a raw POST/PUT, which on success is exactly when a body was given |
| Curl.SerializeAsJoin | index.js:146 | the serialised text is the lines plus two empty lines, joined with CRLF |
| Curl.RequestRoundTrip | index.js:146 | splitting the text on CRLF gives back the expected lines followed by "", "", when no input contains a CRLF |
| Curl.ExpectedLinesNoCrlf | index.js:68-74 | the lines the tool adds contain no CRLF, so only the inputs can introduce one |
| Curl.BodyFraming | index.js:119-146 | for POST/PUT the text is the header block, CRLF CRLF, the body, and another CRLF CRLF |
| Curl.GetExample | index.js:127-146 | GET of http://example.com/foo with no headers sends exactly "GET /foo HTTP/1.1\r\nHost: example.com\r\nAccept: */*\r\nConnection: close\r\n\r\n" to port 80 |
| Curl.PostExample | index.js:127-146 | a POST of the 7-byte body {"a":1} with a Content-Type header sends the four standard lines, the Content-Type line, "content-Length: 7", "", the body, CRLF-joined, then CRLF CRLF |
| Curl.PostWithoutContentTypeExample | index.js:142-144 | a POST with a body but no Content-Type header fails with NoContentTypeHeader |
| Curl.PutWithoutBodyExample | index.js:142-144 | a PUT with no body fails with NoBodyError |
| Response.HandleData | index.js:84-89 | headers is the text before the first "\r\n\r\n", or the whole chunk without one; response is absent exactly without a delimiter, otherwise the text up to the second delimiter or the end |
| Response.HandleDataSplitsComposedChunk | index.js:86 | a header block, the delimiter and a body without a delimiter split back into that header block and body |
| Text.IndexOf | index.js:86 | the search behind split finds the first occurrence at or after the start, and reports none exactly when there is none |
| Text.Split | index.js:86 | a split always has at least one piece |
| Text.SplitPiecesLackSeparator | index.js:86 | no piece of a split contains the separator |
| Text.SplitFirstPiece | index.js:86 | a split has one piece exactly when the separator is absent, and then it is the whole string; otherwise the first piece is the text before the first separator |
| Text.SplitRestPieces | index.js:86 | after the first piece, the pieces are the split of the text that follows the first separator |
| Text.JoinSplit | index.js:86 | joining the pieces of a split with the separator gives back the string |
| Text.JoinLength | index.js:146 | `join` keeps every piece and puts one separator between each two: its length is the pieces' total plus one separator per gap, and it starts with the first piece |
| Text.SplitJoinCrlf | index.js:146 | splitting a CRLF-join on CRLF gives back the pieces when none contains a CRLF |
| Decimal.NatToString | index.js:123 | the numeral of a number is digits only, non-empty, and has no leading zero |
| Decimal.ParseNatToString | index.js:123 | the numeral reads back as the number |
| Utf8.EncodeChar | index.js:122 | one byte exactly below U+0080, two exactly for U+0080 to U+07FF, three exactly for U+0800 to U+FFFF and four above: the shortest form RFC 3629 allows, so no overlong encoding |
| Utf8.EncodeCharWellFormed | index.js:122 | each character's bytes are a UTF-8 sequence whose lead byte gives its length, whose other bytes are continuation bytes, and which decodes back to the character; with the length table of Utf8.EncodeChar this excludes overlong forms |
| Utf8.ByteLength | index.js:122 | `Buffer.byteLength`: the length of the UTF-8 encoding of the whole string, between the character count and four times it |
| Utf8.ByteLengthExamples | index.js:122 | "é" takes 2 bytes, "€" 3, U+1F600 4 and "café" 5 |
| Utf8.ByteLengthBounds | index.js:122 | the byte length is between the character count and four times it, and equals the character count exactly for ASCII text |

## Left out

- Argument parsing and start-up with `commander` (index.js:25-35, 151-157). This is library glue, and the inputs it produces are parameters here.
- `new URL(url)` (index.js:132). Host, pathname and protocol are inputs. So what URL parsing does is not modelled: the `host` it returns keeps an explicit `:port`, `pathname` drops the query string, and a malformed URL throws a `TypeError`.
- Socket creation, the connect callback, event wiring, and the `SocketConnectionError` thrown from the error handler (index.js:77-82, 91-101). This is network I/O and callbacks. `Errors.SocketConnectionError` exists but nothing in the model produces it. The model stops at the `Curl.Outgoing` value that would be handed to the socket.
- Logging through `loglevel`, the stray `console.log(method)` and the verbose flag (index.js:4-7, 49, 62-64, 67, 87-88, 106, 114, 147). These are side effects with nothing to verify. `Response.HandleData` returns the two texts instead of logging them.
- The decoding done by `data.toString()` (index.js:85). The chunk is taken as text.
- Utf8.ByteLength: JavaScript strings are UTF-16. A lone surrogate, which `Buffer.byteLength` counts as three bytes, cannot occur in a Dafny string, so such bodies are not modelled.
- Several data chunks are not reassembled. The source does not do it either: each chunk is split on its own.
