/** The validators of index.js: method, body-for-method, body presence and
    the Content-Type header. Each throws one kind of error, modelled as Err/Fail. */
module Validators {
  import opened Errors
  import opened Text

  const AcceptedMethods: seq<string> := ["GET", "DELETE", "PUT", "POST"]
  const BodyAllowedMethods: seq<string> := ["POST", "PUT"]
  const ContentTypePrefix: string := "Content-Type"

  /** `BODY_ALLOWED_METHODS.includes(method)` for a method that may be undefined. */
  predicate BodyAllowed(rawMethod: Option<string>) {
    rawMethod.Some? && rawMethod.value in BodyAllowedMethods
  }

  /** Some line starts with the case-sensitive prefix "Content-Type". */
  predicate HasContentType(lines: seq<string>) {
    exists k :: 0 <= k < |lines| && StartsWith(lines[k], ContentTypePrefix)
  }

  /** `validateMethod`: an absent or empty method defaults to GET; otherwise the
      method must be one of the accepted four, spelled exactly. */
  function ValidateMethod(rawMethod: Option<string>): (r: Result<string>)
    ensures !Truthy(rawMethod) ==> r == Ok("GET")
    ensures Truthy(rawMethod) ==> (r == Ok(rawMethod.value) <==> rawMethod.value in {"GET", "DELETE", "PUT", "POST"})
    ensures r.Err? <==> Truthy(rawMethod) && rawMethod.value !in {"GET", "DELETE", "PUT", "POST"}
    ensures r.Err? ==> r.error == BadHttpMethod
    ensures r.Ok? ==> r.value in {"GET", "DELETE", "PUT", "POST"}
  {
    var httpMethod := if Truthy(rawMethod) then rawMethod.value else "GET";
    if httpMethod !in AcceptedMethods then Err(BadHttpMethod) else Ok(httpMethod)
  }

  /** `validateBody`, given the raw (not yet defaulted) method: a non-empty body
      is refused unless the method is POST or PUT. */
  function ValidateBody(body: Option<string>, rawMethod: Option<string>): (r: Outcome)
    ensures r.Fail? <==> Truthy(body) && rawMethod != Some("POST") && rawMethod != Some("PUT")
    ensures r.Fail? ==> r.error == BodyNotAllowedMethod
  {
    if Truthy(body) && !BodyAllowed(rawMethod) then Fail(BodyNotAllowedMethod) else Pass
  }

  /** `checkForBody`: an absent or empty body is refused. */
  function CheckForBody(body: Option<string>): (r: Outcome)
    ensures r.Pass? <==> body.Some? && |body.value| > 0
    ensures r.Fail? ==> r.error == NoBodyError
  {
    if !Truthy(body) then Fail(NoBodyError) else Pass
  }

  /** The `filter` in `checkForContentType`: every line with the Content-Type
      prefix, as many times as it occurs, and no other line. */
  function ContentTypeLines(lines: seq<string>): (r: seq<string>)
    ensures |r| <= |lines|
    ensures forall k :: 0 <= k < |r| ==> StartsWith(r[k], ContentTypePrefix) && r[k] in lines
    ensures forall k :: 0 <= k < |lines| && StartsWith(lines[k], ContentTypePrefix) ==> lines[k] in r
    ensures forall x :: multiset(r)[x] == (if StartsWith(x, ContentTypePrefix) then multiset(lines)[x] else 0)
    decreases |lines|
  {
    if |lines| == 0 then []
    else
      var rest := ContentTypeLines(lines[1..]);
      assert lines == [lines[0]] + lines[1..];
      assert multiset(lines) == multiset{lines[0]} + multiset(lines[1..]);
      if StartsWith(lines[0], ContentTypePrefix) then [lines[0]] + rest else rest
  }

  /** `checkForContentType`: passes exactly when some line starts with
      "Content-Type". */
  function CheckForContentType(lines: seq<string>): (r: Outcome)
    ensures r.Pass? <==> HasContentType(lines)
    ensures r.Fail? ==> r.error == NoContentTypeHeader
  {
    var found := ContentTypeLines(lines);
    if |found| == 0 then Fail(NoContentTypeHeader)
    else
      assert StartsWith(found[0], ContentTypePrefix) && found[0] in lines;
      Pass
  }
}
