/** The split inside `handleData`: one inbound chunk, decoded to text,
    divided at the header/body delimiter. */
module Response {
  import opened Errors
  import opened Text

  const Delimiter: string := "\r\n\r\n"

  /** `const [headers, response] = dataStr.split("\r\n\r\n")`: `response`
      is undefined when the chunk has no delimiter. */
  datatype Frame = Frame(headers: string, response: Option<string>)

  /** `headers` is the text before the first delimiter (the whole chunk when
      there is none); `response` is the text between the first and the
      second delimiter, or up to the end; anything after a second delimiter
      is dropped. */
  function HandleData(chunk: string): (f: Frame)
    ensures f.response.None? <==> !Contains(chunk, Delimiter)
    ensures f.response.None? ==> f.headers == chunk
    ensures f.response.Some? ==> StartsWith(chunk, f.headers)
                                 && FirstOccurrence(chunk, Delimiter, |f.headers|)
    ensures f.response.Some? ==>
              var rest := chunk[|f.headers| + |Delimiter|..];
              && StartsWith(rest, f.response.value)
              && ((f.response.value == rest && !Contains(rest, Delimiter))
                  || FirstOccurrence(rest, Delimiter, |f.response.value|))
  {
    var parts := Split(chunk, Delimiter);
    SplitFirstPiece(chunk, Delimiter);
    SplitRestPieces(chunk, Delimiter);
    if |parts| > 1 then
      SplitFirstPiece(chunk[|parts[0]| + |Delimiter|..], Delimiter);
      Frame(parts[0], Some(parts[1]))
    else
      Frame(parts[0], None)
  }

  /** A chunk made of a header block, the delimiter and a body with no
      delimiter of its own splits back into that header block and body,
      provided the delimiter first occurs where it was put. */
  lemma HandleDataSplitsComposedChunk(head: string, body: string)
    requires !Contains(head + "\r\n\r", Delimiter)
    requires !Contains(body, Delimiter)
    ensures HandleData(head + Delimiter + body) == Frame(head, Some(body))
  {
    var chunk := head + Delimiter + body;
    assert OccursAt(chunk, Delimiter, |head|) by {
      assert chunk[|head|..|head| + 4] == Delimiter;
    }
    forall j: nat | j < |head|
      ensures !OccursAt(chunk, Delimiter, j)
    {
      assert chunk[j..j + 4] == (head + "\r\n\r")[j..j + 4];
      assert !OccursAt(head + "\r\n\r", Delimiter, j);
    }
    var f := HandleData(chunk);
    assert f.response.Some?;
    assert |f.headers| == |head|;
    assert f.headers == chunk[..|head|] == head;
    assert chunk[|head| + 4..] == body;
  }
}
