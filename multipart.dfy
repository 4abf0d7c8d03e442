/** The hand-written `multipart/form-data` middleware of `createServer`
    (server/index.ts): it buffers the request body as a latin1 string, splits
    it on the boundary delimiter and attaches the payload of the part named
    `image` to the request as `req.file`. */
module Multipart {
  import opened Wrappers
  import opened Latin1
  import opened JsText

  const MultipartType := "multipart/form-data"
  const BoundaryKey := "boundary="
  const ImageDisposition := "Content-Disposition: form-data; name=\"image\""
  const FileNameKey := "filename=\""
  const Crlf := "\r\n"
  const HeaderSeparator := "\r\n\r\n"
  const DefaultName := "upload.jpg"
  const StampedMimeType := "image/jpeg"

  /** The `FileBuffer` record attached to the request. */
  datatype UploadedFile = UploadedFile(buffer: seq<Byte>, mimetype: string, originalname: string, size: nat)

  /** `contentType.match(/boundary=([^;]+)/)?.[1]`: the text after the first
      `boundary=` that is followed by something other than `;`, up to the
      next `;` or the end of the header. */
  function BoundaryToken(contentType: string): (token: Option<string>)
    ensures token.None? <==> forall q :: !CaptureAt(contentType, BoundaryKey, ';', false, q)
    ensures token.Some? ==> token.value != [] && ';' !in token.value
    ensures token.Some? ==> exists p ::
      && MatchesAt(contentType, BoundaryKey + token.value, p)
      && (p + |BoundaryKey + token.value| == |contentType| || contentType[p + |BoundaryKey + token.value|] == ';')
      && forall q :: 0 <= q < p ==> !CaptureAt(contentType, BoundaryKey, ';', false, q)
  {
    var r := Capture(contentType, BoundaryKey, ';', false);
    if r.Some? then
      var p := FirstCapture(contentType, BoundaryKey, ';', false, 0);
      assert MatchesAt(contentType, BoundaryKey + r.value, p);
      r
    else
      r
  }

  /** `"--" + boundaryMatch[1]` */
  function Delimiter(token: string): (d: string)
  {
    "--" + token
  }

  /** The parts `body.split(boundary)` yields, when there is a boundary. */
  function Parts(contentType: string, body: string): (parts: seq<string>)
    requires BoundaryToken(contentType).Some?
  {
    Split(body, Delimiter(BoundaryToken(contentType).value))
  }

  /** A part changes the parser's state only when it contains the exact
      disposition text of the `image` field and a blank line after its
      headers. */
  function Contributes(part: string): (r: bool)
    ensures r <==> (exists i :: MatchesAt(part, ImageDisposition, i)) && (exists i :: MatchesAt(part, HeaderSeparator, i))
  {
    Includes(part, ImageDisposition) && IndexOf(part, HeaderSeparator, 0) != -1
  }

  /** `part.indexOf("\r\n\r\n")` for a contributing part. */
  function HeaderEnd(part: string): (h: nat)
    requires Contributes(part)
    ensures h + |HeaderSeparator| <= |part| && MatchesAt(part, HeaderSeparator, h)
    ensures forall i :: 0 <= i < h ==> !MatchesAt(part, HeaderSeparator, i)
  {
    IndexOf(part, HeaderSeparator, 0)
  }

  /** `headers.match(/filename="([^"]+)"/)?.[1]` on the part's header block. */
  function PartFileName(part: string): (name: Option<string>)
    requires Contributes(part)
    ensures name.Some? ==> name.value != [] && '"' !in name.value
  {
    Capture(part[..HeaderEnd(part)], FileNameKey, '"', true)
  }

  /** `part.substring(headerEnd + 4, part.lastIndexOf("\r\n"))` */
  function Payload(part: string): string
    requires Contributes(part)
  {
    Substring(part, HeaderEnd(part) + |HeaderSeparator|, LastIndexOf(part, Crlf))
  }

  /** Where the payload starts in its part. */
  function PayloadStart(part: string): (o: nat)
    requires Contributes(part)
    ensures MatchesAt(part, Payload(part), o)
  {
    SubstringStart(part, HeaderEnd(part) + |HeaderSeparator|, LastIndexOf(part, Crlf))
  }

  /** A contributing part whose header block carries a file name. */
  predicate Named(part: string)
  {
    Contributes(part) && PartFileName(part).Some?
  }

  /** The loop's variables `fileBuffer`, `fileName` and `fileSize`. */
  datatype ScanState = ScanState(fileBuffer: Option<seq<Byte>>, fileName: string, fileSize: nat)

  const Start := ScanState(None, "", 0)

  /** One iteration of the loop over the parts. */
  function Step(st: ScanState, part: string): (next: ScanState)
    ensures !Contributes(part) ==> next == st
    ensures Contributes(part) ==> next.fileBuffer == Some(Encode(Payload(part))) && next.fileSize == |Payload(part)|
    ensures next.fileName == if Named(part) then PartFileName(part).value else st.fileName
  {
    if !Contributes(part) then st
    else
      var name := PartFileName(part);
      var buffer := Encode(Payload(part));
      ScanState(Some(buffer), if name.Some? then name.value else st.fileName, |buffer|)
  }

  /** The loop's state after the given parts, in order, with no early exit. */
  function ScanAll(parts: seq<string>): (st: ScanState)
    ensures st.fileBuffer.Some? ==> st.fileSize == |st.fileBuffer.value|
    ensures st.fileBuffer.None? <==> forall k :: 0 <= k < |parts| ==> !Contributes(parts[k])
    ensures st.fileName == "" || '"' !in st.fileName
  {
    if |parts| == 0 then Start else Step(ScanAll(parts[..|parts| - 1]), parts[|parts| - 1])
  }

  /** Index of the last `true`, or -1. */
  function LastTrue(flags: seq<bool>): (j: int)
    ensures -1 <= j < |flags|
    ensures j >= 0 ==> flags[j]
    ensures forall k :: j < k < |flags| ==> !flags[k]
  {
    if |flags| == 0 then -1
    else if flags[|flags| - 1] then |flags| - 1
    else LastTrue(flags[..|flags| - 1])
  }

  /** Index of the last contributing part, or -1. */
  function LastContributing(parts: seq<string>): (j: int)
  {
    LastTrue(seq(|parts|, k requires 0 <= k < |parts| => Contributes(parts[k])))
  }

  /** Index of the last contributing part that names a file, or -1. */
  function LastNamed(parts: seq<string>): (j: int)
  {
    LastTrue(seq(|parts|, k requires 0 <= k < |parts| => Named(parts[k])))
  }

  /** Last match wins: the buffer comes from the last contributing part, and
      the file name from the last contributing part that has one, which may
      be an earlier part. */
  lemma {:induction false} LastPartWins(parts: seq<string>)
    ensures var j := LastContributing(parts);
      ScanAll(parts).fileBuffer == if j == -1 then None else Some(Encode(Payload(parts[j])))
    ensures var n := LastNamed(parts);
      ScanAll(parts).fileName == if n == -1 then "" else PartFileName(parts[n]).value
  {
    if |parts| > 0 {
      var n := |parts|;
      var init := parts[..n - 1];
      LastPartWins(init);
      var contributing := seq(n, k requires 0 <= k < n => Contributes(parts[k]));
      var named := seq(n, k requires 0 <= k < n => Named(parts[k]));
      assert contributing[..n - 1] == seq(n - 1, k requires 0 <= k < n - 1 => Contributes(init[k]));
      assert named[..n - 1] == seq(n - 1, k requires 0 <= k < n - 1 => Named(init[k]));
      assert ScanAll(parts) == Step(ScanAll(init), parts[n - 1]);
    }
  }

  /** The `end` handler's parse, as a function of the header and the body
      text: the file it attaches, if any. */
  function Extract(contentType: string, body: string): (file: Option<UploadedFile>)
    ensures BoundaryToken(contentType).None? ==> file.None?
    ensures file.Some? ==> file.value.mimetype == StampedMimeType
    ensures file.Some? ==> file.value.size == |file.value.buffer|
    ensures file.Some? ==> file.value.originalname != ""
  {
    match BoundaryToken(contentType)
    case None => None
    case Some(token) =>
      var st := ScanAll(Split(body, Delimiter(token)));
      if st.fileBuffer.None? then None
      else
        Some(UploadedFile(st.fileBuffer.value, StampedMimeType,
                          if st.fileName == "" then DefaultName else st.fileName,
                          st.fileSize))
  }

  /** A file is attached exactly when some part contributes (even with an
      empty payload); it holds the last such part's payload, its size is the
      payload's length, and its name is the last file name found or
      `upload.jpg`. */
  lemma ExtractIsLastPartWins(contentType: string, body: string)
    requires BoundaryToken(contentType).Some?
    ensures var parts := Parts(contentType, body);
      var j := LastContributing(parts);
      var n := LastNamed(parts);
      && (Extract(contentType, body).Some? <==> j != -1)
      && (j != -1 ==>
            Extract(contentType, body).value
            == UploadedFile(Encode(Payload(parts[j])), StampedMimeType,
                            if n == -1 then DefaultName else PartFileName(parts[n]).value,
                            |Payload(parts[j])|))
  {
    var parts := Parts(contentType, body);
    LastPartWins(parts);
    var n := LastNamed(parts);
    if n != -1 {
      assert PartFileName(parts[n]).value != "";
    }
  }

  /** The payload is copied byte for byte out of the raw body: the attached
      buffer occurs in the received bytes. */
  lemma BufferCopiedFromBody(contentType: string, raw: seq<Byte>)
    requires Extract(contentType, Decode(raw)).Some?
    ensures exists o :: MatchesAt(raw, Extract(contentType, Decode(raw)).value.buffer, o)
  {
    var body := Decode(raw);
    var parts := Parts(contentType, body);
    ExtractIsLastPartWins(contentType, body);
    var j := LastContributing(parts);
    var lo := PayloadOccurs(body, Delimiter(BoundaryToken(contentType).value), j);
    EncodeOccurrence(raw, Payload(parts[j]), lo);
  }

  /** Every contributing part's payload is a piece of the body text. */
  lemma PayloadOccurs(body: string, delimiter: string, j: nat) returns (lo: nat)
    requires |delimiter| > 0 && j < |Split(body, delimiter)|
    requires Contributes(Split(body, delimiter)[j])
    ensures MatchesAt(body, Payload(Split(body, delimiter)[j]), lo)
  {
    var parts := Split(body, delimiter);
    var part := parts[j];
    PartOccursInJoin(parts, delimiter, j);
    var o := PartOffset(parts, delimiter, j);
    var o' := PayloadStart(part);
    MatchTrans(body, part, Payload(part), o, o');
    lo := o + o';
  }

  /** A piece of the decoded text re-encodes to the same piece of the bytes. */
  lemma EncodeOccurrence(raw: seq<Byte>, piece: string, lo: nat)
    requires MatchesAt(Decode(raw), piece, lo)
    ensures MatchesAt(raw, Encode(piece), lo)
  {
    var hi := lo + |piece|;
    DecodeSlice(raw, lo, hi);
    EncodeDecode(raw[lo..hi]);
  }

  /** When no CRLF follows the blank line, `lastIndexOf` finds the blank
      line's own second CRLF, before the payload's start, and `substring`
      swaps its arguments: the payload is the two bytes `\r\n`. */
  lemma PayloadWithoutTrailingCrlf(part: string)
    requires Contributes(part)
    requires forall i :: HeaderEnd(part) + |HeaderSeparator| <= i ==> !MatchesAt(part, Crlf, i)
    ensures Payload(part) == Crlf
  {
    var h := HeaderEnd(part);
    SeparatorEndsWithCrlf(part, h);
    var last := LastIndexOf(part, Crlf);
    assert last >= h + 2 && MatchesAt(part, Crlf, last);
    assert last < h + |HeaderSeparator|;
    assert last != h + 3;
    var start := h + |HeaderSeparator|;
    assert 0 <= last <= start <= |part|;
    assert Payload(part) == Substring(part, start, last) == part[last..start];
  }

  /** The blank line `\r\n\r\n` at `h` holds a CRLF at `h + 2`, and none at
      `h + 3`. */
  lemma SeparatorEndsWithCrlf(part: string, h: nat)
    requires MatchesAt(part, HeaderSeparator, h)
    ensures MatchesAt(part, Crlf, h + 2) && part[h + 2..h + 4] == Crlf
    ensures !MatchesAt(part, Crlf, h + 3)
  {
    var w := part[h..h + 4];
    assert w == HeaderSeparator;
    assert w[0] == '\r' && w[1] == '\n' && w[2] == '\r' && w[3] == '\n';
    assert part[h + 2..h + 4] == w[2..4];
    assert w[2..4] == Crlf;
    assert part[h + 3] == w[3];
  }

  /** A well-formed part, `CRLF headers CRLF CRLF payload CRLF`, whose
      headers name the image field and hold no blank line, contributes
      exactly its payload: no byte is lost or added, whatever the payload
      contains (CRLF and blank lines included). */
  lemma WellFormedPartPayload(headers: string, payload: string)
    requires Includes(headers, ImageDisposition)
    requires !Includes(Crlf + headers + "\r\n\r", HeaderSeparator)
    ensures var part := Crlf + headers + HeaderSeparator + payload + Crlf;
      && Contributes(part)
      && part[..HeaderEnd(part)] == Crlf + headers
      && Payload(part) == payload
  {
    var pre := Crlf + headers;
    var part := pre + HeaderSeparator + payload + Crlf;
    HeaderBlockOfWellFormedPart(headers, payload);
    var n := |part|;
    assert part[n - 2..n] == Crlf;
    assert LastIndexOf(part, Crlf) == n - 2;
    assert part[|pre| + 4..n - 2] == payload;
  }

  lemma HeaderBlockOfWellFormedPart(headers: string, payload: string)
    requires Includes(headers, ImageDisposition)
    requires !Includes(Crlf + headers + "\r\n\r", HeaderSeparator)
    ensures var part := Crlf + headers + HeaderSeparator + payload + Crlf;
      && Contributes(part)
      && HeaderEnd(part) == |Crlf + headers|
      && part[..HeaderEnd(part)] == Crlf + headers
  {
    var pre := Crlf + headers;
    var part := pre + HeaderSeparator + payload + Crlf;
    assert part == Crlf + headers + (HeaderSeparator + payload + Crlf);
    IncludesInside(Crlf, headers, HeaderSeparator + payload + Crlf, ImageDisposition);
    assert part[|pre|..|pre| + 4] == HeaderSeparator;
    assert part[..|pre| + 3] == pre + "\r\n\r";
    FirstOccurrence(part, HeaderSeparator, |pre|);
    assert part[..|pre|] == pre;
  }

  /** The incoming request: its content-type header and the file the
      middleware may attach. */
  class Request {
    const contentType: Option<string>
    var file: Option<UploadedFile>

    constructor (contentType: Option<string>)
      ensures this.contentType == contentType && file.None?
    {
      this.contentType := contentType;
      file := None;
    }
  }

  /** `req.headers["content-type"] || ""` */
  function HeaderValue(header: Option<string>): string
  {
    if header.Some? then header.value else ""
  }

  /** The file `handleAnalyze` finds on a request that arrived with no file
      attached: the parse result when the content type names
      multipart/form-data, nothing otherwise. */
  function AttachedFile(contentType: string, body: string): (file: Option<UploadedFile>)
    ensures !Includes(contentType, MultipartType) ==> file.None?
    ensures Includes(contentType, MultipartType) ==> file == Extract(contentType, body)
  {
    if Includes(contentType, MultipartType) then Extract(contentType, body) else None
  }

  /** The `data` handler: `body += chunk.toString("binary")` per chunk. */
  method ReadBody(chunks: seq<seq<Byte>>) returns (body: string)
    ensures body == Decode(Flatten(chunks))
  {
    body := "";
    for i := 0 to |chunks|
      invariant body == Decode(Flatten(chunks[..i]))
    {
      assert chunks[..i + 1][..i] == chunks[..i];
      DecodeAppend(Flatten(chunks[..i]), chunks[i]);
      body := body + Decode(chunks[i]);
    }
    assert chunks[..|chunks|] == chunks;
  }

  /** The `end` handler's parse: boundary extraction, split, and the loop
      over the parts. */
  method ParseMultipart(contentType: string, body: string) returns (file: Option<UploadedFile>)
    ensures file == Extract(contentType, body)
  {
    var boundaryMatch := BoundaryToken(contentType);
    if boundaryMatch.None? {
      return None;
    }
    var boundary := "--" + boundaryMatch.value;
    var parts := Split(body, boundary);
    var fileBuffer, fileName, fileSize := ScanParts(parts);
    if fileBuffer.Some? {
      file := Some(UploadedFile(fileBuffer.value, "image/jpeg",
                                if fileName != "" then fileName else "upload.jpg", fileSize));
    } else {
      file := None;
    }
  }

  /** The `for (const part of parts)` loop: every contributing part
      overwrites the buffer and size, and the name when it has one; there is
      no early exit. */
  method ScanParts(parts: seq<string>) returns (fileBuffer: Option<seq<Byte>>, fileName: string, fileSize: nat)
    ensures ScanState(fileBuffer, fileName, fileSize) == ScanAll(parts)
  {
    fileBuffer := None;
    fileName := "";
    fileSize := 0;
    for i := 0 to |parts|
      invariant ScanState(fileBuffer, fileName, fileSize) == ScanAll(parts[..i])
    {
      assert parts[..i + 1][..i] == parts[..i];
      fileBuffer, fileName, fileSize := ScanPart(fileBuffer, fileName, fileSize, parts[i]);
    }
    assert parts[..|parts|] == parts;
  }

  /** One pass of the loop body: a part with the image disposition and a
      blank line overwrites the buffer and size, and the name when its
      headers carry one; any other part changes nothing. */
  method ScanPart(fileBuffer: Option<seq<Byte>>, fileName: string, fileSize: nat, part: string)
    returns (fileBuffer': Option<seq<Byte>>, fileName': string, fileSize': nat)
    ensures ScanState(fileBuffer', fileName', fileSize') == Step(ScanState(fileBuffer, fileName, fileSize), part)
  {
    fileBuffer', fileName', fileSize' := fileBuffer, fileName, fileSize;
    if Includes(part, ImageDisposition) {
      var headerEnd := IndexOf(part, HeaderSeparator, 0);
      if headerEnd != -1 {
        var headers := part[..headerEnd];
        var fileNameMatch := Capture(headers, FileNameKey, '"', true);
        if fileNameMatch.Some? {
          fileName' := fileNameMatch.value;
        }
        var dataStart := headerEnd + 4;
        var dataEnd := LastIndexOf(part, Crlf);
        var buffer := Encode(Substring(part, dataStart, dataEnd));
        fileBuffer' := Some(buffer);
        fileSize' := |buffer|;
        assert Contributes(part) && buffer == Encode(Payload(part));
      } else {
        assert !Contributes(part);
      }
    } else {
      assert !Contributes(part);
    }
  }

  /** The middleware: non-multipart requests pass straight through; a
      multipart body is read in full, parsed, and a file attached when one
      was found. `next()` is called exactly once on every path. */
  method HandleMultipart(req: Request, chunks: seq<seq<Byte>>) returns (nextCalls: nat)
    modifies req
    ensures nextCalls == 1
    ensures var contentType := HeaderValue(req.contentType);
      var found := Extract(contentType, Decode(Flatten(chunks)));
      req.file == if Includes(contentType, MultipartType) && found.Some? then found else old(req.file)
  {
    nextCalls := 0;
    var contentType := HeaderValue(req.contentType);
    if Includes(contentType, MultipartType) {
      var body := ReadBody(chunks);
      var file := ParseMultipart(contentType, body);
      if file.Some? {
        req.file := file;
      }
      nextCalls := nextCalls + 1;
    } else {
      nextCalls := nextCalls + 1;
    }
  }
}
