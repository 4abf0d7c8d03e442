# Fake Photos Detector: multipart upload and verdict engine in Dafny

This project models the server side of the Fake Photos Detector: the part
that takes an uploaded chat screenshot and returns a verdict on it.

- **The multipart middleware** of `createServer`. It reads the request
  body, decoding each chunk as latin1 ("binary"). It takes the boundary
  token from the Content-Type and splits the body on `"--" + token`. Every
  part that carries the exact disposition of the `image` field and a blank
  line becomes the candidate file. Its payload runs from after the blank
  line to the part's last CRLF and is re-encoded as latin1. The middleware
  attaches `{buffer, mimetype: "image/jpeg", originalname, size}` to the
  request.
- **`analyzeImage`**. It sums the UTF-16 code units of the file name into
  a seed. A linear congruential generator (`seed * 9301 + 49297` modulo
  233280) drives five pass/fail checks in a fixed order. Each failed check
  pushes its fixed finding. The number of failures picks the verdict band.
  One more draw sets the confidence. An explanation is built, and a
  sentinel finding is substituted when nothing failed.
- **`handleAnalyze`**. It is a guard chain: no file, then not an image,
  then over 10 MB, each rejected with a 400. Otherwise it returns the
  analysis of the file's original name.

Files:

- `wrappers.dfy`: `Option`.
- `latin1.dfy`: bytes and the latin1 decode and encode.
- `jstext.dfy`: the JavaScript string operations the code uses, over
  sequences. These are `indexOf`, `lastIndexOf`, `includes`,
  `startsWith`, `split`, `join` and `substring`. It also holds one scanner
  for the two regular expressions `/boundary=([^;]+)/` and
  `/filename="([^"]+)"/`.
- `multipart.dfy`: the middleware.
- `analyze.dfy`: the verdict engine and the handler.

Imperative code stays imperative:

- The middleware is the module-level method `HandleMultipart`. It takes
  a `Request` object and sets that object's `file` field. The loop over
  the parts is the method `ScanParts`, with a loop invariant, and its
  body is the method `ScanPart`. Each method is proved equal to a
  specification function (`Extract`, `ScanAll`, `Step`).
- The generator closure is the class `Lcg`, whose `Draw` method updates
  its `seed` field.
- `analyzeImage` is the method `AnalyzeImage`, proved equal to the
  function `Analysis`. Its body is split into one method per block of the
  source:
  - the seed loop (`InitialSeed`);
  - the five check draws (`RunChecks`);
  - the five `if (!checks[k].passed)` blocks (`CollectFindings`);
  - the verdict chain (`ChooseVerdict`).

  Each of these methods states its result in terms of the specification
  functions.
- The handler is the function `AnalyzeResponse`, and the method
  `HandleAnalyze` that runs `AnalyzeImage`.

The response texts are the source's strings, verbatim. The finding texts
are in `FindingTexts`. The sentinel and the pieces of the explanation are
the cases of `Text`.

## Model

| member | source | states |
|---|---|---|
| Latin1.Decode | server/index.ts:47-49 | Each byte becomes the character with the same code, so string positions are byte positions. |
| Latin1.DecodeAppend | server/index.ts:47-49 | Decoding chunk by chunk and appending equals decoding the concatenated bytes. |
| Latin1.Encode | server/index.ts:77-80 | Each character becomes its code modulo 256. |
| Latin1.EncodeDecode | server/index.ts:77-80 | Encoding the decoded bytes gives back the same bytes: the round trip changes no byte value. |
| JsText.IndexOf | server/index.ts:67 | The result is the leftmost occurrence at or after `from`, or -1 exactly when there is none. |
| JsText.LastIndexOf | server/index.ts:76 | The result is the rightmost occurrence, or -1 when there is none. |
| JsText.Includes | server/index.ts:64 | True exactly when the pattern occurs somewhere. |
| JsText.Split | server/index.ts:60 | There is at least one part, no part contains the separator, and joining the parts with the separator gives back the input. Each cut is at the leftmost occurrence: no part but the last, extended by all but the last character of the separator, contains the separator. This also holds for a separator that overlaps itself. |
| JsText.Join | server/routes/analyze.ts:117-121 | `join` of n parts has the parts' total length plus n - 1 separators. Its other properties are in `Split` (which it inverts) and `PartOccursInJoin`. |
| JsText.StartsWith | server/routes/analyze.ts:145 | True exactly when the prefix is no longer than the text and the text's leading elements equal it. |
| JsText.PartOccursInJoin | server/index.ts:60 | Every part of a split occurs in the joined text at its offset. |
| JsText.Substring | server/index.ts:78 | Both arguments are clamped to `[0, length]` and swapped when the first is larger. The result is the text between the clamped ends: its length is their distance, and it occurs in the input at the smaller one. |
| JsText.Capture | server/index.ts:70 | The regex `key([^c]+)` (with `closed`, `key([^c]+)c`) finds nothing exactly when no position matches. Otherwise it returns the leftmost match's non-empty, stop-free group, which ends at the end of the input or at the stop character. |
| Multipart.BoundaryToken | server/index.ts:54-59 | None exactly when no `boundary=` is followed by a non-`;` character. Otherwise it is the non-empty text after the first such `boundary=`, up to `;` or the end of the header. |
| Multipart.Contributes | server/index.ts:63-68 | A part contributes exactly when it contains the image disposition text and a `\r\n\r\n`. |
| Multipart.Payload | server/index.ts:75-80 | The definition of the payload slice. Its properties are in `PayloadStart`, `PayloadWithoutTrailingCrlf` and `WellFormedPartPayload`. |
| Multipart.Step | server/index.ts:63-83 | A part that does not contribute leaves the loop's state unchanged. A contributing part sets the buffer to its re-encoded payload and the size to the payload's length. The name changes only when the part's headers carry one. |
| Multipart.HeaderEnd | server/index.ts:67-68 | For a contributing part, the first `\r\n\r\n`, which lies inside the part. |
| Multipart.PartFileName | server/index.ts:69-73 | A file name found in the header block is non-empty and holds no `"`. |
| Multipart.PayloadStart | server/index.ts:75-78 | The payload is a contiguous piece of its part. |
| Multipart.ScanAll | server/index.ts:62-84 | After the loop, a buffer exists exactly when some part contributes. The size is the buffer's length. The name is empty or free of `"`. |
| Multipart.LastPartWins | server/index.ts:62-84 | With no early exit, the buffer is the last contributing part's payload. The name comes from the last contributing part that has one, which may be an earlier part. |
| Multipart.Extract | server/index.ts:54-94 | With no boundary nothing is attached. An attached file is stamped `image/jpeg`, has size equal to its buffer length, and has a non-empty name. |
| Multipart.ExtractIsLastPartWins | server/index.ts:62-93 | A file is attached exactly when some part contributes, even with an empty payload. The file equals the last contributing part's payload, with size equal to its length and the last file name or `upload.jpg`. |
| Multipart.BufferCopiedFromBody | server/index.ts:47-81 | The attached buffer occurs byte for byte in the raw request body. |
| Multipart.PayloadWithoutTrailingCrlf | server/index.ts:75-80 | When no CRLF follows the blank line, `substring` swaps its arguments and the payload is the two bytes `\r\n`. |
| Multipart.WellFormedPartPayload | server/index.ts:63-81 | Take a part `CRLF headers CRLF CRLF payload CRLF` whose headers name the image field and hold no blank line. It contributes, its header block is exactly its headers, and its payload is exactly `payload`, whatever bytes that holds. |
| Multipart.AttachedFile | server/index.ts:37-104 | A request that is not multipart/form-data gets no file. A multipart request gets exactly the parse result. |
| Multipart.ReadBody | server/index.ts:42-49 | The accumulated body is the latin1 decoding of all chunks in order. |
| Multipart.ParseMultipart | server/index.ts:51-94 | The `end` handler's parse returns exactly `Extract` of the header and body. |
| Multipart.ScanParts | server/index.ts:62-84 | The loop's final `fileBuffer`, `fileName` and `fileSize` are `ScanAll` of the parts. |
| Multipart.ScanPart | server/index.ts:63-83 | One pass of the loop body updates the three variables exactly as `Step` does. |
| Multipart.HandleMultipart | server/index.ts:37-104 | `next()` is called exactly once. `req.file` is set to the parse result only for a multipart request where a file was found, and is otherwise unchanged. |
| Analyze.Next | server/routes/analyze.ts:25 | The generator state always lies in [0, 233280). |
| Analyze.Fraction | server/routes/analyze.ts:26 | A draw from a valid state lies in [0, 1). |
| Analyze.Lcg.Draw | server/routes/analyze.ts:24-27 | Each draw advances the seed by one generator step, leaves it in [0, 233280), and returns `seed / 233280`, which lies in [0, 1). The number of draws is counted. |
| Analyze.ThresholdIsExact | server/routes/analyze.ts:30-56 | A draw beats a check's threshold (0.3, 0.25, 0.2, 0.35, 0.3) exactly when the state exceeds 69984, 58320, 46656, 81648 or 69984. |
| Analyze.Outcomes | server/routes/analyze.ts:30-56 | Check `i` passes exactly when the state after draw `i + 1` strictly exceeds its bound. |
| Analyze.FailedUpTo | server/routes/analyze.ts:58-90 | Every listed check is among the first `n`. |
| Analyze.FailedUpToIsFailedChecks | server/routes/analyze.ts:58-90 | The failed checks are listed exactly, in increasing order, at most `n` of them, and the list is empty exactly when all passed. |
| Analyze.FindingsFollowFailedChecks | server/routes/analyze.ts:58-90 | The `a`-th pushed finding is the fixed text of the `a`-th failed check, so findings and failures are equal in number. |
| Analyze.FindingsDistinct | server/routes/analyze.ts:61-90 | The five findings differ from each other and from the sentinel. |
| Analyze.FindingsAreFailedChecks | server/routes/analyze.ts:58-90 | Check `k`'s finding is reported exactly when check `k` failed. The number of findings is the number of failed checks, at most five. |
| Analyze.VerdictFor | server/routes/analyze.ts:96-108 | `likely_real` exactly for 0 or 1 failures, `suspicious` exactly for 2, `likely_fake` exactly for 3 or more. |
| Analyze.VerdictMonotone | server/routes/analyze.ts:96-108 | More failures never give a less suspicious verdict. |
| Analyze.ConfidenceFor | server/routes/analyze.ts:96-108 | Confidence lies in [0.85, 1) for 0 failures, [0.65, 0.80) for 1, [0.60, 0.80) for 2, [0.75, 0.95) for 3 or more, so always in [0, 1]. |
| Analyze.NumberText | server/routes/analyze.ts:119 | The count is written as a non-empty run of decimal digits that spells exactly `n`, with no leading zero. |
| Analyze.Take | server/routes/analyze.ts:117-121 | `slice(0, n)` is the prefix of length `n`, or the whole list when it is shorter. |
| Analyze.Explanation | server/routes/analyze.ts:110-122 | The definition of `explanationMap[verdict]`. Its properties are in `RealExplanation`, `SuspiciousExplanation` and `FakeExplanation`. |
| Analyze.Analysis | server/routes/analyze.ts:13-131 | The result depends on the name and the clock only. It always has findings, its confidence is in [0, 1], and it carries the given timestamp. |
| Analyze.CodeUnitSum | server/routes/analyze.ts:18-21 | A character of the Basic Multilingual Plane adds its own code. Any other character adds a high and a low surrogate, so its sum lies between 0xD800 + 0xDC00 and 0xDBFF + 0xDFFF. |
| Analyze.CharCodeSum | server/routes/analyze.ts:18-21 | The seed is at most the name's length times the largest surrogate-pair sum. Its other properties are in `InitialSeed` and `CharCodeSumPermutation`. |
| Analyze.InitialSeed | server/routes/analyze.ts:18-21 | The seed loop computes the sum of the name's UTF-16 code units. |
| Analyze.RunChecks | server/routes/analyze.ts:30-56 | Exactly five draws, in check order, give the outcomes of the five checks. |
| Analyze.CollectFindings | server/routes/analyze.ts:58-90 | The pushed findings are those of the failed checks in order, and `failedChecks` equals their number. |
| Analyze.ChooseVerdict | server/routes/analyze.ts:92-108 | Exactly one more draw in whichever band is taken. The verdict and confidence are those of the band. |
| Analyze.AnalyzeImage | server/routes/analyze.ts:13-131 | The method returns `Analysis` of the name and clock, whatever the size, after exactly six draws. |
| Analyze.SentinelOnlyWhenEmpty | server/routes/analyze.ts:127 | With a sentinel absent from the findings, the reported list is never empty, and is the sentinel alone exactly when there were no findings. |
| Analyze.SentinelIffAllPassed | server/routes/analyze.ts:127 | The returned findings are never empty, and are `["No significant issues detected"]` exactly when every check passed. |
| Analyze.VerdictCountsFailedChecks | server/routes/analyze.ts:92-108 | The verdict and the confidence are those of the number of failed checks. The confidence comes from the sixth generator state. |
| Analyze.RealExplanation | server/routes/analyze.ts:110-115 | The likely-real explanation says "no significant inconsistencies" exactly when no check failed, and "only minor variations" otherwise. |
| Analyze.SuspiciousExplanation | server/routes/analyze.ts:117 | A suspicious verdict has exactly two failed checks, and the explanation names their findings joined with " and ". |
| Analyze.FakeExplanation | server/routes/analyze.ts:119-121 | A likely-fake verdict has at least three failed checks. The explanation states their number and names the first three findings joined with ", ". |
| Analyze.CharCodeSumPermutation | server/routes/analyze.ts:18-21 | Reordering a name's characters leaves its seed unchanged. |
| Analyze.AnagramsShareAnalysis | server/routes/analyze.ts:13-21 | Names that are anagrams of each other get identical analyses. |
| Analyze.APngIsLikelyReal | server/routes/analyze.ts:13-131 | `a.png` (seed 468) passes all five checks. It is likely real, with the sentinel finding and confidence 0.85 + 0.15 × 157830/233280. |
| Analyze.ChatJpgIsSuspicious | server/routes/analyze.ts:13-131 | `chat.jpg` (seed 783) fails the second and fourth checks. It is suspicious, and the explanation names those two findings. |
| Analyze.AnalyzeResponse | server/routes/analyze.ts:133-160 | The guards run in the source's order: no file, then not `image/`, then more than 10485760 bytes, each a 400 with the source's message. It succeeds exactly otherwise, so 10485760 bytes are accepted, and it returns the analysis of `originalname`. |
| Analyze.HandleAnalyze | server/routes/analyze.ts:133-168 | The handler, running `AnalyzeImage`, returns exactly `AnalyzeResponse`. |
| Analyze.AttachedFileIsImage | server/routes/analyze.ts:144-149 | A file attached by the middleware is stamped `image/jpeg`, so it is never refused as a non-image. |
| Analyze.NoBoundaryNoFile | server/index.ts:38-57 | A request that is not multipart, or has no boundary, reaches the handler without a file and gets "No file uploaded". |
| Analyze.SmallUploadAnalysed | server/routes/analyze.ts:151-159 | An upload attached by the middleware whose payload is at most 10 MB is analysed. The name used is the last file name found, or `upload.jpg`. |

## Left out

- The stream plumbing is not modelled: `req.on("data")` and
  `req.on("end")`, and the framework wiring (`express.json`,
  `urlencoded`, `raw`, `cors`, routes). The body arrives as a sequence of
  byte chunks, and the `end` handler runs once on all of them.
- The multipart body has no size ceiling in the code; this transport
  concern is not modelled.
- `console.error` logging and the HTTP status and JSON serialisation are
  left out. A response is an error status with a message, or the
  analysis.
- Nothing in the model throws. So the middleware's `catch` (server/index.ts:95-97)
  and the handler's 500 "Failed to analyze image" (server/routes/analyze.ts:162-167)
  are unreachable, and they are not modelled.
- Analyze.Analysis: `timestamp` reads the clock (`new Date().toISOString()`),
  so it is the parameter `now`.
- Analyze.Analysis: `confidence` is an exact real. The IEEE-754 rounding
  of the JavaScript arithmetic is not modelled. The check thresholds are
  compared exactly on integer generator states.
- Analyze.Lcg.Draw: the seed is an unbounded natural. JavaScript numbers
  stay exact only while `seed * 9301` is below 2^53. The seed exceeds that
  only for names of more than about 10^7 characters.
- Each check's `name` and `weight` fields are never read and are left out.
- Analyze.CharCodeSum: Dafny characters are Unicode scalar values. So a
  name holding a lone UTF-16 surrogate cannot be written. A character
  beyond the Basic Multilingual Plane counts as its surrogate pair, as
  `charCodeAt` sees it.
- Multipart.BoundaryToken: the Content-Type header is likewise a sequence
  of scalar values, not of UTF-16 code units. The body is latin1-decoded,
  so it only ever holds characters below 256.
- General regular expressions are not modelled. Only the two patterns the
  code uses are, through one scanner.
- Multipart.ExtractIsLastPartWins: the loop has no `break`, so each later
  matching part overwrites the buffer and size, and the name when it has
  one. The last matching part wins.
- Multipart.PayloadWithoutTrailingCrlf: a part with a blank line but no
  later CRLF still yields a file, and its payload is `\r\n`.
