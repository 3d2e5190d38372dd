# IppPrinter session model

A Dafny model of the IPP session object of harbour-seaprint (`IppPrinter`, `src/ippprinter.cpp`)
and proofs about it. The session keeps the printer's URL, the attribute profile from the last
discovery (`_attrs`), the formats the printer's device id adds (`_additionalDocumentFormats`), the
last job's attributes, the job list, and the busy and progress texts. It is driven by four
request/response tracks: get-printer-attributes, print-job, get-jobs and cancel-job.

The model is one class, `Session.IppPrinter`, whose methods update those fields in place.

- Posting a request through a network manager appends a `Request` value to the field `outbox`.
- Emitting a signal appends an `Event` to the field `events`.
- A finished network reply is an input value `Reply`: `NetError`, `ParseError` (the codec threw) or
  `Ok(status, opAttrs, printerAttrs, jobAttrs)`.

QJsonValue is the datatype `Json.JsonValue` and QJsonObject is `map<string, JsonValue>`. Reading a
printer attribute through QJsonObject's non-const `operator[]` inserts a null entry when the key is
missing. The model keeps this side effect:

- `JobBuilder.Insert` is one such read.
- `JobBuilder.Lookup` is one `getAttrOrDefault`, which reads `name + "-default"` only when the
  request has no value of its own.
- `JobBuilder.Vivify` is the reference description of a batch of reads.

`print` is split into steps that follow the source's order:

- `PrepareFile`: the file-open check.
- `PrepareDocument` and `NegotiateFormat`: the merged format list, the job-creation attributes,
  the requested format and the negotiated one, then the format check.
- `PrepareJob` and `ValidationLookups`: the resolution, quality, colour-mode and media lookups,
  then the media check.
- `BuildRequest` and `FinishJobAttrs`: the sides lookup, the stripped attributes, the media
  collection and the Print-Job request.

These steps change only the profile, and return the outcome as a `PrintOutcome` value: a failure
message or the request to post. `ApplyOutcome` then acts on that value once. A failure goes
through `convertFailed` and posts nothing. Otherwise the busy message becomes "Transferring" and
the request is posted.

The whole outcome is specified by the function `Session.PrintOutcomeOf` of the profile, the added
formats, the URL and the arguments. `Print`'s contract ties the new state to it, and
`PrintFailureCases` and `PrintPostedRequest` state what it means.

The model clears the progress text after computing the outcome, whereas the source clears it
first. The two touch disjoint state and no observable order differs: both signals still come out
in the source's order.

Two behaviours a reader might expect to be otherwise; the model follows the code:

- An operation-level `status-message` overwrites a printer-level one unconditionally (124-127 of
  `src/ippprinter.cpp`).
- A reply that fails or does not decode leaves the profile empty rather than keeping the previous
  one (117).

The rewritten `printer-resolution` for URF output (376-380) is a bare `{units, x, y}` object, not
a `{tag, value}` attribute like every other job attribute. The model keeps it that way:
`JobBuilder.SquareResolutionShape` states it. The negotiated format is never written back into
the job attributes, and the model does not write it back either.

## Model

| member | source | states |
|---|---|---|
| Session.IppPrinter.constructor | src/ippprinter.cpp:6-39 | a new session has the empty URL, empty profile, no added formats, no job attributes or jobs, empty texts, and has posted and emitted nothing |
| Urls.HttpUrl | src/ippprinter.cpp:534-541 | the HTTP target has scheme "http", the same host and path, and port 631 when the URL names none, and its own port otherwise |
| Urls.HttpUrlIdempotent | src/ippprinter.cpp:534-541 | the HTTP target always names a port, and rewriting it again changes nothing |
| Ipp.OpAttrsSpec | src/ippprinter.cpp:48-57 | every request starts from exactly four operation attributes: charset utf-8, natural language en-us, the printer's URL as printer-uri, and requesting-user-name nemo |
| Urls.NormalizedUrl | src/ippprinter.cpp:61-78 | an "ipp" URL is kept, text without a scheme is re-read with "ipp://" in front, "http" becomes "ipp" with host, port and path kept, and any other scheme gives the empty URL |
| Session.IppPrinter.SetUrl | src/ippprinter.cpp:59-92 | the URL becomes the normalised one; when it changed, the session announces it, forgets the profile and added formats and posts one get-printer-attributes request; when it did not, nothing else changes |
| Session.IppPrinter.Refresh | src/ippprinter.cpp:94-112 | the profile and the added formats are emptied, both changes are signalled, and exactly one get-printer-attributes request for the current URL is posted |
| Session.ProfileFromReplySpec | src/ippprinter.cpp:117-134 | the new profile is empty unless the reply decoded; otherwise its keys are the printer attributes' keys plus status-message when the operation attributes carry it, status-message comes from the operation attributes, and every other value is the printer's |
| Session.IppPrinter.GetPrinterAttributesFinished | src/ippprinter.cpp:114-161 | the profile becomes the reply's; with a device id, the supported-format read inserts its key, the added formats grow by exactly the device id's additions, and the additions are signalled before the profile change |
| Session.IppPrinter.AddDeviceIdFormats | src/ippprinter.cpp:140-155 | the scan loop appends, segment by segment in order, exactly the formats each segment adds |
| DeviceId.CmdSegmentShape | src/ippprinter.cpp:142-143 | a segment splits on ':' into exactly ["CMD", list] iff it starts with "CMD:" and the rest has no ':' |
| DeviceId.CmdFormatsSpec | src/ippprinter.cpp:142-154 | a segment adds application/pdf (application/postscript) iff it is a command list naming PDF (POSTSCRIPT) and the printer does not advertise that format; nothing else is added, and PDF comes first |
| DeviceId.DeviceIdFormatsShape | src/ippprinter.cpp:136-155 | the device id adds only PDF and PostScript, never one the printer advertises, and at most two per segment |
| DeviceId.AddedIff | src/ippprinter.cpp:136-155 | a format is added iff the printer does not advertise it and some segment names its command in a "CMD:" list |
| Session.JobAttrsFromReply | src/ippprinter.cpp:165-183 | after a transport error the job attributes hold only the "Network error" job-state-message; after an undecodable body they are empty; otherwise they are the first job group, or empty when the reply has none |
| Session.IppPrinter.PrintRequestFinished | src/ippprinter.cpp:163-186 | the job attributes are those of the reply, and jobFinished reports success iff the reply decoded with a status of at most 0xFF |
| Session.IppPrinter.GetJobsRequestFinished | src/ippprinter.cpp:188-203 | a decoded reply replaces the job list and is signalled; otherwise the list and the signals stay as they were |
| Session.IppPrinter.CancelJobFinished | src/ippprinter.cpp:206-223 | cancelStatus reports success iff the reply decoded with a status of at most 0xFF, and whatever the outcome exactly one get-jobs request follows |
| Tls.IgnoreKnownSslErrors | src/ippprinter.cpp:227-245 | the errors are ignored iff every one of them is on the five-kind allow-list, that is iff none is fatal |
| Session.IppPrinter.ConvertFailed | src/ippprinter.cpp:260-266 | the job attributes become the single job-state-message with the given text, then jobAttrsChanged and jobFinished(false) are emitted |
| Negotiation.FirstMatchSpec | src/ippprinter.cpp:268-278 | the match is "" when no wanted format is supported, and otherwise the first wanted format that is |
| Negotiation.RasterChain | src/ippprinter.cpp:282-285 | the raster preference gives PWG raster, else URF, else "" |
| Negotiation.TargetFormatIfAutoCases | src/ippprinter.cpp:280-299 | with forceRaster the choice is PWG raster, else URF, else ""; an explicit request is returned unchanged; an octet-stream request picks by the PDF list for a PDF source, by the image list for an image source, and stays octet-stream otherwise; an automatic non-empty choice is supported |
| Session.IppPrinter.Print | src/ippprinter.cpp:301-445 | the profile and the job attributes, busy message, outbox and signals end as the outcome dictates: a failure posts nothing and ends the job with its message; success posts exactly one request and sets "Transferring"; the progress text is cleared |
| Session.PrintFailureCases | src/ippprinter.cpp:310-393 | print fails iff the file does not open, the negotiated format is "" or application/octet-string, or the paper size is not in the table, checked in that order with "Failed to open file", "Unknown document format" and "Unsupported print media"; a file that does not open leaves the profile as it was |
| Session.PrintPostedRequest | src/ippprinter.cpp:330-444 | a posted request is the Print-Job request to the HTTP address with the job name, the final job attributes for the negotiated format and the file's bytes, and the profile then has every key print's reads insert |
| Session.PostedWellFormed | src/ippprinter.cpp:430-444 | every request print posts goes over plain HTTP to a named port, names its printer, and carries the job name and the media collection |
| Session.PrintJobRequestWellFormed | src/ippprinter.cpp:330-431 | a Print-Job request built from the job name and the final job attributes is well formed, whatever the format and options |
| Session.IppPrinter.PrepareFile | src/ippprinter.cpp:310-316 | a file that does not open fails with "Failed to open file" and reads nothing; otherwise the result is the rest of print's checks; the request it yields is well formed |
| Session.IppPrinter.PrepareDocument | src/ippprinter.cpp:318-347 | the negotiation's reads and the format check, then the later checks, yield print's outcome for an opened file |
| Session.IppPrinter.NegotiateFormat | src/ippprinter.cpp:322-340 | the negotiated format and the job-creation list are those of the profile print started from, and the profile gains exactly the keys those reads insert |
| Session.IppPrinter.SupportedMimeTypes | src/ippprinter.cpp:322-326 | the list is the advertised formats followed by the added formats, and the read inserts the supported-format key |
| Session.IppPrinter.ReadProfile | src/ippprinter.cpp:335 | one read of a printer attribute returns its value and inserts its key when missing |
| JobBuilder.SupportedFormatsSpec | src/ippprinter.cpp:322-326 | the merged list starts with the advertised formats, is exactly as long as both lists together, and supports a format iff the printer advertises it or it was added |
| JobBuilder.JsonStringsSpec | src/ippprinter.cpp:323-326 | each added format becomes one JSON string, in the same order |
| Session.IppPrinter.PrepareJob | src/ippprinter.cpp:349-393 | document-format is dropped unless kept, the lookups are made, and an unknown paper size fails with "Unsupported print media" before the request is built |
| Session.IppPrinter.ValidationLookups | src/ippprinter.cpp:362-388 | the resolution is made square for URF and left alone otherwise, the paper size is the request's or the printer's default media, and the profile gains the default keys those lookups read |
| JobBuilder.U32 | src/ippprinter.cpp:363-364 | the conversion to quint32 lands in [0, 2^32) |
| JobBuilder.SquareResolutionShape | src/ippprinter.cpp:366-381 | the URF resolution is a bare {units, x, y} object with the request's units and x = y, equal to the smaller axis when both have the same sign and to the non-negative one when only one is, as the unsigned comparison of quint32 values orders them |
| Session.IppPrinter.BuildRequest | src/ippprinter.cpp:395-431 | from the job as the lookups left it, the request is the Print-Job request with the final job attributes, and the profile is the one after every read print makes |
| Session.IppPrinter.FinishJobAttrs | src/ippprinter.cpp:395-425 | the sides lookup is made, raster output loses sides and print-color-mode, PostScript output loses sides, and media-col is set |
| JobBuilder.FinalJobAttrsShape | src/ippprinter.cpp:349-425 | the final job attributes always hold the fixed media collection; hold document-format only when kept; hold the square resolution for URF; lose sides and print-color-mode exactly as stripped; and hold every other attribute as requested |
| Session.IppPrinter.ApplyOutcome | src/ippprinter.cpp:437-443 | a failure ends the job through convertFailed and posts nothing; a request is announced with "Transferring" and posted, keeping every posted request well formed |
| JobBuilder.PrintProfileIsVivify | src/ippprinter.cpp:322-395 | every read print makes only adds null entries for the keys it reads, whatever their order or repetition |
| JobBuilder.InsertIsVivify | src/ippprinter.cpp:566 | a read of a missing key adds it with null and changes nothing else |
| JobBuilder.VivifyUnion | src/ippprinter.cpp:322-395 | two batches of reads are the reads of both |
| JobBuilder.LookupIsVivify | src/ippprinter.cpp:559-568 | a lookup reads its default key only when the request lacks the attribute |
| JobBuilder.InsertKeepsValues | src/ippprinter.cpp:566 | the null entry a read inserts is invisible to later value reads |
| JobBuilder.LookupKeepsValues | src/ippprinter.cpp:559-568 | a lookup finds what it would have found before earlier lookups |
| Session.NegotiationKeepsValues | src/ippprinter.cpp:322-337 | the reads up to the format check change no later lookup's value |
| Session.LookupsIgnoreFormat | src/ippprinter.cpp:349-395 | dropping document-format changes none of the later lookups nor the profile they leave |
| Session.LookupSame | src/ippprinter.cpp:395 | the sides lookup depends only on whether the request has sides |
| Session.IppPrinter.GetAttrOrDefault | src/ippprinter.cpp:559-568 | the value is the request's own when present and otherwise the printer's name-default value; the profile gains the default key only when it was read |
| Session.IppPrinter.GetJobs | src/ippprinter.cpp:490-510 | exactly one get-jobs request asking for all attributes is posted, and the result is true |
| Session.IppPrinter.CancelJobRequest | src/ippprinter.cpp:512-532 | exactly one cancel-job request for the job id is posted, and the result is true |
| Session.IppPrinter.SetBusyMessage | src/ippprinter.cpp:543-547 | the busy message becomes the text and busyMessageChanged is emitted |
| Session.IppPrinter.SetProgress | src/ippprinter.cpp:549-557 | with total 0 nothing changes and nothing is emitted; otherwise the progress text becomes the truncated percentage and "%" and the change is signalled |
| Session.ProgressText | src/ippprinter.cpp:554-555 | the progress text is a decimal numeral, followed by "%", whose value is 100 * sent / total rounded toward zero, and lies in 0..100 when 0 <= sent <= total |
| Session.TruncDiv | src/ippprinter.cpp:554 | C++ division: the magnitude is the quotient of the magnitudes, the sign is the product of the signs, and it agrees with Dafny's division on non-negative operands |
| Session.QuarterProgress | src/ippprinter.cpp:554-555 | 50 of 200 bytes reads "25%" |
| Text.JoinSplit | src/ippprinter.cpp:139-145 | joining the parts of a split gives back the string |
| Text.SplitJoin | src/ippprinter.cpp:139-145 | splitting parts joined by the separator gives back the parts when none holds it |
| Text.SplitPrefix | src/ippprinter.cpp:142 | splitting text after a separator-free prefix glues the prefix onto the first part |
| Text.SplitNoSeparator | src/ippprinter.cpp:142 | text without the separator splits into itself |
| Text.Split | src/ippprinter.cpp:139-145 | QString::split gives at least one part and no part holds the separator |
| Text.BaseNameShape | src/ippprinter.cpp:330-333 | the job name holds no '/', ends the path, and is the whole path or follows a '/' |
| Text.NatDecimalShape | src/ippprinter.cpp:554 | QString::number renders a non-negative value as a non-empty digit string with no leading zero |
| Text.NatDecimalRoundTrip | src/ippprinter.cpp:554 | reading back the digits of a non-negative value gives the value |
| Text.IntDecimalRoundTrip | src/ippprinter.cpp:554 | reading back QString::number of any integer gives the integer |
| Json.AsInt | src/ippprinter.cpp:363-364 | QJsonValue::toInt gives a 32-bit value |

## Left out

- Qt networking (the network managers, `post`, the replies) is not modelled: a post is an
  append to `outbox` and a reply is a `Reply` value. The HTTP headers (Content-Type, User-Agent)
  are left out because they are constant.
- The IppMsg codec (encoding a request, decoding a reply and the exception it throws) is a
  foreign class. A request is kept as its attribute groups and document bytes. A reply is the
  outcome of decoding it.
- The signal wiring in the constructor and the destructor's deletes are plumbing. `onUrlChanged`
  is modelled as the direct call to `Refresh` it makes.
- The worker thread, ConvertWorker, `convertDone` (247-258) and the conversion branch (446-485)
  are left out. That branch is unreachable because print returns unconditionally at 444, so the
  "Converting" busy message, the sides to duplex/tumble mapping and "Cannot convert this file
  format" never happen.
- The Quality, Colors and Sides values (383-386, 395) are used only by that dead branch and are
  not computed. Their lookups, and the entries those lookups insert into the profile, are
  modelled.
- The upload-progress connection (443) is not modelled; `SetProgress` is the handler the
  connection would call.
- Mimer's MIME sniffing is the parameter `mimeType`. The PaperSizes table is the parameter
  `paperSizes`. Reading the file is the parameter `file` (`OpenFailed` or its bytes).
- QUrl's parser is the parameter `parse` of `SetUrl`. QUrl::toString is simplified to
  "scheme://host[:port]path" (`Urls.Render`), with no encoding rules.
- qDebug output is left out. This includes the `readAll` at 167, which in a build with debug
  output would consume the reply body before it is decoded; the model decodes the whole body.
- `tr` is left out: the failure messages are the untranslated English texts.
- QSslError kinds other than the five on the allow-list are folded into one `Other` kind.
- JSON numbers are integers only: Qt stores them as doubles, and the model does not capture
  QJsonValue::toInt's check that a double is a whole number (`Json.AsInt` takes any integer in
  the 32-bit range and gives 0 otherwise).
- Qt tells a null QJsonValue from an undefined one; the model has one constructor, `JNull`, for
  both, since every conversion the session applies treats them alike.
- Session.IppPrinter.SetProgress: does not model the qint64 overflow of `100 * sent`, because
  the percentage is computed on unbounded integers; a byte count above 2^63 / 100 would wrap in
  the source.
- The out-of-range read `getJobAttrs()[0]` on a reply without job groups is modelled as an
  empty object, as Qt's release build returns an undefined value for it.
- Session.IppPrinter.Print: the progress text is cleared after the outcome is computed rather
  than before. The two steps touch disjoint fields, and the signals keep the source's order.
