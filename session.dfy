/** The IPP session object (`IppPrinter`): the printer's URL, its attribute profile, the
    formats its device id adds, the last job's attributes, the job list, and the busy and
    progress texts, driven by the four request/response tracks (get-printer-attributes,
    print-job, get-jobs, cancel-job). Requests the session posts are appended to `outbox`
    and the signals it emits to `events`. */
module Session {
  import opened Json
  import opened Text
  import opened Urls
  import opened Ipp
  import opened Negotiation
  import opened JobBuilder
  import opened DeviceId

  type Int32 = n: int | IsInt32(n)
  type Int64 = n: int | -0x8000_0000_0000_0000 <= n < 0x8000_0000_0000_0000

  /** The signals the session emits. */
  datatype Event =
    | UrlChanged
    | AttrsChanged
    | AdditionalDocumentFormatsChanged
    | JobAttrsChanged
    | JobFinished(ok: bool)
    | JobsChanged
    | CancelStatus(ok: bool)
    | BusyMessageChanged
    | ProgressChanged

  /** The document to print: what reading the file gave, or the failure to open it. */
  datatype FileContents = OpenFailed | Contents(bytes: seq<bv8>)

  const TransferringMessage: string := "Transferring"
  const NetworkErrorMessage: string := "Network error"

  /** `refresh`: the get-printer-attributes request for `url`. */
  function DiscoveryRequest(url: Url): Request {
    Request(GetPrinterAttrs, HttpUrl(url), OpAttrs(url), map[], [])
  }

  /** `getJobs`: the get-jobs request for `url`, asking for all attributes. */
  function JobsRequest(url: Url): Request {
    Request(GetJobs, HttpUrl(url), OpAttrs(url)["requested-attributes" := Attr(KeywordTag, JStr("all"))], map[], [])
  }

  /** `cancelJob`: the cancel-job request for job `jobId` of `url`. */
  function CancelRequest(url: Url, jobId: Int32): Request {
    Request(CancelJob, HttpUrl(url), OpAttrs(url)["job-id" := Attr(IntegerTag, JNum(jobId))], map[], [])
  }

  /** The Print-Job request print posts once every check has passed. */
  function PrintJobRequest(url: Url, filename: string, job: JsonObject, format: string, keepFormat: bool,
                           resolution: JsonValue, stripRedundant: bool, document: seq<bv8>): Request {
    Request(PrintJob, HttpUrl(url), PrintOpAttrs(url, filename),
            FinalJobAttrs(job, format, keepFormat, resolution, stripRedundant), document)
  }

  /** A lookup of `name` reads the same key for two requests that both have it or both lack it. */
  lemma LookupSame(profile: JsonObject, job: JsonObject, attrs: JsonObject, name: string)
    requires (name in job) == (name in attrs)
    ensures Lookup(profile, job, name) == Lookup(profile, attrs, name)
  {
  }

  /** The session's invariant on what it has posted: every request is well formed. */
  predicate AllWellFormed(requests: seq<Request>) {
    forall i | 0 <= i < |requests| :: WellFormed(requests[i])
  }

  /** The Print-Job request print posts is well formed. */
  lemma PrintJobRequestWellFormed(url: Url, filename: string, job: JsonObject, format: string, keepFormat: bool,
                                  resolution: JsonValue, stripRedundant: bool, document: seq<bv8>)
    ensures WellFormed(PrintJobRequest(url, filename, job, format, keepFormat, resolution, stripRedundant, document))
  {
    HttpUrlIdempotent(url);
    FinalJobAttrsShape(job, format, keepFormat, resolution, stripRedundant);
  }

  /** What every posted request satisfies: it goes over plain HTTP to a named port, names
      its printer, and a Print-Job request carries a job name and the media collection. */
  predicate WellFormed(r: Request) {
    && r.target.scheme == "http"
    && r.target.port != -1
    && "printer-uri" in r.operationAttrs
    && (r.op == PrintJob ==>
          "job-name" in r.operationAttrs && "media-col" in r.jobAttrs && r.jobAttrs["media-col"] == MediaCol)
  }

  /** How a print ends: failed with a job-state message, or with the request posted; with
      the profile print leaves behind either way. */
  datatype PrintOutcome =
    | Failed(message: string, profile: JsonObject)
    | Posted(request: Request, profile: JsonObject)

  /** Print after the format check, for the profile `profile` print started from: the
      media check, then the Print-Job request. */
  function SubmitOutcome(profile: JsonObject, url: Url, attrs: JsonObject, filename: string, format: string,
                         keepFormat: bool, document: seq<bv8>, paperSizes: set<string>,
                         stripRedundant: bool): PrintOutcome {
    if PaperSize(attrs, profile) !in paperSizes then
      Failed(UnsupportedMediaMessage, ValidationProfile(NegotiationProfile(profile, attrs), attrs))
    else
      Posted(PrintJobRequest(url, filename, attrs, format, keepFormat, Resolution(attrs, profile),
                             stripRedundant, document),
             PrintProfile(profile, attrs))
  }

  /** Print once the file is open: the negotiated format must not be rejected, then the
      media check and the post. */
  function DocumentOutcome(profile: JsonObject, additional: seq<string>, url: Url, attrs: JsonObject,
                           filename: string, document: seq<bv8>, mimeType: string, paperSizes: set<string>,
                           alwaysConvert: bool, forceIncludeDocumentFormat: bool,
                           stripRedundant: bool): PrintOutcome {
    var format := NegotiatedFormat(profile, additional, attrs, mimeType, alwaysConvert);
    if FormatRejected(format) then Failed(UnknownFormatMessage, NegotiationProfile(profile, attrs))
    else SubmitOutcome(profile, url, attrs, filename, format, KeepsDocumentFormat(profile, forceIncludeDocumentFormat),
                       document, paperSizes, stripRedundant)
  }

  /** How print ends for the profile, the added formats and the URL it starts from: the file
      must open, the negotiated format must not be rejected and the paper size must be known;
      the first check that fails names the message. */
  function PrintOutcomeOf(profile: JsonObject, additional: seq<string>, url: Url, attrs: JsonObject,
                          filename: string, file: FileContents, mimeType: string, paperSizes: set<string>,
                          alwaysConvert: bool, forceIncludeDocumentFormat: bool,
                          stripRedundant: bool): PrintOutcome {
    if file.OpenFailed? then Failed(FileOpenFailedMessage, profile)
    else DocumentOutcome(profile, additional, url, attrs, filename, file.bytes, mimeType, paperSizes,
                         alwaysConvert, forceIncludeDocumentFormat, stripRedundant)
  }

  /** A request print posts is well formed. */
  lemma PostedWellFormed(profile: JsonObject, additional: seq<string>, url: Url, attrs: JsonObject,
                         filename: string, file: FileContents, mimeType: string, paperSizes: set<string>,
                         alwaysConvert: bool, forceIncludeDocumentFormat: bool, stripRedundant: bool)
    ensures var r := PrintOutcomeOf(profile, additional, url, attrs, filename, file, mimeType, paperSizes,
                                    alwaysConvert, forceIncludeDocumentFormat, stripRedundant);
            r.Posted? ==> WellFormed(r.request)
  {
    if file.Contents? {
      var format := NegotiatedFormat(profile, additional, attrs, mimeType, alwaysConvert);
      PrintJobRequestWellFormed(url, filename, attrs, format, KeepsDocumentFormat(profile, forceIncludeDocumentFormat),
                                Resolution(attrs, profile), stripRedundant, file.bytes);
    }
  }

  /** Print fails exactly when the file does not open, the negotiated format is rejected or
      the paper size is not in the table, checked in that order, each with its own message;
      a file that does not open leaves the profile untouched. */
  lemma PrintFailureCases(profile: JsonObject, additional: seq<string>, url: Url, attrs: JsonObject,
                          filename: string, file: FileContents, mimeType: string, paperSizes: set<string>,
                          alwaysConvert: bool, forceIncludeDocumentFormat: bool, stripRedundant: bool)
    ensures var r := PrintOutcomeOf(profile, additional, url, attrs, filename, file, mimeType, paperSizes,
                                    alwaysConvert, forceIncludeDocumentFormat, stripRedundant);
            var format := NegotiatedFormat(profile, additional, attrs, mimeType, alwaysConvert);
            && (r.Failed? <==> file.OpenFailed? || FormatRejected(format) || PaperSize(attrs, profile) !in paperSizes)
            && (file.OpenFailed? ==> r == Failed(FileOpenFailedMessage, profile))
            && (file.Contents? && FormatRejected(format) ==> r.Failed? && r.message == UnknownFormatMessage)
            && (file.Contents? && !FormatRejected(format) && PaperSize(attrs, profile) !in paperSizes ==>
                  r.Failed? && r.message == UnsupportedMediaMessage)
  {
  }

  /** When print posts, it posts a Print-Job request to the printer's HTTP address carrying
      the job name, the final job attributes and the file's bytes, and leaves the profile with
      every key its reads inserted. */
  lemma PrintPostedRequest(profile: JsonObject, additional: seq<string>, url: Url, attrs: JsonObject,
                           filename: string, file: FileContents, mimeType: string, paperSizes: set<string>,
                           alwaysConvert: bool, forceIncludeDocumentFormat: bool, stripRedundant: bool)
    ensures var r := PrintOutcomeOf(profile, additional, url, attrs, filename, file, mimeType, paperSizes,
                                    alwaysConvert, forceIncludeDocumentFormat, stripRedundant);
            var format := NegotiatedFormat(profile, additional, attrs, mimeType, alwaysConvert);
            r.Posted? ==>
              && file.Contents?
              && r.request == PrintJobRequest(url, filename, attrs, format,
                                              KeepsDocumentFormat(profile, forceIncludeDocumentFormat),
                                              Resolution(attrs, profile), stripRedundant, file.bytes)
              && r.profile == PrintProfile(profile, attrs)
  {
  }

  /** The printer profile a get-printer-attributes reply yields, before the device-id scan:
      empty unless the reply decoded; otherwise the printer attributes, with an operation-level
      status-message written over any printer-level one. */
  function ProfileFromReply(reply: Reply): JsonObject {
    if !reply.Ok? then map[]
    else if "status-message" in reply.opAttrs then
      reply.printerAttrs["status-message" := reply.opAttrs["status-message"]]
    else reply.printerAttrs
  }

  /** The reply's keys, with status-message taken from the operation attributes when they
      carry one and every other value from the printer attributes. */
  lemma ProfileFromReplySpec(reply: Reply)
    ensures var profile := ProfileFromReply(reply);
            && (!reply.Ok? ==> profile == map[])
            && (reply.Ok? ==> profile.Keys == reply.printerAttrs.Keys + (reply.opAttrs.Keys * {"status-message"}))
            && (reply.Ok? && "status-message" in reply.opAttrs ==>
                  profile["status-message"] == reply.opAttrs["status-message"])
            && (reply.Ok? ==> forall k | k in profile && k != "status-message" :: profile[k] == reply.printerAttrs[k])
            && (reply.Ok? && "status-message" !in reply.opAttrs ==> profile == reply.printerAttrs)
  {
  }

  /** The device id a profile carries, as text. */
  function DeviceIdText(profile: JsonObject): string {
    AsString(ProfileValue(profile, "printer-device-id"))
  }

  /** The job attributes a print-job reply leaves: a "Network error" job-state-message after
      a transport error, nothing after a body that did not decode, and otherwise the first
      job attribute group (nothing when the reply holds none). */
  function JobAttrsFromReply(reply: Reply): (job: JsonObject)
    ensures reply.NetError? ==> job == FailureAttrs(NetworkErrorMessage)
    ensures reply.ParseError? ==> job == map[]
    ensures reply.Ok? && |reply.jobAttrs| > 0 ==> job == AsObject(reply.jobAttrs[0])
    ensures reply.Ok? && |reply.jobAttrs| == 0 ==> job == map[]
  {
    match reply
    case NetError => FailureAttrs(NetworkErrorMessage)
    case ParseError => map[]
    case Ok(_, _, _, jobAttrs) => if |jobAttrs| > 0 then AsObject(jobAttrs[0]) else map[]
  }

  function Abs(n: int): nat {
    if n >= 0 then n else -n
  }

  /** C++ integer division: the quotient rounded toward zero, so its magnitude is the
      quotient of the magnitudes and its sign is the product of the signs. */
  function TruncDiv(a: int, b: int): (q: int)
    requires b != 0
    ensures Abs(q) == Abs(a) / Abs(b)
    ensures q > 0 ==> (a > 0) == (b > 0)
    ensures q < 0 ==> (a > 0) != (b > 0)
    ensures a >= 0 && b > 0 ==> q == a / b
  {
    var m := Abs(a) / Abs(b);
    assert m >= 0 && (a == 0 ==> m == 0) by {
      DivNonNegative(Abs(a), Abs(b));
    }
    if (a >= 0) == (b > 0) then m else -m
  }

  lemma DivNonNegative(x: nat, t: nat)
    requires t > 0
    ensures x / t >= 0 && (x == 0 ==> x / t == 0)
  {
  }

  /** A quotient of a value no larger than k times the divisor is at most k. */
  lemma DivBound(x: nat, t: nat, k: nat)
    requires t > 0 && x <= k * t
    ensures x / t <= k
  {
    assert (x / t) * t <= x;
  }

  /** The progress text for `sent` of `total` bytes: the truncated percentage in decimal,
      then "%". */
  function ProgressText(sent: int, total: int): (text: string)
    requires total != 0
    ensures |text| >= 2 && text[|text| - 1] == '%'
    ensures IsDecimal(text[..|text| - 1]) && ParseDecimal(text[..|text| - 1]) == TruncDiv(100 * sent, total)
    ensures 0 <= sent <= total ==> 0 <= ParseDecimal(text[..|text| - 1]) <= 100
  {
    var percent := TruncDiv(100 * sent, total);
    var number := IntToDecimal(percent);
    IntDecimalRoundTrip(percent);
    assert 0 <= sent <= total ==> percent <= 100 by {
      if 0 <= sent <= total {
        DivBound(100 * sent, total, 100);
      }
    }
    assert (number + "%")[..|number|] == number;
    number + "%"
  }

  lemma QuarterProgress()
    ensures ProgressText(50, 200) == "25%"
  {
    assert TruncDiv(5000, 200) == 25;
  }

  /** The reads up to the format check leave every later lookup's value as it was. */
  lemma NegotiationKeepsValues(profile: JsonObject, attrs: JsonObject, job: JsonObject, name: string)
    ensures AttrOrDefault(job, NegotiationProfile(profile, attrs), name) == AttrOrDefault(job, profile, name)
  {
    var p1 := Insert(profile, "document-format-supported");
    var p2 := Insert(p1, "job-creation-attributes-supported");
    LookupKeepsValues(p2, attrs, "document-format", job, name);
    InsertKeepsValues(p1, "job-creation-attributes-supported", name + "-default");
    InsertKeepsValues(profile, "document-format-supported", name + "-default");
  }

  /** Dropping document-format from the job changes none of the later lookups. */
  lemma LookupsIgnoreFormat(attrs: JsonObject, job: JsonObject, profile: JsonObject)
    requires job == attrs || job == attrs - {"document-format"}
    ensures Resolution(job, NegotiationProfile(profile, attrs)) == Resolution(attrs, profile)
    ensures PaperSize(job, NegotiationProfile(profile, attrs)) == PaperSize(attrs, profile)
    ensures forall p :: ValidationProfile(p, job) == ValidationProfile(p, attrs)
    ensures forall p :: Lookup(p, job, "sides") == Lookup(p, attrs, "sides")
  {
    NegotiationKeepsValues(profile, attrs, job, "printer-resolution");
    NegotiationKeepsValues(profile, attrs, job, "media");
  }

  /** The edits print makes, one after another, build the final job attributes. */
  lemma FinalJobAttrsSteps(attrs: JsonObject, format: string, keepFormat: bool, resolution: JsonValue,
                           stripRedundant: bool, job: JsonObject)
    requires var kept := if keepFormat then attrs else attrs - {"document-format"};
             var resolved := if format == Urf then kept["printer-resolution" := SquareResolution(resolution)] else kept;
             var raster := if stripRedundant && (format == PwgRaster || format == Urf)
                           then resolved - {"sides", "print-color-mode"} else resolved;
             var stripped := if stripRedundant && format == Postscript then raster - {"sides"} else raster;
             job == stripped["media-col" := MediaCol]
    ensures job == FinalJobAttrs(attrs, format, keepFormat, resolution, stripRedundant)
  {
  }

  class IppPrinter {
    var url: Url
    /** `_attrs`: the printer profile from the last discovery. */
    var printerAttrs: JsonObject
    var additionalDocumentFormats: seq<string>
    var jobAttrs: JsonObject
    var jobs: seq<JsonValue>
    var busyMessage: string
    var progress: string
    /** The requests posted, oldest first. */
    var outbox: seq<Request>
    /** The signals emitted, oldest first. */
    var events: seq<Event>

    constructor ()
      ensures AllWellFormed(outbox)
      ensures url == EmptyUrl && printerAttrs == map[] && additionalDocumentFormats == []
      ensures jobAttrs == map[] && jobs == [] && busyMessage == "" && progress == ""
      ensures outbox == [] && events == []
    {
      url := EmptyUrl;
      printerAttrs := map[];
      additionalDocumentFormats := [];
      jobAttrs := map[];
      jobs := [];
      busyMessage := "";
      progress := "";
      outbox := [];
      events := [];
    }

    /** `setUrl`: normalise the scheme; when the URL differs from the current one, store it,
        announce it and rediscover the printer (`onUrlChanged` runs `refresh`). */
    method SetUrl(s: string, parse: string -> Url)
      requires AllWellFormed(outbox)
      modifies this
      ensures AllWellFormed(outbox)
      ensures url == NormalizedUrl(s, parse)
      ensures jobAttrs == old(jobAttrs) && jobs == old(jobs)
      ensures busyMessage == old(busyMessage) && progress == old(progress)
      ensures url == old(url) ==>
                && printerAttrs == old(printerAttrs) && additionalDocumentFormats == old(additionalDocumentFormats)
                && outbox == old(outbox) && events == old(events)
      ensures url != old(url) ==>
                && printerAttrs == map[] && additionalDocumentFormats == []
                && outbox == old(outbox) + [DiscoveryRequest(url)]
                && events == old(events) + [UrlChanged, AttrsChanged, AdditionalDocumentFormatsChanged]
    {
      var u := NormalizedUrl(s, parse);
      if u != url {
        url := u;
        events := events + [UrlChanged];
        Refresh();
      }
    }

    /** `refresh`: forget the profile and the added formats, then ask for the attributes. */
    method Refresh()
      requires AllWellFormed(outbox)
      modifies this`printerAttrs, this`additionalDocumentFormats, this`outbox, this`events
      ensures AllWellFormed(outbox)
      ensures printerAttrs == map[] && additionalDocumentFormats == []
      ensures outbox == old(outbox) + [DiscoveryRequest(url)]
      ensures events == old(events) + [AttrsChanged, AdditionalDocumentFormatsChanged]
    {
      printerAttrs := map[];
      events := events + [AttrsChanged];
      additionalDocumentFormats := [];
      events := events + [AdditionalDocumentFormatsChanged];
      HttpUrlIdempotent(url);
      outbox := outbox + [DiscoveryRequest(url)];
    }

    /** `getPrinterAttributesFinished`: replace the profile by the reply's, then scan the
        device id's command lists for formats the printer does not advertise. */
    method GetPrinterAttributesFinished(reply: Reply)
      requires AllWellFormed(outbox)
      modifies this`printerAttrs, this`additionalDocumentFormats, this`events
      ensures AllWellFormed(outbox)
      ensures var profile := ProfileFromReply(reply);
              if "printer-device-id" in profile then
                && printerAttrs == Insert(profile, "document-format-supported")
                && additionalDocumentFormats == old(additionalDocumentFormats)
                     + DeviceIdAdditions(DeviceIdText(profile), AdvertisedFormats(profile))
                && events == old(events) + [AdditionalDocumentFormatsChanged, AttrsChanged]
              else
                && printerAttrs == profile
                && additionalDocumentFormats == old(additionalDocumentFormats)
                && events == old(events) + [AttrsChanged]
    {
      printerAttrs := map[];
      if reply.Ok? {
        printerAttrs := reply.printerAttrs;
        if "status-message" in reply.opAttrs {
          printerAttrs := printerAttrs["status-message" := reply.opAttrs["status-message"]];
        }
      }
      assert printerAttrs == ProfileFromReply(reply);
      if "printer-device-id" in printerAttrs {
        var deviceId := AsString(ProfileValue(printerAttrs, "printer-device-id"));
        var supportedValue := ReadProfile("document-format-supported");
        AddDeviceIdFormats(Split(deviceId, ';'), AsArray(supportedValue));
        events := events + [AdditionalDocumentFormatsChanged];
      }
      events := events + [AttrsChanged];
    }

    /** The device-id scan of `getPrinterAttributesFinished`: for each command-list segment,
        append PDF and PostScript when it names them and the printer does not advertise them. */
    method AddDeviceIdFormats(segments: seq<string>, supportedMimeTypes: seq<JsonValue>)
      modifies this`additionalDocumentFormats
      ensures additionalDocumentFormats
                == old(additionalDocumentFormats) + DeviceIdFormats(segments, supportedMimeTypes)
    {
      var i := 0;
      while i < |segments|
        invariant 0 <= i <= |segments|
        invariant additionalDocumentFormats
                    == old(additionalDocumentFormats) + DeviceIdFormats(segments[..i], supportedMimeTypes)
      {
        var added := CmdFormats(segments[i], supportedMimeTypes);
        DeviceIdFormatsStep(segments, i, supportedMimeTypes);
        assert old(additionalDocumentFormats) + DeviceIdFormats(segments[..i + 1], supportedMimeTypes)
                 == additionalDocumentFormats + added;
        additionalDocumentFormats := additionalDocumentFormats + added;
        i := i + 1;
      }
      assert segments[..|segments|] == segments;
    }

    /** `printRequestFinished`: record the job attributes the reply carries and report whether
        the job was accepted. */
    method PrintRequestFinished(reply: Reply)
      requires AllWellFormed(outbox)
      modifies this`jobAttrs, this`events
      ensures AllWellFormed(outbox)
      ensures jobAttrs == JobAttrsFromReply(reply)
      ensures events == old(events) + [JobAttrsChanged, JobFinished(Succeeded(reply))]
    {
      jobAttrs := map[];
      var status := false;
      if !reply.NetError? {
        if reply.Ok? {
          jobAttrs := if |reply.jobAttrs| > 0 then AsObject(reply.jobAttrs[0]) else map[];
          status := reply.status <= 0xFF;
        }
      } else {
        jobAttrs := jobAttrs["job-state-message" := Attr(TextWithoutLanguageTag, JStr(NetworkErrorMessage))];
      }
      events := events + [JobAttrsChanged, JobFinished(status)];
    }

    /** `getJobsRequestFinished`: a decoded reply replaces the job list; otherwise the old
        list stays. */
    method GetJobsRequestFinished(reply: Reply)
      requires AllWellFormed(outbox)
      modifies this`jobs, this`events
      ensures AllWellFormed(outbox)
      ensures reply.Ok? ==> jobs == reply.jobAttrs && events == old(events) + [JobsChanged]
      ensures !reply.Ok? ==> jobs == old(jobs) && events == old(events)
    {
      if reply.Ok? {
        jobs := reply.jobAttrs;
        events := events + [JobsChanged];
      }
    }

    /** `cancelJobFinished`: report whether the cancel succeeded, then, whatever the outcome,
        ask for the job list once. */
    method CancelJobFinished(reply: Reply)
      requires AllWellFormed(outbox)
      modifies this`outbox, this`events
      ensures AllWellFormed(outbox)
      ensures events == old(events) + [CancelStatus(Succeeded(reply))]
      ensures outbox == old(outbox) + [JobsRequest(url)]
    {
      var status := false;
      if reply.Ok? {
        status := reply.status <= 0xFF;
      }
      events := events + [CancelStatus(status)];
      var _ := GetJobs();
    }

    /** `getJobs`: post a get-jobs request. */
    method GetJobs() returns (ok: bool)
      requires AllWellFormed(outbox)
      modifies this`outbox
      ensures AllWellFormed(outbox)
      ensures ok
      ensures outbox == old(outbox) + [JobsRequest(url)]
    {
      HttpUrlIdempotent(url);
      outbox := outbox + [JobsRequest(url)];
      return true;
    }

    /** `cancelJob`: post a cancel-job request for `jobId`. */
    method CancelJobRequest(jobId: Int32) returns (ok: bool)
      requires AllWellFormed(outbox)
      modifies this`outbox
      ensures AllWellFormed(outbox)
      ensures ok
      ensures outbox == old(outbox) + [CancelRequest(url, jobId)]
    {
      HttpUrlIdempotent(url);
      outbox := outbox + [CancelRequest(url, jobId)];
      return true;
    }

    /** `setBusyMessage`. */
    method SetBusyMessage(message: string)
      modifies this`busyMessage, this`events
      ensures busyMessage == message
      ensures events == old(events) + [BusyMessageChanged]
    {
      busyMessage := message;
      events := events + [BusyMessageChanged];
    }

    /** `setProgress`: with an unknown-size upload (total 0) nothing happens; otherwise the
        progress becomes the truncated percentage. */
    method SetProgress(sent: Int64, total: Int64)
      modifies this`progress, this`events
      ensures total == 0 ==> progress == old(progress) && events == old(events)
      ensures total != 0 ==> progress == ProgressText(sent, total) && events == old(events) + [ProgressChanged]
    {
      if total == 0 {
        return;
      }
      progress := IntToDecimal(TruncDiv(100 * sent, total));
      progress := progress + "%";
      events := events + [ProgressChanged];
    }

    /** `convertFailed`: the job ends with this message and fails. */
    method ConvertFailed(message: string)
      modifies this`jobAttrs, this`events
      ensures jobAttrs == FailureAttrs(message)
      ensures events == old(events) + [JobAttrsChanged, JobFinished(false)]
    {
      jobAttrs := map[];
      jobAttrs := jobAttrs["job-state-message" := Attr(TextWithoutLanguageTag, JStr(message))];
      events := events + [JobAttrsChanged, JobFinished(false)];
    }

    /** `print`: negotiate the document format, check it and the paper size, edit the job
        attributes and post the Print-Job request with the file's bytes after it. The three
        failures end the job through `convertFailed` and post nothing; every lookup on the
        way inserts the profile keys it reads. */
    method Print(attrs: JsonObject, filename: string, file: FileContents, mimeType: string,
                 paperSizes: set<string>, alwaysConvert: bool, forceIncludeDocumentFormat: bool,
                 removeRedundantConvertAttrs: bool) returns (ghost outcome: PrintOutcome)
      requires AllWellFormed(outbox)
      modifies this`progress, this`events, this`jobAttrs, this`printerAttrs, this`busyMessage, this`outbox
      ensures outcome == PrintOutcomeOf(old(printerAttrs), old(additionalDocumentFormats), old(url), attrs, filename,
                                        file, mimeType, paperSizes, alwaysConvert, forceIncludeDocumentFormat,
                                        removeRedundantConvertAttrs)
      ensures AllWellFormed(outbox)
      ensures progress == ""
      ensures printerAttrs == outcome.profile
      ensures if outcome.Failed? then
                && jobAttrs == FailureAttrs(outcome.message)
                && busyMessage == old(busyMessage) && outbox == old(outbox)
                && events == old(events) + [ProgressChanged, JobAttrsChanged, JobFinished(false)]
              else
                && jobAttrs == old(jobAttrs)
                && busyMessage == TransferringMessage
                && outbox == old(outbox) + [outcome.request]
                && events == old(events) + [ProgressChanged, BusyMessageChanged]
    {
      var r := PrepareFile(attrs, filename, file, mimeType, paperSizes, alwaysConvert,
                           forceIncludeDocumentFormat, removeRedundantConvertAttrs);
      outcome := r;
      progress := "";
      events := events + [ProgressChanged];
      ApplyOutcome(r);
    }

    /** The end of print: a failure ends the job through `convertFailed` and posts nothing;
        otherwise the busy message announces the transfer and the request is posted. */
    method ApplyOutcome(r: PrintOutcome)
      requires AllWellFormed(outbox)
      requires r.Posted? ==> WellFormed(r.request)
      modifies this`events, this`jobAttrs, this`busyMessage, this`outbox
      ensures AllWellFormed(outbox)
      ensures if r.Failed? then
                && jobAttrs == FailureAttrs(r.message)
                && busyMessage == old(busyMessage) && outbox == old(outbox)
                && events == old(events) + [JobAttrsChanged, JobFinished(false)]
              else
                && jobAttrs == old(jobAttrs)
                && busyMessage == TransferringMessage
                && outbox == old(outbox) + [r.request]
                && events == old(events) + [BusyMessageChanged]
    {
      if r.Failed? {
        ConvertFailed(r.message);
      } else {
        SetBusyMessage(TransferringMessage);
        outbox := outbox + [r.request];
      }
    }

    /** Print up to the post: a file that did not open fails the job at once; otherwise the
        negotiation, the lookups and the checks of `PrepareDocument`. */
    method PrepareFile(attrs: JsonObject, filename: string, file: FileContents, mimeType: string,
                       paperSizes: set<string>, alwaysConvert: bool, forceIncludeDocumentFormat: bool,
                       removeRedundantConvertAttrs: bool) returns (r: PrintOutcome)
      modifies this`printerAttrs
      ensures r == PrintOutcomeOf(old(printerAttrs), old(additionalDocumentFormats), old(url), attrs, filename, file,
                                  mimeType, paperSizes, alwaysConvert, forceIncludeDocumentFormat,
                                  removeRedundantConvertAttrs)
      ensures printerAttrs == r.profile
      ensures r.Posted? ==> WellFormed(r.request)
    {
      PostedWellFormed(printerAttrs, additionalDocumentFormats, url, attrs, filename, file, mimeType, paperSizes,
                       alwaysConvert, forceIncludeDocumentFormat, removeRedundantConvertAttrs);
      if file.OpenFailed? {
        return Failed(FileOpenFailedMessage, printerAttrs);
      }
      r := PrepareDocument(attrs, filename, file, mimeType, paperSizes, alwaysConvert,
                           forceIncludeDocumentFormat, removeRedundantConvertAttrs);
    }

    /** Print once the file is open, up to the post: negotiate the format, reject "" and the
        placeholder, then the lookups, the media check and the job attributes. The checks
        return the failure rather than acting on it. */
    method PrepareDocument(attrs: JsonObject, filename: string, file: FileContents, mimeType: string,
                           paperSizes: set<string>, alwaysConvert: bool, forceIncludeDocumentFormat: bool,
                           removeRedundantConvertAttrs: bool) returns (r: PrintOutcome)
      requires file.Contents?
      modifies this`printerAttrs
      ensures r == PrintOutcomeOf(old(printerAttrs), old(additionalDocumentFormats), old(url), attrs, filename, file,
                                  mimeType, paperSizes, alwaysConvert, forceIncludeDocumentFormat,
                                  removeRedundantConvertAttrs)
      ensures printerAttrs == r.profile
    {
      ghost var profile := printerAttrs;
      var documentFormat, jobCreationAttributes := NegotiateFormat(attrs, mimeType, alwaysConvert);
      var o := PrintOpAttrs(url, filename);
      if documentFormat == "" || documentFormat == OctetString {
        return Failed(UnknownFormatMessage, printerAttrs);
      }
      r := PrepareJob(attrs, filename, o, documentFormat,
                      Supports(jobCreationAttributes, "document-format") || forceIncludeDocumentFormat,
                      file.bytes, paperSizes, removeRedundantConvertAttrs, profile);
    }

    /** Print after the format check: drop document-format unless kept, make the lookups up to
        the paper-size check, and build the request when the paper size is known. */
    method PrepareJob(attrs: JsonObject, filename: string, o: JsonObject, documentFormat: string,
                      keepFormat: bool, document: seq<bv8>, paperSizes: set<string>,
                      removeRedundantConvertAttrs: bool, ghost profile: JsonObject) returns (r: PrintOutcome)
      requires printerAttrs == NegotiationProfile(profile, attrs)
      requires o == PrintOpAttrs(url, filename)
      modifies this`printerAttrs
      ensures r == SubmitOutcome(profile, url, attrs, filename, documentFormat, keepFormat, document,
                                 paperSizes, removeRedundantConvertAttrs)
      ensures printerAttrs == r.profile
    {
      var job := attrs;
      if !keepFormat {
        job := job - {"document-format"};
      }
      LookupsIgnoreFormat(attrs, job, profile);
      var paperSize;
      job, paperSize := ValidationLookups(job, documentFormat);
      if paperSize !in paperSizes {
        return Failed(UnsupportedMediaMessage, printerAttrs);
      }
      r := BuildRequest(attrs, job, filename, o, documentFormat, keepFormat, document,
                        removeRedundantConvertAttrs, profile);
    }

    /** Print after the media check: the last edits of the job attributes and the Print-Job
        request, from the job as the lookups left it. */
    method BuildRequest(attrs: JsonObject, job: JsonObject, filename: string, o: JsonObject, documentFormat: string,
                        keepFormat: bool, document: seq<bv8>, removeRedundantConvertAttrs: bool,
                        ghost profile: JsonObject) returns (r: PrintOutcome)
      requires printerAttrs == ValidationProfile(NegotiationProfile(profile, attrs), attrs)
      requires var kept := if keepFormat then attrs else attrs - {"document-format"};
               job == if documentFormat == Urf
                      then kept["printer-resolution" := SquareResolution(Resolution(attrs, profile))]
                      else kept
      requires o == PrintOpAttrs(url, filename)
      modifies this`printerAttrs
      ensures r == Posted(PrintJobRequest(url, filename, attrs, documentFormat, keepFormat, Resolution(attrs, profile),
                                          removeRedundantConvertAttrs, document),
                          PrintProfile(profile, attrs))
      ensures printerAttrs == r.profile
    {
      assert ("sides" in job) == ("sides" in attrs);
      ghost var validated := printerAttrs;
      var edited := FinishJobAttrs(job, documentFormat, removeRedundantConvertAttrs);
      LookupSame(validated, job, attrs, "sides");
      FinalJobAttrsSteps(attrs, documentFormat, keepFormat, Resolution(attrs, profile), removeRedundantConvertAttrs, edited);
      r := Posted(Request(PrintJob, HttpUrl(url), o, edited, document), printerAttrs);
    }

    /** The end of print's attribute editing: the sides lookup, the removal of the attributes
        raster and PostScript output make redundant, and the media collection. */
    method FinishJobAttrs(job: JsonObject, documentFormat: string, removeRedundantConvertAttrs: bool)
      returns (edited: JsonObject)
      modifies this`printerAttrs
      ensures var raster := if removeRedundantConvertAttrs && (documentFormat == PwgRaster || documentFormat == Urf)
                            then job - {"sides", "print-color-mode"} else job;
              var stripped := if removeRedundantConvertAttrs && documentFormat == Postscript
                              then raster - {"sides"} else raster;
              edited == stripped["media-col" := MediaCol]
      ensures printerAttrs == Lookup(old(printerAttrs), job, "sides")
    {
      var _ := GetAttrOrDefault(job, "sides");
      edited := job;
      if removeRedundantConvertAttrs && (documentFormat == PwgRaster || documentFormat == Urf) {
        edited := edited - {"sides", "print-color-mode"};
      }
      if removeRedundantConvertAttrs && documentFormat == Postscript {
        edited := edited - {"sides"};
      }
      edited := edited["media-col" := MediaCol];
    }

    /** The negotiation half of print: the merged supported list, the job-creation attributes,
        the requested format and the format chosen from them. */
    method NegotiateFormat(attrs: JsonObject, mimeType: string, alwaysConvert: bool)
      returns (documentFormat: string, jobCreationAttributes: seq<JsonValue>)
      modifies this`printerAttrs
      ensures documentFormat == NegotiatedFormat(old(printerAttrs), additionalDocumentFormats, attrs, mimeType, alwaysConvert)
      ensures jobCreationAttributes == AsArray(ProfileValue(old(printerAttrs), "job-creation-attributes-supported"))
      ensures printerAttrs == NegotiationProfile(old(printerAttrs), attrs)
    {
      ghost var profile := printerAttrs;
      var supportedMimeTypes := SupportedMimeTypes();
      var creationValue := ReadProfile("job-creation-attributes-supported");
      InsertKeepsValues(profile, "document-format-supported", "job-creation-attributes-supported");
      jobCreationAttributes := AsArray(creationValue);
      ghost var p2 := printerAttrs;
      var requested := GetAttrOrDefault(attrs, "document-format");
      InsertKeepsValues(Insert(profile, "document-format-supported"), "job-creation-attributes-supported",
                        "document-format-default");
      InsertKeepsValues(profile, "document-format-supported", "document-format-default");
      assert requested == AttrOrDefault(attrs, profile, "document-format");
      documentFormat := TargetFormatIfAuto(AsString(requested), mimeType, supportedMimeTypes, alwaysConvert);
    }

    /** The lookups print makes between the format check and the media check: the resolution
        (made square for URF), the quality, the colour mode and the paper size. */
    method ValidationLookups(job: JsonObject, documentFormat: string) returns (edited: JsonObject, paperSize: string)
      modifies this`printerAttrs
      ensures edited == if documentFormat == Urf
                        then job["printer-resolution" := SquareResolution(Resolution(job, old(printerAttrs)))]
                        else job
      ensures paperSize == PaperSize(job, old(printerAttrs))
      ensures printerAttrs == ValidationProfile(old(printerAttrs), job)
    {
      ghost var p0 := printerAttrs;
      edited := job;
      var resolutionRef := GetAttrOrDefault(edited, "printer-resolution");
      ghost var p1 := printerAttrs;
      var hwResX := U32(AsInt(Field(AsObject(resolutionRef), "x")));
      var hwResY := U32(AsInt(Field(AsObject(resolutionRef), "y")));
      if documentFormat == Urf {
        if hwResX < hwResY {
          hwResY := hwResX;
        } else {
          hwResX := hwResY;
        }
        var squared := map["units" := Field(AsObject(resolutionRef), "units"),
                            "x" := JNum(I32(hwResX)), "y" := JNum(I32(hwResY))];
        assert JObj(squared) == SquareResolution(Resolution(job, p0));
        edited := edited["printer-resolution" := JObj(squared)];
      }
      assert ("print-quality" in edited) == ("print-quality" in job);
      assert ("print-color-mode" in edited) == ("print-color-mode" in job);
      assert ("media" in edited) == ("media" in job) && ("media" in job ==> edited["media"] == job["media"]);
      var _ := GetAttrOrDefault(edited, "print-quality");
      ghost var p2 := printerAttrs;
      var _ := GetAttrOrDefault(edited, "print-color-mode");
      ghost var p3 := printerAttrs;
      var mediaValue := GetAttrOrDefault(edited, "media");
      LookupKeepsValues(p2, job, "print-color-mode", edited, "media");
      LookupKeepsValues(p1, job, "print-quality", edited, "media");
      LookupKeepsValues(p0, job, "printer-resolution", edited, "media");
      paperSize := AsString(mediaValue);
    }

    /** The supported formats print negotiates against: the printer's list with the added
        formats appended one by one. */
    method SupportedMimeTypes() returns (supportedMimeTypes: seq<JsonValue>)
      modifies this`printerAttrs
      ensures supportedMimeTypes == SupportedFormats(old(printerAttrs), additionalDocumentFormats)
      ensures printerAttrs == Insert(old(printerAttrs), "document-format-supported")
    {
      var supportedValue := ReadProfile("document-format-supported");
      supportedMimeTypes := AsArray(supportedValue);
      var i := 0;
      while i < |additionalDocumentFormats|
        invariant 0 <= i <= |additionalDocumentFormats|
        invariant supportedMimeTypes
                    == AdvertisedFormats(old(printerAttrs)) + JsonStrings(additionalDocumentFormats[..i])
      {
        assert additionalDocumentFormats[..i + 1][..i] == additionalDocumentFormats[..i];
        supportedMimeTypes := supportedMimeTypes + [JStr(additionalDocumentFormats[i])];
        i := i + 1;
      }
      assert additionalDocumentFormats[..i] == additionalDocumentFormats;
    }

    /** `_attrs[key].toObject()["value"]`: the value, with `key` inserted as null if missing. */
    method ReadProfile(key: string) returns (v: JsonValue)
      modifies this`printerAttrs
      ensures v == ProfileValue(old(printerAttrs), key)
      ensures printerAttrs == Insert(old(printerAttrs), key)
    {
      if key !in printerAttrs {
        printerAttrs := printerAttrs[key := JNull];
      }
      v := Field(AsObject(printerAttrs[key]), "value");
    }

    /** `getAttrOrDefault`: the request's own value, else the printer's default, read through
        the profile. */
    method GetAttrOrDefault(job: JsonObject, name: string) returns (v: JsonValue)
      modifies this`printerAttrs
      ensures v == AttrOrDefault(job, old(printerAttrs), name)
      ensures printerAttrs == Lookup(old(printerAttrs), job, name)
    {
      if name in job {
        v := Field(AsObject(job[name]), "value");
      } else {
        v := ReadProfile(name + "-default");
      }
    }
  }
}
