/** The pieces `IppPrinter::print` builds a Print-Job request from: the attribute lookup with
    the printer's "-default" fallback (`getAttrOrDefault`), the merged list of supported
    formats, the negotiated format, the square resolution URF asks for, and the final job
    attributes. Reads of the printer profile go through Qt's non-const QJsonObject::operator[],
    which inserts a null entry for a missing key; `Lookup` and `Insert` say what that does to
    the profile, and `Vivify` states it as a whole. */
module JobBuilder {
  import opened Json
  import opened Text
  import opened Urls
  import opened Ipp
  import opened Negotiation

  const FileOpenFailedMessage: string := "Failed to open file"
  const UnknownFormatMessage: string := "Unknown document format"
  const UnsupportedMediaMessage: string := "Unsupported print media"

  /** The placeholder the format check rejects besides "". */
  const OctetString: string := "application/octet-string"

  /** `_attrs[key].toObject()["value"]`: the value of a printer attribute, null when absent. */
  function ProfileValue(profile: JsonObject, key: string): JsonValue {
    Field(AsObject(Field(profile, key)), "value")
  }

  /** One read of `key` through the non-const operator[]: a missing key is inserted with a
      null value. */
  function Insert(profile: JsonObject, key: string): JsonObject {
    if key in profile then profile else profile[key := JNull]
  }

  /** A `getAttrOrDefault` lookup of `name`: the printer's `name + "-default"` attribute is
      read, and so inserted, only when the request has no value of its own. */
  function Lookup(profile: JsonObject, job: JsonObject, name: string): JsonObject {
    if name in job then profile else Insert(profile, name + "-default")
  }

  /** The profile after the reads up to the format check: the supported formats, the
      job-creation attributes and the requested format. */
  function NegotiationProfile(profile: JsonObject, job: JsonObject): JsonObject {
    Lookup(Insert(Insert(profile, "document-format-supported"), "job-creation-attributes-supported"),
           job, "document-format")
  }

  /** The profile after the lookups between the format check and the media check: the
      resolution, the quality, the colour mode and the media. */
  function ValidationProfile(profile: JsonObject, job: JsonObject): JsonObject {
    Lookup(Lookup(Lookup(Lookup(profile, job, "printer-resolution"), job, "print-quality"),
                  job, "print-color-mode"), job, "media")
  }

  /** The profile after every read print makes on the way to posting the job. */
  function PrintProfile(profile: JsonObject, job: JsonObject): JsonObject {
    Lookup(ValidationProfile(NegotiationProfile(profile, job), job), job, "sides")
  }

  /** The reference description of reads: every key read is present, the old entries are
      kept, and the new entries are null. */
  function Vivify(profile: JsonObject, keys: set<string>): JsonObject {
    map k | k in profile.Keys + keys :: if k in profile then profile[k] else JNull
  }

  /** The default key a lookup of `name` reads: none when the request has its own value. */
  function DefaultRead(job: JsonObject, name: string): set<string> {
    if name in job then {} else {name + "-default"}
  }

  /** The profile keys print reads on the way to posting the job. */
  function PrintReadKeys(job: JsonObject): set<string> {
    {"document-format-supported", "job-creation-attributes-supported"}
      + DefaultRead(job, "document-format") + DefaultRead(job, "printer-resolution")
      + DefaultRead(job, "print-quality") + DefaultRead(job, "print-color-mode")
      + DefaultRead(job, "media") + DefaultRead(job, "sides")
  }

  /** One read is the reference description of reading that key. */
  lemma InsertIsVivify(profile: JsonObject, key: string)
    ensures Insert(profile, key) == Vivify(profile, {key})
  {
  }

  /** Reads one batch after another are the reads of both batches. */
  lemma VivifyUnion(profile: JsonObject, first: set<string>, second: set<string>)
    ensures Vivify(Vivify(profile, first), second) == Vivify(profile, first + second)
  {
  }

  lemma LookupIsVivify(profile: JsonObject, job: JsonObject, name: string)
    ensures Lookup(profile, job, name) == Vivify(profile, DefaultRead(job, name))
  {
    if name !in job {
      InsertIsVivify(profile, name + "-default");
    }
  }

  /** A lookup after reads of `keys` is a read of its default key as well. */
  lemma LookupStep(profile: JsonObject, keys: set<string>, p: JsonObject, job: JsonObject, name: string)
    requires p == Vivify(profile, keys)
    ensures Lookup(p, job, name) == Vivify(profile, keys + DefaultRead(job, name))
  {
    LookupIsVivify(p, job, name);
    VivifyUnion(profile, keys, DefaultRead(job, name));
  }

  /** Every read print makes only inserts null entries for the keys of `PrintReadKeys`; in
      particular neither the order of the reads nor repeated reads matter. */
  lemma PrintProfileIsVivify(profile: JsonObject, job: JsonObject)
    ensures PrintProfile(profile, job) == Vivify(profile, PrintReadKeys(job))
  {
    var p1 := Insert(profile, "document-format-supported");
    InsertIsVivify(profile, "document-format-supported");
    InsertIsVivify(p1, "job-creation-attributes-supported");
    VivifyUnion(profile, {"document-format-supported"}, {"job-creation-attributes-supported"});
    var k := {"document-format-supported"} + {"job-creation-attributes-supported"};
    var p := Insert(p1, "job-creation-attributes-supported");
    LookupStep(profile, k, p, job, "document-format");
    p, k := Lookup(p, job, "document-format"), k + DefaultRead(job, "document-format");
    LookupStep(profile, k, p, job, "printer-resolution");
    p, k := Lookup(p, job, "printer-resolution"), k + DefaultRead(job, "printer-resolution");
    LookupStep(profile, k, p, job, "print-quality");
    p, k := Lookup(p, job, "print-quality"), k + DefaultRead(job, "print-quality");
    LookupStep(profile, k, p, job, "print-color-mode");
    p, k := Lookup(p, job, "print-color-mode"), k + DefaultRead(job, "print-color-mode");
    LookupStep(profile, k, p, job, "media");
    p, k := Lookup(p, job, "media"), k + DefaultRead(job, "media");
    LookupStep(profile, k, p, job, "sides");
    assert k + DefaultRead(job, "sides") == PrintReadKeys(job);
  }

  /** A read inserts only a null entry, which later reads of values do not see. */
  lemma InsertKeepsValues(profile: JsonObject, key: string, other: string)
    ensures ProfileValue(Insert(profile, key), other) == ProfileValue(profile, other)
  {
  }

  /** A lookup through the inserted null entries finds what it would have found before. */
  lemma LookupKeepsValues(profile: JsonObject, job: JsonObject, name: string, other: JsonObject, otherName: string)
    ensures AttrOrDefault(other, Lookup(profile, job, name), otherName) == AttrOrDefault(other, profile, otherName)
  {
    if name !in job {
      InsertKeepsValues(profile, name + "-default", otherName + "-default");
    }
  }

  /** `getAttrOrDefault`: the request's own value for `name`, or else the value of the
      printer's `name + "-default"` attribute (null when there is neither). */
  function AttrOrDefault(job: JsonObject, profile: JsonObject, name: string): JsonValue {
    if name in job then Field(AsObject(job[name]), "value")
    else ProfileValue(profile, name + "-default")
  }

  /** The strings as JSON strings, in order. */
  function JsonStrings(fs: seq<string>): seq<JsonValue>
    decreases |fs|
  {
    if |fs| == 0 then [] else JsonStrings(fs[..|fs| - 1]) + [JStr(fs[|fs| - 1])]
  }

  lemma {:induction false} JsonStringsSpec(fs: seq<string>)
    ensures |JsonStrings(fs)| == |fs|
    ensures forall i | 0 <= i < |fs| :: JsonStrings(fs)[i] == JStr(fs[i])
    decreases |fs|
  {
    if |fs| > 0 {
      JsonStringsSpec(fs[..|fs| - 1]);
    }
  }

  /** The printer's "document-format-supported" list. */
  function AdvertisedFormats(profile: JsonObject): seq<JsonValue> {
    AsArray(ProfileValue(profile, "document-format-supported"))
  }

  /** The formats print negotiates against: the advertised ones followed by the formats the
      device id adds. */
  function SupportedFormats(profile: JsonObject, additional: seq<string>): seq<JsonValue> {
    AdvertisedFormats(profile) + JsonStrings(additional)
  }

  /** The advertised formats come first, and a format is supported iff the printer advertises
      it or it was added. */
  lemma SupportedFormatsSpec(profile: JsonObject, additional: seq<string>)
    ensures var r := SupportedFormats(profile, additional);
            && |r| == |AdvertisedFormats(profile)| + |additional|
            && r[..|AdvertisedFormats(profile)|] == AdvertisedFormats(profile)
            && forall f :: Supports(r, f) <==> Supports(AdvertisedFormats(profile), f) || f in additional
  {
    var added := JsonStrings(additional);
    JsonStringsSpec(additional);
    forall f ensures JStr(f) in added <==> f in additional {
      if f in additional {
        var i :| 0 <= i < |additional| && additional[i] == f;
        assert added[i] == JStr(f);
      }
    }
  }

  /** The format the request asks for: its own "document-format" or the printer's default. */
  function RequestedFormat(job: JsonObject, profile: JsonObject): string {
    AsString(AttrOrDefault(job, profile, "document-format"))
  }

  /** The format print sends the document in. */
  function NegotiatedFormat(profile: JsonObject, additional: seq<string>, job: JsonObject,
                            mimeType: string, forceRaster: bool): string {
    TargetFormatIfAuto(RequestedFormat(job, profile), mimeType, SupportedFormats(profile, additional), forceRaster)
  }

  /** The formats print refuses to send. */
  predicate FormatRejected(format: string) {
    format == "" || format == OctetString
  }

  /** "document-format" stays in the job attributes when the printer lists it among its
      job-creation attributes, or when the caller forces it in. */
  predicate KeepsDocumentFormat(profile: JsonObject, forceInclude: bool) {
    Supports(AsArray(ProfileValue(profile, "job-creation-attributes-supported")), "document-format") || forceInclude
  }

  /** The resolution the request asks for: an object {units, x, y}. */
  function Resolution(job: JsonObject, profile: JsonObject): JsonValue {
    AttrOrDefault(job, profile, "printer-resolution")
  }

  /** The paper size the request asks for, checked against the paper-size table. */
  function PaperSize(job: JsonObject, profile: JsonObject): string {
    AsString(AttrOrDefault(job, profile, "media"))
  }

  /** Conversion of an int to quint32: modulo 2^32. */
  function U32(n: int): (u: int)
    ensures 0 <= u < 0x1_0000_0000
  {
    n % 0x1_0000_0000
  }

  /** Conversion of a quint32 back to int: values from 2^31 up wrap to negative. */
  function I32(u: int): int
    requires 0 <= u < 0x1_0000_0000
  {
    if u < 0x8000_0000 then u else u - 0x1_0000_0000
  }

  /** The printer-resolution written for URF: both axes set to the smaller of x and y, as
      unsigned 32-bit values compare, with the requested units. The result is a bare
      {units, x, y} object, not a {tag, value} attribute. */
  function SquareResolution(resolution: JsonValue): JsonValue {
    var res := AsObject(resolution);
    var x, y := U32(AsInt(Field(res, "x"))), U32(AsInt(Field(res, "y")));
    var m := if x < y then x else y;
    JObj(map["units" := Field(res, "units"), "x" := JNum(I32(m)), "y" := JNum(I32(m))])
  }

  /** The square resolution keeps the units and sets both axes to the same value: one of the
      requested axes: the smaller when both have the same sign, and the non-negative one when
      only one is (a negative axis is a large unsigned value). */
  lemma SquareResolutionShape(resolution: JsonValue)
    ensures var r := SquareResolution(resolution);
            && r.JObj? && r.fields.Keys == {"units", "x", "y"}
            && "tag" !in r.fields && "value" !in r.fields
            && r.fields["units"] == Field(AsObject(resolution), "units")
            && r.fields["x"] == r.fields["y"]
            && var x, y := AsInt(Field(AsObject(resolution), "x")), AsInt(Field(AsObject(resolution), "y"));
               && (r.fields["x"] == JNum(x) || r.fields["x"] == JNum(y))
               && (0 <= x && 0 <= y ==> r.fields["x"] == JNum(if x < y then x else y))
               && (x < 0 <= y ==> r.fields["x"] == JNum(y))
               && (y < 0 <= x ==> r.fields["x"] == JNum(x))
               && (x < 0 && y < 0 ==> r.fields["x"] == JNum(if x < y then x else y))
  {
  }

  /** The fixed media collection print always adds: a 12700 x 17780 media size. */
  const MediaCol: JsonValue :=
    Attr(BeginCollectionTag, JObj(map[
      "media-size" := Attr(BeginCollectionTag, JObj(map[
        "x-dimension" := Attr(IntegerTag, JNum(12700)),
        "y-dimension" := Attr(IntegerTag, JNum(17780))]))]))

  /** The attribute names print may edit. */
  const EditedKeys: set<string> := {"document-format", "printer-resolution", "sides", "print-color-mode", "media-col"}

  /** The job attributes print sends: the caller's attributes with "document-format" dropped
      unless kept, printer-resolution made square for URF, the redundant attributes stripped
      for raster and PostScript output, and the fixed media collection added. */
  function FinalJobAttrs(job: JsonObject, format: string, keepFormat: bool,
                         resolution: JsonValue, stripRedundant: bool): JsonObject {
    var kept := if keepFormat then job else job - {"document-format"};
    var resolved := if format == Urf then kept["printer-resolution" := SquareResolution(resolution)] else kept;
    var raster := if stripRedundant && (format == PwgRaster || format == Urf)
                  then resolved - {"sides", "print-color-mode"} else resolved;
    var stripped := if stripRedundant && format == Postscript then raster - {"sides"} else raster;
    stripped["media-col" := MediaCol]
  }

  /** What the final job attributes hold, attribute by attribute: the media collection always;
      document-format only when kept; the square resolution for URF; sides and
      print-color-mode unless stripped; every attribute print does not edit as requested. */
  lemma FinalJobAttrsShape(job: JsonObject, format: string, keepFormat: bool,
                           resolution: JsonValue, stripRedundant: bool)
    ensures var r := FinalJobAttrs(job, format, keepFormat, resolution, stripRedundant);
      && "media-col" in r && r["media-col"] == MediaCol
      && ("document-format" in r) == ("document-format" in job && keepFormat)
      && ("document-format" in r ==> r["document-format"] == job["document-format"])
      && (format == Urf ==> "printer-resolution" in r && r["printer-resolution"] == SquareResolution(resolution))
      && (format != Urf ==> ("printer-resolution" in r) == ("printer-resolution" in job))
      && (format != Urf && "printer-resolution" in r ==> r["printer-resolution"] == job["printer-resolution"])
      && ("sides" in r) == ("sides" in job && !(stripRedundant && format in {PwgRaster, Urf, Postscript}))
      && ("sides" in r ==> r["sides"] == job["sides"])
      && ("print-color-mode" in r) == ("print-color-mode" in job && !(stripRedundant && format in {PwgRaster, Urf}))
      && ("print-color-mode" in r ==> r["print-color-mode"] == job["print-color-mode"])
      && (forall k | k !in EditedKeys :: (k in r) == (k in job))
      && (forall k | k in r && k !in EditedKeys :: r[k] == job[k])
  {
  }

  /** The operation attributes of a Print-Job request: the common ones and the job name, the
      file-name part of the document's path. */
  function PrintOpAttrs(url: Url, filename: string): JsonObject {
    OpAttrs(url)["job-name" := Attr(NameWithoutLanguageTag, JStr(BaseName(filename)))]
  }

  /** The job attributes `convertFailed` leaves: a single job-state-message. */
  function FailureAttrs(message: string): JsonObject {
    map["job-state-message" := Attr(TextWithoutLanguageTag, JStr(message))]
  }
}
