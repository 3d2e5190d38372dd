/** The IPP vocabulary the session uses: value tags, tagged attributes, the four operations
    it posts, the requests it posts and the replies it receives. The binary codec that turns
    these into bytes and back is not part of this model: a request is kept as its attribute
    groups and document, a reply as the outcome of decoding it. */
module Ipp {
  import opened Json
  import opened Urls

  // Value tags, as section 3.5.2 of RFC 8010 numbers them.
  const IntegerTag: int := 0x21
  const BeginCollectionTag: int := 0x34
  const TextWithoutLanguageTag: int := 0x41
  const NameWithoutLanguageTag: int := 0x42
  const KeywordTag: int := 0x44
  const UriTag: int := 0x45
  const CharsetTag: int := 0x47
  const NaturalLanguageTag: int := 0x48

  /** An attribute as the session writes it: {"tag": tag, "value": value}. */
  function Attr(tag: int, value: JsonValue): JsonValue {
    JObj(map["tag" := JNum(tag), "value" := value])
  }

  datatype Operation = GetPrinterAttrs | PrintJob | GetJobs | CancelJob

  /** A request handed to the network: the operation, the HTTP target, the operation and job
      attribute groups, and the document bytes that follow the encoded attributes. */
  datatype Request = Request(
    op: Operation,
    target: Url,
    operationAttrs: JsonObject,
    jobAttrs: JsonObject,
    document: seq<bv8>)

  /** What a finished network reply yields: a transport error, a body the codec could not
      decode (an exception in the codec), or a decoded response. */
  datatype Reply =
    | NetError
    | ParseError
    | Ok(status: int, opAttrs: JsonObject, printerAttrs: JsonObject, jobAttrs: seq<JsonValue>)

  /** The success rule shared by printing and cancelling: a decoded reply whose status code
      is in the successful range 0x0000-0x00FF. */
  predicate Succeeded(reply: Reply) {
    reply.Ok? && reply.status <= 0xFF
  }

  /** `IppPrinter::opAttrs`: the operation attributes every request starts from. */
  function OpAttrs(url: Url): JsonObject {
    map[
      "attributes-charset" := Attr(CharsetTag, JStr("utf-8")),
      "attributes-natural-language" := Attr(NaturalLanguageTag, JStr("en-us")),
      "printer-uri" := Attr(UriTag, JStr(Render(url))),
      "requesting-user-name" := Attr(NameWithoutLanguageTag, JStr("nemo"))
    ]
  }

  /** Every request starts from exactly four operation attributes: the charset, the natural
      language, the printer's address as printer-uri and the user name. */
  lemma OpAttrsSpec(url: Url)
    ensures var o := OpAttrs(url);
            && o.Keys == {"attributes-charset", "attributes-natural-language", "printer-uri", "requesting-user-name"}
            && o["attributes-charset"] == Attr(CharsetTag, JStr("utf-8"))
            && o["attributes-natural-language"] == Attr(NaturalLanguageTag, JStr("en-us"))
            && o["printer-uri"] == Attr(UriTag, JStr(Render(url)))
            && o["requesting-user-name"] == Attr(NameWithoutLanguageTag, JStr("nemo"))
  {
  }
}
