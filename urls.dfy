/** Printer addresses: the parts of a QUrl the session reads and writes, the scheme
    normalisation of `IppPrinter::setUrl` and the HTTP target of `IppPrinter::httpUrl`. */
module Urls {
  import opened Text

  /** A parsed URL. `port` is -1 when the URL names none, as QUrl::port reports it. */
  datatype Url = Url(scheme: string, host: string, port: int, path: string)

  /** QUrl(): the empty URL. */
  const EmptyUrl: Url := Url("", "", -1, "")

  /** The port an IPP printer listens on when its URL names none. */
  const IppPort: int := 631

  /** `IppPrinter::httpUrl`: the same address spoken to over plain HTTP, on port 631 unless
      the URL names a port. */
  function HttpUrl(u: Url): (r: Url)
    ensures r.scheme == "http" && r.host == u.host && r.path == u.path
    ensures r.port == (if u.port == -1 then IppPort else u.port)
  {
    var v := u.(scheme := "http");
    if v.port == -1 then v.(port := IppPort) else v
  }

  /** An HTTP target always names a port, and rewriting it again changes nothing. */
  lemma HttpUrlIdempotent(u: Url)
    ensures HttpUrl(u).port != -1
    ensures HttpUrl(HttpUrl(u)) == HttpUrl(u)
  {
  }

  /** The URL the session keeps for the text `s` (`IppPrinter::setUrl`). `parse` is QUrl's
      parser, which is not part of this model. An "ipp" URL is kept; text without a scheme
      is read again with "ipp://" in front; an "http" URL gets the scheme "ipp"; every
      other scheme ("ipps" and "https" among them) gives the empty URL. */
  function NormalizedUrl(s: string, parse: string -> Url): (r: Url)
    ensures parse(s).scheme == "ipp" ==> r == parse(s)
    ensures parse(s).scheme == "" ==> r == parse("ipp://" + s)
    ensures parse(s).scheme == "http" ==>
              r.scheme == "ipp" && r.host == parse(s).host && r.port == parse(s).port && r.path == parse(s).path
    ensures parse(s).scheme !in {"", "ipp", "http"} ==> r == EmptyUrl
  {
    var u := parse(s);
    if u.scheme != "ipp" then
      if u.scheme == "" then parse("ipp://" + s)
      else if u.scheme == "http" then u.(scheme := "ipp")
      else EmptyUrl
    else u
  }

  /** QUrl::toString, for the printer-uri operation attribute: "scheme://host[:port]path",
      and "" for the empty URL. */
  function Render(u: Url): string {
    if u == EmptyUrl then ""
    else u.scheme + "://" + u.host + (if u.port == -1 then "" else ":" + IntToDecimal(u.port)) + u.path
  }
}
