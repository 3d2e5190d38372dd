/** Format negotiation (`firstMatch` and `targetFormatIfAuto`): choosing the document format
    to send from the requested format, the source's MIME type and the formats the printer
    supports, by strict preference order. */
module Negotiation {
  import opened Json
  import opened Text

  const OctetStream: string := "application/octet-stream"
  const Pdf: string := "application/pdf"
  const Postscript: string := "application/postscript"
  const PwgRaster: string := "image/pwg-raster"
  const Urf: string := "image/urf"
  const Png: string := "image/png"
  const Gif: string := "image/gif"
  const Jpeg: string := "image/jpeg"

  const RasterPreference: seq<string> := [PwgRaster, Urf]
  const PdfPreference: seq<string> := [Pdf, Postscript, PwgRaster, Urf]
  const ImagePreference: seq<string> := [Png, Gif, Jpeg, PwgRaster, Urf]

  /** QJsonArray::contains for a string: the array holds that string. */
  predicate Supports(supported: seq<JsonValue>, format: string) {
    JStr(format) in supported
  }

  /** `firstMatch`: the first wanted format the printer supports, or "" when there is none. */
  function FirstMatch(supported: seq<JsonValue>, wanted: seq<string>): string
    decreases |wanted|
  {
    if |wanted| == 0 then ""
    else if Supports(supported, wanted[0]) then wanted[0]
    else FirstMatch(supported, wanted[1..])
  }

  /** The match is "" when no wanted format is supported, and otherwise the first supported one. */
  lemma {:induction false} FirstMatchSpec(supported: seq<JsonValue>, wanted: seq<string>)
    ensures var r := FirstMatch(supported, wanted);
            && ((forall i | 0 <= i < |wanted| :: !Supports(supported, wanted[i])) ==> r == "")
            && (forall i | 0 <= i < |wanted| && Supports(supported, wanted[i]) ::
                  (forall j | 0 <= j < i :: !Supports(supported, wanted[j])) ==> r == wanted[i])
    decreases |wanted|
  {
    if |wanted| > 0 && !Supports(supported, wanted[0]) {
      FirstMatchSpec(supported, wanted[1..]);
      var rest := wanted[1..];
      assert forall i | 1 <= i < |wanted| :: wanted[i] == rest[i - 1];
    }
  }

  /** The cases in which the format is chosen from the printer's list rather than taken
      as requested. */
  predicate Automatic(documentFormat: string, mimeType: string, forceRaster: bool) {
    forceRaster || (documentFormat == OctetStream && (mimeType == Pdf || Contains(mimeType, "image")))
  }

  /** `targetFormatIfAuto`. With forceRaster: PWG raster, else URF, else "". Otherwise an
      explicit request is honoured as it is; "application/octet-stream" asks for automatic
      choice, by the PDF list for a PDF source and by the image list for a source whose MIME
      type mentions "image"; any other source keeps "application/octet-stream". */
  function TargetFormatIfAuto(documentFormat: string, mimeType: string,
                              supported: seq<JsonValue>, forceRaster: bool): string
  {
    if forceRaster then FirstMatch(supported, RasterPreference)
    else if documentFormat == OctetStream then
      if mimeType == Pdf then FirstMatch(supported, PdfPreference)
      else if Contains(mimeType, "image") then FirstMatch(supported, ImagePreference)
      else documentFormat
    else documentFormat
  }

  /** The choice `targetFormatIfAuto` makes, case by case; a format chosen automatically is
      one the printer supports. */
  lemma TargetFormatIfAutoCases(documentFormat: string, mimeType: string,
                                supported: seq<JsonValue>, forceRaster: bool)
    ensures var r := TargetFormatIfAuto(documentFormat, mimeType, supported, forceRaster);
      && (forceRaster ==>
            r == (if Supports(supported, PwgRaster) then PwgRaster
                  else if Supports(supported, Urf) then Urf
                  else ""))
      && (!forceRaster && documentFormat != OctetStream ==> r == documentFormat)
      && (!forceRaster && documentFormat == OctetStream && mimeType == Pdf ==>
            r == (if Supports(supported, Pdf) then Pdf
                  else if Supports(supported, Postscript) then Postscript
                  else if Supports(supported, PwgRaster) then PwgRaster
                  else if Supports(supported, Urf) then Urf
                  else ""))
      && (!forceRaster && documentFormat == OctetStream && mimeType != Pdf && Contains(mimeType, "image") ==>
            r == (if Supports(supported, Png) then Png
                  else if Supports(supported, Gif) then Gif
                  else if Supports(supported, Jpeg) then Jpeg
                  else if Supports(supported, PwgRaster) then PwgRaster
                  else if Supports(supported, Urf) then Urf
                  else ""))
      && (!forceRaster && documentFormat == OctetStream && mimeType != Pdf && !Contains(mimeType, "image") ==>
            r == OctetStream)
      && (Automatic(documentFormat, mimeType, forceRaster) && r != "" ==> Supports(supported, r))
  {
    RasterChain(supported);
    assert PdfPreference == [Pdf] + ([Postscript] + RasterPreference);
    FirstMatchCons(supported, Pdf, [Postscript] + RasterPreference);
    FirstMatchCons(supported, Postscript, RasterPreference);
    assert ImagePreference == [Png] + ([Gif] + ([Jpeg] + RasterPreference));
    FirstMatchCons(supported, Png, [Gif] + ([Jpeg] + RasterPreference));
    FirstMatchCons(supported, Gif, [Jpeg] + RasterPreference);
    FirstMatchCons(supported, Jpeg, RasterPreference);
  }

  lemma FirstMatchCons(supported: seq<JsonValue>, first: string, rest: seq<string>)
    ensures FirstMatch(supported, [first] + rest) ==
              if Supports(supported, first) then first else FirstMatch(supported, rest)
  {
    assert ([first] + rest)[1..] == rest;
  }

  /** The raster list, searched: PWG raster, else URF, else "". */
  lemma RasterChain(supported: seq<JsonValue>)
    ensures FirstMatch(supported, RasterPreference) ==
              if Supports(supported, PwgRaster) then PwgRaster
              else if Supports(supported, Urf) then Urf
              else ""
  {
    assert RasterPreference == [PwgRaster] + [Urf];
    FirstMatchCons(supported, PwgRaster, [Urf]);
    assert [Urf] == [Urf] + [];
    FirstMatchCons(supported, Urf, []);
  }
}
