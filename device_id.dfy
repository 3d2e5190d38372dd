/** The formats a printer's IEEE 1284 device id adds to its advertised list
    (`getPrinterAttributesFinished`): each "CMD:" segment of the id lists the page
    description languages the printer understands, and PDF and POSTSCRIPT there add
    application/pdf and application/postscript when the printer does not advertise them. */
module DeviceId {
  import opened Json
  import opened Text
  import opened Negotiation

  /** A device-id segment that lists commands: "CMD:" followed by text without ':'. */
  predicate IsCmdSegment(segment: string) {
    |segment| >= 4 && segment[..4] == "CMD:" && ':' !in segment[4..]
  }

  /** Splitting a segment on ':' gives exactly two parts, the first "CMD", iff the segment
      is a command list; the second part is then the list after "CMD:". */
  lemma CmdSegmentShape(segment: string)
    ensures var kv := Split(segment, ':');
            (|kv| == 2 && kv[0] == "CMD") <==> IsCmdSegment(segment)
    ensures IsCmdSegment(segment) ==> Split(segment, ':') == ["CMD", segment[4..]]
  {
    var kv := Split(segment, ':');
    JoinSplit(segment, ':');
    if |kv| == 2 && kv[0] == "CMD" {
      assert segment == "CMD" + [':'] + kv[1];
      assert segment[..4] == "CMD:" && segment[4..] == kv[1];
    }
    if IsCmdSegment(segment) {
      var parts := ["CMD", segment[4..]];
      assert Join(parts, ':') == segment;
      SplitJoin(parts, ':');
    }
  }

  /** A segment that lists `command` among its commands. */
  predicate NamesCommand(segment: string, command: string) {
    IsCmdSegment(segment) && command in Split(segment[4..], ',')
  }

  /** The device-id command that adds `format`: PDF adds application/pdf and POSTSCRIPT adds
      application/postscript. */
  predicate AddsFormat(command: string, format: string) {
    (command == "PDF" && format == Pdf) || (command == "POSTSCRIPT" && format == Postscript)
  }

  /** The formats one segment adds, application/pdf before application/postscript, as the
      scan appends them. */
  function CmdFormats(segment: string, supported: seq<JsonValue>): seq<string> {
    var kv := Split(segment, ':');
    if |kv| == 2 && kv[0] == "CMD" then
      var cmds := Split(kv[1], ',');
      (if "PDF" in cmds && !Supports(supported, Pdf) then [Pdf] else [])
        + (if "POSTSCRIPT" in cmds && !Supports(supported, Postscript) then [Postscript] else [])
    else []
  }

  /** A segment adds a format iff it is a command list naming the format's command and the
      printer does not advertise the format; it adds nothing else, and each format once. */
  lemma CmdFormatsSpec(segment: string, supported: seq<JsonValue>)
    ensures forall command, format | AddsFormat(command, format) ::
              (format in CmdFormats(segment, supported)) <==>
                NamesCommand(segment, command) && !Supports(supported, format)
    ensures forall f | f in CmdFormats(segment, supported) :: f == Pdf || f == Postscript
    ensures var formats := CmdFormats(segment, supported);
            |formats| <= 2 && (|formats| == 2 ==> formats == [Pdf, Postscript])
  {
    CmdSegmentShape(segment);
  }

  /** Appending a segment appends its formats. */
  lemma DeviceIdFormatsStep(segments: seq<string>, i: nat, supported: seq<JsonValue>)
    requires i < |segments|
    ensures DeviceIdFormats(segments[..i + 1], supported)
              == DeviceIdFormats(segments[..i], supported) + CmdFormats(segments[i], supported)
  {
    assert segments[..i + 1][..i] == segments[..i];
  }

  /** The formats all segments add, segment by segment in order. */
  function DeviceIdFormats(segments: seq<string>, supported: seq<JsonValue>): seq<string>
    decreases |segments|
  {
    if |segments| == 0 then []
    else DeviceIdFormats(segments[..|segments| - 1], supported) + CmdFormats(segments[|segments| - 1], supported)
  }

  /** Only application/pdf and application/postscript are added, never one the printer
      advertises, and at most two per segment. */
  lemma {:induction false} DeviceIdFormatsShape(segments: seq<string>, supported: seq<JsonValue>)
    ensures var formats := DeviceIdFormats(segments, supported);
            && (forall f | f in formats :: f == Pdf || f == Postscript)
            && (Supports(supported, Pdf) ==> Pdf !in formats)
            && (Supports(supported, Postscript) ==> Postscript !in formats)
            && |formats| <= 2 * |segments|
    decreases |segments|
  {
    if |segments| > 0 {
      DeviceIdFormatsShape(segments[..|segments| - 1], supported);
      CmdFormatsSpec(segments[|segments| - 1], supported);
    }
  }

  /** A format is added iff some segment names its command in a command list and the printer
      does not advertise the format. */
  lemma {:induction false} AddedIff(segments: seq<string>, supported: seq<JsonValue>, command: string, format: string)
    requires AddsFormat(command, format)
    ensures (format in DeviceIdFormats(segments, supported)) <==>
              !Supports(supported, format) && exists i | 0 <= i < |segments| :: NamesCommand(segments[i], command)
    decreases |segments|
  {
    if |segments| > 0 {
      var init := segments[..|segments| - 1];
      var last := segments[|segments| - 1];
      AddedIff(init, supported, command, format);
      CmdFormatsSpec(last, supported);
      if exists i | 0 <= i < |init| :: NamesCommand(init[i], command) {
        var i :| 0 <= i < |init| && NamesCommand(init[i], command);
        assert segments[i] == init[i];
      }
      if exists i | 0 <= i < |segments| :: NamesCommand(segments[i], command) {
        var i :| 0 <= i < |segments| && NamesCommand(segments[i], command);
        if i < |init| {
          assert init[i] == segments[i];
        }
      }
    }
  }

  /** The formats a device-id string adds. */
  function DeviceIdAdditions(deviceId: string, supported: seq<JsonValue>): seq<string> {
    DeviceIdFormats(Split(deviceId, ';'), supported)
  }
}
