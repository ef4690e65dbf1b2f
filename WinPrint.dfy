/** The print-job orchestration of WinPrint.cpp against the abstract printer
    of module Device. Every operating-system and file result is an input
    (`Environment`); every device call the source makes is an event appended
    to the trace that the operations return beside the error message. */
module WinPrint {
  import opened Int32Arith
  import opened CharSeq
  import opened WideText
  import opened LineStream
  import opened Device
  import opened WinPrintHeader

  // The error messages, one per failure kind.
  const NoDefaultPrinter := "Error: There is no default printer."
  const PrinterNameNotFound := "Error: Unable to find default printer name."
  const FileInaccessible := "Error: Unable to access print file."
  const PrinterNotFound := "Error: Unable to find printer."
  const JobCreationFailed := "Error: Could not create print job."
  const JobIncomplete := "Error: Could not complete print job."

  /** The font every line is drawn in, and so the line height. */
  const FontSize: int := 96
  const FontFace := "Courier New"

  const CR: char := '\r'

  /** A file as an `ifstream` finds it when it tries to open it. */
  datatype OpenResult = CannotOpen | Opened(content: string)

  /** What the StartDoc, StartPage, EndPage and EndDoc calls return on the
      device context: a value <= 0 is a failure. */
  datatype PrinterResponses = PrinterResponses(startDoc: int, startPage: int, endPage: int, endDoc: int)

  /** Everything the operating system answers during one `PrintFile` call. */
  datatype Environment = Environment(
    // `printerNameLength` as the second GetDefaultPrinter call leaves it
    printerNameLength: nat,
    // what the second GetDefaultPrinter call returns
    printerRetrieveValue: int,
    // the text the printer-name buffer then holds
    printerName: string,
    // the file as GetFileSize's open finds it
    fileAtSizeProbe: OpenResult,
    createDCSucceeds: bool,
    printer: PrinterResponses,
    // the file as DrawPrintFile's open finds it
    fileAtDraw: OpenResult)

  /** An error message (empty on success) and the device events issued. */
  datatype Outcome = Outcome(errorMessage: string, trace: seq<Event>)

  /** `GetDefaultPrinterName`: the buffer's text and the error message. */
  datatype PrinterLookup = PrinterLookup(printerName: string, errorMessage: string)

  /** `GetDefaultPrinterName`. A zero length means no default printer, even
      when the retrieving call failed too; otherwise a zero result of the
      retrieving call means the name could not be read. An empty message is
      the only sign of success; the name is returned either way. */
  function GetDefaultPrinterName(printerNameLength: nat, printerRetrieveValue: int, buffer: string)
    : (r: PrinterLookup)
    ensures r.printerName == buffer
    ensures printerNameLength == 0 ==> r.errorMessage == NoDefaultPrinter
    ensures printerNameLength != 0 && printerRetrieveValue == 0 ==> r.errorMessage == PrinterNameNotFound
    ensures r.errorMessage == "" <==> printerNameLength != 0 && printerRetrieveValue != 0
  {
    var errorMessage :=
      if printerNameLength == 0 then NoDefaultPrinter
      else if printerRetrieveValue == 0 then PrinterNameNotFound
      else "";
    PrinterLookup(buffer, errorMessage)
  }

  /** `GetFileSize`: -1 when the file cannot be opened, otherwise the offset
      of its end, which is its byte length, through the `(int)` cast. */
  function GetFileSize(file: OpenResult): (size: Int32)
    ensures file.CannotOpen? ==> size == -1
    ensures file.Opened? && |file.content| < TwoTo31 ==> size == |file.content|
    ensures file.Opened? ==> (size - |file.content|) % TwoTo32 == 0
    ensures file.Opened? ==> (size == -1 <==> |file.content| % TwoTo32 == TwoTo32 - 1)
  {
    match file
    case CannotOpen => -1
    case Opened(content) => ToInt32(|content|)
  }

  /** The reference rule for what one line prints: the text less one
      trailing '\r' or '\n'. */
  function StripOneTerminator(s: string): (r: string)
    ensures |r| <= |s| && r == s[..|r|]
    ensures r == s || (|r| == |s| - 1 && s[|s| - 1] in {CR, LF})
    ensures |s| > 0 && s[|s| - 1] in {CR, LF} ==> |r| == |s| - 1
  {
    if |s| > 0 && s[|s| - 1] in {CR, LF} then s[..|s| - 1] else s
  }

  /** What one line prints: the text before its first NUL, less one trailing
      '\r' or '\n'. */
  function PrintedText(text: string): string
  {
    StripOneTerminator(CStr(text))
  }

  /** `textLength` in `PrintText` once the check for a trailing '\r' or
      '\n' has run: `lstrlen` of the widened text, less one if the narrow
      text has a terminator at that position. */
  function PrintLength(text: string): (n: nat)
    ensures n <= Lstrlen(text)
  {
    var textLength := Lstrlen(ConvertStringToWstring(text));
    ConvertKeepsCString(text);
    if textLength >= 1 && (text[textLength - 1] == CR || text[textLength - 1] == LF)
    then textLength - 1
    else textLength
  }

  /** `textLength` is exactly the length of the reference text: `lstrlen`
      less one precisely when the last character before the NUL is '\r' or
      '\n'. */
  lemma {:induction false} PrintLengthValue(text: string)
    ensures PrintLength(text) == |PrintedText(text)|
    ensures PrintLength(text)
         == if Lstrlen(text) >= 1 && text[Lstrlen(text) - 1] in {CR, LF} then Lstrlen(text) - 1
            else Lstrlen(text)
  {
    ConvertKeepsCString(text);
    FirstIndexOfFinds(text, NUL);
  }

  /** `PrintText`: the events it issues for one line. */
  function PrintText(x: int, y: Int32, text: string): (events: seq<Event>)
    ensures |events| <= 1
  {
    var wsText := ConvertStringToWstring(text);
    var textLength := PrintLength(text);
    ConvertKeepsCString(text);
    if textLength > 0 then [TextOut(x, y, wsText[..textLength])] else []
  }

  /** `PrintText` issues at most one TextOut, of the widened text without
      its last terminator, and none at all when nothing is left. */
  lemma {:induction false} PrintTextIssues(x: int, y: Int32, text: string)
    ensures PrintText(x, y, text)
         == if PrintedText(text) == [] then [] else [TextOut(x, y, PrintedText(text))]
  {
    ConvertKeepsCString(text);
    var c := CStr(text);
    var n := Lstrlen(text);
    assert n >= 1 ==> text[n - 1] == c[n - 1];
    assert ConvertStringToWstring(text)[..PrintLength(text)] == c[..PrintLength(text)];
    assert PrintedText(text) == c[..PrintLength(text)];
  }

  /** The y coordinate of line `i` (0-based): `i` steps of `y += fontSize`,
      each wrapping to 32 bits. (96 is `FontSize`, written out to keep the
      product linear for the solver.) */
  function LineY(i: nat): Int32
  {
    ToInt32(i * 96)
  }

  /** The events of the line loop for `lines`, the first of which is line
      number `first` of the file. */
  function TextEvents(lines: seq<string>, first: nat): seq<Event>
  {
    if lines == [] then []
    else PrintText(0, LineY(first), lines[0]) + TextEvents(lines[1..], first + 1)
  }

  /** One turn of the line loop: the line `getline` extracts next is drawn
      at the y of its own line number, and the rest of the stream holds the
      remaining lines. */
  lemma {:induction false} DrawLinesStep(content: string, stream: string, events: seq<Event>, i: nat)
    requires Getline(stream).Some?
    requires i + |GetLines(stream)| == |GetLines(content)|
    requires events + TextEvents(GetLines(stream), i) == TextEvents(GetLines(content), 0)
    ensures i + 1 + |GetLines(Getline(stream).value.rest)| == |GetLines(content)|
    ensures (events + PrintText(0, LineY(i), Getline(stream).value.line))
          + TextEvents(GetLines(Getline(stream).value.rest), i + 1)
         == TextEvents(GetLines(content), 0)
  {
    var e := Getline(stream).value;
    var out := PrintText(0, LineY(i), e.line);
    var later := TextEvents(GetLines(e.rest), i + 1);
    GetLinesCons(stream);
    TextEventsCons(e.line, GetLines(e.rest), i);
    assert (events + out) + later == events + (out + later);
  }

  lemma {:induction false} TextEventsCons(line: string, lines: seq<string>, i: nat)
    ensures TextEvents([line] + lines, i) == PrintText(0, LineY(i), line) + TextEvents(lines, i + 1)
  {
  }

  /** `y += fontSize` takes the y of line `i` to the y of line `i + 1`. */
  lemma {:induction false} LineYStep(y: int, i: nat)
    requires y == LineY(i)
    ensures ToInt32(y + FontSize) == LineY(i + 1)
  {
    ToInt32Add(i * 96, 96);
  }

  /** The events from font creation to font deletion for a file's content. */
  function FontScope(content: string): seq<Event>
  {
    [CreateFont(FontSize, FontFace), SelectFont] + TextEvents(GetLines(content), 0) + [DeleteFont]
  }

  /** What `DrawPrintFile` does on a device context that answers `printer`. */
  function DrawPrintFileSpec(printer: PrinterResponses, docInfo: DocInfo, file: OpenResult): Outcome
  {
    if printer.startDoc <= 0 then Outcome(JobCreationFailed, [StartDoc(docInfo)])
    else if printer.startPage <= 0 then Outcome(JobIncomplete, [StartDoc(docInfo), StartPage])
    else if file.CannotOpen? then Outcome(FileInaccessible, [StartDoc(docInfo), StartPage])
    else
      var paged := [StartDoc(docInfo), StartPage] + FontScope(file.content) + [EndPage];
      if printer.endPage <= 0 then Outcome(JobIncomplete, paged)
      else Outcome(if printer.endDoc <= 0 then JobIncomplete else "", paged + [EndDoc])
  }

  /** The line loop of `DrawPrintFile`: every line `getline` yields goes to
      `PrintText` at x = 0 and the current y, and y then advances by the font
      size whether or not the line printed. Also returns the final y. */
  method DrawLines(content: string) returns (events: seq<Event>, y: int)
    ensures events == TextEvents(GetLines(content), 0)
    ensures y == LineY(|GetLines(content)|)
  {
    events := [];
    var stream := content;
    y := 0;
    ghost var lineCount: nat := 0;
    while true
      invariant y == LineY(lineCount)
      invariant lineCount + |GetLines(stream)| == |GetLines(content)|
      invariant events + TextEvents(GetLines(stream), lineCount) == TextEvents(GetLines(content), 0)
      decreases |stream|
    {
      var next := Getline(stream);
      if next.None? {
        break;
      }
      DrawLinesStep(content, stream, events, lineCount);
      LineYStep(y, lineCount);
      events := events + PrintText(0, y, next.value.line);
      y := ToInt32(y + FontSize);
      stream := next.value.rest;
      lineCount := lineCount + 1;
    }
    assert GetLines(stream) == [];
  }

  /** `DrawPrintFile`: run the document lifecycle on an open device context. */
  method DrawPrintFile(printer: PrinterResponses, docInfo: DocInfo, file: OpenResult)
    returns (errorMessage: string, trace: seq<Event>)
    ensures Outcome(errorMessage, trace) == DrawPrintFileSpec(printer, docInfo, file)
  {
    errorMessage := "";

    trace := [StartDoc(docInfo)];
    var printResult := printer.startDoc;
    if printResult <= 0 {
      errorMessage := JobCreationFailed;
      return;
    }

    trace := trace + [StartPage];
    printResult := printer.startPage;
    if printResult <= 0 {
      errorMessage := JobIncomplete;
      return;
    }

    if file.CannotOpen? {
      errorMessage := FileInaccessible;
      return;
    }

    trace := trace + [CreateFont(FontSize, FontFace), SelectFont];
    var lineEvents, _ := DrawLines(file.content);
    trace := trace + lineEvents;
    trace := trace + [DeleteFont];
    assert trace == [StartDoc(docInfo), StartPage] + FontScope(file.content);

    trace := trace + [EndPage];
    printResult := printer.endPage;
    if printResult <= 0 {
      errorMessage := JobIncomplete;
      return;
    }

    trace := trace + [EndDoc];
    printResult := printer.endDoc;
    if printResult <= 0 {
      errorMessage := JobIncomplete;
      return;
    }
  }

  /** The DOCINFO `PrintFile` fills in: the probed file size and the
      widened path. */
  function JobDocInfo(fileName: string, env: Environment): DocInfo
  {
    DocInfo(GetFileSize(env.fileAtSizeProbe), ConvertStringToWstring(FilePath(fileName)))
  }

  /** What `PrintFile` does in `env`. */
  function PrintFileSpec(fileName: string, env: Environment): Outcome
  {
    var lookup := GetDefaultPrinterName(env.printerNameLength, env.printerRetrieveValue, env.printerName);
    var docInfo := JobDocInfo(fileName, env);
    if lookup.errorMessage != "" then Outcome(lookup.errorMessage, [])
    else if docInfo.cbSize == -1 then Outcome(FileInaccessible, [])
    else if !env.createDCSucceeds then Outcome(PrinterNotFound, [CreateDC(lookup.printerName)])
    else
      var drawn := DrawPrintFileSpec(env.printer, docInfo, env.fileAtDraw);
      if drawn.errorMessage != "" then Outcome(drawn.errorMessage, [CreateDC(lookup.printerName)] + drawn.trace)
      else Outcome("", [CreateDC(lookup.printerName)] + drawn.trace + [DeleteDC])
  }

  /** `PrintFile`: print `fileName` from the fixed directory and return the
      error message, "" on success. */
  method PrintFile(env: Environment, fileName: string := PrintFileName)
    returns (result: string, trace: seq<Event>)
    ensures Outcome(result, trace) == PrintFileSpec(fileName, env)
  {
    var filePath := FilePath(fileName);
    var wFilePath := ConvertStringToWstring(filePath);
    trace := [];

    var lookup := GetDefaultPrinterName(env.printerNameLength, env.printerRetrieveValue, env.printerName);
    if |lookup.errorMessage| > 0 {
      return lookup.errorMessage, trace;
    }

    var documentInfo := DocInfo(GetFileSize(env.fileAtSizeProbe), wFilePath);
    if documentInfo.cbSize == -1 {
      return FileInaccessible, trace;
    }

    trace := trace + [CreateDC(lookup.printerName)];
    if !env.createDCSucceeds {
      return PrinterNotFound, trace;
    }

    var errorMessage, drawTrace := DrawPrintFile(env.printer, documentInfo, env.fileAtDraw);
    trace := trace + drawTrace;
    if |errorMessage| > 0 {
      return errorMessage, trace;
    }

    trace := trace + [DeleteDC];
    return "", trace;
  }
}
