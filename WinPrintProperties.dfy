/** What WinPrint.cpp's print job does on every input, proved of the model
    in module WinPrint: the order of device events, that every failure ends
    the job at once, which message each failure gives, where each line is
    drawn, that the font is always released and the device context only on
    success. */
module WinPrintProperties {
  import opened Int32Arith
  import opened CharSeq
  import opened WideText
  import opened LineStream
  import opened Device
  import opened WinPrint

  // ---------------------------------------------------------------- messages

  /** The six failure messages. */
  const ErrorMessages: seq<string> :=
    [NoDefaultPrinter, PrinterNameNotFound, FileInaccessible, PrinterNotFound, JobCreationFailed, JobIncomplete]

  /** Each failure kind has its own non-empty message, so "" means success. */
  lemma {:induction false} ErrorMessagesDistinct()
    ensures forall i, j :: 0 <= i < j < |ErrorMessages| ==> ErrorMessages[i] != ErrorMessages[j]
    ensures forall i :: 0 <= i < |ErrorMessages| ==> ErrorMessages[i] != ""
  {
  }

  /** Every run returns "" or one of the six messages. */
  lemma {:induction false} MessageIsKnown(fileName: string, env: Environment)
    ensures PrintFileSpec(fileName, env).errorMessage == ""
         || PrintFileSpec(fileName, env).errorMessage in ErrorMessages
  {
  }

  // ------------------------------------------------------- the whole lifecycle

  /** Every step of the job succeeds. */
  predicate AllStepsSucceed(env: Environment)
  {
    && env.printerNameLength != 0 && env.printerRetrieveValue != 0
    && GetFileSize(env.fileAtSizeProbe) != -1
    && env.createDCSucceeds
    && env.printer.startDoc > 0 && env.printer.startPage > 0
    && env.fileAtDraw.Opened?
    && env.printer.endPage > 0 && env.printer.endDoc > 0
  }

  /** The lines as the drawing step's open of the file finds them. */
  function DrawnContent(env: Environment): string
  {
    if env.fileAtDraw.Opened? then env.fileAtDraw.content else []
  }

  /** The complete job: every device event a run can issue, in order. */
  function FullTrace(fileName: string, env: Environment): seq<Event>
  {
    [CreateDC(env.printerName), StartDoc(JobDocInfo(fileName, env)), StartPage]
      + FontScope(DrawnContent(env)) + [EndPage, EndDoc, DeleteDC]
  }

  /** Each failure ends the job at the call that failed: the message names
      the failure, and no later device call is issued. A failed printer
      lookup or file-size probe issues no call at all, so the unusable
      printer name never reaches CreateDC. */
  lemma {:induction false} FailuresShortCircuit(fileName: string, env: Environment)
    ensures var r := PrintFileSpec(fileName, env);
      && (env.printerNameLength == 0 ==> r == Outcome(NoDefaultPrinter, []))
      && (env.printerNameLength != 0 && env.printerRetrieveValue == 0 ==> r == Outcome(PrinterNameNotFound, []))
    ensures var r := PrintFileSpec(fileName, env);
      env.printerNameLength != 0 && env.printerRetrieveValue != 0 ==>
      var dc := CreateDC(env.printerName);
      var doc := StartDoc(JobDocInfo(fileName, env));
      && (GetFileSize(env.fileAtSizeProbe) == -1 ==> r == Outcome(FileInaccessible, []))
      && (GetFileSize(env.fileAtSizeProbe) != -1 ==>
        && (!env.createDCSucceeds ==> r == Outcome(PrinterNotFound, [dc]))
        && (env.createDCSucceeds ==>
          && (env.printer.startDoc <= 0 ==> r == Outcome(JobCreationFailed, [dc, doc]))
          && (env.printer.startDoc > 0 && env.printer.startPage <= 0 ==>
                r == Outcome(JobIncomplete, [dc, doc, StartPage]))
          && (env.printer.startDoc > 0 && env.printer.startPage > 0 && env.fileAtDraw.CannotOpen? ==>
                r == Outcome(FileInaccessible, [dc, doc, StartPage]))
          && (env.printer.startDoc > 0 && env.printer.startPage > 0 && env.fileAtDraw.Opened? ==>
            var drawn := [dc, doc, StartPage] + FontScope(env.fileAtDraw.content) + [EndPage];
            && (env.printer.endPage <= 0 ==> r == Outcome(JobIncomplete, drawn))
            && (env.printer.endPage > 0 && env.printer.endDoc <= 0 ==>
                  r == Outcome(JobIncomplete, drawn + [EndDoc])))))
  {
  }

  /** `PrintFile` returns "" exactly when every step succeeded, and a
      successful job issues the complete lifecycle. */
  lemma {:induction false} SuccessExactlyWhenAllStepsSucceed(fileName: string, env: Environment)
    ensures PrintFileSpec(fileName, env).errorMessage == "" <==> AllStepsSucceed(env)
    ensures AllStepsSucceed(env) ==> PrintFileSpec(fileName, env).trace == FullTrace(fileName, env)
  {
  }

  /** Every run issues a prefix of the complete lifecycle, and the whole of
      it only when it succeeds. */
  lemma {:induction false} TraceIsLifecyclePrefix(fileName: string, env: Environment)
    ensures PrintFileSpec(fileName, env).trace <= FullTrace(fileName, env)
    ensures PrintFileSpec(fileName, env).trace == FullTrace(fileName, env)
        <==> PrintFileSpec(fileName, env).errorMessage == ""
  {
    FailuresShortCircuit(fileName, env);
    SuccessExactlyWhenAllStepsSucceed(fileName, env);
    var full := FullTrace(fileName, env);
    var font := FontScope(DrawnContent(env));
    var pre := [CreateDC(env.printerName), StartDoc(JobDocInfo(fileName, env)), StartPage];
    assert full == pre + font + [EndPage, EndDoc, DeleteDC];
    assert full[..0] == [];
    assert full[..1] == [CreateDC(env.printerName)];
    assert full[..2] == pre[..2];
    assert full[..3] == pre;
    assert full[..|pre| + |font| + 1] == pre + font + [EndPage];
    assert full[..|pre| + |font| + 2] == pre + font + [EndPage, EndDoc];
  }

  /** The complete lifecycle runs CreateDC, StartDoc, StartPage, CreateFont,
      SelectFont, the TextOuts, DeleteFont, EndPage, EndDoc, DeleteDC. */
  lemma {:induction false} FullTraceOrdered(fileName: string, env: Environment)
    ensures LifecycleOrdered(FullTrace(fileName, env))
  {
    var lines := GetLines(DrawnContent(env));
    TextEventsAreTextOuts(lines, 0);
    var dc := CreateDC(env.printerName);
    var doc := StartDoc(JobDocInfo(fileName, env));
    var font := CreateFont(FontSize, FontFace);
    CompleteLifecycleOrdered(dc, doc, font, TextEvents(lines, 0));
    assert FullTrace(fileName, env)
        == [dc, doc, StartPage, font, SelectFont] + TextEvents(lines, 0) + [DeleteFont, EndPage, EndDoc, DeleteDC];
  }

  /** Every run issues its events in lifecycle order. */
  lemma {:induction false} EventsInLifecycleOrder(fileName: string, env: Environment)
    ensures LifecycleOrdered(PrintFileSpec(fileName, env).trace)
  {
    TraceIsLifecyclePrefix(fileName, env);
    FullTraceOrdered(fileName, env);
    PrefixOrdered(PrintFileSpec(fileName, env).trace, FullTrace(fileName, env));
  }

  /** An error from `DrawPrintFile` is returned as it is, and the device
      context is then not deleted. */
  lemma {:induction false} DrawErrorReturnedUnchanged(fileName: string, env: Environment)
    requires env.printerNameLength != 0 && env.printerRetrieveValue != 0
    requires GetFileSize(env.fileAtSizeProbe) != -1 && env.createDCSucceeds
    ensures var drawn := DrawPrintFileSpec(env.printer, JobDocInfo(fileName, env), env.fileAtDraw);
      && PrintFileSpec(fileName, env).errorMessage == drawn.errorMessage
      && (drawn.errorMessage != "" ==>
            && PrintFileSpec(fileName, env).trace == [CreateDC(env.printerName)] + drawn.trace
            && Count(PrintFileSpec(fileName, env).trace, DeleteDCStage) == 0)
  {
    DeviceContextReleasedOnlyOnSuccess(fileName, env);
  }

  // ----------------------------------------------------------- resources

  /** How a font scope counts: one CreateFont, one DeleteFont, and TextOuts
      for the rest. */
  lemma {:induction false} FontScopeCount(content: string, stage: nat)
    requires stage != TextOutStage
    ensures Count(FontScope(content), stage)
         == (if stage == CreateFontStage then 1 else 0)
          + (if stage == Stage(SelectFont) then 1 else 0)
          + (if stage == DeleteFontStage then 1 else 0)
  {
    var texts := TextEvents(GetLines(content), 0);
    TextEventsAreTextOuts(GetLines(content), 0);
    CountAbsent(texts, stage);
    var create: seq<Event> := [CreateFont(FontSize, FontFace)];
    var select: seq<Event> := [SelectFont];
    var delete: seq<Event> := [DeleteFont];
    assert FontScope(content) == create + select + texts + delete;
    CountSingleton(create[0], stage);
    CountSingleton(select[0], stage);
    CountSingleton(delete[0], stage);
    CountConcat(create, select, stage);
    CountConcat(create + select, texts, stage);
    CountConcat(create + select + texts, delete, stage);
  }

  /** Inside the font scope the font is created once and deleted once, and
      the device context is neither created nor deleted. */
  lemma {:induction false} FontScopeCounts(content: string)
    ensures Count(FontScope(content), CreateFontStage) == 1
    ensures Count(FontScope(content), DeleteFontStage) == 1
    ensures Count(FontScope(content), CreateDCStage) == 0
    ensures Count(FontScope(content), DeleteDCStage) == 0
  {
    FontScopeCount(content, CreateFontStage);
    FontScopeCount(content, DeleteFontStage);
    FontScopeCount(content, CreateDCStage);
    FontScopeCount(content, DeleteDCStage);
  }

  /** A trace `pre + FontScope + post`, with no font event in `pre` or
      `post`, creates and deletes the font once each. */
  lemma {:induction false} PagedFontCounts(pre: seq<Event>, content: string, post: seq<Event>)
    requires forall i :: 0 <= i < |pre| ==> Stage(pre[i]) < CreateFontStage
    requires forall i :: 0 <= i < |post| ==> Stage(post[i]) > DeleteFontStage
    ensures Count(pre + FontScope(content) + post, CreateFontStage) == 1
    ensures Count(pre + FontScope(content) + post, DeleteFontStage) == 1
  {
    FontScopeCounts(content);
    CountAbsent(pre, CreateFontStage);
    CountAbsent(pre, DeleteFontStage);
    CountAbsent(post, CreateFontStage);
    CountAbsent(post, DeleteFontStage);
    CountConcat(pre, FontScope(content), CreateFontStage);
    CountConcat(pre + FontScope(content), post, CreateFontStage);
    CountConcat(pre, FontScope(content), DeleteFontStage);
    CountConcat(pre + FontScope(content), post, DeleteFontStage);
  }

  /** Font creation and deletion are balanced on every path: once the font
      is created it is deleted exactly once, since the line loop has no early
      exit; it is created exactly when StartPage succeeded and the file
      opened again. */
  lemma {:induction false} FontBalanced(fileName: string, env: Environment)
    ensures var t := PrintFileSpec(fileName, env).trace;
      Count(t, CreateFontStage) == Count(t, DeleteFontStage) <= 1
    ensures Count(PrintFileSpec(fileName, env).trace, CreateFontStage) == 1
        <==> (&& env.printerNameLength != 0 && env.printerRetrieveValue != 0
              && GetFileSize(env.fileAtSizeProbe) != -1 && env.createDCSucceeds
              && env.printer.startDoc > 0 && env.printer.startPage > 0
              && env.fileAtDraw.Opened?)
  {
    FailuresShortCircuit(fileName, env);
    var t := PrintFileSpec(fileName, env).trace;
    var pre := [CreateDC(env.printerName), StartDoc(JobDocInfo(fileName, env)), StartPage];
    if && env.printerNameLength != 0 && env.printerRetrieveValue != 0
       && GetFileSize(env.fileAtSizeProbe) != -1 && env.createDCSucceeds
       && env.printer.startDoc > 0 && env.printer.startPage > 0
       && env.fileAtDraw.Opened?
    {
      var content := env.fileAtDraw.content;
      var post: seq<Event> :=
        if env.printer.endPage <= 0 then [EndPage]
        else if env.printer.endDoc <= 0 then [EndPage, EndDoc]
        else [EndPage, EndDoc, DeleteDC];
      SuccessExactlyWhenAllStepsSucceed(fileName, env);
      assert t == pre + FontScope(content) + post;
      PagedFontCounts(pre, content, post);
    } else {
      assert t <= pre;
      CountAbsent(t, CreateFontStage);
      CountAbsent(t, DeleteFontStage);
    }
  }

  /** Between its first and its last event, the complete lifecycle neither
      creates nor deletes a device context. */
  lemma {:induction false} InteriorStage(fileName: string, env: Environment, i: nat)
    requires 0 < i < |FullTrace(fileName, env)| - 1
    ensures CreateDCStage < Stage(FullTrace(fileName, env)[i]) < DeleteDCStage
  {
    FullTraceOrdered(fileName, env);
    var full := FullTrace(fileName, env);
    assert full[0] == CreateDC(env.printerName);
    assert full[|full| - 1] == DeleteDC;
  }

  /** A trace that opens with CreateDC, has neither CreateDC nor DeleteDC
      inside, and ends with DeleteDC exactly when it is `closed`. */
  lemma {:induction false} BracketCounts(t: seq<Event>, closed: bool)
    requires |t| >= (if closed then 2 else 1) && t[0].CreateDC?
    requires closed ==> t[|t| - 1] == DeleteDC
    requires forall i :: 0 < i < |t| - (if closed then 1 else 0) ==>
      CreateDCStage < Stage(t[i]) < DeleteDCStage
    ensures Count(t, CreateDCStage) == 1
    ensures Count(t, DeleteDCStage) == (if closed then 1 else 0)
  {
    var n := if closed then |t| - 1 else |t|;
    var head := [t[0]];
    var mid := t[1..n];
    var tail := t[n..];
    assert t == head + mid + tail;
    forall i | 0 <= i < |mid|
      ensures Stage(mid[i]) != CreateDCStage && Stage(mid[i]) != DeleteDCStage
    {
      assert mid[i] == t[i + 1];
    }
    CountAbsent(mid, CreateDCStage);
    CountAbsent(mid, DeleteDCStage);
    CountSingleton(t[0], CreateDCStage);
    CountSingleton(t[0], DeleteDCStage);
    if closed {
      assert tail == [DeleteDC];
      CountSingleton(DeleteDC, CreateDCStage);
      CountSingleton(DeleteDC, DeleteDCStage);
    } else {
      assert tail == [];
    }
    CountConcat(head, mid, CreateDCStage);
    CountConcat(head, mid, DeleteDCStage);
    CountConcat(head + mid, tail, CreateDCStage);
    CountConcat(head + mid, tail, DeleteDCStage);
  }

  /** The device context is created once the printer and the file size are
      known, and deleted only when the whole job succeeded: every failure
      after CreateDC leaks it, as WinPrint.cpp does. */
  lemma {:induction false} DeviceContextReleasedOnlyOnSuccess(fileName: string, env: Environment)
    ensures var r := PrintFileSpec(fileName, env);
      Count(r.trace, DeleteDCStage) == (if r.errorMessage == "" then 1 else 0)
    ensures Count(PrintFileSpec(fileName, env).trace, CreateDCStage)
         == (if env.printerNameLength != 0 && env.printerRetrieveValue != 0
                && GetFileSize(env.fileAtSizeProbe) != -1 then 1 else 0)
  {
    FailuresShortCircuit(fileName, env);
    TraceIsLifecyclePrefix(fileName, env);
    var r := PrintFileSpec(fileName, env);
    var t := r.trace;
    var full := FullTrace(fileName, env);
    if && env.printerNameLength != 0 && env.printerRetrieveValue != 0
       && GetFileSize(env.fileAtSizeProbe) != -1
    {
      var closed := r.errorMessage == "";
      assert t[0] == full[0];
      forall i | 0 < i < |t| - (if closed then 1 else 0)
        ensures CreateDCStage < Stage(t[i]) < DeleteDCStage
      {
        assert t[i] == full[i];
        InteriorStage(fileName, env, i);
      }
      BracketCounts(t, closed);
    }
  }

  // ------------------------------------------------------------ the lines

  /** The line loop issues only TextOut calls, all at x = 0. */
  lemma {:induction false} TextEventsAreTextOuts(lines: seq<string>, first: nat)
    ensures forall k :: 0 <= k < |TextEvents(lines, first)| ==>
      TextEvents(lines, first)[k].TextOut? && TextEvents(lines, first)[k].x == 0
  {
    if lines != [] {
      PrintTextIssues(0, LineY(first), lines[0]);
      TextEventsAreTextOuts(lines[1..], first + 1);
    }
  }

  /** What each line hands to TextOut: its text before any NUL, less one
      trailing terminator; empty when the line prints nothing. */
  function PrintedTexts(lines: seq<string>): (texts: seq<string>)
    ensures |texts| == |lines|
  {
    if lines == [] then [] else [PrintedText(lines[0])] + PrintedTexts(lines[1..])
  }

  lemma {:induction false} PrintedTextsAt(lines: seq<string>, i: nat)
    requires i < |lines|
    ensures PrintedTexts(lines)[i] == PrintedText(lines[i])
  {
    if i > 0 {
      PrintedTextsAt(lines[1..], i - 1);
    }
  }

  /** The events of the line loop told only what each line prints, the first
      of them being line number `first`. */
  function Outputs(texts: seq<string>, first: nat): seq<Event>
  {
    if texts == [] then []
    else (if texts[0] == [] then [] else [TextOut(0, LineY(first), texts[0])])
         + Outputs(texts[1..], first + 1)
  }

  /** The line loop issues, line by line, what each line prints. */
  lemma {:induction false} TextEventsAreOutputs(lines: seq<string>, first: nat)
    ensures TextEvents(lines, first) == Outputs(PrintedTexts(lines), first)
  {
    if lines != [] {
      PrintTextIssues(0, LineY(first), lines[0]);
      TextEventsAreOutputs(lines[1..], first + 1);
      assert PrintedTexts(lines)[1..] == PrintedTexts(lines[1..]);
    }
  }

  /** The line numbers, counting from `first`, of the non-empty texts. */
  function NonEmptyIndices(texts: seq<string>, first: nat): seq<nat>
  {
    if texts == [] then []
    else (if texts[0] != [] then [first] else []) + NonEmptyIndices(texts[1..], first + 1)
  }

  lemma {:induction false} NonEmptyIndicesInOrder(texts: seq<string>, first: nat)
    ensures forall j :: 0 <= j < |NonEmptyIndices(texts, first)| ==>
      && first <= NonEmptyIndices(texts, first)[j] < first + |texts|
      && texts[NonEmptyIndices(texts, first)[j] - first] != []
    ensures forall j1, j2 :: 0 <= j1 < j2 < |NonEmptyIndices(texts, first)| ==>
      NonEmptyIndices(texts, first)[j1] < NonEmptyIndices(texts, first)[j2]
    ensures forall k :: first <= k < first + |texts| && texts[k - first] != [] ==>
      k in NonEmptyIndices(texts, first)
  {
    if texts != [] {
      NonEmptyIndicesInOrder(texts[1..], first + 1);
      var idx := NonEmptyIndices(texts, first);
      var rest := NonEmptyIndices(texts[1..], first + 1);
      var head: seq<nat> := if texts[0] != [] then [first] else [];
      assert idx == head + rest;
      forall j | 0 <= j < |idx|
        ensures first <= idx[j] < first + |texts| && texts[idx[j] - first] != []
      {
        if j >= |head| {
          assert idx[j] == rest[j - |head|];
          assert texts[idx[j] - first] == texts[1..][rest[j - |head|] - (first + 1)];
        }
      }
      forall k | first < k < first + |texts| && texts[k - first] != []
        ensures k in idx
      {
        assert texts[1..][k - (first + 1)] == texts[k - first];
      }
    }
  }

  lemma {:induction false} OutputsLength(texts: seq<string>, first: nat)
    ensures |Outputs(texts, first)| == |NonEmptyIndices(texts, first)|
  {
    if texts != [] {
      OutputsLength(texts[1..], first + 1);
    }
  }

  /** The j-th output is the j-th non-empty text, at the y of its own line. */
  lemma {:induction false} OutputAt(texts: seq<string>, first: nat, j: nat)
    requires j < |NonEmptyIndices(texts, first)|
    ensures j < |Outputs(texts, first)|
    ensures first <= NonEmptyIndices(texts, first)[j] < first + |texts|
    ensures Outputs(texts, first)[j]
         == TextOut(0, LineY(NonEmptyIndices(texts, first)[j]),
                    texts[NonEmptyIndices(texts, first)[j] - first])
  {
    OutputsLength(texts, first);
    if texts[0] == [] || j > 0 {
      var j' := if texts[0] == [] then j else j - 1;
      OutputAt(texts[1..], first + 1, j');
      var k := NonEmptyIndices(texts[1..], first + 1)[j'];
      assert texts[1..][k - (first + 1)] == texts[k - first];
    }
  }

  /** The line numbers, counting from `first`, of the lines that produce a
      TextOut. */
  function PrintedLineIndices(lines: seq<string>, first: nat): seq<nat>
  {
    NonEmptyIndices(PrintedTexts(lines), first)
  }

  /** The printable lines are listed in file order, each once, and none is
      left out. */
  lemma {:induction false} PrintedLineIndicesInOrder(lines: seq<string>, first: nat)
    ensures forall j :: 0 <= j < |PrintedLineIndices(lines, first)| ==>
      && first <= PrintedLineIndices(lines, first)[j] < first + |lines|
      && PrintedText(lines[PrintedLineIndices(lines, first)[j] - first]) != []
    ensures forall j1, j2 :: 0 <= j1 < j2 < |PrintedLineIndices(lines, first)| ==>
      PrintedLineIndices(lines, first)[j1] < PrintedLineIndices(lines, first)[j2]
    ensures forall k :: first <= k < first + |lines| && PrintedText(lines[k - first]) != [] ==>
      k in PrintedLineIndices(lines, first)
  {
    var idx := PrintedLineIndices(lines, first);
    NonEmptyIndicesInOrder(PrintedTexts(lines), first);
    forall j | 0 <= j < |idx|
      ensures first <= idx[j] < first + |lines| && PrintedText(lines[idx[j] - first]) != []
    {
      PrintedTextsAt(lines, idx[j] - first);
    }
    forall k | first <= k < first + |lines| && PrintedText(lines[k - first]) != []
      ensures k in idx
    {
      PrintedTextsAt(lines, k - first);
    }
  }

  /** The line loop issues one TextOut per printable line. */
  lemma {:induction false} TextEventsLength(lines: seq<string>, first: nat)
    ensures |TextEvents(lines, first)| == |PrintedLineIndices(lines, first)|
  {
    TextEventsAreOutputs(lines, first);
    OutputsLength(PrintedTexts(lines), first);
  }

  /** The j-th TextOut draws the j-th line that has something to print, at
      x = 0 and at the y of that line's own number in the file, so lines
      that print nothing still move y on. */
  lemma {:induction false} TextEventAt(lines: seq<string>, first: nat, j: nat)
    requires j < |PrintedLineIndices(lines, first)|
    ensures j < |TextEvents(lines, first)|
    ensures first <= PrintedLineIndices(lines, first)[j] < first + |lines|
    ensures TextEvents(lines, first)[j]
         == TextOut(0, LineY(PrintedLineIndices(lines, first)[j]),
                    PrintedText(lines[PrintedLineIndices(lines, first)[j] - first]))
  {
    var texts := PrintedTexts(lines);
    var k := NonEmptyIndices(texts, first)[j];
    TextEventsAreOutputs(lines, first);
    OutputAt(texts, first, j);
    PrintedTextsAt(lines, k - first);
  }

  /** While `i` lines of 96 units fit in an `int`, line `i` is drawn at
      y = i × 96. */
  lemma {:induction false} LineYWithoutOverflow(i: nat)
    requires i * 96 < TwoTo31
    ensures LineY(i) == i * FontSize
  {
  }

  /** The printable text of each line, in order, empty ones dropped. */
  function PrintedLines(lines: seq<string>): seq<string>
  {
    if lines == [] then []
    else (if PrintedText(lines[0]) != [] then [PrintedText(lines[0])] else []) + PrintedLines(lines[1..])
  }

  /** The texts the line loop hands to TextOut are the file's lines, in
      order, each without its last terminator, empty ones left out. */
  lemma {:induction false} DrawnTextsAreLines(lines: seq<string>, first: nat)
    ensures DrawnTexts(TextEvents(lines, first)) == PrintedLines(lines)
  {
    if lines != [] {
      PrintTextIssues(0, LineY(first), lines[0]);
      DrawnTextsConcat(PrintText(0, LineY(first), lines[0]), TextEvents(lines[1..], first + 1));
      DrawnTextsAreLines(lines[1..], first + 1);
    }
  }

  /** `getline` has already removed the '\n', so of a NUL-free line
      `PrintText` can only drop one trailing '\r'. */
  lemma {:induction false} GetlineLineLosesAtMostCR(line: string)
    requires LF !in line && NUL !in line
    ensures PrintedText(line) == line || PrintedText(line) + [CR] == line
  {
    FirstIndexOfAbsent(line, NUL);
    assert CStr(line) == line;
    if PrintedText(line) != line {
      assert line == PrintedText(line) + [line[|line| - 1]];
    }
  }

  /** Only the last character is ever dropped: a NUL-free text ending in
      '\r' or '\n' loses that one character, and a "\r" before it stays. */
  lemma {:induction false} OnlyLastTerminatorStripped(s: string, t: char)
    requires NUL !in s && (t == CR || t == LF)
    ensures PrintedText(s + [t]) == s
    ensures PrintedText(s + [CR, t]) == s + [CR]
  {
    FirstIndexOfAbsent(s + [t], NUL);
    assert CStr(s + [t]) == s + [t];
    FirstIndexOfAbsent(s + [CR, t], NUL);
    assert CStr(s + [CR, t]) == s + [CR, t];
    assert (s + [CR, t])[..|s| + 1] == s + [CR];
  }

  /** A successful job draws exactly the file's printable lines, in order. */
  lemma {:induction false} SuccessfulJobDrawsTheLines(fileName: string, env: Environment)
    requires AllStepsSucceed(env)
    ensures DrawnTexts(PrintFileSpec(fileName, env).trace) == PrintedLines(GetLines(env.fileAtDraw.content))
  {
    SuccessExactlyWhenAllStepsSucceed(fileName, env);
    var lines := GetLines(DrawnContent(env));
    var texts := TextEvents(lines, 0);
    var pre := [CreateDC(env.printerName), StartDoc(JobDocInfo(fileName, env)), StartPage,
                CreateFont(FontSize, FontFace), SelectFont];
    var post := [DeleteFont, EndPage, EndDoc, DeleteDC];
    assert FullTrace(fileName, env) == pre + texts + post;
    DrawnTextsAbsent(pre);
    DrawnTextsAbsent(post);
    DrawnTextsConcat(pre, texts);
    DrawnTextsConcat(pre + texts, post);
    DrawnTextsAreLines(lines, 0);
  }

  // ---------------------------------------------------------- file size

  /** The `(int)` cast of `tellg()` keeps 32 bits, so a file of 2^32 - 1
      bytes reads as -1 and the job stops as if the file could not be
      opened. */
  lemma {:induction false} FourGiBMinusOneByteFileReadsAsInaccessible(fileName: string, env: Environment)
    requires env.printerNameLength != 0 && env.printerRetrieveValue != 0
    requires env.fileAtSizeProbe.Opened? && |env.fileAtSizeProbe.content| == TwoTo32 - 1
    ensures PrintFileSpec(fileName, env) == Outcome(FileInaccessible, [])
  {
  }
}
