# WinPrint print-job model

WinPrint prints a text file to the Windows default printer. `PrintFile`
builds the path `../Resources/<fileName>` (by default `To Print.txt`). It asks
for the default printer's name and probes the file's size. It then creates
a device context and hands it to `DrawPrintFile`. `DrawPrintFile` runs the
document lifecycle: StartDoc, StartPage, the font, one TextOut per line
that has text left to print, EndPage and EndDoc. Any failure stops the job and returns a fixed
error message; "" means success.

This project models that orchestration against an abstract printer:

- Every answer of the operating system or the file system is an input, an
  `Environment` value. That covers the two `GetDefaultPrinter` results, the
  printer name, the two opens of the file, `CreateDC`, and the return values
  of StartDoc, StartPage, EndPage and EndDoc.
- Every device call becomes an `Event` in a trace. The operations return
  that trace beside the error message.

The model follows the code, including its gaps:

- The device context is deleted only on full success. Every failure after
  `CreateDC` leaks it.
- Once created, the font is always deleted, because the line loop has no
  early exit.
- `DOCINFO.cbSize` carries the file size, through a 32-bit `(int)` cast of
  `tellg()`.
- `lpszDocName` points at the widened full path, not at the bare file name.
- `y += fontSize` wraps at 32 bits.

Modules:

- `WinPrintHeader`: the constants of `WinPrint.h` and the path built from them.
- `Int32Arith`: the 32-bit wrap-around of the `(int)` cast and of `y += fontSize`.
- `CharSeq` and `WideText`:
  - `lstrlen`, taken as the position of the first NUL;
  - the C string that `c_str()` designates;
  - `convertStringToWstring` on ASCII text. Widening keeps each character,
    stops at the first NUL and keeps the terminating NUL that
    `resize(lengthReturnValue)` leaves.
- `LineStream`: `std::getline` over a file opened in binary mode. It
  splits on '\n', and a final line without '\n' is still delivered.
- `Device`: the events and their lifecycle order.
- `WinPrint`: the operations.
  - `PrintFile`, `DrawPrintFile` and the line loop `DrawLines` are methods.
    Each is proved equal to a specification function, `PrintFileSpec`,
    `DrawPrintFileSpec` and `TextEvents` respectively.
  - `PrintText`, `GetDefaultPrinterName` and `GetFileSize` are functions.
- `WinPrintProperties`: what holds of every run.

## Model

| member | source | states |
|---|---|---|
| `WinPrint.PrintFile` | WinPrint.cpp:4-57 | Returns the message and the events of `PrintFileSpec`: printer lookup first, then the size probe (-1 gives "Unable to access print file."), then CreateDC, then DrawPrintFile, with DeleteDC only when DrawPrintFile reported nothing; the file name defaults to `To Print.txt` |
| `WinPrint.DrawPrintFile` | WinPrint.cpp:59-131 | Returns the message and events of `DrawPrintFileSpec`: StartDoc, StartPage, the file open, the font scope with the lines, EndPage, EndDoc, each failure returning at once with its message |
| `WinPrint.DrawLines` | WinPrint.cpp:99-108 | The line loop issues exactly `TextEvents` of the lines `getline` delivers, and leaves y at the wrapped value of 96 times the line count |
| `WinPrint.DrawLinesStep` | WinPrint.cpp:102-107 | One turn of the loop: the extracted line is drawn at the y of its own line number, and the rest of the stream holds the remaining lines |
| `WinPrint.LineYStep` | WinPrint.cpp:107 | `y += fontSize` with 32-bit wrap takes the y of line i to the y of line i + 1 |
| `WinPrint.GetDefaultPrinterName` | WinPrint.cpp:157-182 | No default printer when the length is 0, even if the retrieving call also failed; otherwise "Unable to find default printer name." when the retrieving call returned 0; "" exactly when both are non-zero; the buffer is returned either way |
| `WinPrint.GetFileSize` | WinPrint.cpp:184-198 | -1 when the file cannot be opened; otherwise the byte length, exact below 2^31 and equal to it modulo 2^32; an opened file reads as -1 exactly when its length is 2^32 - 1 modulo 2^32 |
| `WinPrint.StripOneTerminator` | WinPrint.cpp:138-148 | The result is a prefix of the text: the text less its last character exactly when that character is '\r' or '\n', and the text itself otherwise |
| `WinPrint.PrintLength` | WinPrint.cpp:139-148 | The length handed to TextOut never exceeds `lstrlen` of the text |
| `WinPrint.PrintLengthValue` | WinPrint.cpp:139-148 | The length handed to TextOut is the length of the printed text: `lstrlen` less one exactly when the last character before the first NUL is '\r' or '\n' |
| `WinPrint.PrintText` | WinPrint.cpp:133-155 | One call issues at most one TextOut |
| `WinPrint.PrintTextIssues` | WinPrint.cpp:133-155 | The full contract of `PrintText`: one TextOut at (x, y) of the text before its first NUL less one trailing '\r' or '\n', and nothing when that is empty |
| `Int32Arith.ToInt32` | WinPrint.cpp:194 | The 32-bit two's-complement value congruent to the argument modulo 2^32, the argument itself when it fits |
| `Int32Arith.ToInt32Add` | WinPrint.cpp:101-107 | Wrapping after every addition gives the same y as wrapping the exact sum once |
| `WideText.Lstrlen` | WinPrint.cpp:139 | `lstrlen` never counts past the end of the string |
| `CharSeq.FirstIndexOfFinds` | WinPrint.cpp:139 | The contract `Lstrlen` is measured by: it stops at the first NUL, with no NUL before it and a NUL at it unless it is the end |
| `WideText.ConvertStringToWstring` | WinPrint.cpp:200-208 | The converted string always ends with a NUL, the one `mbstowcs_s` writes and `resize(lengthReturnValue)` keeps |
| `WideText.ConvertKeepsCString` | WinPrint.cpp:200-208 | The wide string is the narrow C string plus one NUL, so `lstrlen` measures the same text before and after conversion |
| `WideText.AsciiWidening` | WinPrint.cpp:200-208 | For NUL-free input the conversion keeps every character and `lstrlen` of the result is the input's length |
| `WideText.EmbeddedNulTruncates` | WinPrint.cpp:204 | An embedded NUL ends the converted text |
| `LineStream.Getline` | WinPrint.cpp:102 | `getline` fails exactly at the end of the stream, and every successful call consumes input |
| `LineStream.GetlineSplits` | WinPrint.cpp:102 | A call extracts the line, its '\n' if any, and nothing more; the line holds no '\n' |
| `LineStream.GetLines` | WinPrint.cpp:102 | The loop visits no more lines than the content has characters |
| `LineStream.GetLinesCons` | WinPrint.cpp:102 | A non-empty stream yields the line `getline` extracts, then the lines of what it leaves |
| `LineStream.GetLinesHaveNoLF` | WinPrint.cpp:100-108 | No line the loop visits holds a '\n' |
| `LineStream.GetLinesRoundTrip` | WinPrint.cpp:100-108 | Rejoining the visited lines with '\n' gives the content back, plus a '\n' when the content did not end with one |
| `LineStream.GetLinesOfUnsplit` | WinPrint.cpp:100-108 | A content of '\n'-terminated lines yields exactly those lines |
| `WinPrintHeader.FilePath` | WinPrint.cpp:7 | The path is the directory prefix followed by the file name |
| `WinPrintHeader.DefaultFilePath` | WinPrint.h:11-12 | The default path is `../Resources/To Print.txt` |
| `Device.CompleteLifecycleOrdered` | WinPrint.cpp:32-131 | CreateDC, StartDoc, StartPage, CreateFont, SelectFont, TextOuts, DeleteFont, EndPage, EndDoc, DeleteDC is in lifecycle order |
| `WinPrintProperties.ErrorMessagesDistinct` | WinPrint.cpp:4-177 | The six messages are distinct and non-empty, so "" can only mean success |
| `WinPrintProperties.MessageIsKnown` | WinPrint.cpp:4-57 | Every run returns "" or one of the six messages |
| `WinPrintProperties.FailuresShortCircuit` | WinPrint.cpp:12-130 | For each failing step the exact message and the exact events so far: no CreateDC after a failed lookup or size probe, and no later call after any failure |
| `WinPrintProperties.SuccessExactlyWhenAllStepsSucceed` | WinPrint.cpp:46-56 | "" is returned exactly when every step succeeds, and then the complete lifecycle was issued |
| `WinPrintProperties.TraceIsLifecyclePrefix` | WinPrint.cpp:4-131 | Every run issues a prefix of the complete lifecycle, and the whole of it exactly when it returns "" |
| `WinPrintProperties.FullTraceOrdered` | WinPrint.cpp:59-131 | The complete lifecycle is in lifecycle order |
| `WinPrintProperties.EventsInLifecycleOrder` | WinPrint.cpp:4-131 | Every run, failed or not, issues its events in lifecycle order |
| `WinPrintProperties.DrawErrorReturnedUnchanged` | WinPrint.cpp:44-50 | An error from DrawPrintFile is returned unchanged, after CreateDC and the drawing events, and no DeleteDC is issued |
| `WinPrintProperties.FontScopeCounts` | WinPrint.cpp:93-111 | The font scope creates the font once, deletes it once, and neither creates nor deletes a device context |
| `WinPrintProperties.FontBalanced` | WinPrint.cpp:90-111 | On every path the font is deleted as often as it is created, at most once, and it is created exactly when StartPage succeeded and the file opened again |
| `WinPrintProperties.DeviceContextReleasedOnlyOnSuccess` | WinPrint.cpp:32-56 | CreateDC is issued once exactly when the lookup and size probe succeed; DeleteDC is issued once on success and never otherwise |
| `WinPrintProperties.TextEventsAreTextOuts` | WinPrint.cpp:102-108 | The line loop issues only TextOut calls, all at x = 0 |
| `WinPrintProperties.TextEventsAreOutputs` | WinPrint.cpp:102-108 | The line loop issues, line by line, one TextOut of what the line prints at the y of its number, skipping lines that print nothing |
| `WinPrintProperties.PrintedLineIndicesInOrder` | WinPrint.cpp:150-154 | The printable lines are listed in file order, each once, and none is left out |
| `WinPrintProperties.TextEventsLength` | WinPrint.cpp:150-154 | The loop issues exactly one TextOut per printable line |
| `WinPrintProperties.TextEventAt` | WinPrint.cpp:99-108 | The j-th TextOut draws the j-th printable line at x = 0 and y of that line's own number, so skipped lines still advance y |
| `WinPrintProperties.LineYWithoutOverflow` | WinPrint.cpp:101-107 | While it fits in 32 bits, the y of line i is i * 96 |
| `WinPrintProperties.DrawnTextsAreLines` | WinPrint.cpp:99-108 | The texts handed to TextOut are the printable texts of the lines, in order |
| `WinPrintProperties.GetlineLineLosesAtMostCR` | WinPrint.cpp:138-148 | Of a NUL-free line from `getline`, PrintText drops at most a trailing '\r' |
| `WinPrintProperties.OnlyLastTerminatorStripped` | WinPrint.cpp:138-148 | A trailing '\r' or '\n' is dropped, but only one: "\r" before it stays |
| `WinPrintProperties.SuccessfulJobDrawsTheLines` | WinPrint.cpp:44-56 | A successful job draws exactly the printable lines of the file as the second open found it |
| `WinPrintProperties.FourGiBMinusOneByteFileReadsAsInaccessible` | WinPrint.cpp:22-29 | A file of 2^32 - 1 bytes has a size of -1 after the cast, so the job stops with "Unable to access print file." before CreateDC |

## Left out

- The Win32 calls are not executed.
  - The two `GetDefaultPrinter` calls are not events. Only two of their results are `Environment` inputs: the length as the second call leaves it, and the second call's return value. The first call's return value is ignored by the code and is not modelled.
  - Each event keeps only the arguments that vary:
    - `CreateDC` keeps the printer name;
    - `StartDoc` keeps `cbSize` and the document name;
    - `CreateFont` keeps its height and face name;
    - `TextOut` keeps x, y and the text, whose length is the count the code passes.
  - The constant arguments are dropped: the NULLs of `CreateDC`, and the other twelve arguments of `CreateFont`: width, escapement, orientation, weight, the italic, underline and strike-out flags, charset, output and clip precision, quality and pitch. The HDC and HFONT handles are dropped too, so `StartPage`, `SelectFont`, `DeleteFont`, `EndPage`, `EndDoc` and `DeleteDC` carry no arguments.
  - `SelectObject(printer, hFont)` is the `SelectFont` event, and `DeleteObject(hFont)` is the `DeleteFont` event.
  - The results of `CreateDC`, `StartDoc`, `StartPage`, `EndPage` and `EndDoc` are inputs. The code never checks the results of `CreateFont`, `SelectObject`, `TextOut`, `DeleteObject` and `DeleteDC`, so the model has no input for them.
- Rendering is not modelled: fonts, pixels and pages are out of scope. Lines past the end of the physical page are drawn at their y like any other.
- File I/O is not modelled. Each open of the file is an input, either cannot-open or its whole content. The size probe and the drawing step open it independently. `printFile.close()` and the stream's own failure modes beyond open are left out.
- `mbstowcs_s` depends on the locale and can reject malformed multibyte input. The model takes the text to be ASCII, widened character for character, and stops at the first NUL.
- The `malloc` of the printer-name buffer, its size and its leak are out of scope. The name is the buffer's text as an input.
- The AbortProc, blocking and the spooler's asynchrony are out of scope.
- The meaning of the DOCINFO fields to Windows is out of scope. `cbSize` carries whatever `GetFileSize` returned, as the code does.
- Releasing the device context on every path, as a scoped-release design would, is not modelled. The code does not do it, so in the model the device context leaks on every failure after `CreateDC`. The font needs no such release: it is deleted on every path that creates it (`FontBalanced`).
- Naming the document after the bare file name is not modelled. The code passes the widened full path, and so does the model.
- The line loop is not inline in `DrawPrintFile`. It is a method of its own, `DrawLines`, called from there.
