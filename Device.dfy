/** The abstract printer: the Win32 GDI and spooler calls WinPrint.cpp makes,
    recorded as events in the order they are issued. What each call returns is
    an input of the model (`PrinterResponses`, `Environment` in WinPrint). */
module Device {
  /** The DOCINFO handed to StartDoc: `cbSize` carries the file size exactly
      as WinPrint.cpp fills it in, and `docName` is the wide string that
      `lpszDocName` points into. */
  datatype DocInfo = DocInfo(cbSize: int, docName: string)

  datatype Event =
    | CreateDC(printerName: string)
    | StartDoc(info: DocInfo)
    | StartPage
    | CreateFont(height: int, faceName: string)
    | SelectFont
    | TextOut(x: int, y: int, text: string)
    | DeleteFont
    | EndPage
    | EndDoc
    | DeleteDC

  /** Position of an event kind in the print-job lifecycle. */
  function Stage(e: Event): nat
  {
    match e
    case CreateDC(_) => 0
    case StartDoc(_) => 1
    case StartPage => 2
    case CreateFont(_, _) => 3
    case SelectFont => 4
    case TextOut(_, _, _) => 5
    case DeleteFont => 6
    case EndPage => 7
    case EndDoc => 8
    case DeleteDC => 9
  }

  // The stages of the kinds the properties count, as `Stage` assigns them.
  const CreateDCStage: nat := 0
  const CreateFontStage: nat := 3
  const TextOutStage: nat := 5
  const DeleteFontStage: nat := 6
  const DeleteDCStage: nat := 9

  /** Events follow the lifecycle order, and only TextOut repeats. */
  ghost predicate LifecycleOrdered(t: seq<Event>)
  {
    forall i, j :: 0 <= i < j < |t| ==>
      Stage(t[i]) < Stage(t[j]) || (t[i].TextOut? && t[j].TextOut?)
  }

  /** A complete lifecycle, CreateDC, StartDoc, StartPage, CreateFont,
      SelectFont, any number of TextOuts, DeleteFont, EndPage, EndDoc,
      DeleteDC, is in lifecycle order. */
  lemma {:induction false} CompleteLifecycleOrdered(dc: Event, doc: Event, font: Event, texts: seq<Event>)
    requires dc.CreateDC? && doc.StartDoc? && font.CreateFont?
    requires forall k :: 0 <= k < |texts| ==> texts[k].TextOut?
    ensures LifecycleOrdered([dc, doc, StartPage, font, SelectFont] + texts + [DeleteFont, EndPage, EndDoc, DeleteDC])
  {
  }

  /** How many events of `stage` the trace holds. */
  function Count(t: seq<Event>, stage: nat): nat
  {
    if t == [] then 0
    else (if Stage(t[0]) == stage then 1 else 0) + Count(t[1..], stage)
  }

  lemma {:induction false} CountConcat(a: seq<Event>, b: seq<Event>, stage: nat)
    ensures Count(a + b, stage) == Count(a, stage) + Count(b, stage)
  {
    if a == [] {
      assert a + b == b;
    } else {
      assert (a + b)[1..] == a[1..] + b;
      CountConcat(a[1..], b, stage);
    }
  }

  /** A trace with no event of `stage` counts zero of it. */
  lemma {:induction false} CountAbsent(t: seq<Event>, stage: nat)
    requires forall i :: 0 <= i < |t| ==> Stage(t[i]) != stage
    ensures Count(t, stage) == 0
  {
    if t != [] {
      CountAbsent(t[1..], stage);
    }
  }

  lemma {:induction false} CountSingleton(e: Event, stage: nat)
    ensures Count([e], stage) == if Stage(e) == stage then 1 else 0
  {
  }

  /** The texts handed to TextOut, in order. */
  function DrawnTexts(t: seq<Event>): seq<string>
  {
    if t == [] then []
    else (if t[0].TextOut? then [t[0].text] else []) + DrawnTexts(t[1..])
  }

  lemma {:induction false} DrawnTextsConcat(a: seq<Event>, b: seq<Event>)
    ensures DrawnTexts(a + b) == DrawnTexts(a) + DrawnTexts(b)
  {
    if a == [] {
      assert a + b == b;
    } else {
      assert (a + b)[1..] == a[1..] + b;
      DrawnTextsConcat(a[1..], b);
    }
  }

  /** A trace without TextOut draws no text. */
  lemma {:induction false} DrawnTextsAbsent(t: seq<Event>)
    requires forall i :: 0 <= i < |t| ==> !t[i].TextOut?
    ensures DrawnTexts(t) == []
  {
    if t != [] {
      DrawnTextsAbsent(t[1..]);
    }
  }

  /** A prefix of an ordered trace is ordered. */
  lemma {:induction false} PrefixOrdered(t: seq<Event>, u: seq<Event>)
    requires LifecycleOrdered(u) && t <= u
    ensures LifecycleOrdered(t)
  {
  }
}
