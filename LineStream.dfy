/** `std::getline` on a file opened in binary mode: the stream is the unread
    rest of the file's content, and each call extracts up to and including the
    next '\n', handing back the characters before it. */
module LineStream {
  import opened Wrappers
  import opened CharSeq

  const LF: char := '\n'

  /** What one successful `getline` call leaves: the line and the unread rest. */
  datatype Extracted = Extracted(line: string, rest: string)

  /** One `getline` call. It fails (None) exactly when it extracts nothing,
      which happens only at the end of the stream; a final line without a
      '\n' is still delivered. */
  function Getline(s: string): (r: Option<Extracted>)
    ensures r.None? <==> s == []
    ensures r.Some? ==> |r.value.rest| < |s|
  {
    if s == [] then None
    else
      var k := FirstIndexOf(s, LF);
      if k < |s| then Some(Extracted(s[..k], s[k + 1..]))
      else Some(Extracted(s, []))
  }

  /** What `getline` extracts is the line, its '\n' if there is one, and
      nothing more; the line itself holds no '\n'. */
  lemma {:induction false} GetlineSplits(s: string)
    requires s != []
    ensures LF !in Getline(s).value.line
    ensures s == Getline(s).value.line + [LF] + Getline(s).value.rest
         || (s == Getline(s).value.line && Getline(s).value.rest == [])
  {
    var k := FirstIndexOf(s, LF);
    FirstIndexOfFinds(s, LF);
    if k < |s| {
      assert s == s[..k] + [LF] + s[k + 1..];
    } else {
      assert s[..k] == s;
    }
  }

  /** The lines that `while (std::getline(file, line))` visits, in order. */
  function GetLines(s: string): (lines: seq<string>)
    ensures |lines| <= |s|
    decreases |s|
  {
    match Getline(s)
    case None => []
    case Some(e) => [e.line] + GetLines(e.rest)
  }

  /** A non-empty stream yields the line `getline` extracts, then the lines
      of what it leaves. */
  lemma {:induction false} GetLinesCons(s: string)
    requires s != []
    ensures GetLines(s) == [Getline(s).value.line] + GetLines(Getline(s).value.rest)
  {
  }

  /** No line `getline` delivers holds a '\n'. */
  lemma {:induction false} GetLinesHaveNoLF(s: string)
    ensures forall i :: 0 <= i < |GetLines(s)| ==> LF !in GetLines(s)[i]
    decreases |s|
  {
    if s != [] {
      var e := Getline(s).value;
      GetlineSplits(s);
      GetLinesHaveNoLF(e.rest);
      assert GetLines(s) == [e.line] + GetLines(e.rest);
    }
  }

  /** Each line followed by '\n'. */
  function Unsplit(lines: seq<string>): string
  {
    if lines == [] then [] else lines[0] + [LF] + Unsplit(lines[1..])
  }

  /** Nothing is lost or reordered: rejoining the lines gives the content back,
      plus a '\n' where the last line had none. */
  lemma {:induction false} GetLinesRoundTrip(s: string)
    ensures s == [] || s[|s| - 1] == LF ==> Unsplit(GetLines(s)) == s
    ensures s != [] && s[|s| - 1] != LF ==> Unsplit(GetLines(s)) == s + [LF]
    decreases |s|
  {
    match Getline(s)
    case None =>
    case Some(e) =>
      GetlineSplits(s);
      GetLinesRoundTrip(e.rest);
      GetLinesCons(s);
      assert ([e.line] + GetLines(e.rest))[1..] == GetLines(e.rest);
      assert Unsplit(GetLines(s)) == e.line + [LF] + Unsplit(GetLines(e.rest));
      if s == e.line + [LF] + e.rest {
        if e.rest != [] {
          assert s[|s| - 1] == e.rest[|e.rest| - 1];
        }
      } else {
        assert GetLines(e.rest) == [];
      }
  }

  /** A content of n lines each ended by '\n' yields exactly those n lines. */
  lemma {:induction false} GetLinesOfUnsplit(lines: seq<string>)
    requires forall i :: 0 <= i < |lines| ==> LF !in lines[i]
    ensures GetLines(Unsplit(lines)) == lines
  {
    if lines != [] {
      var s := Unsplit(lines);
      var rest := Unsplit(lines[1..]);
      FirstIndexOfAfterPrefix(lines[0], LF, rest);
      assert s[..|lines[0]|] == lines[0];
      assert s[|lines[0]| + 1..] == rest;
      assert Getline(s) == Some(Extracted(lines[0], rest));
      GetLinesOfUnsplit(lines[1..]);
    }
  }
}
