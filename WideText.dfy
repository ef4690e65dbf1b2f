/** Wide strings as WinPrint.cpp produces and measures them. The narrow text
    is taken to be ASCII, so widening maps every character to itself; what
    remains of `mbstowcs_s` is that it stops at the first NUL and always
    writes a terminating NUL, which `resize(lengthReturnValue)` keeps. */
module WideText {
  import opened CharSeq

  const NUL: char := '\0'

  /** `lstrlen`: the number of characters before the first NUL. */
  function Lstrlen(w: string): (n: nat)
    ensures n <= |w|
  {
    FirstIndexOf(w, NUL)
  }

  /** The text that `c_str()` of `w` designates: everything before the first NUL. */
  function CStr(w: string): string
  {
    w[..Lstrlen(w)]
  }

  /** `convertStringToWstring` on ASCII input. */
  function ConvertStringToWstring(s: string): (w: string)
    ensures |w| >= 1 && w[|w| - 1] == NUL
  {
    CStr(s) + [NUL]
  }

  /** The wide string holds the narrow C string and one NUL after it, so
      `lstrlen` measures the same text on both sides. */
  lemma {:induction false} ConvertKeepsCString(s: string)
    ensures |ConvertStringToWstring(s)| == Lstrlen(s) + 1
    ensures ConvertStringToWstring(s)[Lstrlen(s)] == NUL
    ensures Lstrlen(ConvertStringToWstring(s)) == Lstrlen(s)
    ensures CStr(ConvertStringToWstring(s)) == CStr(s)
  {
    FirstIndexOfFinds(s, NUL);
    FirstIndexOfAppended(CStr(s), NUL);
  }

  /** For NUL-free ASCII input the conversion keeps every character, and
      `lstrlen` of the result is the input's length. */
  lemma {:induction false} AsciiWidening(s: string)
    requires NUL !in s
    ensures ConvertStringToWstring(s) == s + [NUL]
    ensures Lstrlen(ConvertStringToWstring(s)) == |s|
    ensures CStr(ConvertStringToWstring(s)) == s
  {
    FirstIndexOfAbsent(s, NUL);
    ConvertKeepsCString(s);
  }

  /** An embedded NUL cuts the converted text short. */
  lemma {:induction false} EmbeddedNulTruncates(a: string, b: string)
    requires NUL !in a
    ensures ConvertStringToWstring(a + [NUL] + b) == a + [NUL]
  {
    FirstIndexOfAfterPrefix(a, NUL, b);
    assert (a + [NUL] + b)[..|a|] == a;
  }
}
