/** Strings as C code handles them: ended by the first NUL, and printed into buffers of fixed size. */
module CStrings {

  /** The part of a string that C code sees: everything before the first NUL. */
  function CString(text: string): (seen: string)
    ensures seen <= text && (forall i | 0 <= i < |seen| :: seen[i] != '\0')
    ensures |seen| < |text| ==> text[|seen|] == '\0'
  {
    if text == "" || text[0] == '\0' then "" else [text[0]] + CString(text[1..])
  }

  /** What a bounded print into a buffer of `size` bytes leaves there, without the final NUL. */
  function Printed(text: string, size: nat): (printed: string)
    ensures printed <= text
    ensures |printed| < size || size == 0
    ensures |printed| < |text| ==> |printed| + 1 == size || (size == 0 && printed == "")
  {
    if size == 0 then "" else if |text| < size then text else text[..size - 1]
  }

  lemma {:induction false} WholeWithoutNul(text: string)
    requires forall i | 0 <= i < |text| :: text[i] != '\0'
    ensures CString(text) == text
  {
    if text != "" {
      WholeWithoutNul(text[1..]);
    }
  }
}
