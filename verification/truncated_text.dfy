/** The text-truncation component: long text is cut to a maximum length and marked with
    an ellipsis. */
module TruncatedText {
  import opened Seqs

  const Ellipsis: string := "..."

  /** The text shown for `text` with limit `maxLength`: the text itself when it is no
      longer than the limit, otherwise `text.slice(0, maxLength)` followed by "...". */
  function Truncate(text: string, maxLength: int): (r: string)
    ensures |text| <= maxLength ==> r == text
    ensures 0 <= maxLength < |text| ==> r == text[..maxLength] + Ellipsis
  {
    if |text| > maxLength then JsSlice(text, 0, maxLength) + Ellipsis else text
  }

  /** For a non-negative limit, the shown text is at most three characters longer than the
      limit, starts with as much of the text as the limit allows, and ends with the
      ellipsis whenever something had to be cut. */
  lemma TruncateBounds(text: string, maxLength: int)
    requires maxLength >= 0
    ensures |Truncate(text, maxLength)| <= maxLength + 3
    ensures var keep := if |text| < maxLength then |text| else maxLength;
      text[..keep] <= Truncate(text, maxLength)
    ensures |text| > maxLength ==> Truncate(text, maxLength)[|Truncate(text, maxLength)| - 3..] == Ellipsis
  {
    var r := Truncate(text, maxLength);
    if |text| > maxLength {
      assert |r| == |text[..maxLength]| + 3;
    }
  }

  /** Truncating is idempotent for a non-negative limit: shown text, truncated again with
      the same limit, is shown unchanged. */
  lemma TruncateIdempotent(text: string, maxLength: int)
    requires maxLength >= 0
    ensures Truncate(Truncate(text, maxLength), maxLength) == Truncate(text, maxLength)
  {
    var r := Truncate(text, maxLength);
    if |text| > maxLength {
      assert r[..maxLength] == text[..maxLength];
    }
  }
}
