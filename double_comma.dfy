/**
 * The pattern search of layer 3 of the error locator: the first match of the
 * regular expression `/,\s*,/` (a comma, optional white space, a comma) and the
 * `indexOf(',', first + 1)` call that locates the match's second comma.
 */
module DoubleComma {
  import opened Options
  import opened JsText

  /** `/,\s*,/` matches `s` starting at index `i`. */
  ghost predicate MatchesAt(s: Text, i: nat) {
    && i < |s|
    && s[i] == COMMA
    && exists j :: i < j < |s| && s[j] == COMMA && AllWhiteSpace(s, i + 1, j)
  }

  /** The executable test for a match at `i`: the first non-white-space unit after the comma is a comma. */
  predicate ClosedAt(s: Text, i: nat) {
    && i < |s|
    && s[i] == COMMA
    && match FirstNonWhiteSpaceFrom(s, i + 1)
       case Some(j) => s[j] == COMMA
       case None => false
  }

  lemma ClosedAtIffMatches(s: Text, i: nat)
    ensures ClosedAt(s, i) <==> MatchesAt(s, i)
  {
    assert !IsWhiteSpace(COMMA);
    if i < |s| && s[i] == COMMA {
      var next := FirstNonWhiteSpaceFrom(s, i + 1);
      if next.Some? && s[next.value] == COMMA {
        assert MatchesAt(s, i);
      }
      if MatchesAt(s, i) {
        var j :| i < j < |s| && s[j] == COMMA && AllWhiteSpace(s, i + 1, j);
        assert next == Some(j);
      }
    }
  }

  /** The leftmost match of `/,\s*,/` at or after `from`. */
  function FindDoubleCommaFrom(s: Text, from: nat): (r: Option<nat>)
    requires from <= |s|
    ensures r.Some? ==> from <= r.value < |s| && MatchesAt(s, r.value)
    ensures r.Some? ==> forall i :: from <= i < r.value ==> !MatchesAt(s, i)
    ensures r.None? ==> forall i :: from <= i < |s| ==> !MatchesAt(s, i)
    decreases |s| - from
  {
    ClosedAtIffMatches(s, from);
    if from == |s| then None
    else if ClosedAt(s, from) then Some(from)
    else FindDoubleCommaFrom(s, from + 1)
  }

  /** `text.match(/,\s*,/).index`, or None when the text has no match. */
  function FindDoubleComma(s: Text): (r: Option<nat>)
    ensures r.Some? ==> r.value < |s| && MatchesAt(s, r.value)
    ensures r.Some? ==> forall i :: 0 <= i < r.value ==> !MatchesAt(s, i)
    ensures r.None? ==> forall i :: 0 <= i < |s| ==> !MatchesAt(s, i)
  {
    FindDoubleCommaFrom(s, 0)
  }

  /**
   * `indexOf(',', first + 1)` lands on the comma that closes the match at
   * `first`: it lies after `first`, it is a comma, only white space lies
   * between the two, and it is the only comma with those properties.
   */
  lemma IndexOfFindsClosingComma(s: Text, first: nat)
    requires MatchesAt(s, first)
    ensures var second := IndexOf(s, COMMA, first + 1);
      && first < second < |s|
      && s[second] == COMMA
      && AllWhiteSpace(s, first + 1, second)
      && forall j :: first < j < |s| && s[j] == COMMA && AllWhiteSpace(s, first + 1, j) ==> j == second
  {
    assert !IsWhiteSpace(COMMA);
    var j :| first < j < |s| && s[j] == COMMA && AllWhiteSpace(s, first + 1, j);
    var second := IndexOf(s, COMMA, first + 1);
    assert second == j;
  }
}
