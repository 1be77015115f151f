/**
 * JavaScript strings as the locator sees them: sequences of UTF-16 code units,
 * indexed from zero. Offsets reported by the locator are indices into such a
 * sequence. The module also holds the few string library operations the
 * locator uses: the `\s` character class, `indexOf` and the
 * delete-one-character idiom `substring(0, k) + substring(k + 1)`.
 */
module JsText {
  import opened Options

  /** One UTF-16 code unit (a JavaScript string element). */
  newtype CodeUnit = x: int | 0 <= x < 0x1_0000

  /** A JavaScript string. */
  type Text = seq<CodeUnit>

  const COMMA: CodeUnit := 0x2C
  const LINE_FEED: CodeUnit := 0x0A

  /**
   * The regular-expression class `\s`: the WhiteSpace code points of section
   * 12.2 of ECMA-262 (TAB, VT, FF, ZWNBSP and the Unicode category Zs) and the
   * LineTerminator code points of section 12.3 (LF, CR, LS, PS).
   */
  predicate IsWhiteSpace(c: CodeUnit) {
    || c == 0x0009 || c == 0x000B || c == 0x000C || c == 0xFEFF
    || c == 0x0020 || c == 0x00A0 || c == 0x1680 || (0x2000 <= c <= 0x200A)
    || c == 0x202F || c == 0x205F || c == 0x3000
    || c == 0x000A || c == 0x000D || c == 0x2028 || c == 0x2029
  }

  /** Every code unit of `s` in `[from, to)` matches `\s`. */
  predicate AllWhiteSpace(s: Text, from: nat, to: nat)
    requires from <= to <= |s|
  {
    forall k :: from <= k < to ==> IsWhiteSpace(s[k])
  }

  /**
   * The least index `j >= from` whose code unit does not match `\s`, or None
   * when everything from `from` on is white space.
   */
  function FirstNonWhiteSpaceFrom(s: Text, from: nat): (r: Option<nat>)
    requires from <= |s|
    ensures r.Some? ==> from <= r.value < |s| && !IsWhiteSpace(s[r.value]) && AllWhiteSpace(s, from, r.value)
    ensures r.None? ==> AllWhiteSpace(s, from, |s|)
    decreases |s| - from
  {
    if from == |s| then None
    else if !IsWhiteSpace(s[from]) then Some(from)
    else FirstNonWhiteSpaceFrom(s, from + 1)
  }

  /**
   * `s.indexOf(c, from)` for a one-unit search string: the least index
   * `>= from` holding `c`, or -1 when there is none.
   */
  function IndexOf(s: Text, c: CodeUnit, from: nat): (r: int)
    ensures r == -1 || (from <= r < |s| && s[r] == c)
    ensures r == -1 ==> forall k :: from <= k < |s| ==> s[k] != c
    ensures r != -1 ==> forall k :: from <= k < r ==> s[k] != c
    decreases |s| - from
  {
    if from >= |s| then -1
    else if s[from] == c then from
    else IndexOf(s, c, from + 1)
  }

  /**
   * `s.substring(0, k) + s.substring(k + 1)`: `s` with the code unit at `k`
   * deleted. Putting that unit back at `k` gives `s` again.
   */
  function RemoveAt(s: Text, k: nat): (r: Text)
    requires k < |s|
    ensures |r| == |s| - 1
    ensures r[..k] + [s[k]] + r[k..] == s
  {
    var r := s[..k] + s[k + 1..];
    assert r[..k] == s[..k] && r[k..] == s[k + 1..];
    r
  }
}
