/**
 * Layer 1 of the error locator: reading an offset out of the engine's error
 * message with `/position (\d+)/` and `parseInt(..., 10)`. The message is an
 * opaque string; only the first match of that pattern is interpreted.
 */
module ErrorMessages {
  import opened Options

  const POSITION_MARKER: string := "position "

  /** The class `\d`: an ASCII decimal digit. */
  predicate IsDigit(c: char) {
    '0' <= c <= '9'
  }

  predicate AllDigits(s: string) {
    forall k :: 0 <= k < |s| ==> IsDigit(s[k])
  }

  /** The literal text `position ` occurs in `s` at index `i`. */
  predicate OccursAt(s: string, i: nat) {
    i + |POSITION_MARKER| <= |s| && s[i..i + |POSITION_MARKER|] == POSITION_MARKER
  }

  /** `/position (\d+)/` matches `msg` starting at index `i`. */
  predicate MarkerAt(msg: string, i: nat) {
    OccursAt(msg, i) && i + |POSITION_MARKER| < |msg| && IsDigit(msg[i + |POSITION_MARKER|])
  }

  /** The leftmost match of `/position (\d+)/` at or after `from`, as the regular-expression engine finds it. */
  function FindMarkerFrom(msg: string, from: nat): (r: Option<nat>)
    ensures r.Some? ==> from <= r.value && MarkerAt(msg, r.value)
    ensures r.Some? ==> forall i: nat :: from <= i < r.value ==> !MarkerAt(msg, i)
    ensures r.None? ==> forall i: nat :: from <= i ==> !MarkerAt(msg, i)
    decreases |msg| - from
  {
    if from + |POSITION_MARKER| >= |msg| then None
    else if MarkerAt(msg, from) then Some(from)
    else FindMarkerFrom(msg, from + 1)
  }

  /** The end of the maximal run of digits starting at `from`: what the greedy `(\d+)` captures. */
  function DigitRunEnd(msg: string, from: nat): (r: nat)
    requires from <= |msg|
    ensures from <= r <= |msg|
    ensures forall k :: from <= k < r ==> IsDigit(msg[k])
    ensures r == |msg| || !IsDigit(msg[r])
    decreases |msg| - from
  {
    if from == |msg| || !IsDigit(msg[from]) then from
    else DigitRunEnd(msg, from + 1)
  }

  function DigitValue(c: char): nat
    requires IsDigit(c)
  {
    c as int - '0' as int
  }

  /** `parseInt(ds, 10)` on a string of decimal digits, read most significant digit first. */
  function DecimalValue(ds: string): nat
    requires AllDigits(ds)
  {
    if ds == [] then 0
    else 10 * DecimalValue(ds[..|ds| - 1]) + DigitValue(ds[|ds| - 1])
  }

  function DigitChar(d: nat): (c: char)
    requires d < 10
    ensures IsDigit(c) && DigitValue(c) == d
  {
    ('0' as int + d) as char
  }

  /**
   * The decimal numeral the engine writes for an offset `n`: at least one
   * digit, and no leading zero unless `n` is zero.
   */
  function DecimalDigits(n: nat): (r: string)
    ensures |r| >= 1 && AllDigits(r)
    ensures r[0] == '0' ==> n == 0
  {
    if n < 10 then [DigitChar(n)]
    else DecimalDigits(n / 10) + [DigitChar(n % 10)]
  }

  /**
   * The offset embedded in an error message: the decimal value of the digits
   * after the first `position ` that is followed by a digit, or None when the
   * message has no such text.
   */
  function MessagePosition(msg: string): (r: Option<nat>)
    ensures r.None? <==> forall i: nat :: !MarkerAt(msg, i)
  {
    match FindMarkerFrom(msg, 0)
    case None => None
    case Some(i) =>
      var start := i + |POSITION_MARKER|;
      Some(DecimalValue(msg[start..DigitRunEnd(msg, start)]))
  }

  /**
   * Over every message: when the leftmost match of `/position (\d+)/` starts
   * at `i`, the offset read is the value of the maximal digit run after it.
   */
  lemma LeftmostMarkerIsRead(msg: string, i: nat)
    requires MarkerAt(msg, i)
    requires forall j: nat :: j < i ==> !MarkerAt(msg, j)
    ensures var start := i + |POSITION_MARKER|;
      MessagePosition(msg) == Some(DecimalValue(msg[start..DigitRunEnd(msg, start)]))
  {
    assert FindMarkerFrom(msg, 0) == Some(i);
  }

  /** `parseInt` reads back the numeral the engine writes. */
  lemma {:induction false} DecimalRoundTrip(n: nat)
    ensures DecimalValue(DecimalDigits(n)) == n
  {
    if n >= 10 {
      var ds := DecimalDigits(n);
      assert ds[..|ds| - 1] == DecimalDigits(n / 10);
      DecimalRoundTrip(n / 10);
    }
  }

  /**
   * No match of `/position (\d+)/` starts inside a prefix free of `position `
   * when the text after it begins with `position `: the literal has no
   * proper border, so a match cannot straddle the boundary.
   */
  lemma NoMarkerBefore(prefix: string, rest: string, i: nat)
    requires forall j: nat :: !OccursAt(prefix, j)
    requires OccursAt(rest, 0)
    requires i < |prefix|
    ensures !MarkerAt(prefix + rest, i)
  {
    var msg := prefix + rest;
    var m := |POSITION_MARKER|;
    var at := |prefix|;
    if i + m <= at {
      assert msg[i..i + m] == prefix[i..i + m];
      assert !OccursAt(prefix, i);
    } else if i + m <= |msg| {
      var d := at - i;
      assert rest[..m][0] == rest[0] == 'p';
      assert msg[i..i + m][d] == msg[at] == rest[0];
      assert POSITION_MARKER[d] != 'p';
    }
  }

  /** A numeral followed by a non-digit is exactly what the greedy `(\d+)` captures. */
  lemma DigitRunOfNumeral(msg: string, start: nat, digits: string)
    requires AllDigits(digits)
    requires start + |digits| <= |msg| && msg[start..start + |digits|] == digits
    requires start + |digits| == |msg| || !IsDigit(msg[start + |digits|])
    ensures DigitRunEnd(msg, start) == start + |digits|
  {
    var end := start + |digits|;
    forall k | start <= k < end
      ensures IsDigit(msg[k])
    {
      assert msg[k] == msg[start..end][k - start];
    }
  }

  /** Where the parts of `prefix + "position " + digits + suffix` lie. */
  lemma MessageLayout(prefix: string, digits: string, suffix: string)
    ensures var msg := prefix + POSITION_MARKER + digits + suffix;
      var start := |prefix| + |POSITION_MARKER|;
      && msg == prefix + (POSITION_MARKER + digits + suffix)
      && OccursAt(POSITION_MARKER + digits + suffix, 0)
      && OccursAt(msg, |prefix|)
      && msg[start..start + |digits|] == digits
      && (start + |digits| < |msg| ==> msg[start + |digits|] == suffix[0])
  {
    var rest := POSITION_MARKER + digits + suffix;
    assert rest[..|POSITION_MARKER|] == POSITION_MARKER;
  }

  /** When the first match starts at `|prefix|`, the regular-expression search finds it there. */
  lemma FirstMarkerAfter(prefix: string, rest: string)
    requires forall j: nat :: !OccursAt(prefix, j)
    requires OccursAt(rest, 0)
    requires MarkerAt(prefix + rest, |prefix|)
    ensures FindMarkerFrom(prefix + rest, 0) == Some(|prefix|)
  {
    forall i: nat | i < |prefix|
      ensures !MarkerAt(prefix + rest, i)
    {
      NoMarkerBefore(prefix, rest, i);
    }
  }

  /**
   * A message of the form `prefix + "position " + n + suffix`, where the
   * prefix does not itself contain `position ` and the suffix does not
   * continue the numeral, yields exactly the offset `n`.
   */
  lemma EmbeddedPositionIsRead(prefix: string, n: nat, suffix: string)
    requires forall i: nat :: !OccursAt(prefix, i)
    requires suffix == [] || !IsDigit(suffix[0])
    ensures MessagePosition(prefix + POSITION_MARKER + DecimalDigits(n) + suffix) == Some(n)
  {
    var digits := DecimalDigits(n);
    var rest := POSITION_MARKER + digits + suffix;
    var msg := prefix + POSITION_MARKER + digits + suffix;
    var start := |prefix| + |POSITION_MARKER|;
    MessageLayout(prefix, digits, suffix);
    assert msg[start] == digits[0];
    FirstMarkerAfter(prefix, rest);
    DigitRunOfNumeral(msg, start, digits);
    DecimalRoundTrip(n);
  }
}
