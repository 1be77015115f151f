/**
 * The error-position locator `parseJsonWithPosition`. When `JSON.parse`
 * rejects a text, it works out a best-effort offset of the fault in four
 * layers, in this order:
 *   1. the offset written after `position ` in the engine's message;
 *   2. otherwise, the least `i` whose prefix `text[..i + 1]` is rejected;
 *   3. the double-comma override: for the first comma, white space, comma,
 *      the comma whose deletion makes the text parse (the second by default);
 *   4. when the position is still 0, the first non-white-space index.
 * The copy in debug-position.js has no layer 3; the other three copies
 * (src/utils/jsonParser.ts, src/extension.ts, debug-position-v2.js) have all four.
 */
module ErrorLocator {
  import opened Options
  import opened JsText
  import opened JsonEngine
  import opened ErrorMessages
  import opened DoubleComma

  /** Which copy of the locator runs: with or without the double-comma layer. */
  datatype Layers = ThreeLayers | FourLayers

  /** The locator's result: the parsed value, or a message and an offset into the text. */
  datatype ParseOutcome = Success(value: JsonValue) | Failure(message: string, position: nat)

  const UNKNOWN_ERROR: string := "Unknown error occurred"

  /** `JSON.parse(text.substring(0, i + 1))` returns without throwing. */
  predicate PrefixAccepted(e: Engine, text: Text, i: nat)
    requires i < |text|
  {
    Accepts(e, text[..i + 1])
  }

  /** Layer 2 from `from` on: the least `i >= from` whose prefix of length `i + 1` is rejected. */
  function ProbeFrom(e: Engine, text: Text, from: nat): (r: Option<nat>)
    requires from <= |text|
    ensures r.Some? ==> from <= r.value < |text| && !PrefixAccepted(e, text, r.value)
    ensures r.Some? ==> forall j :: from <= j < r.value ==> PrefixAccepted(e, text, j)
    ensures r.None? ==> forall j :: from <= j < |text| ==> PrefixAccepted(e, text, j)
    decreases |text| - from
  {
    if from == |text| then None
    else if !PrefixAccepted(e, text, from) then Some(from)
    else ProbeFrom(e, text, from + 1)
  }

  /** The position after layer 2: the probe's index, or 0 when every prefix parses. */
  function ProbedPosition(e: Engine, text: Text): (r: nat)
    ensures |text| > 0 ==> r < |text|
    ensures r > 0 ==> r < |text| && !PrefixAccepted(e, text, r) && forall j :: 0 <= j < r ==> PrefixAccepted(e, text, j)
  {
    match ProbeFrom(e, text, 0)
    case Some(i) => i
    case None => 0
  }

  /** The choice between the two commas of a match, by test-deleting each. */
  function CommaChoice(e: Engine, text: Text, first: nat, second: nat): (r: nat)
    requires first < second < |text|
    ensures r == first || r == second
    ensures r == first <==> !Accepts(e, RemoveAt(text, second)) && Accepts(e, RemoveAt(text, first))
  {
    if Accepts(e, RemoveAt(text, second)) then second
    else if Accepts(e, RemoveAt(text, first)) then first
    else second
  }

  /**
   * Layer 3: when `/,\s*,/` matches, the position becomes one of the two
   * commas of the first match, whatever the earlier layers found.
   */
  function CommaOverride(e: Engine, text: Text, position: nat): (r: nat)
    ensures FindDoubleComma(text).None? ==> r == position
    ensures FindDoubleComma(text).Some? ==> r < |text| && text[r] == COMMA
  {
    match FindDoubleComma(text)
    case None => position
    case Some(first) =>
      IndexOfFindsClosingComma(text, first);
      CommaChoice(e, text, first, IndexOf(text, COMMA, first + 1) as nat)
  }

  /**
   * Layer 4: a position of 0 is replaced by the index of the first code unit
   * that is not white space; it stays 0 when there is none.
   */
  function WhiteSpaceFallback(text: Text, position: nat): (r: nat)
    ensures position != 0 ==> r == position
    ensures position == 0 && r != 0 ==> r < |text| && !IsWhiteSpace(text[r]) && AllWhiteSpace(text, 0, r)
    ensures position == 0 && r == 0 ==> |text| == 0 || !IsWhiteSpace(text[0]) || AllWhiteSpace(text, 0, |text|)
  {
    if position != 0 then position
    else
      match FirstNonWhiteSpaceFrom(text, 0)
      case Some(k) => k
      case None => 0
  }

  /**
   * Layers 2 to 4, taken when the message names no position. The result is
   * an index into the text, or 0 for the empty text.
   */
  function HeuristicPosition(e: Engine, text: Text, layers: Layers): (r: nat)
    ensures |text| == 0 ==> r == 0
    ensures |text| > 0 ==> r < |text|
  {
    var probed := ProbedPosition(e, text);
    var overridden := if layers == FourLayers then CommaOverride(e, text, probed) else probed;
    WhiteSpaceFallback(text, overridden)
  }

  /** What `parseJsonWithPosition(text)` returns. */
  function Locate(e: Engine, text: Text, layers: Layers): (r: ParseOutcome)
    ensures r.Success? <==> Accepts(e, text)
    ensures r.Success? ==> r.value == e.parse(text).value
    ensures r.Failure? && e.parse(text).thrown.OtherValue? ==> r == Failure(UNKNOWN_ERROR, 0)
    ensures r.Failure? && e.parse(text).thrown.ErrorInstance? ==> r.message == e.parse(text).thrown.message
    ensures r.Failure? && e.parse(text).thrown.ErrorInstance? && MessagePosition(r.message).Some? ==>
      r.position == MessagePosition(r.message).value
    ensures r.Failure? && e.parse(text).thrown.ErrorInstance? && MessagePosition(r.message).None? ==>
      (if |text| == 0 then r.position == 0 else r.position < |text|)
  {
    match e.parse(text)
    case Parsed(value) => Success(value)
    case ParseThrew(OtherValue) => Failure(UNKNOWN_ERROR, 0)
    case ParseThrew(ErrorInstance(message)) =>
      match MessagePosition(message)
      case Some(p) => Failure(message, p)
      case None => Failure(message, HeuristicPosition(e, text, layers))
  }

  /** Layer 2 as the source runs it: parse ever longer prefixes until one is rejected. */
  method ProbePrefixes(e: Engine, text: Text) returns (position: nat)
    ensures position == ProbedPosition(e, text)
  {
    position := 0;
    var i := 0;
    while i < |text|
      invariant 0 <= i <= |text|
      invariant ProbeFrom(e, text, i) == ProbeFrom(e, text, 0)
    {
      if !e.parse(text[..i + 1]).Parsed? {
        position := i;
        return;
      }
      i := i + 1;
    }
  }

  /** Layer 4 as the source runs it: scan for the first code unit that `\s` does not match. */
  method FirstNonWhiteSpaceIndex(text: Text) returns (position: nat)
    ensures position == WhiteSpaceFallback(text, 0)
  {
    position := 0;
    var j := 0;
    while j < |text|
      invariant 0 <= j <= |text|
      invariant FirstNonWhiteSpaceFrom(text, j) == FirstNonWhiteSpaceFrom(text, 0)
    {
      if !IsWhiteSpace(text[j]) {
        position := j;
        return;
      }
      j := j + 1;
    }
  }

  /** `parseJsonWithPosition`: the locator as the source runs it, with its two scanning loops. */
  method ParseJsonWithPosition(e: Engine, text: Text, layers: Layers) returns (r: ParseOutcome)
    ensures r == Locate(e, text, layers)
  {
    var attempt := e.parse(text);
    if attempt.Parsed? {
      return Success(attempt.value);
    }
    if attempt.thrown.OtherValue? {
      return Failure(UNKNOWN_ERROR, 0);
    }
    var message := attempt.thrown.message;
    var positionMatch := MessagePosition(message);
    if positionMatch.Some? {
      return Failure(message, positionMatch.value);
    }

    var position := ProbePrefixes(e, text);
    if layers == FourLayers {
      var commaMatch := FindDoubleComma(text);
      if commaMatch.Some? {
        var firstCommaPos := commaMatch.value;
        IndexOfFindsClosingComma(text, firstCommaPos);
        var secondCommaPos := IndexOf(text, COMMA, firstCommaPos + 1) as nat;
        var test1 := RemoveAt(text, secondCommaPos);
        var test2 := RemoveAt(text, firstCommaPos);
        if e.parse(test1).Parsed? {
          position := secondCommaPos;
        } else if e.parse(test2).Parsed? {
          position := firstCommaPos;
        } else {
          position := secondCommaPos;
        }
      }
    }
    if position == 0 {
      position := FirstNonWhiteSpaceIndex(text);
    }
    return Failure(message, position);
  }

  /**
   * On a rejected non-empty text the probe always stops: the full text is
   * its own longest prefix, so some prefix is rejected, and the probe finds
   * the least one.
   */
  lemma ProbeStopsInsideText(e: Engine, text: Text)
    requires !Accepts(e, text) && |text| > 0
    ensures var probe := ProbeFrom(e, text, 0);
      && probe.Some?
      && probe.value < |text|
      && !PrefixAccepted(e, text, probe.value)
      && forall j :: 0 <= j < probe.value ==> PrefixAccepted(e, text, j)
  {
    assert text[..|text|] == text;
    assert !PrefixAccepted(e, text, |text| - 1);
  }

  /**
   * When the text holds a comma, white space, comma, the four-layer result
   * is the second comma of the first such match if deleting it makes the
   * text parse, else the first comma if deleting that one does, else the
   * second comma, whatever the probe found.
   */
  lemma DoubleCommaOverridesProbe(e: Engine, text: Text, first: nat)
    requires FindDoubleComma(text) == Some(first)
    ensures var second := IndexOf(text, COMMA, first + 1);
      && first < second < |text|
      && HeuristicPosition(e, text, FourLayers) ==
        if Accepts(e, RemoveAt(text, second)) then second
        else if Accepts(e, RemoveAt(text, first)) then first
        else second
  {
    IndexOfFindsClosingComma(text, first);
    assert !IsWhiteSpace(COMMA);
    if first == 0 {
      assert FirstNonWhiteSpaceFrom(text, 0) == Some(0);
    }
  }

  /** Whenever the double-comma layer fires, the reported offset holds a comma. */
  lemma DoubleCommaPositionIsComma(e: Engine, text: Text)
    requires FindDoubleComma(text).Some?
    ensures var p := HeuristicPosition(e, text, FourLayers); p < |text| && text[p] == COMMA
  {
    DoubleCommaOverridesProbe(e, text, FindDoubleComma(text).value);
    IndexOfFindsClosingComma(text, FindDoubleComma(text).value);
  }

  /** On a text with no comma, white space, comma, the three-layer copy agrees with the four-layer one. */
  lemma ThreeLayersAgreeWithoutDoubleComma(e: Engine, text: Text)
    requires FindDoubleComma(text).None?
    ensures Locate(e, text, ThreeLayers) == Locate(e, text, FourLayers)
  {
  }
}
