/**
 * The offset / (line, character) conversions of the debug scripts,
 * `positionAt` and `offsetAt`, which stand in for the editor's own. Both
 * count code units and start a new line after each line feed; both scripts
 * carry identical copies.
 */
module LineColumn {
  import opened JsText

  datatype Position = Position(line: nat, character: nat)

  /** The running position after reading one more code unit. */
  function Advance(p: Position, c: CodeUnit): Position {
    if c == LINE_FEED then Position(p.line + 1, 0) else Position(p.line, p.character + 1)
  }

  /** The running position after reading `text[..n]`. */
  function PositionOf(text: Text, n: nat): Position
    requires n <= |text|
  {
    if n == 0 then Position(0, 0) else Advance(PositionOf(text, n - 1), text[n - 1])
  }

  /** The number of line feeds in `s`. */
  function CountLineFeeds(s: Text): nat {
    if s == [] then 0
    else CountLineFeeds(s[..|s| - 1]) + (if s[|s| - 1] == LINE_FEED then 1 else 0)
  }

  /** Where the last line of `s` starts: just after its last line feed, or 0. */
  function LineStart(s: Text): (r: nat)
    ensures r <= |s|
    ensures r > 0 ==> s[r - 1] == LINE_FEED
    ensures forall k :: r <= k < |s| ==> s[k] != LINE_FEED
  {
    if s == [] then 0
    else if s[|s| - 1] == LINE_FEED then |s|
    else LineStart(s[..|s| - 1])
  }

  /** `p` comes strictly before `q` in reading order. */
  predicate Before(p: Position, q: Position) {
    p.line < q.line || (p.line == q.line && p.character < q.character)
  }

  /**
   * The running position after `n` code units: the line is the number of line
   * feeds among them, the character the number of code units after the last one.
   */
  lemma {:induction false} PositionOfCounts(text: Text, n: nat)
    requires n <= |text|
    ensures PositionOf(text, n) == Position(CountLineFeeds(text[..n]), n - LineStart(text[..n]))
  {
    if n > 0 {
      PositionOfCounts(text, n - 1);
      assert text[..n][..n - 1] == text[..n - 1];
    }
  }

  /** Reading more code units always moves strictly forward. */
  lemma {:induction false} PositionOfIncreasing(text: Text, i: nat, j: nat)
    requires i < j <= |text|
    ensures Before(PositionOf(text, i), PositionOf(text, j))
    decreases j - i
  {
    if i + 1 < j {
      PositionOfIncreasing(text, i + 1, j);
    }
  }

  /** `positionAt(offset, text)`: the offset is clamped to `[0, |text|]` by the loop bounds. */
  method PositionAt(offset: int, text: Text) returns (p: Position)
    ensures p == PositionOf(text, if offset <= 0 then 0 else if offset < |text| then offset else |text|)
  {
    var line := 0;
    var character := 0;
    var i := 0;
    while i < offset && i < |text|
      invariant 0 <= i <= |text|
      invariant i == 0 || i <= offset
      invariant Position(line, character) == PositionOf(text, i)
    {
      if text[i] == LINE_FEED {
        line := line + 1;
        character := 0;
      } else {
        character := character + 1;
      }
      i := i + 1;
    }
    return Position(line, character);
  }

  /** The least `k >= from` below `|text|` whose running position is `pos`, or `|text|` when there is none. */
  function OffsetFrom(text: Text, pos: Position, from: nat): (r: nat)
    requires from <= |text|
    ensures from <= r <= |text|
    ensures r < |text| ==> PositionOf(text, r) == pos
    ensures forall k :: from <= k < r ==> PositionOf(text, k) != pos
    decreases |text| - from
  {
    if from == |text| then |text|
    else if PositionOf(text, from) == pos then from
    else OffsetFrom(text, pos, from + 1)
  }

  /** `offsetAt(position, text)`: walk the text until the running position matches. */
  method OffsetAt(pos: Position, text: Text) returns (offset: nat)
    ensures offset == OffsetFrom(text, pos, 0)
  {
    offset := 0;
    var currentLine := 0;
    var currentChar := 0;
    var i := 0;
    while i < |text|
      invariant 0 <= i <= |text| && offset == i
      invariant Position(currentLine, currentChar) == PositionOf(text, i)
      invariant OffsetFrom(text, pos, i) == OffsetFrom(text, pos, 0)
    {
      if currentLine == pos.line && currentChar == pos.character {
        return offset;
      }
      if text[i] == LINE_FEED {
        currentLine := currentLine + 1;
        currentChar := 0;
      } else {
        currentChar := currentChar + 1;
      }
      offset := offset + 1;
      i := i + 1;
    }
  }

  /** `offsetAt(positionAt(o)) == o` for every offset `o` from 0 to `|text|`. */
  lemma OffsetAtInvertsPositionAt(text: Text, o: nat)
    requires o <= |text|
    ensures OffsetFrom(text, PositionOf(text, o), 0) == o
  {
    forall k: nat | k < o
      ensures PositionOf(text, k) != PositionOf(text, o)
    {
      PositionOfIncreasing(text, k, o);
    }
  }

  /** A line number past the last line is not found: `offsetAt` returns `|text|`. */
  lemma OffsetAtBeyondLastLine(text: Text, pos: Position)
    requires pos.line > CountLineFeeds(text)
    ensures OffsetFrom(text, pos, 0) == |text|
  {
    PositionOfCounts(text, |text|);
    assert text[..|text|] == text;
    forall k: nat | k < |text|
      ensures PositionOf(text, k) != pos
    {
      PositionOfIncreasing(text, k, |text|);
    }
  }

  /**
   * A character past the end of its line is not clamped to the line end:
   * when `end` ends a line (a line feed sits there, or the text ends there)
   * and `pos` is further right on that line, `offsetAt` returns `|text|`.
   */
  lemma OffsetAtPastLineEnd(text: Text, end: nat, pos: Position)
    requires end <= |text| && (end == |text| || text[end] == LINE_FEED)
    requires pos.line == PositionOf(text, end).line && pos.character > PositionOf(text, end).character
    ensures OffsetFrom(text, pos, 0) == |text|
  {
    forall k: nat | k < |text|
      ensures PositionOf(text, k) != pos
    {
      if k < end {
        PositionOfIncreasing(text, k, end);
      } else if k > end + 1 {
        PositionOfIncreasing(text, end + 1, k);
      }
    }
  }
}
