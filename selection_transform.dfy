/**
 * The selection-aware transforms `formatJsonText` and `compactJsonText`, and
 * the arithmetic the command handlers do with their failure offset. A
 * transform parses `text` with the locator; on failure it re-expresses the
 * locator's offset relative to the selection (when the selection is not the
 * whole text); on success it re-serialises the parsed value. The handler then
 * adds the selection's start back to place the cursor.
 */
module SelectionTransform {
  import opened Options
  import opened JsText
  import opened JsonEngine
  import opened ErrorMessages
  import opened ErrorLocator

  /** A transform's result: the new text, or a message and a selection-relative offset. */
  datatype TransformResult = Transformed(text: Text) | TransformFailed(message: string, position: nat)

  const FORMAT_FAILED: string := "Failed to format JSON"
  const COMPACT_FAILED: string := "Failed to compact JSON"

  /**
   * The locator's offset `position` into `text`, re-expressed relative to the
   * selection. When the selection is not the whole text, an offset inside it
   * becomes its distance from the selection start, which the start recovers,
   * and an offset outside it becomes 0, the selection start.
   */
  function RemapPosition(text: Text, selectionText: Text, selectionStartOffset: nat, position: nat): (r: nat)
    ensures selectionText == text ==> r == position
    ensures selectionText != text && selectionStartOffset <= position < selectionStartOffset + |selectionText| ==>
      r < |selectionText| && selectionStartOffset + r == position
    ensures selectionText != text && !(selectionStartOffset <= position < selectionStartOffset + |selectionText|) ==>
      r == 0
  {
    if selectionText != text then
      if position >= selectionStartOffset && position < selectionStartOffset + |selectionText| then
        position - selectionStartOffset
      else
        0
    else
      position
  }

  /** `formatJsonText`: parse `text`, then `JSON.stringify(value, null, 2)`. */
  function FormatJsonText(e: Engine, text: Text, selectionText: Text, selectionStartOffset: nat): (r: TransformResult)
    ensures r.Transformed? <==> Accepts(e, text) && e.stringifyIndented(e.parse(text).value).Serialized?
    ensures r.Transformed? ==> r.text == e.stringifyIndented(e.parse(text).value).text
    ensures !Accepts(e, text) ==>
      var located := Locate(e, text, FourLayers);
      r == TransformFailed(located.message, RemapPosition(text, selectionText, selectionStartOffset, located.position))
    ensures Accepts(e, text) && r.TransformFailed? ==>
      r == TransformFailed(ThrownMessage(e.stringifyIndented(e.parse(text).value).thrown, FORMAT_FAILED), 0)
  {
    match Locate(e, text, FourLayers)
    case Failure(message, position) =>
      TransformFailed(message, RemapPosition(text, selectionText, selectionStartOffset, position))
    case Success(value) =>
      match e.stringifyIndented(value)
      case Serialized(result) => Transformed(result)
      case StringifyThrew(thrown) => TransformFailed(ThrownMessage(thrown, FORMAT_FAILED), 0)
  }

  /** `compactJsonText`: parse `text`, then `JSON.stringify(value)`. */
  function CompactJsonText(e: Engine, text: Text, selectionText: Text, selectionStartOffset: nat): (r: TransformResult)
    ensures r.Transformed? <==> Accepts(e, text) && e.stringifyCompact(e.parse(text).value).Serialized?
    ensures r.Transformed? ==> r.text == e.stringifyCompact(e.parse(text).value).text
    ensures !Accepts(e, text) ==>
      var located := Locate(e, text, FourLayers);
      r == TransformFailed(located.message, RemapPosition(text, selectionText, selectionStartOffset, located.position))
    ensures Accepts(e, text) && r.TransformFailed? ==>
      r == TransformFailed(ThrownMessage(e.stringifyCompact(e.parse(text).value).thrown, COMPACT_FAILED), 0)
  {
    match Locate(e, text, FourLayers)
    case Failure(message, position) =>
      TransformFailed(message, RemapPosition(text, selectionText, selectionStartOffset, position))
    case Success(value) =>
      match e.stringifyCompact(value)
      case Serialized(result) => Transformed(result)
      case StringifyThrew(thrown) => TransformFailed(ThrownMessage(thrown, COMPACT_FAILED), 0)
  }

  /** Format and compact fail identically on the same arguments; they differ only in how they serialise. */
  lemma FormatAndCompactFailAlike(e: Engine, text: Text, selectionText: Text, selectionStartOffset: nat)
    requires !Accepts(e, text)
    ensures FormatJsonText(e, text, selectionText, selectionStartOffset)
         == CompactJsonText(e, text, selectionText, selectionStartOffset)
  {
  }

  /** The document offset the handler puts the cursor at after a failed transform. */
  function CursorOffset(selectionIsEmpty: bool, selectionStartOffset: nat, resultPosition: nat): nat {
    if !selectionIsEmpty then selectionStartOffset + resultPosition else resultPosition
  }

  /**
   * For a true selection, adding the selection start back to the remapped
   * offset recovers the locator's own offset when it lay inside the
   * selection, and lands on the selection start when it lay outside.
   */
  lemma CursorRecoversLocatedOffset(text: Text, selectionText: Text, selectionStartOffset: nat, position: nat)
    requires selectionText != text
    ensures var cursor := CursorOffset(false, selectionStartOffset, RemapPosition(text, selectionText, selectionStartOffset, position));
      if selectionStartOffset <= position < selectionStartOffset + |selectionText| then cursor == position
      else cursor == selectionStartOffset
  {
  }

  datatype Command = Format | Compact

  /**
   * What a handler passes as the text to parse: the whole document (the
   * handlers in src/extension.ts and src/commands/compactJsonCommand.ts) or
   * the selected text alone (src/commands/formatJsonCommand.ts, which passes
   * the selection for both arguments).
   */
  datatype CallPattern = WholeDocument | SelectionOnly

  function RunCommand(e: Engine, command: Command, text: Text, selectionText: Text, selectionStartOffset: nat): TransformResult {
    match command
    case Format => FormatJsonText(e, text, selectionText, selectionStartOffset)
    case Compact => CompactJsonText(e, text, selectionText, selectionStartOffset)
  }

  /**
   * A format or compact command run on `document` with the editor selection
   * `[selectionStart, selectionEnd)`: the offset the cursor moves to when the
   * transform fails, or None when it succeeds. An empty selection stands for
   * the whole document.
   *
   * When the whole document is parsed, the cursor lands on the locator's
   * offset whenever that offset lies in the selection (or the selection is
   * empty or covers the document), and on the selection start otherwise.
   */
  function ErrorCursor(e: Engine, command: Command, pattern: CallPattern, document: Text, selectionStart: nat, selectionEnd: nat): (r: Option<nat>)
    requires selectionStart <= selectionEnd <= |document|
    ensures pattern == WholeDocument ==> (r.Some? <==> RunCommand(e, command, document, document, 0).TransformFailed?)
    ensures pattern == WholeDocument && !Accepts(e, document) ==>
      var p := Locate(e, document, FourLayers).position;
      r == Some(
        if selectionStart == selectionEnd || selectionEnd - selectionStart == |document| || selectionStart <= p < selectionEnd then p
        else selectionStart)
  {
    var isEmpty := selectionStart == selectionEnd;
    var selectedText := if !isEmpty then document[selectionStart..selectionEnd] else document;
    var selectionStartOffset := if !isEmpty then selectionStart else 0;
    var text := if pattern == WholeDocument then document else selectedText;
    match RunCommand(e, command, text, selectedText, selectionStartOffset)
    case Transformed(_) => None
    case TransformFailed(_, position) => Some(CursorOffset(isEmpty, selectionStartOffset, position))
  }

  /**
   * When the selected text alone is parsed, the remap is inert and the
   * cursor goes to the selection start plus the locator's offset into the
   * selection; when that offset comes from layers 2 to 4 it lies inside a
   * non-empty selection.
   */
  lemma SelectionOnlyCursorInsideSelection(e: Engine, command: Command, document: Text, selectionStart: nat, selectionEnd: nat)
    requires selectionStart < selectionEnd <= |document|
    requires !Accepts(e, document[selectionStart..selectionEnd])
    ensures var selected := document[selectionStart..selectionEnd];
      var located := Locate(e, selected, FourLayers);
      && ErrorCursor(e, command, SelectionOnly, document, selectionStart, selectionEnd) == Some(selectionStart + located.position)
      && (e.parse(selected).thrown.ErrorInstance? && MessagePosition(located.message).None? ==>
            selectionStart <= selectionStart + located.position < selectionEnd)
  {
    var selected := document[selectionStart..selectionEnd];
    var located := Locate(e, selected, FourLayers);
    assert RemapPosition(selected, selected, selectionStart, located.position) == located.position;
    assert RunCommand(e, command, selected, selected, selectionStart) == TransformFailed(located.message, located.position);
  }

  /**
   * The older script parses the selection with the three-layer locator and
   * adds the selection start; on the heuristic path the result lies inside a
   * non-empty selection.
   */
  lemma ThreeLayerSelectionOffsetInside(e: Engine, selected: Text, selectionStartOffset: nat)
    requires |selected| > 0 && e.parse(selected).ParseThrew? && e.parse(selected).thrown.ErrorInstance?
    requires MessagePosition(e.parse(selected).thrown.message).None?
    ensures var offset := selectionStartOffset + Locate(e, selected, ThreeLayers).position;
      selectionStartOffset <= offset < selectionStartOffset + |selected|
  {
  }
}
