/**
 * The content rule both editors apply before writing (src/screens/CreateScreen.tsx and
 * src/screens/EditScreen.tsx): the text, trimmed, must be at least five characters long, and
 * it is the trimmed text that is stored.
 */
module ContentRule {
  import opened JsString

  const MinContentLength: nat := 5

  /** `content.trim().length >= 5`. */
  predicate HasEnoughContent(content: string) {
    |Trim(content)| >= MinContentLength
  }

  /**
   * What an editor stores for accepted text is already trimmed and itself passes the rule, so
   * every stored content has trimmed length at least five.
   */
  lemma StoredContentPasses(content: string)
    requires HasEnoughContent(content)
    ensures Trim(Trim(content)) == Trim(content)
    ensures HasEnoughContent(Trim(content))
  {
    TrimIdempotent(content);
  }

  /** Surrounding white space neither helps nor hurts: the rule judges only the text inside it. */
  lemma PaddingDoesNotCount(content: string, before: string, after: string)
    requires forall k :: 0 <= k < |before| ==> IsWhiteSpace(before[k])
    requires forall k :: 0 <= k < |after| ==> IsWhiteSpace(after[k])
    ensures HasEnoughContent(before + Trim(content) + after) <==> HasEnoughContent(content)
  {
    TrimPadded(before, Trim(content), after);
  }
}
