/** The list row of src/components/DiaryItem.tsx: a content preview and the id it reports when pressed. */
module DiaryItem {
  import opened Types
  import opened DateUtil

  const PreviewLimit: nat := 40

  /** `content.length > 40 ? content.substring(0, 40) + "..." : content`. */
  function PreviewContent(content: string): (preview: string)
    ensures |content| <= PreviewLimit ==> preview == content
    ensures |content| > PreviewLimit ==> preview == content[..PreviewLimit] + "..."
  {
    if |content| > PreviewLimit then content[..PreviewLimit] + "..." else content
  }

  /** The preview is never longer than 43 and always starts with the first min(40, n) characters. */
  lemma PreviewBounds(content: string)
    ensures |PreviewContent(content)| <= PreviewLimit + 3
    ensures var n := if |content| < PreviewLimit then |content| else PreviewLimit;
      n <= |PreviewContent(content)| && PreviewContent(content)[..n] == content[..n]
  {
  }

  /** What a row shows and reports. */
  datatype ItemView = ItemView(dateLine: string, borderColor: string, icon: string, emotionName: string, preview: string, pressId: string)

  /**
   * The row for an entry: the Korean date line, border and label from its emotion copy, the
   * preview, and its own id for `onPress`; `day` is the calendar reading `new Date(entry.date)`
   * gives in the device's time zone.
   */
  function DiaryItemView(entry: DiaryEntry, day: LocalDate): (v: ItemView)
    ensures v.pressId == entry.id
    ensures v.dateLine == FormatDateToKorean(day)
    ensures v.borderColor == entry.emotion.color && v.emotionName == entry.emotion.name
    ensures v.icon == entry.emotion.icon
    ensures v.preview == PreviewContent(entry.content)
  {
    ItemView(FormatDateToKorean(day), entry.emotion.color, entry.emotion.icon, entry.emotion.name, PreviewContent(entry.content), entry.id)
  }
}
