/** The new-entry editor of src/screens/CreateScreen.tsx: its state, its validation and its save. */
module CreateScreen {
  import opened Types
  import opened JsString
  import opened DateUtil
  import opened Storage
  import opened ContentRule

  /**
   * The clock readings `handleSave` makes: `Date.now()` for the id, today's calendar day for
   * `getCurrentDate()`, and the two separate `new Date().toISOString()` calls, which need not agree.
   */
  datatype Clock = Clock(nowMillis: nat, today: LocalDate, createdAt: string, updatedAt: string)

  /** The dialogs `handleSave` can end with; confirming `SavedAlert` navigates back. */
  datatype CreateAlert = ChooseEmotionAlert | ContentTooShortAlert | SavedAlert | SaveErrorAlert

  /** The two guards in order: no emotion first, whatever the text; then the trimmed length. */
  function CreateCheck(selected: Option<Emotion>, content: string): (r: Option<CreateAlert>)
    ensures selected.None? ==> r == Some(ChooseEmotionAlert)
    ensures selected.Some? ==> (r.None? <==> HasEnoughContent(content))
    ensures selected.Some? && r.Some? ==> r == Some(ContentTooShortAlert)
  {
    if selected.None? then Some(ChooseEmotionAlert)
    else if |Trim(content)| < MinContentLength then Some(ContentTooShortAlert)
    else None
  }

  /** The record `handleSave` builds from the selection, the text and the clock. */
  function NewEntry(emotion: Emotion, content: string, clock: Clock): (e: DiaryEntry)
    ensures e.id == NatString(clock.nowMillis) && e.date == GetCurrentDate(clock.today)
    ensures e.emotion == emotion && e.content == Trim(content)
    ensures e.createdAt == clock.createdAt && e.updatedAt == clock.updatedAt
  {
    DiaryEntry(NatString(clock.nowMillis), GetCurrentDate(clock.today), emotion, Trim(content),
      clock.createdAt, clock.updatedAt)
  }

  /** An entry that passes the guards stores the selected emotion and trimmed text of length at least five. */
  lemma AcceptedEntryShape(selected: Option<Emotion>, content: string, clock: Clock)
    requires CreateCheck(selected, content).None?
    ensures selected.Some?
    ensures var e := NewEntry(selected.value, content, clock);
      && e.emotion == selected.value
      && Trim(e.content) == e.content && |e.content| >= MinContentLength
      && (FourDigitYear(clock.today) ==> ParseDate(e.date) == Some(Ymd(clock.today.year, clock.today.monthIndex + 1, clock.today.day)))
  {
    StoredContentPasses(content);
  }

  /** The component state: the chosen emotion and the text box. */
  class CreateState {
    var selectedEmotion: Option<Emotion>
    var content: string

    constructor ()
      ensures selectedEmotion == None && content == ""
    {
      selectedEmotion := None;
      content := "";
    }

    method HandleEmotionSelect(emotion: Emotion)
      modifies this`selectedEmotion
      ensures selectedEmotion == Some(emotion)
    {
      selectedEmotion := Some(emotion);
    }

    method HandleContentChange(text: string)
      modifies this`content
      ensures content == text
    {
      content := text;
    }

    /**
     * `handleSave`: a failed guard shows its alert and leaves the store alone; otherwise the
     * new record is appended, and the write's outcome decides between the success alert
     * (whose confirmation navigates back) and the error alert.
     */
    method HandleSave(store: EntryStore, clock: Clock, writeOk: bool) returns (alert: CreateAlert)
      modifies store
      ensures CreateCheck(selectedEmotion, content).Some? ==>
        alert == CreateCheck(selectedEmotion, content).value && store.slot == old(store.slot)
      ensures CreateCheck(selectedEmotion, content).None? ==>
        alert == (if writeOk then SavedAlert else SaveErrorAlert)
      ensures CreateCheck(selectedEmotion, content).None? && writeOk ==>
        store.slot == Stored(old(store.Entries()) + [NewEntry(selectedEmotion.value, content, clock)])
      ensures !writeOk ==> store.slot == old(store.slot)
    {
      if selectedEmotion.None? {
        return ChooseEmotionAlert;
      }
      if |Trim(content)| < MinContentLength {
        return ContentTooShortAlert;
      }
      var newEntry := NewEntry(selectedEmotion.value, content, clock);
      var res := store.SaveDiaryEntry(newEntry, writeOk);
      alert := if res.Pass? then SavedAlert else SaveErrorAlert;
    }
  }

  /** Saving without choosing an emotion is refused whatever was typed, and nothing is written. */
  method SaveWithoutEmotion(slot: Slot, text: string, clock: Clock) returns (alert: CreateAlert, after: Slot)
    ensures alert == ChooseEmotionAlert && after == slot
  {
    var store := new EntryStore(slot);
    var screen := new CreateState();
    screen.HandleContentChange(text);
    alert := screen.HandleSave(store, clock, true);
    after := store.slot;
  }

  /** A successful save grows the stored list by exactly one entry, at the end, holding the trimmed text. */
  method WriteNewDiary(entries: seq<DiaryEntry>, emotion: Emotion, text: string, clock: Clock)
    returns (alert: CreateAlert, stored: seq<DiaryEntry>)
    requires HasEnoughContent(text)
    ensures alert == SavedAlert
    ensures |stored| == |entries| + 1 && stored[..|entries|] == entries
    ensures stored[|entries|].content == Trim(text) && HasEnoughContent(stored[|entries|].content)
    ensures stored[|entries|].emotion == emotion
  {
    var store := new EntryStore(Stored(entries));
    var screen := new CreateState();
    screen.HandleEmotionSelect(emotion);
    screen.HandleContentChange(text);
    ghost var e := NewEntry(emotion, text, clock);
    alert := screen.HandleSave(store, clock, true);
    assert store.slot == Stored(entries + [e]);
    stored := store.GetDiaryEntries();
    StoredContentPasses(text);
    assert stored[|entries|] == e;
  }
}
