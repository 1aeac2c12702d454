/** The editor of an existing entry, src/screens/EditScreen.tsx: its load, its guards and its update. */
module EditScreen {
  import opened Types
  import opened JsString
  import opened Storage
  import opened ContentRule

  /** The dialogs `handleSave` can show; confirming `UpdatedAlert` navigates back. */
  datatype EditAlert = ContentTooShortAlert | UpdatedAlert | UpdateErrorAlert

  /** The three renderings: spinner, "entry not found", or the form. */
  datatype EditView = Loading | NotFound | Form(entry: DiaryEntry)

  /**
   * `{ ...diaryEntry, emotion, content: content.trim(), updatedAt }`: identity, day and creation
   * time are carried over; emotion, text and modification time are replaced.
   */
  function EditedEntry(loaded: DiaryEntry, emotion: Emotion, content: string, updatedAt: string): (e: DiaryEntry)
    ensures e.id == loaded.id && e.date == loaded.date && e.createdAt == loaded.createdAt
    ensures e.emotion == emotion && e.content == Trim(content) && e.updatedAt == updatedAt
  {
    loaded.(emotion := emotion, content := Trim(content), updatedAt := updatedAt)
  }

  /** The spinner while loading, the not-found view when nothing was loaded, else the form. */
  function SelectEditView(loading: bool, diaryEntry: Option<DiaryEntry>): (v: EditView)
    ensures loading <==> v.Loading?
    ensures !loading ==> (v.NotFound? <==> diaryEntry.None?)
    ensures v.Form? ==> diaryEntry == Some(v.entry)
  {
    if loading then Loading
    else if diaryEntry.None? then NotFound
    else Form(diaryEntry.value)
  }

  /**
   * Editing the entry a lookup of `id` returned and writing it back: the same lookup then
   * returns the edited record, and lookups of every other id are unaffected.
   */
  lemma EditedEntryFoundAfterUpdate(entries: seq<DiaryEntry>, id: string, emotion: Emotion, content: string, updatedAt: string)
    requires FindById(entries, id).Some?
    ensures var e := EditedEntry(FindById(entries, id).value, emotion, content, updatedAt);
      FindById(ReplaceById(entries, e), id) == Some(e)
    ensures var e := EditedEntry(FindById(entries, id).value, emotion, content, updatedAt);
      forall other :: other != id ==> FindById(ReplaceById(entries, e), other) == FindById(entries, other)
  {
    var found := FindById(entries, id);
    var e := EditedEntry(found.value, emotion, content, updatedAt);
    assert e.id == id;
    FindAfterReplace(entries, e);
    forall other | other != id
      ensures FindById(ReplaceById(entries, e), other) == FindById(entries, other)
    {
      FindOtherAfterReplace(entries, e, other);
    }
  }

  /** The component state; `id` is the route parameter. */
  class EditState {
    const id: string
    var diaryEntry: Option<DiaryEntry>
    var content: string
    var selectedEmotion: Option<Emotion>
    var loading: bool

    constructor (id: string)
      ensures this.id == id
      ensures diaryEntry == None && content == "" && selectedEmotion == None && loading
    {
      this.id := id;
      diaryEntry := None;
      content := "";
      selectedEmotion := None;
      loading := true;
    }

    /**
     * `loadDiaryEntry`: a found entry fills the entry, the text box and the selection; a
     * missing one leaves all three as they were. The flag is down afterwards either way.
     */
    method LoadDiaryEntry(store: EntryStore)
      modifies this`diaryEntry, this`content, this`selectedEmotion, this`loading
      ensures !loading
      ensures FindById(store.Entries(), id).Some? ==>
        && diaryEntry == FindById(store.Entries(), id)
        && content == diaryEntry.value.content
        && selectedEmotion == Some(diaryEntry.value.emotion)
      ensures FindById(store.Entries(), id).None? ==>
        diaryEntry == old(diaryEntry) && content == old(content) && selectedEmotion == old(selectedEmotion)
    {
      loading := true;
      var entry := store.GetDiaryEntryById(id);
      if entry.Some? {
        diaryEntry := entry;
        content := entry.value.content;
        selectedEmotion := Some(entry.value.emotion);
      }
      loading := false;
    }

    method HandleEmotionSelect(emotion: Emotion)
      modifies this`selectedEmotion
      ensures selectedEmotion == Some(emotion)
    {
      selectedEmotion := Some(emotion);
    }

    method HandleContentChange(text: string)
      modifies this`content
      ensures content == text
    {
      content := text;
    }

    /**
     * `handleSave`: nothing at all happens without a loaded entry or a selection; short text
     * gets its alert; otherwise the edited record replaces every stored entry with its id.
     */
    method HandleSave(store: EntryStore, updatedAt: string, writeOk: bool) returns (alert: Option<EditAlert>)
      modifies store
      ensures diaryEntry.None? || selectedEmotion.None? ==> alert == None && store.slot == old(store.slot)
      ensures diaryEntry.Some? && selectedEmotion.Some? && !HasEnoughContent(content) ==>
        alert == Some(ContentTooShortAlert) && store.slot == old(store.slot)
      ensures diaryEntry.Some? && selectedEmotion.Some? && HasEnoughContent(content) ==>
        alert == Some(if writeOk then UpdatedAlert else UpdateErrorAlert)
      ensures diaryEntry.Some? && selectedEmotion.Some? && HasEnoughContent(content) && writeOk ==>
        store.slot == Stored(ReplaceById(old(store.Entries()),
          EditedEntry(diaryEntry.value, selectedEmotion.value, content, updatedAt)))
      ensures !writeOk ==> store.slot == old(store.slot)
    {
      if diaryEntry.None? || selectedEmotion.None? {
        return None;
      }
      if |Trim(content)| < MinContentLength {
        return Some(ContentTooShortAlert);
      }
      var updatedEntry := EditedEntry(diaryEntry.value, selectedEmotion.value, content, updatedAt);
      var res := store.UpdateDiaryEntry(updatedEntry, writeOk);
      alert := Some(if res.Pass? then UpdatedAlert else UpdateErrorAlert);
    }

    /** What the screen renders from its current state. */
    function View(): EditView
      reads this
    {
      SelectEditView(loading, diaryEntry)
    }
  }

  /** Opening the editor on an id nobody stored shows the not-found view, and saving there does nothing. */
  method EditMissingEntry(entries: seq<DiaryEntry>, id: string, updatedAt: string)
    returns (view: EditView, alert: Option<EditAlert>, after: seq<DiaryEntry>)
    requires !HasId(entries, id)
    ensures view == NotFound && alert == None && after == entries
  {
    var store := new EntryStore(Stored(entries));
    var screen := new EditState(id);
    screen.LoadDiaryEntry(store);
    view := screen.View();
    alert := screen.HandleSave(store, updatedAt, true);
    after := store.GetDiaryEntries();
  }

  /** On a loaded editor: pick an emotion, type a text that passes the rule, press save. */
  method EditAndSave(screen: EditState, store: EntryStore, emotion: Emotion, text: string, updatedAt: string)
    returns (alert: Option<EditAlert>)
    requires screen.diaryEntry.Some? && HasEnoughContent(text)
    modifies screen`selectedEmotion, screen`content, store
    ensures alert == Some(UpdatedAlert) && screen.diaryEntry == old(screen.diaryEntry)
    ensures screen.selectedEmotion == Some(emotion) && screen.content == text
    ensures store.slot == Stored(ReplaceById(old(store.Entries()), EditedEntry(screen.diaryEntry.value, emotion, text, updatedAt)))
  {
    screen.HandleEmotionSelect(emotion);
    screen.HandleContentChange(text);
    alert := screen.HandleSave(store, updatedAt, true);
  }

  /** Load, change emotion and text, save: a later lookup returns the edited record. */
  method EditRoundTrip(entries: seq<DiaryEntry>, loaded: DiaryEntry, emotion: Emotion, text: string, updatedAt: string)
    returns (alert: Option<EditAlert>, found: Option<DiaryEntry>)
    requires FindById(entries, loaded.id) == Some(loaded) && HasEnoughContent(text)
    ensures alert == Some(UpdatedAlert)
    ensures found == Some(EditedEntry(loaded, emotion, text, updatedAt))
  {
    ghost var e := EditedEntry(loaded, emotion, text, updatedAt);
    var store := new EntryStore(Stored(entries));
    var screen := new EditState(loaded.id);
    screen.LoadDiaryEntry(store);
    assert screen.diaryEntry == Some(loaded) && store.Entries() == entries;
    alert := EditAndSave(screen, store, emotion, text, updatedAt);
    assert store.Entries() == ReplaceById(entries, e);
    FindAfterReplace(entries, e);
    found := store.GetDiaryEntryById(loaded.id);
  }
}
