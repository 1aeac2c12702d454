/** The list screen of src/screens/DiaryListScreen.tsx: its load handler and which view it renders. */
module DiaryListScreen {
  import opened Types
  import opened Storage
  import opened EntryOrder

  /** The three renderings: spinner, the "no entries yet" notice, or the rows. */
  datatype ListView = Loading | Empty | Rows(entries: seq<DiaryEntry>)

  /** The spinner while loading; otherwise the notice exactly when there is nothing to list. */
  function SelectListView(loading: bool, diaryEntries: seq<DiaryEntry>): (v: ListView)
    ensures loading <==> v.Loading?
    ensures !loading ==> (v.Empty? <==> |diaryEntries| == 0)
    ensures v.Rows? ==> v.entries == diaryEntries
  {
    if loading then Loading
    else if |diaryEntries| == 0 then Empty
    else Rows(diaryEntries)
  }

  /** Sorting neither adds nor drops entries, so the list is empty exactly when the store is. */
  lemma LoadedViewEmptyIffStoreEmpty(stored: seq<DiaryEntry>)
    ensures SelectListView(false, SortNewestFirst(stored)).Empty? <==> stored == []
    ensures SelectListView(false, SortNewestFirst(stored)).Rows? ==> |SelectListView(false, SortNewestFirst(stored)).entries| == |stored|
  {
    var sorted := SortNewestFirst(stored);
    assert |sorted| == |multiset(sorted)| == |multiset(stored)| == |stored|;
  }

  /** The component state: the list shown and the loading flag. */
  class DiaryListState {
    var diaryEntries: seq<DiaryEntry>
    var loading: bool

    /** `useState([])` and `useState(true)`. */
    constructor ()
      ensures diaryEntries == [] && loading
    {
      diaryEntries := [];
      loading := true;
    }

    /**
     * `loadDiaryEntries`: raise the flag, read the store, sort newest first, show the result,
     * lower the flag. The read never fails, so the list is always replaced.
     */
    method LoadDiaryEntries(store: EntryStore)
      modifies this`diaryEntries, this`loading
      ensures !loading
      ensures diaryEntries == SortNewestFirst(store.Entries())
      ensures IsStableSortBy(store.Entries(), diaryEntries, Key)
      ensures multiset(diaryEntries) == multiset(store.Entries())
    {
      loading := true;
      var entries := store.GetDiaryEntries();
      SortIsStableSort(entries, Key);
      diaryEntries := SortNewestFirst(entries);
      loading := false;
    }

    /** What the screen renders from its current state. */
    function View(): ListView
      reads this
    {
      SelectListView(loading, diaryEntries)
    }
  }

  /** Opening the screen on a store: after the load the rows are the stored entries newest first. */
  method OpenList(slot: Slot) returns (view: ListView)
    ensures slot.Stored? && slot.entries != [] ==> view == Rows(SortNewestFirst(slot.entries))
    ensures !(slot.Stored? && slot.entries != []) ==> view == Empty
  {
    var store := new EntryStore(slot);
    var screen := new DiaryListState();
    screen.LoadDiaryEntries(store);
    LoadedViewEmptyIffStoreEmpty(store.Entries());
    view := screen.View();
  }
}
