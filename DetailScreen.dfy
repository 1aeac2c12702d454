/** The read-only view of one entry, src/screens/DetailScreen.tsx: load, delete, colours and date line. */
module DetailScreen {
  import opened Types
  import opened JsString
  import opened DateUtil
  import opened Storage
  import opened Emotions

  const PlainBackground := "#ffffff"

  /** The tint of the content card for each mood id; ids outside the catalog get plain white. */
  function EmotionBackground(emotionId: int): (c: string)
    ensures c == PlainBackground <==> !(1 <= emotionId <= 6)
  {
    match emotionId
    case 1 => "#e8f5e9"
    case 2 => "#ebfbee"
    case 3 => "#e7f5ff"
    case 4 => "#f8f9fa"
    case 5 => "#f3f0ff"
    case 6 => "#fff5f5"
    case _ => PlainBackground
  }

  /** `getBackgroundColor`: white without an entry, else the tint of the entry's mood. */
  function BackgroundColor(diaryEntry: Option<DiaryEntry>): (c: string)
    ensures diaryEntry.None? ==> c == PlainBackground
    ensures diaryEntry.Some? ==> c == EmotionBackground(diaryEntry.value.emotion.id)
  {
    if diaryEntry.None? then PlainBackground else EmotionBackground(diaryEntry.value.emotion.id)
  }

  /** The card is white exactly when there is no entry or its mood id is not one of 1..6. */
  lemma PlainBackgroundIffUnknownMood(diaryEntry: Option<DiaryEntry>)
    ensures BackgroundColor(diaryEntry) == PlainBackground <==>
      diaryEntry.None? || !(1 <= diaryEntry.value.emotion.id <= 6)
  {
  }

  /** The six tints are pairwise different, so the card's colour tells the mood apart. */
  lemma TintIdentifiesMood(a: int, b: int)
    requires 1 <= a <= 6 && 1 <= b <= 6
    requires EmotionBackground(a) == EmotionBackground(b)
    ensures a == b
  {
  }

  /** Every mood of the catalog gets a tint of its own. */
  lemma CatalogMoodsAreTinted()
    ensures forall i :: 0 <= i < |Catalog| ==> EmotionBackground(Catalog[i].id) != PlainBackground
  {
    CatalogShape();
  }

  /** The screen's own `formatDate`: like `formatDateToKorean` but month and day padded to two digits. */
  function DetailFormatDate(d: LocalDate): (s: string)
    ensures var t := Split(s, ' '); |t| == 4 && t[3] == WeekdayNames[d.weekday] + "요일"
  {
    IntStringHasNoSpace(d.year);
    TwoDigitBlock(d.monthIndex + 1);
    TwoDigitBlock(d.day);
    KoreanDateTokens(IntString(d.year), TwoDigits(d.monthIndex + 1), TwoDigits(d.day), d.weekday);
    KoreanDateText(IntString(d.year), TwoDigits(d.monthIndex + 1), TwoDigits(d.day), d.weekday)
  }

  /** The detail layout splits on spaces into year, month, day and weekday tokens. */
  lemma DetailTokens(d: LocalDate)
    ensures Split(DetailFormatDate(d), ' ') ==
      [IntString(d.year) + "년", TwoDigits(d.monthIndex + 1) + "월", TwoDigits(d.day) + "일", WeekdayNames[d.weekday] + "요일"]
  {
    IntStringHasNoSpace(d.year);
    TwoDigitBlock(d.monthIndex + 1);
    TwoDigitBlock(d.day);
    KoreanDateTokens(IntString(d.year), TwoDigits(d.monthIndex + 1), TwoDigits(d.day), d.weekday);
  }

  /** `t[0] + " " + t[1] + " " + t[2]`, the way the screen lays the first three tokens out. */
  function FirstThreeTokens(t: seq<string>): string
    requires |t| >= 3
  {
    t[0] + " " + t[1] + " " + t[2]
  }

  /** The date line: the first three space-separated tokens of `formatDate`, joined by single spaces. */
  function DisplayDate(d: LocalDate): (s: string)
    ensures |s| > 0 && s[|s| - 1] == '일'
  {
    DetailTokens(d);
    var t := Split(DetailFormatDate(d), ' ');
    assert t[2] == TwoDigits(d.day) + "일";
    FirstThreeTokens(t)
  }

  /** For any space-free year, month and day texts, the first three tokens are the layout without its weekday. */
  lemma FirstThreeOfKoreanText(y: string, m: string, dd: string, weekday: Weekday)
    requires ' ' !in y && ' ' !in m && ' ' !in dd
    ensures var t := Split(KoreanDateText(y, m, dd, weekday), ' ');
      |t| == 4 && FirstThreeTokens(t) == y + "년 " + m + "월 " + dd + "일"
    ensures KoreanDateText(y, m, dd, weekday) == y + "년 " + m + "월 " + dd + "일" + " " + WeekdayNames[weekday] + "요일"
  {
    KoreanDateTokens(y, m, dd, weekday);
  }

  /** The date line drops exactly the weekday: it is `formatDate` with its last token cut off. */
  lemma DisplayDateDropsWeekday(d: LocalDate)
    ensures DetailFormatDate(d) == DisplayDate(d) + " " + WeekdayNames[d.weekday] + "요일"
  {
    IntStringHasNoSpace(d.year);
    TwoDigitBlock(d.monthIndex + 1);
    TwoDigitBlock(d.day);
    FirstThreeOfKoreanText(IntString(d.year), TwoDigits(d.monthIndex + 1), TwoDigits(d.day), d.weekday);
  }

  /** For a year of at least zero the date line reads "YYYY년 MM월 DD일", month and day zero-padded. */
  lemma DisplayDatePadded(d: LocalDate)
    requires d.year >= 0
    ensures DisplayDate(d) ==
      NatString(d.year) + "년 " + FixedDigits(d.monthIndex + 1, 2) + "월 " + FixedDigits(d.day, 2) + "일"
  {
    IntStringHasNoSpace(d.year);
    TwoDigitBlock(d.monthIndex + 1);
    TwoDigitBlock(d.day);
    var y, m, dd := IntString(d.year), TwoDigits(d.monthIndex + 1), TwoDigits(d.day);
    FirstThreeOfKoreanText(y, m, dd, d.weekday);
    assert DisplayDate(d) == y + "년 " + m + "월 " + dd + "일";
  }

  /**
   * When the calendar reading is the day the stored "YYYY-MM-DD" text names (as it is in time
   * zones at or east of UTC), the date line shows exactly the stored year, month and day.
   */
  lemma DateLineShowsStoredDate(date: string, day: LocalDate)
    requires day.year >= 0
    requires ParseDate(date) == Some(Ymd(day.year, day.monthIndex + 1, day.day))
    ensures var p := ParseDate(date).value;
      DisplayDate(day) == NatString(p.year) + "년 " + FixedDigits(p.month, 2) + "월 " + FixedDigits(p.day, 2) + "일"
  {
    DisplayDatePadded(day);
  }

  /** The three renderings: spinner, "entry not found", or the card. */
  datatype DetailView =
    | Loading
    | NotFound
    | Card(title: string, dateLine: string, content: string, background: string)

  /**
   * What the screen renders; `day` is the calendar reading `new Date(diaryEntry.date)` gives
   * in the device's time zone.
   */
  function SelectDetailView(loading: bool, diaryEntry: Option<DiaryEntry>, day: LocalDate): (v: DetailView)
    ensures loading <==> v.Loading?
    ensures !loading ==> (v.NotFound? <==> diaryEntry.None?)
    ensures v.Card? ==> diaryEntry.Some? && v.title == diaryEntry.value.emotion.name
    ensures v.Card? ==> v.content == diaryEntry.value.content && v.dateLine == DisplayDate(day)
    ensures v.Card? ==> v.background == BackgroundColor(diaryEntry) && v.background == EmotionBackground(diaryEntry.value.emotion.id)
  {
    if loading then Loading
    else if diaryEntry.None? then NotFound
    else Card(diaryEntry.value.emotion.name, DisplayDate(day), diaryEntry.value.content, BackgroundColor(diaryEntry))
  }

  /** The two buttons of the delete confirmation. */
  datatype DeleteChoice = Cancel | Destructive

  /** How a delete press ends: dismissed, success alert (whose confirmation goes back), or error alert. */
  datatype DeleteOutcome = Dismissed | DeletedAlert | DeleteErrorAlert

  /** After deleting an id, no stored entry has it, so looking it up finds nothing. */
  lemma DeletedIdIsGone(entries: seq<DiaryEntry>, id: string)
    ensures FindById(RemoveById(entries, id), id) == None
  {
  }

  /** The component state; `id` is the route parameter. */
  class DetailState {
    const id: string
    var diaryEntry: Option<DiaryEntry>
    var loading: bool

    constructor (id: string)
      ensures this.id == id && diaryEntry == None && loading
    {
      this.id := id;
      diaryEntry := None;
      loading := true;
    }

    /** `loadDiaryEntry`: the lookup's result is stored as it is, a missing entry included. */
    method LoadDiaryEntry(store: EntryStore)
      modifies this`diaryEntry, this`loading
      ensures !loading && diaryEntry == FindById(store.Entries(), id)
    {
      loading := true;
      diaryEntry := store.GetDiaryEntryById(id);
      loading := false;
    }

    /**
     * `handleDeletePress`: cancelling the confirmation changes nothing; confirming removes every
     * stored entry with the route id and shows the outcome of the write.
     */
    method HandleDeletePress(choice: DeleteChoice, store: EntryStore, writeOk: bool) returns (outcome: DeleteOutcome)
      modifies store
      ensures choice == Cancel ==> outcome == Dismissed && store.slot == old(store.slot)
      ensures choice == Destructive ==> outcome == if writeOk then DeletedAlert else DeleteErrorAlert
      ensures choice == Destructive && writeOk ==> store.slot == Stored(RemoveById(old(store.Entries()), id))
      ensures !writeOk ==> store.slot == old(store.slot)
    {
      if choice == Cancel {
        return Dismissed;
      }
      var res := store.DeleteDiaryEntry(id, writeOk);
      outcome := if res.Pass? then DeletedAlert else DeleteErrorAlert;
    }

    /** What the screen renders, given the calendar reading of the entry's date. */
    function View(day: LocalDate): DetailView
      reads this
    {
      SelectDetailView(loading, diaryEntry, day)
    }
  }

  /** Confirming the delete and opening the same id again shows the not-found view. */
  method DeleteThenReopen(entries: seq<DiaryEntry>, id: string, day: LocalDate)
    returns (outcome: DeleteOutcome, view: DetailView)
    ensures outcome == DeletedAlert && view == NotFound
  {
    var store := new EntryStore(Stored(entries));
    var screen := new DetailState(id);
    screen.LoadDiaryEntry(store);
    outcome := screen.HandleDeletePress(Destructive, store, true);
    DeletedIdIsGone(entries, id);
    var reopened := new DetailState(id);
    reopened.LoadDiaryEntry(store);
    view := reopened.View(day);
  }

  /** Cancelling the confirmation keeps the card on screen and the store as it was. */
  method CancelKeepsEntry(entries: seq<DiaryEntry>, id: string, day: LocalDate)
    returns (outcome: DeleteOutcome, view: DetailView, after: seq<DiaryEntry>)
    requires HasId(entries, id)
    ensures outcome == Dismissed && after == entries
    ensures view.Card? && view.content == FindById(entries, id).value.content
  {
    var store := new EntryStore(Stored(entries));
    var screen := new DetailState(id);
    screen.LoadDiaryEntry(store);
    outcome := screen.HandleDeletePress(Cancel, store, true);
    view := screen.View(day);
    after := store.GetDiaryEntries();
  }
}
