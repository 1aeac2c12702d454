# Emotion diary: a verified model of its core

The emotion diary is a React Native app. A user picks one of six moods for the day, writes a
short text and keeps the entries on the device. This project models in Dafny the parts of the
app that decide what is stored and what is shown, and it proves what those parts promise:

- **The entry store** (`Storage`). One key-value slot holds the whole serialized list. It is
  absent, unreadable (`Corrupt`) or a list of `DiaryEntry` records. Every operation reads the
  list, transforms it and writes it back:
  - save appends the entry;
  - update replaces every entry with the same id;
  - delete drops every entry with the id;
  - lookup returns the first match.

  A failed read counts as the empty list. A failed write leaves the slot alone and is reported
  to the caller. The store is a class whose one field is the slot.
- **The two editors** (`CreateScreen`, `EditScreen`), built on a shared content rule
  (`ContentRule`):
  - the emotion check comes first, then the check that the trimmed text has at least five
    characters;
  - the record written is built from the form;
  - the store is called only when both checks pass.

  Each screen is a class over its React state. Its handlers are methods that update that state
  and the store.
- **The list screens** (`DiaryListScreen`, `HomeScreen`, `EntryOrder`):
  - entries are sorted newest day first by a stable sort;
  - a view is chosen: loading, empty or rows;
  - the home screen shows the three most recent entries;
  - the greeting depends on the hour;
  - weather is fetched on the first run of the effect, with a fallback reading and one of four
    error texts on failure;
  - on focus the weather is refreshed when the interval has passed.
- **The detail screen** (`DetailScreen`): it loads one entry, deletes it only after the
  destructive confirmation, tints the card by mood, and shows the date line.
- **Pure tables and formatters**:
  - the mood catalog (`Emotions`) and the selection highlight over it (`EmotionSelector`);
  - the 40-character preview (`DiaryItem`);
  - the weather-code classifier and the fallback reading (`WeatherApi`);
  - the weather card's icon and colour tables and its choice of view (`WeatherInfoCard`);
  - `formatDate`, `formatDateToKorean` and `getCurrentDate` (`DateUtil`).
- **The JavaScript string built-ins these use** (`JsString`): `trim`, `includes`, `padStart`,
  `split`, `String(n)` and the order of `<` on strings (by Unicode scalar value, which is
  JavaScript's UTF-16 code-unit order on the digit and "-" texts it compares).

## Model

| member | source | states |
|---|---|---|
| Storage.FindById | src/utils/storage.ts:59-60 | `find` by id: `None` exactly when no entry has the id; otherwise the result is the entry at the first index holding the id |
| Storage.ReplaceById | src/utils/storage.ts:22-24 | the `map` of an update keeps the length and replaces exactly the entries whose id matches, leaving every other position as it was |
| Storage.RemoveById | src/utils/storage.ts:35 | the `filter` of a delete keeps exactly the entries with another id, never grows the list, and is the identity when the id is absent |
| Storage.RemoveByIdAppend | src/utils/storage.ts:35 | removal distributes over concatenation, so survivors keep their original order |
| Storage.FindAfterAppend | src/utils/storage.ts:9 | after an append, a lookup returns the older entry when the id was already stored, else the appended one |
| Storage.FindFirstMatch | src/utils/storage.ts:59 | the lookup returns exactly the entry at the first index with the id |
| Storage.FindAfterReplace | src/utils/storage.ts:22-24 | after an update whose id is stored, a lookup of that id returns the updated record |
| Storage.FindOtherAfterReplace | src/utils/storage.ts:22-24 | an update never changes what a lookup of another id returns |
| Storage.FindInReplacement | src/utils/storage.ts:22-24 | both lookup facts for any list related to the original as a replacement |
| Storage.MissingIdIsNoOp | src/utils/storage.ts:22-24 | an update or delete whose id is not stored leaves the list unchanged |
| Storage.EntryStore.GetDiaryEntries | src/utils/storage.ts:43-52 | the stored list when the slot holds one, and the empty list when it is absent or unreadable; never fails |
| Storage.SlotEntries | src/utils/storage.ts:43-52 | what a read of the key yields: the stored list when there is one, and the empty list for an absent key or text that does not parse |
| Storage.EntryStore.GetDiaryEntryById | src/utils/storage.ts:54-65 | the first stored entry with the id, or null; never fails |
| Storage.EntryStore.SaveDiaryEntry | src/utils/storage.ts:6-15 | on a successful write the slot holds the old list plus the entry at the end; a failed write is reported and leaves the slot |
| Storage.EntryStore.UpdateDiaryEntry | src/utils/storage.ts:17-30 | on a successful write the slot holds the old list with every entry of that id replaced; a failed write is reported and leaves the slot |
| Storage.EntryStore.DeleteDiaryEntry | src/utils/storage.ts:32-41 | on a successful write the slot holds the old list without the id; a failed write is reported and leaves the slot |
| Storage.EntryStore.Write | src/utils/storage.ts:10 | `setItem` replaces the slot with the list, or rejects and leaves it |
| Storage.SaveOverCorruptSlot | src/utils/storage.ts:8-13 | saving over an unreadable slot stores exactly `[entry]`: the old text is lost |
| Storage.SaveDuplicateId | src/utils/storage.ts:9 | a second entry with an existing id is kept beside the first, and a lookup returns the older one |
| Storage.SaveThenLookup | src/utils/storage.ts:54-65 | an entry saved under a fresh id is found again unchanged |
| Storage.DeleteThenLookup | src/utils/storage.ts:35 | after a successful delete, a lookup of the id returns null, whatever the slot held |
| ContentRule.StoredContentPasses | src/screens/CreateScreen.tsx:49-60 | stored text is already trimmed and itself passes the rule (trimmed length at least five) |
| ContentRule.PaddingDoesNotCount | src/screens/EditScreen.tsx:69 | white space around the text neither helps nor hurts the length check |
| CreateScreen.CreateCheck | src/screens/CreateScreen.tsx:44-52 | no emotion gives the choose-emotion alert whatever the text; with an emotion the check passes exactly when the trimmed text has at least five characters, and otherwise gives the too-short alert |
| CreateScreen.NewEntry | src/screens/CreateScreen.tsx:55-63 | the new record's id is `Date.now()` as text, its date is `getCurrentDate()`, its emotion is the selection, its content is the trimmed text, and its two time stamps are two separate clock readings |
| CreateScreen.AcceptedEntryShape | src/screens/CreateScreen.tsx:55-60 | an accepted entry holds the selected emotion and trimmed content of length at least five, and its date reads back as today |
| CreateScreen.CreateState.constructor | src/screens/CreateScreen.tsx:29-32 | no emotion is selected and the text is empty |
| CreateScreen.CreateState.HandleEmotionSelect | src/screens/CreateScreen.tsx:34-36 | the selection becomes the emotion |
| CreateScreen.CreateState.HandleContentChange | src/screens/CreateScreen.tsx:38-40 | the text becomes the input |
| CreateScreen.CreateState.HandleSave | src/screens/CreateScreen.tsx:42-76 | a failed check shows its alert and leaves the store alone; otherwise the new record is appended, and the write decides between the success alert and the error alert |
| CreateScreen.SaveWithoutEmotion | src/screens/CreateScreen.tsx:44-47 | saving with no emotion is refused whatever was typed, and nothing is written |
| CreateScreen.WriteNewDiary | src/screens/CreateScreen.tsx:66-71 | an accepted save grows the stored list by one entry at the end, holding the trimmed text and the chosen emotion |
| EditScreen.EditedEntry | src/screens/EditScreen.tsx:75-80 | the edited record keeps id, date and creation time, and takes the new emotion, the trimmed text and the new modification time |
| EditScreen.SelectEditView | src/screens/EditScreen.tsx:92-124 | the spinner exactly while loading; otherwise "not found" exactly when no entry was loaded, else the form for that entry |
| EditScreen.EditedEntryFoundAfterUpdate | src/screens/EditScreen.tsx:75-82 | writing back the edited copy of a found entry makes the lookup return the edited record and leaves lookups of other ids unchanged |
| EditScreen.EditState.constructor | src/screens/EditScreen.tsx:28-34 | no entry, empty text, no selection, loading |
| EditScreen.EditState.LoadDiaryEntry | src/screens/EditScreen.tsx:40-55 | a found entry fills the entry, the text and the selection; a missing one leaves all three; loading is off afterwards either way |
| EditScreen.EditState.HandleEmotionSelect | src/screens/EditScreen.tsx:57-59 | the selection becomes the emotion |
| EditScreen.EditState.HandleContentChange | src/screens/EditScreen.tsx:61-63 | the text becomes the input |
| EditScreen.EditState.HandleSave | src/screens/EditScreen.tsx:65-90 | silent no-op without an entry or a selection; too-short text gives its alert and no write; otherwise every entry with the id is replaced by the edited record, and the write decides the alert |
| EditScreen.EditMissingEntry | src/screens/EditScreen.tsx:106-124 | opening an id nobody stored shows "not found", and saving there does nothing |
| EditScreen.EditAndSave | src/screens/EditScreen.tsx:57-85 | on a loaded editor, the chosen emotion and text become the selection and the text, and saving them replaces the entry by its edited copy |
| EditScreen.EditRoundTrip | src/screens/EditScreen.tsx:40-85 | load, edit and save, then look up again: the edited record is found |
| DiaryListScreen.SelectListView | src/screens/DiaryListScreen.tsx:60-85 | the spinner exactly while loading; otherwise the empty notice exactly when there are no entries, else the rows |
| DiaryListScreen.LoadedViewEmptyIffStoreEmpty | src/screens/DiaryListScreen.tsx:41-44 | sorting neither adds nor drops entries, so the list is empty exactly when the store is |
| DiaryListScreen.DiaryListState.constructor | src/screens/DiaryListScreen.tsx:24-25 | no entries, loading |
| DiaryListScreen.DiaryListState.LoadDiaryEntries | src/screens/DiaryListScreen.tsx:36-50 | after the load, loading is off and the list is the stored entries, a stable newest-first sort and a permutation of them |
| DiaryListScreen.OpenList | src/screens/DiaryListScreen.tsx:36-85 | a store with entries shows them newest first; an empty, absent or unreadable one shows the notice |
| EntryOrder.Insert | src/screens/DiaryListScreen.tsx:41-43 | insertion adds exactly the one entry |
| EntryOrder.SortBy | src/screens/DiaryListScreen.tsx:41-43 | the sort is a permutation of its input |
| EntryOrder.HeadIsLargest | src/screens/DiaryListScreen.tsx:41-43 | in a sorted list the first entry has the largest key |
| EntryOrder.InsertSorted | src/screens/DiaryListScreen.tsx:41-43 | inserting into a sorted list keeps it sorted |
| EntryOrder.SortSorted | src/screens/DiaryListScreen.tsx:41-43 | the sort's output has keys that never increase |
| EntryOrder.InsertWithKey | src/screens/DiaryListScreen.tsx:41-43 | the inserted entry goes last among the entries of its key |
| EntryOrder.SortKeepsKeyOrder | src/screens/DiaryListScreen.tsx:41-43 | for every key, that key's entries keep their input order |
| EntryOrder.SortIsStableSort | src/screens/DiaryListScreen.tsx:41-43 | the sort is a stable descending sort and a permutation |
| EntryOrder.SameKeysSameSequence | src/screens/DiaryListScreen.tsx:41-43 | two sorted lists with the same entries per key, in the same order, are equal |
| EntryOrder.StableSortIsUnique | src/screens/DiaryListScreen.tsx:41-43 | any stable descending sort of the input is exactly the model's sort, whatever algorithm the library uses |
| EntryOrder.SortNewestFirst | src/screens/HomeScreen.tsx:113-115 | the order both list screens show is a permutation of the stored entries with the newest day first |
| EntryOrder.Key | src/screens/DiaryListScreen.tsx:42 | the number the comparator compares is never negative, and a date not in the "YYYY-MM-DD" shape gets 0 |
| DateUtil.FormatDateFields | src/utils/date.ts:1-6 | split on "-", `formatDate` gives the year, the two-digit month (`getMonth()+1`) and the two-digit day, in that order |
| DateUtil.FormatDate | src/utils/date.ts:1-6 | with a four-digit year, the text has the "YYYY-MM-DD" shape: ten characters, dashes at 4 and 7, digits elsewhere |
| DateUtil.IsoShape | src/utils/date.ts:3-5 | four-digit year, padded month and padded day joined by "-" form a "YYYY-MM-DD" text |
| DateUtil.FormatDateWidth | src/utils/date.ts:1-6 | with a four-digit year, `formatDate` has fixed blocks and length 10 |
| DateUtil.TwoDigitBlock | src/utils/date.ts:3-4 | `padStart(2, "0")` of a number below 100 is its two-digit block, which holds no separator |
| DateUtil.ParseDate | src/utils/date.ts:1-6 | reading the fields back succeeds exactly on the "YYYY-MM-DD" shape |
| DateUtil.ParseFormatDate | src/utils/date.ts:1-6 | `formatDate` read back gives the year, the one-based month and the day |
| DateUtil.BlockOrder | src/utils/date.ts:2-5 | digit blocks of equal width compare as strings the way their numbers compare |
| DateUtil.DateBlocks | src/utils/date.ts:2-5 | the year, month and day blocks of two days each compare like the fields they print |
| DateUtil.FullWidthOrder | src/utils/date.ts:2-5 | for four-digit years, the full-width texts order like the calendar |
| DateUtil.FormatDateOrder | src/utils/date.ts:2-5 | for four-digit years, string order of `formatDate` results is calendar order |
| DateUtil.DateKeyOrder | src/screens/DiaryListScreen.tsx:42 | the sort key of a `formatDate` text grows with the calendar, and two keys are equal exactly on the same day |
| DateUtil.DateKey | src/screens/DiaryListScreen.tsx:42 | the date's sort key is never negative, and 0 for a text not in the "YYYY-MM-DD" shape |
| DateUtil.GetCurrentDate | src/utils/date.ts:19-21 | `formatDate` of the clock's day: ten characters that read back as that day |
| DateUtil.KoreanDateTokens | src/utils/date.ts:16 | the Korean layout splits on spaces into exactly year, month, day and weekday tokens |
| DateUtil.FormatDateToKoreanTokens | src/utils/date.ts:8-17 | `formatDateToKorean` gives the year, the plain month and day numerals, and the weekday name indexed by `getDay()` from the Sunday-first table |
| DateUtil.FormatDateToKorean | src/utils/date.ts:8-17 | the Korean text has four space-separated tokens, the last being the weekday name of `getDay()` followed by "요일" |
| DateUtil.KoreanDateUnpadded | src/utils/date.ts:11-16 | a one-digit month or day is one digit in the Korean text and two in the "YYYY-MM-DD" text |
| DetailScreen.BackgroundColor | src/screens/DetailScreen.tsx:90-109 | white without an entry, else the tint of the entry's mood id |
| DetailScreen.EmotionBackground | src/screens/DetailScreen.tsx:93-108 | the tint is plain white exactly for a mood id outside 1..6 |
| DetailScreen.PlainBackgroundIffUnknownMood | src/screens/DetailScreen.tsx:90-109 | the card is white exactly when there is no entry or its mood id is outside 1..6 |
| DetailScreen.TintIdentifiesMood | src/screens/DetailScreen.tsx:93-105 | the six tints are pairwise different |
| DetailScreen.CatalogMoodsAreTinted | src/screens/DetailScreen.tsx:93-105 | every catalog mood gets a tint, never plain white |
| DetailScreen.DetailTokens | src/screens/DetailScreen.tsx:112-122 | the screen's `formatDate` splits into year, two-digit month, two-digit day and weekday tokens |
| DetailScreen.DetailFormatDate | src/screens/DetailScreen.tsx:112-122 | the screen's `formatDate` has four space-separated tokens, the last being the weekday |
| DetailScreen.FirstThreeOfKoreanText | src/screens/DetailScreen.tsx:191-193 | for space-free fields, the first three tokens joined by spaces are the layout without its weekday |
| DetailScreen.DisplayDateDropsWeekday | src/screens/DetailScreen.tsx:191-193 | the date line is the screen's `formatDate` with exactly the weekday token cut off |
| DetailScreen.DisplayDatePadded | src/screens/DetailScreen.tsx:115-116 | the date line reads "YYYY년 MM월 DD일", with month and day zero-padded |
| DetailScreen.DisplayDate | src/screens/DetailScreen.tsx:191-193 | the date line is non-empty and ends with "일": the weekday token is not shown |
| DetailScreen.DateLineShowsStoredDate | src/screens/DetailScreen.tsx:191-193 | when the device's day is the stored "YYYY-MM-DD" day, the date line shows exactly its year, padded month and padded day |
| DetailScreen.SelectDetailView | src/screens/DetailScreen.tsx:124-196 | the spinner exactly while loading; otherwise "not found" exactly when the lookup gave null, else the card with the mood name, the date line, the text and the mood tint |
| DetailScreen.DeletedIdIsGone | src/screens/DetailScreen.tsx:72 | after deleting an id, looking it up finds nothing |
| DetailScreen.DetailState.constructor | src/screens/DetailScreen.tsx:38-40 | no entry, loading |
| DetailScreen.DetailState.LoadDiaryEntry | src/screens/DetailScreen.tsx:47-58 | the lookup's result is stored as it is, null included, and loading is off afterwards |
| DetailScreen.DetailState.HandleDeletePress | src/screens/DetailScreen.tsx:64-83 | cancel changes nothing; the destructive choice deletes every entry with the route id and shows the write's outcome |
| DetailScreen.DeleteThenReopen | src/screens/DetailScreen.tsx:64-83 | confirming the delete and reopening the id shows "not found" |
| DetailScreen.CancelKeepsEntry | src/screens/DetailScreen.tsx:66 | cancelling keeps the card on screen and the store as it was |
| HomeScreen.TimeOfDayAt | src/screens/HomeScreen.tsx:142-154 | morning exactly for the hours 5 to 11, lunch for 12 to 16, evening for 17 to 21, and night for 22 to 4, wrapping around midnight |
| HomeScreen.GreetingText | src/screens/HomeScreen.tsx:156 | the headline reads "좋은 …입니다" |
| HomeScreen.GreetingMessage | src/screens/HomeScreen.tsx:142-154 | every band's message opens with "오늘 하루" |
| HomeScreen.WeatherErrorMessage | src/screens/HomeScreen.tsx:184-206 | the tests run in order: a message with "위치 권한" gets the permission text, else one with "401" the key text, else one with "404" the not-found text; any other `Error`, and any thrown non-`Error` value, get the generic text |
| HomeScreen.ShouldAutoRefresh | src/screens/HomeScreen.tsx:94-97 | a refresh is due only with a positive interval and a clock past the last success |
| HomeScreen.GreetingIdentifiesTimeOfDay | src/screens/HomeScreen.tsx:142-156 | different hour bands give different headlines and different messages |
| HomeScreen.InvalidKeyMessageMentionsKey | src/screens/HomeScreen.tsx:190-192 | the rejected-key text contains "API 키" |
| HomeScreen.LocationDeniedOmitsKey | src/screens/HomeScreen.tsx:186-188 | the location-permission text does not contain "API 키" |
| HomeScreen.NotFoundOmitsKey | src/screens/HomeScreen.tsx:194-196 | the not-found text does not contain "API 키" |
| HomeScreen.GenericFailureOmitsKey | src/screens/HomeScreen.tsx:198-205 | the generic failure text does not contain "API 키" |
| HomeScreen.KeyHintOnlyForRejectedKey | src/screens/HomeScreen.tsx:184-206 | the error text names the API key exactly when an `Error` was thrown whose message contains "401" and not "위치 권한", so the earlier tests take precedence |
| HomeScreen.FallbackDataIsNotShown | src/screens/HomeScreen.tsx:178-206 | after a failure the fallback reading is stored, yet the card shows the error text, because every failure text is non-empty |
| HomeScreen.SelectRecentSection | src/screens/HomeScreen.tsx:279-287 | the notice exactly when there are no entries, else the first min(3, n) entries |
| HomeScreen.RecentAreNewest | src/screens/HomeScreen.tsx:279-287 | the section shows stored entries only, and every stored entry it leaves out is no newer than each one it shows |
| HomeScreen.AfterFetch | src/screens/HomeScreen.tsx:161-210 | after a fetch there is always data with its type selected; the error is set exactly on failure, to the chosen text over the fallback reading; only a success moves the time stamp |
| HomeScreen.CardAfterFetchShows | src/screens/HomeScreen.tsx:161-210 | once a fetch settles, the card shows the fetched data on success, and on failure the error text with the key hint exactly for a rejected key |
| HomeScreen.HomeState.constructor | src/screens/HomeScreen.tsx:39-64 | the initial state, with the refresh interval at 30 × 60 × 1000 ms |
| HomeScreen.HomeState.LoadDiaryEntries | src/screens/HomeScreen.tsx:108-122 | the stored entries newest first, and loading is off |
| HomeScreen.HomeState.UpdateGreeting | src/screens/HomeScreen.tsx:133-158 | the headline and the message of the hour's band |
| HomeScreen.HomeState.FetchWeatherData | src/screens/HomeScreen.tsx:161-210 | the settled weather state is the one `AfterFetch` describes, and the spinner is off |
| HomeScreen.HomeState.HandleWeatherSelect | src/screens/HomeScreen.tsx:213-215 | the selection becomes the weather |
| HomeScreen.HomeState.HandleEmotionSelect | src/screens/HomeScreen.tsx:218-220 | the selection becomes the emotion |
| HomeScreen.HomeState.RunEffect | src/screens/HomeScreen.tsx:66-106 | the stored interval is adopted; the weather is fetched exactly while there is no data and no success stamp; the greeting is refreshed |
| HomeScreen.HomeState.OnFocus | src/screens/HomeScreen.tsx:89-100 | the entries are reloaded; the weather is refreshed exactly when the interval is positive and more than it has passed since the last success |
| HomeScreen.EffectFetchesOnce | src/screens/HomeScreen.tsx:76-78 | once any fetch has settled, later runs of the effect do not fetch on their own |
| HomeScreen.FailureRefetchesOnFocus | src/screens/HomeScreen.tsx:93-98 | after a failed first fetch the stamp stays zero, so the next focus at any clock reading past the interval, with refreshing on, fetches again |
| HomeScreen.NoRefetchWithinInterval | src/screens/HomeScreen.tsx:93-98 | within the interval after a success, focusing does not fetch, and the card keeps the data |
| Emotions.CatalogShape | src/utils/emotions.ts:3-40 | the `Catalog` table holds six moods with ids 1..6 in ascending order, pairwise distinct |
| Emotions.FindEmotion | src/utils/emotions.ts:43 | `find` by id: `None` exactly when no entry has the id; otherwise the first entry with it |
| Emotions.GetEmotionById | src/utils/emotions.ts:42-44 | the catalog mood with that id for 1..6, undefined for every other id |
| EmotionSelector.SelectorItems | src/components/EmotionSelector.tsx:24-31 | one item per catalog mood, in catalog order, selected exactly when its id equals the selection's |
| EmotionSelector.NoneSelectedWhenUndefined | src/components/EmotionSelector.tsx:28 | nothing is highlighted without a selection |
| EmotionSelector.AtMostOneSelected | src/components/EmotionSelector.tsx:28 | no two items are highlighted at once |
| EmotionSelector.CopyHighlightsCatalogItem | src/components/EmotionSelector.tsx:28 | a stored copy of a mood highlights exactly the catalog item with its id |
| DiaryItem.PreviewContent | src/components/DiaryItem.tsx:15-16 | text of at most 40 characters is shown unchanged, longer text as its first 40 followed by "..." |
| DiaryItem.PreviewBounds | src/components/DiaryItem.tsx:15-16 | the preview has at most 43 characters and starts with the first min(40, n) characters of the text |
| DiaryItem.DiaryItemView | src/components/DiaryItem.tsx:11-30 | the row reports its entry's own id and shows `formatDateToKorean` of the entry's day, the mood colour, the mood icon, the mood name and the preview |
| WeatherApi.WeatherCodeBands | src/utils/weatherApi.ts:20-52 | 2xx is stormy; 3xx and 5xx are rainy; 6xx is snowy; 7xx and 801..899 are cloudy; every other code is sunny |
| WeatherApi.MapWeatherCodeToType | src/utils/weatherApi.ts:20-52 | the code is classified sunny exactly when it is below 200, in 400..499, 800, or 900 and above |
| WeatherApi.PartlyCloudyUnreachable | src/utils/weatherApi.ts:38-47 | 801 and 802 are classified cloudy, and no code is ever classified partly cloudy |
| WeatherApi.MapWeatherCodeToTypeIntended | src/utils/weatherApi.ts:44-47 | the corrected classifier gives partly cloudy exactly for 801 and 802 |
| WeatherApi.IntendedDiffersOnlyOnFewClouds | src/utils/weatherApi.ts:38-47 | the corrected classifier differs from the one as written exactly on 801 and 802 |
| WeatherApi.GetMockWeatherData | src/utils/weatherApi.ts:121-131 | always the same sunny Seoul reading, 22 degrees and humidity 60 |
| WeatherInfoCard.TablesAgreeWithOptions | src/components/WeatherInfoCard.tsx:21-58 | for every weather type, the card's icon and colour are the ones of the picker option table |
| WeatherInfoCard.GetWeatherIcon | src/components/WeatherInfoCard.tsx:21-38 | the icon is "help-circle" exactly when the string names no weather type |
| WeatherInfoCard.GetWeatherColor | src/components/WeatherInfoCard.tsx:41-58 | the colour is "#f5f5f5" exactly when the string names no weather type |
| WeatherInfoCard.OptionsCoverEachTypeOnce | src/components/WeatherCard.tsx:27-39 | the `WeatherOptions` table has six options with distinct weather types and distinct titles |
| WeatherInfoCard.UnknownTypeDefaults | src/components/WeatherInfoCard.tsx:35-36 | a string naming no weather type gets "help-circle" and "#f5f5f5" |
| WeatherInfoCard.SelectCardView | src/components/WeatherInfoCard.tsx:66-172 | loading first; otherwise the error view exactly when the error is non-empty or the data is missing, showing the error or the fallback text, with the key hint exactly when the error contains "API 키"; otherwise the reading's location, description, temperature, humidity and wind speed, with the type's icon and colour |
| JsString.Trim | src/screens/CreateScreen.tsx:49 | `trim` removes only white space at both ends, and what is left neither starts nor ends with it |
| JsString.TrimIdempotent | src/screens/CreateScreen.tsx:60 | trimming twice is trimming once |
| JsString.TrimPadded | src/screens/EditScreen.tsx:69 | trimming a trimmed text wrapped in white space gives that text back |
| JsString.Includes | src/components/WeatherInfoCard.tsx:101 | `includes` holds exactly when the pattern occurs at some position |
| JsString.MissingCharExcludes | src/screens/HomeScreen.tsx:185 | a text lacking a character of the pattern does not include it |
| JsString.PadStart | src/utils/date.ts:3-4 | `padStart` keeps the text as the suffix and fills in front up to the width |
| JsString.NatString | src/utils/date.ts:3 | `String(n)` is a non-empty digit string denoting n; its first digit is "0" only for n = 0, and then it is the single digit |
| JsString.FixedDigitsValue | src/utils/date.ts:3-4 | a block of the last w digits of n < 10^w denotes n |
| JsString.PaddedTwoDigits | src/utils/date.ts:3-4 | `String(n).padStart(2, "0")` for n < 100 is the two-digit block of n |
| JsString.FixedDigitsOrder | src/utils/date.ts:2-5 | on digit blocks of equal width, string order is numeric order |
| JsString.LexLessConcat | src/utils/date.ts:5 | two concatenations whose first parts have equal length compare by the first parts first |
| JsString.Split | src/screens/DetailScreen.tsx:191 | `split` gives at least one piece, none holding the separator |
| JsString.JoinSplit | src/screens/DetailScreen.tsx:191 | joining the pieces of a split with the separator gives the text back |
| JsString.SplitFour | src/screens/DetailScreen.tsx:191-193 | four separator-free pieces joined by the separator split back into those pieces |

## Left out

- AsyncStorage and JSON are not modelled. The slot is abstract: absent, unreadable or a list. The outcome of a write is a boolean parameter. A rejected `getItem` and a `JSON.parse` that throws are both the unreadable slot.
- The weather I/O is left out: HTTP, geolocation and the Seoul fallback inside `getCurrentLocationWeather`, `getWeatherByCity` and `getWeatherByCoords`. How a fetch settles is a parameter, `FetchResult`.
- `processWeatherData` is left out, because it does floating-point rounding on untyped JSON. Temperatures are whole numbers in the model.
- JavaScript `Date` is left out: parsing a date string, time zones, `getDay`, `Date.now`, `toISOString` and `setDate`. A day is given as integer fields; clock readings and time stamps are parameters. `getDateWithOffset` is therefore not modelled.
- The detail screen's date line and the list row's `formatDateToKorean(date)` line (`DiaryItem.tsx:23`) take the day that `new Date(date)` yields as a parameter. The model does not capture that "YYYY-MM-DD" parses as UTC and can show the previous day in time zones west of UTC.
- EntryOrder.Key: the comparator's `new Date(b.date).getTime() - new Date(a.date).getTime()` is modelled as an integer key. The key is year·10000 + month·100 + day for the "YYYY-MM-DD" shape and 0 for any other text. A malformed date gives NaN in the source, which makes the JavaScript sort order unspecified; that is not modelled.
- String lengths count Unicode scalar values. JavaScript counts UTF-16 code units, so an emoji counts as one character here and two in the app, both in the five-character rule and in the 40-character preview.
- `getWeatherUpdateInterval` is not part of this model. The interval it returns is a parameter of `RunEffect`.
- React plumbing is left out: rendering, navigation, `setInterval`, and the interleaving of asynchronous loads. Each handler runs to completion as one method. Alerts are outcome values, and "navigate back" is the success alert.
- A key whose text parses to JSON that is not a list (`null`, `{}`, a number) is not modelled. `getDiaryEntries` returns such a value unchecked (`storage.ts:47`). The list loads' `sort` then throws, so their catch branches run and the previous list stays on screen. Save, update and delete throw on `[...x]`, `map` or `filter` and report an error. The lookup returns null.
- The catch branches of the list loads (`DiaryListScreen.tsx:45-46`, `HomeScreen.tsx:117-118`) and of the two `loadDiaryEntry` functions are not modelled. For every slot the model has (absent, unreadable, a list), `getDiaryEntries` and `getDiaryEntryById` never throw, so those branches are dead.
- `toLocaleDateString` and the clock text on the home screen are left out.
- Some components and screens are left out: WeatherCard's picker (only its option table is used), EmotionCard, EmotionGrid, EmotionItem, DiaryTextInput, SafeAreaWrapper, the navigators and the stub screens. They hold layout or no logic.
- `Date.now()` ids are not assumed unique, and `createdAt`/`updatedAt` are not assumed equal: both are separate clock readings.
- The source applies update by replacing every entry with a matching id, not just the first. The model follows the code.

## Findings

| source | as written | input that shows it | evidently intended | confidence | as-written member | corrected member |
|---|---|---|---|---|---|---|
| src/utils/weatherApi.ts:38-47 | the cloud band `weatherCode > 800 && weatherCode < 900` is tested before the few-clouds test for 801 and 802, so "partly-cloudy" is never returned | code 801 is classified "cloudy" | 801 and 802 give "partly-cloudy", as the comment above that branch says | high; not executed | WeatherApi.PartlyCloudyUnreachable | WeatherApi.IntendedDiffersOnlyOnFewClouds |
