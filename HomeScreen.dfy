/**
 * The home screen of src/screens/HomeScreen.tsx: the time-of-day greeting, the weather fetch
 * with its fallback and error texts, the automatic refresh on focus, and the three most recent
 * entries.
 */
module HomeScreen {
  import opened Types
  import opened JsString
  import opened Storage
  import opened EntryOrder
  import opened WeatherApi
  import opened WeatherInfoCard

  /** `Date.prototype.getHours()`. */
  type Hour = h: int | 0 <= h < 24

  datatype TimeOfDay = Morning | Lunch | Evening | Night

  /** The four bands of `updateGreeting`; every hour not in the first three is night. */
  function TimeOfDayAt(hours: Hour): (t: TimeOfDay)
    ensures t == Morning <==> 5 <= hours < 12
    ensures t == Lunch <==> 12 <= hours < 17
    ensures t == Evening <==> 17 <= hours < 22
    ensures t == Night <==> hours >= 22 || hours < 5
  {
    if 5 <= hours < 12 then Morning
    else if 12 <= hours < 17 then Lunch
    else if 17 <= hours < 22 then Evening
    else Night
  }

  function TimeOfDayWord(t: TimeOfDay): string {
    match t
    case Morning => "아침"
    case Lunch => "점심"
    case Evening => "저녁"
    case Night => "밤"
  }

  /** The message under the headline; every one opens with "오늘 하루" ("today"). */
  function GreetingMessage(t: TimeOfDay): (m: string)
    ensures |m| > 5 && m[..5] == "오늘 하루"
  {
    match t
    case Morning => "오늘 하루도 활기차게 시작해볼까요?"
    case Lunch => "오늘 하루는 어떻게 보내고 계신가요?"
    case Evening => "오늘 하루는 어땠나요?"
    case Night => "오늘 하루를 마무리해볼까요?"
  }

  /** The headline `좋은 ${timeOfDay}입니다`. */
  function GreetingText(t: TimeOfDay): (g: string)
    ensures |g| > 6 && g[..3] == "좋은 " && g[|g| - 3..] == "입니다"
  {
    "좋은 " + TimeOfDayWord(t) + "입니다"
  }

  /** Different bands greet differently, both in the headline and in the message under it. */
  lemma GreetingIdentifiesTimeOfDay(a: TimeOfDay, b: TimeOfDay)
    requires a != b
    ensures GreetingText(a) != GreetingText(b)
    ensures GreetingMessage(a) != GreetingMessage(b)
  {
    assert GreetingText(a)[3] != GreetingText(b)[3];
  }

  /** How `getCurrentLocationWeather()` settled: with data, or by throwing. */
  datatype FetchResult = Fetched(data: WeatherData) | Failed(failure: FetchFailure)

  /** What was thrown: an `Error` with its message, or some other value. */
  datatype FetchFailure = ErrorInstance(message: string) | NonErrorValue

  /** The failure texts, each written sentence by sentence (the sentences join with one space). */
  const LocationDeniedMessage: string := "위치 권한이 거부되었습니다. " + "위치 권한을 허용하면 " + "현재 위치의 날씨를 볼 수 있습니다."
  const InvalidKeyMessage: string := "날씨 API 인증 키가 유효하지 않습니다. OpenWeatherMap API 키를 확인해주세요."
  const NotFoundMessage: string := "현재 위치의 날씨 정보를 찾을 수 없습니다. " + "다른 위치로 시도해보세요."
  const GenericFailureMessage: string := "날씨 정보를 가져오는데 실패했습니다. " + "기본 날씨 정보를 표시합니다."

  /** The user-facing text for a failed fetch; the first matching test wins. */
  function WeatherErrorMessage(failure: FetchFailure): (m: string)
    ensures m == LocationDeniedMessage || m == InvalidKeyMessage || m == NotFoundMessage || m == GenericFailureMessage
    ensures failure.NonErrorValue? ==> m == GenericFailureMessage
    ensures failure.ErrorInstance? && Includes(failure.message, "위치 권한") ==> m == LocationDeniedMessage
    ensures failure.ErrorInstance? && !Includes(failure.message, "위치 권한") && Includes(failure.message, "401")
      ==> m == InvalidKeyMessage
    ensures (failure.ErrorInstance? && !Includes(failure.message, "위치 권한") && !Includes(failure.message, "401")
      && Includes(failure.message, "404")) ==> m == NotFoundMessage
    ensures (failure.ErrorInstance? && !Includes(failure.message, "위치 권한") && !Includes(failure.message, "401")
      && !Includes(failure.message, "404")) ==> m == GenericFailureMessage
  {
    if failure.NonErrorValue? then GenericFailureMessage
    else if Includes(failure.message, "위치 권한") then LocationDeniedMessage
    else if Includes(failure.message, "401") then InvalidKeyMessage
    else if Includes(failure.message, "404") then NotFoundMessage
    else GenericFailureMessage
  }

  /** The rejected-key text names the API key in its second sentence. */
  lemma InvalidKeyMessageMentionsKey()
    ensures Includes(InvalidKeyMessage, ApiKeyMarker)
  {
    assert OccursAt(InvalidKeyMessage, ApiKeyMarker, 39);
  }

  /** The location-permission text has no Latin letters, so it cannot name the API key. */
  lemma LocationDeniedOmitsKey()
    ensures !Includes(LocationDeniedMessage, ApiKeyMarker)
  {
    MissingCharExcludes(LocationDeniedMessage, ApiKeyMarker, 0);
  }

  /** The not-found text has no Latin letters either. */
  lemma NotFoundOmitsKey()
    ensures !Includes(NotFoundMessage, ApiKeyMarker)
  {
    MissingCharExcludes(NotFoundMessage, ApiKeyMarker, 0);
  }

  /** Nor has the generic failure text. */
  lemma GenericFailureOmitsKey()
    ensures !Includes(GenericFailureMessage, ApiKeyMarker)
  {
    MissingCharExcludes(GenericFailureMessage, ApiKeyMarker, 0);
  }

  /**
   * The card shows the key hint after a failed fetch exactly when an `Error` was thrown whose
   * message names status 401 and not the location permission.
   */
  lemma KeyHintOnlyForRejectedKey(failure: FetchFailure)
    ensures Includes(WeatherErrorMessage(failure), ApiKeyMarker) <==>
      failure.ErrorInstance? && !Includes(failure.message, "위치 권한") && Includes(failure.message, "401")
  {
    InvalidKeyMessageMentionsKey();
    LocationDeniedOmitsKey();
    NotFoundOmitsKey();
    GenericFailureOmitsKey();
  }

  /**
   * After a failed fetch the fallback data is stored, yet the card shows the error text and not
   * that data, because every failure text is non-empty.
   */
  lemma FallbackDataIsNotShown(failure: FetchFailure)
    ensures var message := WeatherErrorMessage(failure);
      SelectCardView(false, Some(message), Some(GetMockWeatherData()))
        == ErrorView(message, Includes(message, ApiKeyMarker))
  {
    var message := WeatherErrorMessage(failure);
    assert |message| > 0 by {
      assert |LocationDeniedMessage| > 0 && |InvalidKeyMessage| > 0;
      assert |NotFoundMessage| > 0 && |GenericFailureMessage| > 0;
    }
  }

  /** The focus rule: refresh when enabled and more than the interval has passed since the last success. */
  predicate ShouldAutoRefresh(interval: int, now: int, lastUpdate: int)
    ensures ShouldAutoRefresh(interval, now, lastUpdate) ==> interval > 0 && now > lastUpdate
  {
    interval > 0 && now - lastUpdate > interval
  }

  /** The "recent diaries" section: a notice when there are none, else the first three rows at most. */
  datatype RecentSection = NoEntriesYet | RecentRows(entries: seq<DiaryEntry>)

  function SelectRecentSection(diaryEntries: seq<DiaryEntry>): (v: RecentSection)
    ensures v.NoEntriesYet? <==> diaryEntries == []
    ensures v.RecentRows? ==> |v.entries| == if |diaryEntries| < 3 then |diaryEntries| else 3
    ensures v.RecentRows? ==> v.entries == diaryEntries[..|v.entries|]
  {
    if |diaryEntries| == 0 then NoEntriesYet
    else RecentRows(diaryEntries[..if |diaryEntries| < 3 then |diaryEntries| else 3])
  }

  /**
   * Shown the stored entries newest first, the section holds stored entries only, and every
   * stored entry it leaves out is no newer than each one it shows.
   */
  lemma RecentAreNewest(stored: seq<DiaryEntry>)
    requires stored != []
    ensures var v := SelectRecentSection(SortNewestFirst(stored));
      v.RecentRows? && forall x :: x in v.entries ==> x in stored
    ensures var v := SelectRecentSection(SortNewestFirst(stored));
      v.RecentRows? && forall x, y :: x in stored && x !in v.entries && y in v.entries ==> Key(x) <= Key(y)
  {
    var sorted := SortNewestFirst(stored);
    assert |sorted| == |stored| by {
      assert |multiset(sorted)| == |multiset(stored)|;
    }
    var v := SelectRecentSection(sorted);
    var shown := v.entries;
    forall x | x in shown
      ensures x in stored
    {
      assert x in multiset(sorted);
    }
    forall x, y | x in stored && x !in shown && y in shown
      ensures Key(x) <= Key(y)
    {
      assert x in multiset(sorted);
      var j :| 0 <= j < |sorted| && sorted[j] == x;
      var i :| 0 <= i < |shown| && shown[i] == y;
      assert sorted[i] == y;
    }
  }

  /** The four pieces of weather state a fetch writes. */
  datatype WeatherPanel = WeatherPanel(
    weatherData: Option<WeatherData>,
    lastWeatherUpdate: int,
    selectedWeather: Option<WeatherType>,
    weatherError: Option<string>)

  /**
   * The weather state once `fetchWeatherData` has settled. Either way there is data and the
   * selected weather is that data's; the error text is set exactly on failure, and only a
   * success moves the time stamp.
   */
  function AfterFetch(result: FetchResult, fetchedAt: int, lastUpdate: int): (p: WeatherPanel)
    ensures p.weatherData.Some? && p.selectedWeather == Some(p.weatherData.value.weatherType)
    ensures p.weatherError.None? <==> result.Fetched?
    ensures p.lastWeatherUpdate == if result.Fetched? then fetchedAt else lastUpdate
    ensures result.Fetched? ==> p.weatherData == Some(result.data)
    ensures result.Failed? ==> p.weatherData == Some(GetMockWeatherData())
    ensures result.Failed? ==> p.weatherError == Some(WeatherErrorMessage(result.failure))
  {
    match result
    case Fetched(data) => WeatherPanel(Some(data), fetchedAt, Some(data.weatherType), None)
    case Failed(failure) =>
      var mockData := GetMockWeatherData();
      WeatherPanel(Some(mockData), lastUpdate, Some(mockData.weatherType), Some(WeatherErrorMessage(failure)))
  }

  /** What the card shows once a fetch has settled. */
  function CardAfterFetch(p: WeatherPanel): CardView {
    SelectCardView(false, p.weatherError, p.weatherData)
  }

  /**
   * Once a fetch has settled the card shows the fetched data on success, and on failure the
   * error text with the key hint exactly for a rejected key; the fallback data is stored but,
   * every failure text being non-empty, it is never what the card shows.
   */
  lemma CardAfterFetchShows(result: FetchResult, fetchedAt: int, lastUpdate: int)
    ensures var v := CardAfterFetch(AfterFetch(result, fetchedAt, lastUpdate));
      result.Fetched? ==> v.DataView? && v.location == result.data.location && v.temperature == result.data.temperature
    ensures var v := CardAfterFetch(AfterFetch(result, fetchedAt, lastUpdate));
      result.Failed? ==> v == ErrorView(WeatherErrorMessage(result.failure), Includes(WeatherErrorMessage(result.failure), ApiKeyMarker))
    ensures var v := CardAfterFetch(AfterFetch(result, fetchedAt, lastUpdate));
      v.ErrorView? ==> (v.showKeyHint <==>
        result.Failed? && result.failure.ErrorInstance?
        && !Includes(result.failure.message, "위치 권한") && Includes(result.failure.message, "401"))
  {
    if result.Failed? {
      FallbackDataIsNotShown(result.failure);
      KeyHintOnlyForRejectedKey(result.failure);
    }
  }

  /** The component state the model follows. */
  class HomeState {
    var diaryEntries: seq<DiaryEntry>
    var loading: bool
    var selectedWeather: Option<WeatherType>
    var selectedEmotion: Option<Emotion>
    var greeting: string
    var greetingMessage: string
    var weatherData: Option<WeatherData>
    var isLoadingWeather: bool
    var weatherError: Option<string>
    var lastWeatherUpdate: int
    var weatherUpdateInterval: int

    /** The initial `useState` values; the refresh interval defaults to thirty minutes. */
    constructor ()
      ensures diaryEntries == [] && loading && selectedWeather == None && selectedEmotion == None
      ensures greeting == "" && greetingMessage == ""
      ensures weatherData == None && isLoadingWeather && weatherError == None
      ensures lastWeatherUpdate == 0 && weatherUpdateInterval == 30 * 60 * 1000
    {
      diaryEntries := [];
      loading := true;
      selectedWeather := None;
      selectedEmotion := None;
      greeting := "";
      greetingMessage := "";
      weatherData := None;
      isLoadingWeather := true;
      weatherError := None;
      lastWeatherUpdate := 0;
      weatherUpdateInterval := 30 * 60 * 1000;
    }

    /** The weather fields as one value. */
    function Panel(): WeatherPanel
      reads this
    {
      WeatherPanel(weatherData, lastWeatherUpdate, selectedWeather, weatherError)
    }

    /** `loadDiaryEntries`: the stored entries, newest first; the read never fails. */
    method LoadDiaryEntries(store: EntryStore)
      modifies this`diaryEntries, this`loading
      ensures !loading && diaryEntries == SortNewestFirst(store.Entries())
    {
      loading := true;
      var entries := store.GetDiaryEntries();
      diaryEntries := SortNewestFirst(entries);
      loading := false;
    }

    /** `updateGreeting` for the hour the clock reads. */
    method UpdateGreeting(hours: Hour)
      modifies this`greeting, this`greetingMessage
      ensures greeting == GreetingText(TimeOfDayAt(hours))
      ensures greetingMessage == GreetingMessage(TimeOfDayAt(hours))
    {
      var timeOfDay := TimeOfDayAt(hours);
      greeting := GreetingText(timeOfDay);
      greetingMessage := GreetingMessage(timeOfDay);
    }

    /**
     * `fetchWeatherData`, given how the fetch settled and the clock at success: the spinner
     * and the cleared error while it runs, then the settled state.
     */
    method FetchWeatherData(result: FetchResult, fetchedAt: int)
      modifies this`weatherData, this`lastWeatherUpdate, this`selectedWeather, this`weatherError, this`isLoadingWeather
      ensures !isLoadingWeather
      ensures Panel() == AfterFetch(result, fetchedAt, old(lastWeatherUpdate))
    {
      isLoadingWeather := true;
      weatherError := None;
      if result.Fetched? {
        weatherData := Some(result.data);
        lastWeatherUpdate := fetchedAt;
        selectedWeather := Some(result.data.weatherType);
      } else {
        var mockData := GetMockWeatherData();
        weatherData := Some(mockData);
        selectedWeather := Some(mockData.weatherType);
        weatherError := Some(WeatherErrorMessage(result.failure));
      }
      isLoadingWeather := false;
    }

    method HandleWeatherSelect(weather: WeatherType)
      modifies this`selectedWeather
      ensures selectedWeather == Some(weather)
    {
      selectedWeather := Some(weather);
    }

    method HandleEmotionSelect(emotion: Emotion)
      modifies this`selectedEmotion
      ensures selectedEmotion == Some(emotion)
    {
      selectedEmotion := Some(emotion);
    }

    /**
     * One run of the screen's effect: adopt the stored refresh interval, fetch the weather only
     * while nothing was ever loaded and no success is stamped, and refresh the greeting.
     */
    method RunEffect(storedInterval: int, hours: Hour, result: FetchResult, fetchedAt: int) returns (fetched: bool)
      modifies this`weatherUpdateInterval, this`greeting, this`greetingMessage
      modifies this`weatherData, this`lastWeatherUpdate, this`selectedWeather, this`weatherError, this`isLoadingWeather
      ensures fetched <==> old(weatherData).None? && old(lastWeatherUpdate) == 0
      ensures weatherUpdateInterval == storedInterval
      ensures greeting == GreetingText(TimeOfDayAt(hours)) && greetingMessage == GreetingMessage(TimeOfDayAt(hours))
      ensures fetched ==> !isLoadingWeather && Panel() == AfterFetch(result, fetchedAt, old(lastWeatherUpdate))
      ensures !fetched ==> unchanged(this`weatherData, this`lastWeatherUpdate, this`selectedWeather, this`weatherError, this`isLoadingWeather)
    {
      weatherUpdateInterval := storedInterval;
      fetched := weatherData.None? && lastWeatherUpdate == 0;
      if fetched {
        FetchWeatherData(result, fetchedAt);
      }
      UpdateGreeting(hours);
    }

    /**
     * The focus listener: reload the entries, then refresh the weather when the rule says so.
     * `now` is the clock the rule reads, `fetchedAt` the one a success is stamped with.
     */
    method OnFocus(store: EntryStore, now: int, result: FetchResult, fetchedAt: int) returns (refreshed: bool)
      modifies this`diaryEntries, this`loading
      modifies this`weatherData, this`lastWeatherUpdate, this`selectedWeather, this`weatherError, this`isLoadingWeather
      ensures refreshed <==> ShouldAutoRefresh(weatherUpdateInterval, now, old(lastWeatherUpdate))
      ensures !loading && diaryEntries == SortNewestFirst(store.Entries())
      ensures refreshed ==> !isLoadingWeather && Panel() == AfterFetch(result, fetchedAt, old(lastWeatherUpdate))
      ensures !refreshed ==> unchanged(this`weatherData, this`lastWeatherUpdate, this`selectedWeather, this`weatherError, this`isLoadingWeather)
    {
      LoadDiaryEntries(store);
      refreshed := ShouldAutoRefresh(weatherUpdateInterval, now, lastWeatherUpdate);
      if refreshed {
        FetchWeatherData(result, fetchedAt);
      }
    }

    /** What the weather card renders. */
    function WeatherCard(): CardView
      reads this
    {
      SelectCardView(isLoadingWeather, weatherError, weatherData)
    }

    /** What the recent-diaries section renders. */
    function Recent(): RecentSection
      reads this
    {
      SelectRecentSection(diaryEntries)
    }
  }

  /** Once any fetch has settled, later runs of the effect never fetch on their own again. */
  method EffectFetchesOnce(first: FetchResult, second: FetchResult, hours: Hour, interval: int, fetchedAt: int)
    returns (fetchedFirst: bool, fetchedAgain: bool)
    ensures fetchedFirst && !fetchedAgain
  {
    var screen := new HomeState();
    fetchedFirst := screen.RunEffect(interval, hours, first, fetchedAt);
    fetchedAgain := screen.RunEffect(interval, hours, second, fetchedAt);
  }

  /**
   * A failed fetch leaves the success stamp at zero, so with refreshing enabled every focus
   * after the first interval of the epoch fetches again.
   */
  method FailureRefetchesOnFocus(store: EntryStore, failure: FetchFailure, hours: Hour, interval: int, now: int, result: FetchResult)
    returns (refreshed: bool)
    requires interval > 0 && now > interval
    ensures refreshed
  {
    var screen := new HomeState();
    var _ := screen.RunEffect(interval, hours, Failed(failure), now);
    refreshed := screen.OnFocus(store, now, result, now);
  }

  /** Within the interval after a successful fetch, focusing the screen does not fetch, and the card keeps the data. */
  method NoRefetchWithinInterval(store: EntryStore, data: WeatherData, hours: Hour, interval: int, fetchedAt: int, now: int, result: FetchResult)
    returns (refreshed: bool, card: CardView)
    requires now - fetchedAt <= interval
    ensures !refreshed
    ensures card.DataView? && card.temperature == data.temperature
  {
    var screen := new HomeState();
    var _ := screen.RunEffect(interval, hours, Fetched(data), fetchedAt);
    refreshed := screen.OnFocus(store, now, result, now);
    card := screen.WeatherCard();
  }
}
