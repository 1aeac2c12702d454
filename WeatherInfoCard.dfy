/** The weather card of src/components/WeatherInfoCard.tsx: icon and colour tables and the view it picks. */
module WeatherInfoCard {
  import opened Types
  import opened JsString
  import opened WeatherApi

  /** `getWeatherIcon`: the icon for each weather type name, "help-circle" for any other string. */
  function GetWeatherIcon(weatherType: string): (icon: string)
    ensures icon == "help-circle" <==> forall t: WeatherType :: weatherType != WeatherTypeName(t)
  {
    if weatherType == "sunny" then assert weatherType == WeatherTypeName(Sunny); "sunny"
    else if weatherType == "partly-cloudy" then assert weatherType == WeatherTypeName(PartlyCloudy); "partly-sunny"
    else if weatherType == "cloudy" then assert weatherType == WeatherTypeName(Cloudy); "cloud"
    else if weatherType == "rainy" then assert weatherType == WeatherTypeName(Rainy); "rainy"
    else if weatherType == "snowy" then assert weatherType == WeatherTypeName(Snowy); "snow"
    else if weatherType == "stormy" then assert weatherType == WeatherTypeName(Stormy); "thunderstorm"
    else "help-circle"
  }

  /** `getWeatherColor`: the background for each weather type name, "#f5f5f5" for any other string. */
  function GetWeatherColor(weatherType: string): (color: string)
    ensures color == "#f5f5f5" <==> forall t: WeatherType :: weatherType != WeatherTypeName(t)
  {
    if weatherType == "sunny" then assert weatherType == WeatherTypeName(Sunny); "#FFD700"
    else if weatherType == "partly-cloudy" then assert weatherType == WeatherTypeName(PartlyCloudy); "#87CEEB"
    else if weatherType == "cloudy" then assert weatherType == WeatherTypeName(Cloudy); "#A9A9A9"
    else if weatherType == "rainy" then assert weatherType == WeatherTypeName(Rainy); "#6495ED"
    else if weatherType == "snowy" then assert weatherType == WeatherTypeName(Snowy); "#E0FFFF"
    else if weatherType == "stormy" then assert weatherType == WeatherTypeName(Stormy); "#4682B4"
    else "#f5f5f5"
  }

  /** A row of the option table of the weather picker in src/components/WeatherCard.tsx. */
  datatype WeatherOption = WeatherOption(kind: WeatherType, icon: string, title: string, color: string)

  const WeatherOptions: seq<WeatherOption> := [
    WeatherOption(Sunny, "sunny", "맑음", "#FFD700"),
    WeatherOption(PartlyCloudy, "partly-sunny", "구름조금", "#87CEEB"),
    WeatherOption(Cloudy, "cloud", "흐림", "#A9A9A9"),
    WeatherOption(Rainy, "rainy", "비", "#6495ED"),
    WeatherOption(Snowy, "snow", "눈", "#E0FFFF"),
    WeatherOption(Stormy, "thunderstorm", "폭풍", "#4682B4")
  ]

  /** The picker offers six options with distinct weather types and distinct titles; with
      `TablesAgreeWithOptions` every type has exactly one. */
  lemma OptionsCoverEachTypeOnce()
    ensures |WeatherOptions| == 6
    ensures forall i, j :: 0 <= i < j < |WeatherOptions| ==> WeatherOptions[i].kind != WeatherOptions[j].kind
    ensures forall i, j :: 0 <= i < j < |WeatherOptions| ==> WeatherOptions[i].title != WeatherOptions[j].title
  {
  }

  /** Every weather type has a picker option, and the card's icon and colour for it are that option's. */
  lemma TablesAgreeWithOptions(t: WeatherType)
    ensures exists i ::
      && 0 <= i < |WeatherOptions| && WeatherOptions[i].kind == t
      && GetWeatherIcon(WeatherTypeName(t)) == WeatherOptions[i].icon
      && GetWeatherColor(WeatherTypeName(t)) == WeatherOptions[i].color
  {
    var i := match t
      case Sunny => 0
      case PartlyCloudy => 1
      case Cloudy => 2
      case Rainy => 3
      case Snowy => 4
      case Stormy => 5;
    assert WeatherOptions[i].kind == t;
  }

  /** A string that names no weather type falls to the defaults of both tables. */
  lemma UnknownTypeDefaults(weatherType: string)
    requires forall t: WeatherType :: weatherType != WeatherTypeName(t)
    ensures GetWeatherIcon(weatherType) == "help-circle" && GetWeatherColor(weatherType) == "#f5f5f5"
  {
    assert weatherType != WeatherTypeName(Sunny) && weatherType != WeatherTypeName(PartlyCloudy);
    assert weatherType != WeatherTypeName(Cloudy) && weatherType != WeatherTypeName(Rainy);
    assert weatherType != WeatherTypeName(Snowy) && weatherType != WeatherTypeName(Stormy);
  }

  /** The text shown when there is nothing better to say. */
  const FallbackErrorText: string := "날씨 정보를 가져올 수 없습니다"

  /** The marker whose presence in the error adds the API-key hint. */
  const ApiKeyMarker: string := "API 키"

  /** JavaScript truthiness of an optional string: defined and not empty. */
  predicate Truthy(error: Option<string>) {
    error.Some? && error.value != ""
  }

  datatype CardView =
    | LoadingView
    | ErrorView(message: string, showKeyHint: bool)
    | DataView(location: string, icon: string, color: string, description: string,
               temperature: int, humidity: int, windSpeed: real)

  /** Which of the three renderings the card returns for its props. */
  function SelectCardView(isLoading: bool, error: Option<string>, weatherData: Option<WeatherData>): (v: CardView)
    ensures isLoading <==> v.LoadingView?
    ensures !isLoading ==> (v.ErrorView? <==> Truthy(error) || weatherData.None?)
    ensures v.ErrorView? ==> v.message == (if Truthy(error) then error.value else FallbackErrorText)
    ensures v.ErrorView? ==> (v.showKeyHint <==> Truthy(error) && Includes(error.value, ApiKeyMarker))
    ensures v.DataView? ==> weatherData.Some?
    ensures v.DataView? ==> v.icon == GetWeatherIcon(WeatherTypeName(weatherData.value.weatherType))
    ensures v.DataView? ==> v.color == GetWeatherColor(WeatherTypeName(weatherData.value.weatherType))
    ensures v.DataView? ==> v.temperature == weatherData.value.temperature
    ensures v.DataView? ==> v.location == weatherData.value.location && v.description == weatherData.value.description
    ensures v.DataView? ==> v.humidity == weatherData.value.humidity && v.windSpeed == weatherData.value.windSpeed
  {
    if isLoading then LoadingView
    else if Truthy(error) || weatherData.None? then
      var message := if Truthy(error) then error.value else FallbackErrorText;
      ErrorView(message, Truthy(error) && Includes(error.value, ApiKeyMarker))
    else
      var w := weatherData.value;
      var name := WeatherTypeName(w.weatherType);
      DataView(w.location, GetWeatherIcon(name), GetWeatherColor(name), w.description,
               w.temperature, w.humidity, w.windSpeed)
  }
}
