/**
 * The pure part of src/utils/weatherApi.ts: the OpenWeatherMap condition-code classifier and
 * the fixed reading used when the live one cannot be fetched. The weather type union is the
 * one declared in src/components/WeatherCard.tsx.
 */
module WeatherApi {

  datatype WeatherType = Sunny | PartlyCloudy | Cloudy | Rainy | Snowy | Stormy

  /** The string each member of the union is at run time. */
  function WeatherTypeName(t: WeatherType): string {
    match t
    case Sunny => "sunny"
    case PartlyCloudy => "partly-cloudy"
    case Cloudy => "cloudy"
    case Rainy => "rainy"
    case Snowy => "snowy"
    case Stormy => "stormy"
  }

  /** A reading: temperature already rounded to whole degrees, wind speed in m/s. */
  datatype WeatherData = WeatherData(
    location: string,
    temperature: int,
    description: string,
    weatherType: WeatherType,
    icon: string,
    humidity: int,
    windSpeed: real)

  /** `mapWeatherCodeToType`: the first band the code falls into, in the order the source tests them. */
  function MapWeatherCodeToType(weatherCode: int): (t: WeatherType)
    ensures t == Sunny <==> weatherCode < 200 || 400 <= weatherCode < 500 || weatherCode == 800 || weatherCode >= 900
  {
    if 200 <= weatherCode < 300 then Stormy
    else if (300 <= weatherCode < 400) || (500 <= weatherCode < 600) then Rainy
    else if 600 <= weatherCode < 700 then Snowy
    else if (700 <= weatherCode < 800) || (800 < weatherCode < 900) then Cloudy
    else if weatherCode == 801 || weatherCode == 802 then PartlyCloudy
    else Sunny
  }

  /** The classification of every code band. */
  lemma WeatherCodeBands(code: int)
    ensures 200 <= code < 300 ==> MapWeatherCodeToType(code) == Stormy
    ensures (300 <= code < 400 || 500 <= code < 600) ==> MapWeatherCodeToType(code) == Rainy
    ensures 600 <= code < 700 ==> MapWeatherCodeToType(code) == Snowy
    ensures (700 <= code < 800 || 801 <= code < 900) ==> MapWeatherCodeToType(code) == Cloudy
    ensures (code < 200 || 400 <= code < 500 || code == 800 || code >= 900) ==> MapWeatherCodeToType(code) == Sunny
  {
  }

  /**
   * The few-clouds codes 801 and 802 are already caught by the cloud band, so the
   * partly-cloudy branch is dead: no code is ever classified as partly cloudy.
   */
  lemma PartlyCloudyUnreachable(code: int)
    ensures MapWeatherCodeToType(code) != PartlyCloudy
    ensures MapWeatherCodeToType(801) == Cloudy && MapWeatherCodeToType(802) == Cloudy
  {
  }

  /**
   * The classifier as its comments describe it: the few-clouds codes 801 and 802 are tested
   * before the rest of the cloud band.
   */
  function MapWeatherCodeToTypeIntended(weatherCode: int): (t: WeatherType)
    ensures weatherCode == 801 || weatherCode == 802 <==> t == PartlyCloudy
  {
    if weatherCode == 801 || weatherCode == 802 then PartlyCloudy
    else MapWeatherCodeToType(weatherCode)
  }

  /** The corrected classifier differs from the one as written on the few-clouds codes and nowhere else. */
  lemma IntendedDiffersOnlyOnFewClouds(code: int)
    ensures MapWeatherCodeToTypeIntended(code) != MapWeatherCodeToType(code) <==> code == 801 || code == 802
  {
    PartlyCloudyUnreachable(code);
  }

  /** `getMockWeatherData`: always the same sunny Seoul reading. */
  function GetMockWeatherData(): (w: WeatherData)
    ensures w.weatherType == Sunny && w.humidity == 60 && w.temperature == 22
    ensures w.location == "서울" && w.description == "맑음" && w.icon == "01d" && w.windSpeed == 5.1
  {
    WeatherData("서울", 22, "맑음", Sunny, "01d", 60, 5.1)
  }
}
