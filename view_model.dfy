/**
 * The view model behind the weather screen: eight fields that the screen
 * observes and three operations that update them step by step. Each
 * operation is proved to end in the state, and to send the requests, that
 * the matching stage of LocationSpec describes.
 */
module ViewModel {
  import opened Wrappers
  import opened PlaceNames
  import opened LocationSpec

  class LocationViewModel {
    var currentCity: string
    var latitude: real
    var longitude: real
    var isLoading: bool
    var errorMessage: string
    var weatherData: Option<WeatherResponse>
    var isLoadingWeather: bool
    var weatherError: string

    /** The weather service key, fixed for the lifetime of the view model. */
    const apiKey: string

    /** Every request sent to a collaborator so far, with the state observable meanwhile. */
    ghost var requests: seq<Event>

    function State(): ViewState
      reads this
    {
      ViewState(currentCity, latitude, longitude, isLoading, errorMessage,
                weatherData, isLoadingWeather, weatherError)
    }

    constructor (apiKey: string)
      ensures State() == Initial && this.apiKey == apiKey && requests == []
    {
      currentCity := "";
      latitude, longitude := 0.0, 0.0;
      isLoading := false;
      errorMessage := "";
      weatherData := None;
      isLoadingWeather := false;
      weatherError := "";
      this.apiKey := apiKey;
      requests := [];
    }

    /** Records that `call` is sent now. */
    ghost method Send(call: Call)
      modifies this`requests
      ensures requests == old(requests) + [Event(call, State())]
    {
      requests := requests + [Event(call, State())];
    }

    /** `getCurrentLocation`, with the collaborators' answers given as outcomes. */
    method GetCurrentLocation(loc: LocOutcome, geo: GeoOutcome, storedLang: Option<string>, wx: WxOutcome)
      modifies this
      ensures var r := LocateStep(old(State()), apiKey, loc, geo, storedLang, wx);
              State() == r.state && requests == old(requests) + r.events
      ensures !isLoading
    {
      ghost var log0 := requests;
      isLoading := true;
      errorMessage := "";
      Send(RequestLocation);
      ghost var asked := requests[|log0|..];
      match loc {
        case NoLocation =>
          errorMessage := NoLocationMessage;
        case LocFailed(f) =>
          errorMessage := CaughtMessage(f);
        case Located(lat, lon) =>
          ResolvePlace(lat, lon, geo, storedLang, wx);
          assert requests == log0 + (asked + requests[|log0| + 1..]);
      }
      // the `finally` block
      isLoading := false;
    }

    /**
     * The body of the `location != null` branch of `getCurrentLocation`:
     * store the position, geocode it, name the place, fetch the weather.
     */
    method ResolvePlace(lat: real, lon: real, geo: GeoOutcome, storedLang: Option<string>, wx: WxOutcome)
      modifies this
      ensures var r := ResolveStep(old(State()), apiKey, lat, lon, geo, storedLang, wx);
              State() == r.state && requests == old(requests) + r.events
    {
      ghost var log0 := requests;
      latitude := lat;
      longitude := lon;
      Send(Geocode(latitude, longitude, GeocodeMaxResults));
      ghost var geocoded := requests[|log0|..];
      ghost var placed := State();
      match geo {
        case GeoFailed(f) =>
          errorMessage := CaughtMessage(f);
        case Addresses(list) =>
          if HasAddress(list) {
            currentCity := PlaceName(list.value[0]);
          } else {
            currentCity := UnknownLocation;
            errorMessage := NoCityMessage;
          }
          assert State() == Named(placed, list);
          ghost var fetched := FetchWeatherStep(State(), apiKey, storedLang, wx);
          GetWeatherData(storedLang, wx);
          assert requests == log0 + (geocoded + fetched.events);
      }
    }

    /** `getWeatherData`: runs for the stored coordinates. */
    method GetWeatherData(storedLang: Option<string>, wx: WxOutcome)
      modifies this
      ensures var r := FetchWeatherStep(old(State()), apiKey, storedLang, wx);
              State() == r.state && requests == old(requests) + r.events
      ensures !isLoadingWeather
    {
      isLoadingWeather := true;
      weatherError := "";
      if apiKey == PlaceholderKey {
        weatherError := MissingKeyMessage;
        isLoadingWeather := false;  // the `finally` block on the early return
        return;
      }
      var query := WeatherQuery(latitude, longitude, apiKey, LangCode(storedLang));
      Send(FetchWeather(query));
      match wx {
        case WxOk(w) =>
          weatherData := Some(w);
        case WxFailed(m) =>
          weatherError := WeatherFailurePrefix + MessageText(m);
      }
      isLoadingWeather := false;  // the `finally` block
    }

    /** `refreshWeather` */
    method RefreshWeather(storedLang: Option<string>, wx: WxOutcome)
      modifies this
      ensures var r := RefreshStep(old(State()), apiKey, storedLang, wx);
              State() == r.state && requests == old(requests) + r.events
    {
      if latitude != 0.0 && longitude != 0.0 {
        GetWeatherData(storedLang, wx);
      }
    }
  }
}
