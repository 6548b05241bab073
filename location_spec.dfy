/**
 * The observable state of the weather screen's view model and the three
 * stages that update it, as functions of the old state and of what the
 * collaborators (position source, geocoder, weather service) answer.
 *
 * Each stage returns the new state together with the requests it sent to
 * the collaborators, in order, each paired with the state the screen could
 * observe while that request was outstanding.
 */
module LocationSpec {
  import opened Wrappers
  import opened PlaceNames

  /** The key value the weather stage treats as "not configured". */
  const PlaceholderKey := "YOUR_API_KEY_HERE"
  /** The key the view model is declared with. */
  const DeclaredApiKey := ""
  const MissingKeyMessage := "Please add your OpenWeatherMap API key"
  const NoCityMessage := "Could not determine city name"
  const NoLocationMessage := "Could not get location"
  const PermissionDeniedMessage := "Location permission denied"
  const ErrorPrefix := "Error: "
  const WeatherFailurePrefix := "Failed to get weather: "
  /** Language used when the settings hold none. */
  const DefaultLang := "en"
  /** The geocoder is asked for at most this many addresses. */
  const GeocodeMaxResults: nat := 1

  /** The weather service's answer; the view model only stores it. */
  datatype WeatherResponse = WeatherResponse(
    temp: real, feelsLike: real, tempMin: real, tempMax: real,
    humidity: int, pressure: int, windSpeed: real, description: string)

  /** The eight observable fields of the view model. */
  datatype ViewState = ViewState(
    currentCity: string,
    latitude: real,
    longitude: real,
    isLoading: bool,
    errorMessage: string,
    weatherData: Option<WeatherResponse>,
    isLoadingWeather: bool,
    weatherError: string)

  /** The field initialisers: empty strings, zero coordinates, no weather, no flag set. */
  const Initial := ViewState("", 0.0, 0.0, false, "", None, false, "")

  /** The location fields agree. */
  predicate SameLocation(s: ViewState, t: ViewState) {
    && t.currentCity == s.currentCity
    && t.latitude == s.latitude
    && t.longitude == s.longitude
    && t.isLoading == s.isLoading
    && t.errorMessage == s.errorMessage
  }

  /** What a collaborator throws: a `SecurityException`, or any other exception with its (nullable) message. */
  datatype Fault = SecurityDenied | Thrown(message: Option<string>)

  /** The position source's answer: a position, null, or an exception. */
  datatype LocOutcome = Located(latitude: real, longitude: real) | NoLocation | LocFailed(fault: Fault)

  /** The geocoder's answer: a nullable list of addresses, or an exception. */
  datatype GeoOutcome = Addresses(list: Option<seq<Address>>) | GeoFailed(fault: Fault)

  /** The weather service's answer: a response, or an exception with its (nullable) message. */
  datatype WxOutcome = WxOk(weather: WeatherResponse) | WxFailed(message: Option<string>)

  datatype WeatherQuery = WeatherQuery(latitude: real, longitude: real, apiKey: string, lang: string)

  /** A request sent to a collaborator. The position request is single-shot and high-accuracy. */
  datatype Call =
    | RequestLocation
    | Geocode(latitude: real, longitude: real, maxResults: nat)
    | FetchWeather(query: WeatherQuery)

  /** A request together with the state observable while it was outstanding. */
  datatype Event = Event(call: Call, during: ViewState)

  datatype Step = Step(state: ViewState, events: seq<Event>)

  /** A Kotlin string template renders a null message as "null". */
  function MessageText(m: Option<string>): string {
    m.GetOr("null")
  }

  /** The message the location stage's two `catch` clauses record. */
  function CaughtMessage(f: Fault): (msg: string)
    ensures f.SecurityDenied? <==> msg == PermissionDeniedMessage
    ensures f.Thrown? ==> msg == ErrorPrefix + MessageText(f.message)
  {
    match f
    case SecurityDenied => PermissionDeniedMessage
    case Thrown(m) =>
      var msg := ErrorPrefix + MessageText(m);
      assert msg[0] == 'E' && PermissionDeniedMessage[0] == 'L';
      msg
  }

  /** The stored "lang" setting, "en" when there is none. */
  function LangCode(stored: Option<string>): string {
    stored.GetOr(DefaultLang)
  }

  /** `!addresses.isNullOrEmpty()` */
  predicate HasAddress(list: Option<seq<Address>>) {
    list.Some? && |list.value| > 0
  }

  /**
   * What one run of the weather stage from `s` leaves behind in the weather
   * fields of `t`, having sent the requests `asked`: the loading flag is down,
   * the placeholder key sends nothing, and otherwise exactly one fetch goes out
   * for `t`'s coordinates, after which the answer or the error is recorded;
   * a failure keeps the previous (possibly stale) weather.
   */
  predicate WeatherStageOutcome(s: ViewState, t: ViewState, asked: seq<Event>,
                                apiKey: string, storedLang: Option<string>, wx: WxOutcome)
  {
    && !t.isLoadingWeather
    && (apiKey == PlaceholderKey ==>
          asked == [] && t.weatherData == s.weatherData && t.weatherError == MissingKeyMessage)
    && (apiKey != PlaceholderKey ==>
          && |asked| == 1
          && asked[0].call == FetchWeather(WeatherQuery(t.latitude, t.longitude, apiKey, LangCode(storedLang)))
          && asked[0].during.isLoadingWeather
          && asked[0].during.weatherError == "")
    && (apiKey != PlaceholderKey && wx.WxOk? ==>
          t.weatherData == Some(wx.weather) && t.weatherError == "")
    && (apiKey != PlaceholderKey && wx.WxFailed? ==>
          t.weatherData == s.weatherData && t.weatherError == WeatherFailurePrefix + MessageText(wx.message))
  }

  /** The weather stage: clear the error, check the key, fetch for the stored coordinates. */
  function FetchWeatherStep(s: ViewState, apiKey: string, storedLang: Option<string>, wx: WxOutcome): (r: Step)
    ensures SameLocation(s, r.state)
    ensures WeatherStageOutcome(s, r.state, r.events, apiKey, storedLang, wx)
  {
    var pending := s.(isLoadingWeather := true, weatherError := "");
    if apiKey == PlaceholderKey then
      Step(pending.(weatherError := MissingKeyMessage, isLoadingWeather := false), [])
    else
      var query := WeatherQuery(s.latitude, s.longitude, apiKey, LangCode(storedLang));
      var answered :=
        match wx
        case WxOk(w) => pending.(weatherData := Some(w))
        case WxFailed(m) => pending.(weatherError := WeatherFailurePrefix + MessageText(m));
      Step(answered.(isLoadingWeather := false), [Event(FetchWeather(query), pending)])
  }

  /**
   * The location stage: raise the flag and clear the error, ask for the
   * position, geocode it, name the place, then run the weather stage.
   */
  function LocateStep(s: ViewState, apiKey: string, loc: LocOutcome, geo: GeoOutcome,
                      storedLang: Option<string>, wx: WxOutcome): (r: Step)
    // the flag is down on every exit, and up while any request is outstanding
    ensures !r.state.isLoading
    ensures forall i :: 0 <= i < |r.events| ==> r.events[i].during.isLoading
    // the error is cleared before the position is asked for
    ensures |r.events| >= 1 && r.events[0] == Event(RequestLocation, s.(isLoading := true, errorMessage := ""))
    // no position: only the error message changes, nothing else is asked
    ensures !loc.Located? ==>
              && |r.events| == 1
              && r.state == s.(isLoading := false, errorMessage := r.state.errorMessage)
    ensures loc.NoLocation? ==> r.state.errorMessage == NoLocationMessage
    ensures loc.LocFailed? ==> r.state.errorMessage == CaughtMessage(loc.fault)
    // a position is stored and geocoded at once, asking for one address
    ensures loc.Located? ==>
              && r.state.latitude == loc.latitude
              && r.state.longitude == loc.longitude
              && |r.events| >= 2
              && r.events[1].call == Geocode(loc.latitude, loc.longitude, GeocodeMaxResults)
    // a geocoder exception keeps the old city and weather and skips the weather stage
    ensures loc.Located? && geo.GeoFailed? ==>
              && |r.events| == 2
              && r.state == s.(latitude := loc.latitude, longitude := loc.longitude,
                               isLoading := false, errorMessage := CaughtMessage(geo.fault))
    // with an answer, the city is named and the weather stage runs for the new position
    ensures loc.Located? && geo.Addresses? && HasAddress(geo.list) ==>
              r.state.currentCity == PlaceName(geo.list.value[0]) && r.state.errorMessage == ""
    ensures loc.Located? && geo.Addresses? && !HasAddress(geo.list) ==>
              r.state.currentCity == UnknownLocation && r.state.errorMessage == NoCityMessage
    ensures loc.Located? && geo.Addresses? ==>
              WeatherStageOutcome(s, r.state, r.events[2..], apiKey, storedLang, wx)
  {
    var pending := s.(isLoading := true, errorMessage := "");
    var asked := [Event(RequestLocation, pending)];
    match loc
    case NoLocation =>
      Step(pending.(errorMessage := NoLocationMessage, isLoading := false), asked)
    case LocFailed(f) =>
      Step(pending.(errorMessage := CaughtMessage(f), isLoading := false), asked)
    case Located(lat, lon) =>
      var resolved := ResolveStep(pending, apiKey, lat, lon, geo, storedLang, wx);
      assert (asked + resolved.events)[1..] == resolved.events;
      Step(resolved.state.(isLoading := false), asked + resolved.events)
  }

  /**
   * The part of the location stage that follows a position fix at (lat, lon):
   * store the position, geocode it, then either record the geocoder's
   * exception, or name the place and run the weather stage. The location
   * stage's loading flag is left as it was found.
   */
  function ResolveStep(pending: ViewState, apiKey: string, lat: real, lon: real, geo: GeoOutcome,
                       storedLang: Option<string>, wx: WxOutcome): (r: Step)
    ensures r.state.isLoading == pending.isLoading
    ensures forall i :: 0 <= i < |r.events| ==> r.events[i].during.isLoading == pending.isLoading
    ensures r.state.latitude == lat && r.state.longitude == lon
    ensures |r.events| >= 1 &&
            r.events[0] == Event(Geocode(lat, lon, GeocodeMaxResults), pending.(latitude := lat, longitude := lon))
    ensures geo.GeoFailed? ==>
              && |r.events| == 1
              && r.state == pending.(latitude := lat, longitude := lon, errorMessage := CaughtMessage(geo.fault))
    ensures geo.Addresses? && HasAddress(geo.list) ==>
              r.state.currentCity == PlaceName(geo.list.value[0]) && r.state.errorMessage == pending.errorMessage
    ensures geo.Addresses? && !HasAddress(geo.list) ==>
              r.state.currentCity == UnknownLocation && r.state.errorMessage == NoCityMessage
    ensures geo.Addresses? ==>
              WeatherStageOutcome(pending, r.state, r.events[1..], apiKey, storedLang, wx)
  {
    var placed := pending.(latitude := lat, longitude := lon);
    var geocoded := [Event(Geocode(lat, lon, GeocodeMaxResults), placed)];
    match geo
    case GeoFailed(f) =>
      Step(placed.(errorMessage := CaughtMessage(f)), geocoded)
    case Addresses(list) =>
      var named := Named(placed, list);
      var fetched := FetchWeatherStep(named, apiKey, storedLang, wx);
      assert (geocoded + fetched.events)[1..] == fetched.events;
      Step(fetched.state, geocoded + fetched.events)
  }

  /** The state once the geocoder has answered with `list`: the city is named, or an advisory is set. */
  function Named(placed: ViewState, list: Option<seq<Address>>): ViewState {
    if HasAddress(list) then placed.(currentCity := PlaceName(list.value[0]))
    else placed.(currentCity := UnknownLocation, errorMessage := NoCityMessage)
  }

  /** `refreshWeather`: the weather stage again, unless either stored coordinate is zero. */
  function RefreshStep(s: ViewState, apiKey: string, storedLang: Option<string>, wx: WxOutcome): (r: Step)
    ensures s.latitude == 0.0 || s.longitude == 0.0 ==> r == Step(s, [])
    ensures s.latitude != 0.0 && s.longitude != 0.0 ==> r == FetchWeatherStep(s, apiKey, storedLang, wx)
    ensures SameLocation(s, r.state)
    // neither the position source nor the geocoder is asked; the stored position is reused
    ensures forall e :: e in r.events ==>
              e.call == FetchWeather(WeatherQuery(s.latitude, s.longitude, apiKey, LangCode(storedLang)))
  {
    if s.latitude != 0.0 && s.longitude != 0.0 then FetchWeatherStep(s, apiKey, storedLang, wx)
    else Step(s, [])
  }
}
