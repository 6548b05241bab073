/**
 * Sequences of calls the screen makes on one view model, one after another,
 * and what holds after any such sequence.
 */
module Sessions {
  import opened Wrappers
  import opened PlaceNames
  import opened LocationSpec

  /** A call the screen makes, with the answers its collaborators will give. */
  datatype Action =
    | GetCurrentLocation(loc: LocOutcome, geo: GeoOutcome, storedLang: Option<string>, wx: WxOutcome)
    | RefreshWeather(storedLang: Option<string>, wx: WxOutcome)

  function Perform(s: ViewState, apiKey: string, a: Action): Step {
    match a
    case GetCurrentLocation(loc, geo, lang, wx) => LocateStep(s, apiKey, loc, geo, lang, wx)
    case RefreshWeather(lang, wx) => RefreshStep(s, apiKey, lang, wx)
  }

  /** Neither loading flag is raised. */
  predicate Idle(s: ViewState) {
    !s.isLoading && !s.isLoadingWeather
  }

  /** The calls performed in order: the final state and every request sent. */
  function Run(s: ViewState, apiKey: string, actions: seq<Action>): (r: Step)
    ensures Idle(s) ==> Idle(r.state)
    decreases |actions|
  {
    if actions == [] then Step(s, [])
    else
      var first := Perform(s, apiKey, actions[0]);
      var rest := Run(first.state, apiKey, actions[1..]);
      Step(rest.state, first.events + rest.events)
  }

  /** Some position has been handed to the geocoder. */
  ghost predicate Resolved(log: seq<Event>) {
    exists e :: e in log && e.call.Geocode?
  }

  /** Every weather fetch in `log` was preceded by a resolved position. */
  ghost predicate FetchesFollowResolution(log: seq<Event>) {
    forall i :: 0 <= i < |log| && log[i].call.FetchWeather? ==> Resolved(log[..i])
  }

  /**
   * No weather state and no coordinates exist without an earlier successful
   * position fix, and no fetch was ever sent before one.
   */
  ghost predicate Grounded(s: ViewState, log: seq<Event>) {
    && ((s.latitude != 0.0 || s.longitude != 0.0 || s.currentCity != "" ||
         s.weatherData.Some? || s.weatherError != "") ==> Resolved(log))
    && FetchesFollowResolution(log)
  }

  lemma AppendKeepsOrder(log: seq<Event>, more: seq<Event>)
    requires FetchesFollowResolution(log)
    requires forall k :: 0 <= k < |more| && more[k].call.FetchWeather? ==> Resolved(log + more[..k])
    ensures FetchesFollowResolution(log + more)
  {
    var all := log + more;
    forall i | 0 <= i < |all| && all[i].call.FetchWeather?
      ensures Resolved(all[..i])
    {
      if i < |log| {
        assert all[..i] == log[..i];
      } else {
        assert all[i] == more[i - |log|];
        assert all[..i] == log + more[..i - |log|];
      }
    }
  }

  lemma ResolvedGrows(log: seq<Event>, more: seq<Event>)
    requires Resolved(log)
    ensures Resolved(log + more)
  {
    var e :| e in log && e.call.Geocode?;
    assert e in log + more;
  }

  /** One call keeps a grounded state grounded. */
  lemma PerformKeepsGrounded(s: ViewState, log: seq<Event>, apiKey: string, a: Action)
    requires Grounded(s, log)
    ensures Grounded(Perform(s, apiKey, a).state, log + Perform(s, apiKey, a).events)
  {
    var r := Perform(s, apiKey, a);
    match a
    case RefreshWeather(lang, wx) =>
      if s.latitude != 0.0 && s.longitude != 0.0 {
        forall k | 0 <= k < |r.events| && r.events[k].call.FetchWeather?
          ensures Resolved(log + r.events[..k])
        {
          assert k == 0 && r.events[..k] == [];
          assert log + r.events[..k] == log;
        }
        AppendKeepsOrder(log, r.events);
        ResolvedGrows(log, r.events);
      } else {
        assert log + r.events == log;
      }
    case GetCurrentLocation(loc, geo, lang, wx) =>
      if loc.Located? {
        var geocode := r.events[1];
        assert geocode.call.Geocode?;
        forall k | 0 <= k < |r.events| && r.events[k].call.FetchWeather?
          ensures Resolved(log + r.events[..k])
        {
          assert k >= 2;
          assert (log + r.events[..k])[|log| + 1] == geocode;
        }
        AppendKeepsOrder(log, r.events);
        assert (log + r.events)[|log| + 1] == geocode;
      } else {
        assert r.events == [r.events[0]] && !r.events[0].call.FetchWeather?;
        AppendKeepsOrder(log, r.events);
        if Resolved(log) {
          ResolvedGrows(log, r.events);
        }
      }
  }

  /** Any sequence of calls keeps a grounded state grounded. */
  lemma {:induction false} RunKeepsGrounded(s: ViewState, log: seq<Event>, apiKey: string, actions: seq<Action>)
    requires Grounded(s, log)
    ensures Grounded(Run(s, apiKey, actions).state, log + Run(s, apiKey, actions).events)
    decreases |actions|
  {
    if actions != [] {
      var first := Perform(s, apiKey, actions[0]);
      var rest := Run(first.state, apiKey, actions[1..]);
      PerformKeepsGrounded(s, log, apiKey, actions[0]);
      RunKeepsGrounded(first.state, log + first.events, apiKey, actions[1..]);
      assert log + first.events + rest.events == log + (first.events + rest.events);
    } else {
      assert log + Run(s, apiKey, actions).events == log;
    }
  }

  /**
   * From a fresh view model, whatever the screen calls: coordinates, a city
   * and any weather state appear only after a position was resolved, and no
   * weather fetch is ever sent before one.
   */
  lemma SessionIsGrounded(apiKey: string, actions: seq<Action>)
    ensures var r := Run(Initial, apiKey, actions);
            && Grounded(r.state, r.events)
            && Idle(r.state)
  {
    assert Grounded(Initial, []);
    RunKeepsGrounded(Initial, [], apiKey, actions);
    assert [] + Run(Initial, apiKey, actions).events == Run(Initial, apiKey, actions).events;
  }

  /**
   * Repeated refreshes at a stored position: the last answer wins. The error
   * reflects the last refresh only; the weather is the last successful answer,
   * or the weather from before when every refresh failed; each refresh sends
   * exactly one fetch, for the stored position.
   */
  lemma {:induction false} RefreshesLastWriteWins(s: ViewState, apiKey: string, actions: seq<Action>)
    requires s.latitude != 0.0 && s.longitude != 0.0
    requires apiKey != PlaceholderKey
    requires forall i :: 0 <= i < |actions| ==> actions[i].RefreshWeather?
    ensures var r := Run(s, apiKey, actions);
            && SameLocation(s, r.state)
            && |r.events| == |actions|
            && (forall e :: e in r.events ==>
                  (e.call.FetchWeather? &&
                   e.call.query.latitude == s.latitude && e.call.query.longitude == s.longitude))
            && (actions != [] && actions[|actions| - 1].wx.WxOk? ==> r.state.weatherError == "")
            && (actions != [] && actions[|actions| - 1].wx.WxFailed? ==>
                  r.state.weatherError == WeatherFailurePrefix + MessageText(actions[|actions| - 1].wx.message))
            && ((forall i :: 0 <= i < |actions| ==> actions[i].wx.WxFailed?) ==> r.state.weatherData == s.weatherData)
            && (forall i :: (0 <= i < |actions| && actions[i].wx.WxOk? &&
                             forall j :: i < j < |actions| ==> actions[j].wx.WxFailed?) ==>
                  r.state.weatherData == Some(actions[i].wx.weather))
    decreases |actions|
  {
    if actions != [] {
      var a := actions[0];
      var first := Perform(s, apiKey, a);
      var tail := actions[1..];
      var rest := Run(first.state, apiKey, tail);
      var r := Run(s, apiKey, actions);
      assert r == Step(rest.state, first.events + rest.events);
      assert first == FetchWeatherStep(s, apiKey, a.storedLang, a.wx);
      assert forall i :: 0 < i < |actions| ==> actions[i] == tail[i - 1];
      RefreshesLastWriteWins(first.state, apiKey, tail);
      forall i | 0 <= i < |actions| && actions[i].wx.WxOk? &&
                 (forall j :: i < j < |actions| ==> actions[j].wx.WxFailed?)
        ensures r.state.weatherData == Some(actions[i].wx.weather)
      {
        if i == 0 {
          assert forall j :: 0 <= j < |tail| ==> tail[j].wx.WxFailed?;
        } else {
          assert tail[i - 1] == actions[i];
          assert forall j :: i - 1 < j < |tail| ==> tail[j].wx.WxFailed?;
        }
      }
    }
  }

  /**
   * A refresh after a position fix re-fetches for that same position, without
   * asking the position source or the geocoder again, and leaves the city and
   * the location error as the fix left them. This holds whatever the geocoder
   * answered: the position is stored before it is asked, so even a geocoder
   * exception leaves the new coordinates for the refresh.
   */
  lemma RefreshAfterLocate(s: ViewState, apiKey: string, lat: real, lon: real, geo: GeoOutcome,
                           lang: Option<string>, wx1: WxOutcome, lang2: Option<string>, wx2: WxOutcome)
    requires lat != 0.0 && lon != 0.0 && apiKey != PlaceholderKey
    ensures var located := LocateStep(s, apiKey, Located(lat, lon), geo, lang, wx1).state;
            var again := RefreshStep(located, apiKey, lang2, wx2);
            && again.events == [Event(FetchWeather(WeatherQuery(lat, lon, apiKey, LangCode(lang2))),
                                      located.(isLoadingWeather := true, weatherError := ""))]
            && SameLocation(located, again.state)
  {
  }

  /** With the key the view model is declared with, the configuration guard never fires. */
  lemma DeclaredKeyAlwaysFetches(s: ViewState, lang: Option<string>, wx: WxOutcome)
    ensures |FetchWeatherStep(s, DeclaredApiKey, lang, wx).events| == 1
    ensures FetchWeatherStep(s, DeclaredApiKey, lang, wx).state.weatherError != MissingKeyMessage
  {
    assert DeclaredApiKey != PlaceholderKey;
    if wx.WxFailed? {
      assert MissingKeyMessage[0] == 'P' && (WeatherFailurePrefix + MessageText(wx.message))[0] == 'F';
    }
  }

  /** A fix at (40, -74) named by its locality, with weather: the city is that locality. */
  lemma SpringfieldExample(w: WeatherResponse)
    ensures var r := LocateStep(Initial, "key", Located(40.0, -74.0),
                                Addresses(Some([Address(Some("Springfield"), None, None)])), None, WxOk(w));
            && r.state.currentCity == "Springfield"
            && r.state.errorMessage == ""
            && r.state.weatherData == Some(w)
            && r.state.weatherError == ""
            && Idle(r.state)
  {
  }

  /** An empty geocoder answer at (0.1, 0.2): "Unknown Location", an advisory, and a fetch at (0.1, 0.2). */
  lemma EmptyGeocodeExample(wx: WxOutcome)
    ensures var r := LocateStep(Initial, "key", Located(0.1, 0.2), Addresses(Some([])), None, wx);
            && r.state.currentCity == UnknownLocation
            && r.state.errorMessage == NoCityMessage
            && |r.events| == 3
            && r.events[2].call == FetchWeather(WeatherQuery(0.1, 0.2, "key", DefaultLang))
  {
  }
}
