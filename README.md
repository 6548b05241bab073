# Weather screen view model, in Dafny

This project models `LocationViewModel`, the view model behind the app's weather screen. The model is written in Dafny. The view model holds eight fields that the screen observes:

- the place: `currentCity`, `latitude`, `longitude`;
- the location stage's status: `isLoading`, `errorMessage`;
- the weather stage's status: `weatherData`, `isLoadingWeather`, `weatherError`.

Three operations update those fields step by step:

- `getCurrentLocation` asks the device for a position. It reverse-geocodes the position into a place name and then runs the weather stage.
- `getWeatherData` checks the weather-service key. It then fetches the weather for the stored coordinates and records the answer or the error.
- `refreshWeather` runs the weather stage again, but only when neither stored coordinate is zero.

Files:

- `wrappers.dfy` (module `Wrappers`): `Option`, which stands for Kotlin's nullable types. `GetOr` is the `?:` operator.
- `place_names.dfy` (module `PlaceNames`): the `locality ?: subAdminArea ?: adminArea ?: "Unknown Location"` chain. It is proved equal to an independent recursive definition, "the first present candidate, else the fallback".
- `location_spec.dfy` (module `LocationSpec`): the eight fields as a `ViewState` value. It also defines what the collaborators can answer: `LocOutcome`, `GeoOutcome` and `WxOutcome`. Each of the three stages is a function that returns the new state and the requests the stage sent. A request is recorded together with the state the screen could see while it was outstanding. Each function's contract states the stage's properties.
- `view_model.dfy` (module `ViewModel`): the class `LocationViewModel`, with the same eight fields and methods that assign them in the source's order. The `finally` resets are written on every exit path. A ghost field `requests` logs every request sent. Each method is proved to leave the state and the log exactly as the matching stage function says. The body of the `location != null` branch is its own method, `ResolvePlace`, and its own stage function, `ResolveStep`.
- `sessions.dfy` (module `Sessions`): lemmas about any sequence of calls the screen makes. Coordinates, a city and any weather state never appear before a position has been resolved, and no weather fetch is sent before one. Both loading flags are down between calls. Repeated refreshes follow "last write wins", and a failed refresh keeps the stale weather.

The collaborators are the position source, the geocoder and the weather service. They are not called: each method takes the answer the collaborator would give as a parameter. The stored `"lang"` setting is also a parameter, `storedLang`, and defaults to `"en"` when absent. The weather-service key is a constructor parameter. The key the class is declared with, `""`, never trips the placeholder check (`DeclaredKeyAlwaysFetches`).

Behaviour of the code that the model keeps as written:

- The place-name chain tests whether a field is present, not whether it is empty. A locality of `""` gives an empty city.
- An exception from the geocoder ends `getCurrentLocation` with the location stage's catch message: `"Location permission denied"` for a `SecurityException`, otherwise `"Error: " + message`. The new coordinates stay stored, the old city stays, and no weather fetch is made.
- `refreshWeather` does nothing when either coordinate is zero, not only when both are.
- A `null` exception message appears in the error text as `null`, which is how a Kotlin string template renders it.

## Model

| member | source | states |
|---|---|---|
| PlaceNames.FirstPresent | app/src/main/java/com/example/weatherapp/LocationViewModel.kt:68-71 | reference meaning of a `?:` chain: the value of the first present candidate when one exists, and the fallback when none is present |
| PlaceNames.PlaceName | app/src/main/java/com/example/weatherapp/LocationViewModel.kt:67-71 | the city is one of the three region names or "Unknown Location"; a present but empty locality is kept as the city, because the chain tests for null, not for empty |
| PlaceNames.PlaceNameIsFirstPresent | app/src/main/java/com/example/weatherapp/LocationViewModel.kt:67-71 | the chain equals the reference definition: the first present of locality, sub-admin area and admin area, else "Unknown Location" |
| LocationSpec.CaughtMessage | app/src/main/java/com/example/weatherapp/LocationViewModel.kt:82-85 | a `SecurityException` gives "Location permission denied" and only it does; any other exception gives "Error: " + its message |
| LocationSpec.FetchWeatherStep | app/src/main/java/com/example/weatherapp/LocationViewModel.kt:91-116 | location fields untouched; flag down on every exit; placeholder key sends nothing and sets the missing-key message; otherwise exactly one fetch, at the stored coordinates with the stored language or "en", sent while the flag is up and the error is cleared; success stores the answer with an empty error; failure records "Failed to get weather: " + message and keeps the previous weather |
| LocationSpec.LocateStep | app/src/main/java/com/example/weatherapp/LocationViewModel.kt:44-89 | flag down on every exit and up during every request; error cleared before the position request; null or failed position changes only the error message and sends nothing more; a position is stored and geocoded for one address; geocoder failure keeps city and weather and skips the weather stage; an address names the city with no error; a null or empty list gives "Unknown Location" with the advisory; both then run the weather stage at the new position |
| LocationSpec.ResolveStep | app/src/main/java/com/example/weatherapp/LocationViewModel.kt:58-77 | after a fix: the position is stored and geocoded first, for one address; a geocoder exception changes only the position and the error message and sends nothing more; an address names the city and keeps the error; a null or empty list gives "Unknown Location" with the advisory; both then run the weather stage at the new position; the location flag is left as found |
| LocationSpec.RefreshStep | app/src/main/java/com/example/weatherapp/LocationViewModel.kt:118-122 | either coordinate zero leaves everything unchanged and sends nothing; otherwise exactly the weather stage; location fields never change; only weather fetches for the stored position are sent |
| ViewModel.LocationViewModel.constructor | app/src/main/java/com/example/weatherapp/LocationViewModel.kt:16-41 | fields start empty, zero, absent and false; the key is the one given |
| ViewModel.LocationViewModel.GetCurrentLocation | app/src/main/java/com/example/weatherapp/LocationViewModel.kt:44-89 | the fields and the request log end exactly as `LocateStep` describes; `isLoading` is false on return |
| ViewModel.LocationViewModel.ResolvePlace | app/src/main/java/com/example/weatherapp/LocationViewModel.kt:58-77 | the fields and the request log end exactly as `ResolveStep` describes |
| ViewModel.LocationViewModel.GetWeatherData | app/src/main/java/com/example/weatherapp/LocationViewModel.kt:91-116 | the fields and the request log end exactly as `FetchWeatherStep` describes, the early return included; `isLoadingWeather` is false on return |
| ViewModel.LocationViewModel.RefreshWeather | app/src/main/java/com/example/weatherapp/LocationViewModel.kt:118-122 | the fields and the request log end exactly as `RefreshStep` describes |
| Sessions.Run | app/src/main/java/com/example/weatherapp/LocationViewModel.kt:44-122 | after any sequence of calls that starts with both loading flags down, both flags are down |
| Sessions.PerformKeepsGrounded | app/src/main/java/com/example/weatherapp/LocationViewModel.kt:57-122 | one call keeps the invariant: coordinates, a city or weather state exist only once a position was geocoded, and every fetch follows such a resolution |
| Sessions.RunKeepsGrounded | app/src/main/java/com/example/weatherapp/LocationViewModel.kt:57-122 | any sequence of calls keeps that invariant |
| Sessions.SessionIsGrounded | app/src/main/java/com/example/weatherapp/LocationViewModel.kt:16-122 | from a fresh view model, after any calls: no weather fetch is ever sent before a position is resolved, no location or weather state exists without one, and both flags are down |
| Sessions.RefreshesLastWriteWins | app/src/main/java/com/example/weatherapp/LocationViewModel.kt:109-122 | repeated refreshes at a stored position: one fetch each at that position; location fields unchanged; the error reflects only the last refresh; the weather is the last successful answer, or the earlier weather when all failed |
| Sessions.RefreshAfterLocate | app/src/main/java/com/example/weatherapp/LocationViewModel.kt:57-122 | a refresh after any position fix, whatever the geocoder answered (an exception included, since the position is stored first), sends a single fetch at that fix's coordinates, asks neither the position source nor the geocoder, and keeps the city and location error |
| Sessions.DeclaredKeyAlwaysFetches | app/src/main/java/com/example/weatherapp/LocationViewModel.kt:41-99 | with the declared key `""` the guard never fires: one fetch is always sent and the missing-key message never appears |
| Sessions.SpringfieldExample | app/src/main/java/com/example/weatherapp/LocationViewModel.kt:57-77 | a fix whose address has locality "Springfield", followed by a successful fetch, shows "Springfield", no error, the weather, and no flag raised |
| Sessions.EmptyGeocodeExample | app/src/main/java/com/example/weatherapp/LocationViewModel.kt:72-77 | an empty address list at (0.1, 0.2) gives "Unknown Location" and the advisory, and the weather fetch still goes out for (0.1, 0.2) |

## Left out

- Collaborators: `FusedLocationProviderClient`, `CancellationTokenSource`, `Geocoder`, `SharedPreferences` and `WeatherApiService` are replaced by the answers they give. Their own behaviour is not modelled, and their sources are not part of this model.
- `WeatherResponse`: its definition is not part of this model. The view model stores it without looking inside, so the model's `WeatherResponse` is a flat stand-in record of the values the screen shows (temperature, feels-like, minimum, maximum, humidity, pressure, wind speed, description). The service's nested shape (`main`, the `weather` list, `wind`) is not modelled, and no member reads the fields.
- Coroutines: suspension, cancellation and overlapping calls are not modelled. Each call is atomic, and calls run one after another. A `CancellationException` is an `Exception` on the JVM, so the `catch (e: Exception)` clauses catch it like any other exception: the outcomes `LocFailed(Thrown(_))`, `GeoFailed(Thrown(_))` and `WxFailed(_)` cover it.
- Compose `mutableStateOf` observation: the recorded requests show the state the screen can see while each request is outstanding, but recomposition itself is not modelled.
- Coordinates are `real`. Floating-point `-0.0` (which Kotlin's `!= 0.0` treats as zero) and `NaN` are not modelled.
- The `Context` parameter is dropped. It serves only to reach the collaborators and the settings.
- WeatherActivity.kt: the permission launcher, the order in which the screen displays status, and the rounding of temperatures are UI code, not view-model logic.
- LoginActivity.kt, RegisterActivity.kt, MainActivity.kt, MyFirebaseMessagingService.kt and WeatherApp.kt: wrappers around sign-in, notification and locale SDKs, with no view-model state.
- data/User.kt and data/UserRepository.kt are entirely commented out.
