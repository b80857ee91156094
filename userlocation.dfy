/** The browser's own location: `getUserLocation` merges the caller's
    position options over defaults and turns the geolocation callbacks into
    a settled promise; `formatLocationError` turns whatever a rejection
    carries into a message. The browser is an input: whether
    `navigator.geolocation` exists, and what `getCurrentPosition` calls back with. */
module UserLocation {
  import opened Common

  /** The JavaScript values an error can be. An object's `props` are the
      properties the `in` operator sees, inherited ones included. */
  datatype JsValue =
    | Undefined
    | Null
    | Bool(b: bool)
    | Num(n: real)
    | Str(s: string)
    | Function
    | Object(props: map<string, JsValue>)

  /** The message used when an error has none. */
  const Fallback: string := "Location request failed."

  /** The message of the rejection when the browser has no geolocation. */
  const NotSupported: string := "Geolocation is not supported in this browser."

  // ---------------------------------------------------------------------
  // formatLocationError
  // ---------------------------------------------------------------------

  /** A non-null object with a `message` property that is a string. */
  predicate HasStringMessage(error: JsValue) {
    error.Object? && "message" in error.props && error.props["message"].Str?
  }

  /** formatLocationError: the error's own message when it has a string
      one, otherwise the fallback text. */
  function FormatLocationError(error: JsValue): (message: string)
    ensures HasStringMessage(error) ==> message == error.props["message"].s
    ensures !HasStringMessage(error) ==> message == Fallback
  {
    if error.Object? && "message" in error.props then
      match error.props["message"]
      case Str(m) => m
      case _ => Fallback
    else Fallback
  }

  /** `new Error(message)`. */
  function ErrorObject(message: string): (e: JsValue)
    ensures HasStringMessage(e)
  {
    Object(map["name" := Str("Error"), "message" := Str(message)])
  }

  // ---------------------------------------------------------------------
  // Option merging
  // ---------------------------------------------------------------------

  /** One key of the caller's options object: absent, given as `undefined`,
      or given a value. */
  datatype Key<T> = Absent | GivenUndefined | Given(value: T)

  /** The caller's `PositionOptions`. */
  datatype PositionOptions = PositionOptions(enableHighAccuracy: Key<bool>, timeout: Key<int>, maximumAge: Key<int>)

  /** The options passed to the browser; `None` is `undefined`. */
  datatype MergedOptions = MergedOptions(enableHighAccuracy: Option<bool>, timeout: Option<int>, maximumAge: Option<int>)

  const DefaultEnableHighAccuracy: bool := false
  const DefaultTimeout: int := 10000
  const DefaultMaximumAge: int := 60000

  /** A spread key over its default: an absent key keeps the default, a
      given one, even `undefined`, replaces it. */
  function Spread<T>(key: Key<T>, default: T): Option<T> {
    match key
    case Absent => Some(default)
    case GivenUndefined => None
    case Given(v) => Some(v)
  }

  /** `{ enableHighAccuracy: false, timeout: 10000, maximumAge: 60000, ...options }`. */
  function MergeOptions(options: Option<PositionOptions>): (merged: MergedOptions)
    ensures options.None? ==>
      merged == MergedOptions(Some(DefaultEnableHighAccuracy), Some(DefaultTimeout), Some(DefaultMaximumAge))
    ensures options.Some? ==>
      merged.enableHighAccuracy == Spread(options.value.enableHighAccuracy, DefaultEnableHighAccuracy) &&
      merged.timeout == Spread(options.value.timeout, DefaultTimeout) &&
      merged.maximumAge == Spread(options.value.maximumAge, DefaultMaximumAge)
  {
    match options
    case None => MergedOptions(Some(DefaultEnableHighAccuracy), Some(DefaultTimeout), Some(DefaultMaximumAge))
    case Some(o) =>
      MergedOptions(Spread(o.enableHighAccuracy, DefaultEnableHighAccuracy),
                    Spread(o.timeout, DefaultTimeout),
                    Spread(o.maximumAge, DefaultMaximumAge))
  }

  /** Defaults are filled in for every key the caller leaves out, and every
      key the caller gives wins; so giving all three keys values passes
      them through unchanged, and giving none is the same as no options. */
  lemma MergeOverridesDefaults(o: PositionOptions)
    ensures var m := MergeOptions(Some(o));
      (o.enableHighAccuracy.Absent? ==> m.enableHighAccuracy == Some(DefaultEnableHighAccuracy)) &&
      (o.timeout.Absent? ==> m.timeout == Some(DefaultTimeout)) &&
      (o.maximumAge.Absent? ==> m.maximumAge == Some(DefaultMaximumAge)) &&
      (o.enableHighAccuracy.Given? ==> m.enableHighAccuracy == Some(o.enableHighAccuracy.value)) &&
      (o.timeout.Given? ==> m.timeout == Some(o.timeout.value)) &&
      (o.maximumAge.Given? ==> m.maximumAge == Some(o.maximumAge.value)) &&
      (o == PositionOptions(Absent, Absent, Absent) ==> m == MergeOptions(None))
  {
  }

  // ---------------------------------------------------------------------
  // getUserLocation
  // ---------------------------------------------------------------------

  /** The coordinates a successful position carries. */
  datatype Coordinates = Coordinates(latitude: real, longitude: real, accuracy: real)

  /** What `getCurrentPosition` calls back with: the success callback with a
      position, or the error callback with an error value. */
  datatype Callback = Success(coords: Coordinates) | Failure(error: JsValue)

  datatype Location = Location(lat: real, lon: real, accuracyMeters: real)

  /** How the returned promise settles. */
  datatype Settled = Resolved(location: Location) | Rejected(reason: JsValue)

  /** getUserLocation. `hasGeolocation` is `'geolocation' in navigator`;
      `getCurrentPosition` says which callback the browser invokes, given the
      merged options it was passed. */
  function GetUserLocation(hasGeolocation: bool, options: Option<PositionOptions>,
                           getCurrentPosition: MergedOptions -> Callback): (r: Settled)
    ensures !hasGeolocation ==> r == Rejected(ErrorObject(NotSupported))
    ensures hasGeolocation ==>
      match getCurrentPosition(MergeOptions(options))
      case Success(c) => r == Resolved(Location(c.latitude, c.longitude, c.accuracy))
      case Failure(e) => r == Rejected(e)
  {
    if !hasGeolocation then Rejected(ErrorObject(NotSupported))
    else
      var merged := MergeOptions(options);
      match getCurrentPosition(merged)
      case Success(c) => Resolved(Location(c.latitude, c.longitude, c.accuracy))
      case Failure(e) => Rejected(e)
  }

  /** Formatting a rejection of getUserLocation: the unsupported-browser
      rejection reads as its own message, an error callback's value reads as
      its string message if it has one, and as the fallback otherwise. */
  lemma RejectionMessages(hasGeolocation: bool, options: Option<PositionOptions>,
                          getCurrentPosition: MergedOptions -> Callback)
    ensures var r := GetUserLocation(hasGeolocation, options, getCurrentPosition);
      r.Rejected? ==>
        var m := FormatLocationError(r.reason);
        (!hasGeolocation ==> m == NotSupported) &&
        (hasGeolocation && HasStringMessage(r.reason) ==> m == r.reason.props["message"].s) &&
        (hasGeolocation && !HasStringMessage(r.reason) ==> m == Fallback)
  {
  }
}
