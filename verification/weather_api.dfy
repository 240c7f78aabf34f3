/** The back end's weather endpoint, `GET /api/weather/{location}`: postal
    code recognition, location normalisation, the mapping of upstream
    replies to errors, and the shaping of the returned document. The call to
    the upstream weather provider is not performed: its reply is an input. */
module WeatherApi {

  import opened Results
  import opened Text

  /** The pair `(is_valid, country)` returned by `is_valid_postal_code`. */
  datatype PostalCheck = PostalCheck(valid: bool, country: string)

  /** Python's `re.match(r"^\d{n}$", code)`: `n` digits and nothing more,
      except that `$` also matches just before one final line feed. */
  predicate MatchesDigitLine(code: string, n: nat) {
    && (|code| == n || (|code| == n + 1 && code[n] == '\n'))
    && forall i :: 0 <= i < n ==> IsDigit(code[i])
  }

  /** `is_valid_postal_code`: the five-digit pattern is tried before the
      six-digit one. */
  function IsValidPostalCode(code: string): (r: PostalCheck)
    ensures r.valid <==> MatchesDigitLine(code, 5) || MatchesDigitLine(code, 6)
    ensures r.valid ==> r.country == (if MatchesDigitLine(code, 5) then "USA" else "India")
    ensures !r.valid ==> r.country == ""
  {
    if MatchesDigitLine(code, 5) then PostalCheck(true, "USA")
    else if MatchesDigitLine(code, 6) then PostalCheck(true, "India")
    else PostalCheck(false, "")
  }

  /** On a string without line feeds the classification is exact: five
      digits are a US ZIP, six digits an Indian PIN, anything else neither. */
  lemma PostalCodeExact(code: string)
    requires forall i :: 0 <= i < |code| ==> code[i] != '\n'
    ensures IsValidPostalCode(code) == PostalCheck(true, "USA") <==> AllDigits(code) && |code| == 5
    ensures IsValidPostalCode(code) == PostalCheck(true, "India") <==> AllDigits(code) && |code| == 6
    ensures IsValidPostalCode(code) == PostalCheck(false, "") <==> !(AllDigits(code) && (|code| == 5 || |code| == 6))
  {
  }

  /** Because of `$`, five digits followed by a line feed also pass. */
  lemma TrailingLineFeedPasses()
    ensures IsValidPostalCode("12345\n") == PostalCheck(true, "USA")
  {
    assert MatchesDigitLine("12345\n", 5);
  }

  /** An `HTTPException`: status code and `detail` text. */
  datatype HttpException = HttpException(status: int, detail: string)

  const InvalidPostalDetail := "Invalid postal code format. Please enter a valid US ZIP code (5 digits) or Indian PIN code (6 digits)."
  const InvalidLocationDetail := "Invalid location format. Please check your input."
  const ApiKeyDetail := "API key error. Please try again later."
  const LocationNotFoundDetail := "Location not found. Please check the location and try again."
  const NoWeatherDataDetail := "Weather data not found for this location"
  const FetchFailedPrefix := "Failed to fetch weather data: "
  const NetworkErrorPrefix := "Network error while fetching weather data: "
  const UnexpectedPrefix := "An unexpected error occurred: "
  const IndexErrorText := "list index out of range"

  /** Strip the location; a digits-only location must be a postal code and
      gets its country appended, any other location is kept as stripped. */
  function NormaliseLocation(location: string): (r: Result<string, HttpException>)
    ensures var s := Trim(location);
      AllDigits(s) ==> (r.Success? <==> |s| == 5 || |s| == 6)
    ensures var s := Trim(location);
      AllDigits(s) && |s| == 5 ==> r == Success(s + ",USA")
    ensures var s := Trim(location);
      AllDigits(s) && |s| == 6 ==> r == Success(s + ",India")
    ensures r.Failure? ==> r.error == HttpException(400, InvalidPostalDetail)
    ensures !AllDigits(Trim(location)) ==> r == Success(Trim(location))
  {
    var stripped := Trim(location);
    if AllDigits(stripped) then
      var check := IsValidPostalCode(stripped);
      DigitPostalCode(stripped);
      assert stripped + "," + "USA" == stripped + ",USA";
      assert stripped + "," + "India" == stripped + ",India";
      if check.valid then Success(stripped + "," + check.country)
      else Failure(HttpException(400, InvalidPostalDetail))
    else
      Success(stripped)
  }

  /** For a digits-only string the check depends on its length alone. */
  lemma DigitPostalCode(s: string)
    requires AllDigits(s)
    ensures IsValidPostalCode(s) ==
      if |s| == 5 then PostalCheck(true, "USA")
      else if |s| == 6 then PostalCheck(true, "India")
      else PostalCheck(false, "")
  {
    assert !MatchesDigitLine(s, 5) || |s| == 5;
    assert !MatchesDigitLine(s, 6) || |s| == 6;
  }

  /** A digit-only location is let through exactly when it has five or six
      digits. */
  lemma NormaliseDigits(t: string)
    requires AllDigits(t)
    ensures NormaliseLocation(t).Success? <==> |t| == 5 || |t| == 6
  {
    DigitsAreTrimmed(t);
  }

  /** One day (or the current conditions) as the upstream provider sends it;
      every field may be missing. Numbers are kept as opaque reals. */
  datatype Conditions = Conditions(
    temp: Option<real>,
    humidity: Option<real>,
    conditions: Option<string>,
    windspeed: Option<real>,
    datetime: Option<string>)

  /** The JSON object of an upstream reply, reduced to the keys read. */
  datatype Payload = Payload(
    currentConditions: Option<Conditions>,
    days: Option<seq<Conditions>>,
    resolvedAddress: Option<string>,
    timezone: Option<string>)

  /** What `requests.get` produced: no reply at all (a `RequestException`
      with its text), or a reply with its status, the text of the
      `HTTPError` that `raise_for_status` would raise, and its body. */
  datatype Upstream =
    | Unreachable(reason: string)
    | Reply(status: int, errorText: string, payload: Payload)

  /** One entry of the returned `current` or `forecast` fields. */
  datatype Reading = Reading(
    temperature: real,
    humidity: real,
    description: string,
    windSpeed: real,
    dateTime: string)

  datatype LocationInfo = LocationInfo(name: string, timezone: string)

  /** The JSON document the endpoint returns on success. */
  datatype WeatherResponse = WeatherResponse(
    current: Reading,
    forecast: seq<Reading>,
    location: LocationInfo)

  /** Copies the five fields, defaulting missing numbers to 0, a missing
      description to "Unknown" and a missing time to "". */
  function Shape(c: Conditions): Reading {
    Reading(
      c.temp.GetOr(0.0),
      c.humidity.GetOr(0.0),
      c.conditions.GetOr("Unknown"),
      c.windspeed.GetOr(0.0),
      c.datetime.GetOr(""))
  }

  /** The upstream record that carries every field of a reading. */
  function Complete(r: Reading): Conditions {
    Conditions(Some(r.temperature), Some(r.humidity), Some(r.description), Some(r.windSpeed), Some(r.dateTime))
  }

  /** Fields that are present are copied unchanged, each independently of
      the others; so a record carrying every field shapes to exactly the
      reading it describes. */
  lemma ShapeKeepsPresentFields(c: Conditions, r: Reading)
    ensures c.temp.Some? ==> Shape(c).temperature == c.temp.value
    ensures c.humidity.Some? ==> Shape(c).humidity == c.humidity.value
    ensures c.conditions.Some? ==> Shape(c).description == c.conditions.value
    ensures c.windspeed.Some? ==> Shape(c).windSpeed == c.windspeed.value
    ensures c.datetime.Some? ==> Shape(c).dateTime == c.datetime.value
    ensures Shape(Complete(r)) == r
  {
  }

  /** Fields that are missing get the documented defaults, each
      independently of the others. */
  lemma ShapeDefaults(c: Conditions)
    ensures c.temp.None? ==> Shape(c).temperature == 0.0
    ensures c.humidity.None? ==> Shape(c).humidity == 0.0
    ensures c.conditions.None? ==> Shape(c).description == "Unknown"
    ensures c.windspeed.None? ==> Shape(c).windSpeed == 0.0
    ensures c.datetime.None? ==> Shape(c).dateTime == ""
    ensures Shape(Conditions(None, None, None, None, None)) == Reading(0.0, 0.0, "Unknown", 0.0, "")
  {
  }

  function Min(a: int, b: int): int {
    if a <= b then a else b
  }

  /** Python's slice `s[lo:hi]` for non-negative bounds: both bounds are
      clamped to the length, and a reversed window is empty. */
  function PySlice<T>(s: seq<T>, lo: nat, hi: nat): (w: seq<T>)
    ensures |w| == if Min(hi, |s|) <= lo then 0 else Min(hi, |s|) - lo
    ensures forall i :: 0 <= i < |w| ==> w[i] == s[lo + i]
  {
    var a := Min(lo, |s|);
    var b := Min(hi, |s|);
    if b <= a then [] else s[a..b]
  }

  /** The forecast: the days after the first, at most five of them. */
  function Forecast(days: seq<Conditions>): (f: seq<Reading>)
    ensures |f| == if |days| <= 1 then 0 else Min(|days|, 6) - 1
    ensures |f| <= 5
    ensures forall i :: 0 <= i < |f| ==> f[i] == Shape(days[i + 1])
  {
    var window := PySlice(days, 1, 6);
    seq(|window|, i requires 0 <= i < |window| => Shape(window[i]))
  }

  /** Days beyond the sixth are never read. */
  lemma ForecastIgnoresLaterDays(days: seq<Conditions>, later: seq<Conditions>)
    requires |days| >= 6
    ensures Forecast(days + later) == Forecast(days)
  {
    var a, b := Forecast(days + later), Forecast(days);
    assert |a| == |b|;
    forall i | 0 <= i < |a|
      ensures a[i] == b[i]
    {
      assert (days + later)[i + 1] == days[i + 1];
    }
  }

  /** The name shown for the location: `resolvedAddress` if the reply has
      one, else the normalised location; when that name equals the
      location and its first comma field is a postal code, `ZIP <code>,
      <second field>`. None where indexing the second field raises. */
  function DisplayName(location: string, resolved: Option<string>): (r: Option<string>)
    ensures resolved.Some? && resolved.value != location ==> r == Some(resolved.value)
    ensures !IsValidPostalCode(FirstField(location)).valid ==> r == Some(resolved.GetOr(location))
  {
    var name := resolved.GetOr(location);
    if name == location && IsValidPostalCode(FirstField(location)).valid then
      match SecondField(location)
      case None => None
      case Some(second) => Some("ZIP " + FirstField(location) + ", " + second)
    else
      Some(name)
  }

  /** When the name is the location itself (no resolved address, or one
      equal to the location) and its first comma field is a postal code,
      the name is rewritten to `ZIP <first field>, <second field>`; fields
      after the second are dropped. */
  lemma PostalCodeDisplayName(a: string, b: string, resolved: Option<string>)
    requires forall i :: 0 <= i < |a| ==> a[i] != ','
    requires IsValidPostalCode(a).valid
    requires resolved.None? || resolved.value == a + "," + b
    ensures DisplayName(a + "," + b, resolved) == Some("ZIP " + a + ", " + FirstField(b))
  {
    JoinThenSplit(a, b);
  }

  /** A postal code with no comma after it makes `split(',')[1]` raise an
      IndexError unless the reply resolved it to a different address. */
  lemma PostalCodeWithoutCommaRaises(a: string, resolved: Option<string>)
    requires forall i :: 0 <= i < |a| ==> a[i] != ','
    requires IsValidPostalCode(a).valid
    requires resolved.None? || resolved.value == a
    ensures DisplayName(a, resolved) == None
  {
    SplitWithoutComma(a);
  }

  /** A rewritten postal code without a resolved address is shown as
      `ZIP <code>, <country>`. */
  lemma NormalisedPostalCodeDisplayName(code: string, country: string)
    requires AllDigits(code) && (|code| == 5 || |code| == 6)
    requires forall i :: 0 <= i < |country| ==> country[i] != ','
    ensures DisplayName(code + "," + country, None) == Some("ZIP " + code + ", " + country)
  {
    PostalCodeExact(code);
    SplitWithoutComma(country);
    PostalCodeDisplayName(code, country, None);
  }

  /** A stripped string that passes `is_valid_postal_code` cannot end in the
      line feed `$` tolerates, so it is five or six digits. */
  lemma TrimmedPostalCodeIsDigits(code: string)
    requires Trimmed(code) && IsValidPostalCode(code).valid
    ensures AllDigits(code) && (|code| == 5 || |code| == 6)
  {
    assert |code| > 0 && !IsSpace(code[|code| - 1]);
    assert code[|code| - 1] != '\n';
  }

  /** The first comma field of a stripped location is not stripped itself:
      five digits, a line feed and a comma survive normalisation unchanged
      (the location is not all digits), and the `$` of the postal check
      then accepts the field `<code>\n`, so the name is rewritten with the
      line feed kept. */
  lemma LineFeedBeforeCommaKeepsZipName(code: string, rest: string)
    requires AllDigits(code) && |code| == 5
    requires forall i :: 0 <= i < |rest| ==> rest[i] != ','
    requires rest == [] || !IsSpace(rest[|rest| - 1])
    ensures NormaliseLocation(code + "\n" + "," + rest) == Success(code + "\n" + "," + rest)
    ensures DisplayName(code + "\n" + "," + rest, None) == Some("ZIP " + (code + "\n") + ", " + rest)
  {
    var field := code + "\n";
    var loc := field + "," + rest;
    TrimOfTrimmed(loc);
    assert !AllDigits(loc) by {
      assert loc[5] == '\n';
    }
    assert MatchesDigitLine(field, 5);
    JoinThenSplit(field, rest);
    SplitWithoutComma(rest);
  }

  /** Every location that normalisation lets through gets a name: the
      `split(',')[1]` in the fallback never fails. */
  lemma NormalisedLocationHasName(location: string, resolved: Option<string>)
    requires NormaliseLocation(location).Success?
    ensures DisplayName(NormaliseLocation(location).value, resolved).Some?
  {
    var s := Trim(location);
    if AllDigits(s) {
      var country := if |s| == 5 then "USA" else "India";
      assert NormaliseLocation(location).value == s + "," + country;
      RewrittenPostalCodeHasName(s, country, resolved);
    } else {
      assert NormaliseLocation(location).value == s;
      StrippedLocationHasName(s, resolved);
    }
  }

  lemma RewrittenPostalCodeHasName(code: string, country: string, resolved: Option<string>)
    requires AllDigits(code)
    ensures DisplayName(code + "," + country, resolved).Some?
  {
    JoinThenSplit(code, country);
  }

  lemma StrippedLocationHasName(s: string, resolved: Option<string>)
    requires Trimmed(s) && !AllDigits(s)
    ensures DisplayName(s, resolved).Some?
  {
    if SecondField(s).None? && IsValidPostalCode(FirstField(s)).valid {
      assert FirstField(s) == s;
      TrimmedPostalCodeIsDigits(s);
      assert false;
    }
  }

  /** How control leaves the `try` block: a value is returned, or one of the
      exceptions the handlers distinguish is raised. */
  datatype Raised =
    | Returned(response: WeatherResponse)
    | RaisedHttpException(e: HttpException)
    | RaisedHttpError(status: int, text: string)
    | RaisedRequestException(text: string)
    | RaisedOther(text: string)

  /** The body of the `try` block of `get_weather`. */
  function TryBlock(location: string, upstream: Upstream): (r: Raised)
    ensures NormaliseLocation(location).Failure? ==> r == RaisedHttpException(HttpException(400, InvalidPostalDetail))
    ensures r.RaisedHttpException? ==> r.e.status in {400, 401, 404}
    ensures r.RaisedHttpError? ==> 400 <= r.status < 600 && r.status !in {400, 401, 404}
    ensures r.RaisedHttpError? ==> upstream.Reply? && upstream.status == r.status && upstream.errorText == r.text
    ensures r.RaisedRequestException? ==> upstream == Unreachable(r.text)
    ensures r.Returned? ==> upstream.Reply? && !(400 <= upstream.status < 600)
    ensures r.Returned? ==> upstream.payload.currentConditions.Some? && upstream.payload.days.Some?
    ensures r.Returned? ==> r.response.forecast == Forecast(upstream.payload.days.value)
    ensures r.Returned? ==> r.response.current == Shape(upstream.payload.currentConditions.value)
    ensures r.Returned? ==> r.response.location.timezone == upstream.payload.timezone.GetOr("Unknown")
    ensures !r.RaisedOther?
    ensures r.Returned? ==>
      && NormaliseLocation(location).Success?
      && Some(r.response.location.name) == DisplayName(NormaliseLocation(location).value, upstream.payload.resolvedAddress)
  {
    match NormaliseLocation(location)
    case Failure(e) => RaisedHttpException(e)
    case Success(loc) =>
      match upstream
      case Unreachable(reason) => RaisedRequestException(reason)
      case Reply(status, errorText, data) =>
        NormalisedLocationHasName(location, data.resolvedAddress);
        if status == 400 then RaisedHttpException(HttpException(400, InvalidLocationDetail))
        else if status == 401 then RaisedHttpException(HttpException(401, ApiKeyDetail))
        else if status == 404 then RaisedHttpException(HttpException(404, LocationNotFoundDetail))
        else if 400 <= status < 600 then RaisedHttpError(status, errorText)
        else if data.currentConditions.None? || data.days.None? then
          RaisedHttpException(HttpException(404, NoWeatherDataDetail))
        else
          match DisplayName(loc, data.resolvedAddress)
          case None => RaisedOther(IndexErrorText)
          case Some(name) =>
            Returned(WeatherResponse(
              Shape(data.currentConditions.value),
              Forecast(data.days.value),
              LocationInfo(name, data.timezone.GetOr("Unknown"))))
  }

  /** The errors the `try` block raises on purpose, before any handler sees
      them: each upstream client error keeps its own status and message. */
  lemma UpstreamErrorsRaised(location: string, status: int, errorText: string, data: Payload)
    requires NormaliseLocation(location).Success?
    ensures status == 400 ==> TryBlock(location, Reply(status, errorText, data)) == RaisedHttpException(HttpException(400, InvalidLocationDetail))
    ensures status == 401 ==> TryBlock(location, Reply(status, errorText, data)) == RaisedHttpException(HttpException(401, ApiKeyDetail))
    ensures status == 404 ==> TryBlock(location, Reply(status, errorText, data)) == RaisedHttpException(HttpException(404, LocationNotFoundDetail))
    ensures !(400 <= status < 600) && (data.currentConditions.None? || data.days.None?) ==>
      TryBlock(location, Reply(status, errorText, data)) == RaisedHttpException(HttpException(404, NoWeatherDataDetail))
  {
  }

  /** An accepted location with a non-error reply that carries both the
      current conditions and the days always gets the weather back. */
  lemma GoodReplySucceeds(location: string, status: int, errorText: string, data: Payload)
    requires NormaliseLocation(location).Success?
    requires !(400 <= status < 600)
    requires data.currentConditions.Some? && data.days.Some?
    ensures GetWeather(location, Reply(status, errorText, data)).Success?
  {
    NormalisedLocationHasName(location, data.resolvedAddress);
  }

  /** As written, the postal-code rejection of "123" reaches the client as
      a 500 whose detail embeds Starlette's rendering `400: <detail>` of the
      original exception. */
  lemma ShortPostalCodeDetail(upstream: Upstream)
    ensures GetWeather("123", upstream) == Failure(HttpException(500, UnexpectedPrefix + "400: " + InvalidPostalDetail))
  {
    var loc := "123";
    assert AllDigits(loc) by {
      assert IsDigit(loc[0]) && IsDigit(loc[1]) && IsDigit(loc[2]);
    }
    DigitsAreTrimmed(loc);
    var e := HttpException(400, InvalidPostalDetail);
    assert TryBlock(loc, upstream) == RaisedHttpException(e);
    assert IntToString(400) == "400" by {
      assert NatToString(4) == "4";
      assert NatToString(40) == "40";
      assert NatToString(400) == NatToString(40) + "0";
    }
    assert ExceptionText(e) == "400: " + InvalidPostalDetail;
    assert UnexpectedPrefix + ExceptionText(e) == UnexpectedPrefix + "400: " + InvalidPostalDetail;
  }

  /** An upstream error status other than 400, 401 and 404 reaches the
      client with that same status and the "Failed to fetch" detail. */
  lemma UpstreamServerErrorKeepsStatus(location: string, status: int, errorText: string, data: Payload)
    requires NormaliseLocation(location).Success?
    requires 400 <= status < 600 && status !in {400, 401, 404}
    ensures GetWeather(location, Reply(status, errorText, data)) == Failure(HttpException(status, FetchFailedPrefix + errorText))
  {
  }

  /** A provider that cannot be reached gives a 500 with the "Network
      error" detail. */
  lemma NetworkFailureIs500(location: string, reason: string)
    requires NormaliseLocation(location).Success?
    ensures GetWeather(location, Unreachable(reason)) == Failure(HttpException(500, NetworkErrorPrefix + reason))
  {
  }

  /** `str(e)` of an `HTTPException`, as Starlette renders it. */
  function ExceptionText(e: HttpException): string {
    IntToString(e.status) + ": " + e.detail
  }

  /** The three `except` clauses in order. The last one, `except Exception`,
      also catches the `HTTPException`s raised inside the `try`. */
  function Handle(raised: Raised): Result<WeatherResponse, HttpException> {
    match raised
    case Returned(response) => Success(response)
    case RaisedHttpError(status, text) => Failure(HttpException(status, FetchFailedPrefix + text))
    case RaisedRequestException(text) => Failure(HttpException(500, NetworkErrorPrefix + text))
    case RaisedHttpException(e) => Failure(HttpException(500, UnexpectedPrefix + ExceptionText(e)))
    case RaisedOther(text) => Failure(HttpException(500, UnexpectedPrefix + text))
  }

  /** `get_weather` as written. */
  function GetWeather(location: string, upstream: Upstream): (r: Result<WeatherResponse, HttpException>)
    ensures r.Failure? ==> r.error.status != 400 && r.error.status != 401 && r.error.status != 404
    ensures r.Failure? ==>
      UnexpectedPrefix <= r.error.detail || FetchFailedPrefix <= r.error.detail || NetworkErrorPrefix <= r.error.detail
    ensures r.Failure? && r.error.status != 500 ==> 400 <= r.error.status < 600
    ensures r.Failure? ==> |r.error.detail| > 0
  {
    Handle(TryBlock(location, upstream))
  }

  /** The postal-code rejection never reaches the client as a 400: it comes
      back as a 500 whose detail starts with the generic prefix. */
  lemma InvalidPostalCodeSurfacesAs500(location: string, upstream: Upstream)
    requires AllDigits(Trim(location)) && |Trim(location)| != 5 && |Trim(location)| != 6
    ensures GetWeather(location, upstream).Failure?
    ensures GetWeather(location, upstream).error.status == 500
    ensures UnexpectedPrefix <= GetWeather(location, upstream).error.detail
  {
    assert NormaliseLocation(location).Failure?;
    var e := HttpException(400, InvalidPostalDetail);
    assert TryBlock(location, upstream) == RaisedHttpException(e);
    PrefixOfConcat(UnexpectedPrefix, ExceptionText(e));
  }

  lemma PrefixOfConcat(a: string, b: string)
    ensures a <= a + b
  {
  }

  /** The same holds for the upstream 400, 401 and 404 replies and for a
      reply without weather data. */
  lemma UpstreamClientErrorsSurfaceAs500(location: string, upstream: Upstream)
    requires NormaliseLocation(location).Success? && upstream.Reply?
    requires upstream.status in {400, 401, 404}
      || (!(400 <= upstream.status < 600)
          && (upstream.payload.currentConditions.None? || upstream.payload.days.None?))
    ensures GetWeather(location, upstream).Failure?
    ensures GetWeather(location, upstream).error.status == 500
    ensures UnexpectedPrefix <= GetWeather(location, upstream).error.detail
  {
  }

  /** The `except` clauses with `HTTPException` re-raised unchanged, as the
      messages chosen inside the `try` evidently intend. */
  function HandleIntended(raised: Raised): Result<WeatherResponse, HttpException> {
    match raised
    case RaisedHttpException(e) => Failure(e)
    case _ => Handle(raised)
  }

  /** `get_weather` with the intended handling. */
  function GetWeatherIntended(location: string, upstream: Upstream): (r: Result<WeatherResponse, HttpException>)
    ensures NormaliseLocation(location).Failure? ==> r == Failure(HttpException(400, InvalidPostalDetail))
    ensures TryBlock(location, upstream).RaisedHttpException? ==> r == Failure(TryBlock(location, upstream).e)
    ensures r.Failure? ==> |r.error.detail| > 0
  {
    HandleIntended(TryBlock(location, upstream))
  }

  /** With the intended handling, upstream 400, 401 and 404 replies reach
      the client with their own status and message. */
  lemma IntendedKeepsUpstreamStatus(location: string, status: int, errorText: string, data: Payload)
    requires NormaliseLocation(location).Success?
    ensures status == 400 ==>
      GetWeatherIntended(location, Reply(status, errorText, data)) == Failure(HttpException(400, InvalidLocationDetail))
    ensures status == 401 ==>
      GetWeatherIntended(location, Reply(status, errorText, data)) == Failure(HttpException(401, ApiKeyDetail))
    ensures status == 404 ==>
      GetWeatherIntended(location, Reply(status, errorText, data)) == Failure(HttpException(404, LocationNotFoundDetail))
  {
    UpstreamErrorsRaised(location, status, errorText, data);
  }

  /** The written and the intended endpoint agree on everything except the
      deliberately raised errors, which the written one turns into 500s. */
  lemma WrittenVersusIntended(location: string, upstream: Upstream)
    ensures TryBlock(location, upstream).RaisedHttpException? ==>
      var e := TryBlock(location, upstream).e;
      GetWeatherIntended(location, upstream) == Failure(e)
      && GetWeather(location, upstream) == Failure(HttpException(500, UnexpectedPrefix + ExceptionText(e)))
    ensures !TryBlock(location, upstream).RaisedHttpException? ==>
      GetWeatherIntended(location, upstream) == GetWeather(location, upstream)
  {
  }

  /** A successful reply: the first upstream day is dropped, the next five
      are kept in order with defaults filled in. */
  lemma SuccessfulResponse(location: string, upstream: Upstream)
    requires GetWeather(location, upstream).Success?
    ensures upstream.Reply? && upstream.payload.days.Some?
    ensures NormaliseLocation(location).Success?
    ensures Some(GetWeather(location, upstream).value.location.name)
      == DisplayName(NormaliseLocation(location).value, upstream.payload.resolvedAddress)
    ensures var f := GetWeather(location, upstream).value.forecast;
      var days := upstream.payload.days.value;
      |f| == (if |days| <= 1 then 0 else Min(|days|, 6) - 1)
      && forall i :: 0 <= i < |f| ==> f[i] == Shape(days[i + 1])
  {
  }
}
