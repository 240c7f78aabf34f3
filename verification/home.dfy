/** The search page of the browser front end: the gate that screens a typed
    location before any request is sent, the icon chosen for a weather
    description, and the message shown when the request fails. */
module Home {

  import opened Results
  import opened Text

  const EmptyLocationMessage := "Please enter a location"
  const PostalCodeMessage := "Please enter a valid US ZIP code (5 digits) or Indian PIN code (6 digits)"
  const CityOrPostalMessage := "Please enter a valid city name (at least 2 characters) or postal code (5 digits for US, 6 digits for India)"

  /** What `validateLocation` returns, with the error it sets on rejection. */
  datatype Verdict = Accepted | Rejected(message: string)

  /** A digits-only string of postal-code length: a 5-digit US ZIP or a
      6-digit Indian PIN. */
  predicate PostalShape(s: string) {
    AllDigits(s) && (|s| == 5 || |s| == 6)
  }

  /** `validateLocation`: all-digit input must have postal-code length,
      anything else must have at least two characters. */
  function ValidateLocation(loc: string): (v: Verdict)
    ensures var t := Trim(loc);
      AllDigits(t) ==> (v.Accepted? <==> |t| == 5 || |t| == 6)
    ensures var t := Trim(loc);
      AllDigits(t) && !v.Accepted? ==> v == Rejected(PostalCodeMessage)
    ensures var t := Trim(loc);
      !AllDigits(t) ==> (v.Accepted? <==> |t| >= 2)
    ensures var t := Trim(loc);
      !AllDigits(t) && !v.Accepted? ==> v == Rejected(CityOrPostalMessage)
    ensures v != Rejected(EmptyLocationMessage)
  {
    var trimmed := Trim(loc);
    if AllDigits(trimmed) then
      if |trimmed| == 5 then Accepted
      else if |trimmed| == 6 then Accepted
      else Rejected(PostalCodeMessage)
    else if |trimmed| >= 2 && !AllDigits(trimmed) then Accepted
    else Rejected(CityOrPostalMessage)
  }

  /** The first step of `handleSearch`: either send the request for a query
      or show a message and stop. */
  datatype SearchStep = Fetch(query: string) | ShowError(message: string)

  /** The synchronous prefix of `handleSearch`: an empty trimmed input is
      refused before `validateLocation` is consulted; an accepted input is
      sent trimmed. */
  function HandleSearch(input: string): (r: SearchStep)
    ensures Trim(input) == [] <==> r == ShowError(EmptyLocationMessage)
    ensures r.Fetch? ==> r.query == Trim(input) && r.query != []
    ensures r.Fetch? <==> Trim(input) != [] && ValidateLocation(Trim(input)).Accepted?
    ensures r.ShowError? && Trim(input) != [] ==> Rejected(r.message) == ValidateLocation(Trim(input))
  {
    var trimmed := Trim(input);
    if trimmed == [] then ShowError(EmptyLocationMessage)
    else
      match ValidateLocation(trimmed)
      case Accepted => Fetch(trimmed)
      case Rejected(m) => ShowError(m)
  }

  /** `validateLocation` sees only the trimmed text, so trimming its argument
      first (as `handleSearch` does) changes nothing. */
  lemma ValidateDependsOnlyOnTrim(loc: string)
    ensures ValidateLocation(Trim(loc)) == ValidateLocation(loc)
  {
    var t := Trim(loc);
    TrimIdempotent(loc);
    assert Trim(t) == t;
  }

  /** A digit-only location passes exactly when it has five or six digits. */
  lemma ValidateDigits(t: string)
    requires AllDigits(t)
    ensures ValidateLocation(t).Accepted? <==> |t| == 5 || |t| == 6
  {
    DigitsAreTrimmed(t);
  }

  /** Whitespace around the input does not change what the search does. */
  lemma SearchIgnoresPadding(p: string, s: string, q: string)
    requires AllSpace(p) && AllSpace(q)
    ensures HandleSearch(p + s + q) == HandleSearch(s)
  {
    TrimIgnoresPadding(p, s, q);
  }

  /** The search as a whole accepts exactly the postal-shaped inputs and the
      non-digit inputs of two or more characters, after trimming. */
  lemma SearchAcceptsExactly(input: string)
    ensures var t := Trim(input);
      HandleSearch(input).Fetch? <==> PostalShape(t) || (!AllDigits(t) && |t| >= 2)
  {
  }

  /** A digit-only input of the wrong length, even a single digit, is
      refused with the postal-code message and never the city message. */
  lemma WrongLengthDigitsGetPostalMessage(input: string)
    requires AllDigits(Trim(input)) && |Trim(input)| != 5 && |Trim(input)| != 6
    ensures HandleSearch(input) == ShowError(PostalCodeMessage)
  {
    var t := Trim(input);
    TrimIdempotent(input);
    assert ValidateLocation(t) == Rejected(PostalCodeMessage);
  }

  /** A single non-digit character is refused with the combined message. */
  lemma SingleNonDigitGetsCombinedMessage(input: string, c: char)
    requires Trim(input) == [c] && !IsDigit(c)
    ensures HandleSearch(input) == ShowError(CityOrPostalMessage)
  {
    TrimOfTrimmed([c]);
    assert !AllDigits([c]);
    assert ValidateLocation([c]) == Rejected(CityOrPostalMessage);
  }

  /** Any trimmed text of two or more characters that is not all digits is
      sent as it is. */
  lemma CityQuerySent(t: string)
    requires Trimmed(t) && |t| >= 2 && !AllDigits(t)
    ensures HandleSearch(t) == Fetch(t)
  {
    TrimOfTrimmed(t);
  }

  /** The "no numbers" rule for city names is not enforced: a name that
      mixes letters and digits is sent. */
  lemma CityNameMayContainDigits()
    ensures HandleSearch("A1") == Fetch("A1")
  {
    var t := "A1";
    assert t[0] == 'A' && t[1] == '1';
    assert !IsDigit(t[0]);
    CityQuerySent(t);
  }

  /** The icons `getWeatherIcon` can choose. */
  datatype Icon = WbSunny | Cloud | Grain | AcUnit | Thunderstorm

  /** The description mentions `word`, ignoring ASCII case. */
  predicate Mentions(description: string, word: string) {
    Contains(ToLower(description), word)
  }

  /** `getWeatherIcon`: the first keyword family the lower-cased description
      mentions wins, in the order clear/sunny, cloud, rain, snow; otherwise the
      thunderstorm icon. */
  function WeatherIcon(description: string): (icon: Icon)
    ensures icon == WbSunny <==> Mentions(description, "clear") || Mentions(description, "sunny")
    ensures icon == Cloud <==>
      !icon.WbSunny? && Mentions(description, "cloud")
    ensures icon == Grain <==>
      !icon.WbSunny? && !icon.Cloud? && Mentions(description, "rain")
    ensures icon == AcUnit <==>
      !icon.WbSunny? && !icon.Cloud? && !icon.Grain? && Mentions(description, "snow")
  {
    var desc := ToLower(description);
    if Contains(desc, "clear") || Contains(desc, "sunny") then WbSunny
    else if Contains(desc, "cloud") then Cloud
    else if Contains(desc, "rain") then Grain
    else if Contains(desc, "snow") then AcUnit
    else Thunderstorm
  }

  /** `getWeatherIcon` called with its argument possibly `undefined`, which
      the default parameter turns into "". */
  function WeatherIconOf(description: Option<string>): Icon {
    WeatherIcon(description.GetOr(""))
  }

  /** Descriptions that differ only in ASCII letter case get the same icon. */
  lemma WeatherIconIgnoresCase(a: string, b: string)
    requires ToLower(a) == ToLower(b)
    ensures WeatherIcon(a) == WeatherIcon(b)
  {
  }

  /** A missing or empty description mentions nothing and gets the fallback. */
  lemma MissingDescriptionIsThunderstorm()
    ensures WeatherIconOf(None) == Thunderstorm
    ensures WeatherIcon("") == Thunderstorm
  {
    NothingOccursInEmpty("clear");
    NothingOccursInEmpty("sunny");
    NothingOccursInEmpty("cloud");
    NothingOccursInEmpty("rain");
    NothingOccursInEmpty("snow");
  }

  lemma NothingOccursInEmpty(w: string)
    requires |w| > 0
    ensures !Contains("", w)
  {
  }

  /** A description mentioning a clear or sunny sky gets the sun, whatever
      else it mentions before or after. */
  lemma SunnyWinsOverEverything(before: string, description: string, after: string)
    requires Mentions(description, "clear") || Mentions(description, "sunny")
    ensures WeatherIcon(before + description + after) == WbSunny
  {
    var b, d, a := ToLower(before), ToLower(description), ToLower(after);
    ToLowerConcat(before, description);
    ToLowerConcat(before + description, after);
    assert ToLower(before + description + after) == b + d + a;
    if Mentions(description, "clear") {
      ContainsInContext(b, d, a, "clear");
    } else {
      ContainsInContext(b, d, a, "sunny");
    }
  }

  /** The error response the browser sees: its HTTP status and the `detail`
      field of its JSON body, if any. */
  datatype ErrorResponse = ErrorResponse(status: int, detail: Option<string>)

  const FetchFailedMessage := "Failed to fetch weather data. Please try again."
  const NotFoundMessage := "Location not found. Please check your input."
  const BadRequestMessage := "Invalid location format. Please check your input."

  /** JavaScript truthiness of an optional string: present and non-empty. */
  predicate Truthy(s: Option<string>) {
    s.Some? && s.value != []
  }

  /** The `catch` block of `handleSearch`: the server's `detail` when it is
      truthy, else a fixed text for 404, else for 400, else a generic text.
      `response` is None when the request got no response at all. */
  function FetchErrorMessage(response: Option<ErrorResponse>): (m: string)
    ensures m != []
    ensures response.Some? && Truthy(response.value.detail) ==> m == response.value.detail.value
    ensures response.None? ==> m == FetchFailedMessage
    ensures response.Some? && !Truthy(response.value.detail) ==>
      m == (if response.value.status == 404 then NotFoundMessage
            else if response.value.status == 400 then BadRequestMessage
            else FetchFailedMessage)
  {
    var errorMessage := FetchFailedMessage;
    if response.Some? && Truthy(response.value.detail) then response.value.detail.value
    else if response.Some? && response.value.status == 404 then NotFoundMessage
    else if response.Some? && response.value.status == 400 then BadRequestMessage
    else errorMessage
  }

  /** A truthy `detail` decides the message on its own: the status is not
      looked at. */
  lemma DetailOverridesStatus(s1: int, s2: int, detail: Option<string>)
    requires Truthy(detail)
    ensures FetchErrorMessage(Some(ErrorResponse(s1, detail))) == FetchErrorMessage(Some(ErrorResponse(s2, detail)))
  {
  }
}
