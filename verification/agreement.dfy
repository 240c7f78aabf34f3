/** How the browser front end and the back end fit together: the postal
    codes each side accepts, the export formats offered and accepted, and
    what the search page shows for each outcome of the weather endpoint. */
module Agreement {

  import opened Results
  import opened Text
  import Home
  import WeatherApi
  import History
  import Schemas

  /** On digit-only strings the front end's gate, the back end's postal
      check and the back end's normalisation accept exactly the same
      strings: those of length 5 or 6. */
  lemma PostalCodesAgree(t: string)
    requires AllDigits(t)
    ensures Home.ValidateLocation(t).Accepted? <==> WeatherApi.IsValidPostalCode(t).valid
    ensures Home.ValidateLocation(t).Accepted? <==> WeatherApi.NormaliseLocation(t).Success?
    ensures WeatherApi.IsValidPostalCode(t).valid <==> |t| == 5 || |t| == 6
  {
    Home.ValidateDigits(t);
    WeatherApi.NormaliseDigits(t);
    WeatherApi.DigitPostalCode(t);
  }

  /** A digit-only string the front end refuses, the back end refuses too,
      and each side uses its postal-code message. */
  lemma PostalRejectionsAgree(t: string)
    requires AllDigits(t) && |t| != 5 && |t| != 6
    ensures Home.HandleSearch(t) == Home.ShowError(Home.PostalCodeMessage)
    ensures WeatherApi.NormaliseLocation(t) == Failure(WeatherApi.HttpException(400, WeatherApi.InvalidPostalDetail))
  {
    DigitsAreTrimmed(t);
    Home.WrongLengthDigitsGetPostalMessage(t);
  }

  /** Every query the search page sends survives the back end's stripping
      unchanged and is never refused as a malformed postal code. */
  lemma SentQueriesPassNormalisation(input: string)
    requires Home.HandleSearch(input).Fetch?
    ensures var q := Home.HandleSearch(input).query;
      Trim(q) == q && WeatherApi.NormaliseLocation(q).Success?
  {
    var q := Home.HandleSearch(input).query;
    TrimIdempotent(input);
    if AllDigits(q) {
      PostalCodesAgree(q);
    }
  }

  /** The export dialog offers exactly the formats the back end accepts. */
  lemma OfferedFormatsAreAccepted(format: string)
    ensures format in History.OfferedFormats <==> Schemas.ValidExportFormat(format)
  {
    Schemas.ExportFormatWhitelist(format);
  }

  /** What the search page ends up showing. */
  datatype Screen = ShowWeather(weather: WeatherApi.WeatherResponse) | ShowMessage(message: string)

  /** `handleSearch` end to end: the gate, then the weather endpoint with the
      upstream reply it will see, then the success branch or the `catch`
      block. A back-end error arrives as its status with its `detail`. */
  function Search(input: string, upstream: WeatherApi.Upstream): Screen {
    match Home.HandleSearch(input)
    case ShowError(m) => ShowMessage(m)
    case Fetch(query) =>
      match WeatherApi.GetWeather(query, upstream)
      case Success(w) => ShowWeather(w)
      case Failure(e) => ShowMessage(Home.FetchErrorMessage(Some(Home.ErrorResponse(e.status, Some(e.detail)))))
  }

  /** Every error of the weather endpoint carries a non-empty `detail`, so
      the `catch` block shows that detail and never its own 404 or 400
      texts. */
  lemma EndpointErrorShownVerbatim(query: string, upstream: WeatherApi.Upstream)
    requires WeatherApi.GetWeather(query, upstream).Failure?
    ensures var e := WeatherApi.GetWeather(query, upstream).error;
      Home.FetchErrorMessage(Some(Home.ErrorResponse(e.status, Some(e.detail)))) == e.detail
  {
  }

  /** With `HTTPException` passed through, the page would still show the
      endpoint's `detail`; the 400, 401 and 404 statuses would then reach it
      but never be looked at. */
  lemma IntendedErrorShownVerbatim(query: string, upstream: WeatherApi.Upstream)
    requires WeatherApi.GetWeatherIntended(query, upstream).Failure?
    ensures var e := WeatherApi.GetWeatherIntended(query, upstream).error;
      Home.FetchErrorMessage(Some(Home.ErrorResponse(e.status, Some(e.detail)))) == e.detail
  {
  }

  /** What a search shows: the gate's message if the gate refuses, the
      weather if the endpoint succeeds, and otherwise the endpoint's
      `detail` word for word. */
  lemma SearchOutcome(input: string, upstream: WeatherApi.Upstream)
    ensures Home.HandleSearch(input).ShowError? ==>
      Search(input, upstream) == ShowMessage(Home.HandleSearch(input).message)
    ensures Home.HandleSearch(input).Fetch? ==>
      var r := WeatherApi.GetWeather(Home.HandleSearch(input).query, upstream);
      && (r.Success? ==> Search(input, upstream) == ShowWeather(r.value))
      && (r.Failure? ==> Search(input, upstream) == ShowMessage(r.error.detail))
  {
    var step := Home.HandleSearch(input);
    if step.Fetch? {
      var r := WeatherApi.GetWeather(step.query, upstream);
      if r.Failure? {
        EndpointErrorShownVerbatim(step.query, upstream);
      }
    }
  }
}
