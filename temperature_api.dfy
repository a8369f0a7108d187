/**
 The temperature conversion API of main.py: the handler behind
 `GET /convert/{temperature}/{unit}/{convertTo}` and the two constant
 informational endpoints. The path temperature, a Python `Decimal`, is a
 `real`; both conversions are exact.
 */
module TemperatureApi {
  import opened Ascii

  /**
   The unit a token names once it is lowered and looked up in the alias tuples.
   `Celcius` keeps the handler's spelling; it is the Celsius scale of
   `CelsiusToFahrenheit` and `FahrenheitToCelsius`.
   */
  datatype Unit = Celcius | Fahrenheit | Other

  /** The alias tuples as the handler spells them ("celcius", not "celsius"). */
  const CelciusAliases: seq<string> := ["celcius", "c"]
  const FahrenheitAliases: seq<string> := ["fahrenheit", "f"]

  const BadRequest: int := 400
  const Ok: int := 200
  const UnsupportedDetail: string := "Only Celcius and Fahrenheit are supported"

  /** What the handler produces: the converted value, or the HTTPException it raises. */
  datatype Response = Value(value: real) | HttpError(status: int, detail: string)

  /** A JSON document, enough for the bodies the endpoints return. */
  datatype Json = JNum(n: real) | JStr(s: string) | JArr(items: seq<Json>) | JObj(fields: map<string, Json>)

  /** The Celsius-to-Fahrenheit formula of the first branch. */
  function CelsiusToFahrenheit(t: real): (f: real)
    ensures 9.0 * t == 5.0 * (f - 32.0)
  {
    t * 1.8 + 32.0
  }

  /** The Fahrenheit-to-Celsius formula of the second branch, with 5/9 taken exactly. */
  function FahrenheitToCelsius(t: real): (c: real)
    ensures 9.0 * c == 5.0 * (t - 32.0)
  {
    (t - 32.0) * (5.0 / 9.0)
  }

  /** Normalisation of a unit token into the closed enumeration. */
  function ParseUnit(token: string): (u: Unit)
    ensures u == Celcius <==> Lower(token) in CelciusAliases
    ensures u == Fahrenheit <==> Lower(token) in FahrenheitAliases
  {
    var t := Lower(token);
    if t in CelciusAliases then Celcius
    else if t in FahrenheitAliases then Fahrenheit
    else Other
  }

  /** The pairs the handler converts: both units known and different. */
  predicate Supported(from: Unit, to: Unit)
    ensures Supported(from, to) <==> (from, to) == (Celcius, Fahrenheit) || (from, to) == (Fahrenheit, Celcius)
  {
    from != Other && to != Other && from != to
  }

  /**
   `convert_temperature`: the if/elif/else of the handler. It succeeds exactly
   on a supported pair, and every failure is the one 400 error.
   */
  function ConvertTemperature(temperature: real, unit: string, convertTo: string): (r: Response)
    ensures r.Value? <==> Supported(ParseUnit(unit), ParseUnit(convertTo))
    ensures r.Value? && ParseUnit(unit) == Celcius ==> r.value == CelsiusToFahrenheit(temperature)
    ensures r.Value? && ParseUnit(unit) == Fahrenheit ==> r.value == FahrenheitToCelsius(temperature)
    ensures r.HttpError? ==> r.status == BadRequest && r.detail == UnsupportedDetail
  {
    if Lower(unit) in CelciusAliases && Lower(convertTo) in FahrenheitAliases then
      Value(CelsiusToFahrenheit(temperature))
    else if Lower(unit) in FahrenheitAliases && Lower(convertTo) in CelciusAliases then
      Value(FahrenheitToCelsius(temperature))
    else
      HttpError(BadRequest, UnsupportedDetail)
  }

  /** The status code of the HTTP response. */
  function StatusCode(r: Response): (code: int)
    ensures r.Value? ==> code == Ok
    ensures r.HttpError? ==> code == r.status
  {
    match r
    case Value(_) => Ok
    case HttpError(status, _) => status
  }

  /** The JSON body: `{"value": ...}` on success, `{"detail": ...}` for the exception. */
  function Body(r: Response): (j: Json)
    ensures j.JObj? && |j.fields| == 1
    ensures r.Value? ==> "value" in j.fields && j.fields["value"] == JNum(r.value)
    ensures r.HttpError? ==> "detail" in j.fields && j.fields["detail"] == JStr(r.detail)
  {
    match r
    case Value(v) => JObj(map["value" := JNum(v)])
    case HttpError(_, d) => JObj(map["detail" := JStr(d)])
  }

  /** The constant body of `GET /`. */
  const RootBody: Json := JObj(map[
    "message" := JStr("Welcome to the Temperature Converter API"),
    "endpoints" := JArr([JStr("/convert")]),
    "documentation" := JStr("/documentation"),
    "open-api-doc" := JStr("/openapi.json")])

  /** The constant body of `GET /convert`. */
  const ConvertInfoBody: Json := JObj(map[
    "message" := JStr("Use to convert temperatures"),
    "documentation" := JStr("/documentation"),
    "open-api-doc" := JStr("/openapi.json")])

  // ---------------------------------------------------------------------------
  // Unit matching

  /** A token names Celcius exactly when it is "celcius" or "c" up to letter case. */
  lemma ParseUnitCelcius(token: string)
    ensures ParseUnit(token) == Celcius <==>
      EqualIgnoringCase(token, "celcius") || EqualIgnoringCase(token, "c")
  {
    LowerSpellingsCelcius();
    LowerSpellingsC();
    LowerEqualsLowercase(token, "celcius");
    LowerEqualsLowercase(token, "c");
  }

  /** A token names Fahrenheit exactly when it is "fahrenheit" or "f" up to letter case. */
  lemma ParseUnitFahrenheit(token: string)
    ensures ParseUnit(token) == Fahrenheit <==>
      EqualIgnoringCase(token, "fahrenheit") || EqualIgnoringCase(token, "f")
  {
    LowerSpellingsFahrenheit();
    LowerSpellingsF();
    LowerEqualsLowercase(token, "fahrenheit");
    LowerEqualsLowercase(token, "f");
  }

  /** The correct spelling "celsius", in any letter case, is not a unit the handler knows. */
  lemma CelsiusSpellingRejected(t: real, token: string, other: string)
    requires EqualIgnoringCase(token, "celsius")
    ensures ParseUnit(token) == Other
    ensures ConvertTemperature(t, token, other) == HttpError(BadRequest, UnsupportedDetail)
    ensures ConvertTemperature(t, other, token) == HttpError(BadRequest, UnsupportedDetail)
  {
    LowerEqualsLowercase(token, "celsius");
  }

  /** Only the letter case of the tokens is ignored: case variants give the same response. */
  lemma MatchingIgnoresCase(t: real, unit: string, convertTo: string, unit': string, convertTo': string)
    requires EqualIgnoringCase(unit, unit') && EqualIgnoringCase(convertTo, convertTo')
    ensures ConvertTemperature(t, unit, convertTo) == ConvertTemperature(t, unit', convertTo')
  {
    EqualIgnoringCaseIff(unit, unit');
    EqualIgnoringCaseIff(convertTo, convertTo');
  }

  /** Lowering the tokens first does not change the response. */
  lemma {:induction false} LoweredTokensSameResponse(t: real, unit: string, convertTo: string)
    ensures ConvertTemperature(t, Lower(unit), Lower(convertTo)) == ConvertTemperature(t, unit, convertTo)
  {
    LowerIdempotent(unit);
    LowerIdempotent(convertTo);
  }

  /** Upper-case single-letter aliases behave as the lower-case ones. */
  lemma UpperCaseLetterAliases(t: real)
    ensures ConvertTemperature(t, "C", "F") == Value(CelsiusToFahrenheit(t))
    ensures ConvertTemperature(t, "F", "C") == Value(FahrenheitToCelsius(t))
  {
    LowerSpellingsC();
    LowerSpellingsF();
  }

  /** "CELCIUS" and "Fahrenheit" behave as "celcius" and "fahrenheit". */
  lemma MixedCaseNameAliases(t: real)
    ensures ConvertTemperature(t, "CELCIUS", "Fahrenheit") == Value(CelsiusToFahrenheit(t))
  {
    LowerSpellingsCelcius();
    LowerSpellingsFahrenheit();
  }

  /** The two converting branches never both apply, so their order does not matter. */
  lemma BranchesExclusive(unit: string, convertTo: string)
    ensures !((Lower(unit) in CelciusAliases && Lower(convertTo) in FahrenheitAliases) &&
              (Lower(unit) in FahrenheitAliases && Lower(convertTo) in CelciusAliases))
  {
  }

  /** How the handler lowers the spellings used by clients and tests. */
  lemma LowerSpellingsC()
    ensures Lower("c") == "c" && Lower("C") == "c"
  {
    LowerOfLowercase("c");
    EqualIgnoringCaseIff("C", "c");
  }

  lemma LowerSpellingsF()
    ensures Lower("f") == "f" && Lower("F") == "f"
  {
    LowerOfLowercase("f");
    EqualIgnoringCaseIff("F", "f");
  }

  lemma LowerSpellingsCelcius()
    ensures Lower("celcius") == "celcius" && Lower("CELCIUS") == "celcius"
  {
    LowerOfLowercase("celcius");
    EqualIgnoringCaseIff("CELCIUS", "celcius");
  }

  lemma LowerSpellingsFahrenheit()
    ensures Lower("fahrenheit") == "fahrenheit" && Lower("Fahrenheit") == "fahrenheit"
  {
    LowerOfLowercase("fahrenheit");
    EqualIgnoringCaseIff("Fahrenheit", "fahrenheit");
  }

  lemma LowerSpellingsOther()
    ensures Lower("celsius") == "celsius" && Lower("kelvin") == "kelvin"
  {
    LowerOfLowercase("celsius");
    LowerOfLowercase("kelvin");
  }

  // ---------------------------------------------------------------------------
  // Outcomes of the handler

  /** A Celcius-to-Fahrenheit pair yields `t * 1.8 + 32`. */
  lemma ConvertCelciusToFahrenheit(t: real, unit: string, convertTo: string)
    requires ParseUnit(unit) == Celcius && ParseUnit(convertTo) == Fahrenheit
    ensures ConvertTemperature(t, unit, convertTo) == Value(t * 1.8 + 32.0)
  {
  }

  /** A Fahrenheit-to-Celcius pair yields `(t - 32) * 5/9`. */
  lemma ConvertFahrenheitToCelcius(t: real, unit: string, convertTo: string)
    requires ParseUnit(unit) == Fahrenheit && ParseUnit(convertTo) == Celcius
    ensures ConvertTemperature(t, unit, convertTo) == Value((t - 32.0) * 5.0 / 9.0)
  {
  }

  /** Converting a unit to itself, or involving an unknown unit, is the 400 error. */
  lemma UnsupportedPairsRejected(t: real, unit: string, convertTo: string)
    requires ParseUnit(unit) == ParseUnit(convertTo) || ParseUnit(unit) == Other || ParseUnit(convertTo) == Other
    ensures ConvertTemperature(t, unit, convertTo) == HttpError(BadRequest, UnsupportedDetail)
    ensures StatusCode(ConvertTemperature(t, unit, convertTo)) == 400
    ensures Body(ConvertTemperature(t, unit, convertTo)) == JObj(map["detail" := JStr("Only Celcius and Fahrenheit are supported")])
  {
  }

  /** The handler answers 200 on a supported pair and 400 on every other pair. */
  lemma HandlerStatusCodes(t: real, unit: string, convertTo: string)
    ensures StatusCode(ConvertTemperature(t, unit, convertTo)) ==
      if Supported(ParseUnit(unit), ParseUnit(convertTo)) then 200 else 400
  {
  }

  /** A successful body has exactly one field, "value", holding the converted temperature. */
  lemma SuccessBodyHasOnlyValue(t: real, unit: string, convertTo: string)
    requires ConvertTemperature(t, unit, convertTo).Value?
    ensures StatusCode(ConvertTemperature(t, unit, convertTo)) == 200
    ensures Body(ConvertTemperature(t, unit, convertTo)).fields.Keys == {"value"}
    ensures Body(ConvertTemperature(t, unit, convertTo)) == JObj(map["value" := JNum(ConvertTemperature(t, unit, convertTo).value)])
  {
  }

  // ---------------------------------------------------------------------------
  // Arithmetic

  /** Converting back inverts a conversion exactly (5/9 taken as an exact rational). */
  lemma RoundTrip(t: real, celcius: string, fahrenheit: string)
    requires ParseUnit(celcius) == Celcius && ParseUnit(fahrenheit) == Fahrenheit
    ensures ConvertTemperature(t, celcius, fahrenheit).Value?
    ensures ConvertTemperature(ConvertTemperature(t, celcius, fahrenheit).value, fahrenheit, celcius) == Value(t)
    ensures ConvertTemperature(t, fahrenheit, celcius).Value?
    ensures ConvertTemperature(ConvertTemperature(t, fahrenheit, celcius).value, celcius, fahrenheit) == Value(t)
  {
  }

  /** Both formulas are strictly increasing. */
  lemma ConversionsStrictlyIncreasing(a: real, b: real)
    requires a < b
    ensures CelsiusToFahrenheit(a) < CelsiusToFahrenheit(b)
    ensures FahrenheitToCelsius(a) < FahrenheitToCelsius(b)
  {
  }

  /** The two absolute zeros correspond, and -40 is the same on both scales. */
  lemma ReferencePoints()
    ensures CelsiusToFahrenheit(-273.15) == -459.67 && FahrenheitToCelsius(-459.67) == -273.15
    ensures CelsiusToFahrenheit(0.0) == 32.0 && FahrenheitToCelsius(212.0) == 100.0
    ensures CelsiusToFahrenheit(-40.0) == -40.0
  {
  }

  /** No lower bound: temperatures below absolute zero are converted, not rejected. */
  lemma NoAbsoluteZeroCheck(t: real)
    requires t < -273.15
    ensures ConvertTemperature(t, "c", "f") == Value(CelsiusToFahrenheit(t))
    ensures CelsiusToFahrenheit(t) < -459.67
    ensures ConvertTemperature(CelsiusToFahrenheit(t), "f", "c") == Value(t)
  {
    LowerSpellingsC();
    LowerSpellingsF();
  }

  // ---------------------------------------------------------------------------
  // Requests of the test suite, answered by the handler as written

  /** `/convert/-273.150001/celsius/fahrenheit` gets the unsupported-unit error,
      whose detail is not the absolute-zero message the test expects. */
  lemma CelsiusAbsoluteZeroRequest()
    ensures ConvertTemperature(-273.150001, "celsius", "fahrenheit") == HttpError(BadRequest, UnsupportedDetail)
    ensures UnsupportedDetail != "Values lower than absolute zero are not allowed"
  {
    CelsiusSpellingRejected(-273.150001, "celsius", "fahrenheit");
  }

  /** `/convert/-459.670001/celsius/fahrenheit` gets the same error. */
  lemma FahrenheitAbsoluteZeroRequest()
    ensures ConvertTemperature(-459.670001, "celsius", "fahrenheit") == HttpError(BadRequest, UnsupportedDetail)
  {
    CelsiusSpellingRejected(-459.670001, "celsius", "fahrenheit");
  }

  /** With the handler's own spelling, a temperature below absolute zero is converted. */
  lemma BelowAbsoluteZeroConverted()
    ensures ConvertTemperature(-273.150001, "celcius", "fahrenheit") == Value(CelsiusToFahrenheit(-273.150001))
  {
    LowerSpellingsCelcius();
    LowerSpellingsFahrenheit();
  }

  /** `/convert/30/celsius/kelvin` fails; so does any request naming "kelvin". */
  lemma KelvinRejected(t: real, unit: string)
    ensures ConvertTemperature(30.0, "celsius", "kelvin").HttpError?
    ensures ConvertTemperature(t, unit, "kelvin") == HttpError(BadRequest, UnsupportedDetail)
    ensures ConvertTemperature(t, "kelvin", unit) == HttpError(BadRequest, UnsupportedDetail)
  {
    LowerSpellingsOther();
  }

  /** The random-table requests spell the unit "celsius", so every one of them fails. */
  lemma TableRequestsRejected(t: real)
    ensures ConvertTemperature(t, "celsius", "fahrenheit").HttpError?
    ensures ConvertTemperature(t, "fahrenheit", "celsius").HttpError?
  {
    CelsiusSpellingRejected(t, "celsius", "fahrenheit");
  }

  /** With the handler's spelling, 0 C is 32 F and 212 F is 100 C. */
  lemma FreezingAndBoiling()
    ensures ConvertTemperature(0.0, "celcius", "fahrenheit") == Value(32.0)
    ensures ConvertTemperature(212.0, "fahrenheit", "celcius") == Value(100.0)
  {
    LowerSpellingsCelcius();
    LowerSpellingsFahrenheit();
  }

  /** The body of `GET /` has the four fields the test expects; the message of
      `GET /convert` is not the one the test expects. */
  lemma InformationalBodies()
    ensures RootBody.fields.Keys == {"message", "endpoints", "documentation", "open-api-doc"}
    ensures ConvertInfoBody.fields["message"] != JStr("This endpoint is Used to convert temperatures")
  {
  }
}
