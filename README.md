# Temperature API conversion handler, in Dafny

This project models the Temperature API service in `main.py`. The core is the
handler `convert_temperature` behind `GET /convert/{temperature}/{unit}/{convertTo}`.
It lowers both unit tokens and looks each one up in two fixed alias tuples,
`('celcius', 'c')` and `('fahrenheit', 'f')`. The handler spells "celcius" with
that misspelling. A Celcius-to-Fahrenheit pair gives `t * 1.8 + 32`. A
Fahrenheit-to-Celcius pair gives `(t - 32) * 5/9`. Every other pair raises one
HTTP 400 error with the detail "Only Celcius and Fahrenheit are supported".

The model follows main.py as written, also where test_main.py expects otherwise:

- The correctly spelled "celsius" is not accepted. The requests at
  test_main.py:119, 136 and 190 spell the unit "celsius". The model shows that
  those requests get the 400 error.
- No absolute-zero bound is checked. Temperatures below -273.15 C or -459.67 F are
  converted. The tests at test_main.py:102-115 expect a rejection with the detail
  "Values lower than absolute zero are not allowed", which main.py never produces.
- Converting a unit to itself (c to c, f to f) falls into the one 400 error of
  main.py:53-57, the same error as an unknown unit such as "kelvin".
- The body of `GET /convert` says "Use to convert temperatures". The test expects
  a different message.

Files:

- `ascii.dfy`, module `Ascii`: ASCII lower-casing of strings, the part of Python's
  `str.lower()` the handler needs, with its character-by-character meaning,
  idempotence, and its relation to comparison that ignores case.
- `temperature_api.dfy`, module `TemperatureApi`: the unit enumeration, the
  handler, the HTTP status and JSON body of its response, the two constant
  informational bodies, and the properties of the handler.

A Python `Decimal` is a Dafny `real`. The constant `Decimal('1.8')` is the exact
real 1.8 and `Decimal(5)/Decimal(9)` is the exact rational 5/9.

## Model

| member | source | states |
|---|---|---|
| `Ascii.LowerChar` | main.py:47 | folding one character leaves no upper-case ASCII letter, changes a character exactly when it is an upper-case letter, and maps upper-case letters to 'a'..'z' |
| `Ascii.Lower` | main.py:47 | `s.lower()` keeps the length of `s` and leaves no upper-case ASCII letter |
| `Ascii.LowerAt` | main.py:47 | character `i` of the lowered string is the lowered character `i` of the input |
| `Ascii.LowerIdempotent` | main.py:47 | lowering twice equals lowering once |
| `Ascii.LowerOfLowercase` | main.py:47 | a string without upper-case letters is unchanged by lowering |
| `Ascii.EqualIgnoringCaseIff` | main.py:47-51 | two tokens lower to the same string exactly when they are equal ignoring letter case (both directions) |
| `Ascii.LowerEqualsLowercase` | main.py:47-51 | a token lowers to a given lower-case alias exactly when it equals that alias ignoring case |
| `TemperatureApi.CelsiusToFahrenheit` | main.py:49 | the result `f` of converting `t` satisfies `9 * t == 5 * (f - 32)`, the relation between the two scales; `RoundTrip`, `ConversionsStrictlyIncreasing` and `ReferencePoints` give its inverse, monotonicity and reference points |
| `TemperatureApi.FahrenheitToCelsius` | main.py:52 | the result `c` of converting `t` satisfies `9 * c == 5 * (t - 32)`; `RoundTrip` shows it inverts `CelsiusToFahrenheit` |
| `TemperatureApi.ParseUnit` | main.py:47-51 | a token is Celcius exactly when its lowering is in `('celcius', 'c')`, Fahrenheit exactly when it is in `('fahrenheit', 'f')`; `ParseUnitCelcius` and `ParseUnitFahrenheit` restate this as equality ignoring case |
| `TemperatureApi.Supported` | main.py:47-53 | the converting pairs are exactly (Celcius, Fahrenheit) and (Fahrenheit, Celcius); every other pair reaches the else branch |
| `TemperatureApi.StatusCode` | main.py:54-58 | a returned value is answered with 200, a raised HTTPException with its own status code |
| `TemperatureApi.HandlerStatusCodes` | main.py:47-57 | the handler answers 200 on a converting pair and 400 on every other pair |
| `TemperatureApi.ConvertTemperature` | main.py:44-58 | the handler succeeds exactly when both units are known and different; a success from Celcius is `CelsiusToFahrenheit(t)`, from Fahrenheit is `FahrenheitToCelsius(t)`; every failure is status 400 with the one fixed detail |
| `TemperatureApi.Body` | main.py:54-58 | the JSON body is an object with exactly one field: "value" holding the converted temperature on success, "detail" holding the error detail otherwise |
| `TemperatureApi.ParseUnitCelcius` | main.py:47-51 | a token names Celcius exactly when it equals "celcius" or "c" ignoring case |
| `TemperatureApi.ParseUnitFahrenheit` | main.py:47-51 | a token names Fahrenheit exactly when it equals "fahrenheit" or "f" ignoring case |
| `TemperatureApi.CelsiusSpellingRejected` | main.py:47-57 | any case variant of "celsius", as the source unit or as the target unit, gives the 400 error |
| `TemperatureApi.MatchingIgnoresCase` | main.py:47-51 | tokens that differ only in letter case give the same response |
| `TemperatureApi.LoweredTokensSameResponse` | main.py:47-51 | lowering the tokens before the call does not change the response |
| `TemperatureApi.UpperCaseLetterAliases` | main.py:47-52 | "C" to "F" and "F" to "C" convert like "c" and "f" |
| `TemperatureApi.MixedCaseNameAliases` | main.py:47-49 | "CELCIUS" to "Fahrenheit" converts like the lower-case names |
| `TemperatureApi.BranchesExclusive` | main.py:47-53 | the two converting conditions never hold together, so the order of the branches does not matter |
| `TemperatureApi.ConvertCelciusToFahrenheit` | main.py:47-49 | a Celcius-to-Fahrenheit pair yields `t * 1.8 + 32` |
| `TemperatureApi.ConvertFahrenheitToCelcius` | main.py:50-52 | a Fahrenheit-to-Celcius pair yields `(t - 32) * 5/9` |
| `TemperatureApi.UnsupportedPairsRejected` | main.py:53-57 | a same-unit pair or a pair with an unknown unit gives status 400 and body `{"detail": "Only Celcius and Fahrenheit are supported"}` |
| `TemperatureApi.SuccessBodyHasOnlyValue` | main.py:58 | a successful response has status 200 and a body whose only key is "value", holding the converted temperature |
| `TemperatureApi.RoundTrip` | main.py:49-52 | converting C to F and back, or F to C and back, returns the original temperature exactly |
| `TemperatureApi.ConversionsStrictlyIncreasing` | main.py:49-52 | both formulas are strictly increasing |
| `TemperatureApi.ReferencePoints` | main.py:49-52 | -273.15 C and -459.67 F correspond both ways, 0 C is 32 F, 212 F is 100 C, and -40 is a fixed point |
| `TemperatureApi.NoAbsoluteZeroCheck` | main.py:44-58 | a Celcius temperature below -273.15 is converted to a value below -459.67 F, and converts back |
| `TemperatureApi.CelsiusAbsoluteZeroRequest` | test_main.py:102-107 | the request at -273.150001 with the unit "celsius" gets the unsupported-unit error, not the absolute-zero detail the test expects |
| `TemperatureApi.FahrenheitAbsoluteZeroRequest` | test_main.py:110-115 | the request at -459.670001 with the unit "celsius" gets the unsupported-unit error |
| `TemperatureApi.BelowAbsoluteZeroConverted` | main.py:47-49 | with the handler's spelling "celcius", -273.150001 C is converted |
| `TemperatureApi.KelvinRejected` | test_main.py:118-120 | "kelvin" as either unit gives the 400 error |
| `TemperatureApi.TableRequestsRejected` | test_main.py:133-138 | the table requests, which spell the unit "celsius", fail in both directions |
| `TemperatureApi.FreezingAndBoiling` | main.py:47-52 | with the handler's spelling, 0 C converts to 32 and 212 F converts to 100 |
| `TemperatureApi.InformationalBodies` | main.py:27-41 | the `GET /` body has the four fields the test expects; the `GET /convert` message differs from the one the test expects |

## Left out

- The FastAPI application object, its route decorators, the documentation URLs and `tags_metadata` (main.py:1-24). They are framework configuration.
- Parsing of the path into a `Decimal`. The 422 for a non-numeric temperature such as "forty" and the 404 for an extra path segment come from the framework's routing, not from the handler.
- Non-finite `Decimal` values (NaN, infinities). A `real` has none.
- TemperatureApi.ConvertTemperature: does not model the exponent limit of Python's default decimal context (Emax 999999, Overflow trapped). A result or intermediate value too large for it, such as `9e999999 * 1.8` on the Celcius branch or `1e1000000 - 32` on the Fahrenheit branch, raises `decimal.Overflow` and the service answers 500, while the model returns a value. The contract's "every failure is the one 400 error" holds only for inputs within that range.
- Decimal context rounding. Python rounds `Decimal(5)/Decimal(9)` and every product and sum to 28 significant digits. The model computes exactly, so its round trip is exact where the service's is only close.
- The JSON encoding of the result. The framework's encoder turns the `Decimal` into a binary float, or into an int when it has no fractional digits. `JNum(v)` is the exact value before that encoding, not the number a client receives.
- Unicode case folding. `str.lower()` also folds non-ASCII letters; the model folds only 'A'..'Z'.
- The test client, the random index selection and the conversion tables of test_main.py. They do network I/O, use randomness, or come from a module that is not part of this model.
- The asynchronous execution of the handlers. Each one is a pure function here.
