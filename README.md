# Currency converter widget — a Dafny model

This project models the logic of a small React currency-converter front end for the Wise
comparison API. It has two parts:

- **The page** (`src/app/page.tsx`), which covers:
  - loading the currency catalog and turning each record into a flag, a code and a name;
  - the fallback catalog used when loading fails;
  - the default From/To selection once the catalog has arrived;
  - the submit handler that fetches a comparison and stores either a result or an error;
  - the swap button;
  - the two option lists, each hiding the code chosen on the other side;
  - the ISO 8601 duration formatter behind the "Est. Arrival" column.
- **The component** (`src/components/currency-converter/CurrencyConverter.tsx`), which covers:
  - loading the currencies;
  - the submit handler and its `isLoading` / `error` / `showResult` transitions;
  - the two selector handlers that keep From and To on different codes;
  - the lookup of the `Wise` provider, and the fee and delivery lines of its first quote.

The project has seven modules:

- `Wrappers` holds `Option` and `Result`.
- `Duration` holds the duration formatter. `DurationSamples` holds that formatter applied to concrete inputs.
- `Catalog` holds currency records, flags, first-other lookups and option filtering.
- `Quotes` holds the comparison response, the page's submit outcome, the `Wise` lookup and the fee and arrival texts.
- `HomePage` holds class `Home`, the page's state and handlers.
- `Converter` holds class `CurrencyConverter`, the component's state and handlers.

React state becomes fields of a class, and each handler becomes a method with a `modifies`
clause. Every handler reads the state as it was when it started, exactly as a React closure does.

The two submit handlers are split at their awaits, so that the states in between can be observed:

- On the page:
  - `Home.BeginSubmit` is everything before the request.
  - `Home.SettleSubmit` is everything after it, and takes the request's outcome as a parameter.
  - `Home.HandleFormSubmit` runs both.
- In the component:
  - `CurrencyConverter.BeginSubmit` is everything before the request.
  - `CurrencyConverter.ReceiveConversion` is the part between the request and the 50 ms delay. After it, a result is stored but not yet shown.
  - `CurrencyConverter.RevealResult` is the part after the delay.
  - `CurrencyConverter.HandleSubmit` runs them in order.

The two catalog loaders, `Home.FetchCurrencies` and `CurrencyConverter.LoadCurrencies`, also await a request, but each is one method that takes the request's outcome. Nothing in either loader changes state before its await, except the page's `setCurrenciesLoading(true)`, and that flag is already true from the start.

The outcomes of the HTTP requests are values chosen by the caller (`CatalogFetch`, `FetchOutcome`, `CurrencyLoad`, `ConversionFetch`).

Edge cases of the code that the model reproduces as written:

- The hour branch of the formatter always writes `"h "`, so `"PT24H0M0S"` is shown as `"24h "`, with a trailing space.
- The minutes follow directly after that space. There is no separate leading space before them.
  - `Duration.TrailingSpaceIff` proves when the space is the last character.
  - `DurationSamples.SampleTwentyFourHours` proves the 24-hour case.
- The page's catalog defaults read `fromCurrency` from the mount-time closure. This has two consequences:
  - The "to" default is the first code other than `"USD"`, even after "from" has just changed.
  - When neither `USD` nor `EUR` is listed, both sides become the first code (`HomePage.DefaultsNeitherPresent`).

  The model reproduces this behaviour.
- In the component, the replacement code is the first currency whose code differs, followed by `?.code || ''`. When that first different currency has an empty code, nothing changes, even if a later currency has a usable code (`Converter.OtherCode`, `Converter.EmptyReplacementKeeps`).

A flag is modelled as its sequence of code points:

- Each of the first two characters is upper-cased and shifted by 127397.
  - A line terminator is the exception: `.` does not match it, so it stays as it is.
- The fallback catalog's flags are kept as the literal, mis-decoded characters that the source text contains.

A JavaScript number is represented by its rendered text. It is falsy when that text is `"0"` or `"NaN"`.

## Model

| member | source | states |
|---|---|---|
| Duration.DigitsValueBound | src/app/page.tsx:122-123 | `parseInt` of a digit string is its decimal value, which is below 10^n for n digits |
| Duration.ParseIntExact | src/app/page.tsx:122-123 | a count of at most 15 digits stays below 2^53, so the exact value is the number `parseInt` returns |
| Duration.NatToString | src/app/page.tsx:127-131 | a number in a template literal is rendered as a non-empty digit string that reads back as the number, whose first digit is '0' only when the whole text is "0" |
| Duration.NatToStringInjective | src/app/page.tsx:127-131 | different numbers render differently |
| Duration.LeadingZeroIgnored | src/app/page.tsx:122-123 | parseInt ignores leading zeros: "0" + ds reads as ds |
| Duration.FindPT | src/app/page.tsx:119 | the unanchored match starts at the first "PT" and exists exactly when the text contains "PT" |
| Duration.DigitRun | src/app/page.tsx:119 | `\d+` takes the maximal run of digits |
| Duration.ReadGroup | src/app/page.tsx:119 | an optional group `(\d+)H` / `(\d+)M` either captures digits followed by its designator, with their value, or is skipped without consuming anything |
| Duration.ReadGroupAt | src/app/page.tsx:119 | wherever digits followed by the designator occur at that position, the group captures exactly them |
| Duration.ParseDuration | src/app/page.tsx:119-123 | the match succeeds exactly when the text contains "PT" |
| Duration.FormatDuration | src/app/page.tsx:117-133 | the result is "Unknown" exactly when the input is absent or has no "PT" |
| Duration.Label | src/app/page.tsx:125-132 | every label begins with a digit and is at least two characters long |
| Duration.FormatParsed | src/app/page.tsx:119-132 | whenever the text parses, the result is the label of the parsed hours and minutes |
| Duration.LabelLastChar | src/app/page.tsx:125-132 | which branch produced the label, read off its last character: "s" for 48 hours or more, "y" for 25–47 hours, a space for 1–24 hours without minutes, "m" otherwise |
| Duration.DayBranch | src/app/page.tsx:125-127 | above 24 hours the label is the whole number of days, rounded down, followed by " day", plus "s" from 48 hours; minutes are dropped |
| Duration.MinuteBranch | src/app/page.tsx:130-131 | with zero hours the label is the minute count followed by "m", "0m" included |
| Duration.OneDayIff | src/app/page.tsx:125-127 | the label is "1 day" exactly when 25 ≤ hours ≤ 47 |
| Duration.PluralIff | src/app/page.tsx:126-127 | "days" is plural exactly when hours ≥ 48 |
| Duration.TrailingSpaceIff | src/app/page.tsx:128-129 | the label ends in a space exactly when 1 ≤ hours ≤ 24 and minutes = 0 |
| Duration.HourBranch | src/app/page.tsx:128-129 | for 1–24 hours the label is "{h}h " followed by "{m}m" only when there are minutes |
| Duration.ReadWritten | src/app/page.tsx:119-122 | reading a number written in decimal and followed by its designator gives the number back |
| Duration.ReadNothing | src/app/page.tsx:119-123 | a group is skipped where no digit follows |
| Duration.ReadOther | src/app/page.tsx:119 | the hour group is skipped before minute digits |
| Duration.ParseHoursMinutes | src/app/page.tsx:119-123 | "PT{h}H{m}M" followed by anything parses to (h, m), so the seconds never matter |
| Duration.ParseHoursOnly | src/app/page.tsx:119-123 | "PT{h}H" parses to (h, 0) |
| Duration.ParseMinutesOnly | src/app/page.tsx:119-123 | "PT{m}M" parses to (0, m) |
| Duration.ParseHoursSeconds | src/app/page.tsx:119-123 | "PT{h}H{s}" followed by any non-digit other than "M" (the "S" of whole seconds, the "." of fractional ones) parses to (h, 0): seconds are never read |
| Duration.ParseSecondsOnly | src/app/page.tsx:119-123 | "PT{s}" followed by any non-digit other than "H" or "M" parses to (0, 0), whole or fractional seconds alike |
| Duration.ParseBare | src/app/page.tsx:119-123 | "PT" with no group parses to (0, 0) |
| Duration.ParseFromFirstPT | src/app/page.tsx:119 | the parse equals the parse of the text from the first "PT" on |
| Duration.ParseAt | src/app/page.tsx:119-123 | with both groups matched at known positions, the parse is the value of the two digit runs |
| DurationSamples.SampleUnknown | src/app/page.tsx:118-120 | absent, empty and "garbage" inputs give "Unknown" |
| DurationSamples.SampleHoursAndMinutes | src/app/page.tsx:116-133 | "PT20H8M16.305111S" gives "20h 8m" |
| DurationSamples.SampleOneDay | src/app/page.tsx:125-127 | "PT25H0M0S" gives "1 day" |
| DurationSamples.SampleTwoDays | src/app/page.tsx:125-127 | "PT48H0M0S" gives "2 days" |
| DurationSamples.SampleTwentyFourHours | src/app/page.tsx:128-129 | "PT24H0M0S" gives "24h " with a trailing space |
| DurationSamples.SampleMinutes | src/app/page.tsx:130-131 | "PT0H45M0S" gives "45m" |
| DurationSamples.SampleSecondsOnly | src/app/page.tsx:130-131 | "PT0H0M30S" gives "0m" |
| DurationSamples.SampleBare | src/app/page.tsx:119-131 | "PT" gives "0m" |
| DurationSamples.SampleLeadingZeros | src/app/page.tsx:122-129 | "PT007H" gives "7h " |
| DurationSamples.SampleUnanchored | src/app/page.tsx:119 | "xPT5H" gives "5h " |
| Catalog.Upper | src/app/page.tsx:32 | ASCII lower-case letters become upper-case, everything else is unchanged |
| Catalog.Flag | src/app/page.tsx:30-35 | the flag has one code point per character of the first two, each shifted by 127397 after upper-casing |
| Catalog.FlagRoundTrip | src/app/page.tsx:29-35 | for a two-letter prefix both code points are regional indicators, and each decodes back to the upper-cased letter |
| Catalog.FlagIgnoresCase | src/app/page.tsx:31-32 | codes whose first two characters agree up to case have the same flag; later characters do not matter |
| Catalog.SampleFlag | src/app/page.tsx:30-35 | "USD" gives the code points of the US flag |
| Catalog.FormatCatalog | src/app/page.tsx:28-42 | one currency per record, in order, with the record's code and name and the flag of its code |
| Catalog.FallbackCodes | src/app/page.tsx:63-70 | the fallback lists USD, EUR, GBP, JPY, CAD and AUD in this order, without repeats, so both starting codes are on it |
| Catalog.FirstOther | src/app/page.tsx:56 | the index of the first currency whose code differs, and None exactly when all codes are equal to the excluded one |
| Catalog.Without | src/app/page.tsx:180-181 | a currency is kept exactly when it is listed and its code differs from the excluded one |
| Catalog.WithoutAppend | src/app/page.tsx:180-181 | filtering keeps list order: it distributes over concatenation |
| Catalog.WithoutAbsent | src/app/page.tsx:225-226 | filtering out a code nobody has keeps the whole list |
| Catalog.OwnSideListed | src/app/page.tsx:180-186 | a side's own code is among its options exactly when it is listed and differs from the other side |
| Quotes.HttpErrorMessage | src/app/page.tsx:96-97 | the message is "HTTP error! status: " followed by the status written in decimal with no leading zero (exactly "0" for 0), so the text is fixed by the status |
| Quotes.Usable | src/app/page.tsx:102-104 | a body is usable exactly when it offers at least one provider |
| Quotes.PageErrorText | src/app/page.tsx:110 | the shown error is the thrown message, or the fallback when the message is empty, so it is never empty |
| Quotes.PageSubmitOutcome | src/app/page.tsx:91-110 | success exactly when the body has a non-empty provider list, which is then kept unchanged; a non-OK status gives "HTTP error! status: N", missing data gives "No conversion data available", and a thrown error gives its message, or the generic fallback when that message is empty |
| Quotes.WiseProvider | src/components/currency-converter/CurrencyConverter.tsx:91-93 | the first provider named exactly "Wise"; none exactly when no provider has that name |
| Quotes.FeeText | src/components/currency-converter/CurrencyConverter.tsx:225 | the fee as rendered, or "0" when it is absent or falsy |
| Quotes.PageFeeText | src/app/page.tsx:336 | "Free" exactly when the fee is absent or falsy, otherwise the fee followed by the source currency |
| Quotes.DeliveryMin | src/components/currency-converter/CurrencyConverter.tsx:229 | present exactly when the estimate, its duration and a non-empty minimum all exist, and then it is that minimum |
| Quotes.ArrivalText | src/app/page.tsx:294-296 | "N/A" exactly when there is no truthy minimum, otherwise the formatted minimum |
| HomePage.CatalogDefaults | src/app/page.tsx:46-58 | nothing changes for fewer than two currencies; "from" becomes the first code when "USD" is missing; "to" changes only when "EUR" is missing, to the first code other than "USD" |
| HomePage.DefaultsNeitherPresent | src/app/page.tsx:51-57 | with neither USD nor EUR listed, both sides become the first code |
| HomePage.DefaultsBothPresent | src/app/page.tsx:47-58 | with both listed, the selection is kept |
| HomePage.Home.FromOptions | src/app/page.tsx:180-181 | the from-options are the listed currencies whose code differs from "to" |
| HomePage.Home.ToOptions | src/app/page.tsx:225-226 | the to-options are the listed currencies whose code differs from "from" |
| HomePage.Home.constructor | src/app/page.tsx:5-12 | the initial state: no result or error, USD to EUR, no currencies, catalog loading |
| HomePage.Home.FetchCurrencies | src/app/page.tsx:16-73 | on success the formatted catalog and the defaults; on failure the fallback catalog and an unchanged selection; loading is over either way |
| HomePage.Home.BeginSubmit | src/app/page.tsx:79-88 | loading, with error and result cleared and the amount stored |
| HomePage.Home.SettleSubmit | src/app/page.tsx:91-113 | the outcome's result or error message is stored and loading ends |
| HomePage.Home.HandleFormSubmit | src/app/page.tsx:79-114 | a result is kept exactly when the request succeeded with usable data, and then the error is cleared; otherwise the error text is set and the result cleared; the amount is stored, loading ends, and the selection, currencies and catalog-loading flag are unchanged |
| HomePage.Home.Swap | src/app/page.tsx:196-200 | the two sides are exchanged and so are the two option lists; no other field changes |
| HomePage.Home.SelectFrom | src/app/page.tsx:173 | the chosen code becomes "from" |
| HomePage.Home.SelectTo | src/app/page.tsx:218 | the chosen code becomes "to" |
| HomePage.SwapTwice | src/app/page.tsx:196-200 | swapping twice restores the whole state: the selection, both option lists and every other field |
| Converter.ThrownText | src/components/currency-converter/CurrencyConverter.tsx:48-52 | an Error's message, otherwise the generic message |
| Converter.OtherCode | src/components/currency-converter/CurrencyConverter.tsx:68 | the code of the first currency with a different code, or "" when there is none or that code is empty |
| Converter.OnFromChange | src/components/currency-converter/CurrencyConverter.tsx:60-73 | "from" is the chosen code; "to" changes only on a clash whose first different code is non-empty, and then becomes that code; otherwise "to" is unchanged |
| Converter.OnToChange | src/components/currency-converter/CurrencyConverter.tsx:75-88 | the mirror image for the "to" selector |
| Converter.EmptyReplacementKeeps | src/components/currency-converter/CurrencyConverter.tsx:68-71 | when the first currency with a different code has an empty code, a clash leaves both sides on the chosen code, even though a later currency has a usable one |
| Converter.ChangeHandlersMirror | src/components/currency-converter/CurrencyConverter.tsx:60-88 | the "to" handler is the "from" handler on the swapped selection, swapped back |
| Converter.ClashResolved | src/components/currency-converter/CurrencyConverter.tsx:66-71 | if some currency has a different code and no code is empty, the sides always end up different |
| Converter.SingleCodeClash | src/components/currency-converter/CurrencyConverter.tsx:66-71 | when every listed code equals the clashing one, both sides stay equal |
| Converter.CurrencyConverter.constructor | src/components/currency-converter/CurrencyConverter.tsx:9-16 | the initial state: no currencies, USD to EUR, amount 1000, nothing loading, shown or failed |
| Converter.CurrencyConverter.LoadCurrencies | src/components/currency-converter/CurrencyConverter.tsx:20-27 | success stores the currencies; failure sets the load error and keeps the list as it was |
| Converter.CurrencyConverter.BeginSubmit | src/components/currency-converter/CurrencyConverter.tsx:34-38 | loading, with the error and the result block cleared |
| Converter.CurrencyConverter.ReceiveConversion | src/components/currency-converter/CurrencyConverter.tsx:40-56 | the handler after the request: a result is stored but still hidden while loading goes on; a failure keeps the old result hidden, sets the error text and ends loading |
| Converter.CurrencyConverter.RevealResult | src/components/currency-converter/CurrencyConverter.tsx:45-56 | after the delay, the stored result is shown and loading ends |
| Converter.CurrencyConverter.HandleSubmit | src/components/currency-converter/CurrencyConverter.tsx:34-57 | the whole handler: the same outcome from any starting state, with the selection, currencies and amount unchanged |
| Converter.CurrencyConverter.HandleFromCurrencyChange | src/components/currency-converter/CurrencyConverter.tsx:60-73 | the new selection is `OnFromChange` of the old one |
| Converter.CurrencyConverter.HandleToCurrencyChange | src/components/currency-converter/CurrencyConverter.tsx:75-88 | the new selection is `OnToChange` of the old one |
| Converter.CurrencyConverter.SetAmount | src/components/currency-converter/CurrencyConverter.tsx:119 | the amount field holds the typed text |

## Left out

- The HTTP requests and JSON parsing. Each request's outcome is a parameter, including a body that is not a list.
- `src/components/ui/index.tsx`. It is presentational only: Card, Button, Spinner, ErrorMessage and FadeIn.
- `services/currencyService` and `lib/utils` are not part of this model.
  - `fetchCurrencies`, `fetchConversionRates` and `delay` appear only as the outcomes they deliver.
  - The component's `formatDuration` comes from `lib/utils`. The model does not assume that it equals the page's formatter, so only the condition under which the delivery line appears is modelled.
- Floating point: `parseFloat(amount) * parseFloat(rate)` with `toFixed(2)`, and `toFixed(4)`.
- Timing and concurrency:
  - How long the 50 ms delay lasts, and the fade-in. The delay is modelled only as the point between `ReceiveConversion` and `RevealResult`.
  - Overlapping submits and anything that runs during an await. The model settles each submit before the next one begins.
- Rendering and logging: JSX, CSS classes, the logo `onError` fallback, and `console` output.
- `quotes[0]` on a provider with no quotes. The source would throw while rendering.
- Catalog.Upper: only ASCII letters are upper-cased. `toUpperCase` also changes other letters, for example "ß" → "SS", which lengthens the code.
- Catalog.Flag: works on Unicode scalar values. A character outside the Basic Multilingual Plane is two UTF-16 code units in the source, and `charCodeAt(0)` reads only the first.
- Duration.ParseDuration: captured digit strings are read as exact natural numbers. `parseInt` agrees up to 15 digits (`Duration.ParseIntExact`), but loses precision above 2^53, which the model does not reproduce.
- Duration.NatToString: renders every count in plain decimal digits. A template literal writes numbers of 1e21 or more in exponent form, for example "1e+21 days".
- Quotes.FeeText: a fee is its rendered text. How the API's number becomes that text is not modelled.
