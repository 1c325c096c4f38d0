# goebaykleinanzeigen scraper core, modelled in Dafny

The Go package `goebay` scrapes the classified-ads site eBay Kleinanzeigen.
It has two halves, and this project models both.

- **Parser** (`parser.go`). It turns a search-result page into a list of
  `AdListItem`s and an ad page into an `AdItem` with its `Seller`. Small field
  parsers do the work: `parsePrice`, `parseLocation`, `parseExtraInfo`,
  `parseDetail`, `parseRating` and `parseActiveSince`. Each splits, trims or
  strips a prefix from the text of one HTML element.
- **URL builder** (`searchparam.go`). It turns a `SearchParam` into a search
  URL. One `fmt…` function per field writes a path segment, or nothing when
  the field is unset. `toURL` writes the segments in a fixed order, trims
  slashes from both ends and appends the result to the base URL.

The project's modules:

| module | file | models |
|---|---|---|
| `Wrappers` | wrappers.dfy | `Option` and `Result` |
| `GoStrings` | gostrings.dfy | the `strings` functions the core calls: `Split`, `SplitN(…, 2)`, `Index`, `ReplaceAll(…, "")`, `TrimSpace`, `TrimPrefix`, `Trim(…, "/")` |
| `Strconv` | strconv.dfy | `strconv.ParseInt(s, 10, 32)` and `strconv.Itoa` on positive numbers |
| `GoTime` | gotime.dfy | `time.Parse("02.01.2006", …)` on dates, and `time.Time{}` as `ZeroTime` |
| `Ad` | ad.dfy | the records `Seller`, `AdItem`, `AdListItem`, `AdListResponse` |
| `Fields` | fields.dfy | the field parsers |
| `Parser` | parser.dfy | `parseListHTML` and `parseAdHTML` |
| `SearchParams` | searchparam.dfy | `SearchParam`, its constants, the `fmt…` functions, `toURL` |
| `FieldCases`, `SearchCases` | examples_fields.dfy, examples_search.dfy | the table-driven cases of `parser_test.go` and `searchparam_test.go`, proved of the model |

Parsing HTML is not modelled. A page is given to the parsers as the texts
the CSS selectors pick out of it:

- a search-result page is a `Parser.ListFragment` per `.aditem` element;
- an ad page is a `Parser.AdPage`.

A failure to read the document is a `Failure` passed through unchanged.

The two page parsers build their result step by step, so they are methods:

- `ParseListHTML` appends one item per fragment in a loop.
- `ParseAdHTML` fills the details map and the extras list in loops.

Each method is proved equal to a function that states the result: `ListItem`
applied to every fragment in order, and `AdOf` for the whole ad. That function's contract, and the
lemmas beside it, state what the result means.

`fmtSpecificParameter` ranges over a Go map, whose iteration order Go leaves
unspecified. The method therefore picks each next key freely and reports the
order it chose as a ghost out-parameter. Its contract states that:

- the order lists every key exactly once;
- the text is the entries `+name:value` written in that order.

## Model

| member | source | states |
|---|---|---|
| `Fields.ParsePrice` | parser.go:54-78 | Negotiable exactly when the first space-separated word, with its dots dropped, is "VB". A negotiable price has amount 0 and no error. A conversion error occurs only for two or three words, and gives amount 0, not negotiable. A text that is not "VB" and does not have two or three words gives (0, not negotiable, no error). A non-zero amount needs two or three words and is never negotiable. The amount is within the 32-bit range. |
| `Fields.ParsePriceOfAmount` | parser.go:56-72 | "AMOUNT CURRENCY", where the dot-free amount is a positive number written without sign or leading zero, gives that number, not negotiable, with no error. |
| `Fields.ParsePriceOfNumber` | parser.go:56-72 | Any amount whose dot-free form converts, followed by one or two words, gives the converted value, not negotiable, with no error. This includes zero, signs and leading zeros. |
| `Fields.ParsePriceOfAmountAndMarker` | parser.go:56-72 | "AMOUNT CURRENCY MARKER" gives the same: a third word, "VB" included, does not make the price negotiable. |
| `Fields.ParsePriceOfMarker` | parser.go:58-63 | A first word that reads "VB" once its dots are dropped gives (0, negotiable, no error), whatever follows. |
| `Fields.ParsePriceOfBadAmount` | parser.go:65-70 | An amount that is not a 32-bit integer, followed by one or two words, gives amount 0, not negotiable, and the conversion error. |
| `FieldCases.PriceOnlyNegotiable` | parser_test.go:31-36 | "VB" is (0, negotiable). |
| `FieldCases.PriceOnlyAmount` | parser_test.go:37-42 | "4.500 €" is (4500, not negotiable). |
| `FieldCases.PriceWithMarkerIsNotNegotiable` | parser_test.go:43-48 | "4.500 € VB" is (4500, not negotiable), although the test expects negotiable. |
| `Fields.ParseLocation` | parser.go:80-98 | Without a space in the trimmed text, both parts are empty. Otherwise the trimmed text starts with zip, a space and place. The zip has no space and the place has no newline. The place ends at the text's end or at its first newline. |
| `Fields.ParseLocationOf` | parser.go:80-98 | A zip, a place and an optional "\n…" distance line, with any trailing white space, give back exactly (zip, place). |
| `Fields.ParseLocationOfTrimmed` | parser.go:82-94 | The same for an already trimmed text. |
| `Fields.ParseLocationIgnoresPadding` | parser.go:81 | Trailing white space does not change the result. |
| `Parser.LocationTrimmedTwice` | parser.go:42 | Trimming the location text before parseLocation changes nothing, since parseLocation trims it again. |
| `FieldCases.LocationWithTab` | parser_test.go:71-76 | "10119 Mitte\t" gives ("10119", "Mitte"). |
| `FieldCases.LocationOfSeveralWords` | parser_test.go:77-82 | "16540 Hohen Neuendorf" gives ("16540", "Hohen Neuendorf"). |
| `FieldCases.LocationWithDistance` | parser_test.go:83-88 | "16540 Hohen Neuendorf\n(13km)" gives ("16540", "Hohen Neuendorf"). |
| `Fields.ParseExtraInfo` | parser.go:166-180 | Without a space once newlines are removed, the result is (zero time, ""). The id never holds a newline. The date is the zero time or a real date. |
| `Fields.ParseExtraInfoOfText` | parser.go:166-177 | A date token, a space and any newline-free rest give the parsed date (or the zero time) and the rest trimmed, less one leading "Anzeigennr.: " when present. |
| `Fields.ParseExtraInfoOfUnlabelled` | parser.go:170-172 | A rest without the label, with trailing white space, gives the rest trimmed: the prefix removal changes nothing. |
| `Fields.ParseExtraInfoOf` | parser.go:166-177 | "DATE\n Anzeigennr.: ID" gives the id back, and the parsed date or the zero time when the date does not parse. |
| `FieldCases.ExtraInfoCase` | parser_test.go:111-116 | "22.03.2021\n Anzeigennr.: 1708911891" gives (22 March 2021, "1708911891"). |
| `Fields.ParseDetail` | parser.go:182-185 | The key holds no newline. Key and value are trimmed. Requires a newline, without which the source panics. |
| `Fields.ParseDetailOfText` | parser.go:182-185 | For any text with a newline, the key is the part before the first newline, trimmed, and the value is the rest, trimmed. |
| `Fields.ParseDetailOfPadded` | parser.go:182-185 | White space around the key, the newline and the value is dropped, giving back the bare key and value. |
| `Fields.ParseDetailOf` | parser.go:182-185 | "KEY\nVALUE" with trimmed key and value gives (KEY, VALUE). |
| `FieldCases.DetailMileage` | parser_test.go:139-144 | "Kilometerstand\n38.600 km" splits into label and value. |
| `FieldCases.DetailDoors` | parser_test.go:145-150 | "Anzahl Türen\n2/3" splits into label and value. |
| `FieldCases.DetailCondition` | parser_test.go:151-156 | "Fahrzeugzustand\nUnbeschädigtes Fahrzeug" splits into label and value. |
| `Fields.ParseRating` | parser.go:187-189 | A text starting with "Zufriedenheit: " is that label followed by the result. Any other text is returned unchanged. |
| `Fields.ParseRatingOf` | parser.go:187-189 | "Zufriedenheit: " and a rating gives the rating. |
| `FieldCases.RatingCases` | parser_test.go:178-187 | "" gives "" and "Zufriedenheit: TOP" gives "TOP". |
| `Fields.ParseActiveSince` | parser.go:191-202 | The empty text is the zero time without error. Any other successful result is a real date. Requires the slice at the label, or at index 10 when the label is missing, to be in range, since the source panics otherwise. |
| `Fields.ParseActiveSinceOfText` | parser.go:196-201 | "Aktiv seit " and any newline-free text, then nothing or a new line, gives exactly what the date layout makes of that text: the date, or the layout's error. |
| `Fields.ParseActiveSinceWithoutLabel` | parser.go:196-201 | Without the label, Index gives -1 and the text from index 10 up to its first newline is what is parsed. |
| `Fields.DateOrZero` | parser.go:174 | A parsed date is kept, and an error gives the zero time, as parseExtraInfo does with the date and parseAdHTML with the active-since date. |
| `Fields.ParseActiveSinceOf` | parser.go:196-201 | "Aktiv seit " and a formatted date, then nothing or a new line, gives that date. |
| `FieldCases.ActiveSinceCases` | parser_test.go:205-209 | "Aktiv seit 06.10.2012" gives 6 October 2012. |
| `Parser.ListItem` | parser.go:27-47 | Id and link are set only when the element has a data-adid, and the link is base URL + "/s-anzeige/" + id. The title is copied. A price that fails to convert gives 0, not negotiable. A negotiable price has amount 0. The zip has no space and the location has no newline. |
| `Parser.BuildListItem` | parser.go:27-47 | Filling the fields one after another builds `ListItem` of the element. |
| `Parser.ParseListHTML` | parser.go:12-52 | A document error is passed through. Otherwise the loop builds the items of all listing elements, in document order. |
| `Parser.ListItemAt` | parser.go:26-48 | The response has one item per listing element, and item k is `ListItem` of element k. |
| `Parser.ListItemOf` | parser.go:26-49 | An element with id, title, "AMOUNT €" and "ZIP PLACE" gives exactly those fields, the amount as a number, not negotiable, and the link. |
| `Parser.PriceTextOf` | parser.go:36-37 | "AMOUNT €" reads as the amount, not negotiable. |
| `Parser.LocationTextOf` | parser.go:42-43 | "ZIP PLACE" reads as (ZIP, PLACE). |
| `Parser.AdOf` | parser.go:100-164 | The link is base URL + "/s-anzeige/" + id. The extras are the checktag texts in order. The id has no newline. The listing date and the seller's active-since date are the zero time or real dates. A price that fails to convert gives 0, not negotiable. The zip has no space and the location has no newline. Title, description, seller name and friendliness are trimmed. No details key holds a newline. |
| `Parser.AdOfActiveSince` | parser.go:153-159 | When parseActiveSince fails, the seller's active-since date stays the zero time. When it succeeds, it is the parsed date. |
| `Parser.ParseAdHTML` | parser.go:100-164 | A document error is passed through. Otherwise the result is `AdOf` of the page. Requires every detail text to hold a newline and the active-since text to be sliceable, which are the two panics of the source. |
| `Parser.Detail` | parser.go:138 | The detail of one element is parseDetail of its trimmed text. The key holds no newline, and key and value are trimmed. |
| `Parser.DetailEntriesAt` | parser.go:137-138 | Entry k of the details list is the detail of element k. |
| `Parser.StoreDetails` | parser.go:134-140 | The loop stores every detail into the map, and the result is `DetailsOf` of the texts. |
| `Parser.Stored` | parser.go:137-140 | The keys of the map are exactly the keys of the entries. |
| `Parser.StoredLastWriterWins` | parser.go:137-140 | A key is in the details map exactly when some detail has it. Its value is that of the last such detail. |
| `Parser.MapSeqAt` | parser.go:137-138 | Element k of a mapped list is the function applied to element k. For the details, entry k is parseDetail of the trimmed detail text k. |
| `Parser.DetailsOf` | parser.go:134-140 | No key of the details map holds a newline. |
| `Parser.CollectExtras` | parser.go:142-147 | The extras are the checktag texts, in order and untrimmed. |
| `Parser.LinkWithoutId` | parser.go:128-132 | Without a space in the extra-info text, the id is empty and the link is base URL + "/s-anzeige/". |
| `SearchParams.FmtCategory` | searchparam.go:73-79 | Empty exactly when the category is. Otherwise "/c" followed by the category, which stripping "/c" gives back. |
| `SearchParams.FmtProvider` | searchparam.go:105-113 | Empty exactly when the provider is. Otherwise "/anbieter:" followed by the provider, which stripping gives back. |
| `SearchParams.FmtOfferType` | searchparam.go:115-123 | Empty exactly when the offer type is. Otherwise "/anzeige:" followed by the offer type, which stripping gives back. |
| `SearchParams.FmtLocationID` | searchparam.go:125-131 | Empty exactly when the location is. Otherwise "l" followed by the location, which stripping gives back. |
| `SearchParams.FmtRadius` | searchparam.go:133-139 | Empty exactly when the radius is. Otherwise "r" followed by the radius, which stripping gives back. |
| `SearchParams.Bound` | searchparam.go:82-91 | A bound is written only when positive, as decimal digits without a leading zero whose value is the bound. |
| `SearchParams.FmtPrice` | searchparam.go:81-95 | Empty exactly when neither bound is positive. Otherwise "/preis:FROM:TO", with each non-positive bound left empty. |
| `SearchParams.PriceBoundsOfFmtPrice` | searchparam.go:81-95 | The price segment reads back as both bounds, each non-positive bound as 0. |
| `SearchParams.FmtPage` | searchparam.go:97-103 | Empty exactly when the page is not positive. Otherwise "/seite:" followed by digits, without a leading zero, whose value is the page. |
| `SearchParams.FmtSpecificParameter` | searchparam.go:141-151 | The chosen order lists each map key exactly once. The text is "+name:value" for each key in that order. A nil or empty map gives "". |
| `SearchParams.Entries` | searchparam.go:144-148 | No names give the empty text. Any name gives a text starting with "+". |
| `SearchParams.SingleParameter` | searchparam.go:144-148 | A map with one parameter is written "+name:value", whatever the order. |
| `SearchParams.Segments` | searchparam.go:154-163 | The offer type's segment comes first and the specific parameters come last. |
| `SearchParams.URL` | searchparam.go:165-167 | The URL is the base URL, a slash, and parameters that neither start nor end with a slash. |
| `SearchParams.ToURL` | searchparam.go:153-168 | The URL is the base URL, a slash and the segments written in toURL's order (offer type, price, provider, page, category, location, radius, specific parameters), trimmed of slashes. |
| `SearchParams.URLOfNoParams` | searchparam.go:153-168 | An empty search gives the base URL and "/". |
| `SearchParams.URLOfPage` | searchparam.go:97-103 | Page n alone gives the base URL, "/seite:" and n. |
| `SearchParams.URLOfCategory` | searchparam.go:73-79 | A category alone gives the base URL, "/c" and the category. |
| `SearchParams.URLOfPriceRange` | searchparam.go:81-95 | A positive price range alone gives the base URL and "/preis:FROM:TO". |
| `SearchParams.URLOfOfferAndFilters` | searchparam.go:153-168 | Offer type, category, location, radius and specific parameters give the base URL, "/anzeige:" and the rest of the segments run together, with only the leading slash trimmed. |
| `SearchCases.PriceCases` | searchparam_test.go:43-62 | The four price cases: "", "/preis:1000:", "/preis::1000", "/preis:1000:6000". |
| `SearchCases.PageCases` | searchparam_test.go:82-96 | Page 0 and page -1 give "", and page 1 gives "/seite:1". |
| `SearchCases.RadiusCases` | searchparam_test.go:206-243 | WholePlace gives "", FiftyKM gives "r50" and OneHundredFiftyKM gives "r150". |
| `SearchCases.ManufacturerCase` | searchparam_test.go:257-265 | {CarManufacturer: "bmw"} gives "+autos.marke_s:bmw". |
| `SearchCases.URLOfPage23` | searchparam_test.go:296-301 | Page 23 gives the base URL and "/seite:23". |
| `SearchCases.URLOfCars` | searchparam_test.go:289-294 | The car category gives the base URL and "/c216". The test expects "/seite:1/c216" instead. |
| `SearchCases.URLOfPrice1000To5000` | searchparam_test.go:302-309 | 1000 to 5000 gives the base URL and "/preis:1000:5000". The test expects "/seite:1" after it. |
| `SearchCases.URLOfBasicSearch` | searchparam_test.go:310-322 | The combined search gives the base URL and "/anzeige:angebote/c216l3331r10+autos.marke_s:bmw". The test expects "/seite:1" after the offer type. |
| `GoStrings.Split` | parser.go:56 | There is at least one part. No part holds the separator. The parts joined by the separator give back the text. |
| `GoStrings.SplitJoin` | parser.go:56 | Splitting the join of separator-free parts gives the parts back. |
| `GoStrings.SplitAtFirst` | parser.go:56 | Splitting a separator-free part, the separator and a rest gives the part followed by the split of the rest. |
| `GoStrings.SplitN2` | parser.go:82 | One part exactly when the separator is absent. Otherwise the separator-free text before the first separator and the rest after it. |
| `GoStrings.Index` | parser.go:88 | -1 exactly when the substring does not occur. Otherwise its first occurrence. |
| `GoStrings.RemoveAll` | parser.go:59 | The character no longer occurs, and a text without it is unchanged. A single character is removed exactly when it is the one given. |
| `GoStrings.RemoveAllConcat` | parser.go:59 | Removing from a concatenation removes from each part. With the single-character case this determines the whole result. |
| `GoStrings.TrimSpace` | parser.go:81 | The result neither starts nor ends with white space. The lemmas TrimFuncIsSlice and TrimFuncCutsEdges state that it is the slice with only white space cut off. |
| `GoStrings.TrimFuncIsSlice` | parser.go:81 | The trimmed text is the slice of the input that starts where the left trim stopped. |
| `GoStrings.TrimFuncCutsEdges` | parser.go:81 | Everything cut off before and after that slice is white space (slashes for Trim). |
| `GoStrings.TrimSpaceIdempotent` | parser.go:42 | Trimming twice is trimming once. |
| `GoStrings.TrimPrefix` | parser.go:172 | When the text starts with the prefix, the prefix followed by the result is the text. Otherwise the text is unchanged. |
| `GoStrings.TrimSlashes` | searchparam.go:165 | The result neither starts nor ends with a slash. |
| `Strconv.ParseInt32` | parser.go:66 | A syntax error exactly when the text is not an optionally signed, non-empty run of digits. A range error exactly when it is such a text and its value lies outside the 32-bit range. A success is the value of the digits, negated after a minus sign, and lies within the 32-bit range. |
| `Strconv.Itoa` | searchparam.go:84 | Non-empty decimal digits, without a leading zero, whose value is the number. |
| `Strconv.ParseInt32OfItoa` | parser.go:66 | Parsing the written form of a positive 32-bit number gives the number. |
| `Strconv.ParseInt32OfNegative` | parser.go:66 | A minus sign followed by the written form of a positive number down to the 32-bit minimum parses as the negative number. |
| `GoTime.Parse` | parser.go:174 | Success exactly when the text is DD.MM.YYYY in digits with a month from 1 to 12 and a day that exists in that month and year. Every successful result is a valid date whose year has at most four digits. |
| `GoTime.ParseOfFormat` | parser.go:174 | Parsing a date written as DD.MM.YYYY gives the date back. |
| `GoTime.FormatOfParse` | parser.go:201 | A successfully parsed text is the formatted form of its date. |

## Left out

- Fetching pages over HTTP (`Fetch` in ad.go and adlist.go) is not modelled; the parsers receive the page contents as values.
- HTML parsing and CSS selection (goquery) are not modelled. `ListFragment` and `AdPage` hold the text each selector yields: the first match's text for single elements, every match's text for `.addetailslist--detail` and `.checktag`, and `None` for a missing `data-adid`.
- The command-line programs under cmd/ are not modelled.
- `BaseURL`, which parser.go uses, is not defined in the files modelled here. It is the `baseURL` parameter of the page parsers. The search builder's own `baseURL` constant is `SearchParams.BaseURL`.
- Strings are sequences of characters, not of UTF-8 bytes. The only index the core takes into a string is index 10 in parseActiveSince, which counts the same in both when the text before it is ASCII.
- GoStrings.TrimSpace: treats only the ASCII white space characters as white space, not the other Unicode spaces Go's `strings.TrimSpace` also removes.
- `time.Time` is reduced to year, month and day. `GoTime.Parse` returns one of three error kinds instead of Go's error messages.
- Strconv.ParseInt32: a text whose digits overflow 32 bits before a later non-digit is reported as a syntax error, where Go reports a range error. parsePrice returns 0 and not negotiable for both, so no caller can tell the difference.
- `SearchParam.Page`, `PriceFrom` and `PriceTo` are unbounded integers; Go's 64-bit `int` overflow is not modelled, since `strconv.Itoa` never overflows and the code looks only at the sign.
- The records are values. The source builds them by reference (`*AdItem`, `*Seller`) and fills them in place, but no reference outlives the call, so nothing shares them.
- Go's nil map is the empty map. `make(map, n)` and the capacity hints of `make([]…, 0, n)` are not modelled.
- The order in which Go walks a map is chosen freely. Only its being some enumeration of the keys is modelled.
- Parser.ParseAdHTML: requires every detail text to hold a newline and the active-since text to be long enough to slice. The source panics otherwise, and a panic is not modelled.
- Fields.ParseDetail: requires a newline in the text, since the source panics when there is none.
- Fields.ParseActiveSince: requires the text to be long enough to slice at the label (or at index 10 when the label is missing), since the source panics otherwise.
- Pagination (a last-page check on the result list) does not exist in the modelled code and is not modelled.
- The test helpers (`timeCanPanic`, the test runner) are not modelled; the expectations of the table-driven tests are stated as lemmas.

## The code and its tests

The model follows the code where the tests expect something else. Three such places exist.

- **parsePrice** (parser.go:65-72). It returns "not negotiable" whenever an amount is present. parser_test.go:43-48 expects "4.500 € VB" to be negotiable. `FieldCases.PriceWithMarkerIsNotNegotiable` proves what the code returns.
- **fmtPage** (searchparam.go:97-103). It writes nothing for page 0. searchparam_test.go:283-322 expects every URL built without a page to contain "/seite:1". `SearchCases.URLOfCars`, `SearchCases.URLOfPrice1000To5000`, `SearchCases.URLOfBasicSearch` and `SearchParams.URLOfNoParams` prove the URLs the code builds. The fmtPage test itself (searchparam_test.go:82-96) agrees with the code.
- **Details** (parser.go:134-140). The details are a map, so a label that occurs twice keeps only its last value. `Parser.StoredLastWriterWins` states this.
