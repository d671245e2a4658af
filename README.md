# Polling stations: the data finder's helpers, modelled in Dafny

This project models the core of the UK polling-station finder's data finder,
`polling_stations/apps/data_finder/helpers.py`, and one council importer's
record mappers. The model covers:

- the two postcode normalisations and `get_territory`;
- the MapIt and AddressBase geocoders and their exceptions;
- the `geocode` and `geocode_point_only` fallback chains;
- the `AddressSorter` natural sort;
- the `EveryElectionWrapper`;
- the Google directions reader, with the Open Route Service route reader and its time pattern;
- the `RoutingHelper`, which picks the view a postcode is sent to;
- the Wolverhampton importer's `station_record_to_dict` and `district_record_to_dict`.

Everything the code asks of the outside world is an input to the model:

- database tables are sequences of rows;
- HTTP answers are parsed values;
- the `COUNCIL_TYPES` setting, the centroid of a set of points and the translation of "minute" and "miles" are given values.

There is one file per part of the program:

| file | models |
|---|---|
| `wrappers.dfy` | `Option` |
| `text.dfy` | the string functions of Python the core relies on (`upper`, the `[^A-Z0-9]` filter, `strip`, `split`, `replace`, `str(int)`) |
| `postcodes.dfy` | `format_postcode`, the `RoutingHelper` normalisation, `get_territory` |
| `geocoding.dfy` | the exception classes, `call_mapit`, both geocoders, `get_codes`, `run` |
| `geocode_chain.dfy` | `geocode` and `geocode_point_only` |
| `address_sorter.dfy` | `AddressSorter` and Python's stable `sorted` |
| `elections.dfy` | `EveryElectionWrapper` (a class) |
| `directions.dfy` | `DirectionsHelper` |
| `routing.dfy` | `RoutingHelper` (a class) |
| `wolverhampton.dfy` | the two Wolverhampton record mappers |

Two behaviours of the code that may surprise a reader:

- **Natural sort of a flat.** `Flat 1, 9 High Street` is not sorted between `2 High Street` and `12 High Street`. `swap_fields` keys `2 High Street` as `[" High Street", 2]`, and the space sorts before the `F` of `Flat`. So the code gives `2 High Street`, `12 High Street`, `Flat 1, 9 High Street`, and `AddressSorter.NaturalSortExample` proves this.
- **Multiple councils.** The `multiple_councils` route is taken when the blacklist has more than one row for the postcode, even when the rows name the same council. The code counts the list of rows, not distinct councils (`Routing.MultipleCouncilsIffTwoRows`, `Routing.DuplicateBlacklistRowsCount`).

## Model

| member | source | states |
|---|---|---|
| Text.Upper | polling_stations/apps/data_finder/helpers.py:124 | `postcode.upper()` keeps the length and maps every character through the ASCII upper-casing |
| Text.KeepUpperAlnum | polling_stations/apps/data_finder/helpers.py:124 | `re.sub('[^A-Z0-9]', '', ...)` leaves only `[A-Z0-9]` characters and never lengthens the text; a character is in the result exactly when it is in the input and in `[A-Z0-9]`, so every other character is removed |
| Text.KeepAppend | polling_stations/apps/data_finder/helpers.py:124 | the filter works character by character: filtering a concatenation concatenates the filtered parts |
| Text.KeepUpperAlnumFixed | polling_stations/apps/data_finder/helpers.py:124 | the filter leaves text already in `[A-Z0-9]*` unchanged |
| Text.UpperOfUpper | polling_stations/apps/data_finder/helpers.py:124 | upper-casing text without lower-case letters changes nothing |
| Text.Strip | polling_stations/apps/data_collection/management/commands/import_wolverhampton.py:34 | `code.strip()` neither starts nor ends with whitespace |
| Text.StripIsTrimmedInfix | polling_stations/apps/data_collection/management/commands/import_wolverhampton.py:34 | the stripped text is a slice of the input; everything cut before and after it is whitespace, and its ends are not |
| Text.StripKeepsOut | polling_stations/apps/data_collection/management/commands/import_wolverhampton.py:34 | stripping adds no character: a comma absent before is absent after |
| Text.StripUnpadded | polling_stations/apps/data_collection/management/commands/import_wolverhampton.py:34 | text that neither starts nor ends with whitespace is its own strip |
| Text.SpacesFrom | polling_stations/apps/data_collection/management/commands/import_wolverhampton.py:34 | the leading whitespace run `strip` removes: all whitespace and maximal |
| Text.SpacesBefore | polling_stations/apps/data_collection/management/commands/import_wolverhampton.py:34 | the trailing whitespace run `strip` removes: all whitespace and maximal |
| Text.Split | polling_stations/apps/data_collection/management/commands/import_wolverhampton.py:33 | `split(',')` gives at least one piece, no piece holds a comma, and text without a comma is one piece |
| Text.JoinSplit | polling_stations/apps/data_collection/management/commands/import_wolverhampton.py:33 | joining the pieces with the separator gives the original text back |
| Text.SplitJoin | polling_stations/apps/data_collection/management/commands/import_wolverhampton.py:33 | splitting a join of comma-free pieces gives the pieces back |
| Text.SplitPrefix | polling_stations/apps/data_collection/management/commands/import_wolverhampton.py:33 | a comma-free prefix followed by a comma is the first piece of the split |
| Text.ReplaceAll | polling_stations/apps/data_finder/helpers.py:427-433 | `str.replace` by the pattern itself changes nothing; a replacement as long as the pattern keeps the length; text shorter than the pattern is unchanged |
| Text.ReplaceFirst | polling_stations/apps/data_finder/helpers.py:427-433 | the first occurrence of the pattern is replaced, the text before it kept, and the scan resumes after it |
| Text.ReplaceAbsent | polling_stations/apps/data_finder/helpers.py:427-433 | `str.replace` changes nothing when the pattern does not occur |
| Text.DecimalString | polling_stations/apps/data_finder/helpers.py:289-290 | `str(n)` is a non-empty string of digits with no leading zero |
| Text.DecimalRoundTrip | polling_stations/apps/data_finder/helpers.py:274 | `int(str(n)) == n` |
| Text.SingletonMembers | polling_stations/apps/data_finder/helpers.py:154-156 | a one-element set has one member, so `list(council_ids)[0]` is determined |
| Postcodes.Normalize | polling_stations/apps/data_finder/helpers.py:461 | the `RoutingHelper` postcode is in `[A-Z0-9]*` and no longer than the input |
| Postcodes.InsertSpace | polling_stations/apps/data_finder/helpers.py:125 | `n[:-3] + ' ' + n[-3:]`: one longer, a space before the last three characters (before all of a shorter text), the rest unchanged in place |
| Postcodes.FormatPostcode | polling_stations/apps/data_finder/helpers.py:121-126 | `format_postcode` is the normalised postcode plus one space placed before its last three characters; every other character is in `[A-Z0-9]` |
| Postcodes.FormatPostcodeAroundSpace | polling_stations/apps/data_finder/helpers.py:121-126 | at most three characters follow the space, and removing it gives the normalised postcode |
| Postcodes.FormatPostcodeHasOneSpace | polling_stations/apps/data_finder/helpers.py:121-126 | the formatted postcode contains exactly one space |
| Postcodes.NormalizeDropsSpace | polling_stations/apps/data_finder/helpers.py:124 | normalising `[A-Z0-9]` text with a space inside removes just the space |
| Postcodes.NormalizeFormatted | polling_stations/apps/data_finder/helpers.py:121-126 | normalising a formatted postcode gives the normalised input, so both geocoders and the router agree on the postcode up to the space |
| Postcodes.NormalizeIdempotent | polling_stations/apps/data_finder/helpers.py:461 | normalising twice is normalising once |
| Postcodes.FormatPostcodeIdempotent | polling_stations/apps/data_finder/helpers.py:121-126 | formatting an already formatted postcode changes nothing |
| Postcodes.GetTerritory | polling_stations/apps/data_finder/helpers.py:258-261 | `NI` exactly when the postcode, as given, starts with `BT`; otherwise `GB` |
| Postcodes.TerritoryExamples | polling_stations/apps/data_finder/helpers.py:258-261 | `BT1 1AA` is NI; `CF10 5AJ`, a lower-case `bt1 1aa` and a one-letter text are GB |
| Geocoding.CallMapit | polling_stations/apps/data_finder/helpers.py:62-90 | only a 200 answer with a JSON body returns, and it returns that body |
| Geocoding.CallMapitCases | polling_stations/apps/data_finder/helpers.py:62-90 | only status 200 with a JSON body returns it; 403 raises `RateLimitError`; 404 raises "Not Found"; any other status raises `PostcodeError` with MapIt's code and error, or "unknown" without them; an `error` without a `code` raises a `KeyError`; `RateLimitError` comes from 403 only |
| Geocoding.MapitGeocode | polling_stations/apps/data_finder/helpers.py:92-116 | the loop over the areas collects the `gss` codes in order and keeps the code of the last council-type area; missing coordinates raise "No location information" |
| Geocoding.GssCodesAppend | polling_stations/apps/data_finder/helpers.py:97-100 | the codes of consecutive areas are concatenated in area order |
| Geocoding.GssCodesMembers | polling_stations/apps/data_finder/helpers.py:97-100 | a code is listed exactly when some area carries it |
| Geocoding.CouncilGssIsLast | polling_stations/apps/data_finder/helpers.py:96-102 | `council_gss` is None exactly when no council-type area has a code, and is otherwise the code of the last such area |
| Geocoding.CouncilGssListed | polling_stations/apps/data_finder/helpers.py:96-102 | the council code, when set, is among `gss_codes` |
| Geocoding.MapitSuccess | polling_stations/apps/data_finder/helpers.py:92-113 | a MapIt result comes from a 200 answer and carries MapIt's coordinates and the codes of its areas, the council code among them |
| Geocoding.AddressesFor | polling_stations/apps/data_finder/helpers.py:167 | the AddressBase rows kept are exactly those with the postcode |
| Geocoding.Uprns | polling_stations/apps/data_finder/helpers.py:128-129 | `get_uprns` lists the UPRN of each address, in order |
| Geocoding.OnsadFor | polling_stations/apps/data_finder/helpers.py:132 | the ONSAD rows kept are exactly those whose UPRN is listed |
| Geocoding.GetCodes | polling_stations/apps/data_finder/helpers.py:131-164 | `get_codes`, with its loop over the rows, returns or raises what `CodesOutcome` gives for the matching ONSAD rows |
| Geocoding.AddRecordCodes | polling_stations/apps/data_finder/helpers.py:150-152 | the inner loop adds exactly the five codes of the record |
| Geocoding.AllCodesMembers | polling_stations/apps/data_finder/helpers.py:148-152 | a code is collected exactly when some row has it in one of its five fields |
| Geocoding.OneLad | polling_stations/apps/data_finder/helpers.py:145-156 | there is one local authority exactly when there are rows and all agree on `lad` |
| Geocoding.CodesOutcomeMeaning | polling_stations/apps/data_finder/helpers.py:131-164 | no rows raise `CodesNotFoundException`; two different `lad`s raise `MultipleCouncilsException` with the postcode in its message; otherwise every row's `lad` is the council, which is among the codes, and the codes are exactly the rows' five fields |
| Geocoding.AddressBaseGeocode | polling_stations/apps/data_finder/helpers.py:166-179 | no rows raise `ObjectDoesNotExist`; otherwise the result carries the centre of the rows and the codes `get_codes` gives, or its exception |
| Geocoding.AddressBaseGeocodePointOnly | polling_stations/apps/data_finder/helpers.py:181-191 | no rows raise `ObjectDoesNotExist`; otherwise the result is the centre of the rows |
| Geocoding.AddressBaseRaises | polling_stations/apps/data_finder/helpers.py:166-191 | point-only raises only `ObjectDoesNotExist`; the full geocode raises only that, `CodesNotFoundException` or `MultipleCouncilsException` |
| Geocoding.Run | polling_stations/apps/data_finder/helpers.py:53-57 | `run(point_only)` dispatches to `geocode_point_only` or `geocode` |
| GeocodeChain.OutcomesOf | polling_stations/apps/data_finder/helpers.py:195-196 | one outcome per geocoder |
| GeocodeChain.FirstDecisive | polling_stations/apps/data_finder/helpers.py:196-224 | the loop ends at the first attempt that is not skipped; every earlier one was skipped |
| GeocodeChain.Geocode | polling_stations/apps/data_finder/helpers.py:227-255 | `geocode` returns or raises the outcome of the first geocoder not skipped, or the generic `PostcodeError`; it runs exactly `Attempts` geocoders |
| GeocodeChain.TryInTurn | polling_stations/apps/data_finder/helpers.py:229-255 | the `except` clauses of `geocode`: continue on `ObjectDoesNotExist`, `CodesNotFoundException` and anything unlisted; re-raise `MultipleCouncilsException` and `PostcodeError` |
| GeocodeChain.GeocodePointOnly | polling_stations/apps/data_finder/helpers.py:194-224 | `geocode_point_only` gives the same fallback in point-only mode and sleeps once per skipped geocoder when `sleep` is set |
| GeocodeChain.TryPointsInTurn | polling_stations/apps/data_finder/helpers.py:196-224 | the `except` clauses of `geocode_point_only`: re-raise only `PostcodeError`, and sleep before moving on from any other exception |
| GeocodeChain.FirstDecisiveAt | polling_stations/apps/data_finder/helpers.py:196-224 | any index whose predecessors were all skipped, and which is itself not skipped or the end, is where the loop stops |
| GeocodeChain.DecidedAt | polling_stations/apps/data_finder/helpers.py:196-224 | stopping at attempt `i` returns that attempt's outcome after `i + 1` attempts |
| GeocodeChain.FallbackReturnsFirstSuccess | polling_stations/apps/data_finder/helpers.py:196-224 | the chain returns a result exactly when a geocoder produced it and every earlier one was skipped |
| GeocodeChain.FallbackExhausted | polling_stations/apps/data_finder/helpers.py:223-224 | when every geocoder is skipped, all were run and "Could not geocode from any source" is raised |
| GeocodeChain.FallbackRaisesOnly | polling_stations/apps/data_finder/helpers.py:196-255 | only `PostcodeError`, and in `geocode` also `MultipleCouncilsException`, can leave the chain |
| GeocodeChain.SkippedKinds | polling_stations/apps/data_finder/helpers.py:196-255 | `RateLimitError` is no `PostcodeError` and falls to the bare `except:` in both loops; point-only skips everything but `PostcodeError` |
| GeocodeChain.NoAddressBaseRowsConsultsMapit | polling_stations/apps/data_finder/helpers.py:194-255 | without AddressBase rows both geocoders run and MapIt's outcome decides, unless it is skipped |
| GeocodeChain.MultipleCouncilsStopsGeocode | polling_stations/apps/data_finder/helpers.py:227-255 | rows in two local authorities make `geocode` raise `MultipleCouncilsException` without asking MapIt |
| GeocodeChain.RateLimitIsSwallowed | polling_stations/apps/data_finder/helpers.py:194-255 | a MapIt 403 after AddressBase found nothing ends in the generic `PostcodeError` |
| GeocodeChain.PointOnlyUsesAddressBase | polling_stations/apps/data_finder/helpers.py:181-198 | in point-only mode AddressBase rows are enough: their centre is returned and MapIt is not asked |
| AddressSorter.Runs | polling_stations/apps/data_finder/helpers.py:279 | `filter(None, re.split('([0-9]+)', s))`: non-empty runs, each all digits or all non-digits, alternating, whose concatenation is the text |
| AddressSorter.RunsOfNumberAndText | polling_stations/apps/data_finder/helpers.py:279 | a number followed by non-digit text splits into exactly those two runs |
| AddressSorter.Convert | polling_stations/apps/data_finder/helpers.py:271-274 | a digit run becomes an int, any other run stays the same text |
| AddressSorter.AlphanumKey | polling_stations/apps/data_finder/helpers.py:276-279 | one key element per run, numbers and texts alternating, every text non-empty and digit-free |
| AddressSorter.SwapFields | polling_stations/apps/data_finder/helpers.py:281-291 | `swap_fields` computes `SortKey`: it updates the key list in place, and its two-numbers swap is unreachable because runs alternate |
| AddressSorter.SortKeyStartsWithText | polling_stations/apps/data_finder/helpers.py:289-290 | every key of a non-empty address starts with a string |
| AddressSorter.SortKeyOfText | polling_stations/apps/data_finder/helpers.py:281-291 | an address not starting with a digit keeps its `alphanum_key`, which starts with the address's first character |
| AddressSorter.HouseNumberKey | polling_stations/apps/data_finder/helpers.py:285-286 | a house number followed by a digit-free street starting with whitespace or a comma is keyed as the street, then the number |
| AddressSorter.KeyOrder | polling_stations/apps/data_finder/helpers.py:294-297 | `KeyLess`, Python's list `<` on keys completed with int < str where Python raises `TypeError`, is a strict total order; on `Comparable` keys no int meets a str, so there it is Python's `<` |
| AddressSorter.LexTransitive | polling_stations/apps/data_finder/helpers.py:294-297 | lexicographic comparison is transitive |
| AddressSorter.LexTotal | polling_stations/apps/data_finder/helpers.py:294-297 | any two different lists compare one way or the other |
| AddressSorter.InsertPermutes | polling_stations/apps/data_finder/helpers.py:294-297 | one insertion step of the sort neither loses nor adds elements |
| AddressSorter.InsertSorted | polling_stations/apps/data_finder/helpers.py:294-297 | inserting into a sorted list keeps it sorted |
| AddressSorter.InsertStable | polling_stations/apps/data_finder/helpers.py:294-297 | insertion keeps earlier elements with an equal key ahead |
| AddressSorter.SortByCorrect | polling_stations/apps/data_finder/helpers.py:294-297 | `sorted(..., key=...)` returns a permutation of its input, ordered by key, with equal keys in input order (stable) |
| AddressSorter.NaturalSort | polling_stations/apps/data_finder/helpers.py:293-298 | `natural_sort` on addresses whose keys Python can compare: a permutation of the addresses, ordered by `swap_fields` key, stable |
| AddressSorter.SortDescendingThree | polling_stations/apps/data_finder/helpers.py:294-297 | three elements given in strictly decreasing key order come out reversed |
| AddressSorter.StreetAndFlatSortable | polling_stations/apps/data_finder/helpers.py:293-298 | numbered addresses on one street and a flat whose text starts with a capital can be sorted without `TypeError` |
| AddressSorter.HouseNumbersBeforeFlat | polling_stations/apps/data_finder/helpers.py:281-298 | house numbers on one street sort numerically and before a flat address, because the space after a moved number sorts before a capital letter |
| AddressSorter.NaturalSortExample | polling_stations/apps/data_finder/helpers.py:281-298 | `Flat 1, 9 High Street`, `12 High Street`, `2 High Street` sort as `2 High Street`, `12 High Street`, `Flat 1, 9 High Street` |
| Elections.GetData | polling_stations/apps/data_finder/helpers.py:310-322 | `get_data` returns `results` exactly when the request went through, `raise_for_status` did not raise, and the body parsed with a `results` key |
| Elections.EveryElectionWrapper.constructor | polling_stations/apps/data_finder/helpers.py:303-308 | `request_success` records whether `get_data` returned, and the elections are what it returned |
| Elections.EveryElectionWrapper.HasElection | polling_stations/apps/data_finder/helpers.py:324-333 | a failed request counts as an election; otherwise there is one exactly when the list is not empty |
| Elections.EveryElectionWrapper.GetExplanations | polling_stations/apps/data_finder/helpers.py:335-349 | the loop collects the title and explanation of every election with a non-empty explanation, in order; none after a failed request |
| Elections.ExplanationsAppend | polling_stations/apps/data_finder/helpers.py:343-348 | order is kept: explanations of a concatenation are the concatenated explanations |
| Elections.ExplanationsMembers | polling_stations/apps/data_finder/helpers.py:343-348 | an explanation is listed exactly when some election carries it |
| Elections.ExplanationsCount | polling_stations/apps/data_finder/helpers.py:343-348 | at most one explanation per election, and one for each exactly when every election has one |
| Elections.FailureCases | polling_stations/apps/data_finder/helpers.py:303-322 | a failed request, an error status, a body that is not JSON and a body without `results` all leave the wrapper failed |
| Directions.RoutePoints | polling_stations/apps/data_finder/helpers.py:417-435 | the route is every step's start followed by the last step's end; no steps give no route |
| Directions.GetGoogleRoute | polling_stations/apps/data_finder/helpers.py:402-435 | a status other than 200 raises with that code; a Google error is raised only for a bad status or a status other than `OK`; a result carries the first leg's duration with `mins` replaced, its distance with `mi` replaced, and its route |
| Directions.GetDirections | polling_stations/apps/data_finder/helpers.py:437-454 | Google's route when it succeeds, `None` exactly when Google's own error is raised, and any other exception passes through |
| Directions.GoogleErrorsGiveNoDirections | polling_stations/apps/data_finder/helpers.py:409-441 | a rejected request and a status other than `OK` both give no directions |
| Directions.DigitPrefix | polling_stations/apps/data_finder/helpers.py:363 | the `[0-9]+` of the pattern takes the whole maximal run of digits |
| Directions.MatchOfShape | polling_stations/apps/data_finder/helpers.py:363-396 | `PT<digits>M<digits>S` followed by anything matches, with the minutes as group 1 |
| Directions.MatchOrsTime | polling_stations/apps/data_finder/helpers.py:363-394 | a match's group 1 is the non-empty digit run right after `PT`, and an `M` follows it |
| Directions.ShapeOfParts | polling_stations/apps/data_finder/helpers.py:363-394 | a text cut after `PT` at a digit run and its `M`, then a digit run and its `S`, has the `PT…M…S` shape with that first run as minutes |
| Directions.ShapeDeterminesMatch | polling_stations/apps/data_finder/helpers.py:363-394 | any minutes the text's shape admits are what the pattern matches as group 1 |
| Directions.OrsWalkTime | polling_stations/apps/data_finder/helpers.py:392-398 | a walk time exactly when the text has the `PT…M…S` shape, and then the minutes and the word for minute |
| Directions.ShapeOfMatch | polling_stations/apps/data_finder/helpers.py:363-396 | a match means the text has that shape |
| Directions.OrsTimeMatches | polling_stations/apps/data_finder/helpers.py:363-396 | `re_time.match` succeeds with group 1 equal to the minutes exactly when the text starts with `PT`, minutes, `M`, seconds, `S` |
| Directions.OrsWalkTimeDropsSeconds | polling_stations/apps/data_finder/helpers.py:395-396 | the walk time is the minutes and the word for minute; the seconds are dropped |
| Directions.OrsWalkTimeNeedsPrefix | polling_stations/apps/data_finder/helpers.py:392-398 | a text not starting with `PT` gives no walk time |
| Directions.GetOrsRoute | polling_stations/apps/data_finder/helpers.py:366-400 | a status other than 200 raises `OrsDirectionsApiError` with the code; otherwise the distance with "miles", the route points, and a walk time exactly when the time text matches, which is `OrsWalkTime` of the time text |
| Routing.AddressesAt | polling_stations/apps/data_finder/helpers.py:467-469 | the addresses kept are exactly those with the postcode |
| Routing.BlacklistRowsFor | polling_stations/apps/data_finder/helpers.py:476 | the rows kept are exactly the blacklist rows with the postcode, and no more rows than the blacklist has |
| Routing.BlacklistedCouncils | polling_stations/apps/data_finder/helpers.py:476-477 | one entry per blacklist row with the postcode, in order, that row's `lad`; a council is listed exactly when such a row names it |
| Routing.SomeRow | polling_stations/apps/data_finder/helpers.py:476 | some row is kept exactly when some blacklist row has the postcode |
| Routing.TwoRowsSplit | polling_stations/apps/data_finder/helpers.py:476 | two rows with the postcode are either the first row and a later one, or two later ones |
| Routing.MoreThanOneRow | polling_stations/apps/data_finder/helpers.py:476-477 | more than one row is kept exactly when two blacklist rows have the postcode |
| Routing.RoutingHelper.constructor | polling_stations/apps/data_finder/helpers.py:460-464 | the helper holds the normalised postcode and the addresses and blacklisted councils for it |
| Routing.RoutingHelper.GetAddresses | polling_stations/apps/data_finder/helpers.py:466-470 | `get_addresses` sets and returns the addresses for the postcode and changes nothing else |
| Routing.RoutingHelper.GetCouncilsFromBlacklist | polling_stations/apps/data_finder/helpers.py:472-478 | `get_councils_from_blacklist` sets and returns the councils and changes nothing else |
| Routing.RoutingHelper.HasAddresses | polling_stations/apps/data_finder/helpers.py:480-484 | true exactly when some address was found |
| Routing.RoutingHelper.HasSingleAddress | polling_stations/apps/data_finder/helpers.py:486-490 | as written, `has_single_address` is always false |
| Routing.RoutingHelper.HasOneAddress | polling_stations/apps/data_finder/helpers.py:486-490 | as intended, true exactly when one address was found |
| Routing.RoutingHelper.GetRouteType | polling_stations/apps/data_finder/helpers.py:499-514 | more than one blacklist row gives `multiple_councils`; otherwise no addresses give `postcode`, addresses all at one station give `single_address`, and addresses at different stations give `multiple_addresses` |
| Routing.RoutingHelper.GetEndpoint | polling_stations/apps/data_finder/helpers.py:517-546 | each route type gets its view: `address_view` with the first address's slug, the others with the postcode |
| Routing.RoutingHelper.AddressHaveSingleStation | polling_stations/apps/data_finder/helpers.py:493-497 | true exactly when there are addresses and all have the first address's station |
| Routing.SingleStationIff | polling_stations/apps/data_finder/helpers.py:492-497 | one distinct station id exactly when every address has the first address's station |
| Routing.MultipleCouncilsIffTwoRows | polling_stations/apps/data_finder/helpers.py:472-514 | `multiple_councils` exactly when two blacklist rows have the postcode, whatever councils they name |
| Routing.DuplicateBlacklistRowsCount | polling_stations/apps/data_finder/helpers.py:472-502 | two blacklist rows naming the same council still give `multiple_councils` |
| Routing.EndpointPostcodeIsNormalized | polling_stations/apps/data_finder/helpers.py:460-546 | the postcode handed to a view is in `[A-Z0-9]*` |
| Routing.HasSingleAddressFinding | polling_stations/apps/data_finder/helpers.py:486-490 | with exactly one address, `has_single_address` is false while the intended test is true |
| Wolverhampton.StationCodes | polling_stations/apps/data_collection/management/commands/import_wolverhampton.py:33-34 | one code per comma-separated piece of `DIS_CODE`, stripped |
| Wolverhampton.StationRecordToDict | polling_stations/apps/data_collection/management/commands/import_wolverhampton.py:27-44 | one station per code, in order, each with the record's address and postcode and the same location |
| Wolverhampton.EmitStations | polling_stations/apps/data_collection/management/commands/import_wolverhampton.py:36-44 | the loop appends exactly one dictionary per code, in order |
| Wolverhampton.DistrictRecordToDict | polling_stations/apps/data_collection/management/commands/import_wolverhampton.py:13-25 | the district's id and station id are its `DIS_CODE`, its name is `WARD - DIS_CODE`, its area the geometry |
| Wolverhampton.StationCodesAreClean | polling_stations/apps/data_collection/management/commands/import_wolverhampton.py:33-34 | no code contains a comma or starts or ends with whitespace |
| Wolverhampton.SingleCode | polling_stations/apps/data_collection/management/commands/import_wolverhampton.py:33-34 | a `DIS_CODE` without a comma gives one station, whose id is the stripped code |
| Wolverhampton.ListedCodes | polling_stations/apps/data_collection/management/commands/import_wolverhampton.py:33-34 | a comma-joined list of clean codes gives exactly those codes back |
| Wolverhampton.DistrictsFindTheirStation | polling_stations/apps/data_collection/management/commands/import_wolverhampton.py:13-44 | every district listed in a station's `DIS_CODE`, padded with whitespace around the commas or not, finds that station: a district whose `DIS_CODE` is the k-th piece stripped has as `polling_station_id` the k-th emitted `internal_council_id` |

## Left out

- HTTP requests, the database queries and `centre_from_points_qs` are inputs: answers and tables are given values, and the centroid is a given function of the rows.
- Settings (`MAPIT_URL`, `MAPIT_UA`, `CUSTOM_UA`, `EE_BASE`, the Google and ORS URLs) only build request URLs and headers, so they are not modelled; `COUNCIL_TYPES` is an input.
- `RateLimitError` logs its message. Logging is not modelled, and the exception carries the message instead.
- `time.sleep(1.3)` is a ghost counter of the sleeps in `GeocodeChain.GeocodePointOnly`; no time passes.
- Coordinates are `real` values held as they are. No floating-point arithmetic, no `Point` geometry, and no map projection (`srid`) is modelled.
- The ORS XML is given as what its XPath queries select (distance, time text, positions). The XML parser, the namespaces and `float()` of the positions are not modelled. A missing element, where Python raises `IndexError`, is not modelled.
- `get_directions` returns `None` before reaching its Open Route Service fallback. That code never runs and is not modelled; `get_ors_route` is modelled on its own.
- A missing JSON key inside a Google route or an election (other than `results`, `explanation` and MapIt's `code`, `error`, `areas`, `wgs84_lon`, `wgs84_lat`) is not modelled: those keys are fields of the parsed value. This includes each MapIt area's `codes` and `type` (helpers.py:96-102): a missing one raises `KeyError`, which the bare `except` swallows, and the model has no way to represent the absent key. Empty Google `routes` or `legs` raise `IndexError`, modelled as `OtherError`; an empty `steps` list gives an empty route.
- Strings are ASCII: `upper()`, `isspace()` and `isdigit()` follow Python on ASCII only, and Unicode digits and case mappings are not modelled.
- `_()`, the translation, is given as the two words it returns.
- AddressSorter.NaturalSort: requires `Sortable`, the condition under which Python raises neither `IndexError` (an empty address) nor `TypeError` (an int met by a str in a key comparison); those exceptions are not modelled as results.
- `has_addresses`, `has_single_address` and `address_have_single_station` refetch the addresses when some are loaded. The refetch returns the same rows, so it is not modelled.
- `ResidentialAddress.objects.filter(...).values('polling_station_id').distinct()` is modelled as the set of station ids.
- `extract_geometry` and the location and area values are opaque type parameters in the Wolverhampton mappers. The rest of the importer (the base classes, the Morph API) is not part of this model.
- `ExamplePostcodeHelper` and the URL configuration are not part of the core and are not modelled.

## Findings

| source | as written | input that shows it | evidently intended | confidence | as-written member | corrected member |
|---|---|---|---|---|---|---|
| polling_stations/apps/data_finder/helpers.py:486-490 | `self.addresses.count == 1` compares the bound method `count` with 1, so `has_single_address` is always false | a postcode with exactly one `ResidentialAddress` row (`Routing.HasSingleAddressFinding`) | `self.addresses.count() == 1`: true exactly when one address is found | high, not executed | Routing.RoutingHelper.HasSingleAddress | Routing.RoutingHelper.HasOneAddress |
