# Doctor directory: a Dafny model

This project models the logic of a small doctor-directory web application.

- **Listing endpoint.** `GET /api/doctors` reads a query string. It narrows the whole doctor collection by search term, specializations and price bucket. A region filter then replaces that working set. The handler sorts the set by the requested key and returns one page with page counts.
- **Create endpoint.** `POST /api/doctors` checks the required fields of the request body in a fixed order, then the address, then the location. It then inserts a row built from `body.data`.
- **Scraper.** The scraper reads the JSON-LD blocks of ten listing pages. It keeps the blocks whose `@type` is "Physician" and projects each one onto a doctor record, filling in defaults.
- **Listing page.** The listing page keeps filter state, a current page and a set of expanded descriptions. It builds the query string from that state.
- **Add-doctor form.** The form checks its fields, builds a JSON payload, posts it and resets itself after a success.

Modules, one per source concern:

| file | module | source |
|---|---|---|
| `js.dfy` | `Js` | the JavaScript built-ins the code relies on: NaN-able numbers, JSON values and truthiness, `\|\|`, `??`, property access that throws on null/undefined, `?.`, ASCII `toLowerCase`, `includes`, `split`, `Number`, `parseInt`, `toString`, `slice` |
| `array_sort.dfy` | `ArraySort` | `Array.prototype.sort` with a comparator, as an in-place insertion sort on an `array` |
| `listing_query.dfy` | `ListingQuery` | `GET` in app/api/doctors/route.ts |
| `create_doctor.dfy` | `CreateDoctor` | `POST` in app/api/doctors/route.ts |
| `scraper.dfy` | `Scraper` | scrape.js |
| `doctor_listing.dfy` | `DoctorListing` | components/doctor-listing.tsx |
| `add_doctor_form.dfy` | `AddDoctorForm` | components/add-doctor-form.tsx |

Where the code changes things step by step, the model is imperative.

- `ListingQuery.FilterDoctors` rebinds the working set one filter at a time.
- `ArraySort.SortInPlace` sorts an `array` in place.
- `CreateDoctor.Post` loops over the required fields and returns at the first one missing.
- `Scraper.ScrapePage` and `Scraper.ScrapeAll` append records in loops.
- `DoctorListing.CountActiveFilters` increments a counter.
- `DoctorListing.BuildQuery` appends pairs to the query string.
- `AddDoctorForm.Form` is a class holding `data` and `isSubmitting`.

Each of these methods is proved equal to a specification function, and the lemmas state what that function means. The React state updaters of the listing page are pure functions of the previous state, so they are modelled as functions.

## Model

| member | source | states |
|---|---|---|
| Js.OrCoalesceDiffer | app/api/doctors/route.ts:158-163 | `v \|\| d` and `v ?? d` differ only on a defined, non-null falsy `v` (`false`, `0`, `""`), which `\|\|` replaces by `d` and `??` keeps; so `0 \|\| null` is null while `0 ?? null` is 0 |
| Js.Prop | app/api/doctors/route.ts:116 | reading a property throws exactly when the object is undefined or null; otherwise a key present on an object gives its stored value, and any other key or value gives undefined |
| Js.OptProp | scrape.js:28-35 | `o?.k` agrees with `o.k` when that does not throw, and is undefined when it would |
| Js.Lower | app/api/doctors/route.ts:30-35 | the result has the same length and no upper-case ASCII letter; every other character is kept, and each upper-case letter becomes its lower-case counterpart |
| Js.LowerIdempotent | app/api/doctors/route.ts:30-35 | lowercasing twice is lowercasing once |
| Js.IncludesIff | app/api/doctors/route.ts:33-35 | `includes` holds exactly when the needle occurs at some offset |
| Js.Split | app/api/doctors/route.ts:46 | `split` gives at least one part, no part contains the separator, and joining the parts restores the string |
| Js.SplitJoin | app/api/doctors/route.ts:46 | splitting a join of separator-free parts gives the parts back |
| Js.ToNumber | app/api/doctors/route.ts:46 | `Number` of a digit string, with or without a leading `+` or `-`, is its signed decimal value, and a string with a symbol no numeric literal uses, or a `+` after a digit, is NaN |
| Js.ParseInt | components/add-doctor-form.tsx:141 | `parseInt` reads an optional sign and then the longest run of leading digits ("12px" is 12, "-5" is -5); a string starting with neither a digit nor a sign, or a sign not followed by a digit, is NaN |
| Js.DigitPrefixLength | app/api/doctors/route.ts:8-9 | the digit prefix `parseInt` reads is maximal and all digits |
| Js.ParseIntNatToString | components/doctor-listing.tsx:87 | `parseInt(n.toString())` is `n` for every natural number |
| Js.NatToStringValue | components/doctor-listing.tsx:87 | the decimal digits printed for `n` have value `n` |
| Js.RelativeIndex | app/api/doctors/route.ts:95 | `slice` turns NaN into 0, clips a non-negative argument to the length, and counts a negative one back from the end, stopping at 0 |
| Js.Slice | app/api/doctors/route.ts:95 | for `0 <= start <= end` the slice is the elements from `start` to `end`, both clipped to the length; `end <= start` and two NaN arguments give `[]`; a negative start with an end past the length gives the last `-start` elements |
| ArraySort.SortInPlace | app/api/doctors/route.ts:79-85 | sorting the array in place leaves it equal to the insertion sort `SortedBy` of its old contents |
| ArraySort.InsertInPlace | app/api/doctors/route.ts:79-85 | one pass moves `a[i]` left past every entry ranked after it and leaves the rest of the array alone |
| ArraySort.ShiftRight | app/api/doctors/route.ts:79-85 | the inner loop of a pass shifts the entries ranked after `x` one place right and stops at the first that is not, leaving the place where `x` belongs |
| ArraySort.SortPermutesAndOrders | app/api/doctors/route.ts:79-85 | for a consistent comparator the sort is a permutation with no pair out of order |
| ArraySort.InsertPermutes | app/api/doctors/route.ts:79-85 | one insertion adds exactly the inserted element |
| ArraySort.InsertOrders | app/api/doctors/route.ts:79-85 | inserting into an ordered sequence keeps it ordered |
| ArraySort.SortKeepsOrdered | app/api/doctors/route.ts:79-85 | an already ordered sequence is left exactly as it is |
| ListingQuery.GetParam | app/api/doctors/route.ts:8-14 | `get` is null exactly when no pair has the name, and otherwise returns a value stored under it |
| ListingQuery.GetParamFirst | app/api/doctors/route.ts:8-14 | the value `get` returns is that of the first pair with the name |
| ListingQuery.GetAllParamsExact | app/api/doctors/route.ts:11 | `getAll` returns every value stored under the name, as often as it is stored, in the order of the pairs |
| ListingQuery.EmptyQueryDefaults | app/api/doctors/route.ts:8-14 | an empty query asks for page 1 of 10, no filters, "relevance" order |
| ListingQuery.Select | app/api/doctors/route.ts:31-41 | a filter keeps every copy of a passing doctor and none of a failing one |
| ListingQuery.SelectIsSubsequence | app/api/doctors/route.ts:31-41 | a filter keeps the survivors in their original order |
| ListingQuery.SelectAll | app/api/doctors/route.ts:31-41 | a filter every doctor passes changes nothing |
| ListingQuery.SubsequenceTransitive | app/api/doctors/route.ts:25-53 | a filter of a filter is still an order-preserving subsequence of the collection |
| ListingQuery.EmptySearchKeepsAll | app/api/doctors/route.ts:29-37 | an empty search term would keep every doctor |
| ListingQuery.SearchIgnoresCase | app/api/doctors/route.ts:29-37 | search matching ignores the case of the term and of the name |
| ListingQuery.RegionIgnoresCase | app/api/doctors/route.ts:56-72 | the region filter keeps exactly the doctors whose region equals the requested one ignoring case |
| ListingQuery.BucketHalfOpen | app/api/doctors/route.ts:45-48 | a bucket "a-b" with non-zero `b` keeps exactly `a <= price < b` |
| ListingQuery.BucketOpenEnded | app/api/doctors/route.ts:45-51 | a bucket "a-b" whose `b` is empty, 0 or NaN keeps exactly `price >= a` |
| ListingQuery.BucketWithoutDash | app/api/doctors/route.ts:45-51 | a bucket with no dash keeps exactly `price >= a` |
| ListingQuery.NaNLowerBoundKeepsNothing | app/api/doctors/route.ts:45-51 | a bucket whose lower part contains a symbol no numeric literal uses, or a `+` after a digit, has a NaN minimum and keeps no doctor |
| ListingQuery.BucketParts | app/api/doctors/route.ts:46 | "a-b" splits into the numbers of `a` and `b` |
| ListingQuery.ThousandToTwoThousand | app/api/doctors/route.ts:48 | "1000-2000" keeps a price of 1000 and drops a price of 2000 |
| ListingQuery.ThreeThousandPlusKeepsNothing | app/api/doctors/route.ts:45-51 | the "3000+" bucket keeps no doctor at all |
| ListingQuery.OpenEndedBucketKeepsFrom | app/api/doctors/route.ts:50 | with a trailing `+` read as open-ended, "a+" keeps exactly `price >= a` |
| ListingQuery.ThreeThousandPlusOpenEnded | app/api/doctors/route.ts:50 | with that reading, "3000+" keeps exactly the prices from 3000 up |
| ListingQuery.WorkingSetIsAdmittedSubsequence | app/api/doctors/route.ts:25-74 | the working set is the order-preserving subsequence of the collection of exactly the doctors the query admits |
| ListingQuery.RegionDiscardsEarlierFilters | app/api/doctors/route.ts:56-74 | with a region given, the search, specialization and price filters have no effect |
| ListingQuery.AboveByConsistent | app/api/doctors/route.ts:79-85 | each comparator ranks doctors by a single key, consistently |
| ListingQuery.ArrangeMeaning | app/api/doctors/route.ts:77-90 | sorting is a permutation; "rating" is non-increasing with null as 0; "price_low" is non-decreasing by price; "price_high" is non-increasing; any other key keeps the order |
| ListingQuery.ListingPageSortKeysIgnored | app/api/doctors/route.ts:87-89 | "fees_low", "fees_high", "experience" and "relevance" leave the order unchanged |
| ListingQuery.PageCountIsCeiling | app/api/doctors/route.ts:99 | for a positive limit, `totalPages` is the least page count that holds every doctor, so 0 doctors give 0 pages |
| ListingQuery.PageWindow | app/api/doctors/route.ts:93-95 | for page and limit at least 1, the page is `[(page-1)*limit, min(page*limit, n))` and holds at most `limit` doctors |
| ListingQuery.EmptyPageIffBeyondLast | app/api/doctors/route.ts:93-99 | a page is empty exactly when its number exceeds `totalPages` |
| ListingQuery.Get | app/api/doctors/route.ts:4-107 | the response holds the requested page of the sorted working set, the working-set size, `ceil(size/limit)` (null for NaN or infinity) and the requested page |
| ListingQuery.FilterDoctors | app/api/doctors/route.ts:25-74 | rebinding the working set filter by filter yields the working set of the query |
| ListingQuery.SortDoctors | app/api/doctors/route.ts:77-90 | sorting a copy in place yields the arrangement for the sort key |
| CreateDoctor.FirstFalsy | app/api/doctors/route.ts:114-119 | finds the first falsy required field: every earlier one is truthy |
| CreateDoctor.Post | app/api/doctors/route.ts:109-183 | the handler's loop and checks give the response of the handler specification `Respond` |
| CreateDoctor.MissingMessagesDistinct | app/api/doctors/route.ts:117-127 | the six missing-field messages, the address message and the location message are all distinct |
| CreateDoctor.FirstFalsyFieldReported | app/api/doctors/route.ts:114-119 | the 400 names a field exactly when it is falsy and every field before it is truthy |
| CreateDoctor.AddressCheckedAfterFields | app/api/doctors/route.ts:122-124 | the address error comes exactly when all required fields are truthy and the address is not |
| CreateDoctor.LocationCheckedLast | app/api/doctors/route.ts:126-128 | the location error comes exactly when the fields and the address pass and the location does not |
| CreateDoctor.RequiredFieldsPass | app/api/doctors/route.ts:115-119 | a body with all six fields truthy gets through the loop |
| CreateDoctor.ZeroPriceIsMissing | app/api/doctors/route.ts:116-117 | a price of 0 is reported as a missing `priceRange` |
| CreateDoctor.RecordFrom | app/api/doctors/route.ts:149-172 | building the row throws exactly when the data, its address or its location is undefined or null; name, specialization, description, priceRange, image and url are copied; `rating ?? null` keeps every defined non-null rating, 0 included, and turns undefined and null into null; a truthy locality, region, latitude or longitude is copied and a falsy one becomes `''` |
| CreateDoctor.ValidatedBodyWithoutDataFails | app/api/doctors/route.ts:149-181 | a body that passes every check but has no `data` gets a 500 "Failed to add doctor" |
| CreateDoctor.ValidatedBodyIsStored | app/api/doctors/route.ts:149-178 | building the row from the checked body always succeeds, carries the checked fields and yields a 201 whenever the store accepts |
| Scraper.Project | scrape.js:20-36 | a truthy name, specialty, price, address locality and region, latitude, longitude or rating is copied as it is; a falsy or missing one becomes `""`, 0 for the price and null for the rating |
| Scraper.Extract | scrape.js:13-41 | a page yields at most one record per block |
| Scraper.ScrapePage | scrape.js:4-44 | the `each` loop pushes the projection of each physician block, in block order |
| Scraper.ScrapeAll | scrape.js:45-51 | the final list is the records of pages 1 to 10 in page order, and its length is the sum of the per-page physician counts |
| Scraper.ExtractCount | scrape.js:19-20 | one record per physician block, and no other records |
| Scraper.ExtractAppend | scrape.js:13-41 | the records of two runs of blocks are the records of each, in order |
| Scraper.MalformedSkipped | scrape.js:15-16 | a block that fails to parse is skipped and the blocks after it are still read |
| Scraper.NonPhysicianSkipped | scrape.js:19 | a null or non-physician block adds nothing |
| Scraper.PhysicianKept | scrape.js:19-36 | a physician block adds its projection at its own place |
| Scraper.ZeroRatingBecomesNull | scrape.js:35 | a rating of 0 is stored as null |
| DoctorListing.Remove | components/doctor-listing.tsx:197 | filtering out a value removes every occurrence and keeps the count of every other value |
| DoctorListing.Toggle | components/doctor-listing.tsx:139-141 | toggling a present value is `Remove`: every occurrence goes and the other entries keep their order and counts; an absent value is appended at the end |
| DoctorListing.RemoveAppend | components/doctor-listing.tsx:140 | removal distributes over concatenation, so other entries keep their relative order |
| DoctorListing.ToggleTwiceRestores | components/doctor-listing.tsx:137-147 | toggling an absent value twice restores the original list |
| DoctorListing.SpecializationChange | components/doctor-listing.tsx:137-149 | toggles the value and resets the page to 1 |
| DoctorListing.PriceRangeChange | components/doctor-listing.tsx:151-157 | sets only the price bucket and resets the page to 1 |
| DoctorListing.RegionChange | components/doctor-listing.tsx:159-165 | sets only the region and resets the page to 1 |
| DoctorListing.SortChange | components/doctor-listing.tsx:167-173 | sets only the sort key and resets the page to 1 |
| DoctorListing.SearchChange | components/doctor-listing.tsx:175-181 | sets only the search term and resets the page to 1 |
| DoctorListing.ClearAllFilters | components/doctor-listing.tsx:183-192 | restores the initial filters and resets the page to 1 |
| DoctorListing.RemoveSpecialization | components/doctor-listing.tsx:194-199 | removes the value and leaves the page where it is |
| DoctorListing.RemovePriceRange | components/doctor-listing.tsx:201-206 | clears the bucket and leaves the page where it is |
| DoctorListing.RemoveRegion | components/doctor-listing.tsx:208-213 | clears the region and leaves the page where it is |
| DoctorListing.PriceBucketClick | components/doctor-listing.tsx:243 | clicking the selected bucket clears it; clicking another selects it; the page goes to 1, and the other filters and expanded descriptions are kept |
| DoctorListing.PriceBucketClickTwice | components/doctor-listing.tsx:243 | two clicks on a bucket return to that bucket if it was selected, and to no bucket otherwise |
| DoctorListing.RegionClick | components/doctor-listing.tsx:260-262 | the region is stored lowercased and a second click on it clears it; the page goes to 1, and the other filters and expanded descriptions are kept |
| DoctorListing.ActiveFilters | components/doctor-listing.tsx:128-135 | at most four kinds count: non-empty specializations, bucket and region, and a sort key other than "relevance"; each kind is listed at most once, exactly when its condition holds |
| DoctorListing.CountActiveFilters | components/doctor-listing.tsx:128-135 | the counter equals the number of active kinds and is at most 4 |
| DoctorListing.ActiveFiltersIgnoreSearch | components/doctor-listing.tsx:128-135 | the search term never counts, and after clearing all filters the count is 0 |
| DoctorListing.ToggleDescription | components/doctor-listing.tsx:275-277 | flips whether one id is expanded and keeps every other entry |
| DoctorListing.ToggleDescriptionTwice | components/doctor-listing.tsx:275-277 | toggling an id twice restores every id's expanded state |
| DoctorListing.Collapsed | components/doctor-listing.tsx:452-454 | the collapsed text is at most 153 characters, the full text when it has at most 150, and otherwise the first 150 followed by "..." |
| DoctorListing.Shown | components/doctor-listing.tsx:416-454 | an expanded card shows the whole description, a collapsed one the collapsed text |
| DoctorListing.Previous | components/doctor-listing.tsx:488-491 | goes back a page only from a page above 1 |
| DoctorListing.Next | components/doctor-listing.tsx:514-517 | goes forward a page only below the last page |
| DoctorListing.GoToPage | components/doctor-listing.tsx:496-509 | the link at index `i` selects page `i + 1` and keeps the filters and expanded descriptions |
| DoctorListing.PagingStaysInRange | components/doctor-listing.tsx:488-517 | from a page in `[1, totalPages]` every paging control stays in that range |
| DoctorListing.BuildQuery | components/doctor-listing.tsx:86-110 | the appended pairs are `page`, `limit=10`, a non-empty search, one `specialization` per selected value in order, then non-empty bucket, region and sort key |
| DoctorListing.QueryRoundTrip | components/doctor-listing.tsx:86-110 | the listing endpoint reads back exactly the page, 10 per page, and the filters the page sent, with "relevance" for an empty sort key |
| DoctorListing.FeeSortKeysIgnored | components/doctor-listing.tsx:332-334 | the "experience", "fees_low" and "fees_high" choices reach the endpoint unrecognised and leave the list in stored order |
| DoctorListing.ServerSortKey | components/doctor-listing.tsx:333-334 | "fees_low" stands for "price_low" and "fees_high" for "price_high" |
| DoctorListing.TranslatedFeeSortOrders | components/doctor-listing.tsx:333-334 | with those keys translated, the fee choices order the list by fee, low-to-high or high-to-low |
| AddDoctorForm.Set | components/add-doctor-form.tsx:80-87 | setting a field by name changes that field and nothing else |
| AddDoctorForm.SetIdempotent | components/add-doctor-form.tsx:80-87 | re-setting a field's own value changes nothing, and the later of two sets wins |
| AddDoctorForm.ClientCheck | components/add-doctor-form.tsx:97-129 | the required-fields toast comes when any field is empty; the address toast only when those are filled; the location toast only when the address is filled too; no toast when all are filled |
| AddDoctorForm.Payload | components/add-doctor-form.tsx:139-143 | the payload is an object with no `data`, a null rating, the parsed price (null for NaN) and the form's name |
| AddDoctorForm.ResultToast | components/add-doctor-form.tsx:148-183 | a 2xx answer toasts success; otherwise the server's error message is shown when it is non-empty, and "Failed to add doctor" when it is empty or missing |
| AddDoctorForm.Form.Change | components/add-doctor-form.tsx:80-87 | sets one named field and leaves `isSubmitting` alone |
| AddDoctorForm.Form.ChangeLocality | components/add-doctor-form.tsx:302-310 | sets only the address locality |
| AddDoctorForm.Form.ChangeRegion | components/add-doctor-form.tsx:321-329 | sets only the address region |
| AddDoctorForm.Form.ChangeLatitude | components/add-doctor-form.tsx:355-363 | sets only the latitude |
| AddDoctorForm.Form.ChangeLongitude | components/add-doctor-form.tsx:377-385 | sets only the longitude |
| AddDoctorForm.Form.BeginSubmit | components/add-doctor-form.tsx:93-144 | the payload is posted and `isSubmitting` raised exactly when every check passes; otherwise the first failing check's toast is shown and nothing changes |
| AddDoctorForm.Form.FinishSubmit | components/add-doctor-form.tsx:146-186 | shows the result toast; a 2xx answer resets the form to all-empty and any other keeps it; `isSubmitting` is false afterwards in every case |
| AddDoctorForm.PayloadFields | components/add-doctor-form.tsx:139-143 | the endpoint reads the form's six fields from the payload, and finds no `data` |
| AddDoctorForm.PayloadPlaces | components/add-doctor-form.tsx:139-143 | the endpoint's address and location checks pass exactly when the form's do |
| AddDoctorForm.AcceptedFormNeverCreated | components/add-doctor-form.tsx:139-143 | a form the client accepts is never created: it gets a 400 for `priceRange` when the price parses to 0 or NaN, and a 500 otherwise |
| AddDoctorForm.FilledFormValidates | components/add-doctor-form.tsx:97-143 | a form the client accepts, with a price that parses to a non-zero number, passes every endpoint check |
| AddDoctorForm.FilledFormCreatedFromBody | components/add-doctor-form.tsx:139-143 | if the endpoint built its row from the body, such a form would get a 201 whenever the store accepts |

## Left out

- Database access (`prisma.doctor.findMany`, `create`) is not modelled. The collection is an input sequence in storage order, and the insert is a parameter that accepts or rejects a row. Ids, timestamps and the store's own type checks are not modelled.
- The region re-query at app/api/doctors/route.ts:59-72 is modelled as the case-insensitive region predicate applied to the same collection, in storage order. The `location` relation it also loads is not modelled.
- `Number` and `parseInt` are modelled for integer literals with an optional sign. Prices are integers and ratings are reals, so floating-point rounding is not modelled.
- ArraySort: that doctors with equal keys keep their input order (the stability `Array.prototype.sort` guarantees) is not proved; the model proves the result is a permutation, is in order, and equals the input when the input is already in order.
- Js.ToNumber: decimals, exponents, surrounding whitespace, `Infinity` and hex, octal or binary prefixes give NaN here. So a bucket such as "1.5-2000" keeps no doctor in the model, while the code keeps `1.5 <= price < 2000`.
- Js.ParseInt: leading whitespace and a `0x` prefix are not modelled. So a form price of " 5" is NaN here, and `AddDoctorForm.AcceptedFormNeverCreated` answers it with a 400, while the code reads 5 and answers with a 500.
- `toLowerCase` is modelled on ASCII letters only. Strings are sequences of characters, not UTF-16 code units.
- `URLSearchParams` percent-encoding and decoding are taken to be inverse and are not modelled.
- `JSON.parse` and `JSON.stringify` are not modelled beyond values: JSON values are given directly, and NaN is written as null.
- Fetching, cheerio HTML selection, `fs.writeFile`, `console`, toasts, router refresh, `useEffect` timing and rendering are left out. So are the `loading`, `mobileFiltersOpen`, `doctors` and `totalPages` state setters.
- A network failure or a response that is not JSON on the client is not modelled. `FinishSubmit` always receives the endpoint's response.
- `handleMultiSelectChange` and the language and availability option lists are left out; they feed no field of the form.
- A `description` that is null in `doctor.description?.slice(...)` is not modelled, because a stored doctor always has a description.
- prisma/seed.ts, app/page.tsx and app/add-doctor/page.tsx are not part of this model.
- Scraper.Project: its contract does not restate the `||` defaults for description, image and url, which follow the same rule as name.
- AddDoctorForm.Payload: its contract states `data`, `rating`, `priceRange` and `name`. The other copied fields are read back in `AddDoctorForm.PayloadFields` and `AddDoctorForm.PayloadPlaces`.

## Findings

| source | as written | input that shows it | evidently intended | confidence | as-written member | corrected member |
|---|---|---|---|---|---|---|
| app/api/doctors/route.ts:149 | the handler checks `body` but builds the row from `body.data` | the payload of any form the client accepts, such as name "A", price "500" and every other field filled; it has no `data`, so the handler answers 500 | build the row from the checked body | high, not executed | AddDoctorForm.AcceptedFormNeverCreated | CreateDoctor.ValidatedBodyIsStored |
| app/api/doctors/route.ts:45-51 | `"3000+".split("-").map(Number)` gives a NaN lower bound, so the "3000+" bucket keeps nothing | priceRange "3000+" with a doctor priced 5000; the doctor is dropped | keep every price from 3000 up, as the comment on line 50 says | high, not executed | ListingQuery.ThreeThousandPlusKeepsNothing | ListingQuery.ThreeThousandPlusOpenEnded |
| components/doctor-listing.tsx:333-334 | the page sends "fees_low" and "fees_high", which the endpoint does not recognise (route.ts:78-85) | sortBy "fees_low"; the list stays in stored order | sort by fee, as "price_low" and "price_high" do | medium, not executed | DoctorListing.FeeSortKeysIgnored | DoctorListing.TranslatedFeeSortOrders |

For every row, the model stays as written: the `GET` pipeline, the `POST` handler and the listing page's sort keys use the code's own behaviour. The corrected definitions sit beside them: `CreateDoctor.RespondFromBody`, `ListingQuery.ParseBucketOpenEnded` and `DoctorListing.ServerSortKey`.
