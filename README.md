# VTC booking core, modelled in Dafny

This project models the booking pipeline of a French chauffeur-hire (VTC) web application and proves properties of the model.

- **Trip form** (`trip_form.dfy`). The intake form checks its fields in order and builds the trip record without blank waypoints. It also edits the waypoint list, with two parallel autocomplete arrays.
- **Vehicle page** (`booking.dfy`). It does several things:
  - filters the vehicle catalog by capacity;
  - resolves the route distance, falling back to 10 km;
  - builds the point-to-point and hourly price tables;
  - toggles the add-on options and totals them;
  - checks the customer's details, including the e-mail pattern;
  - builds the record handed to payment.
- **Reservation document** (`reservation_record.dfy`). It is the document stored once payment is settled, with its defaults and payment status.
- **Account deletion** (`account_deletion.dfy`). The POST handler merges and de-duplicates the matching reservations and records a deletion request. The processing step deletes the listed reservations and marks the request completed.
- **Translations** (`i18n.dfy`). It holds the French and English tables, verbatim, and `getTranslation`, the dotted-path lookup that falls back to the key.
- **Sitemap** (`seo.dfy`). It builds the route list and makes URLs absolute.

Shared helpers live in three modules:
- `wrappers.dfy` holds Option and Result;
- `text.dfy` holds JavaScript `trim` and the `\s` class;
- `lists.dfy` holds filter, sum, splice, `findIndex` and first-occurrence de-duplication.

Modelling choices:
- Money is a natural number of euro cents.
- The answers of the outside world are parameters:
  - the directions and places services;
  - the document store's reads, writes and generated ids;
  - the store's timestamps;
  - the outcome of the confirmation e-mail.
- The document store's collections are maps from document id to document.
- Values handed from page to page through `localStorage` are passed as values.
- The waypoint editor and the store in `processDeletionRequest` change state in place, so they are classes with `modifies` clauses.
- The loops of the source are methods with loop invariants, each proved against a specification function:
  - the leg sum;
  - the two `forEach` price builders;
  - the segment walk of `getTranslation`;
  - the deletion pass.

## Model

| member | source | states |
|---|---|---|
| Text.Trim | src/components/reservation-form.tsx:238 | the trimmed string is empty exactly when the input is all whitespace; otherwise it starts and ends with a non-whitespace character and is the input minus a blank prefix and a blank suffix |
| Text.Utf16Units | src/components/reservation-form.tsx:127 | a character outside the Basic Multilingual Plane takes two UTF-16 code units, every other character one |
| Text.Utf16Length | src/components/reservation-form.tsx:127 | `value.length`: the UTF-16 code units of the string, between its character count and twice that, and equal to it when every character is in the Basic Multilingual Plane |
| Lists.FindIndex | src/app/api/delete-account/route.ts:34 | -1 exactly when the element is absent; otherwise the index of its first occurrence |
| Lists.Filter | src/components/reservation-form.tsx:238 | `filter`: never longer than the input, and holds exactly the input elements that satisfy the test |
| Lists.Sum | src/app/reservation/page.tsx:172-174 | the total of a list of naturals, the reference for the leg accumulation |
| Lists.KeepFirsts | src/app/api/delete-account/route.ts:33-35 | the first-occurrence filter over a prefix: no duplicates, and the members of that prefix |
| Lists.Dedup | src/app/api/delete-account/route.ts:33-35 | keeps each element at its first occurrence: no duplicates, same members as the input |
| Lists.DedupPrefix | src/app/api/delete-account/route.ts:32-35 | de-duplicating `a + b` keeps the de-duplicated `a` as a prefix |
| Lists.DedupNoDuplicates | src/app/api/delete-account/route.ts:33-35 | a list without duplicates is unchanged by de-duplication |
| Lists.SpliceOut | src/components/reservation-form.tsx:154 | `splice(i, 1)` removes index i and shifts the rest down; an index past the end changes nothing |
| TripForm.FilledWaypoints | src/components/reservation-form.tsx:238 | the kept waypoints are exactly the input's non-blank ones |
| TripForm.HasText | src/components/reservation-form.tsx:238 | `waypoint.trim() !== ""`: the waypoint test of the filter |
| TripForm.FilledWaypointsAppend | src/components/reservation-form.tsx:238 | dropping blanks distributes over concatenation, so the input order is kept |
| TripForm.FilledWaypointsIdempotent | src/app/reservation/page.tsx:154-155 | the vehicle page's second blank filter leaves already filtered waypoints unchanged |
| TripForm.HandleSubmit | src/components/reservation-form.tsx:216-243 | the first alert is raised iff departure, date, time or passengers is empty; an accepted trip copies every field and keeps the filtered waypoints |
| TripForm.SubmitAcceptsExactlyCompleteForms | src/components/reservation-form.tsx:219-243 | a form is accepted iff it is complete for its trip type; a rejection names the first failing check in source order; an accepted trip is well formed |
| TripForm.InitialForm | src/components/reservation-form.tsx:37-44 | the form starts with every field empty except one passenger |
| TripForm.InitialFormIsRejected | src/components/reservation-form.tsx:37-44 | submitting the untouched form raises the first alert, whatever the trip type and waypoints |
| TripForm.PlaceSuggestions | src/components/reservation-form.tsx:65-90 | no proposals without the maps library, for an empty input, or on a non-OK reply; otherwise the service's predictions |
| TripForm.WantsSuggestions | src/components/reservation-form.tsx:127 | `value.length > 2`, with the length counted in UTF-16 code units |
| TripForm.WantsSuggestionsByLength | src/components/reservation-form.tsx:96 | three characters always ask for proposals and one never does; two characters ask exactly when one of them is outside the Basic Multilingual Plane |
| TripForm.FieldChange | src/components/reservation-form.tsx:92-120 | the input takes the typed value; proposals only for values longer than two UTF-16 code units, and then the service's predictions when it answers; the list is shown iff it is non-empty |
| TripForm.FieldSelect | src/components/reservation-form.tsx:166-176 | the input takes the chosen description; the list is emptied and hidden |
| TripForm.WaypointEditor.constructor | src/components/reservation-form.tsx:45-57 | the editor starts with three empty, aligned arrays |
| TripForm.WaypointEditor.AddWaypoint | src/components/reservation-form.tsx:148-150 | appends exactly one empty waypoint; the existing entries and both proposal arrays are unchanged |
| TripForm.WaypointEditor.SyncSuggestionSlots | src/components/reservation-form.tsx:59-63 | after a change in waypoint count, there is one empty, hidden proposal slot per waypoint |
| TripForm.WaypointEditor.RemoveWaypoint | src/components/reservation-form.tsx:152-164 | removes the same index from all three arrays; aligned arrays stay aligned |
| TripForm.WaypointEditor.HandleWaypointChange | src/components/reservation-form.tsx:122-146 | only the entry at `index` changes, in all three arrays; proposals are requested iff the value is longer than two UTF-16 code units; the slot then matches a field handled by `FieldChange` |
| TripForm.WaypointEditor.SelectWaypointSuggestion | src/components/reservation-form.tsx:178-190 | only the entry at `index` changes: it takes the description, and its list is emptied and hidden |
| Booking.FitsCapacity | src/app/reservation/page.tsx:107-108 | keeps exactly the vehicles seating at least the requested passengers |
| Booking.FitsCapacityAppend | src/app/reservation/page.tsx:108 | the filter goes vehicle by vehicle, so the catalog order is kept |
| Booking.FitsCapacityKeepsRoomyCatalog | src/app/reservation/page.tsx:108 | no vehicle seating enough passengers is dropped |
| Booking.RouteRequestFor | src/app/reservation/page.tsx:154-168 | the route goes from the departure to the destination through exactly the trip's non-blank waypoints |
| Booking.StoredTripRoutesThroughItsWaypoints | src/app/reservation/page.tsx:154-159 | a trip stored by the form is routed through exactly its stored waypoints |
| Booking.KmRoundedUp | src/app/reservation/page.tsx:175 | the fewest whole kilometres covering the metres, which is `Math.ceil(m / 1000)` |
| Booking.ResolvedDistance | src/app/reservation/page.tsx:112-128 | no distance iff the maps library is absent when the route is requested; an OK reply gives the rounded-up leg sum; every other failure gives 10 km |
| Booking.TotalLegMeters | src/app/reservation/page.tsx:171-174 | the accumulation loop over the legs returns their sum |
| Booking.ResolveDistance | src/app/reservation/page.tsx:139-192 | the method gives the distance `ResolvedDistance` specifies |
| Booking.Fare | src/app/reservation/page.tsx:194-231 | the fare of a vehicle under the chosen model: point-to-point for a distance, hourly for a duration |
| Booking.PointToPointFare | src/app/reservation/page.tsx:197-209 | base is the base price; the distance part is km × price per km; the total is their sum raised to the minimum fare |
| Booking.HourlyFare | src/app/reservation/page.tsx:219-227 | base is the base price; the hours part is hours × price per hour; the total is their sum with no floor |
| Booking.PointToPointFareMonotone | src/app/reservation/page.tsx:198-203 | a longer trip never costs less, so rounding up never lowers a fare |
| Booking.HourlyFareMonotone | src/app/reservation/page.tsx:220-221 | a longer booking never costs less |
| Booking.FloorAppliesOnlyToPointToPoint | src/app/reservation/page.tsx:201-203 | point-to-point totals never fall below the minimum fare, while an hourly total below it is charged as is |
| Booking.IsPriceTable | src/app/reservation/page.tsx:195-212 | the meaning of `calculations`: its keys are exactly the vehicle ids, and each id holds the fare of the last vehicle with that id |
| Booking.PriceTableStep | src/app/reservation/page.tsx:205 | writing one more vehicle's fare extends the price table by that vehicle |
| Booking.BuildPriceTable | src/app/reservation/page.tsx:195-212 | the loop builds the price table: one entry per vehicle id, holding the fare of the last vehicle with that id |
| Booking.CalculateSimplePrices | src/app/reservation/page.tsx:194-213 | the price table with point-to-point fares at the given distance |
| Booking.CalculateHourlyPrices | src/app/reservation/page.tsx:215-231 | the price table with hourly fares for the given duration |
| Booking.PriceTableOfDistinctIds | src/app/reservation/page.tsx:205 | with distinct document ids, every vehicle's entry is its own fare |
| Booking.LastIndexOf | src/app/reservation/page.tsx:205 | every id in the table has a last vehicle carrying it |
| Booking.PriceTableIsUnique | src/app/reservation/page.tsx:194-231 | a catalog has exactly one price table per fare model |
| Booking.SelectedVehiclePrice | src/app/reservation/page.tsx:233-237 | the vehicle's computed total, or 0 when none was computed |
| Booking.SelectedPriceIsFare | src/app/reservation/page.tsx:235 | selecting a listed vehicle of a priced catalog takes its fare |
| Booking.DefaultOptions | src/app/reservation/page.tsx:67-74 | the six add-ons the page starts with, priced in cents, none selected |
| Booking.ToggleOption | src/app/reservation/page.tsx:239-243 | flips `selected` only on entries with the id; length, order and every other field are kept |
| Booking.ToggleTwiceRestores | src/app/reservation/page.tsx:239-243 | toggling the same id twice restores the options |
| Booking.ToggleUnknownIdIsNoOp | src/app/reservation/page.tsx:239-243 | toggling an id no option has changes nothing |
| Booking.SelectedOptions | src/app/reservation/page.tsx:248 | keeps exactly the selected options |
| Booking.TotalWithOptions | src/app/reservation/page.tsx:245-252 | the total is never below the vehicle price |
| Booking.PriceSum | src/app/reservation/page.tsx:249 | the `reduce` over the selected options: the sum of their prices |
| Booking.PriceSumAppend | src/app/reservation/page.tsx:249 | the option sum is additive over concatenation |
| Booking.TotalWithoutSelection | src/app/reservation/page.tsx:245-252 | with nothing selected, the total is the vehicle price |
| Booking.ToggleTouchesOnlyIt | src/app/reservation/page.tsx:241 | with unique ids, toggling entry k's id flips entry k and leaves every other entry as it was |
| Booking.SelectedSumAround | src/app/reservation/page.tsx:247-249 | the selected sum splits into the part before entry k, entry k's contribution and the part after |
| Booking.ToggleMovesTotalByPrice | src/app/reservation/page.tsx:239-252 | toggling an option with a unique id moves the total by exactly its price, up on select and down on clear |
| Booking.SelectingNeverLowersTotal | src/app/reservation/page.tsx:239-252 | selecting an option never lowers the total; selecting a zero-priced one leaves it unchanged |
| Booking.DefaultOptionIdLengths | src/app/reservation/page.tsx:67-74 | the six catalog ids have pairwise different lengths |
| Booking.DefaultOptionIdsUnique | src/app/reservation/page.tsx:67-74 | the page's catalog has distinct ids, so the toggle lemmas apply to it |
| Booking.DefaultOptionsUnselected | src/app/reservation/page.tsx:67-74 | no add-on of the catalog starts selected |
| Booking.DefaultOptionsStartUnselected | src/app/reservation/page.tsx:67-74 | with the initial catalog, the total is the vehicle price |
| Booking.DefaultOptionAddsItsPrice | src/app/reservation/page.tsx:239-252 | choosing one add-on of the initial catalog adds exactly its price to the total |
| Booking.PlainConcat | src/app/reservation/page.tsx:293 | a concatenation is free of whitespace and '@' iff both halves are |
| Booking.EmailShape | src/app/reservation/page.tsx:293 | the language of `^[^\s@]+@[^\s@]+\.[^\s@]+$`: three non-empty runs without whitespace or '@', separated by an '@' and then a '.' |
| Booking.MatchesEmailPattern | src/app/reservation/page.tsx:293 | the test accepts exactly the strings matched by `^[^\s@]+@[^\s@]+\.[^\s@]+$` |
| Booking.EmailPatternCorrect | src/app/reservation/page.tsx:293 | the scan from the first '@' accepts iff the string has the regular expression's shape |
| Booking.PlainAroundDot | src/app/reservation/page.tsx:293 | the text after the '@' is plain iff the runs around its '.' are |
| Booking.EmailTestGivesShape | src/app/reservation/page.tsx:293 | an accepted string has the pattern's three runs |
| Booking.FirstAt | src/app/reservation/page.tsx:293 | an '@' preceded by a plain run is the first '@' |
| Booking.EmailShapeGivesTest | src/app/reservation/page.tsx:293 | a string of the pattern's shape is accepted |
| Booking.EmailNeedsAtThenDot | src/app/reservation/page.tsx:293 | an accepted address holds an '@' followed later by a '.' |
| Booking.IsPersonalInfoValid | src/app/reservation/page.tsx:287-295 | valid iff names, phone and e-mail are non-blank and the e-mail has the pattern's shape |
| Booking.LoadVehicles | src/app/reservation/page.tsx:96-137 | a failed catalog read leaves the empty state; otherwise the filtered catalog; hourly trips get the hourly table and no distance; point-to-point trips get the resolved distance and its table, or no prices when the maps library is absent |
| Booking.FinalSubmit | src/app/reservation/page.tsx:266-285 | nothing without a trip or a vehicle; otherwise the trip, vehicle, customer and distance, the selected options in order, the options total and the pre-options price |
| Booking.FinalSubmitTotalsAgree | src/app/reservation/page.tsx:269-279 | the recorded total is the pre-options price plus the recorded options, which are all selected ones of the page |
| Booking.ExampleFloorNotReached | src/app/reservation/page.tsx:197-209 | 12 km on a sample sedan: 44.00, above its 40.00 floor |
| Booking.ExampleFloorReached | src/app/reservation/page.tsx:201-203 | 5 km on the sample sedan: 30.00 raised to the 40.00 floor |
| Booking.ExampleHourlyBelowFloor | src/app/reservation/page.tsx:219-227 | one hour on the sample sedan is charged 35.00, below its 40.00 minimum fare |
| Booking.ExampleRouteFailure | src/app/reservation/page.tsx:178-183 | a non-OK directions reply prices the trip at 10 km |
| ReservationRecord.StringOrNull | src/lib/save-reservation.ts:48 | `duration \|\| null`: null exactly for the empty string, the value otherwise |
| ReservationRecord.DistanceOrNull | src/lib/save-reservation.ts:49 | `distance \|\| null`: null for a missing or zero distance, the distance otherwise |
| ReservationRecord.DistanceOrZero | src/lib/save-reservation.ts:50 | `distance \|\| 0`: the distance, or 0 when missing |
| ReservationRecord.OptionIds | src/lib/save-reservation.ts:54 | the option ids, in order |
| ReservationRecord.PaymentStatusFor | src/lib/save-reservation.ts:69 | payment is pending iff the method is cash, completed otherwise |
| ReservationRecord.ReservationDocFor | src/lib/save-reservation.ts:41-77 | trip fields and total copied verbatim; vehicle by id; option ids in order; the defaults; guest info copied; payment status by method; status "pending" |
| ReservationRecord.StringFallback | src/lib/save-reservation.ts:63 | `s \|\| fallback` |
| ReservationRecord.DistanceFieldsAgree | src/lib/save-reservation.ts:49-50 | the stored distance is null exactly when the stored distance value is 0, and holds it otherwise |
| ReservationRecord.DocumentIgnoresTripTime | src/lib/save-reservation.ts:41-77 | the trip's time of day does not reach the document |
| ReservationRecord.SaveReservation | src/lib/save-reservation.ts:79-85 | success iff the store accepts; the generated id is returned and the collection gains the document under it; a store error is rethrown unchanged |
| ReservationRecord.SavedReservationIsStored | src/lib/save-reservation.ts:57-61 | a saved booking is found under its id with the customer's e-mail and phone; every other document is unchanged |
| AccountDeletion.OrNull | src/app/api/delete-account/route.ts:51-52 | `field \|\| null`: present exactly when the field is non-empty |
| AccountDeletion.Given | src/app/api/delete-account/route.ts:15 | a body field is truthy when present and non-empty |
| AccountDeletion.MatchedReservationIds | src/app/api/delete-account/route.ts:25-35 | no id twice; an id is listed iff it was matched by e-mail, or by phone when a phone was given |
| AccountDeletion.EmailMatchesComeFirst | src/app/api/delete-account/route.ts:32-35 | the e-mail matches come first, in the store's order |
| AccountDeletion.ReadsSucceeded | src/app/api/delete-account/route.ts:27-30 | the e-mail query answered, and the phone query too when a phone was given |
| AccountDeletion.Matches | src/app/api/delete-account/route.ts:32-35 | the unique matches of the answered queries, empty iff neither query found anything |
| AccountDeletion.DeletionPost | src/app/api/delete-account/route.ts:10-87 | every reply in both directions: 400 iff no e-mail, with no store access; 404 iff the reads succeed and nothing matches; 500 iff a read fails or the request write fails; accepted iff the reads succeed, something matches and the write succeeds, with the generated id, the unique count and the pending record with null defaults; the store changes only on acceptance |
| AccountDeletion.StatusCode | src/app/api/delete-account/route.ts:10-87 | the HTTP status of each reply |
| AccountDeletion.DeletionPostStatus | src/app/api/delete-account/route.ts:10-87 | status 400 exactly without e-mail, 404 exactly when nothing matches, 200 exactly when a match is recorded, 500 exactly for a failed read or write |
| AccountDeletion.ConfirmationFailureIsSwallowed | src/app/api/delete-account/route.ts:63-68 | whether the confirmation e-mail went out changes neither the reply nor the store |
| AccountDeletion.PhoneQueryOnlyWithPhone | src/app/api/delete-account/route.ts:25-29 | without a phone, the phone query's answer is never used |
| AccountDeletion.MatchesAreCustomerReservations | src/app/api/delete-account/route.ts:23-35 | against faithful query answers, the matches are exactly the customer's reservations, once each, e-mail matches first, and empty iff the customer has none |
| AccountDeletion.RequestCoversCustomerReservations | src/app/api/delete-account/route.ts:23-58 | against faithful query answers: 404 iff the customer has no reservation; otherwise the request lists each of the customer's reservations exactly once, e-mail matches first |
| AccountDeletion.ProcessingErasesCustomer | src/app/api/delete-account/route.ts:49-58 | deleting the listed ids of an accepted request removes every reservation of the customer and keeps every other one unchanged |
| AccountDeletion.Database.constructor | src/app/api/delete-account/route.ts:93-94 | the store holds the two given collections |
| AccountDeletion.Database.ProcessDeletionRequest | src/app/api/delete-account/route.ts:91-130 | an unknown id throws and changes nothing; otherwise the listed reservations are deleted, the request is completed by "system" at the given time, and the count of listed ids is returned |
| I18n.DigitsValue | src/lib/i18n.ts:112 | a one-digit name denotes its digit |
| I18n.DigitsValueAppend | src/lib/i18n.ts:112 | appending a digit multiplies the value by ten and adds the digit, which gives the decimal value of an index name |
| I18n.Get | src/lib/i18n.ts:112 | `v?.[k]`: an object's own property or undefined; undefined past an undefined value or a number; a string's character at an index |
| I18n.Walk | src/lib/i18n.ts:109-113 | the value reached from the table by one property access per segment |
| I18n.WalkStep | src/lib/i18n.ts:111-113 | walking from segment i takes the step at i first |
| I18n.WalkUndefinedStays | src/lib/i18n.ts:112 | once the walk reaches undefined it stays there |
| I18n.WalkAppend | src/lib/i18n.ts:111-113 | walking a concatenated path walks its two halves in turn |
| I18n.MissingSegment | src/lib/i18n.ts:111-113 | a missing segment anywhere makes the whole walk undefined |
| I18n.Split | src/lib/i18n.ts:108 | `split(".")`: at least one part, no part holds a dot, and joining the parts with "." gives the key back |
| I18n.JoinConsHead | src/lib/i18n.ts:108 | a character in front of the first part ends up in front of the joined string |
| I18n.JoinUnfold | src/lib/i18n.ts:108 | one step of joining |
| I18n.SplitJoin | src/lib/i18n.ts:108 | splitting a join of dot-free parts gives the parts back |
| I18n.SplitDotFree | src/lib/i18n.ts:108 | a dot-free key is a single segment |
| I18n.SplitPrefix | src/lib/i18n.ts:108 | a dot-free head followed by "." splits off as the first segment |
| I18n.Lookup | src/lib/i18n.ts:107-116 | the reference meaning of a lookup: the walk's value when truthy, the key otherwise |
| I18n.GetTranslation | src/lib/i18n.ts:107-116 | the segment loop returns the lookup: the value at the dotted path when truthy, the key otherwise |
| I18n.LeafTranslates | src/lib/i18n.ts:107-115 | a dotted path ending at a non-empty string translates to that string |
| I18n.MissingSegmentGivesKey | src/lib/i18n.ts:111-115 | a missing segment anywhere in the path gives the key back |
| I18n.FalsyValueGivesKey | src/lib/i18n.ts:115 | a path ending at a falsy value, such as "", gives the key back |
| I18n.LookupIsFalsyOnlyForEmptyKey | src/lib/i18n.ts:115 | in an object table, the answer is falsy iff the key is empty |
| I18n.SameShapeWalk | src/lib/i18n.ts:111-113 | two values of the same shape walked along a path through objects reach values of the same shape |
| I18n.SameShapeResolves | src/lib/i18n.ts:107-115 | in two tables of the same shape, a key whose path stays in objects resolves in one iff it resolves in the other |
| I18n.FrTable | src/lib/i18n.ts:2-52 | the French table, verbatim |
| I18n.EnTable | src/lib/i18n.ts:53-102 | the English table, verbatim |
| I18n.TextSectionsSameShape | src/lib/i18n.ts:1-102 | two sections of non-empty strings under the same names have the same shape |
| I18n.NavSameShape | src/lib/i18n.ts:3-7 | the French and English navigation sections have the same shape |
| I18n.HeroSameShape | src/lib/i18n.ts:8-22 | the French and English hero sections have the same shape |
| I18n.ServicesSameShape | src/lib/i18n.ts:23-35 | the French and English services sections have the same shape |
| I18n.FrFaqIsTextSection | src/lib/i18n.ts:36-51 | the French FAQ holds non-empty strings under its fourteen names |
| I18n.EnFaqIsTextSection | src/lib/i18n.ts:86-101 | the English FAQ holds non-empty strings under the same fourteen names |
| I18n.FaqSameShape | src/lib/i18n.ts:36-51 | the French and English FAQ sections have the same shape |
| I18n.SectionsSameShape | src/lib/i18n.ts:1-102 | tables whose four sections pairwise have the same shape have the same shape |
| I18n.TablesSameShape | src/lib/i18n.ts:1-102 | the French and English tables have the same key structure |
| I18n.HeroOfSections | src/lib/i18n.ts:8 | a table's "hero" property is its hero section |
| I18n.SplitTitleIndex | src/lib/i18n.ts:108 | "hero.title.13" splits into three segments |
| I18n.FrHeroTitleIndex | src/lib/i18n.ts:10 | the French title's character 13 is "," |
| I18n.EnHeroTitleIndex | src/lib/i18n.ts:61 | the English title has no character 13 |
| I18n.FrTableTitleIndex | src/lib/i18n.ts:10 | in the French table, the path hero, title, 13 reaches "," |
| I18n.EnTableTitleIndex | src/lib/i18n.ts:61 | in the English table, the path hero, title, 13 reaches undefined |
| I18n.FrCharacterIndex | src/lib/i18n.ts:107-116 | in French, "hero.title.13" translates to "," |
| I18n.EnCharacterIndex | src/lib/i18n.ts:107-116 | in English, "hero.title.13" gives the key back, so keys that index into strings resolve in one language only |
| Seo.BlogRoutes | src/lib/seo.ts:34-38 | one route per slug in order, with path "/blog/" + slug, weekly, priority 0.6 |
| Seo.CoreRoutes | src/lib/seo.ts:21-29 | the seven core routes with their change frequencies and priorities |
| Seo.GetSitemapRoutes | src/lib/seo.ts:33-41 | 8 + n routes: the seven core routes, the blog index, then the article routes |
| Seo.DefaultSitemapIsFixed | src/lib/seo.ts:33 | with the default argument, exactly the eight fixed routes |
| Seo.FixedPrioritiesInRange | src/lib/seo.ts:21-29 | each fixed route's priority lies in [0, 1] |
| Seo.PrioritiesInRange | src/lib/seo.ts:21-40 | every sitemap priority lies in [0, 1] |
| Seo.Paths | src/lib/seo.ts:15-16 | the routes' paths, in order |
| Seo.PathsAppend | src/lib/seo.ts:40 | paths distribute over concatenation |
| Seo.FixedRoutePaths | src/lib/seo.ts:21-31 | the fixed paths in sitemap order |
| Seo.SitemapPaths | src/lib/seo.ts:40 | the sitemap's paths are the fixed paths, then the article paths |
| Seo.FixedPathsAreDistinct | src/lib/seo.ts:21-31 | the fixed paths are distinct and none starts with "/blog/" |
| Seo.ArticlePathsDistinct | src/lib/seo.ts:34-38 | article paths are distinct iff the slugs are |
| Seo.PrefixSeparates | src/lib/seo.ts:40 | distinct unprefixed paths followed by prefixed ones are distinct iff the prefixed ones are |
| Seo.SitemapPathsDistinct | src/lib/seo.ts:33-41 | the sitemap lists every path once iff the slugs are distinct |
| Seo.ArticlePathsPrefixed | src/lib/seo.ts:35 | every article path lies under "/blog/" |
| Seo.AbsoluteUrl | src/lib/seo.ts:43-48 | kept iff it starts with "http", otherwise prefixed with the site URL; the result always starts with "http" |
| Seo.AbsoluteUrlIdempotent | src/lib/seo.ts:3 | making a URL absolute twice changes nothing more, because the site URL starts with "http" |

## Left out

- Rendering, modals, navigation, loading flags and the click-outside effect (src/components/reservation-form.tsx:192-214) are user interface and are not modelled. The effect only hides proposal lists.
- The Google Maps script loading, the directions and places services, and the polling wait for the library are foreign browser APIs or wall-clock based. Their outcomes are the inputs `Directions`, `DirectionsReply` and `PlacesReply`.
- The stale React closures of the asynchronous places callbacks are not modelled. The handlers are modelled as if the callback ran at once.
- The input refs slice of the waypoint effect is not modelled, because it only concerns the user interface.
- Firestore calls (`getDocs`, `addDoc`, `deleteDoc`, `updateDoc`, `serverTimestamp`) are not modelled. Collections are maps, query answers and write outcomes are parameters, and timestamps are natural numbers passed in.
- `Promise.all` is treated as sequential.
- A failure of an individual `deleteDoc` or of `updateDoc` is not modelled.
- A `request.json()` parse failure is not modelled; it would be one more path to the 500 reply.
- `localStorage` between the form, the vehicle page and the payment page is not modelled: records are passed as values.
- `Number.parseInt` of the passenger count and the duration is not modelled, and neither is its NaN. Pricing takes already-parsed naturals, and the records keep the form's strings.
- IEEE-754 rounding of `toFixed(2)` and `parseFloat` is not modelled. Amounts are exact integer cents, so the rounding is the identity.
- The payment forms, e-mail senders, blog fetches, `sitemap.ts` and the chat route are thin wrappers over network services and are not modelled.
- TripForm.WaypointEditor.HandleWaypointChange: requires aligned arrays and a rendered index. An index past the end would grow a JavaScript array, which the form never does.
- TripForm.WaypointEditor.SelectWaypointSuggestion: requires aligned arrays and a rendered index, for the same reason.
- I18n.GetTranslation: takes the table of the language (`FrTable` or `EnTable`) as `root` instead of the language name, so that proofs about one table need not unfold the other.
- I18n.Get: models an object's own properties, a string's `length` and its character positions. Inherited prototype members are left out, such as `toString` or `constructor` on objects and methods on strings. Numbers have no properties.
- I18n.Get: a string's positions and `length` count characters. The tables hold only characters of the Basic Multilingual Plane, where this equals JavaScript's UTF-16 counting. The form's proposal threshold, by contrast, counts UTF-16 code units (`Text.Utf16Length`).
- The key-structure property of the two tables only gives "resolves in one iff in the other" for paths through objects (`I18n.SameShapeResolves`). A key that indexes into a string, such as "hero.title.13", resolves in French and not in English (`I18n.FrCharacterIndex`, `I18n.EnCharacterIndex`), because the titles differ in length.
- Booking.ResolvedDistance: a zero-metre route gives distance 0, which the reservation document then stores as a null distance (`ReservationRecord.DistanceOrNull`).
- Booking.FinalSubmit: `handleFinalSubmit` does not re-check the customer's details; the page only enables the button when `isPersonalInfoValid` holds.
