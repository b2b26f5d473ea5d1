# fuelFinder in Dafny

fuelFinder shows fuel stations on a map. The model covers six parts:

- The station list on the web map page. Stations are kept when their lower-cased name contains the lower-cased search text. Each kept station is annotated with its distance from the user and sorted nearest first, keeping the order of ties.
- The marker colour chosen from the latest price.
- The price history expanded under the selected row.
- The page's price-confirmation success handler, which refetches and reselects the selected station. The price modal never calls this handler (see "## Left out"), so it is modelled as the page writes it.
- The search filter over the two hard-coded stations of the older map page.
- The submit guards of the add-station form and of the two trip-planner modals.

It also models the FastAPI backend's routes over four in-memory tables:

- creating stations, listing them with their prices, and adding prices;
- adding, removing and listing a user's favourites;
- the `Authorization: Bearer` login that creates users on first sight, and the two `register-user` endpoints.

Layout:

- `common.dfy`: `Option`, `Result`, and the HTTP error value.
- `seqs.dfy`: `Array.prototype.filter` as `Filter`, with its counting, subsequence and append laws.
- `sorting.dfy`: a stable sort by a real key, `SortBy`. It is proved sorted, a permutation and stable. It is also proved to be the only sequence with those properties, so any stable sort, the JavaScript engine's included, gives the same result.
- `text.dfy`: the string operations, covering lower-casing, `startsWith`, `includes` and ECMAScript `trim`.
- `ranking.dfy` (`StationRanking`): the pure part of the web map page.
- `map_page.dfy` (`MapPage`): the page's state as a class. Each handler is a method.
- `seed_map.dfy` (`SeedMap`): the older map page with its two seed stations.
- `add_station.dfy` (`AddStation`): the add-station modal as a class. An effect trace records the alert, the requests, the callbacks and the logged errors.
- `trip_planning.dfy`, `trip_planner_mobile.dfy`, `trip_planner_web.dfy`: the shared trip-planner guard and the two modals.
- `db.dfy` (`Db`): the tables and their serial counters, with a consistency invariant `Valid`.
- `listing.dfy` (`Listing`): the per-station summary that the stations and favourites queries compute.
- `station_routes.dfy`, `favorite_routes.dfy`, `auth_routes.dfy`, `legacy_auth.dfy`: the route handlers.

Inputs the program gets from outside are parameters of the model:

- The distance function is a function parameter `dist(lat1, lon1, lat2, lon2)`.
- Token verification is a function from token to claims or to an error message.
- The outcome of each network request is an input, for example `CreateOutcome` or `FetchOutcome`.
- A database failure is an input only for the routes that catch it: `insertFails` for `AddFavorite`, `deleteFails` for `RemoveFavorite`, `queryError` for `ListFavorites`, and the failure arguments of the two `RegisterUser` methods.
- The current time is an integer argument.

## Model

| member | source | states |
|---|---|---|
| Seqs.Filter | fuelFinder/web/src/app/map/page.tsx:128-131 | the result is no longer than the input and every kept element satisfies the predicate |
| Seqs.FilterIsSubsequence | fuelFinder/web/src/app/map/page.tsx:128-131 | filtering keeps the surviving elements in their original order |
| Seqs.FilterCount | fuelFinder/web/src/app/map/page.tsx:128-131 | an element occurs in the result as often as in the input when it satisfies the predicate, and not at all otherwise |
| Sorting.SortBy | fuelFinder/web/src/app/map/page.tsx:141 | sorting keeps the length and is a permutation of the input |
| Sorting.SortBySorted | fuelFinder/web/src/app/map/page.tsx:141 | the result is in non-decreasing key order |
| Sorting.SortByStable | fuelFinder/web/src/app/map/page.tsx:141 | for every key value, the elements with that key appear in the same relative order as in the input |
| Sorting.SortByCharacterized | fuelFinder/web/src/app/map/page.tsx:141 | any sequence that is sorted and keeps each key's elements in input order equals the result of the sort |
| Text.IncludesIff | fuelFinder/web/src/app/map/page.tsx:130 | `includes` holds exactly when the text occurs at some position of the string |
| Text.TrimEmptyIff | fuelFinder/fuelfinder-frontend/components/map/TripPlannerModal.tsx:28 | `trim` yields the empty string exactly when every character is whitespace or a line terminator |
| StationRanking.StationList | fuelFinder/web/src/app/map/page.tsx:127-141 | the station list: filter by name, annotate with distance, sort by distance; it never has more rows than there are stations |
| StationRanking.Annotate | fuelFinder/web/src/app/map/page.tsx:132-140 | each station, in order, is paired with its distance from the user's location |
| StationRanking.StationListElements | fuelFinder/web/src/app/map/page.tsx:127-141 | every listed row is a station from the input whose name matches the search, carrying its distance from the user |
| StationRanking.StationListCount | fuelFinder/web/src/app/map/page.tsx:127-141 | a matching station is listed as often as it occurs in the input, and a non-matching one is not listed |
| StationRanking.StationListSorted | fuelFinder/web/src/app/map/page.tsx:141 | listed rows are in non-decreasing distance order |
| StationRanking.StationListStable | fuelFinder/web/src/app/map/page.tsx:141 | rows at equal distance appear in the order the backend returned them |
| StationRanking.StationListUnique | fuelFinder/web/src/app/map/page.tsx:127-141 | any distance-sorted, tie-stable arrangement of the filtered, annotated stations is the station list |
| StationRanking.StationListEmptySearch | fuelFinder/web/src/app/map/page.tsx:130 | the empty search text keeps every station, so the list is the sorted annotation of all stations |
| StationRanking.StationListEmptyInput | fuelFinder/web/src/app/map/page.tsx:127-141 | no stations give an empty list |
| StationRanking.StationListExample | fuelFinder/web/src/app/map/page.tsx:141 | stations at 500 m, 100 m and 300 m are listed as 100 m, 300 m, 500 m |
| StationRanking.StationIcon | fuelFinder/web/src/app/map/page.tsx:84-91 | the marker colour is grey exactly when the station has no latest price |
| StationRanking.IconUrl | fuelFinder/web/src/app/map/page.tsx:93-95 | the marker image is a Google Maps icon URL ending in "-dot.png" |
| StationRanking.IconUrlShowsBand | fuelFinder/web/src/app/map/page.tsx:84-95 | two prices get the same marker image exactly when they fall in the same colour band |
| StationRanking.StationIconBands | fuelFinder/web/src/app/map/page.tsx:82-91 | the marker is grey exactly without a price, green exactly below 3.5, yellow exactly from 3.5 to below 4.0, and red exactly from 4.0 |
| StationRanking.StationIconMonotone | fuelFinder/web/src/app/map/page.tsx:84-91 | a higher price never gets a less severe colour |
| StationRanking.ExpandedHistory | fuelFinder/web/src/app/map/page.tsx:268-295 | history rows are shown exactly for the selected station when it has prices; they are the first min(5, n) price entries, in order |
| StationRanking.FindById | fuelFinder/web/src/app/map/page.tsx:336 | `find` gives nothing exactly when no station has the id; otherwise it gives a station of the list with that id, the first one |
| StationRanking.Reselect | fuelFinder/web/src/app/map/page.tsx:331-337 | without a selection nothing is selected; the first refreshed station with the selected id replaces the selection; otherwise the old selection stays |
| MapPage.MapPageState.constructor | fuelFinder/web/src/app/map/page.tsx:57-65 | the page starts with no stations, no selection, an empty search and all three modals closed |
| MapPage.MapPageState.ShownStations | fuelFinder/web/src/app/map/page.tsx:127-141 | the list shown for the page's stations and search text: each row a stored station that matches the search, with its distance, in non-decreasing distance order |
| MapPage.MapPageState.FetchStations | fuelFinder/web/src/app/map/page.tsx:68-80 | a successful fetch replaces the stations and returns them; a failed one keeps the stations and returns an empty list |
| MapPage.MapPageState.SetSearchText | fuelFinder/web/src/app/map/page.tsx:262 | the search text becomes the typed value and nothing else changes |
| MapPage.MapPageState.SelectStation | fuelFinder/web/src/app/map/page.tsx:143-153 | the clicked station becomes the selection and nothing else changes |
| MapPage.MapPageState.CloseInfoWindow | fuelFinder/web/src/app/map/page.tsx:193 | closing the info window clears the selection |
| MapPage.MapPageState.ToggleAddStation | fuelFinder/web/src/app/map/page.tsx:242 | the add-station button flips the modal's visibility |
| MapPage.MapPageState.OpenConfirm | fuelFinder/web/src/app/map/page.tsx:220 | the confirm button opens the price modal |
| MapPage.MapPageState.CloseConfirm | fuelFinder/web/src/app/map/page.tsx:327 | the price modal's close callback closes it |
| MapPage.MapPageState.CancelAddStation | fuelFinder/web/src/app/map/page.tsx:317 | the add-station modal's cancel callback closes it |
| MapPage.MapPageState.OpenTripPlanner | fuelFinder/web/src/app/map/page.tsx:248 | the "Plan Trip" button opens the trip modal |
| MapPage.MapPageState.CloseTripPlanner | fuelFinder/web/src/app/map/page.tsx:343 | the trip modal's close callback closes it |
| MapPage.MapPageState.OnStationAdded | fuelFinder/web/src/app/map/page.tsx:318-321 | after a station is added the stations are refetched and the add-station modal is closed |
| MapPage.MapPageState.OnPriceConfirmed | fuelFinder/web/src/app/map/page.tsx:328-338 | the success handler as written: the price modal closes; with a selection the stations are refetched and the selection is replaced by its refreshed copy when one exists |
| SeedMap.FilteredStations | frontend-nextjs/fuelfinder/src/app/map/page.tsx:89-91 | the older page's filter: at most the two seed stations, each matching the search text |
| SeedMap.FilteredStationsMatch | frontend-nextjs/fuelfinder/src/app/map/page.tsx:89-91 | every filtered seed station matches the search, and the result keeps the seed order |
| SeedMap.FilteredStationsCaseInsensitive | frontend-nextjs/fuelfinder/src/app/map/page.tsx:89-91 | two search texts that lower-case alike give the same result |
| SeedMap.FilteredStationsEmptySearch | frontend-nextjs/fuelfinder/src/app/map/page.tsx:22-37 | the empty search returns both seed stations |
| SeedMap.FilteredStationsExxon | frontend-nextjs/fuelfinder/src/app/map/page.tsx:22-37 | a search lower-casing to "exxon" returns exactly the Exxon Mobil entry, id 2 |
| AddStation.WhitespaceFieldsPassGuard | fuelFinder/web/components/Modals/AddStationModal.tsx:26-31 | any non-empty field, blanks included, passes the guard, because the guard compares with "" and does not trim |
| AddStation.AddStationModal.constructor | fuelFinder/web/components/Modals/AddStationModal.tsx:16-21 | the form starts with four empty fields |
| AddStation.AddStationModal.Edit | fuelFinder/web/components/Modals/AddStationModal.tsx:91-146 | typing into one field replaces that field only |
| AddStation.AddStationModal.Submit | fuelFinder/web/components/Modals/AddStationModal.tsx:23-70 | a blank field only alerts; otherwise the station is posted first and a failure logs and stops; the price is posted to the returned id; only when both succeed is the parent notified and the form cleared |
| TripPlanning.CanSubmitIff | fuelFinder/fuelfinder-frontend/components/map/TripPlannerModal.tsx:28 | a trip is submitted exactly when each field has a character that is not whitespace |
| MobileTripPlanner.TripPlannerModal.constructor | fuelFinder/fuelfinder-frontend/components/map/TripPlannerModal.tsx:24-25 | both fields start empty and no callback has been made |
| MobileTripPlanner.TripPlannerModal.SetStart | fuelFinder/fuelfinder-frontend/components/map/TripPlannerModal.tsx:50 | the start field becomes the typed text |
| MobileTripPlanner.TripPlannerModal.SetDestination | fuelFinder/fuelfinder-frontend/components/map/TripPlannerModal.tsx:58 | the destination field becomes the typed text |
| MobileTripPlanner.TripPlannerModal.HandleSubmit | fuelFinder/fuelfinder-frontend/components/map/TripPlannerModal.tsx:27-34 | a blank field changes nothing; otherwise the untrimmed fields go to the plan callback, then both fields are cleared and the close callback is made |
| WebTripPlanner.TripPlannerModal.constructor | frontend-nextjs/fuelfinder/components/TripPlannerModal.tsx:17-18 | both fields start empty and no callback has been made |
| WebTripPlanner.TripPlannerModal.SetStart | frontend-nextjs/fuelfinder/components/TripPlannerModal.tsx:41 | the start field becomes the typed text |
| WebTripPlanner.TripPlannerModal.SetDestination | frontend-nextjs/fuelfinder/components/TripPlannerModal.tsx:48 | the destination field becomes the typed text |
| WebTripPlanner.TripPlannerModal.HandleSubmit | frontend-nextjs/fuelfinder/components/TripPlannerModal.tsx:20-27 | a blank field changes nothing; otherwise the untrimmed fields go to the plan callback, then both fields are cleared and the close callback is made |
| Db.FindUser | fuelFinder/backend/app/routes/auth.py:82-86 | the lookup finds nothing exactly when no user has the uid; otherwise it gives the position of a user with that uid |
| Listing.Items | fuelFinder/backend/app/routes/favorites.py:143 | each history row becomes a price item with the same price and time, in order |
| Listing.Summarize | fuelFinder/backend/app/routes/stations.py:70-104 | one listing row keeps the station's id, name and coordinates; the latest price, its time and the history are all absent or all present together |
| Listing.StationListing | fuelFinder/backend/app/routes/stations.py:105-106 | the listing has one row per given station |
| Listing.HistoryProperties | fuelFinder/backend/app/routes/stations.py:91-104 | a station's history holds exactly its price rows, each as often as in the table, newest first |
| Listing.SummarizeWithoutPrices | fuelFinder/backend/app/routes/stations.py:76-104 | a station without prices has no latest price, no time and an empty history |
| Listing.SummarizeLatest | fuelFinder/backend/app/routes/stations.py:76-89 | a station with prices reports the price and time of one of its rows, no row of it is newer, and the history starts with that row |
| Listing.StationListingRows | fuelFinder/backend/app/routes/stations.py:113-126 | each listing row carries its station's id, name and coordinates and that station's summary |
| StationRoutes.CreateStation | fuelFinder/backend/app/routes/stations.py:44-60 | one row with a fresh id is appended and returned, and the tables stay consistent |
| StationRoutes.ListStations | fuelFinder/backend/app/routes/stations.py:64-127 | the result is the listing of every station row, in table order |
| StationRoutes.ListingOrderedById | fuelFinder/backend/app/routes/stations.py:105-106 | in a consistent database the listing has one row per station, in strictly ascending id order |
| StationRoutes.AddPrice | fuelFinder/backend/app/routes/stations.py:131-159 | an unknown station is a 404 and inserts nothing; otherwise one price row stamped with the current time is appended and returned |
| FavoriteRoutes.AddFavorite | fuelFinder/backend/app/routes/favorites.py:13-37 | a failed insert is a 500 and changes nothing; otherwise the pair is in the table afterwards, an existing pair is kept once, and the answer is ok |
| FavoriteRoutes.RemoveFavorite | fuelFinder/backend/app/routes/favorites.py:40-72 | a failed delete is a 500; a missing pair is a 404; either way nothing changes; otherwise exactly that pair is removed |
| FavoriteRoutes.FavoriteStations | fuelFinder/backend/app/routes/favorites.py:117-121 | the join keeps only stations the user marked, never more than the stations table holds |
| FavoriteRoutes.ListFavorites | fuelFinder/backend/app/routes/favorites.py:75-147 | a failed query is a 500 carrying the database's message; otherwise the result is the listing of the user's favourite stations |
| FavoriteRoutes.FavoriteListingContents | fuelFinder/backend/app/routes/favorites.py:117-121 | the favourite stations are exactly the user's marked stations, each once, in ascending id order |
| AuthRoutes.AfterFirstSpace | fuelFinder/backend/app/routes/auth.py:71 | `split(" ", 1)[1]` succeeds exactly when there is a space and gives the text after the first space; without a space the index fails as a 500 |
| AuthRoutes.ParseBearer | fuelFinder/backend/app/routes/auth.py:69-71 | a header not starting with "Bearer " is a 401; otherwise the token is the whole rest of the header |
| AuthRoutes.ParseBearerKeepsSpaces | fuelFinder/backend/app/routes/auth.py:71 | only the first space splits the header, so "Bearer a b" carries the token "a b" |
| AuthRoutes.GetCurrentUserId | fuelFinder/backend/app/routes/auth.py:62-105 | a bad header or token is a 401 and changes no table; a known uid gives its id and updates only its last login; an unknown uid inserts one user and gives the new id |
| AuthRoutes.FindOrCreateUser | fuelFinder/backend/app/routes/auth.py:36-51 | a known uid gives the user's id, with the last login updated when asked; an unknown uid appends one user with the token's email, or "" |
| AuthRoutes.LoginTwice | fuelFinder/backend/app/routes/auth.py:69-100 | two logins with one header, each verified at its own instant: each succeeds exactly when its verification does; when both succeed for the same uid they give the same id and add at most one user |
| AuthRoutes.RegisterUser | fuelFinder/backend/app/routes/auth.py:18-59 | a missing or empty token is a 400; a failed verification or database error is a 401 and changes nothing; otherwise a known user gets a new last login, an unknown one is inserted, and the answer is the fixed message |
| LegacyAuthRoutes.RegisterUser | fuelFinder/fuelfinder-backend/app/routes/auth.py:8-40 | as the main backend's registration, except that an existing user is left untouched |
| LegacyAuthRoutes.RegisterTwice | fuelFinder/fuelfinder-backend/app/routes/auth.py:13-40 | two registrations, each with its own verification and database outcome: each succeeds exactly when the token is non-empty and its own verification and database access succeed; after a first success, a second that fails or names the same uid leaves the table the first produced (the old one, plus one new user when the uid was unknown), so at most one user is added; the consistency invariant `Valid` holds afterwards |

## Left out

- Haversine distance: the trigonometry and floating point are not modelled. The distance is a parameter, so zero distance, symmetry and the 510–520 m reference value are not stated.
- NaN coordinates and distances are not modelled. Distances are real numbers, so the placement of NaN in the JavaScript sort does not arise.
- Display formatting is not modelled: miles (`/ 1609.34`), `toFixed(2)`, `toLocaleString`.
- Google Maps is not modelled: markers, the info window layout, the map's `panTo` and delayed `setZoom` in the station-select handler, and the loading states.
- The geolocation lookup and its fallback coordinate are not modelled. The user's location is an input.
- Text.LowerChar: lower-cases ASCII letters only, while `toLowerCase` also maps other Unicode letters.
- `parseFloat` of the latitude, longitude and price fields is not modelled. The effect records the raw strings that would be parsed.
- Listing.History: rows with equal `recorded_at` keep insertion order here. SQL leaves their order open. The latest price and its time are taken from the same row, while the source uses two separate `LIMIT 1` subqueries.
- StationRoutes.AddPrice: the insert sets no `recorded_at`. The model's `recordedAt == now` assumes that `prices.recorded_at` defaults to the insert time; the table definitions are not part of this model.
- Database connections, cursors, commits and rollbacks are not modelled. In the routes with a failure input, a failing statement writes nothing.
- StationRoutes.CreateStation, StationRoutes.ListStations, StationRoutes.AddPrice: a database error in these routes is not modelled. In the source no handler catches it, so it surfaces as an uncaught exception, an HTTP 500.
- Requests are modelled one at a time. Concurrent requests are not modelled, so the uid uniqueness kept by `Db.Database.Valid` assumes no interleaving. Two concurrent first logins for the same uid could both miss the lookup and both insert a user.
- FavoriteRoutes.AddFavorite, FavoriteRoutes.RemoveFavorite, FavoriteRoutes.ListFavorites take the user id as an argument. The `Depends(get_current_user_id)` step that resolves it, and that bumps `last_login` or inserts a user, is `AuthRoutes.GetCurrentUserId`, and the model does not compose the two.
- AuthRoutes.GetCurrentUserId: a database failure inside it is not modelled. A token without a `uid` claim counts as a failed verification.
- AuthRoutes.RegisterUser, LegacyAuthRoutes.RegisterUser, AuthRoutes.GetCurrentUserId: malformed requests are not modelled. Both `register-user` handlers read the JSON body and call `body.get("token")` before their `try` (fuelFinder/backend/app/routes/auth.py:19-20, fuelFinder/fuelfinder-backend/app/routes/auth.py:10-11). So a missing body, a body that is not JSON, or a JSON value that is not an object raises an uncaught exception, an HTTP 500, not the 400 the model gives. The model's `token` is an `Option<string>`, and only its absence and "" count as missing; a `token` that is not a string is not modelled either. The `Authorization` header is required (fuelFinder/backend/app/routes/auth.py:63), so FastAPI answers 422 when it is absent. `GetCurrentUserId` takes the header as a string and does not express that case.
- The users table's default for `last_login` on insert is not part of this model (the table definitions are not part of it). An inserted user starts with no last login.
- The unique (user, station) constraint on favourites is modelled by keeping favourites as a set.
- The older page's view state is not modelled, only its filter. Left out: `handleConfirmPrice` (frontend-nextjs/fuelfinder/src/app/map/page.tsx:75-78), which selects the station and opens the confirm modal; the save handler, which only alerts; the price submit handler, which only logs and closes the modal; and the trip modal's flag.
- The price-confirmation modal, plan-route page, account page and the other screens are not part of this model.
- The web page passes `stationID` and `onSuccess` to the price modal (fuelFinder/web/src/app/map/page.tsx:324-339), which does not declare them. That modal calls only `onSubmit(price)` (fuelFinder/web/components/Modals/ConfirmPriceModal.tsx:11, 23), and the page never passes `onSubmit`. So submitting a price raises a TypeError in the browser, and the page's `onSuccess` is never called. MapPage.MapPageState.OnPriceConfirmed and StationRanking.Reselect model that handler as written, not a path the program reaches. The price modal itself is not part of this model.
- MapPage.FetchOutcome: `fetchStations` never checks `res.ok`, so a non-OK response with a JSON body is stored as the stations. The model covers such a body when it decodes as a station array (`Fetched`). A body that is JSON but not an array, such as an error object, cannot be expressed and is not modelled.
- MapPage.MapPageState.OnStationAdded: the refetch is not awaited in the source. The model applies its outcome before closing the modal, so interleaving with other events is not captured.
- `stations.py` defines `PriceOut` twice. The second definition types `add_price`'s answer and is `StationRoutes.PriceCreated` here. The history item of the listings is `Listing.PriceHistoryItem`.
- The web page's trip-planner callback only logs, and it is not modelled.
