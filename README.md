# Disaster-relief operations console: verified model of its decision logic

This Dafny project models the parts of the disaster-relief console's server and client that make decisions. The rest of the repository is SQL CRUD and React screens.

- **Recommendation ranker** (`GET /demand-requests/:id/recommendations`, module `Recommendations`). For a demand request, it keeps resources of exactly the requested type that sit in an existing storage location. It labels each one Ready, Partial or Unavailable, fans the rows out over the disaster's location rows, and orders them by label text, then distance (missing last), then quantity (largest first).
- **Demand-request table** (module `DemandRequests`). It covers create, the status update, which accepts any status from any status, and delete. It also covers the list query with its `allocated_quantity` aggregate.
- **Inventory rules** (module `Resources`):
  - create, partial update (PATCH) and replenish on the `resources` table;
  - the PATCH route's parameterised `SET` clause. The model builds the same text and proves that the database, reading it back and binding the parameters, writes exactly the fields the body names;
  - the low-stock listing with its `last_alerted_at` fallback.
- **Authentication and authorisation** (module `AuthMiddleware`): the bearer-header check and the role check of the Express middlewares, with their 401 and 403 outcomes.
- **Client session** (module `AuthContext`): `isAuthorized` and the `login`/`logout`/token-effect state changes of the React `AuthProvider`. The browser's `localStorage` is a map.
- **Password digests** (module `Password`): the `iterations:salt:hash` text `hashPassword` writes and the defensive parse in `verifyPassword`. This includes Node's hex encoding, its hex decoding (which reads the low byte of each UTF-16 code unit of the text), and the range error `pbkdf2Sync` raises for a bad iteration count.

Support modules:
- `JsText`: JavaScript's `trim`, `split`, `parseInt` and decimal rendering.
- `Ordering`: code-point text order and a stable insertion sort standing in for `ORDER BY`.
- `Http`: JSON bodies, the Joi rules used and the HTTP failures.
- `Wrappers`: `Option` and `Result`.

Which parts are classes and which are functions follows the source:
- Routes that change a table are methods of a class holding the table as a `map` from id to row. Each method's contract states the whole new table and keeps the class invariant (for resources, stock is never negative).
- Queries are functions over the tables' rows in scan order. Lemmas about these functions state what the queries promise.
- Database functions and views whose bodies are not part of this model are parameters:
  - `geo_distance_km` is `geo`;
  - `low_stock_view` is `view`;
  - `jwt.verify` is `verify`;
  - PBKDF2 is a key stream;
  - `randomBytes` is the salt passed in;
  - `NOW()` is `now`.

Behaviour of the code that a reader might not expect, and that the model keeps:
- `ORDER BY fulfillment_status` sorts the label text, not a rank, so Partial rows come before Ready rows. `Recommendations.WaterExample` proves that a request for 50 units with A (60 units, 5 km), B (20 units, 2 km) and C (none, 1 km) ranks B (Partial) first, then A (Ready), then C (Unavailable); A, the only resource that covers the request, is not first.
- The status update accepts any status from any status.
- `allocated_quantity` sums allocations of every status, cancelled ones included.

## Model

| member | source | states |
|---|---|---|
| JsText.TrimStart | server/src/middlewares/auth.js:16 | the result is a suffix of the input that does not start with white space |
| JsText.TrimEnd | server/src/middlewares/auth.js:16 | the result is a prefix of the input that does not end with white space |
| JsText.TrimStartCutsBlank | server/src/middlewares/auth.js:16 | what `trimStart` cuts from the front is all white space |
| JsText.TrimEndCutsBlank | server/src/middlewares/auth.js:16 | what `trimEnd` cuts from the end is all white space |
| JsText.TrimSpec | server/src/middlewares/auth.js:16 | `trim()` yields the infix of the input that neither starts nor ends with white space, with only white space cut on either side; it is empty exactly when the input is all white space |
| JsText.TrimIsInfix | server/src/middlewares/auth.js:16 | trimming the front and then the end cuts white space only, leaving an infix of the input |
| JsText.Split | server/src/utils/password.js:18 | `split(':')` always yields at least one piece |
| JsText.SplitPieces | server/src/utils/password.js:18 | the text splits into more than one piece exactly when it holds the separator, and no piece holds the separator |
| JsText.SplitWithout | server/src/utils/password.js:18 | text without the separator splits into itself alone |
| JsText.SplitAround | server/src/utils/password.js:18 | splitting text that holds a separator splits what stands on each side independently |
| JsText.SplitJoin | server/src/utils/password.js:10-18 | splitting pieces joined by `:` gives the pieces back when none holds a `:` |
| JsText.Decimal | server/src/utils/password.js:10 | a template-string integer is non-empty decimal digits without a leading zero |
| JsText.DigitPrefix | server/src/utils/password.js:19 | `parseInt` reads the longest run of digits and stops at the first non-digit |
| JsText.DigitsValueOfDecimal | server/src/utils/password.js:10-19 | the digits of `${n}` are worth n |
| JsText.DigitPrefixOfDigits | server/src/utils/password.js:19 | `parseInt` stops exactly at the end of a digit run followed by a non-digit |
| JsText.ParseIntOfDigitStart | server/src/utils/password.js:19 | text starting with a digit is read as its leading digit run, with nothing skipped and no sign |
| JsText.ParseIntOfDecimal | server/src/utils/password.js:10-19 | `parseInt` reads back `${n}` followed by any non-digit text |
| Ordering.TextLessIrreflexive | server/src/routes/demandRequests.js:111 | no text sorts strictly before itself |
| Ordering.TextLessTransitive | server/src/routes/demandRequests.js:111 | text order chains |
| Ordering.TextLessTrichotomy | server/src/routes/demandRequests.js:111 | two different texts are ordered exactly one way |
| Ordering.TextAtMostIsTotalPreorder | server/src/routes/resources.js:42 | `ORDER BY` on a text column is a total preorder |
| Ordering.InsertPermutes | server/src/routes/demandRequests.js:111 | inserting adds exactly the one element |
| Ordering.InsertSorted | server/src/routes/demandRequests.js:111 | inserting into an ordered sequence keeps it ordered |
| Ordering.SortByPermutes | server/src/routes/demandRequests.js:111 | sorting is a permutation: nothing added, dropped or duplicated |
| Ordering.SortBySorted | server/src/routes/demandRequests.js:111 | sorting by a total preorder yields an ordered sequence |
| Ordering.SortByMembers | server/src/routes/demandRequests.js:111 | an element is in the sorted output exactly when it is in the input |
| Ordering.PermutationKeepsDistinct | server/src/routes/demandRequests.js:28 | reordering rows, as `ORDER BY` does, keeps their keys distinct |
| Http.Failure.Status | server/src/middlewares/validate.js:4-8 | every failure other than a thrown library error carries a 4xx status |
| Http.Lookup | server/src/middlewares/validate.js:10 | a field is present exactly when the body has that key, and it is the value stored under it |
| AuthMiddleware.Authenticate | server/src/middlewares/auth.js:9-25 | 401 "Authentication required" exactly when the header is missing or its scheme is not "bearer " in any case; 401 "Invalid or expired session token" exactly when the trimmed token fails verification; otherwise the verified claims |
| AuthMiddleware.TokenOf | server/src/middlewares/auth.js:16 | the token is the infix of the text after the 7-character scheme left by cutting white space at both ends; it neither starts nor ends with white space, and it is empty exactly when that text is all white space |
| AuthMiddleware.Authorize | server/src/middlewares/auth.js:27-42 | passes exactly when no roles are required, or when the user's role is present, non-empty and listed; otherwise 403 "Insufficient privileges" |
| AuthMiddleware.SchemeIgnoresCase | server/src/middlewares/auth.js:12 | headers differing only in the case of the scheme authenticate alike |
| AuthMiddleware.BearerHeaderCarriesToken | server/src/middlewares/auth.js:12-24 | the client's `Bearer <token>` header hands the token itself to verification |
| AuthMiddleware.AuthorizeMonotone | server/src/middlewares/auth.js:33-41 | listing more roles never turns a pass into a refusal |
| AuthMiddleware.EmptyRoleRefused | server/src/middlewares/auth.js:35 | an empty-string role is refused even when listed |
| Password.Pbkdf2Prefix | server/src/utils/password.js:26-28 | keys derived from the same password, salt, iterations and digest agree: a shorter key is the prefix of a longer one |
| Password.HexDigit | server/src/utils/password.js:9 | hex output uses lower-case digits |
| Password.HexValue | server/src/utils/password.js:25 | a hex digit is worth less than 16 |
| Password.Hex | server/src/utils/password.js:8-9 | `toString('hex')` writes two lower-case hex digits per byte |
| Password.HexDecodeUnits | server/src/utils/password.js:25 | `Buffer.from(_, 'hex')` reads at most one byte per two UTF-16 code units |
| Password.HexDecode | server/src/utils/password.js:25 | a string decodes through its UTF-16 code units, to at most one byte per two of them |
| Password.HexDecodeReadsLowByte | server/src/utils/password.js:25 | a character above U+00FF counts by its low byte: "\U{0130}\U{0130}" decodes to the single byte 0 |
| Password.HexRoundTrip | server/src/utils/password.js:25-29 | decoding the hex of bytes gives the bytes back |
| Password.HashPassword | server/src/utils/password.js:7-11 | the digest has 168 characters, with `:` exactly at positions 6 and 39 |
| Password.FieldsOf | server/src/utils/password.js:18 | a salt field exists exactly when the digest holds a `:`; neither the salt nor the hash field holds a `:`, and a hash field comes only with a salt field |
| Password.DefaultIterationsText | server/src/utils/password.js:3-10 | the iteration field is written "100000" |
| Password.DigestFields | server/src/utils/password.js:7-11 | the digest is three `:`-free fields joined by `:` |
| Password.HashPasswordFormat | server/src/utils/password.js:3-10 | the digest splits into "100000", 32 hex digits that decode to the salt, and 128 hex digits that decode to the 64-byte key |
| Password.FieldsOfHashPassword | server/src/utils/password.js:18-19 | parsing a digest recovers 100000 iterations, the salt text and the hash text |
| Password.VerifyFields | server/src/utils/password.js:21-35 | false for NaN or zero iterations or an empty salt or hash; a thrown range error exactly for iterations outside 1..2^31-1; otherwise true exactly when the decoded hash equals the key derived from the attempt |
| Password.VerifyPassword | server/src/utils/password.js:13-16 | false for a missing or empty digest |
| Password.VerifyPasswordStrict | server/src/utils/password.js:25-35 | corrected version: accepts only a non-empty stored hash equal to the key derived from the attempt |
| Password.SampleDigestFields | server/src/utils/password.js:18-23 | "1:s:zz" parses to 1 iteration, salt "s", hash "zz" and passes the guards |
| Password.NonHexHashAcceptsAnyPassword | server/src/utils/password.js:25-35 | as written, every password verifies against "1:s:zz"; the corrected version refuses it |
| Password.VerifyWellFormedFields | server/src/utils/password.js:25-35 | for fields shaped like `hashPassword`'s, the result is whether the attempt's key equals the stored one |
| Password.VerifyHashPassword | server/src/utils/password.js:7-35 | a password verifies against its own digest; an attempt verifies exactly when its key equals the password's; both versions agree on such digests |
| Password.TrailingFieldsIgnored | server/src/utils/password.js:18 | text after the third field does not change the verdict |
| AuthContext.IsAuthorized | client/src/context/AuthContext.jsx:97-102 | with no roles, whether a user is set; otherwise whether the user's role, or '' when there is none, is listed |
| AuthContext.ClientAgreesWithServer | client/src/context/AuthContext.jsx:101 | the client agrees with `authorize` on non-empty roles and parts with it on a listed empty role |
| AuthContext.AuthProvider.constructor | client/src/context/AuthContext.jsx:17-21 | the token is read from storage; no user yet; loading |
| AuthContext.AuthProvider.Login | client/src/context/AuthContext.jsx:65-70 | on success the token and user come from the response and the user is returned; a rejected request changes nothing |
| AuthContext.AuthProvider.Logout | client/src/context/AuthContext.jsx:72-88 | token and user cleared and the stored token removed, also on the forced-logout event |
| AuthContext.AuthProvider.OnTokenChange | client/src/context/AuthContext.jsx:23-63 | without a token, the stored key is removed, the user cleared and loading ends; with one, it is stored and the `/auth/me` user kept, or on failure the session is dropped; storage matches the token afterwards |
| AuthContext.SignInFlow | client/src/context/AuthContext.jsx:23-70 | a login followed by the token effect leaves the session signed in with the token stored |
| Resources.StatusNamed | server/src/routes/resources.js:50 | a status text is accepted exactly when it is one of the three, and it names that status |
| Resources.LocationField | server/src/routes/resources.js:51 | a storage location is accepted exactly when absent, null or an integer; absent or null store no location, and a number stores that number |
| Resources.ValidateCreate | server/src/routes/resources.js:47-52 | 422 unless the type has 1-50 characters, the quantity is an integer of at least 0, the status is one of three and the location is null or an integer; status defaults to Available; the row carries the body's type, quantity, status and location (none when absent or null) |
| Resources.KnownFields | server/src/middlewares/validate.js:3 | unknown keys are stripped: the result is the body's entries at the ascending positions of its known keys, so body order is kept, every known entry appears and distinct keys stay distinct |
| Resources.KnownPositions | server/src/middlewares/validate.js:3 | the positions of the known keys, strictly ascending, all of them from the start position on |
| Resources.KnownFieldsFrom | server/src/middlewares/validate.js:3 | the kept entries are the body's entries at those positions, in order |
| Resources.ValidatePatch | server/src/routes/resources.js:65-69 | 422 exactly when no known key remains or a known key has an invalid value; otherwise the stripped body |
| Resources.ValidateReplenish | server/src/routes/resources.js:96-98 | 422 unless the quantity is an integer of at least 1; otherwise that quantity |
| Resources.Assignments | server/src/routes/resources.js:76-77 | one assignment per field |
| Resources.Keys | server/src/routes/resources.js:73 | the field names in body order |
| Resources.Values | server/src/routes/resources.js:74 | the values in body order |
| Resources.PatchQuery | server/src/routes/resources.js:73-85 | the parameters are the n values in body order followed by the id; the id placeholder is n+1 and binds the id; for known columns the SET clause reads back as the keys in body order, the i-th at `$(i+1)` |
| Resources.SetClause | server/src/routes/resources.js:76-78 | for one or more identifier columns, the clause reads back as those columns in order, the i-th at `$(i+1)` |
| Resources.ParseAssignments | server/src/routes/resources.js:81 | a clause that parses holds at least one assignment, each to an identifier |
| Resources.ColumnKeysAreIdentifiers | server/src/routes/resources.js:73-77 | the known column names are plain identifiers |
| Resources.Numbered | server/src/routes/resources.js:77 | the i-th field is bound to placeholder `$(i+1)` |
| Resources.IdentPrefixOf | server/src/routes/resources.js:77 | a column name is read back up to the space after it |
| Resources.ParseOneAssignment | server/src/routes/resources.js:77 | one `column = $n` reads back as the column and n |
| Resources.ParseSetClause | server/src/routes/resources.js:76-78 | the built clause reads back as the fields in order, the i-th at placeholder `$(i+1)` |
| Resources.RunNumbered | server/src/routes/resources.js:80-84 | binding placeholders to the parameter list assigns each field its own value |
| Resources.SetColumn | server/src/routes/resources.js:81 | an assignment never changes the row's id, type or `updated_at`; a valid value for a known column is always written, sets that column and leaves every other column as it was |
| Resources.RunAssignments | server/src/routes/resources.js:80-84 | running the bound assignments never changes the row's id, type or `updated_at` |
| Resources.ApplyFields | server/src/routes/resources.js:81 | applying fields never changes the row's id, type or `updated_at` |
| Resources.ApplyFieldsSpec | server/src/routes/resources.js:81 | a valid update changes exactly the named columns to the given values and nothing else |
| Resources.PatchKeepsStockNonNegative | server/src/routes/resources.js:66 | an update that passes validation never makes the stock negative |
| Resources.ValidFieldsOfPatch | server/src/routes/resources.js:65-69 | validated fields are distinct known columns with valid values |
| Resources.PatchStatementApplies | server/src/routes/resources.js:73-85 | the statement's clause parses, its last parameter is the id, and running it equals assigning the fields directly |
| Resources.PatchStatementWrites | server/src/routes/resources.js:71-94 | the statement writes the same row with the named fields updated and non-negative stock |
| Resources.ResourceTable.Create | server/src/routes/resources.js:54-63 | 422 and no change on invalid input; otherwise the validated row under a fresh id |
| Resources.ResourceTable.Patch | server/src/routes/resources.js:71-94 | 422 or 404 "Resource not found" change nothing; otherwise only that row changes, to the body's fields plus `updated_at`; stock stays non-negative |
| Resources.ResourceTable.Replenish | server/src/routes/resources.js:100-118 | 422 or 404 change nothing; otherwise the stock grows by exactly the quantity and the status becomes Available whatever it was |
| Resources.LatestAlert | server/src/routes/resources.js:34-40 | none when the resource has no alert; a NULL time when any alert lacks one (NULLs first when descending); otherwise the latest time |
| Resources.LastAlertedAt | server/src/routes/resources.js:30-40 | `updated_at` when the resource has no alert or any of its alerts has a NULL time; otherwise the latest alert time, one of the alerts' times and at least every other |
| Resources.TypeNotAfterIsTotalPreorder | server/src/routes/resources.js:42 | ordering by resource type is a total preorder |
| Resources.LowStockRowsMembers | server/src/routes/resources.js:32-33 | a row is listed exactly when its id is in the view and the resource exists |
| Resources.LowStock | server/src/routes/resources.js:25-45 | the listing is ordered by resource type and is a permutation of the joined rows |
| Resources.LowStockSpec | server/src/routes/resources.js:25-45 | the listing is ordered by resource type and holds exactly the view's resources, each with its own `last_alerted_at` |
| DemandRequests.PriorityNamed | server/src/routes/demandRequests.js:36 | a priority text is accepted exactly when it is Low, Medium or High |
| DemandRequests.RequestStatusNamed | server/src/routes/demandRequests.js:54 | a status text is accepted exactly when it is one of the four |
| DemandRequests.LocationField | server/src/routes/demandRequests.js:37 | a location is accepted exactly when absent, null or text of at most 150 characters, the empty text included; absent or null store no location, and text stores that text |
| DemandRequests.ValidateCreate | server/src/routes/demandRequests.js:33-40 | 422 unless every field meets its rule; the row carries the body's values, the location included (none when absent or null), and a quantity of at least 1 |
| DemandRequests.ValidateStatus | server/src/routes/demandRequests.js:53-55 | 422 unless the status is one of the four texts |
| DemandRequests.EveryStatusAccepted | server/src/routes/demandRequests.js:53-55 | each of the four statuses passes validation |
| DemandRequests.DemandRequestTable.Create | server/src/routes/demandRequests.js:42-51 | 422 and no change on invalid input; otherwise the validated row, status Pending, under a fresh id |
| DemandRequests.DemandRequestTable.SetStatus | server/src/routes/demandRequests.js:57-73 | any valid status from any current status; only that row's status and `updated_at` change; 404 "Demand request not found" when absent |
| DemandRequests.DemandRequestTable.Delete | server/src/routes/demandRequests.js:75-84 | the row is removed, or 404 when absent and nothing changes |
| DemandRequests.LateralSum | server/src/routes/demandRequests.js:23-27 | the sum is NULL exactly when the request has no allocation |
| DemandRequests.LateralSumIsTotal | server/src/routes/demandRequests.js:23-27 | a non-NULL lateral sum is the total of the request's allocations |
| DemandRequests.AllocatedQuantity | server/src/routes/demandRequests.js:20-27 | the listed `allocated_quantity` is the total of the request's allocations, 0 when there are none |
| DemandRequests.TotalForAppend | server/src/routes/demandRequests.js:24 | the total over two row sets is the sum of their totals |
| DemandRequests.TotalForPermutation | server/src/routes/demandRequests.js:24 | the total does not depend on scan order |
| DemandRequests.TotalForIgnoresStatus | server/src/routes/demandRequests.js:23-27 | allocation statuses do not affect the total |
| DemandRequests.TotalFor | server/src/routes/demandRequests.js:20-27 | the total is 0 when the request has no allocation, and non-negative when every quantity is |
| DemandRequests.NewerFirstIsTotalPreorder | server/src/routes/demandRequests.js:28 | newest-first is a total preorder |
| DemandRequests.JoinedMembers | server/src/routes/demandRequests.js:21-22 | a request is listed exactly when its disaster exists |
| DemandRequests.Joined | server/src/routes/demandRequests.js:8-27 | no more lines than requests, and exactly one per request when every disaster exists; every line's id is a request's id, lines of requests with distinct ids have distinct ids, and each line carries its request's allocation total |
| DemandRequests.ListRequests | server/src/routes/demandRequests.js:8-31 | the list is newest first and a permutation of the joined lines |
| DemandRequests.ListRequestsSpec | server/src/routes/demandRequests.js:8-31 | the list is newest first, a permutation of the joined rows, holds a line exactly for each request whose disaster exists, never two lines for one request id, and one line per request when every disaster exists; each line carries its request's allocation total |
| Recommendations.Classify | server/src/routes/demandRequests.js:95-98 | Ready exactly when stock covers the request; Partial exactly when it is short but positive; Unavailable otherwise |
| Recommendations.LabelTextOrder | server/src/routes/demandRequests.js:111 | label text order is Partial < Ready < Unavailable, and labels with equal text are equal |
| Recommendations.LocationRows | server/src/routes/demandRequests.js:107-108 | the lateral subquery reads exactly the disaster's location rows |
| Recommendations.RowsAt | server/src/routes/demandRequests.js:103-106 | one row per location row, at the coalesced distance |
| Recommendations.RowsFor | server/src/routes/demandRequests.js:102-109 | one row per location row, or one row with a NULL distance when there is none; each describes the resource |
| Recommendations.RowBefore | server/src/routes/demandRequests.js:111 | the query's order equals ordering by label rank, distance with NULLs last, then quantity descending |
| Recommendations.RowBeforeIsTotalPreorder | server/src/routes/demandRequests.js:111 | the query's order is a total preorder |
| Recommendations.CandidatesSound | server/src/routes/demandRequests.js:99-109 | every joined row comes from an eligible resource and carries its type, stock, city, state and label, with a distance exactly when the disaster has a location row |
| Recommendations.CandidatesComplete | server/src/routes/demandRequests.js:100-101 | every resource of the requested type with an existing storage location has a joined row |
| Recommendations.CandidatesDescribe | server/src/routes/demandRequests.js:99-109 | every joined row describes an eligible resource, and every eligible resource has a row |
| Recommendations.Candidates | server/src/routes/demandRequests.js:99-109 | every joined row has the requested type and the label of its own stock, and a distance exactly when the disaster has a location row |
| Recommendations.Rank | server/src/routes/demandRequests.js:86-115 | an unknown id gives no rows; otherwise the rows are in the query's order and are a permutation of the joined rows |
| Recommendations.RankSpec | server/src/routes/demandRequests.js:86-115 | an unknown id gives no rows; otherwise the rows are ordered, exactly the eligible resources appear, each labelled by its stock, with a distance exactly when the disaster has a location row |
| Recommendations.RankOrder | server/src/routes/demandRequests.js:111 | for any two rows, the earlier has a label that sorts no later; at equal labels it is nearer, with missing distances last; at equal distance it has at least as much stock |
| Recommendations.EligibleResources | server/src/routes/demandRequests.js:100-101 | exactly the resources of the requested type with an existing storage location |
| Recommendations.SingleRows | server/src/routes/demandRequests.js:102-109 | one row per eligible resource |
| Recommendations.CandidatesAreSingleRows | server/src/routes/demandRequests.js:99-110 | with at most one location row, the join yields one row per eligible resource in scan order |
| Recommendations.RankPermutesEligible | server/src/routes/demandRequests.js:99-110 | with at most one location row, the ranking is a permutation of one row per eligible resource |
| Recommendations.WaterExample | server/src/routes/demandRequests.js:95-111 | 50 units requested, with A 60 at 5 km, B 20 at 2 km and C 0 at 1 km, ranks B (Partial), A (Ready), C (Unavailable) |
| Recommendations.OneLocationRow | server/src/routes/demandRequests.js:102-109 | a disaster with one location row gives a resource one row, at that location's distance |
| Recommendations.SortThree | server/src/routes/demandRequests.js:111 | three rows sort with the second first when it goes before the first and both before the third |

## Left out

- Database procedures and views whose bodies are not part of this model:
  - `geo_distance_km` is an uninterpreted parameter returning an optional real; the real function is floating point;
  - `low_stock_view` is a parameter listing ids, so no threshold is modelled;
  - `allocate_resource`, `assign_volunteer` and `count_pending_requests` are not modelled.
- The plain CRUD routes, including `GET /resources` (server/src/routes/resources.js:8-23), which only lists rows by id, analytics, and the login and `/me` routes. These carry no decisions.
- Schema constraints are not modelled because the schema is not part of this model:
  - foreign keys, such as an unknown `disaster_id` or `storage_location_id`, which fail with a database error;
  - column defaults other than the demand-request status `Pending` and the timestamps: the model takes `created_at` and `updated_at` to default to `NOW()`, which is the `now` argument of `DemandRequestTable.Create` and `ResourceTable.Create`.
- Path ids are integers in the model. A non-numeric id makes the database raise an error, which is not modelled.
- Resources.ResourceTable.Replenish: does not model the integer column's overflow error, because the model's integers are unbounded.
- Resources.ResourceTable.Create: does not model the overflow error for a quantity or storage location id beyond the integer column's range, because the model's integers are unbounded.
- Resources.ResourceTable.Patch: does not model the overflow error for a quantity or storage location id beyond the integer column's range, because the model's integers are unbounded.
- Joi's conversion of numeric strings to numbers is not modelled: a number field given as a string is refused in the model. Joi's error message texts are not modelled either; a failure is 422.
- Joi's `max` counts UTF-16 code units; the model counts Unicode scalar values.
- Text order is code-point order, which is PostgreSQL's "C" collation. Under another collation, resource types may sort differently. The three labels sort Partial < Ready < Unavailable either way.
- Ties in `ORDER BY` are left to the database. The model keeps tied rows in scan order (a stable sort).
- Responses (200, 201, 204 and JSON shapes) and the error handler are not modelled. Only the outcome and the failure are.
- Crypto is not modelled:
  - SHA-512 is not modelled; PBKDF2 is an arbitrary deterministic key stream;
  - `randomBytes` is the salt argument;
  - `timingSafeEqual` is byte equality, with its timing not modelled;
  - `jwt.sign` and `jwt.verify` are a verification parameter.
- The server-side-rendering branches (`typeof window === 'undefined'`), React's asynchronous state updates, effect clean-up and the `isSubscribed` flags are not modelled. The client model is sequential, and each effect runs to completion.
- Concurrency between requests is not modelled; each route runs alone.
- Resources.ResourceTable.Patch: requires a body whose keys are distinct, as every parsed JSON object's are.
- Every `Body` stands for a parsed JSON object, whose keys are distinct. `Http.Lookup` returns the first entry for a key, where `JSON.parse` keeps the last; the two agree on every such body, so `ValidateCreate` and `ValidateStatus` in both table modules read the same values as the source.

## Findings

| source | as written | input that shows it | evidently intended | confidence | as-written member | corrected member |
|---|---|---|---|---|---|---|
| server/src/utils/password.js:25-35 | A hash field whose first two UTF-16 code units do not both have a hex digit as their low byte decodes to an empty buffer. PBKDF2 is then asked for a zero-length key, and `timingSafeEqual` of two empty buffers is true. | stored digest "1:s:zz" with any password | a hash field that decodes to no bytes is refused like an empty one | medium, not executed | Password.NonHexHashAcceptsAnyPassword | Password.VerifyPasswordStrict |
