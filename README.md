# Store ratings: ledger, accounts and client decisions

A Dafny model of the store-rating platform's core. The platform has three roles: ADMIN, USER and OWNER. Users rate stores from 1 to 5, owners see the ratings of their store, and administrators list and create users and stores.

The model covers three parts:

- **The backend's rating ledger.**
  - The three tables (`Users`, `Stores`, `Ratings`) are sequences of records inside the class `Tables.Database`.
  - `rateStore` upserts the caller's single rating for a store and rewrites that store's `averageRating`. The average is a `real` computed from an integer sum and count.
  - The user, admin and owner listings are read-side projections over the same tables.
- **The account rules.** This covers user signup, owner signup, login, and the administrator's `createUser` and `createStore`.
  - Each is an ordered chain of checks, modelled as a `seq<Guard>` whose first failing check decides the 400 message. The inserts that follow it are methods on the database.
  - bcrypt and JWT are opaque: `Hash`, `Compare` and `Signed(id, role)`.
- **The React client's decisions.**
  - The signup forms' `validate`, `handleChange` and `handleSubmit`.
  - The route guard.
  - The session state mirrored in `localStorage`.
  - The request interceptor that adds the bearer header.
  - The store page's filter, rating colours, star widget and the submit/update choice.

The two signup pages are separate components, each with its own `validate` over its own fields, so `UserSignupPage` and `OwnerSignupPage` each define their own `Field` type and `FormErrors`. `OwnerSignupPage.SameRulesAsUserSignup` proves that the four fields the pages share get the same verdicts and the same email and password messages.

There is one module per source file, plus six shared ones:

- `Base`: Option, Response, JavaScript truthiness.
- `Text`: substring tests and ASCII lower-casing.
- `Sequences`: an order-keeping filter.
- `Schema`: the row types of `models/*.js`, bcrypt and JWT.
- `Validators`: the password and email patterns and the first-failure chain.
- `Ledger`: rating arithmetic and the upsert.
- `Tables`: table invariants and the `Database` class.

Where the code departs from the behaviour the platform describes for itself, the model follows the code:

- **Search case.** The backend search uses SQL `LIKE` on PostgreSQL, which is case-sensitive. `UserController.MatchesSearch` is therefore a plain, case-sensitive substring test. The client-side filter in `UserStores.js` is case-insensitive and is modelled as such.
- **Owner signup is not atomic.** The two inserts of `ownerSignup` are separate. When the store row fails, the owner row stays and the reply is 500 (`OwnerAuthController.RegisterOwner`).
- **No store email column.** `Store.js` declares no `email` column, so the store email that `ownerSignup` and `createStore` pass is never stored. `Schema.Store` has no email field.
- **Column widths.** They come from the models (`STRING(60)`, `STRING(120)`, `STRING(400)`). A value that is too wide makes the insert raise, and the handler's catch answers 500.
- **Listings fail as written.** Both store listings eager-load `Rating` without the alias the association declares, so as written both answer 500. The model states that and proves the intended listing separately; see "## Findings".

The tables' invariants are in two predicates:

- `Database.Valid()` is what the database itself enforces: increasing ids, the unique email, the rating value validator and the foreign keys. Every method keeps it.
- `Database.Consistent()` is what the application means to maintain: one rating per (user, store) pair, every stored average equal to the mean of the store's ratings, and every store owned by an OWNER. Each handler that changes the tables keeps it.

## Model

| member | source | states |
|---|---|---|
| Schema.ParseRole | backend/src/controllers/authController.js:33-35 | a role is accepted exactly when it is one of "ADMIN", "USER", "OWNER", and the parsed role prints back as the given text |
| Schema.CompareSpec | backend/src/controllers/authController.js:69-71 | a password matches its own bcrypt digest and no other password's |
| Validators.PasswordExamples | backend/src/controllers/authController.js:6-9 | lower-case letters alone fail the policy, one capital and one symbol in 8..16 characters pass, 17 characters fail |
| Validators.IsValidPassword | backend/src/controllers/authController.js:6-9 | the policy as a predicate: 8 to 16 characters, none a line terminator, at least one A-Z and one of the eight symbols; PasswordExamples shows its verdicts |
| Validators.LooksLikeEmailIsRegex | frontend1/src/pages/UserSignup.js:22 | the index test of the email pattern holds exactly when the text splits as anything, non-space run, `@`, non-space run, `.`, non-space run, anything (unanchored) |
| Validators.LooksLikeEmail | frontend1/src/pages/UserSignup.js:22 | the unanchored email pattern as an index test; LooksLikeEmailIsRegex proves it is the regular expression's language |
| Validators.EmailExamples | frontend1/src/pages/UserSignup.js:22 | "a@b.c" matches the email pattern and "alice" does not |
| Validators.FirstFailureSpec | backend/src/controllers/authController.js:16-40 | a chain reports check i's message exactly when check i fails and no earlier check does; it reports nothing exactly when no check fails |
| Validators.FirstFailureAppend | backend/src/controllers/authController.js:16-40 | a chain in two parts: the second part speaks only when the first passes |
| Text.ToLowerIdempotent | frontend1/src/pages/UserStores.js:29-30 | lower-casing twice is lower-casing once |
| Ledger.SumBounds | backend/src/models/Rating.js:15 | n ratings in 1..5 sum to between n and 5n |
| Ledger.Mean | backend/src/controllers/userController.js:26-30 | the listings' average: none exactly for an empty list of ratings; MeanInRange bounds it |
| Ledger.RateStoreAverage | backend/src/controllers/userController.js:65-67 | the average `rateStore` writes is the listings' mean for any non-empty list, and 0 (the fallback for NaN) for an empty one |
| Ledger.MeanInRange | backend/src/controllers/userController.js:26-30 | the mean of a non-empty list of ratings exists and lies in 1..5 |
| Ledger.FallbackNeverFires | backend/src/controllers/userController.js:65-67 | for a non-empty list of valid ratings the fallback to 0 never fires: the written value is the mean, and it is at least 1 |
| Ledger.FindRating | backend/src/controllers/userController.js:56 | the lookup returns the earliest-inserted row of the (user, store) pair, or none exactly when no row has that pair; on a one-per-pair table that row is the pair's only one, so the query's lack of an order does not matter |
| Ledger.Upsert | backend/src/controllers/userController.js:56-63 | the table grows by at most one row, and every existing row keeps its id, user and store (only a value may change); UpsertRecordsValue and UpsertKeepsOtherPairs state the rest |
| Ledger.UpsertRecordsValue | backend/src/controllers/userController.js:56-63 | after the upsert the pair has a row with the new value; a row is appended only when none existed; on a one-per-pair ledger the result is one-per-pair and that row is the pair's only one |
| Ledger.UpsertKeepsOtherPairs | backend/src/controllers/userController.js:56-63 | the ratings of every other (user, store) pair are exactly as before, in order |
| Ledger.UpsertKeepsOtherStores | backend/src/controllers/userController.js:56-69 | the ratings of every other store are exactly as before |
| Ledger.UpsertRatedStoreNonEmpty | backend/src/controllers/userController.js:65-67 | after the upsert the rated store has at least one rating, so the average's count is at least 1 |
| Ledger.RateKeepsAveragesCurrent | backend/src/controllers/userController.js:56-69 | when every store's average was the mean of its ratings, upsert plus rewrite of the rated store's average keeps that true for all stores |
| Tables.FindUserByEmail | backend/src/controllers/authController.js:37-40 | the lookup finds a row with that email, or none exactly when the email is not taken |
| Tables.FindUserById | backend/src/controllers/adminController.js:105 | `findByPk` finds a row with that id, or none exactly when no user has it |
| Tables.StoreMeanSpec | backend/src/controllers/adminController.js:55-58 | over valid ratings a store's mean is null exactly when no rating names it, and otherwise lies in 1..5 |
| Tables.AddStoreKeepsTables | backend/src/controllers/adminController.js:110-115 | a new store row (fresh id, null average, existing owner) keeps every table invariant, and ownership by OWNERs when the owner is one |
| Tables.Database.CreateUser | backend/src/models/User.js:10-30 | the insert succeeds exactly when the not-null and width limits hold and the email is free; it then appends the row under the next id and advances the user counter by one; no other table or counter changes |
| Tables.Database.CreateStore | backend/src/models/Store.js:11-26 | the insert succeeds exactly when the limits hold and the owner id is a user; it then appends the row with a null average under the next id and advances the store counter by one; users, ratings and their counters are unchanged |
| Tables.Database.CreateRating | backend/src/models/Rating.js:12-24 | the insert succeeds exactly when the value is in 1..5 and both foreign keys exist; it then appends the row under the next id |
| Tables.Database.SaveRatingValue | backend/src/controllers/userController.js:61-62 | the save succeeds exactly when the value is in 1..5, and then changes only that row's value; users, stores and all three id counters are unchanged |
| Tables.Database.UpdateStoreAverage | backend/src/controllers/userController.js:69 | only the named store's `averageRating` changes; users, ratings and all three id counters are unchanged |
| UserController.FindByUser | backend/src/controllers/userController.js:32 | the found rating is in the list and is the caller's; none means the caller has no rating there |
| UserController.MatchesSearch | backend/src/controllers/userController.js:10-13 | `name LIKE %s% OR address LIKE %s%` as a case-sensitive substring test |
| UserController.SearchStores | backend/src/controllers/userController.js:8-16 | every selected store is a store of the table and, with a truthy search, matches it; SearchSelects gives the converse and the order |
| UserController.OwnRating | backend/src/controllers/userController.js:32 | a reported own rating is the value of a rating of the caller in the store's list; OwnRatingSpec gives the converse |
| UserController.StoresWithRatings | backend/src/controllers/userController.js:25-41 | one entry per selected store, in the order of the selection, carrying that store's id, name and address |
| UserController.GetStoresWithRatings | backend/src/controllers/userController.js:4-48 | the handler: 200 with the listing when the eager load resolves, otherwise the catch's 500 "Failed to fetch stores"; StoreListingAsWritten and StoreListingCorrected state both cases |
| UserController.SearchSelects | backend/src/controllers/userController.js:8-14 | with a truthy search a store is listed exactly when its name or address contains the text; otherwise every store is listed; the selection keeps insertion order, which stands for the query's unspecified row order |
| UserController.StoreListingAsWritten | backend/src/controllers/userController.js:15-26 | with the include as written (no alias) the handler answers 500 "Failed to fetch stores" whatever the tables hold |
| UserController.StoreListingCorrected | backend/src/controllers/userController.js:15-43 | with the include under the association's alias the handler answers 200 with one entry per selected store, in the model's insertion order (the query itself fixes no order) |
| UserController.ListedAverage | backend/src/controllers/userController.js:25-30 | a listed average is null exactly when the store has no ratings and lies in 1..5 otherwise; it equals the stored column when that is current |
| UserController.OwnRatingSpec | backend/src/controllers/userController.js:32 | `userRating` is v exactly when the caller's rating of that store has value v, and null exactly when the caller has not rated it |
| UserController.RateKeepsConsistent | backend/src/controllers/userController.js:56-69 | upsert plus recomputation keeps one rating per pair, every average current and every store owned by an OWNER |
| UserController.RateStore | backend/src/controllers/userController.js:50-76 | succeeds exactly when the value is in 1..5 and the user and store exist; the ratings become the upsert; the reply and the stored average are the mean of the store's ratings; the rating counter advances exactly when a row was appended and the other counters never move; any failure is 500 "Failed to submit rating" with nothing written; the ledger stays consistent |
| AuthController.AccountGuardsOrder | backend/src/controllers/authController.js:16-31 | the first message is, in order: name missing or over 20, email missing, address missing or over 400, password failing the policy |
| AuthController.AccountGuards | backend/src/controllers/authController.js:16-31 | no account check fails exactly when the name is 1 to 20 long, an email is given, the address is 1 to 400 long and the password meets the policy |
| AuthController.SignupGuards | backend/src/controllers/authController.js:16-40 | no signup check fails exactly when the account fields are acceptable, the role is known and the email is free |
| AuthController.AccountGuardsSpec | backend/src/controllers/authController.js:16-31 | the account checks pass exactly when the fields are acceptable, and never report a duplicate email |
| AuthController.SignupGuardsSpec | backend/src/controllers/authController.js:16-40 | an account failure decides the message; once the account checks pass, "Invalid role" comes before "Email already registered"; no failure exactly when the request is acceptable; the duplicate is reported exactly when everything else passed |
| AuthController.Signup | backend/src/controllers/authController.js:11-57 | the first failing check gives 400 with its message and no change, the id counters included; an accepted request inserts one user under the next id with the digest and the parsed role, advances the user counter by one and answers 201; an email over the column width gives 500 "Server error"; the store and rating counters never move |
| AuthController.SignupIgnoresEmailFormat | backend/src/controllers/authController.js:20 | the backend accepts an email with no `@` |
| AuthController.Login | backend/src/controllers/authController.js:59-79 | a missing or empty email or password gives 400 "Email & password required"; every failure is a 400; a success needs both fields and names a user with that email whose digest matches the password, and its token is signed for that user's id and role |
| AuthController.LoginSpec | backend/src/controllers/authController.js:59-79 | login succeeds exactly for a registered email with its own password and then returns that user's token, role and id; with both fields present, every failure is 400 "Invalid credentials" |
| AuthController.LoginDoesNotRevealAccounts | backend/src/controllers/authController.js:66-71 | an unknown email and a known email with a wrong password get the identical reply |
| AuthController.SignupThenLogin | backend/src/controllers/authController.js:42-79 | a user just inserted with a digest of p logs in with p and gets a token for its own id and role |
| OwnerAuthController.OwnerSignupGuardsSpec | backend/src/controllers/ownerAuthController.js:16-40 | the account checks speak first; then "Store details required" unless all three store fields are non-empty; then the duplicate email; no failure exactly when the request is acceptable |
| OwnerAuthController.OwnerSignupGuards | backend/src/controllers/ownerAuthController.js:16-40 | no owner-signup check fails exactly when the account fields are acceptable, all three store fields are given and the email is free |
| OwnerAuthController.SameAccountChecks | backend/src/controllers/ownerAuthController.js:16-31 | owner signup and user signup reject bad account fields with the same message |
| OwnerAuthController.RegisterOwner | backend/src/controllers/ownerAuthController.js:42-70 | the owner row has role OWNER and the password's digest; the store row gets the store name, the store address and the new owner's id; the reply is 201 with a token for (owner id, OWNER); a store row that does not fit leaves the owner row in place and answers 500; the user counter advances once the owner row is in, the store counter only with the store row, and the rating counter never moves |
| OwnerAuthController.OwnerSignup | backend/src/controllers/ownerAuthController.js:11-71 | the first failing check gives 400 with its message and no change, the id counters included; otherwise the inserts, replies and counter steps of RegisterOwner; a 201 advances the user and store counters by one each |
| AdminController.CountRole | backend/src/controllers/adminController.js:7 | the count is at most the number of users, and zero exactly when no user holds the role |
| AdminController.RoleCountsPartition | backend/src/models/User.js:27-30 | the three role counts add up to the number of users |
| AdminController.CountRoleAppend | backend/src/controllers/adminController.js:7 | adding a user raises the count of its own role by one and no other count |
| AdminController.GetDashboardStats | backend/src/controllers/adminController.js:5-15 | `totalStores` and `totalRatings` count every row; `totalUsers` is at most the number of users |
| AdminController.DashboardUsersExcludeStaff | backend/src/controllers/adminController.js:7 | `totalUsers` is the number of users minus the administrators and the owners |
| AdminController.GetUsersSpec | backend/src/controllers/adminController.js:23-29 | one row per user, each with that user's id, name, email, address and role (never the digest), listed in insertion order (insertion order stands for the query's unspecified row order); in that order a newly added user is the last row and the earlier rows are unchanged |
| AdminController.GetUsers | backend/src/controllers/adminController.js:23-29 | one row per user; GetUsersSpec ties each row to its user |
| AdminController.GetStoresAsWritten | backend/src/controllers/adminController.js:39-49 | with the include as written (no alias) the handler answers 500 "Failed to get stores" whatever the tables hold |
| AdminController.ListStores | backend/src/controllers/adminController.js:37-62 | one row per store; ListStoresSpec gives each row's id and average |
| AdminController.GetStores | backend/src/controllers/adminController.js:37-62 | the handler: 200 with the listing when the eager load resolves, otherwise the catch's 500 "Failed to get stores"; GetStoresAsWritten and ListStoresSpec state both cases |
| AdminController.ListStoresSpec | backend/src/controllers/adminController.js:37-62 | with the alias the handler answers 200; each row has its store's id; the average is null exactly for unrated stores, lies in 1..5 otherwise, and equals the stored column when that is current |
| AdminController.CreateUser | backend/src/controllers/adminController.js:70-98 | an unknown role is 400 "Invalid role"; then a taken email is 400 "Email already exists"; success appends exactly one user with the digest; every other failure is 500 "User creation failed" with no change; success advances the user counter by one, a 400 or a missing email or password leaves it, and the store and rating counters never move; no name or password policy |
| AdminController.CreateUserSkipsSignupChecks | backend/src/controllers/adminController.js:72-91 | an empty name and a one-letter password are accepted |
| AdminController.CreateStore | backend/src/controllers/adminController.js:101-122 | 400 "Invalid owner" exactly when the owner id is absent or names no OWNER; for an owner, a fitting row is appended with that owner id whatever stores the owner already has, otherwise 500; success advances the store counter by one, a 400 leaves it, and the user and rating counters never move |
| OwnerController.StoreOfOwner | backend/src/controllers/ownerController.js:7 | the lookup returns a store whose owner is the caller, or none exactly when the caller owns none; among several it picks the earliest inserted, the model's choice for `findOne` without an order |
| OwnerController.GetStoreDetailsSpec | backend/src/controllers/ownerController.js:3-13 | 404 "No store assigned to this owner" exactly when the caller owns no store; otherwise a store the caller owns, the one StoreOfOwner picks |
| OwnerController.GetStoreDetails | backend/src/controllers/ownerController.js:3-13 | a store it returns is a store of the table owned by the caller |
| OwnerController.GetStoreRatingsSpec | backend/src/controllers/ownerController.js:20-37 | 404 "Store not found" exactly when the caller owns no store; otherwise the rows are the ratings of the store StoreOfOwner picks, in insertion order (insertion order stands for the query's unspecified row order), with id, user and value kept; a rating of the table appears exactly when it is for that store; every row's rater exists and the row carries that rater's name and email |
| OwnerController.GetStoreRatings | backend/src/controllers/ownerController.js:20-37 | the handler: 404 when the caller owns no store, otherwise the ratings, with their raters, of the owned store StoreOfOwner picks; GetStoreRatingsSpec states what the rows are |
| OwnerController.OwnerSeesNewRating | backend/src/controllers/ownerController.js:27-33 | a rating just given to the owner's store appears in the owner's list with its rater and value |
| UserSignupPage.FormErrorsRecorded | frontend1/src/pages/UserSignup.js:19-26 | the error object is what recording each field's failure in turn builds |
| UserSignupPage.FormErrorsSpec | frontend1/src/pages/UserSignup.js:19-30 | each field has an error exactly when its own check fails; there is no error exactly when the client accepts the form |
| UserSignupPage.ClientAcceptedSignupPasses | frontend1/src/pages/UserSignup.js:39-45 | a client-accepted form with a short enough name and address and a free email passes every backend signup check |
| UserSignupPage.ClientAcceptedSignupRefused | frontend1/src/pages/UserSignup.js:21 | a 21-character name passes the form and the server refuses it with "Invalid name length" |
| UserSignupPage.SignupForm.Validate | frontend1/src/pages/UserSignup.js:19-30 | the stored errors are the form's error object; the result is true exactly when the client accepts the form |
| UserSignupPage.SignupForm.HandleChange | frontend1/src/pages/UserSignup.js:32-37 | only the named field changes, and only that field's shown error is blanked |
| UserSignupPage.SignupForm.HandleSubmit | frontend1/src/pages/UserSignup.js:39-45 | nothing is sent unless validation passes; otherwise the form goes out with role USER |
| OwnerSignupPage.FormErrorsRecorded | frontend1/src/pages/OwnerSignup.js:22-37 | the error object is what recording the owner fields' and then the store fields' failures in turn builds |
| OwnerSignupPage.FormErrorsSpec | frontend1/src/pages/OwnerSignup.js:34-39 | each store field has an error exactly when its check fails; there is no error exactly when the client accepts the form |
| OwnerSignupPage.SameRulesAsUserSignup | frontend1/src/pages/OwnerSignup.js:26-31 | given the same texts, each owner field has an error exactly when the matching user-signup field does, with the same email and password messages |
| OwnerSignupPage.ClientAcceptedSignupPasses | frontend1/src/pages/OwnerSignup.js:49-55 | a client-accepted form with a short enough name and address and a free email passes every backend owner-signup check |
| OwnerSignupPage.ClientAcceptedSignupRefused | frontend1/src/pages/OwnerSignup.js:26-28 | a client-accepted form with an address over 400 characters is refused by the server with "Invalid address" |
| OwnerSignupPage.SignupForm.OwnerChecks | frontend1/src/pages/OwnerSignup.js:25-31 | the owner half of the error object |
| OwnerSignupPage.SignupForm.StoreChecks | frontend1/src/pages/OwnerSignup.js:34-36 | the store half: on top of the owner errors, an entry for each store field whose check fails, recorded name, address, email in turn |
| OwnerSignupPage.SignupForm.Validate | frontend1/src/pages/OwnerSignup.js:22-40 | the stored errors are the form's error object; the result is true exactly when the client accepts the form |
| OwnerSignupPage.SignupForm.HandleChange | frontend1/src/pages/OwnerSignup.js:42-47 | only the named field changes, and only that field's shown error is blanked |
| OwnerSignupPage.SignupForm.HandleSubmit | frontend1/src/pages/OwnerSignup.js:49-55 | nothing is sent unless validation passes; otherwise the whole form goes out |
| ProtectedRoute.DecideSpec | frontend1/src/components/ProtectedRoute.js:4-16 | the children render exactly when a token is present and the route asks for no role or for the session's role; every other case redirects to /login |
| ProtectedRoute.Decide | frontend1/src/components/ProtectedRoute.js:4-16 | the component either renders its children or redirects to /login, nothing else; DecideSpec says when |
| ProtectedRoute.GuardedRoutesSpec | frontend1/src/App.js:25-29 | with a token, each guarded route shows its page exactly to sessions holding its role |
| ProtectedRoute.DashboardGuardedByItsRole | frontend1/src/pages/Login.js:33-35 | the dashboard login opens for a role is guarded by that role: it renders for that role and redirects every other role |
| AuthContext.Storage.GetItem | frontend1/src/context/AuthContext.js:7-8 | the stored text for a present key, null for an absent one |
| AuthContext.Storage.SetItem | frontend1/src/context/AuthContext.js:13-14 | only the given key changes |
| AuthContext.Storage.RemoveItem | frontend1/src/context/AuthContext.js:21-22 | only the given key is removed |
| AuthContext.OrNull | frontend1/src/context/AuthContext.js:7-8 | a stored value is kept exactly when it is non-empty text; anything else reads as null |
| AuthContext.AuthProvider.constructor | frontend1/src/context/AuthContext.js:6-9 | the initial token and role are read from storage, an absent or empty key as null, and storage is unchanged |
| AuthContext.AuthProvider.Login | frontend1/src/context/AuthContext.js:12-17 | both keys are written, the state becomes (token, role), and state and storage agree |
| AuthContext.AuthProvider.Logout | frontend1/src/context/AuthContext.js:20-24 | both keys are removed and no other key, the state becomes null, and state and storage agree |
| AuthContext.RestoredSession | frontend1/src/context/AuthContext.js:6-17 | a session restored from storage that login wrote is the session login set |
| AxiosClient.InterceptedSpec | frontend1/src/api/axiosClient.js:8-28 | public calls and calls without a token leave unchanged; every other call carries "Bearer " + token; no other header is touched |
| AxiosClient.Intercepted | frontend1/src/api/axiosClient.js:8-28 | the interceptor adds at most the Authorization header and removes none; InterceptedSpec says when and with what value |
| AxiosClient.LoginCallCarriesNoToken | frontend1/src/api/axiosClient.js:12-20 | the login call never carries an earlier session's token |
| AxiosClient.Intercept | frontend1/src/api/axiosClient.js:8-28 | the config's headers become the intercepted headers for the stored token, and the same config is returned |
| UserStoresPage.FilterStoresSpec | frontend1/src/pages/UserStores.js:27-32 | an empty search keeps the list; otherwise a store is kept exactly when its lower-cased name or address contains the lower-cased search; order is kept |
| UserStoresPage.FilterStores | frontend1/src/pages/UserStores.js:27-32 | the filter never lengthens the list; FilterStoresSpec says exactly what it keeps |
| UserStoresPage.FilterIgnoresCase | frontend1/src/pages/UserStores.js:28-31 | lower-casing the search text does not change the result |
| UserStoresPage.RatingColorSpec | frontend1/src/pages/UserStores.js:68-73 | a missing rating is grey; an average in 1..5 is never grey; a higher average never gets a lower colour |
| UserStoresPage.RatingColor | frontend1/src/pages/UserStores.js:68-73 | grey for a missing or zero rating, then green from 4.5, amber from 3.5, red below; RatingColorSpec proves the order |
| UserStoresPage.HasRated | frontend1/src/pages/UserStores.js:215 | `!!store.userRating`: a rating is present and non-zero |
| UserStoresPage.DisplayRating | frontend1/src/pages/UserStores.js:84 | the displayed value is 0 or one of hover, selected or current |
| UserStoresPage.Page.constructor | frontend1/src/pages/UserStores.js:4-9 | empty list, empty search, no selections |
| UserStoresPage.Page.Load | frontend1/src/pages/UserStores.js:27-34 | the list becomes the fetched list filtered by the current search; nothing else changes |
| UserStoresPage.Page.SendRating | frontend1/src/pages/UserStores.js:44-66 | a falsy value returns at once; otherwise the handler proceeds and `refresh` flips, which reloads the list; the network call is commented out in the source, so no rating reaches the backend |
| UserStoresPage.Page.ClickStar | frontend1/src/pages/UserStores.js:98-101 | the clicked star is remembered for the store; a rated store goes to the update handler and an unrated one to the submit handler; a non-zero star flips `refresh` (neither handler's network call is live in the source) |
| UserStoresPage.ClickedStarDisplayed | frontend1/src/pages/UserStores.js:84-99 | once the pointer leaves, the clicked star is the displayed rating, whatever the store's earlier rating, and exactly the stars 1 to the clicked one are filled |
| UserStoresPage.HoveredStarDisplayed | frontend1/src/pages/UserStores.js:84-96 | while star h is hovered, exactly the stars 1 to h are filled, whatever is selected and whatever the store's earlier rating |
| UserStoresPage.UnselectedShowsOwnRating | frontend1/src/pages/UserStores.js:84-93 | with no hover and no selection for the store, the widget shows the store's own rating, and no filled star when it has none |

## Left out

- Authorization middleware: the routes attach a middleware whose source is not part of this model. The caller's id (`req.user.id`) is a parameter of the handlers, and no token verification or role gating is modelled.
- JWT signing (secret, expiry) and bcrypt (salt, cost factor) are library calls. They are modelled as injective functions: `Signed(id, role)` and `Bcrypt(password)`.
- Schema.CompareSpec, AuthController.LoginSpec: bcrypt reads only the first 72 bytes of a password, so in the source two passwords that share their first 72 bytes match the same digest; here only the exact password matches. The signup policy keeps passwords far below 72 bytes, but AdminController.CreateUser applies no length policy, so an administrator-created account can log in with any password that shares its first 72 bytes.
- AuthController.AccountGuards, AuthController.SignupGuards, OwnerAuthController.OwnerSignupGuards: the name and address limits count characters, whereas JavaScript's `.length` counts UTF-16 code units. A character outside the Basic Multilingual Plane counts twice in the source, so a name of 11 such characters (length 22) gets 400 "Invalid name length" in the source and passes here.
- Validators.IsValidPassword: `.{8,16}` without the `u` flag counts UTF-16 code units, and the model counts characters. "Ab!" followed by three characters outside the Basic Multilingual Plane is 9 code units and passes in the source, but is 6 characters here and fails.
- Tables.UserRowFits, Tables.StoreRowFits: PostgreSQL stores an over-long `varchar` value whose excess characters are all spaces by cutting the spaces off, without raising. The model answers 500 for such a value, for example a 60-letter name followed by one space.
- AuthController.Signup, OwnerAuthController.OwnerSignup, AdminController.CreateUser, AdminController.CreateStore: every body field is modelled as absent or a string. JSON numbers, booleans, arrays and objects in a body are left out, and so is what JavaScript's truthiness and `.length` make of them (`name: 123` passes the name check in the source).
- UserController.RateStore: the find, insert or save, and update run without a transaction. Only sequential execution is modelled; nothing is claimed about concurrent ratings.
- UserController.RateStore: the stored and returned averages are exact reals. The FLOAT column's rounding is not modelled, nor is the reply's "Rating updated" message field.
- UserController.RateStore: `storeId` and `value` are taken as integers. A non-numeric route parameter or body value, and Sequelize's coercion of it, are not modelled; nor is a non-integer value such as 3.5, which passes the model's `min: 1, max: 5` validator in the source and then reaches the INTEGER column.
- OwnerController.StoreOfOwner, OwnerController.GetStoreDetailsSpec, OwnerController.GetStoreRatingsSpec, UserController.SearchSelects, UserController.StoreListingCorrected, AdminController.GetUsersSpec, AdminController.ListStoresSpec: none of the underlying queries (`Store.findOne` at ownerController.js:7 and :24, the `findAll` calls at ownerController.js:27, userController.js:15 and adminController.js:25 and :39) has an `order` clause, so PostgreSQL returns their rows in no particular order. The model fixes that order as insertion order. In the source, an owner holding two stores (which `createStore` allows) may get one store from the details endpoint and the other from the ratings endpoint, while the model ties both to the same store; and a store whose average `Store.update` just rewrote may move within a later listing, while `SetAverage` keeps it in place.
- UserController.MatchesSearch: the `%` and `_` wildcards inside a search text are treated as literal characters.
- Text.LowerChar: `toLowerCase` is modelled for ASCII letters only. Other Unicode case mappings and UTF-16 code units are not modelled.
- Tables.Database.CreateUser, Tables.Database.CreateStore, Tables.Database.CreateRating: after an insert that the database refuses, the contracts leave the id counter unspecified, because PostgreSQL's sequence may already have handed out that id. The same holds for the handlers' 500 replies after such an insert (AuthController.Signup, OwnerAuthController.RegisterOwner, OwnerAuthController.OwnerSignup, AdminController.CreateUser, AdminController.CreateStore, UserController.RateStore). The 400 replies, which come before any insert, leave every counter as it was.
- AdminController.GetDashboardStats, AdminController.GetUsers, OwnerController.GetStoreDetails, OwnerController.GetStoreRatings: their 500 replies on a database failure are not modelled. For the two store listings, only the alias failure is.
- AuthController.Login: its 500 "Server error" on a database or bcrypt failure is not modelled.
- OwnerSignupPage.FormErrorsSpec: states the per-field equivalence for the store fields only. The owner fields are covered by OwnerSignupPage.SameRulesAsUserSignup together with UserSignupPage.FormErrorsSpec.
- OwnerSignupPage.SignupForm.HandleSubmit: storing the returned token in `localStorage` and navigating to the owner dashboard are not modelled.
- UserSignupPage.FieldOf, OwnerSignupPage.FieldOf: a form key that is absent reads as the empty text in the checks. Both forms start with every key present.
- UserStoresPage.Page.Load: the list the page shows comes from mock data after a timer. It is a parameter here.
- The following UI state is left out: `getStars`, the half-star rule and other floating-point display; `toFixed`; alerts; navigation; `isLoading`, `isSubmitting`, hover-row and focus state; styles.
- AuthContext.AuthProvider.Login: the user id that the login page passes as a third argument is ignored, as in the source. The login page's network call and its navigation are not modelled beyond the role-to-dashboard mapping.
- AuthContext.AuthProvider.Logout: the redirect to `/login` is not modelled.
- Database and process setup is not part of this model: the connection and sync, CORS, the health endpoint, and seeding the administrator from the environment.
- These pages are not part of this model: OwnerDashboard, AdminDashboard, AdminUsers, AdminStores, RoleSelection, SignupSelectRole and Navbar. They only render what the modelled endpoints return.

## Findings

| source | as written | input that shows it | evidently intended | confidence | as-written member | corrected member |
|---|---|---|---|---|---|---|
| backend/src/controllers/userController.js:15-26 | the stores are fetched with `include: [{ model: Rating }]` and read through `store.Ratings`, but `Store.hasMany(Rating)` is declared with `as: "ratings"` (backend/src/models/Rating.js:24), and Sequelize refuses an include that omits the alias of an aliased association, so the handler always lands in its catch | any `GET` of the user store listing, e.g. an empty search over any tables: 500 "Failed to fetch stores" | each selected store with the mean of the ratings whose storeId is its id, and the caller's own rating | medium, not executed (rests on Sequelize's alias rule) | UserController.StoreListingAsWritten | UserController.StoreListingCorrected |
| backend/src/controllers/adminController.js:39-49 | the same include without the alias, read through `store.Ratings` | any `GET` of the admin store listing: 500 "Failed to get stores" | every store with the mean of its ratings, null when it has none | medium, not executed (rests on Sequelize's alias rule) | AdminController.GetStoresAsWritten | AdminController.ListStoresSpec |
