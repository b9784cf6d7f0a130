# EtnAir request handling, modelled in Dafny

EtnAir is an Express/PostgreSQL API for property listings, called *annonces*, and their owners, called *utilisateurs*. This project models its request-handling decisions and proves their properties:

- **Listing search** (`getAnnonces`) builds a SQL text and a parameter list from up to five optional query parameters. Modelled as an imperative method, `BuildSearchQuery`, that pushes onto `conditions` and `values` the way the source does. It is proved against a closed-form definition of the filter list:
  - the k-th condition uses placeholder `$k`, and `$k` refers to `values[k-1]`;
  - the filters keep a fixed order, and non-numeric ones are dropped;
  - `WHERE` appears exactly when a condition exists, and the query always ends with the ordering.
- **Validators**:
  - JS truthiness (`Truthy`);
  - `Number()` and `isNaN` (`StringToNumber`, where `None` is NaN);
  - the e-mail regular expression `^[^\s@]+@[^\s@]+\.[^\s@]+$`, as an automaton proved to accept exactly the strings of that pattern;
  - the six-character password rule.
- **Entity handlers** over a store. The store is a `Database` class whose fields are the `utilisateur` and `annonce` tables (maps from id to row) and the two serial counters. Its constructor gives the empty database the schema starts from: no rows, both counters at 1. The schema itself is not part of this model. The statement methods keep the table invariant `Consistent`:
  - ids are keys, below the serial counter;
  - every stored e-mail matches the pattern, and e-mails are unique;
  - every listing's owner exists.

  Each controller action is a pure guard chain (`…Plan`) that either stops with the failure the source answers or passes the row to write. A handler method then runs the plan and the statement. The methods state the reply and the new state, including that every refusal leaves the store unchanged.
- **Authentication**:
  - `login`, `register` and `logout` of the auth controller;
  - the separate `POST /login` route;
  - the `verifyToken` middleware.

  bcrypt and jsonwebtoken are oracles: function-valued fields of `Crypto.Oracles`. The model states the arguments a handler passes to them and what it does with their answers.

Failures are `Http.Failure` values that carry their status codes (400, 401, 403, 404, 409, 500). The localized message strings are replaced by the reason they announce.

Two behaviours of the code are worth knowing:

- `isNaN(Number(x))` lets `""` and all-whitespace strings through as 0 (`AnnonceController.BlankPriceIsZero`).
- Two login handlers exist, with different claims (`{id, email, nom}` against `{id}`), lifetimes (24 h against 1 h) and replies. Both are modelled (`AuthController.Login`, `LoginRoute.StandaloneLogin`).

## Model

| member | source | states |
|---|---|---|
| JsValues.BlankIsZero | API/controllers/annonceController.js:111 | an empty or all-whitespace string converts to 0, so it passes every `isNaN(Number(x))` test |
| JsValues.Truthy | API/controllers/annonceController.js:99-102 | the falsy values, which `!x` and `if (x)` reject, are exactly `undefined`, `null`, `false`, `0` and `""` |
| JsValues.StringToNumber | API/controllers/annonceController.js:13-14 | `Number(s)` on a string: only a string made of digits, signs, points and whitespace can convert; any other character gives NaN |
| JsValues.ToNumber | API/controllers/annonceController.js:111 | `isNaN(Number(v))` holds exactly for `undefined` and for unreadable strings; every other falsy value converts to 0, and a number to itself |
| JsValues.NumberOfNatToString | API/controllers/annonceController.js:65 | the decimal rendering of a natural number converts back to that number, so a serial id written in a URL finds its row |
| JsValues.NatToStringDigits | API/controllers/annonceController.js:16 | the `$${values.length}` rendering of a count is a nonempty digit string whose value is the count |
| JsValues.TrimStart | API/controllers/annonceController.js:13 | removes only leading whitespace, and what is left starts with a non-whitespace character |
| JsValues.TrimEnd | API/controllers/annonceController.js:13 | removes only trailing whitespace, and what is left ends with a non-whitespace character |
| JsValues.TrimStartIsSuffix | API/controllers/annonceController.js:13 | what trimming the start leaves is a suffix of the input |
| JsValues.TrimEndIsPrefix | API/controllers/annonceController.js:13 | what trimming the end leaves is a prefix of the input |
| EmailPattern.EmailRegexTest | API/controllers/utilisateurController.js:56-57 | `emailRegex.test(s)` holds exactly when `s` is in the pattern's language |
| EmailPattern.AcceptingIsPattern | API/controllers/utilisateurController.js:56-57 | the automaton ends in its accepting state exactly when the string is `a@b.c` with `a`, `b`, `c` nonempty runs of characters other than whitespace and `@` |
| EmailPattern.RunSound | API/controllers/utilisateurController.js:56 | each automaton state reached guarantees the part of the pattern read so far |
| EmailPattern.RunOnPrefix | API/controllers/utilisateurController.js:56 | along a string of the pattern's shape, the automaton passes through the expected states |
| EmailPattern.AcceptedEmailShape | API/controllers/utilisateurController.js:56-57 | an accepted address has exactly one `@`, no whitespace, a nonempty local part, and after the `@` a nonempty part, a `.` and a nonempty rest |
| Store.RowWithEmailUnique | API/controllers/authController.js:19-22 | with unique e-mails, the e-mail lookup has exactly one possible answer |
| Store.UserInsertedConsistent | API/controllers/utilisateurController.js:77-80 | inserting a user whose e-mail matches the pattern and is not taken keeps e-mails unique and the table invariant |
| Store.UserUpdatedFrame | API/controllers/utilisateurController.js:127-130 | a user update changes only `nom`, `email` and `photo_url` of that row; the hash, the creation date and all other rows stay |
| Store.UserUpdatedConsistent | API/controllers/utilisateurController.js:121-130 | an update to an e-mail held by no other user keeps e-mails unique |
| Store.UserDeletedConsistent | API/controllers/utilisateurController.js:151 | deleting a user that no listing references keeps the foreign key |
| Store.AnnonceInsertedConsistent | API/controllers/annonceController.js:122-132 | inserting a listing whose owner exists keeps the foreign key |
| Store.AnnonceUpdatedConsistent | API/controllers/annonceController.js:175-194 | overwriting a listing with an existing owner keeps the invariant |
| Store.AnnonceDeletedConsistent | API/controllers/annonceController.js:215 | deleting a listing keeps the invariant |
| Store.Database.InsertUser | API/controllers/utilisateurController.js:77-80 | adds exactly one row under the next serial id; nothing else changes |
| Store.Database.UpdateUser | API/controllers/utilisateurController.js:127-130 | overwrites `nom`, `email` and `photo_url` of that row and returns it |
| Store.Database.DeleteUser | API/controllers/utilisateurController.js:151-164 | no row leads to none deleted; a referenced user leads to a foreign-key violation with nothing removed; otherwise exactly that row is removed and returned |
| Store.Database.InsertAnnonce | API/controllers/annonceController.js:122-132 | adds exactly one listing under the next serial id and returns it |
| Store.Database.UpdateAnnonce | API/controllers/annonceController.js:175-194 | overwrites the ten columns of that listing; its id and the other rows stay |
| Store.Database.DeleteAnnonce | API/controllers/annonceController.js:215-219 | removes exactly that row and returns it, or reports no row with nothing changed |
| AnnonceController.BuildSearchQuery | API/controllers/annonceController.js:8-50 | `conditions` and `values` are those of the active filters and have equal lengths; the k-th condition's placeholder is k+1 and `values[k]` is the k-th filter's bound value; the query is the select, an optional `WHERE … AND …`, and the ordering |
| AnnonceController.NumericBlock | API/controllers/annonceController.js:12-18 | one `if (p) { Number … isNaN … push }` block appends exactly the numeric filter its parameter yields |
| AnnonceController.CityBlock | API/controllers/annonceController.js:20-23 | a nonempty `ville` appends the city filter, bound to the raw string |
| AnnonceController.AvailableBlock | API/controllers/annonceController.js:33-36 | a present `disponible` appends the availability filter, bound to whether it is `'true'` |
| AnnonceController.Push | API/controllers/annonceController.js:15-16 | pushing a value and then its condition numbers the placeholder by the new `values.length` |
| AnnonceController.PlaceholdersInOrder | API/controllers/annonceController.js:15-42 | the k-th condition of any filter list carries placeholder `$k` |
| AnnonceController.PlaceholderOfCondition | API/controllers/annonceController.js:16 | the number after the `$` of a condition is the number it was built with |
| AnnonceController.ConditionsSnoc | API/controllers/annonceController.js:15-16 | appending a filter appends one condition numbered by the new length and one value |
| AnnonceController.NoDollarInColumnTest | API/controllers/annonceController.js:16-42 | no column test holds a `$`, so the first `$` of a condition starts its placeholder |
| AnnonceController.FiltersInFixedOrder | API/controllers/annonceController.js:12-44 | active filters appear in the order price, city, rooms, availability, owner, each at most once |
| AnnonceController.ActiveFiltersExactly | API/controllers/annonceController.js:12-44 | each filter is active exactly when its parameter yields it: a numeric one when the parameter is a nonempty string `Number()` accepts (so a non-numeric one is dropped silently), the city for a nonempty string, and availability whenever present, bound to `=== 'true'`; no parameters give no filters |
| AnnonceController.PartsRanked | API/controllers/annonceController.js:12-44 | each parameter contributes at most one filter, and that filter's rank is the parameter's place in the order |
| AnnonceController.InActiveFilters | API/controllers/annonceController.js:12-44 | a filter is active exactly when the block of its own kind yields it |
| AnnonceController.SearchQueryShape | API/controllers/annonceController.js:46-50 | the query starts with `SELECT * FROM annonce`, holds `WHERE` exactly when a condition exists, and ends with `ORDER BY date_publication DESC` |
| AnnonceController.SearchQueryTextIgnoresValues | API/controllers/annonceController.js:46-50 | the SQL text depends only on which kinds of filter are active, never on the bound values |
| AnnonceController.GetAnnonceById | API/controllers/annonceController.js:64-84 | a NaN id gives 400 before the store is read; a fractional id gives 500; an absent row gives 404; otherwise 200 with the listing and its owner's name and e-mail |
| AnnonceController.MissingRequired | API/controllers/annonceController.js:99-103 | a body that passes the presence test has its five text fields truthy and `disponible` defined; each of its three numbers is NaN only if it is a string; `null`, `0`, `false` and `""` pass as numbers |
| AnnonceController.NumbersInvalid | API/controllers/annonceController.js:111-113 | after the presence test, the `isNaN` check refuses a body only for a string number that `Number()` cannot read |
| AnnonceController.AddAnnoncePlan | API/controllers/annonceController.js:99-131 | the order of checks: a required field missing (falsy, or undefined for prix, nombre_chambres, disponible and utilisateur_id) gives 400; then a non-numeric number gives 400; then an owner id that is not a whole number gives 500 and an unknown owner 404; then a fractional room count gives 500; otherwise the row written, never with a NaN price, with `disponible` true only for `true` or `'true'` and a falsy photo stored as null |
| AnnonceController.UpdatedColumns | API/controllers/annonceController.js:175-194 | the UPDATE binds the body's columns, with `photo_url` as given; the store accepts them exactly when the room count and the owner id are whole numbers, and a NaN price is written as NaN |
| AnnonceController.UpdateAnnoncePlan | API/controllers/annonceController.js:152-192 | a NaN id gives 400, then a missing field 400, then a fractional id 500 and an absent row 404; then the store refuses with 500 a room count or owner id that is not a whole number, or an unknown owner; otherwise all ten columns are written to that id, with `photo_url` as given; there is no `isNaN` or owner check in the handler |
| AnnonceController.DeleteAnnoncePlan | API/controllers/annonceController.js:207-219 | a NaN id gives 400 before the store is touched; a fractional id gives 500; an absent row gives 404; otherwise that id is deleted |
| AnnonceController.AddAnnonce | API/controllers/annonceController.js:92-137 | on any refusal the reply is that failure and the store is unchanged; otherwise one row is inserted and 201 returns it |
| AnnonceController.UpdateAnnonce | API/controllers/annonceController.js:145-199 | on any refusal the store is unchanged; otherwise only that row is overwritten and 200 returns it |
| AnnonceController.DeleteAnnonce | API/controllers/annonceController.js:207-224 | on any refusal the store is unchanged; otherwise exactly that row is removed and returned |
| AnnonceController.AddedAnnonceIsRetrievable | API/controllers/annonceController.js:72-84 | a created listing is found by its new id, with its owner's name and e-mail |
| AnnonceController.UpdatedAnnonceReadsBack | API/controllers/annonceController.js:175-199 | after an update, reading the id gives the written columns |
| AnnonceController.DeletedAnnonceIsGone | API/controllers/annonceController.js:215-219 | after a delete the id is not found, and deleting it again gives 404 |
| AnnonceController.AddAndUpdateWriteTheSame | API/controllers/annonceController.js:128-130 | create and update compute the same columns from the same body, except that create turns a falsy photo into null |
| AnnonceController.BlankPriceIsZero | API/controllers/annonceController.js:111 | a blank `prix` string is not refused, and a listing created with it is stored with price 0 |
| AnnonceController.NumericCheckOnlyOnCreate | API/controllers/annonceController.js:111-113 | a body with a non-numeric number is refused with 400 on create; on update of an existing row, a non-numeric room count or owner id fails the statement with 500, while a non-numeric price alone is stored as NaN |
| UtilisateurController.GetUtilisateursAnswers | API/controllers/utilisateurController.js:7-11 | a listing of every user, newest first, always exists |
| UtilisateurController.UserListingFacts | API/controllers/utilisateurController.js:7-11 | any answer counts all users, lists each of them without the hash, and is ordered by creation date, newest first |
| UtilisateurController.UserListingOnlyUsers | API/controllers/utilisateurController.js:7 | every listed row is the view of a stored user |
| UtilisateurController.NewestFirstExists | API/controllers/utilisateurController.js:7 | the keys of any table can be ordered newest first, each once |
| UtilisateurController.InsertByDateSorted | API/controllers/utilisateurController.js:7 | inserting a key by date keeps the order newest first |
| UtilisateurController.InsertByDateDistinct | API/controllers/utilisateurController.js:7 | inserting a new key keeps the keys distinct |
| UtilisateurController.InsertByDateElements | API/controllers/utilisateurController.js:7 | insertion by date adds exactly the new key |
| UtilisateurController.GetUtilisateurById | API/controllers/utilisateurController.js:19-36 | a NaN id gives 400; a fractional id gives 500; an absent row gives 404; otherwise 200 with id, nom, email, photo_url and date_creation, never the hash |
| UtilisateurController.EmailAccepted | API/controllers/utilisateurController.js:56-59 | a value passes the e-mail check exactly when it is a string in the pattern's language, so an accepted e-mail is always present |
| UtilisateurController.AddUtilisateurPlan | API/controllers/utilisateurController.js:48-79 | the order of checks: missing nom, email or mot_de_passe gives 400; then an e-mail failing the pattern 400; then a password shorter than 6 gives 400; then an e-mail in use 409; a non-string password leads to hashing failing with 500; otherwise the row written, with a falsy photo as null |
| UtilisateurController.AddUtilisateur | API/controllers/utilisateurController.js:44-85 | on any refusal the store is unchanged; otherwise one row is inserted with the oracle hash of the password, and 201 returns it without the hash |
| UtilisateurController.UpdateUtilisateurPlan | API/controllers/utilisateurController.js:97-129 | a NaN id gives 400; missing nom or email 400; a bad e-mail 400; an absent row 404; an e-mail held by a different id 409; otherwise nom, email and photo_url are written to that id |
| UtilisateurController.UpdateUtilisateur | API/controllers/utilisateurController.js:93-135 | on any refusal the store is unchanged; otherwise only nom, email and photo_url of that row change, and 200 returns it without the hash |
| UtilisateurController.DeleteUtilisateurPlan | API/controllers/utilisateurController.js:146-164 | a NaN id gives 400; a fractional id 500; an absent row 404; a user still referenced by a listing 409; otherwise that id is removed |
| UtilisateurController.DeleteUtilisateur | API/controllers/utilisateurController.js:143-167 | the delete is issued and its outcome is mapped to 200, 404, or 409 on a foreign-key violation, with nothing removed on a refusal |
| UtilisateurController.AddedUserIsRetrievable | API/controllers/utilisateurController.js:68-85 | a created user is found by its new id, without the hash, and creating it again gives 409 |
| UtilisateurController.KeepingOwnEmailPasses | API/controllers/utilisateurController.js:121-125 | an update that keeps the user's own e-mail is not refused for e-mail use |
| UtilisateurController.DeletedUserIsGone | API/controllers/utilisateurController.js:151-155 | after a delete the user is not found, and deleting again gives 404 |
| UtilisateurController.ReadsHideHashes | API/controllers/utilisateurController.js:27-36 | stores that differ only in password hashes give the same reply to reading a user |
| AuthController.Login | API/controllers/authController.js:8-55 | missing email or password gives 400; an unknown e-mail and a wrong password give the same 401; a non-string password with a known e-mail gives 500; otherwise 200 with a token signed for 24 h over `{id, email, nom}` of the matched row and that row without the hash |
| AuthController.LoginIsDetermined | API/controllers/authController.js:19-28 | in a store with unique e-mails, the reply does not depend on which row the lookup returns |
| AuthController.LoginHidesHash | API/controllers/authController.js:31-55 | the stored hash affects the reply only through bcrypt's verdict |
| AuthController.Register | API/controllers/authController.js:63-118 | the same checks in the same order as user creation, with the store unchanged on refusal; otherwise one row is inserted and 201 carries a 24 h token over `{id, email, nom}` of the inserted row |
| AuthController.LoginAfterRegister | API/controllers/authController.js:19-55 | after a registration, the same e-mail and password log in as the new user with the same token, whenever bcrypt accepts a password against its own hash |
| AuthController.RegisterTwiceConflicts | API/controllers/authController.js:86-89 | registering an e-mail that was just registered gives 409 |
| AuthController.Logout | API/controllers/authController.js:126-130 | logout always answers 200 |
| LoginRoute.StandaloneLogin | API/routes/login.js:21-48 | missing fields give 400; an unknown e-mail gives 401; on success the token is signed for 1 h over `{id}` alone and the reply holds the whole stored row |
| LoginRoute.AgreesWithControllerLogin | API/routes/login.js:24-46 | the route and the controller accept and refuse the same requests, with the same failures and the same user; only the claims, the expiry and the returned object differ |
| LoginRoute.ExposesStoredRow | API/routes/login.js:29-48 | the success reply is the stored row of the entered e-mail, the bcrypt hash included |
| VerifyToken.SplitOnSpace | middleware/verifyToken.js:6 | `split(' ')` gives at least one piece |
| VerifyToken.JoinSplit | middleware/verifyToken.js:6 | joining the pieces with spaces gives the header back |
| VerifyToken.SplitJoin | middleware/verifyToken.js:6 | splitting space-free pieces after joining them gives the pieces back |
| VerifyToken.PiecesSpaceFree | middleware/verifyToken.js:6 | no piece holds a space |
| VerifyToken.BearerToken | middleware/verifyToken.js:4-8 | a token exists only as a nonempty, space-free second field |
| VerifyToken.BearerTokenShape | middleware/verifyToken.js:4-8 | a header yields `tok` exactly when it is a space-free first word, one space, `tok`, then nothing or a space; the scheme is not checked |
| VerifyToken.AnySchemeIsAccepted | middleware/verifyToken.js:6 | `"Basic abc"` yields `"abc"`, as does `"Bearer abc"` |
| VerifyToken.NoSpaceNoToken | middleware/verifyToken.js:6-10 | a header without a space, including the empty one, yields no token |
| VerifyToken.EmptySecondFieldNoToken | middleware/verifyToken.js:6-10 | an empty second field, as in `"Bearer "`, yields no token |
| VerifyToken.VerifyTokenOf | middleware/verifyToken.js:3-18 | each call does exactly one of: 401 when there is no token; 403 when verification fails; otherwise `next` with `req.user` set to the payload and the request otherwise unchanged |
| VerifyToken.IssuedTokenPasses | middleware/verifyToken.js:12-17 | a signed token sent as `Bearer <token>` is let through with its claims, whenever the verifier accepts what the signer produces |

## Left out

- Routing and app wiring (`app.js`, the route files, `middleware/auth.js`), the pg pool, dotenv configuration and the default JWT secrets are not modelled: they hold no decision logic.
- SQL execution is not modelled:
  - `ILIKE` matching, the engine-side sort and the listing rows that `getAnnonces` returns are out of scope;
  - the model states the SQL text and parameters built, and the store is two maps;
  - the city parameter is bound without `%` wildcards, as in the source.
- Column types are an assumption, because the schema is not part of this model:
  - ids, `nombre_chambres` and `utilisateur_id` are integer columns, so a fractional value makes the statement fail (500);
  - `prix` is a `numeric` column, which stores the `NaN` that node-postgres sends for a NaN price;
  - date columns are stored as sent, without validation;
  - text columns (`nom`, `titre`, `description`, `ville`, `photo_url`) hold the bound value as it is: JSON `{"nom": 5}` is stored and returned as the number 5, where PostgreSQL stores and returns the text `"5"`.
- IdOf: integers are unbounded here. An integer column is 32 bits wide in PostgreSQL, so in the source an id or room count outside that range (`/annonces/99999999999`) fails the statement with 500. The model answers 404 for such an id, or stores such a room count.
- StringToNumber: models decimal numerals with sign, point and surrounding whitespace only. Exponents, hexadecimal (`0x`), octal (`0o`) and binary (`0b`) prefixes, and `Infinity` spellings, become NaN here, although `Number()` accepts them. Numbers are exact reals, without IEEE-754 rounding.
- AddAnnoncePlan: the owner check binds the raw `utilisateur_id` in the source. The model looks it up by its `Number()` value.
- AddUtilisateurPlan: measures the password length in Unicode code points, whereas `length` counts UTF-16 code units. The two differ only for characters outside the Basic Multilingual Plane.
- Request bodies are modelled without arrays or objects. `JsVal` covers undefined, null, booleans, numbers and strings.
- SearchParams: holds each query parameter as an optional string. Express also parses repeated or bracketed parameters (`?ville[]=a`, `?prix=1&prix=2`) into arrays, and the model leaves those out.
- EmailAccepted: treats a non-string value as failing the pattern. JavaScript would test its string form, but no number, boolean or null renders with an `@`.
- Login: the e-mail lookup matches only a string against the stored e-mails. pg would send a number or boolean as text, but in a consistent store such text holds no `@` and so matches no stored e-mail.
- Login: is a function of the lookup's answer `found`, constrained by `RowWithEmail`, because the query has no ORDER BY. `LoginIsDetermined` shows the choice is irrelevant when e-mails are unique.
- Hashing, comparing, signing and verifying are oracles. Salts, signatures and expiry timing are not modelled, and a token is never revoked.
- The users listing is stated as a relation, `IsUserListing`, because `ORDER BY date_creation DESC` leaves ties in any order. The model proves that an answer exists and states what every answer satisfies.
- Races between a check and the following write are out of scope: each request runs alone and to completion.
- Out of scope: store failures other than the modelled statement outcomes, console logging, and the message texts.
