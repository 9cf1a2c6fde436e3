# Pythonccino café: authentication, menus and orders in Dafny

This project models the logic at the centre of the Pythonccino coffee and
book café. The web app has a staff login with a TOTP second factor, and
bearer access tokens for staff pages. A command-line tool lets customers
pick items by number and lets staff edit the two menus. Two web routes take
food and book orders and file them under the customer's name.

Modules, in dependency order:

- `Common` holds `Option` and `Result`. Its `Error` type is either an
  `HTTPException` (status and detail) or an uncaught Python exception. It
  also holds `FirstIndex`, which models `next(...)` over a generator, and
  `RemoveAt`, which models `list.pop(i)`.
- `PyStr` holds the ASCII behaviour of `find`, `split`, `join`,
  `startswith`, `isdigit`, `int`, `str` and `lower`.
- `Crypto` takes bcrypt, python-jose and pyotp as records of functions
  supplied by the caller. Ghost predicates state the laws they are assumed
  to obey: a hash is well formed and verifies its password, and a token
  decodes to its payload until it expires. `TotpAccepts` defines what
  `verify(code, valid_window=1)` computes: the code of the current step or
  of one step either side. `SecretDecodeError` defines the base32 decoding
  pyotp applies to the secret first, and the exception it raises when the
  secret does not decode.
- `SecretStore` is the SQLite `totp_secrets` table, modelled as a class
  over a `map`.
- `Auth` covers start-up configuration, peppered password checks, the
  single staff account, access-token claims, TOTP enrolment and
  verification, and `get_current_user`.
- `Endpoints` covers `POST /token`, `POST /verify_totp` and `GET /staff`,
  including parsing of the `Authorization` header.
- `Catalog` holds the two menus as a class whose lists change in place.
- `Cli` covers the numbered combined listing, the basket loop, the
  delete-by-number prompts, the employee loop and the top-level loop.
- `Orders` covers order lines, the per-customer order file and the merge
  of a new order into it.
- `FoodRoutes` and `BookRoutes` cover the add and order routes.

Clocks, random draws and console input come in as parameters:

- `now` is in Unix seconds.
- The base32 secret, the bcrypt salt and the `uuid4` order number are
  passed in.
- Console lines arrive already read. The choices at the top-level and
  employee menus arrive already dispatched, as `Cli.Visit` and
  `Cli.StaffCommand` values.

Prices are whole pence (`int`).

Behaviours of the code that the model reproduces on purpose:

- `/token` returns an access token as soon as the password checks out,
  before any TOTP code is seen (main.py:86). `Endpoints.PasswordAloneOpensStaff`
  proves that this token alone opens `/staff` for its whole lifetime. The
  second factor therefore guards nothing.
- Both add-book routes have no authentication dependency, while both
  add-food routes do (app/routes_book.py:15, app/routes_book.py:19).
  `BookRoutes.AddBookIsOpen` shows a request with no token refused by
  add-food and served by add-book.
- The 500 "Error generating TOTP URI" guard in `/token` cannot fire,
  because `generate_totp_secret` always returns a `totp_uri`.
  `Endpoints.Login` proves that the error never occurs.
- `main.py` falls back to the key "your_secret_key" when `JWT_SECRET_KEY` is
  unset. That fallback is unreachable, because `app/auth.py` refuses to
  import without the variable, so `/staff` decodes with the configured key.
- `get_current_user` sits behind FastAPI's `OAuth2PasswordBearer` with its
  default `auto_error` (app/auth.py:36, app/auth.py:95). A request with no
  `Authorization` header, or with a scheme other than "bearer", gets 401
  "Not authenticated" before `get_current_user` runs. `Auth.BearerCredential`
  models that dependency, and `Auth.RequestUser` chains the two. The
  function's fallback to the `token` query parameter is therefore reached
  only behind a header of bare "Bearer " (an empty credential), as
  `Auth.IssuedTokenThroughDependency` shows.
- `/staff` takes `header.split("Bearer ")[1]`. For "Bearer Bearer x" that is
  the empty string (`Endpoints.DoubledPrefixGivesEmptyToken`).
- A customer record is matched by the first record with the same name.
  When a quantity is not an integer, the order fails with `ValueError`
  before the order file is touched. An order file that is missing or is not
  valid JSON is read as empty and then overwritten with the new customer's
  record alone (`Orders.UnreadableFileStartsOver`).

## Model

| member | source | states |
|---|---|---|
| Common.FirstIndex | app/routes_food.py:42-43 | `next(...)` with a default: the result is the first index satisfying the predicate, with none before it, or None exactly when no element satisfies it |
| Common.BeforeFirst | app/cli.py:39-42 | a read-until-break loop consumes the longest prefix with no stop element; the element after it, if any, is the stop element |
| Common.BeforeFirstIs | app/cli.py:39-42 | a loop that stopped at `i` without seeing a stop element consumed exactly `BeforeFirst` |
| Common.RemoveAt | app/cli.py:110 | `pop(i)` shortens the list by one and keeps the order: elements before `i` stay, later ones shift down by one |
| Common.RemoveAtInsertBack | app/cli.py:110 | putting the popped element back at `i` restores the list, and the multiset loses exactly that element |
| PyStr.Find | main.py:161 | a found occurrence leaves room for the whole separator inside the string |
| PyStr.FindSpec | main.py:161 | `find` returns the leftmost occurrence of the separator, or None exactly when it occurs nowhere |
| PyStr.Split | main.py:161 | `split` always returns at least one piece |
| PyStr.JoinSplit | main.py:161 | joining the pieces of `split(sep)` with `sep` gives the original string back |
| PyStr.SplitPiecesFree | main.py:161 | no piece returned by `split` contains the separator |
| PyStr.SplitHead | main.py:161 | piece 0 is the text before the first separator, or the whole string |
| PyStr.SplitAfterPrefix | main.py:156-161 | on a string starting with the separator there are at least two pieces, piece 0 is empty, and piece 1 is the first piece of the text after the prefix |
| PyStr.ShowNat | app/cli.py:9 | `str(n)` is a non-empty string of decimal digits |
| PyStr.ParseShow | app/cli.py:9-13 | `int(str(n)) == n`: a printed number read back selects that number |
| PyStr.RStrip | app/auth.py:92-93 | `rstrip` of one character, as base32 decoding strips padding: a prefix of the string not ending in that character, followed only by that character |
| Crypto.FullQuantaDecode | app/auth.py:92-93 | a secret of whole eight-character quanta of base32 digits, in either case, decodes without raising |
| Crypto.StrayCharacterFails | app/auth.py:92-93 | a character that is neither a base32 digit nor "=" makes decoding raise, and for an ASCII secret the exception is `binascii.Error: Non-base32 digit found` |
| Crypto.AcceptanceWindow | app/auth.py:92-93 | with `valid_window=1` the code of step c is accepted throughout the 90 seconds from step c-1 to step c+1; when codes are injective in the step, it is accepted at no other time |
| SecretStore.Lookup | app/db.py:21-25 | the row's secret when the username has a row, None exactly when it has none |
| SecretStore.TotpSecretStore.constructor | app/db.py:5-11 | a freshly created table is empty |
| SecretStore.TotpSecretStore.InitDb | app/db.py:5-14 | `CREATE TABLE IF NOT EXISTS` leaves an existing table unchanged |
| SecretStore.TotpSecretStore.Store | app/db.py:16-19 | upsert: the username now maps to the new secret, replacing any old one, and every other username keeps its secret |
| SecretStore.TotpSecretStore.Get | app/db.py:21-25 | lookup returns the stored secret, or None exactly for a username never stored, and changes nothing |
| SecretStore.StoreThenRetrieve | test_totp_secret.py:4-16 | init, store, get returns the secret just stored |
| SecretStore.OverwriteKeepsLast | app/db.py:18 | two stores for one username keep only the second, and others are unaffected |
| Auth.LoadConfig | app/auth.py:24-31 | start-up fails with ValueError when `JWT_SECRET_KEY` or `PEPPER_SECRET` is unset or empty, and succeeds otherwise with those values, the staff variables as found and a TTL defaulting to 30 |
| Auth.HashPassword | app/auth.py:41-44 | bcrypt of the password with the pepper appended, under the drawn salt; `Auth.HashThenVerify` and `Auth.PepperBindsHash` state what it promises |
| Auth.VerifyPassword | app/auth.py:47-49 | bcrypt check of the password with the same pepper appended; what it accepts is stated by `Auth.HashThenVerify` and `Auth.PepperBindsHash` |
| Auth.HashThenVerify | app/auth.py:41-49 | hashing and verifying append the same pepper, so a fresh hash is well formed and a password verifies against its own hash |
| Auth.PepperBindsHash | app/auth.py:41-49 | under collision-free hashing, with the same pepper a hash verifies exactly its own password, and after a pepper change a password no longer verifies against its own old hash |
| Auth.AuthenticateUser | app/auth.py:51-56 | returns the user exactly when the username equals the configured one, the configured hash is a bcrypt hash and the password verifies; it raises exactly when the username matches and the hash is unset (AttributeError) or not a bcrypt hash (ValueError "Invalid salt") |
| Auth.OnlyStaffAuthenticates | app/auth.py:51-56 | under every configuration, any other username gets None; the staff username with a wrong password under a set, well-formed hash gets the same None |
| Auth.AccessClaims | app/auth.py:58-63 | the token payload keeps every caller claim except `exp`, `iat` and `scope`, which become issue time plus the TTL, the issue time and "access" |
| Auth.CreateAccessToken | app/auth.py:58-63 | under the JWT laws the signed token is non-empty and has no space, so it survives being sent as "Bearer " + token |
| Auth.AccessTokenRoundTrip | app/auth.py:58-63 | an access token decodes with the signing key to its payload until the TTL has passed, and fails after |
| Auth.GenerateTotpSecret | app/auth.py:65-74 | the fresh secret is stored for the username, replacing any earlier one, and the result holds the provisioning URI for that secret, name and issuer "Pythonccino" |
| Auth.RandomBase32Decodes | app/auth.py:65-67 | every secret `pyotp.random_base32()` draws decodes, so a secret enrolled through `/token` never makes verification raise |
| Auth.TestSecretDoesNotDecode | test_totp_secret.py:6-10 | "test_secret", the secret the test stores for "test_user", is not base32: decoding raises `binascii.Error: Non-base32 digit found` |
| Auth.VerifyTotpCode | app/auth.py:81-93 | 400 exactly when no non-empty secret is stored; the decoding exception when the stored secret is not base32; otherwise true iff the code is that of the current step or one step either side |
| Auth.TestUserCannotVerify | test_totp_secret.py:4-13 | after the test has stored "test_secret" for "test_user", verifying any code for that user raises `binascii.Error` |
| Auth.GetCurrentUser | app/auth.py:95-107 | every failure is a 401; "Not authenticated" exactly when neither header nor query carries a token; otherwise the header token if present, else the query token, decodes to the result, with no check on `sub` |
| Auth.IssuedTokenResolves | app/auth.py:95-107 | an unexpired access token resolves to its payload from the header credential or, behind an empty credential, from the query; an expired one gets "Invalid token" |
| Auth.BearerCredential | app/auth.py:36 | the bearer dependency refuses a missing or empty `Authorization` header with 401 "Not authenticated", and every refusal is that 401 |
| Auth.BearerCredentialSpec | app/auth.py:36 | the dependency accepts exactly a header of "bearer" in any case followed by a space or the end, and passes on everything after "bearer " |
| Auth.BearerHeaderCredential | app/auth.py:36 | "Bearer " + token passes the token on unchanged |
| Auth.RequestUser | app/auth.py:95-107 | a request the bearer dependency refuses gets its 401; otherwise the user is `get_current_user` of the credential and the query |
| Auth.IssuedTokenThroughDependency | app/auth.py:95-107 | a fresh token is accepted as "Bearer " + token, and in the query only behind a bare "Bearer " header; with no header the query token is refused with "Not authenticated" |
| Endpoints.Login | main.py:71-95 | the exceptions of `authenticate_user` (unset or malformed hash) propagate; bad credentials give 400 and store nothing; success stores the new secret and returns an access token for the username with the TOTP URI; the 500 branch is never taken |
| Endpoints.VerifyTotp | main.py:98-107 | 400 when the user is not enrolled; the decoding exception (a 500) when the stored secret is not base32; otherwise an access token with type "bearer" exactly when the code verifies, and 401 "Invalid TOTP code" when it does not |
| Endpoints.BearerToken | main.py:161 | `split("Bearer ")[1]` on a header with the prefix; what it extracts is stated by `Endpoints.BearerTokenIsNextPiece` |
| Endpoints.BearerTokenIsNextPiece | main.py:161 | the extracted token is the text after "Bearer " up to the next "Bearer " or the end, and never contains "Bearer " |
| Endpoints.BearerRoundTrip | main.py:156-161 | a token without spaces sent as "Bearer " + token is extracted unchanged |
| Endpoints.ReadStaff | main.py:148-170 | every failure is a 401; a missing or empty header and a header without the prefix get their own messages; success happens exactly when the token decodes with a truthy `sub`, which is returned |
| Endpoints.PasswordAloneOpensStaff | main.py:86 | the token from `/token`, with no TOTP step, makes `/staff` return the username until it expires |
| Endpoints.DoubledPrefixGivesEmptyToken | main.py:161 | "Bearer Bearer …" yields the empty token |
| Endpoints.LoginThenVerify | main.py:71-107 | correct password, then the current code for the secret just enrolled, yields the URI and a bearer access token |
| Catalog.Menus.constructor | app/cli.py:4 | the menus are the lists loaded |
| Catalog.Menus.AddFood | app/cli.py:90-91 | the new food item is appended last and the books are untouched |
| Catalog.Menus.AddBook | app/cli.py:100-101 | the new book is appended last and the food is untouched |
| Cli.Listing | app/cli.py:7-14 | one entry per food item and book, numbered 1, 2, … with no gap, food first |
| Cli.Choose | app/cli.py:48-56 | food for 1 up to the number of food items, a book for the next as many numbers as there are books, nothing otherwise; its agreement with the listing is `Cli.ChooseMatchesListing` |
| Cli.ChooseMatchesListing | app/cli.py:7-14 | a number selects something exactly when it is between 1 and the listing's length, and then it selects the listing entry shown with that number |
| Cli.Pick | app/cli.py:45-60 | one line adds at most one item; that it comes from a menu is `Cli.PicksFromMenus` |
| Cli.ShownNumberSelectsEntry | app/cli.py:7-14 | the listing numbers entries 1, 2, … with food first and books continuing after; typing an entry's shown number selects exactly that entry |
| Cli.OutOfRangeSelectsNothing | app/cli.py:57-58 | 0 or a number beyond the listing adds nothing |
| Cli.PicksFromMenus | app/cli.py:45-60 | every basket entry is an item of one of the menus, and a line adds at most one item |
| Cli.Total | app/cli.py:17-20 | the sum of the basket's prices; its additivity is `Cli.TotalAppend` |
| Cli.TotalAppend | app/cli.py:17-20 | the total of two baskets together is the sum of their totals, so the total is the sum of the prices |
| Cli.IsDoneAnyCase | app/cli.py:41 | a line ends the basket exactly when it is "done" in any mix of letter cases |
| Cli.TakeOrder | app/cli.py:38-68 | the basket is the items picked by the lines before the first "done" in any case, in order; non-digit and out-of-range lines add nothing; the result is the basket's total |
| Cli.FoodDeletion | app/cli.py:109 | a valid food number gives an index inside the food menu |
| Cli.BookDeletion | app/cli.py:120 | a valid book number gives an index inside the book menu |
| Cli.DeleteByShownNumber | app/cli.py:105-125 | typing the number shown for food i deletes food i and no book; for book j it deletes book j and no food |
| Cli.DeleteFoodItem | app/cli.py:105-114 | on a valid number exactly that food item is popped and the rest keep their order; otherwise nothing changes; books never change |
| Cli.DeleteBookItem | app/cli.py:116-125 | on a valid number exactly that book is popped; otherwise nothing changes; food never changes |
| Cli.StaffSession | app/cli.py:72-131 | the menus after the employee loop are the employee commands before "exit to main menu", applied in order |
| Cli.AddKeepsNumbering | app/cli.py:85-103 | adding keeps every earlier item (and so its number) and leaves the other menu unchanged |
| Cli.HandleVisit | app/cli.py:32-138 | a customer visit appends its basket total and leaves the menus unchanged; an employee visit runs its session |
| Cli.RunCli | app/cli.py:23-138 | the menus and printed totals after the top-level loop are those of the visits before "exit", in order |
| Orders.ReadOrders | app/routes_food.py:55-65 | a missing or unparsable order file reads as no records; the consequence is `Orders.UnreadableFileStartsOver` |
| Orders.UnreadableFileStartsOver | app/routes_food.py:55-85 | after an order on a missing or unparsable file, the file holds only the new customer's record with the new lines |
| Orders.LinesTotal | app/routes_food.py:39-44 | `total_amount`, the sum of price × quantity over the lines; its additivity is `Orders.LinesTotalAppend` |
| Orders.LinesTotalAppend | app/routes_food.py:39-44 | `total_amount` is additive over the lines, so it is the sum of price × quantity |
| Orders.Merge | app/routes_food.py:67-81 | with a matching record the count is unchanged; otherwise exactly one record `{name, orders: lines}` is appended; every other record is unchanged and no name changes |
| Orders.MergeExtends | app/routes_food.py:67-81 | the customer's lines become the old ones (none if the record had no orders) followed by the new ones |
| Orders.MergeKeepsOthers | app/routes_food.py:67-81 | every other customer's lines are unchanged |
| Orders.MergeKeepsNamesDistinct | app/routes_food.py:67-81 | a file whose names are distinct keeps them distinct, and the customer then has a record |
| Orders.OrderLog.constructor | app/routes_food.py:56 | the log starts as the order file found on disk |
| Orders.OrderLog.Record | app/routes_food.py:55-85 | the file afterwards holds the merge of what was read with the new lines |
| FoodRoutes.FoodLineFor | app/routes_food.py:41-52 | one order line priced and described from the menu; `FoodRoutes.FirstDishWins` and `FoodRoutes.UnknownDishIsFree` state which entry |
| FoodRoutes.FirstDishWins | app/routes_food.py:42-43 | the first dish with the requested name supplies description and price, and the line's amount is that price × quantity |
| FoodRoutes.UnknownDishIsFree | app/routes_food.py:42-43 | a name not on the menu gets "No description available" and price 0 |
| FoodRoutes.FoodOrder | app/routes_food.py:33-52 | ValueError exactly when a quantity within the zip is not an integer; otherwise `min` of the two lengths lines, in input order, all with the order number and name, each priced from the menu, with total the sum of the amounts |
| FoodRoutes.BuildFoodOrder | app/routes_food.py:37-52 | the loop produces exactly `FoodOrder`'s lines and total |
| FoodRoutes.PostOrderFood | app/routes_food.py:33-91 | no token is needed; a bad quantity fails with the file untouched; otherwise the file holds the merge and the confirmation shows the lines, the type "food", the total and whether a mail was requested |
| FoodRoutes.GetAddFood | app/routes_food.py:16-18 | the page is served exactly when the request passes the bearer dependency and `get_current_user`; otherwise a 401, and "Not authenticated" whenever the header is missing |
| FoodRoutes.PostAddFood | app/routes_food.py:20-26 | when the request resolves to a user the dish is appended to the food menu and books stay; otherwise the 401 propagates and nothing changes |
| FoodRoutes.IssuedTokenOpensAddFood | app/routes_food.py:16 | an unexpired access token opens the add-food page as "Bearer " + token, or in the query behind a bare "Bearer " header; in the query alone it is refused |
| BookRoutes.BookLineFor | app/routes_book.py:40-48 | one order line priced from the menu; `BookRoutes.FirstBookWins` and `BookRoutes.UnknownBookIsFree` state which entry |
| BookRoutes.FirstBookWins | app/routes_book.py:40 | the first book with the requested title supplies the price |
| BookRoutes.UnknownBookIsFree | app/routes_book.py:40 | a title not on the menu is ordered at price 0 |
| BookRoutes.BookOrder | app/routes_book.py:32-48 | ValueError exactly when a quantity within the zip is not an integer; otherwise `min` of the two lengths lines, in order, sharing the order number and name, with total the sum of the amounts |
| BookRoutes.BuildBookOrder | app/routes_book.py:35-48 | the loop produces exactly `BookOrder`'s lines and total |
| BookRoutes.PostOrderBook | app/routes_book.py:32-87 | a bad quantity fails with the file untouched; otherwise the book order file holds the merge and the confirmation shows the lines, type "book" and the total |
| BookRoutes.PostAddBook | app/routes_book.py:19-25 | with no credential at all the book is appended and the food menu stays |
| BookRoutes.AddBookIsOpen | app/routes_book.py:15-19 | a request with no `Authorization` header, whatever its query, is refused by add-food with 401 and served by add-book (`AddBookPage`) |

## Left out

- Cryptography is not computed. bcrypt, HS256 signing and decoding, and the HOTP code function are the caller-supplied `Crypto` records, constrained only by `BcryptLaws`, `JoseLaws` and, where stated, `BcryptCollisionFree`.
- Auth.PepperBindsHash: assumes collision-free bcrypt. Real bcrypt truncates input at 72 bytes, so a long password plus pepper can verify against a different password with the same first 72 bytes.
- Crypto.JoseLaws: covers signature and expiry only. Audience, not-before and algorithm-header checks are not modelled beyond `WellTyped` excluding those claims.
- Crypto.TotpAccepts: at time step 0, pyotp would compute the code for counter -1 and raise. The model compares against an arbitrary value there instead of raising. This affects only the first 30 seconds after the Unix epoch.
- Auth.IsRandomBase32: restricts the secret to the shape of `pyotp.random_base32()`. Provisioning-URI formatting is inside `PyOtp`; the base32 decoding of a stored secret is `Crypto.SecretDecodeError`.
- The parsing of `ACCESS_TOKEN_EXPIRE_MINUTES` with `int()` is not modelled. The value comes in already parsed, and a malformed value, which would raise at token creation, is not modelled.
- Endpoints.Login: main.py imports `init_db` but never calls it, so on a fresh database `store_totp_secret` raises "no such table" inside `/token`, after the password check. The model's secret store always has its table, so `Login` does not fail there.
- Crypto.JoseLaws: python-jose refuses to encode a payload whose `jti` claim is not a string. The law promises a round trip for every well-typed payload and does not model that refusal; no caller here passes a `jti`.
- Crypto.TotpAccepts: pyotp normalises both codes to Unicode NFKC before comparing them. The model compares the strings as given.
- SQLite connections, async/await and the `print` in `init_db`'s error handler are not modelled. Store calls are sequential map updates, and `init_db` failing is not modelled.
- The unused in-memory `totp_secrets` dict in app/auth.py:39, `app/exceptions.py`, logging, the logout route, static mounting and the HTML pages behind the GET routes are not modelled.
- FastAPI's `OAuth2PasswordBearer` is modelled only as far as its decision (`Auth.BearerCredential`); the `WWW-Authenticate` response header is not. Form parsing and `OAuth2PasswordRequestForm` validation are not modelled.
- JSON loading and saving of the menus (`load_data` and `save_data`; app/utils_data.py is not part of this model) is represented by the `Menus` object. The order-file write is the assignment in `OrderLog.Record`. Failures while writing are not modelled.
- Orders.Merge: assumes every stored record has a `name`. A record without one makes the Python generator raise KeyError, and the model cannot express such a record.
- The order routes' e-mail confirmation is reduced to whether it is sent (`EmailRequested`). The SMTP transport and its failures (app/utils_email.py) are not modelled.
- Float prices are whole pence. `float(input(...))` in the CLI and the `price: float` form fields are not parsed, so a non-numeric price (ValueError in the CLI, 422 on the web) is not modelled.
- Quantities come in as the outcome of `int(qty)` per field (`None` where it raises), so Python's `int` grammar (signs, blanks, underscores) is not modelled.
- PyStr.IsDigits: ASCII digits only. Python's `isdigit` also accepts other Unicode digits (for example superscripts, for which `int` then raises), so those inputs are not modelled.
- PyStr.Lower: ASCII letters only. Python's `lower` also folds non-ASCII letters, so a non-ASCII spelling that lowercases to "done" is not modelled as ending the basket loop.
- Cli.RunCli, Cli.TakeOrder, Cli.StaffSession: console input ends when the given lines end. In the program `input()` then raises EOFError (app/cli.py:30, app/cli.py:40, app/cli.py:79); the model treats the end of input as a normal end of the loop: a basket with no "done" line, or an employee session with no exit command, simply finishes.
- Cli.RunCli, Cli.StaffSession: the string comparisons that dispatch a menu choice (`option == "1"` to `"3"` and `emp_option == "1"` to `"6"`, app/cli.py:32-133) are not modelled. A visit arrives as a `Visit` and an employee command as a `StaffCommand` with its fields already read; any other choice is `UnknownOption` or `UnknownStaffOption`, which, as in the program, only prints a message.
- Console output (`print`) of listings, baskets and totals is not modelled. The printed total is returned instead. The listing is a value (`Cli.Listing`) and is not printed.
- The Flask app in `app/__init__.py` and `app/routes.py`, `generate_password_hash.py` and commented-out code are not part of this model.
