# Crypto App backend, modelled in Dafny

This project models the service layer of the Crypto App backend, a Spring Boot
application. The backend does three things:

- It keeps users' cryptocurrency portfolios: buy and sell transactions, and the
  holdings derived from them.
- It serves market data from CoinGecko through three in-memory caches.
- It manages user accounts: registration, login, a reset-code flow for
  forgotten passwords, and a JWT cookie or bearer token that authenticates
  later requests.

The model has one module per component, and all the files are verified
together:

| file | module | models |
|---|---|---|
| `common.dfy` | `Common` | Option, Result and error kinds; ASCII `equalsIgnoreCase` |
| `config.dfy` | `Config` | `CryptoAppProperties`: the environment setting, `isProduction` |
| `requests.dfy` | `Requests` | Bean Validation constraints of the four request records |
| `ledger.dfy` | `Ledger` | portfolio, transaction and holding entities; the `Store` of the three tables; the holding update rule and its replay over a list |
| `portfolio_service.dfy` | `PortfolioService` | `PortfolioService` |
| `holding_service.dfy` | `HoldingService` | `HoldingService`, and the list update `createTransaction` calls |
| `transaction_service.dfy` | `TransactionService` | `TransactionService` |
| `coin_service.dfy` | `CoinService` | `CoinService` and its three caches (class `CoinCache`) |
| `accounts.dfy` | `Accounts` | `AppUserService` with its user and reset-code tables (class `AccountStore`) |
| `jwt.dfy` | `Jwt` | `JwtService` and `JwtAuthenticationFilter` |

Services that change tables are methods of, or on, a class:

- `Ledger.Store` holds portfolios, transactions and holdings.
- `CoinService.CoinCache` holds the three cache maps.
- `Accounts.AccountStore` holds users and reset codes.
- `Jwt.FilterState` holds the request's security context.

Each method's `ensures` gives the whole new state in terms of specification
functions. Lemmas prove the properties the source promises about those
functions.

**Inputs the model takes as parameters.** Where the Java code reads a clock,
draws a random number, calls the network or calls a library, the model takes
the result as a parameter:

- Clock readings are `now`. Cache and reset-code times are nanoseconds; JWT
  times are epoch seconds.
- `Math.random` draws are a sequence of integers in [0, 26).
- The CoinGecko API is a function from URL to `Fetch`: a body, a null body, or
  a `RestClientException` message.
- JWT signing and verification are a `Signer` pair of functions. `Sound`
  states that verifying a signed token gives back its claims.
- The password encoder is the injective `Encode`.
- The outcome of sending a mail is an `Outcome` argument.
- Deleting an account reads the portfolio table, which lives in `Ledger.Store`,
  as the set of owners of the stored portfolios.

**The holding rule is not a net-sum ledger.** One might expect a holding to
equal the quantity bought minus the quantity sold, to vanish when that reaches
zero, and to recompute idempotently. The code differs in three ways:

- **A sell clamps.** A sell that takes a holding to or below zero deletes it,
  so a later buy restarts from zero. `Ledger.ReplayIsOrderDependent` shows two
  orderings of the same transactions that end at 3 and at 1.
  `HoldingService.RecomputeIsNetSum` proves the net-sum property only when no
  sell oversells.
- **A buy is saved whatever the result.** A buy of zero stores a
  zero-quantity holding. `Ledger.BuySavesEvenWhenNotPositive` shows this.
- **The list update is never defined.** `createTransaction` calls
  `updateHolding(List)`, which `HoldingService` does not define. It is
  modelled as an explicit assumption: clear the holdings of the list's keys,
  then apply `updateHoldingFromTransaction` to each transaction in list order.
  `Ledger.RecomputeIdempotent` proves that this recomputation is idempotent.

Similarly, `updatePortfolio` calls `existsByNameAndUserAndIdNot`, which
`PortfolioDao` does not declare. It is modelled by the meaning of its name as
`PortfolioService.NameTakenByOther`.

## Model

| member | source | states |
|---|---|---|
| Common.Lower | backend/src/main/java/net/tylerwade/cryptoapp/config/CryptoAppProperties.java:18 | case folding keeps the length and folds each character on its own, A-Z to a-z and nothing else |
| Common.EqualsIgnoreCaseBasics | backend/src/main/java/net/tylerwade/cryptoapp/portfolio/holding/HoldingService.java:43-46 | equal strings match ignoring case; strings that match ignoring case have equal length; the match is symmetric |
| Config.IsProductionExactly | backend/src/main/java/net/tylerwade/cryptoapp/config/CryptoAppProperties.java:17-19 | an environment is production iff it has the length of "production" and each character lower-cases to the matching letter (both directions) |
| Config.DefaultIsNotProduction | backend/src/main/java/net/tylerwade/cryptoapp/config/CryptoAppProperties.java:15-19 | the default "development" is not production; "Production" and "PRODUCTION" are; "prod" is not |
| Requests.NotBlankMeansVisibleChar | backend/src/main/java/net/tylerwade/cryptoapp/portfolio/transaction/dto/CreateTransactionRequest.java:10 | @NotBlank (trimmed value non-empty) holds iff the value has a character above U+0020 |
| Requests.CreateTransactionAccepted | backend/src/main/java/net/tylerwade/cryptoapp/portfolio/transaction/dto/CreateTransactionRequest.java:10-26 | a request has no violation iff cryptoId is non-blank and at most 255 long and type is exactly "buy" or "sell"; amounts are unconstrained |
| Requests.TypeViolationMessage | backend/src/main/java/net/tylerwade/cryptoapp/portfolio/transaction/dto/CreateTransactionRequest.java:14-17 | a type outside buy/sell yields the pattern violation with message "Type must be either 'buy' or 'sell'"; "BUY" is rejected (case-sensitive) |
| Requests.NegativeAmountsAccepted | backend/src/main/java/net/tylerwade/cryptoapp/portfolio/transaction/dto/CreateTransactionRequest.java:19-26 | negative and zero quantity, price and fee pass validation |
| Requests.RegisterAccepted | backend/src/main/java/net/tylerwade/cryptoapp/auth/dto/RegisterRequest.java:9-28 | a registration has no violation iff names are non-blank and at most 50 long, the username is non-blank, e-mail-shaped and 3..255 long, and both passwords are non-blank and 8..255 long |
| Requests.RegisterAcceptsMismatchedPasswords | backend/src/main/java/net/tylerwade/cryptoapp/auth/dto/RegisterRequest.java:22-28 | a request whose password and verifyPassword differ is accepted |
| Requests.ChangePasswordAccepted | backend/src/main/java/net/tylerwade/cryptoapp/auth/dto/ChangePasswordRequest.java:8-20 | accepted iff code and username are non-blank (any length) and both new passwords are non-blank and 8..255 long |
| Requests.LoginAccepted | backend/src/main/java/net/tylerwade/cryptoapp/auth/dto/LoginRequest.java:8-13 | accepted iff username and password are non-blank and at most 255 long |
| Requests.LoginAcceptsOneCharPassword | backend/src/main/java/net/tylerwade/cryptoapp/auth/dto/LoginRequest.java:11-13 | a one-character password passes login validation |
| Ledger.Apply | backend/src/main/java/net/tylerwade/cryptoapp/portfolio/holding/HoldingService.java:30-59 | a missing holding counts as 0; a buy adds and keeps the holding; a sell subtracts and deletes the holding at or below 0; no other key changes |
| Ledger.PriceAndFeeIgnored | backend/src/main/java/net/tylerwade/cryptoapp/portfolio/holding/HoldingService.java:43-48 | price and fee never affect the holding update |
| Ledger.BuySavesEvenWhenNotPositive | backend/src/main/java/net/tylerwade/cryptoapp/portfolio/holding/HoldingService.java:43-59 | a buy of 0 on a new key stores a 0 holding, and a "BUY" of -2 stores -2 |
| Ledger.ReplayAppend | backend/src/main/java/net/tylerwade/cryptoapp/portfolio/transaction/TransactionService.java:50 | replaying a concatenation replays the first part, then the second only if the first had no unknown type |
| Ledger.ReplayFrame | backend/src/main/java/net/tylerwade/cryptoapp/portfolio/holding/HoldingService.java:32 | replaying a list changes no holding outside the list's keys |
| Ledger.RecomputeIdempotent | backend/src/main/java/net/tylerwade/cryptoapp/portfolio/transaction/TransactionService.java:50 | recomputing the holdings from the same list twice gives what recomputing once gives |
| Ledger.ReplayIsRunningSum | backend/src/main/java/net/tylerwade/cryptoapp/portfolio/holding/HoldingService.java:43-53 | for known transactions of one key with no oversell, replay ends at the start quantity plus bought minus sold |
| Ledger.ReplaySumExample | backend/src/main/java/net/tylerwade/cryptoapp/portfolio/holding/HoldingService.java:43-59 | buy 2, buy 3, sell 1 leaves 4 |
| Ledger.ReplayIsOrderDependent | backend/src/main/java/net/tylerwade/cryptoapp/portfolio/holding/HoldingService.java:43-53 | [buy 3, sell 5, buy 3] ends at 3 while its permutation [buy 3, buy 3, sell 5] ends at 1 |
| Ledger.Store.constructor | backend/src/main/java/net/tylerwade/cryptoapp/portfolio/Portfolio.java:31-49 | the empty tables satisfy the store invariant |
| PortfolioService.FindByIdAndUser | backend/src/main/java/net/tylerwade/cryptoapp/portfolio/PortfolioService.java:79-82 | success iff the id exists and the user owns it, returning that portfolio; otherwise not-found "Portfolio not found." |
| PortfolioService.FindAllByUser | backend/src/main/java/net/tylerwade/cryptoapp/portfolio/PortfolioService.java:68-70 | exactly the portfolios the user owns |
| PortfolioService.AddKeepsNamesUnique | backend/src/main/java/net/tylerwade/cryptoapp/portfolio/PortfolioService.java:29-41 | adding a portfolio whose name its owner does not use keeps names unique per user |
| PortfolioService.RenameKeepsNamesUnique | backend/src/main/java/net/tylerwade/cryptoapp/portfolio/PortfolioService.java:55-60 | renaming to a name no other portfolio of the owner uses keeps names unique per user |
| PortfolioService.CreatePortfolio | backend/src/main/java/net/tylerwade/cryptoapp/portfolio/PortfolioService.java:27-42 | bad-request and no change when the same user has that name; otherwise exactly one new portfolio with that name and owner under the next identity value, which advances by one; the transaction counter never moves |
| PortfolioService.UpdatePortfolio | backend/src/main/java/net/tylerwade/cryptoapp/portfolio/PortfolioService.java:52-61 | not-found first for an absent or foreign id; bad-request only if another portfolio of the user has the name; otherwise only the name changes; neither identity counter moves |
| PortfolioService.WithoutPortfolio | backend/src/main/java/net/tylerwade/cryptoapp/portfolio/Portfolio.java:44-46 | keeps exactly the transactions of other portfolios |
| PortfolioService.WithoutPortfolioKeepsOrder | backend/src/main/java/net/tylerwade/cryptoapp/portfolio/Portfolio.java:44-46 | removing a portfolio's transactions keeps the identity column increasing |
| PortfolioService.DeletePortfolio | backend/src/main/java/net/tylerwade/cryptoapp/portfolio/PortfolioService.java:89-92 | not-found and no change for an absent or foreign id; otherwise the portfolio, its transactions and its holdings are removed and nothing else; neither identity counter moves, so deleted ids are not reused |
| HoldingService.FindById | backend/src/main/java/net/tylerwade/cryptoapp/portfolio/holding/HoldingService.java:25-28 | success iff the holding exists and the user owns its portfolio; otherwise not-found "Holding not found" |
| HoldingService.GetAllByPortfolioIdAndUser | backend/src/main/java/net/tylerwade/cryptoapp/portfolio/holding/HoldingService.java:20-23 | fails with not-found iff the user does not own the portfolio; otherwise exactly that portfolio's holdings |
| HoldingService.UpdateHoldingFromTransaction | backend/src/main/java/net/tylerwade/cryptoapp/portfolio/holding/HoldingService.java:30-60 | a known type changes the holdings as `Apply` says; any other type fails with "Invalid transaction type: ..." and changes nothing |
| HoldingService.UpdateHolding | backend/src/main/java/net/tylerwade/cryptoapp/portfolio/transaction/TransactionService.java:50 | the holdings become the recomputation from the list; the result fails on the first transaction of unknown type |
| HoldingService.RecomputeForgetsOldHoldings | backend/src/main/java/net/tylerwade/cryptoapp/portfolio/transaction/TransactionService.java:50 | the recomputed holdings of the list's keys do not depend on what was stored before |
| HoldingService.RecomputeIsNetSum | backend/src/main/java/net/tylerwade/cryptoapp/portfolio/holding/HoldingService.java:43-53 | a non-empty one-key history of buys and sells with no oversell recomputes to exactly bought minus sold |
| TransactionService.Where | backend/src/main/java/net/tylerwade/cryptoapp/portfolio/transaction/TransactionDao.java:11-13 | keeps exactly the transactions of the portfolio (and coin, when given) |
| TransactionService.WhereSnoc | backend/src/main/java/net/tylerwade/cryptoapp/portfolio/transaction/TransactionService.java:48-50 | after a row is appended, the filtered list gains that row at its end exactly when it matches |
| TransactionService.GetAllByCryptoId | backend/src/main/java/net/tylerwade/cryptoapp/portfolio/transaction/TransactionService.java:62-64 | exactly the stored transactions of that portfolio and coin, and only when the user owns the portfolio |
| TransactionService.GetAll | backend/src/main/java/net/tylerwade/cryptoapp/portfolio/transaction/TransactionService.java:72-74 | exactly the stored transactions of that portfolio, and only when the user owns it |
| TransactionService.FromRequest | backend/src/main/java/net/tylerwade/cryptoapp/portfolio/transaction/TransactionService.java:37-46 | the new transaction copies coin, type, quantity, price and fee from the request and belongs to the portfolio |
| TransactionService.CreateTransaction | backend/src/main/java/net/tylerwade/cryptoapp/portfolio/transaction/TransactionService.java:33-53 | not-found and no change without ownership; otherwise the transaction is appended, the holdings become the recomputation from the coin's history (ending with it), and it is returned unless a type is unknown |
| TransactionService.SaveTransaction | backend/src/main/java/net/tylerwade/cryptoapp/portfolio/transaction/TransactionService.java:48 | the transaction built from the request is appended under the next identity value and nothing else changes, keeping ids increasing |
| TransactionService.CreateTouchesOneHolding | backend/src/main/java/net/tylerwade/cryptoapp/portfolio/transaction/TransactionService.java:48-50 | recomputing from one coin's history leaves every other holding as it was |
| TransactionService.ValidatedTypeIsKnown | backend/src/main/java/net/tylerwade/cryptoapp/portfolio/transaction/dto/CreateTransactionRequest.java:14-17 | a validated request's type is one the holding update accepts |
| CoinService.Digits | backend/src/main/java/net/tylerwade/cryptoapp/coins/CoinService.java:69 | a non-empty string of decimal digits with no leading zero |
| CoinService.ParseDigitsOfDigits | backend/src/main/java/net/tylerwade/cryptoapp/coins/CoinService.java:69 | reading back the digits of n gives n |
| CoinService.Decimal | backend/src/main/java/net/tylerwade/cryptoapp/coins/CoinService.java:69 | `%d` formatting: a leading minus exactly for negatives, then only decimal digits, with no leading zero except for 0, that read back to the number |
| CoinService.AbsentAndEmptyIdsShareUrl | backend/src/main/java/net/tylerwade/cryptoapp/coins/CoinService.java:69-72 | a null and an empty ids filter are different cache keys but produce the same URL |
| CoinService.PageServedForOneWindow | backend/src/main/java/net/tylerwade/cryptoapp/coins/CoinService.java:45-80 | after a miss, the fetched page (even a null one) is served exactly at times strictly before now + window, and equals what was returned |
| CoinService.ErrorsLeaveCachesAlone | backend/src/main/java/net/tylerwade/cryptoapp/coins/CoinService.java:81-165 | a RestClientException fails every lookup and leaves every cache map unchanged |
| CoinService.WindowDependsOnEnvironment | backend/src/main/java/net/tylerwade/cryptoapp/coins/CoinService.java:48-59 | a three-minute-old page is served by default and refetched in production |
| CoinService.DataServedForOneWindow | backend/src/main/java/net/tylerwade/cryptoapp/coins/CoinService.java:92-127 | after a miss, data stamped now is served for exactly one window; a null body stores nothing and fails |
| CoinService.UnstampedEntriesMiss | backend/src/main/java/net/tylerwade/cryptoapp/coins/CoinService.java:98-143 | a coin-data or search entry with no timestamp is never served |
| CoinService.SearchWindowIgnoresEnvironment | backend/src/main/java/net/tylerwade/cryptoapp/coins/CoinService.java:140-147 | a five-minute-old search result is served even in production, where coin data of that age is not |
| CoinService.SearchServedForOneWindow | backend/src/main/java/net/tylerwade/cryptoapp/coins/CoinService.java:140-159 | after a miss, the result is served exactly at times strictly before now + 10 minutes |
| CoinService.CoinCache.constructor | backend/src/main/java/net/tylerwade/cryptoapp/coins/CoinService.java:30-32 | the three caches start empty |
| CoinService.CoinCache.GetCoins | backend/src/main/java/net/tylerwade/cryptoapp/coins/CoinService.java:42-84 | on a fresh hit, the cached page with no upstream call and no change; otherwise one request of the markets URL, its answer, and the listing cache refilled under this key only |
| CoinService.CoinCache.GetCoinById | backend/src/main/java/net/tylerwade/cryptoapp/coins/CoinService.java:91-131 | on a stamped fresh hit, the cached data; otherwise one request of the coin URL, the stamped answer or an error, and only non-null data stored |
| CoinService.CoinCache.SearchCoins | backend/src/main/java/net/tylerwade/cryptoapp/coins/CoinService.java:138-166 | the same as GetCoinById with the search URL and a ten-minute window in every environment |
| Accounts.EncodeInjective | backend/src/main/java/net/tylerwade/cryptoapp/auth/AppUserService.java:74 | the stored encoding tells passwords apart: `matches(a, encode(b))` iff a = b |
| Accounts.FindByUsername | backend/src/main/java/net/tylerwade/cryptoapp/auth/AppUserDao.java:10-12 | finds a user iff some stored username equals the given one ignoring case, and returns such a user |
| Accounts.OnlyOneUserPerUsername | backend/src/main/java/net/tylerwade/cryptoapp/auth/AppUserService.java:67-68 | in a table built by register, a username in any letter case names at most one user |
| Accounts.Login | backend/src/main/java/net/tylerwade/cryptoapp/auth/AppUserService.java:89-96 | success iff a user with that username (ignoring case) has a matching password, and the user returned is the one that username finds; every failure is the same unauthorized "Invalid email or password." |
| Accounts.FindById | backend/src/main/java/net/tylerwade/cryptoapp/auth/AppUserService.java:42-45 | the user with that id, or not-found "User not found." |
| Accounts.CodeOf | backend/src/main/java/net/tylerwade/cryptoapp/auth/AppUserService.java:177-184 | one upper-case letter per draw, letter i being 'A' plus draw i |
| Accounts.GenerateRandomCode | backend/src/main/java/net/tylerwade/cryptoapp/auth/AppUserService.java:177-184 | exactly `length` characters, each in A..Z, spelled by the first `length` draws |
| Accounts.CodeUsableForTwentyMinutes | backend/src/main/java/net/tylerwade/cryptoapp/auth/AppUserService.java:112-114 | a code issued at t (expiring at t + 10 min) is accepted iff now <= t + 20 min |
| Accounts.CodeIgnoresCase | backend/src/main/java/net/tylerwade/cryptoapp/auth/AppUserService.java:112 | the code "ABCDEF" is accepted when typed as "abcdef" |
| Accounts.RegisterThenLogin | backend/src/main/java/net/tylerwade/cryptoapp/auth/AppUserService.java:65-96 | a newly registered user logs in with the username in any case and the registered password, and with no other password |
| Accounts.AddKeepsWellFormed | backend/src/main/java/net/tylerwade/cryptoapp/auth/AppUserService.java:67-79 | storing a user with an untaken username keeps usernames unique ignoring case |
| Accounts.ChangeThenLogin | backend/src/main/java/net/tylerwade/cryptoapp/auth/AppUserService.java:122-123 | after a password change the new password logs in and a different old one does not |
| Accounts.AccountStore.constructor | backend/src/main/java/net/tylerwade/cryptoapp/auth/AppUserDao.java:9 | empty tables are well formed |
| Accounts.AccountStore.Register | backend/src/main/java/net/tylerwade/cryptoapp/auth/AppUserService.java:65-80 | conflict "Email already exists." and no change when the username is taken ignoring case; otherwise exactly one new user with the encoded password |
| Accounts.AccountStore.ForgotPassword | backend/src/main/java/net/tylerwade/cryptoapp/auth/AppUserService.java:149-175 | an unknown username changes nothing and succeeds; a known user's one code record becomes a fresh six-letter code expiring in 10 minutes, saved before the mail, whose outcome is returned |
| Accounts.AccountStore.ChangePassword | backend/src/main/java/net/tylerwade/cryptoapp/auth/AppUserService.java:102-142 | "Invalid username or code." and no change for a missing user, a missing, wrong or expired code; then "New passwords do not match." with the code kept; otherwise the new encoded password and the code deleted, whatever the mail does |
| Accounts.AccountStore.DeleteAccount | backend/src/main/java/net/tylerwade/cryptoapp/auth/AppUserService.java:198-206 | bad-request for no user, not-found for an unknown id; a failure with nothing removed while a reset code or a portfolio still refers to the user (the foreign keys, which do not cascade); otherwise exactly that user removed |
| Jwt.MillisToSeconds | backend/src/main/java/net/tylerwade/cryptoapp/config/security/jwt/JwtService.java:41 | Java long division by 1000: the quotient truncated toward zero |
| Jwt.ToInt32 | backend/src/main/java/net/tylerwade/cryptoapp/config/security/jwt/JwtService.java:78 | the (int) cast: a value in the int range, congruent modulo 2^32, and unchanged when already in range |
| Jwt.TokenClaims | backend/src/main/java/net/tylerwade/cryptoapp/config/security/jwt/JwtService.java:34-41 | subject is the user id; the username, names and issuer are copied; expiry is now plus the lifetime in whole seconds |
| Jwt.ExtractUserIdFromToken | backend/src/main/java/net/tylerwade/cryptoapp/config/security/jwt/JwtService.java:55-65 | succeeds iff the token verifies, with its subject |
| Jwt.TokenNamesItsUser | backend/src/main/java/net/tylerwade/cryptoapp/config/security/jwt/JwtService.java:32-61 | the user id extracted from a generated token is the user's id |
| Jwt.CreateCookie | backend/src/main/java/net/tylerwade/cryptoapp/config/security/jwt/JwtService.java:73-80 | cookie "auth_token" carrying the token, HTTP-only, path "/", secure iff production, max-age in the int range |
| Jwt.CreateLogoutCookie | backend/src/main/java/net/tylerwade/cryptoapp/config/security/jwt/JwtService.java:87-94 | empty value and max-age 0 |
| Jwt.LogoutCookieMirrorsAuthCookie | backend/src/main/java/net/tylerwade/cryptoapp/config/security/jwt/JwtService.java:73-94 | the logout cookie is the auth cookie with an empty value and max-age 0 |
| Jwt.CookieLivesAsLongAsToken | backend/src/main/java/net/tylerwade/cryptoapp/config/security/jwt/JwtService.java:41-78 | for lifetimes below 2^31 seconds, the cookie's max-age equals the token's expiry minus issue time |
| Jwt.LongLifetimeWraps | backend/src/main/java/net/tylerwade/cryptoapp/config/security/jwt/JwtService.java:78 | a lifetime of 2^31 seconds gives max-age -2^31 |
| Jwt.FirstAuthCookie | backend/src/main/java/net/tylerwade/cryptoapp/config/security/jwt/JwtAuthenticationFilter.java:61-67 | none iff no cookie is named auth_token ignoring case; otherwise the value of the first such cookie |
| Jwt.TokenFrom | backend/src/main/java/net/tylerwade/cryptoapp/config/security/jwt/JwtAuthenticationFilter.java:57-72 | a header starting with "Bearer " gives its remainder, whatever the cookies; otherwise the first auth cookie, or none |
| Jwt.ExtractToken | backend/src/main/java/net/tylerwade/cryptoapp/config/security/jwt/JwtAuthenticationFilter.java:57-72 | the loop with early return computes `TokenFrom` |
| Jwt.BearerEdgeCases | backend/src/main/java/net/tylerwade/cryptoapp/config/security/jwt/JwtAuthenticationFilter.java:59-71 | "Bearer " gives the empty token; "bearer x" is not a bearer header; a bearer header beats an auth cookie |
| Jwt.CookieEdgeCases | backend/src/main/java/net/tylerwade/cryptoapp/config/security/jwt/JwtAuthenticationFilter.java:62-66 | "AUTH_TOKEN" matches, and the first of two auth cookies wins |
| Jwt.Authenticated | backend/src/main/java/net/tylerwade/cryptoapp/config/security/jwt/JwtAuthenticationFilter.java:27-47 | a user iff a token is found, verifies, and names a stored user, which is that user |
| Jwt.LoginCookieAuthenticates | backend/src/main/java/net/tylerwade/cryptoapp/config/security/jwt/JwtAuthenticationFilter.java:33-47 | sending back the login cookie before the token expires authenticates as the user who logged in (expiry is not modelled, so the lemma holds at every time) |
| Jwt.FilterState.constructor | backend/src/main/java/net/tylerwade/cryptoapp/config/security/jwt/JwtAuthenticationFilter.java:25 | a request starts unauthenticated with the chain not yet invoked |
| Jwt.FilterState.DoFilter | backend/src/main/java/net/tylerwade/cryptoapp/config/security/jwt/JwtAuthenticationFilter.java:25-55 | the chain runs exactly once; authentication is set only when verification and lookup both succeed; a user is looked up iff a token was found and verifies |

## Left out

- Null values are not modelled: null strings, a null environment (on which `isProduction` throws), a null cache entry, null cookies inside the array. Absent request values (header, cookie array, ids filter, user) are `Option`.
- Case folding covers ASCII letters only; Java's `equalsIgnoreCase` also folds other Unicode letters. String lengths are counted in characters, not UTF-16 units.
- Database behaviour: the collation of name and coin-id queries is taken as case-sensitive, list results come back in insertion order, and ids come from counters.
- `createdAt`/`modifiedAt` audit timestamps and the market fields of `Coin`, `CoinData` and `SearchResult` are not modelled.
- Each call reads one `now`; the Java code reads the clock several times per call.
- The request headers (the Accept header and the API key) are not sent: the code passes them as a URI variable, and URI-template expansion and encoding are not modelled. URLs are plain concatenation.
- Floating point: quantities, prices and fees are `real`, so rounding is not modelled.
- Concurrency: the cache maps and the holding table are used by one caller at a time.
- `loadUserByUsername` is not modelled separately; it is `Accounts.FindByUsername` with a different exception.
- The reset-password e-mail text (`buildResetPasswordEmailText`) and mail delivery are not modelled; a mail's outcome is an input.
- The JWT library's own expiry check inside parsing, HMAC key construction, and the LocalDateTime-as-UTC conversion of the expiry are not modelled; `Signer` stands for the library.
- The message of a wrapped `RestClientException` is kept as is; the exception chain is not modelled.
- Accounts.AccountStore.DeleteAccount: the portfolio table is not part of the account store, so the owners of the stored portfolios are an input; the refusal is modelled as one error kind, without the database's message, which the catch-all handler answers with status 500. Deleting a portfolio needs no such check: its transactions and holdings go with it by orphan removal.
- The page and per-page numbers of the markets URL are printed with ASCII digits; `String.format` uses the digits of the JVM's default locale, which is assumed to be one that prints ASCII digits.
- Accounts.AccountStore.Register: the UUID of the new user is a parameter assumed fresh (`freshId !in users`), not generated.
- HoldingService.UpdateHolding: `updateHolding(List)` is not defined in the source, so its behaviour is an assumption (described above), not a model of existing code.
- Validation of request records is stated as predicates; the controllers that reject invalid requests before calling the services are not modelled.
