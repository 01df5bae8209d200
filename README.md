# Password, QR and URL-shortener APIs: a verified Dafny model

The repository bundles three small PHP HTTP APIs that share a hand-rolled
router:

- a password generator and validator, with the password holder and its
  factory;
- a QR-code generator that validates its parameters and hands them to a
  rendering library;
- a URL shortener over a SQL table.

This project models their domain logic in Dafny and proves what that logic
promises.

One Dafny module per source file:

| module | file | models |
|---|---|---|
| `PasswordGenerator` | `models/Passwordgenerator.php` | `generate_password`, `generate_passwords`, `shuffle_secure` |
| `PasswordValidator` | `generateMultiple/models/PasswordValidator.php` | `validate`, `calculateStrength` |
| `PasswordHolder` | `generateMultiple/models/Password.php` | class `Password` |
| `PasswordFactory` | `generateMultiple/models/PasswordFactory.php` | `create`, `fromRequest` |
| `ConfigStore` | `models/Password.php` | class `Config` and its dotted-key lookups |
| `UrlShortenerService` | `url-shortener/models/UrlShortenerService.php` | `generateCode`, `validateUrl`, `getClientIp` |
| `ShortUrls` | `url-shortener/models/ShortUrl.php` | class `ShortUrl` over a modelled database |
| `QrGenerator` | `qr-api/models/QrGenerator.php` | class `QrGenerator` |
| `Router` | `generateMultiple/core/Router.php` | class `Router` |

The supporting modules are these:

- `Wrappers` holds `Option` and `Result`.
- `Random` is the random oracle.
- `PhpValues` holds the scalar request values with `(int)` and PHP
  truthiness.
- `PhpStrings` holds the PHP string built-ins the core uses:
  - `trim`, `strtoupper` and `strtolower`;
  - `empty` on strings;
  - `explode` and `implode`;
  - the `(int)` cast.

How the model is built:

- **Randomness.** Every `random_int($lo, $hi)` call is an answer of an
  arbitrary stream `stream: nat -> int` at the current call index k.
  `Random.Draw` clamps that answer into `[lo, hi]`. Operations take the
  stream and the first index, and return the next free index.
  - Any sequence of in-range answers is produced by some stream
    (`Random.EveryAnswerReachable`). A property proved for all streams
    therefore holds for every possible run.
- **Specification functions and methods.**
  - The generator's loops and the in-place Fisher–Yates shuffle over an
    `array` are methods (`GeneratePassword`, `ShuffleSecure`, and so on).
  - Each method is proved equal to a specification function (`Generate`,
    `Shuffled`). The properties are proved as lemmas on those functions.
  - The validator's counters, the config lookup loops, the code-generation
    loop and the router's dispatch loop follow the same pattern.
- **Objects.**
  - `Password`, `Config`, `QrGenerator`, `Router` and `ShortUrl` are
    classes with the source's fields.
  - The connection that `ShortUrl` uses is a `Database` class holding the
    `short_urls` rows keyed by their unique code, the `url_visits` rows in
    order, and the last auto-increment id.
- **Strings.** Strings are `seq<char>`, with one character standing for
  one byte, as `strlen` counts.

Where the specification of the repository and its code disagree, the
model follows the code:

- **The symbol set.** It is the 26 characters
  `!@#$%^&*()-_=+[]{}|;:,.<>?` (`models/Passwordgenerator.php:48`), not a
  21-character set.
- **The generator's defaults.** Every class is on, ambiguous characters
  are avoided, and one character of each class is required
  (`models/Passwordgenerator.php:33-41`). The factory overrides these
  defaults with its own (symbols off, ambiguous characters allowed), and
  it always passes all seven keys.
- **`require_each` with a short length.** When `length` is below the
  number of enabled classes, the code returns the seed alone: one
  character per class, so the password is longer than `length`.
  `PasswordGenerator.ExpectedLength` states this. The model does not
  truncate or reject.
- **The strength labels.** They are the source's Spanish labels
  (`muy_debil` ... `muy_fuerte`).
- **The maximum-length check.** It is counted only when the password
  exceeds the maximum, and then it fails.

The strength threshold "`len * log2(A) < T`" is stated exactly as
`A^len < 2^T`. `A` is the estimated alphabet size, counted as 1 when no
class matched.

## Model

| member | source | states |
|---|---|---|
| Random.Draw | models/Passwordgenerator.php:4-7 | every answer lies in `[lo, hi]`; an answer already in range is used as is |
| Random.EveryAnswerReachable | models/Passwordgenerator.php:4-7 | every sequence of in-range answers is produced by some stream, so all-streams lemmas cover every run of `random_int` |
| PasswordGenerator.EnabledMembers | models/Passwordgenerator.php:51-54 | a class is enabled exactly when its option is on, and no class is listed twice |
| PasswordGenerator.SelectClasses | models/Passwordgenerator.php:51-54 | the method yields the enabled classes and their raw alphabets |
| PasswordGenerator.FilterMembers | models/Passwordgenerator.php:72-76 | a character survives filtering exactly when it is in the alphabet and not excluded |
| PasswordGenerator.FirstEmpty | models/Passwordgenerator.php:72-81 | the index of the first filtered class left empty; none exactly when every class kept a character |
| PasswordGenerator.FilterClasses | models/Passwordgenerator.php:72-83 | the filtering loop either yields every filtered alphabet, all non-empty, or stops at the first class the exclusions empty |
| PasswordGenerator.FilteredSetEmpty | models/Passwordgenerator.php:72-81 | a filtered alphabet is empty exactly when every character of its class is excluded |
| PasswordGenerator.ConfigError | models/Passwordgenerator.php:29-88 | no error exactly when the length is at least 1, a class is enabled and every enabled class keeps a character |
| PasswordGenerator.ConfigErrorOrder | models/Passwordgenerator.php:29-60 | the length error exactly for length below 1; the no-class error exactly for a valid length with every class off; the pool error never |
| PasswordGenerator.ConfigErrorExhausted | models/Passwordgenerator.php:72-81 | the exhausted-class error names `c` exactly when the length is valid and `c` is the first enabled class left empty |
| PasswordGenerator.GenerateFailsOnlyOnConfig | models/Passwordgenerator.php:27-106 | a call fails exactly on a configuration error, raises that error and draws nothing |
| PasswordGenerator.ConcatMembers | models/Passwordgenerator.php:85 | a character is in the pool exactly when it is in some filtered class |
| PasswordGenerator.PoolAvoidsExclusions | models/Passwordgenerator.php:62-85 | every pool character is outside the exclusions, ambiguous characters included when avoided, and belongs to an enabled class |
| PasswordGenerator.SeedFromEachClass | models/Passwordgenerator.php:92-97 | the seed loop draws one character per class, in class order, using one draw each |
| PasswordGenerator.SeedsFromTheirClasses | models/Passwordgenerator.php:92-97 | the i-th seed character comes from the i-th class |
| PasswordGenerator.FillFromPool | models/Passwordgenerator.php:99-103 | the fill loop draws `max(needed, 0)` characters from the pool |
| PasswordGenerator.FillFromThePool | models/Passwordgenerator.php:99-103 | every fill character is a pool character |
| PasswordGenerator.DrawChars | models/Passwordgenerator.php:90-103 | the seed-then-fill loops compute the specified character sequence and advance the oracle by its length |
| PasswordGenerator.DrawnShape | models/Passwordgenerator.php:90-103 | the drawn sequence is `length` long, or one per class when the seed is longer; the seed comes first, one per class |
| PasswordGenerator.DrawnCharInPool | models/Passwordgenerator.php:90-103 | every drawn character is in the pool |
| PasswordGenerator.SwapPreservesMultiset | models/Passwordgenerator.php:15-17 | a swap keeps the length and the multiset of characters |
| PasswordGenerator.ShuffleStepsPermutes | models/Passwordgenerator.php:13-18 | the Fisher–Yates steps from any index keep the length and the multiset |
| PasswordGenerator.ShuffledPermutes | models/Passwordgenerator.php:9-20 | the shuffled string is a permutation of its input |
| PasswordGenerator.ShuffleSecure | models/Passwordgenerator.php:9-20 | the in-place array shuffle computes `Shuffled`, a permutation of the input, with one draw per index from n-1 down to 1 |
| PasswordGenerator.AssemblePassword | models/Passwordgenerator.php:85-105 | the pool, seed, fill and shuffle steps succeed with the specified password; the empty-pool branch is unreachable |
| PasswordGenerator.AssembleMeets | models/Passwordgenerator.php:85-105 | the assembled password has the expected length, only pool characters, and with `require_each` a character of every class |
| PasswordGenerator.GeneratePassword | models/Passwordgenerator.php:27-106 | the method returns exactly the result and the next oracle index of `Generate` |
| PasswordGenerator.GeneratedPasswordMeets | models/Passwordgenerator.php:27-106 | a successful password meets `Meets`: expected length, pool characters only, every enabled class covered under `require_each` |
| PasswordGenerator.NoAmbiguousCharacters | models/Passwordgenerator.php:62-76 | with `avoid_ambiguous` none of `I l 1 O 0 o` appears, and no excluded character ever appears |
| PasswordGenerator.GeneratePasswords | models/Passwordgenerator.php:114-121 | the batch loop returns exactly `GenerateMany`: `count` calls in a row, aborted by the first failure |
| PasswordGenerator.GenerateManyMeets | models/Passwordgenerator.php:114-121 | a batch has `max(count, 0)` passwords, each meeting `Meets`; for a positive count it fails exactly on a configuration error |
| PasswordValidator.WithDefaults | generateMultiple/models/PasswordValidator.php:11-18 | missing requirements default to minimum 8, maximum 128 and no class required; a given key wins even when null, lengths read through `(int)` and flags through PHP truthiness |
| PasswordValidator.HasIff | generateMultiple/models/PasswordValidator.php:42-68 | a class test succeeds exactly when some character of the password is of that class (symbol: not a letter or digit) |
| PasswordValidator.CountLength | generateMultiple/models/PasswordValidator.php:24-40 | the minimum check is always recorded; the maximum check is recorded, and fails, exactly when the password is too long |
| PasswordValidator.CountClass | generateMultiple/models/PasswordValidator.php:42-68 | a required class adds one check, which passes exactly when the class occurs; an unrequired class changes nothing |
| PasswordValidator.CountChecks | generateMultiple/models/PasswordValidator.php:20-68 | the counters and the checks array equal `Passed`, `Total` and `Checks` |
| PasswordValidator.CountBounds | generateMultiple/models/PasswordValidator.php:20-68 | between 1 and 6 checks are counted, and no more pass than are counted |
| PasswordValidator.ValidIffAllPassed | generateMultiple/models/PasswordValidator.php:71 | `passed === total` exactly when every requirement holds, both length bounds included |
| PasswordValidator.LengthChecks | generateMultiple/models/PasswordValidator.php:24-40 | the checks array holds the minimum entry always, and the failing maximum entry exactly when the password is too long |
| PasswordValidator.ClassChecks | generateMultiple/models/PasswordValidator.php:42-68 | a class entry is present exactly when required and records whether the class occurs |
| PasswordValidator.ChecksCounted | generateMultiple/models/PasswordValidator.php:20-68 | the checks array has exactly `total` entries |
| PasswordValidator.RoundedPercentNearest | generateMultiple/models/PasswordValidator.php:70 | the score is the integer nearest to 100·passed/total, halves rounded up, and lies in 0..100 |
| PasswordValidator.RoundedPercentFull | generateMultiple/models/PasswordValidator.php:70 | with fewer than 200 checks the score is 100 exactly when all pass |
| PasswordValidator.ScoreFullIffValid | generateMultiple/models/PasswordValidator.php:70-71 | the score is a percentage, and it is 100 exactly when the password is valid |
| PasswordValidator.Validate | generateMultiple/models/PasswordValidator.php:9-81 | valid exactly when every requirement holds; the score is the rounded percentage; the strength and the checks are the specified ones |
| PasswordValidator.ShortLowerCaseExample | generateMultiple/models/PasswordValidator.php:24-71 | "abc" with upper case required: 0 of 2 checks pass, the score is 0, and it is not valid |
| PasswordValidator.LooseRequirementsExample | generateMultiple/models/PasswordValidator.php:11-42 | a null minimum is 0, the text "10" is 10, the text "false" requires a class and "0" does not |
| PasswordValidator.DefaultRequirementsExample | generateMultiple/models/PasswordValidator.php:11-71 | "Abcdef12" with no requirements: 1 of 1 check passes, the score is 100, and it is valid |
| PasswordValidator.CalculateStrength | generateMultiple/models/PasswordValidator.php:83-100 | the method's label is `StrengthOf` the password: the first of 28, 36, 60 and 120 bits the entropy stays below |
| PasswordValidator.EmptyAlphabet | generateMultiple/models/PasswordValidator.php:86-93 | the alphabet estimate is 0 exactly for the empty password, which is then very weak (`log(1)` is 0) |
| PasswordValidator.StrengthMonotoneInLength | generateMultiple/models/PasswordValidator.php:93-99 | one more character never lowers the strength |
| PasswordValidator.StrengthMonotoneInAlphabet | generateMultiple/models/PasswordValidator.php:88-99 | a larger alphabet never lowers the strength |
| PasswordValidator.StrengthOfExactBits | generateMultiple/models/PasswordValidator.php:93-99 | when the space is exactly 2^bits the label is the one the bit thresholds select |
| PasswordValidator.SymbolOnlyBoundaries | generateMultiple/models/PasswordValidator.php:91-99 | with 32 symbols, 11 characters are moderate and 12 strong, 23 strong and 24 very strong |
| PasswordValidator.ShortLowerCaseStrength | generateMultiple/models/PasswordValidator.php:88-99 | a 4-letter lower-case password is very weak |
| PasswordValidator.LongMixedStrength | generateMultiple/models/PasswordValidator.php:88-99 | a 20-character password over all four classes (94) is very strong |
| PasswordHolder.Password.constructor | generateMultiple/models/Password.php:9-13 | the holder keeps its length and options |
| PasswordHolder.Password.Generate | generateMultiple/models/Password.php:15-18 | the holder's password is the generator's for its length and options |
| PasswordHolder.Password.GenerateMultiple | generateMultiple/models/Password.php:20-23 | the holder's batch is the generator's batch for its length and options |
| PasswordFactory.StripLeft | generateMultiple/models/PasswordFactory.php:26 | the boolean filter drops the leading blanks and only those: every dropped character is a blank, the rest is a suffix that does not start with one |
| PasswordFactory.StripRight | generateMultiple/models/PasswordFactory.php:26 | the boolean filter drops the trailing blanks and only those: every dropped character is a blank, the rest is a prefix that does not end with one |
| PasswordFactory.FilterBooleanTrimsAndFolds | generateMultiple/models/PasswordFactory.php:26 | " TRUE\n" reads as true: blanks are trimmed and case is folded |
| PasswordFactory.NotTrueWord | generateMultiple/models/PasswordFactory.php:26 | a trimmed lower-case word other than 1, true, on and yes reads as false |
| PasswordFactory.FilterBooleanFalseWords | generateMultiple/models/PasswordFactory.php:26 | "off", the integer 2 and `false` read as false; the integer 1 as true |
| PasswordFactory.RequestLength | generateMultiple/models/PasswordFactory.php:22 | a missing or null length gives the default; a set length is read through `(int)`, so an integer length is kept |
| PasswordFactory.RequestOptions | generateMultiple/models/PasswordFactory.php:24-44 | all seven options are set; a key that is set gives its filtered boolean (exclusions its text), a missing one the web default: upper, lower, digits and one-of-each on, symbols and ambiguous-character avoidance off, exclusions "" |
| PasswordFactory.GeneratorDefaultsOverridden | generateMultiple/models/PasswordFactory.php:24-44 | the generator's own defaults never apply to options built from a request |
| PasswordFactory.EmptyRequestDefaults | generateMultiple/models/PasswordFactory.php:24-44 | an empty request means upper, lower, digits and one-of-each on, symbols and avoidance off, unlike the generator's defaults |
| PasswordFactory.Create | generateMultiple/models/PasswordFactory.php:10-13 | a new holder with that length and those options |
| PasswordFactory.FromRequest | generateMultiple/models/PasswordFactory.php:20-47 | a new holder with the request's length and resolved options |
| PasswordFactory.RequestedLengthKept | generateMultiple/models/PasswordFactory.php:20-47 | a request's length of 4 to 128 is the exact length of every password generated from it |
| ConfigStore.Config.constructor | models/Password.php:11-14 | the store holds the given array |
| ConfigStore.Config.SetOpts | models/Password.php:36-39 | the array is replaced as a whole |
| ConfigStore.Config.Get | models/Password.php:41-44 | `get` answers `Lookup` on the stored array |
| ConfigStore.Config.Has | models/Password.php:46-49 | `has` answers `Contains` on the stored array |
| ConfigStore.ArrayGet | models/Password.php:56-79 | the lookup loop computes `Lookup`: the whole array for "", a literal key first, the default for a missing dot-free key, else the segments followed |
| ConfigStore.ArrayHas | models/Password.php:81-104 | the loop computes `Contains`, the same cases answering presence |
| ConfigStore.FollowDefault | models/Password.php:70-78 | a reachable path ignores the default; an unreachable one returns it |
| ConfigStore.LookupDefault | models/Password.php:56-104 | for a non-empty key, `has` holds exactly when `get` does not depend on the default, and otherwise `get` returns the default |
| ConfigStore.LookupCases | models/Password.php:56-104 | the four cases of both lookups: empty key, literal key (even null), dot-free missing key, dotted key |
| ConfigStore.DottedKey | models/Password.php:66-78 | a key joined from dot-free segments, not present literally, reads the nested entry they reach |
| ConfigStore.NestedExample | models/Password.php:56-79 | "db.host" reads `opts["db"]["host"]`, a literal "db.host" wins even when null, and a scalar on the way gives the default |
| UrlShortenerService.Code | url-shortener/models/UrlShortenerService.php:8-17 | a code of n characters, the i-th taken from the alphabet at the i-th draw |
| UrlShortenerService.GenerateCode | url-shortener/models/UrlShortenerService.php:8-17 | the loop builds that code, `max(length, 5)` characters, using one draw each |
| UrlShortenerService.CodeShape | url-shortener/models/UrlShortenerService.php:4-17 | every code is at least 5 characters long, exactly `length` when that is at least 5, and only letters and digits |
| UrlShortenerService.CodeCharsAlnum | url-shortener/models/UrlShortenerService.php:5 | the code alphabet has 62 characters, all letters or digits |
| UrlShortenerService.EveryCodeReachable | url-shortener/models/UrlShortenerService.php:13-14 | every string over the alphabet of the right length is the code of some stream |
| UrlShortenerService.ValidateUrl | url-shortener/models/UrlShortenerService.php:20-46 | valid exactly when no check fails; otherwise the message of the first failing check in the source's order (format, scheme, own host, local host), every earlier check passing; "URL válida." when valid |
| UrlShortenerService.FirstFailureOrder | url-shortener/models/UrlShortenerService.php:20-46 | the reported check fails and every earlier check passes |
| UrlShortenerService.SchemeCaseSensitive | url-shortener/models/UrlShortenerService.php:27-30 | an `HTTP` scheme in capitals is refused |
| UrlShortenerService.MissingHostsAreEqual | url-shortener/models/UrlShortenerService.php:32-38 | a host-less URL is refused as the service's own when the base URL has no host either, and passes without a base URL |
| UrlShortenerService.ClientIp | url-shortener/models/UrlShortenerService.php:48-54 | the forwarded-for value up to its first comma when it is non-empty, else the remote address, else "0.0.0.0" |
| ShortUrls.CountVisit | url-shortener/models/ShortUrl.php:85-90 | one visit is added to the row with that code and no other row changes |
| ShortUrls.ShortUrl.constructor | url-shortener/models/ShortUrl.php:17-20 | a link on the given connection with no id, no limits, no visits, empty URL, code and IP, and no creation time |
| ShortUrls.ShortUrl.Create | url-shortener/models/ShortUrl.php:22-43 | the insert succeeds exactly when the code is new; then the row holds the fields and the next id, which becomes the link's id; otherwise nothing changes |
| ShortUrls.ShortUrl.FindByCode | url-shortener/models/ShortUrl.php:45-70 | found exactly when a row has the code; then all eight fields are loaded from it, else none change |
| ShortUrls.ShortUrl.RegisterVisit | url-shortener/models/ShortUrl.php:83-102 | the link's row gets one more visit, one visit row is appended, and the table invariant is kept |
| ShortUrls.ShortUrl.CodeExists | url-shortener/models/ShortUrl.php:142-149 | true exactly when a row has the code |
| ShortUrls.ExpiryInclusive | url-shortener/models/ShortUrl.php:74 | a link expiring at t is still active at t and not after |
| ShortUrls.ActiveMonotone | url-shortener/models/ShortUrl.php:72-81 | a link active now was active earlier and with fewer visits |
| ShortUrls.UseLimit | url-shortener/models/ShortUrl.php:72-102 | a link limited to n uses is active for exactly its first n visits |
| ShortUrls.OtherRowsUntouched | url-shortener/models/ShortUrl.php:85-90 | visits to one code never change another code's row |
| QrGenerator.NormalizeSize | qr-api/models/QrGenerator.php:17 | the size is clamped into 100..1000 and kept when already inside |
| QrGenerator.NormalizeLevel | qr-api/models/QrGenerator.php:18 | the level is one of L, M, Q, H: kept when valid, else M |
| QrGenerator.NormalizeIdempotent | qr-api/models/QrGenerator.php:17-18 | normalising twice is normalising once |
| QrGenerator.QrGenerator.constructor | qr-api/models/QrGenerator.php:15-33 | the generator holds the normalised size and level |
| QrGenerator.QrGenerator.Render | qr-api/models/QrGenerator.php:87-106 | what is rendered: the content, the level, the size, and a margin of size/100, between 1 and 10 |
| QrGenerator.QrGenerator.FromText | qr-api/models/QrGenerator.php:36-42 | refused with its message exactly when the trimmed text is "" or "0"; otherwise the untrimmed text is rendered |
| QrGenerator.WifiType | qr-api/models/QrGenerator.php:59-63 | an accepted type is one of WPA, WPA2, WEP and nopass |
| QrGenerator.QrGenerator.FromWifi | qr-api/models/QrGenerator.php:54-68 | corrected (see "## Findings"): accepted exactly for a non-empty SSID and a listed type; the payload follows the WiFi layout; each refusal has its message |
| QrGenerator.QrGenerator.FromWifiAsWritten | qr-api/models/QrGenerator.php:54-68 | as written (see "## Findings"): accepted exactly for a non-empty SSID and a type the upper-cased lookup finds; the payload follows the WiFi layout; each refusal has its message |
| QrGenerator.UpperIsNeverNopass | qr-api/models/QrGenerator.php:59-61 | no upper-cased string equals "nopass" |
| QrGenerator.NopassRejectedAsWritten | qr-api/models/QrGenerator.php:59-63 | as written, only WPA, WPA2 and WEP in any case pass; "nopass" is refused |
| QrGenerator.NopassAccepted | qr-api/models/QrGenerator.php:59-63 | corrected, "nopass" in any case is accepted and written `nopass`; every other type is treated as before |
| QrGenerator.WifiPayloadRoundTrip | qr-api/models/QrGenerator.php:66 | with no `;` in the fields, splitting the payload on `;` gives back the type, SSID and password fields |
| QrGenerator.WifiPayloadAmbiguous | qr-api/models/QrGenerator.php:66 | unescaped, two different SSID and password pairs give the same payload |
| Router.Run | generateMultiple/core/Router.php:35 | the longest prefix of characters a group matches |
| Router.MatchSound | generateMultiple/core/Router.php:35-38 | a match's captures are one segment per group and rebuild the URI through the template, up to a final newline |
| Router.MatchComplete | generateMultiple/core/Router.php:35-38 | every URI the template describes, with or without a final newline, is matched |
| Router.MatchExact | generateMultiple/core/Router.php:35-41 | when each group is followed by the end or a `/`, the captures passed to the handler are exactly the segments |
| Router.LiteralTemplate | generateMultiple/core/Router.php:35 | a template without `{` is all literal and describes only itself |
| Router.PrefixThenPlaceholder | generateMultiple/core/Router.php:35 | a literal prefix followed by `{name}` becomes the prefix's characters then one group |
| Router.PlaceholderCaptures | generateMultiple/core/Router.php:35-41 | a template of a prefix ending in `/` and one placeholder captures exactly the segment after the prefix |
| Router.StatsRouteCapturesCode | generateMultiple/core/Router.php:35-41 | the route `/api/v1/stats/{code}` passes exactly the code to its handler |
| Router.DropTrailing | generateMultiple/core/Router.php:11 | `rtrim` with one character: a prefix, ending in another character, with only that character cut |
| Router.DropLeading | generateMultiple/core/Router.php:32 | `ltrim` with one character: a suffix, starting with another character, with only that character cut |
| Router.RequestPath | generateMultiple/core/Router.php:28-32 | the path matched always starts with exactly one `/`, followed by a tail of the URI |
| Router.BasePathStripped | generateMultiple/core/Router.php:28-30 | a URI under a non-empty base path is matched without it |
| Router.BasePathKept | generateMultiple/core/Router.php:28-32 | a URI not under the base path, or any URI when the base path is "" or "0", is matched whole, its leading slashes made one |
| Router.DropLeadingNothing | generateMultiple/core/Router.php:32 | `ltrim` leaves a string that does not start with the character unchanged |
| Router.RequestPathIdempotent | generateMultiple/core/Router.php:32 | normalising a request path again changes nothing |
| Router.SelectFirst | generateMultiple/core/Router.php:34-50 | the first route matching the method and path wins, with its own captures; 404 exactly when none matches |
| Router.Router.constructor | generateMultiple/core/Router.php:8-12 | no routes, the version kept, trailing slashes cut from the base path |
| Router.Router.AddRoute | generateMultiple/core/Router.php:14-21 | one route appended with the method upper-cased and the path under `/api/{version}`; earlier routes unchanged |
| Router.Router.Dispatch | generateMultiple/core/Router.php:23-51 | the dispatch loop selects exactly `SelectFrom` over the routes for the normalised path |

## Left out

- I/O is not modelled: HTTP responses, JSON envelopes, headers and the
  `echo` of the 404 body. `Dispatch` returns the handler to invoke and
  its arguments, or the 404 outcome with its URI.
- Calling handlers is out: they are numbered, not called.
- `random_int`, `filter_var($url, FILTER_VALIDATE_URL)`, `parse_url`,
  `strtotime` and `time()` are parameters: a stream, `isUrl`, `parse`, and
  integer timestamps.
- The distribution of `random_int` is not modelled. Fisher–Yates
  uniformity is a statistical property; the model proves only the
  permutation.
- `PasswordValidator.CalculateStrength` uses `A^len < 2^T`. This is exact
  only if `log(A, 2)` is computed exactly; floating-point rounding at a
  threshold (for 32 symbols, `log(32, 2)` is taken as 5) is not modelled.
- The `(int)` cast is modelled for plain decimal text. Leading blanks,
  exponent and float forms, and arrays or floats as request values are
  not modelled. Request values are null, text, integers or booleans.
- PasswordValidator.WithDefaults: a `requirements` value that is not an
  array (`array_merge` then throws) is not modelled; the requirements are
  a map of scalar values.
- PasswordGenerator.Generate: exclusions are taken to be valid UTF-8.
  For other bytes `preg_split('//u', …)` returns false, and `array_unique`
  then fails (a `TypeError` in PHP 8); that failure is not modelled.
- ConfigStore.Config.All: the options are a `map`, so `all()` gives the
  same keys and values but not the insertion order of the PHP array.
- PHP default arguments are explicit parameters, which callers pass:
  `fromRequest`'s length 16, `generateCode`'s length 6, the QR
  constructor's size 300 and level 'M', `fromWifi`'s password '' and type
  'WPA', the `$opts = []` of the `Password` and `Config` constructors, and
  `Config::get`'s default null.
- Loose comparisons are modelled as strict. The `in_array` calls compare
  strings that are not numeric, so loose and strict comparison agree.
- `QrGenerator.fromUrl` is not part of this model: it is `filter_var`
  followed by rendering.
- `QrGenerator.fromGeo` is not part of this model: it uses floats.
- QR image rendering, the temporary file, base64 encoding, the library
  check in the constructor and the float pixel size `size / 25` are out.
- `ShortUrl::getStats` is not part of this model: it is date-grouped SQL.
- Database errors are not modelled. The only insert failure is a
  duplicate short code. PDO's exception mode and a lost connection are
  out.
- `RegisterVisit` always returns true: the visit insert is assumed to
  succeed.
- PHP's initial `null` fields of `ShortUrl` are `None` for the optional
  ones, and `""` or 0 for the others.
- `Config::getOpts`' fallback that collects known properties is
  unreachable: `$opts` is always an array.
- Regex metacharacters in route paths and versions are taken as literal
  characters. The routes in the repository use none.
- The code-uniqueness retry loop of the URL resource
  (`url-shortener/resources/v1/UrlResource.php`) is not part of this
  model. `CodeExists` and `GenerateCode` are its parts.

## Findings

| source | as written | input that shows it | evidently intended | confidence | as-written member | corrected member |
|---|---|---|---|---|---|---|
| qr-api/models/QrGenerator.php:59-63 | the type is upper-cased, then looked up among 'WPA', 'WPA2', 'WEP', 'nopass' | type "nopass" (or "NOPASS"): upper-cased to "NOPASS", which is not in the list, so the error message that offers nopass refuses it | an open network is accepted in any case and written `nopass` in the payload | high, not executed | QrGenerator.NopassRejectedAsWritten | QrGenerator.NopassAccepted |
