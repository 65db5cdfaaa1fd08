# EMMAA core logic in Dafny

EMMAA (Ecosystem of Machine-maintained Models with Automated Assembly) keeps
mechanistic models up to date from the literature. It also tests them and
reports what changed to subscribers. Most of the system is glue around
cloud services and the INDRA toolkit. This project models the logic inside
that glue and proves what it promises:

- **Versioned artifacts.** `make_date_str` stamps, the model and paper-ids
  keys `save_to_s3` writes, and the key `find_latest_s3_file` picks from a
  listing. Also the key slicing of the test-statistics Lambda, the
  update-pipeline dispatch rule, and the dashboard's page-size clamp and
  key-to-row cells.
- **Dashboard session glue.** The cookie jar and `_readCookie` /
  `_writeCookie` (with its 12-hour cap), `getDictFromUrl`, and the OAuth
  `state` round trip through `getTokenFromAuthEndpoint`, `checkSignIn` and
  `verifyUser`. The dashboard's module globals live in the class
  `DashboardAws.Dashboard`. This code is modelled as written, including its
  defects:
  - the bitwise `&` in the page-size test;
  - the shifted arguments of the models-update listing;
  - the `[0]` index in `checkSignIn`.
- **In-memory data operations.**
  - `EmmaaModel`: the statement list, literature search inversion, config
    loading, relevance filters, extra-evidence batching and model listing.
  - `TestRound` counters and deltas.
  - Notification reports and update messages.
  - Unsubscribe-link signing.
  - Database URL assembly.
  - `SearchTerm` and `PathProperty` JSON round trips.
  - The literature, world-modelers and Reactome priors.
  - Test connectors and the test manager, and the filter registry.
  - Helper scripts: test statistics, text references.

Python integers are unbounded, so `int` and `nat` are used directly.
Python's `str.split`, slicing with negative bounds, `dict` lookup raising
`KeyError` and truthiness are written out in `Strings` and `JsonValues`.
An exception the source raises becomes the `Err` case of `Wrappers.Result`
and names the Python exception. Statement hashes, agent lists, groundings,
MeSH names, HMAC, `btoa`, Cognito and the clock are opaque: each is a field
of a value or a function-valued parameter.

Where the code and its own documentation disagree, the model follows the
code. Two cases:
- `checkSignIn` throws a `TypeError` (it does not return) when the URL has
  neither a fragment nor a query string.
- Because of the `[0]` index, `checkSignIn` never reaches `verifyUser`. The
  indexed value is `undefined` (and `checkSignIn` returns) unless a
  parameter is literally named `0`. That parameter's value is a string,
  which has no `state` or `access_token` property. So the user sees a
  state-mismatch notice when a state cookie exists, and the session-expired
  notice otherwise.

The `emmaa/model_tests.py` and `emmaa/tests.py` connectors are the same
definition, `EmmaaTests.Applicable`.

## Model

| member | source | states |
|---|---|---|
| AuthConstants.AuthorizeConstantsPlain | dashboard/awsServices.js:31-32 | the client id, the authorize endpoint and the scope hold none of `#`, `?`, `&`, `=`, `%`, so the dashboard's own URL parse reads them back unchanged |
| DateStamps.BeforeIsTotalOrder | emmaa/util.py:19-21 | chronological order on date-times is irreflexive, total, asymmetric and transitive |
| DateStamps.BeforeOrder | emmaa/util.py:19-21 | the same order facts, quantified over all date-times |
| DateStamps.TailFields | emmaa/util.py:21 | parsing the `-MM-DD-HH-MM-SS` tail yields one number per three characters |
| DateStamps.TokenFields | emmaa/util.py:21 | a stamp-shaped string parses into exactly six numeric fields |
| DateStamps.MakeDateStr | emmaa/util.py:19-21 | `make_date_str` stamps the given date, or the current UTC time when none is given; for a four-digit year the result is 19 characters, stamp-shaped, and parses back to that date |
| DateStamps.BlockOrder | emmaa/util.py:21 | two equal-width zero-padded digit blocks compare as strings exactly as their values compare |
| DateStamps.TailOrder | emmaa/util.py:21 | two tails compare as strings exactly as their field sequences compare lexicographically |
| DateStamps.TokenOrder | emmaa/util.py:21 | two stamp-shaped tokens compare as strings exactly as their six fields compare |
| DateStamps.DashFieldsTail | emmaa/util.py:21 | five two-digit `-`-prefixed fields form a tail that parses back to those five numbers |
| DateStamps.StampPieces | emmaa/util.py:21 | a stamp is the four-digit year followed by the five `-NN` fields |
| DateStamps.StampFields | emmaa/util.py:21 | a stamp is stamp-shaped and its fields are year, month, day, hour, minute, second |
| DateStamps.StampRoundTrip | emmaa/util.py:21 | parsing a stamp gives back the date-time it was made from |
| DateStamps.StampRoundTripWhenFourDigits | emmaa/util.py:21 | for a four-digit year the stamp is 19 characters and parses back to its date |
| DateStamps.StampInjective | emmaa/util.py:4-21 | two date-times have the same stamp exactly when they are equal |
| DateStamps.StampOrder | emmaa/util.py:21 | comparing two stamps as strings agrees with comparing the date-times |
| DateStamps.ParseOrder | emmaa/util/__init__.py:16 | two well-formed tokens compare as strings exactly as the parsed dates compare, and are equal exactly when the dates are |
| EmmaaUtil.Basename | emmaa/util/__init__.py:13 | `os.path.basename` holds no `/` and leaves a path without `/` unchanged |
| EmmaaUtil.LatestIndex | emmaa/util/__init__.py:20-21 | the chosen index has a date no listed date is after, and every earlier index has a strictly earlier date (the stable descending sort keeps the first of equals) |
| EmmaaUtil.FindLatestS3File | emmaa/util/__init__.py:10-22 | `find_latest_s3_file`: an empty listing raises `IndexError`; the call succeeds exactly when every key has a date token; a result is a listed key whose date is latest, the first such on ties; a failure is the error of some listed key |
| EmmaaUtil.BasenameOfPath | emmaa/util/__init__.py:13 | the basename of `dir/base` is `base` |
| EmmaaUtil.SplitExtRootOfName | emmaa/util/__init__.py:14 | `splitext` strips exactly the final `.ext` |
| EmmaaUtil.DateTokenOfKey | emmaa/util/__init__.py:12-15 | the date token of `dir/stem_token.ext` is `token`: the second `_` piece of the basename without directory and extension |
| EmmaaUtil.KeyWithoutUnderscoreFails | emmaa/util/__init__.py:15 | a listed key whose basename has no `_` makes the whole call fail |
| EmmaaUtil.SingleKeyIsLatest | emmaa/util/__init__.py:20-22 | a listing of one well-formed key returns that key |
| EmmaaUtil.ToEmmaaStmts | emmaa/util/__init__.py:25-31 | one wrapper per input statement, in input order, each with the given date and search terms and empty metadata |
| DashboardFunctions.StripLeadingSpaces | dashboard/emmaaFunctions.js:30 | the stripped entry is a suffix of the entry, everything removed was a space, and it does not start with a space |
| DashboardFunctions.MatchIndex | dashboard/emmaaFunctions.js:28-35 | the index the loop stops at lies within the entry list, or just past it |
| DashboardFunctions.FirstMatchIndex | dashboard/emmaaFunctions.js:28-37 | no entry before the stopping index begins with the name; at that index the value is the stripped entry after the name; `undefined` exactly when no entry matches |
| DashboardFunctions.ReadCookie | dashboard/emmaaFunctions.js:24-38 | `_readCookie` splits the cookie header on `;`, strips leading spaces, and returns the text after the name (which already holds `=`) of the first entry beginning with it, else `undefined` |
| DashboardFunctions.LifetimeHours | dashboard/emmaaFunctions.js:42-55 | falsy `hours` gives no lifetime; otherwise the lifetime is `min(hours, 12)` |
| DashboardFunctions.ExpiresAttribute | dashboard/emmaaFunctions.js:42-55 | falsy `hours` gives no `expires` attribute; otherwise `; expires=` and the GMT text of now plus the capped hours |
| DashboardFunctions.ParseNameValue | dashboard/emmaaFunctions.js:57-59 | the browser takes a valid cookie name and a value with no `;` from the written string (section 5.2 of RFC 6265) |
| DashboardFunctions.Store | dashboard/emmaaFunctions.js:59 | storing a cookie adds or replaces the pair under its name, keeps every cookie of another name, and adds nothing else |
| DashboardFunctions.StoreValid | dashboard/emmaaFunctions.js:59 | storing a well-formed pair keeps the jar's names valid and distinct |
| DashboardFunctions.StoreCookieValid | dashboard/emmaaFunctions.js:59 | assigning any string to `document.cookie` keeps the jar well formed |
| DashboardFunctions.HeaderEntries | dashboard/emmaaFunctions.js:27 | the `Cookie` header (section 5.4 of RFC 6265) holds one `name=value` entry per stored cookie, all but the first preceded by a space |
| DashboardFunctions.ParsePair | dashboard/emmaaFunctions.js:57 | a written string `name=value; …` yields the pair `(name, value)` |
| DashboardFunctions.WrittenPair | dashboard/emmaaFunctions.js:57 | the string `_writeCookie` writes, `name + value + expires + '; path=/'`, stores exactly the pair `(name, value)` whatever the hours |
| DashboardFunctions.EntryMatches | dashboard/emmaaFunctions.js:30-31 | a header entry, stripped, begins with `name=` exactly when its cookie has that name |
| DashboardFunctions.HeaderSplit | dashboard/emmaaFunctions.js:27 | splitting the header on `;` gives back the entries of the jar |
| DashboardFunctions.FirstMatchInJar | dashboard/emmaaFunctions.js:28-33 | reading a name that is in the jar returns its stored value |
| DashboardFunctions.FirstMatchOnly | dashboard/emmaaFunctions.js:28-33 | when exactly one entry matches, its text after the name is returned |
| DashboardFunctions.ReadAfterWrite | dashboard/emmaaFunctions.js:24-59 | after `_writeCookie(name + '=', v, hours)`, `_readCookie(name + '=')` returns `v` |
| DashboardFunctions.SecondPiece | dashboard/emmaaFunctions.js:67-70 | `url.split(c)[1]`, when truthy, is non-empty and holds no `c` |
| DashboardFunctions.QueryOf | dashboard/emmaaFunctions.js:64-71 | a falsy URL gives no query; `url.split('#')[1]`, the text between the first and the second `#`, is preferred when non-empty, else `url.split('?')[1]`, the text between the first and the second `?` |
| DashboardFunctions.DecodeUriComponent | dashboard/emmaaFunctions.js:76 | text without `%` escapes decodes to itself |
| DashboardFunctions.GetDictFromUrl | dashboard/emmaaFunctions.js:62-79 | `getDictFromUrl` returns `undefined` when there is no query part, the decoding error when a part's value is malformed, and otherwise the dictionary built from the `&`-separated parts, in which a `__proto__` part is decoded but not stored |
| DashboardFunctions.QueryDictErrPrefix | dashboard/emmaaFunctions.js:74-77 | once a part fails to decode, the whole parse fails with that error |
| DashboardFunctions.QueryDictKeys | dashboard/emmaaFunctions.js:74-77 | the dictionary's keys are exactly the texts before the first `=` of the parts, except `__proto__`, which assigning on a plain object does not store |
| DashboardFunctions.QueryDictLast | dashboard/emmaaFunctions.js:74-77 | a key maps to the decoded `item[1]` of the last part that has it, so later duplicates overwrite earlier ones and text after a second `=` is dropped; a `__proto__` part is never stored |
| DashboardAws.UnauthenticatedPageSize | dashboard/awsServices.js:61-64 | the page size is `maxKeys` only when `maxKeys & (maxKeys < 1000)` is non-zero, that is for odd numbers below 1000; otherwise 1000 |
| DashboardAws.ModelsUpdatePageSize | dashboard/awsServices.js:56-64 | the models-update listing passes `'.pkl'` as `maxKeys`, so the page size is 1000 |
| DashboardAws.EvenPageSizeIgnored | dashboard/awsServices.js:62 | an even `maxKeys` is never honoured |
| DashboardAws.AuthenticatedPageSize | dashboard/awsServices.js:127-130 | the authenticated listing uses any truthy `maxKeys` without a cap, else 1000 |
| DashboardAws.RowOf | dashboard/awsServices.js:98-103 | a row can be made exactly when the key has at least three `/` segments; the model cell is segment 1 and the test cell segment 2 up to its first `.` |
| DashboardAws.Rows | dashboard/awsServices.js:90-117 | there are no more rows than keys; every row is the row of a listed key ending with `endsWith`; when no key fails to split, the rows are those of all keys ending with `endsWith`, in order |
| DashboardAws.KeyRows | dashboard/awsServices.js:87-117 | the default-mode loop produces the rows of the listed keys, in order, stopping where a key lacks segment 2 |
| DashboardAws.CollapseDoubleSlashes | dashboard/awsServices.js:316 | replacing `//` by `/` never lengthens the path |
| DashboardAws.CollapseKeepsText | dashboard/awsServices.js:316 | only slashes are removed: the non-slash text is unchanged |
| DashboardAws.CollapseIdentity | dashboard/awsServices.js:316 | a path with no `//` is left unchanged |
| DashboardAws.PublicJsonUrlPlain | dashboard/awsServices.js:312-316 | for a plain bucket and key, `getPublicJson` fetches `https://s3.amazonaws.com/bucket/key` |
| DashboardAws.NewState | dashboard/awsServices.js:45-52 | the state value never contains `=` |
| DashboardAws.NewStateValue | dashboard/awsServices.js:45-52 | the loop concatenates the four base64 segments with `=` removed, and the result holds no `=` |
| DashboardAws.PartEntryOf | dashboard/emmaaFunctions.js:74-77 | a plain `k=v` parameter parses back to `(k, v)` |
| DashboardAws.QueryOfSearch | dashboard/emmaaFunctions.js:67-70 | the query part of `base?query` is `query` |
| DashboardAws.AuthorizeUrlQuery | dashboard/awsServices.js:181-188 | the authorize URL's query part is the five parameters joined by `&` |
| DashboardAws.AuthorizePartEntries | dashboard/awsServices.js:182-188 | each of the five parameters parses to its own name and value |
| DashboardAws.AuthorizeParametersDict | dashboard/awsServices.js:182-188 | parsing the parameters gives `state` the fresh state and `redirect_uri` the raw current URL |
| DashboardAws.AuthorizeUrlCarriesState | dashboard/awsServices.js:176-190 | the dashboard's own parse of the authorize URL returns the state it was built with (the CSRF value of section 10.12 of RFC 6749) |
| DashboardAws.Dashboard.constructor | dashboard/awsServices.js:1-43 | the page starts with the given cookie jar, an empty state, empty tokens and nobody signed in |
| DashboardAws.Dashboard.WriteCookie | dashboard/emmaaFunctions.js:40-60 | the jar becomes the old jar with the string `_writeCookie` builds stored in it, and nothing else changes |
| DashboardAws.Dashboard.GetTokenFromAuthEndpoint | dashboard/awsServices.js:176-191 | a fresh state is kept in `STATE_VALUE`, written to the state cookie for one hour, and the page is sent to the authorize URL that carries it |
| DashboardAws.Dashboard.VerifyUser | dashboard/awsServices.js:262-284 | on success it greets the user, stores both tokens in globals and in one-hour cookies (access first), signs the user in and federates; on error it only notifies and stores nothing |
| DashboardAws.Dashboard.CheckSignIn | dashboard/awsServices.js:226-259 | `STATE_VALUE` is re-read from the cookie; with no query part `getDictFromUrl(...)[0]` throws; otherwise the `[0]` lookup leaves nothing to verify unless a parameter is literally named `0`, and then only a notice is shown: state mismatch when a state cookie exists, session expired otherwise |
| DashboardAws.StateCookieRoundTrip | dashboard/awsServices.js:180-228 | the state written by `getTokenFromAuthEndpoint` is the one `checkSignIn` reads back |
| DbConfig.DbUrl | emmaa/db/config.py:48-59 | a section yields an entry exactly when it has every option the code reads, else `KeyError` |
| DbConfig.DbUrlScheme | emmaa/db/config.py:52-59 | the entry starts with the dialect, then the driver, then `://` |
| DbConfig.FindCharAfter | emmaa/db/config.py:13 | in `a + c + b` with no `c` in `a`, the first `c` sits right after `a` |
| DbConfig.SplitColon | emmaa/db/config.py:55-58 | the text after a `:`-prefixed field's colon is the field's value |
| DbConfig.UrlParts | emmaa/db/config.py:13-59 | the URL is `prefix://userinfo@hostport/name` whenever the fields need no escaping |
| DbConfig.DbUrlRoundTrip | emmaa/db/config.py:13-59 | when the fields hold no separator characters and the host is non-empty, the URL parses back to the same prefix, user, password, host, port and name |
| DbConfig.SectionUrlRoundTrip | emmaa/db/config.py:48-59 | the entry built from a section parses back to that section's fields |
| DbConfig.NoHostPasswordOrPort | emmaa/db/config.py:50-58 | without a host a password and a port give the same URL, because `@` is added only before a non-empty host |
| DbConfig.ConfigFillFails | emmaa/db/config.py:47-59 | reading the sections fails exactly when some section lacks a required option |
| DbConfig.ConfigFillKeysNamed | emmaa/db/config.py:47-59 | every entry read from the config is named after a section |
| DbConfig.ConfigFillKeysPresent | emmaa/db/config.py:47-59 | every section gets an entry |
| DbConfig.ConfigFillValues | emmaa/db/config.py:47-59 | the entry of a section is its URL, the last section of a name winning |
| DbConfig.ConfigFillStops | emmaa/db/config.py:47-59 | after the first failing section nothing more is read |
| DbConfig.EnvOverridesKeys | emmaa/db/config.py:60-62 | the environment adds exactly the lower-cased suffixes of the variables starting with `EMMAADB` |
| DbConfig.EnvOverridesValues | emmaa/db/config.py:60-62 | such an entry holds the variable's value |
| DbConfig.EnvNameExample | emmaa/db/config.py:60 | `EMMAADBPRIMARY` is added as `primary` |
| DbConfig.DatabaseCache.constructor | emmaa/db/config.py:20-37 | the cache starts empty, with the given config-exists flag |
| DbConfig.DatabaseCache.GetDatabases | emmaa/db/config.py:40-63 | the cached map is returned unless it is unset or `force_update` is given; otherwise config sections are read only when the config exists and `include_config` is set, environment entries override them, and the cache holds the result; a missing option raises `KeyError` and leaves the entries read so far cached |
| DbConfig.ApplyEnvOverrides | emmaa/db/config.py:60-62 | the loop over the environment leaves the configured map overridden by exactly the `EMMAADB` variables |
| EmailUtil.SignStrInjective | emmaa/subscription/email_util.py:17-23 | the signed message `email + ' ' + expiration` determines the email and the (space-free) expiration |
| EmailUtil.GenerateSignature | emmaa/subscription/email_util.py:87-119 | `generate_signature` raises `ValueError` exactly when no secret key is configured |
| EmailUtil.CompareDigest | emmaa/subscription/email_util.py:137 | `hmac.compare_digest` raises unless both strings are ASCII, and otherwise answers whether they are equal |
| EmailUtil.VerifyEmailSignature | emmaa/subscription/email_util.py:122-139 | `verify_email_signature` accepts only when a key is set and the signature is the HMAC of `email + ' ' + expiration` under it |
| EmailUtil.SignatureRoundTrip | emmaa/subscription/email_util.py:115-137 | a signature generated for an email and expiration verifies for them when the key is set |
| EmailUtil.NoKeyNoSignature | emmaa/subscription/email_util.py:111-128 | without a key, generating raises `ValueError` and verifying returns `False` without raising |
| EmailUtil.LengthMismatchRejected | emmaa/subscription/email_util.py:134-135 | a signature whose length differs from the digest's is rejected |
| EmailUtil.CompareExceptionRejected | emmaa/subscription/email_util.py:136-139 | an exception inside `compare_digest` (a non-ASCII signature) yields `False` |
| EmailUtil.GenerateUnsubscribeQs | emmaa/subscription/email_util.py:26-50 | the query string can be built exactly when a key is set |
| EmailUtil.GenerateUnsubscribeLink | emmaa/subscription/email_util.py:53-84 | the link can be built exactly when a key is set, else `ValueError` |
| EmailUtil.UnsubscribeLinkFormat | emmaa/subscription/email_util.py:48-84 | the link is `https://{domain}/query/unsubscribe?` followed by exactly the parameters `email`, `expiration`, `signature` in that order, and the signature it carries verifies |
| SearchTerms.RefsToJson | emmaa/priors/__init__.py:39 | `db_refs` serialises to an object with the same keys and string values |
| SearchTerms.ToJson | emmaa/priors/__init__.py:35-41 | `to_json` has exactly the keys `type`, `name`, `db_refs`, `search_term`, holding the term's fields |
| SearchTerms.FromJson | emmaa/priors/__init__.py:43-46 | `SearchTerm(**jd)` raises `TypeError` for a non-dictionary or a dictionary whose keys are not exactly the four parameters; an accepted term's type, name and search text are the dictionary's |
| SearchTerms.FromJsonToJson | emmaa/priors/__init__.py:35-46 | `SearchTerm.from_json(t.to_json()) == t` |
| SearchTerms.ToJsonFromJson | emmaa/priors/__init__.py:35-46 | whatever `from_json` accepts is the JSON form of the term it returns |
| SearchTerms.FromJsonMissingKey | emmaa/priors/__init__.py:44-46 | `SearchTerm(**jd)` with one of the four keys missing raises `TypeError` |
| SearchTerms.StrIgnoresRefsAndText | emmaa/priors/__init__.py:25-26 | `str(t)` is `SearchTerm({type}, {name})`, so terms with the same type and name print alike |
| SearchTerms.LeastKey | emmaa/priors/__init__.py:32 | a non-empty dictionary has a least key in code-point order |
| SearchTerms.SortedItemsAreItems | emmaa/priors/__init__.py:32 | `sorted(db_refs.items())` holds exactly the dictionary's items |
| SearchTerms.SortedItemsIncreasing | emmaa/priors/__init__.py:32 | the sorted items come in strictly increasing key order |
| SearchTerms.SortedItemsInjective | emmaa/priors/__init__.py:32 | two dictionaries with the same sorted items are equal |
| SearchTerms.HashKeyMatchesEquality | emmaa/priors/__init__.py:31-51 | `__eq__` compares all four fields, and two terms are equal exactly when their hash keys are, so equal terms hash alike |
| SearchTerms.GetDrugsForGene | emmaa/priors/__init__.py:54-76 | the loop returns the terms of the matching statements in statement order; a statement without an object or subject fails |
| SearchTerms.DrugsForGeneShape | emmaa/priors/__init__.py:69-76 | at most one term per statement, each a `drug` term whose search text is its quoted name |
| SearchTerms.DrugsForGeneMembers | emmaa/priors/__init__.py:70-75 | the listed terms are exactly the drug terms of the subjects of the statements whose object carries the HGNC id |
| SearchTerms.DrugsForGeneKeepsDuplicates | emmaa/priors/__init__.py:69-75 | two statements with the same drug yield two equal terms: nothing is de-duplicated |
| EmmaaModels.LoadConfig | emmaa/model.py:117-140 | `_load_config`: a non-dictionary config fails and one without `search_terms` raises `KeyError`; the search terms are read from JSON; `ndex_network` is `ndex.network`, or `None` when `ndex` is absent; a list-valued `assembly` becomes `{'main': list}` and any other value is kept; absent keys keep their defaults |
| EmmaaModels.LoadConfigDropsOneGromet | emmaa/model.py:137-140 | `export_formats` loses exactly one `"gromet"` when it holds one, and nothing else changes in its counts |
| EmmaaModels.LoadConfigMinimal | emmaa/model.py:117-123 | a config with only search terms and an `ndex` network loads, with the defaults for the rest |
| EmmaaModels.UnseenMembers | emmaa/model.py:318-321 | a statement is appended exactly when it is in the batch and its hash was not present when the call began |
| EmmaaModels.UnseenConcat | emmaa/model.py:318-321 | filtering a batch in two parts gives the two filtered parts, in order |
| EmmaaModels.UnseenKeepsBatchDuplicates | emmaa/model.py:315-321 | two new statements with the same hash in one batch are both appended, since the hash set is frozen before the loop |
| EmmaaModels.DictKeys | emmaa/model.py:453-454 | the dictionary's keys are distinct and are exactly the statements' hashes |
| EmmaaModels.DictValues | emmaa/model.py:453-454 | each hash maps to a statement with that hash |
| EmmaaModels.DictValuesAreLast | emmaa/model.py:453-454 | the statement kept under a hash is the last one seen with it |
| EmmaaModels.DictKeysFirstOccurrence | emmaa/model.py:453-454 | the keys come in the order of each hash's first occurrence |
| EmmaaModels.DeduplicatedMeaning | emmaa/model.py:450-456 | `eliminate_copies` leaves one statement per hash, covering every hash, each the last seen for its hash, ordered by first occurrence |
| EmmaaModels.HashDict | emmaa/model.py:453-454 | the loop builds the `{full hash: statement}` dictionary: hashes in first-occurrence order, each mapped to the last statement with that hash |
| EmmaaModels.TermHits | emmaa/model.py:168-169 | one hit per id returned for a term, in order |
| EmmaaModels.InvertedMeaning | emmaa/model.py:167-174 | an id is a key exactly when some search returned it, and it maps to the terms that produced it, in order, once per time |
| EmmaaModels.TermsForAbsent | emmaa/model.py:167-174 | an id no search returned gets no terms |
| EmmaaModels.TermsForNextTerm | emmaa/model.py:168-173 | the next term is listed for an id once per time its ids hold it |
| EmmaaModels.TermsForAppend | emmaa/model.py:169-173 | appending a term's hits appends that term once per occurrence of the id |
| EmmaaModels.AddTermHits | emmaa/model.py:169-173 | the inner loop's `append`/`KeyError` update keeps the dictionary the inversion of the hits seen so far |
| EmmaaModels.InvertTermsToIds | emmaa/model.py:167-174 | the two loops produce the inversion of all hits |
| EmmaaModels.ModelKeyDate | emmaa/model.py:489 | the model key's date token is the model's stamp |
| EmmaaModels.SaveLoadPairing | emmaa/model.py:487-519 | the paper-ids key `load_from_s3` derives from a saved model key is the one `save_to_s3` wrote |
| EmmaaModels.ModelKeyIsDatedByItsStamp | emmaa/model.py:489 | `find_latest_s3_file` dates a saved model key by the date it was stamped with |
| EmmaaModels.StampShapeChars | emmaa/util.py:21 | a stamp holds only digits and `-` |
| EmmaaModels.EmmaaModel.constructor | emmaa/model.py:76-94 | a new model has its name, no statements, the loaded settings, the set of the given paper ids and the current stamp |
| EmmaaModels.EmmaaModel.Create | emmaa/model.py:76-140 | construction fails exactly when the config fails to load, with its error; otherwise a fresh model with the given name, no statements, the loaded settings, the date stamp of the current time and the set of the given paper ids |
| EmmaaModels.EmmaaModel.AddStatements | emmaa/model.py:96-104 | the new statements are appended after the existing ones, which are unchanged |
| EmmaaModels.EmmaaModel.ExtendUnique | emmaa/model.py:313-324 | the statements become the old ones followed by the batch's statements whose hashes were not present at the start, in order |
| EmmaaModels.Dedupe | emmaa/model.py:453-454 | the values of the hash dictionary, in key order, are the de-duplication by full hash |
| EmmaaModels.EmmaaModel.EliminateCopies | emmaa/model.py:450-456 | the statements become their de-duplication by hash |
| EmmaaModels.EmmaaModel.SearchLiterature | emmaa/model.py:142-174 | an unknown source raises `ValueError`; a non-dictionary reading config makes `biorxiv` fail with `AttributeError`; the call fails exactly in these two cases; `pubmed` and `elsevier` give the id-to-terms inversion of their search over the model's search terms, and any success is the inversion of that source's results |
| EmmaaModels.EmmaaModel.SaveToS3 | emmaa/model.py:487-494 | the model key `models/{name}/model_{d}.pkl` and the paper-ids key `papers/{name}/paper_ids_{d}.json` share the stamp `d`, so loading pairs them |
| EmmaaModels.LastUpdatedDate | emmaa/model.py:775-840 | an unknown file type raises `TypeError` before any lookup; the new prefix is tried first, the old one only if that raises `TypeError`, and `''` is returned if both do |
| EmmaaModels.LastUpdatedDateIgnoresOldPrefix | emmaa/model.py:821-828 | when the new prefix succeeds the old one is never consulted |
| EmmaaModels.UpdatePrefixesNesting | emmaa/model.py:807-818 | for test results the new prefix extends the old one; for models the two prefixes are the same |
| EmmaaModels.FilterRelevance | emmaa/model.py:675-688 | the loop keeps, in order, the statements the policy accepts |
| EmmaaModels.RelevantStmtsMembers | emmaa/model.py:679-686 | a statement is kept exactly when it is in the input and relevant: `prior_one` shares an agent name with the search terms, `prior_all` has all its names among them |
| EmmaaModels.RelevantStmtsPolicies | emmaa/model.py:681-686 | policy `None` keeps everything and any other unknown policy keeps nothing |
| EmmaaModels.PriorAllWithAgentsIsPriorOne | emmaa/model.py:681-684 | a statement with named agents that passes `prior_all` also passes `prior_one` |
| EmmaaModels.GetModels | emmaa/model.py:958-994 | the loop collects the entries of the listed prefixes in order |
| EmmaaModels.GetModelsExcludes | emmaa/model.py:983-993 | a listed model is never `test` and has a truthy config; without `include_dev` it is not `dev_only`; it carries its config exactly when `include_config` is set |
| EmmaaModels.BatchesFromCover | emmaa/model.py:1044-1060 | the batches from an offset concatenate to the hashes from that offset |
| EmmaaModels.BatchesFromBounded | emmaa/model.py:1047 | no batch is larger than the batch size |
| EmmaaModels.BatchesCover | emmaa/model.py:1044-1060 | at least one batch is queried, the batches concatenate to all the hashes, and none exceeds the batch size |
| EmmaaModels.EvidenceByHashIsLast | emmaa/model.py:1062 | a hash is a key exactly when some fetched statement has it, and it holds the evidence of the last such statement |
| EmmaaModels.ShallowHashes | emmaa/model.py:1039 | one hash per statement, in order |
| EmmaaModels.LoadExtraEvidence | emmaa/model.py:1017-1067 | an unknown method raises `NameError`, and a known one always succeeds; the result is the statements in order, each with the evidence fetched for its hash (the last returned statement's) appended |
| EmmaaModels.NothingFetchedNothingAdded | emmaa/model.py:1062-1066 | when the database returns no statements, `evid_by_hash.get(h, [])` adds nothing and the statements are unchanged |
| EmmaaModels.FetchBatches | emmaa/model.py:1043-1060 | the `while True` loop fetches the batches in order and concatenates what they return |
| EmmaaModels.RunPreassemblyWithExtraEvidence | emmaa/model.py:1071-1120 | an unknown query method raises `NameError`, and a known one always succeeds; preassembly runs on the copies with the fetched evidence appended, and the result keeps, in order, the input statements whose hash a preassembled statement has, each with that statement's belief |
| EmmaaModels.KeptWithBeliefsMeaning | emmaa/model.py:1111-1120 | every kept statement's hash has a belief and carries it; every input statement with a belief is kept; nothing else appears |
| TestRounds.Elements | emmaa/analyze_tests_results.py:50 | iterating a JSON value yields a list's items; numbers, booleans and `None` are not iterable |
| TestRounds.TestRound.constructor | emmaa/analyze_tests_results.py:22-24 | a round holds the given test results |
| TestRounds.Tail | emmaa/analyze_tests_results.py:95 | `test_results[1:]`: the entries after the model summary, empty when there are none |
| TestRounds.TotalStatements | emmaa/analyze_tests_results.py:39-40 | `number_of_statements` of entry 0, and `IndexError` with no entries |
| TestRounds.Statements | emmaa/analyze_tests_results.py:42-43 | `statements` of entry 0, and `IndexError` with no entries |
| TestRounds.StmtIds | emmaa/analyze_tests_results.py:36-46 | one id per statement, in order: the text form of its `id` |
| TestRounds.UnhashableKeyRaises | emmaa/analyze_tests_results.py:51 | counting stops with `TypeError` at the first entry whose looked-up key is a list or a dictionary |
| TestRounds.StatementTypeKeys | emmaa/analyze_tests_results.py:50-51 | one key per statement, its `type`, each hashable |
| TestRounds.GetStatementTypes | emmaa/analyze_tests_results.py:48-52 | the counter loop yields the tally of statement types sorted by count, non-increasing, a permutation of the tally, with counts summing to the number of statements; the first list- or dictionary-valued `type`, after only well-formed statements, raises `TypeError` |
| TestRounds.RoleNames | emmaa/analyze_tests_results.py:62-64 | one hashable name per present role key, and `TypeError` when the first present role's name is a list or a dictionary |
| TestRounds.MemberNames | emmaa/analyze_tests_results.py:65-67 | one hashable name per member, none when `members` is absent, and `TypeError` at the first member whose name is a list or a dictionary |
| TestRounds.AgentNamesOf | emmaa/analyze_tests_results.py:61-67 | a statement contributes one name per present role among `subj`, `obj`, `sub`, `enz`, `agent` and one per member, each hashable |
| TestRounds.AgentNameKeys | emmaa/analyze_tests_results.py:61-67 | the names counted are those of all statements, in order |
| TestRounds.AgentNameKeysHashable | emmaa/analyze_tests_results.py:64-67 | every name counted is hashable |
| TestRounds.GetAgentDistribution | emmaa/analyze_tests_results.py:54-68 | the counter loops yield the tally of agent names sorted by count, non-increasing, a permutation of the tally, with counts summing to the number of names counted; a statement whose names raise `TypeError`, after only well-formed statements, makes the whole call raise it |
| TestRounds.StatementsByEvidence | emmaa/analyze_tests_results.py:70-74 | `stmt.evidence` on a JSON dictionary raises `AttributeError` as soon as there is a statement; with none the result is empty |
| TestRounds.GetPassedTestIds | emmaa/analyze_tests_results.py:115-120 | the loop lists, in order, the ids of the results after the summary whose `path_found` is true, or the error of the first malformed result |
| TestRounds.TotalAppliedTests | emmaa/analyze_tests_results.py:97-98 | `len(test_results) - 1`: the entries after the model summary, or -1 with no entries |
| TestRounds.NumberPassedTests | emmaa/analyze_tests_results.py:100-101 | the number of passed test ids |
| TestRounds.PassedStepSome | emmaa/analyze_tests_results.py:118-119 | an entry contributes its id exactly when its `path_found` is true |
| TestRounds.PassedAtMostApplied | emmaa/analyze_tests_results.py:97-120 | the passed count never exceeds the applied count |
| TestRounds.PassedTestIdsMeaning | emmaa/analyze_tests_results.py:115-120 | an id is listed exactly when some entry after index 0 has that id and a path found |
| TestRounds.AppliedTestIds | emmaa/analyze_tests_results.py:94-95 | one entry per result, each the bound method `get_test_id` itself, not an id |
| TestRounds.ResultsByIdPassedKeys | emmaa/analyze_tests_results.py:122-127 | the path descriptions are keyed by the passed tests' ids |
| TestRounds.PathDescriptionsArePassedTests | emmaa/analyze_tests_results.py:115-127 | the keys of `get_path_descriptions` are exactly the passed test ids |
| TestRounds.ContentIds | emmaa/analyze_tests_results.py:142-144 | an unknown content type raises `KeyError`; `applied_tests` gives the bound methods |
| TestRounds.LookupAll | emmaa/analyze_tests_results.py:147-153 | looking up the ids succeeds exactly when each is a key of the dictionary, else `KeyError` |
| TestRounds.ContentItems | emmaa/analyze_tests_results.py:147-153 | no ids give no items; `statements` items fail with `TypeError`, since `get_english_statements` is subscripted without being called |
| TestRounds.FindContentDelta | emmaa/analyze_tests_results.py:139-154 | an unknown content type raises `KeyError`; `added` holds the ids in the latest round but not the previous, `removed` the reverse |
| TestRounds.ContentDeltaDisjoint | emmaa/analyze_tests_results.py:145-146 | `added` and `removed` share no id |
| TestRounds.ContentDeltaSelf | emmaa/analyze_tests_results.py:145-154 | a round compared with itself has an empty delta |
| TestRounds.ContentDeltaSwap | emmaa/analyze_tests_results.py:145-154 | swapping the rounds swaps `added` and `removed` |
| TestRounds.StatementsDeltaRaises | emmaa/analyze_tests_results.py:147-153 | a `statements` delta with any change raises `TypeError` |
| TestRounds.DeltaOfItems | emmaa/analyze_tests_results.py:145-154 | the delta is the added items looked up in the latest round and the removed ones in the previous round, the first failure winning |
| TestRounds.AppliedTestsDeltaRaises | emmaa/analyze_tests_results.py:147-149 | an `applied_tests` delta between different rounds fails, because the bound methods are not test ids |
| TestRounds.PassedTestsDeltaMeaning | emmaa/analyze_tests_results.py:142-154 | each added passed test passed in the latest round but not the previous one, and carries its English test |
| TestRounds.NumericValue | emmaa/analyze_tests_results.py:135-136 | `get_total_applied_tests` yields the applied count |
| TestRounds.FindNumericDelta | emmaa/analyze_tests_results.py:133-137 | the delta is the latest value minus the previous value of the named counter |
| TestRounds.NumericDeltaAntisymmetric | emmaa/analyze_tests_results.py:133-137 | swapping the rounds negates the delta |
| TestRounds.AppliedTestsNumericDelta | emmaa/analyze_tests_results.py:133-137 | the applied-tests delta is the difference of the result counts |
| Notifications.LineOf | emmaa/subscription/notifications.py:134-143 | an entry unpacks exactly when it has four fields (three for dynamic deltas), else `ValueError` |
| Notifications.AppendSection | emmaa/subscription/notifications.py:132-143 | the loop appends the section's header and one line per entry to the message, or fails on the first malformed entry |
| Notifications.SectionStep | emmaa/subscription/notifications.py:134-135 | each entry adds its line after those of the entries before it |
| Notifications.SectionFails | emmaa/subscription/notifications.py:134 | a malformed entry fails the section with its unpacking error |
| Notifications.SectionDone | emmaa/subscription/notifications.py:132-135 | a non-empty section is its header followed by its lines |
| Notifications.MakeStrReportPerUser | emmaa/subscription/notifications.py:105-144 | `make_str_report_per_user` builds exactly the report its sections describe |
| Notifications.StrReportOutcome | emmaa/subscription/notifications.py:127-130 | the report is `None` exactly when all three deltas are empty, and fails with `ValueError` exactly when some entry has the wrong number of fields |
| Notifications.SectionOutcome | emmaa/notifications.py:82-93 | a section fails exactly when one of its entries has the wrong number of fields |
| Notifications.SectionTextLines | emmaa/notifications.py:82-93 | a section is one header line, present only when its delta is non-empty, followed by one line per entry |
| Notifications.StrReportLayout | emmaa/notifications.py:77-94 | a non-empty report is the static, open and dynamic sections in that order, each header present only for a non-empty delta, with one line per entry |
| Notifications.HeadersSingleLine | emmaa/notifications.py:83-91 | each section header is a single line |
| Notifications.EntryLineSingleLine | emmaa/notifications.py:85-93 | each entry yields exactly one line `"{q} in {model} using the {mc}.\n"` |
| Notifications.SectionSingleLines | emmaa/subscription/notifications.py:132-143 | every line of a section ends with its only line break |
| Notifications.StrReportLineCount | emmaa/subscription/notifications.py:127-144 | the report has one line per entry plus one per non-empty delta |
| Notifications.StrReportIgnoresLinks | emmaa/subscription/notifications.py:134-138 | the link field of static and open entries is ignored |
| Notifications.Render | emmaa/subscription/notifications.py:24-58 | `EmailHtmlBody.render` raises `ValueError` exactly when all deltas are empty; the rendered HTML has its line breaks removed |
| Notifications.MakeHtmlReportPerUser | emmaa/subscription/notifications.py:147-185 | the unsubscribe link is made first, so no key raises `ValueError`; with a key, all-empty deltas give `''` and otherwise the one-line rendered HTML |
| Notifications.HtmlReportArguments | emmaa/notifications.py:125-133 | with some delta, the HTML is the template rendered with the three tab links, the deltas and the unsubscribe link for the user |
| Notifications.GetUserQueryDelta | emmaa/notifications.py:11-52 | a missing text report becomes `''`, so the text is empty exactly when all deltas are; an empty HTML report becomes `None` |
| Notifications.StrReportNonEmpty | emmaa/subscription/notifications.py:127-144 | a report that is produced is never the empty string |
| Notifications.UserDeltaBothOrNeither | emmaa/subscription/notifications.py:61-102 | with a key and a template that renders something, the text report is empty exactly when there is no HTML report |
| Notifications.Len | emmaa/subscription/notifications.py:224 | `len` succeeds on lists, strings and dictionaries only |
| Notifications.TestName | emmaa/subscription/notifications.py:231-235 | a missing test-stats file (`None`) raises `TypeError` when subscripted |
| Notifications.PassedDeltas | emmaa/subscription/notifications.py:236-244 | `applied_hashes_delta` goes to `applied_tests` and every other key `k` to `passed[k] = v['passed_hashes_delta']`; a value without that key fails |
| Notifications.CorpusDelta | emmaa/subscription/notifications.py:229-245 | one corpus's delta holds the test name, the passed deltas per model type and the applied delta, or the first error met |
| Notifications.GetModelDeltas | emmaa/subscription/notifications.py:188-246 | `{}` exactly when the model stats are missing or no corpora are given; otherwise the name, date, statement delta, number of added raw paper ids and one test delta per distinct corpus, a missing corpus file raising `TypeError` |
| Notifications.TestStatsByCorpus | emmaa/subscription/notifications.py:209-215 | the corpora in order of first mention, each mapped to its stats |
| Notifications.TestDeltas | emmaa/subscription/notifications.py:228-245 | one delta per corpus, in order, succeeding exactly when every corpus's stats are well formed |
| Notifications.FirstOfDistinct | emmaa/subscription/notifications.py:210-215 | the first corpus given is the first one kept |
| Notifications.KeptAppend | emmaa/subscription/notifications.py:277-298 | dropping falsy messages commutes with concatenation |
| Notifications.KeptSnoc | emmaa/subscription/notifications.py:296-298 | one more request adds its message only when it is truthy |
| Notifications.AppendPassedMessages | emmaa/subscription/notifications.py:290-298 | the inner loop appends the truthy passed messages, one per model type in order |
| Notifications.TestRequestsSnoc | emmaa/subscription/notifications.py:281-298 | one more corpus adds its applied request followed by its passed requests |
| Notifications.KeptTestStep | emmaa/subscription/notifications.py:281-298 | the messages kept after one more corpus are those before it, then its applied message, then its passed messages |
| Notifications.GetAllUpdateMessages | emmaa/subscription/notifications.py:249-299 | the empty deltas raise `KeyError`; otherwise the truthy messages of the statements request, then per corpus the applied request and the passed requests, in that order |
| Notifications.PassedRequestsAt | emmaa/subscription/notifications.py:290-295 | one passed request per model type, in order |
| Notifications.TestRequestsPrefix | emmaa/subscription/notifications.py:281-298 | the requests of the first corpora come first |
| Notifications.RequestsOrder | emmaa/subscription/notifications.py:269-299 | the statements message is the first request, and each corpus's applied request comes right after all requests of the corpora before it, with room for its passed requests after it |
| Notifications.PassedRequestOrder | emmaa/subscription/notifications.py:269-299 | the j-th passed request of a corpus (one per model type, in order) comes j + 1 places after that corpus's applied request |
| Notifications.TestRequestsLength | emmaa/subscription/notifications.py:281-298 | each corpus yields one request plus one per model type |
| Notifications.KeptLength | emmaa/subscription/notifications.py:277-298 | no more messages than requests, all of them exactly when every message is truthy, in request order |
| Notifications.SixMessagesForOneCorpus | emmaa/subscription/notifications.py:269-299 | one corpus with four model types yields six messages when all are truthy |
| Notifications.ModelUpdateNotify | emmaa/subscription/notifications.py:320-344 | with no Twitter account and no users nothing is done and the deltas are not read; otherwise the deltas are read as `get_model_deltas` does and an error reading them is passed on; a Twitter account then fails with `TypeError`, since `tweet_deltas` is called with one argument; users with the empty deltas (missing stats or no corpus) fail with `KeyError`; users with deltas `d` get the email text: the truthy messages of `d`'s requests joined by line breaks |
| Notifications.EmailTextLines | emmaa/subscription/notifications.py:343-344 | the email text splits back into the messages when none holds a line break |
| Notifications.KeptFrom | emmaa/subscription/notifications.py:277-298 | every message comes from some request |
| LiteraturePriors.SearchTermsOf | emmaa/priors/literature_prior.py:288-301 | one search term per search string followed by one per MeSH id, so the count is the sum of the two inputs |
| LiteraturePriors.MakeSearchTerms | emmaa/priors/literature_prior.py:286-301 | `ValueError` exactly when both the search strings and the MeSH ids are empty; otherwise the terms built from both lists in order |
| LiteraturePriors.SourcesAppend | emmaa/priors/literature_prior.py:288-300 | reading the search strings and MeSH ids back out of a list of terms distributes over concatenation |
| LiteraturePriors.StringTermsSources | emmaa/priors/literature_prior.py:289-292 | terms made from search strings give back exactly those strings and no MeSH ids |
| LiteraturePriors.MeshTermsSources | emmaa/priors/literature_prior.py:293-300 | terms made from MeSH ids give back exactly those ids (as their `MESH` reference) and no search strings |
| LiteraturePriors.SearchTermsSources | emmaa/priors/literature_prior.py:286-301 | nothing is lost or reordered: the built terms carry the given search strings, then the given MeSH ids, in the given order |
| LiteraturePriors.MeshTermText | emmaa/priors/literature_prior.py:294-299 | a MeSH term searches for its name followed by ` [mh]` when the id starts with `D` and by ` [nm]` otherwise |
| LiteraturePriors.TermsJson | emmaa/priors/literature_prior.py:161 | the `search_terms` entry is a list holding each term's JSON form, in order |
| LiteraturePriors.PriorConfig | emmaa/priors/literature_prior.py:148-184 | the config has the fixed base keys, plus `assembly` exactly when the template's assembly config is truthy; `test` is among the base keys only when tests are requested |
| LiteraturePriors.TermsJsonRoundTrip | emmaa/priors/literature_prior.py:161 | reading the `search_terms` entry back as search terms gives the prior's terms unchanged |
| LiteraturePriors.PriorConfigLoads | emmaa/priors/literature_prior.py:148-189 | the config a prior writes loads as a model config whose search terms, human-readable name, assembly and test settings are the prior's own |
| LiteraturePriors.PriorConfigFields | emmaa/priors/literature_prior.py:148-184 | the config's `search_terms`, `human_readable_name`, `assembly` and `test` entries, and the absence of `ndex`, `export_formats`, `reading` and `query` |
| LiteraturePriors.WrapPaper | emmaa/priors/literature_prior.py:110-114 | each raw statement of a paper becomes an EMMAA statement with the shared timestamp, the paper's search terms and `internal` metadata |
| LiteraturePriors.WrapPapersOrigin | emmaa/priors/literature_prior.py:110-114 | every wrapped statement comes from some paper and carries that paper's search terms |
| LiteraturePriors.StatementsCarryTheirTerms | emmaa/priors/literature_prior.py:97-114 | every statement of the prior carries exactly the search terms whose PubMed search returned its paper, and at least one of them |
| LiteraturePriors.TermsForNonEmpty | emmaa/priors/literature_prior.py:100-103 | a PMID returned by some search gets a non-empty list of terms |
| LiteraturePriors.WrapPapersStops | emmaa/priors/literature_prior.py:110-114 | once a paper's PMID is missing from the term map (the `KeyError`), the later papers are not wrapped |
| LiteraturePriors.LiteraturePrior.constructor | emmaa/priors/literature_prior.py:62-73 | the prior holds the given name, descriptions, terms, assembly config and test flag, and no statements yet |
| LiteraturePriors.LiteraturePrior.Create | emmaa/priors/literature_prior.py:37-73 | missing search strings or MeSH ids count as empty lists; `ValueError` when both are empty; on success a fresh prior with the given name, human-readable name, description and test flag, no statements, and the search terms built from the strings and the MeSH ids; the assembly config is the template's `assembly` entry when a template is named and an empty dict otherwise |
| LiteraturePriors.LiteraturePrior.MakeConfig | emmaa/priors/literature_prior.py:134-189 | the config built from the prior's fields: the fixed base keys with the prior's name, descriptions and search terms, plus `assembly` and `test` when they apply; it loads back as the prior's settings (`PriorConfigLoads`) |
| LiteraturePriors.LiteraturePrior.GetStatements | emmaa/priors/literature_prior.py:95-115 | cached statements are returned unchanged; otherwise the papers found for the inverted search hits are wrapped and stored, with `KeyError` for a paper whose PMID was not searched for |
| LiteraturePriors.LiteraturePrior.AppendPaper | emmaa/priors/literature_prior.py:110-114 | appends one paper's wrapped statements to the prior's statements |
| LiteraturePriors.LiteraturePrior.MakeModel | emmaa/priors/literature_prior.py:191-215 | the new model has the prior's name and the given statements, and its settings are exactly what loading the generated config gives: the prior's search terms, human-readable name, assembly config (the template's, `{'main': list}` for a list, or empty) and test settings |
| WorldModelersPriors.OntologyEntryShape | emmaa/priors/world_modelers_prior.py:11-14 | the entry is a suffix of the text before the first `> <`; it starts at the first `UN` when there is one, and with no `UN` (`find` gives -1) it is at most the last character |
| WorldModelersPriors.Ontologies | emmaa/priors/world_modelers_prior.py:9-15 | one ontology entry per line of the ontology file, in order |
| WorldModelersPriors.OntologyLineShape | emmaa/priors/world_modelers_prior.py:11-14 | on a line of the usual `<…UN/…> <…>` shape the entry is exactly the `UN` path |
| WorldModelersPriors.MakeSearchTerms | emmaa/priors/world_modelers_prior.py:5-24 | the search terms are the set of concept terms for every pair of an ontology entry and a term the entry ends with |
| WorldModelersPriors.EntryTermsMeaning | emmaa/priors/world_modelers_prior.py:17-23 | a term is made for one entry exactly when some given term is a suffix of that entry |
| WorldModelersPriors.EntryTermsSound | emmaa/priors/world_modelers_prior.py:17-23 | every term made for an entry comes from a given term that the entry ends with |
| WorldModelersPriors.EntryTermsComplete | emmaa/priors/world_modelers_prior.py:17-23 | every given term that the entry ends with yields its concept term for that entry |
| WorldModelersPriors.MatchesMeaning | emmaa/priors/world_modelers_prior.py:16-23 | a search term is in the result exactly when some ontology entry ends with some given term and the term was made from that pair |
| WorldModelersPriors.RepeatedEntryAddsNothing | emmaa/priors/world_modelers_prior.py:6 | the result is a set: a repeated ontology line adds no search term |
| WorldModelersPriors.ConceptTermText | emmaa/priors/world_modelers_prior.py:19-22 | a concept term has type `concept`, the entry as its `UN` reference, the term with `_` turned into spaces in double quotes as its search text, and a name equal to that text up to case |
| WorldModelersPriors.LowerCapitalize | emmaa/priors/world_modelers_prior.py:20 | capitalizing changes only the case of a name |
| WorldModelersPriors.LowerAppend | emmaa/priors/world_modelers_prior.py:20 | lower-casing works character by character |
| WorldModelersPriors.LowerIdempotent | emmaa/priors/world_modelers_prior.py:20 | lower-casing twice is lower-casing once |
| WorldModelersPriors.MakeConfig | emmaa/priors/world_modelers_prior.py:27-51 | with `save_to_s3` the undefined `model_name` raises `NameError`; otherwise the fixed world-modelers config, with `ndex` only for a non-empty network id |
| WorldModelersPriors.WmConfigFields | emmaa/priors/world_modelers_prior.py:29-48 | the config's `search_terms`, `human_readable_name`, `test`, `assembly`, `reading` and `ndex` entries, and no `query` or `export_formats` |
| WorldModelersPriors.WmConfigLoads | emmaa/priors/world_modelers_prior.py:29-51 | the config loads as a model config with the given search terms, name, network and the fixed test, assembly and reading settings |
| WorldModelersPriors.WmConfig | emmaa/priors/world_modelers_prior.py:29-48 | the config has exactly the name, search-terms, test, assembly and reading keys, plus `ndex` only for a non-empty network id |
| ReactomePriors.InsertByName | emmaa/priors/reactome_prior.py:78 | inserting into a list sorted by name adds exactly that term |
| ReactomePriors.SortByName | emmaa/priors/reactome_prior.py:78 | sorting by name is a permutation of its input |
| ReactomePriors.InsertSorted | emmaa/priors/reactome_prior.py:78 | inserting into a list sorted by name keeps it sorted |
| ReactomePriors.SortByNameSorted | emmaa/priors/reactome_prior.py:78 | the result of sorting is ordered by name |
| ReactomePriors.NameSetSnoc | emmaa/priors/reactome_prior.py:105 | appending a term adds its name to the set of names seen |
| ReactomePriors.CandidatesStop | emmaa/priors/reactome_prior.py:98-101 | once a gene term lacks an `HGNC` reference (the `KeyError`) or the drug lookup fails, later terms do not matter |
| ReactomePriors.NonGeneIgnored | emmaa/priors/reactome_prior.py:99 | a search term whose type is not `gene` contributes no drugs |
| ReactomePriors.FindDrugsForGenes | emmaa/priors/reactome_prior.py:81-106 | the TAS statements are used when no drug-gene statements are given; the error of the first failing lookup, else the first drug of each name, sorted by name |
| ReactomePriors.FirstByNameDistinct | emmaa/priors/reactome_prior.py:96-105 | keeping the first term of each name keeps every name and repeats none |
| ReactomePriors.FirstByNameFirst | emmaa/priors/reactome_prior.py:102-105 | each kept drug is a candidate with no earlier candidate of the same name |
| ReactomePriors.DrugsFound | emmaa/priors/reactome_prior.py:94-106 | the returned drugs are sorted by name, cover every candidate name once, and each is the first candidate with its name |
| ReactomePriors.PermutationNames | emmaa/priors/reactome_prior.py:106 | sorting a list with distinct names keeps its names distinct and their set unchanged |
| ReactomePriors.MultiplicityTwo | emmaa/priors/reactome_prior.py:106 | a term at two positions occurs at least twice |
| ReactomePriors.MultiplicityOne | emmaa/priors/reactome_prior.py:106 | in a list with distinct names each term occurs once |
| ReactomePriors.HumanIdExamples | emmaa/priors/reactome_prior.py:47 | the `^R-HSA-[0-9]` test accepts a human stable id and rejects a mouse id and ids without a digit after the prefix |
| ReactomePriors.PathwaysOfAdd | emmaa/priors/reactome_prior.py:46-52 | one more Reactome id adds its pathways when it is human and nothing otherwise |
| ReactomePriors.GenesOfAdd | emmaa/priors/reactome_prior.py:55-58 | one more pathway adds the genes found in it |
| ReactomePriors.TermsOfAdd | emmaa/priors/reactome_prior.py:61-77 | one more UniProt id adds its gene term, which is new, when both a gene name and an HGNC id are found, and nothing otherwise |
| ReactomePriors.CollectReactomeIds | emmaa/priors/reactome_prior.py:29-43 | the Reactome ids of every listed gene that has a UniProt id |
| ReactomePriors.CollectPathways | emmaa/priors/reactome_prior.py:45-52 | the pathways of every human Reactome id |
| ReactomePriors.CollectGenes | emmaa/priors/reactome_prior.py:54-58 | the genes of every pathway found |
| ReactomePriors.CollectGeneTerms | emmaa/priors/reactome_prior.py:60-77 | one gene term for each gene with a name and an HGNC id, each once |
| ReactomePriors.MakePriorFromGenes | emmaa/priors/reactome_prior.py:15-78 | the prior's terms, each once, sorted by name |
| ReactomePriors.PriorTermOrigin | emmaa/priors/reactome_prior.py:15-78 | every prior term is a quoted gene term with consistent `UP` and `HGNC` references, whose gene lies in a pathway of a human Reactome id of an input gene |
| ReactomePriors.NonHumanIdsIgnored | emmaa/priors/reactome_prior.py:47-49 | ids that are not human contribute no pathways |
| ReactomePriors.UpIdFromRxId | emmaa/priors/reactome_prior.py:136-150 | a UniProt id is returned only for a 200 answer of three fields whose type is `ReferenceGeneProduct` and whose entry names `UniProt`; a mis-shaped answer is a `ValueError` |
| ReactomePriors.UpIdRoundTrip | emmaa/priors/reactome_prior.py:143-150 | an answer in the expected shape gives back the id it names |
| ReactomePriors.UpIdNone | emmaa/priors/reactome_prior.py:141-145 | a failed request or an answer about something other than a gene product gives `None` |
| Queries.FirstNamed | emmaa/queries.py:85-88 | the first query class whose lower-cased name equals the lower-cased camelized type, and none only when no class matches |
| Queries.QueryClsFromType | emmaa/queries.py:84-89 | a type that is not a string fails in `camelize` (`TypeError`); a matching class is returned; otherwise `NotAQueryType` |
| Queries.CamelizeRestPlain | emmaa/queries.py:87 | camelizing leaves text without underscores unchanged after its first letter |
| Queries.CamelizeRestWord | emmaa/queries.py:87 | camelizing drops an underscore and upper-cases the letter after it |
| Queries.CamelizeCons | emmaa/queries.py:87 | camelizing upper-cases the first letter |
| Queries.WordTail | emmaa/queries.py:87 | a word has no underscore after its first letter |
| Queries.CamelizeTwo | emmaa/queries.py:87 | two underscore-joined words camelize to both words capitalized |
| Queries.CamelizeThree | emmaa/queries.py:87 | three underscore-joined words camelize to the three words capitalized |
| Queries.CamelizeTypeName | emmaa/queries.py:44 | camelizing the underscored name a query writes as its type gives back its class name |
| Queries.NamesOneClass | emmaa/queries.py:85-88 | a query type names at most one query class |
| Queries.TypeNameDispatch | emmaa/queries.py:44 | the type a query writes dispatches back to that query's class |
| Queries.UpperCaseTypeAccepted | emmaa/queries.py:87 | the comparison ignores case: `PATH_PROPERTY` also selects the path property class |
| Queries.UpperCaseNamesPath | emmaa/queries.py:87 | `PATH_PROPERTY` names the path property class |
| Queries.UnknownTypeRejected | emmaa/queries.py:89 | a type that names no query class is not matched |
| Queries.LowerConcat | emmaa/queries.py:87 | lower-casing works character by character |
| Queries.ClassNameLength | emmaa/queries.py:16-80 | every query class name has at least twelve letters |
| Queries.NewPathQuery | emmaa/queries.py:35-41 | missing constraint dicts raise `AttributeError` (`None.get`); otherwise each of the four constraint lists is present exactly when its key is |
| Queries.AgentsJson | emmaa/queries.py:48-51 | one JSON entry per agent |
| Queries.RelsJson | emmaa/queries.py:53-56 | one `{'type': …}` entry per relationship type |
| Queries.QueryJson | emmaa/queries.py:43-57 | a query with all four constraint lists serializes to an object with exactly the `type`, `path`, `entity_constraints` and `relationship_constraints` keys and type `path_property`; a missing list raises `TypeError` |
| Queries.ToJson | emmaa/queries.py:43-57 | serializing succeeds exactly for a query with all four constraint lists, giving the `path_property` object that parses back to the query (`QueryRoundTrip`); a missing list raises `TypeError` |
| Queries.PathPropertyFromJson | emmaa/queries.py:60-73 | parsing succeeds exactly when the path, both constraint objects and every entry parse; otherwise the error is the one met first in the source's reading order: the path statement's, then `AttributeError` for non-dictionary entity constraints, then a failing entity entry's, then `AttributeError` for non-dictionary relationship constraints, then a failing relationship entry's |
| Queries.ConstraintItemsCases | emmaa/queries.py:64-71 | iterating a constraint value: a list gives its items, `''` and `{}` give an empty list, and `None`, numbers and booleans raise `TypeError` |
| Queries.StringRelsRejected | emmaa/queries.py:68-71 | a non-empty string as a relationship value raises `TypeError`, since `rel_type['type']` subscripts its first character |
| Queries.EntityConstraintsFromJson | emmaa/queries.py:64-66 | the entity-constraint loop yields every entry's parsed agents, or the error of some entry whose agents do not parse |
| Queries.RelConstraintsFromJson | emmaa/queries.py:68-71 | the relationship-constraint loop yields every entry's list of types, or the error of some entry that does not parse |
| Queries.QueryFromJson | emmaa/queries.py:9-13 | a non-object fails with `AttributeError`, a non-string type with `TypeError`, an unknown type with `NotAQueryType`, a class without its own parser with `RecursionError`, and a path property is parsed |
| Queries.RelsRoundTrip | emmaa/queries.py:53-56 | relationship types written as `{'type': …}` entries read back unchanged |
| Queries.AgentsRoundTrip | emmaa/queries.py:48-51 | agents written to JSON read back unchanged when agent serialization is inverted by parsing |
| Queries.QueryRoundTrip | emmaa/queries.py:9-73 | a query with all constraint lists serializes, parses back to itself, and serializes again to the same JSON |
| Queries.PathQueryRoundTrip | emmaa/queries.py:43-73 | the path-property parser reads a serialized query back to itself |
| Queries.EntityConstraintsRoundTrip | emmaa/queries.py:63-66 | written entity constraints read back as the same include and exclude lists |
| Queries.RelConstraintsRoundTrip | emmaa/queries.py:67-71 | written relationship constraints read back as the same include and exclude lists |
| Queries.MissingConstraintNotWritable | emmaa/queries.py:38-50 | a query built without an `include` list can be constructed but not serialized (`TypeError`) |
| FilterFunctions.FilterChemMeshGoMeaning | emmaa/filter_functions.py:19-24 | an agent passes exactly when it is grounded and its grounding namespace is none of `MESH`, `CHEBI` and `GO` |
| FilterFunctions.FilterChemMeshGoExamples | emmaa/filter_functions.py:23-24 | an `HGNC` agent passes; `CHEBI`, `MESH`, `GO` and ungrounded agents do not |
| FilterFunctions.FilterRegistry.constructor | emmaa/filter_functions.py:4-19 | at import the registry holds exactly `filter_chem_mesh_go` |
| FilterFunctions.FilterRegistry.RegisterFilter | emmaa/filter_functions.py:7-15 | registering stores the filter under its name, replacing any earlier one, and returns it unchanged |
| FilterFunctions.RegisteredLookup | emmaa/filter_functions.py:7-15 | after registering a sequence of filters a name is registered exactly when it was before or is the name of a registered filter, and it maps to the last filter registered under it |
| EmmaaTests.OverlapMeaning | emmaa/tests.py:19-20 | two entity lists overlap exactly when some entity occurs in both |
| EmmaaTests.ApplicableMeaning | emmaa/tests.py:9-17 | the base connector accepts every pair; the scope connector accepts exactly when the model shares an entity with the test statement's agents |
| EmmaaTests.OverlapProperties | emmaa/tests.py:19-20 | nothing overlaps an empty list, and overlap is symmetric |
| ModelTests.ProductLength | emmaa/model_tests.py:29 | the product of models and tests has one pair for each model and test |
| ModelTests.ProductAt | emmaa/model_tests.py:29 | the pair of model i and test j sits at position i × (number of tests) + j |
| ModelTests.ProductMembers | emmaa/model_tests.py:29 | a pair is in the product exactly when its model is among the models and its test among the tests |
| ModelTests.RecordResultsOk | emmaa/model_tests.py:35-36 | when every check succeeds, each listed pair maps to its check result and other recorded results are kept |
| ModelTests.RecordResultsStops | emmaa/model_tests.py:35-36 | the first failing check stops the loop, with the results recorded before it |
| ModelTests.RecordResultsPrefixOk | emmaa/model_tests.py:35-36 | the loop finishes when every check succeeds |
| ModelTests.TestManager.constructor | emmaa/model_tests.py:15-19 | a manager holds the given models and tests, no pairs and no results |
| ModelTests.TestManager.MakeTests | emmaa/model_tests.py:21-31 | the two-argument `append` raises `TypeError` exactly when some model-test pair is applicable; otherwise nothing is added |
| ModelTests.TestManager.RunTests | emmaa/model_tests.py:33-36 | every listed pair's check result is recorded, in order, until a check fails; models, tests and pairs are unchanged |
| ModelTests.SomeApplicableMeaning | emmaa/model_tests.py:29-30 | some pair in the product is applicable exactly when some model and some test are |
| ModelTests.ApplicablePairListed | emmaa/model_tests.py:29-30 | an applicable model and test make some product pair applicable |
| ModelTests.ApplicablePairFound | emmaa/model_tests.py:29-30 | an applicable product pair comes from an applicable model and test |
| ModelTests.BaseConnectorRaises | emmaa/model_tests.py:44-46 | with the base connector `make_tests` raises exactly when there is at least one model and one test |
| ModelTests.ScopeConnectorRaises | emmaa/model_tests.py:51-57 | with the scope connector `make_tests` raises exactly when some model shares an entity with some test |
| TestStats.BuildCommand | emmaa/aws_lambda_functions/test_stats.py:58-63 | the batch command is the git script, the `--branch origin/master` option, then the statistics script for the model and test corpus |
| TestStats.RunRecordsStops | emmaa/aws_lambda_functions/test_stats.py:49-75 | the first record whose processing fails stops the loop, keeping the jobs submitted before it |
| TestStats.LambdaHandler | emmaa/aws_lambda_functions/test_stats.py:22-77 | the handler submits one job per record until a record fails, and answers 200 with the last job id, or the error of the failing step |
| TestStats.ResultKeySplit | emmaa/aws_lambda_functions/test_stats.py:54-55 | a results key splits on `/` into `results`, the model name and the base name |
| TestStats.ResultKeyParsed | emmaa/aws_lambda_functions/test_stats.py:54-57 | the model name and test corpus read back from a results key `results/{model}/results_{corpus}_{stamp}.json` are the ones written into it |
| TestStats.OldStyleKeyDefaults | emmaa/aws_lambda_functions/test_stats.py:55-57 | a key without a corpus name, `results/{model}/results_{stamp}.json`, falls back to `large_corpus_tests` |
| TestStats.ResultKeyJob | emmaa/aws_lambda_functions/test_stats.py:54-74 | the job for a results key is named `{model}_{corpus}_stats_{now}` and runs the branch-pinned statistics command for that model and corpus |
| TestStats.NoBranchCommand | emmaa/aws_lambda_functions/test_stats.py:58-63 | the branch option sits between the git script and the statistics script, and is absent with no branch |
| TestStats.NoRecordsUnbound | emmaa/aws_lambda_functions/test_stats.py:77 | with no records `job_id` is never bound, so the handler raises `NameError` and submits nothing |
| TestStats.JobsFollowRecords | emmaa/aws_lambda_functions/test_stats.py:49-77 | when every record has a key, one job per record is submitted in record order, each built from that record's key and the clock at that step, and the returned id is the last job's |
| TestStats.MissingKeyReusesPrevious | emmaa/aws_lambda_functions/test_stats.py:50-54 | a record without a key is skipped by `except KeyError: pass` and reuses the previous record's key; as the first record it raises `NameError` |
| UpdatePipeline.LambdaHandler | emmaa/aws_lambda_functions/update_pipeline.py:16-75 | the handler makes the invocations for every model folder, in listing order, until a config fails, and answers 200 `SUCCESS` when none does |
| UpdatePipeline.DispatchStops | emmaa/aws_lambda_functions/update_pipeline.py:51-74 | the first model folder whose config cannot be read stops the loop, keeping the invocations made before it |
| UpdatePipeline.DispatchCollects | emmaa/aws_lambda_functions/update_pipeline.py:51-74 | the loop succeeds exactly when every folder's decision does, and then it invokes the non-skipped decisions in folder order |
| UpdatePipeline.ModelFolder | emmaa/aws_lambda_functions/update_pipeline.py:53-56 | for the folder `models/{name}/` the config key is `models/{name}/config.json` and `prefix[7:-1]` gives back the name |
| UpdatePipeline.InvocationChoice | emmaa/aws_lambda_functions/update_pipeline.py:58-74 | a truthy `run_daily_update` invokes `emmaa-model-update` with the model name; otherwise a truthy `run_daily_tests` invokes `emmaa-mm-update` with a synthetic upload record; otherwise the model is skipped |
| UpdatePipeline.SyntheticKeyNamesModel | emmaa/aws_lambda_functions/update_pipeline.py:67-68 | the synthetic record's key names the model in its second path segment |
| ModelTestStats.TalliedStep | scripts/get_model_test_stats.py:30-34 | a passing result adds one to the path count; a failing one adds one to its code's count, appending a new code at the end of the key order |
| ModelTestStats.CountResults | scripts/get_model_test_stats.py:28-34 | the loop's path count and code counts are those of the results' outcomes, or the error of the first result that cannot be read |
| ModelTestStats.ShowStatisticsLoop | scripts/get_model_test_stats.py:21-37 | the loop's counts are the statistics of the results: the model name, the total, the passed count and the (code, count) pairs in first-failure order; `None` with no results file |
| ModelTestStats.PassesAndFailures | scripts/get_model_test_stats.py:30-34 | every outcome is either a pass or a failure with a code |
| ModelTestStats.StatisticsMeaning | scripts/get_model_test_stats.py:27-37 | the statistics name the model and count all results, passes plus failure counts make the total, every listed count is positive, and a code is listed exactly when some result failed with it |
| ModelTestStats.FailedCodesMembers | scripts/get_model_test_stats.py:33-34 | a code is among the failure codes exactly when some outcome failed with it |
| ModelTestStats.NoResultsFile | scripts/get_model_test_stats.py:22-25 | with no results file (`IndexError`) the function returns `None`; any other loading error propagates |
| ModelTestStats.OutcomeCases | scripts/get_model_test_stats.py:31-34 | a found path passes whatever its code; a failure without `result_code` raises `KeyError`; otherwise it fails with its code |
| DocEmbeddings.PrioritizedTextRefMeaning | scripts/learn_doc_embeddings.py:23-28 | the first namespace in priority order that the evidence has, with its id, and none when it has none of them |
| DocEmbeddings.TridOnly | scripts/learn_doc_embeddings.py:20 | with the configured priority only a `TRID` reference is ever chosen |
| DocEmbeddings.RefOrder | scripts/learn_doc_embeddings.py:53 | the tuple order `sorted` uses is a strict total order |
| DocEmbeddings.LeastExists | scripts/learn_doc_embeddings.py:53 | every non-empty set of references has a least element |
| DocEmbeddings.Least | scripts/learn_doc_embeddings.py:53 | the least reference of a non-empty set is in it and below every other member |
| DocEmbeddings.SortRefsMeaning | scripts/learn_doc_embeddings.py:53 | sorting a set gives its members, each once, in strictly increasing order |
| DocEmbeddings.GetAllTextRefs | scripts/learn_doc_embeddings.py:43-53 | the loop returns the sorted set of chosen references of all evidence |
| DocEmbeddings.EvidenceRefsMeaning | scripts/learn_doc_embeddings.py:49-52 | a reference is collected from a statement exactly when it is chosen for some of its evidence |
| DocEmbeddings.AllTextRefsMeaning | scripts/learn_doc_embeddings.py:47-52 | a reference is collected exactly when it is collected from some statement |
| DocEmbeddings.GetAllTextRefsMeaning | scripts/learn_doc_embeddings.py:43-53 | the result is strictly sorted and holds exactly the references chosen for some evidence of some statement |
| DocEmbeddings.UnreferencedEvidenceIgnored | scripts/learn_doc_embeddings.py:51 | evidence without a prioritized reference adds nothing |

## Left out

- Cloud services are left out: S3, Lambda, Batch, SES, Cognito and the INDRA database. A listing, a loaded JSON document or a service answer is an input sequence, a value or a function-valued parameter. The `invoke` and `submit_job` responses are not interpreted beyond the job id.
- INDRA is opaque. That covers statement hashes, `agent_list`, `get_grounding`, INDRA JSON, preassembly, MeSH names and the TAS statements. Each is a field of a value or a function parameter.
- The clock, `crypto.getRandomValues`, `btoa`, `decodeURIComponent`, `toGMTString`, `quote_plus` and the HMAC digest are parameters. The signature round trip holds for any digest function.
- DOM updates, `console.log`, `print`, logging, charts and progress bars are left out. User notices are kept as a list of notice texts.
- Floating point is not modelled: `passed_over_total`, pass ratios and the float timestamp in `generate_unsubscribe_qs`. The expiration text is a parameter.
- Dictionary key order in JSON output is not modelled: JSON objects are maps. Where the source lists a `dict` in insertion order (the failure tallies), the order is kept as an explicit sequence.
- Python set iteration order is unspecified. Results built by iterating a set are therefore stated as multisets, plus sortedness where the source sorts.
- `find_nth_latest_s3_file` and `strip_out_date` are imported by `emmaa/model.py` but are in neither `util` module. `last_updated_date` takes their outcome as a parameter.
- `EmmaaModels.PaperIdsKeyForModelKey`: `load_from_s3` uses `strip_out_date` to take the date from the model key. The model assumes that helper returns the same token as `find_latest_s3_file`'s key processing, `EmmaaUtil.DateToken`: the second `_`-separated piece of the basename without its extension. `EmmaaModels.SaveLoadPairing` and `EmmaaModels.ModelKeyIsDatedByItsStamp` hold only under that assumption.
- `DateStamps.ParseStamp`: only stamp-shaped tokens are read: a four-digit year and five two-digit fields, each after a `-`. `strptime` with the same format also accepts fields without leading zeros, such as `2020-1-2-3-4-5`. The model rejects those, so keys dated that way are not modelled.
- `EmmaaModels.LoadExtraEvidence`: returns new statement values. In the source, `stmt.evidence += ...` extends the caller's own statement objects. The model does not capture that the caller's list is changed.
- `EmmaaModels.RunPreassemblyWithExtraEvidence`: returns new statement values carrying the new beliefs. In the source, `stmt.belief = ...` also writes the belief onto the caller's `stmts_in` objects, including any that the result leaves out. That aliasing is not captured. The evidence loading works on a `deepcopy`, so the caller's evidence is unchanged in both.
- `EmmaaModels.LoadConfig`: the model's `export_formats` is a copy. In the source it is the config's own list, so `remove("gromet")` also removes the entry from the caller's `config['export_formats']`. `EmmaaModels.LoadConfigDropsOneGromet` states the model's list only.
- `SearchTerms.FromJson`: accepts only a string `type` and `name`, a string-valued `db_refs` object and a string or `null` `search_term`. It gives `TypeError` for anything else. `SearchTerm(**jd)` stores whatever values it is given and raises only for a wrong set of keys, so terms with other value types are not modelled.
- `EmmaaTests.Overlap`: entities are compared by value: name, references and grounding. In the source, `set(ents1) & set(ents2)` uses the INDRA `Agent` class's own `__eq__` and `__hash__`. INDRA is not part of this model, and the model assumes they agree with value equality; if they are object identity, two distinct but equal-looking agents do not overlap in the source. `EmmaaTests.OverlapMeaning`, `EmmaaTests.ApplicableMeaning` and `ModelTests.ScopeConnectorRaises` hold under that assumption. `None` entries compare equal in both.
- `Queries.ParseAgents`: a non-empty dictionary as an entity-constraint value is rejected with `TypeError`. Python iterates its keys and passes each key string to `Agent._from_json`, whose outcome on a string is not modelled. Lists, strings (one-character strings each), the empty dictionary and non-iterable values are modelled. Within a constraint dictionary, the model does not fix which failing entry's error comes first, since dictionary order is not modelled.
- The document-embedding part of `scripts/learn_doc_embeddings.py` (the `__main__` block, `get_text_for_ref`, `get_embeddings`) uses external models and is left out. Text-reference ids are integers.
- The `__main__` block of `scripts/get_model_test_stats.py` and the S3 loading of results are left out. The loaded results, or the loading error, are a parameter. The results document is assumed to be a list.
- `camelize` is modelled for ASCII text. Lower-casing is ASCII only.
- `mesh_client.get_mesh_name` returning `None` is not modelled: a MeSH name is always a string.
- Database configuration: reading the config file is left out; its sections are a map. The process environment is a map too.
- `DashboardAws.Dashboard`: the cookie jar is a list of name-value pairs in creation order rather than a dictionary. This is so that the Cookie header that `_readCookie` scans can be built as the browser does (section 5.4 of RFC 6265). Cookie expiry is not enforced.
- `EmmaaModels.LoadExtraEvidence`: requires a positive batch size. With a zero size and statements to fetch, or a negative size, the source loops forever.
- `EmmaaModels.RunPreassemblyWithExtraEvidence`: has the same batch-size requirement as `LoadExtraEvidence`.
- `TestRounds.FindContentDelta`: returns the added and removed items as maps keyed by id rather than lists. The source lists them in set iteration order, which is unspecified.
- `ModelTests.TestManager.RunTests`: takes the check as a parameter. `StatementCheckingTest.check` in `emmaa/model_tests.py` takes a model checker as well as the model, so the call as written raises `TypeError`. That call is not modelled.
- `Queries.QueryFromJson`: `StructuralProperty`, `SimpleInterventionProperty` and `ComparativeInterventionProperty` have no `_from_json` of their own. For them the result is only the `RecursionError` that the inherited one raises, not the recursion itself.
- `TestStats.LambdaHandler`: the batch client and the printed command are left out. The event is JSON. A `Records` value that is not a list is taken to raise `TypeError`; iterating a dictionary's or a string's items is not modelled.
- `UpdatePipeline.LambdaHandler`: S3 reading and JSON decoding errors are left out. The config of each prefix is a parameter.
- `WorldModelersPriors.MakeSearchTerms`: reading the ontology file is left out; its lines are a parameter.
- `WorldModelersPriors.MakeConfig`: `description` and `short_name` are accepted and ignored, as in the source.
- `ReactomePriors.MakePriorFromGenes`: the Reactome, UniProt and HGNC lookups are the fields of a `Services` value. The `lru_cache` decorators and the request details of `rx_id_from_up_id`, `get_pathways_containing_gene` and `get_genes_contained_in_pathway` are not modelled.
- `Notifications`: template rendering is a parameter. The tweet and email sending in `model_update_notify` are left out.
- `tweet_deltas` is called with a single argument, so its call raises `TypeError`. The update messages are modelled up to that call.
- `TestRounds.GetStatementTypes`: JSON numbers and booleans are distinct keys of the tally. A Python dictionary treats `1`, `1.0` and `true` (likewise `0`, `0.0` and `false`) as one key and counts them together under the first one seen. Rounds whose statement types mix such values are not modelled.
- `TestRounds.GetAgentDistribution`: agent names that are equal numbers or booleans are counted apart, for the same reason as in `TestRounds.GetStatementTypes`.
- `ModelTestStats.CountResults`: result codes that are equal numbers or booleans are counted apart, for the same reason as in `TestRounds.GetStatementTypes`.
- `DashboardAws.UnauthenticatedPageSize`: the page size is a whole number. JavaScript's `&` first converts its operands with ToInt32, so a fractional `1.5` counts as `1` and passes the odd-below-1000 test. Signed or space-padded strings and exponent notation also convert there. None of these inputs are modelled.
- `TestRounds.StatementsDeltaRaises`: `get_english_statement_by_id` subscripts a method, so a `statements` delta with changes raises `TypeError`. `get_statements_by_evidence` uses a missing attribute and is modelled as raising `AttributeError`.
