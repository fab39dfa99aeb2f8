# happy-robot carrier intake, modelled in Dafny

The service takes inbound carrier calls for freight brokerage through one AWS Lambda entry point. A POST without a `request_id` creates a record. The handler:

1. validates the five required intake fields;
2. normalises the MC number (digits only) and strips the other fields;
3. verifies the carrier against the FMCSA QC Services API, with a bounded retry loop that retries only timeouts and masks the API key in the echoed endpoint;
4. matches the intake against demo loads;
5. saves the composite result with a time-to-live;
6. answers with a summary.

A POST with a `request_id` enriches a saved intake with the optional call fields. A GET fetches a saved result.

The model covers:

- `sanitize_mc` and `date_only`, and their copies in the handler;
- the two load-matching engines:
  - the exact-match `match_loads`, with a flat score of 4;
  - the handler's token-overlap `_fetch_loads`, scoring 3/3/2 and keeping the best three;
- `FmcsaClient` and `_fmcsa_verify`: configuration, retry loop, payload extraction, URL quoting and key redaction;
- `ResultRepository` over an optional table;
- the create, enrich and retrieve branches of `lambda_handler`.

| file | module(s) | models |
|---|---|---|
| `py.dfy` | `Py` | JSON values, Python truthiness, `dict.get`, `or`, `str()` of scalars, `strip`, `rstrip`, `lower`, `upper`, substring `in`, `replace` |
| `utils.dfy` | `Utils` | `sanitize_mc`, `date_only` (also `_sanitize_mc` and `_date_only`) |
| `ranking.dfy` | `Ranking` | the stable `sort(key=score, reverse=True)` and the slice `[:n]` both engines share |
| `matching_service.dfy` | `MatchingService` | `match_loads` |
| `handler_loads.dfy` | `HandlerLoads`, `HandlerLoadsProperties` | `_tokens`, `_fetch_loads` |
| `fmcsa_client.dfy` | `FmcsaClient`, `FmcsaClientProperties` | `FmcsaClient.__init__`, `FmcsaClient.verify`, and the handler's `_fmcsa_verify` configuration |
| `result_repo.dfy` | `ResultRepo` | `ResultRepository` |
| `handler.dfy` | `Handler`, `HandlerProperties` | `_compute_result`, `_save_result`, `_get_result`, `lambda_handler` |

The outside world becomes parameters:

- **The network** is a function from attempt number to outcome: a socket timeout, a `URLError` with its reason, another exception, or a body that is empty, malformed or JSON.
- **The sleeps** between attempts are returned as a list of milliseconds.
- **The clock readings, `uuid4()`, the environment, the demo loads and `str()` of containers** are fields of a `World` value.
- **`datetime.fromisoformat`** is an abstract partial parser that returns a real calendar date or fails.
- **The results table** is an optional map held by a `ResultRepository` object. Its `Save` and `Get` methods update and read it.
- **Backend errors** are flags passed in.

The loops stay loops:

- the `for` over loads in both engines;
- the `for` over `REQUIRED` in validation;
- the retry `for` in `verify`.

Each loop is proved to compute a specification function. Properties are then proved about those functions.

Three behaviours of the FMCSA client that a reader might expect to be more lenient are modelled as the code has them:

- **A malformed FMCSA response body** is not tolerated. `json.loads` raises, and the generic `except` returns a failure at once, without a retry (`src/clients/fmcsa_client.py:57`, `src/clients/fmcsa_client.py:94-100`).
- **The `carrier` sub-object** is read only when it is a non-empty dict (`src/clients/fmcsa_client.py:64-65`).
- **An FMCSA response body that is JSON but not an object** (a list, say) makes `data.get` raise inside the `try`. The client then reports a non-retried failure carrying the `AttributeError` message.

## Model

| member | source | states |
|---|---|---|
| Utils.SanitizeMc | src/utils.py:29-33 | the result holds only the digits 0-9; a falsy `mc` (None, "") gives ""; for a string it is exactly that string's digits, in order |
| Utils.DigitsKeepsEachDigit | src/utils.py:33 | every digit of the input survives, right after the digits that precede it and before the digits that follow it |
| Utils.SanitizeMcIdempotent | src/utils.py:33 | sanitising an already sanitised number changes nothing |
| Utils.DateOnly | src/utils.py:16-26 | a returned date is always a 10-character `YYYY-MM-DD` text |
| Utils.DateOnlyParsesWithoutZ | src/utils.py:23 | the parser only ever sees the text with every `Z` removed (not only a trailing one): two parsers that agree on `Z`-free text give the same answer |
| Utils.IsoFormatRoundTrip | src/utils.py:23 | `date.isoformat()` loses nothing: the year, month and day read back from its text are the date's own |
| Utils.DateOnlyFallbackIsLeftmost | src/utils.py:24-26 | when the parse fails, the result is the leftmost substring matching `\d{4}-\d{2}-\d{2}` |
| Utils.DateOnlyKeepsImpossibleDate | src/utils.py:24-26 | `YYYY-MM-DD` text that the parser rejects (month 13, day 45) still comes back, unchanged, from the regex fallback |
| Utils.DateOnlyAbsent | src/utils.py:25-26 | when the parse fails and the pattern occurs nowhere, the result is None |
| Utils.DateOnlyOfNone | src/utils.py:25-26 | `date_only(None)` is None |
| Utils.DateOnlyOfPlainDate | src/utils.py:16-26 | for a parser that reads `YYYY-MM-DD` as that very day or rejects it, a plain `YYYY-MM-DD` text is returned as itself |
| Utils.DateOnlyIdempotent | src/utils.py:16-26 | for such a parser, `date_only` of a date it returned gives that date back |
| Ranking.SortDescPermutes | src/services/matching_service.py:48 | the sort is a permutation: no match dropped or duplicated |
| Ranking.SortDescSorted | src/services/matching_service.py:48 | the sorted list is ordered by descending `match_score` |
| Ranking.SortDescStable | src/services/matching_service.py:48 | the sort is stable: for every score, the matches carrying it keep their input order |
| Ranking.SortDescUniform | src/services/matching_service.py:48 | when every match has the same score, sorting leaves the list as it was |
| Ranking.TopRanked | src/services/matching_service.py:48-51 | `sorted[:n]` has at most n matches, is a prefix of the sorted list, is ordered, and each kept match scores at least as much as every match cut; the sorted list is a stable permutation of the input |
| Ranking.PyTake | src/services/matching_service.py:51 | Python's `s[:n]`: a prefix of `s` of length min(n, len(s)) for n >= 0, and len(s)+n (or 0) for negative n |
| MatchingService.Annotate | src/services/matching_service.py:38-45 | a match is the load's copy with `match_score` 4 and the four fixed reasons in order; every other key is as in the load |
| MatchingService.ExactMatchesMembers | src/services/matching_service.py:17-46 | a load is matched exactly when the intake date is present and equal to the load's and the stripped, lowercased origin, destination and equipment are non-empty on the intake and equal to the load's; the match is its annotated copy |
| MatchingService.ExactMatchesAnnotated | src/services/matching_service.py:38-46 | every match scores 4 and carries exactly the four fixed reasons, in order |
| MatchingService.ExactMatchesAppend | src/services/matching_service.py:22-46 | the filter keeps input order: the matches of two concatenated load lists are the concatenated matches |
| MatchingService.IncompleteIntakeMatchesNothing | src/services/matching_service.py:29-36 | with no parsable intake date, or an empty origin, destination or equipment, nothing matches |
| MatchingService.OtherEquipmentDoesNotMatch | src/services/matching_service.py:26-36 | equipment is compared after `strip().lower()`: giving a load equipment that normalises to something other than the intake's rules it out |
| MatchingService.MatchLoads | src/services/matching_service.py:7-56 | the loop and sort return the first `limit` qualifying loads, annotated, in input order (so at most `limit` for limit >= 0); `source` is "fake_loads_file", `status` "ready", `checked_at` the clock reading, `total_available` the number of loads |
| HandlerLoads.TokensAreWords | src/handler.py:95-99 | every token is a lowercase `[a-z0-9]` word of at least two characters |
| HandlerLoads.TokensSplit | src/handler.py:99 | a separator character splits the token list in two: no token spans it |
| HandlerLoads.TokensOfWord | src/handler.py:99 | a lowercase alphanumeric word is its own single token when it has two or more characters, and vanishes otherwise |
| HandlerLoads.Assess | src/handler.py:250-280 | one pass of the loop: the load is kept exactly when it passes the same-day filter and scores above 0, and a kept load is its copy with the score and the reasons |
| HandlerLoads.FetchLoads | src/handler.py:225-289 | the loop, sort and slice return the three best scored loads; `source`, `status`, `checked_at` and `total_available` as above |
| HandlerLoadsProperties.TokenMatchesMembers | src/handler.py:248-280 | a load is matched exactly when it passes the date filter and scores, and comes back carrying its score and reasons |
| HandlerLoadsProperties.ScoreAgreesWithReasons | src/handler.py:259-276 | the score is what the reasons add up to: 3 for origin, 3 for destination, 2 for equipment, 0 for the date |
| HandlerLoadsProperties.ScoreValues | src/handler.py:259-267 | a scoring load scores 2, 3, 5, 6 or 8 |
| HandlerLoadsProperties.TokenMatchesScored | src/handler.py:259-280 | every match scores 2, 3, 5, 6 or 8, so no zero-score load is kept |
| HandlerLoadsProperties.PickupReasonIffIntakeDate | src/handler.py:268-276 | a kept load lists "Pickup date match" exactly when the intake has a date |
| HandlerLoadsProperties.AnyDateWithoutIntakeDate | src/handler.py:255-257 | without an intake date, loads of any date pass and only the score decides |
| HandlerLoadsProperties.KeptLoadsShareTheDate | src/handler.py:255-257 | with an intake date, every kept load is on that date |
| HandlerLoadsProperties.EmptyEquipmentAlwaysHits | src/handler.py:264 | a load with empty equipment hits any non-empty intake equipment (`"" in equipment`) |
| Py.ContainsIff | src/handler.py:260-261 | Python's `tok in load_origin` holds exactly when the token occurs at some position of the text |
| HandlerLoadsProperties.OriginTokenScores | src/handler.py:260-261 | an intake origin token found at any position of the load's origin scores the 3 origin points |
| HandlerLoadsProperties.OriginHitIff | src/handler.py:260-261 | the origin scores exactly when some intake token occurs at some position of the load's origin |
| HandlerLoadsProperties.TopMatchesRanked | src/handler.py:282-284 | at most 3 matches, a prefix of the stable descending sort, each scoring at least as much as every match cut |
| FmcsaClient.QuoteKeepsUnreserved | src/clients/fmcsa_client.py:49 | `quote` leaves text of unreserved characters (the digits-only MC number, for one) unchanged |
| FmcsaClient.QuoteAlphabet | src/clients/fmcsa_client.py:49 | `quote` only produces unreserved characters and `%` |
| FmcsaClient.RedactRemovesKey | src/clients/fmcsa_client.py:76 | after `replace(webkey, "****")` no occurrence of the key is left, for a key without `*` |
| FmcsaClient.RedactIdempotent | src/clients/fmcsa_client.py:76 | redacting an already redacted endpoint changes nothing, for a key without `*` |
| FmcsaClient.ConfigPrecedence | src/clients/fmcsa_client.py:32-36 | an explicit key or base URL wins over the environment; an environment retry count, backoff or timeout wins over the argument |
| FmcsaClient.HandlerIsDefaultClient | src/handler.py:144-157 | `_fmcsa_verify` reads the same settings as a client built without arguments, except that it always uses the 28 s timeout |
| FmcsaClient.VerifyWith | src/clients/fmcsa_client.py:44-112 | the precheck and the retry loop return the result, the number of requests and the sleeps that the specification function `Run` gives |
| FmcsaClient.FmcsaClient.constructor | src/clients/fmcsa_client.py:24-36 | the fields are the key stripped, the base URL without trailing `/`, and the three numbers, each with its precedence and default |
| FmcsaClient.FmcsaClient.Verify | src/clients/fmcsa_client.py:38-112 | `verify(mc)` returns what `Run` gives for the client's settings |
| FmcsaClientProperties.AttemptsCount | src/clients/fmcsa_client.py:52-105 | the loop sends at most `max_retries + 1` requests and sleeps only between two of them; the sleep after attempt j is `backoff * 2^j` |
| FmcsaClientProperties.AttemptsStop | src/clients/fmcsa_client.py:81-105 | only timeouts lead to another attempt; the last attempt decides the result, and if it too timed out the attempts ran out and its error is reported |
| FmcsaClientProperties.AttemptsStamps | src/clients/fmcsa_client.py:71-112 | every result of the loop reports the masked endpoint and the single clock reading |
| FmcsaClientProperties.PrecheckIff | src/clients/fmcsa_client.py:44-47 | "missing_webkey_or_mc" is answered exactly when the key or the sanitised MC number is empty, and then no request is sent |
| FmcsaClientProperties.RunStamps | src/clients/fmcsa_client.py:44-112 | `checked_at` is the same reading on every return; every post-precheck result reports the redacted URL |
| FmcsaClientProperties.EndpointHidesKey | src/clients/fmcsa_client.py:76-109 | a key without `*` occurs nowhere in a reported endpoint |
| FmcsaClientProperties.RunAttempts | src/clients/fmcsa_client.py:52-105 | at most `max_retries + 1` requests, one sleep fewer than requests, the j-th sleep `backoff * 2^j`: never a sleep after the last attempt |
| FmcsaClientProperties.RunStopsAtFirstNonTimeout | src/clients/fmcsa_client.py:52-100 | the loop returns what the first non-timeout attempt settles to, after that many requests and one sleep per earlier timeout |
| FmcsaClientProperties.AllTimeouts | src/clients/fmcsa_client.py:81-112 | when every attempt times out, `max_retries + 1` requests are sent and the failure reports `str()` of the last timeout |
| FmcsaClientProperties.NoAttemptsMeansRequestFailed | src/clients/fmcsa_client.py:107-112 | a negative `max_retries` sends nothing and fails with "request_failed" |
| FmcsaClientProperties.MalformedBodyIsNotRetried | src/clients/fmcsa_client.py:94-100 | a body that is not JSON fails at once with the decoder's message |
| FmcsaClientProperties.IsAllowedIff | src/clients/fmcsa_client.py:70 | `str(allowed).upper() == "Y"` holds exactly for the strings "Y" and "y"; None, numbers and containers are never valid |
| FmcsaClientProperties.ExtractShape | src/clients/fmcsa_client.py:57-80 | a dict body gives a response carrying it as `raw`, valid exactly for "Y"/"y", with `error` None exactly when `content` is truthy and "not_found" otherwise; any other JSON value fails on `.get` |
| FmcsaClientProperties.SourceChoice | src/clients/fmcsa_client.py:64-65 | fields come from `content["carrier"]` when that is a non-empty dict, and from `content` otherwise (an empty carrier included) |
| FmcsaClientProperties.DotFallback | src/clients/fmcsa_client.py:67 | `dot_number` falls back to `usdotNumber` when `dotNumber` is falsy |
| FmcsaClientProperties.EmptyBodyIsNotFound | src/clients/fmcsa_client.py:57 | an empty body reads as `{}`: an invalid response with no fields and error "not_found" |
| ResultRepo.Stamp | src/repos/result_repo.py:25-28 | the item is the result with `request_id` set to the key and `ttl` to the expiry; every other key is as in the result |
| ResultRepo.RestampRefreshes | src/repos/result_repo.py:26-28 | stamping a stamped item again (as an enrichment re-saves a fetched item) only refreshes the two stamped keys |
| ResultRepo.TableName | src/repos/result_repo.py:13 | a non-empty explicit table name is used as given |
| ResultRepo.ExplicitTableNameWins | src/repos/result_repo.py:13 | an explicit table name wins over `RESULTS_TABLE`, whatever that holds |
| ResultRepo.BlankEnvironmentMeansNoTable | src/repos/result_repo.py:13-15 | with no explicit name, an unset or whitespace-only `RESULTS_TABLE` leaves the repository without a table |
| ResultRepo.NoTableDegrades | src/repos/result_repo.py:21-43 | without a table, `save` returns False and `get` None, whatever the backend would do |
| ResultRepo.SaveSucceedsIff | src/repos/result_repo.py:21-33 | `save` returns True exactly when there is a table and `put_item` succeeds; a False save leaves the table as it was |
| ResultRepo.SaveThenFetch | src/repos/result_repo.py:21-43 | round trip: `get` after a successful `save` returns the result plus `request_id` and `ttl = now + RESULT_TTL_SECONDS` (default 86400) |
| ResultRepo.SecondSaveReplaces | src/repos/result_repo.py:29-33 | a second save under the same key replaces the whole item; other keys are untouched |
| ResultRepo.ResultRepository.constructor | src/repos/result_repo.py:12-19 | the repository has a table exactly when the resolved name is non-empty and connecting does not raise |
| ResultRepo.ResultRepository.Save | src/repos/result_repo.py:21-33 | the new table and the returned flag are those of `Saved` on the old table |
| ResultRepo.ResultRepository.Get | src/repos/result_repo.py:35-43 | returns what `Fetched` gives for the table: the item, or None with no table, on a backend error, or for an unknown key |
| Handler.Validate | src/handler.py:407-411 | the loop over `REQUIRED` collects exactly `MissingOf(REQUIRED, body)`: every required key whose value is None or blank, in order |
| Handler.EnrichRecord | src/handler.py:383-403 | the enrichment branch against the store leaves the table and the reply that `Enrich` gives |
| Handler.CreateRecord | src/handler.py:405-437 | the create branch against the store leaves the table and the reply that `Create` gives |
| Handler.Handle | src/handler.py:344-437 | `lambda_handler` against the store leaves the table and the reply that `Step` gives |
| HandlerProperties.MissingOfIff | src/handler.py:407-411 | a key is reported exactly when it is a checked key and its value is None or a whitespace-only string |
| HandlerProperties.ValidationListsEveryBlankField | src/handler.py:407-413 | a rejected create lists every blank required field, not only the first, lists no non-string value, and writes nothing |
| HandlerProperties.ValidationPassesIff | src/handler.py:407-437 | a create goes through exactly when no required field is None or blank |
| HandlerProperties.IntakeNormalised | src/handler.py:417-423 | the stored MC number is digits only and the other four intake fields are stripped |
| HandlerProperties.ComputedIntake | src/handler.py:325-341 | `_compute_result` stores the intake it is given |
| HandlerProperties.FinishStores | src/handler.py:425-426 | with a working table, the saved result comes back stamped with the new id and expiry, holding its intake |
| HandlerProperties.CreateStoresIntake | src/handler.py:415-426 | with a working table, a create stores the result under the new id, holding the normalised intake |
| HandlerProperties.CreateSaves | src/handler.py:425-437 | a valid create saves the computed result under the new id and answers with its summary |
| HandlerProperties.CreateSummary | src/handler.py:428-437 | the summary carries the new id, status "ready", at most 3 matches, and the carrier check's `valid` for the sanitised MC number |
| HandlerProperties.CreateIgnoresSaveFailure | src/handler.py:426 | a failed save on create gives the same reply and leaves the table as it was |
| HandlerProperties.VerifiedNumberIsStoredNumber | src/handler.py:144 | the MC number handed to the carrier check is already clean: its second sanitising changes nothing |
| HandlerProperties.EnrichStatus | src/handler.py:383-394 | the checks come in order: a blank id is a 400 before the table is read, an unknown or empty record a 404, a body without optional fields a 400 |
| HandlerProperties.EnrichAtStatus | src/handler.py:387-394 | the same order, once the id has been read |
| HandlerProperties.EnrichFailures | src/handler.py:401-402 | only a failed save of a found record with updates is a 500, and no failed enrichment writes to the table |
| HandlerProperties.EnrichAtFailures | src/handler.py:401-402 | the same, once the id has been read |
| HandlerProperties.UpdatesAreOptional | src/handler.py:392 | the updates are exactly the `OPTIONAL` keys present in the body, with the body's values |
| HandlerProperties.EnrichMergesOnlyOptional | src/handler.py:383-403 | a successful enrichment answers with the id and `updated_at`; it overlays the updates on the saved intake (later keys win), sets `updated_at`, keeps every other part of the record, and touches no other record |
| HandlerProperties.EnrichAtMerges | src/handler.py:387-403 | the same, once the id has been read |
| HandlerProperties.EnrichSaves | src/handler.py:396-403 | past its checks, an enrichment saves the merged, restamped item under its id and reports the update |
| HandlerProperties.MergedKeeps | src/handler.py:396-399 | the merge overlays the updates on `existing.get("intake") or {}`, sets `updated_at`, and changes no other key |
| HandlerProperties.EnrichNeverCreates | src/handler.py:383-403 | an enrichment never adds a record: the table has the same ids afterwards |
| HandlerProperties.PathIdWins | src/handler.py:368 | the path parameter wins over the query string; a missing or empty one defers to it |
| HandlerProperties.ReadsDoNotWrite | src/handler.py:361-374 | OPTIONS and GET never write; a GET answers 400 exactly without an id and 404 exactly for a missing or empty record |
| HandlerProperties.StoredIsFound | src/handler.py:371-374 | a GET of a stored, non-empty record answers with that record |
| HandlerProperties.CreatedRecordIsFound | src/handler.py:365-437 | round trip: a record created with a working table is found by a GET of its id, stamped with that id and its expiry, and holds the normalised intake |

## Left out

- **I/O and the environment.** `urlopen`, `Request`, `time.sleep`, `time.time`, `datetime.now`, `uuid.uuid4`, `os.getenv` and `boto3` are not modelled. Their results are parameters: the network outcome of each attempt, the returned list of sleeps, clock readings, the new id, the environment values, the stored table, and flags for backend errors.
- **`src/repos/load_repo.py` and `_load_fake_loads`.** Reading the demo-loads file and its `lru_cache` memoisation are not part of this model. The loads are an input list.
- **The event envelope.** The following are not modelled: `json.loads` of the event body and its "Invalid JSON" 400, `_resp`, the CORS headers, and the JSON encoding of replies. The handler receives a decoded body, and each reply's status and body are functions of the reply value.
- **`json_default`, `_json_default`, `_init_table` and the lazy global `TABLE`.** Decimal conversion is floating-point plumbing. The store is a `ResultRepository` whose table is present or absent.
- **Floating point.** `FMCSA_BACKOFF_SECONDS` is a whole number of milliseconds (default 750). `backoff * 2 ** attempt` is computed exactly. The backoff is a `nat`, so a negative setting is not modelled: there `time.sleep` raises `ValueError` outside the `try` (`src/clients/fmcsa_client.py:103`) and the invocation fails.
- **JSON floats.** `Py.Json` has no float case, so request bodies and stored records hold no floats. Two consequences are not captured:
  - A float anywhere in the item `_save_result` writes (an enrichment value such as `"rate_offer": 1850.5`, say) makes `put_item` raise `TypeError`. The `except (BotoCoreError, ClientError)` does not catch it, and nothing outside does (`src/handler.py:304-308`), so the invocation raises. `Handler.Enrich` and its lemmas know only the answers 200, 400, 404 and 500 and the `AttributeError` crash of a non-dict `intake`.
  - A float `mc_number` such as `12345.0` sanitises through `str()` to `"123450"` (`src/handler.py:119`).
- **A POST body that is JSON but not an object.** The handler's body is a `Doc`, so a string or list body cannot be expressed. With a string body, `"request_id" in body` is a substring test; with a list body, `body.get` raises and the invocation fails.
- **Environment parsing.** `int()` and `float()` of an environment value are given already parsed, so a malformed value does not raise `ValueError`.
- **The request timeout.** It is kept as a setting, but what a slow server does is only visible through the attempt outcome it produces.
- **`str()` of exceptions.** It is an opaque message carried by each outcome. Whether a `URLError` is retried is decided by the text of its `reason`.
- **Character handling.**
  - `lower()` and `upper()` change ASCII letters only.
  - `\d` is the ASCII digits.
  - Python's Unicode case mappings and Unicode digits are not modelled.
  - `strip()` uses Python's whitespace set.
- **`datetime.fromisoformat`.** Its grammar is an abstract partial parser that returns a calendar date (years 1 to 9999) or fails. `Utils.DateOnlyIdempotent` and `Utils.DateOnlyOfPlainDate` assume that the parser reads a `YYYY-MM-DD` text as that very day or rejects it.
- **`str()` of a list or dict** in the handler is a `repr` parameter.
- MatchingService.MatchLoads: requires `Readable` for the intake and every load, and so does `HandlerLoads.FetchLoads`. `Readable` asks that origin, destination and equipment be text or falsy, and that the date be no list or dict. On other values Python's `.strip()`, `.lower()` or `str()` raises, or prints a container, and the model does not follow that exception or that text.
- **Exceptions in `lambda_handler`.** An enrichment of a record whose `intake` is a truthy non-dict raises `AttributeError` in `update`. It is a `Crash` reply with the message and no status code.
- **Errors as a list.** The `errors` dict of a validation failure is modelled as the ordered list of its keys. Every key carries the same message.
- **In-place updates.** The engines' `matches.sort(...)` and the enrichment's `existing_intake.update(...)` are modelled on values, so aliasing is not captured. The `sort` is the value `SortDesc(matches)` reassigned to the list, and the merge is the map union `before + updates`.
- **Concurrency.** Concurrent invocations and last-writer-wins between enrichments are not modelled.
- FmcsaClientProperties.EndpointHidesKey: is weaker than a "no key in the endpoint" promise. It states that the raw key is absent only for a key without `*`. The source replaces the raw key, while the URL holds `quote(webkey)`. A key that `quote` changes (one with a space, `+` or `=`) therefore stays visible in its percent-encoded form, and the model keeps that behaviour.
- ResultRepo.TableName: its own contract only covers an explicit name. The environment case is stated by `ResultRepo.BlankEnvironmentMeansNoTable`.
