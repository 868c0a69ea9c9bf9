# Tracking-number generator: a Dafny model

This project models the part of the tracking-number service that does real work, `trackingnum/utils.py`. The model has three parts.

- **Candidate generation.** The country codes and customer id of an order are normalised. The customer part is the id with dashes removed, cut to 12 characters and upper-cased. The base candidate is `(origin + destination + customer)[:16]`. The alternate for attempt `n` is the base cut to `16 - len(str(n))` characters, followed by `str(n)`.
- **The `created_at` text.** A colon is inserted before the last two characters of the formatted local time, turning `+0800` into `+08:00`.
- **The insert-and-retry loop of `create_tracking_number`.** It runs over the `TrackingNumber` table, whose `tracking_number` column is unique.
  - An insert that hits the uniqueness constraint moves to the next attempt.
  - More than 50 conflicts make the call fail.
  - Any other database error is only logged, and the same number is inserted again.

The model has three modules:

- **`PyText`** (`pytext.dfy`): the Python string behaviour the code relies on. It covers slices with negative or out-of-range bounds (`s[:n]`, `s[n:]`), ASCII `str.upper`, `str.replace(c, '')`, and `str(n)` for `n >= 0`.
- **`TrackingNumbers`** (`generator.dfy`): the customer part, `generate_tracking_number`, `generate_alternate_tracking_number`, the colon insertion, and the input format the request layer guarantees. It also proves the candidates for the fixture of `trackingnum/tests.py`.
- **`Arbiter`** (`arbiter.dfy`): the table and the loop.
  - The table is the class `Store`. Its `rows` map each committed tracking number to its `created_at` text. It counts insert calls in `calls`. The fixed oracle `faultAt` says which calls fail with an error other than the uniqueness conflict.
  - The loop is the method `RetryInsert`, which `CreateTrackingNumber` calls after normalising its inputs. Both are proved against the reference function `Run`, which describes the loop call by call.
  - `Run`'s lemmas state what the loop promises: success, giving up, and retrying under faults.

The source's `while True` can run forever when the database keeps failing. Dafny needs termination, so the loop takes a `fuel` bound on the number of insert calls. When the fuel is spent, the model's outcome is `StillRetrying`. `RunUnderPersistentFaults` proves that a database that always fails uses up any amount of fuel. `RunWithoutFaultsEnds` proves that without such failures, 51 calls always suffice.

## Model

| member | source | states |
|---|---|---|
| PyText.Take | trackingnum/utils.py:8 | `s[:n]` with Python's bound rules: a prefix of `s` whose length is the clamped, end-relative bound |
| PyText.Drop | trackingnum/utils.py:14 | `s[n:]`: what follows `s[:n]`, so that the two rejoin to `s` |
| PyText.Upper | trackingnum/utils.py:6-8 | ASCII upper-casing: same length, each character upper-cased in place, no lower-case letter left |
| PyText.UpperTake | trackingnum/utils.py:8 | upper-casing commutes with taking a prefix, so cutting before or after `.upper()` gives the same text |
| PyText.Without | trackingnum/utils.py:8 | `replace('-', '')`: never longer, and holds exactly the characters of the input other than the removed one |
| PyText.WithoutAppend | trackingnum/utils.py:8 | removing a character distributes over concatenation |
| PyText.Decimal | trackingnum/utils.py:46 | `str(attempt)`: non-empty, all decimal digits, and starts with '0' only for 0 |
| PyText.DecimalRoundTrip | trackingnum/utils.py:46 | reading the digits back gives the number, so distinct attempts have distinct suffixes |
| PyText.DecimalLength | trackingnum/utils.py:46 | `str(n)` has at most `k` digits exactly when `n < 10^k` |
| TrackingNumbers.CustomerPartShape | trackingnum/utils.py:8 | the customer part has no dash, has length min(12, dash-free length) and is a prefix of the upper-cased dash-free id |
| TrackingNumbers.UuidCustomerPart | trackingnum/utils.py:8 | for an id in UUID text form the customer part is its first two groups upper-cased, 12 characters |
| TrackingNumbers.CustomerPartOfGroups | trackingnum/utils.py:8 | an id whose first two dash-separated groups hold 12 characters has those groups, upper-cased, as its customer part |
| TrackingNumbers.GenerateTrackingNumber | trackingnum/utils.py:33-36 | the base candidate is a prefix of origin+destination+customer and has length min(16, total length) |
| TrackingNumbers.AlternateShape | trackingnum/utils.py:38-46 | an alternate ends with `str(attempt)`, is preceded by a prefix of the base of length min(len(base), 16 - digits), is at most 16 long, and exactly 16 when the base is |
| TrackingNumbers.AlternatesMayRepeat | trackingnum/utils.py:38-46 | alternates are not distinct: for a 16-character base, attempt 1 equals attempt 11 iff base[14] is '1', and equals the base iff base[15] is '1' |
| TrackingNumbers.PartsUpperAlnum | trackingnum/utils.py:6-8 | letter country codes and a hex-and-dash customer id normalise to parts made of capitals and digits only |
| TrackingNumbers.CandidateFormat | trackingnum/utils.py:33-46 | for validated inputs every candidate the loop can produce matches `[A-Z0-9]{1,16}` |
| TrackingNumbers.FullWidthCandidates | trackingnum/utils.py:33-46 | for two-letter codes and a UUID id the base and every alternate whose attempt number has at most 16 digits (every attempt the loop reaches) are exactly 16 characters |
| TrackingNumbers.OffsetWithColonShape | trackingnum/utils.py:14 | the `created_at` text is one longer, has ':' before the last two characters (or first, for shorter input), and deleting it gives back the input |
| TrackingNumbers.FixtureCustomerPart | trackingnum/tests.py:23 | the fixture customer id fe619854-b59b-425e-9db4-943979e1bd49 has customer part FE619854B59B |
| TrackingNumbers.FixtureBaseAndFirstAlternate | trackingnum/utils.py:33-46 | parts MY, ID, FE619854B59B give the base MYIDFE619854B59B and the first alternate MYIDFE619854B591 |
| TrackingNumbers.FixtureCandidates | trackingnum/tests.py:19-23 | the request fixture yields the base MYIDFE619854B59B and the first alternate MYIDFE619854B591 |
| TrackingNumbers.FixtureCreatedAt | trackingnum/utils.py:14 | the colon insertion turns 2018-11-20T19:29:32+0800 into the fixture's 2018-11-20T19:29:32+08:00 |
| Arbiter.InsertResult | trackingnum/utils.py:20-29 | an insert succeeds iff the database does not fail and the key is free, and conflicts iff it does not fail and the key is taken |
| Arbiter.RunStep | trackingnum/utils.py:19-29 | one loop step: success stops, a conflict moves to the next attempt or gives up after attempt 50, any other fault retries the same attempt |
| Arbiter.RunCreated | trackingnum/utils.py:18-25 | a committed number was free, is the candidate of the first attempt whose candidate was free, carries the `created_at` computed before the loop, and took between 1 and fuel calls |
| Arbiter.RunExhausted | trackingnum/utils.py:23-27 | the loop gives up only when the candidates of every attempt up to 50 are taken |
| Arbiter.RunAllConflicts | trackingnum/utils.py:18-27 | when every candidate is taken and nothing else fails, the loop makes exactly 51 insert calls and gives up, never inserting the alternate for attempt 51 |
| Arbiter.RunWithoutFaultsEnds | trackingnum/utils.py:19-27 | without non-conflict faults the loop ends, with a number or by giving up, within 51 calls |
| Arbiter.RunUnderPersistentFaults | trackingnum/utils.py:28-29 | a database that fails every call keeps the loop retrying: any fuel is spent and nothing is decided |
| Arbiter.OutcomeFacts | trackingnum/utils.py:5-30 | for a whole run, a committed number was free and is the first free candidate; for validated inputs it matches `[A-Z0-9]{1,16}`; giving up means all 51 candidates were taken |
| Arbiter.Store.constructor | trackingnum/models.py:4-6 | an empty table with no calls made |
| Arbiter.Store.Insert | trackingnum/utils.py:21 | one atomic `objects.create`: the outcome `InsertResult` gives, one more call, and a row added exactly on success |
| Arbiter.RetryInsert | trackingnum/utils.py:15-30 | the loop does what `Run` says, in outcome and number of calls; on success the table gains exactly that row, otherwise it is unchanged |
| Arbiter.CreateTrackingNumber | trackingnum/utils.py:5-30 | `create_tracking_number`: `Run`'s outcome on the normalised inputs. A committed number was absent before, is the only row added, is the first free candidate, has the expected format for validated inputs, and comes with the `created_at` text. Giving up leaves the table unchanged and means all 51 candidates were taken |
| Arbiter.TwoOrders | trackingnum/tests.py:123-137 | two orders placed one after the other on one table, each with its own inputs (identical ones included), never get the same number, and both numbers join the issued log in order |

## Left out

- The wall clock and the `pytz` conversion (`utils.py:9-12`) are not modelled. The `strftime` output is an input of `CreateTrackingNumber`, and its text is not constrained.
- The `print` of a database error (`utils.py:29`) is not modelled; only the retry that follows it is.
- CreateTrackingNumber: the loop is followed for at most `fuel` insert calls, because the source loop need not terminate. `StillRetrying` stands for "the call has not returned yet".
- Arbiter.Store: database failures other than the uniqueness conflict come from a fixed oracle `faultAt` over the call number. Their kinds and messages are not modelled, and a failing call is assumed not to insert.
- Arbiter.Store: `created_at` is stored as the text that is passed in. Django's conversion to a `DateTimeField` is not modelled.
- Concurrency is not modelled. A single caller runs against the table, and each insert is one atomic method call. The threaded request test in `trackingnum/tests.py` is modelled only as two sequential orders (`TwoOrders`).
- PyText.Upper: only ASCII letters are upper-cased. Python's Unicode case mapping (`ß` to `SS`, for example) is not modelled.
- ValidatedInputs: stands for the request validation with `pycountry` and `UUIDField` in `trackingnum/serializers.py`. It requires two ASCII letters per country code and a customer id of hex digits and dashes. It does not check against the real list of ISO 3166-1 codes.
- FullWidthCandidates: stated for attempts with at most 16 digits. From 10^16 on, `16 - len(str(attempt))` is negative and the alternate is longer than 16 characters; the loop never gets there.
- CandidateFormat: stated for attempts with at most 16 digits, since longer `str(attempt)` values no longer fit in 16 characters. The loop only reaches attempts 0 to 50.
- `trackingnum/serializers.py` and `trackingnum/views.py` (request parsing, the future-date check, HTTP status codes) are not part of this model. Beyond `ValidatedInputs` they are glue around foreign libraries.
- `trackingnum/test_suite.py` and the network requests in `trackingnum/tests.py` are not part of this model.
