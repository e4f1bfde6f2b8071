# Sui transaction monitor — Dafny model of the ingestion pipeline

The monitor follows a Sui node. Each poll cycle it asks for the newest
checkpoint and takes the last transaction digest in it. It skips that digest
if it is empty or was the last one processed. Otherwise it fetches the
transaction envelope, flattens it into a record, and upserts the record into
the `transactions` table keyed by digest. Only after that write succeeds does
it remember the digest.

The model has six modules:

- `Wrappers` (`wrappers.dfy`): `Option`, standing for a JSON key that may be absent.
- `Envelope` (`envelope.dfy`): the raw envelope as nested datatypes with `Option` fields, the flat `Record`, and ASCII lower-casing.
- `Normalizer` (`normalizer.dfy`): `cleanse_transaction`.
  - `Cleanse` is the specification, built from one function per step.
  - `CleanseTransaction` follows the source's loops and appends, with the `break` after the first MoveCall. One method per loop is proved equal to its step function, and together they are proved equal to `Cleanse`.
  - Lemmas state what the record means: event precedence, the MoveCall fallback, bucketing and the deletion merge.
- `RpcClient` (`rpc_client.dfy`): `make_api_request`'s retry loop.
  - The node is an oracle `network: nat -> Response` that gives the outcome of each attempt.
  - The pauses are returned as a ghost sequence.
  - `RetryFrom` is the specification; `MakeApiRequest` is the loop, proved against it.
- `Store` (`store.dfy`): `store_transaction`, with the table as a `map<string, Record>` and `Upsert` as the specification.
- `Poller` (`poller.dfy`): `get_latest_transaction`'s choice of digest and one iteration of `main`'s loop.
  - `Step` and `RunCycles` are the specification.
  - The class `Monitor` holds `last_processed_tx` and the store, and its methods are proved against them.

Where the documented behaviour and the code disagree, the model follows the code:

- When the last attempt gets an API error, the exception carries only the attempt count, not the error (`sui_transaction_monitor.py:61`). Only the transport path includes its reason (`RpcClient.ExhaustedFailure`).
- `deleted_objects` can still hold duplicates that were already inside `objectChanges`. Only ids from the supplementary `deleted` list are checked against the list before they are appended. `MergeDeletedNoDuplicates` therefore assumes that the `objectChanges` part has no duplicates.
- When `max_retries <= 0` the loop never runs and the call returns `None` (`RpcClient.NoResultIffNoAttempts`).
- A MoveCall may set `package_id` to `''`. It may also replace a module name that came from an event with `module::function` (`Normalizer.ModuleOverwrittenExample`).

## Model

| member | source | states |
|---|---|---|
| `Envelope.AsciiLower` | sui_transaction_monitor.py:187 | lower-casing keeps the length, leaves no upper-case ASCII letter, keeps every other character and maps each upper-case letter to its lower-case partner |
| `Normalizer.ProcessEvents` | sui_transaction_monitor.py:133-143 | events become processed events one-to-one and in source order, with missing keys defaulting to `''` / `{}` |
| `Normalizer.FirstNonEmptySpec` | sui_transaction_monitor.py:145-149 | the value kept from a field scan is `''` exactly when every value is empty, and otherwise the value at the first non-empty position, so a later value never overwrites it |
| `Normalizer.FirstNonEmptyAt` | sui_transaction_monitor.py:145-149 | the kept value is the one at the first non-empty position |
| `Normalizer.FirstNonEmptyAppend` | sui_transaction_monitor.py:146-149 | scanning one more event changes the kept value only while it is still empty |
| `Normalizer.ScanEvents` | sui_transaction_monitor.py:133-149 | the event loop produces the processed events, the first non-empty `packageId` and the first non-empty `transactionModule` |
| `Normalizer.FirstMoveCall` | sui_transaction_monitor.py:158-159 | the index found is that of the first command that is an object of type `MoveCall`; `None` means no command is one |
| `Normalizer.ScanCommands` | sui_transaction_monitor.py:152-165 | the command loop with its `break` yields the transaction type, package id and function of `ResolveOrigin` |
| `Normalizer.ScanObjectChanges` | sui_transaction_monitor.py:180-195 | the object-change loop builds exactly the three buckets `BucketIds(changes, Created/Deleted/Modified)` |
| `Normalizer.AppendDeletedRefs` | sui_transaction_monitor.py:198-203 | the supplementary-deletion loop yields `MergeDeleted` of the bucket and the list |
| `Normalizer.CleanseTransaction` | sui_transaction_monitor.py:112-229 | the normaliser returns the record `Cleanse(env, now)` |
| `Normalizer.EventsTakePrecedence` | sui_transaction_monitor.py:145-157 | if some event has a package id, the first such id is the record's; the function is then the first non-empty event module, or `''` if there is none |
| `Normalizer.MoveCallFallback` | sui_transaction_monitor.py:152-165 | with no event package id, a programmable transaction takes its package id from its first MoveCall, and takes `module::function` only when both parts are non-empty; otherwise the event module stays |
| `Normalizer.EventFieldsChangedOnlyByMoveCall` | sui_transaction_monitor.py:128-165 | package id and function differ from the event-derived values only if the events gave no package id, the kind is `ProgrammableTransaction`, there is a command list and it contains a MoveCall; the transaction type is the kind, defaulting to `'unknown'` |
| `Normalizer.PrecedenceExample` | sui_transaction_monitor.py:135-165 | an event with (`0xA`, `m1`) and a MoveCall with (`0xB`, `m2`, `f`) give package `0xA` and function `m1` |
| `Normalizer.ModuleOverwrittenExample` | sui_transaction_monitor.py:148-165 | an event module without a package id is replaced by the first MoveCall's `m2::f`; commands that are not objects and later MoveCalls are ignored |
| `Normalizer.GasArithmetic` | sui_transaction_monitor.py:171-177 | gas is computation + storage − rebate: 100/50/30 give 120, 10/0/50 give −40 (not clamped), missing parts count as 0, and no `gasUsed` gives 0 |
| `Normalizer.EmptyEnvelopeDefaults` | sui_transaction_monitor.py:118-226 | an empty envelope yields `''` digest and sender, the ingestion clock as timestamp, checkpoint 0, type and status `'unknown'`, empty package id and function, gas 0, and empty lists |
| `Normalizer.BucketMembership` | sui_transaction_monitor.py:185-195 | an id is in a bucket exactly when some change with that non-empty id has that lower-cased type |
| `Normalizer.BucketIdsConcat` | sui_transaction_monitor.py:186-195 | bucketing distributes over concatenation, so each bucket keeps the source order |
| `Normalizer.BucketsPartition` | sui_transaction_monitor.py:189-195 | the three buckets together hold one id per classified change: each change goes to exactly one bucket, and empty ids and other types are dropped |
| `Normalizer.MergeDeleted` | sui_transaction_monitor.py:198-203 | merging keeps the ids from `objectChanges` as an unchanged prefix |
| `Normalizer.MergeDeletedCoversRefs` | sui_transaction_monitor.py:198-203 | every non-empty id of the supplementary `deleted` list ends up in `deleted_objects` |
| `Normalizer.MergeDeletedAppendsNew` | sui_transaction_monitor.py:201-203 | every appended id is non-empty and not already present, so supplementary ids appear once |
| `Normalizer.MergeDeletedInFirstSeenOrder` | sui_transaction_monitor.py:198-203 | the merge equals `deleted` followed by `NewIds`, which is defined independently: the non-empty supplementary ids not in `deleted`, each at its first occurrence in the supplementary list, in that list's order |
| `Normalizer.MergeDeletedAppendsFromRefs` | sui_transaction_monitor.py:199-203 | every appended id comes from the supplementary list |
| `Normalizer.MergeDeletedNoDuplicates` | sui_transaction_monitor.py:198-203 | if the `objectChanges` part has no duplicates, neither has `deleted_objects` |
| `Normalizer.DedupExample` | sui_transaction_monitor.py:185-203 | an id deleted in both lists appears once: `Deleted 0x1` then refs `0x2, 0x1, 0x2` give `[0x1, 0x2]` |
| `RpcClient.MakeApiRequest` | sui_transaction_monitor.py:47-70 | the retry loop's outcome, pauses and attempt count are those of `RetryFrom(network, maxRetries, delay, 0)` |
| `RpcClient.AttemptsBounded` | sui_transaction_monitor.py:51 | at most `max_retries` attempts are made, and at least one when `max_retries >= 1` |
| `RpcClient.NoResultIffNoAttempts` | sui_transaction_monitor.py:51-70 | the call returns `None` exactly when `max_retries <= 0` |
| `RpcClient.SleepSchedule` | sui_transaction_monitor.py:58-69 | the i-th pause lasts `delay * (i + 1)`, and there is one pause fewer than attempts, so none follows the final attempt |
| `RpcClient.BackoffIncreases` | sui_transaction_monitor.py:59-68 | with `delay > 0` the pauses strictly increase |
| `RpcClient.FirstAnswerReturned` | sui_transaction_monitor.py:51-63 | the first answering attempt within the budget has its `result` returned at once, after `k + 1` attempts |
| `RpcClient.ReturnedIsFirstAnswer` | sui_transaction_monitor.py:51-63 | a returned value is the answer of an attempt within the budget that was preceded only by failures |
| `RpcClient.AllFailuresRaise` | sui_transaction_monitor.py:56-70 | when every permitted attempt fails, exactly `max_retries` attempts are made and the exception for the last failure is raised |
| `RpcClient.ThreeFailedAttemptsExample` | sui_transaction_monitor.py:47-70 | three attempts that all fail, with delay 2: three attempts, pauses 2 and 4, then "Request failed after 3 attempts" |
| `Store.Upsert` | sui_transaction_monitor.py:246-251 | after an upsert the digest maps to exactly the new record (full replace), every other row is unchanged, and the keys grow by that digest only |
| `Store.UpsertIdempotent` | sui_transaction_monitor.py:246-250 | storing the same record twice equals storing it once |
| `Store.UpsertLastWriteWins` | sui_transaction_monitor.py:246-250 | a second write to a digest replaces the first entirely, with no merge |
| `Store.TransactionStore.StoreTransaction` | sui_transaction_monitor.py:231-268 | success exactly when the database does not raise; the table becomes `Upsert(old table, record)` on success and is unchanged otherwise |
| `Poller.LatestTransaction` | sui_transaction_monitor.py:92 | the latest digest is the checkpoint's last one, or `None` when the list is empty |
| `Poller.Monitor.constructor` | sui_transaction_monitor.py:307 | the loop starts with `last_processed_tx = None` on the given store |
| `Poller.Monitor.PollOnce` | sui_transaction_monitor.py:309-339 | one cycle changes `last_processed_tx` and the table, and ends, exactly as `Step` says |
| `Poller.Monitor.Run` | sui_transaction_monitor.py:309-339 | a bounded run of cycles behaves as `RunCycles` |
| `Poller.StateChangesOnlyWhenStored` | sui_transaction_monitor.py:315-339 | a skipped or failed cycle changes nothing, so the digest is retried next cycle. A cycle stores exactly when the checkpoint is read, the digest is new and non-empty, the details are fetched and the store succeeds. Only then does `last_processed_tx` become that digest and the table receive the upserted record |
| `Poller.SkipOnRepeat` | sui_transaction_monitor.py:315-331 | after a digest is stored, a cycle that sees it again changes nothing and reports no new transaction |
| `Poller.AtMostOneStorePerDigest` | sui_transaction_monitor.py:315-331 | any number of cycles that see the same latest digest store at most once, and never if it was already the last one processed |
| `Poller.RunKeepsRows` | sui_transaction_monitor.py:246-250 | rows are never deleted: every digest in the table stays in it across a run |

## Left out

- HTTP and JSON-RPC (`sui_transaction_monitor.py:49-54`, `72-110`) are not modelled. Each attempt's result is an input `Response`: an answer, an API error or a transport exception. A missing `result` key, or a JSON decoding error that is not a `RequestException`, is not modelled.
- `get_latest_transaction`'s two RPC calls are one input for the poller: the latest checkpoint's digest list, or a raised failure. So is `get_transaction_details`. The poller does not run the retry policy itself.
- SQLAlchemy, schema creation, the startup row count and the startup-failure exit (`sui_transaction_monitor.py:21-45`, `291-305`) are not modelled. The table is a map. Whether the database raises (column widths, 32-bit `Integer` overflow, lost connection) is an input to `StoreTransaction`, not derived from the record.
- The existence check before the write and the read-back after it (`sui_transaction_monitor.py:239-244`, `254-262`) only log, so the model leaves them out.
- Timestamps are not converted (`sui_transaction_monitor.py:206-210`). The record keeps the millisecond value, or the clock reading `now`, which is a parameter. The division by 1000, the local time zone and `datetime.now()` are not modelled.
- `int(...)` parsing of the gas costs, checkpoint and timestamp (`sui_transaction_monitor.py:174-176`, `208`, `216`) is not modelled. These values arrive as integers, and a non-zero integer stands for a truthy `timestampMs`.
- `insert_transaction` (`sui_transaction_monitor.py:270-289`) is dead code that names undefined globals, so it is not modelled.
- Logging and `time.sleep` are not performed. The retry pauses are recorded as a ghost sequence; the poller's one-second pauses are not recorded.
- The endless `while True` is modelled as one cycle (`PollOnce`) or a bounded sequence of cycles (`Run`).
- The typed envelope does not distinguish JSON `null` from a missing key: both are `None`. It also cannot hold a value of the wrong JSON type, such as an event that is not an object, so the `AttributeError` such input would raise in the source is not modelled. The one exception is commands, where a non-object is modelled because the source tests for it.
- `Envelope.AsciiLower`: lower-cases ASCII letters only, not Python's full Unicode `str.lower()`. Non-ASCII letters are kept, and none of them lower-case to `created`, `deleted` or `modified`.
