# AI Usage Dashboard: verified model of the collection core

This project models the part of the dashboard service that polls AI providers: the compiled-in provider registry and
its persisted enabled flags, the encrypted credential store, the fetch-and-persist cycle, the scheduler with its
auth-failure cooldown, on-demand refresh, the usage view, the Minimax plugin's classification of replies, and start and
shutdown of the process.

Classes with fields and `modifies` clauses mirror the Go types that change in place; each of their methods is proved
equal to a function on values, and the results about whole runs are lemmas about those functions. A call that can fail
for reasons outside the model (a store statement, a Fetcher, `crypto/rand`, `ctx.Err`, the clock) takes the outcome as an
input; statements about runs quantify over all of them.

| file | content |
|---|---|
| `basics.dfy`, `errors.dfy` | byte strings; Go error chains with `errors.Is` |
| `backoff.dfy` | the cooldown window in wrapping signed 64-bit arithmetic |
| `cooldown.dfy` | `AuthCooldownRegistry` |
| `secret.dfy` | AAD encoding, blob framing, `Seal` and `Open` over an ideal AEAD |
| `store.dfy` | the persistence contract |
| `providers.dfy` | registry, rows, reconciliation, runtime fetcher registry |
| `credentials.dfy` | the credential service and the plaintext map it stands for |
| `collection.dfy` | `Collector` |
| `scheduling.dfy` | `Scheduler.tick` and `collectOne` |
| `minimax.dfy` | the Minimax plugin |
| `api.dfy` | credential and usage adapters, refresh status |
| `reference.dfy` | what every operation is meant to show, on plaintext and plain facts |
| `system.dfy` | runs of whole operations, with restarts, and their refinement of the reference |
| `interleaving.dfy` | scheduler goroutine and HTTP handlers interleaved statement by statement |
| `schedules.dfy` | collections, turns, ticks, refreshes and credential sets as schedules of the small steps |
| `credential_reads.dfy` | what a Fetcher is called with while credentials are being changed |
| `credential_race.dfy` | exactly when a credential set lets the next tick retry at once |
| `lifecycle.dfy` | `run`: deferred clean-up against scheduler, signal and server |

## Main results

- **Cooldown window.** `Backoff.WindowExactIff`: the code computes `min(base*2^(n-1), max)` for every failure count if and
  only if `max <= base*2^32` and no shift by 1..31 that loses a bit of `base` leaves a short non-zero remainder. The
  shipped 5 min / 1 h pair passes, as does every base below 2^33 ns with a suitable cap; 2^33+1 ns with a 1 h cap does
  not: its 32nd window is about 2 s.
- **Cooldown history, in every interleaving.** Entry, counter and expiry summarise the scheduler's auth failures since
  the last success or credential set; consecutive failures are a window apart, which gives a closed-form rate limit;
  gating ends at the latest `max` after the last failure, and a tick that starts then begins a Collect of the provider
  before it is over, whatever handlers do and however much time passes during it (`Interleaving.CollectedOnceGatingIsOver`).
- **The credential-set race.** `CredentialRace.RetryAtOnceIff`: after a credential set the provider's gate stays open until
  its next Collect begins, in every continuation, if and only if the scheduler was not inside a Collect of it that could
  still end in a rejection. If it was, the stale failure is recorded at most once, as a first failure, and gates for one
  base window.
- **Concurrent reads.** Stored credentials stay readable in every interleaving, and the map a Fetcher is called with has
  exactly the declared names, each with a value that was its field's stored plaintext at some moment since the Collect
  began (`CredentialReads.FetcherGetsStoredValues`); without a write in that time it is what is stored now.
- **Tick isolation.** A tick equals independent turns, whatever the registry order and the other providers' fate; and
  the sequential tick, like a whole refresh or credential set, is one of the small-step schedules.
- **Refinement with outputs.** Over all runs with restarts, changing registries and failures at any statement, every
  caller and every tick log sees exactly what a reference on plaintext computes: outcomes, errors, and the credentials the
  Fetcher is called with. The encrypted credentials, snapshots, rows and cooldown stand for the reference's facts.
- **Shutdown.** The store is closed only after the scheduler has returned, at most one scheduler fetch is in flight at
  or starts after cancellation, a cancelled scheduler returns within six own steps and three more per ticker event
  whatever its calls come to, and the clean-up cannot deadlock. The exit is the error of the boot step that failed, what
  the server ended with first, or what the shutdown came to, and nothing else (`Lifecycle.ExitIsDecided`).

## Where code and documentation differ

The model follows the code.

- `internal/scheduler/scheduler.go:49-51` promises base, 2*base, 4*base, ... capped at max; the wrapped shift can yield a
  short window (`Backoff.ShortWrapWitness`), exactly when `Backoff.ShortWrapFree` fails.
- `internal/credential/credential.go:45-47` promises that the next tick retries immediately after a credential set; under
  concurrency a rejection of the old credentials can be recorded after the clear and gate the provider for one base window.
  `CredentialRace.StaleFailureWitness` is such a run, with the old value in the Fetcher's hands and the new one stored. It
  can happen exactly when, at the clear, the scheduler's Collect of that provider has yet to hear from a live Fetcher or
  has a rejection to record (`CredentialRace.RejectionPossible`, `CredentialRace.StaleFailureIff`,
  `CredentialRace.RetryAtOnceIff`); otherwise the promise holds (`CredentialRace.NextTickRetries`).
- `internal/scheduler/scheduler.go:24-25` says that any successful collect removes the entry. One made on demand does not: it
  can succeed while the provider is gated and leave it gated (`CredentialRace.RefreshedStillGatedWitness`). A successful
  Collect removes the entry exactly if the scheduler made it (`Interleaving.SuccessClearsIffScheduled`).
- `internal/plugins/minimax/minimax.go:39-40` and `:92-94` say that RegisterFetcher panics when the metadata does not match;
  `internal/provider/fetcher.go:135-141` compares ids only, so a Fetcher with a registered, free id and any other name or
  fields is accepted (`Providers.Service.RegisterFetcher`, whose panic condition mentions the id alone).
- `internal/scheduler/collector.go:53-56` calls the Fetcher's error "unwrapped"; `internal/provider/fetcher.go:168-171`
  wraps it once, which changes no `errors.Is` answer.
- `internal/plugins/minimax/minimax.go:187-188` defines used as limit minus remains, clamped at zero; the int64 subtraction
  can overflow, exactly when the true difference is no int64 (`Minimax.UsedIsTrueDifferenceIff`); with limit 2^63-1 and
  remains -1 used is 0 instead of 2^63 (`Minimax.UsedOverflowWitness`).
- `internal/secret/secret.go:49-52` says the NUL separators remove all ambiguity; they do so for NUL-free provider ids
  (`Secret.AADInjective`, `Secret.AADUniqueIff`), which the compiled-in ids are.

## Assumptions

- AES-256-GCM is an ideal AEAD: decryption accepts exactly what was encrypted under the same key, nonce and associated
  data, and no ciphertext is shared between keys or between associated data (`Secret.Ideal`, shown satisfiable by
  `Secret.IdealExists`). The ciphertext length is left open, since no scheme with a fixed-length tag is ideal in this sense.
- Store statements are atomic and return driver errors that wrap none of the program's sentinels. `Create` of an existing
  id violates the primary key, as in `internal/store/sqlite/sqlite.go:126-136`.
- Registry ids are distinct where a lemma says so. Time is an integer number of nanoseconds and does not run backwards in
  the interleaved model.
- The master key does not change within a run; it does survive restarts.

## Model

| member | source | states |
|---|---|---|
| Errors.IsMatchesRoot | internal/scheduler/scheduler.go:160-164 | errors.Is finds a sentinel exactly when it is the innermost error of the chain |
| Errors.IsThroughLayers | internal/provider/fetcher.go:168-171 | any number of extra %w layers neither hides nor invents a sentinel |
| Backoff.Window | internal/scheduler/scheduler.go:58-61 | the guarded wrapping shift lies in (0, max] for every int64 base and failure count when max > 0 |
| Backoff.ShiftedRemainder | internal/scheduler/scheduler.go:58 | what an int64 shift keeps of base is base's low 64-k bits |
| Backoff.WindowExactAt | internal/scheduler/scheduler.go:58-61 | for one failure count up to 32 the documented window is met iff the shift loses nothing, everything, or leaves no short remainder |
| Backoff.WindowExactIff | internal/scheduler/scheduler.go:49-64 | the documented windows min(base*2^(n-1), max) hold for all n iff a bit-level condition on base and max holds |
| Backoff.SmallBaseIsExact | internal/scheduler/scheduler.go:58-61 | every base below 2^33 ns with max <= base*2^32 keeps the documented windows |
| Backoff.DivisibleBaseIsExact | internal/scheduler/scheduler.go:58-61 | so does a base divisible by 2^t when base*max <= 2^(64+t) and max <= base*2^32 |
| Backoff.ShippedPairIsExact | cmd/aud/main.go:29-45 | the shipped 5 min / 1 h pair keeps the documented windows |
| Backoff.ShortWrapWitness | internal/scheduler/scheduler.go:58-61 | base 2^33+1 ns and a 1 h cap give a 2^31 ns window at the 32nd failure |
| Backoff.WindowSumClosedForm | internal/scheduler/scheduler.go:49-64 | n windows add up to base*(2^m-1) plus the cap for each of the n-m windows past the doubling phase |
| Cooldown.WithFailure | internal/scheduler/scheduler.go:52-64 | recording counts one more failure, ends the window within max, and touches no other provider |
| Cooldown.GatedExactlyWithinWindow | internal/scheduler/scheduler.go:42-64 | after a failure the provider is gated exactly until the window of its new count is over, never beyond max |
| Cooldown.AuthCooldownRegistry.constructor | internal/scheduler/scheduler.go:37-39 | a new registry gates nobody |
| Cooldown.AuthCooldownRegistry.Active | internal/scheduler/scheduler.go:42-47 | active iff an entry exists whose expiry is still ahead |
| Cooldown.AuthCooldownRegistry.RecordFailure | internal/scheduler/scheduler.go:52-64 | the entry map becomes the one with one more failure for this provider at this time |
| Cooldown.AuthCooldownRegistry.Clear | internal/scheduler/scheduler.go:69-73 | removes exactly this provider's entry |
| Secret.BuildAAD | internal/secret/secret.go:53-61 | the appended buffer is the domain-separated encoding, of the pre-computed length |
| Secret.AADLayout | internal/secret/secret.go:47-61 | the encoding is "aud/cred/v1", NUL, id, NUL, field |
| Secret.ParseInvertsAAD | internal/secret/secret.go:47-61 | the encoding can be read back exactly for NUL-free provider ids |
| Secret.AADInjective | internal/secret/secret.go:47-61 | for NUL-free provider ids and any fields, equal AADs come from equal pairs |
| Secret.AADUniqueIff | internal/secret/secret.go:47-61 | without that condition an AAD has a single preimage iff neither part contains a NUL |
| Secret.AADCollisionWitness | internal/secret/secret.go:47-61 | two different pairs with the same AAD once an id contains a NUL |
| Secret.OpenSealed | internal/secret/secret.go:83-127 | Open returns what Seal was given, under the same key and AAD |
| Secret.SealLayout | internal/secret/secret.go:83-99 | for every AEAD: a 32-byte key is required; byte 1, 12 nonce bytes and the ciphertext are written |
| Secret.OpenLayout | internal/secret/secret.go:101-127 | for every AEAD: the error or plaintext follows from key length 32, blob length 13, version byte 1 and decryption, in that order |
| Secret.OpensIffSealed | internal/secret/secret.go:101-127 | Open accepts a blob with plaintext m iff Seal could have produced it from m for that key and AAD |
| Secret.OpenOutcomes | internal/secret/secret.go:33-45 | exactly one of four outcomes, decided by key length, blob length and version, and whether the blob is a sealing |
| Secret.SealedOpensOnlyAtHome | internal/secret/secret.go:101-127 | a sealed blob fails to decrypt under any other key or AAD |
| Secret.BuildSealed | internal/secret/secret.go:83-99 | version, nonce and ciphertext in that order, or the key-length or nonce error |
| Store.Repository.List | internal/store/store.go:27-28 | returns every row, or a store error |
| Store.RowReadsSeeWrites | internal/store/store.go:29-37 | a create succeeds iff the row reads as not-found, an update iff it reads; afterwards Get shows the new flag there and everything else as before |
| Store.Repository.Create | internal/store/store.go:32-34 | inserts one new row, or fails and changes nothing |
| Store.Repository.SetEnabled | internal/store/store.go:35-37 | changes one existing row's flag, or fails and changes nothing |
| Store.Repository.Upsert | internal/store/store.go:47-49 | sets one (provider, field) row, or fails and changes nothing |
| Store.Repository.Presence | internal/store/store.go:50-53 | the fields with a stored value |
| Store.SecretReadsSeeWrites | internal/store/store.go:47-59 | Get shows an upserted blob, not-found after the provider's deletion, and no other change; presence lists exactly what Get finds |
| Store.Repository.Delete | internal/store/store.go:57-59 | clears one provider's fields, also if there are none |
| Store.Repository.Replace | internal/store/store.go:92-96 | one snapshot per provider, last error cleared |
| Store.SnapshotReadsSeeReplaces | internal/store/store.go:92-102 | Get shows the metrics and time of the last Replace, without an error, and no other change |
| Providers.Find | internal/provider/provider.go:89-96 | finds an entry exactly if the registry has the id, and one with that id |
| Providers.FindIsFirst | internal/provider/provider.go:89-96 | of several entries with one id the first is found |
| Providers.ListAgreesWithGet | internal/provider/provider.go:98-130 | List and Get show the same provider; an entry without a row is disabled in List and not found by Get |
| Providers.SwitchThenGet | internal/provider/provider.go:132-146 | switching succeeds iff the id is known and has a row; Get then shows the new flag there and no other change |
| Providers.FetcherNotFoundIffNotLive | internal/provider/fetcher.go:152-173 | "no Fetcher" is reported iff the id is not live or the Fetcher's own error says so |
| Providers.CreatingOnlyAdds | internal/provider/provider.go:164-173 | wherever creation stops, old rows are untouched and new ones are registered and disabled |
| Providers.ReconciledOnSuccess | internal/provider/provider.go:148-182 | success leaves the old rows plus a disabled row for every other registered id |
| Providers.ReconciledNeverStrays | internal/provider/provider.go:148-182 | a run that breaks off anywhere can still be completed to the same rows |
| Providers.ReconcileIsCrashTolerant | internal/provider/provider.go:148-182 | any number of broken-off runs followed by a success equals one uninterrupted run, which succeeds without faults |
| Providers.RuntimeRegistry.Register | internal/provider/fetcher.go:97-104 | refuses (panics on) a second Fetcher for an id, otherwise adds it |
| Providers.RuntimeRegistry.Lookup | internal/provider/fetcher.go:109-117 | the registered Fetcher or ErrFetcherNotFound |
| Providers.RuntimeRegistry.Has | internal/provider/fetcher.go:120-125 | whether a Fetcher is registered |
| Providers.Service.constructor | internal/provider/provider.go:85-87 | a new service has its registry and no Fetcher |
| Providers.Service.LookupMetadata | internal/provider/provider.go:89-96 | the loop returns the first entry with the id |
| Providers.Service.List | internal/provider/provider.go:100-115 | every registry entry in order, merged with its row and live state |
| Providers.Service.Get | internal/provider/provider.go:120-130 | the merged provider, not-found for an unknown id or a missing row |
| Providers.Service.SetEnabled | internal/provider/provider.go:137-146 | changes one row's flag and returns the resulting provider, or changes nothing |
| Providers.Service.Reconcile | internal/provider/provider.go:154-182 | creates what is missing until the first failure; the warned ids are the rows without a registry entry |
| Providers.IdsOf | internal/provider/provider.go:159-162 | the ids gathered from the listing are those of the table |
| Providers.Unknown | internal/provider/provider.go:175-179 | the warned ids are the listed ones outside the registry |
| Providers.Service.RegisterFetcher | internal/provider/fetcher.go:127-141 | panics iff the id is unknown or taken; registered ids stay within the registry |
| Providers.Service.HasFetcher | internal/provider/fetcher.go:143-150 | live iff a Fetcher is registered |
| Providers.Service.FetchUsage | internal/provider/fetcher.go:152-173 | calls the Fetcher iff the id is known and live, and wraps its error |
| Credentials.RevealIsLookup | internal/credential/credential.go:82-95 | on readable rows Reveal is lookup in the plaintext map |
| Credentials.RevealFailures | internal/credential/credential.go:85-95 | a failed read, a missing value and each failure of Open are passed on, wrapped once |
| Credentials.PutField | internal/credential/credential.go:42-57 | sealing and upserting a field is one update of the plaintext map |
| Credentials.WrittenOrFailed | internal/credential/credential.go:48-57 | the call succeeds iff every field is written; otherwise it stops at the first that cannot be sealed or stored, with that field's error |
| Credentials.WriteFieldsRefines | internal/credential/credential.go:42-62 | after success or failure the plaintext map is the old one updated by the fields written, nothing else |
| Credentials.SuccessWritesAll | internal/credential/credential.go:42-62 | success has written every field of the map |
| Credentials.DeleteRefines | internal/credential/credential.go:74-80 | deleting removes exactly one provider's plaintext |
| Credentials.MovedBlobNeverOpens | internal/credential/credential.go:42-47 | a blob copied to another (provider, field) row never opens there |
| Credentials.WriteFailsIff | internal/credential/credential.go:48-57 | the call fails iff some field cannot be sealed or upserted, whatever the order |
| Credentials.IterationOrderIrrelevant | internal/credential/credential.go:48-62 | every map iteration order gives the same success and the same final table |
| Credentials.Service.SetValues | internal/credential/credential.go:48-62 | writes in some order; the cooldown is cleared on success and only then |
| Credentials.Service.Presence | internal/credential/credential.go:64-72 | the stored fields, or the wrapped store error |
| Credentials.Service.Delete | internal/credential/credential.go:74-80 | clears one provider's fields, or nothing |
| Credentials.Service.Reveal | internal/credential/credential.go:85-95 | the decrypted value, or the wrapped reason |
| Collection.LoadingSucceeds | internal/scheduler/collector.go:85-104 | a completed loading holds exactly the declared fields with their values |
| Collection.FirstProblemDecides | internal/scheduler/collector.go:91-104 | loading ends with the first unreadable field in declared order, or with all fields |
| Collection.LoadsStoredPlaintext | internal/scheduler/collector.go:85-104 | it delivers the declared plaintext, or the error of the first declared field whose read fails or that has no value |
| Collection.CollectEffects | internal/scheduler/collector.go:57-83 | failure changes no snapshot; success replaces this provider's by what the Fetcher returned |
| Collection.CollectIsLocal | internal/scheduler/collector.go:57-104 | outcome and Fetcher credentials depend only on the provider's own row and credentials |
| Collection.Collector.Collect | internal/scheduler/collector.go:57-83 | the method realises the modelled cycle, including which credentials reach the Fetcher |
| Collection.Collector.LoadCredentials | internal/scheduler/collector.go:91-104 | the loop realises the modelled loading |
| Collection.ConvertMetrics | internal/scheduler/collector.go:110-124 | every metric converted field by field, in order |
| Scheduling.TurnTouchesOnlyItsShare | internal/scheduler/scheduler.go:149-178 | a provider's turn changes nothing of another provider |
| Scheduling.TurnReadsOnlyItsShare | internal/scheduler/scheduler.go:149-178 | a turn's result depends only on the provider's own share of the state |
| Scheduling.TickIsolatesProviders | internal/scheduler/scheduler.go:122-141 | after a tick each provider is as if it alone had had its turn; providers without a turn are unchanged |
| Scheduling.TickOrderIrrelevant | internal/scheduler/scheduler.go:125-141 | the listing order does not influence the final state |
| Scheduling.TickCallsCollect | internal/scheduler/scheduler.go:132-158 | a provider listed as enabled is collected iff its own cooldown does not gate it |
| Scheduling.NoRegistryNeverSkips | internal/scheduler/scheduler.go:149-178 | without a cooldown registry every turn collects and no entry changes |
| Scheduling.NoTurnOnceCancelled | internal/scheduler/scheduler.go:132-140 | a provider has a turn only if ctx.Err was nil at it and at every enabled provider before it |
| Scheduling.EntryChangesOnlyOnAuthOrSuccess | internal/scheduler/scheduler.go:143-178 | auth failures extend, successes clear, every other outcome leaves the cooldown alone |
| Scheduling.Scheduler.CollectOne | internal/scheduler/scheduler.go:149-178 | the method realises the modelled turn, with and without a cooldown registry |
| Scheduling.Scheduler.Tick | internal/scheduler/scheduler.go:125-141 | the loop realises the modelled tick; a failed listing makes it empty |
| Minimax.UsedIsTrueDifferenceIff | internal/plugins/minimax/minimax.go:203-216 | used is the clamped difference iff limit minus remains fits in an int64 |
| Minimax.UsedOverflowWitness | internal/plugins/minimax/minimax.go:203-216 | limit 2^63-1 with remains -1 shows used 0, the true difference being 2^63 |
| Minimax.ToMetric | internal/plugins/minimax/minimax.go:199-228 | the projection of a quota block, or an error if both counts are missing |
| Minimax.FetchUsage | internal/plugins/minimax/minimax.go:99-158 | the early returns realise the modelled classification |
| Minimax.KeylessReply | internal/plugins/minimax/minimax.go:99-103 | a missing or empty key is an error for every exchange, no rejection and no sentinel of the API |
| Minimax.Labels | internal/plugins/minimax/minimax.go:147-155 | the credential, metric, window and unit names |
| Minimax.ReplyIsAuthIffRejected | internal/plugins/minimax/minimax.go:126-145 | ErrAuth iff a key was sent and the answer was 401, 403, or a parsed 2xx body with a 1xxx code |
| Minimax.SuccessfulReply | internal/plugins/minimax/minimax.go:126-158 | success iff a key and a parsed 2xx with code 0 and a count per window; two named metrics in prompts, the 5 h one first, used clamped at zero, no past reset shown |
| Minimax.CooldownIffRejected | internal/scheduler/scheduler.go:158-173 | through any number of wrapping layers, the cooldown is engaged iff a sent key was rejected, cleared iff the success could be stored, and otherwise left alone |
| Api.ValidateCredentialFields | internal/api/credential_adapter.go:58-84 | accepted iff the submitted names are exactly the declared ones; otherwise names the difference |
| Api.CredentialAdapter.SetCredentials | internal/api/credential_adapter.go:24-33 | validates before writing; clears the cooldown on success only |
| Api.CredentialAdapter.DeleteCredentials | internal/api/credential_adapter.go:51-56 | clears a known provider's fields |
| Api.CredentialAdapter.GetCredentialPresence | internal/api/credential_adapter.go:35-49 | declared fields in order, configured iff a value is stored |
| Api.ConvertSnapshot | internal/api/usage_adapter.go:45-64 | every metric converted field by field, in order, with its collection time |
| Api.UsageAdapter.GetUsage | internal/api/usage_adapter.go:30-43 | not-found for an unknown provider, pending without a snapshot, else the snapshot |
| Api.UsageAnswers | internal/api/usage_adapter.go:30-43 | each error with its cause, for every pair of faults; pending iff the provider is known, has a row, no read fails and no snapshot is stored |
| Api.StatusOfRoot | internal/api/refresh_handler.go:38-63 | the status depends on the innermost error alone and is 500 iff that is no mapped sentinel |
| Api.LoadErrorStatus | internal/scheduler/collector.go:94-100 | an unreadable field gives 409 iff it was never set, 500 otherwise |
| Api.RefreshPrecedence | internal/api/refresh_handler.go:38-63 | refresh answers by the documented precedence for every state and every failure |
| System.CollectMatches | internal/scheduler/collector.go:57-104 | outcome and Fetcher credentials of a collection follow from plaintext, flags and failures alone: the declared values, or the first thing in the way |
| System.TickRefines | internal/scheduler/scheduler.go:122-178 | a tick logs for each enabled provider, up to a cancellation, the turn judged by the state before the tick; latest results and cooldown follow from the log |
| System.PutRefines | internal/api/credential_adapter.go:24-33 | an unknown id or a wrong set of names changes nothing; otherwise the fields before the first refused one are stored, and all stored clears the cooldown |
| System.DropRefines | internal/api/credential_adapter.go:51-56 | deleting removes a known provider's plaintext, or fails with the expected error and changes nothing |
| System.SwitchRefines | internal/provider/provider.go:132-146 | the flag of a known provider with a row is set, or the expected error returned and nothing changed |
| System.BootRefines | internal/provider/provider.go:148-182 | start-up makes providers known up to the first that cannot be created, and succeeds iff there is none |
| System.RunRefinesReference | internal/credential/credential.go:48-95 | over all runs every observation equals the plaintext reference's, and the encrypted tables stand for its facts |
| System.CredentialQueriesAnswerFromReference | internal/credential/credential.go:64-95 | Reveal and presence answer from its plaintext |
| System.UsageShowsLatestCollection | internal/api/usage_adapter.go:11-43 | usage is pending until the first success, then the latest success, in order and field for field |
| System.FlagsShowLastSwitch | internal/provider/provider.go:117-146 | a registered provider shows the flag last set, or disabled |
| System.EveryRunAnswersFromItsHistory | internal/scheduler/collector.go:57-83 | all three kinds of query answer from the reference that made the same observations, after every run |
| System.RowsAreNeverLost | internal/provider/provider.go:148-153 | no operation and no restart removes a row |
| System.SetCredentialsStay | internal/api/credential_adapter.go:24-33 | after an accepted set, until a delete, every declared field keeps a value, the one set if no other set intervenes |
| System.SetCredentialsReachTheFetcher | internal/scheduler/collector.go:85-104 | in that time collecting, whatever fails in it, never reports missing credentials; the Fetcher is called iff enabled, live and all reads succeed, with exactly those values |
| Interleaving.StepKeepsInv | internal/scheduler/scheduler.go:41-73 | every atomic step of scheduler or handler keeps the cooldown's account of its history |
| Interleaving.CooldownTellsHistory | internal/scheduler/scheduler.go:20-25 | in every interleaving the entry exists, counts and expires as the failures since the last clearing say |
| Interleaving.FailuresAreRateLimited | internal/scheduler/scheduler.go:149-178 | consecutive failures are a window apart; n of them take at least the closed-form span |
| Interleaving.GatingIsBounded | cmd/aud/main.go:41-45 | no provider is gated longer than max past its last failure |
| Interleaving.DueTurnHappens | internal/scheduler/scheduler.go:132-158 | a provider still due in a running tick and not gated has a Collect begun before the tick is over, in every interleaving |
| Interleaving.CollectedOnceGatingIsOver | internal/scheduler/scheduler.go:125-158 | in every interleaving a tick that starts max past the last failure and lists the provider as enabled begins a Collect of it |
| Interleaving.UndisturbedTickCollects | internal/scheduler/scheduler.go:125-158 | so does a tick of the sequential scheduler whose gate reading is that late |
| Interleaving.CollectsDoNotOverlap | internal/scheduler/scheduler.go:108-141 | the Collect behind a later failure began after the earlier failure |
| Interleaving.StaleFailureAfterSet | internal/credential/credential.go:42-62 | at most one failure of a Collect begun before a credential set is recorded after it, as a first failure |
| Interleaving.StaleFailureGatesOneWindow | internal/scheduler/scheduler.go:66-73 | such a failure gates for exactly one base window |
| CredentialRace.StaleFailureIff | internal/credential/credential.go:42-62 | such a failure can be recorded iff at the clear the scheduler is in a Collect of the provider that can still be rejected |
| CredentialRace.RetryAtOnceIff | internal/credential/credential.go:45-47 | the gate stays open until the next Collect begins, in every continuation, iff it is not |
| CredentialRace.NextTickRetries | internal/credential/credential.go:45-47 | then the next uncancelled tick listing the provider as enabled collects it, unless a Collect has begun already |
| CredentialRace.StaleFailureWitness | internal/credential/credential.go:45-47 | a run in which the Fetcher rejects the old value after the new one is stored and the cooldown cleared |
| Interleaving.LatestFailureDecides | internal/scheduler/scheduler.go:52-64 | the latest recorded failure of a provider determines its entry |
| Interleaving.RefreshIgnoresCooldown | internal/scheduler/scheduler.go:20-25 | on-demand refresh neither reads nor changes the cooldown |
| Interleaving.FailedListingChangesNothing | internal/scheduler/scheduler.go:125-130 | a tick whose listing fails changes nothing |
| Interleaving.ListingQueuesEnabled | internal/scheduler/scheduler.go:125-140 | a tick is to visit exactly the registered providers that are enabled when it lists |
| Interleaving.SwitchStep | internal/provider/provider.go:132-146 | after a switch without a fault every Get of the provider shows the flag asked for; nothing else changes |
| Interleaving.PutStep | internal/credential/credential.go:48-57 | a writing step stores one outstanding field sealed for its own row, or gives up and stores nothing; the cooldown waits until all are written |
| Interleaving.DropStep | internal/credential/credential.go:74-80 | the deleting step leaves no field of the provider to reveal, or nothing changed if it fails; other credentials are as before |
| Interleaving.SuccessClearsIffScheduled | internal/scheduler/scheduler.go:22-25 | a successful Collect removes its provider's entry iff the scheduler made it; one made on demand changes no entry |
| CredentialRace.RefreshedStillGatedWitness | internal/scheduler/scheduler.go:22-25 | a run in which a refresh of a gated provider succeeds and stores its snapshot, and the provider stays gated |
| CredentialReads.RunKeepsReadable | internal/credential/credential.go:42-95 | in every interleaving each stored blob opens in the row it is stored in |
| CredentialReads.FetcherGetsStoredValues | internal/scheduler/collector.go:85-104 | in every interleaving the Fetcher gets exactly the declared names, each with a value stored for it at some moment since the Collect began |
| CredentialReads.UnchangedMeansCurrent | internal/scheduler/collector.go:85-104 | if the provider's credentials did not change since then, it gets what is stored now |
| Schedules.RefreshIsASchedule | internal/api/refresh_adapter.go:19-25 | a whole refresh is an undisturbed schedule of its handler: it writes the snapshot of the modelled cycle and nothing else |
| Schedules.TurnIsASchedule | internal/scheduler/scheduler.go:149-178 | an undisturbed schedule of small steps realises the one-step turn |
| Schedules.TickIsASchedule | internal/scheduler/scheduler.go:122-141 | and one realises the whole tick, cancelled on the way or not |
| Schedules.PutIsASchedule | internal/api/credential_adapter.go:24-33 | a whole credential set, for any iteration order and failure, is an undisturbed schedule of its handler |
| Schedules.DropIsASchedule | internal/api/credential_adapter.go:51-56 | a whole credential delete, for any failure, is two moves of its handler |
| Lifecycle.StoreOutlivesScheduler | cmd/aud/main.go:136-149 | on every exit path and interleaving the store is closed only after the scheduler returned; at most one late fetch |
| Lifecycle.OnceClosedStaysQuiet | cmd/aud/main.go:92-96 | after the store is closed the scheduler never moves again |
| Lifecycle.WaitingImpliesCancelled | cmd/aud/main.go:144-149 | while run waits for the scheduler its context is cancelled |
| Lifecycle.StoppedOnlyIfCancelled | internal/scheduler/scheduler.go:108-115 | the scheduler returns only once its context is cancelled |
| Lifecycle.CancelledSchedulerStops | internal/scheduler/scheduler.go:100-141 | a cancelled scheduler returns within six own steps plus three per ticker event, whatever its calls come to and whatever others do meanwhile |
| Lifecycle.ReturningCanFinish | cmd/aud/main.go:144-177 | from any point of returning, run can finish with the decided exit and the store closed |
| Lifecycle.ExitIsDecided | cmd/aud/main.go:74-177 | in every interleaving run returns an exit iff a failed boot step, the server's end or the shutdown has settled on it |
| Lifecycle.NilExitMeansNothingFailed | cmd/aud/main.go:74-76 | a nil exit means that no boot step failed and that the server's end or shutdown that settled it was clean |
| Lifecycle.SignalledIff | cmd/aud/main.go:60-67 | the context counts as signalled exactly when a signal has come |
| Lifecycle.ServedIsTheServersEnd | cmd/aud/main.go:151-159 | what run reads from the server's channel is what the server ended with the first time, and nothing before |
| Lifecycle.CleanStartServes | cmd/aud/main.go:79-168 | with nothing failing run gets to serve and stays there; a signal then starts the shutdown |
| Lifecycle.TickStarts | internal/scheduler/scheduler.go:113-130 | a ticker event starts a listing; the tick visits the providers listed, or is over if it fails |
| Lifecycle.TickEnds | internal/scheduler/scheduler.go:122-141 | a tick over n providers is over after at most 5n+1 own steps |
| Lifecycle.VisitFetches | internal/scheduler/scheduler.go:125-141 | undisturbed and not cancelled, the next provider is fetched and the one after it is next |

## Left out

- AES, GCM and nonce generation: replaced by an ideal AEAD; the drawn nonce, or a read error, is an input.
- SQLite, migrations and JSON columns: replaced by the contract of `internal/store/store.go`; row timestamps and the ordering of List are not modelled, as no modelled caller reads them.
- HTTP routing, middleware, request decoding, OpenAPI validation, logging and environment parsing: plumbing without state of its own.
- The Minimax HTTP exchange and JSON decoding: the model starts from status and parsed payload.
- Ticker, context and timer internals: a tick, a cancellation and a timeout are inputs; how many ticker events a cancelled scheduler still takes is not bounded.
- Scheduler.Run as a method: its endless select loop is the step function of the `Lifecycle` and `Interleaving` modules.
- Store.Repository.List: does not promise the ordering by id, because no modelled caller reads it.
- Store.Repository.Create: does not return the created row with its timestamps, because no modelled caller reads them.
- Api.ValidateCredentialFields: reports the missing and unknown names as sets, without the sorted order of the lists.
- Cooldown.AuthCooldownRegistry.RecordFailure: the failure counter is unbounded; overflow of Go's int after 2^63 failures is not modelled.
- Interleaved usage views: with overlapping collections the latest write wins, so the usage view is stated for runs of whole operations only.
- Error message texts, and errors that wrap several others at once.
- Handlers that outlive the shutdown timeout: only the scheduler's use of the store is followed to its closing.
