# gptload-rs core, modelled in Dafny

gptload-rs is an HTTP proxy in front of OpenAI-compatible upstreams. A
client request goes through several gates:

- `GET /health` and `/admin` are answered first.
- The optional proxy token is checked.
- The client's API key is looked up in the billing store, and its balance must not be negative.

The model the request asks for (from the JSON body, or from the
`/v1/models/{model}` path) picks the upstream. Selection runs a weighted
round-robin schedule over the upstreams that serve the model and are out
of cooldown. Inside the chosen upstream, a round-robin picks a key that
is out of cooldown. The request is then sent with hop-by-hop headers
stripped and the selected key's `Authorization`. A 429 bans the key and
selection runs again, up to five retries. Other failures ban the key or
the upstream with exponential backoff. A streaming chat completion to a
listed upstream is meant to be rewritten to ask for usage, and the usage
reported back is charged to the client's balance. As written, only a
request whose `stream_options.include_usage` is present and not `true` is
rewritten; one without `include_usage` goes out unchanged (see
"## Findings"). `Proxy.BodyToSendAsWritten` models that rule, and the
forward path uses the corrected one.

Around this core sit:

- the admin API's routing and its key-list bodies;
- the per-upstream key trees in the store;
- the model-route table (which upstream serves which model);
- the request log with minute, hour and day metrics;
- the configuration's normalisation and validation.

A small Python script, `test_models_availability.py`, probes each model
through the proxy. It retries on 429 and on exceptions, then sorts the
results into available, unavailable and error lists.

The modules follow the program:

- `Common`: integer widths, saturating and wrapping arithmetic, `Result`/`Option`, the request verb.
- `Text`: `trim`, `split`, prefix handling and decimal numbers.
- `Seqs`: first occurrences, filter and reject.
- `StrOrder`: the byte order of strings and sorted key lists.
- `JsonValue`: `serde_json` accessors.
- `Headers`: header access, API key extraction, token checks, hop-by-hop sanitising.
- `Query`: `query_get`.
- `Body`: bounded body reading.
- `UriJoin`: `build_uri`.
- `Escape`: `escape_json`.
- `Config`: `normalize` and `validate`.
- `Billing`: the balance store.
- `Storage`: sled key trees and export/import.
- `Router`: selection, bans and backoff.
- `Snapshot`: `build_snapshot_from_configs`.
- `ModelRoutes`: the model-route table.
- `Metrics`: the request log and buckets.
- `Usage`: usage extraction and injection, SSE parsing.
- `Proxy`: `handle` and `forward` with its attempt loop.
- `Admin`: admin routing, key bodies and paging.
- `Probe`: the availability script.

Foreign code is not modelled. It enters as a function-typed parameter:

- the JSON parser and encoder;
- `http`'s path-and-query validation;
- URL parsing;
- UTF-8 decoding;
- the header-value check;
- the upstream's answer to each attempt;
- the probe's answer to each attempt.

The clock enters as a `nowMs` parameter.

Where the code and its design description disagree, the model follows
the code:

- The availability script has no separate dispatcher or aggregator with
  statistics. It is a thread pool followed by a three-way partition of the
  results, and the model covers that partition.
- The script retries a 429 immediately. It pauses for one second only
  before retrying after an exception.

## Model

| member | source | states |
|---|---|---|
| Common.Clamp | src/state.rs:1178 | `clamp(lo, hi)` stays within the bounds, keeps an in-range value, and sends values below or above to the nearest bound |
| Common.SaturatingAddU64 | src/state.rs:668-678 | the sum is exact unless it passes u64::MAX, where it sticks at u64::MAX; it is never below either operand |
| Common.SaturatingMulU64 | src/state.rs:668-678 | the product is exact when it fits in u64, and u64::MAX otherwise |
| Common.SaturatingAddI64 | src/billing.rs:90-108 | the sum is exact within i64, and i64::MAX / i64::MIN on overflow and underflow |
| Common.RoundRobinOffset | src/state.rs:469-498 | the offset is below the number of slots |
| Common.RoundRobinHits | src/state.rs:469-498 | starting from any counter value, some offset of the round-robin scan reaches each slot |
| Text.TrimStartSpec | src/config.rs:64-68 | `trim_start` removes exactly a whitespace prefix and leaves a result that does not start with whitespace |
| Text.TrimEndSpec | src/config.rs:64-68 | `trim_end` removes exactly a whitespace suffix and leaves a result that does not end with whitespace |
| Text.Trim | src/config.rs:64-68 | the trimmed string starts and ends with no whitespace |
| Text.TrimBlank | src/config.rs:68 | a string trims to empty exactly when all its characters are whitespace |
| Text.TrimIdempotent | src/config.rs:64-68 | trimming twice gives the same string as trimming once |
| Text.StripPrefix | src/admin.rs:82-96 | `strip_prefix` succeeds exactly when the string starts with the prefix, and then returns the remainder |
| Text.TrimStartMatches | src/state.rs:767 | `trim_start_matches` removes a prefix, and the result no longer starts with the pattern |
| Text.TrimEndMatchesChar | src/proxy.rs:699 | `trim_end_matches('\r')` removes exactly a run of that character from the end |
| Text.FindChar | src/proxy.rs:698 | `find` gives the first position of the character, and none exactly when it is absent |
| Text.SplitOn | src/util.rs:17 | `split` yields at least one piece, and no piece contains the separator |
| Text.JoinSplit | src/util.rs:17 | joining the pieces of a split with the separator gives back the original string |
| Text.SplitJoin | src/admin.rs:933-944 | splitting a join of separator-free pieces gives back the pieces |
| Text.ParseDecimalRoundTrip | src/admin.rs:883-886 | `parse::<usize>` reads back any number written in decimal |
| Text.Decimal | src/proxy.rs:358 | `len().to_string()` is a non-empty string of digits |
| Seqs.FirstOccurrencesSpec | src/admin.rs:960-973 | keeping first occurrences gives a duplicate-free list of exactly the elements not already seen |
| Seqs.FilterRejectPartition | src/state.rs:1093-1124 | the kept and the dropped elements together are a permutation of the input |
| StrOrder.SortedElements | src/state.rs:1029-1059 | a set's elements listed strictly ascending, each exactly once |
| StrOrder.SortedUnique | src/state.rs:1029-1059 | two strictly sorted lists with the same members are equal, so a sorted listing is unique |
| JsonValue.Get | src/proxy.rs:671-691 | `get(name)` finds a member exactly when the value is an object that has it |
| JsonValue.AsU64 | src/proxy.rs:671-691 | `as_u64` succeeds exactly for integers in [0, 2^64) |
| Headers.ToStr | src/state.rs:419-422 | `HeaderValue::to_str` succeeds exactly when every byte is visible ASCII, and then keeps every byte |
| Headers.HeaderText | src/state.rs:416-422 | a header reads as text exactly when it is present and `to_str` accepts it |
| Headers.ExtractApiKey | src/proxy.rs:562-588 | a non-blank `x-api-key`, trimmed, wins; when it is absent, unreadable or blank, the key is the trimmed `Authorization` with `Bearer `/`bearer ` dropped and trimmed again, none if that is blank; without either header there is no key; a key is never blank or padded |
| Headers.ExtractBearer | src/proxy.rs:571-584 | `Authorization: Bearer <key>` alone yields exactly `<key>` |
| Headers.ApiKeyPrecedence | src/proxy.rs:563-569 | a non-blank `x-api-key` is used whatever `Authorization` says |
| Headers.OptionalTrimmedSet | src/state.rs:312-325 | the proxy-token and usage-inject sets hold exactly the trimmed non-blank entries, nothing else, and are absent when none remain |
| Headers.AdminTokenSet | src/state.rs:327-333 | the admin token set is exactly the non-empty configured tokens |
| Headers.ProxyTokenAccepted | src/state.rs:412-423 | against the configured `proxy_tokens`: with no non-blank entry anything passes; otherwise `x-proxy-token` must read as exactly the trim of a non-blank entry, so an unconfigured token is refused |
| Headers.AdminTokenAccepted | src/state.rs:426-434 | against the configured `admin_tokens`: `x-admin-token` must read as exactly one non-empty entry, untrimmed |
| Headers.ProxyTokenNotTrimmed | src/state.rs:412-423 | a presented proxy token that passes is non-empty and unpadded, because it is compared without trimming |
| Headers.InjectUsageFor | src/state.rs:442-447 | against the configured `usage_inject_upstreams`: injection applies exactly to an id that is the trim of a non-blank entry, and never when the list is absent |
| Headers.SanitizeHopHeaders | src/state.rs:789-801 | the hop-by-hop and token headers are removed and every other header is kept unchanged |
| Headers.OutgoingHeaders | src/proxy.rs:352-361 | the outgoing request carries the selected key's `Authorization`, never the proxy or admin token or `host`, and the new `content-length` after a rewrite; every other client header is kept |
| Query.SplitPair | src/util.rs:18-19 | `splitn(2, '=')` splits at the first `=`, and gives the whole part when there is none |
| Query.Lookup | src/util.rs:17-24 | a value found belongs to a part with that name; with no such part nothing is found |
| Query.LookupFirstMatch | src/util.rs:17-24 | the first part with the name decides, including a bare name that yields no value |
| Query.LookupIgnoresLater | src/util.rs:17-24 | parts after the first match never change the answer |
| Query.QueryGet | src/util.rs:15-25 | a URI without a query has no parameters |
| Query.QueryValueIsRaw | src/util.rs:15-25 | a value is a raw substring of the query, not percent-decoded |
| Query.QueryGetLeading | src/util.rs:15-25 | a leading `key=value` is found as `value` |
| Body.ReadBody | src/admin.rs:947-958 | the body is read whole exactly when every chunk is data and the total fits the limit; otherwise it stops at the first transport error or at the first chunk that passes the limit |
| UriJoin.BasePath | src/state.rs:829 | `trim_end_matches('/')` removes exactly the trailing slashes |
| UriJoin.BasePathIdempotent | src/state.rs:829 | a base path already trimmed is left alone |
| UriJoin.SplitQuery | src/state.rs:757-760 | `split_once('?')` splits at the first `?`, so the path holds none |
| UriJoin.BuildUri | src/state.rs:748-780 | an empty or `/` base path passes the request's path and query through; otherwise they are joined onto the base path, and an invalid join is an error |
| UriJoin.JoinedShape | src/state.rs:763-771 | the join puts exactly one `/` between base path and request path, and keeps the query unchanged |
| UriJoin.JoinedQuery | src/state.rs:768-771 | the query of the joined path is the request's query |
| Escape.EscapeJsonAsWritten | src/state.rs:1347-1360 | `escape_json` as written never shortens its input |
| Escape.AsWrittenAgreesWithoutControls | src/state.rs:1347-1360 | without control characters other than `\n`, `\r`, `\t`, the code as written gives the corrected escaping |
| Escape.AsWrittenControlCharIsInvalid | src/state.rs:1347-1360 | U+0001 passes through raw, which is not a valid JSON string body |
| Escape.EscapeJson | src/state.rs:1347-1360 | the corrected escaping never shortens its input |
| Escape.UnescapeEscapeJson | src/state.rs:1347-1360 | unescaping the corrected escaping gives back the original string |
| Escape.EscapeJsonValid | src/state.rs:1347-1360 | the corrected escaping is a valid JSON string body (section 7 of RFC 8259) |
| Config.TrimAndDropBlank | src/config.rs:73-76 | the token list after `normalize` is trimmed and has no blanks |
| Config.TrimAndDropBlankMembers | src/config.rs:73-76 | a token is kept exactly when it is the non-blank trim of some configured token |
| Config.TrimAndDropBlankIdempotent | src/config.rs:73-76 | normalising a normalised list changes nothing |
| Config.NormalizeOptional | src/config.rs:64-72 | an optional list becomes absent when nothing non-blank is left, and is otherwise the trimmed non-blank list |
| Config.Normalize | src/config.rs:62-87 | `proxy_tokens` and `usage_inject_upstreams` become the cleaned list or none when nothing is left, `admin_tokens` the cleaned list; the timeout, ban settings and upstreams are left alone |
| Config.NormalizeIdempotent | src/config.rs:62-87 | normalising twice equals normalising once |
| Config.FirstBadUpstream | src/config.rs:96-105 | no error exactly when every upstream has a non-blank id and an http(s) base URL; otherwise the error names the first bad upstream |
| Config.Validate | src/config.rs:89-107 | validation passes exactly when there are admin tokens and upstreams and every upstream is well formed; the admin-token check comes first |
| Billing.CreateKey | src/billing.rs:69-83 | a new key is created with its balance and reported as created; an existing key is reported and nothing changes; other keys are untouched |
| Billing.GetBalance | src/billing.rs:85-88 | a balance is returned exactly for a known key |
| Billing.AdjustBalance | src/billing.rs:90-108 | an unknown key changes nothing; a known key gets the saturating sum, which is returned and is what a later read sees; other keys and the key set are unchanged |
| Billing.ApplyUsage | src/billing.rs:110-116 | a usage above i64::MAX is not charged; zero tokens leave the balance; otherwise the tokens are subtracted like an adjustment |
| Billing.ApplyUsageCharges | src/billing.rs:110-116 | charging a known key never raises its balance, and subtracts exactly the tokens when that does not underflow |
| Billing.CreateThenGet | src/billing.rs:69-88 | a freshly created key reads back the balance it was created with |
| Billing.DecodeBalance | src/billing.rs:119-127 | only an 8-byte value decodes |
| Billing.DecodeEncode | src/billing.rs:119-138 | decoding the little-endian encoding of a balance gives it back |
| Billing.EncodeDecode | src/billing.rs:119-138 | re-encoding a decoded 8-byte value gives the same bytes |
| Billing.Load | src/billing.rs:26-33 | the loaded balances are exactly the entries with 8-byte values, decoded |
| Billing.Persist | src/billing.rs:129-138 | the flushed tree holds one entry per known key |
| Billing.LoadPersist | src/billing.rs:26-33 | loading what was flushed gives back the same balances |
| Storage.TreeName | src/storage.rs:23-25 | a tree name is `u:` followed by the upstream id |
| Storage.TreeNameInjective | src/storage.rs:23-25 | different upstream ids get different trees |
| Storage.InsertAll | src/storage.rs:44-66 | after adding, the tree holds the old keys plus the new ones; inserted plus existed counts every input; the inserted list is the first occurrences of keys not already present |
| Storage.AddKeys | src/storage.rs:44-66 | `add_keys` changes only the upstream's tree, which gains the keys, and reports what was newly inserted |
| Storage.ReplaceKeys | src/storage.rs:69-77 | `replace_keys` leaves the upstream's tree holding exactly the given keys and touches no other tree |
| Storage.RemoveAll | src/storage.rs:79-89 | removing drops exactly the given keys and counts those that were present |
| Storage.DeleteKeys | src/storage.rs:79-89 | `delete_keys` changes only the upstream's tree and counts each present key once, however often it is listed |
| Storage.LoadAllKeys | src/storage.rs:91-101 | the keys come back in byte order, each once, exactly the tree's contents |
| Storage.ExportId | src/storage.rs:117-120 | `trim_start_matches("u:")` leaves an id that does not start with `u:` |
| Storage.ExportIdOfTreeName | src/storage.rs:115-120 | an export name gives back the id exactly when the id does not itself start with `u:` |
| Storage.ExportIdLosesPrefix | src/storage.rs:115-120 | the id `u:x` is exported as `x` |
| Storage.Export | src/storage.rs:104-134 | every exported id comes from a `u:` tree, and its key list is sorted |
| Storage.ExportContents | src/storage.rs:104-134 | a `u:` tree is exported under its id with all its keys, sorted |
| Storage.Import | src/storage.rs:137-153 | every imported id's tree holds exactly the listed keys, and every other tree is untouched |
| Router.BackoffPow | src/state.rs:668-678 | the backoff exponent is the streak capped by `max_backoff_pow` and by 30 |
| Router.BanAfter | src/state.rs:668-678 | a ban increments the 32-bit streak with wrap-around and sets the cooldown to now plus base times 2^exponent, saturating at u64::MAX |
| Router.BanMonotone | src/state.rs:668-678 | a longer failure streak never gives an earlier cooldown end |
| Router.BanCapped | src/state.rs:668-678 | no ban lasts longer than base times 2^min(max_backoff_pow, 30) |
| Router.BanKey | src/state.rs:668-678 | banning a key updates only its streak and cooldown |
| Router.BanUpstream | src/state.rs:680-690 | banning an upstream updates only its streak and cooldown |
| Router.Slot | src/state.rs:469-498 | every slot the scan reads lies inside the schedule or key list |
| Router.SlotsCover | src/state.rs:469-498 | one pass of the scan reads every slot |
| Router.SelectKey | src/state.rs:727-745 | the key counter advances once; a key found is out of cooldown and is the first such key in round-robin order; nothing is found exactly when every key scanned is cooling down |
| Router.SelectKeyComplete | src/state.rs:727-745 | without counter wrap-around, no key is found exactly when no key is out of cooldown |
| Router.SelectKeyComplete2 | src/state.rs:727-745 | the same completeness, for any upstream whose counter does not wrap during the scan |
| Router.TryUpstream | src/state.rs:501-532 | a key is found only on an upstream serving the model and out of cooldown; otherwise the upstream is not ready |
| Router.SelectFor | src/state.rs:469-532 | only counters change; a selection is a scheduled upstream that is ready and serves the model, with a key out of cooldown; with no wrap-around, nothing is selected only when no scheduled upstream is ready |
| Router.Select | src/state.rs:469-498 | `select` picks a ready scheduled upstream and key, or none exactly when none is ready (without wrap-around) |
| Router.SelectForModel | src/state.rs:501-532 | `select_for_model` picks only upstreams listing the model, with a ready key |
| Router.UnknownModelNeverReady | src/state.rs:501-537 | for a model no upstream lists, no schedule slot is ready for it, so the `model_not_found` answer never hides a possible selection |
| Router.OnUpstreamStatus | src/state.rs:611-637 | any answer clears the upstream's ban; 429 and 401/403 ban the key; a 5xx bans the upstream; any other status resets the key's streak; other keys are untouched |
| Router.ServerErrorBanDoesNotEscalate | src/state.rs:611-637 | because the streak is cleared first, a 5xx always bans for exactly `server_error_ms` |
| Router.OnNetworkFailure | src/state.rs:640-653 | a timeout or network error bans the upstream with backoff and leaves its keys alone |
| Snapshot.FreshStates | src/state.rs:850-870 | every key starts with no streak and no cooldown |
| Snapshot.BuildKeyStates | src/state.rs:850-870 | key states are built exactly when every non-blank trimmed key makes a valid `Bearer` header, and then one per such key |
| Snapshot.ValidateKeys | src/state.rs:1221-1236 | keys are valid exactly when some remain after trimming and every one makes a valid header; no keys is reported first |
| Snapshot.ValidatedKeysBuild | src/state.rs:1221-1236 | validated keys always build a non-empty key list |
| Snapshot.Weight | src/state.rs:1178 | the weight defaults to 1 and is clamped into [1, 100]: 0 becomes 1, above 100 becomes 100, anything between is kept |
| Snapshot.ParseUpstream | src/state.rs:816-848 | an upstream parses exactly when its URL has a scheme and an authority, and starts with no keys, models or cooldown |
| Snapshot.UpstreamOf | src/state.rs:1174-1186 | an upstream is built exactly when it parses and its keys build |
| Snapshot.Expand | src/state.rs:1187-1189 | every schedule entry names an upstream |
| Snapshot.ExpandCount | src/state.rs:1187-1189 | each upstream appears in the schedule exactly its weight many times |
| Snapshot.ExpandSorted | src/state.rs:1187-1189 | the schedule lists the upstreams in configuration order |
| Snapshot.BuildSnapshot | src/state.rs:1161-1198 | an empty list fails; otherwise a snapshot is built exactly when every configuration is good, holding its upstreams, id index and schedule; a failure names the first bad configuration |
| Snapshot.AddAll | src/state.rs:1174-1191 | the loop over configurations stops exactly at the first duplicate id or bad upstream |
| Snapshot.BuiltIsOk | src/state.rs:1161-1198 | a built snapshot is consistent: each id is indexed at its own upstream and the schedule names only upstreams |
| Snapshot.ScheduleWeights | src/state.rs:1161-1198 | in a built snapshot each upstream holds as many schedule slots as its clamped weight |
| ModelRoutes.ModelsNamed | src/state.rs:939-984 | the models of a table are exactly those some upstream list names |
| ModelRoutes.Inverse | src/state.rs:939-984 | the inverse index has one entry per listed model |
| ModelRoutes.InverseExact | src/state.rs:939-984 | an id is listed under a model in the inverse exactly when that upstream lists the model, and each entry is sorted |
| ModelRoutes.CleanModelList | src/state.rs:950-961 | a saved model list is sorted, duplicate-free and exactly the trimmed non-blank names |
| ModelRoutes.CleanListIdempotent | src/state.rs:950-961 | cleaning a cleaned list changes nothing |
| ModelRoutes.FirstUnknown | src/state.rs:944-948 | the reported unknown id is the least one |
| ModelRoutes.SaveModelRoutes | src/state.rs:939-984 | saving fails exactly when the request names an unknown upstream; otherwise the table holds the cleaned lists and their inverse, and is applied to the upstreams |
| ModelRoutes.SaveIdempotent | src/state.rs:939-984 | saving the saved lists again gives the same table |
| ModelRoutes.ApplyRoutes | src/state.rs:1200-1219 | applying routes replaces only each upstream's model set |
| ModelRoutes.ApplyRoutesById | src/state.rs:1200-1219 | an indexed upstream gets exactly the trimmed non-blank models of its own list |
| ModelRoutes.ListsOfKeys | src/state.rs:1029-1059 | the table lists exactly the upstreams that serve some model |
| ModelRoutes.BuildModelRoutes | src/state.rs:1029-1059 | the rebuilt table lists each upstream's models and, for every served model, the sorted ids serving it |
| ModelRoutes.ListsOfDistinct | src/state.rs:1029-1059 | with distinct ids, each upstream's list is its own models, sorted |
| ModelRoutes.BuildModelRoutesInverse | src/state.rs:1029-1059 | the rebuilt inverse index agrees with the per-upstream lists |
| ModelRoutes.CleanupModelRoutes | src/state.rs:1093-1124 | cleanup writes nothing unless some listed id is gone; then it keeps exactly the known ids' lists, rebuilds the inverse and applies the table |
| Metrics.WindowFromStr | src/state.rs:211-217 | any name other than `hour` or `day` means the minute window |
| Metrics.WindowAsStr | src/state.rs:219-225 | a window's name is `minute`, `hour` or `day` |
| Metrics.WindowRoundTrip | src/state.rs:211-225 | reading a window's name gives back the window |
| Metrics.WindowNameCanonical | src/state.rs:211-225 | a name survives the round trip exactly when it is one of the three window names |
| Metrics.RecordEntry | src/state.rs:250-256 | the log keeps the newest `cap` entries, in order, with the new one last |
| Metrics.Recent | src/state.rs:264-267 | `recent` returns up to `limit` entries, newest first |
| Metrics.ClassifyStatus | src/state.rs:1238-1246 | each status counts in exactly one class: 2xx success, 404 ignored, anything else failure |
| Metrics.BucketStart | src/state.rs:1257 | a bucket starts at the step multiple at or below the timestamp |
| Metrics.FillGap | src/state.rs:1268-1281 | the gap loop appends one empty bucket per step up to the new bucket |
| Metrics.DropOldest | src/state.rs:1291-1293 | only the newest `cap` buckets are kept |
| Metrics.UpdateBucket | src/state.rs:1248-1294 | `update_bucket` computes the defined update of the series |
| Metrics.UpdateBucketAligned | src/state.rs:1248-1294 | after an update the buckets stay one step apart and within `cap`, and the request lands in the newest bucket |
| Metrics.UpdateBucketCounts | src/state.rs:1248-1294 | every bucket's total stays the sum of its three classes, and the newest grows by one |
| Metrics.UpdateMetrics | src/state.rs:290-297 | the minute, hour and day series are updated with 60, 48 and 30 buckets |
| Metrics.UpdateMetricsOk | src/state.rs:290-297 | the three series stay aligned and balanced, with at most 60, 48 and 30 buckets |
| Metrics.Snapshot | src/state.rs:299-305 | a window name selects its own series |
| Metrics.Record | src/state.rs:245-262 | recording keeps the newest `cap` entries with the new one last and updates the minute, hour and day series with 60, 48 and 30 buckets, which stay well formed |
| Usage.Field | src/proxy.rs:673-675 | a counter is read exactly when the usage object has it as a u64 |
| Usage.ExtractUsage | src/proxy.rs:671-691 | no usage object, or no counter at all, means nothing; missing counters are 0, and a missing total is prompt plus completion when both exist, wrapping in u64 |
| Usage.ExtractUsageBody | src/proxy.rs:671-691 | three counters are read back as given |
| Usage.ExtractUsageFallback | src/proxy.rs:671-691 | the total falls back to prompt plus completion, or to 0 |
| Usage.WithUsage | src/proxy.rs:647-662 | the rewritten request asks for usage |
| Usage.EnsureStreamUsageAsWritten | src/proxy.rs:635-664 | as written, a reported change is the usage rewrite, and a non-object, non-streaming or odd `stream_options` is left as is |
| Usage.AsWrittenAgreesWhenPresent | src/proxy.rs:653-663 | with `include_usage` already present, the code as written agrees with the intended behaviour |
| Usage.AsWrittenReportsNoChange | src/proxy.rs:647-663 | for `{"stream": true}` the code adds `include_usage` but reports no change |
| Usage.EnsureStreamUsage | src/proxy.rs:635-664 | the corrected rewrite reports a change exactly when it changed the value, which is when a streaming request did not yet ask for usage |
| Usage.EnsureStreamUsageIdempotent | src/proxy.rs:635-664 | rewriting a rewritten request changes nothing |
| Usage.EnsureStreamUsageFrame | src/proxy.rs:635-664 | the rewrite touches only `stream_options.include_usage` |
| Usage.LineUsage | src/proxy.rs:698-715 | usage is taken only from `data:` lines |
| Usage.LastUsageSpec | src/proxy.rs:693-718 | the usage reported is that of the last line carrying usage, and there is one exactly when some line does |
| Usage.ParseSseUsage | src/proxy.rs:693-718 | the complete lines are consumed and the partial line stays buffered, nothing lost; the usage found is the last in the complete lines |
| Proxy.ParseRequestJson | src/proxy.rs:618-633 | an empty body or a non-JSON content type gives no JSON; otherwise the body is parsed |
| Proxy.PathModel | src/proxy.rs:204-207 | a `/v1/models/{model}` path with a non-empty name gives that model |
| Proxy.ResolveModel | src/proxy.rs:240-248 | the body's `model` string wins, and the path model is the fallback |
| Proxy.BodyModelWins | src/proxy.rs:240-248 | a body model wins over a different path model |
| Proxy.Handle | src/proxy.rs:37-182 | health and admin come first; a request that is listed or forwarded passed the proxy token, has an API key, and has a known key with a non-negative balance; every rejection is a 401 |
| Proxy.BillingGates | src/proxy.rs:78-137 | the gates apply in order (no key, unknown key, negative balance), and a zero balance passes |
| Proxy.ProxyTokenFirst | src/proxy.rs:59-76 | a bad proxy token is rejected whatever the API key |
| Proxy.ModelIds | src/proxy.rs:590-616 | `/v1/models` lists each routed model once, sorted |
| Proxy.ReplyFor | src/proxy.rs:366-410 | an answer is passed through, a network error is 502 `upstream_error` and a timeout is 504 `upstream_timeout` |
| Proxy.WireHeaders | src/proxy.rs:352-361 | each attempt carries its own key's `Authorization` and no proxy or admin token |
| Proxy.BodyToSendAsWritten | src/proxy.rs:298-309 | as written: the body is re-encoded exactly for a streaming chat completion to an injecting upstream whose `include_usage` is present and not `true`, and which encodes; otherwise the original body is sent |
| Proxy.BodyAsWrittenAgreesWhenPresent | src/proxy.rs:298-309 | when `include_usage` is present, or the request is not rewritable, the as-written and the corrected rule send the same body |
| Proxy.AsWrittenSkipsInjection | src/proxy.rs:298-309 | `{"stream": true}` to an injecting upstream goes out unchanged as written, while the corrected rule re-encodes it |
| Proxy.BodyToSend | src/proxy.rs:298-309 | with the corrected `ensure_stream_usage`: the body is re-encoded exactly for a streaming chat completion to an injecting upstream whose request did not yet ask for usage and which encodes; otherwise the original body is sent |
| Proxy.RewrittenBodyAsksForUsage | src/proxy.rs:298-309 | a rewritten body reads back as the original request asking for usage |
| Proxy.BodyUntouchedWhenUsageAsked | src/proxy.rs:298-309 | a request already asking for usage is sent untouched |
| Proxy.ForwardFrom | src/proxy.rs:311-410 | the attempts from a given retry count form a valid trace: each request is built for its selection, every attempt but the last got a 429, and the reply follows the last outcome |
| Proxy.RetryAfter429 | src/proxy.rs:369-381 | after a 429 with retries left, the key is banned and a new selection is tried, or the 429 is passed back |
| Proxy.BanAndReselect | src/proxy.rs:369-376 | a reselection serves the model and, when the 429 ban has any length, is not the key just banned |
| Proxy.Forward | src/proxy.rs:184-413 | a chunk past 16 MiB gives 413 and a read error 502, no model gives 400, an unknown model gives 404, each with nothing sent; 503 only with nothing sent and, without counter wrap, only when no scheduled upstream is ready for the model; otherwise the attempts form a valid trace from a ready selection, with the body decided by the corrected injection rule |
| Proxy.ForwardModel | src/proxy.rs:285-413 | with the model known: 503 with nothing sent, and without counter wrap only when no scheduled upstream is ready; otherwise a trace starting at a ready selection serving the model |
| Proxy.ForwardSelected | src/proxy.rs:298-413 | from the first selection on, the attempts form a valid trace and never give the 503, with the body decided by the corrected injection rule |
| Proxy.TraceReply | src/proxy.rs:285-296 | `model_unavailable` is given only before any attempt |
| Admin.RouteStatus | src/admin.rs:15-97 | each non-endpoint route answers with its fixed status |
| Admin.BillingKeySubroutes | src/admin.rs:99-144 | an empty key is a bad request; a reached endpoint is the balance read or the adjustment of the key in the path |
| Admin.UpstreamSubroutes | src/admin.rs:265-336 | an empty id is a bad request; a reached endpoint acts on the upstream named in the path |
| Admin.FixedEndpoint | src/admin.rs:71-81 | the fixed endpoints all live under `/admin/api/v1/` |
| Admin.HandleApi | src/admin.rs:57-97 | a missing token is 401 before any routing; a fixed endpoint is reached by its method and path |
| Admin.HandleAdmin | src/admin.rs:15-55 | an endpoint is reached only under `/admin/api/` and with a valid admin token |
| Admin.ApiPathIsNoPage | src/admin.rs:27-44 | no API path is one of the UI pages |
| Admin.ApiRequiresToken | src/admin.rs:46-68 | an API request without a valid admin token gets 401 |
| Admin.RoutesToEndpoint | src/admin.rs:57-336 | every endpoint is reached by its own method and path |
| Admin.RoutesToBillingEndpoint | src/admin.rs:99-144 | each billing key endpoint is reached by its method and path |
| Admin.RoutesToUpstreamEndpoint | src/admin.rs:265-336 | each upstream endpoint is reached by its method and path |
| Admin.ReachesUpstreamRouter | src/admin.rs:82-96 | paths under `/admin/api/v1/upstreams/` go to the upstream sub-router |
| Admin.RoutesToRefresh | src/admin.rs:297-311 | `POST .../upstreams/{id}/models/refresh` refreshes that upstream's models |
| Admin.RoutesToKeys | src/admin.rs:321-335 | each key endpoint is reached by its method and path |
| Admin.KeysSubroute | src/admin.rs:321-335 | `.../{id}/keys` maps POST, PUT, DELETE and GET to add, replace, delete and list |
| Admin.FixedRoutes | src/admin.rs:71-81 | each fixed endpoint is found by its method and path |
| Admin.DynamicPath | src/admin.rs:82-96 | dynamic paths are not fixed ones and strip to their remainder |
| Admin.TrailingPiecesIgnored | src/admin.rs:99-336 | extra path segments after the action are ignored |
| Admin.AdjustIgnoresTrailing | src/admin.rs:99-144 | `.../{key}/adjust/<anything>` still adjusts that key |
| Admin.KeysIgnoresTrailing | src/admin.rs:321-335 | `.../{id}/keys/<anything>` still lists that upstream's keys |
| Admin.DedupeKeys | src/admin.rs:960-973 | `dedupe_keys` keeps the first occurrence of each trimmed non-blank key |
| Admin.DedupeNext | src/admin.rs:962-971 | each loop step extends the result for one more input key |
| Admin.DedupeKeysSpec | src/admin.rs:960-973 | the result is trimmed, non-blank, duplicate-free, and exactly the trimmed non-blank inputs |
| Admin.DedupeIdempotent | src/admin.rs:960-973 | deduplicating twice changes nothing |
| Admin.TextKeys | src/admin.rs:933-944 | plain-text keys are trimmed and non-blank |
| Admin.TextKeysOfLines | src/admin.rs:933-944 | one key per line reads back as the same list |
| Admin.ParseKeysBody | src/admin.rs:917-945 | an unreadable or oversized body fails; a JSON body gives its keys with `dedupe` defaulting to true; a text body gives its lines and always dedupes |
| Admin.ListLimit | src/admin.rs:883-886 | the key-list limit defaults to 100 and is clamped into [1, 5000] |
| Admin.ListOffset | src/admin.rs:887-889 | the offset defaults to 0 and is otherwise the parsed number |
| Admin.RequestsLimit | src/admin.rs:614-617 | the request-log limit defaults to 200 and is clamped into [1, 5000] |
| Admin.DeleteKeysFlag | src/admin.rs:474-476 | `delete_keys` is true for `1` or `true` in any letter case, and false when absent |
| Admin.DeleteKeysFlagOf | src/admin.rs:474-476 | a leading `delete_keys=v` gives true exactly for `1` or `true` in any case |
| Admin.PageWindow | src/admin.rs:894-899 | the page is the keys from `offset` to `offset + limit`, cut at the end, and empty past the end, even when the `usize` sum wraps |
| Admin.PageOf | src/admin.rs:893-915 | the reported page carries the total, the offset, the limit and that window of keys |
| Probe.Final | test_models_availability.py:43-66 | the deciding attempt gives success exactly for a 200; a response carries its status and no message; an exception has status 0 and its message |
| Probe.TestModel | test_models_availability.py:31-68 | attempts run until one is not a 429 or an exception, or until the last allowed one, which decides; with no attempts allowed the result is `MAX_RETRIES_EXCEEDED` |
| Probe.ProbeFromFirstStop | test_models_availability.py:33-66 | the first attempt that stops decides the recursive retry rule |
| Probe.TestModelIsProbeFrom | test_models_availability.py:31-68 | the loop computes the recursive retry rule |
| Probe.Classify | test_models_availability.py:106-116 | a success is available; status 0 with a message is an error; the rest are unavailable |
| Probe.ClassifyFinal | test_models_availability.py:43-116 | available means a 200; an error means an exception with a message; unavailable means another status or a silent exception |
| Probe.Partition | test_models_availability.py:93-116 | every result lands in exactly one list |
| Probe.PartitionConcat | test_models_availability.py:93-116 | the lists for two batches of results are the lists of each batch, joined |
| Probe.PartitionCounts | test_models_availability.py:93-116 | each list is as long as the number of results in its class |
| Probe.AvailableMembers | test_models_availability.py:106-110 | a model is listed as available exactly when one of its results succeeded |
| Probe.ErrorMembers | test_models_availability.py:111-113 | a model is listed with an error exactly when one of its results was an error with that message |
| Probe.UnavailableMembers | test_models_availability.py:114-116 | a model is listed as unavailable with a status exactly when one of its results had that status and was not a success or an error |

## Left out

- I/O is not modelled: sled trees are maps, files are maps from names to contents, and the export/import JSON encoding is left out.
- The JSON parser and encoder, UTF-8 decoding, URL parsing and header-value validation are parameters, because they are foreign code.
- Concurrency is not modelled. Atomics, `RwLock` snapshots and the billing compare-and-swap loop are each one step on immutable values.
- The clock is not modelled: `now_ms` is a parameter.
- Timeouts are not modelled. A timeout is one of the outcomes an attempt can have.
- Stats counters, latency histograms, `inc_status` and logging are left out. Floating-point averages and the request-log writer thread are I/O and reporting.
- The response body path is left out: `proxy_upstream_response`, gzip decompression and the spawned billing charge. Only the pieces it uses are modelled: `ExtractUsage`, `ParseSseUsage` and `ApplyUsage`.
- Multi-valued headers are left out. A header map holds one value per name.
- `from_utf8_lossy` chunk decoding in `parse_sse_usage` is left out. Chunks are given as text.
- The request builder's `request_build_error` (`src/proxy.rs:341-350`) is treated as infallible. It fails only on inputs `hyper` already accepted.
- The admin endpoint bodies are left out, because they wrap the modelled operations in I/O:
  - billing create and adjust;
  - upstream add, update and delete;
  - model refresh and preview fetch;
  - reload;
  - the stats snapshot and stream.

  Only their routing and their query and body parsing are modelled.
- Fetching and parsing `/v1/models` from upstreams is left out. It is network I/O.
- In the availability script, the one-second sleep, the thread pool, the printed report with its sorting and percentages, and the JSON output file are left out.
- Admin.PageWindow: follows a release build's `usize` wrap-around in `end - offset`. A debug build would panic there instead.
- Admin.ListKeysPage: carries no contract of its own. The window it returns is stated by Admin.PageOf and Admin.PageWindow.
- Router.SelectFor: the completeness direction (nothing selected only when nothing is ready) is stated only when the counters do not wrap during the scan. With a wrapping counter, one pass may revisit slots.
- Router.SelectKeyComplete: stated only for key counters that do not wrap during the scan, for the same reason.
- Proxy.ForwardFrom: a retry whose URI cannot be joined answers 502 `invalid_upstream_uri`. The trace allows that reply only after a 429.
- Proxy.BodyToSend: composes the corrected `ensure_stream_usage`, so a streaming request without `include_usage` is re-encoded; as written it is sent unchanged, which Proxy.BodyToSendAsWritten states.
- Proxy.Forward: decides the body with Proxy.BodyToSend, the corrected rule, not the as-written one. Its 503 is tied to "no scheduled upstream is ready" only when the counters do not wrap, as for Router.SelectFor.
- Proxy.ForwardModel: decides the body with Proxy.BodyToSend, the corrected rule, not the as-written one. Its 503 is tied to "no scheduled upstream is ready" only when the counters do not wrap, as for Router.SelectFor.
- Proxy.ForwardSelected: decides the body with Proxy.BodyToSend, the corrected rule, not the as-written one.
- Usage.ExtractUsage: follows a release build's `u64` wrap-around in `p + c` for the fallback total. A debug build would panic there instead.
- Router.BanAfter: follows a release build's `u32` wrap-around in the streak's `+ 1` and `- 1`. A debug build would panic there instead.

## Findings

| source | as written | input that shows it | evidently intended | confidence | as-written member | corrected member |
|---|---|---|---|---|---|---|
| src/state.rs:1347-1360 | `escape_json` escapes only `\`, `"`, `\n`, `\r` and `\t` and copies every other character raw | an error message holding U+0001 is written unchanged into the body `json_error` builds (src/state.rs:712-723), which is then not valid JSON (section 7 of RFC 8259) | every control character below U+0020 escaped, so that the error body is valid JSON and its message reads back as the original string | not executed | Escape.AsWrittenControlCharIsInvalid | Escape.UnescapeEscapeJson |
| src/proxy.rs:635-664 | `ensure_stream_usage` inserts `include_usage: true` through `or_insert`, then sees `Some(true)` and returns false | `{"stream": true}` with no `stream_options`: the value gains `include_usage` but the function reports no change, so `forward` never re-encodes the body and the upstream gets no usage request | report a change whenever the value was changed, so the rewritten body is sent | not executed | Usage.AsWrittenReportsNoChange | Usage.EnsureStreamUsageIdempotent |
