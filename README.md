# Crawl-index domain extraction, modelled in Dafny

This project models `saveDomainsToRedis` in `main.go`. The function reads a
line-delimited crawl index and keeps only lines that contain `id`. From each of
those it captures the leftmost `"url": "<value>"` field. It parses the url and
derives a domain key: the scheme directly followed by the registered domain. A
url with a query is also added to the Redis set `WaitingSql`. The function
keeps one outcome per key in a result map. After the scan it folds that map
into a `domains` list and adds the list to the domain set with a single SADD.

Modules:

- `FieldExtract` (`extract.dfy`) holds the `id` substring filter and the capture
  of the pattern `"url": "([^"]+)"`. Both are pure functions. Each is checked
  against a reference predicate (`OccursAt`, `FieldAt`) that says what a match
  is.
- `RedisModel` (`redis.dfy`) models the Redis sets and SADD. `StoreView` is the
  value-level specification. `RedisClient` is the handle the program calls; its
  sets are ghost. A fault script decides which SADD calls fail.
- `Pipeline` (`pipeline.dfy`) covers the per-line step and the fold:
  - The step is specified by `Step`/`ScanAll` and implemented by the loop
    `ScanLines`.
  - The Range fold is `CollectDomains`.
  - The whole run is specified by `Run` and implemented by `SaveDomainsToRedis`.
- `PipelineProperties` (`properties.dfy`) states properties of whole runs:
  - what reaches the domain set;
  - the order in which errors are reported;
  - against a store where no SADD fails, a second run over the same file, with
    a fresh result map, returns the same error and leaves every set as the
    first run left it.

Two parts of the source behave in ways worth spelling out; the model keeps both
as written:

- Line 91 of `main.go` tests the enclosing function's `err`, not the outcome's
  own `res.err`. On that path `err` is always nil because the file opened. So
  every outcome's `domain` field is appended, and an error outcome adds `""`.
  `CollectDomains` takes that captured variable as `outerErr`, and
  `SaveDomainsToRedis` passes the result of the open. `DomainsOfWellKeyed` and
  `RunDomainSet` show that `""` reaches the domain set exactly when an error
  outcome remains in the result map after the scan. A later line can overwrite
  an error outcome: this happens when its domain key equals the raw url the
  error was stored under (main.go:78).
- The emptiness test on the domain key comes after the `WaitingSql` add. A
  query-bearing url with an empty domain key is therefore still added to
  `WaitingSql` (see `AcceptedUrlStoresDomain`).

`main.go` writes the domain set with one bulk SADD after the scan. It makes no
per-record group (MULTI/EXEC) write. It does not deduplicate by raw url. The only
deduplication is through the result map's keys.

## Model

| member | source | states |
|---|---|---|
| `FieldExtract.Contains` | main.go:56 | the candidate filter holds iff `id` occurs at some index of the line |
| `FieldExtract.QuoteFreeRunEnd` | main.go:57 | the greedy `[^"]+` run stops at the first quote or at the end of the line, and holds no quote |
| `FieldExtract.MatchAt` | main.go:57-58 | the pattern anchored at index i yields `v` iff `v` is non-empty, quote-free, directly follows `"url": "` at i and is directly followed by a quote |
| `FieldExtract.FindUrl` | main.go:57-60 | a capture is a match at some index with no match at any earlier index; no capture means no match anywhere in the line |
| `FieldExtract.FieldAtUnique` | main.go:57 | at a given index the pattern has at most one capture |
| `FieldExtract.FindUrlIsLeftmostField` | main.go:57-60 | FindUrl returns `v` iff `v` is the capture of the leftmost match (both directions) |
| `FieldExtract.EmptyFieldsNotCaptured` | main.go:57-59 | a line whose every `"url": "` opening is followed directly by a quote (`"url": ""`) or by the end of the line yields no capture |
| `RedisModel.StoreView.SAdd` | main.go:68 | an SADD succeeds iff the fault script does not fail it; on success the set at the key gains the members, and otherwise no set changes; one script entry is used |
| `RedisModel.RedisClient.SAdd` | main.go:102 | the client's SADD of a non-empty slice reports and does exactly what the store-level SADD of the slice's members does |
| `Pipeline.DomainKey` | main.go:74 | the key is the scheme directly followed by the registered domain, with no separator; it is empty iff both parts are |
| `Pipeline.ProcessUrl` | main.go:61-78 | reference definition of handling one captured url, which the lemmas below are about; its contract: only the raw url's and the domain key's entries of the map can change, only `WaitingSql` can change in Redis, and it gains at most the url's string form |
| `Pipeline.Step` | main.go:56-78 | reference definition of one line of the scan (filter, capture, then `ProcessUrl`); its contract: at most one outcome is added per line, and only `WaitingSql` changes, only growing |
| `Pipeline.ScanAll` | main.go:54-81 | reference definition of the scan, line by line in file order, which `ScanLines` is proved equal to; its contract: the map grows by at most one entry per line |
| `Pipeline.Run` | main.go:28-114 | reference definition of a whole run, which `SaveDomainsToRedis` is proved equal to; its contract: `OpenFailed` is returned exactly when the file cannot be opened, and then Redis is untouched |
| `Pipeline.Finish` | main.go:86-113 | reference definition of what follows the scan (fold, bulk SADD if anything was stored, read-error check); its contract: it never reports an open failure |
| `Pipeline.SkippedLineIsNoOp` | main.go:56-59 | a line without `id`, or a candidate line with no url match, leaves the result map and Redis unchanged |
| `Pipeline.ParseFailureStoresError` | main.go:61-66 | a url that fails to parse stores exactly one error outcome under the raw url and writes nothing to Redis |
| `Pipeline.WaitingSqlFailureStoresError` | main.go:67-71 | when the `WaitingSql` SADD of a query-bearing url fails, an error outcome is stored under the raw url, no domain outcome is stored and no set changes |
| `Pipeline.AcceptedUrlStoresDomain` | main.go:67-78 | once the query (if any) is in `WaitingSql`, the domain outcome is stored under the domain key, or nothing when that key is empty; with a query `WaitingSql` gains the url's string form, without one no SADD is issued and the store (fault script included) is unchanged; sets other than `WaitingSql` keep their members |
| `Pipeline.StepKeepsWellKeyed` | main.go:61-78 | after each line, domain outcomes sit under their own non-empty domain and error outcomes carry an empty domain |
| `Pipeline.ScanKeepsWellKeyed` | main.go:54-81 | the whole scan keeps the result map well keyed |
| `Pipeline.ScanWritesOnlyWaitingSql` | main.go:54-81 | during the scan only `WaitingSql` is written, and it only grows; every other set, the domain set included, is untouched |
| `Pipeline.ScanLines` | main.go:54-81 | the scanning loop ends with the result map and the Redis state that the line-by-line specification gives for the file's lines |
| `Pipeline.DomainsOf` | main.go:87-100 | every stored outcome's `domain` field is in the set, and nothing else is |
| `Pipeline.DomainsOfWellKeyed` | main.go:87-100 | the folded domains are the keys of the domain outcomes, plus `""` exactly when some error outcome is stored |
| `Pipeline.CollectDomains` | main.go:87-100 | the fold visits each key of the map once and appends each outcome's `domain` (nothing if the captured `err` is set); the members are those of the map's domains; the non-empty entries are pairwise distinct |
| `Pipeline.FoldCoversDomains` | main.go:88-100 | a fold that visits every key appends every outcome's domain |
| `Pipeline.FoldDomainsDistinct` | main.go:78-100 | over well-keyed outcomes and distinct keys, no non-empty domain is appended twice, however often the input repeats a url |
| `Pipeline.SaveDomainsToRedis` | main.go:28-114 | the run returns the error and leaves the Redis state that the reference run gives |
| `PipelineProperties.RunDomainSet` | main.go:87-106 | past the bulk add, the domain set holds its old members, every domain key found, and `""` iff an error outcome remains in the result map; sets other than it and `WaitingSql` are untouched |
| `PipelineProperties.FinishDomainSet` | main.go:86-106 | past the bulk add, the domain set gains the domain-outcome keys plus `""` iff an error outcome is present, and no other set changes |
| `PipelineProperties.RunReportsInOrder` | main.go:29-112 | an unopenable file returns before anything is read or written; the bulk SADD is issued iff an outcome was stored; its failure is returned ahead of a read error |
| `PipelineProperties.HealthyStep` | main.go:56-78 | against a store with no pending faults, a line's effect on the map and on `WaitingSql` depends on the line alone |
| `PipelineProperties.HealthyScan` | main.go:54-81 | against such a store the scan applies its lines' effects in sequence, later stores overwriting earlier ones |
| `PipelineProperties.RescanIsIdempotent` | main.go:54-81 | against such a store, a second scan of the same lines that continues from the first scan's result map changes neither that map nor Redis |
| `PipelineProperties.RerunKeepsSets` | main.go:28-114 | against such a store, a second run over the same file, starting from a fresh result map (main.go:45), returns the first run's error and leaves every set with the members the first run left |
| `PipelineProperties.FinishTwice` | main.go:86-113 | the post-scan part of two healthy runs with the same scanned outcomes returns the same error and leaves the same set members |
| `PipelineProperties.RepeatedLineIsNoOp` | main.go:64-78 | against such a store, a line repeated right after itself changes nothing |

## Left out

- Concurrency is not modelled: the goroutine pool, `sync.WaitGroup` and the scanner that every worker shares (main.go:47-84). The scan is one sequential pass in file order. `sync.Map` becomes a `map` whose store overwrites. Range visits the keys in an unspecified order, which `CollectDomains` picks with `:|`.
- `url.Parse` and `fasttld.Extract` are not modelled inside. They are total functions passed in as `Libraries`. Only success, `RawQuery` and `String()` are read from the parse; only `Scheme` and `RegisteredDomain` are read from the extraction, whose error the source discards.
- The Redis network client and its error values are not modelled. A failed SADD is decided by the store's fault script rather than by the network.
- RedisModel.StoreView.SAdd: a failed SADD is assumed to have left every set unchanged. go-redis can also report an error, such as a read timeout, after the server applied the command; the model does not capture that case. The "no set changes" clause of `Pipeline.WaitingSqlFailureStoresError` depends on this assumption.
- SADD with no members is excluded by a precondition. Redis rejects it, and the source never issues it.
- The texts of the error messages and all logging calls are left out. Per-line errors are the tags `ParseFailed` and `WaitingSqlFailed`, carrying the raw url.
- The `default` branch of the type switch at main.go:96-97 is left out. It cannot be reached when the map holds only `Result` values.
- Details of file handling are left out: the open, the deferred close and the close error it logs, and how the scanner splits lines and fails. The file is either unopenable or a sequence of lines plus a flag saying that reading stopped with an error.
- Text is a sequence of characters. Go's byte-level UTF-8 handling in `strings.Contains` and `regexp` is not modelled. Compiling the pattern once per line has no observable effect and is not modelled.
- `initRedis`, the configuration loading, `main` and `logs/logger.go` are left out. They are process plumbing and logging setup.
