# dnoise, modelled in Dafny

dnoise is a DNS noise generator for a Pi-hole. It runs forever. Each 60-second
cycle does four things:

1. It reads the queries the Pi-hole logged over the past window.
2. It drops the queries that this machine sent.
3. It plans a percentage of that volume in fake queries.
4. It sends them, evenly spaced, for random domains from a local corpus.

The corpus is the Cisco Umbrella top-1M list, kept in a SQLite table. It is
downloaded at startup when the database file is missing, and again when the
file is stale.

The model covers the program's logic once time, randomness, the network and
SQLite are handed in as parameters:

- **Outcomes** (`outcomes.dfy`): `Option`, `Result`, and the `Fatal`
  conditions under which the program exits.
- **Resilience** (`resilience.dfy`): the bounded-retry gate shared by the
  network check and the API poll. It is a pure state machine (`Retry`) plus
  the loop that runs it (`RunRetry`).
- **Database** (`database.dfy`):
  - `chunks`, as a recursive function with its slicing laws.
  - The `Urls` class over an in-memory table (`domains`), the open
    transaction (`pending`) and a log of the SQL statements issued (`log`).
  - `create_table`, `mass_insert_urls` (one transaction per chunk of 10000
    rows) and `get_random_domains` (a prefix of a supplied `ORDER BY RANDOM()`
    order).
- **Sampler** (`sampler.dfy`): `get_genuine_queries`.
  - The filter on field 3.
  - The fatal "wrong format" case.
  - The sentinel string `"Let's not divide by 0"`.
  - The projection of field 1 into the type list.
  - The API poll under the retry gate.
- **Pacing** (`pacing.dfy`): the plan and the emission loop.
  - The plan is `round(len/100*pct)` with Python's round-half-to-even, at
    least 1, with `60/amount` seconds between queries.
  - The emission loop is a do-while, recorded as a trace of resolutions and
    sleeps.
- **Startup** (`startup.dfy`):
  - `str.replace` and the client normalisation.
  - The probe URL's scheme stripping.
  - `check_network`.
  - The corpus download/refresh decision.
  - `download_domains`.
- **Noise** (`noise.dfy`): the startup sequence and one cycle of the main loop,
  composed from the above.

The oracles are:

- `outcome(k)`, `probe(k)` and `fetch(k)`: the result of attempt k of a
  retried call.
- `answered(k)`: whether resolution k got an answer.
- `randBelow(k, n)`: the index `random.choice` draws at attempt k.
- `shuffled`: the order `ORDER BY RANDOM()` produced.
- `archive(k)`: the rows of download k, or None when the HTTP request failed.
- `age`: the age of the database file at the staleness test.
- `now`: the wall clock, in whole seconds.

Three details of the program's own text deserve a note:

- **Rounding.** The plan uses Python's `round`, which rounds half to even.
  45 genuine queries at 10 % give 4.5, which rounds to 4, so a cycle sends
  4 queries 15 s apart (`Pacing.FortyFiveAtTenPercent`).
- **The "A" default.** The docstring at dnoise.py:122 says the type list
  defaults to an A record when there are no query types. When nothing
  qualifies, though, the program inserts the string "Let's not divide by 0"
  as the only genuine entry. Its field 1 is the character "e", so the type
  list is `["e"]` and the "A" fallback at dnoise.py:167-168 is never reached
  (`Sampler.SentinelType`, `Sampler.GenuineQueries`).
- **Refresh age.** The comment at dnoise.py:196 calls 604400 s "7 days". A
  week is 604800 s. The model keeps the literal 604400.

## Model

| member | source | states |
|---|---|---|
| Resilience.RetryFrom | dnoise.py:96-108 | From counter value t, the loop ends well iff some attempt in t..max succeeds. It then stops at the first success. Otherwise it gives up with the counter at max+1, after every attempt failed. |
| Resilience.RetrySpec | dnoise.py:96-108 | From counter 0: success iff one of the first max+1 attempts succeeds. On success the counter equals the number of failures before the first success. Giving up means max+1 consecutive failures. |
| Resilience.RetryBoundary | dnoise.py:129-142 | Failing exactly max times and then succeeding is not fatal (`pihole_tries > 15` lets a 16th attempt run). Failing max+1 times is fatal. |
| Resilience.SleepsTotal | dnoise.py:106-108 | A run with n failed attempts sleeps n × delay seconds in total. |
| Resilience.RunRetry | dnoise.py:96-108 | The `while True` loop computes the state machine's verdict and counter. It sleeps exactly once per failed attempt, each time for the fixed delay. |
| Database.ChunksFlatten | database.py:12-14 | Concatenating the chunks gives back the data exactly. |
| Database.ChunksShape | database.py:12-14 | Every chunk is non-empty and at most `rows` long. Every chunk but the last is exactly `rows` long. |
| Database.ChunksCount | database.py:12-14 | There are ceil(\|data\| / rows) chunks, and no chunks exactly when the data is empty. |
| Database.ChunkPosition | database.py:12-14 | Element j of chunk c is element c*rows + j of the data. |
| Database.ChunkPrefix | database.py:12-14 | The chunks before chunk c hold exactly the first c*rows elements. |
| Database.DomainsOfAt | database.py:35-36 | The inserted domains are the second field of each row, one per row, in order. |
| Database.TransactionsPerChunk | database.py:32-37 | The statement log of an import has exactly one BEGIN and one COMMIT per chunk. Its INSERTs are the second field of every row, in order. |
| Database.FirstMalformedRow | database.py:33-36 | The row where the import stops (chunk c, offset j) is row c*10000 + j of the input. It is malformed, and every earlier row is well formed. |
| Database.Urls.constructor | database.py:20-23 | A connection to a file holds that file's table, or no table, with no open transaction and an empty log. |
| Database.Urls.CreateTable | database.py:25-27 | Succeeds iff there was no table. The table is then empty; otherwise nothing changes. |
| Database.Urls.MassInsertUrls | database.py:29-37 | Completes iff every row has exactly two fields. It then appends the rows' domains to the table in order, with one BEGIN/INSERT.../COMMIT transaction per chunk in the log. Otherwise it stops at the first bad row: earlier chunks are committed, the stopping chunk's earlier rows are pending in an open transaction, and the log says so. |
| Database.Urls.MassInsert | database.py:12-37 | Fails before any statement, changing nothing, exactly when the input is a `csv.reader`, whose length `chunks` cannot take. For a list it behaves as `MassInsertUrls`: it completes iff every row has two fields, then with the rows' domains appended and one transaction per chunk in the log. Otherwise it stops at the first bad row in the `StoppedAt` state (earlier chunks committed, the chunk's earlier rows pending, the log so far). |
| Database.Urls.InsertChunks | database.py:33-37 | The chunk loop, chunk by chunk: all chunks committed, or the state `StoppedAt` the first malformed row. |
| Database.Urls.ImportChunkAt | database.py:33-37 | One pass of the chunk loop extends the committed prefix by one chunk, or stops inside it. |
| Database.Urls.InsertChunk | database.py:34-37 | One chunk: BEGIN, one INSERT per row, COMMIT, with its domains appended. For a bad row: the index of the first one, its predecessors pending, no COMMIT. |
| Database.Urls.GetRandomDomains | database.py:39-46 | Returns min(count, \|table\|) domains, a prefix of the random order. Each is a table entry and none is a repeat (multiset inclusion). Fails iff there is no table. The table is unchanged. |
| Sampler.Genuine | dnoise.py:145-149 | Every kept record is an input record whose field 3 differs from the client, and no more records are kept than given. |
| Sampler.GenuineAppend | dnoise.py:145-149 | Filtering distributes over concatenation, so the input order is kept. |
| Sampler.GenuineCount | dnoise.py:145-149 | Each record whose field 3 differs from the client is kept as often as it occurs in the input. No other record is kept: none are dropped and none duplicated. |
| Sampler.GenuineEmpty | dnoise.py:145-156 | Nothing is kept iff every record was sent by the client. |
| Sampler.SentinelType | dnoise.py:155-168 | Field 1 of the sentinel string is "e", which is not the "A" fallback. |
| Sampler.KeepGenuine | dnoise.py:145-156 | Fatal WrongFormat iff some record has fewer than 4 fields. Otherwise the result is the kept records in order, or exactly the sentinel when none qualified. |
| Sampler.QueryTypes | dnoise.py:158-168 | One type per genuine entry, in order: field 1 of each. It is "A" only for an empty genuine list. |
| Sampler.GenuineQueries | dnoise.py:145-170 | The whole filter and projection. WrongFormat iff some record is too short. Otherwise the genuine list is never empty and the types match it one for one, and the types are `["e"]` when nothing qualified, so the "A" fallback is never reached. |
| Sampler.GetGenuineQueries | dnoise.py:125-170 | The window is [now - seconds, now]. The poll sleeps 15 s per failed attempt and is fatal (PiholeDown) iff 16 attempts failed. The first response that arrives is filtered as in `GenuineQueries`. |
| Pacing.RoundHalfEven | dnoise.py:209 | The result is within 1/2 of n/d, and even when n/d lies exactly half-way (Python's `round`). |
| Pacing.QueryAmount | dnoise.py:209-211 | The amount is at least 1. It is exactly 1 iff genuine*pct < 150. Above that it equals `RoundHalfEven(genuine*pct, 100)`, Python's round of genuine*pct/100, and lies within 1/2 of it. |
| Pacing.MakePlan | dnoise.py:209-213 | At least one query, and timeout × amount = cycle length exactly. |
| Pacing.FortyFiveAtTenPercent | dnoise.py:209-213 | 45 genuine entries at 10 % give 4 queries, 15 s apart. |
| Pacing.Emissions | dnoise.py:219-239 | n passes of the loop produce 2n events. |
| Pacing.EmissionsShape | dnoise.py:219-239 | Pass k resolves `queries[k]` with a type from the sampled list, followed by one sleep of the timeout, whatever the resolution's outcome. |
| Pacing.EmissionsPasses | dnoise.py:219-239 | The trace of n passes of the loop is a `Passes` trace: pass k resolves `queries[k]` with a sampled type and reports `answered(k)`, then sleeps the timeout. |
| Pacing.PassesSlept | dnoise.py:234-236 | Any trace of n passes sleeps n × timeout in total, whatever the resolutions returned. |
| Pacing.EmissionsSleep | dnoise.py:234-236 | n passes of the loop sleep n × timeout in total, independent of the resolution outcomes. |
| Pacing.CycleDuration | dnoise.py:213-239 | A completed cycle sleeps exactly the cycle length. |
| Pacing.Emit | dnoise.py:217-239 | The do-while completes iff at least `amount` domains were fetched. It then makes exactly `amount` attempts, in order. Otherwise it fails with an IndexError after using every fetched domain. |
| Startup.ReplaceAllPositions | dnoise.py:180 | With an equal-length replacement, `str.replace` keeps the length. Each position then holds either a replacement character or the original one, and no occurrence starts at an original one. |
| Startup.ReplaceAllRemoves | dnoise.py:180 | A replacement of equal length that shares no character with the pattern leaves no occurrence of the pattern. |
| Startup.ReplaceAllAbsent | dnoise.py:180 | Without an occurrence, replacing changes nothing. |
| Startup.Normalize | dnoise.py:180 | The normalised identity keeps its length and contains no "127.0.0.1". |
| Startup.NormalizeCases | dnoise.py:180 | The default identity "127.0.0.1" becomes "localhost"; an identity without loopback is unchanged. |
| Startup.ProbeHostStrips | dnoise.py:91 | A host without ':' is probed as is, whether configured bare, with "https://" or with "http://". |
| Startup.NetworkDefaults | dnoise.py:90-97 | With the configuration defaults, the probe host is "duckduckgo.com" itself, and a network that never answers is given up on after 11 probes and 110 s of sleep. |
| Startup.CheckNetwork | dnoise.py:85-108 | Up iff one of the first max+1 probes succeeds, at the first one that does. NetworkDown after max+1 failures. One retry sleep per failed probe. |
| Startup.CorpusPlan | dnoise.py:192-200 | The first step is a download iff the file is missing. Remove occurs iff age > 604400 and updates are enabled, and every Remove is followed by a download. The number of downloads is the sum of both conditions. |
| Startup.DownloadDomains | dnoise.py:49-79 | HTTP failure gives DownloadFailed and an existing table gives TableExists; both leave the database exactly as it was. Otherwise the table is created, and the import succeeds iff every row has two fields. Success leaves the table equal to the rows' domains and one transaction per chunk in the log. ImportFailed leaves the state `StoppedAt` the first bad row: the chunks before it committed, its chunk's earlier rows pending. |
| Startup.DownloadDomainsAsWritten | dnoise.py:56-79 | As written, any downloaded archive ends in ImportFailed, with the new table empty and no statement issued, even when every row is well formed. The HTTP-failure and existing-table exits leave the database as it was. |
| Startup.FreshDownload | dnoise.py:49-79 | With the corrected import, a download into a new file succeeds iff the archive arrived well formed, and then holds exactly its domains. |
| Startup.PrepareCorpus | dnoise.py:192-200 | With the corrected import: on success the steps taken are exactly `CorpusPlan`. The table is the existing one or the last download's domains. On failure the steps are a prefix ending in the failed download, with the matching error. |
| Noise.OneSidedNormalisation | dnoise.py:180 | Only the configured identity is normalised, not field 3 of the records (compared at line 148). With the default identity, records logged for "127.0.0.1" count as genuine, and only those logged for "localhost" are dropped. |
| Noise.Start | dnoise.py:180-200 | With the corrected import: the identity is normalised. NetworkDown iff every probe failed, and then nothing is downloaded. Otherwise the outcome is that of `PrepareCorpus`. On success the steps are `CorpusPlan` and the corpus is the existing table or the last archive's domains. On failure the steps are a prefix of `CorpusPlan` ending in the failed download, with DownloadFailed for a missing archive and ImportFailed for a malformed one. |
| Noise.Cycle | dnoise.py:125-241 | The sample is the one `get_genuine_queries` returns for the first API response to arrive. The poll sleeps 15 s after each failed request, and PiholeDown happens iff 16 requests failed. WrongFormat iff a record of that response is too short. Otherwise the genuine list is the response's records not sent by the client (or the sentinel alone), the type list is field 1 of each genuine entry, and the amount is QueryAmount of max(1, their number). A completed cycle happens iff the table exists with at least `amount` domains. It resolves the first `amount` domains of the random order with sampled types, and its emission stage sleeps exactly 60 s, on top of the poll's sleeps. With a table of fewer domains, the cycle ends in an IndexError after one resolution and one sleep per domain in the table. |
| Noise.Inject | dnoise.py:209-239 | The plan is `MakePlan` of the sample. NoSuchTable iff there is no table, with nothing sent. Otherwise success iff the table holds `amount` domains: `amount` passes over the random order, 60 s of sleep in total. With fewer domains, an IndexError after one pass per domain. |
| Noise.Send | dnoise.py:217-239 | The emission stage of a cycle: all `amount` passes, sleeping amount × timeout, iff enough domains were fetched. Otherwise DomainIndexError after one pass per fetched domain. |

## Left out

- Configuration parsing and the module globals (dnoise.py:24-46). `client`, `pct`, the retry limits, the probe URL and `keep_database_updated` are parameters. The `auth == ""` check (dnoise.py:174-176) is a configuration check and is not modelled.
- HTTP, zip extraction, CSV parsing and file removal in `download_domains` (dnoise.py:52-58, 65-68, 75). These are I/O. The download is an oracle giving the CSV rows, or None for an HTTP error. Any other exception inside the handler at dnoise.py:76 is not modelled; only malformed rows and the reader's missing length are.
- The `urllib` request and `json.loads` of the API poll (dnoise.py:134-144). The parsed `data` array is the input, as lists of strings. A missing `data` key or fields that are not strings are not modelled.
- DNS resolution by `dns.resolver` (dnoise.py:92-101, 183-187, 229). This is a foreign library; every probe and resolution is a success/failure oracle. The oracle `answered` is unconstrained even for the type "e" sampled from the sentinel: the model allows such a resolution to be answered, while dnspython rejects the type name and the program's handler at dnoise.py:230 swallows the error. Only `DNSException` is retried by `check_network`; other exceptions there are not modelled.
- Clocks and sleeps. `time.sleep` is recorded in a trace. `time.mktime`, `time.time` and `os.path.getctime` are the inputs `now` and `age`.
- Randomness. `random.choice` and `ORDER BY RANDOM()` are an index oracle and a supplied permutation. Uniformity is not modelled.
- Floating point. `len/100*pct`, `round` and `60/amount` are exact rational arithmetic here. Binary floats can round differently near a .5 boundary.
- The SQLite engine, connections and `__exit__` (database.py:20-23, 48-49). Each `Urls()` opens its own connection to the one file; the model has one `Urls` object per file. The rollback of a transaction left open by an exit is not modelled; `pending` stays visible.
- `KeyboardInterrupt` handling and logging (dnoise.py:243-247). The endless `while True` at dnoise.py:202 is modelled as one cycle (`Noise.Cycle`).
- The handler at dnoise.py:162-165 is unreachable, because field 1 exists in every genuine entry. It is not a branch of `QueryTypes`.
- FreshDownload, PrepareCorpus and Noise.Start are built on the corrected `Startup.DownloadDomains` (see "## Findings"), not on the import as written. As written, every download on startup ends in "Import failed" and the process exits (`Startup.DownloadDomainsAsWritten`). These members do not describe that outcome; they describe the startup the code evidently intends.
- Database.Urls.GetRandomDomains: requires count >= 1. `fetchmany` with a size of 0 or less is not modelled, and the only caller passes at least 1.
- Database.Chunks: requires rows > 0. Python's `range` with step 0 raises instead.
- Pacing.QueryAmount: the percentage is a natural number. A negative configured percentage is not modelled.
- Pacing.Emit: requires amount >= 1, which the clamp at dnoise.py:210-211 guarantees. `random.choice` on an empty type list is ruled out by the oracle's bound; the sampler never returns an empty list.
- Startup.CheckNetwork: `config.getint` is re-read at every pass of dnoise.py:97; the model reads it once.

## Findings

| source | as written | input that shows it | evidently intended | confidence | as-written member | corrected member |
|---|---|---|---|---|---|---|
| dnoise.py:69-72 | The `csv.reader` object is passed to `mass_insert_urls`, whose `chunks` starts with `len(data)` (database.py:13). A reader has no length, so this raises TypeError, caught at dnoise.py:76 as "Import failed". | Any archive that downloads, e.g. one holding the single row `1,google.com` | The reader's rows are imported, as with `list(domain_data)` | high; not executed | Startup.DownloadDomainsAsWritten | Startup.DownloadDomains |
