# Path of Exile gem-ROI calculator: a Dafny model of its core

The calculator is a small web service. It fetches skill-gem prices and the
league list from public APIs and keeps them in a file cache with a time-to-live.
For each gem colour it reports the expected chaos value of drawing three random
gems of that colour and keeping the most valuable one (the "ROI").

This project models the deterministic core behind that service and proves
properties of it:

- **The TTL file cache** (`Cache`, `CacheProperties`). The cache path holds
  nothing, a regular file, or a directory. A directory is a map from file names
  to nodes. Each node is a regular file or a
  sub-directory, and each file has fixed read, write and remove permissions. The
  clock is an explicit `now` parameter in nanoseconds. Modelled operations:
  - key sanitising and the `<key>.json` naming;
  - entry expiry;
  - `new`, `get` (including eviction of stale entries), `set`, `delete`;
  - the two directory sweeps, `clear` and `cleanup_expired`.
- **Gem classification** (`Models`). Modelled pieces:
  - the colour names;
  - the icon-URL segment split;
  - the `gd` digit extraction and the `gd`-to-colour table;
  - the transfigured-gem name test.
- **The ROI arithmetic** (`SkillGems`). Modelled pieces:
  - the query defaults;
  - the level, quality, corruption and trade-filter selection;
  - the colour buckets and the most-valuable-first ranking;
  - the rank probabilities `C(i-1,2)/C(n,3)`;
  - the threshold-clipped weighted sum;
  - the reported gem list.
- **League conversion** (`Leagues`). Modelled pieces:
  - the economy-league filter (no SSF, no Ruthless);
  - hardcore detection from the rules;
  - the order-preserving conversion to the service's `League` records;
  - the fixed fallback list.

`common.dfy` holds `Option` and `Result`. `text.dfy` holds the string helpers
the source takes from Rust's standard library: substring search, `split`
followed by `nth`, digit runs and `u32` parsing.

Chaos values and probabilities are mathematical reals. The ROI contracts are
therefore exact statements about the intended arithmetic, not about IEEE-754
results.

## Model

| member | source | states |
|---|---|---|
| CacheProperties.ExpiryBoundaries | src/cache/mod.rs:24-27 | An entry read exactly at its deadline is still fresh. A zero TTL is stale at any later instant. A negative TTL is stale from the moment it is written. Once stale, an entry stays stale. |
| Cache.New | src/cache/mod.rs:40-51 | Whatever exists at the cache path is kept as it is, a regular file included. A missing directory is created empty. Construction fails exactly when the directory is missing and cannot be created. |
| CacheProperties.PlainFileInPlace | src/cache/mod.rs:44-50 | With a regular file at the cache path, construction succeeds, `get` misses, `delete` succeeds without a change, and `set` fails. |
| Cache.Get | src/cache/mod.rs:53-94 | An absent file is a miss that changes nothing. A hit carries a fresh entry whose payload decodes. The only state change `get` can make is removing that key's own stale file. Every error leaves the directory untouched. |
| CacheProperties.GetFresh | src/cache/mod.rs:64-69 | A readable, fresh, decodable envelope is returned and the directory is unchanged. |
| CacheProperties.GetEvicts | src/cache/mod.rs:70-84 | A stale entry is a miss. Its file is removed when removal is permitted. A failed removal is swallowed and leaves everything as it was. |
| CacheProperties.GetRejectsBadContent | src/cache/mod.rs:67-68 | A malformed file, or a payload of the wrong shape, is a deserialisation error, even when the entry is stale. |
| CacheProperties.GetReadFails | src/cache/mod.rs:64-65 | A key whose name is taken by a sub-directory or an unreadable file is an I/O error, not a miss, and nothing changes. |
| CacheProperties.GetAfterEviction | src/cache/mod.rs:79-83 | After a read has evicted a key, every later read of it misses without changing anything. |
| Cache.Set | src/cache/mod.rs:96-111 | `set` succeeds exactly when the directory exists and either the key's file exists as a writable regular file or it is new and the directory is writable. On success the key's file holds a fresh envelope stamped `now`. An overwritten file keeps its permissions, and a new one is readable, writable and removable. No other file changes. |
| CacheProperties.SetThenGet | src/cache/mod.rs:93-107 | A read within the TTL after a successful `set` to a file that can be read returns the stored value. A payload that does not decode gives a deserialisation error. |
| CacheProperties.SetThenGetLate | src/cache/mod.rs:70-84 | A read past the TTL after a `set` misses, and the file is gone afterwards when it can be removed. |
| CacheProperties.BasicScenario | src/cache/mod.rs:208-226 | The basic cache test: a miss, then `set` with TTL 60 and a hit on `test_value`, then a successful delete and a miss at any later read. |
| CacheProperties.ZeroTtlScenario | src/cache/mod.rs:228-239 | The expiry test: a TTL-0 entry is a miss on any later read. |
| CacheProperties.LeaguesExpireScenario | src/api/leagues.rs:97-99 | The league list cached for 60 minutes is a miss, and its file is gone, once the hour has passed. |
| Cache.Delete | src/cache/mod.rs:113-123 | Without a cache directory, `delete` is a successful no-op that changes nothing, and so is deleting an absent file. Otherwise `delete` removes exactly that file, or fails without a change when removal is refused. |
| CacheProperties.DeleteIdempotent | src/cache/mod.rs:113-123 | Deleting twice is the same as deleting once, and a read after a delete misses. |
| Cache.Sanitize | src/cache/mod.rs:189-197 | The sanitised key has the key's length. Every ASCII letter, digit, `-` and `_` stays in place, and every other character becomes `_`. |
| Cache.CachePath | src/cache/mod.rs:189-199 | The file name is the sanitised key followed by `.json`. |
| CacheProperties.SanitizeFixesSafeKeys | src/cache/mod.rs:191-197 | Sanitising leaves a key unchanged exactly when the key is already made of safe characters. |
| CacheProperties.SanitizeIdempotent | src/cache/mod.rs:191-197 | Sanitising twice gives the same result as sanitising once. |
| CacheProperties.CachePathCollision | src/cache/mod.rs:189-199 | Two keys map to the same file exactly when they sanitise alike. |
| CacheProperties.SanitizeCollisionClass | src/cache/mod.rs:191-197 | Two keys sanitise alike exactly when they have the same length and, position by position, hold the same character or two characters that both end up as `_` (an `_` or a replaced character). |
| CacheProperties.CollidingKeysShareEntry | src/cache/mod.rs:101-106 | Two distinct keys that sanitise alike share one entry: a `set` on one is visible through the other. |
| CacheProperties.CollisionExample | src/cache/mod.rs:193-199 | `a.b` and `a/b` are different keys stored in the single file `a_b.json`. |
| Cache.Sweep | src/cache/mod.rs:135-146 | The shared directory loop removes exactly the selected files that can be removed. It counts each removal once and leaves every other node in place. |
| Cache.Clear | src/cache/mod.rs:125-150 | A missing directory gives 0. An unreadable directory, or a regular file in its place, gives an I/O error. Otherwise `clear` removes exactly the removable regular files whose names end in `.json` and returns how many it removed. |
| Cache.ClearAsWritten | src/cache/mod.rs:125-150 | `clear` with the extension test as written removes exactly the removable regular files that Rust says have the extension `json`, and counts them. A missing directory gives 0, and an unreadable one or a regular file in its place gives an I/O error. |
| CacheProperties.ClearCountsWrittenKeys | src/cache/mod.rs:125-150 | After N writes to distinct files in an empty directory, `clear` reports N and leaves the directory empty. |
| CacheProperties.ClearTwoKeys | src/cache/mod.rs:241-259 | The clear test: two keys are written, `clear` reports 2, and both keys miss at any later read. |
| CacheProperties.ClearSparesOtherFiles | src/cache/mod.rs:139 | `clear` never selects a non-`.json` name or a sub-directory. |
| Cache.CleanupExpired | src/cache/mod.rs:152-187 | A missing directory gives 0, and an unreadable one, or a regular file in its place, gives an error. Otherwise `cleanup_expired` removes exactly the readable, well-formed, stale `.json` entries that can be removed, and counts them. |
| CacheProperties.CleanupSparesTheRest | src/cache/mod.rs:166-178 | Fresh entries, malformed files and unreadable files are never removed by `cleanup_expired`. |
| CacheProperties.CleanupTwiceRemovesNothing | src/cache/mod.rs:152-187 | A second cleanup at the same instant finds nothing to remove. |
| CacheProperties.CachePathHasExtension | src/cache/mod.rs:139 | Rust sees the extension `json` on a cache file exactly when the key is non-empty. |
| CacheProperties.EmptyKeySurvivesClearAsWritten | src/cache/mod.rs:139 | With the extension test as written, the entry for the empty key survives `clear`, and `clear` reports 0 for it. |
| CacheProperties.ClearRemovesEveryKey | src/cache/mod.rs:125-150 | With the corrected test, `clear` removes the file of every key, including the empty key. |
| Cache.CleanupExpiredAsWritten | src/cache/mod.rs:152-187 | `cleanup_expired` with the extension test as written: it removes exactly the readable, well-formed, stale files that Rust says have the extension `json`, and counts them. |
| CacheProperties.EmptyKeySurvivesCleanupAsWritten | src/cache/mod.rs:166 | Once the empty key's entry is stale, the corrected cleanup removes its file `.json`, but the cleanup as written selects nothing and leaves it. |
| SkillGems.HandlerKeysHaveExtension | src/api/skill_gems.rs:96 | The keys the handlers use (`skillGems_<league>` and `leagues`) always get a file with a proper `.json` extension. |
| Models.AsStrInjective | src/models/mod.rs:169-175 | Distinct colours have distinct names: `red`, `green` and `blue`. |
| Models.GdColor | src/models/mod.rs:207-212 | `gd` 5 or 6 is red, 9 or 10 is green, 13 or 14 is blue, and every other value has no colour. |
| Models.GdColorMatchesCodes | src/models/mod.rs:207-212 | A `gd` value maps to a colour exactly when it is one of that colour's two codes. |
| Models.GdValueIsDigitRunAfterKey | src/models/mod.rs:198-205 | The `gd` value is the maximal digit run right after the first `"gd":`. A missing key or an empty run gives no value. |
| Models.IconSegment | src/models/mod.rs:184-189 | A URL has a segment exactly when it contains `/image/`. The segment is the longest `/`-free run right after the first `/image/`. |
| Models.FromIconUrl | src/models/mod.rs:183-213 | A URL without `/image/` has no colour. The colour is `c` exactly when the segment decodes to JSON whose `gd` value is one of `c`'s codes. |
| Models.FromIconUrlOfShape | src/models/mod.rs:184-189 | For a URL shaped `<host>/image/<segment>/<rest>`, where `/image/` does not occur in `<host>/`, the colour is read from `<segment>` alone. |
| Models.MoltenStrikeIsRed | src/models/mod.rs:227-229 | The decoded Molten Strike icon (`gd` 5) is red. |
| Models.ViperStrikeIsGreen | src/models/mod.rs:231-233 | The decoded Viper Strike icon (`gd` 9) is green. |
| Models.SparkIsBlue | src/models/mod.rs:235-237 | The decoded Spark icon (`gd` 14) is blue. |
| Models.SupportGemHasNoColor | src/models/mod.rs:239-241 | The decoded support-gem icon has no `gd` field, so it has no colour. |
| Models.TransfiguredExamples | src/models/mod.rs:244-250 | "Spark of Unpredictability" and "Molten Strike of the Zenith" are transfigured. "Spark" and "Awakened Multistrike Support" are not. |
| Models.TransfiguredIsSubstringMonotone | src/models/mod.rs:217-219 | Adding text around a transfigured name keeps it transfigured. |
| Leagues.AnyHardcore | src/api/leagues.rs:81-84 | A league is hardcore exactly when some rule has the id `Hardcore`. |
| Leagues.ToLeague | src/api/leagues.rs:80-92 | A converted league has its id as both name and display name, is indexed, and is hardcore exactly when the rules say so. |
| Leagues.ConvertLeagues | src/api/leagues.rs:77-93 | The output is no longer than the input. Every output league comes from an economy league, and every economy league appears in it. |
| Leagues.ConvertLeaguesAppend | src/api/leagues.rs:77-93 | The conversion is order-preserving: converting a concatenation is concatenating the conversions. |
| Leagues.ConvertLeaguesLength | src/api/leagues.rs:77-79 | The number of converted leagues equals the number of economy leagues. |
| Leagues.PermanentLeaguesAreEconomy | src/api/leagues.rs:109-124 | Standard and Hardcore pass the economy filter. |
| Leagues.SettlersVariantsExcluded | src/api/leagues.rs:109-124 | The SSF and Ruthless variants of a challenge league fail the economy filter. |
| Leagues.ExclusionSurvivesContext | src/api/leagues.rs:109-124 | An id containing `SSF`, `Solo Self-Found` or `Ruthless` is excluded, whatever else it contains. |
| Leagues.ChallengeLeagueExample | src/api/leagues.rs:77-124 | In a challenge-league listing, the trade league and its hardcore variant survive in order, with the correct hardcore flags, and the SSF and Ruthless variants are dropped. |
| Leagues.FallbackLeagues | src/api/leagues.rs:129-146 | The fallback is exactly Standard (softcore) then Hardcore (hardcore), both indexed, each named by its id. |
| Leagues.FallbackIsPermanentConverted | src/api/leagues.rs:129-146 | The fallback is exactly what converting the two permanent leagues produces. |
| SkillGems.Resolve | src/api/skill_gems.rs:85-88 | Missing query fields default to league `Standard`, threshold 5, level 1 and quality 0. Given fields are used as they are. |
| SkillGems.FiltersReadMissingAsDefault | src/api/skill_gems.rs:137-147 | A line matches the requested level, quality and corruption exactly when its fields, with missing ones read as level 1, quality 0 and not corrupted, equal the request. Corruption is required exactly when level or quality exceeds 20. |
| SkillGems.Bucket | src/api/skill_gems.rs:135-162 | Every bucket entry is the name and chaos value (0 when unknown) of a tradeable candidate of that colour. Every such candidate's entry is in the bucket. |
| SkillGems.BucketAppend | src/api/skill_gems.rs:135-162 | Bucketing keeps market order: the bucket of one listing followed by another is the first listing's bucket followed by the second's. |
| SkillGems.BucketSingle | src/api/skill_gems.rs:150-160 | A single line contributes its entry exactly when it is a tradeable candidate of that colour, and nothing otherwise. |
| SkillGems.BucketsPartition | src/api/skill_gems.rs:150-160 | Each coloured candidate lands in exactly one bucket: the bucket sizes add up to the number of coloured candidates. |
| SkillGems.UntradeableIgnored | src/api/skill_gems.rs:150 | A line without a trade filter never enters a bucket. |
| SkillGems.RankByValueRanked | src/api/skill_gems.rs:165-167 | The ranked bucket is ordered most valuable first. |
| SkillGems.RankByValuePermutes | src/api/skill_gems.rs:165-167 | Ranking neither adds nor drops a gem: the ranked bucket is a permutation of the bucket. |
| SkillGems.RankByValueKeepsValues | src/api/skill_gems.rs:165-167 | The ranked bucket's chaos values are the bucket's values, reordered. |
| SkillGems.InsertRanked | src/api/skill_gems.rs:165-167 | Placing one gem into a bucket that is already ranked keeps it ranked. |
| SkillGems.CalculateProbability | src/api/skill_gems.rs:200-215 | The loop yields the probabilities rank by rank: entry `j` is `C(n-1-j, 2) / C(n, 3)`. The list is empty for fewer than three gems. Otherwise it has `n - 2` positive, non-increasing entries that add up to 1. |
| SkillGems.ProbabilitiesDecrease | src/api/skill_gems.rs:206-211 | Every rank's probability is positive, and a better rank never has a smaller probability. |
| SkillGems.FavourableSumsToTotal | src/api/skill_gems.rs:206-211 | The favourable counts of all ranks add up to the total count `C(n, 3)`. |
| SkillGems.ProbabilitiesSumToOne | src/api/skill_gems.rs:200-215 | For three or more gems, the probabilities add up to 1. |
| SkillGems.CalculateRoiForGems | src/api/skill_gems.rs:217-235 | Fewer than three gems give 0. Otherwise the result is the sum over the first `n - 2` gems of probability times value, with values below the threshold counted as 0. |
| SkillGems.WeightedSeesOnlyClippedTop | src/api/skill_gems.rs:225-232 | The ROI depends only on the clipped values of the weighted ranks. Values below the threshold, and the two lowest-ranked gems, can change freely. |
| SkillGems.RoiIsAverage | src/api/skill_gems.rs:217-235 | With a non-negative threshold, the ROI lies between 0 and any non-negative bound on the bucket's values. |
| SkillGems.RoiDependsOnlyOnValues | src/api/skill_gems.rs:164-172 | After ranking, a bucket's ROI depends only on the multiset of its chaos values. Neither the order the market listed the gems in nor their names matter. |
| SkillGems.AccumulateRoi | src/api/skill_gems.rs:223-232 | The loop with its early exit adds each gem's clipped value times its rank's probability, for exactly as many ranks as there are probabilities. |
| SkillGems.WeightedRanksAreTheBest | src/api/skill_gems.rs:164-181 | After ranking, every gem that gets a probability is worth at least as much as every gem that does not. |
| SkillGems.ThreeGemExample | src/api/skill_gems.rs:200-235 | Three gems get the probabilities `[1]`, so the ROI is the top gem's value. |
| SkillGems.FourGemExample | src/api/skill_gems.rs:200-235 | Four gems get the probabilities `[3/4, 1/4]`. A second gem below the threshold contributes nothing. |
| SkillGems.GemValues | src/api/skill_gems.rs:237-246 | The reported list is as long as the shorter input. It pairs names, values and probabilities position by position, in order. |
| SkillGems.ReportedGems | src/api/skill_gems.rs:175-181 | A bucket of `n >= 3` gems reports `n - 2` gems whose probabilities add up to 1. A smaller bucket reports nothing. |
| SkillGems.CalculateGemRoi | src/api/skill_gems.rs:130-190 | Each colour's ROI and gem list are computed from that colour's ranked bucket under the resolved parameters. |

## Left out

- Real I/O. File reads, writes and removals are a map update. Each file's read, write and remove permissions are fixed flags on the node. Whether a removal succeeds is a property of the file alone, not of the directory's permissions. Errors that happen part-way through reading a directory (`entry?` in the loops) are not modelled.
- JSON serialisation. The stored payload is an opaque value `V`, and serialisation is taken to round-trip it exactly. A serialisation failure in `set` is not modelled. A write that fails half-way and leaves a truncated file is not modelled either: a failed write changes nothing.
- Cache.Get: decoding the payload into the caller's type is the parameter `decode`. A payload of the wrong shape is a deserialisation error, as in the source.
- The clock. `now` is a parameter counting nanoseconds. `get` and `set` read it once. A TTL of N minutes is N × 60·10⁹ ns. chrono's overflow panic on huge TTLs is not modelled.
- Cache.CleanupExpired: the source reads `Utc::now()` anew for every file it checks (`is_expired`). The model judges every file at the single instant `now`, so a file that goes stale while the sweep runs is not covered.
- Cache.Set: the operating system's other reasons for a failed write (a full disk, quotas, an overlong file name) are not modelled.
- Cache.Clear: the `u32` count is an unbounded `nat`, with no wrap-around. More than 2³² files is outside any realistic use.
- Cache.CleanupExpired: its `u32` count is likewise an unbounded `nat`, for the same reason.
- `age_minutes` and all `tracing` logging: they only produce log output.
- Concurrency between handlers: the source has no locking to model.
- Base64 and UTF-8 decoding in `from_icon_url` (the STANDARD_NO_PAD engine of the `base64` crate) is the parameter `decodeSegment`. The test icons are modelled by their decoded JSON text.
- `get_gem_color`, the name-to-colour table used by the ROI endpoint, is the parameter `colorOf`. src/api/mod.rs and the colour table's source are not part of this model.
- SkillGems.RankByValue: the source sorts `f64` values with `partial_cmp`, treating incomparable values as equal. Over the reals every pair is comparable, so NaN handling is not modelled. The definition is a stable insertion sort, as `sort_by` is stable, but stability itself is not stated as a contract.
- SkillGems.CalculateProbability: reals replace `f64`, so rounding in the division and accumulation is not modelled. `usize` overflow of `n*(n-1)*(n-2)` is not modelled either.
- The HTTP handlers themselves: fetching, status codes, the cache-aside control flow in `get_skill_gems`, `calculate_gem_roi` and `get_leagues`, and the fallback-on-error paths. src/main.rs, the `public/` web client and the legacy `app.js` server are not part of this model.

## Findings

| source | as written | input that shows it | evidently intended | confidence | as-written member | corrected member |
|---|---|---|---|---|---|---|
| src/cache/mod.rs:139 (also 166) | `clear` and `cleanup_expired` select files by `path.extension() == Some("json")`. For the empty key, `get_cache_path` produces the file `.json`, and Rust treats a leading dot as part of the stem, so that file has no extension. | `set("", v, 60)` followed by `clear()`: the file `.json` stays, and `clear` returns 0 for it. `cleanup_expired` likewise never removes the stale entry. | Every file the cache writes, `<sanitised key>.json`, is removed by `clear` and is a candidate for `cleanup_expired`. | medium; not executed | Cache.ClearAsWritten, CacheProperties.EmptyKeySurvivesClearAsWritten, Cache.CleanupExpiredAsWritten, CacheProperties.EmptyKeySurvivesCleanupAsWritten | Cache.Clear, CacheProperties.ClearRemovesEveryKey, Cache.CleanupExpired |
