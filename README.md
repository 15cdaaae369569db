# Watchdog PITR core and companion helpers, modelled in Dafny

This project models the point-in-time-recovery (PITR) bookkeeping of the
watchdog service of a self-hosted Supabase installation, together with the
small pure helpers that surround it.

## PITR bookkeeping

**Cloud layout.** Every day has a folder in the cloud store. A folder holds:
- `base.tar.gz`, the base backup;
- a `WAL` folder of raw write-ahead-log segments;
- after archiving, `WAL_archive.tar.gz` and `metadata.json`.

**Modules.**
- `Times`: Go times as integer nanoseconds since the Unix epoch. The zero `time.Time` is a distinguished constant.
- `WalNames`: the successor of a WAL segment name.
- `Continuity`: turns the observed segment names of a day into a `PitrMetadata` record. The record says whether the segments form an unbroken chain and where the first gap is.
- `PitrApi`: the day listings and the metadata resolver.
  - The resolver keeps a process-wide cache as a field of a class.
  - It tries the cache, then the stored `metadata.json`, then a live scan.
- `Archive`: the startup consistency check. It classifies each day by four presence flags and runs one healing action:
  - heal metadata from the archive;
  - archive the raw WAL folder;
  - record a total-data-loss sentinel.
- `Remote`: the cloud store and the messages the tasks send. It models the store as a map from day to `DayFolder`. That folder has a listing, the stored metadata document, the WAL objects and the archive contents.
- `Snapshots`: the parser of the snapshot file listing.

**Environment parameters.**
- Whether each external command succeeds is the parameter `ok: (day, Step) -> bool`.
- The current time is a parameter, and so is "today".

## Companion helpers

- `NftSets` (firewall agent):
  - the renderer of nftables set files;
  - the write-only-if-changed file update;
  - the order and first-error behaviour of `Sync`.
- `LogWatch`: the corruption-pattern matcher of the database log watcher.
- `ConvertDump`: the converter from `pg_dump` tab-separated COPY lines to SQL `INSERT` tuples.
- `Passkey`: the hex and base64url byte codecs of the passkey edge function.
  - Base64url is the base64 encoding of section 4 of RFC 4648.
  - It uses the URL- and filename-safe alphabet of section 5.
  - The padding is dropped, as section 3.2 permits.

## Library modules

These model the Go, Python and JavaScript library behaviour the code relies on:
- `Strings`: `strings.Split`, `strings.Fields`, `strings.TrimSpace`, Python `str.strip` and string ordering.
- `Sorting`: `sort.Strings` and `sort.Slice`.
- `Hex`: hexadecimal digits and `%X` / `%08X` formatting.
- `Wrappers`: `Option` and `Result`.

## Where the code differs from what one might expect

The model follows the code in each case:

- **Stored metadata is cached unconditionally.** The resolver caches a parsed stored `metadata.json` whether or not it is continuous (`pitr_logic.go:104-106`). Only the live path checks continuity before caching.
- **The raw WAL purge is gated on `tar` only.** `ArchiveRemoteDay` purges the remote `WAL` folder once `tar` succeeds, even when the archive upload fails (`archive.go:126-129`). `Archive.PurgeNotGatedOnUpload` states this.
- **A failed day listing means total loss.** `RunStartupBackfill` ignores the listing error of a day folder and decodes the empty output to no items. So a day whose listing fails is classified as total data loss (`Archive.FailedListingIsTotalLoss`).

## Model

| member | source | states |
|---|---|---|
| WalNames.NextWalName | apps/watchdog/internal/api/pitr_logic.go:216-223 | keeps the first 16 characters of the name and appends at least 8 uppercase hex digits |
| WalNames.NextSuffix | apps/watchdog/internal/api/pitr_logic.go:218-222 | the new suffix is the successor value of the parsed suffix, modulo 2^64, written in at least 8 uppercase hex digits |
| WalNames.ScanHexUint64 | apps/watchdog/internal/api/pitr_logic.go:219-220 | the `%X` scan into a `uint64` always yields a value below 2^64 |
| WalNames.ScanStopsAtNonDigit | apps/watchdog/internal/api/pitr_logic.go:220-220 | a run of hex digits that the input's end or a character other than a hex digit or `_` ends scans as its value, when that fits in 64 bits |
| WalNames.ScanSkipsSpace | apps/watchdog/internal/api/pitr_logic.go:220-220 | white space other than a newline before the number is skipped |
| WalNames.ScanNewlineFails | apps/watchdog/internal/api/pitr_logic.go:220-220 | a newline where the number should start makes the scan fail, leaving 0 |
| WalNames.ScanUnderscoreFails | apps/watchdog/internal/api/pitr_logic.go:220-220 | a `_` in the run of digits makes base-16 parsing fail, leaving 0 |
| WalNames.ScanOverflowFails | apps/watchdog/internal/api/pitr_logic.go:220-220 | digits whose value does not fit in 64 bits make the scan fail, leaving 0 |
| WalNames.NextSuffixSkipsSpace | apps/watchdog/internal/api/pitr_logic.go:216-222 | a space before the segment number does not change the successor's segment part |
| WalNames.NextSuffixAfterFailedScan | apps/watchdog/internal/api/pitr_logic.go:216-222 | a segment part the scan cannot read gives the successor segment 1 |
| WalNames.ScanAllHex | apps/watchdog/internal/api/pitr_logic.go:219-220 | on at most 8 hex digits the scan is the hex value of the digits |
| WalNames.NextWalNameIncrements | apps/watchdog/internal/api/pitr_logic.go:216-223 | for a 24-character name whose last 8 digits are hex and below FFFFFFFF: the result has 24 characters, keeps the first 16, and its last 8 digits have value one more |
| WalNames.NextWalNameDiffers | apps/watchdog/internal/api/pitr_logic.go:216-223 | a 24-character name is never its own successor, including when the suffix is not hex or wraps |
| WalNames.ParseTimeline | apps/watchdog/internal/api/pitr_logic.go:183-184 | the timeline is the hex value of the first 8 characters, or 0 when they do not parse |
| WalNames.TimelineRoundTrip | apps/watchdog/internal/api/pitr_logic.go:183-184 | an 8-digit `%08X` rendering of a 32-bit timeline parses back to the same timeline |
| WalNames.NextWalNameKeepsTimeline | apps/watchdog/internal/api/pitr_logic.go:216-223 | the successor name has the same timeline as the name |
| Continuity.CanonicalAsWritten | apps/watchdog/internal/api/pitr_logic.go:155-158 | the slice `name[:24]` fails exactly when the name contains `.partial` and is shorter than 24 characters |
| Continuity.CanonicalName | apps/watchdog/internal/api/pitr_logic.go:155-158 | the canonical name is a prefix of the name; a `.partial` name of at least 24 characters is cut to 24; any other name is kept |
| Continuity.Contribution | apps/watchdog/internal/api/pitr_logic.go:145-162 | an observed name adds its canonical name to the list exactly when it is not `.backup`/`.history`, its time is not before base − 1s (for a non-zero base), and its canonical name has 24 characters |
| Continuity.CleanBagMembers | apps/watchdog/internal/api/pitr_logic.go:145-162 | a segment is in the filtered list iff some eligible observed name canonicalises to it |
| Continuity.CleanBagLength | apps/watchdog/internal/api/pitr_logic.go:159-161 | every name in the filtered list has 24 characters |
| Continuity.CleanList | apps/watchdog/internal/api/pitr_logic.go:144-163 | the filtered list, sorted ascending, as a permutation of the filtered names |
| Continuity.CleanListNames | apps/watchdog/internal/api/pitr_logic.go:159-163 | the sorted filtered list consists of 24-character names |
| Continuity.GapFrom | apps/watchdog/internal/api/pitr_logic.go:191-202 | a gap it reports lies at or after the start index and is an index whose name is not the successor of the one before |
| Continuity.GapFromSpec | apps/watchdog/internal/api/pitr_logic.go:191-202 | there is no gap from an index on iff every later name is the successor of its predecessor; every name before a reported gap is linked |
| Continuity.FindGap | apps/watchdog/internal/api/pitr_logic.go:191-202 | the loop stops at exactly the first gap of the sorted list and names the successor expected there |
| Continuity.NoGapIffChain | apps/watchdog/internal/api/pitr_logic.go:191-202 | for any successor function, there is no gap iff every entry is the successor of the one before |
| Continuity.DuplicateMakesGap | apps/watchdog/internal/api/pitr_logic.go:191-202 | a sorted list with a name repeated has a gap, for any successor that moves that name |
| Continuity.TwoIndices | apps/watchdog/internal/api/pitr_logic.go:163 | a name counted twice in the list occurs at two distinct indices |
| Continuity.FindTimestamp | apps/watchdog/internal/api/pitr_logic.go:207-214 | returns the time of some observed name with the normalised name as prefix, or the zero time when there is none |
| Continuity.CollectSegments | apps/watchdog/internal/api/pitr_logic.go:144-162 | the loop over the observed map collects exactly the filtered names, whatever the iteration order |
| Continuity.WalkSegments | apps/watchdog/internal/api/pitr_logic.go:183-204 | fills start/end segments, timeline and timestamps; at the first gap it clears `Continuous`, reports the one expected name as missing, and moves the end segment and `ValidUntil` back without resetting `WalEndTimestamp` |
| Continuity.CalculateContinuity | apps/watchdog/internal/api/pitr_logic.go:143-205 | the result satisfies the full relation: fixed fields, the empty-list case (base time used as window when non-zero), and the walk of the sorted filtered list; it uses the corrected `.partial` cut, so it returns a record where the code panics (see Findings) |
| Continuity.ContinuousIffChain | apps/watchdog/internal/api/pitr_logic.go:165-204 | `Continuous` iff the sorted filtered list is a successor chain, iff no segment is missing; a broken chain reports exactly one missing segment |
| Continuity.TwiceMakesGap | apps/watchdog/internal/api/pitr_logic.go:191-202 | a sorted list holding some name twice has a gap, for any successor that moves that name |
| Continuity.BothFormsKeptTwice | apps/watchdog/internal/api/pitr_logic.go:155-161 | when both `X` and `X.partial` are eligible, `X` enters the list twice |
| Continuity.BothFormsBreakContinuity | apps/watchdog/internal/api/pitr_logic.go:155-200 | when both `X` and `X.partial` are eligible, the day is reported as not continuous |
| Continuity.ContinuityNotArchived | apps/watchdog/internal/api/pitr_logic.go:165-172 | the record carries the day, the base time, `IsArchived = false` and `BaseBackup = "base.tar.gz"` |
| Continuity.ShortPartialIgnored | apps/watchdog/internal/api/pitr_logic.go:155-161 | in the corrected model a `.partial` name shorter than 24 characters contributes nothing |
| Continuity.PartialCutPanics | apps/watchdog/internal/api/pitr_logic.go:156-157 | the observed name `a.partial` makes the slice as written fail |
| Continuity.CanonicalAgrees | apps/watchdog/internal/api/pitr_logic.go:155-158 | wherever the slice as written succeeds, it agrees with the corrected canonical name |
| PitrApi.ShownTimestampFixes | apps/watchdog/internal/api/pitr_logic.go:39-45 | a real modification time is kept; a placeholder time (year ≤ 2000) of a folder named by a date is replaced by that date's midnight + 5h, which is then past 2000 |
| PitrApi.ListDays | apps/watchdog/internal/api/pitr_logic.go:26-52 | a failed listing gives no days; otherwise the entries, one per item with the fixed timestamp, sorted by date descending |
| PitrApi.LastModTime | apps/watchdog/internal/api/pitr_logic.go:85-93 | the time of the last listed item with the name, present iff the name is listed |
| PitrApi.ScanDayListing | apps/watchdog/internal/api/pitr_logic.go:81-93 | the presence flags of `metadata.json` and `base.tar.gz` and the base time of the last `base.tar.gz` entry (zero when absent) |
| PitrApi.WalMapOf | apps/watchdog/internal/api/pitr_logic.go:118-127 | the WAL map has exactly the listed names, each with its last listed time |
| PitrApi.BuildWalMap | apps/watchdog/internal/api/pitr_logic.go:121-127 | the loop builds exactly that map |
| PitrApi.Resolver.constructor | apps/watchdog/internal/api/pitr_logic.go:16-17 | the cache starts empty |
| PitrApi.Resolver.GetContiguousWALRange | apps/watchdog/internal/api/pitr_logic.go:56-140 | a cache hit for a past day answers from the cache with no store access; otherwise the result follows the resolution relation |
| PitrApi.Resolver.Resolve | apps/watchdog/internal/api/pitr_logic.go:69-139 | the store path: a failed day listing, then stored metadata (cached unconditionally), then the live path (missing base is an error; a continuous past day is cached) |
| PitrApi.ResolvedStored | apps/watchdog/internal/api/pitr_logic.go:95-110 | a listed, readable stored `metadata.json` is the answer, with no error, and is cached |
| PitrApi.ResolvedNoBase | apps/watchdog/internal/api/pitr_logic.go:112-115 | without a base backup the answer is the `NOT_FOUND` record with its error, and the cache is kept |
| PitrApi.ResolvedLive | apps/watchdog/internal/api/pitr_logic.go:117-139 | a live scan's result is the answer without error, cached only for a continuous past day |
| PitrApi.LiveEntriesAdd | apps/watchdog/internal/api/pitr_logic.go:132-137 | caching a continuous live answer keeps every live cache entry continuous and not archived |
| PitrApi.LiveEntriesDrop | apps/watchdog/internal/api/pitr_logic.go:103-107 | caching a stored answer leaves the other live entries valid |
| PitrApi.LiveScan | apps/watchdog/internal/api/pitr_logic.go:118-130 | the live result is the continuity of the listed WAL folder (empty when that listing fails) and is never archived |
| PitrApi.ResolvedShape | apps/watchdog/internal/api/pitr_logic.go:73-137 | errors keep the cache and name the day; a missing base reports `NOT_FOUND`; a changed cache holds the answer; a live answer is not archived |
| PitrApi.TodayNotCachedLive | apps/watchdog/internal/api/pitr_logic.go:133-137 | a live answer for today never changes the cache |
| Snapshots.SnapshotTimestamp | apps/watchdog/internal/api/snapshot_logic.go:70-74 | a filename without `_` has an empty timestamp |
| Snapshots.TimestampOfDumpName | apps/watchdog/internal/api/snapshot_logic.go:70-74 | for `prefix_stamp.sql.gz` with no `_` in the stamp, the timestamp is the stamp |
| Snapshots.SplitLastPiece | apps/watchdog/internal/api/snapshot_logic.go:72-73 | the last `_`-separated piece of `x_t` is `t` when `t` has no `_` |
| Snapshots.ParseSnapshotLine | apps/watchdog/internal/api/snapshot_logic.go:64-80 | a line with fewer than two fields is skipped; otherwise field 0 is the name, field 1 the size, and the timestamp is derived from the name |
| Snapshots.ParseLineRoundTrip | apps/watchdog/internal/api/snapshot_logic.go:64-80 | the line `name size` parses back to that name and size |
| Snapshots.LsfLineSkipped | apps/watchdog/internal/api/snapshot_logic.go:55-67 | a `name;size` line, the form `rclone lsf --format ps` prints, is one field and is skipped |
| Snapshots.ParseLsfLine | apps/watchdog/internal/api/snapshot_logic.go:64-80 | a line splits at `;` exactly when it contains one; the name and size then hold no `;` and the timestamp comes from the name |
| Snapshots.LsfLineRoundTrip | apps/watchdog/internal/api/snapshot_logic.go:64-80 | the corrected parse reads `name;size` back as that name and size |
| Snapshots.ListSnapshotFiles | apps/watchdog/internal/api/snapshot_logic.go:53-83 | a failed listing gives no files; otherwise the parsed lines of the trimmed output, in order |
| Snapshots.EmptyOutputNoFiles | apps/watchdog/internal/api/snapshot_logic.go:62-67 | empty output gives no files |
| Archive.ScanItems | apps/watchdog/internal/tasks/archive.go:51-62 | the loop computes the four presence flags and the time of the last `base.tar.gz` |
| Archive.Classify | apps/watchdog/internal/tasks/archive.go:64-88 | healthy iff archive, metadata and base; heal-metadata iff archive without metadata; archive-raw iff neither but a WAL folder; total loss iff none of the three |
| Archive.NoActionCases | apps/watchdog/internal/tasks/archive.go:64-88 | no action exactly when metadata is present and the day is not healthy |
| Archive.MetadataSettles | apps/watchdog/internal/tasks/archive.go:64-88 | a day with metadata is never healed or archived again |
| Archive.FailedListingIsTotalLoss | apps/watchdog/internal/tasks/archive.go:45-88 | a day whose listing yields no items is classified as total loss |
| Archive.Fallback | apps/watchdog/internal/tasks/archive.go:180 | the fallback time is midnight of the parsed date, or the zero time when the date does not parse |
| Archive.LocalWalMap | apps/watchdog/internal/tasks/archive.go:182-192 | exactly the local names of at least 24 characters, each with its time past 2000 or else the fallback |
| Archive.BuildLocalWalMap | apps/watchdog/internal/tasks/archive.go:182-192 | the loop builds exactly that map |
| Archive.Patched | apps/watchdog/internal/tasks/archive.go:197-206 | forces archived and `base.tar.gz`, replaces a zero base time and a zero or year-1 `ValidUntil` by the fallback, and keeps every other field |
| Archive.ScanLocal | apps/watchdog/internal/tasks/archive.go:176-206 | the result is the patched continuity of the local WAL map |
| Archive.ScannedFrom | apps/watchdog/internal/tasks/archive.go:195-206 | a continuity result of the local WAL map, patched, is a scan result |
| Archive.PatchedWindowDated | apps/watchdog/internal/tasks/archive.go:197-203 | for a parseable date, the patched base time is non-zero and `ValidUntil` is past year 1 |
| Archive.ScanAndUpload | apps/watchdog/internal/tasks/archive.go:175-215 | the result is the patched continuity of the local WAL map, and the store changes only by the metadata upload |
| Archive.ReadyMessage | apps/watchdog/internal/tasks/archive.go:225-243 | status ✅ iff continuous, ⚠️ otherwise; a `ValidUntil` year ≤ 2000 is shown as date only |
| Archive.ArchiveRemoteDay | apps/watchdog/internal/tasks/archive.go:99-135 | metadata from the copied WAL; the store changes by metadata, then (if `tar` succeeds) archive upload and purge; one ready message is sent |
| Archive.TarFailureKeepsWal | apps/watchdog/internal/tasks/archive.go:126-129 | when `tar` fails the remote WAL folder and the archive are untouched |
| Archive.MetadataWrittenFirst | apps/watchdog/internal/tasks/archive.go:123-129 | a successful metadata upload survives the later archive steps |
| Archive.PurgeNotGatedOnUpload | apps/watchdog/internal/tasks/archive.go:126-129 | when `tar` succeeds and the upload fails but the purge succeeds, the WAL folder is gone and no archive was stored |
| Archive.ArchiveSettles | apps/watchdog/internal/tasks/archive.go:64-129 | after a successful metadata upload the day is healthy or needs no action; with all steps succeeding and a base backup it is healthy |
| Archive.ArchiveOnlyThisDay | apps/watchdog/internal/tasks/archive.go:99-135 | archiving a day leaves every other day's folder unchanged |
| Archive.HealMetadataFromArchive | apps/watchdog/internal/tasks/archive.go:138-156 | metadata from the unpacked archive; the store changes only by the metadata upload; the restored and ready messages are sent |
| Archive.HealKeepsArchive | apps/watchdog/internal/tasks/archive.go:146-155 | healing never writes or deletes the archive or the WAL folder |
| Archive.TotalLossSentinel | apps/watchdog/internal/tasks/archive.go:165-170 | the sentinel names the date, is not continuous, is not archived and lists `TOTAL_DATA_LOSS_ON_STORAGE` as missing |
| Archive.HandleTotalDataLoss | apps/watchdog/internal/tasks/archive.go:159-172 | sends the critical alert and uploads the sentinel as metadata |
| Archive.ReconcileDay | apps/watchdog/internal/tasks/archive.go:45-88 | lists the day, classifies it, and runs at most the one matching action |
| Archive.ReconciledOnlyThisDay | apps/watchdog/internal/tasks/archive.go:45-88 | reconciling a day changes no other day's folder |
| Archive.RunStartupBackfill | apps/watchdog/internal/tasks/archive.go:25-90 | a failed root listing changes nothing; days not listed and today are left untouched; otherwise the final state is every visited line's day reconciled in listing order |
| Archive.BackfillDates | apps/watchdog/internal/tasks/archive.go:39-89 | the loop reconciles the visited lines in order, each on the state the earlier ones left, and changes no day that is not listed |
| Archive.BackfillLine | apps/watchdog/internal/tasks/archive.go:40-88 | an empty line or today's date is skipped; another line's day is reconciled and no other day changes |
| Archive.BackfilledVisit | apps/watchdog/internal/tasks/archive.go:45-88 | reconciling a visited line's day extends the pass by that line |
| Archive.BackfilledSkip | apps/watchdog/internal/tasks/archive.go:40-43 | a skipped line extends the pass without a change |
| Metadata.EmptyMeta | apps/watchdog/internal/api/types.go:12-25 | the zero value of the metadata record for a day |
| Remote.Unlist | apps/watchdog/internal/tasks/archive.go:128 | removes every listed entry of a name and nothing else |
| Remote.ListedCons | apps/watchdog/internal/tasks/archive.go:128 | a name is listed in an extended listing iff it is the new entry's name or listed before |
| Remote.Upload | apps/watchdog/internal/tasks/archive.go:212 | afterwards the name is listed (as a file), other names as before |
| Remote.WithMetadata | apps/watchdog/internal/tasks/archive.go:211-212 | the folder then lists `metadata.json` holding the document, all else unchanged |
| Remote.WithArchive | apps/watchdog/internal/tasks/archive.go:126-127 | the folder then lists the archive holding the packed WAL, all else unchanged |
| Remote.WithoutWal | apps/watchdog/internal/tasks/archive.go:128 | the folder then has no WAL folder or objects, all else unchanged |
| Remote.Store.constructor | apps/watchdog/internal/tasks/archive.go:45-49 | the store holds the given day folders |
| Remote.Store.PutMetadata | apps/watchdog/internal/tasks/archive.go:212 | replaces only that day's folder by its metadata update |
| Remote.Store.PutArchive | apps/watchdog/internal/tasks/archive.go:127 | replaces only that day's folder by its archive update |
| Remote.Store.PurgeWal | apps/watchdog/internal/tasks/archive.go:128 | replaces only that day's folder by its purged form |
| Remote.Notifier.constructor | apps/watchdog/internal/tasks/archive.go:25 | the outbox starts empty |
| Remote.Notifier.Send | apps/watchdog/internal/tasks/archive.go:242 | appends the message to the outbox |
| Times.ParseDate | apps/watchdog/internal/api/pitr_logic.go:42 | only a `YYYY-MM-DD` shaped string parses |
| Times.ParsedDateIsMidnight | apps/watchdog/internal/tasks/archive.go:180 | a parsed date is a UTC midnight |
| Times.ParsedDateAfter2000 | apps/watchdog/internal/api/pitr_logic.go:41-44 | a parsed date in year 2001 or later is past the year-2000 threshold |
| Times.ParsedDateAfterYear1 | apps/watchdog/internal/tasks/archive.go:201-203 | a parsed date in year 2 or later is past the year-1 threshold |
| Times.ParsedMidnight | apps/watchdog/internal/api/pitr_logic.go:42 | a parsed date has a month in 1..12, a day of at least 1, and is midnight of its fields |
| Times.MidnightAtLeast | apps/watchdog/internal/tasks/archive.go:180 | midnight of any day of a year is no earlier than the start of that year |
| Sorting.SortStrings | apps/watchdog/internal/api/pitr_logic.go:163 | the sorted names are ascending and a permutation of the input |
| Sorting.Sort | apps/watchdog/internal/api/pitr_logic.go:49-51 | the sorted entries are ordered by key and a permutation of the input |
| Sorting.Insert | apps/watchdog/internal/api/pitr_logic.go:163 | inserting into a sorted sequence keeps it sorted and adds exactly the element |
| Sorting.SortedUnique | apps/watchdog/internal/api/pitr_logic.go:163 | two ascending sequences with the same elements are equal |
| Strings.Fields | apps/watchdog/internal/api/snapshot_logic.go:64 | every field is a non-empty run without whitespace |
| Strings.FieldsJoin | apps/watchdog/internal/api/snapshot_logic.go:64 | words joined by single spaces split back into the same words |
| Strings.Split | apps/watchdog/internal/api/snapshot_logic.go:62 | the pieces contain no separator, and there is at least one |
| Strings.JoinSplit | convert_dump.py:20 | joining the pieces with the separator gives back the string |
| Strings.SplitJoin | apps/watchdog/internal/api/snapshot_logic.go:62 | separator-free pieces joined by the separator split back into the same pieces |
| Strings.ToLower | apps/watchdog/internal/monitor/logwatch.go:22-22 | the length is kept, no capital A-Z is left, each capital becomes its lower-case letter and every other character is unchanged |
| Strings.ToLowerSlice | apps/watchdog/internal/monitor/logwatch.go:22-22 | lowering a slice is slicing the lowered string |
| Strings.ToLowerIdempotent | apps/watchdog/internal/monitor/logwatch.go:22-26 | lowering an already lowered pattern or log changes nothing |
| Strings.ContainsLower | apps/watchdog/internal/monitor/logwatch.go:22-26 | an occurrence of a pattern in the log is still an occurrence once both are lowered |
| LogWatch.WrittenPatternReported | apps/watchdog/internal/monitor/logwatch.go:22-33 | a pattern occurring in the log as written, in any case, is reported unless the log is noisy |
| Strings.IndexOf | volumes/functions/passkey-auth/index.ts:305 | the first position where the pattern occurs, or none iff it does not occur |
| Hex.FormatHex | apps/watchdog/internal/api/pitr_logic.go:222 | the `%X`/`%x` digits have exactly the value formatted |
| Hex.PadZerosValue | apps/watchdog/internal/api/pitr_logic.go:222 | zero-padding keeps the hex value and the case |
| Hex.Hex8 | apps/watchdog/internal/api/pitr_logic.go:222 | `%08X` of a 32-bit value gives 8 uppercase hex digits with that value |
| NftSets.RenderFrame | apps/firewall-agent/syncer.go:86-105 | the text starts with `set NAME {` and ends with `    }` and `}` lines |
| NftSets.DecodeElementLines | apps/firewall-agent/syncer.go:92-102 | the element lines (the `0.0.0.0/32` placeholder when empty; indented, comma after all but the last) decode back to the elements |
| NftSets.DecodeRender | apps/firewall-agent/syncer.go:85-105 | for names and elements without newlines, the rendered file decodes back to exactly the elements, in order |
| NftSets.SetLinesNoNewline | apps/firewall-agent/syncer.go:86-105 | every rendered line is newline-free when the inputs are |
| NftSets.BuildSetText | apps/firewall-agent/syncer.go:86-107 | the builder produces exactly the rendered set text |
| NftSets.AppendElements | apps/firewall-agent/syncer.go:92-102 | the loop appends exactly the element lines |
| NftSets.WriteIfChanged | apps/firewall-agent/syncer.go:107-112 | unchanged content is not written; otherwise a failed open keeps the file, a failed write or close leaves a prefix of the content and reports the error, and a success leaves the content; no other path changes |
| NftSets.Partial | apps/firewall-agent/syncer.go:112-112 | what an interrupted write leaves is a prefix of the content |
| NftSets.WriteTwiceWritesOnce | apps/firewall-agent/syncer.go:107-112 | a second identical call writes again only when the first left the file cut short, and writes nothing once the first succeeded |
| NftSets.FileSystem.constructor | apps/firewall-agent/syncer.go:108 | the file system holds the given files and no writes yet |
| NftSets.FileSystem.WriteSetFile | apps/firewall-agent/syncer.go:85-113 | the file system changes as the write-if-changed rule says, and a write is recorded only when one happens |
| NftSets.RunJobsSuccess | apps/firewall-agent/syncer.go:53-64 | when every write succeeds, each set file holds its rendered text |
| NftSets.RunJobsFailure | apps/firewall-agent/syncer.go:53-61 | an error comes from the first failing job, whose predecessors succeeded; the files are as that job's failed write left them |
| NftSets.FailedLater | apps/firewall-agent/syncer.go:53-61 | a failure at job k after a successful first job is a failure at job k + 1 of the whole run |
| NftSets.RunJobsIdempotent | apps/firewall-agent/syncer.go:53-112 | repeating a successful sync writes nothing and changes nothing |
| NftSets.AllHeldUnchanged | apps/firewall-agent/syncer.go:107-112 | when all files already hold their text, the sync writes nothing |
| NftSets.RunJobsKeeps | apps/firewall-agent/syncer.go:53-61 | files that no job targets are untouched |
| NftSets.RunJobsCons | apps/firewall-agent/syncer.go:53-61 | a run stops at a failing first job with the files its write left; after a successful one it continues with the rest and records the write only when one happened |
| NftSets.RunThree | apps/firewall-agent/syncer.go:53-61 | a run of three jobs gives, step by step, the error and files of the first failing write, or the files after all three, with the writes made |
| NftSets.SyncRun | apps/firewall-agent/syncer.go:53-61 | the whitelist, bypass and block files are written in that order, with the same first-error result |
| NftSets.WriteSets | apps/firewall-agent/syncer.go:53-61 | writes whitelist, bypass, then block in order, stopping at the first error |
| NftSets.Sync | apps/firewall-agent/syncer.go:22-65 | a failed query returns its error before any write; otherwise the three writes as above |
| LogWatch.MatchingMembers | apps/watchdog/internal/monitor/logwatch.go:25-33 | a pattern is reported iff it is one of the patterns, its lower case occurs in the log, and the log has no noise marker |
| LogWatch.NoisyReportsNothing | apps/watchdog/internal/monitor/logwatch.go:28-30 | a log with a noise marker reports nothing |
| LogWatch.MatchingAppend | apps/watchdog/internal/monitor/logwatch.go:25-33 | matching keeps pattern order |
| LogWatch.MatchingDistinct | apps/watchdog/internal/monitor/logwatch.go:25-33 | distinct patterns give distinct matches |
| LogWatch.PatternsDistinct | apps/watchdog/internal/monitor/logwatch.go:13 | the six configured patterns are distinct |
| LogWatch.MatchPatterns | apps/watchdog/internal/monitor/logwatch.go:22-33 | the loop produces exactly the matches of the lower-cased log |
| LogWatch.AlertIffSomePattern | apps/watchdog/internal/monitor/logwatch.go:25-37 | there is a match iff the log is not noisy and some pattern occurs |
| LogWatch.CheckLogs | apps/watchdog/internal/monitor/logwatch.go:17-37 | a failed `docker logs` sends nothing; otherwise an alert listing the matches is sent iff there is one |
| ConvertDump.FieldItem | convert_dump.py:25-30 | `\N` is null; an all-digit field (a trailing newline allowed) is a number carrying the field; anything else is quoted text carrying the field |
| ConvertDump.FieldItemInverse | convert_dump.py:25-30 | the item carries its field back |
| ConvertDump.FieldItems | convert_dump.py:24-30 | one item per field |
| ConvertDump.ItemTexts | convert_dump.py:24-31 | one text per item |
| ConvertDump.ConvertLineToValues | convert_dump.py:14-31 | the loop produces exactly the converted tuple, or none for skipped lines |
| ConvertDump.TextsSnoc | convert_dump.py:24-31 | the texts of one more field are the earlier texts followed by that field's text |
| ConvertDump.FindChar | convert_dump.py:31 | finds the first occurrence of a character |
| ConvertDump.DecodeJoin | convert_dump.py:31 | a `, `-joined list of readable item texts decodes to the items |
| ConvertDump.ItemEndAt | convert_dump.py:29-31 | a readable item's text followed by nothing or a comma is cut exactly where that text ends |
| ConvertDump.DecodeHead | convert_dump.py:31 | an item's text, `, ` and the text of further items decode to the item followed by those items |
| ConvertDump.ConvertLineRoundTrip | convert_dump.py:16-31 | for a kept line without quotes, the tuple decodes to one item per tab-separated field, in order, and these fields rejoin to the stripped line |
| ConvertDump.QuotesNotEscaped | convert_dump.py:29-30 | two different lines, one with a quote-comma-quote inside a field, give the same tuple |
| ConvertDump.QuotedLine | convert_dump.py:14-31 | a line holding a quote-comma-quote becomes a single quoted item |
| ConvertDump.TwoFieldLine | convert_dump.py:14-31 | a line of two tab-separated text fields becomes two quoted items joined by `, ` |
| ConvertDump.ValuesMembers | convert_dump.py:38-41 | a tuple is emitted iff some line converts to it |
| ConvertDump.ValuesAppend | convert_dump.py:38-41 | the tuples keep line order |
| ConvertDump.CollectMembers | convert_dump.py:38-41 | for any line converter, a result is collected iff some line converts to it |
| ConvertDump.CollectAppend | convert_dump.py:38-41 | collecting two runs of lines gives the concatenation of the two results |
| ConvertDump.CollectSnoc | convert_dump.py:38-41 | one more line adds its result at the end, or nothing when it is skipped |
| ConvertDump.CollectValues | convert_dump.py:36-41 | the loop over the lines collects exactly the tuples of the kept lines, in order |
| ConvertDump.ConvertDumpLines | convert_dump.py:33-43 | the output is the header, the tuples joined by `,\n`, then `;\n` |
| Passkey.ByteHex | volumes/functions/passkey-auth/index.ts:54 | two lowercase hex digits with the byte's value |
| Passkey.BytesToHex | volumes/functions/passkey-auth/index.ts:53-55 | 2n lowercase hex characters |
| Passkey.BytesToHexPair | volumes/functions/passkey-auth/index.ts:53-55 | characters 2k..2k+1 are the digits of byte k |
| Passkey.HexBytes | volumes/functions/passkey-auth/index.ts:57-63 | the decoded array has half the hex length |
| Passkey.HexToUint8Array | volumes/functions/passkey-auth/index.ts:57-63 | the loop fills a fresh array with exactly the decoded bytes |
| Passkey.PieceByte | volumes/functions/passkey-auth/index.ts:59-61 | the two characters at 2k parse to byte k of the decoded array |
| Passkey.ParseByteHex | volumes/functions/passkey-auth/index.ts:60 | `parseInt(.., 16)` of a byte's two digits is the byte |
| Passkey.HexBytesAt | volumes/functions/passkey-auth/index.ts:53-63 | byte k decodes from characters 2k..2k+1 |
| Passkey.HexRoundTrip | volumes/functions/passkey-auth/index.ts:53-63 | decoding the hex of bytes gives the bytes back |
| Passkey.PrefixRoundTrip | volumes/functions/passkey-auth/index.ts:305 | removing the first `\x` from the stored form gives back the hex |
| Passkey.StoredKeyRoundTrip | volumes/functions/passkey-auth/index.ts:305-306 | reading a stored key back gives the public key bytes |
| Passkey.ToUrlChars | volumes/functions/passkey-auth/index.ts:50 | the character replacement keeps the length |
| Passkey.Unpadded | volumes/functions/passkey-auth/index.ts:48-51 | base64url of n bytes has 4(n div 3) characters plus 0, 2 or 3, all from the URL alphabet |
| Passkey.UrlGroup | volumes/functions/passkey-auth/index.ts:48-51 | a group of three bytes encodes to four URL-alphabet characters |
| Passkey.GroupUrl | volumes/functions/passkey-auth/index.ts:48-51 | replacing `+` and `/` in a standard group gives the URL-safe group |
| Passkey.GroupUrlChars | volumes/functions/passkey-auth/index.ts:48-51 | after the replacement, the first full group is the URL-safe group followed by the replaced rest |
| Passkey.ShortUrlChars | volumes/functions/passkey-auth/index.ts:48-51 | after the replacement, a trailing one- or two-byte group is its unpadded form followed by `==` or `=` |
| Passkey.TrimPadding | volumes/functions/passkey-auth/index.ts:51 | trimming the `=` run removes exactly the padding of a group that does not end in `=` |
| Passkey.Base64UrlIsUnpadded | volumes/functions/passkey-auth/index.ts:48-51 | standard base64 with `+`, `/` replaced and `=` trimmed is the unpadded URL-safe encoding |
| Passkey.Base64UrlShape | volumes/functions/passkey-auth/index.ts:48-51 | the output has that length and no `+`, `/` or `=` |
| Passkey.GroupRoundTrip | volumes/functions/passkey-auth/index.ts:48-51 | the four sextets of three bytes regroup into the three bytes |
| Passkey.DecodeUnpaddedRoundTrip | volumes/functions/passkey-auth/index.ts:48-51 | decoding the unpadded encoding gives the bytes back |
| Passkey.Base64UrlRoundTrip | volumes/functions/passkey-auth/index.ts:48-51 | decoding `uint8ArrayToBase64Url` gives the bytes back |
| Passkey.GenerateWebAuthnUserId | volumes/functions/passkey-auth/index.ts:65-69 | the user id of 32 random bytes has 43 characters and decodes back to those bytes |

## Left out

- Every external command is left out and replaced by the abstract store and the success parameter `ok`:
  - `docker exec … rclone` (list, cat, copy, copyto, purge);
  - `tar`;
  - `docker logs`.
- JSON encoding and decoding are left out. A failed decode of `metadata.json` is one outcome of the `CatMeta` step.
- The time library is left out. Only `time.Parse("2006-01-02")` is modelled, as `Times.ParseDate` to UTC midnight; the year ≤ 2000 and year ≤ 1 tests are comparisons with fixed instants.
- Time formatting is left out. `Remote.Text` takes the formatting of `ValidUntil` as a parameter.
- Reading the clock is left out; "today" and "now" are parameters.
- Concurrency is left out:
  - `cacheMutex`, goroutines, the cron job and the ticker loops;
  - `RunArchiveYesterday`, which only computes yesterday's date.
- The cache is modelled single-threaded.
- Map iteration order in `findTimestamp` is not fixed; `Continuity.FindTimestamp` may return the time of any matching entry.
- Local staging directories are not modelled: their creation, removal and leftovers. Nor is a partial `rclone copy`: copying the WAL either succeeds whole or yields nothing.
- `f.Info()` failing for a local file is not modelled. Such a file would also get the fallback time, which the model gives only to times up to year 2000.
- `rclone lsf` output is modelled as plain newline-separated directory names with a trailing `/`.
- Telegram delivery is left out. `Remote.Notifier` only records the message sequence, so the drop-when-full channel buffer is not modelled.
- The queue, service, base-backup, backup, cleanup, docker and disk monitors are not part of this model.
- In the firewall agent, the database queries of `collectIPs` are not modelled. Each set's query result is a `Result` parameter of `NftSets.Sync`.
- `NftSets.WriteIfChanged`: an `os.ReadFile` error counts as changed content, as in the code. A missing path then means a write. Other read errors are not separated from that case.
- How `os.WriteFile` fares is a parameter of the path (`NftSets.WriteFault`). A failed open leaves the file as it was; a failed write or close leaves a prefix of the new text, whose length is part of the parameter.
- White space follows each language's full set:
  - `Strings.GoSpace` is Go's `unicode.IsSpace`. It is used for `strings.Fields`, `strings.TrimSpace` and fmt's scanner.
  - `Strings.PySpace` adds U+001C to U+001F for Python's `str.strip`.
  - `Passkey.JsSpace` is JavaScript's white space and line terminators.
- Names are sequences of characters, and `|name|` counts characters. Go's `len(name)`, `name[:16]` and `name[:24]` count UTF-8 bytes (`pitr_logic.go:156-160`, `:217-218`; `archive.go:183`). The two agree only for ASCII names; PostgreSQL segment names are ASCII. For a name with non-ASCII characters, "24 characters" in the rows above does not mean 24 bytes, and the model may keep or drop a name differently from the code.
- `Continuity.CalculateContinuity`, `Continuity.CollectSegments` and the live path of `PitrApi.Resolver.GetContiguousWALRange` use the corrected `.partial` cut of the Findings table. For a short `.partial` name they return a record where the code panics.
- Two character classes are ASCII only:
  - Go's `strings.ToLower` is modelled on ASCII letters.
  - Python's `\d` is modelled on ASCII digits, where Python also accepts other Unicode decimal digits.
- In `convert_dump.py`, the file I/O is left out; the input is a sequence of lines, each keeping its newline. Universal-newline translation is not modelled.
- In the passkey function, the HTTP handlers, the Supabase client and the WebAuthn library are left out.
- `crypto.getRandomValues` is left out; the random bytes are the parameter of `Passkey.GenerateWebAuthnUserId`.
- JavaScript `Number.parseInt` is modelled only for the cases used here:
  - leading white space;
  - a sign;
  - a `0x` prefix;
  - the longest run of hex digits;
  - NaN for none, stored as 0 in a `Uint8Array`.
- How Postgres returns a `bytea` column is left out; the stored key is the string `\x` + hex.

## Findings

| source | as written | input that shows it | evidently intended | confidence | as-written member | corrected member |
|---|---|---|---|---|---|---|
| apps/watchdog/internal/api/pitr_logic.go:156-157 | a name containing `.partial` is cut with `name[:24]`, which panics when the name is shorter than 24 characters | an object named `a.partial` in the day's WAL folder | such a name is not a segment and should be skipped, as the length check on the next line does for other short names | not executed | Continuity.PartialCutPanics | Continuity.ShortPartialIgnored |
| apps/watchdog/internal/api/snapshot_logic.go:55-67 | the `rclone lsf --format ps` output is split into fields at white space, but lsf separates path and size with `;` by default | a listing line `db_20240101.sql.gz;1234` | split each line at `;`, so every file is listed with its size | not executed | Snapshots.LsfLineSkipped | Snapshots.LsfLineRoundTrip |
