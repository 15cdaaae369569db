/** The PITR API: the day listings and the metadata resolver with its
    process-wide cache (apps/watchdog/internal/api/pitr_logic.go,
    apps/watchdog/internal/api/snapshot_logic.go). */
module PitrApi {

  import opened Wrappers
  import opened Sorting
  import opened Times
  import opened Metadata
  import opened Remote
  import opened Continuity

  // ---------------------------------------------------------------------
  // Day listings (ListPitrDays, ListSnapshotDays)
  // ---------------------------------------------------------------------

  /** The timestamp shown for a day folder: a modification time in a year up
      to 2000 is a placeholder, replaced by 05:00 UTC of the folder's date when
      the name parses as one. */
  function ShownTimestamp(item: Item): Time {
    if YearAtMost2000(item.modTime) && ParseDate(item.name).Some? then
      ParseDate(item.name).value + 5 * Hour
    else item.modTime
  }

  function EntryOf(item: Item): DayEntry {
    DayEntry(item.name, ShownTimestamp(item))
  }

  function DateKey(e: DayEntry): string { e.date }

  /** A real modification time is shown as it is; a placeholder on a folder
      named after a date after 2000 is replaced by a time that is no
      placeholder; a placeholder on any other name stays. */
  lemma ShownTimestampFixes(item: Item)
    ensures !YearAtMost2000(item.modTime) ==> ShownTimestamp(item) == item.modTime
    ensures ParseDate(item.name).None? ==> ShownTimestamp(item) == item.modTime
    ensures YearAtMost2000(item.modTime) && ParseDate(item.name).Some? && YearOf(item.name) >= 2001 ==>
              !YearAtMost2000(ShownTimestamp(item)) && ShownTimestamp(item) == ParseDate(item.name).value + 5 * Hour
  {
    if YearAtMost2000(item.modTime) && ParseDate(item.name).Some? && YearOf(item.name) >= 2001 {
      ParsedDateAfter2000(item.name);
    }
  }

  /** Lines 26-52 of pitr_logic.go and 16-47 of snapshot_logic.go: `listing`
      is the decoded `rclone lsjson --dirs-only` output, None when the command
      or the decoding fails (which yields an empty list, not an error). */
  method ListDays(listing: Option<seq<Item>>) returns (days: seq<DayEntry>)
    ensures listing.None? ==> days == []
    ensures listing.Some? ==> SortedBy(days, DateKey, true)
    ensures listing.Some? ==>
              multiset(days) == multiset(seq(|listing.value|, i requires 0 <= i < |listing.value| => EntryOf(listing.value[i])))
  {
    if listing.None? {
      return [];
    }
    var items := listing.value;
    var built: seq<DayEntry> := [];
    var i := 0;
    while i < |items|
      invariant 0 <= i <= |items|
      invariant built == seq(i, k requires 0 <= k < i => EntryOf(items[k]))
    {
      var ts := items[i].modTime;
      if YearAtMost2000(ts) {
        var parsed := ParseDate(items[i].name);
        if parsed.Some? {
          ts := parsed.value + 5 * Hour;
        }
      }
      built := built + [DayEntry(items[i].name, ts)];
      i := i + 1;
    }
    days := Sort(built, DateKey, true);
  }

  // ---------------------------------------------------------------------
  // Reading a day folder
  // ---------------------------------------------------------------------

  /** The modification time of the last entry called `name`. */
  function LastModTime(items: seq<Item>, name: string): (r: Option<Time>)
    ensures r.Some? <==> Listed(items, name)
    ensures r.Some? ==>
              exists i :: 0 <= i < |items| && items[i].name == name && items[i].modTime == r.value
                          && forall j :: i < j < |items| ==> items[j].name != name
    decreases |items|
  {
    if |items| == 0 then None
    else if items[|items| - 1].name == name then Some(items[|items| - 1].modTime)
    else
      var r := LastModTime(items[..|items| - 1], name);
      assert forall i :: 0 <= i < |items| - 1 ==> items[..|items| - 1][i] == items[i];
      r
  }

  /** Lines 81-93: the presence flags of a day listing, and the base backup's
      time (the last `base.tar.gz` entry wins). */
  method ScanDayListing(items: seq<Item>) returns (hasMetadata: bool, hasBase: bool, baseTime: Time)
    ensures hasMetadata <==> Listed(items, MetadataName)
    ensures hasBase <==> Listed(items, BaseName)
    ensures baseTime == (if hasBase then LastModTime(items, BaseName).value else ZeroTime)
  {
    hasMetadata, hasBase, baseTime := false, false, ZeroTime;
    var i := 0;
    while i < |items|
      invariant 0 <= i <= |items|
      invariant hasMetadata <==> Listed(items[..i], MetadataName)
      invariant hasBase <==> Listed(items[..i], BaseName)
      invariant baseTime == (if hasBase then LastModTime(items[..i], BaseName).value else ZeroTime)
    {
      assert items[..i + 1] == items[..i] + [items[i]];
      assert items[..i + 1][..i] == items[..i];
      ListedSnoc(items[..i], items[i], MetadataName);
      ListedSnoc(items[..i], items[i], BaseName);
      if items[i].name == MetadataName {
        hasMetadata := true;
      }
      if items[i].name == BaseName {
        hasBase := true;
        baseTime := items[i].modTime;
      }
      i := i + 1;
    }
    assert items[..i] == items;
  }

  /** Lines 118-127: the WAL listing as a map; a later entry of the same
      name overrides an earlier one. */
  function WalMapOf(items: seq<Item>): (m: WalMap)
    ensures forall k :: k in m <==> Listed(items, k)
    ensures forall k :: k in m ==> m[k] == LastModTime(items, k).value
    decreases |items|
  {
    if |items| == 0 then map[]
    else
      var init := items[..|items| - 1];
      var last := items[|items| - 1];
      assert items == init + [last];
      forall k ensures Listed(items, k) <==> Listed(init, k) || last.name == k {
        ListedSnoc(init, last, k);
      }
      WalMapOf(init)[last.name := last.modTime]
  }

  method BuildWalMap(items: seq<Item>) returns (m: WalMap)
    ensures m == WalMapOf(items)
  {
    m := map[];
    var i := 0;
    while i < |items|
      invariant 0 <= i <= |items|
      invariant m == WalMapOf(items[..i])
    {
      assert items[..i + 1][..i] == items[..i];
      m := m[items[i].name := items[i].modTime];
      i := i + 1;
    }
    assert items[..i] == items;
  }

  // ---------------------------------------------------------------------
  // The resolver
  // ---------------------------------------------------------------------

  const FolderNotFound := "day folder not found on Dropbox"
  const BaseMissing := "base.tar.gz missing"

  /** GetContiguousWALRange and the metadataCache it keeps between calls. */
  class Resolver {
    var cache: map<string, PitrMetadata>
    /** The days whose cache entry was computed by a live scan. */
    ghost var liveDays: set<string>

    /** Entries from a live scan are continuous and not archived; entries
        copied from a stored metadata.json may be anything. */
    ghost predicate Valid()
      reads this
    {
      LiveEntries(cache, liveDays)
    }

    constructor()
      ensures Valid() && cache == map[] && liveDays == {}
    {
      cache := map[];
      liveDays := {};
    }

    /** Resolve the recovery window of `day`: the cache (past days only), then
        the stored metadata.json, then a live scan of the raw WAL folder. */
    method GetContiguousWALRange(store: Store, day: string, today: string, ok: Outcome)
      returns (m: PitrMetadata, err: Option<string>)
      requires Valid()
      modifies this
      ensures Valid()
      // a cache hit answers without looking at the store
      ensures day != today && day in old(cache) ==>
        m == old(cache)[day] && err == None && cache == old(cache)
      ensures !(day != today && day in old(cache)) ==> Resolved(store.days, day, today, ok, old(cache), m, err, cache)
    {
      if day != today && day in cache {
        return cache[day], None;
      }
      m, err := Resolve(store, day, today, ok);
    }

    /** Lines 69-139: everything after a cache miss. */
    method Resolve(store: Store, day: string, today: string, ok: Outcome)
      returns (m: PitrMetadata, err: Option<string>)
      requires Valid()
      modifies this
      ensures Valid()
      ensures Resolved(store.days, day, today, ok, old(cache), m, err, cache)
    {
      if !ok(day, ListDay) || day !in store.days {
        return EmptyMeta(day), Some(FolderNotFound);
      }
      var folder := store.days[day];
      var hasMetadata, hasBase, baseTime := ScanDayListing(folder.items);
      if hasMetadata && ok(day, CatMeta) && folder.metadataDoc.Some? {
        m := folder.metadataDoc.value;
        ResolvedStored(store.days, day, today, ok, cache, m);
        LiveEntriesDrop(cache, liveDays, day, m);
        cache := cache[day := m];
        liveDays := liveDays - {day};
        return m, None;
      }
      if !hasBase {
        ResolvedNoBase(store.days, day, today, ok, cache);
        return EmptyMeta(day).(baseBackup := "NOT_FOUND"), Some(BaseMissing);
      }
      m := LiveScan(folder, day, baseTime, ok);
      ResolvedLive(store.days, day, today, ok, cache, m);
      if day != today && m.continuous {
        LiveEntriesAdd(cache, liveDays, day, m);
        cache := cache[day := m];
        liveDays := liveDays + {day};
      }
      err := None;
    }
  }

  /** Entries from a live scan are continuous and not archived; entries
      copied from a stored metadata.json may be anything. */
  ghost predicate LiveEntries(cache: map<string, PitrMetadata>, liveDays: set<string>) {
    forall d :: d in liveDays ==> d in cache && cache[d].continuous && !cache[d].isArchived
  }

  /** Caching a stored answer makes its day no longer a live entry. */
  lemma LiveEntriesDrop(cache: map<string, PitrMetadata>, liveDays: set<string>, day: string, m: PitrMetadata)
    requires LiveEntries(cache, liveDays)
    ensures LiveEntries(cache[day := m], liveDays - {day})
  {
  }

  /** Caching a continuous, unarchived live answer keeps the live entries valid. */
  lemma LiveEntriesAdd(cache: map<string, PitrMetadata>, liveDays: set<string>, day: string, m: PitrMetadata)
    requires LiveEntries(cache, liveDays) && m.continuous && !m.isArchived
    ensures LiveEntries(cache[day := m], liveDays + {day})
  {
  }

  lemma ResolvedStored(days: map<string, DayFolder>, day: string, today: string, ok: Outcome,
                       cache0: map<string, PitrMetadata>, m: PitrMetadata)
    requires ok(day, ListDay) && day in days && StoredAnswer(days[day], day, ok)
    requires m == days[day].metadataDoc.value
    ensures Resolved(days, day, today, ok, cache0, m, None, cache0[day := m])
  {
  }

  lemma ResolvedNoBase(days: map<string, DayFolder>, day: string, today: string, ok: Outcome,
                       cache0: map<string, PitrMetadata>)
    requires ok(day, ListDay) && day in days && !StoredAnswer(days[day], day, ok)
    requires !Listed(days[day].items, BaseName)
    ensures Resolved(days, day, today, ok, cache0, EmptyMeta(day).(baseBackup := "NOT_FOUND"), Some(BaseMissing), cache0)
  {
  }

  lemma ResolvedLive(days: map<string, DayFolder>, day: string, today: string, ok: Outcome,
                     cache0: map<string, PitrMetadata>, m: PitrMetadata)
    requires ok(day, ListDay) && day in days && !StoredAnswer(days[day], day, ok)
    requires Listed(days[day].items, BaseName)
    requires ContinuityResult(day, LiveWalMap(days[day], day, ok), LastModTime(days[day].items, BaseName).value, m)
    ensures Resolved(days, day, today, ok, cache0, m, None, if day != today && m.continuous then cache0[day := m] else cache0)
  {
  }

  /** A listed metadata.json that can be read and decoded answers the request. */
  predicate StoredAnswer(f: DayFolder, day: string, ok: Outcome) {
    Listed(f.items, MetadataName) && ok(day, CatMeta) && f.metadataDoc.Some?
  }

  /** The WAL map of the live scan: empty when the WAL listing fails. */
  function LiveWalMap(f: DayFolder, day: string, ok: Outcome): WalMap {
    if ok(day, ListWal) then WalMapOf(f.wal) else map[]
  }

  /** Lines 118-130: the live scan of a day folder with a base backup. */
  method LiveScan(f: DayFolder, day: string, baseTime: Time, ok: Outcome) returns (m: PitrMetadata)
    ensures ContinuityResult(day, LiveWalMap(f, day, ok), baseTime, m) && !m.isArchived
  {
    var walMap := map[];
    if ok(day, ListWal) {
      walMap := BuildWalMap(f.wal);
    }
    m := CalculateContinuity(day, walMap, baseTime);
    ContinuityNotArchived(day, walMap, baseTime, m);
    assert m.(isArchived := false) == m;
    m := m.(isArchived := false);
  }

  /** The answer and the new cache when the cache does not answer. */
  ghost predicate Resolved(days: map<string, DayFolder>, day: string, today: string, ok: Outcome,
                           cache0: map<string, PitrMetadata>,
                           m: PitrMetadata, err: Option<string>, cache: map<string, PitrMetadata>)
  {
    if !ok(day, ListDay) || day !in days then
      m == EmptyMeta(day) && err == Some(FolderNotFound) && cache == cache0
    else
      var f := days[day];
      if StoredAnswer(f, day, ok) then
        m == f.metadataDoc.value && err == None && cache == cache0[day := m]
      else if !Listed(f.items, BaseName) then
        m == EmptyMeta(day).(baseBackup := "NOT_FOUND") && err == Some(BaseMissing) && cache == cache0
      else
        ContinuityResult(day, LiveWalMap(f, day, ok), LastModTime(f.items, BaseName).value, m)
        && err == None
        && cache == (if day != today && m.continuous then cache0[day := m] else cache0)
  }

  /** Whatever path answers, a live answer is never marked archived, and an
      error answer carries the day. */
  lemma ResolvedShape(days: map<string, DayFolder>, day: string, today: string, ok: Outcome,
                      cache0: map<string, PitrMetadata>, m: PitrMetadata, err: Option<string>,
                      cache: map<string, PitrMetadata>)
    requires Resolved(days, day, today, ok, cache0, m, err, cache)
    ensures err.Some? ==> m.date == day && !m.continuous && cache == cache0
    ensures err == Some(BaseMissing) ==> m.baseBackup == "NOT_FOUND"
    ensures err.None? && cache != cache0 ==> day in cache && cache[day] == m
    ensures err.None? && day in days && !StoredAnswer(days[day], day, ok) ==> !m.isArchived && m.date == day
  {
  }

  /** Today's answer is never cached by the live path. */
  lemma TodayNotCachedLive(days: map<string, DayFolder>, day: string, ok: Outcome,
                           cache0: map<string, PitrMetadata>, m: PitrMetadata, err: Option<string>,
                           cache: map<string, PitrMetadata>)
    requires day in days && ok(day, ListDay)
    requires !StoredAnswer(days[day], day, ok)
    requires Resolved(days, day, day, ok, cache0, m, err, cache)
    ensures cache == cache0
  {
  }
}
