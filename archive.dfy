/** The startup consistency pass over the day folders of the WAL remote and
    the healing actions it dispatches (apps/watchdog/internal/tasks/archive.go). */
module Archive {

  import opened Wrappers
  import opened Strings
  import opened Times
  import opened Metadata
  import opened Remote
  import opened Continuity
  import opened PitrApi

  // ---------------------------------------------------------------------
  // The classifier (lines 51-88)
  // ---------------------------------------------------------------------

  datatype Presence = Presence(hasArchive: bool, hasMetadata: bool, hasWalDir: bool, hasBase: bool)

  /** What a day listing holds; the WAL entry counts only as a directory. */
  function PresenceOf(items: seq<Item>): Presence {
    Presence(Listed(items, ArchiveName), Listed(items, MetadataName),
             ListedDir(items, WalDirName), Listed(items, BaseName))
  }

  /** Lines 51-62: the presence flags and the base backup's time, in one pass. */
  method ScanItems(items: seq<Item>) returns (p: Presence, baseTime: Time)
    ensures p == PresenceOf(items)
    ensures baseTime == (if p.hasBase then LastModTime(items, BaseName).value else ZeroTime)
  {
    var hasArchive, hasMetadata, hasWalDir, hasBase := false, false, false, false;
    baseTime := ZeroTime;
    var i := 0;
    while i < |items|
      invariant 0 <= i <= |items|
      invariant PresenceOf(items[..i]) == Presence(hasArchive, hasMetadata, hasWalDir, hasBase)
      invariant baseTime == (if hasBase then LastModTime(items[..i], BaseName).value else ZeroTime)
    {
      var item := items[i];
      assert items[..i + 1] == items[..i] + [item];
      assert items[..i + 1][..i] == items[..i];
      ListedSnoc(items[..i], item, ArchiveName);
      ListedSnoc(items[..i], item, MetadataName);
      ListedSnoc(items[..i], item, BaseName);
      ListedDirSnoc(items[..i], item, WalDirName);
      if item.name == ArchiveName { hasArchive := true; }
      if item.name == MetadataName { hasMetadata := true; }
      if item.name == BaseName {
        hasBase := true;
        baseTime := item.modTime;
      }
      if item.name == WalDirName && item.isDir { hasWalDir := true; }
      i := i + 1;
    }
    assert items[..i] == items;
    p := Presence(hasArchive, hasMetadata, hasWalDir, hasBase);
  }

  datatype Action = Healthy | HealMetadata | ArchiveRaw | TotalLoss | NoAction

  /** The first matching rule of lines 64-88. */
  function Classify(p: Presence): (a: Action)
    ensures a == Healthy <==> p.hasArchive && p.hasMetadata && p.hasBase
    ensures a == HealMetadata <==> p.hasArchive && !p.hasMetadata
    ensures a == ArchiveRaw <==> !p.hasArchive && !p.hasMetadata && p.hasWalDir
    ensures a == TotalLoss <==> !p.hasArchive && !p.hasMetadata && !p.hasWalDir
  {
    if p.hasArchive && p.hasMetadata && p.hasBase then Healthy
    else if p.hasArchive && !p.hasMetadata then HealMetadata
    else if !p.hasArchive && !p.hasMetadata && p.hasWalDir then ArchiveRaw
    else if !p.hasArchive && !p.hasMetadata && !p.hasWalDir then TotalLoss
    else NoAction
  }

  /** The combinations no rule covers: metadata present without an archive,
      or archive and metadata present without a base backup. */
  lemma NoActionCases(p: Presence)
    ensures Classify(p) == NoAction <==> p.hasMetadata && !(p.hasArchive && p.hasBase)
  {
  }

  /** With metadata.json present, no healing action is taken. */
  lemma MetadataSettles(p: Presence)
    requires p.hasMetadata
    ensures Classify(p) == Healthy || Classify(p) == NoAction
  {
  }

  /** A day whose listing fails looks empty, and is reported as a total loss. */
  lemma FailedListingIsTotalLoss()
    ensures Classify(PresenceOf([])) == TotalLoss
  {
  }

  // ---------------------------------------------------------------------
  // scanAndUpload (lines 175-215)
  // ---------------------------------------------------------------------

  /** Line 180: midnight UTC of the day's date, or the zero time when the
      date does not parse (the error is ignored). */
  function Fallback(date: string): (t: Time)
    ensures ParseDate(date).Some? ==> t == ParseDate(date).value
    ensures ParseDate(date).None? ==> t == ZeroTime
  {
    match ParseDate(date)
    case Some(t) => t
    case None => ZeroTime
  }

  /** The time recorded for a local WAL file: its own modification time when
      that is after 2000, else the fallback. */
  function LocalTime(modTime: Time, date: string): Time {
    if YearAtMost2000(modTime) then Fallback(date) else modTime
  }

  /** Lines 182-192: files with names of 24 characters or more, with their
      (corrected) times; a later entry of the same name overrides. */
  function LocalWalMap(entries: seq<Item>, date: string): (m: WalMap)
    ensures forall k :: k in m <==> |k| >= 24 && Listed(entries, k)
    ensures forall k :: k in m ==> m[k] == LocalTime(LastModTime(entries, k).value, date)
    decreases |entries|
  {
    if |entries| == 0 then map[]
    else
      var init := entries[..|entries| - 1];
      var last := entries[|entries| - 1];
      assert entries == init + [last];
      forall k ensures Listed(entries, k) <==> Listed(init, k) || last.name == k {
        ListedSnoc(init, last, k);
      }
      var m := LocalWalMap(init, date);
      if |last.name| >= 24 then m[last.name := LocalTime(last.modTime, date)] else m
  }

  method BuildLocalWalMap(entries: seq<Item>, date: string) returns (m: WalMap)
    ensures m == LocalWalMap(entries, date)
  {
    var fallback := Fallback(date);
    m := map[];
    var i := 0;
    while i < |entries|
      invariant 0 <= i <= |entries|
      invariant m == LocalWalMap(entries[..i], date)
    {
      assert entries[..i + 1][..i] == entries[..i];
      var f := entries[i];
      if |f.name| >= 24 {
        if !YearAtMost2000(f.modTime) {
          m := m[f.name := f.modTime];
        } else {
          m := m[f.name := fallback];
        }
      }
      i := i + 1;
    }
    assert entries[..i] == entries;
  }

  /** Lines 197-206: the archived record. */
  function Patched(r: PitrMetadata, date: string): (p: PitrMetadata)
    ensures p.isArchived && p.baseBackup == BaseName
    ensures p.baseBackupTimestamp == (if r.baseBackupTimestamp == ZeroTime then Fallback(date) else r.baseBackupTimestamp)
    ensures p.validUntil == (if r.validUntil == ZeroTime || YearAtMost1(r.validUntil) then Fallback(date) else r.validUntil)
    ensures p.date == r.date && p.timeline == r.timeline && p.continuous == r.continuous
    ensures p.missingSegments == r.missingSegments
    ensures p.walStartSegment == r.walStartSegment && p.walEndSegment == r.walEndSegment
    ensures p.walStartTimestamp == r.walStartTimestamp && p.walEndTimestamp == r.walEndTimestamp
  {
    var bbt := if r.baseBackupTimestamp == ZeroTime then Fallback(date) else r.baseBackupTimestamp;
    var vu := if r.validUntil == ZeroTime || YearAtMost1(r.validUntil) then Fallback(date) else r.validUntil;
    r.(baseBackupTimestamp := bbt, validUntil := vu, isArchived := true, baseBackup := BaseName)
  }

  /** For a day named by a date after year 1 the archived record never shows
      a zero base time or a year-1 end of window. */
  lemma PatchedWindowDated(r: PitrMetadata, date: string)
    requires ParseDate(date).Some? && YearOf(date) >= 2
    ensures Patched(r, date).baseBackupTimestamp != ZeroTime
    ensures !YearAtMost1(Patched(r, date).validUntil)
  {
    ParsedDateAfterYear1(date);
  }

  /** What scanAndUpload computes from the local WAL files. */
  ghost predicate ScannedMeta(date: string, entries: seq<Item>, base: Time, meta: PitrMetadata) {
    exists r :: ContinuityResult(date, LocalWalMap(entries, date), base, r) && meta == Patched(r, date)
  }

  /** Lines 176-206: the continuity of the local WAL files, patched as archived. */
  method ScanLocal(date: string, entries: seq<Item>, base: Time) returns (meta: PitrMetadata)
    ensures ScannedMeta(date, entries, base, meta)
  {
    var walMap := BuildLocalWalMap(entries, date);
    var r := CalculateContinuity(date, walMap, base);
    meta := Patched(r, date);
    ScannedFrom(date, entries, base, r);
  }

  lemma ScannedFrom(date: string, entries: seq<Item>, base: Time, r: PitrMetadata)
    requires ContinuityResult(date, LocalWalMap(entries, date), base, r)
    ensures ScannedMeta(date, entries, base, Patched(r, date))
  {
  }

  /** The day folders after metadata.json is uploaded, if the upload succeeds. */
  function MetadataEffect(days: map<string, DayFolder>, date: string, meta: PitrMetadata, ok: Outcome, now: Time)
    : map<string, DayFolder>
  {
    if ok(date, UploadMeta) then days[date := WithMetadata(FolderOf(days, date), meta, now)] else days
  }

  method ScanAndUpload(store: Store, date: string, entries: seq<Item>, base: Time, ok: Outcome, now: Time)
    returns (meta: PitrMetadata)
    modifies store
    ensures ScannedMeta(date, entries, base, meta)
    ensures store.days == MetadataEffect(old(store.days), date, meta, ok, now)
  {
    meta := ScanLocal(date, entries, base);
    if ok(date, UploadMeta) {
      store.PutMetadata(date, meta, now);
    }
  }

  // ---------------------------------------------------------------------
  // notifySuccess (lines 225-243)
  // ---------------------------------------------------------------------

  function ReadyMessage(date: string, meta: PitrMetadata): (msg: Message)
    ensures msg.ArchiveReady? && msg.date == date && msg.continuous == meta.continuous
    ensures msg.status == StatusOk <==> meta.continuous
    ensures msg.status == StatusWarn <==> !meta.continuous
    ensures msg.validUntil == DateOnly <==> YearAtMost2000(meta.validUntil)
    ensures msg.validUntil != DateOnly ==> msg.validUntil == At(meta.validUntil)
  {
    var status := if meta.continuous then StatusOk else StatusWarn;
    var shown := if YearAtMost2000(meta.validUntil) then DateOnly else At(meta.validUntil);
    ArchiveReady(status, date, meta.continuous, shown)
  }

  // ---------------------------------------------------------------------
  // ArchiveRemoteDay (lines 99-135)
  // ---------------------------------------------------------------------

  /** Lines 110-117: the base backup's time, or zero when it cannot be listed.
      The code lists `base.tar.gz` on its own and takes the first item; the
      model reads the day folder's entry for that name, which is the same
      item as long as the name is listed once. */
  function ArchiveBaseTime(f: DayFolder, date: string, ok: Outcome): Time {
    if ok(date, ListBase) && Listed(f.items, BaseName) then LastModTime(f.items, BaseName).value else ZeroTime
  }

  /** Line 120: the local copy of the remote WAL folder (nothing if the copy fails). */
  function CopiedWal(f: DayFolder, date: string, ok: Outcome): seq<Item> {
    if ok(date, CopyWal) then f.wal else []
  }

  /** The day folders after lines 123-129: metadata.json first, then, only if
      tar succeeds, the archive upload and the purge of the WAL folder, each
      taking effect when its own command succeeds. */
  function ArchiveEffect(days: map<string, DayFolder>, date: string, packed: seq<Item>, meta: PitrMetadata,
                         ok: Outcome, now: Time): map<string, DayFolder>
  {
    var d1 := MetadataEffect(days, date, meta, ok, now);
    var d2 := if ok(date, Tar) && ok(date, UploadArchive)
              then d1[date := WithArchive(FolderOf(d1, date), packed, now)] else d1;
    if ok(date, Tar) && ok(date, Purge) then d2[date := WithoutWal(FolderOf(d2, date))] else d2
  }

  method ArchiveRemoteDay(store: Store, notifier: Notifier, date: string, ok: Outcome, now: Time)
    returns (ghost meta: PitrMetadata)
    modifies store, notifier
    ensures var f := FolderOf(old(store.days), date);
      ScannedMeta(date, CopiedWal(f, date, ok), ArchiveBaseTime(f, date, ok), meta)
      && store.days == ArchiveEffect(old(store.days), date, CopiedWal(f, date, ok), meta, ok, now)
    ensures notifier.outbox == old(notifier.outbox) + [ReadyMessage(date, meta)]
  {
    var f := FolderOf(store.days, date);
    var baseTime := ArchiveBaseTime(f, date, ok);
    var local := CopiedWal(f, date, ok);
    var m := ScanAndUpload(store, date, local, baseTime, ok, now);
    meta := m;
    if ok(date, Tar) {
      if ok(date, UploadArchive) {
        store.PutArchive(date, local, now);
      }
      if ok(date, Purge) {
        store.PurgeWal(date);
      }
    }
    notifier.Send(ReadyMessage(date, m));
  }

  /** A failed tar leaves the remote WAL folder and archive as they were. */
  lemma TarFailureKeepsWal(days: map<string, DayFolder>, date: string, packed: seq<Item>, meta: PitrMetadata,
                           ok: Outcome, now: Time)
    requires !ok(date, Tar)
    ensures var before, after := FolderOf(days, date), FolderOf(ArchiveEffect(days, date, packed, meta, ok, now), date);
      after.wal == before.wal && after.archive == before.archive
      && (Listed(after.items, WalDirName) <==> Listed(before.items, WalDirName))
      && (ListedDir(after.items, WalDirName) <==> ListedDir(before.items, WalDirName))
      && (Listed(after.items, ArchiveName) <==> Listed(before.items, ArchiveName))
  {
  }

  /** metadata.json is written before, and independently of, the compression. */
  lemma MetadataWrittenFirst(days: map<string, DayFolder>, date: string, packed: seq<Item>, meta: PitrMetadata,
                             ok: Outcome, now: Time)
    requires ok(date, UploadMeta)
    ensures var after := FolderOf(ArchiveEffect(days, date, packed, meta, ok, now), date);
      after.metadataDoc == Some(meta) && Listed(after.items, MetadataName)
  {
  }

  /** The purge is gated on tar alone: when the archive upload fails but the
      purge succeeds, the raw WAL folder is gone and no new archive exists. */
  lemma PurgeNotGatedOnUpload(days: map<string, DayFolder>, date: string, packed: seq<Item>, meta: PitrMetadata,
                              ok: Outcome, now: Time)
    requires ok(date, Tar) && !ok(date, UploadArchive) && ok(date, Purge)
    ensures var before, after := FolderOf(days, date), FolderOf(ArchiveEffect(days, date, packed, meta, ok, now), date);
      after.wal == [] && !Listed(after.items, WalDirName)
      && after.archive == before.archive
      && (Listed(after.items, ArchiveName) <==> Listed(before.items, ArchiveName))
  {
  }

  /** After a run whose metadata upload succeeds, the day is left alone by
      every later pass; with archive upload and purge it is Healthy whenever
      it has a base backup. */
  lemma ArchiveSettles(days: map<string, DayFolder>, date: string, packed: seq<Item>, meta: PitrMetadata,
                       ok: Outcome, now: Time)
    requires ok(date, UploadMeta)
    ensures var p := PresenceOf(FolderOf(ArchiveEffect(days, date, packed, meta, ok, now), date).items);
      (Classify(p) == Healthy || Classify(p) == NoAction)
      && (ok(date, Tar) && ok(date, UploadArchive) && Listed(FolderOf(days, date).items, BaseName)
          ==> Classify(p) == Healthy)
  {
  }

  /** Only the day's own folder changes. */
  lemma ArchiveOnlyThisDay(days: map<string, DayFolder>, date: string, packed: seq<Item>, meta: PitrMetadata,
                           ok: Outcome, now: Time, d: string)
    requires d != date
    ensures FolderOf(ArchiveEffect(days, date, packed, meta, ok, now), d) == FolderOf(days, d)
    ensures d in ArchiveEffect(days, date, packed, meta, ok, now) <==> d in days
  {
  }

  // ---------------------------------------------------------------------
  // HealMetadataFromArchive (lines 138-156)
  // ---------------------------------------------------------------------

  /** Lines 147-148: the WAL files unpacked from the downloaded archive. */
  function UnpackedWal(f: DayFolder, date: string, ok: Outcome): seq<Item> {
    if ok(date, CopyArchive) && ok(date, Untar) then f.archive else []
  }

  method HealMetadataFromArchive(store: Store, notifier: Notifier, date: string, baseTime: Time, ok: Outcome, now: Time)
    returns (ghost meta: PitrMetadata)
    modifies store, notifier
    ensures ScannedMeta(date, UnpackedWal(FolderOf(old(store.days), date), date, ok), baseTime, meta)
    ensures store.days == MetadataEffect(old(store.days), date, meta, ok, now)
    ensures notifier.outbox == old(notifier.outbox) + [MetadataRestored(date), ReadyMessage(date, meta)]
  {
    var local := UnpackedWal(FolderOf(store.days, date), date, ok);
    var m := ScanAndUpload(store, date, local, baseTime, ok, now);
    meta := m;
    notifier.Send(MetadataRestored(date));
    notifier.Send(ReadyMessage(date, m));
  }

  /** Healing writes metadata.json and nothing else: the archive and the WAL
      folder stay as they were. */
  lemma HealKeepsArchive(days: map<string, DayFolder>, date: string, meta: PitrMetadata, ok: Outcome, now: Time)
    ensures var before, after := FolderOf(days, date), FolderOf(MetadataEffect(days, date, meta, ok, now), date);
      after.archive == before.archive && after.wal == before.wal
      && (Listed(after.items, ArchiveName) <==> Listed(before.items, ArchiveName))
      && (ListedDir(after.items, WalDirName) <==> ListedDir(before.items, WalDirName))
  {
  }

  // ---------------------------------------------------------------------
  // HandleTotalDataLoss (lines 159-172)
  // ---------------------------------------------------------------------

  function TotalLossSentinel(date: string): (m: PitrMetadata)
    ensures m.date == date && !m.continuous && !m.isArchived
    ensures m.missingSegments == ["TOTAL_DATA_LOSS_ON_STORAGE"]
  {
    EmptyMeta(date).(missingSegments := ["TOTAL_DATA_LOSS_ON_STORAGE"])
  }

  method HandleTotalDataLoss(store: Store, notifier: Notifier, date: string, ok: Outcome, now: Time)
    modifies store, notifier
    ensures store.days == MetadataEffect(old(store.days), date, TotalLossSentinel(date), ok, now)
    ensures notifier.outbox == old(notifier.outbox) + [CriticalDataLoss(date)]
  {
    notifier.Send(CriticalDataLoss(date));
    if ok(date, UploadMeta) {
      store.PutMetadata(date, TotalLossSentinel(date), now);
    }
  }

  // ---------------------------------------------------------------------
  // RunStartupBackfill (lines 25-90)
  // ---------------------------------------------------------------------

  /** Lines 45-49: the listing of a day folder; a failed command reads as empty. */
  function DayListing(days: map<string, DayFolder>, date: string, ok: Outcome): seq<Item> {
    if ok(date, ListDay) then FolderOf(days, date).items else []
  }

  /** The new state after the action chosen for one day. */
  ghost predicate Reconciled(days0: map<string, DayFolder>, out0: seq<Message>, date: string, ok: Outcome, now: Time,
                             action: Action, meta: PitrMetadata,
                             days: map<string, DayFolder>, out: seq<Message>)
  {
    var items := DayListing(days0, date, ok);
    var f := FolderOf(days0, date);
    action == Classify(PresenceOf(items))
    && match action
       case Healthy => days == days0 && out == out0
       case NoAction => days == days0 && out == out0
       case HealMetadata =>
         var baseTime := if Listed(items, BaseName) then LastModTime(items, BaseName).value else ZeroTime;
         ScannedMeta(date, UnpackedWal(f, date, ok), baseTime, meta)
         && days == MetadataEffect(days0, date, meta, ok, now)
         && out == out0 + [MetadataRestored(date), ReadyMessage(date, meta)]
       case ArchiveRaw =>
         ScannedMeta(date, CopiedWal(f, date, ok), ArchiveBaseTime(f, date, ok), meta)
         && days == ArchiveEffect(days0, date, CopiedWal(f, date, ok), meta, ok, now)
         && out == out0 + [ReadyMessage(date, meta)]
       case TotalLoss =>
         days == MetadataEffect(days0, date, TotalLossSentinel(date), ok, now)
         && out == out0 + [CriticalDataLoss(date)]
  }

  /** Lines 45-88 for one day: list, classify, act. */
  method ReconcileDay(store: Store, notifier: Notifier, date: string, ok: Outcome, now: Time)
    returns (action: Action, ghost meta: PitrMetadata)
    modifies store, notifier
    ensures Reconciled(old(store.days), old(notifier.outbox), date, ok, now, action, meta, store.days, notifier.outbox)
  {
    var items := DayListing(store.days, date, ok);
    var p, baseTime := ScanItems(items);
    action := Classify(p);
    meta := EmptyMeta(date);
    if action == HealMetadata {
      meta := HealMetadataFromArchive(store, notifier, date, baseTime, ok, now);
    } else if action == ArchiveRaw {
      meta := ArchiveRemoteDay(store, notifier, date, ok, now);
    } else if action == TotalLoss {
      HandleTotalDataLoss(store, notifier, date, ok, now);
    }
  }

  /** Only the day's own folder changes. */
  lemma ReconciledOnlyThisDay(days0: map<string, DayFolder>, out0: seq<Message>, date: string, ok: Outcome,
                              now: Time, action: Action, meta: PitrMetadata,
                              days: map<string, DayFolder>, out: seq<Message>, d: string)
    requires Reconciled(days0, out0, date, ok, now, action, meta, days, out)
    requires d != date
    ensures FolderOf(days, d) == FolderOf(days0, d)
  {
    if action == ArchiveRaw {
      var f := FolderOf(days0, date);
      ArchiveOnlyThisDay(days0, date, CopiedWal(f, date, ok), meta, ok, now, d);
    }
  }

  /** The date of one line of `rclone lsf --dirs-only` output. */
  function DateOfLine(line: string): string {
    TrimSuffix(line, "/")
  }

  /** Lines 36-43: the dates the pass visits. */
  function BackfillLines(out: string): seq<string> {
    Split(GoTrimSpace(out), '\n')
  }

  predicate Visited(line: string, today: string) {
    DateOfLine(line) != "" && DateOfLine(line) != today
  }

  /** No visited line among the first `n` is for day `d`. */
  predicate NotListed(lines: seq<string>, n: nat, today: string, d: string)
    requires n <= |lines|
  {
    forall k :: 0 <= k < n && Visited(lines[k], today) ==> DateOfLine(lines[k]) != d
  }

  /** The state after the pass has worked through `lines` in order, starting
      from `days0` and `out0`: each visited line's day reconciled once, on the
      state the earlier lines left, and the other lines skipped. */
  ghost predicate Backfilled(days0: map<string, DayFolder>, out0: seq<Message>, lines: seq<string>, today: string,
                             ok: Outcome, now: Time, days: map<string, DayFolder>, out: seq<Message>)
    decreases |lines|
  {
    if |lines| == 0 then days == days0 && out == out0
    else
      var init, line := lines[..|lines| - 1], lines[|lines| - 1];
      if !Visited(line, today) then Backfilled(days0, out0, init, today, ok, now, days, out)
      else
        exists days1, out1, action, meta ::
          Backfilled(days0, out0, init, today, ok, now, days1, out1)
          && Reconciled(days1, out1, DateOfLine(line), ok, now, action, meta, days, out)
  }

  /** A visited line extends the pass by one reconciliation. */
  lemma BackfilledVisit(days0: map<string, DayFolder>, out0: seq<Message>, lines: seq<string>, line: string,
                        today: string, ok: Outcome, now: Time, days1: map<string, DayFolder>, out1: seq<Message>,
                        action: Action, meta: PitrMetadata, days: map<string, DayFolder>, out: seq<Message>)
    requires Visited(line, today)
    requires Backfilled(days0, out0, lines, today, ok, now, days1, out1)
    requires Reconciled(days1, out1, DateOfLine(line), ok, now, action, meta, days, out)
    ensures Backfilled(days0, out0, lines + [line], today, ok, now, days, out)
  {
    var all := lines + [line];
    assert all[..|all| - 1] == lines && all[|all| - 1] == line;
  }

  /** A skipped line leaves the pass where it was. */
  lemma BackfilledSkip(days0: map<string, DayFolder>, out0: seq<Message>, lines: seq<string>, line: string,
                       today: string, ok: Outcome, now: Time, days: map<string, DayFolder>, out: seq<Message>)
    requires !Visited(line, today)
    requires Backfilled(days0, out0, lines, today, ok, now, days, out)
    ensures Backfilled(days0, out0, lines + [line], today, ok, now, days, out)
  {
    assert (lines + [line])[..|lines|] == lines;
  }

  /** Lines 45-88 for one line of the listing: a visited line's day is
      reconciled on the state the earlier lines left, a skipped line changes
      nothing, and no other day changes. */
  method BackfillLine(store: Store, notifier: Notifier, line: string, today: string, ok: Outcome, now: Time,
                      ghost start: map<string, DayFolder>, ghost started: seq<Message>, ghost lines: seq<string>)
    requires Backfilled(start, started, lines, today, ok, now, store.days, notifier.outbox)
    modifies store, notifier
    ensures Backfilled(start, started, lines + [line], today, ok, now, store.days, notifier.outbox)
    ensures forall d :: !(Visited(line, today) && DateOfLine(line) == d) ==>
              FolderOf(store.days, d) == FolderOf(old(store.days), d)
  {
    var date := DateOfLine(line);
    if date == "" || date == today {
      BackfilledSkip(start, started, lines, line, today, ok, now, store.days, notifier.outbox);
      return;
    }
    ghost var days0, out0 := store.days, notifier.outbox;
    var action, meta := ReconcileDay(store, notifier, date, ok, now);
    forall d | d != date ensures FolderOf(store.days, d) == FolderOf(days0, d) {
      ReconciledOnlyThisDay(days0, out0, date, ok, now, action, meta, store.days, notifier.outbox, d);
    }
    BackfilledVisit(start, started, lines, line, today, ok, now, days0, out0, action, meta,
                    store.days, notifier.outbox);
  }

  /** The startup pass. `rootListing` is the output of the root listing, None
      when the command fails (and the pass does nothing). */
  method RunStartupBackfill(store: Store, notifier: Notifier, rootListing: Option<string>, today: string,
                            ok: Outcome, now: Time)
    modifies store, notifier
    ensures rootListing.None? ==> store.days == old(store.days) && notifier.outbox == old(notifier.outbox)
    ensures rootListing.Some? ==>
              forall d :: NotListed(BackfillLines(rootListing.value), |BackfillLines(rootListing.value)|, today, d) ==>
                FolderOf(store.days, d) == FolderOf(old(store.days), d)
    ensures FolderOf(store.days, today) == FolderOf(old(store.days), today)
    ensures rootListing.Some? ==>
              Backfilled(old(store.days), old(notifier.outbox), BackfillLines(rootListing.value), today, ok, now,
                         store.days, notifier.outbox)
  {
    if rootListing.None? {
      return;
    }
    BackfillDates(store, notifier, BackfillLines(rootListing.value), today, ok, now);
  }

  /** Lines 45-89: the loop over the listed lines, in order. */
  method BackfillDates(store: Store, notifier: Notifier, dates: seq<string>, today: string, ok: Outcome, now: Time)
    modifies store, notifier
    ensures forall d :: NotListed(dates, |dates|, today, d) ==> FolderOf(store.days, d) == FolderOf(old(store.days), d)
    ensures FolderOf(store.days, today) == FolderOf(old(store.days), today)
    ensures Backfilled(old(store.days), old(notifier.outbox), dates, today, ok, now, store.days, notifier.outbox)
  {
    ghost var start, started := store.days, notifier.outbox;
    var i := 0;
    assert dates[..0] == [];
    while i < |dates|
      invariant 0 <= i <= |dates|
      invariant forall d :: NotListed(dates, i, today, d) ==> FolderOf(store.days, d) == FolderOf(old(store.days), d)
      invariant Backfilled(start, started, dates[..i], today, ok, now, store.days, notifier.outbox)
    {
      assert dates[..i + 1] == dates[..i] + [dates[i]];
      BackfillLine(store, notifier, dates[i], today, ok, now, start, started, dates[..i]);
      i := i + 1;
    }
    assert dates[..i] == dates;
  }
}
