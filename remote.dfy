/** The remote backup store the watchdog talks to through rclone, the
    outcome of each external command, and the Telegram outbox
    (apps/watchdog/internal/tasks/archive.go, apps/watchdog/internal/api/pitr_logic.go). */
module Remote {

  import opened Wrappers
  import opened Times
  import opened Metadata
  import opened Strings

  /** The external commands whose success the model leaves open. */
  datatype Step =
    | ListDay        // rclone lsjson <day>/
    | CatMeta        // rclone cat <day>/metadata.json, and the JSON decoding
    | ListWal        // rclone lsjson <day>/WAL/
    | ListBase       // rclone lsjson <day>/base.tar.gz
    | CopyWal        // rclone copy <day>/WAL to the local work directory
    | Tar            // tar -czf WAL_archive.tar.gz WAL
    | UploadArchive  // rclone copyto WAL_archive.tar.gz <day>/
    | Purge          // rclone purge <day>/WAL
    | UploadMeta     // rclone copyto metadata.json <day>/
    | CopyArchive    // rclone copyto <day>/WAL_archive.tar.gz to the local work directory
    | Untar          // tar -xzf WAL_archive.tar.gz

  /** Whether the command `step` for a given day succeeds. */
  type Outcome = (string, Step) -> bool

  const MetadataName := "metadata.json"
  const BaseName := "base.tar.gz"
  const ArchiveName := "WAL_archive.tar.gz"
  const WalDirName := "WAL"

  /** One day folder: its top-level listing, the decoded metadata.json (None
      when it does not decode), the files under WAL/ and the files packed in
      WAL_archive.tar.gz. */
  datatype DayFolder = DayFolder(
    items: seq<Item>,
    metadataDoc: Option<PitrMetadata>,
    wal: seq<Item>,
    archive: seq<Item>)

  const EmptyFolder := DayFolder([], None, [], [])

  predicate Listed(items: seq<Item>, name: string) {
    exists i :: 0 <= i < |items| && items[i].name == name
  }

  predicate ListedDir(items: seq<Item>, name: string) {
    exists i :: 0 <= i < |items| && items[i].name == name && items[i].isDir
  }

  lemma ListedSnoc(items: seq<Item>, it: Item, name: string)
    ensures Listed(items + [it], name) <==> Listed(items, name) || it.name == name
  {
    var s := items + [it];
    if Listed(s, name) && it.name != name {
      var i :| 0 <= i < |s| && s[i].name == name;
      assert s[i] == items[i];
    }
    if Listed(items, name) {
      var i :| 0 <= i < |items| && items[i].name == name;
      assert s[i] == items[i];
    }
    assert s[|items|] == it;
  }

  lemma ListedDirSnoc(items: seq<Item>, it: Item, name: string)
    ensures ListedDir(items + [it], name) <==> ListedDir(items, name) || (it.name == name && it.isDir)
  {
    var s := items + [it];
    if ListedDir(s, name) && !(it.name == name && it.isDir) {
      var i :| 0 <= i < |s| && s[i].name == name && s[i].isDir;
      assert s[i] == items[i];
    }
    if ListedDir(items, name) {
      var i :| 0 <= i < |items| && items[i].name == name && items[i].isDir;
      assert s[i] == items[i];
    }
    assert s[|items|] == it;
  }

  /** The listing without entries called `name`. */
  function Unlist(items: seq<Item>, name: string): (r: seq<Item>)
    ensures forall n :: Listed(r, n) <==> n != name && Listed(items, n)
    ensures forall n :: ListedDir(r, n) <==> n != name && ListedDir(items, n)
    decreases |items|
  {
    if |items| == 0 then []
    else
      var rest := Unlist(items[1..], name);
      assert items == [items[0]] + items[1..];
      forall n
        ensures Listed(items, n) <==> items[0].name == n || Listed(items[1..], n)
        ensures ListedDir(items, n) <==> (items[0].name == n && items[0].isDir) || ListedDir(items[1..], n)
        ensures Listed([items[0]] + rest, n) <==> items[0].name == n || Listed(rest, n)
        ensures ListedDir([items[0]] + rest, n) <==> (items[0].name == n && items[0].isDir) || ListedDir(rest, n)
      {
        ListedCons(items[0], items[1..], n);
        ListedCons(items[0], rest, n);
      }
      if items[0].name == name then rest else [items[0]] + rest
  }

  lemma ListedCons(it: Item, items: seq<Item>, name: string)
    ensures Listed([it] + items, name) <==> it.name == name || Listed(items, name)
    ensures ListedDir([it] + items, name) <==> (it.name == name && it.isDir) || ListedDir(items, name)
  {
    var s := [it] + items;
    assert s[0] == it;
    forall i | 0 <= i < |items| ensures s[i + 1] == items[i] {
    }
    if Listed(s, name) && it.name != name {
      var i :| 0 <= i < |s| && s[i].name == name;
      assert items[i - 1] == s[i];
    }
    if ListedDir(s, name) && !(it.name == name && it.isDir) {
      var i :| 0 <= i < |s| && s[i].name == name && s[i].isDir;
      assert items[i - 1] == s[i];
    }
  }

  /** The listing after uploading a file called `name` at time `now`. */
  function Upload(items: seq<Item>, name: string, now: Time): (r: seq<Item>)
    ensures forall n :: Listed(r, n) <==> n == name || Listed(items, n)
    ensures forall n :: ListedDir(r, n) <==> n != name && ListedDir(items, n)
  {
    var r := Unlist(items, name) + [Item(name, false, now)];
    assert r[|r| - 1].name == name;
    assert forall n :: Listed(r, n) <==> n == name || Listed(Unlist(items, name), n) by {
      forall n | Listed(r, n) && n != name ensures Listed(Unlist(items, name), n) {
        var i :| 0 <= i < |r| && r[i].name == n;
        assert i < |r| - 1;
      }
      forall n | Listed(Unlist(items, name), n) ensures Listed(r, n) {
        var i :| 0 <= i < |Unlist(items, name)| && Unlist(items, name)[i].name == n;
        assert r[i].name == n;
      }
    }
    assert forall n :: ListedDir(r, n) <==> ListedDir(Unlist(items, name), n) by {
      forall n | ListedDir(r, n) ensures ListedDir(Unlist(items, name), n) {
        var i :| 0 <= i < |r| && r[i].name == n && r[i].isDir;
        assert i < |r| - 1;
      }
      forall n | ListedDir(Unlist(items, name), n) ensures ListedDir(r, n) {
        var i :| 0 <= i < |Unlist(items, name)| && Unlist(items, name)[i].name == n && Unlist(items, name)[i].isDir;
        assert r[i].name == n;
      }
    }
    r
  }

  /** The folder after `rclone copyto metadata.json` succeeds. */
  function WithMetadata(f: DayFolder, meta: PitrMetadata, now: Time): (g: DayFolder)
    ensures Listed(g.items, MetadataName) && g.metadataDoc == Some(meta)
    ensures g.wal == f.wal && g.archive == f.archive
    ensures forall n :: n != MetadataName ==> (Listed(g.items, n) <==> Listed(f.items, n))
    ensures forall n :: n != MetadataName ==> (ListedDir(g.items, n) <==> ListedDir(f.items, n))
  {
    f.(items := Upload(f.items, MetadataName, now), metadataDoc := Some(meta))
  }

  /** The folder after `rclone copyto WAL_archive.tar.gz` succeeds. */
  function WithArchive(f: DayFolder, packed: seq<Item>, now: Time): (g: DayFolder)
    ensures Listed(g.items, ArchiveName) && g.archive == packed
    ensures g.wal == f.wal && g.metadataDoc == f.metadataDoc
    ensures forall n :: n != ArchiveName ==> (Listed(g.items, n) <==> Listed(f.items, n))
    ensures forall n :: n != ArchiveName ==> (ListedDir(g.items, n) <==> ListedDir(f.items, n))
  {
    f.(items := Upload(f.items, ArchiveName, now), archive := packed)
  }

  /** The folder after `rclone purge <day>/WAL` succeeds. */
  function WithoutWal(f: DayFolder): (g: DayFolder)
    ensures !Listed(g.items, WalDirName) && g.wal == []
    ensures g.archive == f.archive && g.metadataDoc == f.metadataDoc
    ensures forall n :: n != WalDirName ==> (Listed(g.items, n) <==> Listed(f.items, n))
    ensures forall n :: n != WalDirName ==> (ListedDir(g.items, n) <==> ListedDir(f.items, n))
  {
    f.(items := Unlist(f.items, WalDirName), wal := [])
  }

  function FolderOf(days: map<string, DayFolder>, day: string): DayFolder {
    if day in days then days[day] else EmptyFolder
  }

  /** The WAL remote: one folder per day. */
  class Store {
    var days: map<string, DayFolder>

    constructor(days: map<string, DayFolder>)
      ensures this.days == days
    {
      this.days := days;
    }

    method PutMetadata(day: string, meta: PitrMetadata, now: Time)
      modifies this
      ensures days == old(days)[day := WithMetadata(FolderOf(old(days), day), meta, now)]
    {
      days := days[day := WithMetadata(FolderOf(days, day), meta, now)];
    }

    method PutArchive(day: string, packed: seq<Item>, now: Time)
      modifies this
      ensures days == old(days)[day := WithArchive(FolderOf(old(days), day), packed, now)]
    {
      days := days[day := WithArchive(FolderOf(days, day), packed, now)];
    }

    method PurgeWal(day: string)
      modifies this
      ensures days == old(days)[day := WithoutWal(FolderOf(old(days), day))]
    {
      days := days[day := WithoutWal(FolderOf(days, day))];
    }
  }

  /** How a notification shows the end of the recovery window. */
  datatype ValidShown = DateOnly | At(t: Time)

  /** The Telegram messages the archive tasks and the log watcher send. */
  datatype Message =
    | ArchiveReady(status: string, date: string, continuous: bool, validUntil: ValidShown)
    | MetadataRestored(date: string)
    | CriticalDataLoss(date: string)
    | CorruptionAlert(container: string, matches: seq<string>)

  const StatusOk := "\U{2705}"
  const StatusWarn := "\U{26A0}\U{FE0F}"

  function BoolText(b: bool): string {
    if b then "true" else "false"
  }

  /** The text sent for a message; `formatTime` stands for Go's
      Format("Jan 02, 15:04 MST"). */
  function Text(msg: Message, formatTime: Time -> string): string {
    match msg
    case ArchiveReady(status, date, continuous, valid) =>
      status + " *PITR Archive Ready: " + date + "*\n"
      + "\U{2022} Continuous: " + BoolText(continuous) + "\n"
      + "\U{2022} Valid Until: "
      + (match valid case DateOnly => "Date only (Time unknown)" case At(t) => formatTime(t))
    case MetadataRestored(date) =>
      "\U{1FA79} Metadata consistency restored for " + date + " (extracted from archive)."
    case CriticalDataLoss(date) =>
      "\U{1F6D1} *CRITICAL DATA LOSS:* No WALs or archives found for " + date + " on Dropbox!"
    case CorruptionAlert(container, matches) =>
      "\U{1F6D1} [LOGWATCH] Potential corruption in " + container + "!\nMatches: " + Join(matches, ", ")
  }

  /** The queue of messages handed to the Telegram sender. */
  class Notifier {
    var outbox: seq<Message>

    constructor()
      ensures outbox == []
    {
      outbox := [];
    }

    method Send(msg: Message)
      modifies this
      ensures outbox == old(outbox) + [msg]
    {
      outbox := outbox + [msg];
    }
  }
}
