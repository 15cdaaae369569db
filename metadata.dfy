/** The records exchanged by the watchdog's PITR API
    (apps/watchdog/internal/api/types.go). */
module Metadata {

  import opened Times

  /** What is known about one day's point-in-time-recovery window. */
  datatype PitrMetadata = PitrMetadata(
    date: string,
    baseBackup: string,
    baseBackupTimestamp: Time,
    timeline: int,
    walStartSegment: string,
    walEndSegment: string,
    walStartTimestamp: Time,
    walEndTimestamp: Time,
    continuous: bool,
    missingSegments: seq<string>,
    validUntil: Time,
    isArchived: bool)

  /** A folder of days, with the time shown for it. */
  datatype DayEntry = DayEntry(date: string, timestamp: Time)

  /** One file of a snapshot day: name, size and timestamp as text. */
  datatype SnapshotFile = SnapshotFile(filename: string, size: string, timestamp: string)

  /** An entry of an rclone listing (the size is never used). */
  datatype Item = Item(name: string, isDir: bool, modTime: Time)

  /** Go's composite literal PitrMetadata{Date: day}: every other field at
      its zero value. */
  function EmptyMeta(day: string): (m: PitrMetadata)
    ensures m.date == day && !m.continuous && !m.isArchived && m.missingSegments == []
    ensures m.baseBackup == "" && m.validUntil == ZeroTime && m.baseBackupTimestamp == ZeroTime
  {
    PitrMetadata(day, "", ZeroTime, 0, "", "", ZeroTime, ZeroTime, false, [], ZeroTime, false)
  }
}
