/** The snapshot file listing of one day (ListSnapshotFiles in
    apps/watchdog/internal/api/snapshot_logic.go). */
module Snapshots {

  import opened Wrappers
  import opened Strings
  import opened Metadata

  function Last(s: seq<string>): string
    requires |s| > 0
  {
    s[|s| - 1]
  }

  /** Lines 70-74: the part after the last '_' with a trailing ".sql.gz"
      removed, or "" for a name without '_'. */
  function SnapshotTimestamp(filename: string): (ts: string)
    ensures !Contains(filename, "_") ==> ts == ""
  {
    if Contains(filename, "_") then TrimSuffix(Last(Split(filename, '_')), ".sql.gz") else ""
  }

  /** Lines 64-80 for one line: at least two whitespace-separated fields,
      the name first and the size second; further fields are ignored. */
  function ParseSnapshotLine(line: string): (r: Option<SnapshotFile>)
    ensures |Fields(line)| < 2 <==> r.None?
    ensures r.Some? ==>
              r.value.filename == Fields(line)[0] && r.value.size == Fields(line)[1]
              && r.value.timestamp == SnapshotTimestamp(Fields(line)[0])
  {
    var parts := Fields(line);
    if |parts| < 2 then None
    else Some(SnapshotFile(parts[0], parts[1], SnapshotTimestamp(parts[0])))
  }

  /** The files of a listing, in line order, skipping lines that do not parse. */
  function SnapshotFiles(lines: seq<string>): seq<SnapshotFile>
    decreases |lines|
  {
    if |lines| == 0 then []
    else
      var init := SnapshotFiles(lines[..|lines| - 1]);
      match ParseSnapshotLine(lines[|lines| - 1])
      case None => init
      case Some(f) => init + [f]
  }

  /** Lines 53-83. `out` is the output of `rclone lsf --format ps`, None when
      the command fails; the function never reports an error. */
  method ListSnapshotFiles(out: Option<string>) returns (files: seq<SnapshotFile>)
    ensures out.None? ==> files == []
    ensures out.Some? ==> files == SnapshotFiles(Split(GoTrimSpace(out.value), '\n'))
  {
    if out.None? {
      return [];
    }
    var lines := Split(GoTrimSpace(out.value), '\n');
    files := [];
    var i := 0;
    while i < |lines|
      invariant 0 <= i <= |lines|
      invariant files == SnapshotFiles(lines[..i])
    {
      assert lines[..i + 1][..i] == lines[..i];
      var parts := Fields(lines[i]);
      if |parts| >= 2 {
        var filename := parts[0];
        var timestamp := "";
        if Contains(filename, "_") {
          var tsParts := Split(filename, '_');
          timestamp := TrimSuffix(tsParts[|tsParts| - 1], ".sql.gz");
        }
        files := files + [SnapshotFile(filename, parts[1], timestamp)];
      }
      i := i + 1;
    }
    assert lines[..i] == lines;
  }

  /** Empty output lists no file. */
  lemma EmptyOutputNoFiles()
    ensures SnapshotFiles(Split(GoTrimSpace(""), '\n')) == []
  {
    assert Split("", '\n') == [""];
    assert Fields("") == [];
  }

  /** A "name size" line parses back to that name and size. */
  lemma ParseLineRoundTrip(name: string, size: string)
    requires IsWord(name) && IsWord(size)
    ensures ParseSnapshotLine(name + " " + size) == Some(SnapshotFile(name, size, SnapshotTimestamp(name)))
  {
    FieldsJoin([name, size]);
    assert Join([name, size], " ") == name + " " + Join([size], " ");
  }

  lemma {:induction false} SplitLastPiece(x: string, sep: char, t: string)
    requires sep !in t
    ensures |Split(x + [sep] + t, sep)| >= 2
    ensures Last(Split(x + [sep] + t, sep)) == t
    decreases |x|
  {
    var s := x + [sep] + t;
    if |x| == 0 {
      assert s[1..] == t;
      SplitWithoutSep(t, sep);
    } else {
      assert s[1..] == x[1..] + [sep] + t;
      SplitLastPiece(x[1..], sep, t);
    }
  }

  lemma ContainsChar(s: string, c: char)
    requires c in s
    ensures Contains(s, [c])
  {
    var i :| 0 <= i < |s| && s[i] == c;
    ContainsInfix(s[..i], [c], s[i + 1..]);
    assert s[..i] + [c] + s[i + 1..] == s;
  }

  /** `rclone lsf --format ps` prints each file as `path;size`, ';' being the
      default separator of lsf. Such a line is one white-space field, so
      lines 64-67 skip it. */
  lemma LsfLineSkipped(name: string, size: string)
    requires IsWord(name) && IsWord(size)
    ensures ParseSnapshotLine(name + ";" + size).None?
  {
    var w := name + ";" + size;
    assert IsWord(w) by {
      forall j | 0 <= j < |w| ensures !GoSpace(w[j]) {
        if j < |name| {
          assert w[j] == name[j];
        } else if j > |name| {
          assert w[j] == size[j - |name| - 1];
        }
      }
    }
    FieldsJoin([w]);
    assert Join([w], " ") == w;
  }

  /** A line of `rclone lsf --format ps` split at its ';' separator: the name
      first and the size second. */
  function ParseLsfLine(line: string): (r: Option<SnapshotFile>)
    ensures r.Some? ==> r.value.timestamp == SnapshotTimestamp(r.value.filename)
    ensures r.Some? ==> ';' !in r.value.filename && ';' !in r.value.size
    ensures r.None? <==> ';' !in line
  {
    var parts := Split(line, ';');
    if |parts| < 2 then
      assert ';' !in line by {
        if ';' in line {
          var i :| 0 <= i < |line| && line[i] == ';';
          assert line == line[..i] + [';'] + line[i + 1..];
          SplitHasTwo(line[..i], line[i + 1..]);
        }
      }
      None
    else
      assert ';' in line by {
        if ';' !in line {
          SplitWithoutSep(line, ';');
        }
      }
      Some(SnapshotFile(parts[0], parts[1], SnapshotTimestamp(parts[0])))
  }

  lemma {:induction false} SplitHasTwo(x: string, t: string)
    ensures |Split(x + [';'] + t, ';')| >= 2
    decreases |x|
  {
    var s := x + [';'] + t;
    if |x| == 0 {
      assert s[1..] == t;
    } else {
      assert s[1..] == x[1..] + [';'] + t;
      SplitHasTwo(x[1..], t);
    }
  }

  /** The corrected parse reads `name;size` back as that name and size. */
  lemma LsfLineRoundTrip(name: string, size: string)
    requires ';' !in name && ';' !in size
    ensures ParseLsfLine(name + ";" + size) == Some(SnapshotFile(name, size, SnapshotTimestamp(name)))
  {
    assert name + ";" + size == name + [';'] + size;
    SplitAtSep(name, ';', size);
    SplitWithoutSep(size, ';');
  }

  /** A dump named PREFIX_STAMP.sql.gz has timestamp STAMP. */
  lemma TimestampOfDumpName(prefix: string, stamp: string)
    requires '_' !in stamp
    ensures SnapshotTimestamp(prefix + "_" + stamp + ".sql.gz") == stamp
  {
    var name := prefix + "_" + stamp + ".sql.gz";
    var t := stamp + ".sql.gz";
    assert name == prefix + ['_'] + t;
    assert '_' !in ".sql.gz";
    assert '_' !in t by {
      forall i | 0 <= i < |t| ensures t[i] != '_' {
        if i >= |stamp| { assert t[i] == ".sql.gz"[i - |stamp|]; }
      }
    }
    assert name[|prefix|] == '_';
    ContainsChar(name, '_');
    SplitLastPiece(prefix, '_', t);
    assert HasSuffix(t, ".sql.gz");
  }
}
