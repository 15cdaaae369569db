/** The nftables set files the firewall agent writes
    (writeSetFile and Sync in apps/firewall-agent/syncer.go). */
module NftSets {

  import opened Wrappers
  import opened Strings

  const Indent := "        "
  const EmptyElement := "0.0.0.0/32"

  function HeaderLines(setName: string): seq<string> {
    ["set " + setName + " {", "    type ipv4_addr", "    flags interval", "    elements = {"]
  }

  const FooterLines := ["    }", "}"]

  /** Line i of the element list: indented, with a comma unless it is the last. */
  function ElementLine(elems: seq<string>, i: nat): string
    requires i < |elems|
  {
    Indent + elems[i] + (if i == |elems| - 1 then "" else ",")
  }

  function ElementLines(elems: seq<string>): seq<string> {
    if |elems| == 0 then [EmptyElement]
    else seq(|elems|, i requires 0 <= i < |elems| => ElementLine(elems, i))
  }

  function SetLines(setName: string, elems: seq<string>): seq<string> {
    HeaderLines(setName) + ElementLines(elems) + FooterLines
  }

  /** The text of a set file (lines 86-105): one line per entry of SetLines. */
  function RenderSet(setName: string, elems: seq<string>): string {
    Unlines(SetLines(setName, elems))
  }

  /** The file opens with the set's header line and closes the set and
      its element block. */
  lemma RenderFrame(setName: string, elems: seq<string>)
    ensures HasPrefix(RenderSet(setName, elems), "set " + setName + " {\n")
    ensures HasSuffix(RenderSet(setName, elems), "    }\n}\n")
  {
    var h, b := HeaderLines(setName), ElementLines(elems);
    var text := RenderSet(setName, elems);
    UnlinesAppend(h + b, FooterLines);
    UnlinesAppend(h, b);
    assert SetLines(setName, elems) == h + b + FooterLines;
    assert Unlines(h) == h[0] + "\n" + Unlines(h[1..]);
    assert h[0] + "\n" == "set " + setName + " {\n";
    assert text[..|"set " + setName + " {\n"|] == "set " + setName + " {\n";
    assert Unlines(FooterLines) == "    }" + "\n" + ("}" + "\n" + Unlines([]));
    assert Unlines(FooterLines) == "    }\n}\n";
    assert text[|text| - |"    }\n}\n"|..] == "    }\n}\n";
  }

  function Unindent(line: string): string {
    if HasPrefix(line, Indent) then line[|Indent|..] else line
  }

  /** Reads the element list back out of a set file's text. */
  function DecodeSet(text: string): Option<seq<string>> {
    var lines := Split(text, '\n');
    if |lines| < 8 then None
    else
      Some(DecodeBody(lines[4..|lines| - 3]))
  }

  /** The element lines: the single unindented placeholder stands for no
      element; otherwise each line loses its indentation and, except the
      last, its comma. */
  function DecodeBody(body: seq<string>): seq<string> {
    if body == [EmptyElement] then []
    else seq(|body|, i requires 0 <= i < |body| => DecodeLine(body, i))
  }

  function DecodeLine(body: seq<string>, i: nat): string
    requires i < |body|
  {
    if i == |body| - 1 then Unindent(body[i]) else TrimSuffix(Unindent(body[i]), ",")
  }

  lemma DecodeElementLines(elems: seq<string>)
    ensures DecodeBody(ElementLines(elems)) == elems
  {
    var b := ElementLines(elems);
    if |elems| > 0 {
      assert b[0][0] == ' ';
      assert b != [EmptyElement] by {
        assert EmptyElement[0] == '0';
      }
      forall i | 0 <= i < |elems| ensures DecodeBody(b)[i] == elems[i] {
        var rest := elems[i] + (if i == |elems| - 1 then "" else ",");
        assert b[i] == Indent + rest;
        assert b[i][..|Indent|] == Indent;
        assert Unindent(b[i]) == rest;
        if i < |elems| - 1 {
          assert HasSuffix(rest, ",");
        }
      }
    }
  }

  predicate NoNewline(s: string) { '\n' !in s }

  /** The rendered file gives back exactly the elements, in order, whatever
      they are (an element "0.0.0.0/32" included), as long as no line break
      occurs in the set name or an element. */
  lemma DecodeRender(setName: string, elems: seq<string>)
    requires NoNewline(setName) && forall i :: 0 <= i < |elems| ==> NoNewline(elems[i])
    ensures DecodeSet(RenderSet(setName, elems)) == Some(elems)
  {
    var ls := SetLines(setName, elems);
    var b := ElementLines(elems);
    SetLinesNoNewline(setName, elems);
    SplitUnlines(ls);
    var lines := ls + [""];
    assert lines[4..|lines| - 3] == b;
    DecodeElementLines(elems);
  }

  lemma SetLinesNoNewline(setName: string, elems: seq<string>)
    requires NoNewline(setName) && forall i :: 0 <= i < |elems| ==> NoNewline(elems[i])
    ensures forall i :: 0 <= i < |SetLines(setName, elems)| ==> NoNewline(SetLines(setName, elems)[i])
  {
    var h, b := HeaderLines(setName), ElementLines(elems);
    assert NoNewline(h[0]) by {
      assert h[0] == "set " + setName + " {";
    }
    forall i | 0 <= i < |b| ensures NoNewline(b[i]) {
      if |elems| > 0 {
        assert b[i] == Indent + elems[i] + (if i == |elems| - 1 then "" else ",");
      }
    }
    assert SetLines(setName, elems) == h + b + FooterLines;
  }

  /** How `os.WriteFile` (line 112) fares on a path. It opens the file with
      truncation, writes, and closes. `OpenFails`: the open fails and the
      file is untouched. `WriteFails`: the write or the close fails after
      the truncation, and the file keeps only the first `kept` characters of
      the new content (all of it when the close is what fails). */
  datatype WriteFault = NoFault | OpenFails(msg: string) | WriteFails(msg: string, kept: nat)

  /** The part of `content` on disk after a write that stopped after `kept` characters. */
  function Partial(content: string, kept: nat): (r: string)
    ensures r <= content && (kept >= |content| ==> r == content)
  {
    content[..if kept < |content| then kept else |content|]
  }

  /** Lines 107-112 as a function of the current files: unchanged content is
      not written again; `wrote` says the file was opened for writing. */
  datatype WriteOutcome = WriteOutcome(files: map<string, string>, wrote: bool, err: Option<string>)

  function WriteIfChanged(files: map<string, string>, path: string, content: string,
                          fault: string -> WriteFault): (o: WriteOutcome)
    ensures path in files && files[path] == content ==> o == WriteOutcome(files, false, None)
    ensures !(path in files && files[path] == content) ==>
              (o.wrote <==> !fault(path).OpenFails?) && (o.err.None? <==> fault(path).NoFault?)
    ensures o.err.Some? ==> o.err == Some(fault(path).msg)
    ensures !o.wrote ==> o.files == files
    ensures o.wrote ==> path in o.files && o.files[path] <= content
    ensures o.err.None? ==> path in o.files && o.files[path] == content
    ensures forall p :: p != path ==> (p in o.files <==> p in files) && (p in files ==> o.files[p] == files[p])
  {
    if path in files && files[path] == content then WriteOutcome(files, false, None)
    else match fault(path)
      case OpenFails(e) => WriteOutcome(files, false, Some(e))
      case WriteFails(e, kept) => WriteOutcome(files[path := Partial(content, kept)], true, Some(e))
      case NoFault => WriteOutcome(files[path := content], true, None)
  }

  /** Writing the same file twice in a row opens it twice only when the
      first attempt left it cut short; once a write succeeded, the second
      call writes nothing. */
  lemma WriteTwiceWritesOnce(files: map<string, string>, path: string, content: string,
                             fault: string -> WriteFault)
    ensures var first := WriteIfChanged(files, path, content, fault);
      var second := WriteIfChanged(first.files, path, content, fault);
      (first.wrote && second.wrote ==> fault(path).WriteFails? && fault(path).kept < |content|)
      && (first.err.None? ==> !second.wrote && second.files == first.files)
  {
  }

  /** Lines 86-107: the strings.Builder loop. `written` holds the lines
      appended so far. */
  method BuildSetText(setName: string, elems: seq<string>) returns (b: string)
    ensures b == RenderSet(setName, elems)
  {
    ghost var written: seq<string> := [];
    b := "";
    b := b + ("set " + setName + " {") + "\n";
    UnlinesSnoc(written, "set " + setName + " {");
    written := written + ["set " + setName + " {"];
    b := b + "    type ipv4_addr" + "\n";
    UnlinesSnoc(written, "    type ipv4_addr");
    written := written + ["    type ipv4_addr"];
    b := b + "    flags interval" + "\n";
    UnlinesSnoc(written, "    flags interval");
    written := written + ["    flags interval"];
    b := b + "    elements = {" + "\n";
    UnlinesSnoc(written, "    elements = {");
    written := written + ["    elements = {"];
    assert written == HeaderLines(setName);
    b := AppendElements(b, written, elems);
    written := written + ElementLines(elems);
    b := b + "    }" + "\n";
    UnlinesSnoc(written, "    }");
    written := written + ["    }"];
    b := b + "}" + "\n";
    UnlinesSnoc(written, "}");
    written := written + ["}"];
    assert written == SetLines(setName, elems);
  }

  /** Lines 92-102: the element lines, or the placeholder for an empty list. */
  method AppendElements(b0: string, ghost written: seq<string>, elems: seq<string>) returns (b: string)
    requires b0 == Unlines(written)
    ensures b == Unlines(written + ElementLines(elems))
  {
    b := b0;
    if |elems| == 0 {
      b := b + EmptyElement + "\n";
      UnlinesSnoc(written, EmptyElement);
    } else {
      ghost var body := ElementLines(elems);
      var i := 0;
      assert written + body[..0] == written;
      while i < |elems|
        invariant 0 <= i <= |elems|
        invariant b == Unlines(written + body[..i])
      {
        var sep := ",";
        if i == |elems| - 1 {
          sep := "";
        }
        var line := Indent + elems[i] + sep;
        assert line == body[i];
        UnlinesSnoc(written + body[..i], line);
        PrefixSnoc(written, body, i);
        b := b + line + "\n";
        i := i + 1;
      }
      assert body[..i] == body;
    }
  }

  /** Extending a prefix by one element appends that element. */
  lemma PrefixSnoc(w: seq<string>, body: seq<string>, i: nat)
    requires i < |body|
    ensures w + body[..i + 1] == w + body[..i] + [body[i]]
  {
    assert body[..i + 1] == body[..i] + [body[i]];
  }

  /** The agent's view of the disk: file contents and the paths written, in order. */
  class FileSystem {
    var files: map<string, string>
    var writes: seq<string>

    constructor(files: map<string, string>)
      ensures this.files == files && writes == []
    {
      this.files := files;
      writes := [];
    }

    /** writeSetFile (lines 85-113). `fault` says how each write fares. */
    method WriteSetFile(path: string, setName: string, elems: seq<string>, fault: string -> WriteFault)
      returns (err: Option<string>)
      modifies this
      ensures var o := WriteIfChanged(old(files), path, RenderSet(setName, elems), fault);
        files == o.files && err == o.err
        && writes == old(writes) + (if o.wrote then [path] else [])
    {
      var b := BuildSetText(setName, elems);
      if path in files && files[path] == b {
        return None;
      }
      match fault(path)
      case OpenFails(e) =>
        err := Some(e);
      case WriteFails(e, kept) =>
        files := files[path := Partial(b, kept)];
        writes := writes + [path];
        err := Some(e);
      case NoFault =>
        files := files[path := b];
        writes := writes + [path];
        err := None;
    }
  }

  const WhitelistPath := "/app/volumes/firewall/websites_whitelist.nft"
  const BypassPath := "/app/volumes/firewall/override_bypass.nft"
  const BlockPath := "/app/volumes/firewall/override_block.nft"

  /** One set file to write: its path, set name and elements. */
  datatype SetJob = SetJob(path: string, setName: string, elems: seq<string>)

  /** The three files of Sync, in the order it writes them. */
  function SyncJobs(whitelist: seq<string>, bypass: seq<string>, block: seq<string>): seq<SetJob> {
    [SetJob(WhitelistPath, "whitelist_ips", whitelist),
     SetJob(BypassPath, "override_bypass", bypass),
     SetJob(BlockPath, "override_block", block)]
  }

  /** Writing the jobs in order, stopping at the first error. */
  function RunJobs(files: map<string, string>, jobs: seq<SetJob>, fault: string -> WriteFault)
    : (r: (map<string, string>, seq<string>, Option<string>))
    decreases |jobs|
  {
    if |jobs| == 0 then (files, [], None)
    else
      var o := WriteIfChanged(files, jobs[0].path, RenderSet(jobs[0].setName, jobs[0].elems), fault);
      if o.err.Some? then (o.files, (if o.wrote then [jobs[0].path] else []), o.err)
      else
        var rest := RunJobs(o.files, jobs[1..], fault);
        (rest.0, (if o.wrote then [jobs[0].path] else []) + rest.1, rest.2)
  }

  predicate DistinctPaths(jobs: seq<SetJob>) {
    forall i, j :: 0 <= i < j < |jobs| ==> jobs[i].path != jobs[j].path
  }

  /** Job j's file holds its rendered set. */
  predicate Holds(files: map<string, string>, job: SetJob) {
    job.path in files && files[job.path] == RenderSet(job.setName, job.elems)
  }

  /** Without an error every job's file holds its rendered set. */
  lemma {:induction false} RunJobsSuccess(files: map<string, string>, jobs: seq<SetJob>,
                                          fault: string -> WriteFault)
    requires DistinctPaths(jobs)
    ensures RunJobs(files, jobs, fault).2.None? ==>
              forall j :: 0 <= j < |jobs| ==> Holds(RunJobs(files, jobs, fault).0, jobs[j])
    decreases |jobs|
  {
    if |jobs| > 0 {
      var o := WriteIfChanged(files, jobs[0].path, RenderSet(jobs[0].setName, jobs[0].elems), fault);
      if o.err.None? {
        RunJobsSuccess(o.files, jobs[1..], fault);
        RunJobsKeeps(o.files, jobs[1..], fault, jobs[0].path);
        var r := RunJobs(files, jobs, fault);
        if r.2.None? {
          forall j | 0 <= j < |jobs| ensures Holds(r.0, jobs[j]) {
            if j > 0 {
              assert jobs[j] == jobs[1..][j - 1];
            }
          }
        }
      }
    }
  }

  /** With an error, some job k failed: the jobs before k ran without one,
      and the result is the state that job k's failed write left, with the
      error of that write. */
  lemma {:induction false} RunJobsFailure(files: map<string, string>, jobs: seq<SetJob>,
                                          fault: string -> WriteFault)
    ensures RunJobs(files, jobs, fault).2.Some? ==>
              exists k :: 0 <= k < |jobs| && FailedAt(files, jobs, fault, k)
    decreases |jobs|
  {
    if |jobs| > 0 {
      var o := WriteIfChanged(files, jobs[0].path, RenderSet(jobs[0].setName, jobs[0].elems), fault);
      if o.err.None? {
        RunJobsFailure(o.files, jobs[1..], fault);
        if RunJobs(o.files, jobs[1..], fault).2.Some? {
          var k :| 0 <= k < |jobs[1..]| && FailedAt(o.files, jobs[1..], fault, k);
          FailedLater(files, jobs, fault, k);
        }
      } else {
        assert jobs[..0] == [];
        assert [] + Wrote(o, jobs[0].path) == Wrote(o, jobs[0].path);
        assert FailedAt(files, jobs, fault, 0);
      }
    }
  }

  /** A failure at k in the jobs after a successful first job is a failure
      at k + 1 in all the jobs. */
  lemma FailedLater(files: map<string, string>, jobs: seq<SetJob>, fault: string -> WriteFault, k: nat)
    requires k + 1 < |jobs|
    requires WriteIfChanged(files, jobs[0].path, RenderSet(jobs[0].setName, jobs[0].elems), fault).err.None?
    requires FailedAt(WriteIfChanged(files, jobs[0].path, RenderSet(jobs[0].setName, jobs[0].elems), fault).files,
                      jobs[1..], fault, k)
    ensures FailedAt(files, jobs, fault, k + 1)
  {
    var o := WriteIfChanged(files, jobs[0].path, RenderSet(jobs[0].setName, jobs[0].elems), fault);
    var before := RunJobs(o.files, jobs[1..][..k], fault);
    var ok := WriteIfChanged(before.0, jobs[k + 1].path, RenderSet(jobs[k + 1].setName, jobs[k + 1].elems), fault);
    assert jobs[1..][k] == jobs[k + 1];
    assert jobs[..k + 1] == [jobs[0]] + jobs[1..][..k];
    RunJobsCons(files, jobs[0], jobs[1..][..k], fault);
    assert jobs == [jobs[0]] + jobs[1..];
    RunJobsCons(files, jobs[0], jobs[1..], fault);
    AppendAssoc(Wrote(o, jobs[0].path), before.1, Wrote(ok, jobs[k + 1].path));
  }

  /** Job k's write fails after the jobs before it ran without an error. */
  predicate FailedAt(files: map<string, string>, jobs: seq<SetJob>, fault: string -> WriteFault, k: nat)
    requires k < |jobs|
  {
    var before := RunJobs(files, jobs[..k], fault);
    var o := WriteIfChanged(before.0, jobs[k].path, RenderSet(jobs[k].setName, jobs[k].elems), fault);
    before.2.None? && o.err.Some?
    && RunJobs(files, jobs, fault) == (o.files, before.1 + Wrote(o, jobs[k].path), o.err)
  }

  /** Once a run succeeded, running the same jobs again on its result writes
      nothing and changes nothing. */
  lemma {:induction false} RunJobsIdempotent(files: map<string, string>, jobs: seq<SetJob>,
                                             fault: string -> WriteFault)
    requires DistinctPaths(jobs)
    requires RunJobs(files, jobs, fault).2.None?
    ensures var done := RunJobs(files, jobs, fault).0;
      RunJobs(done, jobs, fault) == (done, [], None)
  {
    var done := RunJobs(files, jobs, fault).0;
    RunJobsSuccess(files, jobs, fault);
    AllHeldUnchanged(done, jobs, fault);
  }

  lemma {:induction false} AllHeldUnchanged(files: map<string, string>, jobs: seq<SetJob>,
                                            fault: string -> WriteFault)
    requires forall j :: 0 <= j < |jobs| ==> Holds(files, jobs[j])
    ensures RunJobs(files, jobs, fault) == (files, [], None)
    decreases |jobs|
  {
    if |jobs| > 0 {
      assert Holds(files, jobs[0]);
      var o := WriteIfChanged(files, jobs[0].path, RenderSet(jobs[0].setName, jobs[0].elems), fault);
      assert o == WriteOutcome(files, false, None);
      forall j | 0 <= j < |jobs[1..]| ensures Holds(files, jobs[1..][j]) {
        assert jobs[1..][j] == jobs[j + 1];
      }
      AllHeldUnchanged(files, jobs[1..], fault);
      var none: seq<string> := [];
      assert none + none == none;
    }
  }

  /** A path no job names keeps its content. */
  lemma {:induction false} RunJobsKeeps(files: map<string, string>, jobs: seq<SetJob>, fault: string -> WriteFault, p: string)
    requires forall j :: 0 <= j < |jobs| ==> jobs[j].path != p
    ensures var r := RunJobs(files, jobs, fault);
      (p in r.0 <==> p in files) && (p in files ==> r.0[p] == files[p])
    decreases |jobs|
  {
    if |jobs| > 0 {
      var o := WriteIfChanged(files, jobs[0].path, RenderSet(jobs[0].setName, jobs[0].elems), fault);
      RunJobsKeeps(o.files, jobs[1..], fault, p);
    }
  }

  /** Sync (lines 22-65): the three queries, then the three files in order.
      A query result is Err with its message when the query fails. */
  method Sync(fs: FileSystem, whitelist: Result<seq<string>>, bypass: Result<seq<string>>,
              block: Result<seq<string>>, fault: string -> WriteFault)
    returns (err: Option<string>)
    modifies fs
    ensures whitelist.Err? ==> err == Some(whitelist.error) && fs.files == old(fs.files) && fs.writes == old(fs.writes)
    ensures whitelist.Ok? && bypass.Err? ==> err == Some(bypass.error) && fs.files == old(fs.files) && fs.writes == old(fs.writes)
    ensures whitelist.Ok? && bypass.Ok? && block.Err? ==>
              err == Some(block.error) && fs.files == old(fs.files) && fs.writes == old(fs.writes)
    ensures whitelist.Ok? && bypass.Ok? && block.Ok? ==>
              var r := RunJobs(old(fs.files), SyncJobs(whitelist.value, bypass.value, block.value), fault);
              fs.files == r.0 && fs.writes == old(fs.writes) + r.1 && err == r.2
  {
    if whitelist.Err? {
      return Some(whitelist.error);
    }
    if bypass.Err? {
      return Some(bypass.error);
    }
    if block.Err? {
      return Some(block.error);
    }
    err := WriteSets(fs, whitelist.value, bypass.value, block.value, fault);
  }

  /** Lines 53-61: the three writes, in order, stopping at the first error. */
  method WriteSets(fs: FileSystem, whitelist: seq<string>, bypass: seq<string>, block: seq<string>,
                   fault: string -> WriteFault)
    returns (err: Option<string>)
    modifies fs
    ensures var r := RunJobs(old(fs.files), SyncJobs(whitelist, bypass, block), fault);
      fs.files == r.0 && fs.writes == old(fs.writes) + r.1 && err == r.2
  {
    ghost var w0 := fs.writes;
    ghost var o1 := WriteIfChanged(fs.files, WhitelistPath, RenderSet("whitelist_ips", whitelist), fault);
    ghost var o2 := WriteIfChanged(o1.files, BypassPath, RenderSet("override_bypass", bypass), fault);
    ghost var o3 := WriteIfChanged(o2.files, BlockPath, RenderSet("override_block", block), fault);
    SyncRun(fs.files, whitelist, bypass, block, fault);
    AppendAssoc(w0, Wrote(o1, WhitelistPath) + Wrote(o2, BypassPath), Wrote(o3, BlockPath));
    AppendAssoc(w0, Wrote(o1, WhitelistPath), Wrote(o2, BypassPath));
    err := fs.WriteSetFile(WhitelistPath, "whitelist_ips", whitelist, fault);
    if err.Some? {
      return;
    }
    err := fs.WriteSetFile(BypassPath, "override_bypass", bypass, fault);
    if err.Some? {
      return;
    }
    err := fs.WriteSetFile(BlockPath, "override_block", block, fault);
  }

  /** The paths a write outcome adds to the write log. */
  function Wrote(o: WriteOutcome, path: string): seq<string> {
    if o.wrote then [path] else []
  }

  /** RunJobs on the three jobs of Sync, written out write by write. */
  lemma SyncRun(files: map<string, string>, whitelist: seq<string>, bypass: seq<string>, block: seq<string>,
                fault: string -> WriteFault)
    ensures var o1 := WriteIfChanged(files, WhitelistPath, RenderSet("whitelist_ips", whitelist), fault);
      var o2 := WriteIfChanged(o1.files, BypassPath, RenderSet("override_bypass", bypass), fault);
      var o3 := WriteIfChanged(o2.files, BlockPath, RenderSet("override_block", block), fault);
      RunJobs(files, SyncJobs(whitelist, bypass, block), fault)
      == if o1.err.Some? then (o1.files, Wrote(o1, WhitelistPath), o1.err)
         else if o2.err.Some? then (o2.files, Wrote(o1, WhitelistPath) + Wrote(o2, BypassPath), o2.err)
         else (o3.files, Wrote(o1, WhitelistPath) + Wrote(o2, BypassPath) + Wrote(o3, BlockPath), o3.err)
  {
    RunThree(files, SetJob(WhitelistPath, "whitelist_ips", whitelist), SetJob(BypassPath, "override_bypass", bypass),
             SetJob(BlockPath, "override_block", block), fault);
  }

  /** RunJobs on three jobs, written out write by write. */
  lemma RunThree(files: map<string, string>, j1: SetJob, j2: SetJob, j3: SetJob, fault: string -> WriteFault)
    ensures var o1 := WriteIfChanged(files, j1.path, RenderSet(j1.setName, j1.elems), fault);
      var o2 := WriteIfChanged(o1.files, j2.path, RenderSet(j2.setName, j2.elems), fault);
      var o3 := WriteIfChanged(o2.files, j3.path, RenderSet(j3.setName, j3.elems), fault);
      RunJobs(files, [j1, j2, j3], fault)
      == if o1.err.Some? then (o1.files, Wrote(o1, j1.path), o1.err)
         else if o2.err.Some? then (o2.files, Wrote(o1, j1.path) + Wrote(o2, j2.path), o2.err)
         else (o3.files, Wrote(o1, j1.path) + Wrote(o2, j2.path) + Wrote(o3, j3.path), o3.err)
  {
    assert [j1, j2, j3] == [j1] + [j2, j3];
    assert [j2, j3] == [j2] + [j3];
    assert [j3] == [j3] + [];
    var o1 := WriteIfChanged(files, j1.path, RenderSet(j1.setName, j1.elems), fault);
    var o2 := WriteIfChanged(o1.files, j2.path, RenderSet(j2.setName, j2.elems), fault);
    var o3 := WriteIfChanged(o2.files, j3.path, RenderSet(j3.setName, j3.elems), fault);
    RunJobsCons(files, j1, [j2, j3], fault);
    RunJobsCons(o1.files, j2, [j3], fault);
    RunJobsCons(o2.files, j3, [], fault);
    assert Wrote(o1, j1.path) + [] == Wrote(o1, j1.path);
    assert Wrote(o2, j2.path) + [] == Wrote(o2, j2.path);
    assert Wrote(o3, j3.path) + [] == Wrote(o3, j3.path);
    AppendAssoc(Wrote(o1, j1.path), Wrote(o2, j2.path), Wrote(o3, j3.path));
  }

  lemma AppendAssoc(w: seq<string>, a: seq<string>, b: seq<string>)
    ensures w + (a + b) == (w + a) + b
  {
  }

  /** One step of RunJobs, on a job followed by the rest. */
  lemma RunJobsCons(files: map<string, string>, job: SetJob, rest: seq<SetJob>, fault: string -> WriteFault)
    ensures var o := WriteIfChanged(files, job.path, RenderSet(job.setName, job.elems), fault);
      var r := RunJobs(o.files, rest, fault);
      RunJobs(files, [job] + rest, fault)
      == if o.err.Some? then (o.files, (if o.wrote then [job.path] else []), o.err)
         else (r.0, (if o.wrote then [job.path] else []) + r.1, r.2)
  {
    assert ([job] + rest)[1..] == rest;
  }

}
