/** The log harvest of the session service (get_logs.py): list a container's
    run directories, archive the newest one, save the container's own log,
    and upload both to S3. */
module GetLogs {
  import opened Wrappers
  import opened Strings
  import opened Runtime

  const BUCKET := "cwc-hms"
  const S3_PREFIX := "bob_ec2_logs/"
  /** The directory whose entries are the runs of the dialogue system. */
  const RUN_DIR := "cwc-integ"
  /** The absolute path of RUN_DIR inside the container. */
  const RUN_ROOT := "/sw/cwc-integ/"

  // ---------------------------------------------------------------------------
  // c_ls

  /** The calls c_ls makes on a container in the given status. */
  function LsCalls(status: string, id: string, dir: string): seq<Event> {
    if status == "exited" then [Started(id), Attached(id), Executed(id, ["ls", dir]), Stopped(id)]
    else [Executed(id, ["ls", dir])]
  }

  /** c_ls: start an exited container for the duration of one `ls`, and stop
      it again afterwards. Any other status that is not 'running' makes the
      daemon refuse the exec. */
  method CLs(h: Host, id: string, dir: string) returns (r: Result<seq<string>>)
    requires id in h.containers
    modifies h
    ensures h.events == old(h.events) + LsCalls(old(h.containers[id].status), id, dir)
    ensures Started(id) in h.events[|old(h.events)|..] <==> old(h.containers[id].status) == "exited"
    ensures Stopped(id) in h.events[|old(h.events)|..] <==> Started(id) in h.events[|old(h.events)|..]
    ensures r.Ok? <==> old(h.containers[id].status) in {"exited", "running"}
    ensures r.Err? ==> r.exc == ApiError
    ensures r.Ok? ==> r.value == Listing(old(h.containers[id]), dir)
    ensures h.containers == old(h.containers)
    ensures h.files == old(h.files) && h.uploads == old(h.uploads)
  {
    var started := false;
    if h.containers[id].status == "exited" {
      started := true;
      h.Start(id);
      h.Attach(id);
    }
    r := h.ExecLs(id, dir);
    if r.Err? {
      return;
    }
    if started {
      h.Stop(id);
      assert h.containers[id] == old(h.containers[id]);
    }
  }

  // ---------------------------------------------------------------------------
  // Naming

  predicate IsRunDir(entry: string) {
    StartsWith(entry, "20")
  }

  /** max([p for p in lines if p.startswith('20')]), or None when there is
      no such entry. */
  function SelectRun(lines: seq<string>): Option<string> {
    var candidates := Filter(lines, IsRunDir);
    if candidates == [] then None else Some(MaxOf(candidates))
  }

  /** The selection is None exactly when no entry is a run directory, and
      otherwise the greatest run directory listed. */
  lemma SelectRunSpec(lines: seq<string>)
    ensures SelectRun(lines).None? <==> forall l :: l in lines ==> !IsRunDir(l)
    ensures SelectRun(lines).Some? ==> SelectRun(lines).value in lines && IsRunDir(SelectRun(lines).value)
    ensures SelectRun(lines).Some? ==> forall l :: l in lines && IsRunDir(l) ==> LexLe(l, SelectRun(lines).value)
  {
    var candidates := Filter(lines, IsRunDir);
    FilterMembers(lines, IsRunDir);
    if candidates != [] {
      var m := MaxOf(candidates);
      forall l | l in lines && IsRunDir(l) ensures LexLe(l, m) {
        assert l in candidates;
        var i :| 0 <= i < |candidates| && candidates[i] == l;
      }
    }
  }

  /** s with every ':' and '.' turned into '-'. */
  function Dashed(s: string): string {
    Replace(Replace(s, ":", "-"), ".", "-")
  }

  /** Dashed works character by character. */
  lemma DashedPointwise(s: string)
    ensures |Dashed(s)| == |s|
    ensures forall i :: 0 <= i < |s| ==> Dashed(s)[i] == if s[i] == ':' || s[i] == '.' then '-' else s[i]
  {
    ReplaceCharPointwise(s, ':', '-');
    ReplaceCharPointwise(Replace(s, ":", "-"), '.', '-');
  }

  /** format_cont_date: the creation time with ':' and '.' made '-', cut
      before its last '-' (which drops the fractional seconds). */
  function FormatContDate(created: string): string {
    DropLastSegment(Dashed(created), '-')
  }

  /** The date part of a file name holds no ':' and no '.'. */
  lemma FormatContDateChars(created: string)
    ensures ':' !in FormatContDate(created) && '.' !in FormatContDate(created)
  {
    DashedPointwise(created);
    FormatContDateCut(created);
    var d := Dashed(created);
    var r := FormatContDate(created);
    assert forall i :: 0 <= i < |r| ==> r[i] == d[i];
  }

  /** format_cont_date keeps exactly what comes before the last '-' of the
      dashed creation time, and is empty when there is no '-'. */
  lemma FormatContDateCut(created: string)
    ensures var d := Dashed(created);
            var r := DropLastSegment(d, '-');
            && |r| <= |d| && r == d[..|r|]
            && ('-' in d ==> |r| < |d| && d[|r|] == '-' && '-' !in d[|r| + 1..])
            && ('-' !in d ==> r == [])
  {
    var d := Dashed(created);
    var r := DropLastSegment(d, '-');
    DropLastSegmentSpec(d, '-');
    if '-' in d {
      var last := Split(d, '-')[|Split(d, '-')| - 1];
      assert d == r + ['-'] + last;
      assert d[..|r|] == r;
      assert d[|r| + 1..] == last;
    }
  }

  /** make_cont_name: Config.Image, Config.Hostname and the container name. */
  function MakeContName(c: Container): string {
    c.image.configImage + "_" + c.image.configHostname + "_" + c.name
  }

  /** The local file get_session_logs writes. */
  function SessionLogName(c: Container): string {
    MakeContName(c) + "_" + FormatContDate(c.created) + ".log"
  }

  /** The local archive get_run_logs writes for run directory `run`. */
  function RunArchiveName(c: Container, run: string): string {
    MakeContName(c) + "_" + run + ".tar.gz"
  }

  /** The session log name is `<cont_name>_<cont_date>.log`, and the date can
      be read back from it. */
  lemma SessionLogNameParts(c: Container)
    ensures var r := SessionLogName(c);
            && |r| == |MakeContName(c)| + 1 + |FormatContDate(c.created)| + 4
            && StartsWith(r, MakeContName(c) + "_") && EndsWith(r, ".log")
            && r[|MakeContName(c)| + 1..|r| - 4] == FormatContDate(c.created)
  {
    var r := SessionLogName(c);
    assert r[..|MakeContName(c)| + 1] == MakeContName(c) + "_";
  }

  /** The run archive name is `<cont_name>_<run>.tar.gz`, and the run
      directory can be read back from it. */
  lemma RunArchiveNameParts(c: Container, run: string)
    ensures var r := RunArchiveName(c, run);
            && |r| == |MakeContName(c)| + 1 + |run| + 7
            && StartsWith(r, MakeContName(c) + "_") && EndsWith(r, ".tar.gz")
            && r[|MakeContName(c)| + 1..|r| - 7] == run
  {
    var r := RunArchiveName(c, run);
    assert r[..|MakeContName(c)| + 1] == MakeContName(c) + "_";
  }

  /** A session log and a run archive never share a file name. */
  lemma SessionLogIsNotArchive(c: Container, d: Container, run: string)
    ensures SessionLogName(c) != RunArchiveName(d, run)
  {
    var a := SessionLogName(c);
    var b := RunArchiveName(d, run);
    assert a[|a| - 1] == 'g' && b[|b| - 1] == 'z';
  }

  // ---------------------------------------------------------------------------
  // Harvest

  /** get_session_logs: write the container's log under SessionLogName. */
  method GetSessionLogs(h: Host, id: string) returns (fname: string)
    requires id in h.containers
    modifies h
    ensures h.containers == old(h.containers) && h.events == old(h.events) && h.uploads == old(h.uploads)
    ensures fname == SessionLogName(h.containers[id])
    ensures h.files == old(h.files)[fname := h.containers[id].logs]
  {
    var c := h.containers[id];
    fname := SessionLogName(c);
    h.WriteFile(fname, c.logs);
  }

  /** Whether c_ls can list a container in this status. */
  predicate CanList(status: string) {
    status == "exited" || status == "running"
  }

  /** What get_run_logs returns for container c: the daemon's refusal to
      list it, None when no run directory exists, the failure to fetch the
      newest run's archive, or the name of the archive written. */
  function RunOutcome(c: Container): Result<Option<string>> {
    if !CanList(c.status) then Err(ApiError)
    else match SelectRun(Listing(c, RUN_DIR))
      case None => Ok(None)
      case Some(run) =>
        match GetArchive(c, RUN_ROOT + run)
        case Err(e) => Err(e)
        case Ok(_) => Ok(Some(RunArchiveName(c, run)))
  }

  /** The local files after get_run_logs on c. The archive file is opened
      before the daemon is asked for the archive, so a failed request leaves
      an empty file behind. */
  function RunFiles(files: map<string, string>, c: Container): map<string, string> {
    if !CanList(c.status) then files
    else match SelectRun(Listing(c, RUN_DIR))
      case None => files
      case Some(run) =>
        match GetArchive(c, RUN_ROOT + run)
        case Err(_) => files[RunArchiveName(c, run) := ""]
        case Ok(bytes) => files[RunArchiveName(c, run) := bytes]
  }

  /** get_run_logs answers None exactly when no entry of the run directory
      starts with "20"; otherwise it names the archive of the greatest such
      entry, and that archive holds the run's bytes. */
  lemma RunOutcomeNames(c: Container, files: map<string, string>)
    requires CanList(c.status)
    ensures RunOutcome(c) == Ok(None) <==> forall l :: l in Listing(c, RUN_DIR) ==> !IsRunDir(l)
    ensures RunOutcome(c).Ok? && RunOutcome(c).value.Some? ==>
              exists run :: run in Listing(c, RUN_DIR) && IsRunDir(run) && RUN_ROOT + run in c.archives
                && (forall l :: l in Listing(c, RUN_DIR) && IsRunDir(l) ==> LexLe(l, run))
                && RunOutcome(c).value.value == RunArchiveName(c, run)
                && RunFiles(files, c)[RunArchiveName(c, run)] == c.archives[RUN_ROOT + run]
  {
    SelectRunSpec(Listing(c, RUN_DIR));
    var sel := SelectRun(Listing(c, RUN_DIR));
    if RunOutcome(c).Ok? && RunOutcome(c).value.Some? {
      assert sel.Some?;
      var run := sel.value;
      assert RunFiles(files, c)[RunArchiveName(c, run)] == c.archives[RUN_ROOT + run];
    }
  }

  /** get_run_logs writes no file other than a run archive, and the archive
      it names exists afterwards. */
  lemma RunFilesFrame(files: map<string, string>, c: Container, n: string)
    requires n in files && forall run :: n != RunArchiveName(c, run)
    ensures n in RunFiles(files, c) && RunFiles(files, c)[n] == files[n]
    ensures RunOutcome(c).Ok? ==> AllPresent(RunFiles(files, c), [RunOutcome(c).value])
  {
  }

  /** get_run_logs keeps every file there was, and the archive it names is
      among the files. */
  lemma RunFilesGrow(files: map<string, string>, c: Container)
    ensures files.Keys <= RunFiles(files, c).Keys
    ensures RunOutcome(c).Ok? && RunOutcome(c).value.Some? ==> RunOutcome(c).value.value in RunFiles(files, c)
  {
  }

  /** get_run_logs: archive the newest run directory, if there is one. */
  method GetRunLogs(h: Host, id: string) returns (r: Result<Option<string>>)
    requires id in h.containers
    modifies h
    ensures h.containers == old(h.containers) && h.uploads == old(h.uploads)
    ensures h.events == old(h.events) + LsCalls(old(h.containers[id].status), id, RUN_DIR)
    ensures r == RunOutcome(old(h.containers[id]))
    ensures h.files == RunFiles(old(h.files), old(h.containers[id]))
  {
    var dirConts := CLs(h, id, RUN_DIR);
    if dirConts.Err? {
      return Err(dirConts.exc);
    }
    var c := h.containers[id];
    var myResult := SelectRun(dirConts.value);
    if myResult.None? {
      return Ok(None);
    }
    var archName := RunArchiveName(c, myResult.value);
    h.WriteFile(archName, "");
    var archive := GetArchive(c, RUN_ROOT + myResult.value);
    if archive.Err? {
      return Err(archive.exc);
    }
    h.WriteFile(archName, archive.value);
    r := Ok(Some(archName));
  }

  /** The upload _dump_on_s3 makes for `fname`: none for None or "". */
  function UploadFor(files: map<string, string>, fname: Option<string>): seq<Upload>
    requires fname.Some? && fname.value != [] ==> fname.value in files
  {
    match fname
    case Some(n) => if n == [] then [] else [Upload(BUCKET, S3_PREFIX + n, files[n])]
    case None => []
  }

  /** _dump_on_s3: upload a local file under bob_ec2_logs/ in the cwc-hms
      bucket, skipping a missing (None or empty) name. */
  method DumpOnS3(h: Host, fname: Option<string>) returns (r: Result<()>)
    modifies h
    ensures h.containers == old(h.containers) && h.events == old(h.events) && h.files == old(h.files)
    ensures fname.None? || fname.value == [] ==> r.Ok? && h.uploads == old(h.uploads)
    ensures fname.Some? && fname.value != [] && fname.value !in h.files ==>
              r == Err(FileNotFound) && h.uploads == old(h.uploads)
    ensures fname.Some? && fname.value != [] && fname.value in h.files ==>
              r.Ok? && h.uploads == old(h.uploads) + [Upload(BUCKET, S3_PREFIX + fname.value, h.files[fname.value])]
  {
    if fname.None? || fname.value == [] {
      return Ok(());
    }
    if fname.value !in h.files {
      return Err(FileNotFound);
    }
    h.PutObject(BUCKET, S3_PREFIX + fname.value, h.files[fname.value]);
    r := Ok(());
  }

  /** Every name in `fnames` that _dump_on_s3 would open is a local file. */
  predicate AllPresent(files: map<string, string>, fnames: seq<Option<string>>) {
    forall i :: 0 <= i < |fnames| && fnames[i].Some? && fnames[i].value != [] ==> fnames[i].value in files
  }

  /** Names present stay present when files are only added. */
  lemma AllPresentGrow(files: map<string, string>, files': map<string, string>, fnames: seq<Option<string>>)
    requires files.Keys <= files'.Keys && AllPresent(files, fnames)
    ensures AllPresent(files', fnames)
  {
  }

  /** Every name of a concatenation is present when every name of both parts is. */
  lemma AllPresentSplit(files: map<string, string>, a: seq<Option<string>>, b: seq<Option<string>>)
    ensures AllPresent(files, a + b) <==> AllPresent(files, a) && AllPresent(files, b)
  {
    assert forall i :: 0 <= i < |a| ==> (a + b)[i] == a[i];
    assert forall i :: 0 <= i < |b| ==> (a + b)[i + |a|] == b[i];
  }

  /** The uploads _dump_on_s3 makes for each name in turn. */
  function UploadsFor(files: map<string, string>, fnames: seq<Option<string>>): seq<Upload>
    requires AllPresent(files, fnames)
  {
    if fnames == [] then [] else UploadFor(files, fnames[0]) + UploadsFor(files, fnames[1..])
  }

  lemma {:induction false} UploadsForAppend(files: map<string, string>, a: seq<Option<string>>, b: seq<Option<string>>)
    requires AllPresent(files, a) && AllPresent(files, b)
    ensures AllPresent(files, a + b)
    ensures UploadsFor(files, a + b) == UploadsFor(files, a) + UploadsFor(files, b)
    decreases |a|
  {
    assert forall i :: 0 <= i < |a + b| ==> (a + b)[i] == if i < |a| then a[i] else b[i - |a|];
    if a != [] {
      assert (a + b)[1..] == a[1..] + b;
      UploadsForAppend(files, a[1..], b);
    } else {
      assert a + b == b;
    }
  }

  /** `for fname in fnames: _dump_on_s3(fname)` */
  method DumpAll(h: Host, fnames: seq<Option<string>>) returns (r: Result<()>)
    modifies h
    ensures h.containers == old(h.containers) && h.events == old(h.events) && h.files == old(h.files)
    ensures r.Ok? <==> AllPresent(h.files, fnames)
    ensures r.Ok? ==> h.uploads == old(h.uploads) + UploadsFor(h.files, fnames)
  {
    var j := 0;
    while j < |fnames|
      invariant 0 <= j <= |fnames|
      invariant h.containers == old(h.containers) && h.events == old(h.events) && h.files == old(h.files)
      invariant AllPresent(h.files, fnames[..j])
      invariant h.uploads == old(h.uploads) + UploadsFor(h.files, fnames[..j])
    {
      var d := DumpOnS3(h, fnames[j]);
      if d.Err? {
        assert fnames[j].Some? && fnames[j].value != [] && fnames[j].value !in h.files;
        assert !AllPresent(h.files, fnames);
        return Err(d.exc);
      }
      assert fnames[..j + 1] == fnames[..j] + [fnames[j]];
      UploadsForAppend(h.files, fnames[..j], [fnames[j]]);
      j := j + 1;
    }
    assert fnames[..j] == fnames;
    r := Ok(());
  }

  /** The local files after get_logs_for_container on c: the session log is
      written, then the run archive. */
  function HarvestedFiles(files: map<string, string>, c: Container): map<string, string> {
    RunFiles(files[SessionLogName(c) := c.logs], c)
  }

  /** The uploads of a successful get_logs_for_container on c: the session
      log, then the run archive when there is one. */
  function HarvestUploads(files: map<string, string>, c: Container): (u: seq<Upload>)
    requires RunOutcome(c).Ok?
    ensures |u| >= 1 && u[0] == Upload(BUCKET, S3_PREFIX + SessionLogName(c), c.logs)
  {
    [Upload(BUCKET, S3_PREFIX + SessionLogName(c), c.logs)]
      + UploadsFor(HarvestedFiles(files, c), [RunOutcome(c).value])
  }

  /** get_logs_for_container: save the session log, then archive the run,
      then upload the two in that order. */
  method GetLogsForContainer(h: Host, id: string) returns (r: Result<()>)
    requires id in h.containers
    modifies h
    ensures h.containers == old(h.containers)
    ensures h.events == old(h.events) + LsCalls(old(h.containers[id].status), id, RUN_DIR)
    ensures h.files == RunFiles(old(h.files)[SessionLogName(old(h.containers[id])) := old(h.containers[id]).logs],
                                old(h.containers[id]))
    ensures r.Ok? <==> RunOutcome(old(h.containers[id])).Ok?
    ensures r.Err? ==> h.uploads == old(h.uploads)
    ensures r.Ok? ==>
              var c := old(h.containers[id]);
              AllPresent(h.files, [RunOutcome(c).value])
              && h.uploads == old(h.uploads)
                   + [Upload(BUCKET, S3_PREFIX + SessionLogName(c), c.logs)]
                   + UploadsFor(h.files, [RunOutcome(c).value])
    ensures h.files == HarvestedFiles(old(h.files), old(h.containers[id]))
    ensures r.Ok? ==> h.uploads == old(h.uploads) + HarvestUploads(old(h.files), old(h.containers[id]))
  {
    var c := h.containers[id];
    var sesLogFname := GetSessionLogs(h, id);
    ghost var filesWithLog := h.files;
    var runLogFname := GetRunLogs(h, id);
    if runLogFname.Err? {
      return Err(runLogFname.exc);
    }
    var run := runLogFname.value;
    forall sel ensures sesLogFname != RunArchiveName(c, sel) {
      SessionLogIsNotArchive(c, c, sel);
    }
    RunFilesFrame(filesWithLog, c, sesLogFname);
    var fnames := [Some(sesLogFname), run];
    assert AllPresent(h.files, [Some(sesLogFname)]);
    UploadsForAppend(h.files, [Some(sesLogFname)], [run]);
    assert [Some(sesLogFname)] + [run] == fnames;
    r := DumpAll(h, fnames);
  }

  /** What get_logs found: the containers in the daemon's order, with their
      session logs and run archives. */
  datatype Harvest = Harvest(ids: seq<string>, sessionLogs: seq<string>, runArchives: seq<Option<string>>)

  function Somes(names: seq<string>): (r: seq<Option<string>>)
    ensures |r| == |names| && forall i :: 0 <= i < |names| ==> r[i] == Some(names[i])
  {
    if names == [] then [] else [Some(names[0])] + Somes(names[1..])
  }

  /** The session log names of the listed containers, in order. */
  function SessionLogNames(containers: map<string, Container>, ids: seq<string>): (r: seq<string>)
    requires forall id :: id in ids ==> id in containers
    ensures |r| == |ids| && forall i :: 0 <= i < |ids| ==> r[i] == SessionLogName(containers[ids[i]])
  {
    if ids == [] then []
    else SessionLogNames(containers, ids[..|ids| - 1]) + [SessionLogName(containers[ids[|ids| - 1]])]
  }

  /** One iteration of get_logs' first loop: the session log, then the run archive. */
  method HarvestOne(h: Host, id: string) returns (ses: string, run: Result<Option<string>>)
    requires id in h.containers
    modifies h
    ensures h.containers == old(h.containers) && h.uploads == old(h.uploads)
    ensures ses == SessionLogName(h.containers[id])
    ensures run == RunOutcome(h.containers[id])
    ensures old(h.files).Keys <= h.files.Keys && ses in h.files
    ensures run.Ok? ==> AllPresent(h.files, [run.value])
  {
    ses := GetSessionLogs(h, id);
    ghost var files := h.files;
    run := GetRunLogs(h, id);
    RunFilesGrow(files, old(h.containers[id]));
  }

  /** One more container's run archive recorded. */
  lemma ArchivesStep(cs: map<string, Container>, ids: seq<string>, k: nat, arches: seq<Option<string>>,
                     run: Option<string>)
    requires k < |ids| && |arches| == k && forall i :: 0 <= i < |ids| ==> ids[i] in cs
    requires forall i :: 0 <= i < k ==> RunOutcome(cs[ids[i]]) == Ok(arches[i])
    requires RunOutcome(cs[ids[k]]) == Ok(run)
    ensures forall i :: 0 <= i < k + 1 ==> RunOutcome(cs[ids[i]]) == Ok((arches + [run])[i])
  {
  }

  /** One more container's session log recorded. */
  lemma NamesStep(cs: map<string, Container>, ids: seq<string>, k: nat)
    requires k < |ids| && forall id :: id in ids ==> id in cs
    ensures SessionLogNames(cs, ids[..k + 1]) == SessionLogNames(cs, ids[..k]) + [SessionLogName(cs[ids[k]])]
  {
    assert ids[..k + 1][..k] == ids[..k];
  }

  /** What was present stays present as one container's logs are added. */
  lemma PresentStep(files: map<string, string>, files': map<string, string>, arches: seq<Option<string>>,
                    names: seq<string>, run: Option<string>, ses: string)
    requires files.Keys <= files'.Keys
    requires AllPresent(files, arches) && AllPresent(files, Somes(names))
    requires AllPresent(files', [run]) && ses in files'
    ensures AllPresent(files', arches + [run]) && AllPresent(files', Somes(names + [ses]))
  {
    AllPresentGrow(files, files', arches);
    AllPresentSplit(files', arches, [run]);
    AllPresentGrow(files, files', Somes(names));
    assert Somes(names + [ses]) == Somes(names) + [Some(ses)];
    AllPresentSplit(files', Somes(names), [Some(ses)]);
  }

  /** The first loop of get_logs: the session log and the run archive of
      each container in turn; the daemon refusing a listing ends the run. */
  method HarvestAll(h: Host, ids: seq<string>) returns (r: Result<(seq<string>, seq<Option<string>>)>)
    requires forall id :: id in ids ==> id in h.containers
    modifies h
    ensures h.containers == old(h.containers) && h.uploads == old(h.uploads)
    ensures r.Ok? ==> r.value.0 == SessionLogNames(h.containers, ids) && |r.value.1| == |ids|
    ensures r.Ok? ==> forall i :: 0 <= i < |ids| ==> RunOutcome(h.containers[ids[i]]) == Ok(r.value.1[i])
    ensures r.Err? <==> exists i :: 0 <= i < |ids| && RunOutcome(h.containers[ids[i]]).Err?
    ensures r.Ok? ==> AllPresent(h.files, r.value.1) && AllPresent(h.files, Somes(r.value.0))
  {
    ghost var cs := h.containers;
    var masterLogs: seq<string> := [];
    var logArches: seq<Option<string>> := [];
    var k := 0;
    while k < |ids|
      invariant 0 <= k <= |ids|
      invariant h.containers == cs && h.uploads == old(h.uploads)
      invariant |logArches| == k
      invariant masterLogs == SessionLogNames(cs, ids[..k])
      invariant forall i :: 0 <= i < k ==> RunOutcome(cs[ids[i]]) == Ok(logArches[i])
      invariant AllPresent(h.files, logArches) && AllPresent(h.files, Somes(masterLogs))
    {
      ghost var files := h.files;
      var ses, run := HarvestOne(h, ids[k]);
      if run.Err? {
        return Err(run.exc);
      }
      PresentStep(files, h.files, logArches, masterLogs, run.value, ses);
      NamesStep(cs, ids, k);
      masterLogs := masterLogs + [ses];
      ArchivesStep(cs, ids, k, logArches, run.value);
      logArches := logArches + [run.value];
      k := k + 1;
    }
    assert ids[..k] == ids;
    r := Ok((masterLogs, logArches));
  }

  /** A listing of every container fails at some position exactly when some
      container's run logs cannot be listed. */
  lemma ListingFails(cs: map<string, Container>, ids: seq<string>)
    requires forall id :: id in ids <==> id in cs
    ensures (exists i :: 0 <= i < |ids| && RunOutcome(cs[ids[i]]).Err?) <==> exists id :: id in cs && RunOutcome(cs[id]).Err?
  {
    if exists id :: id in cs && RunOutcome(cs[id]).Err? {
      var id :| id in cs && RunOutcome(cs[id]).Err?;
      var i :| 0 <= i < |ids| && ids[i] == id;
    }
  }

  /** get_logs: harvest every container, then upload all run archives and
      after them all session logs. */
  method GetLogs(h: Host) returns (r: Result<Harvest>)
    modifies h
    ensures h.containers == old(h.containers)
    ensures r.Ok? <==> forall id :: id in old(h.containers) ==> RunOutcome(old(h.containers)[id]).Ok?
    ensures r.Ok? ==> (forall id :: id in r.value.ids <==> id in h.containers)
    ensures r.Ok? ==> |r.value.sessionLogs| == |r.value.ids| == |r.value.runArchives|
    ensures r.Ok? ==> r.value.sessionLogs == SessionLogNames(h.containers, r.value.ids)
    ensures r.Ok? ==> forall i :: 0 <= i < |r.value.ids| ==>
                        RunOutcome(h.containers[r.value.ids[i]]) == Ok(r.value.runArchives[i])
    ensures r.Ok? ==> AllPresent(h.files, r.value.runArchives) && AllPresent(h.files, Somes(r.value.sessionLogs))
    ensures r.Ok? ==> h.uploads == old(h.uploads) + UploadsFor(h.files, r.value.runArchives)
                                                  + UploadsFor(h.files, Somes(r.value.sessionLogs))
  {
    var contList := h.ListAll();
    var harvested := HarvestAll(h, contList);
    ListingFails(old(h.containers), contList);
    if harvested.Err? {
      return Err(harvested.exc);
    }
    var (masterLogs, logArches) := harvested.value;
    AllPresentSplit(h.files, logArches, Somes(masterLogs));
    // every harvested name is present, so the upload cannot fail
    var d := DumpAll(h, logArches + Somes(masterLogs));
    assert d.Ok?;
    UploadsForAppend(h.files, logArches, Somes(masterLogs));
    r := Ok(Harvest(contList, masterLogs, logArches));
  }
}
