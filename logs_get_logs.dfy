/** The log harvest of the log-processing tools (logs/get_logs.py): the same
    harvest as the session service's, with container names built from the
    image id and build time, a third archive of the bioagents' images, an
    interface prefix on every file name, and the download side that sorts the
    uploaded archives into one directory per container. */
module LogsGetLogs {
  import opened Wrappers
  import opened Strings
  import opened Timestamps
  import opened Runtime
  import GetLogs

  /** Where the bioagents keep the images they draw. */
  const IMAGES_PATH := "/sw/cwc-integ/hms/bioagents/bioagents/images"
  /** The prefix of the keys that hold dialogue-system archives. */
  const LOG_KEY_PREFIX := "bob_ec2_logs/cwc-integ"

  // ---------------------------------------------------------------------------
  // c_ls

  /** The calls c_ls makes on a container in the given status. */
  function LsCalls(status: string, id: string, dir: string): seq<Event> {
    if status != "running" then [Started(id), Attached(id), Executed(id, ["ls", dir]), Stopped(id)]
    else [Executed(id, ["ls", dir])]
  }

  /** A container after c_ls: whatever it was, unless running it is now exited. */
  function Listed(c: Container): Container {
    if c.status == "running" then c else c.(status := "exited")
  }

  /** c_ls: start any container that is not running for the duration of one
      `ls`, and stop it again afterwards. */
  method CLs(h: Host, id: string, dir: string) returns (lines: seq<string>)
    requires id in h.containers
    modifies h
    ensures h.events == old(h.events) + LsCalls(old(h.containers[id].status), id, dir)
    ensures Started(id) in h.events[|old(h.events)|..] <==> old(h.containers[id].status) != "running"
    ensures Stopped(id) in h.events[|old(h.events)|..] <==> Started(id) in h.events[|old(h.events)|..]
    ensures lines == Listing(old(h.containers[id]), dir)
    ensures h.containers == old(h.containers)[id := Listed(old(h.containers[id]))]
    ensures h.files == old(h.files) && h.uploads == old(h.uploads)
  {
    var started := false;
    if h.containers[id].status != "running" {
      started := true;
      h.Start(id);
      h.Attach(id);
    }
    var res := h.ExecLs(id, dir);
    if res.Err? {
      assert false;
    }
    lines := res.value;
    if started {
      h.Stop(id);
    } else {
      assert h.containers == old(h.containers)[id := Listed(old(h.containers[id]))];
    }
  }

  // ---------------------------------------------------------------------------
  // Naming

  /** The image creation time as make_cont_name reads it: the part of
      attrs['Created'] before the first '.', parsed as `%Y-%m-%dT%H:%M:%S`. */
  function ImageDate(c: Container): Option<DateTime> {
    ParseIso(Split(c.image.created, '.')[0])
  }

  /** The twelve characters of the image id after its first ':'. */
  function ShortImageId(c: Container): string
    requires |Split(c.image.id, ':')| >= 2
  {
    Take(Split(c.image.id, ':')[1], 12)
  }

  /** make_cont_name: `<short image id>-<image time stamp>_<short container
      id>_<name>`. A creation time strptime rejects raises ValueError first;
      an image id without ':' then raises IndexError. */
  function MakeContName(c: Container): (r: Result<string>)
    ensures r.Ok? ==> ImageDate(c).Some?
  {
    match ImageDate(c)
    case None => Err(ValueError)
    case Some(d) =>
      if |Split(c.image.id, ':')| < 2 then Err(IndexError)
      else Ok(ShortImageId(c) + "-" + Format14(d) + "_" + Take(c.id, 12) + "_" + c.name)
  }

  /** make_cont_name fails exactly when strptime rejects the creation time
      (ValueError) or, failing that, when the image id has no ':' (IndexError). */
  lemma MakeContNameErrors(c: Container)
    ensures MakeContName(c).Ok? <==> ImageDate(c).Some? && ':' in c.image.id
    ensures ImageDate(c).None? ==> MakeContName(c) == Err(ValueError)
    ensures ImageDate(c).Some? && ':' !in c.image.id ==> MakeContName(c) == Err(IndexError)
  {
    SplitCountsSeparators(c.image.id, ':');
  }

  /** The time stamp inside a container name reads back as the image's
      creation time, and the name ends with the container's own name. */
  lemma ContNameStamp(c: Container)
    requires MakeContName(c).Ok?
    ensures var n := MakeContName(c).value;
            var k := |ShortImageId(c)| + 1;
            && |n| >= k + 14
            && n[..k] == ShortImageId(c) + "-"
            && Parse14(n[k..k + 14]) == ImageDate(c)
            && EndsWith(n, "_" + c.name)
  {
    StampedName(ShortImageId(c), ImageDate(c).value, Take(c.id, 12), c.name);
  }

  lemma StampedName(imageId: string, d: DateTime, contId: string, name: string)
    requires Valid(d) && d.micro == 0
    ensures var n := imageId + "-" + Format14(d) + "_" + contId + "_" + name;
            var k := |imageId| + 1;
            && |n| >= k + 14
            && n[..k] == imageId + "-"
            && Parse14(n[k..k + 14]) == Some(d)
            && EndsWith(n, "_" + name)
  {
    var pre := imageId + "-";
    NameShape(pre, Format14(d), "_", contId, name);
    ParseFormat(d);
    assert d.(micro := 0) == d;
  }

  lemma NameShape<T>(pre: seq<T>, stamp: seq<T>, sep: seq<T>, mid: seq<T>, last: seq<T>)
    ensures var n := pre + stamp + sep + mid + sep + last;
            && n[..|pre|] == pre
            && n[|pre|..|pre| + |stamp|] == stamp
            && n[|n| - |sep + last|..] == sep + last
  {
  }

  // ---------------------------------------------------------------------------
  // Harvest tasks

  /** What get_session_logs returns for c. */
  function SessionOutcome(c: Container): Result<string> {
    match MakeContName(c)
    case Err(e) => Err(e)
    case Ok(n) => Ok(n + "_" + GetLogs.FormatContDate(c.created) + ".log")
  }

  /** get_session_logs: write the container's log under its session log name. */
  method GetSessionLogs(h: Host, id: string) returns (r: Result<string>)
    requires id in h.containers
    modifies h
    ensures h.containers == old(h.containers) && h.events == old(h.events) && h.uploads == old(h.uploads)
    ensures r == SessionOutcome(h.containers[id])
    ensures r.Err? ==> h.files == old(h.files)
    ensures r.Ok? ==> h.files == old(h.files)[r.value := h.containers[id].logs]
  {
    var c := h.containers[id];
    var name := MakeContName(c);
    if name.Err? {
      return Err(name.exc);
    }
    var fname := name.value + "_" + GetLogs.FormatContDate(c.created) + ".log";
    h.WriteFile(fname, c.logs);
    r := Ok(fname);
  }

  /** What get_run_logs returns once it has chosen the run directory `run`. */
  function ArchiveOutcome(c: Container, run: string): Result<Option<string>> {
    match MakeContName(c)
    case Err(e) => Err(e)
    case Ok(n) =>
      match GetArchive(c, GetLogs.RUN_ROOT + run)
      case Err(e) => Err(e)
      case Ok(_) => Ok(Some(n + "_" + run + ".tar.gz"))
  }

  /** The local files after get_run_logs has chosen `run`: the archive file
      is opened before the archive is fetched, so a failed fetch leaves it
      empty. */
  function ArchiveFiles(files: map<string, string>, c: Container, run: string): map<string, string> {
    match MakeContName(c)
    case Err(_) => files
    case Ok(n) =>
      match GetArchive(c, GetLogs.RUN_ROOT + run)
      case Err(_) => files[n + "_" + run + ".tar.gz" := ""]
      case Ok(bytes) => files[n + "_" + run + ".tar.gz" := bytes]
  }

  /** What get_run_logs returns for c: None when no entry of the run
      directory starts with "20", otherwise the archive of the greatest one
      (the listing itself cannot fail here: c_ls starts the container). */
  function RunOutcome(c: Container): Result<Option<string>> {
    match GetLogs.SelectRun(Listing(c, GetLogs.RUN_DIR))
    case None => Ok(None)
    case Some(run) => ArchiveOutcome(c, run)
  }

  /** The local files after get_run_logs on c. */
  function RunFiles(files: map<string, string>, c: Container): map<string, string> {
    match GetLogs.SelectRun(Listing(c, GetLogs.RUN_DIR))
    case None => files
    case Some(run) => ArchiveFiles(files, c, run)
  }

  /** The second half of get_run_logs: name the archive of `run` and copy it
      out of the container. */
  method SaveRunArchive(h: Host, c: Container, run: string) returns (r: Result<Option<string>>)
    modifies h
    ensures h.containers == old(h.containers) && h.events == old(h.events) && h.uploads == old(h.uploads)
    ensures r == ArchiveOutcome(c, run)
    ensures h.files == ArchiveFiles(old(h.files), c, run)
  {
    var name := MakeContName(c);
    if name.Err? {
      return Err(name.exc);
    }
    var archName := name.value + "_" + run + ".tar.gz";
    h.WriteFile(archName, "");
    var archive := GetArchive(c, GetLogs.RUN_ROOT + run);
    if archive.Err? {
      return Err(archive.exc);
    }
    h.WriteFile(archName, archive.value);
    r := Ok(Some(archName));
  }

  /** get_run_logs, with this file's c_ls. */
  method GetRunLogs(h: Host, id: string) returns (r: Result<Option<string>>)
    requires id in h.containers
    modifies h
    ensures h.containers == old(h.containers)[id := Listed(old(h.containers[id]))]
    ensures h.uploads == old(h.uploads)
    ensures h.events == old(h.events) + LsCalls(old(h.containers[id].status), id, GetLogs.RUN_DIR)
    ensures r == RunOutcome(old(h.containers[id]))
    ensures h.files == RunFiles(old(h.files), old(h.containers[id]))
  {
    var c := h.containers[id];
    var dirConts := CLs(h, id, GetLogs.RUN_DIR);
    var myResult := GetLogs.SelectRun(dirConts);
    if myResult.None? {
      return Ok(None);
    }
    r := SaveRunArchive(h, c, myResult.value);
  }

  /** What get_bioagent_images returns for c: None when the daemon cannot
      produce the images archive, whatever the reason. */
  function ImagesOutcome(c: Container): (r: Result<Option<string>>)
    ensures GetArchive(c, IMAGES_PATH).Err? ==> r == Ok(None)
    ensures GetArchive(c, IMAGES_PATH).Ok? ==> (r.Ok? <==> MakeContName(c).Ok?)
    ensures r.Ok? && r.value.Some? ==> EndsWith(r.value.value, "_bioagent_images.tar.gz")
  {
    match GetArchive(c, IMAGES_PATH)
    case Err(_) => Ok(None)
    case Ok(_) =>
      match MakeContName(c)
      case Err(e) => Err(e)
      case Ok(n) => Ok(Some(n + "_bioagent_images.tar.gz"))
  }

  /** get_bioagent_images: archive the bioagents' images, if the daemon has them. */
  method GetBioagentImages(h: Host, id: string) returns (r: Result<Option<string>>)
    requires id in h.containers
    modifies h
    ensures h.containers == old(h.containers) && h.events == old(h.events) && h.uploads == old(h.uploads)
    ensures r == ImagesOutcome(h.containers[id])
    ensures r.Ok? && r.value.Some? ==>
              h.files == old(h.files)[r.value.value := h.containers[id].archives[IMAGES_PATH]]
    ensures !(r.Ok? && r.value.Some?) ==> h.files == old(h.files)
  {
    var c := h.containers[id];
    var archive := GetArchive(c, IMAGES_PATH);
    if archive.Err? {
      return Ok(None);
    }
    var name := MakeContName(c);
    if name.Err? {
      return Err(name.exc);
    }
    var archName := name.value + "_bioagent_images.tar.gz";
    h.WriteFile(archName, archive.value);
    r := Ok(Some(archName));
  }

  /** The three harvest tasks, in the order get_logs_for_container runs them. */
  datatype Task = SessionLogs | RunLogs | BioagentImages

  const TASKS: seq<Task> := [SessionLogs, RunLogs, BioagentImages]

  /** What a task returns for c, a session log name counting as a present name. */
  function TaskOutcome(c: Container, t: Task): Result<Option<string>> {
    match t
    case SessionLogs => (match SessionOutcome(c) case Err(e) => Err(e) case Ok(n) => Ok(Some(n)))
    case RunLogs => RunOutcome(c)
    case BioagentImages => ImagesOutcome(c)
  }

  /** The tasks read nothing that c_ls changes. */
  lemma TaskOutcomeListed(c: Container, t: Task)
    ensures TaskOutcome(Listed(c), t) == TaskOutcome(c, t)
  {
  }

  /** Run one task on a container that is c, or c after c_ls. */
  method RunTask(h: Host, id: string, t: Task, ghost c: Container) returns (r: Result<Option<string>>)
    requires id in h.containers && (h.containers[id] == c || h.containers[id] == Listed(c))
    modifies h
    ensures id in h.containers && (h.containers[id] == c || h.containers[id] == Listed(c))
    ensures h.uploads == old(h.uploads)
    ensures r == TaskOutcome(c, t)
    ensures r.Ok? && r.value.Some? ==> r.value.value in h.files
  {
    TaskOutcomeListed(c, t);
    match t {
      case SessionLogs =>
        var s := GetSessionLogs(h, id);
        r := if s.Ok? then Ok(Some(s.value)) else Err(s.exc);
      case RunLogs =>
        r := GetRunLogs(h, id);
      case BioagentImages =>
        r := GetBioagentImages(h, id);
    }
  }

  /** Whether a task's outcome is a file name. */
  predicate Produces(o: Result<Option<string>>) {
    o.Ok? && o.value.Some?
  }

  /** What each task returns for c, in the order they run. */
  function Outcomes(c: Container): seq<Result<Option<string>>> {
    [TaskOutcome(c, SessionLogs), TaskOutcome(c, RunLogs), TaskOutcome(c, BioagentImages)]
  }

  lemma OutcomesAt(c: Container, k: nat)
    requires k < |TASKS|
    ensures Outcomes(c)[k] == TaskOutcome(c, TASKS[k])
  {
  }

  /** What get_logs_for_container returns when its tasks return `outs` in
      turn: the renamed file names, or the first exception, None counting as
      the TypeError that prefixing it raises. */
  function HarvestNames(outs: seq<Result<Option<string>>>, interface: string): Result<seq<string>>
    decreases |outs|
  {
    if outs == [] then Ok([])
    else
      match outs[0]
      case Err(e) => Err(e)
      case Ok(None) => Err(TypeError)
      case Ok(Some(n)) =>
        match HarvestNames(outs[1..], interface)
        case Err(e) => Err(e)
        case Ok(rest) => Ok([interface + "-" + n] + rest)
  }

  /** Names already harvested, in front of what the remaining tasks yield. */
  function Prepend(names: seq<string>, rest: Result<seq<string>>): Result<seq<string>> {
    match rest
    case Err(e) => Err(e)
    case Ok(more) => Ok(names + more)
  }

  /** The harvest succeeds exactly when every task produces a file, and then
      names each task's file in order, prefixed by the interface. */
  lemma {:induction false} HarvestNamesOk(outs: seq<Result<Option<string>>>, interface: string)
    ensures HarvestNames(outs, interface).Ok? <==> forall i :: 0 <= i < |outs| ==> Produces(outs[i])
    ensures HarvestNames(outs, interface).Ok? ==>
              var names := HarvestNames(outs, interface).value;
              |names| == |outs| &&
              forall i :: 0 <= i < |outs| ==> names[i] == interface + "-" + outs[i].value.value
    decreases |outs|
  {
    if outs != [] {
      HarvestNamesOk(outs[1..], interface);
      assert forall i :: 1 <= i < |outs| ==> outs[i] == outs[1..][i - 1];
    }
  }

  /** The first task that finds nothing fails the harvest with TypeError, and
      an exception raised before it is the one that escapes. */
  lemma {:induction false} HarvestNamesFirstFailure(outs: seq<Result<Option<string>>>, interface: string, k: nat)
    requires k < |outs| && !Produces(outs[k])
    requires forall i :: 0 <= i < k ==> Produces(outs[i])
    ensures HarvestNames(outs, interface) == if outs[k].Err? then Err(outs[k].exc) else Err(TypeError)
    decreases k
  {
    if k > 0 {
      assert Produces(outs[0]);
      assert forall i :: 0 <= i < k - 1 ==> outs[1..][i] == outs[i + 1];
      HarvestNamesFirstFailure(outs[1..], interface, k - 1);
    }
  }

  /** The S3 keys of a sequence of uploads. */
  function UploadKeys(ups: seq<Upload>): seq<string> {
    if ups == [] then [] else [ups[0].key] + UploadKeys(ups[1..])
  }

  /** The keys _dump_on_s3 puts each file under. */
  function S3Keys(fnames: seq<string>): seq<string> {
    if fnames == [] then [] else [GetLogs.S3_PREFIX + fnames[0]] + S3Keys(fnames[1..])
  }

  lemma {:induction false} UploadKeysAppend(a: seq<Upload>, b: seq<Upload>)
    ensures UploadKeys(a + b) == UploadKeys(a) + UploadKeys(b)
    decreases |a|
  {
    if a == [] {
      assert a + b == b;
    } else {
      assert (a + b)[0] == a[0];
      assert (a + b)[1..] == a[1..] + b;
      UploadKeysAppend(a[1..], b);
    }
  }

  lemma {:induction false} S3KeysAppend(a: seq<string>, b: seq<string>)
    ensures S3Keys(a + b) == S3Keys(a) + S3Keys(b)
    decreases |a|
  {
    if a == [] {
      assert a + b == b;
    } else {
      assert (a + b)[0] == a[0];
      assert (a + b)[1..] == a[1..] + b;
      S3KeysAppend(a[1..], b);
    }
  }

  /** One round of get_logs_for_container's loop: run the task, then
      rename its file to `<interface>-<name>` and upload it. `c` is the
      container as the loop found it, before any c_ls. */
  method HarvestTask(h: Host, id: string, interface: string, t: Task, ghost c: Container,
                     ghost o: Result<Option<string>>)
    returns (r: Result<string>)
    requires id in h.containers && (h.containers[id] == c || h.containers[id] == Listed(c))
    requires o == TaskOutcome(c, t)
    modifies h
    ensures id in h.containers && (h.containers[id] == c || h.containers[id] == Listed(c))
    ensures o.Err? ==> r == Err(o.exc)
    ensures o == Ok(None) ==> r == Err(TypeError)
    ensures Produces(o) ==> r == Ok(interface + "-" + o.value.value)
    ensures r.Ok? ==> exists u :: h.uploads == old(h.uploads) + [u] && u == Upload(GetLogs.BUCKET, GetLogs.S3_PREFIX + r.value, u.body)
  {
    var fname := RunTask(h, id, t, c);
    if fname.Err? {
      return Err(fname.exc);
    }
    if fname.value.None? {
      return Err(TypeError);
    }
    var newFname := interface + "-" + fname.value.value;
    var moved := h.Rename(fname.value.value, newFname);
    if moved.Err? {
      assert false;
    }
    var dumped := GetLogs.DumpOnS3(h, Some(newFname));
    if dumped.Err? {
      assert false;
    }
    r := Ok(newFname);
  }

  /** A round whose task produces a file extends the names by its new name. */
  lemma HarvestRoundOk(outs: seq<Result<Option<string>>>, interface: string, i: nat, fnames: seq<string>)
    requires i < |outs| && HarvestNames(outs, interface) == Prepend(fnames, HarvestNames(outs[i..], interface))
    requires Produces(outs[i])
    ensures HarvestNames(outs, interface)
            == Prepend(fnames + [interface + "-" + outs[i].value.value], HarvestNames(outs[i + 1..], interface))
  {
    var later := HarvestNames(outs[i + 1..], interface);
    var name := interface + "-" + outs[i].value.value;
    assert outs[i..][0] == outs[i] && outs[i..][1..] == outs[i + 1..];
    assert HarvestNames(outs[i..], interface) == Prepend([name], later);
    match later {
      case Err(_) =>
      case Ok(more) =>
        assert (fnames + [name]) + more == fnames + ([name] + more);
    }
  }

  /** A round whose task does not produce a file ends the harvest with its
      exception, or TypeError for None. */
  lemma HarvestRoundFails(outs: seq<Result<Option<string>>>, interface: string, i: nat, fnames: seq<string>)
    requires i < |outs| && HarvestNames(outs, interface) == Prepend(fnames, HarvestNames(outs[i..], interface))
    requires !Produces(outs[i])
    ensures HarvestNames(outs, interface) == Err(if outs[i].Err? then outs[i].exc else TypeError)
  {
    assert outs[i..][0] == outs[i];
  }

  /** What holds after the first i rounds of get_logs_for_container's loop,
      when the tasks return `outs`: the container is c, listed or not; the
      names so far, followed by what the remaining tasks yield, make up the
      whole harvest; and one upload to the log bucket has been made per
      name, under the name's key. */
  ghost predicate Harvesting(h: Host, id: string, c: Container, interface: string,
                             outs: seq<Result<Option<string>>>, i: nat,
                             fnames: seq<string>, ups: seq<Upload>, before: seq<Upload>)
    reads h
  {
    && i <= |outs|
    && id in h.containers && (h.containers[id] == c || h.containers[id] == Listed(c))
    && HarvestNames(outs, interface) == Prepend(fnames, HarvestNames(outs[i..], interface))
    && h.uploads == before + ups
    && UploadKeys(ups) == S3Keys(fnames)
    && forall u :: u in ups ==> u.bucket == GetLogs.BUCKET
  }

  /** One round of get_logs_for_container's loop, with its bookkeeping. */
  method HarvestRound(h: Host, id: string, interface: string, i: nat, fnames: seq<string>,
                      ghost c: Container, ghost outs: seq<Result<Option<string>>>,
                      ghost ups: seq<Upload>, ghost before: seq<Upload>)
    returns (r: Result<seq<string>>, ghost ups': seq<Upload>)
    requires outs == Outcomes(c) && i < |TASKS|
    requires Harvesting(h, id, c, interface, outs, i, fnames, ups, before)
    modifies h
    ensures id in h.containers
    ensures r.Err? ==> r == HarvestNames(outs, interface)
    ensures r.Ok? ==> Harvesting(h, id, c, interface, outs, i + 1, r.value, ups', before)
  {
    OutcomesAt(c, i);
    var fname := HarvestTask(h, id, interface, TASKS[i], c, outs[i]);
    if fname.Err? {
      HarvestRoundFails(outs, interface, i, fnames);
      return Err(fname.exc), ups;
    }
    HarvestRoundOk(outs, interface, i, fnames);
    ghost var u :| h.uploads == before + ups + [u] && u == Upload(GetLogs.BUCKET, GetLogs.S3_PREFIX + fname.value, u.body);
    UploadKeysAppend(ups, [u]);
    S3KeysAppend(fnames, [fname.value]);
    ups' := ups + [u];
    r := Ok(fnames + [fname.value]);
  }

  /** get_logs_for_container: run the three tasks in order; rename each file
      to `<interface>-<name>` and upload it to the log bucket before the next
      task. */
  method GetLogsForContainer(h: Host, id: string, interface: string) returns (r: Result<seq<string>>)
    requires id in h.containers
    modifies h
    ensures id in h.containers
    ensures r == HarvestNames(Outcomes(old(h.containers[id])), interface)
    ensures r.Ok? ==> |h.uploads| >= |old(h.uploads)| && h.uploads[..|old(h.uploads)|] == old(h.uploads)
    ensures r.Ok? ==> UploadKeys(h.uploads[|old(h.uploads)|..]) == S3Keys(r.value)
    ensures r.Ok? ==> forall u :: u in h.uploads[|old(h.uploads)|..] ==> u.bucket == GetLogs.BUCKET
  {
    ghost var c := h.containers[id];
    ghost var outs := Outcomes(c);
    ghost var ups: seq<Upload> := [];
    ghost var before := h.uploads;
    var fnames: seq<string> := [];
    HarvestStart(outs, interface);
    assert h.uploads == before + ups;
    var i := 0;
    while i < |TASKS|
      invariant Harvesting(h, id, c, interface, outs, i, fnames, ups, before)
    {
      var res;
      res, ups := HarvestRound(h, id, interface, i, fnames, c, outs, ups, before);
      if res.Err? {
        return res;
      }
      fnames := res.value;
      i := i + 1;
    }
    HarvestEnd(outs, interface, fnames);
    assert h.uploads[|before|..] == ups;
    r := Ok(fnames);
  }

  lemma HarvestStart(outs: seq<Result<Option<string>>>, interface: string)
    ensures HarvestNames(outs, interface) == Prepend([], HarvestNames(outs[0..], interface))
  {
    assert outs[0..] == outs;
    if HarvestNames(outs, interface).Ok? {
      assert [] + HarvestNames(outs, interface).value == HarvestNames(outs, interface).value;
    }
  }

  lemma HarvestEnd(outs: seq<Result<Option<string>>>, interface: string, fnames: seq<string>)
    requires HarvestNames(outs, interface) == Prepend(fnames, HarvestNames(outs[|outs|..], interface))
    ensures HarvestNames(outs, interface) == Ok(fnames)
  {
    assert outs[|outs|..] == [];
    assert fnames + [] == fnames;
  }

  // ---------------------------------------------------------------------------
  // get_logs_from_s3

  /** A key get_logs_from_s3 downloads: a dialogue-system tarball. */
  predicate IsLogKey(key: string) {
    StartsWith(key, LOG_KEY_PREFIX) && EndsWith(key, ".tar.gz")
  }

  /** The key filter of get_logs_from_s3, keeping the listing's order. */
  function KeyFilter(keys: seq<string>): (r: seq<string>)
    ensures forall k :: k in r <==> k in keys && IsLogKey(k)
  {
    FilterMembers(keys, IsLogKey);
    Filter(keys, IsLogKey)
  }

  /** Filtering the keys a second time changes nothing. */
  lemma {:induction false} KeyFilterIdempotent(keys: seq<string>)
    ensures KeyFilter(KeyFilter(keys)) == KeyFilter(keys)
    decreases |keys|
  {
    if keys != [] {
      KeyFilterIdempotent(keys[1..]);
      var head: seq<string> := if IsLogKey(keys[0]) then [keys[0]] else [];
      FilterAppend(head, Filter(keys[1..], IsLogKey), IsLogKey);
    }
  }

  /** The groups the file-name pattern extracts from an archive's name:
      image id, container hash, container name and resource name. */
  datatype Groups = Groups(imageId: string, contHash: string, contName: string, resource: string)

  /** The directory one container's downloads go into: the image id with
      ':' made '-', the container name and the container hash. */
  function HeadDir(g: Groups): string {
    Replace(g.imageId, ":", "-") + "_" + g.contName + "_" + g.contHash
  }

  /** The head directory keeps the image id, with no ':' left in it, in front
      of the container name and hash. */
  lemma HeadDirShape(g: Groups)
    ensures var r := HeadDir(g);
            && |r| == |g.imageId| + 1 + |g.contName| + 1 + |g.contHash|
            && (forall i :: 0 <= i < |g.imageId| ==> r[i] == if g.imageId[i] == ':' then '-' else g.imageId[i])
            && ':' !in r[..|g.imageId|]
            && r[|g.imageId|..] == "_" + g.contName + "_" + g.contHash
  {
    ReplaceCharPointwise(g.imageId, ':', '-');
    var r := HeadDir(g);
    assert forall i :: 0 <= i < |g.imageId| ==> r[..|g.imageId|][i] == r[i];
  }

  /** The head directory of the archive under `key`, or None when the
      archive's file name does not match the pattern. */
  function DirOf(matchName: string -> Option<Groups>, key: string): Option<string> {
    match matchName(Basename(key))
    case None => None
    case Some(g) => Some(HeadDir(g))
  }

  /** The set of head directories of the keys, or None when one of the file
      names does not match. */
  function HeadDirs(matchName: string -> Option<Groups>, keys: seq<string>): Option<set<string>>
    decreases |keys|
  {
    if keys == [] then Some({})
    else
      match HeadDirs(matchName, keys[..|keys| - 1])
      case None => None
      case Some(ds) =>
        match DirOf(matchName, keys[|keys| - 1])
        case None => None
        case Some(d) => Some(ds + {d})
  }

  /** The head directories exist exactly when every name matches, and are
      then the directories of the keys and nothing else. */
  lemma {:induction false} HeadDirsSpec(matchName: string -> Option<Groups>, keys: seq<string>)
    ensures HeadDirs(matchName, keys).Some? <==> forall k :: k in keys ==> DirOf(matchName, k).Some?
    ensures HeadDirs(matchName, keys).Some? ==>
              forall d :: d in HeadDirs(matchName, keys).value <==>
                exists k :: k in keys && DirOf(matchName, k) == Some(d)
    decreases |keys|
  {
    if keys != [] {
      var init := keys[..|keys| - 1];
      var last := keys[|keys| - 1];
      HeadDirsSpec(matchName, init);
      assert keys == init + [last];
      assert forall k :: k in keys <==> k in init || k == last;
    }
  }

  /** One more key adds its directory to the head directories so far. */
  lemma HeadDirsStep(matchName: string -> Option<Groups>, keys: seq<string>, i: nat)
    requires i < |keys|
    ensures HeadDirs(matchName, keys[..i + 1]) ==
              match HeadDirs(matchName, keys[..i])
              case None => None
              case Some(ds) =>
                match DirOf(matchName, keys[i])
                case None => None
                case Some(d) => Some(ds + {d})
  {
    assert keys[..i + 1][..i] == keys[..i];
  }

  /** A key whose name does not match leaves no head directories at all. */
  lemma HeadDirsNone(matchName: string -> Option<Groups>, keys: seq<string>, i: nat)
    requires i < |keys| && DirOf(matchName, keys[i]).None?
    ensures HeadDirs(matchName, keys).None?
  {
    HeadDirsSpec(matchName, keys);
  }

  /** Every file of `before` is still there with the same contents. */
  ghost predicate KeepsAll(before: map<string, string>, after: map<string, string>) {
    forall p :: p in before ==> p in after && after[p] == before[p]
  }

  lemma KeepsAllTrans(a: map<string, string>, b: map<string, string>, c: map<string, string>)
    requires KeepsAll(a, b) && KeepsAll(b, c)
    ensures KeepsAll(a, c)
  {
  }

  /** Where one key's facilitator log goes: `log.txt` in its head directory
      under `folder`; None for a file name that does not match and for the
      images tarball, which is unpacked instead. */
  function LogTarget(folder: string, matchName: string -> Option<Groups>, key: string): Option<string> {
    match matchName(Basename(key))
    case None => None
    case Some(g) =>
      if g.resource == "bioagent_images" then None
      else Some(PathJoin(PathJoin(folder, HeadDir(g)), "log.txt"))
  }

  /** One key of get_logs_from_s3 on the folder's directories `ds` and files
      `fs`: the head directory is made if nothing is there, and the
      facilitator log, if the tarball has one, is written to its target
      unless `cached` is set and the target already exists. */
  function KeyStep(folder: string, cached: bool, matchName: string -> Option<Groups>,
                   facilitatorLog: string -> Option<string>,
                   ds: set<string>, fs: map<string, string>, key: string): (set<string>, map<string, string>)
  {
    match matchName(Basename(key))
    case None => (ds, fs)
    case Some(g) =>
      var path := PathJoin(folder, HeadDir(g));
      var outpath := PathJoin(path, "log.txt");
      (if path in ds || path in fs then ds else ds + {path},
       if g.resource != "bioagent_images" && facilitatorLog(key).Some? && !(cached && (outpath in ds || outpath in fs))
       then fs[outpath := facilitatorLog(key).value] else fs)
  }

  /** The files after one key: its facilitator log at its target, or nothing
      new. */
  lemma KeyStepFiles(folder: string, cached: bool, matchName: string -> Option<Groups>,
                     facilitatorLog: string -> Option<string>,
                     ds: set<string>, fs: map<string, string>, key: string)
    ensures var t := LogTarget(folder, matchName, key);
            KeyStep(folder, cached, matchName, facilitatorLog, ds, fs, key).1 ==
              if t.Some? && facilitatorLog(key).Some? && !(cached && (t.value in ds || t.value in fs))
              then fs[t.value := facilitatorLog(key).value] else fs
  {
  }

  /** Where one key leaves the file `t`: written with its own log, or kept
      when the key writes elsewhere. */
  lemma KeyStepAt(folder: string, matchName: string -> Option<Groups>,
                  facilitatorLog: string -> Option<string>,
                  ds: set<string>, fs: map<string, string>, key: string, t: string, v: string)
    requires || (LogTarget(folder, matchName, key) == Some(t) && facilitatorLog(key) == Some(v))
             || (t in fs && fs[t] == v && !(LogTarget(folder, matchName, key) == Some(t) && facilitatorLog(key).Some?))
    ensures var files := KeyStep(folder, false, matchName, facilitatorLog, ds, fs, key).1;
            t in files && files[t] == v
  {
    KeyStepFiles(folder, false, matchName, facilitatorLog, ds, fs, key);
  }

  /** The folder after the keys, in order. */
  function SyncState(folder: string, cached: bool, matchName: string -> Option<Groups>,
                     facilitatorLog: string -> Option<string>,
                     ds: set<string>, fs: map<string, string>, keys: seq<string>): (set<string>, map<string, string>)
    decreases |keys|
  {
    if keys == [] then (ds, fs)
    else
      var st := SyncState(folder, cached, matchName, facilitatorLog, ds, fs, keys[..|keys| - 1]);
      KeyStep(folder, cached, matchName, facilitatorLog, st.0, st.1, keys[|keys| - 1])
  }

  /** The folder after one more key. */
  lemma SyncStateStep(folder: string, cached: bool, matchName: string -> Option<Groups>,
                      facilitatorLog: string -> Option<string>,
                      ds: set<string>, fs: map<string, string>, keys: seq<string>, i: nat)
    requires i < |keys|
    ensures var st := SyncState(folder, cached, matchName, facilitatorLog, ds, fs, keys[..i]);
            SyncState(folder, cached, matchName, facilitatorLog, ds, fs, keys[..i + 1]) ==
              KeyStep(folder, cached, matchName, facilitatorLog, st.0, st.1, keys[i])
  {
    assert keys[..i + 1][..i] == keys[..i];
  }

  /** The keys only add directories and files, and with `cached` no file
      changes. */
  lemma {:induction false} SyncGrows(folder: string, cached: bool, matchName: string -> Option<Groups>,
                                     facilitatorLog: string -> Option<string>,
                                     ds: set<string>, fs: map<string, string>, keys: seq<string>)
    ensures var st := SyncState(folder, cached, matchName, facilitatorLog, ds, fs, keys);
            && ds <= st.0 && fs.Keys <= st.1.Keys
            && (cached ==> KeepsAll(fs, st.1))
    decreases |keys|
  {
    if keys != [] {
      var init := keys[..|keys| - 1];
      SyncGrows(folder, cached, matchName, facilitatorLog, ds, fs, init);
      var st := SyncState(folder, cached, matchName, facilitatorLog, ds, fs, init);
      var last := keys[|keys| - 1];
      KeyStepFiles(folder, cached, matchName, facilitatorLog, st.0, st.1, last);
      if cached {
        KeepsAllTrans(fs, st.1, KeyStep(folder, cached, matchName, facilitatorLog, st.0, st.1, last).1);
      }
    }
  }

  /** Key i writes a facilitator log, and no later key writes one to the
      same place. */
  predicate LastWriter(folder: string, matchName: string -> Option<Groups>,
                       facilitatorLog: string -> Option<string>, keys: seq<string>, i: nat)
  {
    && i < |keys| && LogTarget(folder, matchName, keys[i]).Some? && facilitatorLog(keys[i]).Some?
    && forall j :: i < j < |keys| && facilitatorLog(keys[j]).Some? ==>
         LogTarget(folder, matchName, keys[j]) != LogTarget(folder, matchName, keys[i])
  }

  /** Without `cached`, each log target holds the facilitator log of the
      last key that writes to it. */
  lemma {:induction false} SyncWrites(folder: string, matchName: string -> Option<Groups>,
                                      facilitatorLog: string -> Option<string>,
                                      ds: set<string>, fs: map<string, string>, keys: seq<string>, i: nat)
    requires LastWriter(folder, matchName, facilitatorLog, keys, i)
    ensures var files := SyncState(folder, false, matchName, facilitatorLog, ds, fs, keys).1;
            && LogTarget(folder, matchName, keys[i]).value in files
            && files[LogTarget(folder, matchName, keys[i]).value] == facilitatorLog(keys[i]).value
    decreases |keys|
  {
    var init := keys[..|keys| - 1];
    var st := SyncState(folder, false, matchName, facilitatorLog, ds, fs, init);
    var last := keys[|keys| - 1];
    var t := LogTarget(folder, matchName, keys[i]).value;
    var v := facilitatorLog(keys[i]).value;
    if i < |keys| - 1 {
      assert init[i] == keys[i];
      assert forall j :: i < j < |init| ==> init[j] == keys[j];
      SyncWrites(folder, matchName, facilitatorLog, ds, fs, init, i);
      assert facilitatorLog(last).Some? ==> LogTarget(folder, matchName, last) != Some(t);
    }
    KeyStepAt(folder, matchName, facilitatorLog, st.0, st.1, last, t, v);
  }

  /** Every last writer's log is at its target in `files`. */
  predicate LogsWritten(folder: string, matchName: string -> Option<Groups>,
                        facilitatorLog: string -> Option<string>, keys: seq<string>, files: map<string, string>)
  {
    forall i: nat :: i < |keys| && LastWriter(folder, matchName, facilitatorLog, keys, i) ==>
      && LogTarget(folder, matchName, keys[i]).value in files
      && files[LogTarget(folder, matchName, keys[i]).value] == facilitatorLog(keys[i]).value
  }

  /** Without `cached`, the folder after all keys holds every last writer's
      log. */
  lemma SyncWritesAll(folder: string, matchName: string -> Option<Groups>,
                      facilitatorLog: string -> Option<string>,
                      ds: set<string>, fs: map<string, string>, keys: seq<string>)
    ensures LogsWritten(folder, matchName, facilitatorLog, keys,
                        SyncState(folder, false, matchName, facilitatorLog, ds, fs, keys).1)
  {
    forall i: nat | LastWriter(folder, matchName, facilitatorLog, keys, i)
      ensures var files := SyncState(folder, false, matchName, facilitatorLog, ds, fs, keys).1;
              && LogTarget(folder, matchName, keys[i]).value in files
              && files[LogTarget(folder, matchName, keys[i]).value] == facilitatorLog(keys[i]).value
    {
      SyncWrites(folder, matchName, facilitatorLog, ds, fs, keys, i);
    }
  }

  /** The local folder the downloads go into. */
  class LogFolder {
    var dirs: set<string>
    var files: map<string, string>

    constructor(dirs0: set<string>, files0: map<string, string>)
      ensures dirs == dirs0 && files == files0
    {
      dirs := dirs0;
      files := files0;
    }

    /** os.path.exists */
    predicate Exists(p: string)
      reads this
    {
      p in dirs || p in files
    }

    /** The paths of the directories `ds` under `folder`. */
    ghost function Under(folder: string, ds: set<string>): set<string> {
      set d | d in ds :: PathJoin(folder, d)
    }

    /** One more head directory made, among paths that only grow. */
    lemma UnderStep(folder: string, ds: set<string>, d: string, before: set<string>, after: set<string>)
      requires Under(folder, ds) <= before <= after && PathJoin(folder, d) in after
      ensures Under(folder, ds + {d}) <= after
    {
    }

    /** One archive of get_logs_from_s3 once its head directory `path` is
        known: make the directory if it is missing; then, unless the archive
        holds the bioagents' images or `cached` is set and `log.txt` already
        exists there, write the facilitator log `log` (None: the tarball has
        none) to `log.txt`. */
    method Fetch(path: string, bioagentImages: bool, cached: bool, log: Option<string>)
      requires path != []
      modifies this
      ensures dirs == if old(Exists(path)) then old(dirs) else old(dirs) + {path}
      ensures var outpath := PathJoin(path, "log.txt");
              files == if !bioagentImages && log.Some? && !(cached && old(Exists(outpath)))
                       then old(files)[outpath := log.value] else old(files)
    {
      if !Exists(path) {
        dirs := dirs + {path};
      }
      if !bioagentImages {
        var outpath := PathJoin(path, "log.txt");
        assert !StartsWith("log.txt", "/") by { assert "log.txt"[..1][0] == 'l'; }
        assert outpath != path;
        if !(cached && Exists(outpath)) && log.Some? {
          files := files[outpath := log.value];
        }
      }
    }

    /** One key of get_logs_from_s3: match the archive's file name, and on a
        match fetch the archive into its head directory under `folder`. */
    method SyncKey(key: string, folder: string, cached: bool,
                   matchName: string -> Option<Groups>,
                   facilitatorLog: string -> Option<string>)
      returns (d: Option<string>)
      modifies this
      ensures d == DirOf(matchName, key)
      ensures d.Some? ==> Exists(PathJoin(folder, d.value))
      ensures old(dirs) <= dirs && old(files.Keys) <= files.Keys
      ensures cached ==> KeepsAll(old(files), files)
      ensures (dirs, files) == KeyStep(folder, cached, matchName, facilitatorLog, old(dirs), old(files), key)
    {
      var m := matchName(Basename(key));
      if m.None? {
        return None;
      }
      var headDirPath := HeadDir(m.value);
      var path := PathJoin(folder, headDirPath);
      assert path != [] by { HeadDirShape(m.value); }
      Fetch(path, m.value.resource == "bioagent_images", cached, facilitatorLog(key));
      d := Some(headDirPath);
    }

    /** get_logs_from_s3: for each log key, make the container's head
        directory under `folder` ("" for no folder), and fetch the archive
        into it. `matchName` stands for the file-name pattern (None: no match,
        which fails the assertion) and `facilitatorLog` for the facilitator.log
        inside each tarball (None: the tarball has none). The images tarball
        is unpacked into the head directory, which is not modelled. */
    method SyncFromS3(keys: seq<string>, folder: string, cached: bool,
                      matchName: string -> Option<Groups>,
                      facilitatorLog: string -> Option<string>)
      returns (r: Result<set<string>>)
      modifies this
      ensures r.Ok? <==> HeadDirs(matchName, KeyFilter(keys)).Some?
      ensures r.Err? ==> r.exc == AssertionError
      ensures r.Ok? ==> r.value == HeadDirs(matchName, KeyFilter(keys)).value
      ensures r.Ok? ==> forall d :: d in r.value ==> Exists(PathJoin(folder, d))
      ensures old(dirs) <= dirs && old(files.Keys) <= files.Keys
      ensures cached ==> KeepsAll(old(files), files)
      ensures r.Ok? ==> (dirs, files) == SyncState(folder, cached, matchName, facilitatorLog, old(dirs), old(files), KeyFilter(keys))
      ensures r.Ok? && !cached ==> LogsWritten(folder, matchName, facilitatorLog, KeyFilter(keys), files)
    {
      var todo := KeyFilter(keys);
      var dirSet: set<string> := {};
      var i := 0;
      while i < |todo|
        invariant 0 <= i <= |todo|
        invariant HeadDirs(matchName, todo[..i]) == Some(dirSet)
        invariant Under(folder, dirSet) <= dirs + files.Keys
        invariant (dirs, files) == SyncState(folder, cached, matchName, facilitatorLog, old(dirs), old(files), todo[..i])
      {
        ghost var filesBefore := files;
        ghost var pathsBefore := dirs + files.Keys;
        var d := SyncKey(todo[i], folder, cached, matchName, facilitatorLog);
        if d.None? {
          HeadDirsNone(matchName, todo, i);
          SyncGrows(folder, cached, matchName, facilitatorLog, old(dirs), old(files), todo[..i]);
          return Err(AssertionError);
        }
        HeadDirsStep(matchName, todo, i);
        UnderStep(folder, dirSet, d.value, pathsBefore, dirs + files.Keys);
        SyncStateStep(folder, cached, matchName, facilitatorLog, old(dirs), old(files), todo, i);
        dirSet := dirSet + {d.value};
        i := i + 1;
      }
      assert todo[..i] == todo;
      assert forall d :: d in dirSet ==> PathJoin(folder, d) in Under(folder, dirSet);
      SyncGrows(folder, cached, matchName, facilitatorLog, old(dirs), old(files), todo);
      if !cached {
        SyncWritesAll(folder, matchName, facilitatorLog, old(dirs), old(files), todo);
      }
      r := Ok(dirSet);
    }
  }
}
