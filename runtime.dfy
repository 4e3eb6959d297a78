/** The outside world the services drive, as in-memory state: the Docker
    daemon (its containers and the calls made on them), the local working
    directory the harvest writes into, and the S3 objects it uploads. */
module Runtime {
  import opened Wrappers
  import opened Timestamps

  /** `cont.image.attrs`: the fields the naming helpers read. */
  datatype Image = Image(
    id: string,              // attrs['Id'], e.g. "sha256:…"
    created: string,         // attrs['Created'], ISO 8601
    configImage: string,     // attrs['Config']['Image']
    configHostname: string)  // attrs['Config']['Hostname']

  /** What the daemon knows about one container. */
  datatype Container = Container(
    id: string,
    name: string,
    status: string,                       // 'created', 'running', 'exited', …
    created: string,                      // attrs['Created'], ISO 8601
    image: Image,
    logs: string,                         // what cont.logs() returns
    listing: map<string, seq<string>>,    // the lines `ls <dir>` prints, per directory
    archives: map<string, string>,        // what get_archive(<path>) streams, per path
    heartbeats: seq<DateTime>,            // the SPG time stamps found in the logs, in order
    portBindings: map<string, int>)       // container port -> host port

  /** A call made on a container, as the daemon sees it. */
  datatype Event =
    | Started(id: string)
    | Attached(id: string)
    | Executed(id: string, cmd: seq<string>)
    | Stopped(id: string)
    | Removed(id: string)
    | Ran(id: string, imageName: string)

  /** One S3 `put_object`. */
  datatype Upload = Upload(bucket: string, key: string, body: string)

  class Host {
    var containers: map<string, Container>
    var events: seq<Event>
    var files: map<string, string>
    var uploads: seq<Upload>

    constructor(containers0: map<string, Container>, files0: map<string, string>)
      ensures containers == containers0 && files == files0
      ensures events == [] && uploads == []
    {
      containers := containers0;
      files := files0;
      events := [];
      uploads := [];
    }

    /** container.start() */
    method Start(id: string)
      requires id in containers
      modifies this
      ensures containers == old(containers)[id := old(containers)[id].(status := "running")]
      ensures events == old(events) + [Started(id)]
      ensures files == old(files) && uploads == old(uploads)
    {
      containers := containers[id := containers[id].(status := "running")];
      events := events + [Started(id)];
    }

    /** container.attach() */
    method Attach(id: string)
      requires id in containers
      modifies this
      ensures events == old(events) + [Attached(id)]
      ensures containers == old(containers) && files == old(files) && uploads == old(uploads)
    {
      events := events + [Attached(id)];
    }

    /** container.exec_run(['ls', dir]).output.decode().splitlines(): the
        daemon refuses to exec in a container that is not running. */
    method ExecLs(id: string, dir: string) returns (r: Result<seq<string>>)
      requires id in containers
      modifies this
      ensures containers == old(containers) && files == old(files) && uploads == old(uploads)
      ensures events == old(events) + [Executed(id, ["ls", dir])]
      ensures r.Err? <==> containers[id].status != "running"
      ensures r.Err? ==> r.exc == ApiError
      ensures r.Ok? ==> r.value == Listing(containers[id], dir)
    {
      events := events + [Executed(id, ["ls", dir])];
      if containers[id].status != "running" {
        r := Err(ApiError);
      } else {
        r := Ok(Listing(containers[id], dir));
      }
    }

    /** container.stop() */
    method Stop(id: string)
      requires id in containers
      modifies this
      ensures containers == old(containers)[id := old(containers)[id].(status := "exited")]
      ensures events == old(events) + [Stopped(id)]
      ensures files == old(files) && uploads == old(uploads)
    {
      containers := containers[id := containers[id].(status := "exited")];
      events := events + [Stopped(id)];
    }

    /** container.remove(): refused while the container runs. */
    method Remove(id: string) returns (r: Result<()>)
      requires id in containers
      modifies this
      ensures r.Err? <==> old(containers)[id].status == "running"
      ensures r.Err? ==> r.exc == ApiError && containers == old(containers)
      ensures r.Ok? ==> containers == old(containers) - {id}
      ensures events == old(events) + [Removed(id)]
      ensures files == old(files) && uploads == old(uploads)
    {
      events := events + [Removed(id)];
      if containers[id].status == "running" {
        r := Err(ApiError);
      } else {
        containers := containers - {id};
        r := Ok(());
      }
    }

    /** client.containers.run(image, detach=True, ports=…): the daemon starts
        the container `c` it creates; an id already in use is refused. */
    method Run(imageName: string, ports: map<string, int>, c: Container) returns (r: Result<()>)
      modifies this
      ensures r.Err? <==> c.id in old(containers)
      ensures r.Err? ==> r.exc == ApiError && containers == old(containers) && events == old(events)
      ensures r.Ok? ==> containers == old(containers)[c.id := c.(status := "running", portBindings := ports)]
                        && events == old(events) + [Ran(c.id, imageName)]
      ensures files == old(files) && uploads == old(uploads)
    {
      if c.id in containers {
        r := Err(ApiError);
      } else {
        containers := containers[c.id := c.(status := "running", portBindings := ports)];
        events := events + [Ran(c.id, imageName)];
        r := Ok(());
      }
    }

    /** client.containers.list(all=True): every container once, in the
        daemon's order. */
    method ListAll() returns (ids: seq<string>)
      ensures forall i, j :: 0 <= i < j < |ids| ==> ids[i] != ids[j]
      ensures forall id :: id in ids <==> id in containers
    {
      ids := [];
      var rest := containers.Keys;
      while rest != {}
        invariant rest <= containers.Keys
        invariant forall id :: id in ids <==> id in containers && id !in rest
        invariant forall i, j :: 0 <= i < j < |ids| ==> ids[i] != ids[j]
        decreases |rest|
      {
        var id :| id in rest;
        ids := ids + [id];
        rest := rest - {id};
      }
    }

    /** open(name, 'wb').write(content) */
    method WriteFile(name: string, content: string)
      modifies this
      ensures files == old(files)[name := content]
      ensures containers == old(containers) && events == old(events) && uploads == old(uploads)
    {
      files := files[name := content];
    }

    /** os.rename(src, dst) */
    method Rename(src: string, dst: string) returns (r: Result<()>)
      modifies this
      ensures r.Err? <==> src !in old(files)
      ensures r.Err? ==> r.exc == FileNotFound && files == old(files)
      ensures r.Ok? ==> files == (old(files) - {src})[dst := old(files)[src]]
      ensures containers == old(containers) && events == old(events) && uploads == old(uploads)
    {
      if src !in files {
        r := Err(FileNotFound);
      } else {
        files := (files - {src})[dst := files[src]];
        r := Ok(());
      }
    }

    /** s3.put_object(Key=key, Body=body, Bucket=bucket) */
    method PutObject(bucket: string, key: string, body: string)
      modifies this
      ensures uploads == old(uploads) + [Upload(bucket, key, body)]
      ensures containers == old(containers) && events == old(events) && files == old(files)
    {
      uploads := uploads + [Upload(bucket, key, body)];
    }
  }

  /** The lines `ls dir` prints inside the container. For a directory that
      does not exist the model yields no lines; the message `ls` prints then
      starts with "ls:", so it never passes the run-directory filter. */
  function Listing(c: Container, dir: string): seq<string> {
    if dir in c.listing then c.listing[dir] else []
  }

  /** cont.get_archive(path): the archive bytes, or NotFound for a missing path. */
  function GetArchive(c: Container, path: string): (r: Result<string>)
    ensures r.Ok? <==> path in c.archives
    ensures r.Ok? ==> r.value == c.archives[path]
  {
    if path in c.archives then Ok(c.archives[path]) else Err(NotFound)
  }
}
