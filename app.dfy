/** The first, minimal launcher service (app.py): each request to `/launch`
    takes the next port from the shared allocator, starts a container of the
    service image with its port 80 published there, and answers with the
    port number. */
module App {
  import opened Wrappers
  import opened Strings
  import opened Ports
  import opened Runtime

  /** The image the launcher runs. */
  const IMAGE_NAME := "cwc_integ_service:latest"

  /** The launcher with its stores: the `ports` collection and the Docker host. */
  class Launcher {
    const ports: PortStore
    const host: Host

    constructor(ports0: PortStore, host0: Host)
      ensures ports == ports0 && host == host0
    {
      ports := ports0;
      host := host0;
    }

    /** `launch`: allocate a port, run the image with container port 80
        published on it, and answer `str(port)`. `c` is the container the
        daemon creates; the daemon refusing it propagates as ApiError. */
    method Launch(c: Container) returns (r: Result<string>)
      modifies ports, host
      ensures ports.doc == StoredAfter(old(ports.doc), 1) && ports.doc == Some(NextPort(old(ports.doc)))
      ensures r.Err? <==> c.id in old(host.containers)
      ensures r.Err? ==> r.exc == ApiError && host.containers == old(host.containers)
      ensures r.Ok? ==>
                && r.value == IntToString(ports.doc.value)
                && host.containers == old(host.containers)[c.id := c.(status := "running",
                                         portBindings := map["80/tcp" := ports.doc.value])]
      ensures r.Ok? && (old(ports.doc).None? || old(ports.doc).value >= 0) ==>
                AllDigits(r.value) && DigitsValue(r.value) == ports.doc.value
    {
      var port := ports.GetIncrementPort();
      var ran := host.Run(IMAGE_NAME, map["80/tcp" := port], c);
      if ran.Err? {
        return Err(ran.exc);
      }
      if port >= 0 {
        NatToStringValue(port);
      }
      r := Ok(IntToString(port));
    }
  }
}
