/** The log browser (log_browse_service/api.py): a cache from session ids
    to the path of each session's exported `transcript.html`, filled from
    the listing of the logs directory, and the two routes that read it. The
    directory listing and the set of existing files are inputs. */
module LogBrowse {
  import opened Strings

  const TRANSCRIPT := "transcript.html"

  /** `path.join(LOGS, sess_id, 'transcript.html')`. */
  function TranscriptPath(logs: string, id: string): (p: string)
    ensures EndsWith(p, TRANSCRIPT)
  {
    var dir := PathJoin(logs, id);
    var p := PathJoin(dir, TRANSCRIPT);
    assert p[|p| - |TRANSCRIPT|..] == TRANSCRIPT;
    p
  }

  /** The session-list cache as a dict: its entries, and its keys in the
      order they were inserted. */
  datatype Cache = Cache(paths: map<string, string>, order: seq<string>)

  /** The order lists each key of the dict exactly once. */
  ghost predicate Ordered(c: Cache) {
    (forall i, j :: 0 <= i < j < |c.order| ==> c.order[i] != c.order[j])
    && (forall k :: k in c.paths <==> k in c.order)
  }

  /** What `update_session_list` leaves in the cache after going through the
      directory listing: each listed id whose transcript exists and that is
      not cached yet is added at the end. */
  function Merge(c: Cache, listing: seq<string>, logs: string, files: set<string>): Cache
    decreases |listing|
  {
    if listing == [] then c
    else
      var prev := Merge(c, listing[..|listing| - 1], logs, files);
      var id := listing[|listing| - 1];
      if TranscriptPath(logs, id) in files && id !in prev.paths then
        Cache(prev.paths[id := TranscriptPath(logs, id)], prev.order + [id])
      else prev
  }

  /** The cache never loses or overwrites an entry, and the insertion order
      only grows at the end. */
  lemma {:induction false} MergeKeeps(c: Cache, listing: seq<string>, logs: string, files: set<string>)
    ensures forall k :: k in c.paths ==>
              k in Merge(c, listing, logs, files).paths && Merge(c, listing, logs, files).paths[k] == c.paths[k]
    ensures c.paths.Keys <= Merge(c, listing, logs, files).paths.Keys
    ensures |c.paths| <= |Merge(c, listing, logs, files).paths|
    ensures |Merge(c, listing, logs, files).order| >= |c.order|
    ensures Merge(c, listing, logs, files).order[..|c.order|] == c.order
    decreases |listing|
  {
    if listing != [] {
      var init := listing[..|listing| - 1];
      MergeKeeps(c, init, logs, files);
      var prev := Merge(c, init, logs, files);
      assert (prev.order + [listing[|listing| - 1]])[..|c.order|] == prev.order[..|c.order|];
    }
    var r := Merge(c, listing, logs, files);
    assert c.paths.Keys <= r.paths.Keys;
    SubsetSize(c.paths.Keys, r.paths.Keys);
  }

  lemma {:induction false} SubsetSize<T>(a: set<T>, b: set<T>)
    requires a <= b
    ensures |a| <= |b|
    decreases |a|
  {
    if a != {} {
      var x :| x in a;
      SubsetSize(a - {x}, b - {x});
    }
  }

  /** Every new entry is a listed session whose transcript exists, stored
      under the path of that transcript. */
  lemma {:induction false} MergeAdds(c: Cache, listing: seq<string>, logs: string, files: set<string>)
    ensures forall k :: k in Merge(c, listing, logs, files).paths ==>
              k in c.paths
              || (k in listing && TranscriptPath(logs, k) in files
                  && Merge(c, listing, logs, files).paths[k] == TranscriptPath(logs, k))
    decreases |listing|
  {
    if listing != [] {
      var init := listing[..|listing| - 1];
      MergeAdds(c, init, logs, files);
      var prev := Merge(c, init, logs, files);
      var r := Merge(c, listing, logs, files);
      forall k | k in r.paths && k !in c.paths
        ensures k in listing && TranscriptPath(logs, k) in files && r.paths[k] == TranscriptPath(logs, k)
      {
        if k in prev.paths {
          var i :| 0 <= i < |init| && init[i] == k;
          assert listing[i] == k;
        }
      }
    }
  }

  /** No listed session with a transcript is missed. */
  lemma {:induction false} MergeComplete(c: Cache, listing: seq<string>, logs: string, files: set<string>)
    ensures forall k :: k in listing && TranscriptPath(logs, k) in files ==> k in Merge(c, listing, logs, files).paths
    decreases |listing|
  {
    if listing != [] {
      var init := listing[..|listing| - 1];
      MergeComplete(c, init, logs, files);
      MergeKeeps(Merge(c, init, logs, files), [listing[|listing| - 1]], logs, files);
      forall k | k in listing && TranscriptPath(logs, k) in files
        ensures k in Merge(c, listing, logs, files).paths
      {
        var i :| 0 <= i < |listing| && listing[i] == k;
        if i < |init| {
          assert init[i] == k;
        }
      }
    }
  }

  /** The order keeps listing each cached key exactly once. */
  lemma {:induction false} MergeOrdered(c: Cache, listing: seq<string>, logs: string, files: set<string>)
    requires Ordered(c)
    ensures Ordered(Merge(c, listing, logs, files))
    decreases |listing|
  {
    if listing != [] {
      MergeOrdered(c, listing[..|listing| - 1], logs, files);
    }
  }

  /** A listing that brings nothing new leaves the cache as it is. */
  lemma {:induction false} MergeNothingNew(c: Cache, listing: seq<string>, logs: string, files: set<string>)
    requires forall k :: k in listing && TranscriptPath(logs, k) in files ==> k in c.paths
    ensures Merge(c, listing, logs, files) == c
    decreases |listing|
  {
    if listing != [] {
      MergeNothingNew(c, listing[..|listing| - 1], logs, files);
    }
  }

  /** Updating twice from the same directory is updating once. */
  lemma MergeIdempotent(c: Cache, listing: seq<string>, logs: string, files: set<string>)
    ensures Merge(Merge(c, listing, logs, files), listing, logs, files) == Merge(c, listing, logs, files)
  {
    MergeComplete(c, listing, logs, files);
    MergeNothingNew(Merge(c, listing, logs, files), listing, logs, files);
  }

  /** What a route answers: a rendered template, or plain text. */
  datatype Page = Rendered(template: string) | Text(body: string)

  /** The browser's state: the logs directory and the session-list cache. */
  class Browser {
    const logs: string
    var paths: map<string, string>
    var order: seq<string>

    ghost predicate Valid()
      reads this
    {
      Ordered(Cache(paths, order))
    }

    /** Loading the module: the logs directory under `here`, and (with
        preloading on) a first update of the empty cache. */
    constructor(here: string, listing: seq<string>, files: set<string>)
      ensures Valid() && logs == PathJoin(here, "templates/_logs")
      ensures Cache(paths, order) == Merge(Cache(map[], []), listing, logs, files)
    {
      logs := PathJoin(here, "templates/_logs");
      paths := map[];
      order := [];
      new;
      UpdateSessionList(listing, files);
    }

    /** `update_session_list`: goes through the listing of the logs
        directory and caches each session whose transcript exists and that
        is not cached yet. */
    method UpdateSessionList(listing: seq<string>, files: set<string>)
      requires Valid()
      modifies this
      ensures Valid()
      ensures Cache(paths, order) == Merge(old(Cache(paths, order)), listing, logs, files)
    {
      ghost var c := Cache(paths, order);
      MergeOrdered(c, [], logs, files);
      for i := 0 to |listing|
        invariant Cache(paths, order) == Merge(c, listing[..i], logs, files)
      {
        assert listing[..i + 1][..i] == listing[..i];
        var sessId := listing[i];
        var fpath := PathJoin(PathJoin(logs, sessId), TRANSCRIPT);
        if fpath in files && sessId !in paths {
          paths := paths[sessId := fpath];
          order := order + [sessId];
        }
      }
      assert listing[..|listing|] == listing;
      MergeOrdered(c, listing, logs, files);
    }

    /** `browse`: the transcript of a cached session, and the not-found text
        for any other id. */
    function Browse(sessionId: string): (p: Page)
      reads this
      ensures p.Rendered? <==> sessionId in paths
      ensures p.Rendered? ==> p.template == "_logs/" + sessionId + "/" + TRANSCRIPT
      ensures p.Text? ==> p.body == "_logs/" + sessionId + "/" + TRANSCRIPT + " not found"
    {
      var template := "_logs/" + sessionId + "/" + TRANSCRIPT;
      if sessionId in paths then Rendered(template) else Text(template + " not found")
    }

    /** `index`: the cached session ids in the order they were added. */
    function Index(): (ids: seq<string>)
      reads this
      requires Valid()
      ensures forall k :: k in ids <==> k in paths
      ensures forall i, j :: 0 <= i < j < |ids| ==> ids[i] != ids[j]
    {
      order
    }
  }

  /** After an update, every listed session with a transcript can be browsed. */
  lemma BrowseAfterUpdate(c: Cache, listing: seq<string>, logs: string, files: set<string>, id: string)
    requires id in listing && TranscriptPath(logs, id) in files
    ensures id in Merge(c, listing, logs, files).paths
    ensures id in c.paths ==> Merge(c, listing, logs, files).paths[id] == c.paths[id]
    ensures id !in c.paths ==> Merge(c, listing, logs, files).paths[id] == TranscriptPath(logs, id)
  {
    MergeComplete(c, listing, logs, files);
    MergeKeeps(c, listing, logs, files);
    MergeAdds(c, listing, logs, files);
  }
}
