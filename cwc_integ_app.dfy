/** The CWC integration web service (cwc_integ_app.py): it launches one
    Docker container per dialogue session, keeps a registry of the containers
    it started (a JSON file mapping container ids to start times), counts the
    running sessions against a cap, remembers the form tokens already used,
    and tears a container down after harvesting its logs. */
module CwcIntegApp {
  import opened Wrappers
  import opened Strings
  import opened Timestamps
  import opened Ports
  import opened Runtime
  import GetLogs

  /** The cap on concurrently running sessions. */
  const MAX_SESSIONS := 8
  /** The image every session container runs. */
  const IMAGE_NAME := "cwc-integ:latest"
  /** How long, in seconds, the launch page waits for the dialogue to come up. */
  const LAUNCH_TIME_OUT := 90

  // ---------------------------------------------------------------------------
  // The registry file

  /** `_load_id_dict`: no file reads as the empty registry; otherwise every
      stored string is parsed with `%Y%m%d%H%M%S`, and one that does not
      parse raises ValueError. */
  function Loaded(file: Option<map<string, string>>): Result<map<string, DateTime>> {
    match file
    case None => Ok(map[])
    case Some(m) =>
      if forall k {:trigger Parse14(m[k])} :: k in m ==> Parse14(m[k]).Some? then Ok(map k | k in m :: Parse14(m[k]).value)
      else Err(ValueError)
  }

  /** Every start time stored in the file parses. */
  predicate AllParse(m: map<string, string>) {
    forall k {:trigger Parse14(m[k])} :: k in m ==> Parse14(m[k]).Some?
  }

  /** A file loads exactly when every start time in it parses, and it keeps
      doing so with entries removed. */
  lemma LoadsWhenAllParse(m: map<string, string>, ids: set<string>)
    ensures Loaded(Some(m)).Ok? <==> AllParse(m)
    ensures AllParse(m) ==> AllParse(m - ids)
  {
  }

  /** A registry file, or its absence, loads exactly when every start time
      in it parses. */
  lemma FileLoadsWhenAllParse(file: Option<map<string, string>>)
    ensures Loaded(file).Ok? <==> AllParse(file.GetOr(map[]))
  {
    if file.Some? {
      LoadsWhenAllParse(file.value, {});
    }
  }

  /** `_dump_id_dict`: every start time written with `%Y%m%d%H%M%S`. */
  function Dumped(d: map<string, DateTime>): map<string, string>
    requires forall k :: k in d ==> Valid(d[k])
  {
    map k | k in d :: Format14(d[k])
  }

  /** Every start time the registry reads as is a valid date, to the second. */
  lemma LoadedValid(file: Option<map<string, string>>)
    requires Loaded(file).Ok?
    ensures forall k :: k in Loaded(file).value ==> Valid(Loaded(file).value[k])
  {
  }

  /** Removing the keys of a set and then one more key removes them all at once. */
  lemma MapMinusOneMore<K, V>(m: map<K, V>, s: set<K>, k: K)
    ensures (m - s) - {k} == m - (s + {k})
  {
    MapsEqual((m - s) - {k}, m - (s + {k}));
  }

  /** Two maps with the same keys and the same value at every key are equal. */
  lemma MapsEqual<K, V>(x: map<K, V>, y: map<K, V>)
    requires x.Keys == y.Keys
    requires forall k :: k in x ==> x[k] == y[k]
    ensures x == y
  {
  }

  /** A file every string of which parses reads as the map of the parsed times. */
  lemma LoadedParsed(m: map<string, string>, e: map<string, DateTime>)
    requires m.Keys == e.Keys
    requires forall k :: k in m ==> Parse14(m[k]) == Some(e[k])
    ensures Loaded(Some(m)) == Ok(e)
  {
    var p := map k | k in m :: Parse14(m[k]).value;
    MapsEqual(p, e);
  }

  /** Loading what was dumped gives back every start time, to the second. */
  lemma DumpLoad(d: map<string, DateTime>)
    requires forall k :: k in d ==> Valid(d[k])
    ensures Loaded(Some(Dumped(d))) == Ok(map k | k in d :: d[k].(micro := 0))
  {
    var m := Dumped(d);
    var e := map k | k in d :: d[k].(micro := 0);
    forall k | k in m ensures Parse14(m[k]) == Some(e[k]) {
      ParseFormat(d[k]);
    }
    LoadedParsed(m, e);
  }

  /** Writing one more entry adds one string to the file. */
  lemma DumpedAdd(d: map<string, DateTime>, id: string, t: DateTime)
    requires forall k :: k in d ==> Valid(d[k])
    requires Valid(t)
    ensures Dumped(d[id := t]) == Dumped(d)[id := Format14(t)]
  {
    var x := Dumped(d[id := t]);
    var y := Dumped(d)[id := Format14(t)];
    MapsEqual(x, y);
  }

  /** Writing one entry fewer drops one string from the file. */
  lemma DumpedRemove(d: map<string, DateTime>, id: string)
    requires forall k :: k in d ==> Valid(d[k])
    ensures Dumped(d - {id}) == Dumped(d) - {id}
  {
    var x := Dumped(d - {id});
    var y := Dumped(d) - {id};
    MapsEqual(x, y);
  }

  /** Dumping what was loaded writes back the very strings that were read. */
  lemma LoadDump(m: map<string, string>)
    requires Loaded(Some(m)).Ok?
    ensures var d := Loaded(Some(m)).value;
            (forall k :: k in d ==> Valid(d[k])) && Dumped(d) == m
  {
    var d := Loaded(Some(m)).value;
    assert d.Keys == m.Keys;
    forall k | k in d
      ensures Valid(d[k]) && Format14(d[k]) == m[k]
    {
      FormatParse(m[k]);
    }
    DumpedOf(d, m);
  }

  /** A file holding, at every key, the written form of the registry's time is its dump. */
  lemma DumpedOf(d: map<string, DateTime>, m: map<string, string>)
    requires d.Keys == m.Keys
    requires forall k :: k in d ==> Valid(d[k]) && Format14(d[k]) == m[k]
    ensures Dumped(d) == m
  {
    MapsEqual(Dumped(d), m);
  }

  /** Adding an entry to a loaded registry and writing it back adds one
      string to the file. */
  lemma DumpAfterAdd(m: map<string, string>, id: string, t: DateTime)
    requires Loaded(Some(m)).Ok? && Valid(t)
    ensures var d := Loaded(Some(m)).value[id := t];
            (forall k :: k in d ==> Valid(d[k])) && Dumped(d) == m[id := Format14(t)]
  {
    LoadDump(m);
    DumpedAdd(Loaded(Some(m)).value, id, t);
  }

  /** Removing an entry from a loaded registry and writing it back drops one
      string from the file. */
  lemma DumpAfterRemove(m: map<string, string>, id: string)
    requires Loaded(Some(m)).Ok?
    ensures var d := Loaded(Some(m)).value - {id};
            (forall k :: k in d ==> Valid(d[k])) && Dumped(d) == m - {id}
  {
    LoadDump(m);
    DumpedRemove(Loaded(Some(m)).value, id);
  }

  /** Adding an entry to the file adds it, to the second, to the registry it
      reads as. */
  lemma LoadedAdd(m: map<string, string>, id: string, t: DateTime)
    requires Loaded(Some(m)).Ok? && Valid(t)
    ensures Loaded(Some(m[id := Format14(t)])) == Ok(Loaded(Some(m)).value[id := t.(micro := 0)])
  {
    var d := Loaded(Some(m)).value;
    assert forall k :: k in m ==> Parse14(m[k]) == Some(d[k]);
    ParseFormat(t);
    LoadedParsed(m[id := Format14(t)], d[id := t.(micro := 0)]);
  }

  /** Removing an entry from the file removes it from the registry it reads as. */
  lemma LoadedRemove(m: map<string, string>, id: string)
    requires Loaded(Some(m)).Ok?
    ensures Loaded(Some(m - {id})) == Ok(Loaded(Some(m)).value - {id})
  {
    var d := Loaded(Some(m)).value;
    assert forall k :: k in m ==> Parse14(m[k]) == Some(d[k]);
    LoadedParsed(m - {id}, d - {id});
  }

  // ---------------------------------------------------------------------------
  // The session timer

  /** The stop test of `_check_timers` as written: it compares
      `timedelta.seconds`, the seconds part of the difference once whole days
      are split off, with a day and with five days. */
  predicate TimedOutAsWritten(now: DateTime, latest: DateTime, start: DateTime)
    requires Valid(now) && Valid(latest) && Valid(start)
  {
    TimedeltaSeconds(now, latest) > DAY || TimedeltaSeconds(now, start) > 5 * DAY
  }

  /** The seconds part of a timedelta never reaches a day, so the test as
      written never stops a container. */
  lemma TimedOutAsWrittenNever(now: DateTime, latest: DateTime, start: DateTime)
    requires Valid(now) && Valid(latest) && Valid(start)
    ensures !TimedOutAsWritten(now, latest, start)
  {
    var a := TimedeltaSeconds(now, latest);
    var b := TimedeltaSeconds(now, start);
    assert a < DAY && b < DAY;
  }

  /** The stop test as intended: the logs have been silent for more than a
      day, or the session has run for more than five days, counting the whole
      difference (`total_seconds()`). */
  predicate TimedOut(now: DateTime, latest: DateTime, start: DateTime)
    requires Valid(now) && Valid(latest) && Valid(start)
  {
    ElapsedMicros(now, latest) > DAY * 1000000 || ElapsedMicros(now, start) > 5 * DAY * 1000000
  }

  /** A session whose last heartbeat is two days old, on 3 January 2020 at
      midnight: the intended test stops it, the test as written does not. */
  lemma TimedOutAsWrittenMissesSilentSession()
    ensures var now := DateTime(2020, 1, 3, 0, 0, 0, 0);
            var past := DateTime(2020, 1, 1, 0, 0, 0, 0);
            TimedOut(now, past, past) && !TimedOutAsWritten(now, past, past)
  {
    var now := DateTime(2020, 1, 3, 0, 0, 0, 0);
    var past := DateTime(2020, 1, 1, 0, 0, 0, 0);
    assert Ordinal(now) == Ordinal(past) + 2;
    assert ElapsedMicros(now, past) == 2 * DAY * 1000000;
    TimedOutAsWrittenNever(now, past, past);
  }

  /** Once the intended test holds it keeps holding as time goes on: a later
      check still stops the session, and a check within a day of the last
      heartbeat and within five days of the start does not. */
  lemma TimedOutMonotone(now: DateTime, later: DateTime, latest: DateTime, start: DateTime)
    requires Valid(now) && Valid(later) && Valid(latest) && Valid(start)
    requires Micros(now) <= Micros(later)
    ensures TimedOut(now, latest, start) ==> TimedOut(later, latest, start)
    ensures !TimedOut(now, latest, start) <==>
              Micros(now) <= Micros(latest) + DAY * 1000000 && Micros(now) <= Micros(start) + 5 * DAY * 1000000
  {
    assert ElapsedMicros(later, latest) - ElapsedMicros(now, latest) == Micros(later) - Micros(now);
    assert ElapsedMicros(later, start) - ElapsedMicros(now, start) == Micros(later) - Micros(now);
  }

  /** The last SPG heartbeat of a container (`date_strings[-1]`). */
  function LastHeartbeat(c: Container): DateTime
    requires |c.heartbeats| > 0
  {
    c.heartbeats[|c.heartbeats| - 1]
  }

  /** The container `id` exists, has a valid last heartbeat, and its start
      time is valid: what `_check_timers` needs to judge it. */
  predicate EntryCheckable(cs: map<string, Container>, id: string, start: DateTime) {
    id in cs && |cs[id].heartbeats| > 0 && Valid(LastHeartbeat(cs[id])) && Valid(start)
  }

  /** Every registered container can be judged. */
  predicate Checkable(reg: map<string, DateTime>, cs: map<string, Container>) {
    forall id :: id in reg ==> EntryCheckable(cs, id, reg[id])
  }

  /** The registered containers that can be judged. */
  function CheckableIds(reg: map<string, DateTime>, cs: map<string, Container>): set<string> {
    set id | id in reg && EntryCheckable(cs, id, reg[id])
  }

  /** The registered containers the timer stops at `now`. */
  function Expired(reg: map<string, DateTime>, cs: map<string, Container>, now: DateTime): set<string>
    requires Valid(now)
  {
    set id | id in reg && EntryCheckable(cs, id, reg[id]) && TimedOut(now, LastHeartbeat(cs[id]), reg[id])
  }

  /** Once every entry is handled, every entry could be judged and the
      stopped ones are exactly the expired ones. */
  lemma SweepDone(reg: map<string, DateTime>, cs0: map<string, Container>, now: DateTime, stopped: set<string>)
    requires Valid(now)
    requires reg.Keys <= CheckableIds(reg, cs0)
    requires stopped == Expired(reg, cs0, now) * reg.Keys
    ensures Checkable(reg, cs0)
    ensures stopped == Expired(reg, cs0, now)
  {
    forall id | id in reg ensures EntryCheckable(cs0, id, reg[id]) {
      assert id in CheckableIds(reg, cs0);
    }
  }

  /** How `_check_timers` judges one entry: None when it cannot (the check
      raises), otherwise whether the session timed out. */
  function Verdict(cs: map<string, Container>, id: string, start: DateTime, now: DateTime): Option<bool>
    requires Valid(now)
  {
    if EntryCheckable(cs, id, start) then Some(TimedOut(now, LastHeartbeat(cs[id]), start)) else None
  }

  /** The judgeable and the expired entries, read entry by entry. */
  lemma VerdictsOfSets(reg: map<string, DateTime>, cs: map<string, Container>, now: DateTime)
    requires Valid(now)
    ensures forall id :: id in reg ==>
              Verdict(cs, id, reg[id], now) ==
                (if id in CheckableIds(reg, cs) then Some(id in Expired(reg, cs, now)) else None)
  {
    forall id | id in reg
      ensures Verdict(cs, id, reg[id], now) ==
                (if id in CheckableIds(reg, cs) then Some(id in Expired(reg, cs, now)) else None)
    {
      if EntryCheckable(cs, id, reg[id]) {
        assert id in CheckableIds(reg, cs);
        assert TimedOut(now, LastHeartbeat(cs[id]), reg[id]) <==> id in Expired(reg, cs, now);
      } else {
        assert id !in CheckableIds(reg, cs);
      }
    }
  }

  /** Whether the sweep gets past entry `id`: the entry can be judged, and
      when it expired its container's logs can be harvested. */
  predicate Clears(ok: set<string>, expired: set<string>, cs0: map<string, Container>, id: string) {
    id in ok && (id in expired ==> Harvestable(cs0, id))
  }

  /** The timer sweep over registry `reg` gets through: every entry can be
      judged, and every expired container can be harvested. */
  predicate SweepSucceeds(reg: map<string, DateTime>, cs: map<string, Container>, now: DateTime)
    requires Valid(now)
  {
    Checkable(reg, cs) && forall id :: id in Expired(reg, cs, now) ==> Harvestable(cs, id)
  }

  /** Every entry of the registry is foreseen by the judgeable, expired and
      cleared sets. */
  lemma ForeseenAll(reg: map<string, DateTime>, cs: map<string, Container>, now: DateTime)
    requires Valid(now) && forall k :: k in reg ==> Valid(reg[k])
    ensures Forecast(reg, CheckableIds(reg, cs), Expired(reg, cs, now), Cleared(reg, cs, now), cs, now)
  {
    VerdictsOfSets(reg, cs, now);
  }

  /** The registry entries the sweep at `now` gets past. */
  function Cleared(reg: map<string, DateTime>, cs: map<string, Container>, now: DateTime): set<string>
    requires Valid(now)
  {
    set id | id in reg && Clears(CheckableIds(reg, cs), Expired(reg, cs, now), cs, id)
  }

  /** Getting past every entry, one at a time, is the sweep succeeding. */
  lemma ClearsAll(reg: map<string, DateTime>, cs: map<string, Container>, now: DateTime)
    requires Valid(now)
    ensures reg.Keys <= Cleared(reg, cs, now) <==> SweepSucceeds(reg, cs, now)
  {
    var ok := CheckableIds(reg, cs);
    var expired := Expired(reg, cs, now);
    var good := Cleared(reg, cs, now);
    if reg.Keys <= good {
      forall id | id in reg ensures EntryCheckable(cs, id, reg[id]) {
        assert id in good;
      }
      forall id | id in expired ensures Harvestable(cs, id) {
        assert id in good;
      }
    }
    if SweepSucceeds(reg, cs, now) {
      forall id | id in reg ensures id in good {
        assert EntryCheckable(cs, id, reg[id]);
      }
    }
  }

  /** What the sweep knows in advance about entry `id` started at `start`:
      whether it can be judged (`ok`) and has expired (`expired`), and
      whether the sweep gets past it (`good`). */
  predicate Foreseen(ok: set<string>, expired: set<string>, good: set<string>,
                     cs: map<string, Container>, id: string, start: DateTime, now: DateTime)
    requires Valid(now)
  {
    && Verdict(cs, id, start, now) == (if id in ok then Some(id in expired) else None)
    && (id in good <==> Clears(ok, expired, cs, id))
  }

  /** What the sweep over `reg` knows in advance: every start time is
      valid and every entry is foreseen. */
  ghost predicate Forecast(reg: map<string, DateTime>, ok: set<string>, expired: set<string>, good: set<string>,
                           cs: map<string, Container>, now: DateTime)
    requires Valid(now)
  {
    forall id :: id in reg ==> Valid(reg[id]) && Foreseen(ok, expired, good, cs, id, reg[id], now)
  }

  /** Where the timer sweep stands once the entries `done` of the snapshot
      are handled, starting from the containers
      `cs0`, the registry file `file0` and the session count `count0`: every
      handled entry could be judged (`ok`), the expired ones among them are
      stopped, unregistered and no longer counted, and nothing else changed. */
  ghost predicate SweepState<C, F>(ok: set<string>, expired: set<string>,
                                   cs0: map<string, C>, file0: map<string, F>, count0: int,
                                   done: set<string>, stopped: set<string>,
                                   cs: map<string, C>, file: map<string, F>, count: int)
  {
    && done <= ok
    && stopped == expired * done
    && cs == cs0 - stopped
    && file == file0 - stopped
    && count == count0 - |stopped|
  }

  /** A sweep that has no entries left has handled them all. */
  lemma SweepAll<C, F>(ok: set<string>, expired: set<string>,
                       cs0: map<string, C>, file0: map<string, F>, count0: int,
                       done: set<string>, keys: set<string>, rest: set<string>, stopped: set<string>,
                       cs: map<string, C>, file: map<string, F>, count: int)
    requires SweepState(ok, expired, cs0, file0, count0, done, stopped, cs, file, count)
    requires done == keys - rest && rest == {}
    ensures SweepState(ok, expired, cs0, file0, count0, keys, stopped, cs, file, count)
  {
    assert done == keys;
  }

  /** Taking `id` out of the entries `rest` still to visit moves it to the
      entries `done`, and keeps them among the entries `good` got past. */
  lemma Advance(keys: set<string>, good: set<string>, done: set<string>, rest: set<string>, id: string)
    requires rest <= keys && done == keys - rest && done <= good
    requires id in rest && id in good
    ensures rest - {id} <= keys && done + {id} == keys - (rest - {id}) && done + {id} <= good
  {
  }

  /** One more entry of the sweep: an expired container is stopped,
      unregistered and no longer counted; any other is left alone. */
  lemma SweepStep<C, F>(ok: set<string>, expired: set<string>,
                        cs0: map<string, C>, file0: map<string, F>, count0: int,
                        done: set<string>, stopped: set<string>,
                        cs: map<string, C>, file: map<string, F>, count: int,
                        id: string, timedOut: bool,
                        cs': map<string, C>, file': map<string, F>, count': int)
    requires SweepState(ok, expired, cs0, file0, count0, done, stopped, cs, file, count)
    requires id in ok && id !in done
    requires timedOut == (id in expired)
    requires !timedOut ==> cs' == cs && file' == file && count' == count
    requires timedOut ==> cs' == cs - {id} && file' == file - {id} && count' == count - 1
    ensures SweepState(ok, expired, cs0, file0, count0, done + {id},
                       if timedOut then stopped + {id} else stopped, cs', file', count')
  {
    assert id !in stopped;
    if timedOut {
      MapMinusOneMore(cs0, stopped, id);
      MapMinusOneMore(file0, stopped, id);
      assert |stopped + {id}| == |stopped| + 1;
    }
  }

  // ---------------------------------------------------------------------------
  // Cleanup

  /** Where `cleanup` stands once the entries `done` of the registry are
      handled, starting from the containers `cs0`, the registry file `file0`
      and the session count `count0`, where the entries in `bad` are those
      whose shutdown raises: every handled entry is unregistered; the failed
      ones are exactly the handled ones in `bad`, and are left running; the
      others were containers the daemon knew, and are stopped, removed and no
      longer counted. */
  ghost predicate CleanState<C, F>(cs0: map<string, C>, file0: map<string, F>, count0: int, bad: set<string>,
                                   done: set<string>, failed: set<string>, stopped: set<string>,
                                   cs: map<string, C>, file: map<string, F>, count: int)
  {
    && failed == done * bad
    && stopped == done - failed
    && stopped <= cs0.Keys
    && cs == cs0 - stopped
    && file == file0 - done
    && count == count0 - |stopped|
  }

  /** One more entry of the cleanup: unregistered either way, and stopped
      exactly when it is not one whose shutdown raises. */
  lemma CleanStep<C, F>(cs0: map<string, C>, file0: map<string, F>, count0: int, bad: set<string>,
                        done: set<string>, failed: set<string>, stopped: set<string>,
                        cs: map<string, C>, file: map<string, F>, count: int,
                        id: string, shutDown: bool,
                        cs': map<string, C>, file': map<string, F>, count': int)
    requires CleanState(cs0, file0, count0, bad, done, failed, stopped, cs, file, count)
    requires id !in done && (shutDown <==> id !in bad)
    requires file' == file - {id}
    requires shutDown ==> id in cs0 && cs' == cs - {id} && count' == count - 1
    requires !shutDown ==> cs' == cs && count' == count
    ensures CleanState(cs0, file0, count0, bad, done + {id}, if shutDown then failed else failed + {id},
                       if shutDown then stopped + {id} else stopped, cs', file', count')
  {
    MapMinusOneMore(file0, done, id);
    if shutDown {
      assert (done + {id}) - failed == stopped + {id};
      MapMinusOneMore(cs0, stopped, id);
    } else {
      assert (done + {id}) - (failed + {id}) == stopped;
    }
  }

  /** A map with all of its keys removed is empty. */
  lemma MapMinusAll<K, V>(m: map<K, V>)
    ensures m - m.Keys == map[]
  {
    MapsEqual(m - m.Keys, map[]);
  }

  // ---------------------------------------------------------------------------
  // The session counter as written

  /** `increment_sessions` as written, on the stored document: with no
      document it inserts one holding zero and then indexes the `None` it
      read before (TypeError). The result is the stored document afterwards
      and the outcome. */
  function IncrementAsWritten(doc: Option<int>): (Option<int>, Result<int>) {
    match doc
    case None => (Some(0), Err(TypeError))
    case Some(n) => if n == MAX_SESSIONS then (doc, Err(SessionLimitExceeded)) else (Some(n + 1), Ok(n + 1))
  }

  /** `decrement_sessions` as written, in the same form. */
  function DecrementAsWritten(doc: Option<int>): (Option<int>, Result<int>) {
    match doc
    case None => (Some(0), Err(TypeError))
    case Some(n) => (Some(n - 1), Ok(n - 1))
  }

  /** On a store without a sessions document, the counter as written raises
      TypeError on the first increment and the first decrement, although it
      has just created the document it means to read; the counter the
      service model uses (Service.IncrementSessions, Service.DecrementSessions)
      counts from zero instead. Once the document exists the two agree. */
  lemma MissingSessionsDocRaises(doc: Option<int>)
    ensures IncrementAsWritten(None) == (Some(0), Err(TypeError))
    ensures DecrementAsWritten(None) == (Some(0), Err(TypeError))
    ensures doc.Some? ==> IncrementAsWritten(doc).1 == (if doc.value == MAX_SESSIONS then Err(SessionLimitExceeded)
                                                        else Ok(SessionCount(doc) + 1))
    ensures doc.Some? ==> DecrementAsWritten(doc).1 == Ok(SessionCount(doc) - 1)
  {
  }

  // ---------------------------------------------------------------------------
  // Launching

  /** What a launch request answers. */
  datatype Response =
    | TooManySessions                  // the "too many sessions" page text
    | NoContent                        // ('', 204): the form token was used before
    | Launched(dialogueUrl: string, managerUrl: string, containerId: string, timeOut: int)

  /** `'http://' + str(request.host).split(':')[0]`: the request's host name
      without its port. */
  function BaseHost(requestHost: string): (r: string)
    ensures StartsWith(r, "http://")
    ensures var name := r[7..];
            ':' !in name && StartsWith(requestHost, name)
            && (':' in requestHost ==> requestHost[|name|] == ':')
            && (':' !in requestHost ==> name == requestHost)
  {
    SplitHead(requestHost, ':');
    "http://" + Split(requestHost, ':')[0]
  }

  /** The daemon knows container `id` and its logs can be harvested: what
      the Docker part of `_stop_container` needs to succeed. */
  predicate Harvestable(cs: map<string, Container>, id: string) {
    id in cs && GetLogs.RunOutcome(cs[id]).Ok?
  }

  /** The ids among `keys` whose shutdown raises. */
  function Unharvestable(keys: set<string>, cs: map<string, Container>): set<string> {
    set id | id in keys && !Harvestable(cs, id)
  }

  /** The part of `_stop_container` that acts on the Docker host: harvest
      the container's logs (the local files and the uploads of
      `get_logs_for_container`), then stop and remove it. An unknown id
      raises NotFound. */
  method RetireContainer(host: Host, id: string) returns (r: Result<()>)
    modifies host
    ensures r.Ok? <==> Harvestable(old(host.containers), id)
    ensures r.Err? ==> host.containers == old(host.containers) && host.uploads == old(host.uploads)
    ensures id !in old(host.containers) ==> host.files == old(host.files)
    ensures id in old(host.containers) ==>
              host.files == GetLogs.HarvestedFiles(old(host.files), old(host.containers[id]))
    ensures r.Ok? ==>
              && host.containers == old(host.containers) - {id}
              && host.uploads == old(host.uploads) + GetLogs.HarvestUploads(old(host.files), old(host.containers[id]))
              && |host.events| >= 2 && host.events[|host.events| - 2..] == [Stopped(id), Removed(id)]
  {
    if id !in host.containers {
      return Err(NotFound);
    }
    var harvested := GetLogs.GetLogsForContainer(host, id);
    if harvested.Err? {
      return Err(harvested.exc);
    }
    host.Stop(id);
    var removed := host.Remove(id);
    assert removed.Ok?;
    r := Ok(());
  }

  /** The registry file's entries after `_record_my_container(id, 'add')`
      at `now`: an id already registered keeps its entry. */
  function Registered(reg: map<string, string>, id: string, now: DateTime): map<string, string>
    requires Valid(now)
  {
    if id in reg then reg else reg[id := Format14(now)]
  }

  /** The registry file's entries once the timer sweep at `now` has stopped
      the expired sessions. */
  function Swept(file: Option<map<string, string>>, cs: map<string, Container>, now: DateTime): map<string, string>
    requires Valid(now) && Loaded(file).Ok?
  {
    file.GetOr(map[]) - Expired(Loaded(file).value, cs, now)
  }

  /** The timer sweep at `now` over the registry file `file` and the
      containers `cs` gets through: the file loads and the sweep succeeds. */
  predicate Sweeps(file: Option<map<string, string>>, cs: map<string, Container>, now: DateTime)
    requires Valid(now)
  {
    Loaded(file).Ok? && SweepSucceeds(Loaded(file).value, cs, now)
  }

  /** The containers the timer sweep at `now` leaves. */
  function SweptContainers(file: Option<map<string, string>>, cs: map<string, Container>, now: DateTime)
    : map<string, Container>
    requires Valid(now) && Loaded(file).Ok?
  {
    cs - Expired(Loaded(file).value, cs, now)
  }

  /** The session count once the timer sweep at `now` has released the
      slots of the expired sessions. */
  function SweptCount(doc: Option<int>, file: Option<map<string, string>>, cs: map<string, Container>,
                      now: DateTime): int
    requires Valid(now) && Loaded(file).Ok?
  {
    SessionCount(doc) - |Expired(Loaded(file).value, cs, now)|
  }

  /** The answer `_launch_app` gives once the timers are checked, with `n`
      sessions running, the tokens `seen` already used and the containers
      `cs` on the daemon: "too many sessions" at the cap, a KeyError without
      a form token, 204 for a used token, and for a fresh one a launch
      exactly when the daemon has no container `id` (ApiError otherwise),
      which leaves the session document `doc` one above `n`. */
  predicate Answers(n: int, form: map<string, string>, seen: seq<string>, cs: map<string, Container>,
                    id: string, r: Result<Response>, doc: Option<int>)
  {
    && (n >= MAX_SESSIONS ==> r == Ok(TooManySessions))
    && (n < MAX_SESSIONS && "csrf_token" !in form ==> r == Err(KeyError))
    && (n < MAX_SESSIONS && "csrf_token" in form && form["csrf_token"] in seen ==> r == Ok(NoContent))
    && (n < MAX_SESSIONS && "csrf_token" in form && form["csrf_token"] !in seen ==>
          && (id in cs ==> r == Err(ApiError))
          && (r.Ok? <==> id !in cs)
          && (r.Ok? ==> r.value.Launched? && doc == Some(n + 1)))
  }

  /** The number a session document holds; no document counts as zero. */
  function SessionCount(doc: Option<int>): int {
    doc.GetOr(0)
  }

  /** The service with its stores: the registry file, the `sessions` and
      `tokens` collections, the shared `ports` collection, the Docker host,
      and the clock `datetime.utcnow()` reads. */
  class Service {
    /** The registry file: None while it does not exist. */
    var registryFile: Option<map<string, string>>
    /** The `sessions` document `{'num_sessions': n}`, if any. */
    var sessionsDoc: Option<int>
    /** The `tokens` collection, in insertion order. */
    var tokens: seq<string>
    /** What `datetime.utcnow()` returns. */
    var now: DateTime
    const ports: PortStore
    const host: Host

    constructor(file0: Option<map<string, string>>, sessions0: Option<int>, tokens0: seq<string>,
                now0: DateTime, ports0: PortStore, host0: Host)
      ensures registryFile == file0 && sessionsDoc == sessions0 && tokens == tokens0
      ensures now == now0 && ports == ports0 && host == host0
    {
      registryFile := file0;
      sessionsDoc := sessions0;
      tokens := tokens0;
      now := now0;
      ports := ports0;
      host := host0;
    }

    /** The registry file's entries; no file has none. */
    function Registry(): map<string, string>
      reads this
    {
      registryFile.GetOr(map[])
    }

    // -- the registry file

    /** `_load_id_dict`, one entry at a time. */
    method LoadIdDict() returns (r: Result<map<string, DateTime>>)
      ensures r == Loaded(registryFile)
      ensures r.Ok? ==> r.value.Keys == Registry().Keys
    {
      if registryFile.None? {
        return Ok(map[]);
      }
      var strs := registryFile.value;
      var d: map<string, DateTime> := map[];
      var rest := strs.Keys;
      while rest != {}
        invariant rest <= strs.Keys
        invariant d.Keys == strs.Keys - rest
        invariant forall k :: k in d ==> Parse14(strs[k]) == Some(d[k])
        decreases |rest|
      {
        var k :| k in rest;
        var p := Parse14(strs[k]);
        if p.None? {
          return Err(ValueError);
        }
        d := d[k := p.value];
        rest := rest - {k};
      }
      assert d == map k | k in strs :: Parse14(strs[k]).value;
      r := Ok(d);
    }

    /** `_dump_id_dict`, one entry at a time. */
    method DumpIdDict(d: map<string, DateTime>)
      requires forall k :: k in d ==> Valid(d[k])
      modifies this
      ensures registryFile == Some(Dumped(d))
      ensures sessionsDoc == old(sessionsDoc) && tokens == old(tokens) && now == old(now)
    {
      var json: map<string, string> := map[];
      var rest := d.Keys;
      while rest != {}
        invariant rest <= d.Keys
        invariant json.Keys == d.Keys - rest
        invariant forall k :: k in json ==> json[k] == Format14(d[k])
        decreases |rest|
      {
        var k :| k in rest;
        json := json[k := Format14(d[k])];
        rest := rest - {k};
      }
      MapsEqual(json, Dumped(d));
      registryFile := Some(json);
    }

    /** `_record_my_container`: 'add' registers an absent id with the current
        time, 'remove' unregisters a present one; either way the answer says
        whether the registry changed, and the file is rewritten only then.
        Any other action fails the assertion. */
    method RecordMyContainer(id: string, action: string) returns (r: Result<bool>)
      requires action == "add" ==> Valid(now)
      modifies this
      ensures sessionsDoc == old(sessionsDoc) && tokens == old(tokens) && now == old(now)
      ensures action != "add" && action != "remove" ==> r == Err(AssertionError) && registryFile == old(registryFile)
      ensures (action == "add" || action == "remove") && Loaded(old(registryFile)).Err? ==>
                r == Err(ValueError) && registryFile == old(registryFile)
      ensures action == "add" && Loaded(old(registryFile)).Ok? ==>
                r == Ok(id !in old(Registry())) &&
                registryFile == if id in old(Registry()) then old(registryFile)
                                else Some(old(Registry())[id := Format14(now)])
      ensures action == "remove" && Loaded(old(registryFile)).Ok? ==>
                r == Ok(id in old(Registry())) &&
                registryFile == if id in old(Registry()) then Some(old(Registry()) - {id})
                                else old(registryFile)
    {
      if action != "add" && action != "remove" {
        return Err(AssertionError);
      }
      var loaded := LoadIdDict();
      if loaded.Err? {
        return Err(loaded.exc);
      }
      var success := UpdateIdDict(loaded.value, id, action);
      r := Ok(success);
    }

    /** The part of `_record_my_container` after the registry is loaded as
        `idDict`: update it, and write the file back when it changed. */
    method UpdateIdDict(idDict: map<string, DateTime>, id: string, action: string) returns (success: bool)
      requires action == "add" || action == "remove"
      requires action == "add" ==> Valid(now)
      requires Loaded(registryFile) == Ok(idDict)
      modifies this
      ensures sessionsDoc == old(sessionsDoc) && tokens == old(tokens) && now == old(now)
      ensures success <==> (action == "add" <==> id !in old(Registry()))
      ensures action == "add" ==>
                registryFile == if id in old(Registry()) then old(registryFile)
                                else Some(old(Registry())[id := Format14(now)])
      ensures action == "remove" ==>
                registryFile == if id in old(Registry()) then Some(old(Registry()) - {id})
                                else old(registryFile)
    {
      ghost var m := Registry();
      var d := idDict;
      success := true;
      if id !in d {
        if action == "add" {
          DumpAfterAdd(m, id, now);
          d := d[id := now];
        } else {
          success := false;
        }
      } else {
        if action == "add" {
          success := false;
        } else {
          DumpAfterRemove(m, id);
          d := d - {id};
        }
      }
      if success {
        DumpIdDict(d);
      }
    }

    // -- the session counter

    /** `get_num_sessions` */
    method GetNumSessions() returns (n: int)
      ensures n == SessionCount(sessionsDoc)
      ensures sessionsDoc.None? ==> n == 0
    {
      if sessionsDoc.None? {
        return 0;
      }
      n := sessionsDoc.value;
    }

    /** `reset_sessions`: the count becomes zero, creating the document if need be. */
    method ResetSessions()
      modifies this
      ensures sessionsDoc == Some(0)
      ensures registryFile == old(registryFile) && tokens == old(tokens) && now == old(now)
    {
      sessionsDoc := Some(0);
    }

    /** `increment_sessions`: raise SessionLimitExceeded exactly at the cap,
        otherwise count one more session and return the new count. */
    method IncrementSessions() returns (r: Result<int>)
      modifies this
      ensures r.Err? <==> SessionCount(old(sessionsDoc)) == MAX_SESSIONS
      ensures r.Err? ==> r.exc == SessionLimitExceeded && sessionsDoc == old(sessionsDoc)
      ensures r.Ok? ==> r.value == SessionCount(old(sessionsDoc)) + 1 && sessionsDoc == Some(r.value)
      ensures SessionCount(old(sessionsDoc)) <= MAX_SESSIONS ==> SessionCount(sessionsDoc) <= MAX_SESSIONS
      ensures registryFile == old(registryFile) && tokens == old(tokens) && now == old(now)
    {
      if sessionsDoc.None? {
        ResetSessions();
      }
      var numSessions := sessionsDoc.value;
      if numSessions == MAX_SESSIONS {
        return Err(SessionLimitExceeded);
      }
      sessionsDoc := Some(numSessions + 1);
      r := Ok(numSessions + 1);
    }

    /** `decrement_sessions`: one session fewer, with no floor at zero. */
    method DecrementSessions() returns (n: int)
      modifies this
      ensures n == SessionCount(old(sessionsDoc)) - 1 && sessionsDoc == Some(n)
      ensures registryFile == old(registryFile) && tokens == old(tokens) && now == old(now)
    {
      if sessionsDoc.None? {
        ResetSessions();
      }
      var numSessions := sessionsDoc.value;
      sessionsDoc := Some(numSessions - 1);
      n := numSessions - 1;
    }

    // -- the launch tokens

    /** `add_token` */
    method AddToken(token: string)
      modifies this
      ensures tokens == old(tokens) + [token]
      ensures registryFile == old(registryFile) && sessionsDoc == old(sessionsDoc) && now == old(now)
    {
      tokens := tokens + [token];
    }

    /** `has_token`: a scan of the collection. */
    method HasToken(token: string) returns (b: bool)
      ensures b <==> token in tokens
    {
      var i := 0;
      while i < |tokens|
        invariant 0 <= i <= |tokens|
        invariant token !in tokens[..i]
      {
        if tokens[i] == token {
          return true;
        }
        i := i + 1;
      }
      assert tokens[..i] == tokens;
      b := false;
    }

    // -- containers

    /** `_run_container`: count the session (which fails at the cap), start a
        container of the session image exposing `exposePort` on the host's
        `port`, and register it. `c` is the container the daemon creates. */
    method RunContainer(port: int, exposePort: int, c: Container) returns (r: Result<string>)
      requires Valid(now)
      modifies this, host
      ensures tokens == old(tokens) && now == old(now)
      ensures SessionCount(old(sessionsDoc)) == MAX_SESSIONS ==>
                r == Err(SessionLimitExceeded) && sessionsDoc == old(sessionsDoc)
                && registryFile == old(registryFile) && host.containers == old(host.containers)
      ensures SessionCount(old(sessionsDoc)) != MAX_SESSIONS ==>
                sessionsDoc == Some(SessionCount(old(sessionsDoc)) + 1)
      ensures SessionCount(old(sessionsDoc)) != MAX_SESSIONS && c.id in old(host.containers) ==>
                r == Err(ApiError) && registryFile == old(registryFile) && host.containers == old(host.containers)
      ensures (SessionCount(old(sessionsDoc)) != MAX_SESSIONS && c.id !in old(host.containers)
               && Loaded(old(registryFile)).Err?) ==> r == Err(ValueError)
      ensures r.Ok? <==> SessionCount(old(sessionsDoc)) != MAX_SESSIONS && c.id !in old(host.containers)
                         && Loaded(old(registryFile)).Ok?
      ensures r.Ok? ==>
                && r.value == c.id
                && host.containers == old(host.containers)[c.id := c.(status := "running",
                                         portBindings := map[IntToString(exposePort) + "/tcp" := port])]
                && registryFile == if c.id in old(Registry()) then old(registryFile)
                                   else Some(old(Registry())[c.id := Format14(now)])
    {
      var numSessions := IncrementSessions();
      if numSessions.Err? {
        return Err(numSessions.exc);
      }
      var ran := host.Run(IMAGE_NAME, map[IntToString(exposePort) + "/tcp" := port], c);
      if ran.Err? {
        return Err(ran.exc);
      }
      var recorded := RecordMyContainer(c.id, "add");
      if recorded.Err? {
        return Err(recorded.exc);
      }
      r := Ok(c.id);
    }

    /** `_stop_container`: unless told not to, unregister the container
        first (an unregistered id fails the assertion); then harvest its logs,
        stop and remove it, and count one session fewer. */
    method StopContainer(id: string, removeRecord: bool) returns (r: Result<()>)
      modifies this, host
      ensures tokens == old(tokens) && now == old(now)
      ensures r.Ok? <==> (!removeRecord || (Loaded(old(registryFile)).Ok? && id in old(Registry())))
                         && Harvestable(old(host.containers), id)
      ensures r.Err? ==> host.uploads == old(host.uploads)
      ensures r.Ok? ==>
                && host.files == GetLogs.HarvestedFiles(old(host.files), old(host.containers[id]))
                && host.uploads == old(host.uploads) + GetLogs.HarvestUploads(old(host.files), old(host.containers[id]))
      ensures removeRecord && Loaded(old(registryFile)).Ok? && id !in old(Registry()) ==>
                r == Err(AssertionError) && host.events == old(host.events)
      ensures removeRecord && Loaded(old(registryFile)).Ok? && id in old(Registry()) ==>
                registryFile == Some(old(Registry()) - {id})
      ensures !removeRecord || Loaded(old(registryFile)).Err? ==> registryFile == old(registryFile)
      ensures r.Ok? && removeRecord ==> registryFile == Some(old(Registry()) - {id})
      ensures r.Err? ==> sessionsDoc == old(sessionsDoc) && host.containers == old(host.containers)
      ensures r.Ok? ==>
                && host.containers == old(host.containers) - {id}
                && |host.events| >= 2 && host.events[|host.events| - 2..] == [Stopped(id), Removed(id)]
                && sessionsDoc == Some(SessionCount(old(sessionsDoc)) - 1)
    {
      if removeRecord {
        var mine := RecordMyContainer(id, "remove");
        if mine.Err? {
          return Err(mine.exc);
        }
        if !mine.value {
          return Err(AssertionError);
        }
      }
      var retired := RetireContainer(host, id);
      if retired.Err? {
        return Err(retired.exc);
      }
      var n := DecrementSessions();
      r := Ok(());
    }

    /** `stop_session`, the DELETE route: an empty id fails the assertion. */
    method StopSession(id: string) returns (r: Result<string>)
      modifies this, host
      ensures id == [] ==> r == Err(AssertionError) && registryFile == old(registryFile)
                           && sessionsDoc == old(sessionsDoc) && host.containers == old(host.containers)
      ensures r.Ok? <==> id != [] && Loaded(old(registryFile)).Ok? && id in old(Registry())
                         && Harvestable(old(host.containers), id)
      ensures r.Ok? ==> r.value == "Success!" && host.containers == old(host.containers) - {id}
                        && registryFile == Some(old(Registry()) - {id})
      ensures r.Ok? ==> sessionsDoc == Some(SessionCount(old(sessionsDoc)) - 1)
    {
      if id == [] {
        return Err(AssertionError);
      }
      var stopped := StopContainer(id, true);
      if stopped.Err? {
        return Err(stopped.exc);
      }
      r := Ok("Success!");
    }

    // -- timers and cleanup

    /** One container of `_check_timers`: read its last heartbeat (none
        raises IndexError, a date out of range ValueError) and stop the
        container when its session timed out. */
    method CheckContainer(id: string, start: DateTime) returns (r: Result<bool>)
      requires Valid(now) && Valid(start)
      modifies this, host
      ensures tokens == old(tokens) && now == old(now)
      ensures SessionCount(sessionsDoc) <= SessionCount(old(sessionsDoc))
      ensures r.Ok? ==> id in old(host.containers) && |old(host.containers)[id].heartbeats| > 0
                        && Valid(LastHeartbeat(old(host.containers)[id]))
      ensures r.Ok? ==> r.value == TimedOut(now, LastHeartbeat(old(host.containers)[id]), start)
      ensures r.Ok? && !r.value ==>
                host.containers == old(host.containers) && registryFile == old(registryFile)
                && sessionsDoc == old(sessionsDoc)
      ensures r.Ok? && r.value ==>
                && host.containers == old(host.containers) - {id}
                && registryFile == Some(old(Registry()) - {id})
                && SessionCount(sessionsDoc) == SessionCount(old(sessionsDoc)) - 1
      ensures Loaded(old(registryFile)).Ok? && id in old(Registry()) ==>
                (r.Ok? <==> EntryCheckable(old(host.containers), id, start)
                            && (TimedOut(now, LastHeartbeat(old(host.containers)[id]), start)
                                ==> Harvestable(old(host.containers), id)))
    {
      if id !in host.containers {
        return Err(NotFound);
      }
      var heartbeats := host.containers[id].heartbeats;
      if |heartbeats| == 0 {
        return Err(IndexError);
      }
      var latest := heartbeats[|heartbeats| - 1];
      if !Valid(latest) {
        return Err(ValueError);
      }
      if !TimedOut(now, latest, start) {
        return Ok(false);
      }
      var stopped := StopContainer(id, true);
      if stopped.Err? {
        return Err(stopped.exc);
      }
      r := Ok(true);
    }

    /** `_check_timers`: go through a snapshot of the registry and stop every
        container whose session timed out (with the intended test, see
        TimedOut); the first error ends the sweep. */
    method CheckTimers() returns (r: Result<()>)
      requires Valid(now)
      modifies this, host
      ensures tokens == old(tokens) && now == old(now)
      ensures SessionCount(sessionsDoc) <= SessionCount(old(sessionsDoc))
      ensures Loaded(old(registryFile)).Err? ==> r == Err(ValueError) && registryFile == old(registryFile)
      ensures r.Ok? <==> Sweeps(old(registryFile), old(host.containers), now)
      ensures r.Ok? ==>
                && Loaded(old(registryFile)).Ok?
                && host.containers == SweptContainers(old(registryFile), old(host.containers), now)
                && Registry() == Swept(old(registryFile), old(host.containers), now)
                && SessionCount(sessionsDoc) == SweptCount(old(sessionsDoc), old(registryFile), old(host.containers), now)
                && Loaded(registryFile).Ok?
    {
      var snapshot := LoadIdDict();
      if snapshot.Err? {
        return Err(snapshot.exc);
      }
      var reg := snapshot.value;
      LoadedValid(registryFile);
      LoadsWhenAllParse(Registry(), {});
      ghost var stopped;
      VerdictsOfSets(reg, host.containers, now);
      ClearsAll(reg, host.containers, now);
      ForeseenAll(reg, host.containers, now);
      r, stopped := Sweep(reg, CheckableIds(reg, host.containers), Expired(reg, host.containers, now),
                          Cleared(reg, host.containers, now));
      if r.Ok? {
        SweepDone(reg, old(host.containers), now, stopped);
        LoadsWhenAllParse(old(Registry()), Expired(reg, old(host.containers), now));
        FileLoadsWhenAllParse(registryFile);
      }
    }

    /** The loop of `_check_timers` over the snapshot `reg`. */
    method Sweep(reg: map<string, DateTime>, ghost ok: set<string>, ghost expired: set<string>,
                 ghost good: set<string>)
      returns (r: Result<()>, ghost stopped: set<string>)
      requires Valid(now) && Forecast(reg, ok, expired, good, host.containers, now)
      requires AllParse(Registry()) && reg.Keys == Registry().Keys
      modifies this, host
      ensures tokens == old(tokens) && now == old(now)
      ensures SessionCount(sessionsDoc) <= SessionCount(old(sessionsDoc))
      ensures r.Ok? <==> reg.Keys <= good
      ensures r.Ok? ==> SweepState(ok, expired, old(host.containers), old(Registry()),
                                   old(SessionCount(sessionsDoc)), reg.Keys, stopped,
                                   host.containers, Registry(), SessionCount(sessionsDoc))
    {
      ghost var cs0 := host.containers;
      ghost var file0 := Registry();
      assert AllParse(file0);
      ghost var count0 := SessionCount(sessionsDoc);
      ghost var done: set<string> := {};
      stopped := {};
      MapsEqual(cs0 - {}, cs0);
      MapsEqual(file0 - {}, file0);
      var rest := reg.Keys;
      while rest != {}
        invariant tokens == old(tokens) && now == old(now)
        invariant rest <= reg.Keys && done == reg.Keys - rest
        invariant done <= good
        invariant SweepState(ok, expired, cs0, file0, count0, done, stopped,
                             host.containers, Registry(), SessionCount(sessionsDoc))
        decreases |rest|
      {
        var id :| id in rest;
        var timedOut;
        timedOut, stopped := SweepRound(id, reg, ok, expired, good, cs0, file0, count0, done, stopped);
        if timedOut.Err? {
          assert id in reg && id !in good;
          return Err(timedOut.exc), stopped;
        }
        Advance(reg.Keys, good, done, rest, id);
        done := done + {id};
        rest := rest - {id};
      }
      SweepAll(ok, expired, cs0, file0, count0, done, reg.Keys, rest, stopped,
               host.containers, Registry(), SessionCount(sessionsDoc));
      r := Ok(());
    }

    /** One entry of `_check_timers`, with its bookkeeping; the entry is
        judged against the containers `cs0` the sweep began with. */
    method SweepRound(id: string, reg: map<string, DateTime>, ghost ok: set<string>, ghost expired: set<string>,
                      ghost good: set<string>, ghost cs0: map<string, Container>, ghost file0: map<string, string>, ghost count0: int,
                      ghost done: set<string>, ghost stopped: set<string>)
      returns (r: Result<bool>, ghost stopped': set<string>)
      requires Valid(now) && id in reg && Forecast(reg, ok, expired, good, cs0, now)
      requires SweepState(ok, expired, cs0, file0, count0, done, stopped,
                          host.containers, Registry(), SessionCount(sessionsDoc))
      requires id !in done && id in file0 && AllParse(file0)
      modifies this, host
      ensures tokens == old(tokens) && now == old(now)
      ensures SessionCount(sessionsDoc) <= SessionCount(old(sessionsDoc))
      ensures r.Ok? <==> id in good
      ensures r.Ok? ==> SweepState(ok, expired, cs0, file0, count0, done + {id}, stopped',
                                   host.containers, Registry(), SessionCount(sessionsDoc))
    {
      ghost var cs := host.containers;
      ghost var file := Registry();
      ghost var count := SessionCount(sessionsDoc);
      assert id !in stopped && id in file;
      assert registryFile == Some(file0 - stopped);
      LoadsWhenAllParse(file0, stopped);
      LoadsWhenAllParse(file0 - stopped, {});
      if id in cs0 {
        assert id in cs && cs[id] == cs0[id];
      }
      var start := reg[id];
      assert Valid(start) && Foreseen(ok, expired, good, cs0, id, start, now);
      r := CheckContainer(id, start);
      stopped' := if r.Ok? && r.value then stopped + {id} else stopped;
      if r.Ok? {
        assert cs[id] == cs0[id];
        assert id in ok && r.value == (id in expired);
        SweepStep(ok, expired, cs0, file0, count0, done, stopped, cs, file, count,
                  id, r.value, host.containers, Registry(), SessionCount(sessionsDoc));
      }
    }

    // -- launching

    /** The part of `_launch_app` after the timers are checked: refuse at the
        cap, answer 204 to a form token seen before, and otherwise launch.
        `form` is the posted form, `requestHost` the request's Host header and
        `c` the container the daemon creates. */
    method Admit(interfacePort: int, extension: string, form: map<string, string>,
                 requestHost: string, c: Container) returns (r: Result<Response>)
      requires Valid(now)
      modifies this, host, ports
      ensures now == old(now)
      ensures SessionCount(old(sessionsDoc)) <= MAX_SESSIONS ==> SessionCount(sessionsDoc) <= MAX_SESSIONS
      ensures r != Err(SessionLimitExceeded)
      ensures Loaded(old(registryFile)).Ok? ==>
                Answers(SessionCount(old(sessionsDoc)), form, old(tokens), old(host.containers), c.id, r, sessionsDoc)
      ensures SessionCount(old(sessionsDoc)) >= MAX_SESSIONS ==> r == Ok(TooManySessions)
      ensures SessionCount(old(sessionsDoc)) < MAX_SESSIONS && "csrf_token" !in form ==> r == Err(KeyError)
      ensures (SessionCount(old(sessionsDoc)) < MAX_SESSIONS && "csrf_token" in form
               && form["csrf_token"] in old(tokens)) ==> r == Ok(NoContent)
      ensures r == Ok(TooManySessions) || r == Ok(NoContent) || r == Err(KeyError) ==>
                && tokens == old(tokens) && sessionsDoc == old(sessionsDoc) && ports.doc == old(ports.doc)
                && registryFile == old(registryFile) && host.containers == old(host.containers)
      ensures (SessionCount(old(sessionsDoc)) < MAX_SESSIONS && "csrf_token" in form
               && form["csrf_token"] !in old(tokens)) ==>
                && tokens == old(tokens) + [form["csrf_token"]]
                && ports.doc == StoredAfter(old(ports.doc), 1)
                && sessionsDoc == Some(SessionCount(old(sessionsDoc)) + 1)
                && (c.id in old(host.containers) ==> r == Err(ApiError))
                && (r.Ok? <==> c.id !in old(host.containers) && Loaded(old(registryFile)).Ok?)
                && (r.Ok? ==> r.value.Launched?)
      ensures r.Ok? && r.value.Launched? ==>
                && ports.doc.Some?
                && r.value == Launched(BaseHost(requestHost) + ":" + IntToString(ports.doc.value) + extension,
                                       BaseHost(requestHost), c.id, LAUNCH_TIME_OUT)
                && host.containers == old(host.containers)[c.id := c.(status := "running",
                                         portBindings := map[IntToString(interfacePort) + "/tcp" := ports.doc.value])]
                && Registry() == Registered(old(Registry()), c.id, now)
                && sessionsDoc == Some(SessionCount(old(sessionsDoc)) + 1)
    {
      var numSessions := GetNumSessions();
      if numSessions >= MAX_SESSIONS {
        return Ok(TooManySessions);
      }
      if "csrf_token" !in form {
        return Err(KeyError);
      }
      var token := form["csrf_token"];
      var seen := HasToken(token);
      if seen {
        return Ok(NoContent);
      }
      r := Launch(token, interfacePort, extension, requestHost, c);
    }

    /** The launch proper, below the cap and with a fresh token: spend the
        token, take the next port, run the session's container exposing
        `interfacePort` there, and answer with the page that redirects to it. */
    method Launch(token: string, interfacePort: int, extension: string, requestHost: string, c: Container)
      returns (r: Result<Response>)
      requires Valid(now)
      requires SessionCount(sessionsDoc) < MAX_SESSIONS
      modifies this, host, ports
      ensures now == old(now)
      ensures tokens == old(tokens) + [token]
      ensures ports.doc == StoredAfter(old(ports.doc), 1)
      ensures sessionsDoc == Some(SessionCount(old(sessionsDoc)) + 1)
      ensures c.id in old(host.containers) ==> r == Err(ApiError)
      ensures c.id !in old(host.containers) && Loaded(old(registryFile)).Err? ==> r == Err(ValueError)
      ensures r.Ok? <==> c.id !in old(host.containers) && Loaded(old(registryFile)).Ok?
      ensures r.Ok? ==>
                && ports.doc.Some?
                && r.value == Launched(BaseHost(requestHost) + ":" + IntToString(ports.doc.value) + extension,
                                       BaseHost(requestHost), c.id, LAUNCH_TIME_OUT)
                && host.containers == old(host.containers)[c.id := c.(status := "running",
                                         portBindings := map[IntToString(interfacePort) + "/tcp" := ports.doc.value])]
                && Registry() == Registered(old(Registry()), c.id, now)
    {
      AddToken(token);
      var port := ports.GetIncrementPort();
      var baseHost := BaseHost(requestHost);
      var dialogueUrl := baseHost + ":" + IntToString(port) + extension;
      var contId := RunContainer(port, interfacePort, c);
      if contId.Err? {
        return Err(contId.exc);
      }
      r := Ok(Launched(dialogueUrl, baseHost, contId.value, LAUNCH_TIME_OUT));
    }

    /** `_launch_app`: check the timers (an error there ends the request),
        then admit the request. */
    method LaunchApp(interfacePort: int, extension: string, form: map<string, string>,
                     requestHost: string, c: Container) returns (r: Result<Response>)
      requires Valid(now)
      modifies this, host, ports
      ensures now == old(now)
      ensures SessionCount(old(sessionsDoc)) <= MAX_SESSIONS ==> SessionCount(sessionsDoc) <= MAX_SESSIONS
      ensures Loaded(old(registryFile)).Err? ==>
                r == Err(ValueError) && tokens == old(tokens) && ports.doc == old(ports.doc)
      ensures r == Ok(TooManySessions) || r == Ok(NoContent) ==>
                tokens == old(tokens) && ports.doc == old(ports.doc)
      ensures r.Ok? && r.value.Launched? ==>
                && "csrf_token" in form && form["csrf_token"] !in old(tokens)
                && tokens == old(tokens) + [form["csrf_token"]]
                && ports.doc == StoredAfter(old(ports.doc), 1) && ports.doc.Some?
                && r.value == Launched(BaseHost(requestHost) + ":" + IntToString(ports.doc.value) + extension,
                                       BaseHost(requestHost), c.id, LAUNCH_TIME_OUT)
                && Loaded(old(registryFile)).Ok?
                && host.containers == SweptContainers(old(registryFile), old(host.containers), now)
                                      [c.id := c.(status := "running",
                                        portBindings := map[IntToString(interfacePort) + "/tcp" := ports.doc.value])]
                && Registry() == Registered(Swept(old(registryFile), old(host.containers), now), c.id, now)
      ensures !Sweeps(old(registryFile), old(host.containers), now) ==> r.Err?
      ensures Sweeps(old(registryFile), old(host.containers), now) ==>
                Answers(SweptCount(old(sessionsDoc), old(registryFile), old(host.containers), now), form, old(tokens),
                        SweptContainers(old(registryFile), old(host.containers), now), c.id, r, sessionsDoc)
    {
      var checked := CheckTimers();
      if checked.Err? {
        return Err(checked.exc);
      }
      ghost var n := SweptCount(old(sessionsDoc), old(registryFile), old(host.containers), now);
      ghost var cs := SweptContainers(old(registryFile), old(host.containers), now);
      r := Admit(interfacePort, extension, form, requestHost, c);
      assert SweptCount(old(sessionsDoc), old(registryFile), old(host.containers), now) == n;
      assert SweptContainers(old(registryFile), old(host.containers), now) == cs;
    }

    /** `launch_clic`: the CLiC interface listens on 8000 and is reached
        under `/clic/bio`. */
    method LaunchClic(form: map<string, string>, requestHost: string, c: Container) returns (r: Result<Response>)
      requires Valid(now)
      modifies this, host, ports
      ensures now == old(now)
      ensures SessionCount(old(sessionsDoc)) <= MAX_SESSIONS ==> SessionCount(sessionsDoc) <= MAX_SESSIONS
      ensures r.Ok? && r.value.Launched? ==>
                && ports.doc.Some?
                && r.value.dialogueUrl == r.value.managerUrl + ":" + IntToString(ports.doc.value) + "/clic/bio"
                && EndsWith(r.value.dialogueUrl, "/clic/bio")
                && c.id in host.containers
                && host.containers[c.id].portBindings == map["8000/tcp" := ports.doc.value]
                && Loaded(old(registryFile)).Ok?
                && Registry() == Registered(Swept(old(registryFile), old(host.containers), now), c.id, now)
      ensures !Sweeps(old(registryFile), old(host.containers), now) ==> r.Err?
      ensures Sweeps(old(registryFile), old(host.containers), now) ==>
                Answers(SweptCount(old(sessionsDoc), old(registryFile), old(host.containers), now), form, old(tokens),
                        SweptContainers(old(registryFile), old(host.containers), now), c.id, r, sessionsDoc)
    {
      r := LaunchApp(8000, "/clic/bio", form, requestHost, c);
      PortText();
    }

    /** `launch_sbgn`: the SBGN interface listens on 3000, at the root. */
    method LaunchSbgn(form: map<string, string>, requestHost: string, c: Container) returns (r: Result<Response>)
      requires Valid(now)
      modifies this, host, ports
      ensures now == old(now)
      ensures SessionCount(old(sessionsDoc)) <= MAX_SESSIONS ==> SessionCount(sessionsDoc) <= MAX_SESSIONS
      ensures r.Ok? && r.value.Launched? ==>
                && ports.doc.Some?
                && r.value.dialogueUrl == r.value.managerUrl + ":" + IntToString(ports.doc.value)
                && c.id in host.containers
                && host.containers[c.id].portBindings == map["3000/tcp" := ports.doc.value]
                && Loaded(old(registryFile)).Ok?
                && Registry() == Registered(Swept(old(registryFile), old(host.containers), now), c.id, now)
      ensures !Sweeps(old(registryFile), old(host.containers), now) ==> r.Err?
      ensures Sweeps(old(registryFile), old(host.containers), now) ==>
                Answers(SweptCount(old(sessionsDoc), old(registryFile), old(host.containers), now), form, old(tokens),
                        SweptContainers(old(registryFile), old(host.containers), now), c.id, r, sessionsDoc)
    {
      r := LaunchApp(3000, "", form, requestHost, c);
      PortText();
      if r.Ok? && r.value.Launched? {
        assert r.value.managerUrl + ":" + IntToString(ports.doc.value) + "" == r.value.managerUrl + ":" + IntToString(ports.doc.value);
      }
    }

    /** `cleanup`: unregister, harvest, stop and remove every registered
        container, going on past the ones whose shutdown fails; the answer
        is the set of those (which the command prints). */
    method Cleanup() returns (r: Result<set<string>>)
      modifies this, host
      ensures tokens == old(tokens) && now == old(now)
      ensures Loaded(old(registryFile)).Err? ==>
                r == Err(ValueError) && registryFile == old(registryFile)
                && host.containers == old(host.containers) && sessionsDoc == old(sessionsDoc)
      ensures Loaded(old(registryFile)).Ok? ==> r.Ok?
      ensures r.Ok? ==>
                && r.value == Unharvestable(old(Registry()).Keys, old(host.containers))
                && Registry() == map[]
                && host.containers == old(host.containers) - (old(Registry()).Keys - r.value)
                && SessionCount(sessionsDoc) == SessionCount(old(sessionsDoc)) - |old(Registry()).Keys - r.value|
    {
      var loaded := LoadIdDict();
      if loaded.Err? {
        return Err(loaded.exc);
      }
      ghost var stopped;
      var failed;
      failed, stopped := CleanAll(loaded.value.Keys);
      MapMinusAll(old(Registry()));
      r := Ok(failed);
    }

    /** The loop of `cleanup` over the registered ids `keys`. */
    method CleanAll(keys: set<string>) returns (failed: set<string>, ghost stopped: set<string>)
      requires Loaded(registryFile).Ok? && keys == Registry().Keys
      modifies this, host
      ensures tokens == old(tokens) && now == old(now)
      ensures CleanState(old(host.containers), old(Registry()), old(SessionCount(sessionsDoc)),
                         Unharvestable(keys, old(host.containers)), keys, failed, stopped,
                         host.containers, Registry(), SessionCount(sessionsDoc))
    {
      ghost var cs0 := host.containers;
      ghost var file0 := Registry();
      ghost var count0 := SessionCount(sessionsDoc);
      ghost var bad := Unharvestable(keys, cs0);
      ghost var done: set<string> := {};
      stopped := {};
      failed := {};
      MapsEqual(cs0 - {}, cs0);
      MapsEqual(file0 - {}, file0);
      var rest := keys;
      while rest != {}
        invariant tokens == old(tokens) && now == old(now)
        invariant rest <= file0.Keys && done == file0.Keys - rest
        invariant Loaded(registryFile).Ok?
        invariant CleanState(cs0, file0, count0, bad, done, failed, stopped,
                             host.containers, Registry(), SessionCount(sessionsDoc))
        decreases |rest|
      {
        var id :| id in rest;
        failed, stopped := CleanRound(id, cs0, file0, count0, bad, done, failed, stopped);
        Advance(file0.Keys, file0.Keys, done, rest, id);
        done := done + {id};
        rest := rest - {id};
      }
    }

    /** One entry of `cleanup`: stop the container, and note it as failed
        when that raises. */
    method CleanRound(id: string, ghost cs0: map<string, Container>, ghost file0: map<string, string>,
                      ghost count0: int, ghost bad: set<string>,
                      ghost done: set<string>, failed: set<string>, ghost stopped: set<string>)
      returns (failed': set<string>, ghost stopped': set<string>)
      requires Loaded(registryFile).Ok?
      requires CleanState(cs0, file0, count0, bad, done, failed, stopped,
                          host.containers, Registry(), SessionCount(sessionsDoc))
      requires id in file0 && id !in done && (id in bad <==> !Harvestable(cs0, id))
      modifies this, host
      ensures tokens == old(tokens) && now == old(now)
      ensures Loaded(registryFile).Ok?
      ensures CleanState(cs0, file0, count0, bad, done + {id}, failed', stopped',
                         host.containers, Registry(), SessionCount(sessionsDoc))
    {
      ghost var cs := host.containers;
      ghost var file := Registry();
      ghost var count := SessionCount(sessionsDoc);
      assert id in file && id !in stopped;
      if id in cs0 {
        assert id in cs && cs[id] == cs0[id];
      }
      LoadedRemove(file, id);
      var shutDown := StopContainer(id, true);
      failed' := if shutDown.Ok? then failed else failed + {id};
      stopped' := if shutDown.Ok? then stopped + {id} else stopped;
      CleanStep(cs0, file0, count0, bad, done, failed, stopped, cs, file, count, id, shutDown.Ok?,
                host.containers, Registry(), SessionCount(sessionsDoc));
    }
  }

  /** The port numbers the two launch routes expose, as text. */
  lemma PortText()
    ensures IntToString(8000) == "8000" && IntToString(3000) == "3000"
    ensures IntToString(8000) + "/tcp" == "8000/tcp" && IntToString(3000) + "/tcp" == "3000/tcp"
  {
    assert NatToString(8) == "8" && NatToString(3) == "3";
    assert NatToString(80) == "80" && NatToString(30) == "30";
    assert NatToString(800) == "800" && NatToString(300) == "300";
  }
}
