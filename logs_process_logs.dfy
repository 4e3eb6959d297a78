/** Interpretation of a facilitator log for the transcript browser
    (logs/process_logs.py): looking up who ran a session, classifying each
    logged KQML message by its "sem", keeping the messages that belong in a
    transcript, and the small naming decisions made on the way (the entry's
    printed form, where an image is served from, which interface an image id
    names, and which file type an export produces). */
module LogsProcessLogs {
  import opened Wrappers
  import opened Strings

  // ---------------------------------------------------------------------------
  // The session_users collection

  /** A document of `session_users`: the container it describes and, when
      recorded, the user and the user's email. */
  datatype SessionUser = SessionUser(containerName: string, containerId: string,
                                     user: Option<string>, email: Option<string>)

  /** The documents `find()` yields, in store order; None is the result the
      code guards against before iterating. */
  function Documents(store: Option<seq<SessionUser>>): seq<SessionUser> {
    store.GetOr([])
  }

  function HasName(name: string): SessionUser -> bool {
    (s: SessionUser) => s.containerName == name
  }

  function HasId(id: string): SessionUser -> bool {
    (s: SessionUser) => s.containerId == id
  }

  /** `_get_sessions_by_cont_name`: the documents for that container name. */
  method SessionsByContName(store: Option<seq<SessionUser>>, contName: string)
    returns (matching: seq<SessionUser>)
    ensures matching == Filter(Documents(store), HasName(contName))
  {
    if store.None? {
      return [];
    }
    var docs := store.value;
    matching := [];
    var i := 0;
    while i < |docs|
      invariant 0 <= i <= |docs|
      invariant matching == Filter(docs[..i], HasName(contName))
    {
      FilterPrefix(docs, i, HasName(contName));
      if contName == docs[i].containerName {
        matching := matching + [docs[i]];
      }
      i := i + 1;
    }
    assert docs[..i] == docs;
  }

  /** `_get_sessions_by_cont_id`: the documents for that container id. */
  method SessionsByContId(store: Option<seq<SessionUser>>, contId: string)
    returns (matching: seq<SessionUser>)
    ensures matching == Filter(Documents(store), HasId(contId))
  {
    if store.None? {
      return [];
    }
    var docs := store.value;
    matching := [];
    var i := 0;
    while i < |docs|
      invariant 0 <= i <= |docs|
      invariant matching == Filter(docs[..i], HasId(contId))
    {
      FilterPrefix(docs, i, HasId(contId));
      if contId == docs[i].containerId {
        matching := matching + [docs[i]];
      }
      i := i + 1;
    }
    assert docs[..i] == docs;
  }

  /** `get_sess_by_cont_name_id`: the documents for that id, narrowed to
      those that also carry that name, still in store order. */
  method SessionsByContNameId(store: Option<seq<SessionUser>>, contName: string, contId: string)
    returns (matching: seq<SessionUser>)
    ensures matching == Filter(Filter(Documents(store), HasId(contId)), HasName(contName))
  {
    var idSessions := SessionsByContId(store, contId);
    matching := [];
    var i := 0;
    while i < |idSessions|
      invariant 0 <= i <= |idSessions|
      invariant matching == Filter(idSessions[..i], HasName(contName))
    {
      FilterPrefix(idSessions, i, HasName(contName));
      if contName == idSessions[i].containerName {
        matching := matching + [idSessions[i]];
      }
      i := i + 1;
    }
    assert idSessions[..i] == idSessions;
  }

  /** The first element a filter keeps is the first element of the input
      that passes it; nothing is kept exactly when nothing passes. */
  lemma FirstOfFilter<T>(s: seq<T>, p: T -> bool)
    ensures Filter(s, p) == [] <==> forall i :: 0 <= i < |s| ==> !p(s[i])
    ensures forall k :: 0 <= k < |s| && p(s[k]) && (forall j :: 0 <= j < k ==> !p(s[j])) ==>
                          Filter(s, p) != [] && Filter(s, p)[0] == s[k]
  {
    FilterMembers(s, p);
    if forall i :: 0 <= i < |s| ==> !p(s[i]) {
      FilterNoneKept(s, p);
    }
    forall k | 0 <= k < |s| && p(s[k]) && (forall j :: 0 <= j < k ==> !p(s[j]))
      ensures Filter(s, p) != [] && Filter(s, p)[0] == s[k]
    {
      FilterFirstAt(s, p, k);
    }
  }

  /** The filter starts with the first element that passes. */
  lemma FilterFirstAt<T>(s: seq<T>, p: T -> bool, k: nat)
    requires k < |s| && p(s[k]) && forall j :: 0 <= j < k ==> !p(s[j])
    ensures Filter(s, p) != [] && Filter(s, p)[0] == s[k]
  {
    var a, b := s[..k], s[k..];
    assert s == a + b;
    FilterAppend(a, b, p);
    FilterNoneKept(a, p);
    assert b[0] == s[k];
    assert Filter(b, p) == [b[0]] + Filter(b[1..], p);
  }

  /** A filter nothing passes keeps nothing. */
  lemma {:induction false} FilterNoneKept<T>(s: seq<T>, p: T -> bool)
    requires forall i :: 0 <= i < |s| ==> !p(s[i])
    ensures Filter(s, p) == []
    decreases |s|
  {
    if s != [] {
      FilterNoneKept(s[1..], p);
    }
  }

  /** Python truthiness of an optional string argument. */
  predicate Given(arg: Option<string>) {
    arg.Some? && arg.value != ""
  }

  /** The sessions `get_user_for_session` examines: those for the name when
      a name is given, else those for the id when an id is given. */
  function Candidates(store: Option<seq<SessionUser>>, contName: Option<string>,
                      contId: Option<string>): seq<SessionUser>
  {
    if Given(contName) then Filter(Documents(store), HasName(contName.value))
    else if Given(contId) then Filter(Documents(store), HasId(contId.value))
    else []
  }

  /** The (user, email) pair recorded in a session, with the defaults for
      missing fields. */
  function UserAndEmail(s: SessionUser): (string, string) {
    (s.user.GetOr("anonymous"), s.email.GetOr("no registered email"))
  }

  predicate SessionMatches(contName: Option<string>, contId: Option<string>, s: SessionUser) {
    (Given(contName) && s.containerName == contName.value)
    || (Given(contId) && s.containerId == contId.value)
  }

  /** `get_user_for_session`: ValueError when neither argument is given;
      otherwise the user and email of the first session in store order for
      the name (or, without a name, the id), or ("", "") when there is none. */
  method UserForSession(store: Option<seq<SessionUser>>, contName: Option<string>,
                        contId: Option<string>)
    returns (r: Result<(string, string)>)
    ensures r.Err? <==> contName.None? && contId.None?
    ensures r.Err? ==> r.exc == ValueError
    ensures r.Ok? && Candidates(store, contName, contId) == [] ==> r.value == ("", "")
    ensures r.Ok? && Candidates(store, contName, contId) != [] ==>
              r.value == UserAndEmail(Candidates(store, contName, contId)[0])
  {
    if contId.None? && contName.None? {
      return Err(ValueError);
    }
    var sessions: seq<SessionUser>;
    if Given(contName) {
      sessions := SessionsByContName(store, contName.value);
    } else if Given(contId) {
      sessions := SessionsByContId(store, contId.value);
    } else {
      sessions := [];
    }
    assert sessions == Candidates(store, contName, contId);
    FilterMembers(Documents(store), if Given(contName) then HasName(contName.value)
                                    else HasId(contId.GetOr("")));
    var user, email := FirstUser(sessions, contName, contId);
    if sessions != [] {
      assert sessions[0] in sessions;
    }
    r := Ok((user, email));
  }

  /** The loop of `get_user_for_session`: the user and email of the first
      session that carries the given name or id, or ("", "") when none does. */
  method FirstUser(sessions: seq<SessionUser>, contName: Option<string>, contId: Option<string>)
    returns (user: string, email: string)
    ensures (forall j :: 0 <= j < |sessions| ==> !SessionMatches(contName, contId, sessions[j])) ==>
              user == "" && email == ""
    ensures forall k :: 0 <= k < |sessions| && SessionMatches(contName, contId, sessions[k])
                        && (forall j :: 0 <= j < k ==> !SessionMatches(contName, contId, sessions[j])) ==>
                          (user, email) == UserAndEmail(sessions[k])
  {
    user, email := "", "";
    var i := 0;
    while i < |sessions|
      invariant 0 <= i <= |sessions|
      invariant forall j :: 0 <= j < i ==> !SessionMatches(contName, contId, sessions[j])
      invariant user == "" && email == ""
    {
      if SessionMatches(contName, contId, sessions[i]) {
        user, email := UserAndEmail(sessions[i]).0, UserAndEmail(sessions[i]).1;
        break;
      }
      i := i + 1;
    }
  }

  /** A user found for a name is the first session of that name in the
      store, and ("", "") comes back when the store holds none. */
  lemma UserForSessionByName(store: Option<seq<SessionUser>>, name: string)
    requires name != ""
    ensures Candidates(store, Some(name), None) == [] <==>
              forall i :: 0 <= i < |Documents(store)| ==> Documents(store)[i].containerName != name
    ensures forall k :: 0 <= k < |Documents(store)| && Documents(store)[k].containerName == name
                        && (forall j :: 0 <= j < k ==> Documents(store)[j].containerName != name) ==>
                          Candidates(store, Some(name), None) != []
                          && Candidates(store, Some(name), None)[0] == Documents(store)[k]
  {
    FirstOfFilter(Documents(store), HasName(name));
  }

  // ---------------------------------------------------------------------------
  // KQML messages and their sems

  /** What the classification reads from a parsed KQML performative: its
      head, its `:sender` text and its `:content` performative (None when
      absent). */
  datatype Perf = Perf(head: string, sender: Option<string>, content: Option<Perf>)

  /** `possible_sems`, in the order `get_sem` tries them. */
  const SEMS: seq<string> := ["sys_utterance", "user_utterance", "display_image",
                              "add_provenance", "display_sbgn", "reset", "user_note"]

  /** Sems that are only said by the Bob agent (partner BA). */
  const BA_SEMS: set<string> := {"sys_utterance", "user_utterance", "user_note", "reset"}

  /** Sems that are only said by partners other than BA. */
  const OTHER_SEMS: set<string> := {"display_image", "add_provenance"}

  /** `_cont_is_type`: the head and the head of `:content` match, ignoring
      case; a missing message or content gives False (the swallowed
      exception). */
  predicate ContIsType(content: Option<Perf>, head: string, contentHead: string) {
    && content.Some? && content.value.content.Some?
    && EqualsIgnoreCase(content.value.head, head)
    && EqualsIgnoreCase(content.value.content.value.head, contentHead)
  }

  predicate IsBA(partner: string) {
    partner != "" && Upper(partner) == "BA"
  }

  predicate NotBA(partner: string) {
    partner != "" && Upper(partner) != "BA"
  }

  /** `_content_is(msg_type)`. The only exception that escapes is reading
      the sender of a message that was never parsed. */
  function ContentIs(msgType: string, partner: string, content: Option<Perf>): (r: Result<bool>)
    ensures r == Ok(true) ==> content.Some? && content.value.content.Some?
    ensures r == Ok(true) && msgType in BA_SEMS ==> IsBA(partner)
    ensures r == Ok(true) && msgType in OTHER_SEMS ==> NotBA(partner)
    ensures r == Ok(true) && msgType == "user_utterance" ==>
              content.value.sender.Some? && Upper(content.value.sender.value) == "TEXTTAGGER"
    ensures msgType !in SEMS ==> r == Ok(false)
    ensures r.Err? ==> r.exc == AttributeError && msgType == "user_utterance" && content.None?
  {
    if msgType == "display_sbgn" then
      // msg_type with '_' turned into '-'
      Ok(ContIsType(content, "tell", "display-sbgn"))
    else if msgType == "display_image" then
      Ok(NotBA(partner) && ContIsType(content, "tell", "display-image"))
    else if msgType == "add_provenance" then
      Ok(NotBA(partner) && ContIsType(content, "tell", "add-provenance"))
    else if msgType == "sys_utterance" then
      Ok(IsBA(partner) && ContIsType(content, "tell", "spoken"))
    else if msgType == "user_utterance" then
      if !IsBA(partner) then Ok(false)
      else if content.None? then Err(AttributeError)
      else if content.value.sender.None? || content.value.sender.value == "" then Ok(false)
      else Ok(Upper(content.value.sender.value) == "TEXTTAGGER"
              && ContIsType(content, "tell", "utterance"))
    else if msgType == "reset" then
      if !(IsBA(partner) && ContIsType(content, "broadcast", "tell")) then Ok(false)
      else
        var inner := content.value.content.value.content;
        Ok(inner.Some? && Upper(inner.value.head) == "START-CONVERSATION")
    else if msgType == "user_note" then
      Ok(IsBA(partner) && ContIsType(content, "tell", "user-note"))
    else Ok(false)
  }

  /** A message from BA and one from another partner never share a kind
      from the two partner-bound groups. */
  lemma PartnerKindsExclusive(partner: string, content: Option<Perf>, a: string, b: string)
    requires a in BA_SEMS && b in OTHER_SEMS
    ensures !(ContentIs(a, partner, content) == Ok(true) && ContentIs(b, partner, content) == Ok(true))
  {
    if ContentIs(a, partner, content) == Ok(true) {
      assert IsBA(partner);
    }
  }

  /** The first of `sems` whose test holds, trying them in order; an
      exception from a test ends the search. */
  function FirstSem(sems: seq<string>, partner: string, content: Option<Perf>): (r: Result<Option<string>>)
    ensures content.Some? ==> r.Ok?
    ensures r.Ok? && r.value.None? ==>
              forall j :: 0 <= j < |sems| ==> ContentIs(sems[j], partner, content) == Ok(false)
    ensures r.Ok? && r.value.Some? ==>
              exists k :: 0 <= k < |sems| && sems[k] == r.value.value
                          && ContentIs(sems[k], partner, content) == Ok(true)
                          && forall j :: 0 <= j < k ==> ContentIs(sems[j], partner, content) == Ok(false)
    decreases |sems|
  {
    if sems == [] then Ok(None)
    else
      match ContentIs(sems[0], partner, content)
      case Err(e) => Err(e)
      case Ok(true) => Ok(Some(sems[0]))
      case Ok(false) =>
        var rest := FirstSem(sems[1..], partner, content);
        assert forall j :: 1 <= j < |sems| ==> sems[j] == sems[1..][j - 1];
        if rest.Ok? && rest.value.Some? then
          var k :| 0 <= k < |sems[1..]| && sems[1..][k] == rest.value.value
                   && ContentIs(sems[1..][k], partner, content) == Ok(true)
                   && forall j :: 0 <= j < k ==> ContentIs(sems[1..][j], partner, content) == Ok(false);
          assert sems[k + 1] == rest.value.value && ContentIs(sems[k + 1], partner, content) == Ok(true);
          rest
        else rest
  }

  /** Trying the sems from position i on: the test at i decides, or the
      search goes on from i + 1. */
  lemma FirstSemStep(sems: seq<string>, i: nat, partner: string, content: Option<Perf>)
    requires i < |sems|
    ensures FirstSem(sems[i..], partner, content) ==
              match ContentIs(sems[i], partner, content)
              case Err(e) => Err(e)
              case Ok(true) => Ok(Some(sems[i]))
              case Ok(false) => FirstSem(sems[i + 1..], partner, content)
  {
    assert sems[i..][0] == sems[i] && sems[i..][1..] == sems[i + 1..];
  }

  /** The search loop of `get_sem`: try each of `possible_sems` in order
      and stop at the first whose test holds. */
  method FindSem(partner: string, content: Option<Perf>) returns (r: Result<Option<string>>)
    ensures r == FirstSem(SEMS, partner, content)
  {
    var i := 0;
    while i < |SEMS|
      invariant 0 <= i <= |SEMS|
      invariant FirstSem(SEMS, partner, content) == FirstSem(SEMS[i..], partner, content)
    {
      FirstSemStep(SEMS, i, partner, content);
      var holds := ContentIs(SEMS[i], partner, content);
      if holds.Err? {
        return Err(holds.exc);
      }
      if holds.value {
        return Ok(Some(SEMS[i]));
      }
      i := i + 1;
    }
    r := Ok(None);
  }

  /** A sem found for a parsed message is one of `possible_sems`, and its
      test is the first in the fixed order to hold. */
  lemma SemIsFirstHolding(partner: string, content: Perf)
    ensures FirstSem(SEMS, partner, Some(content)).Ok?
    ensures FirstSem(SEMS, partner, Some(content)).value.Some? ==>
              FirstSem(SEMS, partner, Some(content)).value.value in SEMS
    ensures forall s :: s in SEMS && ContentIs(s, partner, Some(content)) == Ok(true) ==>
              FirstSem(SEMS, partner, Some(content)).value.Some?
  {
    var r := FirstSem(SEMS, partner, Some(content));
    if r.value.None? {
      assert forall j :: 0 <= j < |SEMS| ==> ContentIs(SEMS[j], partner, Some(content)) == Ok(false);
    }
  }

  /** `"%s" % msg` shortened for `__repr__`: kept whole up to 50 characters,
      otherwise its first 47 characters and "...". */
  function Shown(message: string): (m: string)
    ensures |m| <= 50
    ensures |message| <= 50 ==> m == message
    ensures |message| > 50 ==> |m| == 50 && StartsWith(message, m[..47]) && m[47..] == "..."
  {
    if |message| <= 50 then message else message[..47] + "..."
  }

  /** A log entry: one `<S ...>` (sent) or `<R ...>` (received) section of
      the facilitator log. `parsed` is what `KQMLPerformative.from_string`
      makes of the message text, None where it raises. `content` and `sem`
      are filled on first use. */
  class CwcLogEntry {
    const kind: string
    const time: string
    const message: string
    const partner: string
    const logDir: string
    const parsed: Option<Perf>
    var content: Option<Perf>
    var sem: Option<string>

    /** What the caches may hold: the parse of the message, and the sem of
        that parse. */
    ghost predicate Valid()
      reads this
    {
      && (content.Some? ==> content == parsed)
      && (sem.Some? ==> content.Some? && FirstSem(SEMS, partner, content) == Ok(sem))
    }

    constructor(kind0: string, time0: string, message0: string, partner0: string,
                logDir0: string, parsed0: Option<Perf>)
      ensures kind == kind0 && time == time0 && message == message0
      ensures partner == partner0 && logDir == logDir0 && parsed == parsed0
      ensures content.None? && sem.None?
      ensures Valid()
    {
      kind, time, message := kind0, time0, message0;
      partner, logDir, parsed := partner0, logDir0, parsed0;
      content, sem := None, None;
    }

    /** `get_content`: the parsed message, parsed once. */
    method GetContent() returns (r: Result<Perf>)
      requires Valid()
      modifies this
      ensures Valid()
      ensures r.Ok? <==> parsed.Some?
      ensures r.Ok? ==> r.value == parsed.value && content == parsed
      ensures r.Err? ==> r.exc == KqmlError && content == old(content)
      ensures sem == old(sem)
    {
      if content.None? {
        if parsed.None? {
          return Err(KqmlError);
        }
        content := parsed;
      }
      r := Ok(content.value);
    }

    /** `get_sem`: the first of `possible_sems` whose test holds for the
        current content, remembered once found. */
    method GetSem() returns (r: Result<Option<string>>)
      requires Valid()
      modifies this
      ensures Valid()
      ensures r == FirstSem(SEMS, partner, content)
      ensures content == old(content)
      ensures r.Ok? ==> sem == r.value
      ensures r.Err? ==> sem == old(sem)
    {
      if sem.None? {
        var found := FindSem(partner, content);
        if found.Err? {
          return Err(found.exc);
        }
        sem := found.value;
      }
      r := Ok(sem);
    }

    /** `is_sem`: ValueError for a name outside `possible_sems`, else
        whether it is this entry's sem. */
    method IsSem(s: string) returns (r: Result<bool>)
      requires Valid()
      modifies this
      ensures Valid()
      ensures s !in SEMS ==> r == Err(ValueError) && sem == old(sem)
      ensures s in SEMS && FirstSem(SEMS, partner, content).Err? ==>
                r == Err(FirstSem(SEMS, partner, content).exc)
      ensures s in SEMS && FirstSem(SEMS, partner, content).Ok? ==>
                r == Ok(FirstSem(SEMS, partner, content).value == Some(s))
      ensures content == old(content)
    {
      if s !in SEMS {
        return Err(ValueError);
      }
      var got := GetSem();
      if got.Err? {
        return Err(got.exc);
      }
      r := Ok(got.value == Some(s));
    }

    /** `__repr__`: `<CwcLogEntry S to BA: "...">` for sent entries and
        `from` otherwise, with the message shortened to at most 50
        characters. */
    function Repr(): (r: string)
      ensures kind == "S" ==> StartsWith(r, "<CwcLogEntry S to " + partner + ": \"")
      ensures kind != "S" ==> StartsWith(r, "<CwcLogEntry " + kind + " from " + partner + ": \"")
      ensures EndsWith(r, Shown(message) + "\">")
      ensures |r| <= |kind| + |partner| + 74
    {
      "<CwcLogEntry " + kind + (if kind == "S" then " to " else " from ")
        + partner + ": \"" + Shown(message) + "\">"
    }
  }

  /** Entries that belong in the transcript: the message parses and has a sem. */
  predicate IsIo(e: CwcLogEntry) {
    e.parsed.Some? && FirstSem(SEMS, e.partner, e.parsed).value.Some?
  }

  /** One section the log's section pattern finds: the entry type, time,
      partner, message text and what the KQML parser makes of it. */
  datatype Section = Section(kind: string, time: string, partner: string,
                             message: string, parsed: Option<Perf>)

  /** An entry built from a section, as `get_all_entries` builds it. */
  predicate FromSection(e: CwcLogEntry, s: Section, logDir: string) {
    && e.kind == s.kind && e.time == s.time && e.partner == s.partner
    && e.message == s.message && e.parsed == s.parsed && e.logDir == logDir
  }

  /** A facilitator log with its lazily built entry lists. `ioEntries` is
      empty until filled: an empty list is refilled on the next request, as
      in the code. */
  class CwcLog {
    const logDir: string
    const sections: seq<Section>
    var allEntries: Option<seq<CwcLogEntry>>
    var ioEntries: seq<CwcLogEntry>

    function Entries(): set<CwcLogEntry>
      reads this
    {
      if allEntries.Some? then set e | e in allEntries.value else {}
    }

    ghost predicate Valid()
      reads this, Entries()
    {
      && (allEntries.Some? ==>
            && |allEntries.value| == |sections|
            && (forall i :: 0 <= i < |sections| ==>
                  FromSection(allEntries.value[i], sections[i], logDir) && allEntries.value[i].Valid())
            && (forall i, j :: 0 <= i < j < |sections| ==> allEntries.value[i] != allEntries.value[j]))
      && (ioEntries != [] ==> allEntries.Some? && ioEntries == Filter(allEntries.value, IsIo))
    }

    constructor(logDir0: string, sections0: seq<Section>)
      ensures logDir == logDir0 && sections == sections0
      ensures allEntries.None? && ioEntries == []
      ensures Valid()
    {
      logDir, sections := logDir0, sections0;
      allEntries, ioEntries := None, [];
    }

    /** `get_all_entries`: one fresh entry per section, in log order, built
        once. With no section the list is left empty and the assertion
        fails, so a later call returns the empty list. */
    method GetAllEntries() returns (r: Result<seq<CwcLogEntry>>)
      requires Valid()
      modifies this
      ensures Valid() && ioEntries == old(ioEntries)
      ensures allEntries.Some?
      ensures old(allEntries).Some? ==> allEntries == old(allEntries) && r == Ok(allEntries.value)
      ensures old(allEntries).None? ==> forall e :: e in allEntries.value ==> fresh(e)
      ensures r.Err? <==> old(allEntries).None? && sections == []
      ensures r.Err? ==> r.exc == AssertionError
      ensures r.Ok? ==> r.value == allEntries.value
    {
      if allEntries.None? {
        allEntries := Some([]);
        if sections == [] {
          return Err(AssertionError);
        }
        var es: seq<CwcLogEntry> := [];
        var i := 0;
        while i < |sections|
          invariant 0 <= i <= |sections| && |es| == i
          invariant forall k :: 0 <= k < i ==> FromSection(es[k], sections[k], logDir) && es[k].Valid()
          invariant forall k :: 0 <= k < i ==> fresh(es[k])
          invariant forall k, l :: 0 <= k < l < i ==> es[k] != es[l]
          invariant allEntries == Some([]) && ioEntries == old(ioEntries)
        {
          var s := sections[i];
          var e := new CwcLogEntry(s.kind, s.time, s.message, s.partner, logDir, s.parsed);
          es := es + [e];
          i := i + 1;
        }
        allEntries := Some(es);
      }
      r := Ok(allEntries.value);
    }

    /** The filtering loop of `get_io_entries`: keep, in order, the entries
        whose message parses and has a sem. */
    static method CollectIo(es: seq<CwcLogEntry>) returns (io: seq<CwcLogEntry>)
      requires forall i :: 0 <= i < |es| ==> es[i].Valid()
      requires forall i, j :: 0 <= i < j < |es| ==> es[i] != es[j]
      modifies set e | e in es
      ensures io == Filter(es, IsIo)
      ensures forall i :: 0 <= i < |es| ==> es[i].Valid()
    {
      io := [];
      var i := 0;
      while i < |es|
        invariant 0 <= i <= |es|
        invariant forall k :: 0 <= k < |es| ==> es[k].Valid()
        invariant io == Filter(es[..i], IsIo)
      {
        FilterPrefix(es, i, IsIo);
        var keep := Classify(es[i]);
        if keep {
          io := io + [es[i]];
        }
        i := i + 1;
      }
      assert es[..i] == es;
    }

    /** One step of the filtering loop: parse the entry (an entry whose
        message does not parse is skipped) and ask for its sem. */
    static method Classify(e: CwcLogEntry) returns (keep: bool)
      requires e.Valid()
      modifies e
      ensures e.Valid()
      ensures keep == IsIo(e)
    {
      var parsedOk := e.GetContent();
      if parsedOk.Err? {
        return false;
      }
      var s := e.GetSem();
      keep := s.value.Some?;
    }

    /** `get_io_entries`: the transcript entries, computed from all entries
        unless an earlier call already found some. */
    method GetIoEntries() returns (r: Result<seq<CwcLogEntry>>)
      requires Valid()
      modifies this, Entries()
      ensures Valid()
      ensures r.Ok? ==> allEntries.Some? && r.value == Filter(allEntries.value, IsIo)
      ensures r.Ok? ==> r.value == ioEntries
      ensures r.Err? <==> old(ioEntries) == [] && old(allEntries).None? && sections == []
      ensures r.Err? ==> r.exc == AssertionError
    {
      if ioEntries == [] {
        var all := GetAllEntries();
        if all.Err? {
          return Err(all.exc);
        }
        var io := CollectIo(all.value);
        ioEntries := io;
      }
      r := Ok(ioEntries);
    }
  }

  // ---------------------------------------------------------------------------
  // Naming decisions

  /** IMG_DIRNAME and SESS_ID_MARK. */
  const IMG_DIRNAME := "images"
  const SESS_ID_MARK := "__SESS_ID_MARKER__"

  /** Where a displayed image is served from (`make_html` for a
      display_image entry): "" when no component of the image path is
      "images"; otherwise `static/<marker>/` followed by the components from
      the first "images" on. Reading the log name from a log directory
      without a '/' raises IndexError. */
  function ImageLocation(imgPath: string, logDir: string): (r: Result<string>)
    ensures r.Err? <==> IMG_DIRNAME in Split(imgPath, '/') && '/' !in logDir
    ensures r.Err? ==> r.exc == IndexError
    ensures r.Ok? ==> (r.value == "" <==> IMG_DIRNAME !in Split(imgPath, '/'))
    ensures r.Ok? && r.value != "" ==>
              exists k :: 0 <= k < |Split(imgPath, '/')|
                          && Split(imgPath, '/')[k] == IMG_DIRNAME
                          && IMG_DIRNAME !in Split(imgPath, '/')[..k]
                          && Split(r.value, '/') == ["static", SESS_ID_MARK] + Split(imgPath, '/')[k..]
  {
    var parts := Split(imgPath, '/');
    SplitCountsSeparators(logDir, '/');
    if IMG_DIRNAME !in parts then Ok("")
    else if |Split(logDir, '/')| < 2 then Err(IndexError)
    else
      var k := IndexOf(parts, IMG_DIRNAME);
      SplitPartsHaveNoSeparator(imgPath, '/');
      LocationParts(["static", SESS_ID_MARK] + parts[k..], '/');
      Ok(Join(["static", SESS_ID_MARK] + parts[k..], '/'))
  }

  /** Joining parts without the separator, the first of them non-empty,
      gives a non-empty string that splits back into those parts. */
  lemma LocationParts(segs: seq<string>, c: char)
    requires |segs| >= 2 && segs[0] != ""
    requires forall i :: 0 <= i < |segs| ==> c !in segs[i]
    ensures Join(segs, c) != "" && Split(Join(segs, c), c) == segs
  {
    SplitJoin(segs, c);
    assert Join(segs, c) == segs[0] + [c] + Join(segs[1..], c);
  }

  /** `CwcLog` reading the interface and the image out of the image id of
      the log directory's name: CLIC or SBGN by a case-insensitive prefix
      (which is then dropped with the dashes after it), else UNKNOWN; an id
      with "-20" in it (a date) is cut at its first '-'. A directory name the
      pattern does not match leaves the id None, and lowering it raises
      AttributeError. */
  function DetectInterface(imageId: Option<string>): (r: Result<(string, string)>)
    ensures r.Err? <==> imageId.None?
    ensures r.Err? ==> r.exc == AttributeError
    ensures r.Ok? ==> (r.value.0 == "CLIC" <==> StartsWith(Lower(imageId.value), "clic"))
    ensures r.Ok? ==> (r.value.0 == "SBGN" <==> StartsWith(Lower(imageId.value), "sbgn"))
    ensures r.Ok? ==> (r.value.0 == "UNKNOWN" <==>
                         !StartsWith(Lower(imageId.value), "clic") && !StartsWith(Lower(imageId.value), "sbgn"))
    ensures r.Ok? && r.value.0 == "UNKNOWN" ==> r.value.1 == DropDate(imageId.value)
    ensures r.Ok? && r.value.0 != "UNKNOWN" ==>
              |imageId.value| >= 4 && r.value.1 == DropDate(LStrip(imageId.value[4..], '-'))
    ensures r.Ok? ==> !Occurs(r.value.1, "-20")
  {
    if imageId.None? then Err(AttributeError)
    else
      var id := imageId.value;
      var iface := InterfaceOf(Lower(id));
      assert |Lower(id)| == |id|;
      Ok((iface, DropDate(if iface == "UNKNOWN" then id else LStrip(id[4..], '-'))))
  }

  /** The interface a lowercased image id names by its prefix. */
  function InterfaceOf(low: string): (iface: string)
    ensures iface == "CLIC" <==> StartsWith(low, "clic")
    ensures iface == "SBGN" <==> StartsWith(low, "sbgn")
    ensures iface == "UNKNOWN" <==> !StartsWith(low, "clic") && !StartsWith(low, "sbgn")
  {
    assert StartsWith(low, "clic") ==> low[0] == 'c';
    assert StartsWith(low, "sbgn") ==> low[0] == 's';
    if StartsWith(low, "clic") then "CLIC"
    else if StartsWith(low, "sbgn") then "SBGN"
    else "UNKNOWN"
  }

  /** An id with "-20" in it cut before its first '-': a prefix without the date. */
  function DropDate(id: string): (r: string)
    ensures StartsWith(id, r) && !Occurs(r, "-20")
    ensures !Occurs(id, "-20") ==> r == id
    ensures Occurs(id, "-20") ==> '-' !in r && |r| < |id| && id[|r|] == '-'
  {
    SplitHead(id, '-');
    NoDashNoDate(Split(id, '-')[0]);
    if Occurs(id, "-20") then
      DateHasDash(id);
      Split(id, '-')[0]
    else id
  }

  /** A string containing "-20" contains a '-'. */
  lemma DateHasDash(s: string)
    requires Occurs(s, "-20")
    ensures '-' in s
  {
    var i :| 0 <= i <= |s| && StartsWith(s[i..], "-20");
    assert s[i] == s[i..][0] == '-';
  }

  /** A string without '-' cannot contain "-20". */
  lemma NoDashNoDate(s: string)
    requires '-' !in s
    ensures !Occurs(s, "-20")
  {
    forall i | 0 <= i <= |s|
      ensures !StartsWith(s[i..], "-20")
    {
      if i < |s| {
        assert s[i..][0] == s[i];
      }
    }
  }

  /** Replacing a pattern by itself changes nothing. */
  lemma {:induction false} ReplaceSame(s: string, p: string)
    requires p != []
    ensures Replace(s, p, p) == s
    decreases |s|
  {
    if s != [] {
      if StartsWith(s, p) {
        ReplaceSame(s[|p|..], p);
        assert s == p + s[|p|..];
      } else {
        ReplaceSame(s[1..], p);
        assert s == [s[0]] + s[1..];
      }
    }
  }

  /** The file-type resolution at the top of `export_logs`: the type is
      lowercased, an output file ending in ".pdf" forces pdf, a type other
      than pdf or html raises ValueError, and without an output file the
      target is the directory's `transcript.html` with every "html" replaced
      by the type. Returns the type and the target file. */
  function ExportTarget(logDirPath: string, outFile: Option<string>, fileType: string)
    : (r: Result<(string, string)>)
    ensures Given(outFile) && EndsWith(outFile.value, ".pdf") ==> r == Ok(("pdf", outFile.value))
    ensures !(Given(outFile) && EndsWith(outFile.value, ".pdf")) ==>
              (r.Err? <==> Lower(fileType) != "pdf" && Lower(fileType) != "html")
    ensures r.Err? ==> r.exc == ValueError
    ensures r.Ok? ==> r.value.0 == "pdf" || r.value.0 == "html"
    ensures r.Ok? && outFile.Some? ==> r.value.1 == outFile.value
    ensures r.Ok? && outFile.None? && r.value.0 == "html" ==>
              r.value.1 == PathJoin(logDirPath, "transcript.html")
    ensures r.Ok? && outFile.None? && r.value.0 == "pdf" ==> !Occurs(r.value.1, "html")
  {
    var t := if Given(outFile) && EndsWith(outFile.value, ".pdf") then "pdf" else Lower(fileType);
    if t != "pdf" && t != "html" then Err(ValueError)
    else
      var htmlFile := PathJoin(logDirPath, "transcript.html");
      if outFile.Some? then Ok((t, outFile.value))
      else
        ReplaceSame(htmlFile, "html");
        ReplaceAvoids(htmlFile, "html", "pdf", "html");
        Ok((t, Replace(htmlFile, "html", t)))
  }
}
