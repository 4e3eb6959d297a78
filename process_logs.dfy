/** Exporting a facilitator log as a LaTeX transcript (process_logs.py):
    the tags of the log are split into dialogues at each start of
    conversation, the user and system utterances and the displayed images
    become transcript lines, and the lines are rendered into a LaTeX
    document. The XML tree and the message regexes are inputs: each tag
    carries its attributes, its text and what the message patterns capture
    from that text. */
module ProcessLogs {
  import opened Wrappers
  import opened Strings

  // ---------------------------------------------------------------------------
  // The parsed log

  /** What the message patterns of the export capture from a tag's text:
      the quoted text of a TextTagger request, the quoted word of a user
      message from the SBGN interface, the path of a displayed reaction
      network or simulation image, and the quoted text Bob speaks. */
  datatype Found = Found(request: Option<string>, word: Option<string>,
                         reactionImage: Option<string>, simulationImage: Option<string>,
                         spoken: Option<string>)

  /** One child element of the log: its attributes (`S` sender, `R`
      receiver, `T` time), its text, and the captures of its text. */
  datatype Tag = Tag(attrs: map<string, string>, text: Option<string>, found: Found)

  /** The parsed log: the root's attributes, the instant its DATE and TIME
      denote in seconds (None where `strptime` rejects them) and its tags. */
  datatype Log = Log(attrs: map<string, string>, start: Option<int>, tags: seq<Tag>)

  /** A transcript line: who speaks, when, "txt" or "img", and the text or
      image name. */
  datatype Line = Line(user: string, time: string, kind: string, msg: string)

  predicate Truthy(s: Option<string>) {
    s.Some? && s.value != ""
  }

  // ---------------------------------------------------------------------------
  // Senders, receivers, times

  /** `is_sent_by`: the `S` attribute is present, non-empty and equal to
      the sender ignoring case. */
  predicate IsSentBy(tag: Tag, sender: string) {
    "S" in tag.attrs && tag.attrs["S"] != "" && Upper(tag.attrs["S"]) == Upper(sender)
  }

  /** `is_received_by`: the same test on the `R` attribute. */
  predicate IsReceivedBy(tag: Tag, receiver: string) {
    "R" in tag.attrs && tag.attrs["R"] != "" && Upper(tag.attrs["R"]) == Upper(receiver)
  }

  /** Upper-casing a lower-cased string gives the upper-cased string. */
  lemma UpperOfLower(s: string)
    ensures Upper(Lower(s)) == Upper(s)
  {
    assert forall i :: 0 <= i < |s| ==> UpperChar(LowerChar(s[i])) == UpperChar(s[i]);
  }

  /** Sender and receiver tests do not depend on the case of the name asked for. */
  lemma SenderCaseInsensitive(tag: Tag, name: string)
    ensures IsSentBy(tag, Lower(name)) == IsSentBy(tag, name)
    ensures IsReceivedBy(tag, Lower(name)) == IsReceivedBy(tag, name)
  {
    UpperOfLower(name);
  }

  /** `time.strptime(clock, '%H:%M:%S')` on two-digit fields: the hour,
      minute and second, None where the text or a field is out of range. */
  function ParseClock(clock: string): (r: Option<(int, int, int)>)
    ensures r.Some? ==> 0 <= r.value.0 < 24 && 0 <= r.value.1 < 60 && 0 <= r.value.2 <= 61
  {
    if |clock| != 8 || clock[2] != ':' || clock[5] != ':'
       || !AllDigits(clock[0..2]) || !AllDigits(clock[3..5]) || !AllDigits(clock[6..8]) then None
    else
      var h, m, s := DigitsValue(clock[0..2]), DigitsValue(clock[3..5]), DigitsValue(clock[6..8]);
      if h < 24 && m < 60 && s <= 61 then Some((h, m, s)) else None
  }

  /** `ts[:-3]`: all but the last three characters, empty when there are fewer. */
  function DropLast3(ts: string): (r: string)
    ensures |ts| >= 3 ==> ts == r + ts[|ts| - 3..]
    ensures |ts| < 3 ==> r == ""
  {
    ts[..if |ts| >= 3 then |ts| - 3 else 0]
  }

  /** `get_timestamp`: the raw `T` attribute, and the dialogue start plus
      the hours, minutes and seconds read from it without its last three
      characters. A missing attribute is sliced as None (TypeError); an
      unreadable clock raises ValueError. */
  function GetTimestamp(tag: Tag, start: int): (r: Result<(string, int)>)
    ensures r.Err? <==> "T" !in tag.attrs || ParseClock(DropLast3(tag.attrs["T"])).None?
    ensures r.Err? ==> r.exc == (if "T" in tag.attrs then ValueError else TypeError)
    ensures r.Ok? ==> r.value.0 == tag.attrs["T"] && start <= r.value.1 <= start + 86401
  {
    if "T" !in tag.attrs then Err(TypeError)
    else
      var ts := tag.attrs["T"];
      match ParseClock(DropLast3(ts))
      case None => Err(ValueError)
      case Some((h, m, s)) => Ok((ts, start + 3600 * h + 60 * m + s))
  }

  /** A clock written with two-digit fields is read back as its fields. */
  lemma ClockOfPads(h: nat, m: nat, s: nat)
    requires h < 24 && m < 60 && s < 60
    ensures ParseClock(Pad(h, 2) + ":" + Pad(m, 2) + ":" + Pad(s, 2)) == Some((h, m, s))
  {
    var clock := Pad(h, 2) + ":" + Pad(m, 2) + ":" + Pad(s, 2);
    PadValue(h, 2);
    PadValue(m, 2);
    PadValue(s, 2);
    assert clock[0..2] == Pad(h, 2) && clock[3..5] == Pad(m, 2) && clock[6..8] == Pad(s, 2);
  }

  lemma TimestampOfParsed(tag: Tag, start: int, clock: string, rest: string, h: int, m: int, s: int)
    requires ParseClock(clock) == Some((h, m, s)) && |rest| == 3
    requires "T" in tag.attrs && tag.attrs["T"] == clock + rest
    ensures GetTimestamp(tag, start) == Ok((tag.attrs["T"], start + 3600 * h + 60 * m + s))
  {
    assert DropLast3(clock + rest) == clock;
  }

  /** A time written as HH:MM:SS followed by three more characters is read
      back as that many seconds after the dialogue start. */
  lemma TimestampOfClock(tag: Tag, start: int, h: nat, m: nat, s: nat, rest: string)
    requires h < 24 && m < 60 && s < 60 && |rest| == 3
    requires "T" in tag.attrs && tag.attrs["T"] == Pad(h, 2) + ":" + Pad(m, 2) + ":" + Pad(s, 2) + rest
    ensures GetTimestamp(tag, start) == Ok((tag.attrs["T"], start + 3600 * h + 60 * m + s))
  {
    ClockOfPads(h, m, s);
    TimestampOfParsed(tag, start, Pad(h, 2) + ":" + Pad(m, 2) + ":" + Pad(s, 2), rest, h, m, s);
  }

  // ---------------------------------------------------------------------------
  // Text

  /** `reformat_text`: bold tags become `\textbf{...}`, and '%' and '_'
      are escaped for LaTeX, in that order. */
  function ReformatText(txt: string): (r: string)
    ensures !Occurs(r, "<b>") && !Occurs(r, "</b>")
    ensures Escaped(r, '%') && Escaped(r, '_')
  {
    var s1 := Replace(txt, "<b>", "\\textbf{");
    var s2 := Replace(s1, "</b>", "}");
    var s3 := Replace(s2, "%", "\\%");
    var s4 := Replace(s3, "_", "\\_");
    ReplaceAvoids(txt, "<b>", "\\textbf{", "<b>");
    ReplaceAvoids(s1, "</b>", "}", "<b>");
    ReplaceAvoids(s1, "</b>", "}", "</b>");
    ReplaceAvoids(s2, "%", "\\%", "<b>");
    ReplaceAvoids(s2, "%", "\\%", "</b>");
    ReplaceAvoids(s3, "_", "\\_", "<b>");
    ReplaceAvoids(s3, "_", "\\_", "</b>");
    EscapeEscapes(s2, '%');
    EscapeKeepsEscaped(s3, '_', '%');
    EscapeEscapes(s3, '_');
    s4
  }

  /** Replacing a pattern that does not occur changes nothing. */
  lemma {:induction false} ReplaceAbsent(s: string, p: string, r: string)
    requires p != [] && !Occurs(s, p)
    ensures Replace(s, p, r) == s
    decreases |s|
  {
    if s != [] {
      assert !StartsWith(s[0..], p);
      assert s[0..] == s;
      OccursSuffix(s, 1, p);
      ReplaceAbsent(s[1..], p, r);
    }
  }

  /** Text without bold tags, '%' or '_' is left as it is. */
  lemma ReformatPlain(txt: string)
    requires !Occurs(txt, "<b>") && !Occurs(txt, "</b>") && '%' !in txt && '_' !in txt
    ensures ReformatText(txt) == txt
  {
    OccursChar(txt, '%');
    OccursChar(txt, '_');
    ReplaceAbsent(txt, "<b>", "\\textbf{");
    ReplaceAbsent(txt, "</b>", "}");
    ReplaceAbsent(txt, "%", "\\%");
    ReplaceAbsent(txt, "_", "\\_");
  }

  /** The ASCII characters `str.isspace` accepts: space, tab, line feed,
      vertical tab, form feed, carriage return, and the file, group, record
      and unit separators 0x1C-0x1F. */
  predicate IsSpace(c: char) {
    c == ' ' || 9 <= c as int <= 13 || 28 <= c as int <= 31
  }

  /** Python's `str.strip()` on the ASCII whitespace `IsSpace` names. */
  function Strip(s: string): (r: string)
    ensures |r| <= |s|
    ensures r != [] ==> !IsSpace(r[0]) && !IsSpace(r[|r| - 1])
    decreases |s|
  {
    if s != [] && IsSpace(s[0]) then Strip(s[1..])
    else if s != [] && IsSpace(s[|s| - 1]) then Strip(s[..|s| - 1])
    else s
  }

  /** Only whitespace lies before position i and from position j on. */
  ghost predicate BlankOutside(s: string, i: nat, j: nat) {
    (forall k :: 0 <= k < i && k < |s| ==> IsSpace(s[k]))
    && (forall k :: j <= k < |s| ==> IsSpace(s[k]))
  }

  lemma BlankFront(s: string, i: nat, j: nat)
    requires s != [] && IsSpace(s[0]) && BlankOutside(s[1..], i, j)
    ensures BlankOutside(s, i + 1, j + 1)
  {
    forall k | 0 <= k < i + 1 && k < |s| ensures IsSpace(s[k]) {
      if k > 0 { assert s[k] == s[1..][k - 1]; }
    }
    forall k | j + 1 <= k < |s| ensures IsSpace(s[k]) {
      assert s[k] == s[1..][k - 1];
    }
  }

  lemma BlankBack(s: string, i: nat, j: nat)
    requires s != [] && IsSpace(s[|s| - 1]) && BlankOutside(s[..|s| - 1], i, j)
    ensures BlankOutside(s, i, j)
  {
    forall k | 0 <= k < i && k < |s| ensures IsSpace(s[k]) {
      if k < |s| - 1 { assert s[k] == s[..|s| - 1][k]; }
    }
    forall k | j <= k < |s| ensures IsSpace(s[k]) {
      if k < |s| - 1 { assert s[k] == s[..|s| - 1][k]; }
    }
  }

  /** The bounds of the slice that stripping keeps. */
  lemma {:induction false} StripBounds(s: string) returns (i: nat, j: nat)
    ensures i <= j <= |s| && Strip(s) == s[i..j] && BlankOutside(s, i, j)
    decreases |s|
  {
    if s != [] && IsSpace(s[0]) {
      var i', j' := StripBounds(s[1..]);
      assert s[1..][i'..j'] == s[i' + 1..j' + 1];
      BlankFront(s, i', j');
      i, j := i' + 1, j' + 1;
    } else if s != [] && IsSpace(s[|s| - 1]) {
      var t := s[..|s| - 1];
      i, j := StripBounds(t);
      assert t[i..j] == s[i..j];
      BlankBack(s, i, j);
    } else {
      i, j := 0, |s|;
    }
  }

  /** Stripping keeps a slice of the text and cuts off only whitespace. */
  lemma StripSlice(s: string)
    ensures exists i: nat, j: nat :: i <= j <= |s| && Strip(s) == s[i..j] && BlankOutside(s, i, j)
  {
    var i, j := StripBounds(s);
  }

  /** The two forms of the start-of-conversation broadcast, ignoring case. */
  predicate IsStart(msg: string) {
    Upper(msg) == "(BROADCAST :CONTENT (TELL :CONTENT (START-CONVERSATION)))"
    || Upper(msg) == "(TELL :CONTENT (START-CONVERSATION))"
  }

  // ---------------------------------------------------------------------------
  // Transcript lines of one tag

  /** The name an image is shown under: the last '/'-part of its path,
      after the images folder when one is given. */
  function ImageName(path: string, folder: Option<string>): (name: string)
    ensures !Truthy(folder) ==> '/' !in name && EndsWith(path, name)
                                && (|name| == |path| || path[|path| - |name| - 1] == '/')
    ensures Truthy(folder) ==> StartsWith(name, folder.value)
  {
    if Truthy(folder) then folder.value + Basename(path) else Basename(path)
  }

  /** The image lines of one tag, trying the image types in order. */
  function ImageLines(paths: seq<Option<string>>, ts: string, folder: Option<string>): seq<Line>
    decreases |paths|
  {
    if paths == [] then []
    else
      ImageLines(paths[..|paths| - 1], ts, folder)
      + (match paths[|paths| - 1]
         case None => []
         case Some(p) => [Line("Bob", ts, "img", ImageName(p, folder))])
  }

  /** The lines one tag adds, in the order the export appends them: a user
      utterance typed to TextTagger or sent by the SBGN interface, or the
      images the SBGN interface is told to display; then an utterance Bob
      speaks through the keyboard agent. */
  function TagLines(tag: Tag, ts: string, folder: Option<string>): seq<Line> {
    (if IsReceivedBy(tag, "texttagger") then
       (if tag.found.request.Some? then [Line("User", ts, "txt", ReformatText(tag.found.request.value))] else [])
     else if IsSentBy(tag, "SBGNVIZ-INTERFACE-AGENT") then
       (if tag.found.word.Some? then [Line("User", ts, "txt", ReformatText(tag.found.word.value))] else [])
     else if IsReceivedBy(tag, "SBGNVIZ-INTERFACE-AGENT") then
       ImageLines([tag.found.reactionImage, tag.found.simulationImage], ts, folder)
     else [])
    + (if IsReceivedBy(tag, "keyboard") && tag.found.spoken.Some? then
         [Line("Bob", ts, "txt", ReformatText(tag.found.spoken.value))]
       else [])
  }

  /** Every line is a text line or an image line, and without an images
      folder every image name is a bare file name. */
  predicate WellKinded(lines: seq<Line>, folder: Option<string>) {
    forall i :: 0 <= i < |lines| ==>
      (lines[i].kind == "txt" || lines[i].kind == "img")
      && (lines[i].kind == "img" && !Truthy(folder) ==> '/' !in lines[i].msg)
  }

  lemma WellKindedConcat(a: seq<Line>, b: seq<Line>, folder: Option<string>)
    requires WellKinded(a, folder) && WellKinded(b, folder)
    ensures WellKinded(a + b, folder)
  {
    forall i | 0 <= i < |a + b|
      ensures (a + b)[i] == (if i < |a| then a[i] else b[i - |a|])
    {
    }
  }

  lemma ImageLinesWellKinded(paths: seq<Option<string>>, ts: string, folder: Option<string>)
    ensures WellKinded(ImageLines(paths, ts, folder), folder)
    decreases |paths|
  {
    if paths != [] {
      ImageLinesWellKinded(paths[..|paths| - 1], ts, folder);
      WellKindedConcat(ImageLines(paths[..|paths| - 1], ts, folder),
                       match paths[|paths| - 1]
                       case None => []
                       case Some(p) => [Line("Bob", ts, "img", ImageName(p, folder))], folder);
    }
  }

  lemma TagLinesWellKinded(tag: Tag, ts: string, folder: Option<string>)
    ensures WellKinded(TagLines(tag, ts, folder), folder)
  {
    ImageLinesWellKinded([tag.found.reactionImage, tag.found.simulationImage], ts, folder);
    var first :=
      if IsReceivedBy(tag, "texttagger") then
        (if tag.found.request.Some? then [Line("User", ts, "txt", ReformatText(tag.found.request.value))] else [])
      else if IsSentBy(tag, "SBGNVIZ-INTERFACE-AGENT") then
        (if tag.found.word.Some? then [Line("User", ts, "txt", ReformatText(tag.found.word.value))] else [])
      else if IsReceivedBy(tag, "SBGNVIZ-INTERFACE-AGENT") then
        ImageLines([tag.found.reactionImage, tag.found.simulationImage], ts, folder)
      else [];
    var second :=
      if IsReceivedBy(tag, "keyboard") && tag.found.spoken.Some? then
        [Line("Bob", ts, "txt", ReformatText(tag.found.spoken.value))]
      else [];
    WellKindedConcat(first, second, folder);
  }

  /** Every dialogue is well kinded. */
  predicate AllWellKinded(ds: seq<seq<Line>>, folder: Option<string>) {
    forall d :: d in ds ==> WellKinded(d, folder)
  }

  lemma OpenWellKinded(ds: seq<seq<Line>>, folder: Option<string>)
    requires AllWellKinded(ds, folder)
    ensures AllWellKinded(ds + [[]], folder)
  {
    assert WellKinded([], folder);
  }

  /** Appending well-kinded lines to the last dialogue keeps every dialogue well kinded. */
  lemma AppendLastWellKinded(ds: seq<seq<Line>>, lines: seq<Line>, folder: Option<string>)
    requires |ds| >= 1 && WellKinded(lines, folder) && AllWellKinded(ds, folder)
    ensures AllWellKinded(AppendLast(ds, lines), folder)
  {
    var r := AppendLast(ds, lines);
    WellKindedConcat(ds[|ds| - 1], lines, folder);
    forall d | d in r
      ensures WellKinded(d, folder)
    {
      var k :| 0 <= k < |r| && r[k] == d;
      if k < |r| - 1 {
        assert d == ds[k];
      }
    }
  }

  // ---------------------------------------------------------------------------
  // Segmentation

  /** `dialogues[-1].extend(lines)`: lines go to the last dialogue only. */
  function AppendLast(ds: seq<seq<Line>>, lines: seq<Line>): (r: seq<seq<Line>>)
    requires |ds| >= 1
    ensures |r| == |ds| && r[..|ds| - 1] == ds[..|ds| - 1]
    ensures r[|ds| - 1] == ds[|ds| - 1] + lines
  {
    ds[..|ds| - 1] + [ds[|ds| - 1] + lines]
  }

  /** A tag the loop skips: it has no text. */
  predicate Skipped(tag: Tag) {
    !Truthy(tag.text)
  }

  /** One round of the segmentation loop on the dialogues so far. */
  function Step(ds: seq<seq<Line>>, tag: Tag, start: int, folder: Option<string>)
    : (r: Result<seq<seq<Line>>>)
    requires |ds| >= 1
    ensures r.Ok? ==> |r.value| >= 1
  {
    if Skipped(tag) then Ok(ds)
    else
      match GetTimestamp(tag, start)
      case Err(e) => Err(e)
      case Ok((ts, _)) =>
        var grown := if IsStart(Strip(tag.text.value)) then ds + [[]] else ds;
        Ok(AppendLast(grown, TagLines(tag, ts, folder)))
  }

  /** The dialogues the segmentation loop builds from the tags, starting
      from one empty dialogue; an exception from a time stamp ends it. */
  function Dialogues(tags: seq<Tag>, start: int, folder: Option<string>): (r: Result<seq<seq<Line>>>)
    ensures r.Ok? ==> |r.value| >= 1
    decreases |tags|
  {
    if tags == [] then Ok([[]])
    else
      match Dialogues(tags[..|tags| - 1], start, folder)
      case Err(e) => Err(e)
      case Ok(ds) => Step(ds, tags[|tags| - 1], start, folder)
  }

  /** The number of tags that open a new dialogue. */
  function CountStarts(tags: seq<Tag>): nat
    decreases |tags|
  {
    if tags == [] then 0
    else
      var last := tags[|tags| - 1];
      CountStarts(tags[..|tags| - 1]) + (if !Skipped(last) && IsStart(Strip(last.text.value)) then 1 else 0)
  }

  /** All transcript lines of the tags, in log order. */
  function LinesOf(tags: seq<Tag>, start: int, folder: Option<string>): seq<Line>
    decreases |tags|
  {
    if tags == [] then []
    else
      var last := tags[|tags| - 1];
      LinesOf(tags[..|tags| - 1], start, folder)
      + (if Skipped(last) || GetTimestamp(last, start).Err? then []
         else TagLines(last, GetTimestamp(last, start).value.0, folder))
  }

  /** The dialogues one after the other. */
  function Flatten(ds: seq<seq<Line>>): seq<Line>
    decreases |ds|
  {
    if ds == [] then [] else Flatten(ds[..|ds| - 1]) + ds[|ds| - 1]
  }

  lemma FlattenAppendLast(ds: seq<seq<Line>>, lines: seq<Line>)
    requires |ds| >= 1
    ensures Flatten(AppendLast(ds, lines)) == Flatten(ds) + lines
  {
    var r := AppendLast(ds, lines);
    assert r[..|r| - 1] == ds[..|ds| - 1];
    Assoc(Flatten(ds[..|ds| - 1]), ds[|ds| - 1], lines);
  }

  lemma FlattenOpen(ds: seq<seq<Line>>)
    ensures Flatten(ds + [[]]) == Flatten(ds)
  {
    assert (ds + [[]])[..|ds|] == ds;
  }

  /** An exception on a prefix of the tags is the exception of the whole run. */
  lemma {:induction false} DialoguesErrSticks(tags: seq<Tag>, n: nat, start: int, folder: Option<string>)
    requires n <= |tags| && Dialogues(tags[..n], start, folder).Err?
    ensures Dialogues(tags, start, folder) == Dialogues(tags[..n], start, folder)
    decreases |tags|
  {
    if n < |tags| {
      var init := tags[..|tags| - 1];
      assert init[..n] == tags[..n];
      DialoguesErrSticks(init, n, start, folder);
    } else {
      assert tags[..n] == tags;
    }
  }

  /** Segmentation keeps one dialogue more than there are start messages. */
  lemma {:induction false} DialoguesCount(tags: seq<Tag>, start: int, folder: Option<string>)
    requires Dialogues(tags, start, folder).Ok?
    ensures |Dialogues(tags, start, folder).value| == 1 + CountStarts(tags)
    decreases |tags|
  {
    if tags != [] {
      DialoguesCount(tags[..|tags| - 1], start, folder);
    }
  }

  /** Segmentation loses, duplicates or reorders no line: read one after
      the other, the dialogues are exactly the transcript lines of the tags. */
  lemma {:induction false} DialoguesLines(tags: seq<Tag>, start: int, folder: Option<string>)
    requires Dialogues(tags, start, folder).Ok?
    ensures Flatten(Dialogues(tags, start, folder).value) == LinesOf(tags, start, folder)
    decreases |tags|
  {
    if tags != [] {
      var init := tags[..|tags| - 1];
      var last := tags[|tags| - 1];
      DialoguesLines(init, start, folder);
      FlattenStep(Dialogues(init, start, folder).value, last, start, folder);
    }
  }

  /** One round of the loop adds the tag's lines after all the others. */
  lemma FlattenStep(ds: seq<seq<Line>>, tag: Tag, start: int, folder: Option<string>)
    requires |ds| >= 1 && Step(ds, tag, start, folder).Ok?
    ensures Flatten(Step(ds, tag, start, folder).value) ==
              Flatten(ds) + (if Skipped(tag) || GetTimestamp(tag, start).Err? then []
                             else TagLines(tag, GetTimestamp(tag, start).value.0, folder))
  {
    if Skipped(tag) {
      assert Flatten(ds) + [] == Flatten(ds);
    } else {
      var ts := GetTimestamp(tag, start).value.0;
      var grown := if IsStart(Strip(tag.text.value)) then ds + [[]] else ds;
      FlattenOpen(ds);
      FlattenAppendLast(grown, TagLines(tag, ts, folder));
    }
  }

  /** A tag with text whose `T` attribute is missing or unreadable. */
  predicate BadStamp(tag: Tag, start: int) {
    !Skipped(tag) && GetTimestamp(tag, start).Err?
  }

  /** A segmentation that fails does so on a time stamp: some tag with text
      has a `T` attribute that is missing or unreadable. */
  lemma {:induction false} DialoguesFail(tags: seq<Tag>, start: int, folder: Option<string>)
    ensures Dialogues(tags, start, folder).Err? <==> exists i :: 0 <= i < |tags| && BadStamp(tags[i], start)
    decreases |tags|
  {
    if tags != [] {
      var init := tags[..|tags| - 1];
      DialoguesFail(init, start, folder);
      if exists i :: 0 <= i < |tags| && BadStamp(tags[i], start) {
        var i :| 0 <= i < |tags| && BadStamp(tags[i], start);
        if i < |init| {
          assert init[i] == tags[i];
        }
      }
      if exists i :: 0 <= i < |init| && BadStamp(init[i], start) {
        var i :| 0 <= i < |init| && BadStamp(init[i], start);
        assert init[i] == tags[i];
      }
    }
  }

  /** Every line the segmentation produces is a text or image line, and
      without an images folder the images are named by bare file names. */
  lemma {:induction false} DialoguesWellKinded(tags: seq<Tag>, start: int, folder: Option<string>)
    requires Dialogues(tags, start, folder).Ok?
    ensures AllWellKinded(Dialogues(tags, start, folder).value, folder)
    decreases |tags|
  {
    if tags != [] {
      var init := tags[..|tags| - 1];
      var last := tags[|tags| - 1];
      DialoguesWellKinded(init, start, folder);
      var ds := Dialogues(init, start, folder).value;
      if !Skipped(last) {
        var ts := GetTimestamp(last, start).value.0;
        var grown := if IsStart(Strip(last.text.value)) then ds + [[]] else ds;
        if IsStart(Strip(last.text.value)) {
          OpenWellKinded(ds, folder);
        }
        TagLinesWellKinded(last, ts, folder);
        AppendLastWellKinded(grown, TagLines(last, ts, folder), folder);
      }
    }
  }

  /** `dialogues[-1].append(line)`. */
  function AppendLine(ds: seq<seq<Line>>, line: Line): (r: seq<seq<Line>>)
    requires |ds| >= 1
    ensures r == AppendLast(ds, [line])
  {
    ds[..|ds| - 1] + [ds[|ds| - 1] + [line]]
  }

  lemma AppendNothing(ds: seq<seq<Line>>)
    requires |ds| >= 1
    ensures AppendLast(ds, []) == ds
  {
    assert ds[|ds| - 1] + [] == ds[|ds| - 1];
    assert ds[..|ds| - 1] + [ds[|ds| - 1]] == ds;
  }

  lemma AppendLastTwice(ds: seq<seq<Line>>, a: seq<Line>, b: seq<Line>)
    requires |ds| >= 1
    ensures AppendLast(AppendLast(ds, a), b) == AppendLast(ds, a + b)
  {
    assert ds[|ds| - 1] + a + b == ds[|ds| - 1] + (a + b);
  }

  /** The image loop of one tag: for each image type in order, the image
      it captured goes to the last dialogue. */
  method AddImages(ds: seq<seq<Line>>, paths: seq<Option<string>>, ts: string, folder: Option<string>)
    returns (r: seq<seq<Line>>)
    requires |ds| >= 1
    ensures r == AppendLast(ds, ImageLines(paths, ts, folder))
  {
    r := ds;
    AppendNothing(ds);
    for k := 0 to |paths|
      invariant r == AppendLast(ds, ImageLines(paths[..k], ts, folder))
    {
      assert paths[..k + 1][..k] == paths[..k] && paths[..k + 1][k] == paths[k];
      ghost var before := ImageLines(paths[..k], ts, folder);
      if paths[k].Some? {
        var name := Basename(paths[k].value);
        if Truthy(folder) {
          name := folder.value + name;
        }
        AppendLastTwice(ds, ImageLines(paths[..k], ts, folder), [Line("Bob", ts, "img", name)]);
        r := AppendLine(r, Line("Bob", ts, "img", name));
        assert ImageLines(paths[..k + 1], ts, folder) == before + [Line("Bob", ts, "img", name)];
      } else {
        assert ImageLines(paths[..k + 1], ts, folder) == before + [];
        assert before + [] == before;
      }
    }
    assert paths[..|paths|] == paths;
  }

  /** The lines of one tag appended to the last dialogue, as the loop body
      of `facilitator_to_tex_str` appends them. */
  method AddTagLines(ds: seq<seq<Line>>, tag: Tag, ts: string, folder: Option<string>)
    returns (r: seq<seq<Line>>)
    requires |ds| >= 1
    ensures r == AppendLast(ds, TagLines(tag, ts, folder))
  {
    r := ds;
    var first: seq<Line> := [];
    AppendNothing(ds);
    if IsReceivedBy(tag, "texttagger") {
      if tag.found.request.Some? {
        first := [Line("User", ts, "txt", ReformatText(tag.found.request.value))];
        r := AppendLine(r, first[0]);
      }
    } else if IsSentBy(tag, "SBGNVIZ-INTERFACE-AGENT") {
      if tag.found.word.Some? {
        first := [Line("User", ts, "txt", ReformatText(tag.found.word.value))];
        r := AppendLine(r, first[0]);
      }
    } else if IsReceivedBy(tag, "SBGNVIZ-INTERFACE-AGENT") {
      first := ImageLines([tag.found.reactionImage, tag.found.simulationImage], ts, folder);
      r := AddImages(r, [tag.found.reactionImage, tag.found.simulationImage], ts, folder);
    }
    assert r == AppendLast(ds, first);
    if IsReceivedBy(tag, "keyboard") {
      if tag.found.spoken.Some? {
        var line := Line("Bob", ts, "txt", ReformatText(tag.found.spoken.value));
        AppendLastTwice(ds, first, [line]);
        r := AppendLine(r, line);
        assert TagLines(tag, ts, folder) == first + [line];
      } else {
        assert TagLines(tag, ts, folder) == first + [];
        assert first + [] == first;
      }
    } else {
      assert TagLines(tag, ts, folder) == first + [];
      assert first + [] == first;
    }
  }

  /** The segmentation loop of `facilitator_to_tex_str`. */
  method Segment(tags: seq<Tag>, start: int, folder: Option<string>) returns (r: Result<seq<seq<Line>>>)
    ensures r == Dialogues(tags, start, folder)
  {
    var dialogues: seq<seq<Line>> := [[]];
    for i := 0 to |tags|
      invariant Dialogues(tags[..i], start, folder) == Ok(dialogues)
    {
      assert tags[..i + 1][..i] == tags[..i] && tags[..i + 1][i] == tags[i];
      var tag := tags[i];
      if Skipped(tag) {
        continue;
      }
      var msg := Strip(tag.text.value);
      var stamp := GetTimestamp(tag, start);
      if stamp.Err? {
        DialoguesErrSticks(tags, i + 1, start, folder);
        return Err(stamp.exc);
      }
      var ts := stamp.value.0;
      if IsStart(msg) {
        dialogues := dialogues + [[]];
      }
      dialogues := AddTagLines(dialogues, tag, ts, folder);
    }
    assert tags[..|tags|] == tags;
    r := Ok(dialogues);
  }

  // ---------------------------------------------------------------------------
  // LaTeX

  /** `latex_line`: a text line is the orange time, the speaker (blue Bob,
      anyone else green User) and the text; an image line includes the
      image. Any other kind leaves the line unbound. */
  function LatexLine(line: Line): (r: Result<string>)
    ensures r.Err? <==> line.kind != "txt" && line.kind != "img"
    ensures r.Err? ==> r.exc == UnboundLocalError
    ensures line.kind == "txt" && line.user == "Bob" ==>
              r.value == "\\noindent \\textcolor{orange}{[" + line.time + "]} " + "\\textcolor{blue}{Bob}" + ": " + line.msg
    ensures line.kind == "txt" && line.user != "Bob" ==>
              r.value == "\\noindent \\textcolor{orange}{[" + line.time + "]} " + "\\textcolor{green}{User}" + ": " + line.msg
    ensures line.kind == "img" ==>
              r.value == "\\includegraphics[width=0.6\\textwidth]{" + line.msg + "}\n"
  {
    if line.kind == "txt" then
      var userStr := if line.user == "Bob" then "\\textcolor{blue}{Bob}" else "\\textcolor{green}{User}";
      Ok("\\noindent \\textcolor{orange}{[" + line.time + "]} " + userStr + ": " + line.msg)
    else if line.kind == "img" then
      Ok("\\includegraphics[width=0.6\\textwidth]{" + line.msg + "}\n")
    else Err(UnboundLocalError)
  }

  const RULE := "\\noindent\\rule{\\textwidth}{1pt}\n\n"
  const END := "\\end{document}"

  /** The document preamble, with the dialogue date as the document date. */
  function LatexHeader(datetime: string): (h: string)
    ensures StartsWith(h, "\\documentclass{article}\n")
    ensures EndsWith(h, "\\date{" + datetime + "}\n\\maketitle\n\n")
  {
    "\\documentclass{article}\n" + "\\usepackage{xcolor}\n" + "\\usepackage{graphicx}\n"
      + "\\usepackage[margin=1.2in]{geometry}\n" + "\\begin{document}\n\n"
      + "\\title{Exported dialogues}\n" + "\\date{" + datetime + "}\n" + "\\maketitle\n\n"
  }

  /** `latex_wrapper`: the content, verbatim, between the preamble and the
      end of the document. */
  function LatexWrapper(datetime: string, content: string): (r: string)
    ensures StartsWith(r, LatexHeader(datetime)) && EndsWith(r, END)
    ensures |r| == |LatexHeader(datetime)| + |content| + |END|
    ensures r[|LatexHeader(datetime)|..|r| - |END|] == content
  {
    var r := LatexHeader(datetime) + content + END;
    assert r[..|LatexHeader(datetime)|] == LatexHeader(datetime);
    assert r[|LatexHeader(datetime)|..|r| - |END|] == content;
    r
  }

  /** The rendered lines of one dialogue, each followed by a blank line. */
  function RenderLines(lines: seq<Line>): Result<string>
    decreases |lines|
  {
    if lines == [] then Ok("")
    else
      match RenderLines(lines[..|lines| - 1])
      case Err(e) => Err(e)
      case Ok(s) =>
        match LatexLine(lines[|lines| - 1])
        case Err(e) => Err(e)
        case Ok(l) => Ok(s + l + "\n\n")
  }

  /** One dialogue: its lines, a blank line and a horizontal rule. */
  function Block(d: seq<Line>): Result<string> {
    match RenderLines(d)
    case Err(e) => Err(e)
    case Ok(s) => Ok(s + "\n\n" + RULE)
  }

  /** The assembled body: the dialogues' blocks one after the other. */
  function Render(ds: seq<seq<Line>>): Result<string>
    decreases |ds|
  {
    if ds == [] then Ok("")
    else
      match Render(ds[..|ds| - 1])
      case Err(e) => Err(e)
      case Ok(s) =>
        match Block(ds[|ds| - 1])
        case Err(e) => Err(e)
        case Ok(b) => Ok(s + b)
  }

  lemma {:induction false} RenderLinesErrSticks(lines: seq<Line>, n: nat)
    requires n <= |lines| && RenderLines(lines[..n]).Err?
    ensures RenderLines(lines) == RenderLines(lines[..n])
    decreases |lines|
  {
    if n < |lines| {
      var init := lines[..|lines| - 1];
      assert init[..n] == lines[..n];
      RenderLinesErrSticks(init, n);
    } else {
      assert lines[..n] == lines;
    }
  }

  lemma {:induction false} RenderErrSticks(ds: seq<seq<Line>>, n: nat)
    requires n <= |ds| && Render(ds[..n]).Err?
    ensures Render(ds) == Render(ds[..n])
    decreases |ds|
  {
    if n < |ds| {
      var init := ds[..|ds| - 1];
      assert init[..n] == ds[..n];
      RenderErrSticks(init, n);
    } else {
      assert ds[..n] == ds;
    }
  }

  /** Rendering never fails on text and image lines. */
  lemma {:induction false} RenderLinesOk(lines: seq<Line>, folder: Option<string>)
    requires WellKinded(lines, folder)
    ensures RenderLines(lines).Ok?
    decreases |lines|
  {
    if lines != [] {
      RenderLinesOk(lines[..|lines| - 1], folder);
    }
  }

  lemma {:induction false} RenderOk(ds: seq<seq<Line>>, folder: Option<string>)
    requires AllWellKinded(ds, folder)
    ensures Render(ds).Ok?
    decreases |ds|
  {
    if ds != [] {
      RenderOk(ds[..|ds| - 1], folder);
      RenderLinesOk(ds[|ds| - 1], folder);
    }
  }

  /** Assembly works dialogue by dialogue: rendering two runs of dialogues
      one after the other is rendering each and concatenating, so each
      dialogue contributes exactly one block ending in a rule. */
  lemma {:induction false} RenderAppend(ds: seq<seq<Line>>, es: seq<seq<Line>>)
    requires Render(ds).Ok? && Render(es).Ok?
    ensures Render(ds + es) == Ok(Render(ds).value + Render(es).value)
    decreases |es|
  {
    if es == [] {
      assert ds + es == ds;
      assert Render(ds).value + "" == Render(ds).value;
    } else {
      var init := es[..|es| - 1];
      var last := es[|es| - 1];
      ConcatInit(ds, es);
      RenderAppend(ds, init);
      RenderStep(ds + es);
      RenderStep(es);
      Assoc(Render(ds).value, Render(init).value, Block(last).value);
    }
  }

  lemma Assoc<T>(a: seq<T>, b: seq<T>, c: seq<T>)
    ensures a + b + c == a + (b + c)
  {
  }

  lemma RenderStep(xs: seq<seq<Line>>)
    requires xs != [] && Render(xs[..|xs| - 1]).Ok? && Block(xs[|xs| - 1]).Ok?
    ensures Render(xs) == Ok(Render(xs[..|xs| - 1]).value + Block(xs[|xs| - 1]).value)
  {
  }

  lemma ConcatInit<T>(a: seq<T>, b: seq<T>)
    requires b != []
    ensures (a + b)[..|a + b| - 1] == a + b[..|b| - 1]
    ensures (a + b)[|a + b| - 1] == b[|b| - 1]
  {
  }

  /** The inner loop of the assembly: one dialogue's lines. */
  method AssembleLines(lines: seq<Line>) returns (r: Result<string>)
    ensures r == RenderLines(lines)
  {
    var s := "";
    for j := 0 to |lines|
      invariant RenderLines(lines[..j]) == Ok(s)
    {
      assert lines[..j + 1][..j] == lines[..j] && lines[..j + 1][j] == lines[j];
      var l := LatexLine(lines[j]);
      if l.Err? {
        RenderLinesErrSticks(lines, j + 1);
        return Err(l.exc);
      }
      s := s + l.value;
      s := s + "\n\n";
    }
    assert lines[..|lines|] == lines;
    r := Ok(s);
  }

  /** The assembly loop of `facilitator_to_tex_str`. */
  method Assemble(ds: seq<seq<Line>>) returns (r: Result<string>)
    ensures r == Render(ds)
  {
    var latex := "";
    for i := 0 to |ds|
      invariant Render(ds[..i]) == Ok(latex)
    {
      assert ds[..i + 1][..i] == ds[..i] && ds[..i + 1][i] == ds[i];
      var body := AssembleLines(ds[i]);
      if body.Err? {
        RenderErrSticks(ds, i + 1);
        return Err(body.exc);
      }
      ghost var before := latex;
      latex := latex + body.value;
      latex := latex + "\n\n";
      latex := latex + RULE;
      RenderStep(ds[..i + 1]);
      Assoc(before, body.value + "\n\n", RULE);
      Assoc(before, body.value, "\n\n");
    }
    assert ds[..|ds|] == ds;
    r := Ok(latex);
  }

  // ---------------------------------------------------------------------------
  // The whole export

  /** `'%s' % value` for an attribute that may be missing. */
  function AttrText(attrs: map<string, string>, key: string): string {
    if key in attrs then attrs[key] else "None"
  }

  /** The dialogue date string of `get_dialogue_datetime`: DATE, a space, TIME. */
  function DialogueDate(log: Log): (s: string)
    ensures StartsWith(s, AttrText(log.attrs, "DATE") + " ")
    ensures EndsWith(s, AttrText(log.attrs, "TIME"))
  {
    AttrText(log.attrs, "DATE") + " " + AttrText(log.attrs, "TIME")
  }

  /** What `facilitator_to_tex_str` produces for a parsed log. */
  function Tex(log: Log, folder: Option<string>): Result<string> {
    if log.start.None? then Err(ValueError)
    else
      match Dialogues(log.tags, log.start.value, folder)
      case Err(e) => Err(e)
      case Ok(ds) =>
        match Render(ds)
        case Err(e) => Err(e)
        case Ok(body) => Ok(LatexWrapper(DialogueDate(log), body))
  }

  /** A log whose date parses and whose tags all carry readable times is
      exported: the document is the preamble, one block per dialogue
      (1 + the number of start messages), and the end of the document. */
  lemma TexExports(log: Log, folder: Option<string>)
    requires log.start.Some?
    requires forall i :: 0 <= i < |log.tags| ==> !BadStamp(log.tags[i], log.start.value)
    ensures Dialogues(log.tags, log.start.value, folder).Ok?
    ensures |Dialogues(log.tags, log.start.value, folder).value| == 1 + CountStarts(log.tags)
    ensures Tex(log, folder).Ok?
    ensures Tex(log, folder).value ==
              LatexWrapper(DialogueDate(log), Render(Dialogues(log.tags, log.start.value, folder).value).value)
  {
    DialoguesFail(log.tags, log.start.value, folder);
    DialoguesCount(log.tags, log.start.value, folder);
    DialoguesWellKinded(log.tags, log.start.value, folder);
    RenderOk(Dialogues(log.tags, log.start.value, folder).value, folder);
  }

  /** `facilitator_to_tex_str`. */
  method FacilitatorToTexStr(log: Log, folder: Option<string>) returns (r: Result<string>)
    ensures r == Tex(log, folder)
    ensures r.Ok? ==> StartsWith(r.value, LatexHeader(DialogueDate(log))) && EndsWith(r.value, END)
  {
    if log.start.None? {
      return Err(ValueError);
    }
    var dialogues := Segment(log.tags, log.start.value, folder);
    if dialogues.Err? {
      return Err(dialogues.exc);
    }
    var body := Assemble(dialogues.value);
    if body.Err? {
      return Err(body.exc);
    }
    r := Ok(LatexWrapper(DialogueDate(log), body.value));
  }

  /** `facilitator_to_tex_file`: the document for the log it reads, exported
      without an images folder whatever folder it is given. */
  method FacilitatorToTexFile(log: Log, imagesFolder: Option<string>) returns (r: Result<string>)
    ensures r == Tex(log, None)
  {
    r := FacilitatorToTexStr(log, None);
  }

  /** The file export names every image by its bare file name. */
  lemma TexFileImagesBare(log: Log)
    requires log.start.Some? && Dialogues(log.tags, log.start.value, None).Ok?
    ensures forall d: seq<Line>, i :: (d in Dialogues(log.tags, log.start.value, None).value && 0 <= i < |d|
              && d[i].kind == "img") ==> '/' !in d[i].msg
  {
    DialoguesWellKinded(log.tags, log.start.value, None);
  }
}
