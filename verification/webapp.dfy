/** The standalone web page's own chat reader (webapp.js): `parseChat`, which
    turns an export into a flat list of date, message and system entries with
    a single regular expression, and the test that renders a message as sent
    by the person whose name is typed into the page. */
module WebApp {
  import opened Wrappers
  import opened Text
  import opened Grammar

  // ---------------------------------------------------------------------
  // The line grammar

  /** The stamp of the page's regular expression (webapp.js line 28):
      `\d{1,2}[\/.]\d{1,2}[\/.]\d{2,4}, \d{1,2}:\d{2}(?:\s?[ap]m)? - `, where
      each date separator is a slash or a dot on its own, the separators of
      the layout are literal spaces and the meridiem is lower case only. */
  const PageStamp := Stamp(Dashed, DateForm({'/', '.'}, Width(1, 2), Width(1, 2), Width(2, 4)),
                           TimeForm(false, false, {'a', 'p'}, {'m'}), SpaceOnly)

  /** The four capture groups of a matched line. */
  datatype PageLine = PageLine(date: string, time: string, sender: string, text: string)

  /** `": "` starts at position `j` of `s`. */
  predicate ColonSpace(s: string, j: int)
  {
    0 <= j && j + 1 < |s| && s[j] == ':' && s[j + 1] == ' '
  }

  /** `s` holds no `": "`. */
  ghost predicate NoColonSpace(s: string)
  {
    forall j :: !ColonSpace(s, j)
  }

  /** The position of the first `": "` in `s`, or `|s|` when there is none. */
  function ColonSpaceAt(s: string): (k: nat)
    ensures k <= |s|
    ensures k < |s| ==> ColonSpace(s, k)
    ensures forall j :: 0 <= j < k && j < |s| ==> !ColonSpace(s, j)
  {
    if |s| < 2 then |s|
    else if ColonSpace(s, 0) then 0
    else
      var k := 1 + ColonSpaceAt(s[1..]);
      assert forall j :: 1 <= j < |s| ==> (ColonSpace(s, j) <==> ColonSpace(s[1..], j - 1));
      k
  }

  /** `(.*?): (.*)$` on what follows the stamp: the sender is everything
      before the first `": "`, and neither part may hold a line terminator. */
  function SplitBody(s: string): Option<(string, string)>
  {
    var k := ColonSpaceAt(s);
    if k == |s| || !NoLineTerminator(s) then None else Some((s[..k], s[k + 2..]))
  }

  /** A split body is the sender, `": "` and the text; the sender holds no
      `": "`, and neither part a line terminator. */
  lemma SplitBodySound(s: string)
    requires SplitBody(s).Some?
    ensures var (a, r) := SplitBody(s).value;
      s == a + (": " + r) && NoColonSpace(a) && NoLineTerminator(a) && NoLineTerminator(r)
  {
    var k := ColonSpaceAt(s);
    var (a, r) := (s[..k], s[k + 2..]);
    assert s == a + (": " + r);
    forall j ensures !ColonSpace(a, j) {
      if ColonSpace(a, j) {
        assert ColonSpace(s, j);
      }
    }
    forall i | 0 <= i < |r| ensures !IsLineTerminator(r[i]) {
      assert r[i] == s[k + 2 + i];
    }
  }

  /** Conversely, such a body splits into exactly those parts. */
  lemma SplitBodyComplete(a: string, r: string)
    requires NoColonSpace(a) && NoLineTerminator(a) && NoLineTerminator(r)
    ensures SplitBody(a + (": " + r)) == Some((a, r))
  {
    var s := a + (": " + r);
    assert ColonSpace(s, |a|);
    forall j | 0 <= j < |a| ensures !ColonSpace(s, j) {
      if j + 1 < |a| {
        assert !ColonSpace(a, j);
      } else {
        assert s[j + 1] == ':';
      }
    }
    assert s[..|a|] == a && s[|a| + 2..] == r;
    forall i | 0 <= i < |s| ensures !IsLineTerminator(s[i]) {
      if i < |a| {
        assert s[i] == a[i];
      } else if i >= |a| + 2 {
        assert s[i] == r[i - |a| - 2];
      }
    }
  }

  /** `line.match(regex)` of `parseChat`; the line is matched as it is,
      without trimming. */
  function MatchLine(g: Stamp, line: string): Option<PageLine>
  {
    match ScanStamp(g, line)
    case None => None
    case Some((p, rest)) =>
      match SplitBody(rest)
      case None => None
      case Some((sender, text)) => Some(PageLine(DateText(p.date), TimeText(p.time), sender, text))
  }

  /** The lines the page's regular expression describes: a well-formed stamp,
      a sender without `": "`, then `": "` and the text, with no line
      terminator anywhere after the stamp. */
  ghost predicate PageRendering(g: Stamp, line: string, p: StampParts, m: PageLine)
  {
    && StampWf(g, p)
    && m.date == DateText(p.date) && m.time == TimeText(p.time)
    && NoColonSpace(m.sender)
    && NoLineTerminator(m.sender) && NoLineTerminator(m.text)
    && line == StampThen(g, p, m.sender + (": " + m.text))
  }

  /** Every match is such a rendering; the lazy `(.*?)` makes the sender
      free of `": "`. */
  lemma MatchLineSound(g: Stamp, line: string) returns (p: StampParts)
    requires MatchLine(g, line).Some?
    ensures PageRendering(g, line, p, MatchLine(g, line).value)
  {
    ScanStampSound(g, line);
    var rest;
    p, rest := ScanStamp(g, line).value.0, ScanStamp(g, line).value.1;
    SplitBodySound(rest);
  }

  /** Every such rendering is matched, and the groups are its parts. */
  lemma MatchLineComplete(g: Stamp, p: StampParts, m: PageLine)
    requires FormOk(g)
    requires StampWf(g, p) && m.date == DateText(p.date) && m.time == TimeText(p.time)
    requires NoColonSpace(m.sender) && NoLineTerminator(m.sender) && NoLineTerminator(m.text)
    ensures MatchLine(g, StampThen(g, p, m.sender + (": " + m.text))) == Some(m)
  {
    ScanStampComplete(g, p, m.sender + (": " + m.text));
    SplitBodyComplete(m.sender, m.text);
  }

  /** What the page's pattern has in common with the other dash layouts,
      and where it differs: its meridiem letters are lower case only. */
  ghost predicate PageForm(g: Stamp)
  {
    && g.layout == Dashed && FormOk(g)
    && (forall c :: c in g.time.meridiem ==> IsLower(c))
    && (forall c :: c in g.time.letterM ==> IsLower(c))
  }

  lemma PageStampForm()
    ensures PageForm(PageStamp)
  {
  }

  /** The page's expression is case-sensitive: the time token of a match
      never holds an upper-case letter, so `10:00 PM` stamps are not
      messages here. */
  lemma MatchTimeLowerCase(g: Stamp, line: string)
    requires PageForm(g) && MatchLine(g, line).Some?
    ensures forall i :: 0 <= i < |MatchLine(g, line).value.time| ==> !IsUpper(MatchLine(g, line).value.time[i])
  {
    var p := MatchLineSound(g, line);
    TimeTextLowerCase(g.time, p.time);
  }

  /** A time token of a form with lower-case meridiem letters holds no
      upper-case letter. */
  lemma TimeTextLowerCase(f: TimeForm, t: TimeParts)
    requires TimeWf(f, t)
    requires forall c :: c in f.meridiem ==> IsLower(c)
    requires forall c :: c in f.letterM ==> IsLower(c)
    ensures forall i :: 0 <= i < |TimeText(t)| ==> !IsUpper(TimeText(t)[i])
  {
    var tail := SuffixThen(t.suffix, []);
    assert forall i :: 0 <= i < |tail| ==> !IsUpper(tail[i]) by {
      if t.suffix.Some? {
        var x := t.suffix.value;
        assert tail == x.gap + [x.letter, x.m];
        forall i | 0 <= i < |tail| ensures !IsUpper(tail[i]) {
          if i < |x.gap| {
            assert tail[i] == x.gap[i] && IsSpace(x.gap[i]);
          }
        }
      }
    }
    var time := t.hour + (":" + (t.minute + SecondsThen(t.second, tail)));
    assert TimeText(t) == time;
    assert t.second.None? ==> SecondsThen(t.second, tail) == tail;
    if t.second.Some? {
      var sec := t.second.value;
      var rest := SecondsThen(t.second, tail);
      assert rest == ":" + (sec + tail);
      forall i | 0 <= i < |rest| ensures !IsUpper(rest[i]) {
        if 1 <= i < 1 + |sec| {
          assert rest[i] == sec[i - 1];
        } else if i >= 1 + |sec| {
          assert rest[i] == tail[i - 1 - |sec|];
        }
      }
    }
    var rest := SecondsThen(t.second, tail);
    assert forall i :: 0 <= i < |rest| ==> !IsUpper(rest[i]);
    forall i | 0 <= i < |time| ensures !IsUpper(time[i]) {
      if i < |t.hour| {
        assert time[i] == t.hour[i];
      } else if i == |t.hour| {
      } else if i < |t.hour| + 1 + |t.minute| {
        assert time[i] == t.minute[i - |t.hour| - 1];
      } else {
        assert time[i] == rest[i - |t.hour| - 1 - |t.minute|];
      }
    }
  }

  /** A matched line ends with the last character of its text, or with the
      space of `": "` when the text is empty: never with a line terminator. */
  lemma MatchLineEnd(g: Stamp, line: string)
    requires g.layout == Dashed && MatchLine(g, line).Some?
    ensures line != [] && !IsLineTerminator(line[|line| - 1])
  {
    var p := MatchLineSound(g, line);
    var m := MatchLine(g, line).value;
    StampThenAppend(g, p, m.sender + (": " + m.text));
    BodyEnd(StampThen(g, p, []), m.sender, m.text);
  }

  lemma BodyEnd(head: string, a: string, r: string)
    requires NoLineTerminator(r)
    ensures var s := head + (a + (": " + r)); s != [] && !IsLineTerminator(s[|s| - 1])
  {
    var s := head + (a + (": " + r));
    if r == [] {
      assert s[|s| - 1] == ' ';
    } else {
      assert s[|s| - 1] == r[|r| - 1];
    }
  }

  /** `text.split("\n")` leaves the carriage return of a CRLF export at the
      end of each line, and `.` does not match it: such a line is never a
      message (it falls through to a system entry). */
  lemma CarriageReturnNeverMatches(g: Stamp, line: string)
    requires g.layout == Dashed
    requires line != [] && line[|line| - 1] == '\r'
    ensures MatchLine(g, line).None?
  {
    if MatchLine(g, line).Some? {
      MatchLineEnd(g, line);
    }
  }

  /** The stamp is a prefix: what follows it is appended at the end. */
  lemma StampThenAppend(g: Stamp, p: StampParts, r: string)
    requires g.layout == Dashed && |p.gaps| == 3
    ensures StampThen(g, p, r) == StampThen(g, p, []) + r
  {
    var a := [p.gaps[1]] + ("-" + [p.gaps[2]]);
    GapsAppend(p.gaps[1], p.gaps[2], r);
    TimeThenAppend(p.time, a, r);
    CommaAppend(p.gaps[0], TimeThen(p.time, a), r);
    DateThenAppend(p.date, "," + ([p.gaps[0]] + TimeThen(p.time, a)), r);
  }

  lemma GapsAppend(g1: char, g2: char, r: string)
    ensures [g1] + ("-" + ([g2] + r)) == ([g1] + ("-" + [g2])) + r
    ensures [g1] + ("-" + ([g2] + [])) == [g1] + ("-" + [g2])
  {
  }

  lemma CommaAppend(g0: char, x: string, r: string)
    ensures "," + ([g0] + (x + r)) == ("," + ([g0] + x)) + r
  {
  }

  lemma DateThenAppend(d: DateParts, a: string, r: string)
    ensures DateThen(d, a + r) == DateThen(d, a) + r
  {
  }

  lemma TimeThenAppend(t: TimeParts, a: string, r: string)
    ensures TimeThen(t, a + r) == TimeThen(t, a) + r
  {
    match t.suffix
    case None =>
    case Some(x) =>
      assert SuffixThen(t.suffix, a + r) == SuffixThen(t.suffix, a) + r;
  }

  // ---------------------------------------------------------------------
  // The entry list

  /** `{type: "date", text}`, `{type: "msg", sender, time, text}` and
      `{type: "system", text}`. */
  datatype Entry = DateEntry(text: string) | MsgEntry(sender: string, time: string, text: string) | SystemEntry(text: string)

  /** What one line adds to the list, given what the expression made of it
      and the date of the last message seen, and that date afterwards: a
      matched line adds a date entry when its date differs from the last
      one, then its message; any other line that is not blank adds itself,
      trimmed, as a system entry and leaves the date alone. */
  function LineEntries(m: Option<PageLine>, line: string, currentDate: string): (seq<Entry>, string)
  {
    match m
    case Some(x) =>
      ((if x.date != currentDate then [DateEntry(x.date)] else []) + [MsgEntry(x.sender, x.time, x.text)], x.date)
    case None =>
      (if Trim(line) != [] then [SystemEntry(Trim(line))] else [], currentDate)
  }

  /** What the expression makes of each line. */
  function Matches(g: Stamp, lines: seq<string>): (ms: seq<Option<PageLine>>)
    ensures MatchedAs(g, lines, ms)
  {
    seq(|lines|, i requires 0 <= i < |lines| => MatchLine(g, lines[i]))
  }

  /** The entries of the lines, each with what the expression made of it,
      from the given last date on. */
  function Entries(lines: seq<string>, ms: seq<Option<PageLine>>, currentDate: string): seq<Entry>
    requires |ms| == |lines|
  {
    if lines == [] then []
    else
      var (es, d) := LineEntries(ms[0], lines[0], currentDate);
      es + Entries(lines[1..], ms[1..], d)
  }

  class ChatPage {
    /** The page's `messages` list. */
    var messages: seq<Entry>
    /** The regular expression `parseChat` matches every line against. */
    const pattern: Stamp

    constructor()
      ensures messages == [] && pattern == PageStamp
    {
      messages := [];
      pattern := PageStamp;
    }

    /** `parseChat(text)`: the list is rebuilt from nothing, so it depends on
        the text alone; the rendering that follows is not modelled. */
    method ParseChat(text: string)
      modifies this
      ensures var lines := Split(text, {'\n'});
        messages == Entries(lines, Matches(pattern, lines), [])
    {
      messages := [];
      var lines := Split(text, {'\n'});
      ghost var ms := Matches(pattern, lines);
      var currentDate: string := [];
      for i := 0 to |lines|
        invariant PageProgress(lines, ms, i, messages, currentDate)
      {
        currentDate := ReadLine(lines, i, currentDate, ms);
      }
      assert lines[|lines|..] == [] && ms[|lines|..] == [];
    }

    /** The body of the `forEach` for line `i`: match it, then push its
        entries. */
    method ReadLine(lines: seq<string>, i: nat, currentDate: string, ghost ms: seq<Option<PageLine>>)
      returns (currentDate': string)
      modifies this
      requires i < |lines| && MatchedAs(pattern, lines, ms)
      requires PageProgress(lines, ms, i, messages, currentDate)
      ensures PageProgress(lines, ms, i + 1, messages, currentDate')
    {
      ghost var before := messages;
      var m := MatchLine(pattern, lines[i]);
      currentDate' := Push(m, lines[i], currentDate);
      assert ms[i] == m;
      EntriesStep(lines, ms, i, currentDate);
      AppendAssoc(before, LineEntries(m, lines[i], currentDate).0, Entries(lines[i + 1..], ms[i + 1..], currentDate'));
    }

    /** What the `forEach` body does with a line once it is matched: push a
        date entry when the date changes, then the message; or push the
        trimmed line as a system entry unless it is blank. */
    method Push(m: Option<PageLine>, line: string, currentDate: string) returns (currentDate': string)
      modifies this
      ensures messages == old(messages) + LineEntries(m, line, currentDate).0
      ensures currentDate' == LineEntries(m, line, currentDate).1
    {
      currentDate' := currentDate;
      if m.Some? {
        if m.value.date != currentDate' {
          messages := messages + [DateEntry(m.value.date)];
          currentDate' := m.value.date;
        }
        messages := messages + [MsgEntry(m.value.sender, m.value.time, m.value.text)];
      } else if Trim(line) != [] {
        messages := messages + [SystemEntry(Trim(line))];
      }
    }
  }

  lemma AppendAssoc(a: seq<Entry>, b: seq<Entry>, c: seq<Entry>)
    ensures a + b + c == a + (b + c)
  {
  }

  /** `ms` holds what the expression `g` makes of each line. */
  ghost predicate MatchedAs(g: Stamp, lines: seq<string>, ms: seq<Option<PageLine>>)
  {
    |ms| == |lines| && forall i :: 0 <= i < |lines| ==> ms[i] == MatchLine(g, lines[i])
  }

  /** The loop state of `parseChat` after `i` lines: the entries pushed so
      far followed by those of the remaining lines make up the whole list. */
  ghost predicate PageProgress(lines: seq<string>, ms: seq<Option<PageLine>>, i: nat,
                               messages: seq<Entry>, currentDate: string)
  {
    i <= |lines| && |ms| == |lines|
    && messages + Entries(lines[i..], ms[i..], currentDate) == Entries(lines, ms, [])
  }

  /** The entries of the lines from `i` on are those of line `i` followed by
      those of the rest. */
  lemma EntriesStep(lines: seq<string>, ms: seq<Option<PageLine>>, i: nat, currentDate: string)
    requires |ms| == |lines| && i < |lines|
    ensures Entries(lines[i..], ms[i..], currentDate)
         == LineEntries(ms[i], lines[i], currentDate).0
            + Entries(lines[i + 1..], ms[i + 1..], LineEntries(ms[i], lines[i], currentDate).1)
  {
    assert lines[i..][0] == lines[i] && lines[i..][1..] == lines[i + 1..];
    assert ms[i..][0] == ms[i] && ms[i..][1..] == ms[i + 1..];
  }

  // ---------------------------------------------------------------------
  // What the entry list holds

  predicate IsDate(e: Entry) { e.DateEntry? }
  predicate IsMsg(e: Entry) { e.MsgEntry? }
  predicate IsSystem(e: Entry) { e.SystemEntry? }

  /** The entries `keep` accepts, in order. */
  function Kept(es: seq<Entry>, keep: Entry -> bool): (r: seq<Entry>)
    ensures |r| <= |es|
  {
    if es == [] then [] else (if keep(es[0]) then [es[0]] else []) + Kept(es[1..], keep)
  }

  lemma {:induction false} KeptAppend(a: seq<Entry>, b: seq<Entry>, keep: Entry -> bool)
    ensures Kept(a + b, keep) == Kept(a, keep) + Kept(b, keep)
  {
    if a != [] {
      KeptAppend(a[1..], b, keep);
      assert (a + b)[1..] == a[1..] + b;
    } else {
      assert a + b == b;
    }
  }

  /** One message entry per matched line, in the order of the lines. */
  function MatchedMessages(ms: seq<Option<PageLine>>): seq<Entry>
  {
    if ms == [] then []
    else
      match ms[0]
      case Some(m) => [MsgEntry(m.sender, m.time, m.text)] + MatchedMessages(ms[1..])
      case None => MatchedMessages(ms[1..])
  }

  /** One system entry per unmatched line that is not blank, trimmed. */
  function UnmatchedNotes(lines: seq<string>, ms: seq<Option<PageLine>>): seq<Entry>
    requires |ms| == |lines|
  {
    if lines == [] then []
    else if ms[0].None? && Trim(lines[0]) != [] then
      [SystemEntry(Trim(lines[0]))] + UnmatchedNotes(lines[1..], ms[1..])
    else UnmatchedNotes(lines[1..], ms[1..])
  }

  /** The dates of the matched lines at which the date changes, starting from
      `last`; unmatched lines are passed over. */
  function DateChanges(ms: seq<Option<PageLine>>, last: string): seq<Entry>
  {
    if ms == [] then []
    else
      match ms[0]
      case Some(m) =>
        (if m.date != last then [DateEntry(m.date)] else []) + DateChanges(ms[1..], m.date)
      case None => DateChanges(ms[1..], last)
  }

  /** The list holds one message per matched line, one system entry per
      other non-blank line, and a date entry exactly where the date of the
      matched lines changes: system lines never move the current date. */
  lemma {:induction false} EntriesContents(lines: seq<string>, ms: seq<Option<PageLine>>, last: string)
    requires |ms| == |lines|
    ensures Kept(Entries(lines, ms, last), IsMsg) == MatchedMessages(ms)
    ensures Kept(Entries(lines, ms, last), IsSystem) == UnmatchedNotes(lines, ms)
    ensures Kept(Entries(lines, ms, last), IsDate) == DateChanges(ms, last)
  {
    if lines != [] {
      var (es, d) := LineEntries(ms[0], lines[0], last);
      var rest := Entries(lines[1..], ms[1..], d);
      EntriesContents(lines[1..], ms[1..], d);
      KeptAppend(es, rest, IsMsg);
      KeptAppend(es, rest, IsSystem);
      KeptAppend(es, rest, IsDate);
      match ms[0]
      case Some(m) =>
        var head := if m.date != last then [DateEntry(m.date)] else [];
        KeptAppend(head, [MsgEntry(m.sender, m.time, m.text)], IsMsg);
        KeptAppend(head, [MsgEntry(m.sender, m.time, m.text)], IsSystem);
        KeptAppend(head, [MsgEntry(m.sender, m.time, m.text)], IsDate);
      case None =>
    }
  }

  /** Every date entry is immediately followed by a message entry. */
  ghost predicate DatesFollowed(es: seq<Entry>)
  {
    forall k :: 0 <= k < |es| && es[k].DateEntry? ==> k + 1 < |es| && es[k + 1].MsgEntry?
  }

  /** A date entry in the list always introduces a message. */
  lemma {:induction false} EntriesDatesFollowed(lines: seq<string>, ms: seq<Option<PageLine>>, last: string)
    requires |ms| == |lines|
    ensures DatesFollowed(Entries(lines, ms, last))
  {
    if lines != [] {
      var (es, d) := LineEntries(ms[0], lines[0], last);
      EntriesDatesFollowed(lines[1..], ms[1..], d);
      assert DatesFollowed(es) && (es != [] ==> !es[|es| - 1].DateEntry?);
      DatesFollowedAppend(es, Entries(lines[1..], ms[1..], d));
    }
  }

  lemma DatesFollowedAppend(a: seq<Entry>, b: seq<Entry>)
    requires DatesFollowed(a) && DatesFollowed(b)
    requires a != [] ==> !a[|a| - 1].DateEntry?
    ensures DatesFollowed(a + b)
  {
    forall k | 0 <= k < |a + b| && (a + b)[k].DateEntry?
      ensures k + 1 < |a + b| && (a + b)[k + 1].MsgEntry?
    {
      if k >= |a| {
        assert (a + b)[k] == b[k - |a|];
        assert (a + b)[k + 1] == b[k + 1 - |a|];
      } else {
        assert (a + b)[k] == a[k];
        assert (a + b)[k + 1] == a[k + 1];
      }
    }
  }

  // ---------------------------------------------------------------------
  // Sent and received

  /** `msg.sender.toLowerCase() === you`, where `you` is the typed name,
      trimmed and lower-cased. */
  predicate IsSent(sender: string, yourName: string)
    ensures IsSent(sender, yourName) ==> |sender| == |Trim(yourName)|
  {
    Lower(sender) == Lower(Trim(yourName))
  }

  /** The test ignores the case of both the sender and the typed name. */
  lemma SentIgnoresCase(sender: string, yourName: string)
    ensures IsSent(Upper(sender), yourName) <==> IsSent(sender, yourName)
    ensures IsSent(sender, Upper(yourName)) <==> IsSent(sender, yourName)
  {
    LowerOfUpper(sender);
    TrimUpper(yourName);
    LowerOfUpper(Trim(yourName));
  }

  /** White space around the typed name is ignored; white space around the
      sender is not. */
  lemma SentIgnoresPadding(sender: string, yourName: string)
    ensures IsSent(sender, " " + yourName + " ") <==> IsSent(sender, yourName)
    ensures sender != [] && IsSent(sender, yourName) ==> !IsSent(" " + sender, yourName)
  {
    TrimPadded(yourName);
  }
}
