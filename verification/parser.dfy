/** `ChatParser.parse` and `determineOutgoingSender` (js/modules/parser.js).

    `parse` reads the export line by line. The model states what the record
    list must be through a declarative reference, `Ref`: every matched line
    yields its record, preceded by a date separator when its date token
    differs from the previous matched one, and a message absorbs the
    unmatched lines that follow it. The imperative `Parse` is proved to
    build exactly that list, then to mark the outgoing sender's messages. */
module Parser {
  import opened Wrappers
  import opened Text
  import opened Tallies
  import opened Grammar
  import opened Format

  /** One entry of the returned list: `{type: 'date'}`, `{type: 'system'}`
      or `{type: 'message', ...}`. */
  datatype Record =
    | DateSep(heading: DateLabel)
    | Notice(text: string)
    | Message(date: string, time: string, sender: string, content: string, isOutgoing: bool)

  /** What one line of the export is, once trimmed, cleaned and matched. */
  datatype Kind =
    | Blank
    | MessageKind(date: string, time: string, sender: string, content: string)
    | NoticeKind(date: string, text: string)
    | Loose(line: string)

  predicate Matched(k: Kind)
  {
    k.MessageKind? || k.NoticeKind?
  }

  /** Neither leading nor trailing white space. */
  predicate Trimmed(s: string)
  {
    s == [] || (!IsSpace(s[0]) && !IsSpace(s[|s| - 1]))
  }

  /** The classification of one raw line: trim it, skip it when blank, strip
      the invisible marks, then match it. An unmatched line keeps its trimmed
      text, marks included. */
  function KindOf(gs: seq<Stamp>, ss: seq<Stamp>, raw: string): (k: Kind)
    ensures k.Blank? <==> AllSpace(raw)
    ensures k.Loose? ==> k.line == Trim(raw)
    ensures k.MessageKind? ==> ':' !in k.sender && Trimmed(k.sender) && Trimmed(k.content)
    ensures k.NoticeKind? ==> Trimmed(k.text)
  {
    var line := Trim(raw);
    TrimEmptyIff(raw);
    if line == [] then Blank
    else
      var clean := StripInvisible(line);
      SenderHasNoColon(gs, ss, clean);
      EventKind(Classify(gs, ss, clean), line)
  }

  /** The kind of a non-blank line `line` that the grammars made `e` of. */
  function EventKind(e: Option<Event>, line: string): (k: Kind)
    requires e.Some? && e.value.MessageLine? ==> ':' !in e.value.message.sender
    ensures k.MessageKind? <==> e.Some? && e.value.MessageLine?
    ensures k.NoticeKind? <==> e.Some? && e.value.SystemLine?
    ensures k.Loose? <==> e.None?
    ensures k.Loose? ==> k.line == line
    ensures k.MessageKind? ==> ':' !in k.sender && Trimmed(k.sender) && Trimmed(k.content)
    ensures k.NoticeKind? ==> Trimmed(k.text)
  {
    match e
    case Some(MessageLine(m)) =>
      TrimIsSlice(m.sender);
      TrimIsSlice(m.content);
      MessageKind(DateText(m.stamp.date), FormatTime(TimeText(m.stamp.time)), Trim(m.sender), Trim(m.content))
    case Some(SystemLine(p)) =>
      TrimIsSlice(p.content);
      NoticeKind(DateText(p.stamp.date), Trim(p.content))
    case None => Loose(line)
  }

  /** Which kind a non-blank line gets is decided by the grammars alone: a
      message when a message grammar accepts the cleaned line, a notice when
      only a system grammar does, and a loose line when none does. */
  lemma KindOfMatches(gs: seq<Stamp>, ss: seq<Stamp>, raw: string)
    ensures var e := Classify(gs, ss, StripInvisible(Trim(raw)));
      && (KindOf(gs, ss, raw).MessageKind? <==> !AllSpace(raw) && e.Some? && e.value.MessageLine?)
      && (KindOf(gs, ss, raw).NoticeKind? <==> !AllSpace(raw) && e.Some? && e.value.SystemLine?)
      && (KindOf(gs, ss, raw).Loose? <==> !AllSpace(raw) && e.None?)
  {
    TrimEmptyIff(raw);
  }

  /** `ks` holds the kind of each line of `lines`, in order. */
  ghost predicate Classified(gs: seq<Stamp>, ss: seq<Stamp>, lines: seq<string>, ks: seq<Kind>)
  {
    |ks| == |lines| && forall i :: 0 <= i < |lines| ==> ks[i] == KindOf(gs, ss, lines[i])
  }

  /** Every line of the export, classified. */
  function Kinds(gs: seq<Stamp>, ss: seq<Stamp>, lines: seq<string>): (ks: seq<Kind>)
    ensures Classified(gs, ss, lines, ks)
  {
    seq(|lines|, i requires 0 <= i < |lines| => KindOf(gs, ss, lines[i]))
  }

  // ---------------------------------------------------------------------
  // The reference record list

  /** The number of unmatched (blank or loose) lines at the head of `ks`. */
  function Lead(ks: seq<Kind>): (n: nat)
    ensures n <= |ks|
  {
    if ks == [] || Matched(ks[0]) then 0 else 1 + Lead(ks[1..])
  }

  /** What those unmatched lines add to the message before them: each loose
      line preceded by a line feed; blank lines add nothing. */
  function Continuation(ks: seq<Kind>): string
  {
    if ks == [] || Matched(ks[0]) then []
    else (if ks[0].Loose? then "\n" + ks[0].line else []) + Continuation(ks[1..])
  }

  /** The date separator a matched token calls for after the token `last`. */
  function SepFor(date: string, last: Option<string>): seq<Record>
  {
    if last == Some(date) then [] else [DateSep(FormatDate(date))]
  }

  /** The records of `ks` when `last` is the last matched date token and no
      message is open: unmatched lines at the head are dropped, a notice is
      its record, a message takes the unmatched lines after it. */
  function Ref(ks: seq<Kind>, last: Option<string>): seq<Record>
    decreases |ks|
  {
    if ks == [] then []
    else match ks[0]
      case Blank => Ref(ks[1..], last)
      case Loose(_) => Ref(ks[1..], last)
      case NoticeKind(d, t) => SepFor(d, last) + [Notice(t)] + Ref(ks[1..], Some(d))
      case MessageKind(d, time, s, c) =>
        var rest := ks[1..];
        SepFor(d, last) + [Message(d, time, s, c + Continuation(rest), false)] + Ref(rest[Lead(rest)..], Some(d))
  }

  /** The records still to come from `ks` when `open` is the open message. */
  function Pending(open: Option<Record>, ks: seq<Kind>, last: Option<string>): seq<Record>
    requires open.Some? ==> open.value.Message?
  {
    if open.None? then Ref(ks, last)
    else [open.value.(content := open.value.content + Continuation(ks))] + Ref(ks[Lead(ks)..], last)
  }

  /** The senders of the message lines, in order. */
  function Senders(ks: seq<Kind>): seq<string>
  {
    if ks == [] then [] else (if ks[0].MessageKind? then [ks[0].sender] else []) + Senders(ks[1..])
  }

  /** The date tokens of the matched lines, in order. */
  function Tokens(ks: seq<Kind>): seq<string>
  {
    if ks == [] then [] else (if Matched(ks[0]) then [ks[0].date] else []) + Tokens(ks[1..])
  }

  /** How often a token differs from the one before it, `last` coming first. */
  function Changes(ts: seq<string>, last: Option<string>): nat
  {
    if ts == [] then 0 else (if last == Some(ts[0]) then 0 else 1) + Changes(ts[1..], Some(ts[0]))
  }

  /** `records.filter(m => m.type === 'message')`. */
  function MessagesOf(rs: seq<Record>): (ms: seq<Record>)
    ensures |ms| <= |rs|
    ensures forall i :: 0 <= i < |ms| ==> ms[i].Message?
  {
    if rs == [] then [] else (if rs[0].Message? then [rs[0]] else []) + MessagesOf(rs[1..])
  }

  /** `messages.filter(m => m.type === 'message')`, by sender. */
  function MessageSenders(rs: seq<Record>): seq<string>
  {
    if rs == [] then [] else (if rs[0].Message? then [rs[0].sender] else []) + MessageSenders(rs[1..])
  }

  function SepCount(rs: seq<Record>): nat
  {
    if rs == [] then 0 else (if rs[0].DateSep? then 1 else 0) + SepCount(rs[1..])
  }

  // ---------------------------------------------------------------------
  // Matching, one pattern at a time

  /** What `attempt` makes of each pattern, in order. */
  function Attempts<G, T>(patterns: seq<G>, attempt: G -> Option<T>): (r: seq<Option<T>>)
    ensures |r| == |patterns|
    ensures forall j :: 0 <= j < |patterns| ==> r[j] == attempt(patterns[j])
  {
    seq(|patterns|, j requires 0 <= j < |patterns| => attempt(patterns[j]))
  }

  /** `for (const pattern of patterns) { const match = ...; if (match) { ...; break; } }`:
      the patterns are tried in order and the first match stops the loop. */
  method FirstMatch<G, T>(patterns: seq<G>, attempt: G -> Option<T>) returns (r: Option<T>)
    ensures r == FirstValue(Attempts(patterns, attempt))
  {
    ghost var attempts := Attempts(patterns, attempt);
    for i := 0 to |patterns|
      invariant forall j :: 0 <= j < i ==> attempts[j].None?
    {
      var m := attempt(patterns[i]);
      if m.Some? {
        FirstSomeFrom(attempts, 0, i);
        return m;
      }
    }
    FirstSomeFrom(attempts, 0, |patterns|);
    return None;
  }

  /** Skipping entries that are `None` does not change the first `Some`. */
  lemma {:induction false} FirstSomeFrom<T>(xs: seq<Option<T>>, i: nat, k: nat)
    requires i <= k <= |xs|
    requires forall j :: i <= j < k ==> xs[j].None?
    ensures FirstSome(xs, i) == FirstSome(xs, k)
    decreases k - i
  {
    if i < k {
      FirstSomeFrom(xs, i + 1, k);
    }
  }

  /** The message patterns, tried in order against a cleaned line. */
  method MatchMessage(patterns: seq<Stamp>, line: string) returns (r: Option<MessageParts>)
    ensures r == FirstValue(MessageAttempts(patterns, line))
  {
    var attempt := g => ParseMessage(g, line);
    r := FirstMatch(patterns, attempt);
    assert Attempts(patterns, attempt) == MessageAttempts(patterns, line);
  }

  /** The system patterns, tried in order against a cleaned line. */
  method MatchSystem(patterns: seq<Stamp>, line: string) returns (r: Option<SystemParts>)
    ensures r == FirstValue(SystemAttempts(patterns, line))
  {
    var attempt := g => ParseSystem(g, line);
    r := FirstMatch(patterns, attempt);
    assert Attempts(patterns, attempt) == SystemAttempts(patterns, line);
  }

  // ---------------------------------------------------------------------
  // parse

  /** The parser object: its two pattern lists are fixed at construction. */
  class ChatParser {
    const messagePatterns: seq<Stamp>
    const systemMessagePatterns: seq<Stamp>

    constructor()
      ensures messagePatterns == MessageGrammars && systemMessagePatterns == SystemGrammars
    {
      messagePatterns := MessageGrammars;
      systemMessagePatterns := SystemGrammars;
    }

    /** One iteration's classification of a line. */
    method ReadLine(raw: string) returns (k: Kind)
      ensures k == KindOf(messagePatterns, systemMessagePatterns, raw)
    {
      var line := Trim(raw);
      if line == [] {
        return Blank;
      }
      var clean := StripInvisible(line);
      var m := MatchMessage(messagePatterns, clean);
      if m.Some? {
        var parts := m.value;
        return MessageKind(DateText(parts.stamp.date), FormatTime(TimeText(parts.stamp.time)), Trim(parts.sender), Trim(parts.content));
      }
      var p := MatchSystem(systemMessagePatterns, clean);
      if p.Some? {
        return NoticeKind(DateText(p.value.stamp.date), Trim(p.value.content));
      }
      return Loose(line);
    }

    /** `parse(text)`: the reference records of the lines, each message marked
        outgoing exactly when its sender is the one `determineOutgoingSender`
        picks from the sender counts. */
    method Parse(text: string) returns (records: seq<Record>)
      ensures var ks := Kinds(messagePatterns, systemMessagePatterns, Split(text, {'\n'}));
        var rs := Ref(ks, None);
        var outgoing := OutgoingSender(rs, TallyOf(Senders(ks)));
        && |records| == |rs|
        && forall i :: 0 <= i < |rs| ==> records[i] == Marked(rs[i], outgoing)
    {
      var lines := Split(text, {'\n'});
      ghost var ks := Kinds(messagePatterns, systemMessagePatterns, lines);
      var senderCounts;
      records, senderCounts := ReadLines(lines, ks);
      var outgoing := DetermineOutgoingSender(records, senderCounts);
      records := MarkOutgoing(records, outgoing);
    }

    /** The loop of `parse` over the lines, whose kinds are `ks`: the records
        it pushes (not yet marked) are the reference records, and the counts
        are those of the message senders. */
    method ReadLines(lines: seq<string>, ghost ks: seq<Kind>) returns (records: seq<Record>, senderCounts: Tally)
      requires Classified(messagePatterns, systemMessagePatterns, lines, ks)
      ensures records == Ref(ks, None) && senderCounts == TallyOf(Senders(ks))
    {
      records := [];
      var open: Option<Record> := None;
      var currentDate: Option<string> := None;
      senderCounts := Empty;
      ProgressStart(ks);
      for i := 0 to |lines|
        invariant Progress(ks, i, records, open, currentDate, senderCounts)
      {
        records, open, currentDate, senderCounts := Step(records, open, currentDate, senderCounts, lines, i, ks);
      }
      records := Flush(records, open, currentDate, senderCounts, ks);
    }

    /** One iteration of the loop: read line `i`, then act on its kind. */
    method Step(records: seq<Record>, open: Option<Record>, currentDate: Option<string>, senderCounts: Tally,
                lines: seq<string>, i: nat, ghost ks: seq<Kind>)
      returns (records': seq<Record>, open': Option<Record>, currentDate': Option<string>, senderCounts': Tally)
      requires i < |lines| && Classified(messagePatterns, systemMessagePatterns, lines, ks)
      requires Progress(ks, i, records, open, currentDate, senderCounts)
      ensures Progress(ks, i + 1, records', open', currentDate', senderCounts')
    {
      var kind := ReadLine(lines[i]);
      records', open', currentDate', senderCounts' := Consume(records, open, currentDate, senderCounts, kind, ks, i);
    }

    /** `determineOutgoingSender(messages, senderCounts)`. */
    method DetermineOutgoingSender(rs: seq<Record>, counts: Tally) returns (r: Option<string>)
      ensures r == OutgoingSender(rs, counts)
    {
      var senders := counts.keys;
      if |senders| == 0 {
        return None;
      }
      if |senders| == 1 {
        return Some(senders[0]);
      }
      var messageSenders := MessageSenders(rs);
      if |messageSenders| >= 2 {
        var first := messageSenders[0];
        for i := 1 to |messageSenders|
          invariant forall j :: 1 <= j < i ==> messageSenders[j] == first
        {
          if messageSenders[i] != first {
            DifferingAt(messageSenders, 1, i);
            return Some(messageSenders[i]);
          }
        }
      }
      return Some(Fallback(senders, counts));
    }
  }

  /** Before the loop nothing is pushed and everything is still to come. */
  lemma ProgressStart(ks: seq<Kind>)
    ensures Progress(ks, 0, [], None, None, Empty)
  {
    assert ks[..0] == [] && ks[0..] == ks;
  }

  /** After the loop: the open message, if any, is pushed last, which
      completes the reference records. */
  method Flush(records: seq<Record>, open: Option<Record>, ghost currentDate: Option<string>,
               ghost senderCounts: Tally, ghost ks: seq<Kind>)
    returns (records': seq<Record>)
    requires Progress(ks, |ks|, records, open, currentDate, senderCounts)
    ensures records' == Ref(ks, None) && senderCounts == TallyOf(Senders(ks))
  {
    PendingEnd(open, currentDate);
    assert ks[|ks|..] == [];
    records' := records;
    if open.Some? {
      records' := records' + [open.value];
    }
    assert ks[..|ks|] == ks;
  }

  /** The loop state of `parse` after the first `i` lines of `ks`: the
      records pushed so far followed by what is still to come make up the
      reference list, and the sender counts are those of the message lines
      read so far. */
  ghost predicate Progress(ks: seq<Kind>, i: nat, records: seq<Record>, open: Option<Record>,
                           currentDate: Option<string>, senderCounts: Tally)
  {
    && i <= |ks|
    && (open.Some? ==> open.value.Message?)
    && senderCounts == TallyOf(Senders(ks[..i]))
    && records + Pending(open, ks[i..], currentDate) == Ref(ks, None)
  }

  /** One iteration of the loop of `parse`, for a line already classified:
      a blank line is skipped, a loose line extends the open message, a
      notice or a message flushes the open message and pushes a date
      separator when the date token changes. */
  method Consume(records: seq<Record>, open: Option<Record>, currentDate: Option<string>, senderCounts: Tally,
                 kind: Kind, ghost ks: seq<Kind>, ghost i: nat)
    returns (records': seq<Record>, open': Option<Record>, currentDate': Option<string>, senderCounts': Tally)
    requires i < |ks| && ks[i] == kind
    requires Progress(ks, i, records, open, currentDate, senderCounts)
    ensures Progress(ks, i + 1, records', open', currentDate', senderCounts')
  {
    records', open', currentDate', senderCounts' := records, open, currentDate, senderCounts;
    match kind
    case Blank =>
      BlankProgress(ks, i, records, open, currentDate, senderCounts);
    case Loose(line) =>
      LooseProgress(ks, i, records, open, currentDate, senderCounts);
      if open.Some? {
        open' := Some(open.value.(content := open.value.content + "\n" + line));
      }
    case NoticeKind(d, t) =>
      records', currentDate' := PushNotice(records, open, currentDate, d, t, ks, i, senderCounts);
      open' := None;
    case MessageKind(d, time, s, c) =>
      records', currentDate' := PushMessage(records, open, currentDate, d);
      senderCounts' := Bump(senderCounts, s);
      open' := Some(Message(d, time, s, c, false));
      MessageProgress(ks, i, records, open, currentDate, senderCounts, records');
  }

  /** A system line: flush the open message, push a date separator when the
      date token changes, then push the notice. */
  method PushNotice(records: seq<Record>, open: Option<Record>, currentDate: Option<string>,
                    d: string, t: string, ghost ks: seq<Kind>, ghost i: nat, ghost senderCounts: Tally)
    returns (records': seq<Record>, currentDate': Option<string>)
    requires i < |ks| && ks[i] == NoticeKind(d, t)
    requires Progress(ks, i, records, open, currentDate, senderCounts)
    ensures currentDate' == Some(d)
    ensures Progress(ks, i + 1, records', None, currentDate', senderCounts)
  {
    records' := records;
    if open.Some? {
      records' := records' + [open.value];
    }
    if currentDate != Some(d) {
      records' := records' + [DateSep(FormatDate(d))];
    }
    currentDate' := Some(d);
    records' := records' + [Notice(t)];
    NoticeProgress(ks, i, records, open, currentDate, senderCounts, records');
  }

  /** The first half of a message line: flush the open message and push a
      date separator when the date token changes. */
  method PushMessage(records: seq<Record>, open: Option<Record>, currentDate: Option<string>, d: string)
    returns (records': seq<Record>, currentDate': Option<string>)
    ensures currentDate' == Some(d)
    ensures records' == records + (if open.Some? then [open.value] else []) + SepFor(d, currentDate)
  {
    records' := records;
    if open.Some? {
      records' := records' + [open.value];
    }
    if currentDate != Some(d) {
      records' := records' + [DateSep(FormatDate(d))];
    }
    currentDate' := Some(d);
  }

  /** At the end of the input the open message is all that is pending. */
  lemma PendingEnd(open: Option<Record>, last: Option<string>)
    requires open.Some? ==> open.value.Message?
    ensures Pending(open, [], last) == if open.Some? then [open.value] else []
  {
    if open.Some? {
      assert open.value.content + [] == open.value.content;
    }
  }

  lemma BlankProgress(ks: seq<Kind>, i: nat, records: seq<Record>, open: Option<Record>,
                      currentDate: Option<string>, senderCounts: Tally)
    requires i < |ks| && ks[i].Blank?
    requires Progress(ks, i, records, open, currentDate, senderCounts)
    ensures Progress(ks, i + 1, records, open, currentDate, senderCounts)
  {
    SendersStep(ks, i);
    assert ks[i..][1..] == ks[i + 1..];
    PendingBlank(open, ks[i..], currentDate);
  }

  lemma LooseProgress(ks: seq<Kind>, i: nat, records: seq<Record>, open: Option<Record>,
                      currentDate: Option<string>, senderCounts: Tally)
    requires i < |ks| && ks[i].Loose?
    requires Progress(ks, i, records, open, currentDate, senderCounts)
    ensures open.None? ==> Progress(ks, i + 1, records, open, currentDate, senderCounts)
    ensures open.Some? ==> Progress(ks, i + 1, records, Some(open.value.(content := open.value.content + "\n" + ks[i].line)),
                                    currentDate, senderCounts)
  {
    SendersStep(ks, i);
    assert ks[i..][1..] == ks[i + 1..];
    PendingLoose(open, ks[i..], currentDate);
  }

  lemma NoticeProgress(ks: seq<Kind>, i: nat, records: seq<Record>, open: Option<Record>,
                       currentDate: Option<string>, senderCounts: Tally, records': seq<Record>)
    requires i < |ks| && ks[i].NoticeKind?
    requires Progress(ks, i, records, open, currentDate, senderCounts)
    requires records' == records + (if open.Some? then [open.value] else []) + SepFor(ks[i].date, currentDate) + [Notice(ks[i].text)]
    ensures Progress(ks, i + 1, records', None, Some(ks[i].date), senderCounts)
  {
    var flushed := if open.Some? then [open.value] else [];
    var sep := SepFor(ks[i].date, currentDate);
    var tail := Ref(ks[i + 1..], Some(ks[i].date));
    PendingMatched(open, ks[i..], currentDate);
    RefNotice(ks[i..], currentDate);
    assert ks[i..][1..] == ks[i + 1..];
    assert Ref(ks[i..], currentDate) == sep + [Notice(ks[i].text)] + tail;
    Assoc(records, flushed, sep, [Notice(ks[i].text)], tail);
    SendersStep(ks, i);
  }

  lemma Assoc4(a: seq<Record>, b: seq<Record>, c: seq<Record>, d: seq<Record>)
    ensures a + b + c + d == a + (b + (c + d))
  {
  }

  lemma Assoc(a: seq<Record>, b: seq<Record>, c: seq<Record>, d: seq<Record>, e: seq<Record>)
    ensures a + b + c + d + e == a + (b + (c + d + e))
  {
  }

  lemma MessageProgress(ks: seq<Kind>, i: nat, records: seq<Record>, open: Option<Record>,
                        currentDate: Option<string>, senderCounts: Tally, records': seq<Record>)
    requires i < |ks| && ks[i].MessageKind?
    requires Progress(ks, i, records, open, currentDate, senderCounts)
    requires records' == records + (if open.Some? then [open.value] else []) + SepFor(ks[i].date, currentDate)
    ensures var k := ks[i];
      Progress(ks, i + 1, records', Some(Message(k.date, k.time, k.sender, k.content, false)), Some(k.date),
               Bump(senderCounts, k.sender))
  {
    var k := ks[i];
    var flushed := if open.Some? then [open.value] else [];
    var sep := SepFor(k.date, currentDate);
    var tail := Pending(Some(Message(k.date, k.time, k.sender, k.content, false)), ks[i + 1..], Some(k.date));
    PendingMatched(open, ks[i..], currentDate);
    RefMessage(ks[i..], currentDate);
    assert ks[i..][1..] == ks[i + 1..];
    assert Ref(ks[i..], currentDate) == sep + tail;
    Assoc4(records, flushed, sep, tail);
    SendersStep(ks, i);
  }

  /** The counts after line `i` are those of one more line. */
  lemma SendersStep(ks: seq<Kind>, i: nat)
    requires i < |ks|
    ensures Senders(ks[..i + 1]) == Senders(ks[..i]) + (if ks[i].MessageKind? then [ks[i].sender] else [])
    ensures ks[i].MessageKind? ==> TallyOf(Senders(ks[..i + 1])) == Bump(TallyOf(Senders(ks[..i])), ks[i].sender)
    ensures !ks[i].MessageKind? ==> Senders(ks[..i + 1]) == Senders(ks[..i])
  {
    assert ks[..i + 1] == ks[..i] + [ks[i]];
    SendersAppend(ks[..i], [ks[i]]);
    if ks[i].MessageKind? {
      var xs := Senders(ks[..i]) + [ks[i].sender];
      assert xs[..|xs| - 1] == Senders(ks[..i]);
    }
  }

  lemma {:induction false} SendersAppend(a: seq<Kind>, b: seq<Kind>)
    ensures Senders(a + b) == Senders(a) + Senders(b)
  {
    if a != [] {
      assert (a + b)[1..] == a[1..] + b;
      SendersAppend(a[1..], b);
    } else {
      assert a + b == b;
    }
  }

  /** A blank line neither closes the open message nor adds to it. */
  lemma PendingBlank(open: Option<Record>, ks: seq<Kind>, last: Option<string>)
    requires ks != [] && ks[0].Blank? && (open.Some? ==> open.value.Message?)
    ensures Pending(open, ks, last) == Pending(open, ks[1..], last)
  {
    if open.Some? {
      assert Continuation(ks) == [] + Continuation(ks[1..]) == Continuation(ks[1..]);
      assert Lead(ks) == 1 + Lead(ks[1..]);
      assert ks[Lead(ks)..] == ks[1..][Lead(ks[1..])..];
    }
  }

  /** A loose line is appended to the open message after a line feed, and
      dropped when no message is open. */
  lemma PendingLoose(open: Option<Record>, ks: seq<Kind>, last: Option<string>)
    requires ks != [] && ks[0].Loose? && (open.Some? ==> open.value.Message?)
    ensures open.None? ==> Pending(open, ks, last) == Pending(open, ks[1..], last)
    ensures open.Some? ==> Pending(open, ks, last)
                            == Pending(Some(open.value.(content := open.value.content + "\n" + ks[0].line)), ks[1..], last)
  {
    if open.Some? {
      var c := open.value.content;
      assert Continuation(ks) == "\n" + ks[0].line + Continuation(ks[1..]);
      assert c + Continuation(ks) == c + "\n" + ks[0].line + Continuation(ks[1..]);
      assert ks[Lead(ks)..] == ks[1..][Lead(ks[1..])..];
    }
  }

  /** A matched line first flushes the open message, unchanged. */
  lemma PendingMatched(open: Option<Record>, ks: seq<Kind>, last: Option<string>)
    requires ks != [] && Matched(ks[0]) && (open.Some? ==> open.value.Message?)
    ensures Pending(open, ks, last) == (if open.Some? then [open.value] else []) + Ref(ks, last)
  {
    if open.Some? {
      assert open.value.content + [] == open.value.content;
      assert ks[0..] == ks;
    }
  }

  lemma RefNotice(ks: seq<Kind>, last: Option<string>)
    requires ks != [] && ks[0].NoticeKind?
    ensures Ref(ks, last) == SepFor(ks[0].date, last) + [Notice(ks[0].text)] + Ref(ks[1..], Some(ks[0].date))
  {
  }

  /** A message line opens a message that the following lines extend. */
  lemma RefMessage(ks: seq<Kind>, last: Option<string>)
    requires ks != [] && ks[0].MessageKind?
    ensures var k := ks[0];
      Ref(ks, last) == SepFor(k.date, last) + Pending(Some(Message(k.date, k.time, k.sender, k.content, false)), ks[1..], Some(k.date))
  {
  }

  /** The sender a message grammar captures holds no colon. */
  lemma SenderHasNoColon(gs: seq<Stamp>, ss: seq<Stamp>, line: string)
    ensures var e := Classify(gs, ss, line);
      e.Some? && e.value.MessageLine? ==> ':' !in e.value.message.sender
  {
    var e := Classify(gs, ss, line);
    if e.Some? && e.value.MessageLine? {
      var m := e.value.message;
      var attempts := MessageAttempts(gs, line);
      var j :| 0 <= j < |attempts| && attempts[j] == Some(m);
      ParseMessageSound(gs[j], line);
    }
  }

  /** `msg.isOutgoing = msg.sender === outgoingSender` for a message; other
      records are left alone. */
  function Marked(r: Record, outgoing: Option<string>): Record
  {
    if r.Message? then r.(isOutgoing := outgoing == Some(r.sender)) else r
  }

  /** The `forEach` that fills in `isOutgoing`. */
  method MarkOutgoing(rs: seq<Record>, outgoing: Option<string>) returns (marked: seq<Record>)
    ensures |marked| == |rs|
    ensures forall i :: 0 <= i < |rs| ==> marked[i] == Marked(rs[i], outgoing)
  {
    marked := rs;
    for i := 0 to |rs|
      invariant |marked| == |rs|
      invariant forall j :: 0 <= j < i ==> marked[j] == Marked(rs[j], outgoing)
      invariant forall j :: i <= j < |rs| ==> marked[j] == rs[j]
    {
      if marked[i].Message? {
        marked := marked[i := marked[i].(isOutgoing := outgoing == Some(marked[i].sender))];
      }
    }
  }

  // ---------------------------------------------------------------------
  // determineOutgoingSender

  /** The sender of the first message whose sender differs from the first
      message's sender. */
  function SecondSender(senders: seq<string>): (r: Option<string>)
    ensures r.None? <==> forall i :: 0 <= i < |senders| ==> senders[i] == senders[0]
    ensures r.Some? ==> exists i :: 0 < i < |senders| && senders[i] == r.value && r.value != senders[0]
                                    && forall j :: 0 < j < i ==> senders[j] == senders[0]
  {
    if |senders| < 2 then None else Differing(senders, 1)
  }

  function Differing(senders: seq<string>, i: nat): (r: Option<string>)
    requires 1 <= i <= |senders|
    ensures r.None? <==> forall j :: i <= j < |senders| ==> senders[j] == senders[0]
    ensures r.Some? ==> exists k :: i <= k < |senders| && senders[k] == r.value && r.value != senders[0]
                                    && forall j :: i <= j < k ==> senders[j] == senders[0]
    decreases |senders| - i
  {
    if i == |senders| then None
    else if senders[i] != senders[0] then Some(senders[i])
    else Differing(senders, i + 1)
  }

  /** `senders.reduce((a, b) => counts[a] < counts[b] ? a : b)`: a sender with
      the fewest messages, the last one listed among equals. */
  function Fallback(keys: seq<string>, counts: Tally): (r: string)
    requires |keys| >= 1
    ensures exists i :: 0 <= i < |keys| && keys[i] == r
                        && forall j :: i < j < |keys| ==> Get(counts, keys[j]) > Get(counts, r)
    ensures forall j :: 0 <= j < |keys| ==> Get(counts, r) <= Get(counts, keys[j])
  {
    var i := FallbackAt(keys, counts);
    keys[i]
  }

  /** The position of the sender the reduction keeps. */
  function FallbackAt(keys: seq<string>, counts: Tally): (i: nat)
    requires |keys| >= 1
    ensures i < |keys|
    ensures forall j :: i < j < |keys| ==> Get(counts, keys[j]) > Get(counts, keys[i])
    ensures forall j :: 0 <= j < |keys| ==> Get(counts, keys[i]) <= Get(counts, keys[j])
  {
    if |keys| == 1 then 0
    else
      var init := keys[..|keys| - 1];
      var i := FallbackAt(init, counts);
      assert forall j :: 0 <= j < |init| ==> init[j] == keys[j];
      if Get(counts, keys[i]) < Get(counts, keys[|keys| - 1]) then i else |keys| - 1
  }

  /** The outgoing sender `determineOutgoingSender` picks. */
  function OutgoingSender(rs: seq<Record>, counts: Tally): (r: Option<string>)
    ensures r.None? <==> |counts.keys| == 0
    ensures |counts.keys| == 1 ==> r == Some(counts.keys[0])
    ensures |counts.keys| >= 2 && SecondSender(MessageSenders(rs)).None? ==> r.Some? && r.value in counts.keys
  {
    if |counts.keys| == 0 then None
    else if |counts.keys| == 1 then Some(counts.keys[0])
    else match SecondSender(MessageSenders(rs))
      case Some(s) => Some(s)
      case None => Some(Fallback(counts.keys, counts))
  }

  /** The first differing sender, found by scanning. */
  lemma {:induction false} DifferingAt(senders: seq<string>, i: nat, k: nat)
    requires 1 <= i <= k < |senders|
    requires forall j :: i <= j < k ==> senders[j] == senders[0]
    requires senders[k] != senders[0]
    ensures Differing(senders, i) == Some(senders[k])
    decreases k - i
  {
    if i < k {
      DifferingAt(senders, i + 1, k);
    }
  }

  // ---------------------------------------------------------------------
  // Properties of the record list

  /** Every date separator is immediately followed by a message or a notice. */
  ghost predicate SepsFollowed(rs: seq<Record>)
  {
    forall i :: 0 <= i < |rs| && rs[i].DateSep? ==> i + 1 < |rs| && !rs[i + 1].DateSep?
  }

  /** No two date separators are adjacent and none ends the list: each one
      heads the record of the matched line that called for it. */
  lemma {:induction false} RefSepsFollowed(ks: seq<Kind>, last: Option<string>)
    ensures SepsFollowed(Ref(ks, last))
    decreases |ks|
  {
    if ks != [] {
      match ks[0]
      case Blank => RefSepsFollowed(ks[1..], last);
      case Loose(_) => RefSepsFollowed(ks[1..], last);
      case NoticeKind(d, t) =>
        RefSepsFollowed(ks[1..], Some(d));
        SepThen(SepFor(d, last), Notice(t), Ref(ks[1..], Some(d)));
      case MessageKind(d, time, s, c) =>
        var rest := ks[1..];
        RefSepsFollowed(rest[Lead(rest)..], Some(d));
        SepThen(SepFor(d, last), Message(d, time, s, c + Continuation(rest), false), Ref(rest[Lead(rest)..], Some(d)));
    }
  }

  lemma SepThen(sep: seq<Record>, r: Record, tail: seq<Record>)
    requires |sep| <= 1 && !r.DateSep? && SepsFollowed(tail)
    ensures SepsFollowed(sep + [r] + tail)
  {
    var rs := sep + [r] + tail;
    forall i | 0 <= i < |rs| && rs[i].DateSep?
      ensures i + 1 < |rs| && !rs[i + 1].DateSep?
    {
      if i > |sep| {
        assert rs[i] == tail[i - |sep| - 1];
        if i + 1 < |rs| {
          assert rs[i + 1] == tail[i - |sep|];
        }
      }
    }
  }

  /** The unmatched lines at the head contribute no sender and no date. */
  lemma {:induction false} SkipLead(ks: seq<Kind>)
    ensures Senders(ks[Lead(ks)..]) == Senders(ks)
    ensures Tokens(ks[Lead(ks)..]) == Tokens(ks)
  {
    if ks != [] && !Matched(ks[0]) {
      SkipLead(ks[1..]);
      assert ks[Lead(ks)..] == ks[1..][Lead(ks[1..])..];
    }
  }

  lemma {:induction false} MessageSendersAppend(a: seq<Record>, b: seq<Record>)
    ensures MessageSenders(a + b) == MessageSenders(a) + MessageSenders(b)
  {
    if a != [] {
      assert (a + b)[1..] == a[1..] + b;
      MessageSendersAppend(a[1..], b);
    } else {
      assert a + b == b;
    }
  }

  lemma {:induction false} SepCountAppend(a: seq<Record>, b: seq<Record>)
    ensures SepCount(a + b) == SepCount(a) + SepCount(b)
  {
    if a != [] {
      assert (a + b)[1..] == a[1..] + b;
      SepCountAppend(a[1..], b);
    } else {
      assert a + b == b;
    }
  }

  /** The messages appear in the order of their lines, with the senders the
      lines gave them: the message records' senders are exactly the senders
      that were counted. */
  lemma {:induction false} RefMessageSenders(ks: seq<Kind>, last: Option<string>)
    ensures MessageSenders(Ref(ks, last)) == Senders(ks)
    decreases |ks|
  {
    if ks != [] {
      match ks[0]
      case Blank => RefMessageSenders(ks[1..], last);
      case Loose(_) => RefMessageSenders(ks[1..], last);
      case NoticeKind(d, t) =>
        RefMessageSenders(ks[1..], Some(d));
        var sep := SepFor(d, last);
        MessageSendersAppend(sep + [Notice(t)], Ref(ks[1..], Some(d)));
        MessageSendersAppend(sep, [Notice(t)]);
      case MessageKind(d, time, s, c) =>
        var rest := ks[1..];
        var m := Message(d, time, s, c + Continuation(rest), false);
        RefMessageSenders(rest[Lead(rest)..], Some(d));
        SkipLead(rest);
        var sep := SepFor(d, last);
        MessageSendersAppend(sep + [m], Ref(rest[Lead(rest)..], Some(d)));
        MessageSendersAppend(sep, [m]);
    }
  }

  /** A date separator is pushed exactly when a matched line's date token
      differs from the one before it: there are as many separators as
      changes of token. */
  lemma {:induction false} RefSepCount(ks: seq<Kind>, last: Option<string>)
    ensures SepCount(Ref(ks, last)) == Changes(Tokens(ks), last)
    decreases |ks|
  {
    if ks != [] {
      match ks[0]
      case Blank =>
        RefSepCount(ks[1..], last);
        assert Tokens(ks) == [] + Tokens(ks[1..]) == Tokens(ks[1..]);
      case Loose(_) =>
        RefSepCount(ks[1..], last);
        assert Tokens(ks) == [] + Tokens(ks[1..]) == Tokens(ks[1..]);
      case NoticeKind(d, t) =>
        RefSepCount(ks[1..], Some(d));
        var sep := SepFor(d, last);
        SepCountAppend(sep + [Notice(t)], Ref(ks[1..], Some(d)));
        SepCountAppend(sep, [Notice(t)]);
        ChangesCons(d, Tokens(ks[1..]), last);
      case MessageKind(d, time, s, c) =>
        var rest := ks[1..];
        var m := Message(d, time, s, c + Continuation(rest), false);
        RefSepCount(rest[Lead(rest)..], Some(d));
        SkipLead(rest);
        var sep := SepFor(d, last);
        SepCountAppend(sep + [m], Ref(rest[Lead(rest)..], Some(d)));
        SepCountAppend(sep, [m]);
        ChangesCons(d, Tokens(rest), last);
    }
  }

  lemma ChangesCons(d: string, ts: seq<string>, last: Option<string>)
    ensures Changes([d] + ts, last) == (if last == Some(d) then 0 else 1) + Changes(ts, Some(d))
  {
    assert ([d] + ts)[1..] == ts;
  }

  /** The sender counts add up to the number of message records. */
  lemma CountsMatchMessages(ks: seq<Kind>)
    ensures Total(TallyOf(Senders(ks))) == |MessageSenders(Ref(ks, None))|
  {
    TallyOfTotal(Senders(ks));
    RefMessageSenders(ks, None);
  }

  /** No sender of a parsed message holds a colon. */
  lemma SendersHaveNoColon(gs: seq<Stamp>, ss: seq<Stamp>, lines: seq<string>)
    ensures forall s :: s in MessageSenders(Ref(Kinds(gs, ss, lines), None)) ==> ':' !in s
  {
    var ks := Kinds(gs, ss, lines);
    RefMessageSenders(ks, None);
    SendersOfKinds(ks);
  }

  lemma {:induction false} SendersOfKinds(ks: seq<Kind>)
    requires forall i :: 0 <= i < |ks| && ks[i].MessageKind? ==> ':' !in ks[i].sender
    ensures forall s :: s in Senders(ks) ==> ':' !in s
  {
    if ks != [] {
      SendersOfKinds(ks[1..]);
    }
  }

  // ---------------------------------------------------------------------
  // Properties of the outgoing sender

  /** When the counts are those of the message list (as `parse` builds them),
      there is no outgoing sender without messages, the sole sender is
      outgoing, and with two or more senders the outgoing one is the first
      sender that differs from the first message's: the fewest-messages
      fallback is never reached. */
  lemma OutgoingFromMessages(rs: seq<Record>)
    ensures var senders := MessageSenders(rs);
      var chosen := OutgoingSender(rs, TallyOf(senders));
      && (senders == [] ==> chosen.None?)
      && (senders != [] && SecondSender(senders).None? ==> chosen == Some(senders[0]))
      && (SecondSender(senders).Some? ==> chosen == SecondSender(senders))
  {
    var senders := MessageSenders(rs);
    TallyOfKeys(senders);
    if SecondSender(senders).Some? {
      TwoSenders(senders);
    } else if senders != [] {
      OneSender(senders);
    }
  }

  /** A second sender makes at least two distinct senders. */
  lemma TwoSenders(senders: seq<string>)
    requires SecondSender(senders).Some?
    ensures |ToSet(senders)| >= 2
  {
    var i :| 0 < i < |senders| && senders[i] == SecondSender(senders).value && senders[i] != senders[0];
    assert {senders[0], senders[i]} <= ToSet(senders);
    assert |{senders[0], senders[i]}| == 2;
    SubsetCard({senders[0], senders[i]}, ToSet(senders));
  }

  /** Without a second sender, the only key is the first sender. */
  lemma OneSender(senders: seq<string>)
    requires senders != [] && SecondSender(senders).None?
    ensures TallyOf(senders).keys == [senders[0]]
  {
    var keys := TallyOf(senders).keys;
    TallyOfKeys(senders);
    assert ToSet(senders) == {senders[0]} by {
      forall k | k in ToSet(senders) ensures k == senders[0] {
        var i :| 0 <= i < |senders| && senders[i] == k;
      }
    }
    assert |keys| == 1;
    assert keys[0] in ToSet(keys);
  }

  lemma SubsetCard(a: set<string>, b: set<string>)
    requires a <= b
    ensures |a| <= |b|
  {
    assert b == a + (b - a);
  }

  /** For the counts `parse` builds from its lines: whoever comes out as the
      outgoing sender is a sender of one of the records. */
  lemma OutgoingIsASender(ks: seq<Kind>)
    ensures var rs := Ref(ks, None);
      var chosen := OutgoingSender(rs, TallyOf(Senders(ks)));
      chosen.Some? ==> chosen.value in MessageSenders(rs)
  {
    var rs := Ref(ks, None);
    RefMessageSenders(ks, None);
    OutgoingFromMessages(rs);
  }
}
