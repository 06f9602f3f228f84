/** The line grammars of the chat parser (js/modules/parser.js, lines 9-31).
    Every grammar is a time stamp followed by a body. A stamp is a layout
    (bracketed, dash-separated, or dash-separated without the comma), a date
    form and a time form. Each regular expression is written twice: as a
    scanner that reads a line from left to right (`ParseMessage`,
    `ParseSystem`), and declaratively, as the set of lines `Render` produces
    from well-formed parts (`MessageWf`, `SystemWf`). The soundness and
    completeness lemmas prove that the two agree and that the parse is unique. */
module Grammar {
  import opened Wrappers
  import opened Text

  // ---------------------------------------------------------------------
  // Grammar descriptions

  /** `\d{lo,hi}` */
  datatype Width = Width(lo: nat, hi: nat)

  /** Three digit fields separated by characters from `seps`. */
  datatype DateForm = DateForm(seps: set<char>, first: Width, second: Width, third: Width)

  /** `\d{1,2}:\d{2}`, then `(?::\d{2})?` when `seconds`, then the meridiem
      suffix `\s?[..][..]`, optional unless `suffixRequired`. */
  datatype TimeForm = TimeForm(seconds: bool, suffixRequired: bool, meridiem: set<char>, letterM: set<char>)

  /** `[date,\stime]\s`, `date,\stime\s-\s` and `date\stime\s-\s`. */
  datatype Layout = Bracketed | Dashed | Spaced

  /** What the separators of the layout may be: `\s` or a literal space. */
  datatype Gap = AnySpace | SpaceOnly

  datatype Stamp = Stamp(layout: Layout, date: DateForm, time: TimeForm, gap: Gap)

  predicate GapOk(g: Gap, c: char)
  {
    match g
    case AnySpace => IsSpace(c)
    case SpaceOnly => c == ' '
  }

  /** The forms are such that a field can be told from what follows it:
      separators are not digits, meridiem letters are ASCII letters. */
  ghost predicate FormOk(g: Stamp)
  {
    && (forall c :: c in g.date.seps ==> !IsDigit(c) && !IsSpace(c))
    && (forall c :: c in g.time.meridiem ==> IsUpper(c) || IsLower(c))
    && (forall c :: c in g.time.letterM ==> IsUpper(c) || IsLower(c))
  }

  const Slash := DateForm({'/'}, Width(1, 2), Width(1, 2), Width(2, 4))
  const Dot := DateForm({'.'}, Width(1, 2), Width(1, 2), Width(2, 4))
  const Hyphen := DateForm({'-'}, Width(1, 2), Width(1, 2), Width(2, 4))
  const Iso := DateForm({'-'}, Width(4, 4), Width(1, 2), Width(1, 2))

  /** `\d{1,2}:\d{2}(?::\d{2})?(?:\s?[AP]M)?` */
  const Clock := TimeForm(true, false, {'A', 'P'}, {'M'})
  /** `\d{1,2}:\d{2}\s?[AP]M` under the `i` flag. */
  const Meridiem := TimeForm(false, true, {'A', 'a', 'P', 'p'}, {'M', 'm'})

  /** The seven message grammars, in the order they are tried. */
  /** `D/M/Y, time - ` */
  const SlashDashed := Stamp(Dashed, Slash, Clock, AnySpace)
  /** `M/D/Y, h:mm am - `, case-insensitive */
  const UsDashed := Stamp(Dashed, Slash, Meridiem, AnySpace)

  const MessageGrammars: seq<Stamp> := [
    Stamp(Bracketed, Slash, Clock, AnySpace),   // [D/M/Y, time] Sender: text
    SlashDashed,                                // D/M/Y, time - Sender: text
    Stamp(Dashed, Dot, Clock, AnySpace),        // D.M.Y, time - Sender: text
    UsDashed,                                   // M/D/Y, h:mm am - Sender: text
    Stamp(Dashed, Hyphen, Clock, AnySpace),     // D-M-Y, time - Sender: text
    Stamp(Dashed, Iso, Clock, AnySpace),        // YYYY-M-D, time - Sender: text
    Stamp(Spaced, Slash, Clock, AnySpace)       // D/M/Y time - Sender: text
  ]

  /** The four system-notice grammars, in the order they are tried. */
  const SystemGrammars: seq<Stamp> := [
    Stamp(Bracketed, Slash, Clock, AnySpace),
    Stamp(Dashed, Slash, Clock, AnySpace),
    Stamp(Dashed, Dot, Clock, AnySpace),
    Stamp(Dashed, Hyphen, Clock, AnySpace)
  ]

  // ---------------------------------------------------------------------
  // Parts of a matched line and the text they stand for

  datatype DateParts = DateParts(first: string, sep1: char, second: string, sep2: char, third: string)
  datatype Suffix = Suffix(gap: string, letter: char, m: char)
  datatype TimeParts = TimeParts(hour: string, minute: string, second: Option<string>, suffix: Option<Suffix>)
  /** `gaps` are the characters the layout's `\s` matched, left to right. */
  datatype StampParts = StampParts(date: DateParts, time: TimeParts, gaps: seq<char>)
  datatype MessageParts = MessageParts(stamp: StampParts, sender: string, gap: char, content: string)
  datatype SystemParts = SystemParts(stamp: StampParts, content: string)

  /** A date rendered in front of `r`: `first sep1 second sep2 third r`. */
  function DateThen(d: DateParts, r: string): string
  {
    d.first + ([d.sep1] + (d.second + ([d.sep2] + (d.third + r))))
  }

  function SecondsThen(second: Option<string>, r: string): string
  {
    match second
    case None => r
    case Some(sec) => ":" + (sec + r)
  }

  function SuffixThen(suffix: Option<Suffix>, r: string): string
  {
    match suffix
    case None => r
    case Some(x) => x.gap + ([x.letter, x.m] + r)
  }

  /** A time rendered in front of `r`: `hour:minute[:second][gap letter m] r`. */
  function TimeThen(t: TimeParts, r: string): string
  {
    t.hour + (":" + (t.minute + SecondsThen(t.second, SuffixThen(t.suffix, r))))
  }

  /** A stamp rendered in front of `r`, in the given layout. */
  function StampThen(g: Stamp, p: StampParts, r: string): string
    requires |p.gaps| == GapCount(g.layout)
  {
    match g.layout
    case Bracketed =>
      "[" + DateThen(p.date, "," + ([p.gaps[0]] + TimeThen(p.time, "]" + ([p.gaps[1]] + r))))
    case Dashed =>
      DateThen(p.date, "," + ([p.gaps[0]] + TimeThen(p.time, [p.gaps[1]] + ("-" + ([p.gaps[2]] + r)))))
    case Spaced =>
      DateThen(p.date, [p.gaps[0]] + TimeThen(p.time, [p.gaps[1]] + ("-" + ([p.gaps[2]] + r))))
  }

  /** The first capture group: the date token. */
  function DateText(d: DateParts): string
  {
    DateThen(d, [])
  }

  /** The second capture group: the time token. */
  function TimeText(t: TimeParts): string
  {
    TimeThen(t, [])
  }

  function GapCount(l: Layout): nat
  {
    if l == Bracketed then 2 else 3
  }

  /** The lines of a message grammar: a stamp, then `([^:]+):\s(.*)$`. */
  function RenderMessage(g: Stamp, m: MessageParts): string
    requires |m.stamp.gaps| == GapCount(g.layout)
  {
    StampThen(g, m.stamp, m.sender + ([':', m.gap] + m.content))
  }

  /** The lines of a system grammar: a stamp, then `(.+)$`. */
  function RenderSystem(g: Stamp, p: SystemParts): string
    requires |p.stamp.gaps| == GapCount(g.layout)
  {
    StampThen(g, p.stamp, p.content)
  }

  predicate FieldOk(w: Width, s: string)
  {
    w.lo <= |s| <= w.hi && AllDigits(s)
  }

  predicate DateWf(f: DateForm, d: DateParts)
  {
    FieldOk(f.first, d.first) && d.sep1 in f.seps && FieldOk(f.second, d.second)
    && d.sep2 in f.seps && FieldOk(f.third, d.third)
  }

  predicate SuffixWf(f: TimeForm, x: Suffix)
  {
    |x.gap| <= 1 && AllSpace(x.gap) && x.letter in f.meridiem && x.m in f.letterM
  }

  predicate TimeWf(f: TimeForm, t: TimeParts)
  {
    && FieldOk(Width(1, 2), t.hour)
    && FieldOk(Width(2, 2), t.minute)
    && (t.second.Some? ==> f.seconds && FieldOk(Width(2, 2), t.second.value))
    && (f.suffixRequired ==> t.suffix.Some?)
    && (t.suffix.Some? ==> SuffixWf(f, t.suffix.value))
  }

  predicate StampWf(g: Stamp, p: StampParts)
  {
    && DateWf(g.date, p.date)
    && TimeWf(g.time, p.time)
    && |p.gaps| == GapCount(g.layout)
    && GapOk(g.gap, p.gaps[0]) && GapOk(g.gap, p.gaps[1])
    && (|p.gaps| == 3 ==> GapOk(g.gap, p.gaps[2]))
  }

  /** The sender is `[^:]+`, the gap `\s`, the content `.*`. */
  predicate MessageWf(g: Stamp, m: MessageParts)
  {
    && StampWf(g, m.stamp)
    && m.sender != [] && ':' !in m.sender
    && IsSpace(m.gap)
    && NoLineTerminator(m.content)
  }

  /** The content is `.+`. */
  predicate SystemWf(g: Stamp, p: SystemParts)
  {
    StampWf(g, p.stamp) && p.content != [] && NoLineTerminator(p.content)
  }

  // ---------------------------------------------------------------------
  // Scanners

  /** The length of the run of digits at the start of `s`. */
  function DigitRun(s: string): (k: nat)
    ensures k <= |s|
  {
    if s != [] && IsDigit(s[0]) then 1 + DigitRun(s[1..]) else 0
  }

  /** The run is the longest all-digit prefix. */
  lemma {:induction false} DigitRunMaximal(s: string)
    ensures AllDigits(s[..DigitRun(s)])
    ensures DigitRun(s) < |s| ==> !IsDigit(s[DigitRun(s)])
  {
    if s != [] && IsDigit(s[0]) {
      DigitRunMaximal(s[1..]);
      assert s[..DigitRun(s)] == [s[0]] + s[1..][..DigitRun(s[1..])];
    }
  }

  function ScanField(w: Width, s: string): Option<(string, string)>
  {
    var k := DigitRun(s);
    if w.lo <= k <= w.hi then Some((s[..k], s[k..])) else None
  }

  function ScanDate(f: DateForm, s: string): Option<(DateParts, string)>
  {
    match ScanField(f.first, s)
    case None => None
    case Some((a, r1)) =>
      if r1 == [] || r1[0] !in f.seps then None
      else ScanDateRest(f, a, r1[0], r1[1..])
  }

  function ScanDateRest(f: DateForm, a: string, sep1: char, s: string): Option<(DateParts, string)>
  {
    match ScanField(f.second, s)
    case None => None
    case Some((b, r2)) =>
      if r2 == [] || r2[0] !in f.seps then None
      else
        match ScanField(f.third, r2[1..])
        case None => None
        case Some((c, r3)) => Some((DateParts(a, sep1, b, r2[0], c), r3))
  }

  /** `(?::\d{2})?`, taken when it can be. */
  function ScanSeconds(f: TimeForm, s: string): (Option<string>, string)
  {
    if f.seconds && |s| >= 3 && s[0] == ':' && IsDigit(s[1]) && IsDigit(s[2]) then (Some(s[1..3]), s[3..])
    else (None, s)
  }

  /** `\s?` followed by the two meridiem letters, the space taken when it
      can be (the regular expression's `?` is greedy). */
  function ScanSuffix(f: TimeForm, s: string): (Option<Suffix>, string)
  {
    if |s| >= 2 && s[0] in f.meridiem && s[1] in f.letterM then (Some(Suffix([], s[0], s[1])), s[2..])
    else if |s| >= 3 && IsSpace(s[0]) && s[1] in f.meridiem && s[2] in f.letterM then (Some(Suffix([s[0]], s[1], s[2])), s[3..])
    else (None, s)
  }

  function ScanTime(f: TimeForm, s: string): Option<(TimeParts, string)>
  {
    match ScanField(Width(1, 2), s)
    case None => None
    case Some((h, r1)) =>
      if |r1| < 3 || r1[0] != ':' || !IsDigit(r1[1]) || !IsDigit(r1[2]) then None
      else ScanTimeTail(f, h, r1[1..3], r1[3..])
  }

  function ScanTimeTail(f: TimeForm, h: string, mm: string, s: string): Option<(TimeParts, string)>
  {
    var (sec, r3) := ScanSeconds(f, s);
    var (suf, r4) := ScanSuffix(f, r3);
    if f.suffixRequired && suf.None? then None
    else Some((TimeParts(h, mm, sec, suf), r4))
  }

  function ScanStamp(g: Stamp, s: string): Option<(StampParts, string)>
  {
    match g.layout
    case Bracketed =>
      if s == [] || s[0] != '[' then None
      else
        (match ScanDate(g.date, s[1..])
         case None => None
         case Some((d, r1)) =>
           if |r1| < 2 || r1[0] != ',' || !GapOk(g.gap, r1[1]) then None
           else ScanBracketTail(g, d, r1[1], r1[2..]))
    case Dashed =>
      (match ScanDate(g.date, s)
       case None => None
       case Some((d, r1)) =>
         if |r1| < 2 || r1[0] != ',' || !GapOk(g.gap, r1[1]) then None
         else ScanDashTail(g, d, r1[1], r1[2..]))
    case Spaced =>
      (match ScanDate(g.date, s)
       case None => None
       case Some((d, r1)) =>
         if |r1| < 1 || !GapOk(g.gap, r1[0]) then None
         else ScanDashTail(g, d, r1[0], r1[1..]))
  }

  /** The time and the `]\s` after it. */
  function ScanBracketTail(g: Stamp, d: DateParts, gap0: char, s: string): Option<(StampParts, string)>
  {
    match ScanTime(g.time, s)
    case None => None
    case Some((t, r2)) =>
      if |r2| < 2 || r2[0] != ']' || !GapOk(g.gap, r2[1]) then None
      else Some((StampParts(d, t, [gap0, r2[1]]), r2[2..]))
  }

  /** The time and the `\s-\s` after it. */
  function ScanDashTail(g: Stamp, d: DateParts, gap0: char, s: string): Option<(StampParts, string)>
  {
    match ScanTime(g.time, s)
    case None => None
    case Some((t, r2)) =>
      if |r2| < 3 || !GapOk(g.gap, r2[0]) || r2[1] != '-' || !GapOk(g.gap, r2[2]) then None
      else Some((StampParts(d, t, [gap0, r2[0], r2[2]]), r2[3..]))
  }

  /** `([^:]+):\s(.*)$`: the sender runs to the first colon. */
  function ScanSenderBody(s: string): Option<(string, char, string)>
  {
    var k := IndexOf(s, ':');
    if k == 0 || k + 1 >= |s| || !IsSpace(s[k + 1]) || !NoLineTerminator(s[k + 2..]) then None
    else Some((s[..k], s[k + 1], s[k + 2..]))
  }

  /** Matches one message grammar against a line. */
  function ParseMessage(g: Stamp, line: string): Option<MessageParts>
  {
    match ScanStamp(g, line)
    case None => None
    case Some((p, rest)) =>
      match ScanSenderBody(rest)
      case None => None
      case Some((sender, gap, content)) => Some(MessageParts(p, sender, gap, content))
  }

  /** Matches one system-notice grammar against a line. */
  function ParseSystem(g: Stamp, line: string): Option<SystemParts>
  {
    match ScanStamp(g, line)
    case None => None
    case Some((p, rest)) =>
      if rest != [] && NoLineTerminator(rest) then Some(SystemParts(p, rest)) else None
  }

  // ---------------------------------------------------------------------
  // Soundness: whatever a scanner accepts is a well-formed rendering

  lemma ScanFieldSound(w: Width, s: string)
    requires ScanField(w, s).Some?
    ensures FieldOk(w, ScanField(w, s).value.0)
    ensures s == ScanField(w, s).value.0 + ScanField(w, s).value.1
  {
    DigitRunMaximal(s);
  }

  lemma ScanDateSound(f: DateForm, s: string)
    requires ScanDate(f, s).Some?
    ensures DateWf(f, ScanDate(f, s).value.0)
    ensures s == DateThen(ScanDate(f, s).value.0, ScanDate(f, s).value.1)
  {
    var (a, r1) := ScanField(f.first, s).value;
    ScanFieldSound(f.first, s);
    var (b, r2) := ScanField(f.second, r1[1..]).value;
    ScanFieldSound(f.second, r1[1..]);
    var (c, r3) := ScanField(f.third, r2[1..]).value;
    ScanFieldSound(f.third, r2[1..]);
    Unskip1(r2);
    Unskip1(r1);
  }

  lemma ScanTimeTailSound(f: TimeForm, h: string, mm: string, s: string)
    requires ScanTimeTail(f, h, mm, s).Some?
    ensures var (t, r) := ScanTimeTail(f, h, mm, s).value;
      && t.hour == h && t.minute == mm
      && (t.second.Some? ==> f.seconds && FieldOk(Width(2, 2), t.second.value))
      && (f.suffixRequired ==> t.suffix.Some?)
      && (t.suffix.Some? ==> SuffixWf(f, t.suffix.value))
      && s == SecondsThen(t.second, SuffixThen(t.suffix, r))
  {
    var (sec, r3) := ScanSeconds(f, s);
    var (suf, r4) := ScanSuffix(f, r3);
    if sec.Some? {
      UnskipField(s);
    }
    if suf.Some? && suf.value.gap == [] {
      UnskipPair(r3);
    } else if suf.Some? {
      UnskipGapPair(r3);
    }
  }

  lemma ScanTimeSound(f: TimeForm, s: string)
    requires ScanTime(f, s).Some?
    ensures TimeWf(f, ScanTime(f, s).value.0)
    ensures s == TimeThen(ScanTime(f, s).value.0, ScanTime(f, s).value.1)
  {
    var (h, r1) := ScanField(Width(1, 2), s).value;
    ScanFieldSound(Width(1, 2), s);
    UnskipField(r1);
    ScanTimeTailSound(f, h, r1[1..3], r1[3..]);
  }

  lemma ScanBracketTailSound(g: Stamp, d: DateParts, gap0: char, s: string)
    requires ScanBracketTail(g, d, gap0, s).Some?
    ensures var (p, r) := ScanBracketTail(g, d, gap0, s).value;
      && p.date == d && TimeWf(g.time, p.time) && |p.gaps| == 2 && p.gaps[0] == gap0 && GapOk(g.gap, p.gaps[1])
      && s == TimeThen(p.time, "]" + ([p.gaps[1]] + r))
  {
    ScanTimeSound(g.time, s);
    var (t, r2) := ScanTime(g.time, s).value;
    Unskip2(r2);
  }

  lemma ScanDashTailSound(g: Stamp, d: DateParts, gap0: char, s: string)
    requires ScanDashTail(g, d, gap0, s).Some?
    ensures var (p, r) := ScanDashTail(g, d, gap0, s).value;
      && p.date == d && TimeWf(g.time, p.time) && |p.gaps| == 3 && p.gaps[0] == gap0
      && GapOk(g.gap, p.gaps[1]) && GapOk(g.gap, p.gaps[2])
      && s == TimeThen(p.time, [p.gaps[1]] + ("-" + ([p.gaps[2]] + r)))
  {
    ScanTimeSound(g.time, s);
    var (t, r2) := ScanTime(g.time, s).value;
    Unskip3(r2);
  }

  lemma ScanStampSound(g: Stamp, s: string)
    requires ScanStamp(g, s).Some?
    ensures StampWf(g, ScanStamp(g, s).value.0)
    ensures s == StampThen(g, ScanStamp(g, s).value.0, ScanStamp(g, s).value.1)
  {
    match g.layout
    case Bracketed =>
      ScanDateSound(g.date, s[1..]);
      var (d, r1) := ScanDate(g.date, s[1..]).value;
      ScanBracketTailSound(g, d, r1[1], r1[2..]);
      Unskip2(r1);
      Unskip1(s);
    case Dashed =>
      ScanDateSound(g.date, s);
      var (d, r1) := ScanDate(g.date, s).value;
      ScanDashTailSound(g, d, r1[1], r1[2..]);
      Unskip2(r1);
    case Spaced =>
      ScanDateSound(g.date, s);
      var (d, r1) := ScanDate(g.date, s).value;
      ScanDashTailSound(g, d, r1[0], r1[1..]);
      Unskip1(r1);
  }

  /** A message grammar accepts only well-formed renderings: in particular
      the sender is non-empty and holds no colon. */
  lemma ParseMessageSound(g: Stamp, line: string)
    requires ParseMessage(g, line).Some?
    ensures MessageWf(g, ParseMessage(g, line).value)
    ensures line == RenderMessage(g, ParseMessage(g, line).value)
  {
    ScanStampSound(g, line);
    var (p, rest) := ScanStamp(g, line).value;
    var k := IndexOf(rest, ':');
    UnskipAt(rest, k);
  }

  /** A system grammar accepts only well-formed renderings. */
  lemma ParseSystemSound(g: Stamp, line: string)
    requires ParseSystem(g, line).Some?
    ensures SystemWf(g, ParseSystem(g, line).value)
    ensures line == RenderSystem(g, ParseSystem(g, line).value)
  {
    ScanStampSound(g, line);
  }

  // ---------------------------------------------------------------------
  // Completeness: every well-formed rendering is accepted, with its parts

  lemma {:induction false} DigitRunOf(a: string, r: string)
    requires AllDigits(a) && (r == [] || !IsDigit(r[0]))
    ensures DigitRun(a + r) == |a|
  {
    if a != [] {
      assert (a + r)[1..] == a[1..] + r;
      DigitRunOf(a[1..], r);
    }
  }

  lemma ScanFieldComplete(w: Width, a: string, r: string)
    requires FieldOk(w, a) && (r == [] || !IsDigit(r[0]))
    ensures ScanField(w, a + r) == Some((a, r))
  {
    DigitRunOf(a, r);
    assert (a + r)[..|a|] == a && (a + r)[|a|..] == r;
  }

  lemma ScanDateComplete(f: DateForm, d: DateParts, r: string)
    requires forall c :: c in f.seps ==> !IsDigit(c)
    requires DateWf(f, d) && (r == [] || !IsDigit(r[0]))
    ensures ScanDate(f, DateThen(d, r)) == Some((d, r))
  {
    var r1 := [d.sep1] + (d.second + ([d.sep2] + (d.third + r)));
    ScanFieldComplete(f.first, d.first, r1);
    Skip1(d.sep1, d.second + ([d.sep2] + (d.third + r)));
    ScanDateRestComplete(f, d, r);
  }

  lemma ScanDateRestComplete(f: DateForm, d: DateParts, r: string)
    requires forall c :: c in f.seps ==> !IsDigit(c)
    requires DateWf(f, d) && (r == [] || !IsDigit(r[0]))
    ensures ScanDateRest(f, d.first, d.sep1, d.second + ([d.sep2] + (d.third + r))) == Some((d, r))
  {
    var r2 := [d.sep2] + (d.third + r);
    ScanFieldComplete(f.second, d.second, r2);
    Skip1(d.sep2, d.third + r);
    ScanFieldComplete(f.third, d.third, r);
  }

  lemma GapsOf(gaps: seq<char>)
    requires 2 <= |gaps| <= 3
    ensures |gaps| == 2 ==> gaps == [gaps[0], gaps[1]]
    ensures |gaps| == 3 ==> gaps == [gaps[0], gaps[1], gaps[2]]
  {
  }

  lemma Skip1(a: char, x: string)
    ensures |[a] + x| == |x| + 1 && ([a] + x)[0] == a && ([a] + x)[1..] == x
  {
  }

  lemma Skip2(a: char, b: char, x: string)
    ensures |[a] + ([b] + x)| == |x| + 2
    ensures ([a] + ([b] + x))[0] == a && ([a] + ([b] + x))[1] == b && ([a] + ([b] + x))[2..] == x
  {
  }

  lemma Skip3(a: char, b: char, c: char, x: string)
    ensures |[a] + ([b] + ([c] + x))| == |x| + 3
    ensures ([a] + ([b] + ([c] + x)))[0] == a && ([a] + ([b] + ([c] + x)))[1] == b
    ensures ([a] + ([b] + ([c] + x)))[2] == c && ([a] + ([b] + ([c] + x)))[3..] == x
  {
  }

  lemma SkipField(a: char, f: string, x: string)
    requires |f| == 2
    ensures |[a] + (f + x)| == |x| + 3 && ([a] + (f + x))[0] == a
    ensures ([a] + (f + x))[1] == f[0] && ([a] + (f + x))[2] == f[1]
    ensures ([a] + (f + x))[1..3] == f && ([a] + (f + x))[3..] == x
  {
  }

  lemma SkipPair(a: char, b: char, x: string)
    ensures [] + ([a, b] + x) == [a, b] + x
    ensures |[a, b] + x| == |x| + 2 && ([a, b] + x)[0] == a && ([a, b] + x)[1] == b && ([a, b] + x)[2..] == x
  {
  }

  lemma SkipGapPair(g: string, a: char, b: char, x: string)
    requires |g| == 1
    ensures |g + ([a, b] + x)| == |x| + 3 && (g + ([a, b] + x))[0] == g[0]
    ensures (g + ([a, b] + x))[1] == a && (g + ([a, b] + x))[2] == b && (g + ([a, b] + x))[3..] == x
    ensures g == [g[0]]
  {
  }

  lemma Unskip1(s: string)
    requires |s| >= 1
    ensures s == [s[0]] + s[1..]
  {
  }

  lemma Unskip2(s: string)
    requires |s| >= 2
    ensures s == [s[0]] + ([s[1]] + s[2..])
  {
  }

  lemma Unskip3(s: string)
    requires |s| >= 3
    ensures s == [s[0]] + ([s[1]] + ([s[2]] + s[3..]))
  {
  }

  lemma UnskipField(s: string)
    requires |s| >= 3
    ensures s == [s[0]] + (s[1..3] + s[3..])
  {
  }

  lemma UnskipPair(s: string)
    requires |s| >= 2
    ensures s == [] + ([s[0], s[1]] + s[2..])
  {
  }

  lemma UnskipGapPair(s: string)
    requires |s| >= 3
    ensures s == [s[0]] + ([s[1], s[2]] + s[3..])
  {
  }

  lemma UnskipAt(s: string, k: nat)
    requires k + 2 <= |s|
    ensures s == s[..k] + ([s[k], s[k + 1]] + s[k + 2..])
  {
  }

  /** What may follow a time in a stamp: `]` or `\s-`. */
  predicate FollowsTime(r: string)
  {
    |r| >= 2 && (r[0] == ']' || r[1] == '-')
  }

  lemma ScanSuffixComplete(g: Stamp, x: Option<Suffix>, r: string)
    requires FormOk(g) && FollowsTime(r)
    requires x.Some? ==> SuffixWf(g.time, x.value)
    ensures ScanSuffix(g.time, SuffixThen(x, r)) == (x, r)
  {
    if x.Some? {
      if x.value.gap == [] {
        SkipPair(x.value.letter, x.value.m, r);
      } else {
        SkipGapPair(x.value.gap, x.value.letter, x.value.m, r);
        assert !(x.value.gap[0] in g.time.meridiem);
      }
    }
  }

  lemma ScanSecondsComplete(g: Stamp, t: TimeParts, r: string)
    requires FormOk(g) && TimeWf(g.time, t) && FollowsTime(r)
    ensures ScanSeconds(g.time, SecondsThen(t.second, SuffixThen(t.suffix, r))) == (t.second, SuffixThen(t.suffix, r))
  {
    var r3 := SuffixThen(t.suffix, r);
    if t.second.Some? {
      SkipField(':', t.second.value, r3);
    } else if t.suffix.Some? && t.suffix.value.gap == [] {
      SkipPair(t.suffix.value.letter, t.suffix.value.m, r);
    } else if t.suffix.Some? {
      SkipGapPair(t.suffix.value.gap, t.suffix.value.letter, t.suffix.value.m, r);
    }
  }

  lemma ScanTimeComplete(g: Stamp, t: TimeParts, r: string)
    requires FormOk(g) && TimeWf(g.time, t) && FollowsTime(r)
    ensures ScanTime(g.time, TimeThen(t, r)) == Some((t, r))
  {
    var r2 := SecondsThen(t.second, SuffixThen(t.suffix, r));
    var r1 := ":" + (t.minute + r2);
    ScanFieldComplete(Width(1, 2), t.hour, r1);
    SkipField(':', t.minute, r2);
    ScanSecondsComplete(g, t, r);
    ScanSuffixComplete(g, t.suffix, r);
  }

  lemma ScanBracketTailComplete(g: Stamp, p: StampParts, r: string)
    requires FormOk(g) && StampWf(g, p) && g.layout == Bracketed
    ensures ScanBracketTail(g, p.date, p.gaps[0], TimeThen(p.time, "]" + ([p.gaps[1]] + r))) == Some((p, r))
  {
    var r2 := "]" + ([p.gaps[1]] + r);
    ScanTimeComplete(g, p.time, r2);
    Skip2(']', p.gaps[1], r);
    GapsOf(p.gaps);
  }

  lemma ScanDashTailComplete(g: Stamp, p: StampParts, r: string)
    requires FormOk(g) && StampWf(g, p) && g.layout != Bracketed
    ensures ScanDashTail(g, p.date, p.gaps[0], TimeThen(p.time, [p.gaps[1]] + ("-" + ([p.gaps[2]] + r)))) == Some((p, r))
  {
    var r2 := [p.gaps[1]] + ("-" + ([p.gaps[2]] + r));
    ScanTimeComplete(g, p.time, r2);
    Skip3(p.gaps[1], '-', p.gaps[2], r);
    GapsOf(p.gaps);
  }

  lemma ScanStampComplete(g: Stamp, p: StampParts, r: string)
    requires FormOk(g) && StampWf(g, p)
    ensures ScanStamp(g, StampThen(g, p, r)) == Some((p, r))
  {
    match g.layout
    case Bracketed =>
      var r1 := "," + ([p.gaps[0]] + TimeThen(p.time, "]" + ([p.gaps[1]] + r)));
      ScanDateComplete(g.date, p.date, r1);
      Skip2(',', p.gaps[0], TimeThen(p.time, "]" + ([p.gaps[1]] + r)));
      ScanBracketTailComplete(g, p, r);
    case Dashed =>
      var r1 := "," + ([p.gaps[0]] + TimeThen(p.time, [p.gaps[1]] + ("-" + ([p.gaps[2]] + r))));
      ScanDateComplete(g.date, p.date, r1);
      Skip2(',', p.gaps[0], TimeThen(p.time, [p.gaps[1]] + ("-" + ([p.gaps[2]] + r))));
      ScanDashTailComplete(g, p, r);
    case Spaced =>
      var r1 := [p.gaps[0]] + TimeThen(p.time, [p.gaps[1]] + ("-" + ([p.gaps[2]] + r)));
      assert !IsDigit(p.gaps[0]);
      ScanDateComplete(g.date, p.date, r1);
      Skip1(p.gaps[0], TimeThen(p.time, [p.gaps[1]] + ("-" + ([p.gaps[2]] + r))));
      ScanDashTailComplete(g, p, r);
  }

  /** Every well-formed rendering of a message grammar is accepted by it, and
      the scanner returns exactly the parts it was rendered from: together
      with `ParseMessageSound`, the parse is unique. */
  lemma ParseMessageComplete(g: Stamp, m: MessageParts)
    requires FormOk(g) && MessageWf(g, m)
    ensures ParseMessage(g, RenderMessage(g, m)) == Some(m)
  {
    var rest := m.sender + ([':', m.gap] + m.content);
    ScanStampComplete(g, m.stamp, rest);
    IndexOfFirst(m.sender, ':', m.gap, m.content);
  }

  /** Every well-formed rendering of a system grammar is accepted by it. */
  lemma ParseSystemComplete(g: Stamp, p: SystemParts)
    requires FormOk(g) && SystemWf(g, p)
    ensures ParseSystem(g, RenderSystem(g, p)) == Some(p)
  {
    ScanStampComplete(g, p.stamp, p.content);
  }

  lemma {:induction false} IndexOfFirst(a: string, c: char, d: char, r: string)
    requires c !in a
    ensures IndexOf(a + ([c, d] + r), c) == |a|
    ensures (a + ([c, d] + r))[..|a|] == a
    ensures (a + ([c, d] + r))[|a| + 1] == d && (a + ([c, d] + r))[|a| + 2..] == r
  {
    if a != [] {
      assert (a + ([c, d] + r))[1..] == a[1..] + ([c, d] + r);
      IndexOfFirst(a[1..], c, d, r);
    }
  }

  // ---------------------------------------------------------------------
  // First match

  /** The position and value of the first `Some` in `xs`, from index `i` on:
      the grammars are tried in order and the first match stops the search. */
  function FirstSome<T>(xs: seq<Option<T>>, i: nat): (r: Option<(nat, T)>)
    requires i <= |xs|
    ensures r.Some? ==> i <= r.value.0 < |xs| && xs[r.value.0] == Some(r.value.1)
    ensures forall j :: i <= j < |xs| && (r.None? || j < r.value.0) ==> xs[j].None?
    decreases |xs| - i
  {
    if i == |xs| then None
    else if xs[i].Some? then Some((i, xs[i].value))
    else FirstSome(xs, i + 1)
  }

  /** What each message grammar, in order, makes of `line`. */
  function MessageAttempts(gs: seq<Stamp>, line: string): (r: seq<Option<MessageParts>>)
    ensures |r| == |gs|
    ensures forall j :: 0 <= j < |gs| ==> r[j] == ParseMessage(gs[j], line)
  {
    seq(|gs|, j requires 0 <= j < |gs| => ParseMessage(gs[j], line))
  }

  /** What each system grammar, in order, makes of `line`. */
  function SystemAttempts(gs: seq<Stamp>, line: string): (r: seq<Option<SystemParts>>)
    ensures |r| == |gs|
    ensures forall j :: 0 <= j < |gs| ==> r[j] == ParseSystem(gs[j], line)
  {
    seq(|gs|, j requires 0 <= j < |gs| => ParseSystem(gs[j], line))
  }

  /** What a cleaned line is: a message, a system notice, or neither. */
  datatype Event = MessageLine(message: MessageParts) | SystemLine(notice: SystemParts)

  /** The value of the first `Some` in `xs`. */
  function FirstValue<T>(xs: seq<Option<T>>): (r: Option<T>)
    ensures r.Some? <==> exists j :: 0 <= j < |xs| && xs[j].Some?
    ensures r.Some? ==> r in xs
    ensures r.Some? ==> exists j :: 0 <= j < |xs| && xs[j] == r && forall k :: 0 <= k < j ==> xs[k].None?
  {
    match FirstSome(xs, 0)
    case None => None
    case Some((_, v)) => Some(v)
  }

  /** The message grammars `gs` first, then the system grammars `ss`; the
      first match wins. */
  function Classify(gs: seq<Stamp>, ss: seq<Stamp>, line: string): (r: Option<Event>)
    ensures r.Some? && r.value.MessageLine? <==> exists k :: 0 <= k < |gs| && MessageAttempts(gs, line)[k].Some?
    ensures r.Some? && r.value.MessageLine? ==> Some(r.value.message) in MessageAttempts(gs, line)
    ensures r.Some? && r.value.SystemLine? ==> Some(r.value.notice) in SystemAttempts(ss, line)
    ensures r.None? <==> (forall k :: 0 <= k < |gs| ==> MessageAttempts(gs, line)[k].None?)
                         && (forall k :: 0 <= k < |ss| ==> SystemAttempts(ss, line)[k].None?)
  {
    match FirstValue(MessageAttempts(gs, line))
    case Some(m) => Some(MessageLine(m))
    case None =>
      match FirstValue(SystemAttempts(ss, line))
      case Some(p) => Some(SystemLine(p))
      case None => None
  }

  /** A line the case-insensitive US grammar (the fourth) is the first to
      accept has a lower-case `a`, `p` or `m` in its suffix: with an
      upper-case `AM`/`PM` the second grammar accepts the same line and is
      tried first. */
  lemma MeridiemGrammarOnlyLowerCase(line: string)
    requires FirstSome(MessageAttempts(MessageGrammars, line), 0).Some?
    requires FirstSome(MessageAttempts(MessageGrammars, line), 0).value.0 == 3
    ensures FirstSome(MessageAttempts(MessageGrammars, line), 0).value.1.stamp.time.suffix.Some?
    ensures var x := FirstSome(MessageAttempts(MessageGrammars, line), 0).value.1.stamp.time.suffix.value;
      x.letter in {'a', 'p'} || x.m == 'm'
  {
    assert MessageGrammars[1] == MessageGrammars[3].(time := Clock);
    GrammarsOk();
    ClockFirstUnlessLowerCase(MessageGrammars, 1, 3, line);
  }

  /** When a clock grammar is listed before the meridiem grammar with the same
      layout and date form, the meridiem grammar is only ever the first match
      for a lower-case suffix. */
  lemma ClockFirstUnlessLowerCase(gs: seq<Stamp>, j: nat, k: nat, line: string)
    requires j < k < |gs| && gs[k].time == Meridiem && gs[j] == gs[k].(time := Clock) && FormOk(gs[k])
    requires FirstSome(MessageAttempts(gs, line), 0).Some? && FirstSome(MessageAttempts(gs, line), 0).value.0 == k
    ensures FirstSome(MessageAttempts(gs, line), 0).value.1.stamp.time.suffix.Some?
    ensures var x := FirstSome(MessageAttempts(gs, line), 0).value.1.stamp.time.suffix.value;
      x.letter in {'a', 'p'} || x.m == 'm'
  {
    var attempts := MessageAttempts(gs, line);
    MeridiemMatch(gs[k], line);
    assert attempts[k] == ParseMessage(gs[k], line);
    assert attempts[j] == ParseMessage(gs[j], line);
  }

  /** A meridiem grammar always captures a suffix, and a line it accepts with
      an upper-case `AM`/`PM` is also accepted by the grammar that differs
      from it only in taking the clock time form. */
  lemma MeridiemMatch(g: Stamp, line: string)
    requires FormOk(g) && g.time == Meridiem && ParseMessage(g, line).Some?
    ensures var x := ParseMessage(g, line).value.stamp.time.suffix;
      && x.Some?
      && (x.value.letter in {'a', 'p'} || x.value.m == 'm' || ParseMessage(g.(time := Clock), line).Some?)
  {
    var m := ParseMessage(g, line).value;
    ParseMessageSound(g, line);
    var x := m.stamp.time.suffix.value;
    if !(x.letter in {'a', 'p'} || x.m == 'm') {
      assert MessageWf(g.(time := Clock), m);
      ParseMessageComplete(g.(time := Clock), m);
    }
  }

  lemma GrammarsOk()
    ensures forall i :: 0 <= i < |MessageGrammars| ==> FormOk(MessageGrammars[i])
    ensures forall i :: 0 <= i < |SystemGrammars| ==> FormOk(SystemGrammars[i])
  {
  }
}
