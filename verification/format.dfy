/** The two formatting helpers of the chat parser (js/modules/parser.js,
    lines 185-224): `formatDate` turns a date token into the label of a date
    separator, `formatTime` normalises the meridiem suffix of a time token. */
module Format {
  import opened Wrappers
  import opened Text
  import opened Grammar

  // ---------------------------------------------------------------------
  // formatDate

  /** The label of a date separator. `Rendered` stands for the text
      `toLocaleDateString('en-US', ...)` produces for the `Date` built from
      these constructor arguments (full year, zero-based month, day of the
      month); `Raw` is the token returned unchanged. */
  datatype DateLabel = Rendered(year: int, monthIndex: int, day: int) | Raw(token: string)

  /** The separators of the `/[\/\.\-]/` split. */
  const DateSeparators: set<char> := {'/', '.', '-'}

  /** The `Date` constructor reads a year from 0 to 99 as 1900 to 1999. */
  function FullYear(y: int): (r: int)
    ensures 0 <= y <= 99 ==> r == 1900 + y
    ensures !(0 <= y <= 99) ==> r == y
  {
    if 0 <= y <= 99 then 1900 + y else y
  }

  /** A four-character first field is a year (Y-M-D); otherwise the fields are
      day, month, year. The result is (year, month, day) as strings. */
  function FieldOrder(parts: seq<string>): (string, string, string)
    requires |parts| == 3
  {
    if |parts[0]| == 4 then (parts[0], parts[1], parts[2]) else (parts[2], parts[1], parts[0])
  }

  /** A two-character year field gets the prefix "20". */
  function YearText(y: string): string
  {
    if |y| == 2 then "20" + y else y
  }

  /** `formatDate(dateStr)`. */
  function FormatDate(token: string): (r: DateLabel)
    ensures r.Raw? ==> r.token == token
    ensures r.Rendered? ==> |Split(token, DateSeparators)| == 3
  {
    var parts := Split(token, DateSeparators);
    if |parts| != 3 then Raw(token)
    else
      var fields := FieldOrder(parts);
      match RenderFields(fields.0, fields.1, fields.2, token)
      case Raw(_) => Raw(token)
      case Rendered(year, monthIndex, day) => NewDate(year, monthIndex, day, token)
  }

  /** The arguments of `new Date(year, month - 1, day)` when all three fields
      are numbers; the token itself when one of them is `NaN`. */
  function RenderFields(y: string, m: string, d: string, token: string): DateLabel
  {
    var yn := ToNumber(YearText(y));
    var mn := ToNumber(m);
    var dn := ToNumber(d);
    if yn.Some? && mn.Some? && dn.Some? then Rendered(FullYear(yn.value), mn.value - 1, dn.value)
    else Raw(token)
  }

  /** The year a year field stands for: two digits are a year of the 2000s. */
  function YearOf(y: string): int
    requires AllDigits(y)
  {
    if |y| == 2 then 2000 + DigitsValue(y) else FullYear(DigitsValue(y))
  }

  /** The `Date` built from these arguments is rendered when it is valid, and
      the token kept when it is an Invalid Date (outside the time range). */
  function NewDate(year: int, monthIndex: int, day: int, token: string): (r: DateLabel)
    ensures r.Rendered? <==> ValidDate(year, monthIndex, day)
    ensures r.Rendered? ==> r == Rendered(year, monthIndex, day)
    ensures r.Raw? ==> r.token == token
  {
    if ValidDate(year, monthIndex, day) then Rendered(year, monthIndex, day) else Raw(token)
  }

  /** A time value is at most 8.64e15 ms, 100 000 000 days, either side of
      1 January 1970 (ECMAScript `TimeClip`). */
  const MaxDays := 100_000_000

  /** The days from 1 January 1970 to 1 January of `y` (ECMAScript
      `DayFromYear`; `/` on a positive divisor is floor division). */
  function DayFromYear(y: int): int
  {
    365 * (y - 1970) + (y - 1969) / 4 - (y - 1901) / 100 + (y - 1601) / 400
  }

  predicate LeapYear(y: int)
  {
    y % 4 == 0 && (y % 100 != 0 || y % 400 == 0)
  }

  /** The days of a year before its month `mn` (0 to 11). */
  function DaysBeforeMonth(mn: int, leap: bool): (n: int)
    requires 0 <= mn < 12
    ensures 0 <= n <= 335
  {
    var common :=
      if mn < 6 then
        if mn < 3 then (if mn == 0 then 0 else if mn == 1 then 31 else 59)
        else (if mn == 3 then 90 else if mn == 4 then 120 else 151)
      else
        if mn < 9 then (if mn == 6 then 181 else if mn == 7 then 212 else 243)
        else (if mn == 9 then 273 else if mn == 10 then 304 else 334);
    common + if leap && mn >= 2 then 1 else 0
  }

  /** ECMAScript `MakeDay`: a month index past 11 or below 0 moves into a
      later or earlier year, and the day of the month counts on from the
      first of that month. */
  function MakeDay(year: int, monthIndex: int, day: int): int
  {
    var ym := year + monthIndex / 12;
    var mn := monthIndex % 12;
    DayFromYear(ym) + DaysBeforeMonth(mn, LeapYear(ym)) + day - 1
  }

  /** `!isNaN(date.getTime())` for `new Date(year, monthIndex, day)`. */
  predicate ValidDate(year: int, monthIndex: int, day: int)
  {
    -MaxDays <= MakeDay(year, monthIndex, day) <= MaxDays
  }

  /** The first and last days `Date` can hold: 20 April 271822 BCE
      (year -271821) and 13 September 275760. */
  lemma RangeEnds()
    ensures ValidDate(275760, 8, 13) && !ValidDate(275760, 8, 14)
    ensures ValidDate(-271821, 3, 20) && !ValidDate(-271821, 3, 19)
  {
  }

  /** Fields of at most four digits always make a valid date. */
  lemma SmallFieldsValid(year: int, monthIndex: int, day: int)
    requires 0 <= year <= 9999 && -1 <= monthIndex <= 9998 && 0 <= day <= 9999
    ensures ValidDate(year, monthIndex, day)
  {
    var ym := year + monthIndex / 12;
    assert -1 <= ym <= 9999 + 833;
    assert -800_000 <= DayFromYear(ym) <= 4_000_000;
  }

  /** A year far past 275760 cannot be constructed. */
  lemma FarYearInvalid(year: int, monthIndex: int, day: int)
    requires year >= 280000 && -1 <= monthIndex <= 98 && 0 <= day <= 99
    ensures !ValidDate(year, monthIndex, day)
  {
    var ym := year + monthIndex / 12;
    assert ym >= 279999;
    assert DayFromYear(ym) > MaxDays;
  }

  /** A day-first token whose year field stands for a year far past 275760
      (`1/1/300000`, say) makes an Invalid Date, and the token is kept. */
  lemma FarYearKept(token: string, a: string, b: string, c: string)
    requires Split(token, DateSeparators) == [a, b, c]
    requires AllDigits(a) && AllDigits(b) && AllDigits(c) && 1 <= |a| <= 2 && 1 <= |b| <= 2 && c != []
    requires DigitsValue(c) >= 280000
    ensures FormatDate(token) == Raw(token)
  {
    FormatDigitFields(token, a, b, c);
    DigitsBelow(a);
    DigitsBelow(b);
    DigitsBelow(c);
    FarYearInvalid(YearOf(c), DigitsValue(b) - 1, DigitsValue(a));
  }

  lemma SplitDateToken(f: DateForm, d: DateParts)
    requires f.seps <= DateSeparators && DateWf(f, d)
    ensures Split(DateText(d), DateSeparators) == [d.first, d.second, d.third]
  {
    assert forall i :: 0 <= i < |d.third| ==> d.third[i] !in DateSeparators;
    SplitWhole(d.third, DateSeparators);
    assert d.third + [] == d.third;
    SplitFront(d.second, d.sep2, d.third + [], DateSeparators);
    SplitFront(d.first, d.sep1, d.second + ([d.sep2] + (d.third + [])), DateSeparators);
  }

  lemma TwentyPrefix(y: string)
    requires AllDigits(y) && |y| == 2
    ensures AllDigits("20" + y) && DigitsValue("20" + y) == 2000 + DigitsValue(y)
  {
    var t := "20" + y;
    assert DigitsValue("20") == 20 by {
      assert "20"[..1] == "2" && "2"[..0] == [];
    }
    assert t[..3][..2] == "20";
    assert DigitsValue(t[..3]) == 200 + DigitsValue(y[..1]) by {
      assert y[..1][..0] == [];
    }
    assert DigitsValue(y) == 10 * DigitsValue(y[..1]) + (y[1] as int - '0' as int);
  }

  /** Three all-digit fields are read as a date: a four-digit first field
      starts a year-first date, anything else a day-first one. The date is
      rendered when it is valid and the token kept otherwise. */
  lemma FormatDigitFields(token: string, a: string, b: string, c: string)
    requires Split(token, DateSeparators) == [a, b, c]
    requires AllDigits(a) && AllDigits(b) && AllDigits(c) && a != [] && b != [] && c != []
    ensures |a| == 4 ==> FormatDate(token) == NewDate(FullYear(DigitsValue(a)), DigitsValue(b) - 1, DigitsValue(c), token)
    ensures |a| != 4 ==> FormatDate(token) == NewDate(YearOf(c), DigitsValue(b) - 1, DigitsValue(a), token)
  {
    var parts := Split(token, DateSeparators);
    if |a| == 4 {
      assert FieldOrder(parts) == (a, b, c);
      RenderDigitFields(a, b, c, token, FullYear(DigitsValue(a)));
    } else {
      assert FieldOrder(parts) == (c, b, a);
      if |c| == 2 {
        TwentyPrefix(c);
      }
      RenderDigitFields(c, b, a, token, YearOf(c));
    }
  }

  lemma RenderDigitFields(y: string, m: string, d: string, token: string, year: int)
    requires AllDigits(m) && AllDigits(d) && m != [] && d != []
    requires AllDigits(YearText(y)) && YearText(y) != [] && year == FullYear(DigitsValue(YearText(y)))
    ensures RenderFields(y, m, d, token) == Rendered(year, DigitsValue(m) - 1, DigitsValue(d))
  {
  }

  /** A date token of the day-first grammars (slash, dot, hyphen: fields of
      at most four digits, the first of at most two; the US grammar's tokens
      too) is always rendered, read as day, month, year: never month first. */
  lemma FormatDayFirstToken(f: DateForm, d: DateParts)
    requires f.seps <= DateSeparators && f.first.hi < 4 && f.second.hi <= 4 && f.third.hi <= 4
    requires f.first.lo >= 1 && f.second.lo >= 1 && f.third.lo >= 1
    requires DateWf(f, d)
    ensures FormatDate(DateText(d)) == Rendered(YearOf(d.third), DigitsValue(d.second) - 1, DigitsValue(d.first))
  {
    SplitDateToken(f, d);
    DayFirstRendered(DateText(d), d.first, d.second, d.third);
  }

  /** A token of the ISO grammar is read as year, month, day. */
  lemma FormatIsoToken(d: DateParts)
    requires DateWf(Iso, d)
    ensures FormatDate(DateText(d)) == Rendered(FullYear(DigitsValue(d.first)), DigitsValue(d.second) - 1, DigitsValue(d.third))
  {
    SplitDateToken(Iso, d);
    YearFirstRendered(DateText(d), d.first, d.second, d.third);
  }

  /** Year-first digit fields of at most four digits are always rendered. */
  lemma YearFirstRendered(token: string, a: string, b: string, c: string)
    requires Split(token, DateSeparators) == [a, b, c]
    requires AllDigits(a) && AllDigits(b) && AllDigits(c) && b != [] && c != []
    requires |a| == 4 && |b| <= 4 && |c| <= 4
    ensures FormatDate(token) == Rendered(FullYear(DigitsValue(a)), DigitsValue(b) - 1, DigitsValue(c))
  {
    FormatDigitFields(token, a, b, c);
    YearFirstValid(a, b, c, token);
  }

  /** Day-first digit fields of at most four digits are always rendered. */
  lemma DayFirstRendered(token: string, a: string, b: string, c: string)
    requires Split(token, DateSeparators) == [a, b, c]
    requires AllDigits(a) && AllDigits(b) && AllDigits(c) && a != [] && b != [] && c != []
    requires |a| < 4 && |b| <= 4 && |c| <= 4
    ensures FormatDate(token) == Rendered(YearOf(c), DigitsValue(b) - 1, DigitsValue(a))
  {
    FormatDigitFields(token, a, b, c);
    DayFirstValid(a, b, c, token);
  }

  /** Day-first fields of at most four digits make a valid date, which is rendered. */
  lemma DayFirstValid(a: string, b: string, c: string, token: string)
    requires AllDigits(a) && AllDigits(b) && AllDigits(c) && c != []
    requires |a| <= 4 && |b| <= 4 && |c| <= 4
    ensures NewDate(YearOf(c), DigitsValue(b) - 1, DigitsValue(a), token) == Rendered(YearOf(c), DigitsValue(b) - 1, DigitsValue(a))
  {
    DigitsBelow(a);
    DigitsBelow(b);
    DigitsBelow(c);
    var year := YearOf(c);
    assert 0 <= year <= 9999;
    SmallFieldsValid(year, DigitsValue(b) - 1, DigitsValue(a));
  }

  /** Year-first fields of at most four digits make a valid date, which is rendered. */
  lemma YearFirstValid(a: string, b: string, c: string, token: string)
    requires AllDigits(a) && AllDigits(b) && AllDigits(c)
    requires |a| <= 4 && |b| <= 4 && |c| <= 4
    ensures NewDate(FullYear(DigitsValue(a)), DigitsValue(b) - 1, DigitsValue(c), token) == Rendered(FullYear(DigitsValue(a)), DigitsValue(b) - 1, DigitsValue(c))
  {
    DigitsBelow(a);
    DigitsBelow(b);
    DigitsBelow(c);
    var year := FullYear(DigitsValue(a));
    assert 0 <= year <= 9999;
    SmallFieldsValid(year, DigitsValue(b) - 1, DigitsValue(c));
  }

  function Ten(n: nat): (r: nat)
    ensures r >= 1
  {
    if n == 0 then 1 else 10 * Ten(n - 1)
  }

  /** `n` digits stand for less than 10 to the `n`. */
  lemma {:induction false} DigitsBelow(s: string)
    requires AllDigits(s)
    ensures DigitsValue(s) < Ten(|s|)
    ensures |s| <= 4 ==> DigitsValue(s) <= 9999
  {
    if s != [] {
      DigitsBelow(s[..|s| - 1]);
    }
    if |s| <= 4 {
      assert Ten(4) == 10000;
      TenGrows(|s|, 4);
    }
  }

  lemma {:induction false} TenGrows(m: nat, n: nat)
    requires m <= n
    ensures Ten(m) <= Ten(n)
    decreases n
  {
    if m < n {
      TenGrows(m, n - 1);
    }
  }

  /** A token that does not split into three fields is returned unchanged. */
  lemma FormatDateNotThreeFields(token: string)
    requires |Split(token, DateSeparators)| != 3
    ensures FormatDate(token) == Raw(token)
  {
  }

  // ---------------------------------------------------------------------
  // formatTime

  /** `(AM|PM)` under the `i` flag. */
  predicate IsMeridiem(a: char, b: char)
  {
    (LowerChar(a) == 'a' || LowerChar(a) == 'p') && LowerChar(b) == 'm'
  }

  /** The length of the match of `\s?(AM|PM)` starting at `j`, 0 for none;
      the optional white space is taken when it can be. */
  function MatchLen(s: string, j: nat): (n: nat)
    ensures n == 0 || n == 2 || n == 3
    ensures n > 0 ==> j + n <= |s|
  {
    if j + 3 <= |s| && IsSpace(s[j]) && IsMeridiem(s[j + 1], s[j + 2]) then 3
    else if j + 2 <= |s| && IsMeridiem(s[j], s[j + 1]) then 2
    else 0
  }

  /** The leftmost match at `j` or later. */
  function Find(s: string, j: nat): (r: Option<nat>)
    requires j <= |s|
    ensures r.Some? ==> j <= r.value < |s| && MatchLen(s, r.value) > 0
    ensures forall k :: j <= k < |s| && (r.None? || k < r.value) ==> MatchLen(s, k) == 0
    decreases |s| - j
  {
    if j == |s| then None
    else if MatchLen(s, j) > 0 then Some(j)
    else Find(s, j + 1)
  }

  /** `timeStr.replace(/\s?(AM|PM)/i, ' $1').toUpperCase()`: the first match
      becomes a space and the two letters, then everything is upper-cased. */
  function FormatTime(s: string): (r: string)
    ensures |r| <= |s| + 1
    ensures forall i :: 0 <= i < |r| ==> !IsLower(r[i])
  {
    match Find(s, 0)
    case None => Upper(s)
    case Some(k) => Upper(Replaced(s, k))
  }

  /** The match at `k` replaced by a space and its two letters. */
  function Replaced(s: string, k: nat): (r: string)
    requires k < |s| && MatchLen(s, k) > 0
    ensures |r| == |s| - MatchLen(s, k) + 3
  {
    var e := k + MatchLen(s, k);
    s[..k] + [' '] + s[e - 2..e] + s[e..]
  }

  // Case insensitivity of the match

  lemma MatchLenUpper(s: string, j: nat)
    ensures MatchLen(Upper(s), j) == MatchLen(s, j)
  {
  }

  lemma {:induction false} FindUpper(s: string, j: nat)
    requires j <= |s|
    ensures Find(Upper(s), j) == Find(s, j)
    decreases |s| - j
  {
    if j < |s| {
      MatchLenUpper(s, j);
      if MatchLen(s, j) == 0 {
        FindUpper(s, j + 1);
      }
    }
  }

  lemma UpperUpper(s: string)
    ensures Upper(Upper(s)) == Upper(s)
  {
  }

  lemma UpperAppend(a: string, b: string)
    ensures Upper(a + b) == Upper(a) + Upper(b)
  {
  }

  /** After one replacement, the replaced text is the leftmost match and
      matches with its space. */
  lemma ReplacedIsLeftmost(s: string, k: nat)
    requires Find(s, 0) == Some(k)
    ensures var t := Replaced(s, k);
      Find(t, 0) == Some(k) && MatchLen(t, k) == 3 && t[k] == ' '
  {
    var e := k + MatchLen(s, k);
    var t := Replaced(s, k);
    assert t[k] == ' ' && t[k + 1] == s[e - 2] && t[k + 2] == s[e - 1];
    assert IsMeridiem(s[e - 2], s[e - 1]);
    forall j | 0 <= j < k
      ensures MatchLen(t, j) == 0
    {
      assert MatchLen(s, j) == 0;
      assert forall i :: 0 <= i < k ==> t[i] == s[i];
    }
    FindFrom(t, 0, k);
  }

  /** The leftmost match is at `k` when nothing before it matches and it does. */
  lemma {:induction false} FindFrom(t: string, j: nat, k: nat)
    requires j <= k < |t| && MatchLen(t, k) > 0
    requires forall i :: j <= i < k ==> MatchLen(t, i) == 0
    ensures Find(t, j) == Some(k)
    decreases k - j
  {
    if j < k {
      FindFrom(t, j + 1, k);
    }
  }

  lemma {:induction false} FindNone(s: string, j: nat)
    requires j <= |s|
    requires forall i :: j <= i < |s| ==> MatchLen(s, i) == 0
    ensures Find(s, j).None?
    decreases |s| - j
  {
    if j < |s| {
      FindNone(s, j + 1);
    }
  }

  /** `formatTime` is idempotent. */
  lemma FormatTimeIdempotent(s: string)
    ensures FormatTime(FormatTime(s)) == FormatTime(s)
  {
    match Find(s, 0)
    case None =>
      FindUpper(s, 0);
      UpperUpper(s);
    case Some(k) =>
      ReplacedIsLeftmost(s, k);
      FormatReplaced(Replaced(s, k), k);
  }

  /** A string whose leftmost match is at `k` with its space is left as it is,
      up to case. */
  lemma FormatReplaced(t: string, k: nat)
    requires Find(t, 0) == Some(k) && MatchLen(t, k) == 3 && t[k] == ' '
    ensures FormatTime(Upper(t)) == Upper(t)
  {
    FindUpper(t, 0);
    MatchLenUpper(t, k);
    Reassemble(Upper(t), k);
    UpperUpper(t);
  }

  lemma Reassemble(u: string, k: nat)
    requires k + 3 <= |u| && u[k] == ' '
    ensures u[..k] + [' '] + u[k + 1..k + 3] + u[k + 3..] == u
  {
  }

  /** The digits and colons of a time token: `hour:minute[:second]`. */
  function ClockText(t: TimeParts): string
  {
    t.hour + ":" + t.minute + (if t.second.Some? then ":" + t.second.value else "")
  }

  function SuffixText(x: Option<Suffix>): string
  {
    if x.Some? then x.value.gap + [x.value.letter, x.value.m] else []
  }

  lemma TimeTextSplit(t: TimeParts)
    ensures TimeText(t) == ClockText(t) + SuffixText(t.suffix)
  {
    assert SuffixThen(t.suffix, []) == SuffixText(t.suffix);
  }

  /** The time token with its suffix normalised: one space, upper-case letters. */
  function NormalTime(t: TimeParts): TimeParts
  {
    match t.suffix
    case None => t
    case Some(x) => t.(suffix := Some(Suffix(" ", UpperChar(x.letter), UpperChar(x.m))))
  }

  /** Digits and colons: text in which nothing matches the meridiem pattern. */
  predicate ClockChars(c: string)
  {
    forall j :: 0 <= j < |c| ==> IsDigit(c[j]) || c[j] == ':'
  }

  /** A time token of the grammars without a suffix is returned unchanged; one
      with a suffix gets exactly one space before it and upper-case letters. */
  lemma FormatTimeToken(g: Stamp, t: TimeParts)
    requires g.time == Clock || g.time == Meridiem
    requires TimeWf(g.time, t)
    ensures FormatTime(TimeText(t)) == TimeText(NormalTime(t))
  {
    TimeTextSplit(t);
    TimeTextSplit(NormalTime(t));
    var c := ClockText(t);
    ClockTextChars(t);
    match t.suffix
    case None =>
      assert TimeText(t) == c + [];
      NoMatchBefore(c, []);
      FindNone(c, 0);
    case Some(x) =>
      assert x.letter in {'A', 'a', 'P', 'p'} && x.m in {'M', 'm'};
      SuffixFound(c, x);
  }

  lemma ClockTextChars(t: TimeParts)
    requires AllDigits(t.hour) && AllDigits(t.minute) && (t.second.Some? ==> AllDigits(t.second.value))
    ensures ClockChars(ClockText(t))
    ensures Upper(ClockText(t)) == ClockText(t)
  {
  }

  /** No match starts inside a run of digits and colons. */
  lemma NoMatchBefore(c: string, r: string)
    requires ClockChars(c)
    ensures forall j :: 0 <= j < |c| ==> MatchLen(c + r, j) == 0
  {
    forall j | 0 <= j < |c|
      ensures MatchLen(c + r, j) == 0
    {
      assert (c + r)[j] == c[j];
    }
  }

  /** A clock text followed by a suffix: the suffix is the leftmost match,
      and it is replaced by one space and the upper-cased letters. */
  lemma SuffixFound(c: string, x: Suffix)
    requires x.letter in {'A', 'a', 'P', 'p'} && x.m in {'M', 'm'} && |x.gap| <= 1 && AllSpace(x.gap)
    requires ClockChars(c) && Upper(c) == c
    ensures FormatTime(c + SuffixText(Some(x))) == c + SuffixText(Some(Suffix(" ", UpperChar(x.letter), UpperChar(x.m))))
  {
    var s := c + (x.gap + [x.letter, x.m]);
    var p := |c|;
    NoMatchBefore(c, x.gap + [x.letter, x.m]);
    SuffixMatchLen(c, x);
    FindFrom(s, 0, p);
    ReplacedSuffix(c, x);
    UpperAppend(c, [' ', x.letter, x.m]);
    assert Upper([' ', x.letter, x.m]) == [' ', UpperChar(x.letter), UpperChar(x.m)];
  }

  lemma SuffixMatchLen(c: string, x: Suffix)
    requires x.letter in {'A', 'a', 'P', 'p'} && x.m in {'M', 'm'} && |x.gap| <= 1 && AllSpace(x.gap)
    ensures MatchLen(c + (x.gap + [x.letter, x.m]), |c|) == 2 + |x.gap|
  {
    var s := c + (x.gap + [x.letter, x.m]);
    if x.gap == [] {
      assert s[|c|] == x.letter && s[|c| + 1] == x.m;
    } else {
      assert s[|c|] == x.gap[0] && s[|c| + 1] == x.letter && s[|c| + 2] == x.m;
    }
  }

  lemma ReplacedSuffix(c: string, x: Suffix)
    requires MatchLen(c + (x.gap + [x.letter, x.m]), |c|) == 2 + |x.gap|
    ensures Replaced(c + (x.gap + [x.letter, x.m]), |c|) == c + [' ', x.letter, x.m]
  {
    var s := c + (x.gap + [x.letter, x.m]);
    var e := |s|;
    assert s[..|c|] == c && s[e - 2..e] == [x.letter, x.m] && s[e..] == [];
  }
}
