/** Chat statistics (js/modules/stats.js): `ChatStats.calculate` counts the
    message records of a parsed chat by sender and by date, finds the date
    range, the number of distinct days, the rounded average per day and the
    most active day; `getEmptyStats` is its answer for a chat without
    messages. */
module Stats {
  import opened Wrappers
  import opened Tallies
  import opened Parser

  /** `{date, count}` of the most active day. */
  datatype DayCount = DayCount(date: string, count: nat)

  /** The statistics object. In `start` and `end`, `None` stands for `null`. */
  datatype ChatStats = ChatStats(
    totalMessages: nat,
    messagesBySender: Tally,
    messagesByDate: Tally,
    start: Option<string>,
    end: Option<string>,
    totalDays: nat,
    avgMessagesPerDay: nat,
    mostActiveDay: Option<DayCount>)

  // ---------------------------------------------------------------------
  // Specification

  /** The sender of each message, in order. */
  function SendersOf(ms: seq<Record>): (ss: seq<string>)
    requires forall i :: 0 <= i < |ms| ==> ms[i].Message?
    ensures |ss| == |ms|
  {
    seq(|ms|, i requires 0 <= i < |ms| => ms[i].sender)
  }

  /** The dates of the messages whose date is not empty (`if (msg.date)`),
      in order. */
  function DatedOf(ms: seq<Record>): (ds: seq<string>)
    requires forall i :: 0 <= i < |ms| ==> ms[i].Message?
    ensures forall i :: 0 <= i < |ds| ==> ds[i] != []
  {
    if ms == [] then []
    else DatedOf(ms[..|ms| - 1]) + (if ms[|ms| - 1].date != [] then [ms[|ms| - 1].date] else [])
  }

  function FirstOf(ds: seq<string>): Option<string>
  {
    if ds == [] then None else Some(ds[0])
  }

  function LastOf(ds: seq<string>): Option<string>
  {
    if ds == [] then None else Some(ds[|ds| - 1])
  }

  /** `Math.round(t / d)` for whole `t` and positive `d`, and 0 when `d` is 0:
      the nearest whole number, halves rounded up. */
  function Round(t: nat, d: nat): (r: nat)
    ensures d > 0 ==> d * (2 * r - 1) <= 2 * t < d * (2 * r + 1)
    ensures d == 0 ==> r == 0
  {
    if d == 0 then 0
    else
      var r := (2 * t + d) / (2 * d);
      assert 2 * d * r <= 2 * t + d < 2 * d * r + 2 * d by {
        var m := (2 * t + d) % (2 * d);
        assert 2 * t + d == 2 * d * r + m && 0 <= m < 2 * d;
      }
      r
  }

  /** The most active day of a date tally: `None` when no date has a
      positive count; otherwise a date with the largest count, the first such
      in key order. */
  ghost predicate MostActive(t: Tally, day: Option<DayCount>)
  {
    match day
    case None => forall i :: 0 <= i < |t.keys| ==> Get(t, t.keys[i]) == 0
    case Some(dc) =>
      exists j :: 0 <= j < |t.keys| && FirstMaximum(t, j) && dc == DayCount(t.keys[j], Get(t, t.keys[j]))
  }

  /** Key `j` has a positive count, no key has more and no earlier key as
      much. */
  ghost predicate FirstMaximum(t: Tally, j: int)
    requires 0 <= j < |t.keys|
  {
    && Get(t, t.keys[j]) > 0
    && (forall i :: 0 <= i < |t.keys| ==> Get(t, t.keys[i]) <= Get(t, t.keys[j]))
    && (forall i :: 0 <= i < j ==> Get(t, t.keys[i]) < Get(t, t.keys[j]))
  }

  /** What holds of every statistics object, empty or not: the sender counts
      add up to the total, the days are the keys of the date tally, the
      average is the rounded quotient and the most active day is the first
      maximal date. */
  ghost predicate Consistent(s: ChatStats)
  {
    && Valid(s.messagesBySender) && Valid(s.messagesByDate)
    && Total(s.messagesBySender) == s.totalMessages
    && s.totalDays == |s.messagesByDate.keys|
    && s.avgMessagesPerDay == Round(s.totalMessages, s.totalDays)
    && MostActive(s.messagesByDate, s.mostActiveDay)
  }

  /** `getEmptyStats()`: no messages, no days, the range 'N/A' to 'N/A'. */
  function EmptyStats(): (s: ChatStats)
    ensures Consistent(s) && s.totalMessages == 0 && s.totalDays == 0
    ensures s.start == Some("N/A") && s.end == Some("N/A") && s.mostActiveDay.None?
  {
    ChatStats(0, Empty, Empty, Some("N/A"), Some("N/A"), 0, 0, None)
  }

  // ---------------------------------------------------------------------
  // calculate

  /** `calculate(messages)`. Without message records the answer is the empty
      statistics. Otherwise the total is the number of message records, the
      sender tally counts their senders, the date tally counts their
      non-empty dates, the range runs from the first to the last of those
      dates in list order (not in calendar order), and the rest follows as
      `Consistent` says. */
  method Calculate(records: seq<Record>) returns (stats: ChatStats)
    ensures Consistent(stats)
    ensures var ms := MessagesOf(records);
      if ms == [] then stats == EmptyStats()
      else
        && stats.totalMessages == |ms|
        && stats.messagesBySender == TallyOf(SendersOf(ms))
        && stats.messagesByDate == TallyOf(DatedOf(ms))
        && stats.start == FirstOf(DatedOf(ms)) && stats.end == LastOf(DatedOf(ms))
  {
    var ms := MessagesOf(records);
    if |ms| == 0 {
      return EmptyStats();
    }
    var bySender := CountSenders(ms);
    var byDate, start, end := CountDates(ms);
    var totalDays := |byDate.keys|;
    var avg := 0;
    if totalDays > 0 {
      avg := Round(|ms|, totalDays);
    }
    var mostActive := MostActiveDay(byDate);
    TallyOfTotal(SendersOf(ms));
    stats := ChatStats(|ms|, bySender, byDate, start, end, totalDays, avg, mostActive);
  }

  /** The first loop of `calculate`: one count per message for its sender. */
  method CountSenders(ms: seq<Record>) returns (bySender: Tally)
    requires forall i :: 0 <= i < |ms| ==> ms[i].Message?
    ensures bySender == TallyOf(SendersOf(ms))
  {
    ghost var senders := SendersOf(ms);
    bySender := Empty;
    for i := 0 to |ms|
      invariant bySender == TallyOf(senders[..i])
    {
      assert senders[..i + 1][..i] == senders[..i];
      bySender := Bump(bySender, ms[i].sender);
    }
    assert senders[..|ms|] == senders;
  }

  /** The date part of the first loop of `calculate`: messages with an empty
      date are skipped; the others are counted by date, the first sets
      `start` and each sets `end`. */
  method CountDates(ms: seq<Record>) returns (byDate: Tally, start: Option<string>, end: Option<string>)
    requires forall i :: 0 <= i < |ms| ==> ms[i].Message?
    ensures byDate == TallyOf(DatedOf(ms))
    ensures start == FirstOf(DatedOf(ms)) && end == LastOf(DatedOf(ms))
  {
    byDate, start, end := Empty, None, None;
    for i := 0 to |ms|
      invariant byDate == TallyOf(DatedOf(ms[..i]))
      invariant start == FirstOf(DatedOf(ms[..i])) && end == LastOf(DatedOf(ms[..i]))
    {
      DatedStep(ms, i);
      if ms[i].date != [] {
        TallyOfSnoc(DatedOf(ms[..i]), ms[i].date);
        byDate := Bump(byDate, ms[i].date);
        if start.None? {
          start := Some(ms[i].date);
        }
        end := Some(ms[i].date);
      }
    }
    assert ms[..|ms|] == ms;
  }

  /** One more message adds its date, if it has one, at the end. */
  lemma DatedStep(ms: seq<Record>, i: nat)
    requires forall i :: 0 <= i < |ms| ==> ms[i].Message?
    requires i < |ms|
    ensures ms[i].date != [] ==> DatedOf(ms[..i + 1]) == DatedOf(ms[..i]) + [ms[i].date]
    ensures ms[i].date == [] ==> DatedOf(ms[..i + 1]) == DatedOf(ms[..i])
  {
    assert ms[..i + 1][..i] == ms[..i];
    assert DatedOf(ms[..i]) + [] == DatedOf(ms[..i]);
  }

  /** The scan for the most active day: a running maximum over the date
      tally in key order, replaced only by a strictly larger count. */
  method MostActiveDay(byDate: Tally) returns (day: Option<DayCount>)
    requires Valid(byDate)
    ensures MostActive(byDate, day)
  {
    var maxCount := 0;
    var maxDate: Option<string> := None;
    ghost var at := -1;
    for i := 0 to |byDate.keys|
      invariant -1 <= at < i
      invariant maxDate.None? <==> at < 0
      invariant at < 0 ==> maxCount == 0
      invariant 0 <= at ==> maxDate == Some(byDate.keys[at]) && maxCount == Get(byDate, byDate.keys[at]) > 0
      invariant forall j :: 0 <= j < i ==> Get(byDate, byDate.keys[j]) <= maxCount
      invariant forall j :: 0 <= j < at ==> Get(byDate, byDate.keys[j]) < maxCount
    {
      var count := byDate.count[byDate.keys[i]];
      if count > maxCount {
        maxCount := count;
        maxDate := Some(byDate.keys[i]);
        at := i;
      }
    }
    if maxDate.Some? {
      day := Some(DayCount(maxDate.value, maxCount));
      assert FirstMaximum(byDate, at);
    } else {
      day := None;
    }
  }

  // ---------------------------------------------------------------------
  // Properties

  /** The days are the distinct non-empty dates, each counted as often as it
      occurs; the empty date is never a day. */
  lemma DaysAreDistinctDates(ms: seq<Record>)
    requires forall i :: 0 <= i < |ms| ==> ms[i].Message?
    ensures ToSet(TallyOf(DatedOf(ms)).keys) == ToSet(DatedOf(ms))
    ensures |TallyOf(DatedOf(ms)).keys| == |ToSet(DatedOf(ms))|
    ensures forall d :: Get(TallyOf(DatedOf(ms)), d) == multiset(DatedOf(ms))[d]
    ensures Get(TallyOf(DatedOf(ms)), []) == 0
  {
    TallyOfKeys(DatedOf(ms));
    forall d ensures Get(TallyOf(DatedOf(ms)), d) == multiset(DatedOf(ms))[d] {
      TallyOfCounts(DatedOf(ms), d);
    }
    assert [] !in DatedOf(ms);
  }

  /** The date counts add up to the number of dated messages, which is the
      total exactly when every message has a date. */
  lemma DateTotal(ms: seq<Record>)
    requires forall i :: 0 <= i < |ms| ==> ms[i].Message?
    ensures Total(TallyOf(DatedOf(ms))) == |DatedOf(ms)| <= |ms|
    ensures |DatedOf(ms)| == |ms| <==> forall i :: 0 <= i < |ms| ==> ms[i].date != []
  {
    TallyOfTotal(DatedOf(ms));
    DatedLength(ms);
  }

  lemma {:induction false} DatedLength(ms: seq<Record>)
    requires forall i :: 0 <= i < |ms| ==> ms[i].Message?
    ensures |DatedOf(ms)| <= |ms|
    ensures |DatedOf(ms)| == |ms| <==> forall i :: 0 <= i < |ms| ==> ms[i].date != []
  {
    if ms != [] {
      var init := ms[..|ms| - 1];
      DatedLength(init);
      assert forall i :: 0 <= i < |init| ==> init[i] == ms[i];
    }
  }

  /** The first and the last day of the range are days of the date tally. */
  lemma RangeIsDays(ms: seq<Record>)
    requires forall i :: 0 <= i < |ms| ==> ms[i].Message?
    ensures FirstOf(DatedOf(ms)).Some? ==> FirstOf(DatedOf(ms)).value in ToSet(TallyOf(DatedOf(ms)).keys)
    ensures LastOf(DatedOf(ms)).Some? ==> LastOf(DatedOf(ms)).value in ToSet(TallyOf(DatedOf(ms)).keys)
    ensures FirstOf(DatedOf(ms)).None? <==> LastOf(DatedOf(ms)).None?
  {
    TallyOfKeys(DatedOf(ms));
  }

  /** Each sender is counted once per message it sent. */
  lemma SenderCounts(ms: seq<Record>, who: string)
    requires forall i :: 0 <= i < |ms| ==> ms[i].Message?
    ensures Get(TallyOf(SendersOf(ms)), who) == multiset(SendersOf(ms))[who]
  {
    TallyOfCounts(SendersOf(ms), who);
  }
}
