# WhatsApp chat viewer: a Dafny model of its core

The viewer reads a WhatsApp chat export, a plain text file where each line
starts with a date and time stamp. It shows the chat as a conversation with
dated sections and offers statistics, search and a JSON export. This project
models and proves in Dafny the parts of the viewer that decide what is shown:

- `ChatParser.parse` (`js/modules/parser.js`). It splits the export into
  lines, trims them and drops blank ones. It tries the message grammars and
  then the system-notice grammars. It emits a date separator whenever the
  date token changes, and appends unmatched lines to the open message as
  continuation lines. Finally it marks the messages of the outgoing sender,
  chosen by `determineOutgoingSender`.
- `formatDate` and `formatTime`, which render the heading of a date
  separator and normalise a time.
- The standalone page script (`webapp.js`): its `parseChat`, with its own
  single grammar, and the test that decides which messages are "sent".
- `ChatStats.calculate` and `getEmptyStats` (`js/modules/stats.js`).
- `SearchManager.search` and `escapeRegex` (`js/modules/search.js`).
- The sender colours of `ChatRenderer` (`getSenderColor`, `clear`;
  `js/modules/renderer.js`).
- `ExportManager.exportAsJSON`'s payload and `sanitizeFilename`
  (`js/modules/export.js`).

The files:

| file | module | contents |
|---|---|---|
| `wrappers.dfy` | `Wrappers` | `Option` |
| `text.dfy` | `Text` | characters, JavaScript white space, `trim`, `split`, `join`, `includes`, ASCII case mapping, `Number` on the strings a date token splits into |
| `tally.dfy` | `Tallies` | a counting object `{key: count}` with keys in insertion order |
| `grammar.dfy` | `Grammar` | the line grammars of the parser: renderers, scanners, first-match selection |
| `format.dfy` | `Format` | `formatDate`, `formatTime` |
| `parser.dfy` | `Parser` | `parse`, `determineOutgoingSender` |
| `webapp.dfy` | `WebApp` | `parseChat`, the sent test |
| `stats.dfy` | `Stats` | `calculate`, `getEmptyStats` |
| `search.dfy` | `Search` | `search`, `escapeRegex` |
| `renderer.dfy` | `Renderer` | `getSenderColor`, `clear` |
| `export.dfy` | `Export` | `exportAsJSON`'s payload, `sanitizeFilename` |

Each regular expression is modelled as a grammar value, a `Stamp` (the
layout, the date form and the time form) followed by a body. It has two
sides. A renderer (`RenderMessage`) builds the lines the grammar describes.
A scanner (`ParseMessage`) reads a line. The scanner is proved sound (what
it accepts is a rendering of what it returns) and complete (every
well-formed rendering is read back). The order in which the parser tries
the grammars is modelled as a list and a first-match function.

`parse` is an imperative loop in the source, and `ChatParser.Parse` is a
method with that loop. It is proved against `Ref`, a declarative
description of the record list. In `Ref`, every matched line yields its
record, preceded by a date separator when its date token differs from the
previous matched line's. A message also absorbs the unmatched lines after
it. Properties of the output are then proved about `Ref`.

Two behaviours of the source worth noting:

- A malformed but grammar-shaped date token such as `99/99/9999` is not
  kept verbatim. `formatDate` splits it into three numeric fields, and the
  JavaScript `Date` constructor rolls the month and day over into a valid
  date. The model returns `Rendered(9999, 98, 99)`. `formatDate` keeps a
  token only when a field is not a number or the date falls outside the
  range of `Date` (`1/1/300000`, say), and grammar tokens, whose fields
  have at most four digits, never do.
- The fallback of `determineOutgoingSender` is reached only when the
  message records show no second sender. It returns the last key of minimal
  count, because the `reduce` keeps `b` on a tie.

## Model

| member | source | states |
|---|---|---|
| Parser.ChatParser.Parse | js/modules/parser.js:34-160 | The records are exactly `Ref` of the classified lines of `text.split('\n')`, each message marked outgoing iff its sender is the one `determineOutgoingSender` picks from the sender counts. |
| Parser.ChatParser.ReadLines | js/modules/parser.js:47-137 | The line loop builds `Ref(kinds)` and a sender tally equal to the tally of the message senders, in order. |
| Parser.Ref | js/modules/parser.js:47-137 | The reference record list; it has no contract of its own. Its properties are `RefSepsFollowed`, `RefSepCount`, `RefMessageSenders`, `CountsMatchMessages` and `SendersHaveNoColon`, and `Parse` is proved to build it. |
| Parser.ChatParser.ReadLine | js/modules/parser.js:49-131 | Reading one line yields its classification `KindOf` under the parser's grammar lists. |
| Parser.ChatParser.constructor | js/modules/parser.js:7-32 | The parser holds the seven message grammars and the system grammars, in source order. |
| Parser.KindOf | js/modules/parser.js:48-131 | A line is skipped iff it is all white space. A message's sender has no colon, and sender and content carry no surrounding white space. An unmatched line keeps its trimmed text. |
| Parser.KindOfMatches | js/modules/parser.js:53-124 | A non-blank line is a message iff some message grammar matches its cleaned text, a notice iff no message grammar and some system grammar does, and loose (a continuation) iff none does. |
| Parser.ChatParser.Step | js/modules/parser.js:47-132 | One line of the loop extends the records, open message, current date and sender counts as `Ref` prescribes for one more line. |
| Parser.Flush | js/modules/parser.js:134-137 | After the last line, pushing the open message completes the reference records, and the counts are those of all message senders. |
| Parser.PushMessage | js/modules/parser.js:57-80 | A new message line flushes the open message, then adds a date separator only when its date token differs from the current date, which becomes its token. |
| Parser.PushNotice | js/modules/parser.js:97-124 | A notice line flushes the open message, adds a separator when its date changes and the notice itself, and closes the open message. |
| Parser.MarkOutgoing | js/modules/parser.js:153-157 | Every message is marked outgoing iff its sender is the chosen sender; all other fields and records are unchanged. |
| Parser.ChatParser.DetermineOutgoingSender | js/modules/parser.js:162-183 | The chosen sender is `OutgoingSender`: none without senders, the only sender when there is one, else the first differing sender, else the fallback. |
| Parser.OutgoingSender | js/modules/parser.js:162-183 | None iff there is no sender; the only sender when there is one; with two or more senders and no second sender in the messages, one of the counted senders. Its choice in the other cases is stated by `SecondSender`, `Fallback` and `OutgoingFromMessages`. |
| Parser.SecondSender | js/modules/parser.js:169-177 | None iff all message senders equal the first; otherwise the sender of the first message whose sender differs from the first's. |
| Parser.Fallback | js/modules/parser.js:180-182 | The `reduce` result is a key with the smallest count, and every later key has a strictly larger count (ties go to the last). |
| Parser.OutgoingFromMessages | js/modules/parser.js:162-183 | When the tally counts the message senders, the choice is none with no messages, the first sender when all agree, and otherwise the first differing sender: the fallback is never reached. |
| Parser.OutgoingIsASender | js/modules/parser.js:150 | The outgoing sender chosen by `parse` is the sender of some message. |
| Parser.RefSepsFollowed | js/modules/parser.js:68-74 | Every date separator in the output is immediately followed by a notice or a message, never by another separator or the end. |
| Parser.RefSepCount | js/modules/parser.js:68-74 | The number of separators equals the number of date-token changes along the matched lines, counting the first. |
| Parser.RefMessageSenders | js/modules/parser.js:77-87 | The senders of the output messages are the senders of the message lines, in order. |
| Parser.CountsMatchMessages | js/modules/parser.js:77-78 | The sender counts add up to the number of output messages. |
| Parser.SendersHaveNoColon | js/modules/parser.js:11-23 | No output sender contains a colon. |
| Parser.SenderHasNoColon | js/modules/parser.js:11-23 | The sender captured by any message grammar contains no colon. |
| Parser.MatchMessage | js/modules/parser.js:57-62 | The loop over the message grammars returns the first grammar's match. |
| Parser.MatchSystem | js/modules/parser.js:97-102 | The loop over the system grammars returns the first grammar's match. |
| Grammar.ParseMessageSound | js/modules/parser.js:9-24 | Whatever a message grammar accepts is the rendering of well-formed date, time, sender and content under that grammar. |
| Grammar.ParseMessageComplete | js/modules/parser.js:9-24 | Every well-formed rendering of a message under a grammar is accepted and read back to the same parts. |
| Grammar.ParseSystemSound | js/modules/parser.js:26-31 | Whatever a system grammar accepts is a rendering of a well-formed stamp and text. |
| Grammar.ParseSystemComplete | js/modules/parser.js:26-31 | Every well-formed system line is accepted and read back to the same parts. |
| Grammar.ParseMessage | js/modules/parser.js:9-24 | Matching one message grammar; no contract of its own. `ParseMessageSound` and `ParseMessageComplete` state that it accepts exactly the well-formed renderings and reads back their parts. |
| Grammar.ParseSystem | js/modules/parser.js:26-31 | Matching one system grammar; no contract of its own. `ParseSystemSound` and `ParseSystemComplete` state that it accepts exactly the well-formed system lines. |
| Grammar.ScanStampSound | js/modules/parser.js:9-31 | The stamp scanner splits a line into a well-formed stamp and the rest. |
| Grammar.ScanStampComplete | js/modules/parser.js:9-31 | The stamp scanner reads back every well-formed stamp, whatever follows it. |
| Grammar.Classify | js/modules/parser.js:57-124 | A line is a message iff some message grammar matches, a notice only if a system grammar matches, and unmatched iff no grammar of either list matches; the parts come from the first grammar that matches (through `FirstValue`). |
| Grammar.FirstSome | js/modules/parser.js:57-62 | The first successful attempt: every attempt before it failed. |
| Grammar.FirstValue | js/modules/parser.js:57-62 | Some iff some attempt succeeded, and then the value of the first successful attempt: every attempt before it failed. |
| Grammar.MeridiemGrammarOnlyLowerCase | js/modules/parser.js:13-17 | When the case-insensitive fourth grammar is the first to match, the suffix has a lower-case letter (an upper-case one would have been taken by the earlier grammar). |
| Grammar.ClockFirstUnlessLowerCase | js/modules/parser.js:13-17 | For any grammar list with a case-sensitive clock grammar before its meridiem twin, the twin wins only on a lower-case suffix. |
| Grammar.GrammarsOk | js/modules/parser.js:9-31 | Every grammar in both lists meets the side conditions under which scanning is complete. |
| Format.FormatDate | js/modules/parser.js:185-219 | The token is returned unchanged unless it splits into exactly three fields. |
| Format.NewDate | js/modules/parser.js:206-218 | The date is rendered, with exactly the constructor's arguments, iff it is a valid `Date`; otherwise the token is kept. |
| Format.RangeEnds | js/modules/parser.js:206-209 | The valid dates run from 20 April of year -271821 to 13 September 275760: the days just outside are Invalid Dates. |
| Format.SmallFieldsValid | js/modules/parser.js:206-209 | A year from 0 to 9999, a month index from -1 to 9998 and a day from 0 to 9999 always make a valid date. |
| Format.FarYearInvalid | js/modules/parser.js:206-209 | A year from 280000 on, with a month index from -1 to 98 and a day from 0 to 99, makes an Invalid Date. |
| Format.FarYearKept | js/modules/parser.js:196-218 | A day-first token whose year field is 280000 or more, such as `1/1/300000`, is returned unchanged. |
| Format.FormatDateNotThreeFields | js/modules/parser.js:187-188 | A token that does not split into three fields on `/`, `.`, `-` is returned verbatim. |
| Format.FormatDigitFields | js/modules/parser.js:189-218 | Three digit fields are read as year, month index (one less than the month) and day: year first when the first field has four digits, else day first, and a two-digit year gets `20` in front. The result is `NewDate` of those numbers: rendered when the date is valid, the token when it is an Invalid Date. |
| Format.YearFirstRendered | js/modules/parser.js:189-218 | Year-first digit fields of at most four digits each are always rendered, as year, month index and day. |
| Format.DayFirstRendered | js/modules/parser.js:189-218 | Day-first digit fields of at most four digits each are always rendered, as year, month index and day. |
| Format.FormatDayFirstToken | js/modules/parser.js:196-211 | A date token of a day-first grammar renders as that day, month and year. |
| Format.FormatIsoToken | js/modules/parser.js:192-211 | An ISO date token renders year, month and day in that order. |
| Format.FullYear | js/modules/parser.js:206 | The `Date` constructor maps years 0 to 99 to 1900 to 1999 and keeps the others. |
| Format.FormatTimeToken | js/modules/parser.js:221-224 | A grammar time token keeps its clock and gets its AM/PM suffix upper-cased with exactly one space before it. |
| Format.FormatTimeIdempotent | js/modules/parser.js:221-224 | Formatting a formatted time changes nothing. |
| Format.FormatTime | js/modules/parser.js:221-224 | The result has no lower-case letter and is at most one character longer than the input (one space added before the suffix). `FormatTimeToken`, `SuffixFound` and `FormatTimeIdempotent` state the rest. |
| Format.SuffixFound | js/modules/parser.js:223 | A clock followed by an optional space and an AM/PM suffix in any case becomes the clock, one space and the upper-case suffix. |
| Format.Find | js/modules/parser.js:223 | The leftmost position where the suffix pattern matches, and no match before it. |
| WebApp.ChatPage.ParseChat | webapp.js:24-48 | The page's message list is `Entries` of the lines of `text.split('\n')` under the page grammar. |
| WebApp.ChatPage.ReadLine | webapp.js:30-45 | One line extends the entries and the current date as `Entries` prescribes. |
| WebApp.ChatPage.Push | webapp.js:32-44 | A matched line appends a date entry when its date changes and then the message; an unmatched non-blank line appends a system entry with its trimmed text. |
| WebApp.ChatPage.constructor | webapp.js:24-28 | The page starts with no messages and the page grammar. |
| WebApp.MatchLine | webapp.js:28 | Matching the page's expression; no contract of its own. `MatchLineSound` and `MatchLineComplete` state which lines it accepts and what it captures. |
| WebApp.LineEntries | webapp.js:31-44 | The entries one line adds; no contract of its own. `Push` is proved to append them, and `EntriesContents` characterises them over the whole text. |
| WebApp.Entries | webapp.js:30-45 | The page's entry list for all lines; no contract of its own. `ParseChat` is proved to build it; `EntriesContents` and `EntriesDatesFollowed` state what it holds. |
| WebApp.MatchLineSound | webapp.js:28 | What the page grammar accepts is a stamp, a sender without `: `, and text, with no line terminator. |
| WebApp.MatchLineComplete | webapp.js:28 | Every such line is matched and read back to its parts. |
| WebApp.CarriageReturnNeverMatches | webapp.js:28 | A line ending in a carriage return (a CRLF export) is never matched, since `.` excludes line terminators and `$` is the end of the string. |
| WebApp.MatchTimeLowerCase | webapp.js:28 | The page grammar only matches lower-case `am`/`pm`. |
| WebApp.EntriesContents | webapp.js:30-45 | The message entries are the matched lines in order, the system entries are the unmatched non-blank lines trimmed, and the date entries are the date changes. |
| WebApp.EntriesDatesFollowed | webapp.js:35-40 | Every date entry is immediately followed by a message entry. |
| WebApp.SentIgnoresCase | webapp.js:52-69 | Whether a message is sent does not depend on the case of the sender or of the typed name. |
| WebApp.SentIgnoresPadding | webapp.js:52-69 | White space around the typed name does not matter, but white space before the sender does. |
| WebApp.IsSent | webapp.js:52-69 | A sent message's sender is as long as the trimmed typed name. `SentIgnoresCase` and `SentIgnoresPadding` state how case and white space count. |
| Stats.Calculate | js/modules/stats.js:7-68 | With no message records the result is the empty statistics. Otherwise: the total is the message count, the sender tally counts senders, the date tally counts non-empty dates, the range is the first and last such date in list order, and the statistics are consistent. |
| Stats.CountSenders | js/modules/stats.js:24-27 | The loop builds the tally of the message senders. |
| Stats.CountDates | js/modules/stats.js:29-39 | The loop builds the tally of the non-empty dates, and the first and last of them. |
| Stats.MostActiveDay | js/modules/stats.js:49-65 | The result is the first date with a maximal positive count, with that count; none when no date has a positive count. |
| Stats.MostActive | js/modules/stats.js:49-65 | The specification of the most active day (a predicate with no contract of its own): none iff no date has a positive count, else the first key with the largest count and that count. `MostActiveDay` is proved to meet it. |
| Stats.EmptyStats | js/modules/stats.js:70-80 | Zero messages and days, the range `N/A` to `N/A`, no most active day; consistent. |
| Stats.Round | js/modules/stats.js:45-47 | `Math.round(t / d)`: the whole number within one half of the quotient, halves rounded up; 0 when there are no days. |
| Stats.DaysAreDistinctDates | js/modules/stats.js:41-42 | The days are the distinct non-empty dates, each counted as often as it occurs, and the empty date is never a day. |
| Stats.DateTotal | js/modules/stats.js:29-39 | The date counts add up to the number of dated messages, which equals the total iff every message has a date. |
| Stats.RangeIsDays | js/modules/stats.js:34-37 | The start and end of the range are days of the tally, and one is set iff the other is. |
| Stats.SenderCounts | js/modules/stats.js:24-27 | Each sender's count is the number of its messages. |
| Search.Search | js/modules/search.js:7-32 | A blank query finds nothing. Otherwise an index is listed iff that record is a message whose lower-cased content or sender includes the lower-cased query; indices are in range, increasing and listed once. |
| Search.Hit | js/modules/search.js:17-24 | The per-record test (a predicate with no contract of its own): a message whose lower-cased content or sender includes the lower-cased query. `Test`, `HitIgnoresCase` and `HitNarrows` state its properties. |
| Search.Test | js/modules/search.js:15-29 | The test applied to one record agrees with `Hit` for every query whose lower-case form was given: true iff the record is a message whose content or sender includes it. |
| Search.HitsSpec | js/modules/search.js:15-29 | The reference list of hits holds positions in range, strictly increasing, and a position iff its record is a hit. |
| Search.HitIgnoresCase | js/modules/search.js:12-24 | The case of the query does not change the results. |
| Search.HitNarrows | js/modules/search.js:15-29 | A record found by a query is found by every piece of that query. |
| Search.EscapeRegex | js/modules/search.js:43-45 | The escape is longer than the input by exactly the number of syntax characters (one backslash each), so at most twice as long. |
| Search.EscapeRegexLiteral | js/modules/search.js:43-45 | The escaped text is a pattern in which every syntax character is escaped, and it reads back as the original text. |
| Search.LiteralIsEscape | js/modules/search.js:43-45 | Every such fully escaped pattern is the escape of what it reads back as. |
| Search.SyntaxCount | js/modules/search.js:44 | Counts the characters the escape prefixes with a backslash, at most the length of the text. |
| Search.EscapeRegexAppend | js/modules/search.js:43-45 | Escaping works character by character: the escape of a concatenation is the concatenation of the escapes. |
| Renderer.ChatRenderer.GetSenderColor | js/modules/renderer.js:128-134 | A known sender keeps its colour and nothing changes. A new sender gets the palette colour at `colorIndex` modulo 8, and the index advances. The `k`-th sender to ask holds colour `k mod 8`. |
| Renderer.ChatRenderer.Clear | js/modules/renderer.js:167-171 | No sender has a colour and the round robin restarts at the first colour. |
| Renderer.ChatRenderer.constructor | js/modules/renderer.js:7-15 | No sender has a colour and the index is 0. |
| Renderer.ColorInPalette | js/modules/renderer.js:128-134 | Every colour given out is a palette colour. |
| Renderer.SameColorIff | js/modules/renderer.js:10-13 | Two senders share a colour iff their positions in the order of first request are congruent modulo 8. |
| Renderer.FirstEightDistinct | js/modules/renderer.js:10-13 | With at most eight senders, different senders have different colours. |
| Export.ExportAsJson | js/modules/export.js:7-25 | The payload carries the export date, all records, and a count equal to the number of message records; the file name is the sanitised name (`chat` when omitted) followed by `_export.json`. |
| Export.DefaultNameSafe | js/modules/export.js:7-20 | The default name `chat` sanitises to itself, so an export without a name is `chat_export.json`. |
| Export.MessageCount | js/modules/export.js:10 | The count of message records equals the number of positions that hold a message. |
| Export.SanitizeFilename | js/modules/export.js:32-38 | The four steps in source order: every character that is not an ASCII letter or digit becomes `_`, runs of `_` become one, one `_` is dropped at each end, then the name is lower-cased. The result is no longer than the input. `SanitizeSafe`, `SanitizeKeepsAlnums`, `SanitizeEmptyIff` and `SanitizeIdempotent` state its properties. |
| Export.SanitizeSafe | js/modules/export.js:32-38 | A sanitised name has only lower-case letters, digits and single underscores, none at either end. |
| Export.SanitizeKeepsAlnums | js/modules/export.js:32-38 | Without its underscores, a sanitised name is the input's letters and digits, in order, lower-cased. |
| Export.SanitizeEmptyIff | js/modules/export.js:32-38 | The sanitised name is empty iff the input has no letter or digit. |
| Export.SanitizeIdempotent | js/modules/export.js:32-38 | Sanitising twice is sanitising once. |
| Export.SafeFixed | js/modules/export.js:32-38 | A name that is already safe is kept unchanged. |
| Tallies.TallyOfCounts | js/modules/stats.js:25-27 | Counting with `(obj[k] \|\| 0) + 1` gives each key its number of occurrences. |
| Tallies.TallyOfKeys | js/modules/stats.js:42 | The keys of a tally are the distinct counted values. |
| Tallies.TallyOfTotal | js/modules/stats.js:25-27 | The counts add up to the number of values counted. |
| Tallies.Bump | js/modules/parser.js:77-78 | Bumping a key adds one to its count, leaves the others alone, and appends the key when it is new. |
| Text.TrimIsSlice | js/modules/parser.js:49 | `trim` removes exactly the leading and trailing white space. |
| Text.SplitJoin | js/modules/parser.js:35 | Joining the pieces of `split` with the separator gives back the text. |

## Left out

- Rendering a date as text (`toLocaleDateString` with weekday and month
  names) and the `Date` rollover of out-of-range months and days into the
  calendar date shown. A separator's heading is
  `Rendered(year, monthIndex, day)` with the numbers `new Date` receives.
  Whether those numbers make a valid `Date` is modelled
  (`Format.ValidDate`, after ECMAScript's `MakeDay` and `TimeClip`).
- `Format.ValidDate` checks the day count in UTC. `new Date(y, m, d)`
  reads its arguments as local time, so the local time-zone offset can move
  the first and last valid day by one; that offset is not modelled. The
  parser's own tokens are far from either end: their fields have at most
  four digits (`Format.SmallFieldsValid`).
- `Format.FormatDate`: `Number` (`Text.ToNumber`) ignores surrounding
  white space, gives 0 for a blank string and the value of a run of
  decimal digits. Anything else (signs, decimal points, exponents,
  hexadecimal) is treated as `NaN`, and the token is then kept.
- Case mapping and `toLowerCase`/`toUpperCase` cover ASCII letters only.
  No Unicode case mapping is modelled.
- Plain objects used as dictionaries are modelled as insertion-ordered
  tallies and maps. A sender or date that is an integer-like string
  (`Object.keys` lists those first) is not modelled, and neither is one
  that clashes with an `Object.prototype` member such as `constructor`.
- `Stats.Round`: `Math.round` on a floating-point quotient is modelled
  exactly on whole numbers.
- `Search.Search`: a `null` or `undefined` query is not modelled; strings
  cannot be absent here.
- `highlightText` (`js/modules/search.js:34-41`) builds HTML around
  regular-expression matches. Only `escapeRegex`, its helper, is modelled.
- The DOM: `renderChat`, `formatMessageContent` and the rest of
  `ChatRenderer`, and the page script's rendering apart from the sent test.
  `js/modules/ui.js` and `js/app.js` are not part of this model.
- The file picker and `FileReader` in `webapp.js` and the application. The
  text of the export is a parameter.
- `Export.ExportAsJson`: `JSON.stringify`, the `Blob`, the object URL and
  the download link are not modelled. The result is the payload and the
  file name. `new Date().toISOString()` is the parameter `exportDate`.
- `exportAsHTML` is a stub that only logs.
- Console logging, and the `try`/`catch` in `formatDate`, which cannot
  throw on a string.
