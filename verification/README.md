# yllmlog: the log intake, modelled and proved

yllmlog watches log files, matches their lines against rules, and keeps the matches that matter as events in a
SQLite database. This project models the intake in Dafny and proves what it guarantees: which lines end up
recorded, how often, and in which event, whatever the log writers, the socket handlers, failing statements and
crashes do in between. Beside it stand the other parts with a law of their own: schema migrations, mail text and
report windows.

`dafny verify dfyconfig.toml` checks everything.

## How it is laid out

**The state machine** (`Pipeline`). A state holds the files on disk (path to identity, bytes and an unseen
generation number), the tables, what the processor has in memory, and some history. A step is one atomic thing: an
append, a rotation or a removal by a log writer; a `logs.add` or `logs.remove` request; one durable statement of
the processor; or `Cut`, the loss of everything in memory by a crash or by any error that abandons a cycle. A step
that is not enabled changes nothing, so every sequence of steps is a run and every theorem about runs covers every
interleaving. On it stand `Delivery` (at least once, in order), `Standings` (what is judged and stored whatever service
is in hand), `Passes` (where reading begins late), `Repeats` and `Generations` (how much more than once), `Safety`
(offsets, the event index, adding and removing logs), `Runs` (what a run leaves alone) and `Grouping` (which
occurrences share an event, and what the stored times are worth).

A file is read in *passes*. A pass goes on as long as its offset is carried on within one generation, and its `start`
is the offset it began at: the first byte, unless a new generation took the place of the one being read with nothing to
show for it. That happens in two ways: the new file has the old identity and is no shorter than the stored offset at the
next poll (`Passes.Slips`), or it comes between the stat and the read of one cycle (`Passes.Swaps`). Delivery is
promised for every pass from its start, so nothing of a later generation is outside the promise; `Passes.EveryPass`
says exactly when a late start loses a line, `Passes.LatePass` that this holds in every continuation, and
`Passes.LostLine` is a run that loses one. One thing excuses a pass: its watched log is given, under it, a service for
which the rules find other lines worthy. Then nothing is promised of which lines are worthy (`Covered` fails); all the
rest holds of every tracked file: its offset, what was committed and what can be stored of it (`Standings`), and how
often (`Repeats`, `Generations`).

**The program** (`Database`, `Machine`, `Files`, `Processor`). The tables are fields of a class and the statements
of the Go code are its methods, each told by a parameter whether the database carries it out, refuses it, or carries
it out and loses the answer. `Machine.Host` ties the class and the files to a state of the machine; its `Meanwhile`
lets writers and handlers act before every statement. `Processor.RunCycle` is the Go loop. Its contract holds whatever
they do: what the cycle does is a run of the machine, its counters balance, and if it succeeds, every path that was on
disk all along, of every log that was enabled and watched all along, has been read since the cycle began and no complete
line read is left past its offset (`CycleDone`). `Coverage` draws the conclusion for the stored lines. Between cycles
`Host.Settle` chooses whether the next ones are `quiet`: nobody else acts and nothing fails. Then the cycle succeeds,
and if one log stands for one file, its effect on the tables is one poll of that file (`Intake.Polled`), for which
`Batches` proves batch independence; `Schedules` runs two programs, one with a cycle after each append and one with a
single cycle, from new databases or any equal ones, and concludes from the contracts that they end alike.
`Coverage.SomeWorld` shows that there is a machine such as the program asks for, whatever rules and hash.

**The pure parts.** `Reader` (line splitting), `Clock` and `TimeTexts` (RFC 3339 text against time, and read back),
`Regex`, `Words`, `Scans` and `Fingerprint` (the normalising rewrite), `Stamps`, `Erasure`, `IsoDates`, `Zulu` and
`Timestamps` (which timestamps it erases), `DigitBlindness` (which digits it forgets), `EventIndex` (counters against
occurrences), `Rules` and `Verdicts` (first match, and what a verdict says of the line), `LogTables` (the two log
tables), `Migrations`, `Mail`, `Reports` and `RunReports`;
`Strings`, `Numbers`, `Sums`, `Ordering`, `Options` and `Fates` serve them.

## Where the code differs from what one might expect

- `Normalize` lower-cases before it looks for timestamps, so of `[T ]` in the ISO pattern only the space can match
  (`Timestamps.IsoNeedsSpace`). A timestamp with a `T` is not erased, and as day, `T` and hour make one word they are
  not erased as numbers either: the same message in two different hours is two events, whatever else it says,
  timestamps included (`Timestamps.HoursApart`, and `Timestamps.AnHourApart` for an example). In the same pattern `+-Z`
  is a range.
- A timestamp with a space but a `Z` after the time is erased without its seconds, since `Z` is in lower case by then
  too and there is no word boundary before it: two such lines of different seconds are two events
  (`Zulu.SecondsApart`).
- In the ISO pattern the part after the date takes in whatever digits, colons, points and signs follow. After a text
  that ends in the midst of such a part, a date that follows is taken in with it and its time is left;
  `IsoDates.ErasedUnlessUnfinished` says exactly when a date, a space and a time are erased, whatever follows.
- RFC3339Nano text drops trailing zeros, so within one second text order is not time order;
  `Clock.TextOrderWithinSecond` says exactly when it is reversed, and `Clock.WholeSecondSortsLast` that the first
  instant of a second always sorts last in it.
- docs/LOG_PROCESSING.md says rotation is detected for "missing and recreated" files. The code compares identity and
  size only: a file recreated under the identity of the old one, and grown past the stored offset by the next poll,
  goes unnoticed (internal/logs/files.go:97-103), and its lines before that offset are lost (`Passes.LostLine`).
- A migration with a lower version that appears later is run after the higher ones;
  `Migrations.LaterOrder` says when the order is that of a fresh install.
- `logs.add` trims a service name at its ends only, so it may hold a newline, and then a report does not read back as
  one line for each event (`Reports.InnerNewline`). Nothing else an event prints can hold one
  (`RunReports.OnlyTheService`).
- `Add` looks its row up by the last insert id, which on the conflict path is that of an earlier insertion on the same
  connection: added again on the connection that first inserted it, a path is told of by its own row if and only if
  nothing was inserted there since, or last a row with the same id (`Database.ToldAgain`). `Database.AddAgain` adds
  `/a`, then `/b`, then `/a` again, and is told of `/b`.
- A file swapped in between stat and read under another identity than its row's begins again at the next refresh: its
  lines can be stored in two passes although nothing was interrupted (`Generations.StoredTwice`), but never in three.

## Model

| member | source | states |
|---|---|---|
| Delivery.EveryRunDeliversFrom | internal/app/processor.go:79-126 | In every state of every run, the lines stored in the present pass of a tracked, covered file, adjacent repeats collapsed, are exactly the event-worthy complete lines from where the pass began up to the committed offset, in order, and at most the one worthy line that starts there |
| Delivery.EveryRunDelivers | internal/app/processor.go:79-126 | And where the pass began at the first byte, all worthy lines of the file before the offset |
| Delivery.StepKeeps | internal/app/processor.go:85-124 | The invariant behind it survives every single step of writer, handler, processor and crash |
| Delivery.RefreshDelivers | internal/logs/files.go:95-118 | After a refresh the guarantee holds for whatever generation is then on disk: carried on where nothing rotated, for a new pass from the offset kept or from byte 0 where it did |
| Delivery.StoreDelivered | internal/app/processor.go:110-119 | Recording the next worthy line, for the first time or again after a crash, keeps the stored lines an exact prefix plus that one line |
| Delivery.CommitDelivered | internal/app/processor.go:121-123 | Committing a line's end is right exactly because it was stored last, or is not worthy |
| Standings.EveryRunStands | internal/app/processor.go:79-126 | In every run, whatever services the log of a tracked file is given: every complete line from where its pass began up to the offset was committed, once and in order; of these and the next the stored lines, adjacent repeats collapsed, are a subsequence; and they include every line that was raised, under the service in hand, when it was committed |
| Repeats.RepeatsAreBounded | internal/app/processor.go:110-124 | Over every run, the occurrences stored again in their pass, of every file and every pass, number at most the interruptions |
| Repeats.OnlyNextIsUncommitted | internal/app/processor.go:110-124 | A stored line of a tracked file's present pass that ends past the committed offset is the very next line |
| Generations.GenerationsAreOnePass | internal/logs/files.go:95-103 | In every run a generation that was not swapped in between stat and read is read in one pass |
| Generations.RunKeepsTwoPasses | internal/logs/files.go:95-103 | And in every run what is stored of any generation is of two passes at most |
| Generations.RestoredAreBounded | internal/app/processor.go:110-124 | So the occurrences whose line of its generation was stored before, in whatever pass, number at most the interruptions and the lines stored in two passes, which are of generations swapped in between stat and read |
| Generations.StoredTwice | internal/logs/files.go:95-103 | A run from the start, without interruptions, in which a line of a generation swapped in is stored in two passes |
| Safety.OffsetMoves | internal/logs/files.go:95-103 | A tracked offset never decreases, except to 0 by a refresh that detects a rotation |
| Safety.OffsetsAreBoundaries | internal/logs/reader.go:54-57 | In every run every tracked file's offset is where its pass began or just after a newline of its present generation; within its bytes, at 0 or after a newline, where the pass began at 0 |
| Passes.PassStarts | internal/logs/files.go:95-118 | A step carries a pass on with its start, or begins one at the first byte, save where a generation slips in unnoticed or is swapped in between stat and read, and then at the offset in hand |
| Passes.EveryPass | internal/logs/files.go:97-103 | Of a pass from any start, in every reachable state: what is stored is exactly what is due from there, nothing at or before the start ever is, and once the offset is past the point where lines from there and from byte 0 agree, that is all the file has due if and only if the two readings find the same worthy lines up to that point |
| Passes.NothingSkippedAtBoundary | internal/logs/files.go:97-103 | For a start at a line boundary: if and only if no worthy line lies before it |
| Passes.LatePass | internal/logs/files.go:97-103 | After an unnoticed rotation, or one between stat and read, all this holds in every continuation, from the offset in hand at that moment |
| Passes.LostLine | internal/logs/files.go:97-103 | A run from the start in which a file slips in unnoticed, is read to its end, and its worthy first line is not stored |
| Safety.EveryRunKeepsIndex | internal/events/store.go:45-98 | In every state of every run the event index agrees with everything ever recorded, and each occurrence refers to its file exactly while that file is tracked |
| Safety.EveryRunKeepsTables | migrations/001_initial.sql:13-32 | In every run, with logs added and removed between any two statements, no tracked file lacks a watched log, and keys and paths stay unique |
| Safety.OccurrencesSurvive | migrations/001_initial.sql:82-88 | No sequence of steps loses or changes a stored occurrence, save for its file reference |
| Safety.IdsAreNotReused | migrations/001_initial.sql:22-24 | A file id no longer tracked never returns in any run |
| Safety.RemovedFileIsInert | internal/logs/files.go:67-77 | Once the log of the file in hand is removed, whatever is re-added meanwhile, nothing more of that file is stored or committed |
| Safety.OtherRowsAreUntouched | internal/logs/files.go:60-79 | While a file is in hand its log may be removed and added again and its path found under a new row: in every such run no write the file in hand still causes changes that row |
| Grouping.EveryRunGroups | internal/events/fingerprint.go:18-22 | In every run, two recorded occurrences belong to one event if and only if their trimmed services and normalised lines are equal (hash injective, no NUL in service names) |
| Grouping.SameFingerprint | internal/events/fingerprint.go:18-22 | Two fingerprints are equal if and only if trimmed service and normalised line are |
| Grouping.EveryRunExtremes | internal/events/store.go:121-122 | In every run whose recordings are stamped by the clock, an event's stored first and last times lie in the very seconds of the earliest and latest instants among its occurrences, of which it counts all |
| Grouping.EveryRunWindows | internal/events/store.go:116-125 | And each window counter is the true count since the cutoff of its latest recording, the midnight read or 3600 seconds before the reading it counts from, plus the occurrences of the cutoff's own second wrongly let in, less those wrongly left out, both described exactly |
| Grouping.EveryRunRecords | internal/app/processor.go:110-119 | In every run each stored occurrence is of a line that the rules raise under its service, recorded with the verdict's severity, the line and the line trimmed, in the event of that key |
| Grouping.TimesDoNotSeparate | internal/events/fingerprint.go:18-32 | In every run two occurrences of one service whose lines differ only in a timestamp that is erased belong to one event |
| EventIndex.StoreKeepsAgreement | internal/events/store.go:63-98 | Recording keeps every event in agreement with the history: total, text minimum and maximum, window counters against its latest cutoffs, service, severity and summary of its first recording; totals sum to the table's size |
| EventIndex.OrphanKeepsAgreement | migrations/001_initial.sql:85 | Removing a log nulls references and disturbs none of that |
| EventIndex.SameEventIffSameKey | internal/events/store.go:63-85 | Two occurrences share an event if and only if their fingerprints are equal |
| EventIndex.MinIsMin | internal/events/store.go:121 | The stored first time is one of the event's times and no other is smaller |
| EventIndex.MaxIsMax | internal/events/store.go:122 | The stored last time is one of the event's times and no other is greater |
| Clock.TextOrderAcrossSeconds | internal/events/store.go:55 | For instants in different seconds of the years 0 to 9999 text order is time order |
| Clock.TextOrderWithinSecond | internal/events/store.go:55 | Within one second it is reversed if and only if the earlier fraction's printed digits are a proper prefix of the later's |
| Clock.WholeSecondSortsLast | internal/events/store.go:55 | So the first instant of a second comes, as text, after every other of that second |
| Clock.TextInjective | internal/events/store.go:55 | No two instants have the same text |
| Clock.ExtremesKeepTheirSecond | internal/events/store.go:121-122 | Text minimum and maximum of a set of instants fall in the seconds of the true ones |
| Clock.CutoffAgreesOutsideItsSecond | internal/events/store.go:116-125 | A text comparison with a cutoff agrees with time if and only if the instant is not misplaced: in the cutoff's own second, the earlier of the two printing a proper prefix of the later's fraction digits |
| Clock.FieldsOrder | internal/events/store.go:55 | Calendar fields of earlier seconds are lexicographically smaller, leap years and month lengths included |
| TimeTexts.TextReadsBack | internal/events/store.go:55 | Every stored time reads back: year, month, day, hour, minute and second stand as decimal numbers at the places RFC 3339 gives them, the fraction's digits without trailing zeros follow, the date is one of the Gregorian calendar, and the instant is made of them |
| TimeTexts.AnHourBefore | internal/events/store.go:117 | The hour's cutoff is 3600 seconds before the reading: printed with the same minute, second and fraction, and the hour before, of the same day unless that was midnight's |
| Fingerprint.NormalizeGivesNormalForm | internal/events/fingerprint.go:24-32 | Every normalised line is in normal form: no number or hexadecimal words, no upper case, single spacing, no spaces at the ends |
| Fingerprint.NormalFormHasNoNumbers | internal/events/fingerprint.go:13-14 | In a normal form no maximal word run is all digits or `0x` and hexadecimal digits |
| Fingerprint.NormalFormsAreFixed | internal/events/fingerprint.go:24-32 | Every text in normal form, a normalised line or not, is left alone by `Normalize` |
| Fingerprint.NormalizeIdempotent | internal/events/fingerprint.go:24-32 | Normalising twice is normalising once |
| Fingerprint.HexThenNumber | internal/events/fingerprint.go:28-29 | The two word passes together rewrite each maximal word on its own |
| Fingerprint.SpacesIsCollapse | internal/events/fingerprint.go:30 | The last pass replaces each maximal run of blanks by one space |
| Fingerprint.IsoNeedsNumber | internal/events/fingerprint.go:11 | A match of the ISO pattern starts with a word of four digits |
| Fingerprint.SyslogNeedsNumber | internal/events/fingerprint.go:12 | A match of the syslog pattern contains a word of digits |
| Timestamps.IsoNeedsSpace | internal/events/fingerprint.go:11 | In a text without upper case a match of the ISO pattern has a space after the date |
| Timestamps.NoBlanksNoTimestamp | internal/events/fingerprint.go:24-27 | In a line without blanks nothing is taken for a timestamp |
| Timestamps.DayAndHourSurvive | internal/events/fingerprint.go:24-32 | Every line that begins with a timestamp with a `T` keeps its day and hour through all five stages, further timestamps in it or not |
| Timestamps.HoursApart | internal/events/fingerprint.go:24-32 | So two such lines of different days or hours never normalise alike, whatever else they say |
| Timestamps.AnHourApart | internal/events/fingerprint.go:24-32 | Two such lines, an hour apart |
| Stamps.SyslogSound | internal/events/fingerprint.go:12 | What the syslog pattern matches is three letters, blanks, a day of one or two digits, blanks and a clock, between word boundaries |
| Stamps.SyslogComplete | internal/events/fingerprint.go:12 | And wherever that stands it is matched |
| Stamps.IsoMatch | internal/events/fingerprint.go:11 | The ISO pattern matches at a position if and only if there is a date, a mark, and digits, colons, points and what lies from plus to `Z`, between word boundaries; and then the longest |
| Erasure.SyslogTimesErased | internal/events/fingerprint.go:24-32 | Lines that differ only in a syslog timestamp between word boundaries, whatever stands before and after, have the same normal form, with `<time>` in its place |
| IsoDates.IsoTimesErased | internal/events/fingerprint.go:24-32 | And so for a date, a space and a time, with a fraction or offset or without, after any text that is not unfinished |
| IsoDates.ErasedUnlessUnfinished | internal/events/fingerprint.go:11 | The text before being such is exactly the condition: after any other some two timestamps give different normal forms |
| Zulu.SecondsSurvive | internal/events/fingerprint.go:24-32 | A line that begins with a date, a space, a time and a `Z` becomes `<time>`, its seconds and `z` |
| Zulu.SecondsApart | internal/events/fingerprint.go:24-32 | So two such lines of different seconds never normalise alike |
| Words.ReplaceIsMapWords | internal/events/fingerprint.go:13-14 | A leftmost-first replacement by a word pattern is a map over maximal words |
| DigitBlindness.NormalizeForgetsDigits | internal/events/fingerprint.go:24-32 | Lines that differ only in which digit stands at positions inside all-digit words normalise alike, through all five stages |
| DigitBlindness.NormalizeForgetsNumberLengths | internal/events/fingerprint.go:28-29 | Where neither timestamp pattern matches, the lengths of the numbers may differ too |
| DigitBlindness.NormalizeWithoutTimes | internal/events/fingerprint.go:24-32 | Where neither timestamp pattern matches, the normal form is the line trimmed and in lower case, each maximal word that is a number or a hexadecimal literal replaced by its mark, and each run of blanks by one space |
| Reader.ReadCompleteLines | internal/logs/reader.go:20-60 | The loop returns exactly the complete lines from the offset, nothing for missing or absent files, an error for the rest |
| Reader.ReadLoop | internal/logs/reader.go:41-59 | The reading loop, against the list of lines |
| Reader.LineLaws | internal/logs/reader.go:44-58 | Each line is cut from adjacent segments that end in one newline and hold no other, its text without the line ending; no newline is left after the last |
| Reader.LineIsItsBytes | internal/logs/reader.go:54-58 | The bytes of a line are its text and CRLF, or its text and a newline where no carriage return stands before that |
| Reader.SegmentsCoverBytes | internal/logs/reader.go:44-58 | The segments joined are the bytes from the offset through the last newline |
| Reader.Reread | internal/logs/reader.go:37-58 | Reading again from any returned end gives exactly the remaining lines |
| Reader.AppendExtends | internal/logs/reader.go:44-58 | Appended bytes extend the list and change none of its lines |
| Reader.SplitAt | internal/logs/reader.go:37-58 | A committed offset splits the lines into those before it and those still to read |
| LogTables.RefreshedOffset | internal/logs/files.go:95-103 | After a refresh the offset is within the observed size, and is kept if and only if identity is the same and the file no shorter than it |
| LogTables.RotationMeans | internal/logs/files.go:95-103 | A tracked file is found replaced if and only if its identity differs, truncated if and only if it is the same and shorter than the offset |
| LogTables.AddedRow | internal/logs/store.go:38-48 | After an addition the path has one row, its own where it was watched, under the service given and enabled; no other row and no file is changed |
| LogTables.RefreshKeepsWellFormed | internal/logs/files.go:105-137 | Inserting or updating a file row keeps keys, unique paths and the foreign key |
| LogTables.AddKeepsWellFormed | internal/logs/store.go:38-48 | So does adding a log |
| LogTables.RemoveKeepsWellFormed | internal/logs/store.go:87 | So does removing one, with its files |
| Database.Database.Add | internal/logs/store.go:31-55 | Rejects an empty or relative path; otherwise the one row that has the cleaned path, or the next new one, is written and enabled, and nothing else changes; the row returned is the one with the connection's last insert id |
| Database.ToldAgain | internal/logs/store.go:50-54 | Adding a path again on the connection that first inserted it tells of its own row if and only if that connection has inserted nothing since, or last a row, of whatever table, with the same id |
| Database.AddAgain | internal/logs/store.go:50-54 | Two paths added on one connection, then the first again: told of is the second's row |
| Database.PathRefused | internal/logs/store.go:136-145 | A path is refused if and only if it does not begin, after space, with a slash |
| Database.PathTaken | internal/logs/store.go:136-145 | Otherwise what is watched is the path without surrounding space, cleaned |
| Database.ClassifiedMeans | internal/logs/files.go:81-103 | A refresh reports a path new, replaced or truncated exactly by what the tables have of it |
| Database.Database.Remove | internal/logs/store.go:82-99 | Deletes the log that has the path, its files, and the references to them; succeeds only if there was one |
| Database.Database.List | internal/logs/store.go:57-80 | Every watched row once, in the order of their paths |
| Database.Database.UpdateOffset | internal/logs/files.go:60-79 | Writes one offset of an existing file; fails for a bad id, a negative offset or a missing row |
| Database.Database.RefreshFile | internal/logs/files.go:81-119 | Writes the path's row as observed, offset kept or reset by rotation, and returns it with the rotation found |
| Database.Database.InsertFile | internal/logs/files.go:121-137 | A new row with a fresh id and offset 0, refused without its log |
| Database.Database.MissingFiles | internal/logs/files.go:148-180 | Each row of the log whose path was not observed, exactly once, as it stands |
| Database.Database.RecordMatch | internal/rules/performance.go:10-26 | One rule's count grows by one, from nothing if need be; a bad id is refused |
| Pipeline.OneMoreMatch | internal/rules/performance.go:10-26 | No other rule's count is changed |
| Database.Database.Record | internal/events/store.go:45-99 | The recording transaction is all or nothing, with its defaults, its stored times and its two cutoffs |
| Database.StampReads | internal/events/store.go:54-61 | Its time is the occurrence's or the reading, its cutoffs the midnight read and 3600 seconds before the reading counted from |
| Database.RecordingReads | internal/events/store.go:45-56 | It writes service, summary and line as given, a severity left out as unknown, and a file where one is named |
| Database.Database.Transact | internal/events/store.go:57-98 | The transaction's statements, in order, make the index function's step, or nothing where the file row is gone |
| Machine.Host.Known | internal/app/processor.go:40-126 | Wherever the program has come, the invariant of all runs holds |
| Machine.Host.Meanwhile | internal/daemon/daemon.go:115-125 | Whatever writers and handlers do is a run of the machine that leaves the processor's position, the match counts and the number of occurrences alone, and of the file rows takes some away with their logs but adds and changes none |
| Runs.KeptLogs | internal/logs/store.go:38-48 | A log watched through a whole run keeps its path and is not disabled |
| Runs.RunGrows | internal/logs/reader.go:20-60 | Through every run what is at a path was there before, no longer than now, or came later |
| Machine.Host.RecordMatch | internal/app/processor.go:99-101 | The statement is one step of the machine, taken if and only if it takes effect |
| Machine.Host.Record | internal/app/processor.go:110-119 | Likewise for recording an event; the texts recorded are the prints of the clock readings |
| Machine.Host.UpdateOffset | internal/app/processor.go:92-94 | Likewise for committing an offset |
| Machine.Host.RefreshFile | internal/logs/files.go:81-119 | Likewise for a refresh; the row it gives was not already waiting to be read |
| Files.ExpandPath | internal/logs/files.go:194-211 | The paths on disk a watched path stands for, without repetition, in order |
| Files.ExpansionIs | internal/logs/files.go:194-215 | A watched path with an asterisk, a question mark or an opening bracket stands for what on disk it matches, any other for itself |
| Files.RefreshFile | internal/logs/files.go:81-119 | One path refreshed, whatever others do: its offset within its size, its row as told, its state waiting to be read, no other row added or changed |
| Files.RefreshFiles | internal/logs/files.go:37-58 | Whatever others do meanwhile: no row is told of twice, and every row of a log that stays watched is told of exactly once, observed as it now stands or missing and unchanged; every path that stays on disk is observed; other logs' rows are left alone |
| Files.EveryRowOnce | internal/logs/files.go:43-57 | Observed and missing states are distinct, and cover the log's rows while it is watched |
| Processor.Processor.ProcessLine | internal/app/processor.go:85-124 | One line: counted, the engine's verdict carried out, the counters balanced, and under quiet the tables exactly those of the line's meaning |
| Processor.Processor.ProcessLines | internal/app/processor.go:85-124 | All lines of a file, in order, up to the first failure |
| Processor.Processor.ProcessFile | internal/app/processor.go:79-126 | On success, whatever others do: if the log stays watched and the path on disk, the file has been read since the cycle began and no complete line read is left past its offset; no other row changes; under quiet the tables are exactly those of the lines' meaning |
| Processor.Processor.ProcessLog | internal/app/processor.go:62-74 | On success, whatever others do, that holds of every path the log stands for that stays on disk, and other logs' rows are left alone; under quiet every file is counted, and a single file's lines are polled once |
| Processor.Processor.RunCycle | internal/app/processor.go:40-77 | A cycle is a run of the machine; on success Matched = Ignored + Events <= Lines, occurrences grow by Events and match counts by Matched, on failure each is off by at most one; on success with rules, whatever others do, every path there all along, of every log enabled and watched all along, has been read since the cycle began and drained of what was read; under quiet it succeeds if the rules compile, counts the watched logs, and polls the one file where one log stands for one |
| Processor.Processor.BuildEngine | internal/app/processor.go:45-55 | The engine answers as the rule list does, whatever order it was loaded in |
| Processor.EngineAnswers | internal/rules/store.go:11-16 | The same, for every order of loading |
| Verdicts.EveryVerdict | internal/rules/engine.go:96-157 | For every rule list, service and text: the verdict is what the winning rule says, ignoring or raising with the severity of its action, and there is none if and only if no enabled rule looks at the line: contains, starts with, ends with or matches the text, or is the service or matches it |
| Verdicts.OneTextRule | internal/app/processor.go:87-90 | With one enabled rule on the text a line is raised if and only if its text contains, starts with, ends with or matches the pattern, whatever the service |
| Verdicts.OneServiceRule | internal/app/processor.go:87-90 | With one on the service, without glob characters, if and only if the service is the pattern, whatever the text |
| Verdicts.OneIgnoringRule | internal/app/processor.go:102-108 | One for ignoring ignores under the same conditions, and raises nothing |
| Verdicts.VerdictLooksAt | internal/app/processor.go:87-90 | For any list without enabled service rules the verdict does not depend on the service; with those alone, not on the text |
| Coverage.DrainedIsDelivered | internal/app/processor.go:79-126 | Once no complete line read of a covered file is left past its offset, its stored lines, adjacent repeats collapsed, are exactly all worthy complete lines read from where its pass began |
| Coverage.FinishedCycleHasDelivered | internal/app/processor.go:40-77 | So after every successful cycle, whatever others did during it, every path there all along of a log enabled and watched all along has a file with exactly the worthy lines of what was read stored, and every worthy line that was there when the cycle began is among them, unless another file has taken its place since; and whatever services the log was given, every complete line read was judged once, those raised are stored, and nothing else is |
| Coverage.SomeWorld | internal/app/processor.go:40-77 | Whatever rules and hash, there is a machine with these verdicts, keys and clock stamps |
| Intake.AfterLinesLogs | internal/app/processor.go:85-124 | Taking lines in moves one offset, to the end of the last line |
| Batches.BatchIndependence | internal/app/processor.go:79-126 | Any split of a stream into appends, cut anywhere, with a poll after each, the first of which may find a new or a replaced file, ends with the same rows, offset, match counts, occurrence lines in order, events and totals as one poll of the whole, if the first poll does not find the file cut short of its offset |
| Batches.CyclesAreBatchIndependent | internal/app/processor.go:40-77 | The same of whole cycles, as `RunCycle` promises them when left alone, where one log stands for one file |
| Schedules.RunBoth | internal/app/processor.go:40-77 | Two programs with equal tables and the same file, whatever of it was read before: one runs a cycle after each append, the other one cycle after all of them, and they end with the same tables, times apart |
| Schedules.BatchIndependent | internal/app/processor.go:40-77 | So from two new databases, whatever the rules, the file, the chunks it grows by and the readings of the clocks |
| Batches.GrownLines | internal/logs/reader.go:41-59 | The lines of a longer stream are those of the shorter and those from where they end |
| Batches.SameStore | internal/events/store.go:63-98 | Times do not influence anything stored but times and the counters taken from them |
| Rules.NewEngine | internal/rules/engine.go:70-94 | Succeeds if and only if every enabled rule compiles, and then holds the enabled rules in stable order |
| Rules.Match | internal/rules/engine.go:96-103 | The scan returns the first rule that matches |
| Rules.StableSortSorts | internal/rules/engine.go:82-92 | The sort permutes the rules into source, priority and id order |
| Rules.DecideIsBest | internal/rules/engine.go:82-103 | The answer is the least enabled matching rule, the earliest loaded of equals, and None if and only if none matches |
| Rules.EngineOrder | internal/rules/engine.go:82-92 | In terms of the rules' fields: the sorted rules come by source, overrides, created, modified, default, generated, others; of one source by rising priority number; of both by rising id |
| Rules.WinnerInFields | internal/rules/engine.go:82-103 | No rule that applies is of an earlier source than the answer, nor of its source with a lower priority number, nor of both with a lower id |
| Rules.CompilesIf | internal/rules/engine.go:105-135 | A rule compiles if and only if name and pattern are more than space, it has an action, its matcher is known, and a field or an expression that compiles is there where one is needed |
| Rules.LoadOrderIsIrrelevant | internal/rules/engine.go:70-103 | With distinct ids every permutation of the rules gives the same answer |
| Rules.DecideOneMore | internal/rules/engine.go:70-103 | A rule added to the list changes the answer exactly if it applies and nothing did or it precedes the old winner |
| Rules.EngineDecides | internal/rules/store.go:11-16 | Loading only the enabled rules, in any order, decides as the whole table does |
| Migrations.LoadMigrations | internal/db/db.go:79-116 | Succeeds if and only if every script can be read and has a positive version of its own; then the list is exactly the scripts, in strictly rising version order |
| Migrations.LoadsIf | internal/db/db.go:79-128 | Said of the files: if and only if every one that ends in `.sql` can be read and has a positive number before its first underscore, and no two the same |
| Migrations.AppliedIsInstalled | internal/db/db.go:46-116 | From an empty database, all applied: the list is exactly those files' migrations, each with its own name, content and number, their contents have been run in rising order of the numbers, and the ledger maps each number to its file's name |
| Migrations.ListUnique | internal/db/db.go:79-116 | A directory determines its list |
| Migrations.NumberedName | internal/db/db.go:118-128 | A name that starts with a number, zero-padded or not, and an underscore has that version |
| Migrations.Store.ApplyMigration | internal/db/db.go:139-156 | A script and its ledger row are applied both or neither |
| Migrations.Store.ApplyMigrations | internal/db/db.go:46-71 | Adds a prefix of the pending migrations, in version order; all of them on success, which from an empty database is a fresh install of the files; succeeds if nothing fails |
| Migrations.AttemptsKeepPrefix | internal/db/db.go:58-70 | After any number of attempts, however they ended, ledger and schema are those of a prefix of the list, each migration run once |
| Migrations.ResumptionIsOneRun | internal/db/db.go:58-70 | Once an attempt succeeds they are those of one uninterrupted run from empty |
| Migrations.LaterOrder | internal/db/db.go:58-70 | With more files later, the order of running is that of a fresh install if and only if only higher versions were added |
| Migrations.UpgradeIsFreshInstall | internal/db/db.go:58-70 | And then the upgraded database is the freshly installed one |
| Migrations.LowerVersionDiffers | internal/db/db.go:58-70 | For any two ordered lists, the second with more, and distinct scripts: a database that remembers the scripts run is upgraded to what a fresh install leaves if and only if only higher versions were added |
| Mail.NormalizeIsScan | internal/notify/smtp.go:140-144 | The three replacements are a one-pass scanner that ends lines at CRLF, CR or LF |
| Mail.NormalizedBody | internal/notify/smtp.go:140-144 | The body keeps its lines, is those lines joined by CRLF, and normalising again changes nothing |
| Mail.SanitizedHeader | internal/notify/smtp.go:134-138 | Each CR and LF of a header value becomes a space and nothing else changes |
| Mail.MessageRoundTrip | internal/notify/smtp.go:122-132 | In the message CR and LF come only in CRLF pairs, and splitting it at the first empty line gives back the four header lines and the normalised body |
| Mail.MessageHolds | internal/notify/smtp.go:122-132 | The four headers are sender, recipient and subject, in this order, each under its own name and with blanks for CR and LF, and the content type; the body has the body's lines |
| Reports.LoadEvents | internal/reports/reports.go:81-113 | The events of the half-open window, each once, in order of severity rank, then of falling total, then of falling last-seen text |
| Reports.ListedInOrder | internal/reports/reports.go:81-99 | In terms of the fields: critical before error before warning before the rest, then more occurrences first, then later sightings |
| Reports.Render | internal/reports/reports.go:115-136 | The loop prints the header and one line for each event, or the line for none |
| Reports.RowSays | internal/reports/reports.go:125-135 | An event's line holds its severity, its service or that it is unknown, its summary without surrounding space or that there is none, its total and its last sighting |
| Reports.HeaderSays | internal/reports/reports.go:115-123 | The first lines name the kind and the period, its ends printed without fractions; a line for each event follows, or the notice |
| Reports.ReportReadsBack | internal/reports/reports.go:115-136 | The body reads back as its header and exactly one line for each event, in order, or the notice for none, if and only if no listed event has a newline in its severity, service, trimmed summary or printed time |
| Reports.InnerNewline | internal/logs/store.go:36 | A service name that trimming leaves alone and with which it does not |
| RunReports.OnlyTheService | internal/app/processor.go:110-119 | In every run, of what an event prints only the service can have a newline in it |
| RunReports.RunReportReadsBack | internal/reports/reports.go:115-136 | So over the events of every run a report reads back if and only if no service among them has one |
| Reports.Generator.Generate | internal/reports/reports.go:36-71 | Rejects an unknown kind or an empty period; otherwise one row is inserted, of the window's events in order |
| Reports.WindowsPartition | internal/reports/reports.go:85 | Windows over ordered cut points are disjoint and together the whole |
| Reports.ReportsPartition | internal/reports/reports.go:81-113 | An event of the whole window is listed in exactly one of the two reports |
| Reports.PeriodsPartition | internal/reports/reports.go:95 | The same for periods of time, if neither later cut point is misplaced against the one before |
| Reports.ReversedPeriodIsEmpty | internal/reports/reports.go:95 | Where one is, the period between them lists nothing |
| Reports.WindowIsTime | internal/reports/reports.go:95 | The text window is the window in time, save that each cut point the event is misplaced against counts the other way |

## Left out

- Files.ExpandPath: directories and failing stats are failures of the call.
- Files.RefreshFile: stat, lookup and write of one path are one step. Handlers may act between the lookup and the
  write; a removal there has the effect of one just after, and an addition touches no file row.
- Reader.ReadCompleteLines: opening and reading one file is one step; a file swapped between stat and read begins a pass
  at the offset in hand, and is not a partial read.
- Processor.Processor.LoadEnabled: promises the enabled rules in some order, which is all the engine needs.
- Processor.Processor.RunCycle: a path that comes or goes during the cycle, or one of a log that does, is promised
  nothing by that cycle; and lines appended after a file was read are left for the next. The rule list is fixed for a
  run.
- Batches.BatchIndependence: is about one file, since with several the polls decide how their lines interleave. So are
  Batches.CyclesAreBatchIndependent and Schedules.RunBoth.
- Database.Add: which connection of the pool carries a statement is a parameter; the insertions of reports and
  migrations, which move the last insert id of theirs too, are among the arbitrary ones of Database.ToldAgain.
- Grouping.EveryRunGroups: SHA-256 is a function assumed injective.
- Delivery.EveryRunDeliversFrom: excused passes, as described above, are outside the promise.
- Text is one character to a byte; case folding and white space are those of ASCII, and dates outside the years 0 to
  9999 are not modelled.
- Rule regular expressions, service globs, file globs and `filepath.Clean` are uninterpreted; the five fingerprint
  patterns are modelled item by item with leftmost-first matching.
- The time zone: local midnight is a reading of the clock, not computed.
- SQLite itself: statements and transactions are atomic; a foreign key, a unique key and a cascade act as declared;
  ids come from AUTOINCREMENT; migration scripts act on the schema and leave the ledger's rows alone.
- `sort.SliceStable`, `sort.Slice`, `sort.Strings` and SQL ordering are the insertion sorts they are equal to.
- `CURRENT_TIMESTAMP` columns, service names stored as NULL when empty, and columns nothing here reads.
- The socket server and client, JSON, the command line, configuration files, the status request, the ticker and
  shutdown: only which database steps interleave matters to the theorems.
- The LLM client, the SMTP dialogue, `events.List` and `events.Get`, and the packages without code of their own: they
  would only add easy members.
