# Duty shifts of the municipal police back office, in Dafny

This project models the duty-shift ("turno") subsystem of the
`segretaria-digitale-backend` service, together with the small parsers that
sit beside it:

* the shift types and the payload validator (`TurnoSchema`);
* the shift table and its CRUD operations: upsert by (user, day), removal by
  id, and the three day-ordered listings (`TurnoStore`, a class over the
  table with the calendar it keeps in step);
* the projection of a shift onto the "Turni di Servizio" Google calendar:
  the event id, the start and end chosen from up to three intervals, the
  timestamp text, the colour, and the update-or-insert / delete protocol
  against a calendar whose answers are a parameter (`Gcal`);
* the spreadsheet import of shifts (`ExcelImport`): column rules, user
  resolution, type normalisation, the interval columns, e-mail scrubbing of
  notes, and the first-error-aborts row loop;
* the weekly service-timetable report built from the imported rows
  (`WeeklyReport`): agent columns, the week window, the per-day grid, the
  notes of each day, the line order;
* the dashboard's upcoming list (`Dashboard`): events, to-dos and calendar
  entries of the window, the shift-title filter, the stable time sort and the
  final ISO conversion;
* the report-state filter of the reports route (`Segnalazioni`), the PDF
  upload and download guards (`Pdfs`) and the horizontal-signage sheet reader
  (`SignageImport`).

Supporting modules: `Wrappers` (Option, Result, the HTTP error), `Text`
(Python's `strip`, `lower`, `upper`, `split`, `join`, `str(n)`, zero padding,
string order, `html.escape`), `Dates` (the proleptic Gregorian day count,
weekdays, ISO and `dd/mm/yyyy` texts, `HH:MM`) and `Sorting` (a stable
insertion sort standing for Timsort and `ORDER BY`, and list comprehensions
as `Filter`).

Dates are day numbers since 1970-01-01, times are (hour, minute, second)
triples, and the dashboard's datetimes are integer seconds. Everything the
source obtains from outside — the database rows, the calendar service's
answers, the local UTC offset, Python's salted `hash`, the files on disk, the
current time — is a parameter.

## Model

| member | source | states |
|---|---|---|
| TurnoSchema.FromValue | app/schemas/turno.py:8-14 | `TipoTurno(s)` succeeds exactly on the six values and gives back the member with that value |
| TurnoSchema.ValueRoundTrip | app/schemas/turno.py:8-14 | every type is found again from its value |
| TurnoSchema.WorkedTypes | app/schemas/turno.py:17-22 | only NORMALE and STRAORD are outside the day-off set |
| TurnoSchema.DayOffValues | app/schemas/turno.py:17-22 | the day-off test of a stored string (TurnoSchema.DayOffValue): a stored type string is a day-off value exactly when it is FERIE, RIPOSO, FESTIVO or RECUPERO |
| TurnoSchema.CheckRequiredTimes | app/schemas/turno.py:36-41 | a payload is accepted exactly when its type is a day off or both ends of interval 1 are given; accepted payloads are unchanged; otherwise the fixed error |
| TurnoSchema.DayOffNeedsNoTimes | app/schemas/turno.py:36-41 | a day-off payload with no times at all is accepted |
| TurnoSchema.LaterIntervalsIgnored | app/schemas/turno.py:36-41 | intervals 2 and 3 never change the verdict |
| TurnoSchema.EndBeforeStartAccepted | app/schemas/turno.py:36-41 | a shift ending before it starts passes validation |
| TurnoStore.FindKey | app/crud/turno.py:36-40 | `filter_by(user_id, giorno).first()`: the first row with the key, or none |
| TurnoStore.FindId | app/crud/turno.py:76 | `filter_by(id).first()`: the first row with the id, or none |
| TurnoStore.Apply | app/crud/turno.py:45-53 | the payload's six times, type value and note overwrite the row; id, user and day stay |
| TurnoStore.UpsertRows | app/crud/turno.py:36-58 | the existing row for the key is overwritten in place and keeps its id, or one new row with the fresh id is appended |
| TurnoStore.UpsertKeepsKeysUnique | app/crud/turno.py:36-58 | upsert never creates a second row for a (user, day) key |
| TurnoStore.UpsertKeepsIdsUnique | app/crud/turno.py:41-42 | with a fresh id for a new row, ids stay unique |
| TurnoStore.UpsertOthersUnchanged | app/crud/turno.py:36-58 | rows with another key are untouched, in place, and the table grows by at most one row |
| TurnoStore.UpsertOneRowPerKey | app/crud/turno.py:36-58 | after an upsert the only row with the payload's key is the written row |
| TurnoStore.UpsertSameKeyTwice | app/crud/turno.py:36-58 | a second upsert for the same key rewrites the same row: same id, no row added |
| TurnoStore.UpsertIdempotent | app/crud/turno.py:25-68 | upserting the same payload twice leaves the table as one upsert did |
| TurnoStore.RemoveAt | app/crud/turno.py:90-91 | deleting a row removes exactly that row |
| TurnoStore.RemoveKeepsUnique | app/crud/turno.py:90-91 | deleting a row keeps ids and keys unique |
| TurnoStore.DropId | app/crud/turno.py:72-91 | the table without the removed id holds no row with that id |
| TurnoStore.RemoveIsDrop | app/crud/turno.py:76-91 | with unique ids, deleting the row found by id drops exactly that id and keeps the order of the rest |
| TurnoStore.DropAbsent | app/crud/turno.py:76-80 | dropping an id no row has changes nothing |
| TurnoStore.Query | app/crud/turno.py:95-119 | a filtered listing holds exactly the rows that pass, ordered by day |
| TurnoStore.Store.constructor | app/crud/turno.py:25-91 | an empty table over the given users and calendar |
| TurnoStore.Store.Upsert | app/crud/turno.py:25-68 | unknown user: 400 "Unknown user" and nothing changes; otherwise the table becomes `UpsertRows`, and the calendar receives the sync of the written row unless its type is RECUPERO, a calendar failure being logged, not raised |
| TurnoStore.Store.Remove | app/crud/turno.py:72-91 | unknown id: 404 "Turno non trovato" and nothing changes; otherwise the calendar delete is attempted first, its failure logged, then the row is dropped |
| TurnoStore.Store.GetTurni | app/crud/turno.py:95-102 | exactly the user's shifts, each as often as in the table, ordered by day |
| TurnoStore.Store.ListAll | app/crud/turno.py:106-108 | every shift, ordered by day |
| TurnoStore.Store.ListBetween | app/crud/turno.py:112-119 | exactly the shifts from start to end, both included, each as often as in the table, ordered by day |
| Gcal.RemoveHyphens | app/services/gcal.py:53 | no hyphen is left, and hyphen-free text is unchanged |
| Gcal.MakeEventId | app/services/gcal.py:51-53 | `shift-` then the id without hyphens; the only hyphen is the prefix's |
| Gcal.MakeEventIdSame | app/services/gcal.py:51-53 | two shifts share an event id exactly when their ids agree once hyphens are dropped |
| Gcal.MakeEventIdInjective | app/services/gcal.py:51-53 | on hyphen-free ids the event id is injective |
| Gcal.MakeEventIdCollision | app/services/gcal.py:51-53 | ids differing only in hyphen placement collide |
| Gcal.TzSuffix | app/services/gcal.py:59-66 | six characters `±HH:MM`; `+00:00` without an offset; the sign follows the offset |
| Gcal.TzSuffixRoundTrip | app/services/gcal.py:59-66 | the suffix reads back as the offset in minutes, no offset as 0 |
| Gcal.TzSuffixExamples | app/services/gcal.py:59-66 | +09:30, -05:00 and +00:00 for 570, -300 and 0 minutes |
| Gcal.IsoDt | app/services/gcal.py:56-67 | ISO day, `T`, `HH:MM`, `:00`, zone suffix, 25 characters in all |
| Gcal.IsoDtDropsSeconds | app/services/gcal.py:67 | the seconds of the time never reach the timestamp |
| Gcal.IsoDtInjective | app/services/gcal.py:56-67 | the timestamp determines the day, hour, minute and offset |
| Gcal.FirstNonNull | app/services/gcal.py:70-71 | the first value that is set, none exactly when all are missing; the event start (Gcal.StartOf) is the first of `inizio_1`, `inizio_2`, `inizio_3` that is set |
| Gcal.LastNonNull | app/services/gcal.py:74-75 | the last value that is set, none exactly when all are missing |
| Gcal.EndIsFirstEnd | app/services/gcal.py:113 | the event end (Gcal.EndOf): ends are passed already reversed, so the end is the first end that is set: `fine_1` whenever it is set |
| Gcal.EndIgnoresOvertime | app/services/gcal.py:113 | a shift 08:00-12:00 with overtime 19:00-21:00 ends at 12:00 on the calendar |
| Gcal.Colors | app/services/gcal.py:80 | the eleven colour ids "1" to "11": the k-th reads back as k + 1 and has one digit below 10, two from 10 on, so no leading zero |
| Gcal.ColorForUser | app/services/gcal.py:78-82 | the colour is one of "1".."11" |
| Gcal.EveryColorReachable | app/services/gcal.py:81-82 | every colour is reached for some hash value |
| Gcal.TitleName | app/services/gcal.py:115 | the name when non-empty, else the e-mail up to its first `@` (the first part of the split) |
| Gcal.EventBody | app/services/gcal.py:109-123 | a body exists exactly when a start and an end are set; its id, summary, description, times, and the user's colour |
| Gcal.Serve | app/services/gcal.py:127-140 | one calendar call is logged; a failed call changes no event; an update needs the event, an insert needs its absence, a delete removes |
| Gcal.DeleteEffect | app/services/gcal.py:145-162 | no calendar id: not configured, nothing done; else one delete, a 404 counting as success |
| Gcal.PutEvent | app/services/gcal.py:126-142 | update first; after a 404 or 400 an insert of the same body; any other status is raised |
| Gcal.SyncEffect | app/services/gcal.py:86-142 | no calendar id: not configured; a day-off type deletes; otherwise the body is put, or the missing start or end fails |
| Gcal.SyncCalls | app/services/gcal.py:126-142 | a worked shift's calls are the update, then the insert only after 404 or 400 |
| Gcal.PutEventCalls | app/services/gcal.py:126-142 | for any body: the log gains the update, plus the insert only after a 404 or 400; another status is raised and leaves the events as they were |
| Gcal.DayOffOnlyDeletes | app/services/gcal.py:99-102 | a day-off shift makes exactly one call, the delete of its event |
| Gcal.UnknownTipoIsWorked | app/services/gcal.py:94-99 | an unrecognised type string is synced like a worked shift |
| Gcal.DeleteStatuses | app/services/gcal.py:160-162 | a delete tolerates 404 and raises 400 |
| Gcal.ServeFrame | app/services/gcal.py:127-140 | a call touches no event but the one it names |
| Gcal.PutEventFrame | app/services/gcal.py:126-142 | putting a body touches no other event |
| Gcal.SyncFrame | app/services/gcal.py:86-142 | syncing a shift leaves every other event as it was, whatever the service answers |
| Gcal.PutEventHealthy | app/services/gcal.py:126-142 | with a service that fails nothing it can do, the body ends up stored under its id |
| Gcal.SyncEstablishesEvent | app/services/gcal.py:86-142 | with such a service a worked shift's event ends up holding its body, whether it existed or not |
| Gcal.DeleteRemovesEvent | app/services/gcal.py:145-162 | with such a service a delete succeeds and no event is left for the shift |
| Gcal.SyncIdempotent | app/services/gcal.py:86-142 | with such a service a second sync of the same shift changes no event |
| Gcal.DeleteTwice | app/services/gcal.py:145-162 | deleting the same shift's event a second time changes no event |
| Gcal.PutEventTwice | app/services/gcal.py:126-142 | with a service that fails nothing it can do, putting the same body again changes no event |
| Gcal.Calendar.constructor | app/services/gcal.py:125 | a calendar holding the given events, with an empty call log |
| Gcal.Calendar.Execute | app/services/gcal.py:127-140 | one call changes the calendar as `Serve` says |
| Gcal.DeleteShiftEvent | app/services/gcal.py:145-162 | the calendar and the error are those of `DeleteEffect` |
| Gcal.SyncShiftEvent | app/services/gcal.py:86-142 | the calendar and the error are those of `SyncEffect` |
| Dates.IsoDate | app/services/gcal.py:67 | `YYYY-MM-DD`: dashes at positions 4 and 7, and the three digit fields read back as the year, month and day |
| Dates.IsoDateInjective | app/services/gcal.py:67 | distinct days have distinct ISO texts |
| Dates.DayKey | app/services/excel_import.py:247 | `dd/mm/yyyy`, ten characters |
| Dates.DayKeyInjective | app/services/excel_import.py:247-248 | distinct days have distinct keys, so grouping by key is grouping by day |
| Dates.HourMinute | app/services/gcal.py:67 | `HH:MM` whose digits read back as the hour and minute |
| Dates.HourMinuteExact | app/services/excel_import.py:213 | two times print alike exactly when hour and minute agree |
| Dates.WeekStart | app/services/excel_import.py:237-239 | a Monday no later than the day and at most six days before it |
| Dates.MondayExample | app/services/excel_import.py:238 | 2023-01-02 is a Monday and opens the week of 2023-01-08 |
| Dates.DayKeyOrderDiffers | app/services/excel_import.py:362 | the text order of `dd/mm/yyyy` keys disagrees with day order across months |
| ExcelImport.Clean | app/services/excel_import.py:36-44 | NaN, blank text and any casing of "nan" become None; other text is stripped; other cells unchanged |
| ExcelImport.CleanIdempotent | app/services/excel_import.py:36-44 | cleaning twice is cleaning once |
| ExcelImport.CleanText | app/services/excel_import.py:40-43 | a text cell is kept, stripped, exactly when it is neither blank nor "nan" |
| ExcelImport.NotNan | app/services/excel_import.py:47-52 | false exactly for None and NaN |
| ExcelImport.Scrub | app/services/excel_import.py:55-63 | the `\S+@\S+` substitution deletes each e-mail token whole |
| ExcelImport.ScrubNoEmail | app/services/excel_import.py:55-63 | what the substitution leaves has nothing left for the pattern to match |
| ExcelImport.ScrubPlain | app/services/excel_import.py:55-63 | text without `@` is left as it is |
| ExcelImport.ScrubTokens | app/services/excel_import.py:55-63 | scrubbing deletes exactly the e-mail tokens and keeps every other token in order |
| ExcelImport.StripEmails | app/services/excel_import.py:58-64 | empty gives empty; otherwise the scrubbed text, stripped, holding no e-mail |
| ExcelImport.StripEmailsTokens | app/services/excel_import.py:58-64 | the words of the result are the words of the input that are not e-mail addresses |
| ExcelImport.FindByName | app/services/excel_import.py:26-30 | the first user whose name equals the text, case-insensitively |
| ExcelImport.GetUserId | app/services/excel_import.py:19-33 | no session or no match raises the fixed messages; otherwise the id of the first match |
| ExcelImport.GetUserIdNormalises | app/services/excel_import.py:25-28 | surrounding whitespace and letter case do not matter |
| ExcelImport.RowMessage | app/services/excel_import.py:111-156 | the row problems' texts (ExcelImport.Detail); "Row ", then digits that read back as the row number, then ": " and the problem's text |
| ExcelImport.HttpError | app/services/excel_import.py:95-156 | every import error but a crash is a 400: the fixed text for a missing user column, "Missing columns: " and the set for missing columns, the numbered row message for a row failure; a crash has no HTTP detail |
| ExcelImport.Renamed | app/services/excel_import.py:81-82 | a "Data" column is read as "Giorno" |
| ExcelImport.ColumnCheck | app/services/excel_import.py:93-106 | no user column: that error; otherwise the missing columns are exactly the required ones (Giorno, Inizio1, Fine1 and "User ID", preferred, or "Agente") absent from the sheet |
| ExcelImport.Pair | app/services/excel_import.py:171-192 | an optional interval is set only when both cleaned cells are present |
| ExcelImport.RowUser | app/services/excel_import.py:112-138 | a blank identifier is refused first; an id is accepted as given when there is no session or some user has it, else "Unknown user ID"; a name needs a session and is resolved by `get_user_id`, whose error becomes the row's |
| ExcelImport.FloatUserIdUnknown | app/services/excel_import.py:120-128 | an id cell read as the float 5.0 is looked up as "5.0", so the user stored as "5" is reported unknown |
| ExcelImport.RowTipo | app/services/excel_import.py:140-147 | the type text (ExcelImport.RawTipo) is the cleaned cell or "NORMALE"; a crash exactly when the cell is not text; otherwise accepted exactly when the stripped, upper-cased text is a type value, and that type, else "Invalid 'Tipo' value" with the raw text |
| ExcelImport.BlankTipoIsNormale | app/services/excel_import.py:140 | a blank or missing type reads as NORMALE |
| ExcelImport.TipoCaseInsensitive | app/services/excel_import.py:142 | " ferie " reads as FERIE |
| ExcelImport.Payload | app/services/excel_import.py:158-192 | the payload of an accepted row: user, day, cleaned times, type value, note or "" |
| ExcelImport.OvertimePrecedence | app/services/excel_import.py:179-185 | filled overtime cells win over Inizio3/Fine3 |
| ExcelImport.ThirdIntervalFallback | app/services/excel_import.py:186-192 | without them, interval 3 comes from Inizio3/Fine3 |
| ExcelImport.ParseRow | app/services/excel_import.py:110-194 | the user check first, then the type, then interval 1 for worked types; an accepted row gives the payload of the resolved user and type |
| ExcelImport.ParseRowAccepts | app/services/excel_import.py:110-194 | a row is accepted exactly when its user resolves, its type is valid and a worked type has both interval-1 cells |
| ExcelImport.ParsedRowValid | app/services/excel_import.py:150-156 | an accepted row has a valid type and, when worked, its first interval |
| ExcelImport.MissingUserFirst | app/services/excel_import.py:113-118 | a missing user cell is reported before anything else |
| ExcelImport.ParseExcel | app/services/excel_import.py:67-196 | the column error, or every payload in row order, or the first bad row's error |
| ExcelImport.ParseRows | app/services/excel_import.py:108-196 | every payload in order when all rows parse, else the first row error |
| ExcelImport.MapUntilError | app/services/excel_import.py:110-194 | the loop applies the row step in order and stops at the first error |
| WeeklyReport.ParseClockRendered | app/services/excel_import.py:215-217 | `strptime` of a text cell (WeeklyReport.ParseClock): `HH:MM` and `HH:MM:SS` text reads back as the time it shows |
| WeeklyReport.FmtTime | app/services/excel_import.py:208-221 | `fmt` (WeeklyReport.Fmt): a time, its `HH:MM` text and its `HH:MM:SS` text render alike, without seconds |
| WeeklyReport.FmtIdempotent | app/services/excel_import.py:208-221 | rendering what `fmt` produced gives it back |
| WeeklyReport.FmtKeepsOtherText | app/services/excel_import.py:220 | text that is not a time of day is shown unchanged |
| WeeklyReport.Segments | app/services/excel_import.py:255-263 | the first interval when both cells are truthy, the second and third when both are set, the third tagged as overtime |
| WeeklyReport.DayOffCellIgnoresTimes | app/services/excel_import.py:252-253 | the agent's cell (WeeklyReport.CellText): a day-off cell shows only its type |
| WeeklyReport.WorkedCellEmpty | app/services/excel_import.py:254-264 | the agent's cell (WeeklyReport.CellText): a worked cell is empty exactly when no interval is complete |
| WeeklyReport.IntervalOfTexts | app/services/excel_import.py:257 | an interval given as `HH:MM` / `HH:MM:SS` texts renders as the times it spells |
| WeeklyReport.OvertimeCell | app/services/excel_import.py:255-264 | first interval and tagged overtime joined by `<br>` |
| WeeklyReport.Distinct | app/services/excel_import.py:235 | `unique`: each element of the input exactly once |
| WeeklyReport.DistinctOrder | app/services/excel_import.py:235 | `unique` lists the elements in the order of their first appearance |
| WeeklyReport.SortStrings | app/services/excel_import.py:235 | strings in code-point order, a permutation of the input |
| WeeklyReport.AgentsSpec | app/services/excel_import.py:235 | `agents` (WeeklyReport.Agents): the agent columns are the rows' non-empty names, each once, in code-point order |
| WeeklyReport.MinDay | app/services/excel_import.py:237 | the earliest day of the rows |
| WeeklyReport.WindowSpec | app/services/excel_import.py:237-239 | the week runs from the Monday of the earliest day to the Sunday after it |
| WeeklyReport.GridDomain | app/services/excel_import.py:246-248 | `by_date` after the row loop (WeeklyReport.GridOf): the grid has a row for exactly the days written |
| WeeklyReport.GridCell | app/services/excel_import.py:266-267 | `by_date` (WeeklyReport.GridOf): last write wins: a cell holds the last row's text for that agent and day, or "" |
| WeeklyReport.GridRowDomain | app/services/excel_import.py:248 | when every written agent is a column, each day's row has exactly the agent columns |
| WeeklyReport.GroupByEntries | app/services/excel_import.py:297-315 | grouping notes by day then looking a day up is filtering the sources for that day |
| WeeklyReport.CleanNote | app/services/excel_import.py:269-271 | a note exactly when e-mail stripping leaves text; it unescapes to that text and is listable |
| WeeklyReport.NotesOfEntries | app/services/excel_import.py:268-271 | `notes` after the row loop (WeeklyReport.NotesOf): a day's record notes are its rows' notes in row order |
| WeeklyReport.RowNote | app/services/excel_import.py:268-271 | a row gives a note only when its `note` is truthy, and then exactly the cleaned note, which is listable |
| WeeklyReport.GcalNote | app/services/excel_import.py:285-299 | a note exactly when the event is not skipped, has a start day and a title that cleans to a note: that day's key and that note |
| WeeklyReport.PublicNote | app/services/excel_import.py:303-315 | a note exactly when the event is public, in the week, and its title cleans to a note: its day's key and that note |
| WeeklyReport.DayKeyRoundTrip | app/services/excel_import.py:363 | a day key reads back as its day |
| WeeklyReport.DayOrderSpec | app/services/excel_import.py:362 | `sorted(by_date.keys())` (WeeklyReport.DayOrder): the day order lists each written day once, in code-point order of the keys |
| WeeklyReport.ReportWindow | app/services/excel_import.py:237-241 | the report (WeeklyReport.ReportOf): the week starts on a Monday no later than any row's day and holds the earliest day |
| WeeklyReport.ReportAgents | app/services/excel_import.py:235 | the columns are the rows' non-empty agent names, each once, sorted |
| WeeklyReport.ReportDaysSorted | app/services/excel_import.py:362 | the lines are ordered by the text of their keys, each day once |
| WeeklyReport.ReportDaysRows | app/services/excel_import.py:246-248 | the report (WeeklyReport.ReportOf): there is a line for exactly the days that have a row |
| WeeklyReport.ReportLineWeekday | app/services/excel_import.py:352-365 | the weekday name of a key (WeeklyReport.WeekdayName): each line is headed by the Italian weekday of its day |
| WeeklyReport.ReportLineCells | app/services/excel_import.py:366-367 | one cell per agent: the last row's text for that agent and day, or "" |
| WeeklyReport.CollectCells | app/services/excel_import.py:366-367 | the inner loop yields one cell per agent column, in column order, "" where the agent has no cell that day |
| WeeklyReport.ReportLineNotes | app/services/excel_import.py:368 | record notes, then calendar notes, then public-event notes |
| WeeklyReport.ReportNotesClean | app/services/excel_import.py:268-271 | every listed note is non-empty, holds no `<` or `>`, and unescapes to trimmed text without e-mail addresses |
| WeeklyReport.MisorderedAcrossMonths | app/services/excel_import.py:362 | 1 February 2023 is listed before 30 January 2023 in a week holding both |
| WeeklyReport.FillGrid | app/services/excel_import.py:246-271 | the row loop builds the grid and record notes of the fold |
| WeeklyReport.GroupNotes | app/services/excel_import.py:285-315 | the note loops build the grouping of the fold |
| WeeklyReport.BuildLines | app/services/excel_import.py:362-374 | the day loop builds one line per day, in key order |
| WeeklyReport.BuildReport | app/services/excel_import.py:223-374 | the aggregation computed step by step equals the report function |
| Text.Strip | app/services/segnaletica_orizzontale_import.py:21 | `strip`: a trimmed slice of the input, empty exactly when the input is blank |
| Text.StripIdempotent | app/services/segnaletica_orizzontale_import.py:27-28 | stripping twice is stripping once |
| Text.Split | app/routes/segnalazioni.py:39 | `split`: no part holds the separator and joining the parts gives the input |
| Text.SplitJoin | app/routes/segnalazioni.py:39 | splitting a join of separator-free parts gives the parts back |
| Text.HtmlEscape | app/services/excel_import.py:271 | no markup or quote character survives escaping |
| Text.UnescapeEscape | app/services/excel_import.py:271 | escaping loses nothing: unescaping gives the text back |
| Sorting.SortSorted | app/routes/dashboard.py:69 | the sort is ordered and a permutation |
| Sorting.SortStable | app/routes/dashboard.py:69 | tied items keep their input order |
| Sorting.Filter | app/routes/dashboard.py:25-32 | a comprehension keeps exactly the elements that pass |
| Dashboard.TodoItemsOf | app/routes/dashboard.py:37-41 | every to-do becomes one item, in order |
| Dashboard.CollectTodos | app/routes/dashboard.py:34-41 | the loop yields the to-dos of the window, converted, in order |
| Dashboard.TodoItemsShape | app/routes/dashboard.py:34-41 | `todo_items` (Dashboard.TodoItems): listed to-dos lie in the window, carry no `user_id` and are tagged "todo" |
| Dashboard.ClockLen | app/routes/dashboard.py:54 | the length of the `\d{1,2}:\d{2}` prefix, 0 when none |
| Dashboard.MatchWho | app/routes/dashboard.py:54 | the regex's group 2, or no match |
| Dashboard.MatchWhoRegex | app/routes/dashboard.py:54 | on a stripped title, a match exists exactly when the title has the pattern's shape, and the group is the text after the whole whitespace run |
| Dashboard.MatchedShape | app/routes/dashboard.py:54 | a group found is preceded by a clock and a whitespace run |
| Dashboard.OtherNames | app/routes/dashboard.py:46-50 | exactly the stripped, lowered non-empty names of the other users |
| Dashboard.MeName | app/routes/dashboard.py:45 | the user's name is trimmed and has no capital letter; taken from the e-mail it holds no `@` |
| Dashboard.ShiftTitleIncluded | app/routes/dashboard.py:52-57 | `include_event` (Dashboard.IncludeEvent): a shift-shaped title is kept exactly when its name is the user's |
| Dashboard.PlainTitleIncluded | app/routes/dashboard.py:58-60 | `include_event` (Dashboard.IncludeEvent): any other title is dropped exactly when it is another user's name |
| Dashboard.PlainTitleKept | app/routes/dashboard.py:52-60 | a trimmed title that does not open with a digit is kept when no other user has a name |
| Dashboard.GoogleItemsShape | app/routes/dashboard.py:62-66 | `gcal_items` compared as instants (Dashboard.GoogleItems): calendar items lie in the window, pass the title filter and are tagged "google" |
| Dashboard.EventItemsShape | app/routes/dashboard.py:25-32 | `ev_items` (Dashboard.EventItems): event items lie in the window and are tagged "event" |
| Dashboard.CombinedShape | app/routes/dashboard.py:68 | `combined` (Dashboard.Combined): every combined item lies in the window |
| Dashboard.MergedSorted | app/routes/dashboard.py:69 | the sort (Dashboard.Merged): the sorted list is in time order and holds exactly the combined items |
| Dashboard.MergedTies | app/routes/dashboard.py:68-69 | items due together keep the order events, to-dos, calendar entries, each in its own order |
| Dashboard.MergedShape | app/routes/dashboard.py:69 | every sorted item lies in the window |
| Dashboard.ToIso | app/routes/dashboard.py:72-73 | a datetime becomes its ISO text; nothing else changes |
| Dashboard.ConvertTimes | app/routes/dashboard.py:71-73 | the loop rewrites each item in place to its ISO form |
| Dashboard.UpcomingTimes | app/routes/dashboard.py:22-74 | the answer on instants (Dashboard.Upcoming): every answered item carries the ISO text of a time in the window, in ascending order |
| Dashboard.CombineSources | app/routes/dashboard.py:25-68 | the three sources concatenated |
| Dashboard.UpcomingEvents | app/routes/dashboard.py:17-74 | the answer is the merged list with every time converted |
| Dashboard.GoogleItemsAsWritten | app/routes/dashboard.py:62-66 | as written, the calendar filter raises `TypeError` exactly when some entry is timed (offset-aware); with only all-day entries it is the filter on instants |
| Dashboard.UpcomingAsWritten | app/routes/dashboard.py:17-74 | as written, the request fails exactly when the calendar lists a timed entry; otherwise the answer on instants |
| Dashboard.TimedEntryCrashes | app/routes/dashboard.py:62-66 | one timed meeting an hour ahead makes the route as written raise, where the comparison of instants lists it |
| Segnalazioni.StatoOf | app/schemas/segnalazione.py:12-15 | the state whose value is exactly the text, case-sensitively, or none |
| Segnalazioni.StatoRoundTrip | app/schemas/segnalazione.py:12-15 | every state reads back from its value |
| Segnalazioni.PartsSpec | app/routes/segnalazioni.py:39 | the parts of the query (Segnalazioni.Parts): the parts are non-empty, stripped and comma-free |
| Segnalazioni.States | app/routes/segnalazioni.py:41 | all states when every part is one, else the first part that is not |
| Segnalazioni.ParseStati | app/routes/segnalazioni.py:39-43 | accepted exactly when every part is a state value; else 400 "<repr of an invalid part> is not a valid StatoSegnalazione" |
| Segnalazioni.QuoteFor | app/routes/segnalazioni.py:41-43 | `repr` quotes with `"` exactly when the text holds `'` and no `"` |
| Segnalazioni.PyRepr | app/routes/segnalazioni.py:41-43 | `repr` of the part: between the chosen quotes, and its body reads back as the part |
| Segnalazioni.ReprBodyUnescape | app/routes/segnalazioni.py:41-43 | unescaping the escaped body gives the text back |
| Segnalazioni.PlainRepr | app/routes/segnalazioni.py:41-43 | text without `'`, backslash or control characters is shown between single quotes as it is |
| Segnalazioni.SingleQuoteRepr | app/routes/segnalazioni.py:41-43 | a part with `'` and no `"` is shown between double quotes |
| Segnalazioni.BackslashRepr | app/routes/segnalazioni.py:41-43 | a backslash in a part is doubled |
| Segnalazioni.BlankQuery | app/routes/segnalazioni.py:39-43 | a query of commas and blanks selects nothing and is accepted |
| Segnalazioni.JoinedParts | app/routes/segnalazioni.py:39 | comma-joined state values split back into those values |
| Segnalazioni.JoinedStates | app/routes/segnalazioni.py:39-43 | comma-joined state values are accepted and give those values back |
| Pdfs.CheckUpload | app/routes/pdfs.py:24-25 | accepted exactly when the content type is `application/pdf`; else 400 "Il file deve essere un PDF" |
| Pdfs.PathName | app/routes/pdfs.py:36 | the final path component holds no `/` and is not `.` |
| Pdfs.BareName | app/routes/pdfs.py:36-37 | a name is its own final component exactly when it has no `/` and is not `.` |
| Pdfs.ParentPassesGuard | app/routes/pdfs.py:36-39 | `..` passes the guard |
| Pdfs.GetPdf | app/routes/pdfs.py:30-45 | served exactly when the name is bare and the file exists, as a PDF under the root; else 404 |
| Pdfs.ServedUnderRoot | app/routes/pdfs.py:41-45 | a served path is the root, a slash and a name without a slash |
| SignageImport.LowerCols | app/services/segnaletica_orizzontale_import.py:8 | the keys are the lowered headers, each mapped to a header that lowers to it |
| SignageImport.LowerColsLast | app/services/segnaletica_orizzontale_import.py:8 | among headers that lower alike, the last is kept |
| SignageImport.Missing | app/services/segnaletica_orizzontale_import.py:9-10 | exactly the required columns no header names |
| SignageImport.RequiredCols | app/services/segnaletica_orizzontale_import.py:11-15 | the two headers when neither is missing |
| SignageImport.SignRowOf | app/services/segnaletica_orizzontale_import.py:19-31 | a row is accepted exactly when both values are present, stripped and non-empty; else 400 naming row idx + 2 and the azienda first |
| SignageImport.MissingValue | app/services/segnaletica_orizzontale_import.py:22-24 | a 400 whose detail is "Row ", digits that read back as the spreadsheet row `idx + 2`, then ": Missing " and the column |
| SignageImport.ParseSignage | app/services/segnaletica_orizzontale_import.py:6-31 | the missing-columns error, or every row in order, or the first bad row's error |
| SignageImport.ParsedRowsFilled | app/services/segnaletica_orizzontale_import.py:25-31 | every imported pair holds two stripped non-empty values |
| SignageImport.AziendaCheckedFirst | app/services/segnaletica_orizzontale_import.py:21-24 | a row missing both is reported for its azienda |
| SignageImport.ColumnsCaseInsensitive | app/services/segnaletica_orizzontale_import.py:8-10 | header lists that lower alike miss the same columns |

## Left out

- Reading and writing files, pandas, the database session and SQL, the HTTP framework, logging, the HTML page and its PDF rendering (WeasyPrint): the model works on the values these produce or consume.
- ExcelImport.Show: float cells are modelled only for whole numbers below 10^16, shown as `str` shows them ("5.0"); fractional floats (an Excel time without time formatting arrives as a fraction of a day) and the exponent form of larger floats are not modelled, because Python's shortest round-trip float printing is outside the model. ExcelImport.Cell and ExcelImport.RowUser inherit this: a fractional float id is not among the cells they cover.
- The calendar service is a state plus an oracle that answers each call; credentials, the client cache and the network are not modelled.
- The local UTC offset used by `iso_dt`, Python's salted `hash` of a user id, the file-existence test of `get_pdf`, the dashboard's ISO conversion of a datetime and the current time are parameters.
- UUID generation: the id of a new shift row is a parameter, required to be fresh.
- `\d` and `\s` are modelled on ASCII digits and Python's whitespace in the Latin-1 range; `lower`/`upper` on ASCII letters.
- Dashboard.MatchWhoRegex: the equivalence with the regular expression is stated for stripped titles, the only ones `include_event` passes to it.
- SignageImport.MissingText: Python prints a two-element set in hash order; the model fixes the order azienda, descrizione.
- Segnalazioni.PyRepr: Python's printability test is modelled on the Latin-1 range; characters above U+00FF are shown as they are, where Python writes the non-printable ones as `\u`/`\U` escapes.
- Pdfs.GetPdf: the 404 detail is the framework's default "Not Found".
- Dashboard.UpcomingTimes: the title filter is stated per calendar list (Dashboard.GoogleItemsShape), not carried through the sort.
- Dashboard.ConvertTimes: the dictionaries the source rewrites in place are array elements; aliasing between items is not modelled.
- Dashboard: the overwrite of a `kind` key already present in a calendar entry is not modelled; items carry their kind separately.
- Dashboard: datetimes are integer seconds, the window is `days * 86400` seconds.
- WeeklyReport.ReportOf: the source raises on an empty frame; the report is stated for at least one row.
- WeeklyReport.ReportOf: the report is stated for rows that carry their agent, as `df_to_pdf` sees them when it is given a database session; called without one, the frame has no "Agente" column, `df.get("Agente", [])` yields a list and `.unique()` raises AttributeError (app/services/excel_import.py:235), an error the model does not reproduce.
- WeeklyReport.BuildReport: the same session-less AttributeError of `df_to_pdf` is not reproduced; the method always returns a report.
- TurnoStore.Store.Upsert: the lookup of the (user, day) row and the following insert or update are one atomic step; two concurrent requests could both miss the row and insert two, which the unique-key part of `Valid()` does not account for (the table has no unique constraint on that pair).
- WeeklyReport: `giorno` is a day, as `pd.to_datetime` makes it; the user-id-to-agent mapping of `df_to_pdf` is not modelled (rows carry their agent name).
- WeeklyReport: the calendar's events of the week are a parameter; the error path of `list_events_between` is not modelled.
- WeeklyReport.WeekdayName: an unparseable key would raise in the source; every key the report builds parses, and the model answers "" otherwise.
- Dashboard.GoogleItemsShape: states the calendar filter as a comparison of instants, the evident intent; as written, any timed calendar entry makes `now <= data_ora` raise `TypeError` (see Dashboard.GoogleItemsAsWritten and "## Findings").
- Dashboard.CombineSources: computes `combined` with instants compared; the `TypeError` of a timed calendar entry is modelled by Dashboard.GoogleItemsAsWritten only.
- Dashboard.UpcomingEvents: answers as the route evidently intends; the failure of the route as written on a timed calendar entry is Dashboard.UpcomingAsWritten.
- Dashboard.UpcomingTimes: is stated for the answer on instants (Dashboard.Upcoming); as written there is no answer when a timed entry is listed.
- Pdfs.GetPdf: the upload root is taken in the form `pathlib` gives it (no trailing slash); the join is `root + "/" + name`.
- ExcelImport.HttpError: Python prints the set of missing columns in hash order; the printing is a parameter.

## Findings

| source | as written | input that shows it | evidently intended | confidence | as-written member | corrected member |
|---|---|---|---|---|---|---|
| app/routes/dashboard.py:62-66 | `now` is `datetime.utcnow()`, a naive datetime, and is compared with each calendar entry's `data_ora`; timed entries (`start.dateTime`) parse to offset-aware datetimes, so the comparison raises `TypeError` and the request fails | one calendar entry with `start.dateTime` "2026-10-16T09:00:00+02:00" and title "Riunione", within the window | compare the instants, so the meeting is listed among the upcoming items | not executed; high: Python refuses to order naive and aware datetimes | Dashboard.TimedEntryCrashes | Dashboard.GoogleItemsShape |
