# paa-schedule-assist in Dafny

A model of the retrieval and pivoting core of paa-schedule-assist. The tool
asks a clinic's online scheduling service which appointment slots each
provider has free over the next few days, and lays them out on a grid of
ten-minute rows. The two entry points share the same shape of logic:

- `paa2.py` lists the providers of three facilities. For every provider and
  every day, starting at 06:00:00, it walks the service's pages by following
  the `next_start_time` cursor while `more` is set. It bins each slot's time
  to fifteen minutes (`bin_time`). Then it merges the results, in completion
  order, into a dictionary from `(facility, date, time)` to the providers
  offering that slot.
- `paa.py` works in four stages:
  - stage 2 reads the provider list;
  - stage 3 reads each provider's preview schedule: the facility, and for
    each date the times cut at their last colon plus a cursor;
  - stage 4 follows every truthy cursor through a first-in first-out queue
    until the service returns no cursor, appending the new times;
  - finally the records are pivoted into one table per facility, keyed by
    `dateTHH:MM` with the minute floored to ten. `render_html` labels 85
    rows from 06:00 to 20:00.

The remote service is a finite sequence of decoded JSON responses, consumed
one per request. A run records the requests it made (a `Trace`), the
responses it left unread and its outcome. Python exceptions
(`KeyError`, `TypeError`/`AttributeError`, `ValueError`,
`ZeroDivisionError`, and a request the stream cannot answer) are `Failure`
values. Python dictionaries keep insertion order (`OrderedMaps.ODict`), and
assigning to an existing key keeps its position. `str.split`, `int()`,
`//` (floor division) and `f'{n:0>2}'` are written out in `Text` and
`TimeBin`.

Modules, one per file:

| module | models |
|---|---|
| `Wrappers` | `Option`, `Result`, the exception kinds, and the two loop shapes that let the first exception escape (`MapAll`, `ConcatAll`) |
| `Text` | `str.split`/`join`, `int()`, zero padding |
| `OrderedMaps` | insertion-ordered dictionaries, `setdefault(...).append`, `defaultdict(list)` |
| `JsonValues` | decoded JSON, `d[k]`, `d.get(k, default)`, truthiness |
| `Bags` | multiset sums, used for order independence |
| `Requests` | `payload_to_bytes` and the response stream |
| `TimeBin` | `bin_time`, `rsplit(':', 1)[0]`, the ten-minute table key |
| `SlotWalker` | `get_providers` (its projection), `_get_provider_slots_for_date`, `_get_provider_slots` |
| `SlotIndex` | `get_all_available_times` |
| `ScheduleExtract` | `FacilityId`, `_extract_provider_info`, `_extract_provider_schedule`, `_extract_more_time_slots`, `ProviderInfo(**info, **schedule)` |
| `FillMoreSlots` | `_fill_more_time_slots` |
| `ScheduleTable` | `provider_info_to_table_dicts` |
| `TimeAxis` | the row labels of `render_html` |

Some behaviours of the code are easy to miss; the model keeps them:

- The page loops have no iteration cap. The model ends them because the
  stream of responses is finite, and a request the stream cannot answer is a
  failure.
- The slot index keeps every report. A provider whose pages report the same
  slot twice is listed twice under it. Nothing is deduplicated.
- In `get_all_available_times`, one task's exception aborts the whole merge.
  It is not set aside as a per-task failure: `f.result()` re-raises.
- The stage 4 payload always carries the reason id `"43396"`, whatever the
  visit type. Its `visit_code` follows the visit type.

## Model

| member | source | states |
|---|---|---|
| Text.Split | paa2.py:55 | `str.split` always yields at least one field, and no field contains the separator |
| Text.SplitJoin | paa.py:337 | joining the fields of a split with the separator gives back the original text |
| Text.JoinSplit | paa.py:337 | splitting a join of separator-free fields gives back exactly those fields |
| Text.ZeroPad2RoundTrip | paa2.py:57 | `f'{n:0>2}'` has at least two characters, each a digit or a minus sign, and `int()` reads it back as `n` |
| Requests.EncodeDecodeRoundTrip | paa2.py:39-47 | take a payload whose keys contain neither `=` nor `&` and whose values contain no `&`: decoding its body gives back its items, in insertion order |
| Requests.Encode | paa2.py:39-47 | the request body is empty exactly when the payload has no items |
| Requests.EncodeFields | paa.py:40-48 | the body of a non-empty payload splits at `&` into exactly one `k=v` field per item, in insertion order |
| Requests.EncodeEmpty | paa.py:40-48 | an empty payload is sent as an empty body |
| TimeBin.BinTime | paa2.py:50-57 | `bin_time` succeeds exactly when the text has a second colon field that `int()` reads and the width is non-zero; otherwise it fails with `ValueError` for the text and `ZeroDivisionError` for the width |
| TimeBin.BinTimeFields | paa2.py:55-57 | the result has exactly two colon fields: the hour field unchanged, and a minute of at least two characters. Seconds and later fields are dropped |
| TimeBin.BinTimeFloor | paa2.py:56 | for a positive width the new minute is a multiple of the width, no later than the original minute, and less than one width earlier |
| TimeBin.BinTimeIdempotent | paa2.py:50-57 | binning a binned time again gives the same label |
| TimeBin.BinTimeDocExample | paa2.py:53 | "12:40:00" bins to "12:30" at fifteen minutes |
| TimeBin.BinTimeMidnightExample | paa2.py:50-57 | "00:07:00" bins to "00:00" |
| TimeBin.BinTimeLateExample | paa2.py:50-57 | "23:59:59" bins to "23:45" |
| TimeBin.BinTimeExample | paa2.py:55-57 | a colon-free hour, a minute `int()` reads and colon-free seconds bin to the hour with the zero-padded fifteen-minute floor of the minute |
| TimeBin.DropLastField | paa.py:187 | `rsplit(':', 1)[0]` is a prefix of the text: all of it when there is no colon, otherwise the part before the last colon |
| TimeBin.DropLastFieldOf | paa.py:256 | cutting `a:b` with a colon-free `b` gives `a` back |
| TimeBin.TableKeyMeaning | paa.py:337-340 | a table key exists exactly when the time has two colon fields that `int()` reads, and is otherwise a `ValueError`. It is the date, `T`, and a two-field clock. The hour reads back as the time's hour, and the minute is the time's minute floored to ten; both have at least two characters |
| TimeAxis.TableKeyOnAxis | paa.py:337-340 | for an hour in 0..23 and a minute in 0..59, the key is the date, `T`, and the zero-padded `HH:MM` label (`ClockLabel`) of the time floored to ten minutes. For a time within the axis's span, those minutes are exactly the minutes of its own axis row, so the key ends in that row's label |
| SlotWalker.ProviderOf | paa2.py:156-158 | an entry gives a provider exactly when the eight copied fields are present as text. The provider carries each of those eight texts in its own field, and the facility its list was requested for |
| SlotWalker.ProvidersOf | paa2.py:152-159 | a list response gives one provider per `prov_list` entry, in order, exactly when every entry is well formed |
| Wrappers.ConcatAll | paa2.py:149-160 | a loop that extends a list with each element's results succeeds exactly when every element's results read; it then holds every result of every element and nothing else, the first element's first, and otherwise fails with the first failing element's error |
| SlotWalker.ListedProvidersMeaning | paa2.py:149-160 | the facility loop succeeds exactly when every facility's list reads. It then returns exactly the listed providers, each tagged with the facility that listed it, with the first facility's providers first and in order |
| SlotWalker.GetProviders | paa2.py:121-160 | over facilities 1, 13 and 20, every returned provider was listed by one of them and carries that facility's id |
| SlotWalker.SlotsPayload | paa2.py:170-180 | a day's first request is a well-formed payload asking about the provider's NPI at its facility, for that date, from start time 06:00:00 |
| SlotWalker.SlotOf | paa2.py:196-199 | a record gives a slot exactly when its `date` and `time` are text and `bin_time` accepts the time. The slot carries the date, the binned time and the provider's facility, and its time is a label that binning leaves unchanged |
| SlotWalker.PageSlots | paa2.py:195-199 | a page yields one slot per appointment record, in order, exactly when every record gives a slot |
| SlotWalker.Cursor | paa2.py:192-194 | a cursor is read exactly when `more` is truthy, and it is then the text of `next_start_time`; a missing or non-text `next_start_time` fails |
| SlotWalker.ReadPage | paa2.py:188-199 | any status other than `success` ends the stream. A `success` response reads exactly when its cursor, its `appt_slots` records (none when absent) and every record's slot read; the page then carries that cursor and, in order, the slot of each record |
| SlotWalker.ReaderOf | paa2.py:188-199 | the reader used for a provider ends the stream on any status but `success`, and every page it reads holds only that provider's slots |
| SlotWalker.Walk | paa2.py:181-200 | the walk's first request is the given payload, it reads only a prefix of the responses, and a successful walk makes one request per response it consumed |
| SlotWalker.WalkDayRequests | paa2.py:170-194 | a day's walk starts at 06:00:00, and every request it makes differs from the day's first payload at most in the start time |
| SlotWalker.WalkSame | paa2.py:193-194 | every request of a walk agrees with its first payload on every field but `start_time` |
| SlotWalker.WalkCursors | paa2.py:183-194 | each request after the first starts at the cursor of the response to the request before it |
| SlotWalker.WalkPages | paa2.py:183-199 | the slots of all responses are those the walk returned followed by those of the responses it left unread |
| SlotWalker.WalkCount | paa2.py:183-194 | if `k` pages carry a cursor and the next response is a final page or has a status other than `success`, the walk makes exactly `k+1` requests, succeeds, and leaves the rest unread |
| SlotWalker.WalkStopsOnStatus | paa2.py:188-190 | a first response whose status is not `success` ends the walk after one request, with no slots |
| SlotWalker.ProviderSlots | paa2.py:202-218 | retrieving a provider's slots over a list of days reads only a prefix of the responses; on success it makes one request per response consumed |
| SlotWalker.DaysRequested | paa2.py:202-218 | over `n_days` days from today, a successful retrieval asks only for those days and asks for each, the requests for day `today+d` forming the `d`-th block; with no days nothing is posted |
| SlotWalker.WalkDays | paa2.py:215-218 | the walks over the days read only a prefix of the responses; on success they make one request per response consumed |
| SlotWalker.WalkDaysGrouped | paa2.py:215-218 | the requests come in one consecutive group per day, in day order. Each group differs from that day's first payload only in the start time |
| SlotWalker.WalkDaysPages | paa2.py:215-218 | the slots returned, followed by those of the unread responses, are the slots of all responses |
| SlotWalker.ProviderSlotsByDay | paa2.py:202-218 | requests are grouped by date in day order, and the result is exactly the slots of the responses read, in order |
| SlotWalker.ProviderSlotsOf | paa2.py:196-218 | every slot found for a provider belongs to its facility, carries a fifteen-minute label, and is the slot of an appointment record of a `success` response that was read |
| SlotIndex.MergeAll | paa2.py:232-237 | the merge succeeds exactly when every finished task succeeded. Otherwise it fails with the error of the first failed task in completion order |
| SlotIndex.MergeValues | paa2.py:236-237 | under each slot the index holds every provider that reported it, in completion order, and it holds exactly the slots someone reported |
| SlotIndex.MergeContents | paa2.py:232-238 | a slot is a key exactly when some task reported it. Its list has one entry per report, and each entry is a provider that reported the slot |
| SlotIndex.MergeOrderIndependent | paa2.py:232-238 | two completion orders of the same tasks give the same outcome, the same keys, and the same providers per slot, up to order |
| SlotIndex.AllAvailableTimes | paa2.py:220-238 | whatever order the tasks finish in, when all succeed a provider is listed under a slot exactly when its retrieval over the requested days offered that slot |
| ScheduleExtract.FacilityOf | paa.py:12-14 | `FacilityId(v)` gives the member whose value is `v`, with `True` counting as 1. Any other value is a `ValueError` |
| ScheduleExtract.InfoOf | paa.py:152-156 | a record exists exactly when the entry has the four fields as text. It copies the NPI and degree, and the name is the first name, a space and the last name |
| ScheduleExtract.InfosOf | paa.py:151-158 | one record per entry, in order, exactly when every entry is well formed |
| ScheduleExtract.ExtractProviderInfo | paa.py:146-158 | stage 2 gives one record per `prov_list` entry, in order, exactly when every entry is well formed |
| ScheduleExtract.TruncatedTimes | paa.py:187 | one truncated time per slot record, in order, exactly when every record has a text `time` |
| ScheduleExtract.DayOf | paa.py:186-188 | a day gives its date, the cut times of all its slot records, and its `next_start_time` (null when absent) |
| ScheduleExtract.DaysOf | paa.py:186-188 | one entry per day, in order |
| ScheduleExtract.ExtractProviderSchedule | paa.py:177-194 | stage 3 succeeds exactly when the facility and every day read. The facility is `FacilityId` of the response's `facility_id` |
| ScheduleExtract.DictsOfDays | paa.py:184-188 | both dictionaries have the same dates in the same order, namely exactly the dates listed. The last listing of a date decides its times and cursor |
| ScheduleExtract.ExtractScheduleMeaning | paa.py:184-194 | the extracted `time_slots` and `next_slot` have the same dates in the same order, namely exactly the dates of the response. The last day listed for a date decides its times and its cursor |
| ScheduleExtract.ExtractMoreTimeSlots | paa.py:235-258 | stage 4 returns the cut times of the response's slot records, in order, and its `next_start_time` (null when absent) |
| ScheduleExtract.ExtractMoreAbsent | paa.py:244-253 | a response without `appt_more_slots` gives no times and no cursor |
| ScheduleExtract.ExtractMoreTimes | paa.py:255-256 | each time is a prefix of its record's `time` that ends just before a colon when the record has one |
| FillMoreSlots.MoreTimesPayload | paa.py:87-97 | the follow-up payload is well formed and has date and start-time fields. It carries the provider's NPI, its facility's number as text, and the visit type's upper-cased name |
| FillMoreSlots.TruthyPending | paa.py:271-274 | the queue holds exactly the listed dates whose cursor is truthy, each paired with its cursor, in the order the dates are listed |
| FillMoreSlots.InitialQueue | paa.py:269-274 | every queued date is a date of `next_slot` with its truthy cursor, and every date with a truthy cursor is queued, once, in dictionary order |
| FillMoreSlots.RequestFor | paa.py:277-279 | a request sets exactly the date and the start time of the payload to the queued pair, and keeps every other field and the field order |
| FillMoreSlots.Absorbed | paa.py:286-288 | only the fetched date changes: its times gain the fetched times at the end and its cursor becomes the new one. The dates and their order are kept |
| FillMoreSlots.Requeued | paa.py:277-290 | first in, first out: the pairs behind the served one keep their order at the front, and the date with its new cursor goes last exactly when that cursor is truthy |
| FillMoreSlots.Drain | paa.py:276-290 | the loop reads only a prefix of the responses, one per request on success, and keeps both dictionaries well formed |
| FillMoreSlots.DrainDates | paa.py:276-279 | every request asks for a date that was pending |
| FillMoreSlots.DrainVisits | paa.py:271-290 | a successful loop requests every initially pending date at least once |
| FillMoreSlots.DrainExhausts | paa.py:276-290 | once the loop ends successfully, no date has a truthy cursor |
| FillMoreSlots.DrainAppends | paa.py:286-288 | after the loop, each date's times are its old times followed by the times of every response to a request for it, in response order |
| FillMoreSlots.FillMoreTimeSlots | paa.py:260-291 | the filled record keeps the provider's name, NPI, degree and facility |
| FillMoreSlots.FillMoreTimeSlotsMeaning | paa.py:260-291 | stage 4 requests only dates that had a truthy cursor. On success it requests each of them and leaves no cursor truthy, and each date's times are extended by exactly the times fetched for it |
| ScheduleTable.DateEntries | paa.py:336-342 | each of a date's times gives one entry, in order, under its ten-minute key. It fails exactly when some time is not two fields of integers |
| ScheduleTable.DatesEntries | paa.py:335-342 | a provider's dates give their entries exactly when every time of those dates reads as `H:M`, one entry per time |
| ScheduleTable.DatesEntriesFrom | paa.py:335-342 | each entry of a run of dates is the key and text of some time of a listed date |
| ScheduleTable.DatesEntriesCover | paa.py:335-342 | every time of a listed date has its key and text among the entries |
| ScheduleTable.ProviderEntries | paa.py:335-342 | a provider contributes one entry per time it holds |
| ScheduleTable.ProviderEntriesContents | paa.py:335-342 | a provider's entries exist exactly when all its times read as `H:M`. Each entry is then the key and text of one of its times, and every time has its entry |
| ScheduleTable.Pivot | paa.py:329-342 | the pivot succeeds exactly when every provider's times all read as `H:M`, and both tables are well formed |
| ScheduleTable.ProviderInfoToTableDicts | paa.py:321-343 | the result is keyed by the two facility names, GlebeRoadArlington first |
| ScheduleTable.PivotContents | paa.py:333-342 | under every key, a facility's table holds exactly the entries its providers produced for that key, in provider and time order. It holds one entry per time of those providers |
| ScheduleTable.TableDictsMeaning | paa.py:321-343 | each facility name maps to a table holding exactly its providers' entries per key, one per time |
| ScheduleTable.DateEntryKeys | paa.py:337-341 | every entry sits under a key that starts with its date and `T`, and its text shows the time, name and degree |
| TimeAxis.ClockLabel | paa.py:479 | an `%H:%M` label reads back as the time of day it was made from |
| TimeAxis.Axis | paa.py:477-481 | there are 85 labels; label `i` is the `%H:%M` label of 06:00 plus `10*i` minutes and reads back as that time; the first is "06:00" and the last "20:00" |
| TimeAxis.AxisWithinDay | paa.py:478-481 | every row's label reads back as that row's own minutes after midnight, so no label wraps past midnight |

## Left out

- Network, sessions, the CSRF token of stage 1, `lxml`, `tqdm`, the Jinja
  template and the HTML file are not modelled. The service is a parameter:
  the sequence of decoded responses.
- The thread pools are not modelled. Concurrency enters only as the order in
  which tasks finish. `SlotIndex.AllAvailableTimes` and
  `SlotIndex.MergeOrderIndependent` hold for every such order.
- The calendar is not modelled. `SlotWalker.Days` takes today as a number
  and the `strftime('%Y-%m-%d')` formatting as a parameter. The date list
  that `render_html` receives is not modelled.
- The posts of `get_providers` are I/O. The model takes the decoded reply
  for each facility as a function (`SlotWalker.GetProviders`), and the
  request body of those posts is not modelled. The stage 2 and stage 3 posts
  are I/O and are left out in the same way.
- The stage 3 and stage 4 collectors swallow an exception and then carry on
  with a stale or unbound value (`paa.py:223-230`, `paa.py:312-316`). This
  is not modelled. Their extraction steps (`ScheduleExtract`) and the
  per-provider loop (`FillMoreSlots.FillMoreTimeSlots`) are modelled.
- JSON numbers are integers; floats are not modelled.
- `.encode()` of the request body is not modelled. Bodies stay text.
- Text.ZeroPad2RoundTrip: Python's `int()` also accepts surrounding
  whitespace, underscores and non-ASCII digits. `Text.ParseInt` accepts
  only an optional sign and ASCII digits.
- SlotWalker.ProviderOf: a missing or non-text field is a failure here.
  `prov_dict.get(k)` would copy `None` or the value and format it into
  later payloads.
- ScheduleExtract.InfoOf: a non-text NPI, name or degree is a failure
  here. Python would copy the value, or format it into the name.
- SlotWalker.SlotOf: a non-text `date` is a failure here. Python would
  keep any value as the slot's date.
- SlotWalker.Cursor: a non-text `next_start_time` is a failure here. Python
  would format it into the next payload.
- FillMoreSlots.RequestFor: a non-text truthy cursor is a failure here.
  Python would format it into the payload.
- ScheduleExtract.DayOf: a non-text `appt_date` is a failure here. Python
  would accept any hashable value as a dictionary key.
- The page reader is a parameter of `SlotWalker.Walk`.
  `SlotWalker.ReaderOf` supplies the reader of `paa2.py`, and the lemmas
  about walks hold for any reader.
- The loops carry no iteration cap, as in the code. Termination rests on
  the finite stream of responses.
