/**
 paa.py response extraction: the provider list of stage 2
 (`_extract_provider_info`), the schedule preview of stage 3
 (`_extract_provider_schedule`) and the follow-up pages of stage 4
 (`_extract_more_time_slots`), plus the `ProviderInfo` record they fill.
 */
module ScheduleExtract {
  import opened Wrappers
  import opened Text
  import opened JsonValues
  import opened OrderedMaps
  import opened TimeBin

  /** paa.py `FacilityId`, with the values the service uses. */
  datatype Facility = WalkerLaneSpringfield | GlebeRoadArlington

  function FacilityValue(f: Facility): int {
    match f
    case WalkerLaneSpringfield => 1
    case GlebeRoadArlington => 13
  }

  /** The member name, as `FacilityId.name` gives it. */
  function FacilityName(f: Facility): string {
    match f
    case WalkerLaneSpringfield => "WalkerLaneSpringfield"
    case GlebeRoadArlington => "GlebeRoadArlington"
  }

  /** `FacilityId(v)`: the member whose value equals `v`, else a `ValueError`.
      Python's `True` equals `1`, so it names WalkerLaneSpringfield. */
  function FacilityOf(v: Json): (r: Result<Facility>)
    ensures forall f :: v == JNum(FacilityValue(f)) ==> r == Success(f)
    ensures r.Success? ==> v == JNum(FacilityValue(r.value)) || (v == JBool(true) && r.value == WalkerLaneSpringfield)
    ensures r.Failure? ==> r.error == ValueError
  {
    match v
    case JNum(1) => Success(WalkerLaneSpringfield)
    case JNum(13) => Success(GlebeRoadArlington)
    case JBool(true) => Success(WalkerLaneSpringfield)
    case _ => Failure(ValueError)
  }

  /** One provider as stage 2 lists it. */
  datatype BasicInfo = BasicInfo(npi: string, name: string, degree: string)

  /** `p[k]` of a field the code carries on as text. */
  function TextField(p: Json, k: string): Result<string> {
    var v :- Member(p, k);
    AsStr(v)
  }

  /** A `prov_list` entry carrying the four fields stage 2 reads, as text. */
  predicate ListEntry(p: Json) {
    && p.JObj?
    && (forall k :: k in ["provider_npi", "provider_fname", "provider_lname", "provider_degree"] ==>
          k in p.fields && p.fields[k].JStr?)
  }

  /** One record of `_extract_provider_info`. */
  function InfoOf(p: Json): (r: Result<BasicInfo>)
    ensures r.Success? <==> ListEntry(p)
    ensures r.Success? ==>
      && JStr(r.value.npi) == p.fields["provider_npi"]
      && JStr(r.value.degree) == p.fields["provider_degree"]
      && r.value.name == p.fields["provider_fname"].s + " " + p.fields["provider_lname"].s
  {
    var npi :- TextField(p, "provider_npi");
    var fname :- TextField(p, "provider_fname");
    var lname :- TextField(p, "provider_lname");
    var degree :- TextField(p, "provider_degree");
    Success(BasicInfo(npi, fname + " " + lname, degree))
  }

  function InfosOf(ps: seq<Json>): (r: Result<seq<BasicInfo>>)
    ensures r.Success? <==> forall i :: 0 <= i < |ps| ==> ListEntry(ps[i])
    ensures r.Success? ==> |r.value| == |ps|
    ensures r.Success? ==> forall i :: 0 <= i < |ps| ==> InfoOf(ps[i]) == Success(r.value[i])
    decreases |ps|
  {
    if |ps| == 0 then Success([])
    else
      var first :- InfoOf(ps[0]);
      var rest :- InfosOf(ps[1..]);
      Success([first] + rest)
  }

  /** The entries of `response.prov_list`. */
  function ProviderList(j: Json): Result<seq<Json>> {
    var response :- Member(j, "response");
    var list :- Member(response, "prov_list");
    Records(list)
  }

  /** paa.py `_extract_provider_info`: one record per `prov_list` entry, in
      order, with the NPI and degree copied and the name formed from the
      first and last names. */
  function ExtractProviderInfo(j: Json): (r: Result<seq<BasicInfo>>)
    ensures r.Success? <==> ProviderList(j).Success? && forall e :: e in ProviderList(j).value ==> ListEntry(e)
    ensures r.Success? ==> |r.value| == |ProviderList(j).value|
    ensures r.Success? ==> forall i :: 0 <= i < |r.value| ==> InfoOf(ProviderList(j).value[i]) == Success(r.value[i])
  {
    var entries :- ProviderList(j);
    InfosOf(entries)
  }

  /** Slot times per date, in insertion order. */
  type Times = ODict<string, seq<string>>

  /** Cursor (`next_start_time`, possibly absent) per date. */
  type Cursors = ODict<string, Json>

  /** What `_extract_provider_schedule` returns. */
  datatype Schedule = Schedule(facility: Facility, timeSlots: Times, nextSlot: Cursors)

  /** paa.py `ProviderInfo`. */
  datatype ProviderInfo = ProviderInfo(
    name: string,
    facility: Facility,
    degree: string,
    npi: string,
    timeSlots: Times,
    nextSlot: Cursors)

  /** `ProviderInfo(**info, **schedule)`. */
  function Combine(info: BasicInfo, schedule: Schedule): (r: ProviderInfo)
    ensures r.npi == info.npi && r.name == info.name && r.degree == info.degree
    ensures r.facility == schedule.facility
    ensures r.timeSlots == schedule.timeSlots && r.nextSlot == schedule.nextSlot
  {
    ProviderInfo(info.name, schedule.facility, info.degree, info.npi, schedule.timeSlots, schedule.nextSlot)
  }

  /** `d['time'].rsplit(':', 1)[0]` for every slot record, in order. */
  function TruncatedTimes(appts: seq<Json>): (r: Result<seq<string>>)
    ensures r.Success? <==> forall i :: 0 <= i < |appts| ==> TextField(appts[i], "time").Success?
    ensures r.Success? ==> |r.value| == |appts|
    ensures r.Success? ==> forall i :: 0 <= i < |appts| ==> r.value[i] == DropLastField(TextField(appts[i], "time").value)
    decreases |appts|
  {
    if |appts| == 0 then Success([])
    else
      var time :- TextField(appts[0], "time");
      var rest :- TruncatedTimes(appts[1..]);
      Success([DropLastField(time)] + rest)
  }

  /** One day of the preview: its date, its truncated times and its cursor. */
  datatype DayEntry = DayEntry(date: string, times: seq<string>, next: Json)

  /** The slot records of one day. */
  function DaySlots(day: Json): Result<seq<Json>> {
    var slots :- Member(day, "appt_slots");
    Records(slots)
  }

  /** One iteration of the loop over `slots_by_day`. The list of times is
      built before the date is read, as Python evaluates the right-hand side
      of an assignment first. */
  function DayOf(day: Json): (r: Result<DayEntry>)
    ensures r.Success? ==> DaySlots(day).Success? && |r.value.times| == |DaySlots(day).value|
    ensures r.Success? ==> TruncatedTimes(DaySlots(day).value) == Success(r.value.times)
    ensures r.Success? ==> Member(day, "appt_date") == Success(JStr(r.value.date))
    ensures r.Success? ==> r.value.next == Get(day, "next_start_time", JNull).value
  {
    var appts :- DaySlots(day);
    var times :- TruncatedTimes(appts);
    var date :- TextField(day, "appt_date");
    var next :- Get(day, "next_start_time", JNull);
    Success(DayEntry(date, times, next))
  }

  function DaysOf(days: seq<Json>): (r: Result<seq<DayEntry>>)
    ensures r.Success? ==> |r.value| == |days|
    ensures r.Success? ==> forall i :: 0 <= i < |days| ==> DayOf(days[i]) == Success(r.value[i])
    decreases |days|
  {
    if |days| == 0 then Success([])
    else
      var first :- DayOf(days[0]);
      var rest :- DaysOf(days[1..]);
      Success([first] + rest)
  }

  function TimePairs(entries: seq<DayEntry>): (kvs: seq<(string, seq<string>)>)
    ensures |kvs| == |entries|
    ensures forall i :: 0 <= i < |entries| ==> kvs[i] == (entries[i].date, entries[i].times)
  {
    seq(|entries|, i requires 0 <= i < |entries| => (entries[i].date, entries[i].times))
  }

  function CursorPairs(entries: seq<DayEntry>): (kvs: seq<(string, Json)>)
    ensures |kvs| == |entries|
    ensures forall i :: 0 <= i < |entries| ==> kvs[i] == (entries[i].date, entries[i].next)
  {
    seq(|entries|, i requires 0 <= i < |entries| => (entries[i].date, entries[i].next))
  }

  /** `res_json['response']['prov_slots']`. */
  function ProviderSlotsInfo(j: Json): Result<Json> {
    var response :- Member(j, "response");
    Member(response, "prov_slots")
  }

  /** The days of the preview, read after the facility. */
  function ScheduleDays(j: Json): Result<seq<DayEntry>> {
    var info :- ProviderSlotsInfo(j);
    var id :- Member(info, "facility_id");
    var _ :- FacilityOf(id);
    var slotsByDay :- Member(info, "appt_slots");
    var days :- Records(slotsByDay);
    DaysOf(days)
  }

  /** paa.py `_extract_provider_schedule`: the facility, and per date the
      truncated times and the cursor; a date listed twice keeps its first
      position and its last values. */
  function ExtractProviderSchedule(j: Json): (r: Result<Schedule>)
    ensures r.Success? <==> ScheduleDays(j).Success?
    ensures r.Success? ==> r.value.timeSlots.Valid() && r.value.nextSlot.Valid()
    ensures r.Success? ==>
      && Member(ProviderSlotsInfo(j).value, "facility_id").Success?
      && FacilityOf(Member(ProviderSlotsInfo(j).value, "facility_id").value) == Success(r.value.facility)
  {
    var info :- ProviderSlotsInfo(j);
    var id :- Member(info, "facility_id");
    var facility :- FacilityOf(id);
    var entries :- ScheduleDays(j);
    Success(Schedule(facility, PutAll(Empty(), TimePairs(entries)), PutAll(Empty(), CursorPairs(entries))))
  }

  /** The date is that of a day, and no later day has the same date. */
  predicate LastDayOf(entries: seq<DayEntry>, i: int) {
    && 0 <= i < |entries|
    && forall k :: i < k < |entries| ==> entries[k].date != entries[i].date
  }

  /** The two dictionaries built from a run of days. */
  lemma {:induction false} DictsOfDays(entries: seq<DayEntry>)
    ensures var times := PutAll(Empty(), TimePairs(entries));
      var cursors := PutAll(Empty(), CursorPairs(entries));
      && times.keys == cursors.keys
      && (forall d :: d in times.vals <==> exists i :: 0 <= i < |entries| && entries[i].date == d)
      && forall i :: LastDayOf(entries, i) ==>
           && times.vals[entries[i].date] == entries[i].times
           && cursors.vals[entries[i].date] == entries[i].next
  {
    PutAllKeys(Empty<string, seq<string>>(), Empty<string, Json>(), TimePairs(entries), CursorPairs(entries));
    TimesDomain(entries);
    LastDays(entries);
  }

  lemma TimesDomain(entries: seq<DayEntry>)
    ensures var times := PutAll(Empty(), TimePairs(entries));
      forall d :: d in times.vals <==> exists i :: 0 <= i < |entries| && entries[i].date == d
  {
    var tp := TimePairs(entries);
    var times := PutAll(Empty(), tp);
    PutAllLast(Empty<string, seq<string>>(), tp);
    forall d
      ensures d in times.vals <==> exists i :: 0 <= i < |entries| && entries[i].date == d
    {
      LastValueSome(tp, d);
      assert Lookup(times, d) == LastValue(tp, d);
      if exists i :: 0 <= i < |entries| && entries[i].date == d {
        var i :| 0 <= i < |entries| && entries[i].date == d;
        assert tp[i].0 == d;
      }
    }
  }

  lemma LastDays(entries: seq<DayEntry>)
    ensures var times := PutAll(Empty(), TimePairs(entries));
      var cursors := PutAll(Empty(), CursorPairs(entries));
      forall i :: LastDayOf(entries, i) ==>
        && entries[i].date in times.vals && times.vals[entries[i].date] == entries[i].times
        && entries[i].date in cursors.vals && cursors.vals[entries[i].date] == entries[i].next
  {
    var tp, cp := TimePairs(entries), CursorPairs(entries);
    var times, cursors := PutAll(Empty(), tp), PutAll(Empty(), cp);
    PutAllLast(Empty<string, seq<string>>(), tp);
    PutAllLast(Empty<string, Json>(), cp);
    forall i | LastDayOf(entries, i)
      ensures entries[i].date in times.vals && times.vals[entries[i].date] == entries[i].times
      ensures entries[i].date in cursors.vals && cursors.vals[entries[i].date] == entries[i].next
    {
      LastValueAt(tp, i);
      LastValueAt(cp, i);
      assert Lookup(times, entries[i].date) == Some(entries[i].times);
      assert Lookup(cursors, entries[i].date) == Some(entries[i].next);
    }
  }

  /** Both dictionaries of the schedule list the same dates in the same
      order: exactly the dates of the days. Under
      each date, the times are those of the last day with that date, one per
      slot record with its last `:` field dropped, and the cursor is that
      day's `next_start_time`. */
  lemma ExtractScheduleMeaning(j: Json)
    requires ExtractProviderSchedule(j).Success?
    ensures var s := ExtractProviderSchedule(j).value;
      var entries := ScheduleDays(j).value;
      && s.timeSlots.keys == s.nextSlot.keys
      && (forall d :: d in s.timeSlots.vals <==> exists i :: 0 <= i < |entries| && entries[i].date == d)
      && forall i :: LastDayOf(entries, i) ==>
           && s.timeSlots.vals[entries[i].date] == entries[i].times
           && s.nextSlot.vals[entries[i].date] == entries[i].next
  {
    var entries := ScheduleDays(j).value;
    assert ExtractProviderSchedule(j).value.timeSlots == PutAll(Empty(), TimePairs(entries));
    assert ExtractProviderSchedule(j).value.nextSlot == PutAll(Empty(), CursorPairs(entries));
    DictsOfDays(entries);
  }

  /** `res_json['response'].get('appt_more_slots', {})`. */
  function MoreSlotsInfo(j: Json): Result<Json> {
    var response :- Member(j, "response");
    Get(response, "appt_more_slots", JObj(map[]))
  }

  /** The slot records of a stage 4 response. */
  function MoreSlotRecords(j: Json): Result<seq<Json>> {
    var more :- MoreSlotsInfo(j);
    var slots :- Get(more, "appt_slots", JArr([]));
    Records(slots)
  }

  /** paa.py `_extract_more_time_slots`: the truncated times of the
      response's slot records, in order, and its `next_start_time` (`JNull`
      when absent). The cursor is read before the records are walked. */
  function ExtractMoreTimeSlots(j: Json): (r: Result<(seq<string>, Json)>)
    ensures r.Success? ==>
      && MoreSlotRecords(j).Success?
      && TruncatedTimes(MoreSlotRecords(j).value) == Success(r.value.0)
      && Get(MoreSlotsInfo(j).value, "next_start_time", JNull) == Success(r.value.1)
  {
    var more :- MoreSlotsInfo(j);
    var slots :- Get(more, "appt_slots", JArr([]));
    var next :- Get(more, "next_start_time", JNull);
    var appts :- Records(slots);
    var times :- TruncatedTimes(appts);
    Success((times, next))
  }

  /** A response without `appt_more_slots` has no times and no cursor. */
  lemma ExtractMoreAbsent(j: Json)
    requires Member(j, "response").Success? && Member(j, "response").value.JObj?
    requires "appt_more_slots" !in Member(j, "response").value.fields
    ensures ExtractMoreTimeSlots(j) == Success(([], JNull))
  {
  }

  /** A response with slot records yields one time per record, in order: the
      record's time up to its last colon. */
  lemma ExtractMoreTimes(j: Json)
    requires ExtractMoreTimeSlots(j).Success?
    ensures var times := ExtractMoreTimeSlots(j).value.0;
      var records := MoreSlotRecords(j).value;
      && |times| == |records|
      && forall i :: 0 <= i < |times| ==>
           && Member(records[i], "time").Success? && Member(records[i], "time").value.JStr?
           && times[i] <= Member(records[i], "time").value.s
           && (':' in Member(records[i], "time").value.s ==>
                 Member(records[i], "time").value.s[|times[i]|] == ':')
  {
  }
}
