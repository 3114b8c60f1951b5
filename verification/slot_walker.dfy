/**
 paa2.py slot retrieval for one provider: the cursor-driven page loop of
 `_get_provider_slots_for_date` and the day-by-day concatenation of
 `_get_provider_slots`.

 The remote service is a finite stream of decoded responses, read one per
 request; the loop has no iteration cap, so it ends because the stream does.
 */
module SlotWalker {
  import opened Wrappers
  import opened JsonValues
  import opened OrderedMaps
  import opened Requests
  import opened TimeBin

  /** paa2.py `ProviderInfo`: one provider as listed for one facility. */
  datatype Provider = Provider(
    npi: string,
    fname: string,
    lname: string,
    gender: string,
    degree: string,
    speciality: string,
    healowUri: string,
    acceptNewPatients: string,
    facilityId: string)

  /** The provider-list entry fields copied into a `ProviderInfo`, in order. */
  const ProviderKeys: seq<string> := [
    "provider_npi", "provider_fname", "provider_lname", "provider_gender",
    "provider_degree", "provider_speciality", "provider_healow_uri",
    "accept_new_patients"]

  /** `prov_dict.get(k)` finds the field, and it holds text. */
  predicate HasTextField(entry: Json, k: string) {
    entry.JObj? && k in entry.fields && entry.fields[k].JStr?
  }

  /** An entry carries every copied field as text. */
  predicate WellFormedEntry(entry: Json) {
    forall i :: 0 <= i < |ProviderKeys| ==> HasTextField(entry, ProviderKeys[i])
  }

  /** `prov_dict.get(k)` of one copied field, read as text. */
  function EntryText(entry: Json, k: string): (r: Result<string>)
    ensures r.Success? <==> HasTextField(entry, k)
    ensures r.Success? ==> Member(entry, k) == Success(JStr(r.value))
  {
    var v :- Get(entry, k, JNull);
    AsStr(v)
  }

  /** The copied fields of an entry, in the order of `keys`. */
  function EntryTexts(entry: Json, keys: seq<string>): (r: Result<seq<string>>)
    ensures r.Success? <==> forall i :: 0 <= i < |keys| ==> HasTextField(entry, keys[i])
    ensures r.Success? ==> |r.value| == |keys|
    ensures r.Success? ==> forall i :: 0 <= i < |keys| ==> Member(entry, keys[i]) == Success(JStr(r.value[i]))
  {
    MapAll(k => EntryText(entry, k), keys)
  }

  /** paa2.py `get_providers`, one list entry: the copied fields plus the
      facility the list was requested for. */
  function ProviderOf(entry: Json, facilityId: string): (r: Result<Provider>)
    ensures r.Success? <==> WellFormedEntry(entry)
    ensures r.Success? ==> r.value.facilityId == facilityId
    ensures r.Success? ==>
      && Member(entry, "provider_npi") == Success(JStr(r.value.npi))
      && Member(entry, "provider_fname") == Success(JStr(r.value.fname))
      && Member(entry, "provider_lname") == Success(JStr(r.value.lname))
      && Member(entry, "provider_gender") == Success(JStr(r.value.gender))
      && Member(entry, "provider_degree") == Success(JStr(r.value.degree))
      && Member(entry, "provider_speciality") == Success(JStr(r.value.speciality))
      && Member(entry, "provider_healow_uri") == Success(JStr(r.value.healowUri))
      && Member(entry, "accept_new_patients") == Success(JStr(r.value.acceptNewPatients))
  {
    var t :- EntryTexts(entry, ProviderKeys);
    Success(Provider(t[0], t[1], t[2], t[3], t[4], t[5], t[6], t[7], facilityId))
  }

  /** The entries of `response.prov_list` of a provider-list response. */
  function ProviderEntries(j: Json): Result<seq<Json>> {
    var response :- Member(j, "response");
    var list :- Member(response, "prov_list");
    Records(list)
  }

  /** The providers of one facility's list response: one per entry, in order. */
  function ProvidersOf(j: Json, facilityId: string): (r: Result<seq<Provider>>)
    ensures r.Success? <==> ProviderEntries(j).Success? && forall e :: e in ProviderEntries(j).value ==> WellFormedEntry(e)
    ensures r.Success? ==> |r.value| == |ProviderEntries(j).value|
    ensures r.Success? ==> forall i :: 0 <= i < |r.value| ==>
      ProviderOf(ProviderEntries(j).value[i], facilityId) == Success(r.value[i])
  {
    var entries :- ProviderEntries(j);
    ProvidersOfEntries(entries, facilityId)
  }

  function ProvidersOfEntries(entries: seq<Json>, facilityId: string): (r: Result<seq<Provider>>)
    ensures r.Success? <==> forall i :: 0 <= i < |entries| ==> WellFormedEntry(entries[i])
    ensures r.Success? ==> |r.value| == |entries|
    ensures r.Success? ==> forall i :: 0 <= i < |entries| ==> ProviderOf(entries[i], facilityId) == Success(r.value[i])
  {
    MapAll(e => ProviderOf(e, facilityId), entries)
  }

  /** Every provider read from a facility's list belongs to that facility. */
  lemma ProvidersOfFacility(j: Json, facilityId: string, q: Provider)
    requires ProvidersOf(j, facilityId).Success? && q in ProvidersOf(j, facilityId).value
    ensures q.facilityId == facilityId
  {
    var ps := ProvidersOf(j, facilityId).value;
    var k :| 0 <= k < |ps| && ps[k] == q;
    assert ProviderOf(ProviderEntries(j).value[k], facilityId) == Success(q);
  }

  /** paa2.py `get_providers`: the facility loop. `list(f)` is the decoded
      reply to facility `f`'s list request; the providers of each facility
      follow those of the facilities before it. */
  function ListedProviders(list: string -> Json, facilities: seq<string>): Result<seq<Provider>> {
    ConcatAll(f => ProvidersOf(list(f), f), facilities)
  }

  /** Facility `f`'s list reads, and `q` is one of its providers. */
  predicate Lists(list: string -> Json, f: string, q: Provider) {
    ProvidersOf(list(f), f).Success? && q in ProvidersOf(list(f), f).value
  }

  /** `q` is one of the providers listed for some facility, and carries
      that facility's id. */
  predicate ListedFor(list: string -> Json, facilities: seq<string>, q: Provider) {
    exists i :: 0 <= i < |facilities| && q.facilityId == facilities[i] && Lists(list, facilities[i], q)
  }

  /** The loop succeeds exactly when every facility's list reads; it then
      returns exactly the providers the facilities list, each tagged with
      its facility, the first facility's providers first and in order. */
  lemma ListedProvidersMeaning(list: string -> Json, facilities: seq<string>)
    ensures ListedProviders(list, facilities).Success? <==>
      forall i :: 0 <= i < |facilities| ==> ProvidersOf(list(facilities[i]), facilities[i]).Success?
    ensures ListedProviders(list, facilities).Success? ==>
      forall q :: q in ListedProviders(list, facilities).value ==> ListedFor(list, facilities, q)
    ensures ListedProviders(list, facilities).Success? ==>
      forall i, q :: 0 <= i < |facilities| && Lists(list, facilities[i], q) ==> q in ListedProviders(list, facilities).value
    ensures ListedProviders(list, facilities).Success? && |facilities| > 0 ==>
      ProvidersOf(list(facilities[0]), facilities[0]).value <= ListedProviders(list, facilities).value
  {
    var read := f => ProvidersOf(list(f), f);
    assert forall i :: 0 <= i < |facilities| ==> read(facilities[i]) == ProvidersOf(list(facilities[i]), facilities[i]);
    var r := ListedProviders(list, facilities);
    if r.Success? {
      forall q | q in r.value
        ensures ListedFor(list, facilities, q)
      {
        var i :| 0 <= i < |facilities| && q in read(facilities[i]).value;
        ProvidersOfFacility(list(facilities[i]), facilities[i], q);
        assert Lists(list, facilities[i], q);
      }
    }
  }

  /** The facilities whose provider lists `get_providers` requests, in order. */
  const ListedFacilities: seq<string> := ["1", "13", "20"]

  /** paa2.py `get_providers` over its three facilities: every provider
      returned was listed by one of them and carries its id. */
  function GetProviders(list: string -> Json): (r: Result<seq<Provider>>)
    ensures r.Success? <==>
      forall i :: 0 <= i < |ListedFacilities| ==> ProvidersOf(list(ListedFacilities[i]), ListedFacilities[i]).Success?
    ensures r.Success? ==> forall q :: q in r.value ==> ListedFor(list, ListedFacilities, q)
    ensures r.Success? ==> forall q :: q in r.value ==> q.facilityId in ListedFacilities
  {
    ListedProvidersMeaning(list, ListedFacilities);
    ListedProviders(list, ListedFacilities)
  }

  /** paa2.py `FacilityDateTimeSlot`. */
  datatype Slot = Slot(facilityId: string, date: string, time: string)

  /** The start time of the first request for a day. */
  const FirstStartTime := "06:00:00"

  /** The field the loop rewrites between requests. */
  const StartTimeKey := "start_time"

  /** The fields of a day's first request, in the order the payload lists them. */
  const SlotsKeys: seq<string> := [
    "npi", "apu_id", "facility_id", "appt_date", StartTimeKey,
    "end_time", "visit_type", "visit_code", "practice_visit_reason_id"]

  lemma SlotsKeysDistinct()
    ensures Distinct(SlotsKeys)
  {
    forall i, j | 0 <= i < j < |SlotsKeys|
      ensures SlotsKeys[i] != SlotsKeys[j]
    {
      var a, b := SlotsKeys[i], SlotsKeys[j];
      assert |a| != |b| || a[0] != b[0] || (|a| == 10 && a[6] != b[6]);
    }
  }

  /** The payload of the first request for `date`. */
  function SlotsPayload(p: Provider, date: string): (r: Payload)
    ensures r.Valid()
    ensures Lookup(r, StartTimeKey) == Some(FirstStartTime)
    ensures Lookup(r, "appt_date") == Some(date)
    ensures Lookup(r, "npi") == Some(p.npi) && Lookup(r, "facility_id") == Some(p.facilityId)
  {
    SlotsKeysDistinct();
    ODict(SlotsKeys,
      map[
        "apu_id" := "9296",
        "end_time" := "23:59:00",
        "visit_type" := "1",
        "visit_code" := "SICK",
        "practice_visit_reason_id" := "188344",
        "npi" := p.npi,
        "facility_id" := p.facilityId,
        "appt_date" := date,
        StartTimeKey := FirstStartTime])
  }

  /** A label `bin_time` can produce at the default width: bucketing it again changes nothing. */
  predicate IsBucketLabel(t: string) {
    BinTime(t, DefaultWidth) == Success(t)
  }

  /** Every slot belongs to the provider's facility and carries a bucket label. */
  ghost predicate SlotsOf(p: Provider, slots: seq<Slot>) {
    forall s :: s in slots ==> s.facilityId == p.facilityId && IsBucketLabel(s.time)
  }

  /** The slot one appointment record of a page stands for. */
  function SlotOf(p: Provider, appt: Json): (r: Result<Slot>)
    ensures r.Success? <==>
      && Member(appt, "date").Success? && Member(appt, "date").value.JStr?
      && Member(appt, "time").Success? && Member(appt, "time").value.JStr?
      && BinTime(Member(appt, "time").value.s, DefaultWidth).Success?
    ensures r.Success? ==>
      && Member(appt, "date") == Success(JStr(r.value.date))
      && BinTime(Member(appt, "time").value.s, DefaultWidth) == Success(r.value.time)
    ensures r.Success? ==> r.value.facilityId == p.facilityId && IsBucketLabel(r.value.time)
  {
    var date :- Member(appt, "date");
    var time :- Member(appt, "time");
    var raw :- AsStr(time);
    var bucket :- BinTime(raw, DefaultWidth);
    var day :- AsStr(date);
    BinTimeIdempotent(raw, DefaultWidth);
    Success(Slot(p.facilityId, day, bucket))
  }

  /** The slots of a page's appointment records, one per record and in
      order; the first bad record fails the page. */
  function PageSlots(p: Provider, appts: seq<Json>): (r: Result<seq<Slot>>)
    ensures r.Success? <==> forall i :: 0 <= i < |appts| ==> SlotOf(p, appts[i]).Success?
    ensures r.Success? ==> |r.value| == |appts|
    ensures r.Success? ==> forall i :: 0 <= i < |appts| ==> r.value[i] == SlotOf(p, appts[i]).value
  {
    MapAll(a => SlotOf(p, a), appts)
  }

  /** What one response says: the service ended the stream (any status but
      `success`), or a page of slots with the cursor to continue from when
      `more` is set. */
  datatype Page = EndOfStream | Page(cursor: Option<string>, slots: seq<Slot>)

  /** How the loop reads one response: as a page, as the end of the stream,
      or as the exception reading it raises. */
  type PageReader = Json -> Result<Page>

  /** `next_start_time`, read only when `more` is truthy. */
  function Cursor(info: Json, more: Json): (r: Result<Option<string>>)
    ensures !Truthy(more) ==> r == Success(None)
    ensures Truthy(more) ==>
      (r.Success? <==> Member(info, "next_start_time").Success? && Member(info, "next_start_time").value.JStr?)
    ensures r.Success? && r.value.Some? ==>
      Truthy(more) && Member(info, "next_start_time") == Success(JStr(r.value.value))
    ensures Truthy(more) && r.Success? ==> r.value.Some?
  {
    if Truthy(more) then
      var next :- Member(info, "next_start_time");
      var s :- AsStr(next);
      Success(Some(s))
    else Success(None)
  }

  /** `response.appt_more_slots` of a slot response. */
  function MoreInfo(j: Json): Result<Json> {
    var response :- Member(j, "response");
    Member(response, "appt_more_slots")
  }

  /** The cursor of a slot response, read from its `more` and
      `next_start_time`. */
  function PageCursor(j: Json): Result<Option<string>> {
    var info :- MoreInfo(j);
    var more :- Member(info, "more");
    Cursor(info, more)
  }

  /** The appointment records of a slot response: `appt_slots`, or none
      when the field is absent. */
  function PageRecords(j: Json): Result<seq<Json>> {
    var info :- MoreInfo(j);
    var appts :- Get(info, "appt_slots", JArr([]));
    Records(appts)
  }

  /** One iteration's reading of a response. */
  function ReadPage(p: Provider, j: Json): (r: Result<Page>)
    ensures Member(j, "status").Success? && Member(j, "status").value != JStr("success") ==> r == Success(EndOfStream)
    ensures Member(j, "status") == Success(JStr("success")) ==>
      (r.Success? <==>
        && PageCursor(j).Success? && PageRecords(j).Success?
        && forall i :: 0 <= i < |PageRecords(j).value| ==> SlotOf(p, PageRecords(j).value[i]).Success?)
    ensures Member(j, "status") == Success(JStr("success")) && r.Success? ==> r.value.Page?
    ensures r.Success? && r.value.Page? ==>
      && Member(j, "status") == Success(JStr("success"))
      && PageCursor(j) == Success(r.value.cursor)
      && PageRecords(j).Success? && |r.value.slots| == |PageRecords(j).value|
      && forall i :: 0 <= i < |r.value.slots| ==> SlotOf(p, PageRecords(j).value[i]) == Success(r.value.slots[i])
    ensures r.Success? && r.value.Page? ==> SlotsOf(p, r.value.slots)
  {
    var status :- Member(j, "status");
    if status != JStr("success") then Success(EndOfStream)
    else
      var response :- Member(j, "response");
      var info :- Member(response, "appt_more_slots");
      var more :- Member(info, "more");
      var cursor :- Cursor(info, more);
      var appts :- Get(info, "appt_slots", JArr([]));
      var records :- Records(appts);
      var slots :- PageSlots(p, records);
      Success(Page(cursor, slots))
  }

  /** The reader of the responses to `p`'s slot requests: any status but
      `success` ends the stream, and every page holds `p`'s slots only. */
  function ReaderOf(p: Provider): (read: PageReader)
    ensures forall j :: Member(j, "status").Success? && Member(j, "status").value != JStr("success") ==>
      read(j) == Success(EndOfStream)
    ensures forall j :: read(j).Success? && read(j).value.Page? ==> SlotsOf(p, read(j).value.slots)
  {
    j => ReadPage(p, j)
  }

  /** The cursor a response hands the walk: that of a page with `more` set,
      and nothing for a final page, an end of stream or an error. */
  function CursorOf(read: PageReader, j: Json): Option<string> {
    var r := read(j);
    if r.Success? && r.value.Page? then r.value.cursor else None
  }

  /** The response continues the walk: a page that carries a cursor. */
  predicate HasCursor(read: PageReader, j: Json) {
    CursorOf(read, j).Some?
  }

  /** The response is a final page: `more` is falsy. */
  predicate IsLastPage(read: PageReader, j: Json) {
    var r := read(j);
    r.Success? && r.value.Page? && r.value.cursor.None?
  }

  /** The slots a response contributes if the walk reads it. */
  function PageSlotsOf(read: PageReader, j: Json): seq<Slot> {
    var r := read(j);
    if r.Success? && r.value.Page? then r.value.slots else []
  }

  /** The slots of a run of responses, in order. */
  function SlotsOfPages(read: PageReader, js: seq<Json>): seq<Slot>
    decreases |js|
  {
    if |js| == 0 then [] else PageSlotsOf(read, js[0]) + SlotsOfPages(read, js[1..])
  }

  /** The request agrees with `payload` on every field but the start time. */
  ghost predicate SameButStart(q: Payload, payload: Payload) {
    && q.keys == payload.keys
    && q.vals - {StartTimeKey} == payload.vals - {StartTimeKey}
  }

  /** Rewriting the start time of a request leaves every other field as it was. */
  lemma PutStart(payload: Payload, next: string)
    requires payload.Valid() && StartTimeKey in payload.vals
    ensures SameButStart(Put(payload, StartTimeKey, next), payload)
  {
    var q := Put(payload, StartTimeKey, next);
    assert q.vals - {StartTimeKey} == payload.vals - {StartTimeKey} by {
      forall k | k in q.vals - {StartTimeKey}
        ensures k in payload.vals - {StartTimeKey} && q.vals[k] == payload.vals[k]
      {
        assert Lookup(q, k) == Lookup(payload, k);
      }
      forall k | k in payload.vals - {StartTimeKey}
        ensures k in q.vals - {StartTimeKey}
      {
        assert Lookup(q, k) == Lookup(payload, k);
      }
    }
  }

  /** paa2.py `_get_provider_slots_for_date` loop, from the request `payload`
      on: post, stop on a non-success status, otherwise collect the page and
      go on from `next_start_time` while `more` is truthy. */
  function Walk(read: PageReader, payload: Payload, responses: seq<Json>): (t: Trace<seq<Slot>>)
    requires payload.Valid() && StartTimeKey in payload.vals
    ensures |t.requests| >= 1 && t.requests[0] == payload
    ensures |t.rest| <= |responses| && Unread(t.rest, responses)
    ensures t.result.Success? ==> |t.requests| == |responses| - |t.rest|
    decreases |responses|
  {
    if |responses| == 0 then Trace([payload], [], Failure(RequestError))
    else
      var rest := responses[1..];
      UnreadTail(responses);
      match read(responses[0])
      case Failure(e) => Trace([payload], rest, Failure(e))
      case Success(EndOfStream) => Trace([payload], rest, Success([]))
      case Success(Page(None, slots)) => Trace([payload], rest, Success(slots))
      case Success(Page(Some(next), slots)) =>
        var t := Walk(read, Put(payload, StartTimeKey, next), rest);
        UnreadTrans(responses, rest, t.rest);
        Trace([payload] + t.requests, t.rest,
          if t.result.Success? then Success(slots + t.result.value) else t.result)
  }

  /** The first request of a day starts at 06:00:00, and every request keeps
      every other field of the first. */
  lemma WalkDayRequests(p: Provider, date: string, responses: seq<Json>)
    ensures var t := Walk(ReaderOf(p), SlotsPayload(p, date), responses);
      && Lookup(t.requests[0], StartTimeKey) == Some(FirstStartTime)
      && forall i :: 0 <= i < |t.requests| ==> SameButStart(t.requests[i], SlotsPayload(p, date))
  {
    WalkSame(ReaderOf(p), SlotsPayload(p, date), responses);
  }

  /** Every request of a walk agrees with its first on every field but the
      start time. */
  lemma {:induction false} WalkSame(read: PageReader, payload: Payload, responses: seq<Json>)
    requires payload.Valid() && StartTimeKey in payload.vals
    ensures var t := Walk(read, payload, responses);
      forall i :: 0 <= i < |t.requests| ==> SameButStart(t.requests[i], payload)
    decreases |responses|
  {
    var t := Walk(read, payload, responses);
    if |responses| > 0 && HasCursor(read, responses[0]) {
      var next := CursorOf(read, responses[0]).value;
      var q := Put(payload, StartTimeKey, next);
      var u := Walk(read, q, responses[1..]);
      WalkSame(read, q, responses[1..]);
      PutStart(payload, next);
      WalkCursorStep(read, payload, responses);
      forall i | 0 <= i < |t.requests|
        ensures SameButStart(t.requests[i], payload)
      {
        if i > 0 {
          assert t.requests[i] == u.requests[i - 1];
        }
      }
    }
  }

  /** The start time of each request, in order. */
  function StartsOf(requests: seq<Payload>): (starts: seq<Option<string>>)
    ensures |starts| == |requests|
    ensures forall i :: 0 <= i < |requests| ==> starts[i] == Lookup(requests[i], StartTimeKey)
    decreases |requests|
  {
    if |requests| == 0 then [] else [Lookup(requests[0], StartTimeKey)] + StartsOf(requests[1..])
  }

  /** The cursor of each response, in order. */
  function CursorsOf(read: PageReader, responses: seq<Json>): (cursors: seq<Option<string>>)
    ensures |cursors| == |responses|
    ensures forall i :: 0 <= i < |responses| ==> cursors[i] == CursorOf(read, responses[i])
    decreases |responses|
  {
    if |responses| == 0 then [] else [CursorOf(read, responses[0])] + CursorsOf(read, responses[1..])
  }

  /** Request `i + 1` starts at the cursor of response `i`, which had one. */
  ghost predicate ChainsAt(starts: seq<Option<string>>, cursors: seq<Option<string>>, i: nat)
    requires i + 1 < |starts|
  {
    i < |cursors| && cursors[i].Some? && starts[i + 1] == cursors[i]
  }

  /** Every request after the first follows the cursor before it, and the
      response to the last request, if any, had none. */
  ghost predicate FollowsCursors(starts: seq<Option<string>>, cursors: seq<Option<string>>) {
    && |starts| >= 1
    && (forall i: nat :: i + 1 < |starts| ==> ChainsAt(starts, cursors, i))
    && (|starts| - 1 < |cursors| ==> cursors[|starts| - 1].None?)
  }

  lemma FollowsCursorsCons(start: Option<string>, starts: seq<Option<string>>, cursor: Option<string>, cursors: seq<Option<string>>)
    requires cursor.Some? && |starts| >= 1 && starts[0] == cursor
    requires FollowsCursors(starts, cursors)
    ensures FollowsCursors([start] + starts, [cursor] + cursors)
  {
    var s := [start] + starts;
    var c := [cursor] + cursors;
    forall i: nat | i + 1 < |s|
      ensures ChainsAt(s, c, i)
    {
      assert s[i + 1] == starts[i];
      if i > 0 {
        assert ChainsAt(starts, cursors, i - 1);
        assert c[i] == cursors[i - 1];
      }
    }
    if |s| - 1 < |c| {
      assert c[|s| - 1] == cursors[|starts| - 1];
    }
  }

  /** A page with a cursor makes the walk post once more, from that cursor. */
  lemma WalkCursorStep(read: PageReader, payload: Payload, responses: seq<Json>)
    requires payload.Valid() && StartTimeKey in payload.vals
    requires |responses| > 0 && HasCursor(read, responses[0])
    ensures var next := CursorOf(read, responses[0]).value;
      var u := Walk(read, Put(payload, StartTimeKey, next), responses[1..]);
      && Walk(read, payload, responses).requests == [payload] + u.requests
      && Lookup(u.requests[0], StartTimeKey) == Some(next)
  {
  }

  /** The start time changes only to a cursor: request `i + 1` is sent
      because response `i` was a page with `more` set, and starts at that
      page's `next_start_time`; the walk stops after the first response
      that is not such a page. */
  lemma {:induction false} WalkCursors(read: PageReader, payload: Payload, responses: seq<Json>)
    requires payload.Valid() && StartTimeKey in payload.vals
    ensures FollowsCursors(StartsOf(Walk(read, payload, responses).requests), CursorsOf(read, responses))
    decreases |responses|
  {
    var t := Walk(read, payload, responses);
    if |responses| > 0 && HasCursor(read, responses[0]) {
      var next := CursorOf(read, responses[0]).value;
      var payload' := Put(payload, StartTimeKey, next);
      var u := Walk(read, payload', responses[1..]);
      WalkCursors(read, payload', responses[1..]);
      WalkCursorStep(read, payload, responses);
      assert StartsOf(t.requests) == [Lookup(payload, StartTimeKey)] + StartsOf(u.requests);
      FollowsCursorsCons(Lookup(payload, StartTimeKey), StartsOf(u.requests), CursorOf(read, responses[0]), CursorsOf(read, responses[1..]));
    } else {
      assert |t.requests| == 1;
    }
  }

  lemma {:induction false} SlotsOfPagesConcat(read: PageReader, a: seq<Json>, b: seq<Json>)
    ensures SlotsOfPages(read, a + b) == SlotsOfPages(read, a) + SlotsOfPages(read, b)
    decreases |a|
  {
    if |a| == 0 {
      assert a + b == b;
    } else {
      assert (a + b)[0] == a[0];
      assert (a + b)[1..] == a[1..] + b;
      SlotsOfPagesConcat(read, a[1..], b);
    }
  }

  /** A successful walk returns the slots of the pages it read, concatenated
      in the order the service sent them: with the slots of the responses it
      left unread, they make up the slots of all the responses. */
  lemma {:induction false} WalkPages(read: PageReader, payload: Payload, responses: seq<Json>)
    requires payload.Valid() && StartTimeKey in payload.vals
    ensures var t := Walk(read, payload, responses);
      t.result.Success? ==> SlotsOfPages(read, responses) == t.result.value + SlotsOfPages(read, t.rest)
    decreases |responses|
  {
    var t := Walk(read, payload, responses);
    if |responses| > 0 && t.result.Success? && HasCursor(read, responses[0]) {
      WalkPages(read, Put(payload, StartTimeKey, CursorOf(read, responses[0]).value), responses[1..]);
    }
  }

  /** The slots of a run of responses split into those of its first
      `|responses| - |rest|` and those of the suffix `rest`. */
  lemma PagesRead(read: PageReader, responses: seq<Json>, slots: seq<Slot>, rest: seq<Json>)
    requires Unread(rest, responses)
    requires SlotsOfPages(read, responses) == slots + SlotsOfPages(read, rest)
    ensures |rest| <= |responses| && slots == SlotsOfPages(read, responses[..|responses| - |rest|])
  {
    UnreadSuffix(rest, responses);
    var read' := responses[..|responses| - |rest|];
    assert responses == read' + rest;
    SlotsOfPagesConcat(read, read', rest);
    var a := SlotsOfPages(read, read');
    assert |a| == |slots|;
    assert a == (a + SlotsOfPages(read, rest))[..|a|];
  }

  /** `k` pages with `more` set followed by one without it, or by the end of
      the stream, take exactly `k + 1` requests, succeed, and leave the
      later responses unread. */
  lemma {:induction false} WalkCount(read: PageReader, payload: Payload, responses: seq<Json>, k: nat)
    requires payload.Valid() && StartTimeKey in payload.vals
    requires k < |responses|
    requires forall i :: 0 <= i < k ==> HasCursor(read, responses[i])
    requires IsLastPage(read, responses[k]) || read(responses[k]) == Success(EndOfStream)
    ensures var t := Walk(read, payload, responses);
      |t.requests| == k + 1 && t.result.Success? && t.rest == responses[k + 1..]
    decreases k
  {
    if k > 0 {
      forall i | 0 <= i < k - 1
        ensures HasCursor(read, responses[1..][i])
      {
        assert responses[1..][i] == responses[i + 1];
      }
      WalkCount(read, Put(payload, StartTimeKey, CursorOf(read, responses[0]).value), responses[1..], k - 1);
      assert responses[1..][k..] == responses[k + 1..];
    }
  }

  /** A first response whose status is not `success` ends the walk at once,
      without error and with no slots. */
  lemma WalkStopsOnStatus(p: Provider, payload: Payload, responses: seq<Json>)
    requires payload.Valid() && StartTimeKey in payload.vals
    requires |responses| >= 1
    requires Member(responses[0], "status").Success?
    requires Member(responses[0], "status").value != JStr("success")
    ensures Walk(ReaderOf(p), payload, responses) == Trace([payload], responses[1..], Success([]))
  {
  }

  /** The text of day `today + d`, written by the injected calendar formatter. */
  function DateOf(dateText: int -> string, today: int, d: int): string {
    dateText(today + d)
  }

  /** The dates `_get_provider_slots` asks for: `n_days` consecutive days from
      `today`. */
  function Days(today: int, nDays: int, dateText: int -> string): (days: seq<string>)
    ensures |days| == if nDays > 0 then nDays else 0
    ensures forall d :: 0 <= d < |days| ==> days[d] == DateOf(dateText, today, d)
  {
    seq(if nDays > 0 then nDays else 0, d => DateOf(dateText, today, d))
  }

  /** Every first request is a well-formed payload with a start time. */
  ghost predicate ValidFirsts(firsts: seq<Payload>)
    decreases |firsts|
  {
    |firsts| > 0 ==> firsts[0].Valid() && StartTimeKey in firsts[0].vals && ValidFirsts(firsts[1..])
  }

  /** The day loop of `_get_provider_slots`, from the first request of each
      day: walk each day in turn on the same connection and concatenate the
      days' slots; the first failing day ends the retrieval. */
  function WalkDays(read: PageReader, firsts: seq<Payload>, responses: seq<Json>): (t: Trace<seq<Slot>>)
    requires ValidFirsts(firsts)
    ensures |t.rest| <= |responses| && Unread(t.rest, responses)
    ensures t.result.Success? ==> |t.requests| == |responses| - |t.rest|
    decreases |firsts|
  {
    if |firsts| == 0 then Trace([], responses, Success([]))
    else
      var t := Walk(read, firsts[0], responses);
      if t.result.Failure? then t
      else
        var u := WalkDays(read, firsts[1..], t.rest);
        UnreadTrans(responses, t.rest, u.rest);
        Trace(t.requests + u.requests, u.rest,
          if u.result.Success? then Success(t.result.value + u.result.value) else u.result)
  }

  /** The first request of each day, in day order. */
  function FirstRequests(p: Provider, days: seq<string>): (firsts: seq<Payload>)
    ensures |firsts| == |days|
    ensures ValidFirsts(firsts)
    decreases |days|
  {
    if |days| == 0 then [] else [SlotsPayload(p, days[0])] + FirstRequests(p, days[1..])
  }

  /** paa2.py `_get_provider_slots`: the day loop over `days` for `p`. */
  function ProviderSlots(p: Provider, days: seq<string>, responses: seq<Json>): (t: Trace<seq<Slot>>)
    ensures |t.rest| <= |responses| && Unread(t.rest, responses)
    ensures t.result.Success? ==> |t.requests| == |responses| - |t.rest|
  {
    WalkDays(ReaderOf(p), FirstRequests(p, days), responses)
  }

  /** The requests fall into one non-empty block per day, in day order, every
      request of a block agreeing with that day's first request on every
      field but the start time. */
  ghost predicate GroupedBy(requests: seq<Payload>, firsts: seq<Payload>)
    decreases |firsts|
  {
    if |firsts| == 0 then |requests| == 0
    else
      exists n :: 1 <= n <= |requests|
        && (forall i :: 0 <= i < n ==> SameButStart(requests[i], firsts[0]))
        && GroupedBy(requests[n..], firsts[1..])
  }

  lemma GroupedCons(a: seq<Payload>, b: seq<Payload>, firsts: seq<Payload>)
    requires |firsts| >= 1 && |a| >= 1
    requires forall i :: 0 <= i < |a| ==> SameButStart(a[i], firsts[0])
    requires GroupedBy(b, firsts[1..])
    ensures GroupedBy(a + b, firsts)
  {
    var r := a + b;
    assert r[|a|..] == b;
    assert forall i :: 0 <= i < |a| ==> r[i] == a[i];
  }

  /** A successful day loop is a successful first day followed by a
      successful loop over the remaining days from where the first stopped. */
  lemma WalkDaysStep(read: PageReader, firsts: seq<Payload>, responses: seq<Json>)
    requires ValidFirsts(firsts)
    requires |firsts| > 0 && WalkDays(read, firsts, responses).result.Success?
    ensures var t := WalkDays(read, firsts, responses);
      var w := Walk(read, firsts[0], responses);
      var u := WalkDays(read, firsts[1..], w.rest);
      && w.result.Success? && u.result.Success?
      && t.requests == w.requests + u.requests
      && t.result.value == w.result.value + u.result.value
      && t.rest == u.rest
  {
  }

  /** A successful day loop posts one non-empty block of requests per day,
      in day order. */
  lemma {:induction false} WalkDaysGrouped(read: PageReader, firsts: seq<Payload>, responses: seq<Json>)
    requires ValidFirsts(firsts)
    ensures var t := WalkDays(read, firsts, responses);
      t.result.Success? ==> GroupedBy(t.requests, firsts)
    decreases |firsts|
  {
    var t := WalkDays(read, firsts, responses);
    if |firsts| > 0 && t.result.Success? {
      var w := Walk(read, firsts[0], responses);
      WalkDaysStep(read, firsts, responses);
      WalkDaysGrouped(read, firsts[1..], w.rest);
      WalkSame(read, firsts[0], responses);
      GroupedCons(w.requests, WalkDays(read, firsts[1..], w.rest).requests, firsts);
    }
  }

  /** A successful day loop returns the slots of every page read, in the
      order received: with the slots of the responses left unread, they make
      up the slots of all the responses. */
  lemma {:induction false} WalkDaysPages(read: PageReader, firsts: seq<Payload>, responses: seq<Json>)
    requires ValidFirsts(firsts)
    ensures var t := WalkDays(read, firsts, responses);
      t.result.Success? ==> SlotsOfPages(read, responses) == t.result.value + SlotsOfPages(read, t.rest)
    decreases |firsts|
  {
    var t := WalkDays(read, firsts, responses);
    if |firsts| > 0 && t.result.Success? {
      var w := Walk(read, firsts[0], responses);
      WalkDaysStep(read, firsts, responses);
      WalkPages(read, firsts[0], responses);
      WalkDaysPages(read, firsts[1..], w.rest);
    }
  }

  /** The requests fall into one non-empty block per day, in day order, every
      request of a block asking for that block's date. */
  ghost predicate GroupedByDay(requests: seq<Payload>, days: seq<string>)
    decreases |days|
  {
    if |days| == 0 then |requests| == 0
    else
      exists n :: 1 <= n <= |requests|
        && (forall i :: 0 <= i < n ==> Lookup(requests[i], "appt_date") == Some(days[0]))
        && GroupedByDay(requests[n..], days[1..])
  }

  /** A request that differs from a day's first request only in its start
      time asks for that day. */
  lemma SameDay(q: Payload, p: Provider, date: string)
    requires SameButStart(q, SlotsPayload(p, date))
    ensures Lookup(q, "appt_date") == Some(date)
  {
    assert "appt_date" != StartTimeKey;
    assert "appt_date" in SlotsPayload(p, date).vals - {StartTimeKey};
  }

  lemma {:induction false} GroupedDays(requests: seq<Payload>, p: Provider, days: seq<string>)
    requires GroupedBy(requests, FirstRequests(p, days))
    ensures GroupedByDay(requests, days)
    decreases |days|
  {
    var firsts := FirstRequests(p, days);
    if |days| > 0 {
      var n :| 1 <= n <= |requests|
        && (forall i :: 0 <= i < n ==> SameButStart(requests[i], firsts[0]))
        && GroupedBy(requests[n..], firsts[1..]);
      forall i | 0 <= i < n
        ensures Lookup(requests[i], "appt_date") == Some(days[0])
      {
        SameDay(requests[i], p, days[0]);
      }
      assert firsts[1..] == FirstRequests(p, days[1..]);
      GroupedDays(requests[n..], p, days[1..]);
    }
  }

  /** A successful retrieval asks for every day, in order, at least once, and
      its slots are those of every page read, in the order received. */
  lemma ProviderSlotsByDay(p: Provider, days: seq<string>, responses: seq<Json>)
    ensures var t := ProviderSlots(p, days, responses);
      t.result.Success? ==>
        && GroupedByDay(t.requests, days)
        && t.result.value == SlotsOfPages(ReaderOf(p), responses[..|t.requests|])
  {
    var t := ProviderSlots(p, days, responses);
    WalkDaysGrouped(ReaderOf(p), FirstRequests(p, days), responses);
    WalkDaysPages(ReaderOf(p), FirstRequests(p, days), responses);
    if t.result.Success? {
      GroupedDays(t.requests, p, days);
      PagesRead(ReaderOf(p), responses, t.result.value, t.rest);
    }
  }

  /** Every request of a day-grouped run asks for one of the days. */
  lemma {:induction false} GroupedDatesAsked(requests: seq<Payload>, days: seq<string>)
    requires GroupedByDay(requests, days)
    ensures forall i :: 0 <= i < |requests| ==>
      exists d :: 0 <= d < |days| && Lookup(requests[i], "appt_date") == Some(days[d])
    decreases |days|
  {
    if |days| > 0 {
      var n :| 1 <= n <= |requests|
        && (forall i :: 0 <= i < n ==> Lookup(requests[i], "appt_date") == Some(days[0]))
        && GroupedByDay(requests[n..], days[1..]);
      var rest := requests[n..];
      GroupedDatesAsked(rest, days[1..]);
      forall i | n <= i < |requests|
        ensures exists d :: 0 <= d < |days| && Lookup(requests[i], "appt_date") == Some(days[d])
      {
        assert rest[i - n] == requests[i];
        var d :| 0 <= d < |days[1..]| && Lookup(rest[i - n], "appt_date") == Some(days[1..][d]);
        assert days[1..][d] == days[d + 1];
      }
    }
  }

  /** Every day of a day-grouped run is asked for. */
  lemma {:induction false} GroupedDatesCovered(requests: seq<Payload>, days: seq<string>)
    requires GroupedByDay(requests, days)
    ensures forall d :: 0 <= d < |days| ==>
      exists i :: 0 <= i < |requests| && Lookup(requests[i], "appt_date") == Some(days[d])
    decreases |days|
  {
    if |days| > 0 {
      var n :| 1 <= n <= |requests|
        && (forall i :: 0 <= i < n ==> Lookup(requests[i], "appt_date") == Some(days[0]))
        && GroupedByDay(requests[n..], days[1..]);
      var rest := requests[n..];
      GroupedDatesCovered(rest, days[1..]);
      assert Lookup(requests[0], "appt_date") == Some(days[0]);
      forall d | 1 <= d < |days|
        ensures exists i :: 0 <= i < |requests| && Lookup(requests[i], "appt_date") == Some(days[d])
      {
        assert days[1..][d - 1] == days[d];
        var i :| 0 <= i < |rest| && Lookup(rest[i], "appt_date") == Some(days[1..][d - 1]);
        assert rest[i] == requests[n + i];
      }
    }
  }

  /** `_get_provider_slots` over `n_days` days from `today`: on success every
      request asks for one of those days and each of them is asked for, the
      requests for day `today + d` forming the `d`-th block; with no days
      nothing is posted. */
  lemma DaysRequested(p: Provider, today: int, nDays: int, dateText: int -> string, responses: seq<Json>)
    ensures var t := ProviderSlots(p, Days(today, nDays, dateText), responses);
      t.result.Success? ==>
        && GroupedByDay(t.requests, Days(today, nDays, dateText))
        && (forall i :: 0 <= i < |t.requests| ==>
              exists d :: 0 <= d < nDays && Lookup(t.requests[i], "appt_date") == Some(DateOf(dateText, today, d)))
        && (forall d :: 0 <= d < nDays ==>
              exists i :: 0 <= i < |t.requests| && Lookup(t.requests[i], "appt_date") == Some(DateOf(dateText, today, d)))
    ensures nDays <= 0 ==> ProviderSlots(p, Days(today, nDays, dateText), responses) == Trace([], responses, Success([]))
  {
    var days := Days(today, nDays, dateText);
    var t := ProviderSlots(p, days, responses);
    ProviderSlotsByDay(p, days, responses);
    if t.result.Success? {
      GroupedDatesAsked(t.requests, days);
      GroupedDatesCovered(t.requests, days);
      forall i | 0 <= i < |t.requests|
        ensures exists d :: 0 <= d < nDays && Lookup(t.requests[i], "appt_date") == Some(DateOf(dateText, today, d))
      {
        var d :| 0 <= d < |days| && Lookup(t.requests[i], "appt_date") == Some(days[d]);
        assert days[d] == DateOf(dateText, today, d);
      }
      forall d | 0 <= d < nDays
        ensures exists i :: 0 <= i < |t.requests| && Lookup(t.requests[i], "appt_date") == Some(DateOf(dateText, today, d))
      {
        assert days[d] == DateOf(dateText, today, d);
      }
    }
  }

  /** Slot `s` stands for an appointment record of the `success` response `j`. */
  ghost predicate RecordSlot(p: Provider, j: Json, s: Slot) {
    && Member(j, "status") == Success(JStr("success"))
    && PageRecords(j).Success?
    && exists k :: 0 <= k < |PageRecords(j).value| && SlotOf(p, PageRecords(j).value[k]) == Success(s)
  }

  /** Slot `s` stands for an appointment record of one of the `success`
      responses `js`. */
  ghost predicate FromRecord(p: Provider, js: seq<Json>, s: Slot) {
    exists i :: 0 <= i < |js| && RecordSlot(p, js[i], s)
  }

  /** Each slot of a page read for `p` stands for one of its records. */
  lemma PageFromRecords(p: Provider, j: Json, s: Slot)
    requires s in PageSlotsOf(ReaderOf(p), j)
    ensures RecordSlot(p, j, s)
  {
    var r := ReadPage(p, j);
    assert ReaderOf(p)(j) == r;
    var k :| 0 <= k < |r.value.slots| && r.value.slots[k] == s;
    assert SlotOf(p, PageRecords(j).value[k]) == Success(s);
  }

  lemma {:induction false} PagesFromRecords(p: Provider, js: seq<Json>)
    ensures forall s :: s in SlotsOfPages(ReaderOf(p), js) ==> FromRecord(p, js, s)
    decreases |js|
  {
    if |js| > 0 {
      var read, rest := ReaderOf(p), js[1..];
      PagesFromRecords(p, rest);
      assert SlotsOfPages(read, js) == PageSlotsOf(read, js[0]) + SlotsOfPages(read, rest);
      forall s | s in SlotsOfPages(read, js)
        ensures FromRecord(p, js, s)
      {
        if s in PageSlotsOf(read, js[0]) {
          PageFromRecords(p, js[0], s);
          assert RecordSlot(p, js[0], s);
        } else {
          var i :| 0 <= i < |rest| && RecordSlot(p, rest[i], s);
          assert rest[i] == js[i + 1];
        }
      }
    }
  }

  /** Every slot any page of `p` carries belongs to `p`'s facility and has a
      bucket label. */
  lemma {:induction false} PagesSlotsOf(p: Provider, js: seq<Json>)
    ensures SlotsOf(p, SlotsOfPages(ReaderOf(p), js))
    decreases |js|
  {
    if |js| > 0 {
      assert ReaderOf(p)(js[0]) == ReadPage(p, js[0]);
      PagesSlotsOf(p, js[1..]);
    }
  }

  /** Every slot a successful retrieval returns belongs to the provider's
      facility, carries a fifteen-minute bucket label, and is the slot of an
      appointment record of a `success` response it read. */
  lemma ProviderSlotsOf(p: Provider, days: seq<string>, responses: seq<Json>)
    ensures var t := ProviderSlots(p, days, responses);
      t.result.Success? ==> SlotsOf(p, t.result.value)
    ensures var t := ProviderSlots(p, days, responses);
      t.result.Success? ==>
        && |t.requests| <= |responses|
        && forall s :: s in t.result.value ==> FromRecord(p, responses[..|t.requests|], s)
  {
    var t := ProviderSlots(p, days, responses);
    ProviderSlotsByDay(p, days, responses);
    if t.result.Success? {
      PagesSlotsOf(p, responses[..|t.requests|]);
      PagesFromRecords(p, responses[..|t.requests|]);
    }
  }
}
