/**
 paa.py `provider_info_to_table_dicts`: pivot the filled provider records
 into one table per facility, from a ten-minute `dateTHH:MM` key to the
 `[time] name (degree)` entries falling in it.
 */
module ScheduleTable {
  import opened Wrappers
  import opened OrderedMaps
  import opened TimeBin
  import opened ScheduleExtract

  /** One facility's table: key to entries, in insertion order. */
  type Table = ODict<string, seq<string>>

  /** The text shown for one time of one provider. */
  function EntryText(time: string, info: ProviderInfo): string {
    "[" + time + "] " + info.name + " (" + info.degree + ")"
  }

  /** Every time listed for `date` reads as `H:M`. */
  ghost predicate Readable(date: string, times: seq<string>) {
    forall i :: 0 <= i < |times| ==> TableKey(date, times[i]).Success?
  }

  /** The entries of one date's times, in order. */
  function DateEntries(date: string, times: seq<string>, info: ProviderInfo): (r: Result<seq<(string, string)>>)
    ensures r.Success? <==> Readable(date, times)
    ensures r.Success? ==> |r.value| == |times|
    ensures r.Success? ==> forall i :: 0 <= i < |times| ==>
      r.value[i] == (TableKey(date, times[i]).value, EntryText(times[i], info))
    decreases |times|
  {
    if |times| == 0 then Success([])
    else
      var key :- TableKey(date, times[0]);
      var rest :- DateEntries(date, times[1..], info);
      assert forall i :: 1 <= i < |times| ==> times[1..][i - 1] == times[i];
      Success([(key, EntryText(times[0], info))] + rest)
  }

  /** The entries of the dates `dates` of the provider's times, in order. */
  function DatesEntries(dates: seq<string>, info: ProviderInfo): (r: Result<seq<(string, string)>>)
    requires forall d :: d in dates ==> d in info.timeSlots.vals
    ensures r.Success? <==> forall d :: d in dates ==> Readable(d, info.timeSlots.vals[d])
    ensures r.Success? ==> |r.value| == SumLengths(dates, info.timeSlots.vals)
    decreases |dates|
  {
    if |dates| == 0 then Success([])
    else
      var date := dates[|dates| - 1];
      var prefix :- DatesEntries(dates[..|dates| - 1], info);
      var last :- DateEntries(date, info.timeSlots.vals[date], info);
      Success(prefix + last)
  }

  /** Every entry of one provider, date by date in dictionary order. */
  function ProviderEntries(info: ProviderInfo): (r: Result<seq<(string, string)>>)
    requires info.timeSlots.Valid()
    ensures r.Success? ==> |r.value| == TotalLength(info.timeSlots)
  {
    DatesEntries(info.timeSlots.keys, info)
  }

  /** `e` is the entry of time `i` of date `d` of the provider's times. */
  ghost predicate EntryAt(info: ProviderInfo, d: string, i: int, e: (string, string)) {
    && d in info.timeSlots.vals && 0 <= i < |info.timeSlots.vals[d]|
    && var t := info.timeSlots.vals[d][i];
       TableKey(d, t).Success? && e == (TableKey(d, t).value, EntryText(t, info))
  }

  /** Time `i` of date `d` has its entry in `r`. */
  ghost predicate Entered(r: seq<(string, string)>, info: ProviderInfo, d: string, i: int) {
    exists e :: e in r && EntryAt(info, d, i, e)
  }

  /** Each entry of the dates `dates` is that of some time of a listed date. */
  lemma {:induction false} DatesEntriesFrom(dates: seq<string>, info: ProviderInfo)
    requires forall d :: d in dates ==> d in info.timeSlots.vals
    requires DatesEntries(dates, info).Success?
    ensures forall e :: e in DatesEntries(dates, info).value ==> exists d, i :: d in dates && EntryAt(info, d, i, e)
    decreases |dates|
  {
    if |dates| > 0 {
      var before, date := dates[..|dates| - 1], dates[|dates| - 1];
      DatesEntriesSplit(dates, info);
      var prefix := DatesEntries(before, info).value;
      var last := DateEntries(date, info.timeSlots.vals[date], info).value;
      var r := DatesEntries(dates, info).value;
      DatesEntriesFrom(before, info);
      forall e | e in r
        ensures exists d, i :: d in dates && EntryAt(info, d, i, e)
      {
        if e !in prefix {
          var k :| 0 <= k < |last| && last[k] == e;
          assert EntryAt(info, date, k, e);
        }
      }
    }
  }

  /** An entry found in either part is found in the whole. */
  lemma EnteredConcat(a: seq<(string, string)>, b: seq<(string, string)>, info: ProviderInfo, d: string, i: int)
    requires Entered(a, info, d, i) || Entered(b, info, d, i)
    ensures Entered(a + b, info, d, i)
  {
    var e :| (e in a || e in b) && EntryAt(info, d, i, e);
    assert e in a + b;
  }

  /** Every time of a date has its entry among that date's entries. */
  lemma DateEntered(date: string, info: ProviderInfo, i: int)
    requires date in info.timeSlots.vals && 0 <= i < |info.timeSlots.vals[date]|
    requires DateEntries(date, info.timeSlots.vals[date], info).Success?
    ensures Entered(DateEntries(date, info.timeSlots.vals[date], info).value, info, date, i)
  {
    var last := DateEntries(date, info.timeSlots.vals[date], info).value;
    assert last[i] in last && EntryAt(info, date, i, last[i]);
  }

  /** A successful run over `dates` is the run over all but the last date
      followed by the last date's entries. */
  lemma DatesEntriesSplit(dates: seq<string>, info: ProviderInfo)
    requires |dates| > 0 && forall d :: d in dates ==> d in info.timeSlots.vals
    requires DatesEntries(dates, info).Success?
    ensures forall d :: d in dates[..|dates| - 1] ==> d in info.timeSlots.vals
    ensures var before, date := dates[..|dates| - 1], dates[|dates| - 1];
      && DatesEntries(before, info).Success?
      && DateEntries(date, info.timeSlots.vals[date], info).Success?
      && DatesEntries(dates, info).value
           == DatesEntries(before, info).value + DateEntries(date, info.timeSlots.vals[date], info).value
  {
    assert forall d :: d in dates[..|dates| - 1] ==> d in dates;
  }

  /** Every time of a listed date has its entry among those of `dates`. */
  lemma {:induction false} DatesEntriesCover(dates: seq<string>, info: ProviderInfo)
    requires forall d :: d in dates ==> d in info.timeSlots.vals
    requires DatesEntries(dates, info).Success?
    ensures forall d, i :: d in dates && 0 <= i < |info.timeSlots.vals[d]| ==>
      Entered(DatesEntries(dates, info).value, info, d, i)
    decreases |dates|
  {
    if |dates| > 0 {
      var before, date := dates[..|dates| - 1], dates[|dates| - 1];
      DatesEntriesSplit(dates, info);
      var prefix := DatesEntries(before, info).value;
      var last := DateEntries(date, info.timeSlots.vals[date], info).value;
      DatesEntriesCover(before, info);
      forall d, i | d in dates && 0 <= i < |info.timeSlots.vals[d]|
        ensures Entered(prefix + last, info, d, i)
      {
        if d != date {
          assert d in before;
        } else {
          DateEntered(date, info, i);
        }
        EnteredConcat(prefix, last, info, d, i);
      }
    }
  }

  /** The entries of one provider exist exactly when all its times read as
      `H:M`, and they are then exactly the entries of its times: each is that
      of some time of some date, and every time has its entry. */
  lemma ProviderEntriesContents(info: ProviderInfo)
    requires info.timeSlots.Valid()
    ensures ProviderEntries(info).Success? <==>
      forall d :: d in info.timeSlots.vals ==> Readable(d, info.timeSlots.vals[d])
    ensures ProviderEntries(info).Success? ==>
      forall e :: e in ProviderEntries(info).value ==>
        exists d, i :: d in info.timeSlots.vals && EntryAt(info, d, i, e)
    ensures ProviderEntries(info).Success? ==>
      forall d, i :: d in info.timeSlots.vals && 0 <= i < |info.timeSlots.vals[d]| ==>
        Entered(ProviderEntries(info).value, info, d, i)
  {
    if ProviderEntries(info).Success? {
      DatesEntriesFrom(info.timeSlots.keys, info);
      DatesEntriesCover(info.timeSlots.keys, info);
    }
  }

  /** Every provider record has well-formed dictionaries. */
  ghost predicate WellFormed(infos: seq<ProviderInfo>) {
    forall i :: 0 <= i < |infos| ==> infos[i].timeSlots.Valid()
  }

  /** The two tables, GlebeRoadArlington's first. */
  datatype Tables = Tables(glebe: Table, walker: Table)

  function TableOf(t: Tables, f: Facility): Table {
    match f
    case GlebeRoadArlington => t.glebe
    case WalkerLaneSpringfield => t.walker
  }

  /** The appends one provider makes to its facility's table. */
  function FacilityAppends(info: ProviderInfo, f: Facility): seq<(string, string)>
    requires info.timeSlots.Valid()
  {
    var r := ProviderEntries(info);
    if info.facility == f && r.Success? then r.value else []
  }

  /** The appends of a run of providers to facility `f`'s table, in order. */
  function AllFacilityAppends(infos: seq<ProviderInfo>, f: Facility): seq<(string, string)>
    requires WellFormed(infos)
    decreases |infos|
  {
    if |infos| == 0 then []
    else AllFacilityAppends(infos[..|infos| - 1], f) + FacilityAppends(infos[|infos| - 1], f)
  }

  /** The number of times of the providers at facility `f`. */
  function FacilityTimes(infos: seq<ProviderInfo>, f: Facility): nat
    requires WellFormed(infos)
    decreases |infos|
  {
    if |infos| == 0 then 0
    else
      var last := infos[|infos| - 1];
      FacilityTimes(infos[..|infos| - 1], f) + (if last.facility == f then TotalLength(last.timeSlots) else 0)
  }

  /** The fold over the providers, in order; the first time that does not
      read as `H:M` raises a `ValueError` out of it. */
  function Pivot(infos: seq<ProviderInfo>): (r: Result<Tables>)
    requires WellFormed(infos)
    ensures r.Success? <==> forall i :: 0 <= i < |infos| ==> ProviderEntries(infos[i]).Success?
    ensures r.Success? ==> r.value.glebe.Valid() && r.value.walker.Valid()
    decreases |infos|
  {
    if |infos| == 0 then Success(Tables(Empty(), Empty()))
    else
      var prefix, last := infos[..|infos| - 1], infos[|infos| - 1];
      assert forall i :: 0 <= i < |prefix| ==> prefix[i] == infos[i];
      var t :- Pivot(prefix);
      var entries :- ProviderEntries(last);
      match last.facility
      case GlebeRoadArlington => Success(t.(glebe := AppendAll(t.glebe, entries)))
      case WalkerLaneSpringfield => Success(t.(walker := AppendAll(t.walker, entries)))
  }

  /** paa.py `provider_info_to_table_dicts`: both facility names as keys,
      GlebeRoadArlington first, each with its table. */
  function ProviderInfoToTableDicts(infos: seq<ProviderInfo>): (r: Result<ODict<string, Table>>)
    requires WellFormed(infos)
    ensures r.Success? <==> Pivot(infos).Success?
    ensures r.Success? ==> r.value.Valid()
    ensures r.Success? ==> r.value.keys == [FacilityName(GlebeRoadArlington), FacilityName(WalkerLaneSpringfield)]
  {
    var t :- Pivot(infos);
    Success(ODict(
      [FacilityName(GlebeRoadArlington), FacilityName(WalkerLaneSpringfield)],
      map[FacilityName(GlebeRoadArlington) := t.glebe, FacilityName(WalkerLaneSpringfield) := t.walker]))
  }

  /** Each facility's table holds, under every key, exactly the entries the
      providers of that facility produced for it, in provider and time
      order; and it holds one entry per time of those providers, so none is
      merged or dropped. */
  lemma {:induction false} PivotContents(infos: seq<ProviderInfo>, f: Facility)
    requires WellFormed(infos) && Pivot(infos).Success?
    ensures forall key :: GetOr(TableOf(Pivot(infos).value, f), key, []) == ValuesAt(AllFacilityAppends(infos, f), key)
    ensures TotalLength(TableOf(Pivot(infos).value, f)) == FacilityTimes(infos, f)
    decreases |infos|
  {
    if |infos| > 0 {
      var prefix := infos[..|infos| - 1];
      var last := infos[|infos| - 1];
      assert WellFormed(prefix) by {
        forall i | 0 <= i < |prefix| ensures prefix[i].timeSlots.Valid() {
          assert prefix[i] == infos[i];
        }
      }
      PivotContents(prefix, f);
      var t := Pivot(prefix).value;
      var appends := FacilityAppends(last, f);
      AppendAllValues(TableOf(t, f), appends);
      AppendAllTotal(TableOf(t, f), appends);
      assert TableOf(Pivot(infos).value, f) == AppendAll(TableOf(t, f), appends);
      forall key
        ensures ValuesAt(AllFacilityAppends(infos, f), key) == ValuesAt(AllFacilityAppends(prefix, f), key) + ValuesAt(appends, key)
      {
        ValuesAtConcat(AllFacilityAppends(prefix, f), appends, key);
      }
    }
  }

  /** What `provider_info_to_table_dicts` returns, facility by facility. */
  lemma TableDictsMeaning(infos: seq<ProviderInfo>, f: Facility)
    requires WellFormed(infos) && ProviderInfoToTableDicts(infos).Success?
    ensures var out := ProviderInfoToTableDicts(infos).value;
      && FacilityName(f) in out.vals
      && TotalLength(out.vals[FacilityName(f)]) == FacilityTimes(infos, f)
      && forall key :: GetOr(out.vals[FacilityName(f)], key, []) == ValuesAt(AllFacilityAppends(infos, f), key)
  {
    PivotContents(infos, f);
  }

  /** Every entry of a date sits under the ten-minute key of its time. */
  lemma DateEntryKeys(date: string, times: seq<string>, info: ProviderInfo, i: nat)
    requires DateEntries(date, times, info).Success? && i < |times|
    ensures var e := DateEntries(date, times, info).value[i];
      && TableKey(date, times[i]).Success?
      && e.0 == TableKey(date, times[i]).value
      && e.0[..|date| + 1] == date + "T"
      && e.1 == EntryText(times[i], info)
  {
    TableKeyMeaning(date, times[i]);
  }
}
