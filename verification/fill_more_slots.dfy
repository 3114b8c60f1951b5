/**
 paa.py `_fill_more_time_slots`: follow every date's cursor until the
 service stops returning one, appending the new times to that date.

 Pending `(date, cursor)` pairs form a first-in first-out queue; a date goes
 back at the end of the queue for as long as its responses carry a truthy
 cursor. The loop has no iteration cap: it ends because the stream of
 responses is finite.
 */
module FillMoreSlots {
  import opened Wrappers
  import opened Text
  import opened JsonValues
  import opened OrderedMaps
  import opened Requests
  import opened ScheduleExtract

  /** paa.py `VisitType`. */
  datatype VisitType = Sick | Well

  /** The member name upper-cased, as the payload's `visit_code` carries it. */
  function VisitCode(v: VisitType): string {
    match v
    case Sick => "SICK"
    case Well => "WELL"
  }

  /** A pending follow-up request: a date and the cursor to continue from. */
  type Pending = (string, Json)

  /** The payload before the loop fills in a date and a cursor. The reason
      id stays "43396" whatever the visit type, as written. */
  function MoreTimesPayload(visit: VisitType, info: ProviderInfo): (r: Payload)
    ensures r.Valid()
    ensures "appt_date" in r.vals && "start_time" in r.vals
    ensures Lookup(r, "npi") == Some(info.npi)
    ensures Lookup(r, "facility_id") == Some(FormatInt(FacilityValue(info.facility)))
    ensures Lookup(r, "visit_code") == Some(VisitCode(visit))
  {
    MoreKeysDistinct();
    ODict(MoreKeys,
      map[
        "apu_id" := "9296",
        "appt_date" := "",
        "start_time" := "",
        "end_time" := "23:59:00",
        "visit_type" := "1",
        "practice_visit_reason_id" := "43396",
        "visit_code" := VisitCode(visit),
        "facility_id" := FormatInt(FacilityValue(info.facility)),
        "npi" := info.npi])
  }

  const MoreKeys: seq<string> := [
    "npi", "apu_id", "facility_id", "appt_date", "start_time",
    "end_time", "visit_type", "visit_code", "practice_visit_reason_id"]

  lemma MoreKeysDistinct()
    ensures Distinct(MoreKeys)
  {
    forall i, j | 0 <= i < j < |MoreKeys|
      ensures MoreKeys[i] != MoreKeys[j]
    {
      var a, b := MoreKeys[i], MoreKeys[j];
      assert |a| != |b| || a[0] != b[0] || (|a| == 10 && a[6] != b[6]);
    }
  }

  /** `a` occurs in `ks` before `b` does. */
  ghost predicate Before(ks: seq<string>, a: string, b: string) {
    exists x, y :: 0 <= x < y < |ks| && ks[x] == a && ks[y] == b
  }

  lemma BeforeTail(ks: seq<string>, a: string, b: string)
    requires |ks| > 0 && Before(ks[1..], a, b)
    ensures Before(ks, a, b)
  {
    var x, y :| 0 <= x < y < |ks[1..]| && ks[1..][x] == a && ks[1..][y] == b;
    assert ks[x + 1] == a && ks[y + 1] == b;
  }

  lemma BeforeHead(ks: seq<string>, b: string)
    requires |ks| > 0 && b in ks[1..]
    ensures Before(ks, ks[0], b)
  {
    var y :| 0 <= y < |ks[1..]| && ks[1..][y] == b;
    assert ks[y + 1] == b;
  }

  /** In a list without repeats, what comes first is something else. */
  lemma BeforeDistinct(ks: seq<string>, a: string, b: string)
    requires Distinct(ks) && Before(ks, a, b)
    ensures a != b
  {
  }

  /** The dates of `q` follow the order of `ks`. */
  ghost predicate InOrder(ks: seq<string>, q: seq<Pending>) {
    forall i, j :: 0 <= i < j < |q| ==> Before(ks, q[i].0, q[j].0)
  }

  lemma OrderedTail(ks: seq<string>, q: seq<Pending>)
    requires |ks| > 0 && InOrder(ks[1..], q)
    ensures InOrder(ks, q)
  {
    forall i, j | 0 <= i < j < |q|
      ensures Before(ks, q[i].0, q[j].0)
    {
      BeforeTail(ks, q[i].0, q[j].0);
    }
  }

  lemma OrderedCons(ks: seq<string>, e: Pending, rest: seq<Pending>)
    requires |ks| > 0 && e.0 == ks[0]
    requires forall x :: x in rest ==> x.0 in ks[1..]
    requires InOrder(ks[1..], rest)
    ensures InOrder(ks, [e] + rest)
  {
    var q := [e] + rest;
    OrderedTail(ks, rest);
    forall i, j | 0 <= i < j < |q|
      ensures Before(ks, q[i].0, q[j].0)
    {
      assert q[j] == rest[j - 1] && q[j] in rest;
      if i == 0 {
        BeforeHead(ks, q[j].0);
      } else {
        assert q[i] == rest[i - 1];
      }
    }
  }

  /** The pairs of `ks` whose cursor is truthy, in the order of `ks`. */
  function TruthyPending(ks: seq<string>, next: Cursors): (q: seq<Pending>)
    requires next.Valid()
    requires forall k :: k in ks ==> k in next.vals
    ensures forall e :: e in q ==> e.0 in ks && e.1 == next.vals[e.0] && Truthy(e.1)
    ensures forall k :: k in ks && Truthy(next.vals[k]) ==> exists e :: e in q && e.0 == k
    ensures InOrder(ks, q)
    decreases |ks|
  {
    if |ks| == 0 then []
    else
      var rest := TruthyPending(ks[1..], next);
      assert forall k :: k in ks[1..] ==> k in ks;
      if Truthy(next.vals[ks[0]]) then
        OrderedCons(ks, (ks[0], next.vals[ks[0]]), rest);
        [(ks[0], next.vals[ks[0]])] + rest
      else
        OrderedTail(ks, rest);
        rest
  }

  /** The queue the loop starts with: every date whose cursor is truthy, in
      dictionary order, each once. */
  function InitialQueue(next: Cursors): (q: seq<Pending>)
    requires next.Valid()
    ensures forall e :: e in q ==> e.0 in next.vals && e.1 == next.vals[e.0] && Truthy(e.1)
    ensures forall d :: d in next.vals && Truthy(next.vals[d]) ==> exists e :: e in q && e.0 == d
    ensures InOrder(next.keys, q)
    ensures forall i, j :: 0 <= i < j < |q| ==> q[i].0 != q[j].0
  {
    var q := TruthyPending(next.keys, next);
    assert forall i, j :: 0 <= i < j < |q| ==> q[i].0 != q[j].0 by {
      forall i, j | 0 <= i < j < |q|
        ensures q[i].0 != q[j].0
      {
        BeforeDistinct(next.keys, q[i].0, q[j].0);
      }
    }
    q
  }

  /** The dictionaries the loop updates. */
  datatype Slots = Slots(times: Times, next: Cursors)

  /** Every cursor still truthy has its date pending. */
  ghost predicate CursorsPending(next: Cursors, queue: seq<Pending>) {
    forall d :: d in next.vals && Truthy(next.vals[d]) ==> exists e :: e in queue && e.0 == d
  }

  /** The times a response adds, or none when it cannot be read. */
  function FetchedTimes(res: Json): seq<string> {
    var r := ExtractMoreTimeSlots(res);
    if r.Success? then r.value.0 else []
  }

  /** The times the responses to the requests for `d` added, in response order. */
  function FetchedFor(requests: seq<Payload>, responses: seq<Json>, d: string): seq<string>
    requires |responses| >= |requests|
    decreases |requests|
  {
    if |requests| == 0 then []
    else
      (if Lookup(requests[0], "appt_date") == Some(d) then FetchedTimes(responses[0]) else [])
      + FetchedFor(requests[1..], responses[1..], d)
  }

  /** The request for a pending pair: the previous payload with the date and
      the cursor filled in. A cursor that is not text fails. */
  function RequestFor(payload: Payload, e: Pending): (r: Result<Payload>)
    requires payload.Valid() && "appt_date" in payload.vals && "start_time" in payload.vals
    ensures r.Success? <==> e.1.JStr?
    ensures r.Success? ==> r.value.Valid() && r.value.keys == payload.keys
    ensures r.Success? ==> "appt_date" in r.value.vals && "start_time" in r.value.vals
    ensures r.Success? ==> Lookup(r.value, "appt_date") == Some(e.0) && Lookup(r.value, "start_time") == Some(e.1.s)
    ensures r.Success? ==> forall k :: k != "appt_date" && k != "start_time" ==> Lookup(r.value, k) == Lookup(payload, k)
  {
    var start :- AsStr(e.1);
    Success(Put(Put(payload, "appt_date", e.0), "start_time", start))
  }

  /** The dictionaries after the response for `date` added `fetched` and
      brought the cursor `more`. */
  function Absorbed(s: Slots, date: string, fetched: seq<string>, more: Json): (r: Slots)
    requires s.times.Valid() && s.next.Valid() && date in s.times.vals
    ensures r.times.Valid() && r.next.Valid()
    ensures r.times.keys == s.times.keys
    ensures date in s.next.vals ==> r.next.keys == s.next.keys
    ensures Lookup(r.times, date) == Some(s.times.vals[date] + fetched)
    ensures Lookup(r.next, date) == Some(more)
    ensures forall d :: d != date ==> Lookup(r.times, d) == Lookup(s.times, d) && Lookup(r.next, d) == Lookup(s.next, d)
  {
    Slots(Put(s.times, date, s.times.vals[date] + fetched), Put(s.next, date, more))
  }

  /** The queue after the oldest pair was served and its response brought
      `more`: the pairs behind it move up, and the date is queued last again
      when `more` is truthy. */
  function Requeued(queue: seq<Pending>, date: string, more: Json): (q: seq<Pending>)
    requires |queue| > 0
    ensures forall e :: e in q <==> e in queue[1..] || (Truthy(more) && e == (date, more))
    ensures |queue| - 1 <= |q| && q[..|queue| - 1] == queue[1..]
    ensures Truthy(more) ==> |q| == |queue| && q[|q| - 1] == (date, more)
    ensures !Truthy(more) ==> |q| == |queue| - 1
  {
    queue[1..] + (if Truthy(more) then [(date, more)] else [])
  }

  /** The `while queue` loop, from `payload` and the current dictionaries:
      take the oldest pending pair, request that date from that cursor,
      append the response's times to the date, record its cursor, and queue
      the date again when the cursor is truthy. */
  function Drain(payload: Payload, s: Slots, queue: seq<Pending>, responses: seq<Json>): (t: Trace<Slots>)
    requires payload.Valid() && "appt_date" in payload.vals && "start_time" in payload.vals
    requires s.times.Valid() && s.next.Valid()
    ensures |t.rest| <= |responses| && Unread(t.rest, responses)
    ensures t.result.Success? ==> |t.requests| == |responses| - |t.rest|
    ensures t.result.Success? ==> t.result.value.times.Valid() && t.result.value.next.Valid()
    decreases |responses|
  {
    if |queue| == 0 then Trace([], responses, Success(s))
    else
      var date := queue[0].0;
      match RequestFor(payload, queue[0])
      case Failure(e) => Trace([], responses, Failure(e))
      case Success(q) =>
        if |responses| == 0 then Trace([q], [], Failure(RequestError))
        else
          var rest := responses[1..];
          UnreadTail(responses);
          match ExtractMoreTimeSlots(responses[0])
          case Failure(e) => Trace([q], rest, Failure(e))
          case Success(page) =>
            if date !in s.times.vals then Trace([q], rest, Failure(KeyError(date)))
            else
              var t := Drain(q, Absorbed(s, date, page.0, page.1), Requeued(queue, date, page.1), rest);
              UnreadTrans(responses, rest, t.rest);
              Trace([q] + t.requests, t.rest, t.result)
  }

  /** One successful iteration, unfolded. */
  lemma DrainStep(payload: Payload, s: Slots, queue: seq<Pending>, responses: seq<Json>)
    requires payload.Valid() && "appt_date" in payload.vals && "start_time" in payload.vals
    requires s.times.Valid() && s.next.Valid()
    requires |queue| > 0 && Drain(payload, s, queue, responses).result.Success?
    ensures var date := queue[0].0;
      && RequestFor(payload, queue[0]).Success?
      && |responses| > 0
      && ExtractMoreTimeSlots(responses[0]).Success?
      && date in s.times.vals
      && var q := RequestFor(payload, queue[0]).value;
      var page := ExtractMoreTimeSlots(responses[0]).value;
      var u := Drain(q, Absorbed(s, date, page.0, page.1), Requeued(queue, date, page.1), responses[1..]);
      && Drain(payload, s, queue, responses) == Trace([q] + u.requests, u.rest, u.result)
  {
  }

  /** Every request asks for a date of `dates`. */
  ghost predicate DatesIn(requests: seq<Payload>, dates: set<string>) {
    forall i :: 0 <= i < |requests| ==> exists d :: d in dates && Lookup(requests[i], "appt_date") == Some(d)
  }

  /** Some request asks for `date`. */
  ghost predicate Requested(requests: seq<Payload>, date: string) {
    exists i :: 0 <= i < |requests| && Lookup(requests[i], "appt_date") == Some(date)
  }

  /** Every date pending in `queue` is asked for by some request. */
  ghost predicate Visited(requests: seq<Payload>, queue: seq<Pending>) {
    forall e :: e in queue ==> Requested(requests, e.0)
  }

  lemma DatesInCons(q: Payload, requests: seq<Payload>, date: string, dates: set<string>)
    requires date in dates && Lookup(q, "appt_date") == Some(date)
    requires DatesIn(requests, dates)
    ensures DatesIn([q] + requests, dates)
  {
    forall i | 0 <= i < |[q] + requests|
      ensures exists d :: d in dates && Lookup(([q] + requests)[i], "appt_date") == Some(d)
    {
      if i > 0 {
        assert ([q] + requests)[i] == requests[i - 1];
      }
    }
  }

  lemma VisitedCons(q: Payload, requests: seq<Payload>, queue: seq<Pending>, more: Json)
    requires |queue| > 0 && Lookup(q, "appt_date") == Some(queue[0].0)
    requires Visited(requests, Requeued(queue, queue[0].0, more))
    ensures Visited([q] + requests, queue)
  {
    var all := [q] + requests;
    forall e | e in queue
      ensures Requested(all, e.0)
    {
      if e == queue[0] {
        assert all[0] == q;
      } else {
        assert e in queue[1..] by {
          var k :| 0 <= k < |queue| && queue[k] == e;
          assert queue[1..][k - 1] == e;
        }
        assert e in Requeued(queue, queue[0].0, more);
        var i :| 0 <= i < |requests| && Lookup(requests[i], "appt_date") == Some(e.0);
        assert all[i + 1] == requests[i];
      }
    }
  }

  /** Only pending dates are requested: when every pending date belongs to
      `dates`, so does the date of every request. */
  lemma {:induction false} DrainDates(payload: Payload, s: Slots, queue: seq<Pending>, responses: seq<Json>, dates: set<string>)
    requires payload.Valid() && "appt_date" in payload.vals && "start_time" in payload.vals
    requires s.times.Valid() && s.next.Valid()
    requires forall e :: e in queue ==> e.0 in dates
    ensures DatesIn(Drain(payload, s, queue, responses).requests, dates)
    decreases |responses|
  {
    if |queue| > 0 {
      var date := queue[0].0;
      assert queue[0] in queue;
      var r := RequestFor(payload, queue[0]);
      if r.Success? && |responses| > 0 && ExtractMoreTimeSlots(responses[0]).Success? && date in s.times.vals {
        var page := ExtractMoreTimeSlots(responses[0]).value;
        var queue' := Requeued(queue, date, page.1);
        assert forall e :: e in queue' ==> e.0 in dates by {
          forall e | e in queue' ensures e.0 in dates {
            if e != (date, page.1) {
              var k :| 1 <= k < |queue| && queue[k] == e;
            }
          }
        }
        DrainDates(r.value, Absorbed(s, date, page.0, page.1), queue', responses[1..], dates);
        DatesInCons(r.value, Drain(r.value, Absorbed(s, date, page.0, page.1), queue', responses[1..]).requests, date, dates);
      }
    }
  }

  /** A successful loop requests every pending date at least once. */
  lemma {:induction false} DrainVisits(payload: Payload, s: Slots, queue: seq<Pending>, responses: seq<Json>)
    requires payload.Valid() && "appt_date" in payload.vals && "start_time" in payload.vals
    requires s.times.Valid() && s.next.Valid()
    ensures var t := Drain(payload, s, queue, responses);
      t.result.Success? ==> Visited(t.requests, queue)
    decreases |responses|
  {
    if |queue| > 0 && Drain(payload, s, queue, responses).result.Success? {
      DrainStep(payload, s, queue, responses);
      var date := queue[0].0;
      var q := RequestFor(payload, queue[0]).value;
      var page := ExtractMoreTimeSlots(responses[0]).value;
      var s', queue' := Absorbed(s, date, page.0, page.1), Requeued(queue, date, page.1);
      DrainVisits(q, s', queue', responses[1..]);
      VisitedCons(q, Drain(q, s', queue', responses[1..]).requests, queue, page.1);
    }
  }

  /** After a successful loop no cursor is truthy: every truthy cursor
      has its date pending, and the loop ends only on an empty queue. */
  lemma {:induction false} DrainExhausts(payload: Payload, s: Slots, queue: seq<Pending>, responses: seq<Json>)
    requires payload.Valid() && "appt_date" in payload.vals && "start_time" in payload.vals
    requires s.times.Valid() && s.next.Valid()
    requires CursorsPending(s.next, queue)
    ensures var t := Drain(payload, s, queue, responses);
      t.result.Success? ==> forall d :: d in t.result.value.next.vals ==> !Truthy(t.result.value.next.vals[d])
    decreases |responses|
  {
    var t := Drain(payload, s, queue, responses);
    if |queue| > 0 && t.result.Success? {
      DrainStep(payload, s, queue, responses);
      var date := queue[0].0;
      var q := RequestFor(payload, queue[0]).value;
      var page := ExtractMoreTimeSlots(responses[0]).value;
      var s' := Absorbed(s, date, page.0, page.1);
      var queue' := Requeued(queue, date, page.1);
      forall d | d in s'.next.vals && Truthy(s'.next.vals[d])
        ensures exists e :: e in queue' && e.0 == d
      {
        if d == date {
          assert (date, page.1) in queue';
        } else {
          assert Lookup(s'.next, d) == Lookup(s.next, d);
          var e :| e in queue && e.0 == d;
          assert e in queue[1..];
        }
      }
      DrainExhausts(q, s', queue', responses[1..]);
    }
  }

  /** Every pending date is a key of both dictionaries. */
  ghost predicate PendingKnown(s: Slots, queue: seq<Pending>) {
    forall e :: e in queue ==> e.0 in s.times.vals && e.0 in s.next.vals
  }

  lemma FetchedForCons(q: Payload, requests: seq<Payload>, responses: seq<Json>, d: string)
    requires |responses| >= |requests| + 1
    ensures FetchedFor([q] + requests, responses, d) ==
      (if Lookup(q, "appt_date") == Some(d) then FetchedTimes(responses[0]) else []) + FetchedFor(requests, responses[1..], d)
  {
    assert ([q] + requests)[1..] == requests;
  }

  /** `after` has the keys of `before`, in the same order, and each date's
      times are the old ones followed by those the responses to the requests
      for that date added, in response order. */
  ghost predicate AppendedTo(before: Slots, after: Slots, requests: seq<Payload>, responses: seq<Json>)
    requires |responses| >= |requests|
  {
    && after.times.keys == before.times.keys
    && after.next.keys == before.next.keys
    && forall d :: d in before.times.vals ==>
         && d in after.times.vals
         && after.times.vals[d] == before.times.vals[d] + FetchedFor(requests, responses, d)
  }

  lemma AppendedCons(s: Slots, date: string, q: Payload, requests: seq<Payload>, responses: seq<Json>, more: Json, final: Slots)
    requires s.times.Valid() && s.next.Valid() && date in s.times.vals && date in s.next.vals
    requires Lookup(q, "appt_date") == Some(date)
    requires |responses| >= |requests| + 1
    requires AppendedTo(Absorbed(s, date, FetchedTimes(responses[0]), more), final, requests, responses[1..])
    ensures AppendedTo(s, final, [q] + requests, responses)
  {
    var s' := Absorbed(s, date, FetchedTimes(responses[0]), more);
    forall d | d in s.times.vals
      ensures d in final.times.vals
      ensures final.times.vals[d] == s.times.vals[d] + FetchedFor([q] + requests, responses, d)
    {
      FetchedForCons(q, requests, responses, d);
      AbsorbedTimes(s, date, FetchedTimes(responses[0]), more, d);
    }
  }

  /** What the response for `date` did to the times of date `d`. */
  lemma AbsorbedTimes(s: Slots, date: string, fetched: seq<string>, more: Json, d: string)
    requires s.times.Valid() && s.next.Valid() && date in s.times.vals && d in s.times.vals
    ensures var s' := Absorbed(s, date, fetched, more);
      d in s'.times.vals && s'.times.vals[d] == s.times.vals[d] + (if d == date then fetched else [])
  {
    var s' := Absorbed(s, date, fetched, more);
    assert Lookup(s'.times, d).Some?;
    if d != date {
      assert s.times.vals[d] + [] == s.times.vals[d];
    }
  }

  lemma PendingKnownStep(s: Slots, queue: seq<Pending>, fetched: seq<string>, more: Json)
    requires s.times.Valid() && s.next.Valid()
    requires |queue| > 0 && PendingKnown(s, queue)
    ensures queue[0].0 in s.times.vals && queue[0].0 in s.next.vals
    ensures PendingKnown(Absorbed(s, queue[0].0, fetched, more), Requeued(queue, queue[0].0, more))
  {
    var date := queue[0].0;
    assert queue[0] in queue;
    var s' := Absorbed(s, date, fetched, more);
    forall e | e in Requeued(queue, date, more)
      ensures e.0 in s'.times.vals && e.0 in s'.next.vals
    {
      if e != (date, more) {
        var k :| 1 <= k < |queue| && queue[k] == e;
        assert e in queue;
        assert Lookup(s'.times, e.0).Some? && Lookup(s'.next, e.0).Some?;
      }
    }
  }

  /** On success the dictionaries keep their keys and key order; each date's
      times keep the old list as a prefix, followed by the times the
      responses for that date added, in response order. */
  lemma {:induction false} DrainAppends(payload: Payload, s: Slots, queue: seq<Pending>, responses: seq<Json>)
    requires payload.Valid() && "appt_date" in payload.vals && "start_time" in payload.vals
    requires s.times.Valid() && s.next.Valid()
    requires PendingKnown(s, queue)
    ensures var t := Drain(payload, s, queue, responses);
      t.result.Success? ==> AppendedTo(s, t.result.value, t.requests, responses)
    decreases |responses|
  {
    var t := Drain(payload, s, queue, responses);
    if |queue| == 0 {
      assert t.requests == [];
    } else if t.result.Success? {
      DrainStep(payload, s, queue, responses);
      var date := queue[0].0;
      var q := RequestFor(payload, queue[0]).value;
      var page := ExtractMoreTimeSlots(responses[0]).value;
      assert FetchedTimes(responses[0]) == page.0;
      PendingKnownStep(s, queue, page.0, page.1);
      var s', queue' := Absorbed(s, date, page.0, page.1), Requeued(queue, date, page.1);
      DrainAppends(q, s', queue', responses[1..]);
      var u := Drain(q, s', queue', responses[1..]);
      AppendedCons(s, date, q, u.requests, responses, page.1, u.result.value);
    }
  }

  /** The dates whose cursor is truthy. */
  ghost function TruthyDates(next: Cursors): set<string> {
    set d | d in next.vals && Truthy(next.vals[d])
  }

  /** paa.py `_fill_more_time_slots` for one provider. */
  function FillMoreTimeSlots(visit: VisitType, info: ProviderInfo, responses: seq<Json>): (t: Trace<ProviderInfo>)
    requires info.timeSlots.Valid() && info.nextSlot.Valid()
    ensures t.result.Success? ==>
      && t.result.value.name == info.name && t.result.value.npi == info.npi
      && t.result.value.degree == info.degree && t.result.value.facility == info.facility
  {
    var payload := MoreTimesPayload(visit, info);
    var d := Drain(payload, Slots(info.timeSlots, info.nextSlot), InitialQueue(info.nextSlot), responses);
    Trace(d.requests, d.rest,
      if d.result.Success? then Success(info.(timeSlots := d.result.value.times, nextSlot := d.result.value.next))
      else Failure(d.result.error))
  }

  /** What `_fill_more_time_slots` promises for a provider whose two
      dictionaries list the same dates, as the schedule extraction makes
      them: only dates whose cursor starts out truthy are requested, and each
      of them at least once; on success every cursor ends falsy, the dates
      and their order are unchanged, and every date's times are the old ones
      followed by the fetched ones in response order. */
  lemma FillMoreTimeSlotsMeaning(visit: VisitType, info: ProviderInfo, responses: seq<Json>)
    requires info.timeSlots.Valid() && info.nextSlot.Valid()
    requires info.timeSlots.keys == info.nextSlot.keys
    ensures DatesIn(FillMoreTimeSlots(visit, info, responses).requests, TruthyDates(info.nextSlot))
    ensures var t := FillMoreTimeSlots(visit, info, responses);
      t.result.Success? ==>
        && (forall d :: d in TruthyDates(info.nextSlot) ==> Requested(t.requests, d))
        && (forall d :: d in t.result.value.nextSlot.vals ==> !Truthy(t.result.value.nextSlot.vals[d]))
        && AppendedTo(Slots(info.timeSlots, info.nextSlot), Slots(t.result.value.timeSlots, t.result.value.nextSlot), t.requests, responses)
  {
    var payload := MoreTimesPayload(visit, info);
    var s := Slots(info.timeSlots, info.nextSlot);
    var queue := InitialQueue(info.nextSlot);
    DrainDates(payload, s, queue, responses, TruthyDates(info.nextSlot));
    DrainVisits(payload, s, queue, responses);
    DrainExhausts(payload, s, queue, responses);
    assert forall d :: d in info.nextSlot.vals <==> d in info.timeSlots.vals;
    DrainAppends(payload, s, queue, responses);
    var t := FillMoreTimeSlots(visit, info, responses);
    if t.result.Success? {
      forall d | d in TruthyDates(info.nextSlot)
        ensures Requested(t.requests, d)
      {
        var e :| e in queue && e.0 == d;
      }
    }
  }
}
