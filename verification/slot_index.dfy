/**
 paa2.py `get_all_available_times`: every provider's retrieval runs as a
 task, and the results are folded, in the order the tasks complete, into one
 index from slot to the providers offering it.

 The thread pool is not modelled; completion order is any permutation of the
 submitted tasks, and the fold is sequential.
 */
module SlotIndex {
  import opened Wrappers
  import opened JsonValues
  import opened OrderedMaps
  import opened Bags
  import opened SlotWalker

  /** `slots_dict`: each slot with the providers offering it, in fold order. */
  type Index = ODict<Slot, seq<Provider>>

  /** A finished task: its provider and what `f.result()` returns or raises. */
  datatype Completed = Completed(provider: Provider, slots: Result<seq<Slot>>)

  /** The tasks `get_all_available_times` submits, one per provider, each
      talking to the service through its own stream of responses. */
  function Submitted(providers: seq<Provider>, days: seq<string>, streams: seq<seq<Json>>): (tasks: seq<Completed>)
    requires |streams| == |providers|
    ensures |tasks| == |providers|
    ensures forall i :: 0 <= i < |tasks| ==> tasks[i].provider == providers[i]
    ensures forall i :: 0 <= i < |tasks| ==> tasks[i].slots == ProviderSlots(providers[i], days, streams[i]).result
  {
    seq(|providers|, i requires 0 <= i < |providers| =>
      Completed(providers[i], ProviderSlots(providers[i], days, streams[i]).result))
  }

  /** `completed` is an order in which the tasks can finish. */
  ghost predicate CompletionOrder(completed: seq<Completed>, tasks: seq<Completed>) {
    multiset(completed) == multiset(tasks)
  }

  /** The `(slot, provider)` appends one slot list contributes. */
  function Tagged(slots: seq<Slot>, p: Provider): (kvs: seq<(Slot, Provider)>)
    ensures |kvs| == |slots|
    ensures forall i :: 0 <= i < |slots| ==> kvs[i] == (slots[i], p)
  {
    seq(|slots|, i requires 0 <= i < |slots| => (slots[i], p))
  }

  /** The appends a finished task contributes; a failed task contributes none. */
  function Appends(x: Completed): seq<(Slot, Provider)> {
    if x.slots.Success? then Tagged(x.slots.value, x.provider) else []
  }

  /** All appends of a run of finished tasks, in order. */
  function AllAppends(completed: seq<Completed>): seq<(Slot, Provider)>
    decreases |completed|
  {
    if |completed| == 0 then []
    else AllAppends(completed[..|completed| - 1]) + Appends(completed[|completed| - 1])
  }

  /** The fold of `get_all_available_times` over the tasks in completion
      order: each task's slots, one `setdefault(slot, []).append(provider)`
      per slot. The first failed task in that order raises out of the fold. */
  function MergeAll(completed: seq<Completed>): (r: Result<Index>)
    ensures r.Success? <==> forall i :: 0 <= i < |completed| ==> completed[i].slots.Success?
    ensures r.Failure? ==>
      exists i :: 0 <= i < |completed| && completed[i].slots == Failure(r.error)
        && forall j :: 0 <= j < i ==> completed[j].slots.Success?
    ensures r.Success? ==> r.value.Valid()
    decreases |completed|
  {
    if |completed| == 0 then Success(Empty())
    else
      var prefix := completed[..|completed| - 1];
      var last := completed[|completed| - 1];
      var d := MergeAll(prefix);
      assert forall i :: 0 <= i < |prefix| ==> prefix[i] == completed[i];
      if d.Failure? then Failure(d.error)
      else if last.slots.Failure? then Failure(last.slots.error)
      else Success(AppendAll(d.value, Tagged(last.slots.value, last.provider)))
  }

  /** How often `s` occurs across the slot lists of the finished tasks. */
  function Occurrences(completed: seq<Completed>, s: Slot): nat
    decreases |completed|
  {
    if |completed| == 0 then 0
    else
      var last := completed[|completed| - 1];
      Occurrences(completed[..|completed| - 1], s) + (if last.slots.Success? then multiset(last.slots.value)[s] else 0)
  }

  /** Some finished task reported `s`. */
  ghost predicate Reported(completed: seq<Completed>, s: Slot) {
    exists i :: 0 <= i < |completed| && completed[i].slots.Success? && s in completed[i].slots.value
  }

  /** Some finished task of provider `q` reported `s`. */
  ghost predicate ReportedBy(completed: seq<Completed>, q: Provider, s: Slot) {
    exists i :: 0 <= i < |completed| && completed[i].provider == q && completed[i].slots.Success? && s in completed[i].slots.value
  }

  /** The appends one slot list makes under `s`: its provider, once per occurrence of `s`. */
  lemma {:induction false} TaggedValues(slots: seq<Slot>, p: Provider, s: Slot)
    ensures |ValuesAt(Tagged(slots, p), s)| == multiset(slots)[s]
    ensures forall q :: q in ValuesAt(Tagged(slots, p), s) ==> q == p
    decreases |slots|
  {
    if |slots| > 0 {
      var prefix := slots[..|slots| - 1];
      assert Tagged(slots, p)[..|slots| - 1] == Tagged(prefix, p);
      assert slots == prefix + [slots[|slots| - 1]];
      TaggedValues(prefix, p, s);
    }
  }

  /** Under each slot the index holds exactly the providers the appends
      carried for it, in completion order. */
  lemma {:induction false} MergeValues(completed: seq<Completed>)
    requires MergeAll(completed).Success?
    ensures forall s :: GetOr(MergeAll(completed).value, s, []) == ValuesAt(AllAppends(completed), s)
    ensures forall s :: s in MergeAll(completed).value.vals <==> |ValuesAt(AllAppends(completed), s)| > 0
    decreases |completed|
  {
    if |completed| > 0 {
      var prefix := completed[..|completed| - 1];
      var last := completed[|completed| - 1];
      MergeValues(prefix);
      var d := MergeAll(prefix).value;
      AppendAllValues(d, Appends(last));
      forall s
        ensures ValuesAt(AllAppends(completed), s) == ValuesAt(AllAppends(prefix), s) + ValuesAt(Appends(last), s)
      {
        ValuesAtConcat(AllAppends(prefix), Appends(last), s);
      }
    }
  }

  /** The appends for `s` number exactly its occurrences, and each names a
      provider that reported `s`. */
  lemma {:induction false} AppendsFor(completed: seq<Completed>, s: Slot)
    ensures |ValuesAt(AllAppends(completed), s)| == Occurrences(completed, s)
    ensures forall q :: q in ValuesAt(AllAppends(completed), s) ==> ReportedBy(completed, q, s)
    decreases |completed|
  {
    if |completed| > 0 {
      var prefix := completed[..|completed| - 1];
      var last := completed[|completed| - 1];
      AppendsFor(prefix, s);
      ValuesAtConcat(AllAppends(prefix), Appends(last), s);
      if last.slots.Success? {
        TaggedValues(last.slots.value, last.provider, s);
      }
      forall q | q in ValuesAt(AllAppends(completed), s)
        ensures ReportedBy(completed, q, s)
      {
        if q in ValuesAt(AllAppends(prefix), s) {
          var i :| 0 <= i < |prefix| && prefix[i].provider == q && prefix[i].slots.Success? && s in prefix[i].slots.value;
          assert completed[i] == prefix[i];
        } else {
          assert q in ValuesAt(Appends(last), s);
          assert last.slots.Success?;
          assert s in multiset(last.slots.value);
        }
      }
    }
  }

  /** A slot occurs somewhere exactly when some task reported it. */
  lemma {:induction false} OccurrencesReported(completed: seq<Completed>, s: Slot)
    ensures Occurrences(completed, s) > 0 <==> Reported(completed, s)
    decreases |completed|
  {
    if |completed| > 0 {
      var prefix := completed[..|completed| - 1];
      var last := completed[|completed| - 1];
      OccurrencesReported(prefix, s);
      if Reported(completed, s) {
        var i :| 0 <= i < |completed| && completed[i].slots.Success? && s in completed[i].slots.value;
        if i < |prefix| {
          assert prefix[i] == completed[i];
        }
      }
      if Reported(prefix, s) {
        var i :| 0 <= i < |prefix| && prefix[i].slots.Success? && s in prefix[i].slots.value;
        assert completed[i] == prefix[i];
      }
    }
  }

  /** The merged index: its keys are exactly the slots some task reported;
      under each, one provider entry per occurrence of the slot (duplicates
      kept), each naming a provider that reported it. */
  lemma MergeContents(completed: seq<Completed>, s: Slot)
    requires MergeAll(completed).Success?
    ensures s in MergeAll(completed).value.vals <==> Reported(completed, s)
    ensures |GetOr(MergeAll(completed).value, s, [])| == Occurrences(completed, s)
    ensures forall q :: q in GetOr(MergeAll(completed).value, s, []) ==> ReportedBy(completed, q, s)
  {
    MergeValues(completed);
    AppendsFor(completed, s);
    OccurrencesReported(completed, s);
  }

  /** The providers a finished task adds under `s`. */
  ghost function ProvidersFor(s: Slot): Completed -> multiset<Provider> {
    x => multiset(ValuesAt(Appends(x), s))
  }

  lemma {:induction false} AllAppendsBag(completed: seq<Completed>, s: Slot)
    ensures multiset(ValuesAt(AllAppends(completed), s)) == BagSum(completed, ProvidersFor(s))
    decreases |completed|
  {
    if |completed| > 0 {
      var prefix := completed[..|completed| - 1];
      var last := completed[|completed| - 1];
      AllAppendsBag(prefix, s);
      ValuesAtConcat(AllAppends(prefix), Appends(last), s);
    }
  }

  /** The fold's outcome does not depend on the completion order: it
      succeeds for one order exactly when it does for another, and then
      every slot is a key in both or in neither, with the same providers,
      counted with multiplicity. Only the order of keys and of each list
      can differ. */
  lemma MergeOrderIndependent(a: seq<Completed>, b: seq<Completed>, s: Slot)
    requires multiset(a) == multiset(b)
    ensures MergeAll(a).Success? <==> MergeAll(b).Success?
    ensures MergeAll(a).Success? ==>
      && (s in MergeAll(a).value.vals <==> s in MergeAll(b).value.vals)
      && multiset(GetOr(MergeAll(a).value, s, [])) == multiset(GetOr(MergeAll(b).value, s, []))
  {
    forall i | 0 <= i < |a|
      ensures a[i] in b
    {
      assert a[i] in multiset(a);
    }
    forall i | 0 <= i < |b|
      ensures b[i] in a
    {
      assert b[i] in multiset(b);
    }
    if MergeAll(a).Success? {
      MergeValues(a);
      MergeValues(b);
      AllAppendsBag(a, s);
      AllAppendsBag(b, s);
      BagSumPermutation(a, b, ProvidersFor(s));
      assert |ValuesAt(AllAppends(a), s)| == |multiset(ValuesAt(AllAppends(a), s))|;
      assert |ValuesAt(AllAppends(b), s)| == |multiset(ValuesAt(AllAppends(b), s))|;
    }
  }

  /** A slot list containing `s` appends its provider under `s`. */
  lemma TaggedHas(slots: seq<Slot>, p: Provider, s: Slot)
    requires s in slots
    ensures p in ValuesAt(Tagged(slots, p), s)
  {
    TaggedValues(slots, p, s);
    assert s in multiset(slots);
    var vs := ValuesAt(Tagged(slots, p), s);
    assert |vs| > 0 && vs[0] in vs;
  }

  /** A task that reported `s` has its provider among the appends for `s`. */
  lemma {:induction false} AppendsCover(completed: seq<Completed>, j: nat, s: Slot)
    requires j < |completed| && completed[j].slots.Success? && s in completed[j].slots.value
    ensures completed[j].provider in ValuesAt(AllAppends(completed), s)
    decreases |completed|
  {
    var prefix := completed[..|completed| - 1];
    var last := completed[|completed| - 1];
    assert AllAppends(completed) == AllAppends(prefix) + Appends(last);
    ValuesAtConcat(AllAppends(prefix), Appends(last), s);
    if j == |completed| - 1 {
      TaggedHas(last.slots.value, last.provider, s);
    } else {
      assert prefix[j] == completed[j];
      AppendsCover(prefix, j, s);
    }
  }

  /** Retrieving `q`'s slots over `days` from `responses` succeeds and yields `s`. */
  predicate OffersSlot(q: Provider, days: seq<string>, responses: seq<Json>, s: Slot) {
    var r := ProviderSlots(q, days, responses).result;
    r.Success? && s in r.value
  }

  /** paa2.py `get_all_available_times` for the completion order `completed`
      of the submitted tasks: when every task succeeds, the providers listed
      under a slot are exactly those that offered it on one of the requested
      days. */
  lemma AllAvailableTimes(providers: seq<Provider>, days: seq<string>, streams: seq<seq<Json>>,
                          completed: seq<Completed>, s: Slot)
    requires |streams| == |providers|
    requires CompletionOrder(completed, Submitted(providers, days, streams))
    requires MergeAll(completed).Success?
    ensures forall q :: q in GetOr(MergeAll(completed).value, s, []) ==>
      exists i :: 0 <= i < |providers| && providers[i] == q && OffersSlot(q, days, streams[i], s)
    ensures forall i :: 0 <= i < |providers| && OffersSlot(providers[i], days, streams[i], s) ==>
      providers[i] in GetOr(MergeAll(completed).value, s, [])
  {
    var tasks := Submitted(providers, days, streams);
    MergeContents(completed, s);
    forall q | q in GetOr(MergeAll(completed).value, s, [])
      ensures exists i :: 0 <= i < |providers| && providers[i] == q && OffersSlot(q, days, streams[i], s)
    {
      var j :| 0 <= j < |completed| && completed[j].provider == q && completed[j].slots.Success? && s in completed[j].slots.value;
      assert completed[j] in multiset(tasks);
      var i :| 0 <= i < |tasks| && tasks[i] == completed[j];
    }
    MergeValues(completed);
    forall i | 0 <= i < |providers| && OffersSlot(providers[i], days, streams[i], s)
      ensures providers[i] in GetOr(MergeAll(completed).value, s, [])
    {
      assert tasks[i] in multiset(completed);
      var j :| 0 <= j < |completed| && completed[j] == tasks[i];
      AppendsCover(completed, j, s);
    }
  }
}
