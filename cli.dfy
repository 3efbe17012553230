/**
 * The command line's cross-execution helpers: dropping short steps, folding
 * contributor steps into per-name aggregates, and topping up the aggregates
 * with every contributor workflow that ran a step.
 */
module Cli {
  import opened Models

  /** `timedelta(seconds=1)` in the model's microseconds. */
  const MicrosPerSecond := 1000000

  // ---------------------------------------------------------------------------
  // filter_small_steps
  // ---------------------------------------------------------------------------

  /** Whether a step lasts at least `minDurationSec` whole seconds. */
  predicate LongEnough(e: Event, minDurationSec: int)
  {
    e.Duration() >= minDurationSec * MicrosPerSecond
  }

  /** `filter_small_steps`: the steps lasting at least the threshold, in their original order. */
  function FilterSmallSteps(stateTiming: seq<Event>, minDurationSec: int): (r: seq<Event>)
    ensures forall e :: e in r <==> e in stateTiming && LongEnough(e, minDurationSec)
    ensures |r| <= |stateTiming|
  {
    if |stateTiming| == 0 then []
    else
      var rest := FilterSmallSteps(stateTiming[1..], minDurationSec);
      assert forall e :: e in stateTiming <==> e == stateTiming[0] || e in stateTiming[1..];
      if LongEnough(stateTiming[0], minDurationSec) then [stateTiming[0]] + rest else rest
  }

  /** Filtering a concatenation filters each part: the kept steps stay in order. */
  lemma {:induction false} FilterAppend(a: seq<Event>, b: seq<Event>, minDurationSec: int)
    ensures FilterSmallSteps(a + b, minDurationSec) == FilterSmallSteps(a, minDurationSec) + FilterSmallSteps(b, minDurationSec)
  {
    if |a| == 0 {
      assert a + b == b;
    } else {
      assert (a + b)[1..] == a[1..] + b;
      FilterAppend(a[1..], b, minDurationSec);
    }
  }

  /** A list whose steps are all long enough passes unchanged; filtering twice is filtering once. */
  lemma {:induction false} FilterKeepsLong(es: seq<Event>, minDurationSec: int)
    requires forall i :: 0 <= i < |es| ==> LongEnough(es[i], minDurationSec)
    ensures FilterSmallSteps(es, minDurationSec) == es
  {
    if |es| > 0 {
      FilterKeepsLong(es[1..], minDurationSec);
    }
  }

  lemma FilterIdempotent(es: seq<Event>, minDurationSec: int)
    ensures var r := FilterSmallSteps(es, minDurationSec); FilterSmallSteps(r, minDurationSec) == r
  {
    var r := FilterSmallSteps(es, minDurationSec);
    assert forall i :: 0 <= i < |r| ==> r[i] in r;
    FilterKeepsLong(r, minDurationSec);
  }

  // ---------------------------------------------------------------------------
  // The aggregate table
  // ---------------------------------------------------------------------------

  /** A name-to-aggregate dict in which no aggregate object is shared by two names. */
  predicate Distinct(m: map<string, AggregateEvent>)
  {
    forall a, b :: a in m && b in m && a != b ==> m[a] != m[b]
  }

  /** The value of every aggregate in the table. */
  function StatesOf(m: map<string, AggregateEvent>): map<string, AggregateState>
    reads m.Values
  {
    map k | k in m :: m[k].State()
  }

  /** The aggregates in the table have exactly the values `s` gives them. */
  ghost predicate Holds(m: map<string, AggregateEvent>, s: map<string, AggregateState>)
    reads m.Values
  {
    m.Keys == s.Keys && forall k :: k in m ==> m[k].State() == s[k]
  }

  lemma HoldsStates(m: map<string, AggregateEvent>, s: map<string, AggregateState>)
    requires Holds(m, s)
    ensures StatesOf(m) == s
  {
  }

  lemma StatesHold(m: map<string, AggregateEvent>)
    ensures Holds(m, StatesOf(m)) && StatesOf(m).Keys == m.Keys
  {
  }

  /** The events of `es` with name `k`, in order. */
  function EventsNamed(es: seq<Event>, k: string): (r: seq<Event>)
    ensures forall i :: 0 <= i < |r| ==> r[i].name == k
    ensures |r| > 0 <==> k in NameSet(es)
  {
    if |es| == 0 then []
    else
      var init := EventsNamed(es[..|es| - 1], k);
      NameSetLast(es);
      init + (if es[|es| - 1].name == k then [es[|es| - 1]] else [])
  }

  /** One turn of `aggregate`'s loop: create the entry from the event if new, then add the event. */
  function AggregateStep(m: map<string, AggregateState>, e: Event): map<string, AggregateState>
  {
    var a := if e.name in m then m[e.name] else InitialAggregate(e);
    m[e.name := WithSample(a, e)]
  }

  /** The table after `aggregate` has seen each of `es` in turn. */
  function AggregateAll(m: map<string, AggregateState>, es: seq<Event>): (r: map<string, AggregateState>)
    ensures r.Keys == m.Keys + NameSet(es)
  {
    if |es| == 0 then m
    else
      NameSetLast(es);
      AggregateStep(AggregateAll(m, es[..|es| - 1]), es[|es| - 1])
  }

  /**
   * `aggregate`: for each contributor event, create its name's entry from it
   * when missing, then add the event to the entry. Existing entries keep their
   * objects; new entries are new objects.
   */
  method Aggregate(data: map<string, AggregateEvent>, events: seq<Event>) returns (result: map<string, AggregateEvent>)
    requires Distinct(data)
    modifies data.Values
    ensures result.Keys == data.Keys + NameSet(events)
    ensures forall k :: k in data ==> result[k] == data[k]
    ensures forall k :: k in result && k !in data ==> fresh(result[k])
    ensures Distinct(result)
    ensures StatesOf(result) == AggregateAll(old(StatesOf(data)), events)
  {
    ghost var start := StatesOf(data);
    StatesHold(data);
    ghost var cur := start;
    result := data;
    for i := 0 to |events|
      invariant cur == AggregateAll(start, events[..i])
      invariant data.Keys <= result.Keys
      invariant forall k :: k in data ==> result[k] == data[k]
      invariant forall k :: k in result && k !in data ==> fresh(result[k])
      invariant Distinct(result)
      invariant Holds(result, cur)
    {
      var e := events[i];
      AggregateAllSnoc(start, events, i);
      result := AggregateEventStep(data, result, e, cur);
      cur := AggregateStep(cur, e);
    }
    assert events[..|events|] == events;
    HoldsStates(result, cur);
  }

  lemma AggregateAllSnoc(m: map<string, AggregateState>, es: seq<Event>, i: nat)
    requires i < |es|
    ensures AggregateAll(m, es[..i + 1]) == AggregateStep(AggregateAll(m, es[..i]), es[i])
  {
    assert es[..i + 1][..i] == es[..i];
  }

  /** The body of `aggregate`'s loop. */
  method AggregateEventStep(data: map<string, AggregateEvent>, table: map<string, AggregateEvent>, e: Event, ghost cur: map<string, AggregateState>)
    returns (result: map<string, AggregateEvent>)
    requires Distinct(table) && Holds(table, cur)
    requires forall k :: k in data ==> k in table && table[k] == data[k]
    modifies table.Values
    ensures Holds(result, AggregateStep(cur, e)) && Distinct(result)
    ensures result.Keys == table.Keys + {e.name}
    ensures forall k :: k in table ==> result[k] == table[k]
    ensures e.name !in table ==> fresh(result[e.name])
  {
    result := table;
    if e.name !in result {
      var a := new AggregateEvent.FromEvent(e);
      result := result[e.name := a];
    }
    result[e.name].AddEvent(e);
  }

  /** Folding samples one past the end. */
  lemma {:induction false} WithSamplesSnoc(a: AggregateState, es: seq<Event>, e: Event)
    ensures WithSamples(a, es + [e]) == WithSample(WithSamples(a, es), e)
    decreases |es|
  {
    if |es| > 0 {
      assert (es + [e])[1..] == es[1..] + [e];
      WithSamplesSnoc(WithSample(a, es[0]), es[1..], e);
    }
  }

  /**
   * What `aggregate` leaves: the old keys plus the events' names; an old entry
   * has had every event of its name added in order; a new entry started from
   * the first event of its name and then had all of them added.
   */
  lemma {:induction false} AggregateAllEntries(m: map<string, AggregateState>, es: seq<Event>)
    ensures var r := AggregateAll(m, es);
      && (forall k :: k in m ==> r[k] == WithSamples(m[k], EventsNamed(es, k)))
      && (forall k :: k in r && k !in m ==> r[k] == WithSamples(InitialAggregate(EventsNamed(es, k)[0]), EventsNamed(es, k)))
  {
    if |es| > 0 {
      var init, e := es[..|es| - 1], es[|es| - 1];
      AggregateAllEntries(m, init);
      var p := AggregateAll(m, init);
      var r := AggregateAll(m, es);
      forall k | k in r
        ensures k in m ==> r[k] == WithSamples(m[k], EventsNamed(es, k))
        ensures k !in m ==> r[k] == WithSamples(InitialAggregate(EventsNamed(es, k)[0]), EventsNamed(es, k))
      {
        if k == e.name {
          assert EventsNamed(es, k) == EventsNamed(init, k) + [e];
          if k in p {
            if k in m {
              WithSamplesSnoc(m[k], EventsNamed(init, k), e);
            } else {
              WithSamplesSnoc(InitialAggregate(EventsNamed(init, k)[0]), EventsNamed(init, k), e);
            }
          } else {
            assert EventsNamed(init, k) == [];
            assert EventsNamed(es, k) == [e];
          }
        } else {
          assert EventsNamed(es, k) == EventsNamed(init, k);
        }
      }
    }
  }

  /** Entries whose name no event carries stay as they were. */
  lemma AggregateUntouched(m: map<string, AggregateState>, es: seq<Event>, k: string)
    requires k in m && k !in NameSet(es)
    ensures AggregateAll(m, es)[k] == m[k]
  {
    AggregateAllEntries(m, es);
  }

  /**
   * A new entry holds one duration per event of its name in order, every such
   * event's workflow, and spans from their earliest start to their latest end.
   */
  lemma AggregateNewEntry(m: map<string, AggregateState>, es: seq<Event>, k: string)
    requires k !in m && k in NameSet(es)
    ensures var a, named := AggregateAll(m, es)[k], EventsNamed(es, k);
      && a.name == k
      && a.values == Durations(named)
      && a.contributors == Workflows(named)
      && a.start == MinStart(named) && a.end == MaxEnd(named)
  {
    NewEntryIs(m, es, k);
    InitialSamples(EventsNamed(es, k));
  }

  lemma NewEntryIs(m: map<string, AggregateState>, es: seq<Event>, k: string)
    requires k !in m && k in NameSet(es)
    ensures var named := EventsNamed(es, k);
      AggregateAll(m, es)[k] == WithSamples(InitialAggregate(named[0]), named)
  {
    AggregateAllEntries(m, es);
  }

  /** Folding a name's events into the aggregate built from the first of them. */
  lemma InitialSamples(named: seq<Event>)
    requires |named| > 0
    ensures var a := WithSamples(InitialAggregate(named[0]), named);
      && a.name == named[0].name
      && a.values == Durations(named)
      && a.contributors == Workflows(named)
      && a.start == MinStart(named) && a.end == MaxEnd(named)
  {
    var a0 := InitialAggregate(named[0]);
    WithSamplesValues(a0, named);
    assert a0.values + Durations(named) == Durations(named);
    WithSamplesContributors(a0, named);
    assert a0.contributors + Workflows(named) == Workflows(named);
    WithSamplesStart(a0, named);
    assert MinStart(named) <= named[0].start;
    WithSamplesEnd(a0, named);
    assert named[0].end <= MaxEnd(named);
  }

  /** An old entry gains one duration per event of its name in order, and every such event's workflow. */
  lemma AggregateOldEntry(m: map<string, AggregateState>, es: seq<Event>, k: string)
    requires k in m
    ensures var a, named := AggregateAll(m, es)[k], EventsNamed(es, k);
      && a.name == m[k].name
      && a.values == m[k].values + Durations(named)
      && a.contributors == m[k].contributors + Workflows(named)
      && a.start <= m[k].start && a.end >= m[k].end
  {
    AggregateAllEntries(m, es);
    WithSamplesEffect(m[k], EventsNamed(es, k));
  }

  // ---------------------------------------------------------------------------
  // fill_missing_steps
  // ---------------------------------------------------------------------------

  /** One inner turn of `fill_missing_steps`: add the event when its name is a key and the workflow is not yet a contributor. */
  function FillEvent(m: map<string, AggregateState>, id: WorkflowId, e: Event): map<string, AggregateState>
  {
    if e.name in m && id !in m[e.name].contributors then m[e.name := WithSample(m[e.name], e)] else m
  }

  /** The inner loop over one workflow's events. */
  function FillWorkflow(m: map<string, AggregateState>, id: WorkflowId, es: seq<Event>): (r: map<string, AggregateState>)
    ensures r.Keys == m.Keys
  {
    if |es| == 0 then m else FillEvent(FillWorkflow(m, id, es[..|es| - 1]), id, es[|es| - 1])
  }

  /** The outer loop over the contributor workflows, each given by its id and events. */
  function FillAll(m: map<string, AggregateState>, ws: seq<(WorkflowId, seq<Event>)>): (r: map<string, AggregateState>)
    ensures r.Keys == m.Keys
  {
    if |ws| == 0 then m
    else
      var w := ws[|ws| - 1];
      FillWorkflow(FillAll(m, ws[..|ws| - 1]), w.0, w.1)
  }

  /** The id and events of each workflow. */
  function Views(ws: seq<Workflow>): (r: seq<(WorkflowId, seq<Event>)>)
    reads set i | 0 <= i < |ws| :: ws[i]
    ensures |r| == |ws|
    ensures forall i :: 0 <= i < |ws| ==> r[i] == (ws[i].id, ws[i].events)
  {
    if |ws| == 0 then [] else Views(ws[..|ws| - 1]) + [(ws[|ws| - 1].id, ws[|ws| - 1].events)]
  }

  /** `fill_missing_steps`: for each contributor's events, add those whose aggregate does not list the contributor yet. */
  method FillMissingSteps(aggregated: map<string, AggregateEvent>, contributors: seq<Workflow>)
    requires Distinct(aggregated)
    modifies aggregated.Values
    ensures StatesOf(aggregated) == FillAll(old(StatesOf(aggregated)), old(Views(contributors)))
  {
    ghost var start := StatesOf(aggregated);
    StatesHold(aggregated);
    ghost var views := Views(contributors);
    ghost var cur := start;
    for j := 0 to |contributors|
      invariant cur == FillAll(start, views[..j])
      invariant Holds(aggregated, cur)
    {
      var workflow := contributors[j];
      var id, events := workflow.id, workflow.events;
      assert views[j] == (id, events);
      FillAllSnoc(start, views, j);
      ghost var before := cur;
      for i := 0 to |events|
        invariant cur == FillWorkflow(before, id, events[..i])
        invariant Holds(aggregated, cur)
      {
        var event := events[i];
        FillWorkflowSnoc(before, id, events, i);
        FillEventStep(aggregated, id, event, cur);
        cur := FillEvent(cur, id, event);
      }
      assert events[..|events|] == events;
    }
    assert views[..|contributors|] == views;
    HoldsStates(aggregated, cur);
  }

  lemma FillAllSnoc(m: map<string, AggregateState>, ws: seq<(WorkflowId, seq<Event>)>, j: nat)
    requires j < |ws|
    ensures FillAll(m, ws[..j + 1]) == FillWorkflow(FillAll(m, ws[..j]), ws[j].0, ws[j].1)
  {
    assert ws[..j + 1][..j] == ws[..j];
  }

  lemma FillWorkflowSnoc(m: map<string, AggregateState>, id: WorkflowId, es: seq<Event>, i: nat)
    requires i < |es|
    ensures FillWorkflow(m, id, es[..i + 1]) == FillEvent(FillWorkflow(m, id, es[..i]), id, es[i])
  {
    assert es[..i + 1][..i] == es[..i];
  }

  /** The body of `fill_missing_steps`' inner loop. */
  method FillEventStep(aggregated: map<string, AggregateEvent>, id: WorkflowId, event: Event, ghost cur: map<string, AggregateState>)
    requires Distinct(aggregated) && Holds(aggregated, cur)
    modifies aggregated.Values
    ensures Holds(aggregated, FillEvent(cur, id, event))
  {
    if event.name in aggregated && id !in aggregated[event.name].contributors {
      aggregated[event.name].AddEvent(event);
    }
  }

  /** One entry only grows: its samples are extended, its contributors widened, its name kept. */
  ghost predicate Grows(a: AggregateState, b: AggregateState)
  {
    a.name == b.name && a.values <= b.values && a.contributors <= b.contributors
  }

  /** Within one workflow, an entry whose name none of its events carries is untouched, and every entry only grows. */
  lemma {:induction false} FillWorkflowEntries(m: map<string, AggregateState>, id: WorkflowId, es: seq<Event>)
    ensures var r := FillWorkflow(m, id, es);
      forall k :: k in m ==> k in r && Grows(m[k], r[k]) && (k !in NameSet(es) ==> r[k] == m[k])
  {
    if |es| > 0 {
      var init := es[..|es| - 1];
      FillWorkflowEntries(m, id, init);
      NameSetLast(es);
    }
  }

  /** The names of the events of all the workflows. */
  function AllNames(ws: seq<(WorkflowId, seq<Event>)>): set<string>
  {
    if |ws| == 0 then {} else AllNames(ws[..|ws| - 1]) + NameSet(ws[|ws| - 1].1)
  }

  /**
   * `fill_missing_steps` only grows entries, and leaves alone
   * every entry whose name no contributor's event carries.
   */
  lemma {:induction false} FillAllEntries(m: map<string, AggregateState>, ws: seq<(WorkflowId, seq<Event>)>)
    ensures var r := FillAll(m, ws);
      forall k :: k in m ==> Grows(m[k], r[k]) && (k !in AllNames(ws) ==> r[k] == m[k])
  {
    if |ws| > 0 {
      var init := ws[..|ws| - 1];
      FillAllEntries(m, init);
      FillWorkflowEntries(FillAll(m, init), ws[|ws| - 1].0, ws[|ws| - 1].1);
    }
  }

  /**
   * After one workflow is filled in, every one of its events whose name is a
   * key and that carries the workflow's own id has the workflow as a contributor.
   */
  lemma {:induction false} FillWorkflowCovers(m: map<string, AggregateState>, id: WorkflowId, es: seq<Event>)
    ensures var r := FillWorkflow(m, id, es);
      forall i :: 0 <= i < |es| && es[i].name in m && es[i].workflow == id ==> id in r[es[i].name].contributors
  {
    if |es| > 0 {
      var init := es[..|es| - 1];
      FillWorkflowCovers(m, id, init);
      var p := FillWorkflow(m, id, init);
      var r := FillWorkflow(m, id, es);
      forall i | 0 <= i < |es| && es[i].name in m && es[i].workflow == id
        ensures id in r[es[i].name].contributors
      {
        if i < |es| - 1 {
          assert es[i] == init[i];
          assert id in p[es[i].name].contributors;
        }
      }
    }
  }

  /** Filling in more workflows keeps every contributor already recorded. */
  lemma {:induction false} FillAllKeepsContributor(m: map<string, AggregateState>, ws: seq<(WorkflowId, seq<Event>)>, j: nat, k: string)
    requires j <= |ws| && k in m && k in FillAll(m, ws[..j])
    ensures FillAll(m, ws[..j])[k].contributors <= FillAll(m, ws)[k].contributors
    decreases |ws| - j
  {
    if j < |ws| {
      var p := FillAll(m, ws[..j]);
      assert ws[..j + 1][..j] == ws[..j];
      FillWorkflowEntries(p, ws[j].0, ws[j].1);
      FillAllKeepsContributor(m, ws, j + 1, k);
    } else {
      assert ws[..j] == ws;
    }
  }

  /**
   * After `fill_missing_steps`, every contributor workflow is recorded for each
   * of its events whose name is a key and that carries the workflow's own id.
   */
  lemma FillAllCovers(m: map<string, AggregateState>, ws: seq<(WorkflowId, seq<Event>)>, j: nat, i: nat)
    requires j < |ws| && i < |ws[j].1|
    requires ws[j].1[i].name in m && ws[j].1[i].workflow == ws[j].0
    ensures ws[j].0 in FillAll(m, ws)[ws[j].1[i].name].contributors
  {
    var k := ws[j].1[i].name;
    var p := FillAll(m, ws[..j]);
    assert ws[..j + 1][..j] == ws[..j];
    FillWorkflowCovers(p, ws[j].0, ws[j].1);
    FillAllKeepsContributor(m, ws, j + 1, k);
  }

  /**
   * When a workflow's events named `k` carry its id, filling it in adds at most
   * one sample to the entry for `k`, and none when the entry already lists it.
   */
  lemma {:induction false} FillWorkflowAtMostOnce(m: map<string, AggregateState>, id: WorkflowId, es: seq<Event>, k: string)
    requires k in m
    requires forall i :: 0 <= i < |es| && es[i].name == k ==> es[i].workflow == id
    ensures var r := FillWorkflow(m, id, es);
      && k in r
      && |r[k].values| <= |m[k].values| + 1
      && (|r[k].values| == |m[k].values| + 1 ==> id in r[k].contributors)
      && (id in m[k].contributors ==> r[k] == m[k])
  {
    if |es| > 0 {
      var init := es[..|es| - 1];
      FillWorkflowAtMostOnce(m, id, init, k);
      FillWorkflowEntries(m, id, init);
    }
  }
}
