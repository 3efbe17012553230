/**
 * Resolving an execution id to an ARN, and turning a Step Functions execution
 * history into one timing event per step: each `...StateEntered` record is
 * paired with the first later `...StateExited` record of the same step name.
 */
module Sfn {
  import opened Wrappers
  import opened Text
  import opened Models

  // ---------------------------------------------------------------------------
  // Execution ids
  // ---------------------------------------------------------------------------

  /**
   * `get_execution_arn`: a full ARN (eight colon-separated parts) is parsed, a
   * `MACHINE:EXECUTION` pair is completed with the caller's account and region,
   * anything else is rejected with a message naming the input.
   */
  function GetExecutionArn(id: string, account: string, region: string): (r: Result<ExecutionArn>)
    ensures r.Err? <==> Occurrences(id, ':') != 7 && Occurrences(id, ':') != 1
    ensures r.Err? ==> r.error == "Invalid execution id: " + id
    ensures Occurrences(id, ':') == 7 ==> r == ParseArn(id)
    ensures Occurrences(id, ':') == 1 ==>
      var parts := Split(id, ':');
      r == Ok(ExecutionArn(account := account, region := region, stateMachine := parts[0], execution := parts[1]))
  {
    var parts := Split(id, ':');
    if |parts| == 8 then ParseArn(id)
    else if |parts| == 2 then
      Ok(ExecutionArn(account := account, region := region, stateMachine := parts[0], execution := parts[1]))
    else Err("Invalid execution id: " + id)
  }

  /** A printed ARN resolves to itself, whatever account and region the caller supplies. */
  lemma GetExecutionArnFull(a: ExecutionArn, account: string, region: string)
    requires ':' !in a.account && ':' !in a.region && ':' !in a.stateMachine && ':' !in a.execution
    ensures GetExecutionArn(ArnToString(a), account, region) == Ok(a)
  {
    ParseArnToString(a);
  }

  /** `MACHINE:EXECUTION` resolves to that machine and execution in the supplied account and region. */
  lemma GetExecutionArnShort(machine: string, execution: string, account: string, region: string)
    requires ':' !in machine && ':' !in execution
    ensures GetExecutionArn(machine + ":" + execution, account, region)
         == Ok(ExecutionArn(account := account, region := region, stateMachine := machine, execution := execution))
  {
    JoinCons(machine, [execution], ':');
    SplitJoin([machine, execution], ':');
    OccurrencesAppend(machine, ":", ':');
    OccurrencesAppend(machine + ":", execution, ':');
    OccurrencesAbsent(machine, ':');
    OccurrencesAbsent(execution, ':');
  }

  // ---------------------------------------------------------------------------
  // History records
  // ---------------------------------------------------------------------------

  /**
   * One record of an execution history: its `id`, its `type`, the step name
   * from its entered or exited details, and its timestamp (microseconds).
   * Two records are equal when all four agree, as two Python dicts are.
   */
  datatype Record = Record(id: int, kind: string, name: string, timestamp: int)

  /** `'StateEntered' in record['type']`: matches `TaskStateEntered`, `ChoiceStateEntered`, ... */
  predicate IsEntered(r: Record)
  {
    Contains(r.kind, "StateEntered")
  }

  /** `'StateExited' in record['type']`. */
  predicate IsExited(r: Record)
  {
    Contains(r.kind, "StateExited")
  }

  /** A record that closes a step called `name`. */
  predicate Closes(r: Record, name: string)
  {
    IsExited(r) && r.name == name
  }

  /** `history.index(record)`: the position of the first record equal to it. */
  function FirstOccurrence(h: seq<Record>, r: Record): (k: nat)
    requires r in h
    ensures k < |h| && h[k] == r
  {
    if h[0] == r then 0 else 1 + FirstOccurrence(h[1..], r)
  }

  /** No record before the first occurrence equals it. */
  lemma {:induction false} FirstOccurrenceIsFirst(h: seq<Record>, r: Record)
    requires r in h
    ensures forall j :: 0 <= j < FirstOccurrence(h, r) ==> h[j] != r
  {
    if h[0] != r {
      FirstOccurrenceIsFirst(h[1..], r);
      forall j | 0 < j < FirstOccurrence(h, r) ensures h[j] != r {
        assert h[j] == h[1..][j - 1];
      }
    }
  }

  /** The first position at or after `from` holding a record that closes `name`, if any. */
  function FindExit(h: seq<Record>, name: string, from: nat): (r: Option<nat>)
    ensures r.Some? ==> from <= r.value < |h| && Closes(h[r.value], name)
    decreases |h| - from
  {
    if from >= |h| then None
    else if Closes(h[from], name) then Some(from)
    else FindExit(h, name, from + 1)
  }

  /** The exit found is the first one, and none is found only when there is none. */
  lemma {:induction false} FindExitIsFirst(h: seq<Record>, name: string, from: nat)
    ensures var r := FindExit(h, name, from);
      && (r.Some? ==> forall j :: from <= j < r.value ==> !Closes(h[j], name))
      && (r.None? ==> forall j :: from <= j < |h| ==> !Closes(h[j], name))
    decreases |h| - from
  {
    if from < |h| && !Closes(h[from], name) {
      FindExitIsFirst(h, name, from + 1);
    }
  }

  /**
   * The record that closes the step entered at position `i`: the search starts
   * after the FIRST record equal to `h[i]`, as `history.index` does.
   */
  function ExitOf(h: seq<Record>, i: nat): Option<nat>
    requires i < |h|
  {
    FindExit(h, h[i].name, FirstOccurrence(h, h[i]) + 1)
  }

  /** The event for the step entered at `i` and closed at `k`. */
  function Timing(h: seq<Record>, wf: ExecutionArn, i: nat, k: nat): Event
    requires i < |h| && k < |h|
  {
    Event(start := h[i].timestamp, end := h[k].timestamp, name := h[i].name, workflow := Arn(wf), attempts := 1)
  }

  // ---------------------------------------------------------------------------
  // Building the timings
  // ---------------------------------------------------------------------------

  /**
   * Adds `e` to the timings; when combining and the last timing has the same
   * name, that timing's end moves to `e`'s end instead.
   */
  function Absorb(acc: seq<Event>, e: Event): (r: seq<Event>)
    ensures |r| > 0 && r[|r| - 1].name == e.name && r[|r| - 1].end == e.end
    ensures |acc| > 0 && acc[|acc| - 1].name == e.name ==>
      |r| == |acc| && r[..|acc| - 1] == acc[..|acc| - 1] && r[|acc| - 1] == acc[|acc| - 1].(end := e.end)
    ensures !(|acc| > 0 && acc[|acc| - 1].name == e.name) ==> r == acc + [e]
  {
    if |acc| > 0 && acc[|acc| - 1].name == e.name then acc[..|acc| - 1] + [acc[|acc| - 1].(end := e.end)]
    else acc + [e]
  }

  function AddTiming(acc: seq<Event>, e: Event, combine: bool): seq<Event>
  {
    if combine then Absorb(acc, e) else acc + [e]
  }

  /** What the record at position `i` does to the timings built so far. */
  function StepRecord(h: seq<Record>, wf: ExecutionArn, combine: bool, acc: seq<Event>, i: nat): seq<Event>
    requires i < |h|
  {
    if IsEntered(h[i]) then
      match ExitOf(h, i)
      case None => acc
      case Some(k) => AddTiming(acc, Timing(h, wf, i, k), combine)
    else acc
  }

  /** The timings after the first `n` records. */
  function ProcessUpTo(h: seq<Record>, wf: ExecutionArn, combine: bool, n: nat): seq<Event>
    requires n <= |h|
  {
    if n == 0 then [] else StepRecord(h, wf, combine, ProcessUpTo(h, wf, combine, n - 1), n - 1)
  }

  /** `process_execution_history(workflow, history, combine_consecutive)`. */
  function Process(h: seq<Record>, wf: ExecutionArn, combine: bool): seq<Event>
  {
    ProcessUpTo(h, wf, combine, |h|)
  }

  /**
   * `process_execution_history`: for every entered record, scan the records
   * after its first occurrence for the first exit of the same step, then add
   * or extend a timing and stop scanning.
   */
  method ProcessExecutionHistory(workflow: ExecutionArn, history: seq<Record>, combine: bool := true)
    returns (timings: seq<Event>)
    ensures timings == Process(history, workflow, combine)
  {
    timings := [];
    for i := 0 to |history|
      invariant timings == ProcessUpTo(history, workflow, combine, i)
    {
      var record := history[i];
      if Contains(record.kind, "StateEntered") {
        var name := record.name;
        var startTime := record.timestamp;
        var at := FirstOccurrence(history, record);
        var j := at + 1;
        while j < |history|
          invariant at + 1 <= j <= |history|
          invariant FindExit(history, name, at + 1) == FindExit(history, name, j)
          invariant timings == ProcessUpTo(history, workflow, combine, i)
          decreases |history| - j
        {
          var exit := history[j];
          if Contains(exit.kind, "StateExited") && exit.name == name {
            var endTime := exit.timestamp;
            if |timings| > 0 && timings[|timings| - 1].name == name && combine {
              timings := timings[..|timings| - 1] + [timings[|timings| - 1].(end := endTime)];
            } else {
              timings := timings + [Event(start := startTime, end := endTime, name := name, workflow := Arn(workflow), attempts := 1)];
            }
            break;
          }
          j := j + 1;
        }
      }
    }
  }

  // ---------------------------------------------------------------------------
  // What the timings are
  // ---------------------------------------------------------------------------

  /**
   * Merging runs of same-named neighbours, keeping the first start and the last
   * end of each run.
   */
  function Collapse(xs: seq<Event>): seq<Event>
  {
    if |xs| == 0 then [] else Absorb(Collapse(xs[..|xs| - 1]), xs[|xs| - 1])
  }

  /** Combining consecutive steps is the same as collapsing the uncombined timings. */
  lemma {:induction false} CombinedIsCollapsed(h: seq<Record>, wf: ExecutionArn, n: nat)
    requires n <= |h|
    ensures ProcessUpTo(h, wf, true, n) == Collapse(ProcessUpTo(h, wf, false, n))
  {
    if n > 0 {
      CombinedIsCollapsed(h, wf, n - 1);
      var xs := ProcessUpTo(h, wf, false, n - 1);
      var c := ProcessUpTo(h, wf, true, n - 1);
      if IsEntered(h[n - 1]) && ExitOf(h, n - 1).Some? {
        var e := Timing(h, wf, n - 1, ExitOf(h, n - 1).value);
        assert ProcessUpTo(h, wf, false, n) == xs + [e];
        assert ProcessUpTo(h, wf, true, n) == Absorb(c, e);
        assert (xs + [e])[..|xs|] == xs;
      } else {
        assert ProcessUpTo(h, wf, false, n) == xs;
        assert ProcessUpTo(h, wf, true, n) == c;
      }
    }
  }

  /** No two neighbouring timings are for the same step. */
  predicate NoAdjacentRepeats(es: seq<Event>)
  {
    forall j :: 0 < j < |es| ==> es[j - 1].name != es[j].name
  }

  /** No two neighbours of a collapsed list share a name. */
  lemma {:induction false} CollapseAdjacentDistinct(xs: seq<Event>)
    ensures NoAdjacentRepeats(Collapse(xs))
  {
    if |xs| > 0 {
      CollapseAdjacentDistinct(xs[..|xs| - 1]);
      var acc := Collapse(xs[..|xs| - 1]);
      var c := Collapse(xs);
      if |acc| > 0 && acc[|acc| - 1].name == xs[|xs| - 1].name {
        forall j | 0 <= j < |c| ensures c[j].name == acc[j].name {
          if j < |acc| - 1 { assert c[j] == c[..|acc| - 1][j]; }
        }
      }
    }
  }

  /** Collapsing never lengthens, and keeps a non-empty list non-empty. */
  lemma {:induction false} CollapseLength(xs: seq<Event>)
    ensures |Collapse(xs)| <= |xs|
    ensures |xs| > 0 <==> |Collapse(xs)| > 0
  {
    if |xs| > 0 { CollapseLength(xs[..|xs| - 1]); }
  }

  /**
   * `o` takes its name, start, workflow and attempts from one timing of `xs`
   * and its end from a timing of `xs` with the same name.
   */
  ghost predicate Sourced(xs: seq<Event>, o: Event)
  {
    && (exists a :: a in xs && a.name == o.name && a.start == o.start && a.workflow == o.workflow && a.attempts == o.attempts)
    && (exists b :: b in xs && b.name == o.name && b.end == o.end)
  }

  /** Each collapsed timing is sourced from the uncombined timings. */
  lemma {:induction false} CollapseProvenance(xs: seq<Event>)
    ensures forall o :: o in Collapse(xs) ==> Sourced(xs, o)
  {
    if |xs| > 0 {
      var init := xs[..|xs| - 1];
      CollapseProvenance(init);
      AbsorbSourced(Collapse(init), init, xs);
    }
  }

  /** One absorption keeps every timing sourced, once the history grows by the absorbed timing. */
  lemma AbsorbSourced(acc: seq<Event>, init: seq<Event>, xs: seq<Event>)
    requires |xs| > 0 && init == xs[..|xs| - 1]
    requires forall o :: o in acc ==> Sourced(init, o)
    ensures forall o :: o in Absorb(acc, xs[|xs| - 1]) ==> Sourced(xs, o)
  {
    var e := xs[|xs| - 1];
    assert e in xs;
    forall o | o in acc ensures Sourced(xs, o) {
      SourcedWiden(init, xs, o);
    }
    if |acc| > 0 && acc[|acc| - 1].name == e.name {
      var last := acc[|acc| - 1];
      assert last in acc;
      forall o | o in Absorb(acc, e) ensures Sourced(xs, o) {
        if o !in acc[..|acc| - 1] {
          assert o == last.(end := e.end);
        }
      }
    }
  }

  lemma SourcedWiden(init: seq<Event>, xs: seq<Event>, o: Event)
    requires |xs| > 0 && init == xs[..|xs| - 1] && Sourced(init, o)
    ensures Sourced(xs, o)
  {
    var a :| a in init && a.name == o.name && a.start == o.start && a.workflow == o.workflow && a.attempts == o.attempts;
    var b :| b in init && b.name == o.name && b.end == o.end;
    assert a in xs && b in xs;
  }

  /** The positions among the first `n` records of entered records whose step was closed. */
  function MatchedUpTo(h: seq<Record>, n: nat): (m: seq<nat>)
    requires n <= |h|
    ensures forall k :: 0 <= k < |m| ==> m[k] < n && IsEntered(h[m[k]]) && ExitOf(h, m[k]).Some?
    ensures forall k, l :: 0 <= k < l < |m| ==> m[k] < m[l]
  {
    if n == 0 then []
    else
      var m := MatchedUpTo(h, n - 1);
      if IsEntered(h[n - 1]) && ExitOf(h, n - 1).Some? then m + [n - 1] else m
  }

  /** Every closed entered record among the first `n` is listed. */
  lemma {:induction false} MatchedComplete(h: seq<Record>, n: nat, i: nat)
    requires i < n <= |h| && IsEntered(h[i]) && ExitOf(h, i).Some?
    ensures i in MatchedUpTo(h, n)
  {
    var m := MatchedUpTo(h, n - 1);
    if i < n - 1 {
      MatchedComplete(h, n - 1, i);
    } else {
      assert MatchedUpTo(h, n) == m + [i];
    }
  }

  /** The number of entered records among the first `n`. */
  function EnteredCount(h: seq<Record>, n: nat): nat
    requires n <= |h|
  {
    if n == 0 then 0 else EnteredCount(h, n - 1) + (if IsEntered(h[n - 1]) then 1 else 0)
  }

  /**
   * Without combining there is one timing per closed entered record, in record
   * order; an entered record that is never closed contributes nothing.
   */
  lemma {:induction false} UncombinedTimings(h: seq<Record>, wf: ExecutionArn, n: nat)
    requires n <= |h|
    ensures var r, m := ProcessUpTo(h, wf, false, n), MatchedUpTo(h, n);
      && |r| == |m|
      && forall k :: 0 <= k < |m| ==> r[k] == Timing(h, wf, m[k], ExitOf(h, m[k]).value)
  {
    if n > 0 {
      UncombinedTimings(h, wf, n - 1);
      var r0, m0 := ProcessUpTo(h, wf, false, n - 1), MatchedUpTo(h, n - 1);
      if IsEntered(h[n - 1]) && ExitOf(h, n - 1).Some? {
        assert ProcessUpTo(h, wf, false, n) == r0 + [Timing(h, wf, n - 1, ExitOf(h, n - 1).value)];
        assert MatchedUpTo(h, n) == m0 + [n - 1];
        TimingsSnoc(h, wf, r0, m0, n - 1);
      } else {
        assert ProcessUpTo(h, wf, false, n) == r0;
        assert MatchedUpTo(h, n) == m0;
      }
    }
  }

  /** One timing more for one matched position more. */
  lemma TimingsSnoc(h: seq<Record>, wf: ExecutionArn, r0: seq<Event>, m0: seq<nat>, i: nat)
    requires i < |h| && ExitOf(h, i).Some?
    requires |r0| == |m0| && forall k :: 0 <= k < |m0| ==> m0[k] < |h| && ExitOf(h, m0[k]).Some?
    requires forall k :: 0 <= k < |m0| ==> r0[k] == Timing(h, wf, m0[k], ExitOf(h, m0[k]).value)
    ensures var r, m := r0 + [Timing(h, wf, i, ExitOf(h, i).value)], m0 + [i];
      && |r| == |m|
      && forall k :: 0 <= k < |m| ==> r[k] == Timing(h, wf, m[k], ExitOf(h, m[k]).value)
  {
    var r, m := r0 + [Timing(h, wf, i, ExitOf(h, i).value)], m0 + [i];
    forall k | 0 <= k < |m| ensures r[k] == Timing(h, wf, m[k], ExitOf(h, m[k]).value) {
      if k < |m0| { assert r[k] == r0[k] && m[k] == m0[k]; }
    }
  }

  /** There are at most as many closed entered records as entered ones. */
  lemma {:induction false} MatchedAtMostEntered(h: seq<Record>, n: nat)
    requires n <= |h|
    ensures |MatchedUpTo(h, n)| <= EnteredCount(h, n)
  {
    if n > 0 { MatchedAtMostEntered(h, n - 1); }
  }

  /** In either mode there are at most as many timings as entered records; none for an empty history. */
  lemma TimingCount(h: seq<Record>, wf: ExecutionArn, combine: bool)
    ensures |Process(h, wf, combine)| <= EnteredCount(h, |h|)
    ensures |h| == 0 ==> Process(h, wf, combine) == []
  {
    UncombinedTimings(h, wf, |h|);
    MatchedAtMostEntered(h, |h|);
    if combine {
      CombinedIsCollapsed(h, wf, |h|);
      CollapseLength(ProcessUpTo(h, wf, false, |h|));
    }
  }

  /** With combining, no two neighbouring timings are for the same step. */
  lemma CombinedNoAdjacentRepeats(h: seq<Record>, wf: ExecutionArn)
    ensures NoAdjacentRepeats(Process(h, wf, true))
  {
    CombinedIsCollapsed(h, wf, |h|);
    CollapseAdjacentDistinct(ProcessUpTo(h, wf, false, |h|));
  }

  /** Where a timing's fields come from, in terms of the history alone. */
  ghost predicate FromHistory(h: seq<Record>, wf: ExecutionArn, o: Event)
  {
    && o.workflow == Arn(wf) && o.attempts == 1
    && (exists i :: 0 <= i < |h| && IsEntered(h[i]) && h[i].name == o.name && h[i].timestamp == o.start)
    && (exists i :: 0 <= i < |h| && IsEntered(h[i]) && h[i].name == o.name && ExitOf(h, i).Some?
          && h[ExitOf(h, i).value].timestamp == o.end)
  }

  lemma UncombinedFromHistory(h: seq<Record>, wf: ExecutionArn)
    ensures forall o :: o in Process(h, wf, false) ==> FromHistory(h, wf, o)
  {
    var r, m := Process(h, wf, false), MatchedUpTo(h, |h|);
    UncombinedTimings(h, wf, |h|);
    forall o | o in r ensures FromHistory(h, wf, o) {
      var k :| 0 <= k < |r| && r[k] == o;
      var i := m[k];
      assert IsEntered(h[i]) && h[i].name == o.name && h[i].timestamp == o.start;
    }
  }

  /**
   * Every timing, in either mode, belongs to the given workflow with one
   * attempt; its name and start are those of an entered record, and its end is
   * the timestamp of the first later exit of an entered record of that name.
   */
  lemma TimingsFromHistory(h: seq<Record>, wf: ExecutionArn, combine: bool)
    ensures forall o :: o in Process(h, wf, combine) ==> FromHistory(h, wf, o)
  {
    UncombinedFromHistory(h, wf);
    if combine {
      var xs := Process(h, wf, false);
      CombinedIsCollapsed(h, wf, |h|);
      CollapseProvenance(xs);
      forall o | o in Process(h, wf, true) ensures FromHistory(h, wf, o) {
        var a :| a in xs && a.name == o.name && a.start == o.start && a.workflow == o.workflow && a.attempts == o.attempts;
        var b :| b in xs && b.name == o.name && b.end == o.end;
        assert FromHistory(h, wf, a) && FromHistory(h, wf, b);
      }
    }
  }
}
