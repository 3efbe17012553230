/**
 * The profiler's data model: execution identifiers, step events, cross-execution
 * aggregates, detected loops and the per-workflow view that ranks steps by the
 * time they take. Timestamps are integers (microseconds); a duration is the
 * integer difference of two timestamps and may be negative.
 */
module Models {
  import opened Wrappers
  import opened Text

  // ---------------------------------------------------------------------------
  // Execution identifiers
  // ---------------------------------------------------------------------------

  /** The four variable parts of `arn:aws:states:REGION:ACCOUNT:execution:MACHINE:EXECUTION`. */
  datatype ExecutionArn = ExecutionArn(account: string, region: string, stateMachine: string, execution: string)

  /** `ExecutionArn.parse`: exactly eight colon-separated parts, else a validation error naming the input. */
  function ParseArn(arn: string): (r: Result<ExecutionArn>)
    ensures r.Ok? <==> Occurrences(arn, ':') == 7
    ensures r.Err? ==> r.error == "Invalid ARN: " + arn
    ensures r.Ok? ==>
      var parts := Split(arn, ':');
      && r.value.account == parts[4] && r.value.region == parts[3]
      && r.value.stateMachine == parts[6] && r.value.execution == parts[7]
  {
    var parts := Split(arn, ':');
    if |parts| != 8 then Err("Invalid ARN: " + arn)
    else Ok(ExecutionArn(account := parts[4], region := parts[3], stateMachine := parts[6], execution := parts[7]))
  }

  /**
   * `ExecutionArn.__str__`: `arn:aws:states:REGION:ACCOUNT:execution:MACHINE:EXECUTION`,
   * written piece by piece from the right.
   */
  function ArnToString(a: ExecutionArn): string
  {
    "arn" + ":" + ("aws" + ":" + ("states" + ":" + (a.region + ":" + (a.account + ":" +
      ("execution" + ":" + (a.stateMachine + ":" + a.execution))))))
  }

  /** The eight parts `ArnToString` writes, in order. */
  function ArnParts(a: ExecutionArn): seq<string>
  {
    ["arn", "aws", "states", a.region, a.account, "execution", a.stateMachine, a.execution]
  }

  lemma ArnToStringIsJoin(a: ExecutionArn)
    ensures ArnToString(a) == Join(ArnParts(a), ':')
  {
    var p := ArnParts(a);
    JoinStep(p, 6, ':');
    JoinStep(p, 5, ':');
    JoinStep(p, 4, ':');
    JoinStep(p, 3, ':');
    JoinStep(p, 2, ':');
    JoinStep(p, 1, ':');
    JoinStep(p, 0, ':');
    assert p[7..] == [a.execution];
    assert p[0..] == p;
  }

  /** The join of the parts from `i` on is part `i`, the separator, and the join of the rest. */
  lemma JoinStep(p: seq<string>, i: nat, sep: char)
    requires i + 1 < |p|
    ensures Join(p[i..], sep) == p[i] + [sep] + Join(p[i + 1..], sep)
  {
    assert p[i..][1..] == p[i + 1..];
  }

  /** Printing then parsing gives back the identifier when no field holds a colon. */
  lemma ParseArnToString(a: ExecutionArn)
    requires ':' !in a.account && ':' !in a.region && ':' !in a.stateMachine && ':' !in a.execution
    ensures ParseArn(ArnToString(a)) == Ok(a)
  {
    ArnToStringIsJoin(a);
    var p := ArnParts(a);
    assert forall i :: 0 <= i < |p| ==> ':' !in p[i];
    SplitJoin(p, ':');
  }

  /** Parsing then printing gives back the input when its fixed parts are the standard ones. */
  lemma ArnToStringParse(s: string)
    requires ParseArn(s).Ok?
    requires var parts := Split(s, ':'); parts[0] == "arn" && parts[1] == "aws" && parts[2] == "states" && parts[5] == "execution"
    ensures ArnToString(ParseArn(s).value) == s
  {
    var parts := Split(s, ':');
    ArnToStringIsJoin(ParseArn(s).value);
    assert ArnParts(ParseArn(s).value) == parts;
    JoinSplit(s, ':');
  }

  /**
   * What a workflow or an event says it belongs to: an execution ARN, or a plain
   * label such as the aggregates' `"AGGREGATE"`. An ARN never equals a label.
   */
  datatype WorkflowId = Arn(arn: ExecutionArn) | Label(text: string)

  /** Python's `str(id)`. */
  function IdString(id: WorkflowId): string
  {
    match id
    case Arn(a) => ArnToString(a)
    case Label(s) => s
  }

  /** The `workflow` every `AggregateEvent` reports. */
  const AggregateWorkflow: WorkflowId := Label("AGGREGATE")

  // ---------------------------------------------------------------------------
  // Events
  // ---------------------------------------------------------------------------

  /** One execution of one step (`models.Event`); `attempts` defaults to 1. */
  datatype Event = Event(start: int, end: int, name: string, workflow: WorkflowId, attempts: int)
  {
    /** `end - start`, negative when the step ends before it starts. */
    function Duration(): int { end - start }
  }

  function Names(es: seq<Event>): (r: seq<string>)
    ensures |r| == |es|
    ensures forall i :: 0 <= i < |es| ==> r[i] == es[i].name
  {
    if |es| == 0 then [] else [es[0].name] + Names(es[1..])
  }

  function NameSet(es: seq<Event>): set<string>
  {
    set i | 0 <= i < |es| :: es[i].name
  }

  /** One more event adds its name. */
  lemma NameSetAppend(a: seq<Event>, e: Event)
    ensures NameSet(a + [e]) == NameSet(a) + {e.name}
  {
    var ab := a + [e];
    forall x | x in NameSet(ab) ensures x in NameSet(a) + {e.name} {
      var i :| 0 <= i < |ab| && ab[i].name == x;
      if i < |a| { assert ab[i] == a[i]; }
    }
    forall x | x in NameSet(a) ensures x in NameSet(ab) {
      var i :| 0 <= i < |a| && a[i].name == x;
      assert ab[i] == a[i];
    }
    assert ab[|a|] == e;
  }

  /** The names of a non-empty list are those before its last event plus the last one's. */
  lemma NameSetLast(es: seq<Event>)
    requires |es| > 0
    ensures NameSet(es) == NameSet(es[..|es| - 1]) + {es[|es| - 1].name}
  {
    assert es == es[..|es| - 1] + [es[|es| - 1]];
    NameSetAppend(es[..|es| - 1], es[|es| - 1]);
  }

  /** The earliest start among a non-empty list of events. */
  function MinStart(es: seq<Event>): (m: int)
    requires |es| > 0
    ensures forall i :: 0 <= i < |es| ==> m <= es[i].start
    ensures exists i :: 0 <= i < |es| && m == es[i].start
  {
    if |es| == 1 then es[0].start
    else
      var rest := MinStart(es[1..]);
      assert forall i :: 1 <= i < |es| ==> es[1..][i - 1] == es[i];
      if es[0].start <= rest then es[0].start else rest
  }

  /** The latest end among a non-empty list of events. */
  function MaxEnd(es: seq<Event>): (m: int)
    requires |es| > 0
    ensures forall i :: 0 <= i < |es| ==> es[i].end <= m
    ensures exists i :: 0 <= i < |es| && m == es[i].end
  {
    if |es| == 1 then es[0].end
    else
      var rest := MaxEnd(es[1..]);
      assert forall i :: 1 <= i < |es| ==> es[1..][i - 1] == es[i];
      if es[0].end >= rest then es[0].end else rest
  }

  lemma MinStartMaxEndAppend(a: seq<Event>, b: seq<Event>)
    requires |a| > 0 && |b| > 0
    ensures MinStart(a + b) == Min(MinStart(a), MinStart(b))
    ensures MaxEnd(a + b) == Max(MaxEnd(a), MaxEnd(b))
  {
    MinStartAppend(a, b);
    MaxEndAppend(a, b);
  }

  lemma MinStartAppend(a: seq<Event>, b: seq<Event>)
    requires |a| > 0 && |b| > 0
    ensures MinStart(a + b) == Min(MinStart(a), MinStart(b))
  {
    var ab := a + b;
    var k :| 0 <= k < |ab| && MinStart(ab) == ab[k].start;
    if k < |a| { assert ab[k] == a[k]; } else { assert ab[k] == b[k - |a|]; }
    var ka :| 0 <= ka < |a| && MinStart(a) == a[ka].start;
    var kb :| 0 <= kb < |b| && MinStart(b) == b[kb].start;
    assert ab[ka] == a[ka] && ab[|a| + kb] == b[kb];
  }

  lemma MaxEndAppend(a: seq<Event>, b: seq<Event>)
    requires |a| > 0 && |b| > 0
    ensures MaxEnd(a + b) == Max(MaxEnd(a), MaxEnd(b))
  {
    var ab := a + b;
    var j :| 0 <= j < |ab| && MaxEnd(ab) == ab[j].end;
    if j < |a| { assert ab[j] == a[j]; } else { assert ab[j] == b[j - |a|]; }
    var ja :| 0 <= ja < |a| && MaxEnd(a) == a[ja].end;
    var jb :| 0 <= jb < |b| && MaxEnd(b) == b[jb].end;
    assert ab[ja] == a[ja] && ab[|a| + jb] == b[jb];
  }

  function Min(x: int, y: int): int { if x <= y then x else y }
  function Max(x: int, y: int): int { if x >= y then x else y }

  // ---------------------------------------------------------------------------
  // Aggregates
  // ---------------------------------------------------------------------------

  /** The value of an `AggregateEvent` at one moment. */
  datatype AggregateState = AggregateState(
    start: int, end: int, name: string, values: seq<int>, contributors: set<WorkflowId>, attempts: int)

  /** What `from_event` builds: the event's span and name, no samples, no contributors. */
  function InitialAggregate(e: Event): AggregateState
  {
    AggregateState(e.start, e.end, e.name, [], {}, 1)
  }

  /** The state after `add_event(e)`. */
  function WithSample(a: AggregateState, e: Event): AggregateState
  {
    a.(values := a.values + [e.Duration()],
       contributors := a.contributors + {e.workflow},
       start := Min(a.start, e.start),
       end := Max(a.end, e.end))
  }

  /** The state after `add_event` of each of `es` in turn. */
  function WithSamples(a: AggregateState, es: seq<Event>): AggregateState
    decreases |es|
  {
    if |es| == 0 then a else WithSamples(WithSample(a, es[0]), es[1..])
  }

  function Durations(es: seq<Event>): (r: seq<int>)
    ensures |r| == |es|
    ensures forall i :: 0 <= i < |es| ==> r[i] == es[i].Duration()
  {
    if |es| == 0 then [] else [es[0].Duration()] + Durations(es[1..])
  }

  function Workflows(es: seq<Event>): set<WorkflowId>
  {
    set i | 0 <= i < |es| :: es[i].workflow
  }

  /**
   * Folding samples in appends one duration per event, in order, adds every
   * event's workflow to the contributors, keeps the name, and widens the span
   * to cover every event: it never narrows.
   */
  lemma {:induction false} WithSamplesEffect(a: AggregateState, es: seq<Event>)
    ensures var r := WithSamples(a, es);
      && r.values == a.values + Durations(es)
      && r.contributors == a.contributors + Workflows(es)
      && r.name == a.name && r.attempts == a.attempts
      && r.start <= a.start && r.end >= a.end
      && (|es| == 0 ==> r == a)
      && (|es| > 0 ==> r.start == Min(a.start, MinStart(es)) && r.end == Max(a.end, MaxEnd(es)))
  {
    WithSamplesValues(a, es);
    WithSamplesContributors(a, es);
    WithSamplesSpan(a, es);
  }

  lemma {:induction false} WithSamplesValues(a: AggregateState, es: seq<Event>)
    ensures var r := WithSamples(a, es);
      r.values == a.values + Durations(es) && r.name == a.name && r.attempts == a.attempts
    decreases |es|
  {
    if |es| > 0 {
      WithSamplesValues(WithSample(a, es[0]), es[1..]);
      assert Durations(es) == [es[0].Duration()] + Durations(es[1..]);
    }
  }

  lemma {:induction false} WithSamplesContributors(a: AggregateState, es: seq<Event>)
    ensures WithSamples(a, es).contributors == a.contributors + Workflows(es)
    decreases |es|
  {
    if |es| > 0 {
      WithSamplesContributors(WithSample(a, es[0]), es[1..]);
      assert Workflows(es) == {es[0].workflow} + Workflows(es[1..]) by {
        forall w | w in Workflows(es) ensures w in {es[0].workflow} + Workflows(es[1..]) {
          var i :| 0 <= i < |es| && es[i].workflow == w;
          if i > 0 { assert es[1..][i - 1] == es[i]; }
        }
      }
    }
  }

  lemma WithSamplesSpan(a: AggregateState, es: seq<Event>)
    ensures var r := WithSamples(a, es);
      && r.start <= a.start && r.end >= a.end
      && (|es| == 0 ==> r == a)
      && (|es| > 0 ==> r.start == Min(a.start, MinStart(es)) && r.end == Max(a.end, MaxEnd(es)))
  {
    WithSamplesStart(a, es);
    WithSamplesEnd(a, es);
  }

  lemma {:induction false} WithSamplesStart(a: AggregateState, es: seq<Event>)
    ensures WithSamples(a, es).start <= a.start
    ensures |es| > 0 ==> WithSamples(a, es).start == Min(a.start, MinStart(es))
    decreases |es|
  {
    if |es| > 0 {
      WithSamplesStart(WithSample(a, es[0]), es[1..]);
    }
  }

  lemma {:induction false} WithSamplesEnd(a: AggregateState, es: seq<Event>)
    ensures WithSamples(a, es).end >= a.end
    ensures |es| > 0 ==> WithSamples(a, es).end == Max(a.end, MaxEnd(es))
    decreases |es|
  {
    if |es| > 0 {
      WithSamplesEnd(WithSample(a, es[0]), es[1..]);
    }
  }

  /** A cross-execution rollup of one step name (`models.AggregateEvent`), grown in place. */
  class AggregateEvent {
    var start: int
    var end: int
    var name: string
    var values: seq<int>
    var contributors: set<WorkflowId>
    var attempts: int

    function State(): AggregateState
      reads this
    {
      AggregateState(start, end, name, values, contributors, attempts)
    }

    /** `AggregateEvent.from_event`. */
    constructor FromEvent(e: Event)
      ensures State() == InitialAggregate(e)
    {
      start, end, name := e.start, e.end, e.name;
      values, contributors, attempts := [], {}, 1;
    }

    /** The `workflow` property: always the `"AGGREGATE"` label, never an ARN. */
    function Workflow(): (w: WorkflowId)
      ensures w.Label? && w.text == "AGGREGATE"
    {
      AggregateWorkflow
    }

    /** `add_event`: append the event's duration, record its workflow, widen the span. */
    method AddEvent(e: Event)
      modifies this
      ensures State() == WithSample(old(State()), e)
    {
      values := values + [e.Duration()];
      contributors := contributors + {e.workflow};
      start := Min(start, e.start);
      end := Max(end, e.end);
    }
  }

  // ---------------------------------------------------------------------------
  // Loops
  // ---------------------------------------------------------------------------

  /** A detected repeating run of steps (`models.Loop`). */
  datatype Loop = Loop(name: string, start: int, end: int, iterations: int, events: seq<Event>, names: set<string>)

  /** How many of `es` are named `n`. */
  function CountNamed(es: seq<Event>, n: string): (c: nat)
    ensures c <= |es|
  {
    if |es| == 0 then 0 else (if es[0].name == n then 1 else 0) + CountNamed(es[1..], n)
  }

  /** A name that occurs is counted at least once. */
  lemma {:induction false} CountNamedAt(es: seq<Event>, i: nat)
    requires i < |es|
    ensures CountNamed(es, es[i].name) >= 1
  {
    if i > 0 {
      CountNamedAt(es[1..], i - 1);
      assert es[1..][i - 1] == es[i];
    }
  }

  /** The largest `CountNamed(all, c.name)` over the candidates `cs`: `Counter.most_common(1)[0][1]`. */
  function MostCommonCount(cs: seq<Event>, all: seq<Event>): (m: nat)
    ensures forall i :: 0 <= i < |cs| ==> CountNamed(all, cs[i].name) <= m
    ensures |cs| > 0 ==> exists i :: 0 <= i < |cs| && CountNamed(all, cs[i].name) == m
  {
    if |cs| == 0 then 0
    else
      var rest := MostCommonCount(cs[1..], all);
      assert forall i :: 1 <= i < |cs| ==> cs[1..][i - 1] == cs[i];
      var here := CountNamed(all, cs[0].name);
      if here >= rest then here else rest
  }

  /**
   * `Loop.from_stack`. The stack must be non-empty (the source fails on an empty one).
   * The loop spans the first member's start to the last member's end, names the
   * distinct member names, counts as iterations the occurrences of its most common
   * name, and is labelled by all member names, repeats included, sorted and joined by `|`.
   */
  function FromStack(stack: seq<Event>): (l: Loop)
    requires |stack| > 0
    ensures l.start == stack[0].start && l.end == stack[|stack| - 1].end
    ensures l.events == stack && l.names == NameSet(stack)
    ensures 1 <= l.iterations <= |stack|
    ensures forall i :: 0 <= i < |stack| ==> CountNamed(stack, stack[i].name) <= l.iterations
    ensures exists i :: 0 <= i < |stack| && CountNamed(stack, stack[i].name) == l.iterations
  {
    var iterations := MostCommonCount(stack, stack);
    CountNamedAt(stack, 0);
    Loop(name := Join(SortStrings(Names(stack)), '|'), start := stack[0].start, end := stack[|stack| - 1].end,
         iterations := iterations, events := stack, names := NameSet(stack))
  }

  /**
   * The loop's name lists every member's name, repeats included, in ascending
   * order, separated by `|`, when no name itself holds a `|`.
   */
  lemma FromStackName(stack: seq<Event>)
    requires |stack| > 0
    requires forall i :: 0 <= i < |stack| ==> '|' !in stack[i].name
    ensures var parts := Split(FromStack(stack).name, '|');
      Sorted(parts) && multiset(parts) == multiset(Names(stack))
  {
    var sorted := SortStrings(Names(stack));
    assert FromStack(stack).name == Join(sorted, '|');
    SortedNamesNoBar(stack);
    assert |multiset(sorted)| == |stack|;
    SplitJoin(sorted, '|');
  }

  lemma SortedNamesNoBar(stack: seq<Event>)
    requires forall i :: 0 <= i < |stack| ==> '|' !in stack[i].name
    ensures forall i :: 0 <= i < |SortStrings(Names(stack))| ==> '|' !in SortStrings(Names(stack))[i]
  {
    var sorted := SortStrings(Names(stack));
    forall i | 0 <= i < |sorted| ensures '|' !in sorted[i] {
      assert sorted[i] in multiset(Names(stack));
    }
  }

  /**
   * `Loop.simple_name`: each distinct name once, joined by `|`, in ascending order
   * (the model's fixed order for Python's set iteration); `""` for no names.
   */
  function SimpleName(l: Loop): (s: string)
    ensures l.names == {} ==> s == ""
  {
    Join(SortedElements(l.names), '|')
  }

  /**
   * Splitting a simple name at `|` gives each of the loop's names exactly once, in
   * ascending order, provided no name itself holds a `|`.
   */
  lemma SimpleNameParts(l: Loop)
    requires l.names != {}
    requires forall n :: n in l.names ==> '|' !in n
    ensures var parts := Split(SimpleName(l), '|');
      && |parts| == |l.names|
      && (forall i :: 0 <= i < |parts| ==> parts[i] in l.names)
      && (forall n :: n in l.names ==> n in parts)
      && (forall i, j :: 0 <= i < j < |parts| ==> Le(parts[i], parts[j]) && parts[i] != parts[j])
  {
    SplitJoin(SortedElements(l.names), '|');
  }

  /** `event in loop`: the event's name is one of the loop's and it starts inside the loop's window. */
  predicate InLoop(l: Loop, e: Event)
  {
    e.name in l.names && l.start <= e.start <= l.end
  }

  /** `any(event in loop for loop in loops)`. */
  predicate InAnyLoop(e: Event, loops: seq<Loop>)
  {
    exists k :: 0 <= k < |loops| && InLoop(loops[k], e)
  }

  /** `any(event in loop for loop in loops)`, evaluated loop by loop. */
  method AnyLoopContains(loops: seq<Loop>, e: Event) returns (found: bool)
    ensures found == InAnyLoop(e, loops)
  {
    found := false;
    var k := 0;
    while k < |loops|
      invariant 0 <= k <= |loops|
      invariant found <==> exists q :: 0 <= q < k && InLoop(loops[q], e)
    {
      if InLoop(loops[k], e) {
        found := true;
      }
      k := k + 1;
    }
  }

  /**
   * `Loop.to_event`: a single event standing for the loop. It needs at least one
   * member, whose workflow it takes.
   */
  function ToEvent(l: Loop): (e: Event)
    requires |l.events| > 0
    ensures e.start == l.start && e.end == l.end && e.Duration() == l.end - l.start
    ensures e.workflow == l.events[0].workflow && e.attempts == 1
    ensures e.name == SimpleName(l)
  {
    Event(l.start, l.end, SimpleName(l), l.events[0].workflow, 1)
  }

  // ---------------------------------------------------------------------------
  // Contribution ranking
  // ---------------------------------------------------------------------------

  /** The per-name running totals of `_largest_contributors` (a `defaultdict`, keys in insertion order). */
  datatype Tally = Tally(order: seq<string>, totals: map<string, int>)

  ghost predicate WellFormed(t: Tally)
  {
    && (forall i :: 0 <= i < |t.order| ==> t.order[i] in t.totals)
    && (forall n :: n in t.totals ==> n in t.order)
    && (forall i, j :: 0 <= i < j < |t.order| ==> t.order[i] != t.order[j])
  }

  /** `durations[name] += amount`. */
  function Bump(t: Tally, name: string, amount: int): Tally
  {
    if name in t.totals then Tally(t.order, t.totals[name := t.totals[name] + amount])
    else Tally(t.order + [name], t.totals[name := amount])
  }

  /** `durations[name] += amount` on the `defaultdict`, as a state update. */
  method AddTo(order0: seq<string>, totals0: map<string, int>, name: string, amount: int)
    returns (order: seq<string>, totals: map<string, int>)
    ensures Tally(order, totals) == Bump(Tally(order0, totals0), name, amount)
  {
    order, totals := order0, totals0;
    if name in totals {
      totals := totals[name := totals[name] + amount];
    } else {
      order, totals := order + [name], totals[name := amount];
    }
  }

  /** The tally after adding each (name, amount) pair in turn to an empty one. */
  function TallyOf(cs: seq<(string, int)>): (t: Tally)
    ensures forall i :: 0 <= i < |t.order| ==> t.order[i] in t.totals
  {
    if |cs| == 0 then Tally([], map[]) else Bump(TallyOf(cs[..|cs| - 1]), cs[|cs| - 1].0, cs[|cs| - 1].1)
  }

  lemma TallyOfSnoc(cs: seq<(string, int)>, c: (string, int))
    ensures TallyOf(cs + [c]) == Bump(TallyOf(cs), c.0, c.1)
  {
    assert (cs + [c])[..|cs|] == cs;
  }

  /** The sum of the amounts paired with `n`. */
  function SumFor(cs: seq<(string, int)>, n: string): int
  {
    if |cs| == 0 then 0 else SumFor(cs[..|cs| - 1], n) + (if cs[|cs| - 1].0 == n then cs[|cs| - 1].1 else 0)
  }

  /** Some pair in `cs` is named `n`. */
  predicate HasName(cs: seq<(string, int)>, n: string)
  {
    exists i :: 0 <= i < |cs| && cs[i].0 == n
  }

  lemma {:induction false} SumForAbsent(cs: seq<(string, int)>, n: string)
    requires !HasName(cs, n)
    ensures SumFor(cs, n) == 0
  {
    if |cs| > 0 {
      var init := cs[..|cs| - 1];
      SumForAbsent(init, n);
    }
  }

  /** The index of the first pair named `n`. */
  function FirstSeen(cs: seq<(string, int)>, n: string): (k: nat)
    requires HasName(cs, n)
    ensures k < |cs| && cs[k].0 == n
    ensures forall i :: 0 <= i < k ==> cs[i].0 != n
  {
    if cs[0].0 == n then 0
    else
      assert HasName(cs[1..], n) by {
        var i :| 0 <= i < |cs| && cs[i].0 == n;
        assert cs[1..][i - 1] == cs[i];
      }
      1 + FirstSeen(cs[1..], n)
  }

  /**
   * The tally holds each contributed name once, in the order names were first
   * contributed, with the sum of that name's amounts.
   */
  lemma TallyOfMeaning(cs: seq<(string, int)>)
    ensures WellFormed(TallyOf(cs))
    ensures forall n :: n in TallyOf(cs).totals <==> HasName(cs, n)
    ensures forall n :: n in TallyOf(cs).totals ==> TallyOf(cs).totals[n] == SumFor(cs, n)
    ensures InFirstSeenOrder(cs, TallyOf(cs).order)
  {
    TallyOfKeys(cs);
    TallyOfTotals(cs);
    TallyOfOrder(cs);
  }

  lemma {:induction false} TallyOfKeys(cs: seq<(string, int)>)
    ensures WellFormed(TallyOf(cs))
    ensures forall n :: n in TallyOf(cs).totals <==> HasName(cs, n)
  {
    if |cs| > 0 {
      var init := cs[..|cs| - 1];
      var last := cs[|cs| - 1];
      TallyOfKeys(init);
      var t' := TallyOf(cs);
      forall n | n in t'.totals ensures HasName(cs, n) {
        if n != last.0 {
          var i :| 0 <= i < |init| && init[i].0 == n;
          assert cs[i].0 == n;
        }
      }
      forall n | HasName(cs, n) ensures n in t'.totals {
        var i :| 0 <= i < |cs| && cs[i].0 == n;
        if i < |init| { assert init[i].0 == n; }
      }
    }
  }

  lemma {:induction false} TallyOfTotals(cs: seq<(string, int)>)
    ensures forall n :: n in TallyOf(cs).totals ==> TallyOf(cs).totals[n] == SumFor(cs, n)
  {
    if |cs| > 0 {
      var init := cs[..|cs| - 1];
      var last := cs[|cs| - 1];
      TallyOfTotals(init);
      if last.0 !in TallyOf(init).totals {
        TallyOfKeys(init);
        SumForAbsent(init, last.0);
      }
    }
  }

  /** The names of `order` appear in `cs`, in the order of their first appearance there. */
  ghost predicate InFirstSeenOrder(cs: seq<(string, int)>, order: seq<string>)
  {
    forall i, j :: 0 <= i < j < |order| ==> SeenBefore(cs, order[i], order[j])
  }

  /** Both names occur in `cs`, and `a` first occurs before `b` does. */
  ghost predicate SeenBefore(cs: seq<(string, int)>, a: string, b: string)
  {
    HasName(cs, a) && HasName(cs, b) && FirstSeen(cs, a) < FirstSeen(cs, b)
  }

  lemma {:induction false} TallyOfOrder(cs: seq<(string, int)>)
    ensures InFirstSeenOrder(cs, TallyOf(cs).order)
  {
    if |cs| > 0 {
      TallyOfOrder(cs[..|cs| - 1]);
      TallyOfOrderStep(cs);
    } else {
      assert TallyOf(cs).order == [];
    }
  }

  lemma TallyOfOrderStep(cs: seq<(string, int)>)
    requires |cs| > 0
    requires InFirstSeenOrder(cs[..|cs| - 1], TallyOf(cs[..|cs| - 1]).order)
    ensures InFirstSeenOrder(cs, TallyOf(cs).order)
  {
    var t' := TallyOf(cs);
    forall i, j | 0 <= i < j < |t'.order|
      ensures SeenBefore(cs, t'.order[i], t'.order[j])
    {
      TallyOfOrderPair(cs, i, j);
    }
  }

  lemma TallyOfOrderPair(cs: seq<(string, int)>, i: nat, j: nat)
    requires |cs| > 0
    requires InFirstSeenOrder(cs[..|cs| - 1], TallyOf(cs[..|cs| - 1]).order)
    requires i < j < |TallyOf(cs).order|
    ensures SeenBefore(cs, TallyOf(cs).order[i], TallyOf(cs).order[j])
  {
    var init := cs[..|cs| - 1];
    var t := TallyOf(init);
    var t' := TallyOf(cs);
    TallyOfKeys(init);
    assert t.order[i] in t.totals;
    if j == |t.order| {
      assert t'.order[i] == t.order[i];
      FirstSeenNew(cs, t.order[i]);
    } else {
      assert t'.order[i] == t.order[i] && t'.order[j] == t.order[j];
      assert t.order[j] in t.totals;
      FirstSeenPrefix(init, cs, t.order[i]);
      FirstSeenPrefix(init, cs, t.order[j]);
    }
  }

  /** A name first seen before the last pair is seen earlier than a name that only the last pair brings. */
  lemma FirstSeenNew(cs: seq<(string, int)>, n: string)
    requires |cs| > 0
    requires HasName(cs[..|cs| - 1], n)
    requires !HasName(cs[..|cs| - 1], cs[|cs| - 1].0)
    ensures HasName(cs, n) && HasName(cs, cs[|cs| - 1].0)
    ensures FirstSeen(cs, n) < FirstSeen(cs, cs[|cs| - 1].0)
  {
    var init := cs[..|cs| - 1];
    FirstSeenPrefix(init, cs, n);
  }

  lemma FirstSeenPrefix(init: seq<(string, int)>, cs: seq<(string, int)>, n: string)
    requires init <= cs
    requires HasName(init, n)
    ensures HasName(cs, n)
    ensures FirstSeen(cs, n) == FirstSeen(init, n)
  {
    var i :| 0 <= i < |init| && init[i].0 == n;
    assert cs[i] == init[i];
    var a, b := FirstSeen(cs, n), FirstSeen(init, n);
  }

  /** `durations.items()`, for a well-formed tally. */
  function Items(t: Tally): (r: seq<(string, int)>)
    requires forall i :: 0 <= i < |t.order| ==> t.order[i] in t.totals
    ensures |r| == |t.order|
    ensures forall i :: 0 <= i < |r| ==> r[i] == (t.order[i], t.totals[t.order[i]])
  {
    seq(|t.order|, i requires 0 <= i < |t.order| => (t.order[i], t.totals[t.order[i]]))
  }

  /** Place `x` before the first entry whose total does not exceed its own. */
  function InsertByTotal(x: (string, int), ys: seq<(string, int)>): seq<(string, int)>
  {
    if |ys| == 0 || ys[0].1 <= x.1 then [x] + ys else [ys[0]] + InsertByTotal(x, ys[1..])
  }

  /** `sorted(items, key=lambda x: x[1], reverse=True)`, a stable sort. */
  function SortByTotal(xs: seq<(string, int)>): seq<(string, int)>
  {
    if |xs| == 0 then [] else InsertByTotal(xs[0], SortByTotal(xs[1..]))
  }

  /** The entries with total `v`, in order. */
  function WithTotal(xs: seq<(string, int)>, v: int): seq<(string, int)>
  {
    if |xs| == 0 then [] else (if xs[0].1 == v then [xs[0]] else []) + WithTotal(xs[1..], v)
  }

  predicate NonIncreasing(xs: seq<(string, int)>)
  {
    forall i, j :: 0 <= i < j < |xs| ==> xs[i].1 >= xs[j].1
  }

  lemma {:induction false} InsertByTotalPermutes(x: (string, int), ys: seq<(string, int)>)
    ensures multiset(InsertByTotal(x, ys)) == multiset(ys) + multiset{x}
  {
    if |ys| > 0 && ys[0].1 > x.1 {
      InsertByTotalPermutes(x, ys[1..]);
      assert ys == [ys[0]] + ys[1..];
    }
  }

  /** Every entry of `InsertByTotal(x, ys)` is `x` or an entry of `ys`. */
  lemma InsertByTotalFrom(x: (string, int), ys: seq<(string, int)>, j: nat)
    requires j < |InsertByTotal(x, ys)|
    ensures InsertByTotal(x, ys)[j] == x || InsertByTotal(x, ys)[j] in ys
  {
    var r := InsertByTotal(x, ys);
    InsertByTotalPermutes(x, ys);
    assert r[j] in multiset(r);
  }

  lemma {:induction false} InsertByTotalOrdered(x: (string, int), ys: seq<(string, int)>)
    requires NonIncreasing(ys)
    ensures NonIncreasing(InsertByTotal(x, ys))
  {
    if |ys| > 0 && ys[0].1 > x.1 {
      InsertByTotalOrdered(x, ys[1..]);
      var tail := InsertByTotal(x, ys[1..]);
      forall j | 0 <= j < |tail| ensures ys[0].1 >= tail[j].1 {
        InsertByTotalFrom(x, ys[1..], j);
      }
      assert ([ys[0]] + tail)[1..] == tail;
    }
  }

  lemma {:induction false} InsertByTotalStable(x: (string, int), ys: seq<(string, int)>, v: int)
    ensures WithTotal(InsertByTotal(x, ys), v) == (if x.1 == v then [x] else []) + WithTotal(ys, v)
  {
    var r := InsertByTotal(x, ys);
    if |ys| == 0 || ys[0].1 <= x.1 {
      assert r == [x] + ys;
      assert r[0] == x && r[1..] == ys;
    } else {
      InsertByTotalStable(x, ys[1..], v);
      assert r == [ys[0]] + InsertByTotal(x, ys[1..]);
      assert r[0] == ys[0] && r[1..] == InsertByTotal(x, ys[1..]);
      var h := if ys[0].1 == v then [ys[0]] else [];
      var xv := if x.1 == v then [x] else [];
      assert WithTotal(r, v) == h + (xv + WithTotal(ys[1..], v));
      assert WithTotal(ys, v) == h + WithTotal(ys[1..], v);
    }
  }

  predicate DistinctNames(xs: seq<(string, int)>)
  {
    forall i, j :: 0 <= i < j < |xs| ==> xs[i].0 != xs[j].0
  }

  lemma {:induction false} InsertByTotalDistinct(x: (string, int), ys: seq<(string, int)>)
    requires DistinctNames(ys)
    requires forall i :: 0 <= i < |ys| ==> ys[i].0 != x.0
    ensures DistinctNames(InsertByTotal(x, ys))
  {
    var r := InsertByTotal(x, ys);
    if |ys| == 0 || ys[0].1 <= x.1 {
      assert r[1..] == ys;
    } else {
      InsertByTotalDistinct(x, ys[1..]);
      var tail := InsertByTotal(x, ys[1..]);
      forall j | 0 <= j < |tail| ensures ys[0].0 != tail[j].0 {
        InsertByTotalFrom(x, ys[1..], j);
      }
      assert r[1..] == tail;
    }
  }

  /** The ranking is a permutation of its input, non-increasing by total. */
  lemma {:induction false} SortByTotalOrdered(xs: seq<(string, int)>)
    ensures multiset(SortByTotal(xs)) == multiset(xs)
    ensures NonIncreasing(SortByTotal(xs))
  {
    if |xs| > 0 {
      var tail := SortByTotal(xs[1..]);
      SortByTotalOrdered(xs[1..]);
      InsertByTotalPermutes(xs[0], tail);
      InsertByTotalOrdered(xs[0], tail);
      assert xs == [xs[0]] + xs[1..];
    }
  }

  /** The sort is stable: the entries that share a total keep their input order. */
  lemma {:induction false} SortByTotalStable(xs: seq<(string, int)>, v: int)
    ensures WithTotal(SortByTotal(xs), v) == WithTotal(xs, v)
  {
    if |xs| > 0 {
      SortByTotalStable(xs[1..], v);
      InsertByTotalStable(xs[0], SortByTotal(xs[1..]), v);
    }
  }

  lemma {:induction false} SortByTotalDistinct(xs: seq<(string, int)>)
    requires DistinctNames(xs)
    ensures DistinctNames(SortByTotal(xs))
  {
    if |xs| > 0 {
      var tail := SortByTotal(xs[1..]);
      SortByTotalDistinct(xs[1..]);
      SortByTotalOrdered(xs[1..]);
      forall i | 0 <= i < |tail| ensures tail[i].0 != xs[0].0 {
        assert tail[i] in multiset(xs[1..]);
        var q :| 0 <= q < |xs[1..]| && xs[1..][q] == tail[i];
        assert xs[q + 1] == tail[i];
      }
      InsertByTotalDistinct(xs[0], tail);
    }
  }

  /**
   * The ranking is non-increasing by total, a permutation of its input, and
   * stable: the entries that share a total keep their input order.
   */
  lemma SortByTotalFacts(xs: seq<(string, int)>)
    ensures NonIncreasing(SortByTotal(xs))
    ensures multiset(SortByTotal(xs)) == multiset(xs)
    ensures forall v :: WithTotal(SortByTotal(xs), v) == WithTotal(xs, v)
    ensures DistinctNames(xs) ==> DistinctNames(SortByTotal(xs))
  {
    SortByTotalOrdered(xs);
    forall v ensures WithTotal(SortByTotal(xs), v) == WithTotal(xs, v) {
      SortByTotalStable(xs, v);
    }
    if DistinctNames(xs) {
      SortByTotalDistinct(xs);
    }
  }

  /** Python's `xs[:n]`, negative `n` counting from the end. */
  function PrefixSlice<T>(xs: seq<T>, n: int): (r: seq<T>)
    ensures r <= xs
    ensures n >= 0 ==> |r| == Min(n, |xs|)
    ensures n < 0 ==> |r| == Max(0, |xs| + n)
  {
    if n >= |xs| then xs
    else if n >= 0 then xs[..n]
    else if |xs| + n >= 0 then xs[..|xs| + n]
    else []
  }

  /** The (name, amount) pair one event adds, if any: only own-workflow events, and with loops folded only non-members. */
  function EventContribution(e: Event, id: WorkflowId, loops: seq<Loop>, withLoops: bool): seq<(string, int)>
  {
    if e.workflow != id then []
    else if !withLoops || !InAnyLoop(e, loops) then [(e.name, e.Duration())]
    else []
  }

  function EventContributions(es: seq<Event>, id: WorkflowId, loops: seq<Loop>, withLoops: bool): seq<(string, int)>
  {
    if |es| == 0 then []
    else EventContributions(es[..|es| - 1], id, loops, withLoops) + EventContribution(es[|es| - 1], id, loops, withLoops)
  }

  /** Each loop's wall-clock span under the key `"[LOOP] " + simple_name`. */
  function LoopContributions(loops: seq<Loop>): seq<(string, int)>
  {
    if |loops| == 0 then []
    else LoopContributions(loops[..|loops| - 1]) + [LoopKey(loops[|loops| - 1])]
  }

  lemma LoopContributionsSnoc(loops: seq<Loop>, j: nat)
    requires j < |loops|
    ensures LoopContributions(loops[..j + 1]) == LoopContributions(loops[..j]) + [LoopKey(loops[j])]
  {
    assert loops[..j + 1][..j] == loops[..j];
  }

  function LoopKey(l: Loop): (string, int)
  {
    ("[LOOP] " + SimpleName(l), l.end - l.start)
  }

  /** Every amount `_largest_contributors` adds to its tally, in order. */
  function Contributions(es: seq<Event>, id: WorkflowId, loops: seq<Loop>, withLoops: bool): seq<(string, int)>
  {
    EventContributions(es, id, loops, withLoops) + (if withLoops && |loops| > 0 then LoopContributions(loops) else [])
  }

  /** The result of `_largest_contributors`. */
  function Ranking(es: seq<Event>, id: WorkflowId, loops: seq<Loop>, withLoops: bool): seq<(string, int)>
  {
    TallyOfMeaning(Contributions(es, id, loops, withLoops));
    SortByTotal(Items(TallyOf(Contributions(es, id, loops, withLoops))))
  }

  /** Without loop folding, each own-workflow event adds its full duration; events of other workflows add nothing. */
  lemma {:induction false} FlatContributions(es: seq<Event>, id: WorkflowId, loops: seq<Loop>)
    ensures Contributions(es, id, loops, false) == OwnDurations(es, id)
  {
    if |es| > 0 {
      FlatContributions(es[..|es| - 1], id, loops);
    }
  }

  /** (name, duration) of each event whose workflow is `id`, in order. */
  function OwnDurations(es: seq<Event>, id: WorkflowId): seq<(string, int)>
  {
    if |es| == 0 then []
    else
      var last := es[|es| - 1];
      OwnDurations(es[..|es| - 1], id) + (if last.workflow == id then [(last.name, last.Duration())] else [])
  }

  /**
   * With loop folding, the events that count are the own-workflow events that
   * lie in no loop, and then every loop adds its span, not its members' sum.
   */
  lemma {:induction false} FoldedContributions(es: seq<Event>, id: WorkflowId, loops: seq<Loop>)
    requires |loops| > 0
    ensures Contributions(es, id, loops, true) == OwnDurations(Outside(es, loops), id) + LoopContributions(loops)
  {
    OutsideEventContributions(es, id, loops);
  }

  /** The events in no loop, in order. */
  function Outside(es: seq<Event>, loops: seq<Loop>): seq<Event>
  {
    if |es| == 0 then []
    else Outside(es[..|es| - 1], loops) + (if InAnyLoop(es[|es| - 1], loops) then [] else [es[|es| - 1]])
  }

  lemma {:induction false} OutsideEventContributions(es: seq<Event>, id: WorkflowId, loops: seq<Loop>)
    ensures EventContributions(es, id, loops, true) == OwnDurations(Outside(es, loops), id)
  {
    if |es| > 0 {
      var init, last := es[..|es| - 1], es[|es| - 1];
      OutsideEventContributions(init, id, loops);
      var o := Outside(init, loops);
      var mine := if last.workflow == id then [(last.name, last.Duration())] else [];
      assert EventContributions(es, id, loops, true) == OwnDurations(o, id) + EventContribution(last, id, loops, true);
      if InAnyLoop(last, loops) {
        assert EventContribution(last, id, loops, true) == [];
        assert Outside(es, loops) == o + [];
        assert o + [] == o;
      } else {
        assert EventContribution(last, id, loops, true) == mine;
        var o' := o + [last];
        assert Outside(es, loops) == o';
        assert o'[..|o'| - 1] == o && o'[|o'| - 1] == last;
        assert OwnDurations(o', id) == OwnDurations(o, id) + mine;
      }
    }
  }

  /**
   * What ranking a list of contributions gives: each contributed name exactly
   * once, with the sum of its amounts, in non-increasing order of that sum, and
   * names with equal sums in the order they were first contributed.
   */
  lemma RankOfMeaning(cs: seq<(string, int)>)
    ensures var r := SortByTotal(Items(TallyOf(cs)));
      && NonIncreasing(r)
      && (forall k :: 0 <= k < |r| ==> r[k].1 == SumFor(cs, r[k].0))
      && (forall n :: HasName(cs, n) <==> HasName(r, n))
      && DistinctNames(r)
      && (forall v :: WithTotal(r, v) == WithTotal(Items(TallyOf(cs)), v))
  {
    TallyOfMeaning(cs);
    var items := Items(TallyOf(cs));
    SortByTotalFacts(items);
    assert DistinctNames(items);
    RankSums(cs);
    RankNames(cs);
  }

  lemma RankSums(cs: seq<(string, int)>)
    ensures var r := SortByTotal(Items(TallyOf(cs)));
      forall k :: 0 <= k < |r| ==> r[k].1 == SumFor(cs, r[k].0)
  {
    TallyOfTotals(cs);
    var items := Items(TallyOf(cs));
    var r := SortByTotal(items);
    SortByTotalOrdered(items);
    forall k | 0 <= k < |r| ensures r[k].1 == SumFor(cs, r[k].0) {
      assert r[k] in multiset(items);
      var i :| 0 <= i < |items| && items[i] == r[k];
    }
  }

  lemma RankNames(cs: seq<(string, int)>)
    ensures var r := SortByTotal(Items(TallyOf(cs)));
      forall n :: HasName(cs, n) <==> HasName(r, n)
  {
    TallyOfKeys(cs);
    var t := TallyOf(cs);
    var items := Items(t);
    var r := SortByTotal(items);
    SortByTotalOrdered(items);
    forall n | HasName(r, n) ensures HasName(cs, n) {
      var k :| 0 <= k < |r| && r[k].0 == n;
      assert r[k] in multiset(items);
      var i :| 0 <= i < |items| && items[i] == r[k];
      assert t.order[i] in t.totals;
    }
    forall n | HasName(cs, n) ensures HasName(r, n) {
      assert n in t.totals;
      var i :| 0 <= i < |t.order| && t.order[i] == n;
      assert items[i] in multiset(r);
      var k :| 0 <= k < |r| && r[k] == items[i];
    }
  }

  /** The ranking of a workflow's own contributions, as `RankOfMeaning` describes it. */
  lemma RankingMeaning(es: seq<Event>, id: WorkflowId, loops: seq<Loop>, withLoops: bool)
    ensures var cs := Contributions(es, id, loops, withLoops);
      var r := Ranking(es, id, loops, withLoops);
      && NonIncreasing(r)
      && (forall k :: 0 <= k < |r| ==> r[k].1 == SumFor(cs, r[k].0))
      && (forall n :: HasName(cs, n) <==> HasName(r, n))
      && DistinctNames(r)
      && (forall v :: WithTotal(r, v) == WithTotal(Items(TallyOf(cs)), v))
  {
    RankOfMeaning(Contributions(es, id, loops, withLoops));
  }

  // ---------------------------------------------------------------------------
  // Workflows
  // ---------------------------------------------------------------------------

  /** The earliest start of the events, absent when there are none. */
  function EarliestStart(es: seq<Event>): Option<int>
  {
    if |es| == 0 then None else Some(MinStart(es))
  }

  /** The latest end of the events, absent when there are none. */
  function LatestEnd(es: seq<Event>): Option<int>
  {
    if |es| == 0 then None else Some(MaxEnd(es))
  }

  /** One execution's timeline (`models.Workflow`): its id, events, loops and span. */
  class Workflow {
    var id: WorkflowId
    var events: seq<Event>
    var loops: seq<Loop>
    var start: Option<int>
    var end: Option<int>

    /** The span is the one the events give: min start and max end, absent without events. */
    ghost predicate Valid()
      reads this
    {
      start == EarliestStart(events) && end == LatestEnd(events)
    }

    /** The dataclass constructor with `__post_init__`: events, when there are any, decide the span. */
    constructor (id: WorkflowId, events: seq<Event>, loops: seq<Loop>, start0: Option<int>, end0: Option<int>)
      ensures this.id == id && this.events == events && this.loops == loops
      ensures start == (if |events| > 0 then EarliestStart(events) else start0)
      ensures end == (if |events| > 0 then LatestEnd(events) else end0)
      ensures start0 == None && end0 == None ==> Valid()
    {
      this.id, this.events, this.loops := id, events, loops;
      if |events| > 0 {
        start, end := Some(MinStart(events)), Some(MaxEnd(events));
      } else {
        start, end := start0, end0;
      }
    }

    /** `add_events`: extend the timeline and widen the span; an empty list changes nothing. */
    method AddEvents(es: seq<Event>)
      modifies this
      ensures id == old(id) && loops == old(loops)
      ensures events == old(events) + es
      ensures |es| == 0 ==> start == old(start) && end == old(end)
      ensures |es| > 0 ==> start == Some(if old(start).Some? then Min(old(start).value, MinStart(es)) else MinStart(es))
      ensures |es| > 0 ==> end == Some(if old(end).Some? then Max(old(end).value, MaxEnd(es)) else MaxEnd(es))
      ensures old(Valid()) ==> Valid()
    {
      if |es| == 0 {
        return;
      }
      if |events| > 0 {
        MinStartMaxEndAppend(events, es);
      } else {
        assert events + es == es;
      }
      events := events + es;
      var mn, mx := MinStart(es), MaxEnd(es);
      start := if start.Some? then Some(Min(start.value, mn)) else Some(mn);
      end := if end.Some? then Some(Max(end.value, mx)) else Some(mx);
    }

    /** `duration`: zero when either end of the span is absent; otherwise it covers every event. */
    function Duration(): (d: int)
      reads this
      ensures start.None? || end.None? ==> d == 0
      ensures Valid() ==> forall i :: 0 <= i < |events| ==> events[i].Duration() <= d
      ensures Valid() && |events| > 0 ==> d == MaxEnd(events) - MinStart(events)
    {
      if start.None? || end.None? then 0 else end.value - start.value
    }

    /** `id_as_filename`: `str(id)` with every `:` and `/` turned into `-`, everything else kept. */
    function IdAsFilename(): (f: string)
      reads this
      ensures |f| == |IdString(id)|
      ensures ':' !in f && '/' !in f
      ensures forall i :: 0 <= i < |f| ==>
        f[i] == (if IdString(id)[i] == ':' || IdString(id)[i] == '/' then '-' else IdString(id)[i])
    {
      ReplaceChar(ReplaceChar(IdString(id), ':', '-'), '/', '-')
    }

    /** The first loop of `_largest_contributors`: own-workflow events, loop members skipped when folding. */
    method TallyEvents(withLoops: bool) returns (order: seq<string>, totals: map<string, int>)
      ensures Tally(order, totals) == TallyOf(EventContributions(events, id, loops, withLoops))
    {
      order, totals := [], map[];
      var i := 0;
      while i < |events|
        invariant 0 <= i <= |events|
        invariant Tally(order, totals) == TallyOf(EventContributions(events[..i], id, loops, withLoops))
      {
        var e := events[i];
        ghost var cs := EventContributions(events[..i], id, loops, withLoops);
        assert events[..i + 1][..i] == events[..i];
        assert EventContributions(events[..i + 1], id, loops, withLoops) == cs + EventContribution(e, id, loops, withLoops);
        if e.workflow == id {
          var inLoop := AnyLoopContains(loops, e);
          if !withLoops || !inLoop {
            assert EventContribution(e, id, loops, withLoops) == [(e.name, e.Duration())];
            assert (cs + [(e.name, e.Duration())])[..|cs|] == cs;
            order, totals := AddTo(order, totals, e.name, e.Duration());
          } else {
            assert cs + EventContribution(e, id, loops, withLoops) == cs;
          }
        } else {
          assert cs + EventContribution(e, id, loops, withLoops) == cs;
        }
        i := i + 1;
      }
      assert events[..i] == events;
    }

    /** The second loop of `_largest_contributors`: every loop's span under its `[LOOP]` key. */
    method TallyLoops(ghost base: seq<(string, int)>, order0: seq<string>, totals0: map<string, int>)
      returns (order: seq<string>, totals: map<string, int>)
      requires Tally(order0, totals0) == TallyOf(base)
      ensures Tally(order, totals) == TallyOf(base + LoopContributions(loops))
    {
      assert loops[..0] == [] && base + LoopContributions(loops[..0]) == base;
      order, totals := order0, totals0;
      var j := 0;
      while j < |loops|
        invariant 0 <= j <= |loops|
        invariant Tally(order, totals) == TallyOf(base + LoopContributions(loops[..j]))
      {
        var key, span := LoopKey(loops[j]).0, LoopKey(loops[j]).1;
        LoopContributionsSnoc(loops, j);
        TallyOfSnoc(base + LoopContributions(loops[..j]), (key, span));
        assert base + LoopContributions(loops[..j + 1]) == (base + LoopContributions(loops[..j])) + [(key, span)];
        order, totals := AddTo(order, totals, key, span);
        j := j + 1;
      }
      assert loops[..j] == loops;
    }

    /** `_largest_contributors`: tally own-workflow time per name, optionally folding loops, then rank. */
    method RankedContributions(withLoops: bool) returns (ranked: seq<(string, int)>)
      ensures ranked == Ranking(events, id, loops, withLoops)
    {
      var order, totals := TallyEvents(withLoops);
      ghost var base := EventContributions(events, id, loops, withLoops);
      if withLoops && |loops| > 0 {
        order, totals := TallyLoops(base, order, totals);
      } else {
        assert Contributions(events, id, loops, withLoops) == base + [] == base;
      }
      ranked := SortByTotal(Items(Tally(order, totals)));
    }

    /** `largest_contributors(n, with_loops)`: the ranking cut with Python's `[:n]`. */
    method LargestContributors(n: int := 10, withLoops: bool := false) returns (top: seq<(string, int)>)
      ensures top == PrefixSlice(Ranking(events, id, loops, withLoops), n)
    {
      var ranked := RankedContributions(withLoops);
      top := PrefixSlice(ranked, n);
    }
  }
}
