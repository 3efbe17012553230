/**
 * Loop detection over one execution's step timeline (`utils/loops.py`): a
 * single left-to-right pass that keeps a stack of recent steps, notices when a
 * step name comes back, follows the repeating block while its names keep
 * recurring, and emits a `Loop` when a step outside the block arrives; and the
 * coalescing pass that replaces loop members by one event per loop.
 */
module Loops {
  import opened Text
  import opened Models

  // ---------------------------------------------------------------------------
  // find_loops_in_execution
  // ---------------------------------------------------------------------------

  /** The three variables of the scan: emitted loops, the stack, and the names of the loop being followed. */
  datatype ScanState = ScanState(loops: seq<Loop>, stack: seq<Event>, current: set<string>)

  /** `list.index`: the first position holding `n`. */
  function FirstIndex(names: seq<string>, n: string): (k: nat)
    requires n in names
    ensures k < |names| && names[k] == n
    ensures forall j :: 0 <= j < k ==> names[j] != n
  {
    if names[0] == n then 0 else 1 + FirstIndex(names[1..], n)
  }

  /** No two events of `es` share a name. */
  predicate DistinctSteps(es: seq<Event>)
  {
    forall i, j :: 0 <= i < j < |es| ==> es[i].name != es[j].name
  }

  /**
   * What holds between steps: while a loop is followed, its names are exactly
   * the stack's, the stack holds at least two events and its first name occurs
   * at least twice; otherwise the stack repeats no name.
   */
  ghost predicate ScanInv(s: ScanState)
  {
    && (s.current != {} ==>
         s.current == NameSet(s.stack) && |s.stack| >= 2 && CountNamed(s.stack, s.stack[0].name) >= 2)
    && (s.current == {} ==> DistinctSteps(s.stack))
  }

  /** One iteration of the `for event in history` loop. */
  function Step(s: ScanState, e: Event): (s': ScanState)
    requires ScanInv(s)
    ensures ScanInv(s')
  {
    StepKeeps(s, e);
    if s.current == {} then
      var names := Names(s.stack);
      if e.name in names then
        var idx := FirstIndex(names, e.name);
        ScanState(s.loops, s.stack[idx..] + [e], NameSet(s.stack[idx..]))
      else
        ScanState(s.loops, s.stack + [e], {})
    else if e.name !in s.current then
      ScanState(s.loops + [FromStack(s.stack)], [e], {})
    else
      ScanState(s.loops, s.stack + [e], s.current)
  }

  lemma {:induction false} CountNamedAppend(a: seq<Event>, b: seq<Event>, n: string)
    ensures CountNamed(a + b, n) == CountNamed(a, n) + CountNamed(b, n)
  {
    if |a| > 0 {
      assert (a + b)[1..] == a[1..] + b;
      CountNamedAppend(a[1..], b, n);
    } else {
      assert a + b == b;
    }
  }

  /** The proof that `Step` keeps `ScanInv`. */
  lemma StepKeeps(s: ScanState, e: Event)
    requires ScanInv(s)
    ensures s.current == {} && e.name in Names(s.stack) ==>
      var idx := FirstIndex(Names(s.stack), e.name);
      ScanInv(ScanState(s.loops, s.stack[idx..] + [e], NameSet(s.stack[idx..])))
    ensures s.current == {} && e.name !in Names(s.stack) ==> ScanInv(ScanState(s.loops, s.stack + [e], {}))
    ensures s.current != {} && e.name in s.current ==> ScanInv(ScanState(s.loops, s.stack + [e], s.current))
  {
    if s.current == {} && e.name in Names(s.stack) {
      EnterKeeps(s, e);
    } else if s.current == {} {
      var st := s.stack + [e];
      forall i, j | 0 <= i < j < |st| ensures st[i].name != st[j].name {
        if j == |s.stack| { assert st[i].name == Names(s.stack)[i]; }
      }
    } else if e.name in s.current {
      var st := s.stack + [e];
      NameSetAppend(s.stack, e);
      CountNamedAppend(s.stack, [e], s.stack[0].name);
      assert st[0] == s.stack[0];
    }
  }

  /**
   * Finding `e`'s name at `idx` keeps the stack from `idx` on plus `e`: its
   * names are the block's, its first and last step share a name.
   */
  lemma EnterKeeps(s: ScanState, e: Event)
    requires s.current == {} && e.name in Names(s.stack)
    ensures var idx := FirstIndex(Names(s.stack), e.name);
      ScanInv(ScanState(s.loops, s.stack[idx..] + [e], NameSet(s.stack[idx..])))
  {
    var idx := FirstIndex(Names(s.stack), e.name);
    var tail := s.stack[idx..];
    NameSetAppend(tail, e);
    assert e.name == tail[0].name;
    CountFirstLast(tail, e);
  }

  /** A block that starts and ends with the same name counts that name at least twice. */
  lemma CountFirstLast(tail: seq<Event>, e: Event)
    requires |tail| > 0 && tail[0].name == e.name
    ensures CountNamed(tail + [e], (tail + [e])[0].name) >= 2
  {
    CountNamedAppend(tail, [e], e.name);
    CountNamedAt(tail, 0);
    assert CountNamed([e], e.name) == 1;
  }

  function Init(): ScanState
  {
    ScanState([], [], {})
  }

  /** The scan's state after the history's events, in order. */
  function Run(history: seq<Event>): (s: ScanState)
    ensures ScanInv(s)
  {
    if |history| == 0 then Init()
    else Step(Run(history[..|history| - 1]), history[|history| - 1])
  }

  /** `find_loops_in_execution`: the loops the scan emits; a loop still being followed at the end is not emitted. */
  method FindLoops(history: seq<Event>) returns (loops: seq<Loop>)
    ensures loops == Run(history).loops
  {
    loops := [];
    var stack: seq<Event> := [];
    var current: set<string> := {};
    var i := 0;
    while i < |history|
      invariant 0 <= i <= |history|
      invariant ScanState(loops, stack, current) == Run(history[..i])
    {
      var event := history[i];
      ghost var before := ScanState(loops, stack, current);
      StepAt(history, i);
      if current == {} {
        var names := Names(stack);
        if event.name in names {
          var idx := FirstIndex(names, event.name);
          current := NameSet(stack[idx..]);
          stack := stack[idx..] + [event];
        } else {
          stack := stack + [event];
        }
      } else if event.name !in current {
        loops := loops + [FromStack(stack)];
        current := {};
        stack := [event];
      } else {
        stack := stack + [event];
      }
      assert ScanState(loops, stack, current) == Step(before, event);
      i := i + 1;
    }
    assert history[..i] == history;
  }

  // ---------------------------------------------------------------------------
  // What the scan finds
  // ---------------------------------------------------------------------------

  /** A history in which no step name repeats yields no loop: the stack is the whole history. */
  lemma {:induction false} NoRepeatsNoLoops(history: seq<Event>)
    requires DistinctSteps(history)
    ensures Run(history) == ScanState([], history, {})
  {
    if |history| > 0 {
      var init := history[..|history| - 1];
      var e := history[|history| - 1];
      assert DistinctSteps(init);
      NoRepeatsNoLoops(init);
      assert e.name !in Names(init) by {
        forall i | 0 <= i < |init| ensures Names(init)[i] != e.name {
          assert init[i] == history[i];
        }
      }
      assert init + [e] == history;
    }
  }

  /**
   * Where the scan stands in the history: the stack is the suffix that starts at
   * `lo`, and the k-th loop was cut from positions `bounds[k].0` up to, not
   * including, `bounds[k].1`, the position of the step that ended it.
   */
  ghost function Trace(history: seq<Event>): (nat, seq<(nat, nat)>)
  {
    if |history| == 0 then (0, [])
    else
      var init := history[..|history| - 1];
      var t := Trace(init);
      TraceStep(Run(init), history[|history| - 1], |history| - 1, t.0, t.1)
  }

  /** How `Trace` moves on when the scan in state `s` meets `e` at position `here`. */
  ghost function TraceStep(s: ScanState, e: Event, here: nat, lo: nat, bounds: seq<(nat, nat)>): (nat, seq<(nat, nat)>)
  {
    if s.current == {} then
      if e.name in Names(s.stack) then (lo + FirstIndex(Names(s.stack), e.name), bounds) else (lo, bounds)
    else if e.name !in s.current then (here, bounds + [(lo, here)])
    else (lo, bounds)
  }

  /**
   * Loop `l` holds the steps `history[b.0..b.1]`, repeats some step at least
   * twice, and was closed by the step at `b.1`, whose name is not among the
   * loop's.
   */
  ghost predicate LoopCut(history: seq<Event>, l: Loop, b: (nat, nat))
  {
    && b.0 < b.1 < |history|
    && l.events == history[b.0..b.1]
    && history[b.1].name !in l.names
    && 2 <= l.iterations
  }

  /** The facts `Trace` records, as one predicate. */
  ghost predicate Traced(history: seq<Event>, s: ScanState, lo: nat, bounds: seq<(nat, nat)>)
  {
    && lo <= |history| && s.stack == history[lo..]
    && |bounds| == |s.loops|
    && (forall k :: 0 <= k < |bounds| ==> bounds[k].1 <= lo && LoopCut(history, s.loops[k], bounds[k]))
    && (forall k :: 0 <= k < |bounds| - 1 ==> bounds[k].1 <= bounds[k + 1].0)
  }

  lemma LoopCutExtend(init: seq<Event>, history: seq<Event>, l: Loop, b: (nat, nat))
    requires init <= history
    requires LoopCut(init, l, b)
    ensures LoopCut(history, l, b)
  {
    assert init[b.0..b.1] == history[b.0..b.1];
    assert init[b.1] == history[b.1];
  }

  /**
   * Every loop the scan emits is a run of consecutive history steps that
   * repeats some step at least twice and that was closed by the next history
   * step, whose name is not among the loop's; the loops follow one another in
   * history order without overlapping, and the stack is a suffix of the
   * history that starts after the last of them.
   */
  lemma {:induction false} RunTraced(history: seq<Event>)
    ensures Traced(history, Run(history), Trace(history).0, Trace(history).1)
  {
    if |history| > 0 {
      RunTraced(history[..|history| - 1]);
      TracedStep(history);
    }
  }

  /** One step of `RunTraced`: what `Trace` records for a prefix carries over to the next event. */
  lemma TracedStep(history: seq<Event>)
    requires |history| > 0
    requires var init := history[..|history| - 1]; Traced(init, Run(init), Trace(init).0, Trace(init).1)
    ensures Traced(history, Run(history), Trace(history).0, Trace(history).1)
  {
    var init := history[..|history| - 1];
    var t := Trace(init);
    TracedStepOf(history, Run(init), t.0, t.1);
  }

  /** `TracedStep` for any scan state that satisfies the invariant. */
  lemma TracedStepOf(history: seq<Event>, s: ScanState, lo: nat, bounds: seq<(nat, nat)>)
    requires |history| > 0 && ScanInv(s) && Traced(history[..|history| - 1], s, lo, bounds)
    ensures var e := history[|history| - 1];
      var t := TraceStep(s, e, |history| - 1, lo, bounds);
      Traced(history, Step(s, e), t.0, t.1)
  {
    var e := history[|history| - 1];
    if s.current == {} && e.name in Names(s.stack) {
      TracedEnterStep(history, s, lo, bounds);
    } else if s.current != {} && e.name !in s.current {
      TracedEmitStep(history, s, lo, bounds);
    } else {
      TracedPushStep(history, s, lo, bounds);
    }
  }

  /** `TracedStepOf` when the step starts following a loop. */
  lemma TracedEnterStep(history: seq<Event>, s: ScanState, lo: nat, bounds: seq<(nat, nat)>)
    requires |history| > 0 && ScanInv(s) && Traced(history[..|history| - 1], s, lo, bounds)
    requires s.current == {} && history[|history| - 1].name in Names(s.stack)
    ensures var e := history[|history| - 1];
      var t := TraceStep(s, e, |history| - 1, lo, bounds);
      Traced(history, Step(s, e), t.0, t.1)
  {
    var e := history[|history| - 1];
    var idx := FirstIndex(Names(s.stack), e.name);
    var c := NameSet(s.stack[idx..]);
    assert Step(s, e) == ScanState(s.loops, s.stack[idx..] + [e], c);
    TracedEnter(history, s, lo, bounds, idx, c);
  }

  /** `TracedStepOf` when the step closes the loop being followed. */
  lemma TracedEmitStep(history: seq<Event>, s: ScanState, lo: nat, bounds: seq<(nat, nat)>)
    requires |history| > 0 && ScanInv(s) && Traced(history[..|history| - 1], s, lo, bounds)
    requires s.current != {} && history[|history| - 1].name !in s.current
    ensures var e := history[|history| - 1];
      var t := TraceStep(s, e, |history| - 1, lo, bounds);
      Traced(history, Step(s, e), t.0, t.1)
  {
    var e := history[|history| - 1];
    var l := FromStack(s.stack);
    assert CountNamed(s.stack, s.stack[0].name) <= l.iterations;
    assert Step(s, e) == ScanState(s.loops + [l], [e], {});
    TracedEmit(history, s, lo, bounds, l);
  }

  /** `TracedStepOf` when the step is only pushed. */
  lemma TracedPushStep(history: seq<Event>, s: ScanState, lo: nat, bounds: seq<(nat, nat)>)
    requires |history| > 0 && ScanInv(s) && Traced(history[..|history| - 1], s, lo, bounds)
    requires !(s.current == {} && history[|history| - 1].name in Names(s.stack))
    requires !(s.current != {} && history[|history| - 1].name !in s.current)
    ensures var e := history[|history| - 1];
      var t := TraceStep(s, e, |history| - 1, lo, bounds);
      Traced(history, Step(s, e), t.0, t.1)
  {
    var e := history[|history| - 1];
    assert Step(s, e) == ScanState(s.loops, s.stack + [e], s.current);
    TracedPush(history, s, lo, bounds);
  }

  /** `l` is what `from_stack` builds from the loop's own members. */
  ghost predicate Built(l: Loop)
  {
    |l.events| > 0 && l == FromStack(l.events)
  }

  /**
   * Every loop the scan emits is `from_stack` of its members, so each has a
   * member and `coalesce_loop_events` can turn each into an event.
   */
  lemma {:induction false} RunBuilt(history: seq<Event>)
    ensures forall k :: 0 <= k < |Run(history).loops| ==> Built(Run(history).loops[k])
  {
    if |history| > 0 {
      var init := history[..|history| - 1];
      RunBuilt(init);
      var s := Run(init);
      var e := history[|history| - 1];
      StepLoops(s, e);
      if s.current != {} && e.name !in s.current {
        var l := FromStack(s.stack);
        assert Built(l);
        var loops := s.loops + [l];
        forall k | 0 <= k < |loops| ensures Built(loops[k]) {
          if k < |s.loops| { assert loops[k] == s.loops[k]; }
        }
      }
    }
  }

  /** A step emits the stack as a loop exactly when a loop is followed and the name is not among its names. */
  lemma StepLoops(s: ScanState, e: Event)
    requires ScanInv(s)
    ensures Step(s, e).loops == if s.current != {} && e.name !in s.current then s.loops + [FromStack(s.stack)] else s.loops
  {
  }

  /** The history's last element extends a suffix of the rest by one. */
  lemma SuffixSnoc<T>(h: seq<T>, lo: nat, stack: seq<T>, idx: nat)
    requires 0 < |h| && lo < |h| && stack == h[..|h| - 1][lo..] && idx <= |stack|
    ensures stack == h[lo..|h| - 1]
    ensures stack[idx..] + [h[|h| - 1]] == h[lo + idx..]
  {
  }

  /** The cuts found in a prefix of the history are cuts of the history. */
  lemma CutsExtend(history: seq<Event>, loops: seq<Loop>, bounds: seq<(nat, nat)>)
    requires |history| > 0 && |bounds| == |loops|
    requires forall k :: 0 <= k < |bounds| ==> LoopCut(history[..|history| - 1], loops[k], bounds[k])
    ensures forall k :: 0 <= k < |bounds| ==> LoopCut(history, loops[k], bounds[k])
  {
    forall k | 0 <= k < |bounds| ensures LoopCut(history, loops[k], bounds[k]) {
      LoopCutExtend(history[..|history| - 1], history, loops[k], bounds[k]);
    }
  }

  /** The step that finds a repeated name drops the stack below `idx`. */
  lemma TracedEnter(history: seq<Event>, s: ScanState, lo: nat, bounds: seq<(nat, nat)>, idx: nat, c: set<string>)
    requires |history| > 0 && Traced(history[..|history| - 1], s, lo, bounds)
    requires idx <= |s.stack|
    ensures Traced(history, ScanState(s.loops, s.stack[idx..] + [history[|history| - 1]], c), lo + idx, bounds)
  {
    SuffixSnoc(history, lo, s.stack, idx);
    CutsExtend(history, s.loops, bounds);
  }

  /** The steps that only push onto the stack. */
  lemma TracedPush(history: seq<Event>, s: ScanState, lo: nat, bounds: seq<(nat, nat)>)
    requires |history| > 0 && Traced(history[..|history| - 1], s, lo, bounds)
    ensures Traced(history, ScanState(s.loops, s.stack + [history[|history| - 1]], s.current), lo, bounds)
  {
    SuffixSnoc(history, lo, s.stack, 0);
    CutsExtend(history, s.loops, bounds);
  }

  /** The step whose name is outside the loop being followed: the loop `l` is emitted. */
  lemma TracedEmit(history: seq<Event>, s: ScanState, lo: nat, bounds: seq<(nat, nat)>, l: Loop)
    requires |history| > 0 && Traced(history[..|history| - 1], s, lo, bounds)
    requires l.events == s.stack && |s.stack| > 0
    requires history[|history| - 1].name !in l.names && 2 <= l.iterations
    ensures Traced(history, ScanState(s.loops + [l], [history[|history| - 1]], {}),
                   |history| - 1, bounds + [(lo, |history| - 1)])
  {
    var i := |history| - 1;
    SuffixSnoc(history, lo, s.stack, 0);
    assert LoopCut(history, l, (lo, i));
    assert [history[i]] == history[i..];
    CutsExtend(history, s.loops, bounds);
    CutsAppend(history, s.loops, bounds, l, (lo, i));
  }

  /** A new cut after all the others keeps the cuts ordered. */
  lemma CutsAppend(history: seq<Event>, loops: seq<Loop>, bounds: seq<(nat, nat)>, l: Loop, b: (nat, nat))
    requires |bounds| == |loops|
    requires forall k :: 0 <= k < |bounds| ==> bounds[k].1 <= b.0 && LoopCut(history, loops[k], bounds[k])
    requires forall k :: 0 <= k < |bounds| - 1 ==> bounds[k].1 <= bounds[k + 1].0
    requires LoopCut(history, l, b)
    ensures forall k :: 0 <= k < |bounds| + 1 ==> (bounds + [b])[k].1 <= b.1 && LoopCut(history, (loops + [l])[k], (bounds + [b])[k])
    ensures forall k :: 0 <= k < |bounds| ==> (bounds + [b])[k].1 <= (bounds + [b])[k + 1].0
  {
    var loops', bounds' := loops + [l], bounds + [b];
    forall k | 0 <= k < |bounds'| ensures bounds'[k].1 <= b.1 && LoopCut(history, loops'[k], bounds'[k]) {
      if k < |bounds| {
        assert loops'[k] == loops[k] && bounds'[k] == bounds[k];
      }
    }
    forall k | 0 <= k < |bounds| ensures bounds'[k].1 <= bounds'[k + 1].0 {
      assert bounds'[k] == bounds[k];
    }
  }

  // ---------------------------------------------------------------------------
  // coalesce_loop_events
  // ---------------------------------------------------------------------------

  /** `to_event()` of each loop, in order. */
  function ToEvents(loops: seq<Loop>): (r: seq<Event>)
    requires forall k :: 0 <= k < |loops| ==> |loops[k].events| > 0
    ensures |r| == |loops|
    ensures forall k :: 0 <= k < |loops| ==> r[k] == ToEvent(loops[k])
  {
    if |loops| == 0 then []
    else
      var init := loops[..|loops| - 1];
      assert forall k :: 0 <= k < |init| ==> init[k] == loops[k];
      ToEvents(init) + [ToEvent(loops[|loops| - 1])]
  }

  /**
   * `coalesce_loop_events`: the history with every event that lies in some loop
   * dropped, followed by one event per loop. `to_event` needs each loop to have
   * a member.
   */
  method Coalesce(history: seq<Event>, loops: seq<Loop>) returns (r: seq<Event>)
    requires forall k :: 0 <= k < |loops| ==> |loops[k].events| > 0
    ensures r == Outside(history, loops) + ToEvents(loops)
  {
    r := [];
    var i := 0;
    while i < |history|
      invariant 0 <= i <= |history|
      invariant r == Outside(history[..i], loops)
    {
      var e := history[i];
      OutsideSnoc(history, loops, i);
      var inLoop := AnyLoopContains(loops, e);
      if !inLoop {
        r := r + [e];
      }
      i := i + 1;
    }
    assert history[..i] == history;
    var j := 0;
    while j < |loops|
      invariant 0 <= j <= |loops|
      invariant r == Outside(history, loops) + ToEvents(loops[..j])
    {
      ToEventsSnoc(loops, j);
      r := r + [ToEvent(loops[j])];
      j := j + 1;
    }
    assert loops[..j] == loops;
  }

  /** One history event more: kept at the end when it lies in no loop. */
  lemma OutsideSnoc(history: seq<Event>, loops: seq<Loop>, i: nat)
    requires i < |history|
    ensures Outside(history[..i + 1], loops)
      == Outside(history[..i], loops) + (if InAnyLoop(history[i], loops) then [] else [history[i]])
  {
    assert history[..i + 1][..i] == history[..i];
  }

  /** One loop more, one event more at the end. */
  lemma ToEventsSnoc(loops: seq<Loop>, j: nat)
    requires j < |loops| && forall k :: 0 <= k < |loops| ==> |loops[k].events| > 0
    ensures ToEvents(loops[..j + 1]) == ToEvents(loops[..j]) + [ToEvent(loops[j])]
  {
    assert loops[..j + 1][..j] == loops[..j];
  }

  /** The events outside the loops are exactly the history's events that lie in no loop, in history order. */
  lemma {:induction false} OutsideMembers(history: seq<Event>, loops: seq<Loop>)
    ensures |Outside(history, loops)| <= |history|
    ensures forall e :: e in Outside(history, loops) <==> e in history && !InAnyLoop(e, loops)
  {
    if |history| > 0 {
      var init := history[..|history| - 1];
      OutsideMembers(init, loops);
      assert history == init + [history[|history| - 1]];
    }
  }

  /** Without loops, coalescing gives back the history unchanged. */
  lemma {:induction false} OutsideNoLoops(history: seq<Event>)
    ensures Outside(history, []) == history
    ensures Outside(history, []) + ToEvents([]) == history
  {
    if |history| > 0 {
      OutsideNoLoops(history[..|history| - 1]);
      assert history[..|history| - 1] + [history[|history| - 1]] == history;
    }
  }

  /** Starts never decrease and no step ends before it starts. */
  predicate Chronological(es: seq<Event>)
  {
    && (forall i, j :: 0 <= i < j < |es| ==> es[i].start <= es[j].start)
    && (forall i :: 0 <= i < |es| ==> es[i].start <= es[i].end)
  }

  /**
   * On a chronological stack every member lies in the loop `from_stack` builds
   * from it, so coalescing removes every member of every such loop.
   */
  lemma MembersInLoop(stack: seq<Event>)
    requires |stack| > 0
    requires Chronological(stack)
    ensures forall i :: 0 <= i < |stack| ==> InLoop(FromStack(stack), stack[i])
  {
    var l := FromStack(stack);
    forall i | 0 <= i < |stack| ensures InLoop(l, stack[i]) {
      assert stack[i].name in NameSet(stack);
    }
  }

  lemma MembersRemoved(history: seq<Event>, loops: seq<Loop>, k: nat)
    requires k < |loops| && |loops[k].events| > 0
    requires loops[k] == FromStack(loops[k].events)
    requires Chronological(loops[k].events)
    ensures forall e :: e in loops[k].events ==> e !in Outside(history, loops)
  {
    MembersInLoop(loops[k].events);
    OutsideMembers(history, loops);
  }

  // ---------------------------------------------------------------------------
  // The scenarios of the loop tests
  // ---------------------------------------------------------------------------

  /** Extending a slice by the next element. */
  lemma Snoc<T>(h: seq<T>, i: nat, j: nat)
    requires i <= j < |h|
    ensures h[i..j] + [h[j]] == h[i..j + 1]
    ensures j + 1 == |h| ==> h[i..j + 1] == h[i..]
  {
  }

  /** Dropping from a slice. */
  lemma Drop<T>(h: seq<T>, i: nat, j: nat, k: nat)
    requires i + k <= j <= |h|
    ensures h[i..j][k..] == h[i + k..j]
  {
  }

  /** The names of a slice, one element at a time. */
  lemma NameSetSlice(h: seq<Event>, i: nat, j: nat)
    requires i < j <= |h|
    ensures NameSet(h[i..j]) == NameSet(h[i..j - 1]) + {h[j - 1].name}
  {
    Snoc(h, i, j - 1);
    NameSetAppend(h[i..j - 1], h[j - 1]);
  }

  /** The names of two consecutive events. */
  lemma NameSetTwo(h: seq<Event>, i: nat)
    requires i + 2 <= |h|
    ensures NameSet(h[i..i + 2]) == {h[i].name, h[i + 1].name}
  {
    NameSetSlice(h, i, i + 1);
    NameSetSlice(h, i, i + 2);
    assert h[i..i] == [];
  }

  /** An event whose name already occurs in the slice adds no name. */
  lemma NameSetRepeat(h: seq<Event>, i: nat, j: nat, k: nat)
    requires i <= k < j < |h| && h[k].name == h[j].name
    ensures NameSet(h[i..j + 1]) == NameSet(h[i..j])
  {
    NameSetSlice(h, i, j + 1);
    assert h[i..j][k - i] == h[k];
  }

  /** The scan over the first `n + 1` events is one step on from the scan over the first `n`. */
  lemma StepAt(h: seq<Event>, n: nat)
    requires n < |h|
    ensures Run(h[..n + 1]) == Step(Run(h[..n]), h[n])
  {
    assert h[..n + 1][..n] == h[..n];
  }

  /** A step with a new name while no loop is followed is pushed. */
  lemma PushAt(h: seq<Event>, n: nat, s: ScanState)
    requires n < |h| && Run(h[..n]) == s
    requires s.current == {} && h[n].name !in Names(s.stack)
    ensures Run(h[..n + 1]) == ScanState(s.loops, s.stack + [h[n]], {})
  {
    StepAt(h, n);
  }

  /**
   * A step whose name first occurs on the stack at `idx`, while no loop is
   * followed, starts following the block from `idx` on.
   */
  lemma EnterAt(h: seq<Event>, n: nat, s: ScanState, idx: nat)
    requires n < |h| && Run(h[..n]) == s && s.current == {}
    requires idx < |s.stack| && s.stack[idx].name == h[n].name
    requires forall j :: 0 <= j < idx ==> s.stack[j].name != h[n].name
    ensures Run(h[..n + 1]) == ScanState(s.loops, s.stack[idx..] + [h[n]], NameSet(s.stack[idx..]))
  {
    StepAt(h, n);
    var names := Names(s.stack);
    FirstIndexAt(names, h[n].name, idx);
  }

  /** The first position holding `n` is the one before which `n` does not occur. */
  lemma {:induction false} FirstIndexAt(names: seq<string>, n: string, idx: nat)
    requires idx < |names| && names[idx] == n
    requires forall j :: 0 <= j < idx ==> names[j] != n
    ensures FirstIndex(names, n) == idx
  {
    if idx > 0 {
      assert names[0] != n;
      FirstIndexAt(names[1..], n, idx - 1);
    }
  }

  /** A step whose name is in the loop being followed is pushed. */
  lemma FollowAt(h: seq<Event>, n: nat, s: ScanState)
    requires n < |h| && Run(h[..n]) == s
    requires s.current != {} && h[n].name in s.current
    ensures Run(h[..n + 1]) == ScanState(s.loops, s.stack + [h[n]], s.current)
  {
    StepAt(h, n);
  }

  /** A step whose name is outside the loop being followed emits the stack as a loop and starts a new stack. */
  lemma EmitAt(h: seq<Event>, n: nat, s: ScanState)
    requires n < |h| && Run(h[..n]) == s
    requires s.current != {} && h[n].name !in s.current
    ensures Run(h[..n + 1]) == ScanState(s.loops + [FromStack(s.stack)], h[n..n + 1], {})
  {
    StepAt(h, n);
    assert [h[n]] == h[n..n + 1];
  }

  /** The first loop emitted. */
  lemma EmitFirstAt(h: seq<Event>, n: nat, s: ScanState)
    requires n < |h| && Run(h[..n]) == s && s.loops == []
    requires s.current != {} && h[n].name !in s.current
    ensures Run(h[..n + 1]) == ScanState([FromStack(s.stack)], h[n..n + 1], {})
  {
    EmitAt(h, n, s);
    assert s.loops + [FromStack(s.stack)] == [FromStack(s.stack)];
  }

  /** The second loop emitted, by the last event of the history. */
  lemma EmitSecondAt(h: seq<Event>, n: nat, s: ScanState, first: Loop)
    requires n + 1 == |h| && Run(h[..n]) == s && s.loops == [first]
    requires s.current != {} && h[n].name !in s.current
    ensures Run(h).loops == [first, FromStack(s.stack)]
  {
    EmitAt(h, n, s);
    assert h[..n + 1] == h;
    assert s.loops + [FromStack(s.stack)] == [first, FromStack(s.stack)];
  }

  /** The name sets the scenarios that start `State1,State2,State1` meet. */
  lemma OneLoopNames(h: seq<Event>)
    requires |h| >= 3 && h[0].name == "State1" && h[1].name == "State2" && h[2].name == "State1"
    ensures NameSet(h[..2]) == {"State1", "State2"} && NameSet(h[..3]) == {"State1", "State2"}
  {
    NameSetTwo(h, 0);
    NameSetRepeat(h, 0, 2, 0);
  }

  /** The first three steps of `State1,State2,State1,...`: the scan starts following `{State1, State2}`. */
  lemma OneLoopEnter(h: seq<Event>)
    requires |h| >= 3 && h[0].name == "State1" && h[1].name == "State2" && h[2].name == "State1"
    ensures Run(h[..3]) == ScanState([], h[..3], {"State1", "State2"})
  {
    assert "State1"[5] == '1' && "State2"[5] == '2';
    assert DistinctSteps(h[..2]);
    NoRepeatsNoLoops(h[..2]);
    EnterAt(h, 2, ScanState([], h[..2], {}), 0);
    Drop(h, 0, 2, 0);
    Snoc(h, 0, 2);
    OneLoopNames(h);
  }

  /** `State1,State2,State1,State2,...`: the fourth step stays in the loop. */
  lemma OneLoopFollow(h: seq<Event>)
    requires |h| >= 4
    requires h[0].name == "State1" && h[1].name == "State2" && h[2].name == "State1" && h[3].name == "State2"
    ensures Run(h[..4]) == ScanState([], h[..4], {"State1", "State2"})
  {
    OneLoopEnter(h);
    FollowAt(h, 3, ScanState([], h[..3], {"State1", "State2"}));
    Snoc(h, 0, 3);
  }

  /** `State1,State2,State1,State2` alone: the loop is still being followed at the end, so nothing is emitted. */
  lemma NoFinalFlushScenario(h: seq<Event>)
    requires |h| == 4
    requires h[0].name == "State1" && h[1].name == "State2" && h[2].name == "State1" && h[3].name == "State2"
    ensures Run(h) == ScanState([], h, {"State1", "State2"})
  {
    OneLoopFollow(h);
    assert h[..4] == h;
  }

  /**
   * `State1,State2,State1,State2,State3`, at any times: one loop of the first
   * four events over both names, two iterations, from the first start to the
   * fourth end.
   */
  lemma OneLoopScenario(h: seq<Event>)
    requires |h| == 5
    requires h[0].name == "State1" && h[1].name == "State2" && h[2].name == "State1"
    requires h[3].name == "State2" && h[4].name == "State3"
    ensures var loops := Run(h).loops;
      && |loops| == 1
      && loops[0].events == h[..4]
      && loops[0].names == {"State1", "State2"}
      && loops[0].iterations == 2
      && loops[0].start == h[0].start && loops[0].end == h[3].end
  {
    OneLoopFollow(h);
    assert h[4].name !in {"State1", "State2"} by {
      assert "State1"[5] == '1' && "State2"[5] == '2' && "State3"[5] == '3';
    }
    EmitFirstAt(h, 4, ScanState([], h[..4], {"State1", "State2"}));
    assert h[..5] == h;
    assert Run(h).loops == [FromStack(h[..4])];
    OneLoopNames(h);
    NameSetRepeat(h, 0, 3, 1);
    Count2(h[..4], "State1", "State2");
  }

  /** `State1,State2,State1,State3,...`: `State3` closes the loop over the first three events. */
  lemma TwoLoopsFirstEmit(h: seq<Event>)
    requires |h| >= 4
    requires h[0].name == "State1" && h[1].name == "State2" && h[2].name == "State1" && h[3].name == "State3"
    ensures Run(h[..4]) == ScanState([FromStack(h[..3])], h[3..4], {})
  {
    OneLoopEnter(h);
    assert h[3].name !in {"State1", "State2"} by {
      assert "State1"[5] == '1' && "State2"[5] == '2' && "State3"[5] == '3';
    }
    EmitFirstAt(h, 3, ScanState([], h[..3], {"State1", "State2"}));
  }

  /** `State1,State2,State1,State3,State4,...`: `State4` is pushed after `State3`. */
  lemma TwoLoopsPush(h: seq<Event>)
    requires |h| >= 5
    requires h[0].name == "State1" && h[1].name == "State2" && h[2].name == "State1" && h[3].name == "State3"
    requires h[4].name == "State4"
    ensures Run(h[..5]) == ScanState([FromStack(h[..3])], h[3..5], {})
  {
    TwoLoopsFirstEmit(h);
    assert h[4].name !in Names(h[3..4]) by {
      assert "State3"[5] == '3' && "State4"[5] == '4';
      assert Names(h[3..4])[0] == "State3";
    }
    PushAt(h, 4, ScanState([FromStack(h[..3])], h[3..4], {}));
    Snoc(h, 3, 4);
  }

  /** `State1,State2,State1,State3,State4,State4,...`: the scan follows `{State4}` from the fifth event. */
  lemma TwoLoopsSecondEnter(h: seq<Event>)
    requires |h| >= 6
    requires h[0].name == "State1" && h[1].name == "State2" && h[2].name == "State1" && h[3].name == "State3"
    requires h[4].name == "State4" && h[5].name == "State4"
    ensures Run(h[..6]) == ScanState([FromStack(h[..3])], h[4..6], {"State4"})
  {
    TwoLoopsPush(h);
    assert h[3..5][0].name != h[5].name by {
      assert "State3"[5] == '3' && "State4"[5] == '4';
    }
    EnterAt(h, 5, ScanState([FromStack(h[..3])], h[3..5], {}), 1);
    Drop(h, 3, 5, 1);
    Snoc(h, 4, 5);
    TwoLoopsNames(h);
  }

  /** The name sets the two-loop scenario meets. */
  lemma TwoLoopsNames(h: seq<Event>)
    requires |h| >= 6
    requires h[0].name == "State1" && h[1].name == "State2" && h[2].name == "State1"
    requires h[4].name == "State4" && h[5].name == "State4"
    ensures NameSet(h[4..5]) == {"State4"} && NameSet(h[4..6]) == {"State4"}
    ensures NameSet(h[..3]) == {"State1", "State2"}
  {
    NameSetTwo(h, 4);
    NameSetRepeat(h, 4, 5, 4);
    OneLoopNames(h);
  }

  /** `State1,State2,State1,State3,State4,State4,State5`: `State5` closes the second loop. */
  lemma TwoLoopsSecondEmit(h: seq<Event>)
    requires |h| == 7
    requires h[0].name == "State1" && h[1].name == "State2" && h[2].name == "State1" && h[3].name == "State3"
    requires h[4].name == "State4" && h[5].name == "State4" && h[6].name == "State5"
    ensures Run(h).loops == [FromStack(h[..3]), FromStack(h[4..6])]
  {
    TwoLoopsSecondEnter(h);
    assert h[6].name !in {"State4"} by {
      assert "State4"[5] == '4' && "State5"[5] == '5';
    }
    EmitSecondAt(h, 6, ScanState([FromStack(h[..3])], h[4..6], {"State4"}), FromStack(h[..3]));
  }

  /**
   * `State1,State2,State1,State3,State4,State4,State5`, at any times: two loops,
   * `{State1, State2}` over the first three events and `{State4}` over the fifth
   * and sixth.
   */
  lemma TwoLoopsScenario(h: seq<Event>)
    requires |h| == 7
    requires h[0].name == "State1" && h[1].name == "State2" && h[2].name == "State1" && h[3].name == "State3"
    requires h[4].name == "State4" && h[5].name == "State4" && h[6].name == "State5"
    ensures var loops := Run(h).loops;
      && |loops| == 2
      && loops[0].events == h[..3] && loops[0].names == {"State1", "State2"}
      && loops[0].start == h[0].start && loops[0].end == h[2].end
      && loops[1].events == h[4..6] && loops[1].names == {"State4"}
      && loops[1].start == h[4].start && loops[1].end == h[5].end
  {
    TwoLoopsSecondEmit(h);
    TwoLoopsNames(h);
  }

  /** The name sets the nested scenario meets. */
  lemma NestedNames(h: seq<Event>)
    requires |h| >= 5
    requires h[1].name == "B" && h[2].name == "C" && h[3].name == "B" && h[4].name == "C"
    ensures NameSet(h[1..3]) == {"B", "C"} && NameSet(h[1..5]) == {"B", "C"}
  {
    NameSetTwo(h, 1);
    NameSetRepeat(h, 1, 3, 1);
    NameSetRepeat(h, 1, 4, 2);
  }

  /** `A,B,C,B,C,...`: the fourth event repeats `B`, and the scan follows `{B, C}` from the first `B`. */
  lemma NestedEnter(h: seq<Event>)
    requires |h| >= 5
    requires h[0].name == "A" && h[1].name == "B" && h[2].name == "C" && h[3].name == "B" && h[4].name == "C"
    ensures Run(h[..4]) == ScanState([], h[1..4], {"B", "C"})
  {
    assert "A"[0] == 'A' && "B"[0] == 'B' && "C"[0] == 'C';
    assert DistinctSteps(h[..3]);
    NoRepeatsNoLoops(h[..3]);
    EnterAt(h, 3, ScanState([], h[..3], {}), 1);
    Drop(h, 0, 3, 1);
    Snoc(h, 1, 3);
    NestedNames(h);
  }

  /** `A,B,C,B,C,...`: the fifth event stays in the loop. */
  lemma NestedFollow(h: seq<Event>)
    requires |h| >= 5
    requires h[0].name == "A" && h[1].name == "B" && h[2].name == "C" && h[3].name == "B" && h[4].name == "C"
    ensures Run(h[..5]) == ScanState([], h[1..5], {"B", "C"})
  {
    NestedEnter(h);
    FollowAt(h, 4, ScanState([], h[1..4], {"B", "C"}));
    Snoc(h, 1, 4);
  }

  /** `A,B,C,B,C,A,...`: the second `A` closes the inner loop over the second to fifth events. */
  lemma NestedEmit(h: seq<Event>)
    requires |h| >= 6
    requires h[0].name == "A" && h[1].name == "B" && h[2].name == "C" && h[3].name == "B" && h[4].name == "C"
    requires h[5].name == "A"
    ensures Run(h[..6]) == ScanState([FromStack(h[1..5])], h[5..6], {})
  {
    NestedFollow(h);
    assert h[5].name !in {"B", "C"} by {
      assert "A"[0] == 'A' && "B"[0] == 'B' && "C"[0] == 'C';
    }
    EmitFirstAt(h, 5, ScanState([], h[1..5], {"B", "C"}));
  }

  /**
   * `A,B,C,B,C,A,D`, at any times: only the inner loop `{B, C}` is found, from
   * the first `B` to the second `C`; the outer `A` loop is missed.
   */
  lemma NestedScenario(h: seq<Event>)
    requires |h| == 7
    requires h[0].name == "A" && h[1].name == "B" && h[2].name == "C" && h[3].name == "B" && h[4].name == "C"
    requires h[5].name == "A" && h[6].name == "D"
    ensures var loops := Run(h).loops;
      && |loops| == 1
      && loops[0].events == h[1..5] && loops[0].names == {"B", "C"}
      && loops[0].start == h[1].start && loops[0].end == h[4].end
  {
    NestedEmit(h);
    assert h[6].name !in Names(h[5..6]) by {
      assert "A"[0] == 'A' && "D"[0] == 'D';
      assert Names(h[5..6])[0] == "A";
    }
    PushAt(h, 6, ScanState([FromStack(h[1..5])], h[5..6], {}));
    assert h[..7] == h;
    NestedNames(h);
  }

  /** In `[x, y, x', y']` with names `m, n, m, n`, both names occur twice and `from_stack` counts two iterations. */
  lemma Count2(st: seq<Event>, m: string, n: string)
    requires |st| == 4 && m != n
    requires st[0].name == m && st[1].name == n && st[2].name == m && st[3].name == n
    ensures FromStack(st).iterations == 2
  {
    CountNamedAppend(st[..2], st[2..], m);
    CountNamedAppend(st[..2], st[2..], n);
    assert st[..2][1..] == [st[1]] && st[2..][1..] == [st[3]];
    assert CountNamed([st[1]], n) == 1 && CountNamed([st[3]], n) == 1;
    assert CountNamed(st[..2], n) == 1 && CountNamed(st[2..], n) == 1;
    assert CountNamed(st, m) == 2 && CountNamed(st, n) == 2;
    assert forall i :: 0 <= i < 4 ==> st[i].name == m || st[i].name == n;
  }
}
