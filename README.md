# sfn-profiler, modelled in Dafny

sfn-profiler profiles AWS Step Functions executions. It reads an execution's
event history and turns it into one timing event per step, pairing each
`...StateEntered` record with the first later `...StateExited` record of the
same step. It can merge consecutive runs of one step. It then finds repeating
runs of steps ("loops") and can replace each loop by one event. It ranks the
steps of a workflow by the time they take, optionally folding loops. Across
several executions, it aggregates the durations of each step name into a
name-to-aggregate table, and it records which workflows contributed to each entry.

The model has six modules:

- `Wrappers` (`wrappers.dfy`): `Option` and `Result`.
- `Text` (`text.dfy`): the Python string operations the code relies on.
  These are `split` and `join` on one character, `in`, `replace` of one
  character, and `sorted` over code points.
- `Models` (`models.dfy`): the data model.
  - `ExecutionArn`, `Event` and a `WorkflowId` sum type (`Arn(ExecutionArn) | Label(string)`).
  - The `AggregateEvent` accumulator, a class updated in place.
  - `Loop`.
  - The `Workflow` class with its span bookkeeping and its contribution ranking.
- `Loops` (`loops.dfy`): loop detection and coalescing.
- `Sfn` (`sfn.dfy`): resolving an execution id, and rebuilding the step timeline from a history.
- `Cli` (`cli.dfy`): the three aggregation helpers of the command line.

Timestamps are integers, in microseconds. A duration is the integer difference
`end - start` and may be negative. `min_duration_sec` is a whole number of
seconds, compared as `MicrosPerSecond * min_duration_sec`.

Every `for` statement of the source is a `method` with loop invariants. Each
method is proved equal to a pure specification function, and the source's
promises are proved about that function as lemmas. Comprehensions and generator
expressions (cli/main.py:29, models/__init__.py:97-99 and 143-144) are
recursive functions instead:

| method | specification function |
|---|---|
| `Loops.FindLoops` | `Loops.Run` |
| `Loops.Coalesce` | `Models.Outside` and `Loops.ToEvents` |
| `Sfn.ProcessExecutionHistory` | `Sfn.Process` |
| `Cli.Aggregate` | `Cli.AggregateAll` |
| `Cli.FillMissingSteps` | `Cli.FillAll` |
| `Models.Workflow.TallyEvents`, `Models.Workflow.TallyLoops` | `Models.TallyOf` |
| `Models.Workflow.RankedContributions` | `Models.Ranking` |
| `Models.AnyLoopContains` | `Models.InAnyLoop` |

A dictionary of `AggregateEvent` objects is a `map<string, AggregateEvent>`.
The spec functions work on its value view, `Cli.StatesOf`.

## Model

| member | source | states |
|---|---|---|
| Models.ParseArn | src/sfn_profiler/models/__init__.py:15-20 | Parsing succeeds exactly when the string has seven colons, which gives eight parts. On success, account, region, state machine and execution are parts 4, 3, 6 and 7. Otherwise the error is `"Invalid ARN: "` followed by the input. |
| Models.ParseArnToString | src/sfn_profiler/models/__init__.py:15-23 | Printing an ARN and parsing it back gives the same ARN, when no field contains `:`. |
| Models.ArnToStringParse | src/sfn_profiler/models/__init__.py:15-23 | Parsing an ARN and printing it back gives the input string, when its fixed parts are `arn`, `aws`, `states` and `execution`. |
| Models.ArnToStringIsJoin | src/sfn_profiler/models/__init__.py:22-23 | `__str__` is the `:`-join of the eight standard parts, in the source's order (region before account). |
| Models.MinStart | src/sfn_profiler/models/__init__.py:143 | The minimum start is the start of some event and is no later than any event's start. |
| Models.MaxEnd | src/sfn_profiler/models/__init__.py:144 | The maximum end is the end of some event and is no earlier than any event's end. |
| Models.MinStartMaxEndAppend | src/sfn_profiler/models/__init__.py:153-155 | The min start and max end of `a + b` are the min and max of those of `a` and `b`. |
| Models.AggregateEvent.constructor | src/sfn_profiler/models/__init__.py:74-82 | `from_event` takes the event's start, end and name, with no values, no contributors and one attempt. |
| Models.AggregateEvent.Workflow | src/sfn_profiler/models/__init__.py:54-56 | The workflow is always the label `"AGGREGATE"`, never an ARN. |
| Models.AggregateEvent.AddEvent | src/sfn_profiler/models/__init__.py:68-72 | The new state appends the event's duration to the values and adds its workflow to the contributors. It sets start to `min(start, e.start)` and end to `max(end, e.end)`. Nothing else changes. |
| Models.WithSamplesEffect | src/sfn_profiler/models/__init__.py:68-72 | Adding events one by one appends one duration per event, in order, and adds every event's workflow. Name and attempts are kept. The span only widens, to the min start and max end over the old span and the events. No events leaves the aggregate unchanged. |
| Models.MostCommonCount | src/sfn_profiler/models/__init__.py:98 | The count is at least the count of every candidate name and equals the count of some candidate. This is `most_common(1)[0][1]`. |
| Models.FromStack | src/sfn_profiler/models/__init__.py:94-107 | On a non-empty stack, the loop spans the first start to the last end. Its events are the stack and its names are the set of member names. Its iterations are the largest per-name count, so they lie between 1 and the stack length. |
| Models.FromStackName | src/sfn_profiler/models/__init__.py:97 | Splitting the loop's name at `\|` gives all member names, repeats included, in ascending order, when no name contains `\|`. |
| Models.SimpleName | src/sfn_profiler/models/__init__.py:114-117 | A loop with no names has `""` as its simple name. |
| Models.SimpleNameParts | src/sfn_profiler/models/__init__.py:114-117 | Splitting the simple name at `\|` gives each of the loop's names exactly once, when no name contains `\|`. |
| Models.AnyLoopContains | src/sfn_profiler/models/__init__.py:122-124 | The result is true exactly when some loop has the event's name among its names and the event's start lies within `[loop.start, loop.end]`. |
| Models.ToEvent | src/sfn_profiler/models/__init__.py:127-130 | The event has the loop's span and duration, the simple name as its name, the first member's workflow and one attempt. |
| Models.Workflow.constructor | src/sfn_profiler/models/__init__.py:141-144 | With events, start and end are their min start and max end. Without events, the given start and end are kept (absent by default). |
| Models.Workflow.AddEvents | src/sfn_profiler/models/__init__.py:149-155 | The events are appended in order. Start becomes `min` of the old start and the new events' min start, or that min start if there was none; end is handled the same way with max. An empty list changes nothing. The span invariant "span = min start, max end of the events" is preserved. |
| Models.Workflow.Duration | src/sfn_profiler/models/__init__.py:168-172 | Duration is 0 when start or end is absent. Under the span invariant, it is at least every event's duration, and with events it is exactly the latest end minus the earliest start. |
| Models.Workflow.IdAsFilename | src/sfn_profiler/models/__init__.py:157-158 | The result is `str(id)` with every `:` and `/` turned into `-` and every other character kept. It has the same length and contains no `:` and no `/`. |
| Models.AddTo | src/sfn_profiler/models/__init__.py:189 | `durations[name] += amount` on a `defaultdict`. A first-seen key is appended to the key order starting from 0; any other key has its total increased. |
| Models.TallyOfMeaning | src/sfn_profiler/models/__init__.py:184-192 | After the additions, the keys are the contributed names, each key's total is the sum of its amounts, and the key order is first-seen order. |
| Models.Items | src/sfn_profiler/models/__init__.py:193 | `items()` lists each key with its total, in key order. |
| Models.SortByTotalFacts | src/sfn_profiler/models/__init__.py:193 | `sorted(..., key=x[1], reverse=True)` gives a permutation in non-increasing order of totals. It is stable, so entries with equal totals keep their order, and it keeps names distinct. |
| Models.PrefixSlice | src/sfn_profiler/models/__init__.py:181 | Python's `[:n]` gives a prefix of length `min(n, len)` for `n >= 0`, and of length `max(0, len + n)` for negative `n`. |
| Models.FlatContributions | src/sfn_profiler/models/__init__.py:185-189 | Without loop folding, each event of the workflow's own id contributes its full duration under its name, and events of other workflows contribute nothing. |
| Models.FoldedContributions | src/sfn_profiler/models/__init__.py:185-192 | With loop folding and at least one loop, the contributions are the own-workflow events in no loop, followed by each loop's span under `"[LOOP] " + simple_name`. |
| Models.RankOfMeaning | src/sfn_profiler/models/__init__.py:183-193 | The ranking lists each contributed name exactly once, with the sum of its amounts, in non-increasing order. Equal sums keep first-seen order. |
| Models.RankingMeaning | src/sfn_profiler/models/__init__.py:183-193 | A workflow's ranking lists each contributed name once, with the sum of its contributions, in non-increasing order of sums. Names with equal sums keep their first-seen order. |
| Models.Workflow.TallyEvents | src/sfn_profiler/models/__init__.py:184-189 | The first loop builds the tally of the own-workflow event contributions, skipping loop members when folding. |
| Models.Workflow.TallyLoops | src/sfn_profiler/models/__init__.py:190-192 | The second loop adds every loop's span under its `[LOOP]` key. |
| Models.Workflow.RankedContributions | src/sfn_profiler/models/__init__.py:183-193 | `_largest_contributors` returns the ranking of the workflow's contributions. |
| Models.Workflow.LargestContributors | src/sfn_profiler/models/__init__.py:180-181 | `largest_contributors(n)` is the ranking cut with Python's `[:n]`. The defaults are the source's: `n` is 10 and loops are not folded. |
| Loops.Step | src/sfn_profiler/utils/loops.py:13-27 | One iteration of the scan keeps the scan invariant. While a loop is followed, its names are exactly the stack's names, the stack has at least two events and its first name occurs twice. Otherwise the stack repeats no name. |
| Loops.Run | src/sfn_profiler/utils/loops.py:12-27 | The scan state after each prefix of the history satisfies the scan invariant. So `from_stack` is never called on an empty stack. |
| Loops.FindLoops | src/sfn_profiler/utils/loops.py:6-28 | The method returns the loops of the specification scan `Run`. |
| Loops.NoRepeatsNoLoops | src/sfn_profiler/utils/loops.py:6-28 | A history with no repeated step name, including the empty history, gives no loops. The stack is then the whole history. |
| Loops.RunTraced | src/sfn_profiler/utils/loops.py:12-27 | Each emitted loop's events are a contiguous slice of the history. Each loop repeats some name at least twice and was closed by the next step, which is not a member. The loops are disjoint and in history order. The stack is the suffix of the history after the last loop. |
| Loops.RunBuilt | src/sfn_profiler/utils/loops.py:23 | Every emitted loop is `from_stack` of its own events and has at least one member. |
| Loops.NoFinalFlushScenario | src/sfn_profiler/utils/loops.py:12-28 | `State1,State2,State1,State2` ends while the loop is still followed, and nothing is emitted. |
| Loops.OneLoopScenario | tests/sfn_profiler/utils/test_loops.py:145-158 | `State1,State2,State1,State2,State3` gives one loop of the first four events, over `{State1, State2}`, with two iterations, spanning the first start to the fourth end. |
| Loops.TwoLoopsScenario | tests/sfn_profiler/utils/test_loops.py:160-179 | `State1,State2,State1,State3,State4,State4,State5` gives the loops `{State1, State2}` over events 0-2 and `{State4}` over events 4-5, with those spans. |
| Loops.NestedScenario | tests/sfn_profiler/utils/test_loops.py:181-196 | `A,B,C,B,C,A,D` gives only the inner loop `{B, C}`, from the first `B` to the second `C`. |
| Loops.ToEvents | src/sfn_profiler/utils/loops.py:34-35 | The result has one `to_event()` per loop, in loop order. |
| Loops.Coalesce | src/sfn_profiler/utils/loops.py:31-36 | The result is the history events that lie in no loop, in order, followed by one event per loop. |
| Loops.OutsideMembers | src/sfn_profiler/utils/loops.py:33 | An event is kept iff it is in the history and lies in no loop. The kept list is no longer than the history. |
| Loops.OutsideNoLoops | src/sfn_profiler/utils/loops.py:31-36 | With no loops, coalescing returns the history unchanged. |
| Loops.MembersRemoved | src/sfn_profiler/utils/loops.py:33 | Every member of a loop built from a chronological stack is removed by coalescing. |
| Sfn.GetExecutionArn | src/sfn_profiler/utils/sfn.py:8-16 | Eight parts are parsed as a full ARN. Two parts give machine and execution from the parts, with the supplied account and region. Any other count fails with `"Invalid execution id: "` followed by the input. |
| Sfn.GetExecutionArnFull | src/sfn_profiler/utils/sfn.py:8-11 | A printed ARN whose fields contain no `:` resolves to itself. |
| Sfn.GetExecutionArnShort | src/sfn_profiler/utils/sfn.py:12-15 | `machine:execution` resolves to that machine and execution in the supplied account and region. |
| Sfn.FirstOccurrence | src/sfn_profiler/utils/sfn.py:28 | `history.index(event)` is a position that holds the record. |
| Sfn.FirstOccurrenceIsFirst | src/sfn_profiler/utils/sfn.py:28 | No earlier position holds the record. |
| Sfn.FindExit | src/sfn_profiler/utils/sfn.py:28-29 | A found exit is a later record whose type contains `StateExited` and which names the step. |
| Sfn.FindExitIsFirst | src/sfn_profiler/utils/sfn.py:28-35 | The found exit is the first such record. None means there is no such record. |
| Sfn.Absorb | src/sfn_profiler/utils/sfn.py:31-34 | When the last output has the same name, only its end moves to the new end; its start and the earlier outputs are kept. Otherwise the new event is appended. |
| Sfn.ProcessExecutionHistory | src/sfn_profiler/utils/sfn.py:19-36 | The nested loops compute the specification `Process` of the history. As in the source, steps are combined by default. |
| Sfn.CombinedIsCollapsed | src/sfn_profiler/utils/sfn.py:31-34 | Combining consecutive steps gives the uncombined timeline with runs of equal names merged. |
| Sfn.CollapseAdjacentDistinct | src/sfn_profiler/utils/sfn.py:31-32 | After merging, no two adjacent outputs share a name. |
| Sfn.CollapseLength | src/sfn_profiler/utils/sfn.py:31-34 | Merging never makes the timeline longer, and a non-empty timeline stays non-empty. |
| Sfn.CollapseProvenance | src/sfn_profiler/utils/sfn.py:31-34 | Each merged output takes its name, start and workflow from one uncombined event and its end from an uncombined event of the same name. |
| Sfn.MatchedUpTo | src/sfn_profiler/utils/sfn.py:22-29 | The matched positions are entered records that have an exit, listed in increasing order. |
| Sfn.MatchedComplete | src/sfn_profiler/utils/sfn.py:22-29 | Every entered record that has an exit is matched. |
| Sfn.UncombinedTimings | src/sfn_profiler/utils/sfn.py:22-35 | Without combining, there is exactly one output per matched entered record, in record order. Each has the entered record's name and timestamp as start, the first matching exit's timestamp as end, the given workflow and one attempt. |
| Sfn.TimingCount | src/sfn_profiler/utils/sfn.py:21-36 | The output is never longer than the number of entered records. An empty history gives an empty output. |
| Sfn.CombinedNoAdjacentRepeats | src/sfn_profiler/utils/sfn.py:31-32 | With combining, no two adjacent outputs share a name. |
| Sfn.TimingsFromHistory | src/sfn_profiler/utils/sfn.py:23-34 | Whether or not steps are combined, every output has the given workflow. Its name and start come from an entered record, and its end comes from the first matching exit of a record with that name. |
| Cli.FilterSmallSteps | src/sfn_profiler/cli/main.py:28-29 | The result keeps exactly those events whose duration is at least `min_duration_sec` seconds. |
| Cli.FilterAppend | src/sfn_profiler/cli/main.py:28-29 | Filtering distributes over concatenation, so the original order is kept. |
| Cli.FilterKeepsLong | src/sfn_profiler/cli/main.py:28-29 | A list whose events are all long enough is returned unchanged. |
| Cli.FilterIdempotent | src/sfn_profiler/cli/main.py:28-29 | Filtering twice is the same as filtering once. |
| Cli.AggregateAll | src/sfn_profiler/cli/main.py:32-38 | The keys after aggregating are the old keys plus the names of the events. |
| Cli.Aggregate | src/sfn_profiler/cli/main.py:32-38 | The returned table has the old keys plus the event names. Old keys keep their objects and new keys get fresh ones. Entries stay distinct objects. The states equal `AggregateAll` of the old states. |
| Cli.AggregateUntouched | src/sfn_profiler/cli/main.py:32-38 | Entries whose name no event carries are unchanged. |
| Cli.AggregateNewEntry | src/sfn_profiler/cli/main.py:35-37 | A new entry holds one duration per event of its name, in order, and every such event's workflow. It spans from their min start to their max end. |
| Cli.AggregateOldEntry | src/sfn_profiler/cli/main.py:34-37 | An existing entry gains one duration per event of its name, in order, and every such event's workflow. Its span only widens. |
| Cli.FillAll | src/sfn_profiler/cli/main.py:41-45 | Filling adds no keys and removes none. |
| Cli.FillMissingSteps | src/sfn_profiler/cli/main.py:41-45 | The table's states after the nested loops equal `FillAll` of the old states and the contributors' ids and events. |
| Cli.FillAllEntries | src/sfn_profiler/cli/main.py:41-45 | Entries only grow, in values and contributors. An entry whose name no contributor event carries is unchanged. |
| Cli.FillAllCovers | src/sfn_profiler/cli/main.py:42-45 | For every workflow event whose name is a key and whose workflow is the workflow's id, that id is afterwards a contributor of the entry. |
| Cli.FillWorkflowAtMostOnce | src/sfn_profiler/cli/main.py:43-45 | When the workflow's events named `k` carry its id, filling it in adds at most one sample to the entry for `k`. A sample that is added makes the id a contributor, and an entry that already lists the id is unchanged. |

## Left out

- Network and AWS access are left out. `get_account` and `get_region` become the `account` and `region` parameters of `Sfn.GetExecutionArn`. Fetching the history is also left out: the history is a parameter.
- The history records are typed values `Record(id, kind, name, timestamp)` instead of dictionaries. The `stateEnteredEventDetails` and `stateExitedEventDetails` names are the record's `name`, so a missing key cannot be expressed.
- The record `id` is read by `process_execution_history` but not used in the output. `Event` has no `id` field, so the model's output events do not have one either.
- `extend_end`, which `Event` does not define, is modelled as "set `end` to the exit's timestamp".
- Retry and attempt splitting (`separate_retries`) is an argument passed by the command line, but `process_execution_history` (src/sfn_profiler/utils/sfn.py:19-36) does not implement it. It is not modelled, and `attempts` stays 1.
- `datetime`, and float conversions (`total_seconds`, `total_minutes`, `durations()`), are replaced by integer microseconds.
- Python iterates over a set in no fixed order. For `simple_name` the model fixes that order as ascending code-point order, and it claims only order-independent facts about it.
- The `ValueError` branch of `Loop.__contains__` for non-events is left out, because Dafny's types exclude such items.
- `Models.FromStack` requires a non-empty stack; the source raises `IndexError` on an empty one. `Loops.Run` proves the scan never calls it on one.
- `Models.ToEvent` / `Loops.Coalesce` require every loop to have a member; the source raises `IndexError` at `self.events[0]` on an empty one (models/__init__.py:129, utils/loops.py:35). The only caller passes the detector's loops, and `Loops.RunBuilt` proves each of those has a member.
- Aliasing between `Workflow.events` and the aggregate dictionary's objects is not modelled. A workflow's events are values and aggregates are `AggregateEvent` objects. The code that puts aggregates into a workflow lies outside cli/main.py:28-45 and is not part of this model.
- `Cli.Aggregate` and `Cli.FillMissingSteps` require that distinct keys hold distinct objects. `aggregate` itself builds tables that way.
- `Models.Workflow.constructor`: the stored `_start`/`_end` defaults are taken as given when there are no events. Python's truthiness of `datetime` is always true, so `if self._start` is read as "is not None".
- `Models.PrefixSlice`: large negative `n` and `n` beyond the length follow Python's slice clamping. A negative `n` drops entries from the end instead of giving an empty list.
- The rest of `cli/main.py` is not part of this model: timeline plotting, HTML output, the HTTP server, argument parsing, `main` and the interleave renaming. The same holds for `cli/sfn2perfetto.py`, `utils/cache.py`, `utils/__init__.py`, `clients/sfn.py` and `clients/boto.py`. These are file, network, plotting and serialisation code.
- Where the documentation says a non-positive `n` gives an empty ranking, the model follows the code's `[:n]`.
- As written, `process_execution_history` passes `id=` to `Event`, which has no such field. Run unchanged, the source would fail on the first matched step. The model follows the evident intent: it builds the event without `id`.
