# Recurring scheduled downtimes (Icinga 2) in Dafny

This project models the recurring-downtime scheduler of Icinga 2's
`ScheduledDowntime` object, in `lib/icinga/scheduleddowntime.cpp`. A
scheduled downtime names a host, and optionally a service. It also has
a `ranges` dictionary that maps day specifications to time ranges. On
start, and then on every timer tick, the scheduler looks for a downtime
on the checkable that the schedule owns and that has not started yet.
When none exists, it evaluates every range rule against the current
time. If some rule yields a segment that has not begun, it adds one
downtime for the earliest such segment (lines 164-181). There is one
exception: the source returns "no segment" as the pair `(0, 0)` (lines
140-143, 166-174), so a real segment `(0, 0)` is dropped too. That can
only happen when `now <= 0`. So when `now > 0`, after a pass the
schedule has at least one pending downtime exactly when it already had
one or a next segment exists.

The model has five modules:

- `Wrappers` (`wrappers.dfy`): `Option` and `Outcome`.
- `Naming` (`naming.dfy`): the name composer. It builds `host!short` or
  `host!service!short`. When no part contains `!`, splitting at `!` is
  its inverse. Otherwise names can collide: host `a!b` with short name
  `c` and host `a`, service `b`, short name `c` both give `a!b!c`.
- `Segments` (`segments.dfy`): next-segment selection.
  - `NextSegment` is a pure function.
  - `FindNextSegment` is the source's loop, proved equal to `NextSegment`.
  - `IsFirstMinimal` is an independent "first minimal eligible candidate"
    definition. `NextSegment` is proved equal to it in both directions.
- `Downtimes` (`downtimes.dfy`): creation of the next downtime.
  - `Checkable` is a class whose `downtimes` map the methods update in
    place.
  - `Reconcile` is the pure effect of one pass.
  - `CreateNextDowntime` and `TimerProc` are the imperative operations.
  - Lemmas prove idempotence, the "at most one pending downtime per
    schedule" invariant, and, when `now > 0` and the new id is not in the
    store yet, that a pending downtime exists after a pass exactly when one
    existed before or a next segment exists.
- `Validation` (`validation.dfy`): validation of the `ranges` attribute,
  which stops at the first rejected key or value.

Some collaborators are outside this model. They become parameters:

- The time-period evaluator (`LegacyTimePeriod::FindNextSegment`) is a
  function value of type `Evaluator`.
- The parsers (`LegacyTimePeriod::ParseTimeRange`,
  `LegacyTimePeriod::ProcessTimeRanges`) are function values of types
  `KeyParser` and `RangesParser`.
- The clock is an integer `now`. Timestamps are whole seconds (`int`).
- The identifier of a new downtime is an `id` argument, which must not be
  in the store yet.

`ValidateRanges` stops at the first rejected key or value (lines
195-208). A missing `ranges` dictionary passes (lines 186-187), and so
does an empty one, because the loop then has nothing to reject.

## Model

| member | source | states |
|---|---|---|
| `Naming.TargetKey` | lib/icinga/scheduleddowntime.cpp:50-53 | The target part of the name is the host name alone when the service name is empty. Otherwise it is exactly the host name, then `!`, then the service name. |
| `Naming.MakeName` | lib/icinga/scheduleddowntime.cpp:43-58 | The name is empty exactly when the context is not a scheduled downtime. Otherwise it is exactly the target part (`TargetKey`), then `!`, then the short name. |
| `Naming.MakeNameSplits` | lib/icinga/scheduleddowntime.cpp:50-57 | Splitting a composed name at `!` gives back `[host, short]` or `[host, service, short]`, when no part contains `!`. |
| `Naming.MakeNameInjective` | lib/icinga/scheduleddowntime.cpp:43-58 | Two downtimes with the same composed name have the same host, service and short name, when no part contains `!`. |
| `Segments.NextSegment` | lib/icinga/scheduleddowntime.cpp:117-143 | The selected segment never begins before `now`. |
| `Segments.NextSegmentIsFirstMinimal` | lib/icinga/scheduleddowntime.cpp:121-143 | No segment is selected iff no rule yields a candidate that begins at or after `now`. Otherwise the selected segment is exactly the evaluator's result for one rule `k`. That candidate is eligible, begins no later than any eligible candidate, and begins strictly earlier than any eligible candidate of an earlier rule (ties go to the earlier rule). |
| `Segments.FirstMinimalIsSelected` | lib/icinga/scheduleddowntime.cpp:129-137 | Conversely, whenever rule `k` is the first minimal eligible rule, its candidate is the one selected. |
| `Segments.FindNextSegment` | lib/icinga/scheduleddowntime.cpp:100-144 | The loop with the accumulators `bestSegment`/`bestBegin` returns the selected segment's pair. A pair other than `(0, 0)` begins at or after `now`. When `now > 0`, `(0, 0)` is returned exactly when no segment exists. |
| `Downtimes.Reconcile` | lib/icinga/scheduleddowntime.cpp:146-182 | One pass adds at most the one key `id`. When `id` is not in the store yet, it keeps every existing downtime unchanged. It changes nothing when a pending downtime owned by the schedule exists. |
| `Downtimes.ReconcileOutcome` | lib/icinga/scheduleddowntime.cpp:152-181 | A pass adds a downtime iff no owned downtime is pending and the segment is not `(0, 0)`. Otherwise the store is unchanged. The added downtime covers the selected segment. Its `scheduledBy` and `configOwner` both equal the schedule's name. Its author, comment, fixed flag and duration are the schedule's, and it is triggered by nothing. |
| `Downtimes.ReconcileIdempotent` | lib/icinga/scheduleddowntime.cpp:152-181 | A second pass at the same `now` changes nothing, whatever identifier it would use. |
| `Downtimes.ReconcileEstablishesPending` | lib/icinga/scheduleddowntime.cpp:155-181 | When `now > 0`, the schedule has a pending downtime after the pass iff it had one before or a next segment exists. |
| `Downtimes.ReconcileKeepsAtMostOnePending` | lib/icinga/scheduleddowntime.cpp:152-181 | If at most one pending downtime is owned by a given name before the pass, the same holds after it. This covers the schedule's own name and every other name. |
| `Downtimes.Checkable.AddDowntime` | lib/icinga/scheduleddowntime.cpp:176-178 | Stores a downtime with the given fields under the fresh identifier and returns that identifier. No other entry changes. |
| `Downtimes.Checkable.SetConfigOwner` | lib/icinga/scheduleddowntime.cpp:180-181 | Sets the config owner of the stored downtime and changes nothing else. |
| `Downtimes.CreateNextDowntime` | lib/icinga/scheduleddowntime.cpp:146-182 | The scan with early return, the segment lookup, the sentinel test and the add-then-set-owner sequence leave the checkable's store equal to `Reconcile` of the old store. |
| `Downtimes.TimerProc` | lib/icinga/scheduleddowntime.cpp:83-88 | After a pass over all schedules, which may share checkables, no downtime is removed or altered. When `now > 0`, every schedule with a next segment has a pending downtime. No name gains a second pending downtime. Every added downtime is the one some schedule `i` creates (its segment, settings and ownership), stored under `ids[i]` on `targets[i]`. |
| `Validation.CheckRules` | lib/icinga/scheduleddowntime.cpp:195-209 | Checking succeeds iff every key and every value is accepted. A failure is tagged to `ranges`. |
| `Validation.CheckRulesReportsFirstFailure` | lib/icinga/scheduleddowntime.cpp:195-209 | A failure names the first invalid rule `k`, and every earlier rule is valid. The error carries the parser's message. It names `k`'s day specification when its key is rejected (the key is checked first); otherwise it names its time-range definition. |
| `Validation.ValidateRanges` | lib/icinga/scheduleddowntime.cpp:184-210 | A missing dictionary passes. Otherwise the loop's outcome is that of `CheckRules`. It passes iff every rule is valid. |

## Left out

- `StaticInitialize` and the 60-second timer (lines 60-66) are process timer infrastructure. `TimerProc` models one firing.
- `Start` (lines 76-81) is the framework's start-up plus one `CreateNextDowntime` call. Only that call is modelled.
- `GetCheckable` (lines 90-98) and the existence check in `OnAllConfigLoaded` (lines 68-74) are registry lookups. The model receives the resolved checkable, so it assumes the target exists.
- The global object registry enumerated by `TimerProc` (line 85) becomes a given sequence of schedules. The order of that sequence is the iteration order.
- `ObjectLock` (lines 116, 151, 194) and concurrent callers are not modelled. Each operation is sequential.
- `Log` calls and the unused "next midnight" computation (lines 167-171) have no effect on state.
- The source reads the clock separately at lines 102, 114 and 156, and gives the evaluator a `tm` in local time. The model uses one instant `now` for all of these and passes it straight to the evaluator.
- Timestamps and the schedule's `duration` are `double` in the source and integers here. Floating-point rounding is not modelled.
- The `ranges` dictionary's iteration order is the order of the `seq<Rule>`. Icinga's `Dictionary` implementation is not part of this model.
- `LegacyTimePeriod` evaluation and parsing are function parameters. They are total functions, so an evaluator that throws at run time (which would abort the whole pass in the source) is not modelled.
- `Checkable::AddDowntime` is not part of this model beyond storing the record. Its other effects are not modelled: legacy ids, entry time, trigger handling, notifications and cluster events. The new record's config owner starts out empty, and the unique identifier is an argument.
- Downtime objects are values in a map. `SetConfigOwner` replaces the stored record, so sharing of a `Downtime` object through other references is not captured.
- `ProcessTimeRanges` also appends the parsed segments to a scratch array that is then discarded. The model keeps only accept or reject.
- Downtimes.TimerProc: states that nothing is removed or altered, that pending downtimes are established, that the at-most-one invariant is kept, and that every added downtime belongs to one schedule under that schedule's id. It does not say which schedules did add a downtime. That depends on the order of the schedules sharing a checkable, so the exact resulting store is not given.
- A real segment `(0, 0)` is indistinguishable from "no segment" in the source's pair encoding. The model keeps that encoding. Its guarantees about creation assume `now > 0`.
