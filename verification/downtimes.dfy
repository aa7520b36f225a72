/**
 * Materialization of scheduled downtimes: each pass makes sure that a
 * scheduled downtime has a downtime of its own that has not started yet
 * on the checkable it applies to, adding one for the next segment when
 * there is none.
 */
module Downtimes {
  import opened Wrappers
  import opened Segments

  /** A downtime record as stored on a checkable (host or service). */
  datatype Downtime = Downtime(
    author: string,
    comment: string,
    startTime: int,
    endTime: int,
    fixed: bool,
    triggeredBy: string,
    duration: int,
    scheduledBy: string,
    configOwner: string)

  /**
   * The configuration of one scheduled downtime object. `name` is its full
   * object name, composed by `Naming.MakeName` from its short name, host
   * name and service name; `hostName` and `serviceName` identify the
   * checkable it applies to, which the operations here receive already
   * resolved.
   */
  datatype ScheduledDowntime = ScheduledDowntime(
    name: string,
    hostName: string,
    serviceName: string,
    author: string,
    comment: string,
    fixed: bool,
    duration: int,
    ranges: seq<Rule>)

  /** `d` was created by the scheduled downtime `name` and has not started at `now`. */
  predicate PendingOwnedBy(d: Downtime, name: string, now: int)
  {
    d.scheduledBy == name && d.startTime >= now
  }

  /** Some downtime in `downtimes` is owned by `name` and has not started. */
  predicate HasPending(downtimes: map<string, Downtime>, name: string, now: int)
  {
    exists id :: id in downtimes && PendingOwnedBy(downtimes[id], name, now)
  }

  /** At most one downtime in `downtimes` is owned by `name` and has not started. */
  ghost predicate AtMostOnePending(downtimes: map<string, Downtime>, name: string, now: int)
  {
    forall id1, id2 ::
      (id1 in downtimes && id2 in downtimes &&
       PendingOwnedBy(downtimes[id1], name, now) && PendingOwnedBy(downtimes[id2], name, now)) ==> id1 == id2
  }

  /** Every downtime of `before` is still in `after`, unchanged. */
  ghost predicate Extends(before: map<string, Downtime>, after: map<string, Downtime>)
  {
    forall id :: id in before ==> id in after && after[id] == before[id]
  }

  /**
   * The downtime a scheduled downtime creates for the segment `(first,
   * second)`: its descriptive fields are copied, it is triggered by nothing,
   * and both its owner fields name the scheduled downtime. It counts as a
   * pending downtime of `sd` exactly up to its start time, which is what
   * makes later passes leave the store alone.
   */
  function Materialize(sd: ScheduledDowntime, first: int, second: int): (d: Downtime)
    ensures forall now :: PendingOwnedBy(d, sd.name, now) <==> now <= first
  {
    Downtime(sd.author, sd.comment, first, second, sd.fixed, "", sd.duration, sd.name, sd.name)
  }

  /**
   * `d` is the downtime `sd` creates at `now`: it covers `sd`'s next segment
   * and carries `sd`'s settings and ownership.
   */
  ghost predicate CreatedFor(d: Downtime, sd: ScheduledDowntime, eval: Evaluator, now: int)
  {
    NextSegment(sd.ranges, eval, now) == Some(Segment(d.startTime, d.endTime)) &&
    d == Materialize(sd, d.startTime, d.endTime)
  }

  /**
   * The downtimes of the checkable after one creation pass of `sd` at `now`,
   * the new downtime (if any) getting the identifier `id`.
   */
  function Reconcile(downtimes: map<string, Downtime>, sd: ScheduledDowntime, eval: Evaluator,
                     now: int, id: string): (result: map<string, Downtime>)
    ensures result.Keys <= downtimes.Keys + {id}
    ensures id !in downtimes ==> Extends(downtimes, result)
    ensures HasPending(downtimes, sd.name, now) ==> result == downtimes
  {
    if HasPending(downtimes, sd.name, now) then downtimes
    else
      var (first, second) := SegmentPair(NextSegment(sd.ranges, eval, now));
      if first == 0 && second == 0 then downtimes
      else downtimes[id := Materialize(sd, first, second)]
  }

  /**
   * What one pass does to a store that does not hold `id` yet: it adds a
   * downtime exactly when none of `sd`'s is pending and a segment was
   * found (the `(0, 0)` sentinel counting as none), and that downtime
   * covers the selected segment, names `sd` as both its scheduler and its
   * config owner, copies `sd`'s author, comment, fixed flag and duration,
   * and is triggered by nothing.
   */
  lemma ReconcileOutcome(downtimes: map<string, Downtime>, sd: ScheduledDowntime, eval: Evaluator,
                         now: int, id: string)
    requires id !in downtimes
    ensures var result := Reconcile(downtimes, sd, eval, now, id);
      && (id in result <==>
            !HasPending(downtimes, sd.name, now) && SegmentPair(NextSegment(sd.ranges, eval, now)) != (0, 0))
      && (id !in result ==> result == downtimes)
      && (id in result ==>
            && result.Keys == downtimes.Keys + {id}
            && NextSegment(sd.ranges, eval, now) == Some(Segment(result[id].startTime, result[id].endTime))
            && result[id].scheduledBy == result[id].configOwner == sd.name
            && result[id].author == sd.author && result[id].comment == sd.comment
            && result[id].fixed == sd.fixed && result[id].duration == sd.duration
            && result[id].triggeredBy == "")
  {
  }

  /**
   * A second pass at the same time adds nothing: after the first pass a
   * pending downtime owned by `sd` exists whenever one was added.
   */
  lemma ReconcileIdempotent(downtimes: map<string, Downtime>, sd: ScheduledDowntime, eval: Evaluator,
                            now: int, id1: string, id2: string)
    ensures Reconcile(Reconcile(downtimes, sd, eval, now, id1), sd, eval, now, id2)
         == Reconcile(downtimes, sd, eval, now, id1)
  {
    var once := Reconcile(downtimes, sd, eval, now, id1);
    if once != downtimes {
      assert PendingOwnedBy(once[id1], sd.name, now);
    }
  }

  /**
   * With a positive clock, a pass leaves `sd` with a pending downtime
   * exactly when it already had one or a next segment exists.
   */
  lemma ReconcileEstablishesPending(downtimes: map<string, Downtime>, sd: ScheduledDowntime,
                                    eval: Evaluator, now: int, id: string)
    requires now > 0 && id !in downtimes
    ensures HasPending(Reconcile(downtimes, sd, eval, now, id), sd.name, now) <==>
              HasPending(downtimes, sd.name, now) || NextSegment(sd.ranges, eval, now).Some?
  {
    var result := Reconcile(downtimes, sd, eval, now, id);
    if !HasPending(downtimes, sd.name, now) {
      if NextSegment(sd.ranges, eval, now).Some? {
        assert PendingOwnedBy(result[id], sd.name, now);
      } else {
        assert result == downtimes;
      }
    }
  }

  /**
   * A pass never creates a second pending downtime for any scheduled
   * downtime: "at most one pending downtime owned by `name`" is preserved,
   * for `sd`'s own name and for every other one.
   */
  lemma ReconcileKeepsAtMostOnePending(downtimes: map<string, Downtime>, sd: ScheduledDowntime,
                                       eval: Evaluator, now: int, id: string, name: string)
    requires AtMostOnePending(downtimes, name, now)
    ensures AtMostOnePending(Reconcile(downtimes, sd, eval, now, id), name, now)
  {
  }

  /** A pending downtime stays pending when the store only grows. */
  lemma ExtendsKeepsPending(before: map<string, Downtime>, after: map<string, Downtime>, name: string, now: int)
    requires Extends(before, after) && HasPending(before, name, now)
    ensures HasPending(after, name, now)
  {
  }

  /**
   * Every downtime that is in `current[j]` but not in `initial[j]` is the one
   * some `schedules[k]`, `k < n`, creates: stored under `ids[k]` on the same
   * checkable as `targets[j]`.
   */
  ghost predicate AddedBySchedules(initial: seq<map<string, Downtime>>, current: seq<map<string, Downtime>>,
                                   targets: seq<Checkable>, schedules: seq<ScheduledDowntime>,
                                   ids: seq<string>, eval: Evaluator, now: int, n: int)
  {
    forall j, id :: 0 <= j < |targets| && j < |initial| && j < |current| &&
                    id in current[j] && id !in initial[j] ==>
      exists k :: 0 <= k < n && k < |schedules| && k < |ids| && k < |targets| &&
                  targets[k] == targets[j] && ids[k] == id && CreatedFor(current[j][id], schedules[k], eval, now)
  }

  /**
   * The stores `after` result from `prior` by the pass of `schedules[i]`:
   * the store of `targets[i]`, seen through every alias of it, is
   * reconciled, and every other store is left alone.
   */
  ghost predicate PassStepTaken(prior: seq<map<string, Downtime>>, after: seq<map<string, Downtime>>,
                                targets: seq<Checkable>, schedules: seq<ScheduledDowntime>,
                                ids: seq<string>, eval: Evaluator, now: int, i: int)
  {
    && |prior| == |after| == |targets| == |schedules| == |ids|
    && 0 <= i < |targets|
    && (forall j :: 0 <= j < |targets| && targets[j] == targets[i] ==> prior[j] == prior[i])
    && (forall j :: 0 <= j < |targets| ==>
          after[j] == if targets[j] == targets[i] then Reconcile(prior[i], schedules[i], eval, now, ids[i])
                      else prior[j])
  }

  /** Every store of `current` extends the corresponding store of `initial`. */
  ghost predicate ExtendsAll(initial: seq<map<string, Downtime>>, current: seq<map<string, Downtime>>)
  {
    |initial| == |current| && forall j :: 0 <= j < |current| ==> Extends(initial[j], current[j])
  }

  /** The identifiers from position `from` on are in none of the stores. */
  ghost predicate FreshIds(current: seq<map<string, Downtime>>, ids: seq<string>, from: int)
  {
    forall k, j :: 0 <= from <= k < |ids| && 0 <= j < |current| ==> ids[k] !in current[j]
  }

  /** Each of the first `n` schedules that has a next segment has a pending downtime in its store. */
  ghost predicate PendingEstablished(current: seq<map<string, Downtime>>, schedules: seq<ScheduledDowntime>,
                                     eval: Evaluator, now: int, n: int)
  {
    forall k :: 0 <= k < n && k < |current| && k < |schedules| &&
                now > 0 && NextSegment(schedules[k].ranges, eval, now).Some? ==>
      HasPending(current[k], schedules[k].name, now)
  }

  /** No store of `current` holds two pending downtimes of a name that had at most one in `initial`. */
  ghost predicate AtMostOneKept(initial: seq<map<string, Downtime>>, current: seq<map<string, Downtime>>, now: int)
  {
    forall j, name :: 0 <= j < |initial| && j < |current| && AtMostOnePending(initial[j], name, now) ==>
      AtMostOnePending(current[j], name, now)
  }

  /** A pass step removes and alters nothing. */
  lemma StepExtends(initial: seq<map<string, Downtime>>, prior: seq<map<string, Downtime>>,
                    after: seq<map<string, Downtime>>, targets: seq<Checkable>,
                    schedules: seq<ScheduledDowntime>, ids: seq<string>, eval: Evaluator, now: int, i: int)
    requires PassStepTaken(prior, after, targets, schedules, ids, eval, now, i)
    requires ExtendsAll(initial, prior) && ids[i] !in prior[i]
    ensures ExtendsAll(initial, after)
  {
  }

  /** After a pass step only the identifiers of later steps are known to be unused. */
  lemma StepFreshIds(prior: seq<map<string, Downtime>>, after: seq<map<string, Downtime>>,
                     targets: seq<Checkable>, schedules: seq<ScheduledDowntime>, ids: seq<string>,
                     eval: Evaluator, now: int, i: int)
    requires PassStepTaken(prior, after, targets, schedules, ids, eval, now, i)
    requires FreshIds(prior, ids, i)
    requires forall k, l :: 0 <= k < l < |ids| ==> ids[k] != ids[l]
    ensures FreshIds(after, ids, i + 1)
  {
  }

  /** A pass step gives schedule `i` its pending downtime and keeps those of earlier schedules. */
  lemma StepPending(prior: seq<map<string, Downtime>>, after: seq<map<string, Downtime>>,
                    targets: seq<Checkable>, schedules: seq<ScheduledDowntime>, ids: seq<string>,
                    eval: Evaluator, now: int, i: int)
    requires PassStepTaken(prior, after, targets, schedules, ids, eval, now, i)
    requires PendingEstablished(prior, schedules, eval, now, i) && ids[i] !in prior[i]
    ensures PendingEstablished(after, schedules, eval, now, i + 1)
  {
    if now > 0 && NextSegment(schedules[i].ranges, eval, now).Some? {
      ReconcileEstablishesPending(prior[i], schedules[i], eval, now, ids[i]);
    }
    forall k | 0 <= k < i + 1 && now > 0 && NextSegment(schedules[k].ranges, eval, now).Some?
      ensures HasPending(after[k], schedules[k].name, now)
    {
      if k < i && targets[k] == targets[i] {
        ExtendsKeepsPending(prior[k], after[k], schedules[k].name, now);
      }
    }
  }

  /** A pass step gives no name a second pending downtime. */
  lemma StepAtMostOne(initial: seq<map<string, Downtime>>, prior: seq<map<string, Downtime>>,
                      after: seq<map<string, Downtime>>, targets: seq<Checkable>,
                      schedules: seq<ScheduledDowntime>, ids: seq<string>, eval: Evaluator, now: int, i: int)
    requires PassStepTaken(prior, after, targets, schedules, ids, eval, now, i)
    requires |initial| == |prior| && AtMostOneKept(initial, prior, now)
    ensures AtMostOneKept(initial, after, now)
  {
    forall j, name | 0 <= j < |initial| && AtMostOnePending(initial[j], name, now)
      ensures AtMostOnePending(after[j], name, now)
    {
      if targets[j] == targets[i] {
        ReconcileKeepsAtMostOnePending(prior[i], schedules[i], eval, now, ids[i], name);
      }
    }
  }

  /** After a pass step every added downtime is accounted for by one of the first `i + 1` schedules. */
  lemma StepAddedBySchedules(initial: seq<map<string, Downtime>>, prior: seq<map<string, Downtime>>,
                             after: seq<map<string, Downtime>>, targets: seq<Checkable>,
                             schedules: seq<ScheduledDowntime>, ids: seq<string>, eval: Evaluator, now: int, i: int)
    requires PassStepTaken(prior, after, targets, schedules, ids, eval, now, i)
    requires |initial| == |prior|
    requires AddedBySchedules(initial, prior, targets, schedules, ids, eval, now, i)
    requires ids[i] !in prior[i]
    ensures AddedBySchedules(initial, after, targets, schedules, ids, eval, now, i + 1)
  {
    ReconcileOutcome(prior[i], schedules[i], eval, now, ids[i]);
    forall j, id | 0 <= j < |targets| && id in after[j] && id !in initial[j]
      ensures exists k :: 0 <= k < i + 1 && k < |schedules| && k < |ids| && k < |targets| &&
                          targets[k] == targets[j] && ids[k] == id && CreatedFor(after[j][id], schedules[k], eval, now)
    {
      if id in prior[j] {
        var k :| 0 <= k < i && k < |schedules| && k < |ids| && k < |targets| &&
                 targets[k] == targets[j] && ids[k] == id && CreatedFor(prior[j][id], schedules[k], eval, now);
        assert after[j][id] == prior[j][id];
      } else {
        assert targets[j] == targets[i] && id == ids[i];
      }
    }
  }

  /** A host or service, with the downtimes stored on it, keyed by identifier. */
  class Checkable {
    var downtimes: map<string, Downtime>

    constructor ()
      ensures downtimes == map[]
    {
      downtimes := map[];
    }

    /**
     * Checkable::AddDowntime as far as the scheduler relies on it: stores a
     * new downtime under `id`, the identifier the unique-id generator
     * produced, with no config owner yet, and returns that identifier.
     */
    method AddDowntime(author: string, comment: string, startTime: int, endTime: int, fixed: bool,
                       triggeredBy: string, duration: int, scheduledBy: string, id: string)
      returns (uid: string)
      requires id !in downtimes
      modifies this
      ensures uid == id && uid in downtimes
      ensures downtimes == old(downtimes)[id := Downtime(author, comment, startTime, endTime, fixed,
                                                         triggeredBy, duration, scheduledBy, "")]
    {
      downtimes := downtimes[id := Downtime(author, comment, startTime, endTime, fixed,
                                            triggeredBy, duration, scheduledBy, "")];
      uid := id;
    }

    /** Downtime::SetConfigOwner on the downtime stored under `id`. */
    method SetConfigOwner(id: string, owner: string)
      requires id in downtimes
      modifies this
      ensures downtimes == old(downtimes)[id := old(downtimes)[id].(configOwner := owner)]
    {
      downtimes := downtimes[id := downtimes[id].(configOwner := owner)];
    }
  }

  /**
   * ScheduledDowntime::CreateNextDowntime: scan the target's downtimes and
   * stop at the first one owned by `sd` that has not started; otherwise
   * look for the next segment and, unless it is the `(0, 0)` sentinel, add
   * a downtime for it under `id` and mark `sd` as its config owner.
   */
  method CreateNextDowntime(sd: ScheduledDowntime, target: Checkable, eval: Evaluator, now: int, id: string)
    requires id !in target.downtimes
    modifies target
    ensures target.downtimes == Reconcile(old(target.downtimes), sd, eval, now, id)
  {
    var unseen := target.downtimes.Keys;
    while unseen != {}
      invariant unseen <= target.downtimes.Keys
      invariant target.downtimes == old(target.downtimes)
      invariant forall k :: k in target.downtimes && k !in unseen ==>
                  !PendingOwnedBy(target.downtimes[k], sd.name, now)
      decreases unseen
    {
      var k :| k in unseen;
      var downtime := target.downtimes[k];
      if downtime.scheduledBy != sd.name || downtime.startTime < now {
        unseen := unseen - {k};
        continue;
      }
      // A downtime owned by `sd` that has not started yet: nothing to do.
      return;
    }

    var first, second := FindNextSegment(sd.ranges, eval, now);
    if first == 0 && second == 0 {
      return;
    }

    var uid := target.AddDowntime(sd.author, sd.comment, first, second, sd.fixed, "", sd.duration, sd.name, id);
    target.SetConfigOwner(uid, sd.name);
  }

  /** The downtime stores of `targets`, position by position. */
  ghost function Stores(targets: seq<Checkable>): (stores: seq<map<string, Downtime>>)
    reads set t | t in targets
    ensures |stores| == |targets|
    ensures forall j :: 0 <= j < |targets| ==> stores[j] == targets[j].downtimes
  {
    seq(|targets|, j requires 0 <= j < |targets| reads targets => targets[j].downtimes)
  }

  /**
   * ScheduledDowntime::TimerProc: one creation pass for every scheduled
   * downtime, in the given order; `targets[i]` is the checkable of
   * `schedules[i]` (several may be the same object) and `ids[i]` the fresh
   * identifier a downtime created for it gets. Nothing is removed or
   * altered, every scheduled downtime with a next segment ends up with a
   * pending downtime, no one gains a second pending downtime, and every
   * downtime the pass adds is the one some `schedules[i]` creates, stored
   * under `ids[i]` on `targets[i]`.
   */
  method TimerProc(schedules: seq<ScheduledDowntime>, targets: seq<Checkable>, eval: Evaluator,
                   now: int, ids: seq<string>)
    requires |targets| == |schedules| && |ids| == |schedules|
    requires forall i, j :: 0 <= i < j < |ids| ==> ids[i] != ids[j]
    requires forall i, j :: 0 <= i < |ids| && 0 <= j < |targets| ==> ids[i] !in targets[j].downtimes
    modifies set t | t in targets
    ensures forall j :: 0 <= j < |targets| ==> Extends(old(targets[j].downtimes), targets[j].downtimes)
    ensures forall i :: 0 <= i < |schedules| && now > 0 && NextSegment(schedules[i].ranges, eval, now).Some? ==>
              HasPending(targets[i].downtimes, schedules[i].name, now)
    ensures forall j, name :: 0 <= j < |targets| && AtMostOnePending(old(targets[j].downtimes), name, now) ==>
              AtMostOnePending(targets[j].downtimes, name, now)
    ensures AddedBySchedules(old(Stores(targets)), Stores(targets), targets, schedules, ids, eval, now, |schedules|)
  {
    for i := 0 to |schedules|
      invariant ExtendsAll(old(Stores(targets)), Stores(targets))
      invariant FreshIds(Stores(targets), ids, i)
      invariant PendingEstablished(Stores(targets), schedules, eval, now, i)
      invariant AtMostOneKept(old(Stores(targets)), Stores(targets), now)
      invariant AddedBySchedules(old(Stores(targets)), Stores(targets), targets, schedules, ids, eval, now, i)
    {
      ghost var prior := Stores(targets);
      CreateNextDowntime(schedules[i], targets[i], eval, now, ids[i]);
      ghost var after := Stores(targets);
      assert PassStepTaken(prior, after, targets, schedules, ids, eval, now, i);
      StepExtends(old(Stores(targets)), prior, after, targets, schedules, ids, eval, now, i);
      StepFreshIds(prior, after, targets, schedules, ids, eval, now, i);
      StepPending(prior, after, targets, schedules, ids, eval, now, i);
      StepAtMostOne(old(Stores(targets)), prior, after, targets, schedules, ids, eval, now, i);
      StepAddedBySchedules(old(Stores(targets)), prior, after, targets, schedules, ids, eval, now, i);
    }
  }
}
