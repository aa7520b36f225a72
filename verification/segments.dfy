/**
 * Selection of the next downtime segment of a scheduled downtime: every
 * rule of its `ranges` dictionary is evaluated against the current time,
 * candidates that begin in the past are dropped, and the candidate with
 * the earliest begin wins, the first one in iteration order on a tie.
 */
module Segments {
  import opened Wrappers

  /** One entry of the `ranges` dictionary: a day specification and its time ranges. */
  datatype Rule = Rule(key: string, value: string)

  /** A concrete time segment, timestamps in whole seconds. */
  datatype Segment = Segment(begin: int, end: int)

  /**
   * The recurring time-range evaluator, applied to a rule key, a rule value
   * and the reference time; `None` when the rule yields no segment.
   */
  type Evaluator = (string, string, int) -> Option<Segment>

  /** The evaluator's answer for the `j`-th rule. */
  function Candidate(ranges: seq<Rule>, eval: Evaluator, now: int, j: int): Option<Segment>
    requires 0 <= j < |ranges|
  {
    eval(ranges[j].key, ranges[j].value, now)
  }

  /** A candidate that exists and does not begin before `now`. */
  predicate Eligible(c: Option<Segment>, now: int)
  {
    c.Some? && c.value.begin >= now
  }

  /**
   * The segment the selection loop holds after visiting all of `ranges`:
   * the last rule replaces the best so far only when it is eligible and
   * begins strictly earlier.
   */
  function NextSegment(ranges: seq<Rule>, eval: Evaluator, now: int): (best: Option<Segment>)
    ensures best.Some? ==> best.value.begin >= now
    decreases |ranges|
  {
    if ranges == [] then None
    else
      var best := NextSegment(ranges[..|ranges| - 1], eval, now);
      var c := Candidate(ranges, eval, now, |ranges| - 1);
      if Eligible(c, now) && (best.None? || c.value.begin < best.value.begin) then c else best
  }

  /**
   * Rule `k` is the one to select: its candidate is eligible, begins no
   * later than any eligible candidate, and strictly earlier than every
   * eligible candidate of an earlier rule.
   */
  ghost predicate IsFirstMinimal(ranges: seq<Rule>, eval: Evaluator, now: int, k: int)
  {
    && 0 <= k < |ranges|
    && Eligible(Candidate(ranges, eval, now, k), now)
    && (forall j :: 0 <= j < |ranges| && Eligible(Candidate(ranges, eval, now, j), now) ==>
          Candidate(ranges, eval, now, k).value.begin <= Candidate(ranges, eval, now, j).value.begin)
    && (forall j :: 0 <= j < k && Eligible(Candidate(ranges, eval, now, j), now) ==>
          Candidate(ranges, eval, now, k).value.begin < Candidate(ranges, eval, now, j).value.begin)
  }

  /**
   * The selection is exactly "first minimal eligible candidate": there is no
   * segment iff no rule yields an eligible candidate, and otherwise the
   * segment is the evaluator's result for a rule `k` that is first minimal.
   */
  lemma {:induction false} NextSegmentIsFirstMinimal(ranges: seq<Rule>, eval: Evaluator, now: int)
    returns (k: int)
    ensures NextSegment(ranges, eval, now).None? <==>
              forall j :: 0 <= j < |ranges| ==> !Eligible(Candidate(ranges, eval, now, j), now)
    ensures NextSegment(ranges, eval, now).Some? ==>
              IsFirstMinimal(ranges, eval, now, k) &&
              NextSegment(ranges, eval, now) == Candidate(ranges, eval, now, k)
    decreases |ranges|
  {
    if ranges == [] {
      k := 0;
    } else {
      var n := |ranges| - 1;
      var prefix := ranges[..n];
      var k' := NextSegmentIsFirstMinimal(prefix, eval, now);
      forall j | 0 <= j < n
        ensures Candidate(prefix, eval, now, j) == Candidate(ranges, eval, now, j)
      {
        assert prefix[j] == ranges[j];
      }
      var best := NextSegment(prefix, eval, now);
      var c := Candidate(ranges, eval, now, n);
      if Eligible(c, now) && (best.None? || c.value.begin < best.value.begin) {
        k := n;
      } else {
        k := k';
      }
    }
  }

  /** Conversely, whenever rule `k` is first minimal, it is the one selected. */
  lemma FirstMinimalIsSelected(ranges: seq<Rule>, eval: Evaluator, now: int, k: int)
    requires IsFirstMinimal(ranges, eval, now, k)
    ensures NextSegment(ranges, eval, now) == Candidate(ranges, eval, now, k)
  {
    var k' := NextSegmentIsFirstMinimal(ranges, eval, now);
    // Two first-minimal rules would each begin strictly before the other.
    if k' != k {
      assert false;
    }
  }

  /**
   * The `(begin, end)` pair the source returns, with `(0, 0)` standing for
   * "no segment"; the sentinel can only be confused with a real segment
   * that itself is `(0, 0)`.
   */
  function SegmentPair(s: Option<Segment>): (pair: (int, int))
    ensures pair == (0, 0) <==> s.None? || s.value == Segment(0, 0)
  {
    match s
    case Some(seg) => (seg.begin, seg.end)
    case None => (0, 0)
  }

  /**
   * ScheduledDowntime::FindNextSegment: one pass over `ranges` keeping the
   * best eligible segment and its begin. The result is the selected segment
   * as a pair, and the `(0, 0)` sentinel cannot be mistaken for a real
   * segment once `now` is positive.
   */
  method FindNextSegment(ranges: seq<Rule>, eval: Evaluator, now: int) returns (first: int, second: int)
    ensures (first, second) == SegmentPair(NextSegment(ranges, eval, now))
    ensures (first, second) != (0, 0) ==> first >= now
    ensures now > 0 ==> ((first, second) == (0, 0) <==> NextSegment(ranges, eval, now).None?)
  {
    var bestSegment: Option<Segment> := None;
    var bestBegin: int := 0;
    for i := 0 to |ranges|
      invariant bestSegment == NextSegment(ranges[..i], eval, now)
      invariant bestSegment.Some? ==> bestBegin == bestSegment.value.begin
    {
      assert ranges[..i + 1][..i] == ranges[..i];
      assert ranges[..i + 1][i] == ranges[i];
      var segment := eval(ranges[i].key, ranges[i].value, now);
      if segment.None? {
        continue;
      }
      var begin := segment.value.begin;
      if begin < now {
        continue;
      }
      if bestSegment.None? || begin < bestBegin {
        bestSegment := segment;
        bestBegin := begin;
      }
    }
    assert ranges[..|ranges|] == ranges;
    if bestSegment.Some? {
      first, second := bestSegment.value.begin, bestSegment.value.end;
    } else {
      first, second := 0, 0;
    }
  }
}
