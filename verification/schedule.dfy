/** The weekly re-windowing of a table: consecutive one-week windows from
    the start time until one week past the end time. */
module Schedule {
  import opened Clock

  /** Weekly occurrences `t, t + 1 week, ...` up to and including `until`. */
  function Occurrences(t: Instant, until: Instant): (occ: seq<Instant>)
    ensures forall k :: 0 <= k < |occ| ==> occ[k] == t + k * Week
    ensures |occ| > 0 ==> occ[|occ| - 1] <= until < occ[|occ| - 1] + Week
    ensures |occ| == 0 <==> t > until
    decreases until - t + Week
  {
    if t > until then [] else [t] + Occurrences(t + Week, until)
  }

  /** The loop over the occurrences: one that equals the previous boundary
      is skipped, every other one closes the window `[previous, occurrence)`. */
  function WeeklyLoop(previous: Instant, occ: seq<Instant>): seq<Window>
    decreases |occ|
  {
    if occ == [] then []
    else if occ[0] == previous then WeeklyLoop(previous, occ[1..])
    else [Window(previous, occ[0])] + WeeklyLoop(occ[0], occ[1..])
  }

  /** The windows a weekly-rule table is synced in, given the bookmark or
      configured start and the run's end time. */
  function WeeklyWindows(start: Instant, end: Instant): seq<Window>
  {
    WeeklyLoop(start, Occurrences(start, end + Week))
  }

  lemma {:induction false} WeeklyLoopOfSteps(previous: Instant, occ: seq<Instant>)
    requires forall k :: 0 <= k < |occ| ==> occ[k] == previous + (k + 1) * Week
    ensures |WeeklyLoop(previous, occ)| == |occ|
    ensures forall k :: 0 <= k < |occ| ==>
              WeeklyLoop(previous, occ)[k] == Window(previous + k * Week, previous + (k + 1) * Week)
    decreases |occ|
  {
    if occ != [] {
      assert occ[0] == previous + Week;
      forall k | 0 <= k < |occ| - 1 ensures occ[1..][k] == occ[0] + (k + 1) * Week {
        assert occ[k + 1] == previous + (k + 2) * Week;
      }
      WeeklyLoopOfSteps(occ[0], occ[1..]);
      var ws := WeeklyLoop(previous, occ);
      forall k | 0 <= k < |occ|
        ensures ws[k] == Window(previous + k * Week, previous + (k + 1) * Week)
      {
        if k > 0 {
          assert ws[k] == WeeklyLoop(occ[0], occ[1..])[k - 1];
        }
      }
    }
  }

  /** Window `k` is `[start + k weeks, start + (k+1) weeks)`; there is one
      window per week boundary after `start` up to one week past `end`. */
  lemma WeeklyWindowsShape(start: Instant, end: Instant)
    ensures var ws := WeeklyWindows(start, end);
            && (forall k :: 0 <= k < |ws| ==> ws[k] == Window(start + k * Week, start + (k + 1) * Week))
            && (start <= end ==> |ws| > 0 && end < ws[|ws| - 1].end <= end + Week)
            && (start > end ==> ws == [])
  {
    var occ := Occurrences(start, end + Week);
    if occ != [] {
      assert occ[0] == start;
      forall k | 0 <= k < |occ| - 1 ensures occ[1..][k] == start + (k + 1) * Week {
        assert occ[k + 1] == start + (k + 1) * Week;
      }
      WeeklyLoopOfSteps(start, occ[1..]);
      if start > end {
        assert |occ| == 1;
      }
    }
  }

  /** Consecutive windows share their boundary, so together they cover
      `[start, last end)` without gap or overlap. */
  lemma WeeklyWindowsContiguous(start: Instant, end: Instant)
    ensures var ws := WeeklyWindows(start, end);
            && (|ws| > 0 ==> ws[0].start == start)
            && (forall k :: 0 <= k < |ws| - 1 ==> ws[k].end == ws[k + 1].start)
            && (forall k :: 0 <= k < |ws| ==> ws[k].end - ws[k].start == Week)
  {
    WeeklyWindowsShape(start, end);
  }
}
