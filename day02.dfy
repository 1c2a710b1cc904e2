/**
 * Day 2: reports of levels. A report is safe when its levels move strictly in one direction,
 * set by the first two levels, and adjacent levels differ by at most 3. With tolerance, a report
 * also counts when deleting one level makes it safe.
 * Each report is given already split into its integers.
 */
module Day02 {
  import opened Common

  /** One adjacent step from a to b is acceptable in the given direction. */
  predicate GoodStep(a: int, b: int, increasing: bool)
  {
    (if increasing then a < b else a > b) && a - b <= 3 && b - a <= 3
  }

  /** The safety rule stated directly: a strict first step fixes the direction that every step keeps. */
  predicate SafeSpec(levels: seq<int>)
  {
    |levels| < 2 ||
    (levels[0] != levels[1] &&
     forall k :: 1 <= k < |levels| ==> GoodStep(levels[k - 1], levels[k], levels[0] < levels[1]))
  }

  /** The loop of isReportSafe from index i on: every step from i to the end is acceptable. */
  function StepsFrom(levels: seq<int>, increasing: bool, i: nat): bool
    requires 1 <= i
    decreases |levels| - i
  {
    if i >= |levels| then true
    else if (increasing && levels[i - 1] >= levels[i]) || (!increasing && levels[i - 1] <= levels[i]) then false
    else if levels[i - 1] - levels[i] > 3 || levels[i - 1] - levels[i] < -3 then false
    else StepsFrom(levels, increasing, i + 1)
  }

  lemma {:induction false} StepsFromMeans(levels: seq<int>, increasing: bool, i: nat)
    requires 1 <= i
    ensures StepsFrom(levels, increasing, i)
        <==> forall k :: i <= k < |levels| ==> GoodStep(levels[k - 1], levels[k], increasing)
    decreases |levels| - i
  {
    if i < |levels| {
      StepsFromMeans(levels, increasing, i + 1);
    }
  }

  /**
   * isReportSafe with the evidently intended behaviour on reports of fewer than two levels:
   * such a report has no step that could be wrong, so it is safe.
   */
  function IsReportSafe(levels: seq<int>): (r: bool)
    ensures |levels| >= 2 && levels[0] == levels[1] ==> !r
  {
    if |levels| < 2 then true
    else if levels[0] < levels[1] then StepsFrom(levels, true, 1)
    else if levels[0] > levels[1] then StepsFrom(levels, false, 1)
    else false
  }

  /** isReportSafe holds exactly when the report meets the safety rule. */
  lemma IsReportSafeMeans(levels: seq<int>)
    ensures IsReportSafe(levels) <==> SafeSpec(levels)
  {
    if |levels| >= 2 {
      StepsFromMeans(levels, levels[0] < levels[1], 1);
    }
  }

  /**
   * isReportSafe as written: it reads levels[1] first, so a report of fewer than two levels
   * makes it fail with an index out of range (None); otherwise it answers like IsReportSafe.
   */
  function IsReportSafeAsWritten(levels: seq<int>): (r: Option<bool>)
    ensures r.None? <==> |levels| < 2
    ensures r.Some? ==> r.value == IsReportSafe(levels)
  {
    if |levels| < 2 then None
    else if levels[0] < levels[1] then Some(StepsFrom(levels, true, 1))
    else if levels[0] > levels[1] then Some(StepsFrom(levels, false, 1))
    else Some(false)
  }

  /** The report with the level at index j deleted, as slices.Delete on a clone leaves it. */
  function Delete(levels: seq<int>, j: nat): (r: seq<int>)
    requires j < |levels|
    ensures |r| == |levels| - 1
    ensures forall k :: 0 <= k < j ==> r[k] == levels[k]
    ensures forall k :: j <= k < |r| ==> r[k] == levels[k + 1]
  {
    levels[..j] + levels[j + 1..]
  }

  /** A report counts in part 2 when it is safe, or some single deletion makes it safe. */
  predicate Tolerable(levels: seq<int>)
  {
    IsReportSafe(levels) || exists j :: 0 <= j < |levels| && IsReportSafe(Delete(levels, j))
  }

  /**
   * The part 2 decision for one report as written: None when some isReportSafe call
   * along the way fails on a report of fewer than two levels.
   */
  function TolerableAsWritten(levels: seq<int>): (r: Option<bool>)
  {
    match IsReportSafeAsWritten(levels)
    case None => None
    case Some(true) => Some(true)
    case Some(false) => DeletionsAsWritten(levels, 0)
  }

  /** The deletion loop of computeSafeReportsWithTolerance from index j on, as written. */
  function DeletionsAsWritten(levels: seq<int>, j: nat): (r: Option<bool>)
    decreases |levels| - j
  {
    if j >= |levels| then Some(false)
    else match IsReportSafeAsWritten(Delete(levels, j))
      case None => None
      case Some(true) => Some(true)
      case Some(false) => DeletionsAsWritten(levels, j + 1)
  }

  /** The unsafe two-level report "5 5" makes the tolerance loop call isReportSafe on one level. */
  lemma TolerableAsWrittenFailsOnTwoEqualLevels()
    ensures TolerableAsWritten([5, 5]) == None
    ensures Tolerable([5, 5])
  {
    assert Delete([5, 5], 0) == [5];
  }

  /** Wherever the code as written does not fail, it agrees with the corrected decision. */
  lemma TolerableAsWrittenAgrees(levels: seq<int>)
    requires TolerableAsWritten(levels).Some?
    ensures TolerableAsWritten(levels).value == Tolerable(levels)
  {
    if !IsReportSafe(levels) {
      DeletionsAgree(levels, 0);
    }
  }

  lemma {:induction false} DeletionsAgree(levels: seq<int>, j: nat)
    requires DeletionsAsWritten(levels, j).Some?
    ensures DeletionsAsWritten(levels, j).value
        <==> exists k :: j <= k < |levels| && IsReportSafe(Delete(levels, k))
    decreases |levels| - j
  {
    if j < |levels| && !IsReportSafe(Delete(levels, j)) {
      DeletionsAgree(levels, j + 1);
      if exists k :: j <= k < |levels| && IsReportSafe(Delete(levels, k)) {
        var k :| j <= k < |levels| && IsReportSafe(Delete(levels, k));
        assert k != j;
      }
    }
  }

  /** Dropping the last level of a safe report leaves a safe report. */
  lemma SafeWithoutLast(levels: seq<int>)
    requires |levels| >= 1 && IsReportSafe(levels)
    ensures IsReportSafe(Delete(levels, |levels| - 1))
  {
    var shorter := Delete(levels, |levels| - 1);
    IsReportSafeMeans(levels);
    IsReportSafeMeans(shorter);
    if |shorter| >= 2 {
      assert shorter[0] == levels[0] && shorter[1] == levels[1];
      forall k | 1 <= k < |shorter|
        ensures GoodStep(shorter[k - 1], shorter[k], shorter[0] < shorter[1])
      {
        assert GoodStep(levels[k - 1], levels[k], levels[0] < levels[1]);
      }
    }
  }

  /** So part 2 is the same as "safe after deleting some level", for every non-empty report. */
  lemma TolerableMeansSomeDeletion(levels: seq<int>)
    requires |levels| >= 1
    ensures Tolerable(levels) <==> exists j :: 0 <= j < |levels| && IsReportSafe(Delete(levels, j))
  {
    if IsReportSafe(levels) {
      SafeWithoutLast(levels);
    }
  }

  // ---------------------------------------------------------------------------------------
  // The counting loops
  // ---------------------------------------------------------------------------------------

  /** The number of safe reports. */
  function CountSafe(reports: seq<seq<int>>): (r: nat)
    ensures r <= |reports|
  {
    if reports == [] then 0
    else CountSafe(reports[..|reports| - 1]) + (if IsReportSafe(reports[|reports| - 1]) then 1 else 0)
  }

  /** The number of reports that are safe after deleting at most one level. */
  function CountTolerable(reports: seq<seq<int>>): (r: nat)
    ensures r <= |reports|
  {
    if reports == [] then 0
    else CountTolerable(reports[..|reports| - 1]) + (if Tolerable(reports[|reports| - 1]) then 1 else 0)
  }

  /**
   * The part 1 count as written: None when some report has fewer than two levels, since the
   * loop hands every report to isReportSafe, which then indexes past the end.
   */
  function CountSafeAsWritten(reports: seq<seq<int>>): (r: Option<nat>)
  {
    if reports == [] then Some(0)
    else match (CountSafeAsWritten(reports[..|reports| - 1]), IsReportSafeAsWritten(reports[|reports| - 1]))
      case (Some(n), Some(b)) => Some(n + if b then 1 else 0)
      case _ => None
  }

  /** The part 1 count as written fails exactly on a short report, and otherwise counts like CountSafe. */
  lemma {:induction false} CountSafeAsWrittenAgrees(reports: seq<seq<int>>)
    ensures CountSafeAsWritten(reports).None? <==> exists k :: 0 <= k < |reports| && |reports[k]| < 2
    ensures CountSafeAsWritten(reports).Some? ==> CountSafeAsWritten(reports).value == CountSafe(reports)
  {
    if reports != [] {
      var front := reports[..|reports| - 1];
      CountSafeAsWrittenAgrees(front);
      if exists k :: 0 <= k < |front| && |front[k]| < 2 {
        var k :| 0 <= k < |front| && |front[k]| < 2;
        assert reports[k] == front[k];
      }
      if exists k :: 0 <= k < |reports| && |reports[k]| < 2 {
        var k :| 0 <= k < |reports| && |reports[k]| < 2;
        if k < |front| {
          assert front[k] == reports[k];
        }
      }
    }
  }

  /**
   * A one-level report such as "7" has no step that could be wrong, so it is safe; as written,
   * both parts fail on it at the first isReportSafe call.
   */
  lemma OneLevelReportFailsAsWritten()
    ensures CountSafeAsWritten([[7]]) == None && CountSafe([[7]]) == 1
    ensures TolerableAsWritten([7]) == None && Tolerable([7])
  {
    assert [[7]][..0] == [];
  }

  /** Every report counted without tolerance is also counted with it. */
  lemma {:induction false} SafeCountAtMostTolerableCount(reports: seq<seq<int>>)
    ensures CountSafe(reports) <= CountTolerable(reports) <= |reports|
  {
    if reports != [] {
      SafeCountAtMostTolerableCount(reports[..|reports| - 1]);
    }
  }

  method ComputeSafeReports(reports: seq<seq<int>>) returns (sum: nat)
    ensures sum == CountSafe(reports)
  {
    sum := 0;
    for i := 0 to |reports|
      invariant sum == CountSafe(reports[..i])
    {
      assert reports[..i + 1][..i] == reports[..i];
      if IsReportSafe(reports[i]) {
        sum := sum + 1;
      }
    }
    assert reports[..|reports|] == reports;
  }

  method ComputeSafeReportsWithTolerance(reports: seq<seq<int>>) returns (sum: nat)
    ensures sum == CountTolerable(reports)
  {
    sum := 0;
    for i := 0 to |reports|
      invariant sum == CountTolerable(reports[..i])
    {
      assert reports[..i + 1][..i] == reports[..i];
      var levels := reports[i];
      if IsReportSafe(levels) {
        sum := sum + 1;
      } else {
        var j := 0;
        while j < |levels|
          invariant 0 <= j <= |levels|
          invariant forall k :: 0 <= k < j ==> !IsReportSafe(Delete(levels, k))
        {
          var levelsWithoutBadIndex := levels[..j] + levels[j + 1..];
          assert levelsWithoutBadIndex == Delete(levels, j);
          if IsReportSafe(levelsWithoutBadIndex) {
            sum := sum + 1;
            break;
          }
          j := j + 1;
        }
      }
    }
    assert reports[..|reports|] == reports;
  }
}
