/** `check_tasks` of censo_qm/utilities.py: decides from the success flags of
    the finished jobs whether the run goes on silently, with a warning, or exits. */
module Triage {

  /** What `check_tasks` does: `sys.exit(1)`, a printed warning with the failure
      rate, or nothing. */
  datatype Verdict = Exit | Warn(failRate: real) | Silent

  /** The number of failed jobs among the success flags. */
  function Failures(results: seq<bool>): (n: nat)
    ensures n <= |results|
  {
    if |results| == 0 then 0
    else Failures(results[..|results| - 1]) + (if results[|results| - 1] then 0 else 1)
  }

  /** `float(counter) / float(len(results))`. */
  function FailRate(results: seq<bool>): (r: real)
    requires |results| > 0
    ensures 0.0 <= r <= 1.0
  {
    Failures(results) as real / |results| as real
  }

  /** The decision of `check_tasks(results, check, thresh)`: with no results the
      division by zero exits; a failure rate of at least `thresh` exits when
      `check` is set and warns otherwise; below it nothing happens. */
  function TaskVerdict(results: seq<bool>, check: bool, thresh: real): Verdict
  {
    if |results| == 0 then Exit
    else
      var rate := FailRate(results);
      if rate >= thresh && check then Exit
      else if rate >= thresh then Warn(rate)
      else Silent
  }

  /** `check_tasks(results, check, thresh)`, counting the failures in a loop. */
  method CheckTasks(results: seq<bool>, check: bool, thresh: real) returns (v: Verdict)
    ensures v == TaskVerdict(results, check, thresh)
  {
    var counter := 0;
    for i := 0 to |results|
      invariant counter == Failures(results[..i])
    {
      assert results[..i + 1][..i] == results[..i];
      if !results[i] {
        counter := counter + 1;
      }
    }
    assert results[..|results|] == results;
    if |results| == 0 {
      return Exit;
    }
    var failRate := counter as real / |results| as real;
    if failRate >= thresh && check {
      v := Exit;
    } else if failRate >= thresh {
      v := Warn(failRate);
    } else {
      v := Silent;
    }
  }

  /** How bad a verdict is. */
  function Severity(v: Verdict): nat
  {
    match v
    case Silent => 0
    case Warn(_) => 1
    case Exit => 2
  }

  /** A job that failed in `a` also failed in `b`. */
  predicate FailsWherever(a: seq<bool>, b: seq<bool>)
  {
    |a| == |b| && forall i :: 0 <= i < |a| && !a[i] ==> !b[i]
  }

  lemma {:induction false} FailuresMonotone(a: seq<bool>, b: seq<bool>)
    requires FailsWherever(a, b)
    ensures Failures(a) <= Failures(b)
  {
    if |a| > 0 {
      var n := |a| - 1;
      assert FailsWherever(a[..n], b[..n]) by {
        forall i | 0 <= i < n && !a[..n][i]
          ensures !b[..n][i]
        {
          assert a[..n][i] == a[i];
        }
      }
      FailuresMonotone(a[..n], b[..n]);
    }
  }

  lemma DivideMonotone(x: real, y: real, d: real)
    requires x <= y && d > 0.0
    ensures x / d <= y / d
  {
    assert y / d - x / d == (y - x) / d;
  }

  /** More failures never give a milder verdict. */
  lemma MoreFailuresNoMilder(a: seq<bool>, b: seq<bool>, check: bool, thresh: real)
    requires FailsWherever(a, b)
    ensures Severity(TaskVerdict(a, check, thresh)) <= Severity(TaskVerdict(b, check, thresh))
  {
    if |a| > 0 {
      FailuresMonotone(a, b);
      DivideMonotone(Failures(a) as real, Failures(b) as real, |a| as real);
    }
  }

  /** At least a fraction `thresh` of the jobs failed, stated without division. */
  predicate ReachesThreshold(results: seq<bool>, thresh: real)
  {
    (Failures(results) as real) >= thresh * (|results| as real)
  }

  /** Exiting, warning and silence, each exactly when the source decides it. */
  lemma VerdictCases(results: seq<bool>, check: bool, thresh: real)
    ensures TaskVerdict(results, check, thresh) == Exit
            <==> |results| == 0 || (check && ReachesThreshold(results, thresh))
    ensures TaskVerdict(results, check, thresh).Warn?
            <==> |results| > 0 && !check && ReachesThreshold(results, thresh)
    ensures TaskVerdict(results, check, thresh) == Silent
            <==> |results| > 0 && !ReachesThreshold(results, thresh)
  {
    if |results| > 0 {
      var f, n := Failures(results) as real, |results| as real;
      assert FailRate(results) == f / n;
      RateAtLeast(f, n, thresh);
      assert FailRate(results) >= thresh <==> ReachesThreshold(results, thresh);
      VerdictByRate(results, check, thresh);
    }
  }

  /** With at least one result, the verdict is decided by the failure rate alone. */
  lemma VerdictByRate(results: seq<bool>, check: bool, thresh: real)
    requires |results| > 0
    ensures TaskVerdict(results, check, thresh) == Exit <==> check && FailRate(results) >= thresh
    ensures TaskVerdict(results, check, thresh).Warn? <==> !check && FailRate(results) >= thresh
    ensures TaskVerdict(results, check, thresh) == Silent <==> FailRate(results) < thresh
  {
  }

  lemma RateAtLeast(f: real, n: real, thresh: real)
    requires n > 0.0
    ensures f / n >= thresh <==> f >= thresh * n
  {
    assert f / n * n == f;
    if f / n >= thresh {
      assert f / n * n >= thresh * n;
    } else {
      assert f / n * n < thresh * n;
    }
  }

  /** Two failures out of five reach a threshold of 0.25 and exit with `check`;
      one failure out of five stays silent. */
  lemma FiveJobs()
    ensures TaskVerdict([false, false, true, true, true], true, 0.25) == Exit
    ensures TaskVerdict([false, true, true, true, true], true, 0.25) == Silent
  {
    var a1 := [false];
    var a2 := a1 + [false];
    var a3 := a2 + [true];
    var a4 := a3 + [true];
    var a5 := a4 + [true];
    assert a2[..1] == a1 && a3[..2] == a2 && a4[..3] == a3 && a5[..4] == a4;
    assert Failures(a1) == 1 && Failures(a2) == 2 && Failures(a3) == 2 && Failures(a4) == 2;
    assert Failures(a5) == 2 && a5 == [false, false, true, true, true];
    var b2 := a1 + [true];
    var b3 := b2 + [true];
    var b4 := b3 + [true];
    var b5 := b4 + [true];
    assert b2[..1] == a1 && b3[..2] == b2 && b4[..3] == b3 && b5[..4] == b4;
    assert Failures(b2) == 1 && Failures(b3) == 1 && Failures(b4) == 1;
    assert Failures(b5) == 1 && b5 == [false, true, true, true, true];
  }
}
