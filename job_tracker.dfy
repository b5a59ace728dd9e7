/**
 * The in-memory job status table of backend/services/jobTrackerService.js
 * and its `trackJob` wrapper: a job is Running while it runs, then OK or
 * Failed with the time of the run and the error message. The wrapped job
 * is represented by its outcome, and the clock by a parameter.
 */
module JobTracker {
  import opened Common

  datatype Status = Idle | Running | OK | Failed

  /** One entry of the table; `lastRun` is a timestamp. */
  datatype JobStatus = JobStatus(status: Status, lastRun: Option<int>, error: Option<string>)

  /** How a run of the wrapped job ended. */
  datatype Outcome = Succeeded | Threw(message: string)

  /** The five scheduled jobs the table starts with. */
  const JobNames: seq<string> := [
    "Intraday Stock Update",
    "Daily Stock Analysis",
    "Daily Performance Update",
    "Monthly Portfolio Creation",
    "Price Alert Checks"
  ]

  const NeverRun := JobStatus(Idle, None, None)

  /** The table at start-up: every known job Idle, never run, no error. */
  function InitialStatuses(): (m: map<string, JobStatus>)
    ensures m.Keys == set i | 0 <= i < |JobNames| :: JobNames[i]
    ensures forall name :: name in m ==> m[name] == NeverRun
  {
    map i | 0 <= i < |JobNames| :: JobNames[i] := NeverRun
  }

  lemma InitialHasFiveJobs()
    ensures |InitialStatuses().Keys| == 5
  {
    var n := JobNames;
    assert InitialStatuses().Keys == {n[0], n[1], n[2], n[3], n[4]};
    assert |n[0]| == 21 && |n[1]| == 20 && |n[2]| == 24 && |n[3]| == 26 && |n[4]| == 18;
    FiveDistinct(n[0], n[1], n[2], n[3], n[4]);
  }

  /** Five pairwise different values make a set of five. */
  lemma FiveDistinct<T>(a: T, b: T, c: T, d: T, e: T)
    requires a != b && a != c && a != d && a != e && b != c && b != d && b != e && c != d && c != e && d != e
    ensures |{a, b, c, d, e}| == 5
  {
    assert |{a, b}| == 2;
    assert |{a, b, c}| == 3 by { assert {a, b, c} == {a, b} + {c}; }
    assert |{a, b, c, d}| == 4 by { assert {a, b, c, d} == {a, b, c} + {d}; }
    assert {a, b, c, d, e} == {a, b, c, d} + {e};
  }

  /** `{ ...jobStatuses[jobName], status: 'Running' }`: an unknown job gets no last run and no error. */
  function Started(statuses: map<string, JobStatus>, jobName: string): (s: JobStatus)
    ensures s.status == Running
    ensures jobName in statuses ==> s.lastRun == statuses[jobName].lastRun && s.error == statuses[jobName].error
    ensures jobName !in statuses ==> s.lastRun.None? && s.error.None?
  {
    if jobName in statuses then statuses[jobName].(status := Running) else JobStatus(Running, None, None)
  }

  /** The entry written when the job returns or throws. */
  function Finished(outcome: Outcome, now: int): (s: JobStatus)
    ensures s.lastRun == Some(now)
    ensures s.status == OK <==> outcome.Succeeded?
    ensures s.status == Failed <==> outcome.Threw?
    ensures outcome.Succeeded? ==> s.error.None?
    ensures outcome.Threw? ==> s.error == Some(outcome.message)
  {
    match outcome
    case Succeeded => JobStatus(OK, Some(now), None)
    case Threw(message) => JobStatus(Failed, Some(now), Some(message))
  }

  /** The table after one wrapped run. */
  function AfterRun(statuses: map<string, JobStatus>, jobName: string, outcome: Outcome, now: int): (r: map<string, JobStatus>)
    ensures r.Keys == statuses.Keys + {jobName}
    ensures forall other :: other in statuses && other != jobName ==> r[other] == statuses[other]
    ensures r[jobName] == Finished(outcome, now)
  {
    statuses[jobName := Started(statuses, jobName)][jobName := Finished(outcome, now)]
  }

  /**
   * A wrapped run changes only its own entry, adds no other job, and
   * leaves that entry OK or Failed with the run's time; the earlier error
   * of a job that now succeeds is cleared.
   */
  lemma RunTouchesOnlyItsJob(statuses: map<string, JobStatus>, jobName: string, outcome: Outcome, now: int)
    ensures var r := AfterRun(statuses, jobName, outcome, now);
      && r.Keys == statuses.Keys + {jobName}
      && (forall other :: other in statuses && other != jobName ==> r[other] == statuses[other])
      && r[jobName].status in {OK, Failed}
      && r[jobName].lastRun == Some(now)
      && (outcome.Succeeded? ==> r[jobName].error.None?)
  {
  }

  /** Two runs of different jobs commute: each entry only sees its own job. */
  lemma RunsOfDifferentJobsCommute(statuses: map<string, JobStatus>, a: string, oa: Outcome, ta: int,
                                   b: string, ob: Outcome, tb: int)
    requires a != b
    ensures AfterRun(AfterRun(statuses, a, oa, ta), b, ob, tb) == AfterRun(AfterRun(statuses, b, ob, tb), a, oa, ta)
  {
    var left := AfterRun(AfterRun(statuses, a, oa, ta), b, ob, tb);
    var right := AfterRun(AfterRun(statuses, b, ob, tb), a, oa, ta);
    assert left.Keys == right.Keys;
    forall k | k in left.Keys ensures left[k] == right[k] {
    }
  }

  class Tracker {
    var statuses: map<string, JobStatus>

    constructor ()
      ensures statuses == InitialStatuses()
    {
      statuses := InitialStatuses();
    }

    /** The wrapper's first write, before the job runs. */
    method Begin(jobName: string)
      modifies this
      ensures statuses == old(statuses)[jobName := Started(old(statuses), jobName)]
    {
      var previous := if jobName in statuses then statuses[jobName] else JobStatus(Idle, None, None);
      if jobName in statuses {
        statuses := statuses[jobName := previous.(status := Running)];
      } else {
        statuses := statuses[jobName := JobStatus(Running, None, None)];
      }
    }

    /** The wrapper's second write; a thrown error is recorded, not passed on. */
    method Complete(jobName: string, outcome: Outcome, now: int)
      modifies this
      ensures statuses == old(statuses)[jobName := Finished(outcome, now)]
    {
      match outcome {
        case Succeeded =>
          statuses := statuses[jobName := JobStatus(OK, Some(now), None)];
        case Threw(message) =>
          statuses := statuses[jobName := JobStatus(Failed, Some(now), Some(message))];
      }
    }

    /** `trackJob(jobName, jobFn)()` with the job's outcome given. */
    method TrackJob(jobName: string, outcome: Outcome, now: int)
      modifies this
      ensures statuses == AfterRun(old(statuses), jobName, outcome, now)
    {
      Begin(jobName);
      Complete(jobName, outcome, now);
    }

    /** `getJobStatuses`: the table itself. */
    function GetJobStatuses(): (m: map<string, JobStatus>)
      reads this
      ensures m == statuses
    {
      statuses
    }
  }
}
