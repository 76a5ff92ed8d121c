/**
 Run rows: written before any work starts, so that a crash leaves a trace, and
 finished once with what the work came to.
 */
module Runs {
  import opened Text
  import opened Wrappers
  import opened Clock

  datatype RunStatus = Running | Ok | Partial | FailedRun

  /** Figures of a run by name, each as JSON text. */
  type Stats = map<string, string>

  datatype Run = Run(
    job: string, startedAt: Time, finishedAt: Option<Time>, status: RunStatus, stats: Stats, error: Option<string>)

  /** The row written before the work. */
  function NewRun(job: string, at: Time): Run {
    Run(job, at, None, Running, map[], None)
  }

  /** A run that has ended. */
  function Closed(r: Run, at: Time, status: RunStatus, stats: Stats, error: Option<string>): Run {
    r.(finishedAt := Some(at), status := status, stats := stats, error := error)
  }

  class RunContext {
    const runId: string
    var stats: Stats
    var partial: bool
    var errors: seq<string>

    constructor (runId: string)
      ensures this.runId == runId && stats == map[] && !partial && errors == []
    {
      this.runId := runId;
      stats, partial, errors := map[], false, [];
    }

    /** Partial exactly when some failure was noted. */
    predicate Valid()
      reads this
    {
      partial <==> errors != []
    }

    method MarkPartial(message: string)
      modifies this
      ensures Valid() && errors == old(errors) + [message] && stats == old(stats)
    {
      partial := true;
      errors := errors + [message];
    }

    /** The rows after the work: `raised` is the exception that ended it, if one did. A row that is gone stays gone. */
    method Finish(runs: map<string, Run>, now: Time, raised: Option<string>) returns (after: map<string, Run>)
      requires Valid()
      ensures runId !in runs ==> after == runs
      ensures runId in runs ==> runId in after && after == runs[runId := after[runId]]
      ensures runId in runs ==>
                var was, done := runs[runId], after[runId];
                && done.job == was.job && done.startedAt == was.startedAt
                && done.finishedAt == Some(now) && done.stats == stats && done.status != Running
                && (done.status == FailedRun <==> raised.Some?)
                && (done.status == Ok <==> raised.None? && errors == [])
                && (raised.Some? ==> done.error == raised)
                && done == Closed(was, now, done.status, stats, done.error)
                && (raised.None? ==> done.error == if Join(errors) == "" then None else Some(Join(errors)))
    {
      var status, error := FailedRun, raised;
      if raised.None? {
        var text := Join(errors);
        status := if partial then Partial else Ok;
        error := if text == "" then None else Some(text);
      }
      if runId !in runs {
        return runs;
      }
      var run := runs[runId];
      after := runs[runId := run.(finishedAt := Some(now), status := status, stats := stats, error := error)];
    }
  }
}
