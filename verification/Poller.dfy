// `report_job` and `poll_until_done`: watching jobs until none is in progress.

module Poller {
  import opened Wrappers

  datatype Status =
    | Requested | Initiated | Successful | Failed | Error | FailedInit | FailedValidate | FailedPlan
    | FailedShowPlan | FailedOutput | FailedPrepare | FailedIntegrityCheck | FailedPolicy
    | WaitingOnDependency | HasDependants | FailedGraph

  predicate IsFinal(s: Status) { s != Requested && s != Initiated }

  datatype Deployment = Deployment(status: Status, errorText: string, details: string)

  // One look at a job.
  datatype Observation = Observation(jobId: string, inProgress: bool, deployment: Option<Deployment>) {
    // A missing deployment counts as started or failed.
    function Status(): Status {
      if deployment.Some? then deployment.value.status else if inProgress then Initiated else Failed
    }

    predicate Fails() { IsFinal(Status()) && Status() != Successful }

    // The error a failure reports, if it has a text.
    predicate Reports(e: string) {
      Fails() && deployment.Some? && deployment.value.errorText == e && e != ""
    }
  }

  datatype Print = Running(jobId: string) | Finished(jobId: string, failed: bool)

  // -- What the observations so far add up to ------------------------------------------------

  type History = seq<Observation>

  // A job is recorded when first seen and again when first seen final.
  function Record(was: Option<Status>, seen: Status): Option<Status> {
    if was.None? || (!IsFinal(was.value) && IsFinal(seen)) then Some(seen) else was
  }

  function Recorded(h: History, jobId: string): Option<Status> {
    if h == [] then None
    else
      var was := Recorded(h[..|h| - 1], jobId);
      var o := h[|h| - 1];
      if o.jobId == jobId then Record(was, o.Status()) else was
  }

  function WithError(was: seq<string>, o: Observation): seq<string> {
    if o.Fails() && o.deployment.Some? && o.deployment.value.errorText != "" && o.deployment.value.errorText !in was
    then was + [o.deployment.value.errorText]
    else was
  }

  function Errors(h: History): seq<string> {
    if h == [] then [] else WithError(Errors(h[..|h| - 1]), h[|h| - 1])
  }

  // What an observation prints, given what was recorded of its job.
  function PrintOf(was: Option<Status>, o: Observation): seq<Print> {
    if !IsFinal(o.Status()) then if was.None? then [Running(o.jobId)] else []
    else if was.Some? && IsFinal(was.value) then []
    else [Finished(o.jobId, o.Fails())]
  }

  function Printed(h: History): seq<Print> {
    if h == [] then []
    else
      var o := h[|h| - 1];
      Printed(h[..|h| - 1]) + PrintOf(Recorded(h[..|h| - 1], o.jobId), o)
  }

  predicate FinalRecorded(h: History, jobId: string) {
    Recorded(h, jobId).Some? && IsFinal(Recorded(h, jobId).value)
  }

  // Quiet runs print failures only.
  function Shown(prints: seq<Print>, quiet: bool): seq<Print> {
    if prints == [] then []
    else
      var p := prints[|prints| - 1];
      Shown(prints[..|prints| - 1], quiet) + (if !quiet || (p.Finished? && p.failed) then [p] else [])
  }

  // -- The reporter ----------------------------------------------------------------------------

  class JobReporter {
    const quiet: bool
    var lastStatus: map<string, Status>
    var failureErrors: seq<string>
    var output: seq<Print>
    ghost var history: History

    constructor (quiet: bool)
      ensures this.quiet == quiet && history == [] && Valid()
    {
      this.quiet := quiet;
      lastStatus := map[];
      failureErrors := [];
      output := [];
      history := [];
    }

    ghost predicate Valid()
      reads this
    {
      && (forall j :: Recorded(history, j) == if j in lastStatus then Some(lastStatus[j]) else None)
      && failureErrors == Errors(history)
      && output == Shown(Printed(history), quiet)
    }

    // `report_job`
    method ReportJob(inProgress: bool, jobId: string, deployment: Option<Deployment>) returns (failed: bool)
      requires Valid()
      modifies this
      ensures Valid()
      ensures
        var o := Observation(jobId, inProgress, deployment);
        history == old(history) + [o] && failed == o.Fails()
    {
      hide Recorded, Errors, Printed, Shown;
      ghost var o := Observation(jobId, inProgress, deployment);
      var observed := if deployment.Some? then deployment.value.status else if inProgress then Initiated else Failed;
      OneMore(history, o, quiet);
      history := history + [o];

      if !IsFinal(observed) {
        NoteRunning(jobId, observed);
        return false;
      }
      failed := NoteFinal(jobId, deployment, observed);
    }

    // A job that has not ended is announced and recorded when first seen.
    method NoteRunning(jobId: string, observed: Status)
      requires !IsFinal(observed)
      modifies this`lastStatus, this`output
      ensures
        var was := if jobId in old(lastStatus) then Some(old(lastStatus)[jobId]) else None;
        && lastStatus == old(lastStatus)[jobId := Record(was, observed).value]
        && output == old(output) + ShownOnly(if was.None? then [Running(jobId)] else [], quiet)
    {
      if jobId !in lastStatus {
        if !quiet {
          output := output + [Running(jobId)];
        }
        lastStatus := lastStatus[jobId := observed];
      }
    }

    // A job that has ended: collect its error, announce and record it once.
    method NoteFinal(jobId: string, deployment: Option<Deployment>, observed: Status) returns (failed: bool)
      requires IsFinal(observed)
      requires observed == if deployment.Some? then deployment.value.status else Failed
      modifies this`lastStatus, this`output, this`failureErrors
      ensures failed == (observed != Successful)
      ensures
        var was := if jobId in old(lastStatus) then Some(old(lastStatus)[jobId]) else None;
        && lastStatus == old(lastStatus)[jobId := Record(was, observed).value]
        && failureErrors == WithError(old(failureErrors), Observation(jobId, false, deployment))
        && output == old(output) + ShownOnly(PrintOf(was, Observation(jobId, false, deployment)), quiet)
    {
      failed := deployment.None? || deployment.value.status != Successful;
      if failed && deployment.Some? && deployment.value.errorText != "" {
        if deployment.value.errorText !in failureErrors {
          failureErrors := failureErrors + [deployment.value.errorText];
        }
      }
      var alreadyFinal := jobId in lastStatus && IsFinal(lastStatus[jobId]);
      if !alreadyFinal {
        if failed || !quiet {
          output := output + [Finished(jobId, failed)];
        }
        lastStatus := lastStatus[jobId := observed];
      }
    }
  }

  lemma OneMore(h: History, o: Observation, quiet: bool)
    ensures forall j ::
      Recorded(h + [o], j) == if o.jobId == j then Record(Recorded(h, j), o.Status()) else Recorded(h, j)
    ensures Errors(h + [o]) == WithError(Errors(h), o)
    ensures Shown(Printed(h + [o]), quiet) ==
      Shown(Printed(h), quiet) + ShownOnly(PrintOf(Recorded(h, o.jobId), o), quiet)
  {
    assert (h + [o])[..|h|] == h;
    ShowOneMore(Printed(h), PrintOf(Recorded(h, o.jobId), o), quiet);
  }

  // Showing at most one print.
  function ShownOnly(prints: seq<Print>, quiet: bool): seq<Print> {
    if prints != [] && (!quiet || (prints[0].Finished? && prints[0].failed)) then prints else []
  }

  lemma ShowOneMore(before: seq<Print>, more: seq<Print>, quiet: bool)
    requires |more| <= 1
    ensures Shown(before + more, quiet) == Shown(before, quiet) + ShownOnly(more, quiet)
  {
    if more == [] {
      assert before + more == before;
    } else {
      assert (before + more)[..|before|] == before;
    }
  }

  // -- Over every trace --------------------------------------------------------------------------

  function Phase(s: Option<Status>): nat {
    if s.None? then 0 else if IsFinal(s.value) then 2 else 1
  }

  // A record only moves from absent over non-final to final, and a final one sticks.
  lemma {:induction false} RecordOnlyAdvances(h: History, more: History, jobId: string)
    ensures Phase(Recorded(h, jobId)) <= Phase(Recorded(h + more, jobId))
    ensures FinalRecorded(h, jobId) ==> Recorded(h + more, jobId) == Recorded(h, jobId)
  {
    if more == [] {
      assert h + more == h;
    } else {
      var rest := more[..|more| - 1];
      assert (h + more)[..|h + more| - 1] == h + rest;
      RecordOnlyAdvances(h, rest, jobId);
    }
  }

  ghost predicate Seen(h: History, jobId: string, s: Status) {
    exists o :: o in h && o.jobId == jobId && o.Status() == s
  }

  // The record is absent exactly for unseen jobs and final exactly for jobs seen final.
  lemma {:induction false} RecordIsSeen(h: History, jobId: string)
    ensures Recorded(h, jobId).Some? <==> exists s :: Seen(h, jobId, s)
    ensures FinalRecorded(h, jobId) <==> exists s :: IsFinal(s) && Seen(h, jobId, s)
    ensures Recorded(h, jobId).Some? ==> Seen(h, jobId, Recorded(h, jobId).value)
  {
    if h != [] {
      var rest, o := h[..|h| - 1], h[|h| - 1];
      RecordIsSeen(rest, jobId);
      assert h == rest + [o];
      SeenOneMore(rest, o, jobId);
      assert o.jobId == jobId ==> Seen(h, jobId, o.Status());
    }
  }

  lemma SeenOneMore(h: History, o: Observation, jobId: string)
    ensures forall s :: Seen(h + [o], jobId, s) <==> Seen(h, jobId, s) || (o.jobId == jobId && o.Status() == s)
  {
    assert o in h + [o];
    assert forall p :: p in h + [o] <==> p in h || p == o;
  }

  ghost predicate ErrorSeen(h: History, e: string) {
    exists o :: o in h && o.Reports(e)
  }

  // The failure reasons are exactly the distinct nonempty errors seen.
  lemma {:induction false} ErrorsAreDistinctAndSeen(h: History)
    ensures forall i, j | 0 <= i < j < |Errors(h)| :: Errors(h)[i] != Errors(h)[j]
    ensures forall e :: e in Errors(h) <==> ErrorSeen(h, e)
  {
    if h != [] {
      var rest, o := h[..|h| - 1], h[|h| - 1];
      ErrorsAreDistinctAndSeen(rest);
      assert h == rest + [o];
      ErrorOneMore(rest, o);
    }
  }

  lemma ErrorOneMore(h: History, o: Observation)
    ensures forall e :: ErrorSeen(h + [o], e) <==> ErrorSeen(h, e) || o.Reports(e)
  {
    assert o in h + [o];
    assert forall p :: p in h + [o] <==> p in h || p == o;
  }

  function Runs(prints: seq<Print>, jobId: string): nat {
    if prints == [] then 0
    else Runs(prints[..|prints| - 1], jobId) + (if prints[|prints| - 1] == Running(jobId) then 1 else 0)
  }

  function Finishes(prints: seq<Print>, jobId: string): nat {
    if prints == [] then 0
    else
      var p := prints[|prints| - 1];
      Finishes(prints[..|prints| - 1], jobId) + (if p.Finished? && p.jobId == jobId then 1 else 0)
  }

  // Running is announced at most once per job, and so is its outcome.
  lemma {:induction false} AnnouncedOnce(h: History, jobId: string)
    ensures Runs(Printed(h), jobId) <= (if Recorded(h, jobId).Some? then 1 else 0)
    ensures Finishes(Printed(h), jobId) == (if FinalRecorded(h, jobId) then 1 else 0)
  {
    if h != [] {
      var rest := h[..|h| - 1];
      AnnouncedOnce(rest, jobId);
      hide Runs, Finishes, Observation.Status;
      var o := h[|h| - 1];
      OnePrint(Printed(rest), PrintOf(Recorded(rest, o.jobId), o), jobId);
    }
  }

  lemma OnePrint(before: seq<Print>, more: seq<Print>, jobId: string)
    requires |more| <= 1
    ensures Runs(before + more, jobId) == Runs(before, jobId) + (if more == [Running(jobId)] then 1 else 0)
    ensures Finishes(before + more, jobId) ==
      Finishes(before, jobId) + (if |more| == 1 && more[0].Finished? && more[0].jobId == jobId then 1 else 0)
  {
    if more == [] {
      assert before + more == before;
    } else {
      assert (before + more)[..|before|] == before;
    }
  }

  // -- Polling -------------------------------------------------------------------------------------

  // What round r finds out about job i; fetching may fail.
  type Trace = (nat, nat) -> Result<(bool, Option<Deployment>), string>

  const SOME_FAILED := "One or more jobs failed"

  // The whole round could be fetched.
  ghost predicate Fetched(trace: Trace, r: nat, n: nat) {
    forall i: nat | i < n :: trace(r, i).Ok?
  }

  ghost predicate SomeInProgress(trace: Trace, r: nat, n: nat) {
    exists i: nat :: i < n && trace(r, i).Ok? && trace(r, i).value.0
  }

  predicate FailsAt(jobId: string, found: (bool, Option<Deployment>)) {
    Observation(jobId, found.0, found.1).Fails()
  }

  ghost predicate SomeFailed(jobs: seq<string>, trace: Trace, r: nat, n: nat)
    requires n <= |jobs|
  {
    exists i: nat :: i < n && trace(r, i).Ok? && FailsAt(jobs[i], trace(r, i).value)
  }

  // The rounds before r were fetched and each had a job in progress.
  ghost predicate StillPolling(jobs: seq<string>, trace: Trace, r: nat) {
    forall q: nat | q < r :: Fetched(trace, q, |jobs|) && SomeInProgress(trace, q, |jobs|)
  }

  // The map after the first n jobs of a round, and after whole rounds: every deployment found
  // replaces what the map held for its job.
  ghost function RoundStatuses(
    before: map<string, Deployment>, jobs: seq<string>, trace: Trace, r: nat, n: nat): map<string, Deployment>
    requires n <= |jobs|
  {
    if n == 0 then before
    else
      var was, found := RoundStatuses(before, jobs, trace, r, n - 1), trace(r, n - 1);
      if found.Ok? && found.value.1.Some? then was[jobs[n - 1] := found.value.1.value] else was
  }

  ghost function RoundsStatuses(jobs: seq<string>, trace: Trace, rounds: nat): map<string, Deployment> {
    if rounds == 0 then map[]
    else RoundStatuses(RoundsStatuses(jobs, trace, rounds - 1), jobs, trace, rounds - 1, |jobs|)
  }

  ghost predicate Finds(jobs: seq<string>, trace: Trace, r: nat, i: nat, jobId: string)
    requires i < |jobs|
  {
    jobs[i] == jobId && trace(r, i).Ok? && trace(r, i).value.1.Some?
  }

  // The last of the first n jobs that found a deployment for the id.
  ghost function LastFound(jobs: seq<string>, trace: Trace, r: nat, n: nat, jobId: string): (last: Option<nat>)
    requires n <= |jobs|
    ensures last.Some? ==> last.value < n && Finds(jobs, trace, r, last.value, jobId)
    ensures forall k: nat | (if last.Some? then last.value < k else true) && k < n :: !Finds(jobs, trace, r, k, jobId)
  {
    if n == 0 then None
    else if Finds(jobs, trace, r, n - 1, jobId) then Some(n - 1)
    else LastFound(jobs, trace, r, n - 1, jobId)
  }

  // Jobs found in the round hold the deployment found last, other entries persist, and no other
  // key appears.
  lemma {:induction false} StatusesOfRound(
      before: map<string, Deployment>, jobs: seq<string>, trace: Trace, r: nat, n: nat, jobId: string)
    requires n <= |jobs|
    ensures
      var statuses := RoundStatuses(before, jobs, trace, r, n);
      match LastFound(jobs, trace, r, n, jobId)
      case Some(i) => jobId in statuses && statuses[jobId] == trace(r, i).value.1.value
      case None => (jobId in statuses <==> jobId in before) && (jobId in before ==> statuses[jobId] == before[jobId])
  {
    if n > 0 {
      StatusesOfRound(before, jobs, trace, r, n - 1, jobId);
    }
  }

  // What the reporter is told in a round, and over rounds.
  ghost function RoundHistory(jobs: seq<string>, trace: Trace, r: nat, n: nat): History
    requires n <= |jobs|
  {
    if n == 0 then []
    else
      var found := trace(r, n - 1);
      RoundHistory(jobs, trace, r, n - 1)
        + (if found.Ok? then [Observation(jobs[n - 1], found.value.0, found.value.1)] else [])
  }

  ghost function RoundsHistory(jobs: seq<string>, trace: Trace, rounds: nat): History {
    if rounds == 0 then [] else RoundsHistory(jobs, trace, rounds - 1) + RoundHistory(jobs, trace, rounds - 1, |jobs|)
  }

  datatype RoundResult = RoundResult(allFinished: bool, anyFailed: bool, statuses: map<string, Deployment>)

  method PollRound(reporter: JobReporter, jobs: seq<string>, trace: Trace, r: nat, before: map<string, Deployment>)
    returns (result: Result<RoundResult, string>)
    requires reporter.Valid()
    modifies reporter
    ensures reporter.Valid()
    ensures result.Err? ==> !Fetched(trace, r, |jobs|)
    ensures result.Ok? ==> SoFar(before, jobs, trace, r, |jobs|, result.value)
    ensures result.Ok? ==> reporter.history == old(reporter.history) + RoundHistory(jobs, trace, r, |jobs|)
  {
    hide SoFar, Fetched, JobReporter.Valid;
    var round := RoundResult(true, false, before);
    NothingSoFar(before, jobs, trace, r);
    for i := 0 to |jobs|
      invariant reporter.Valid()
      invariant reporter.history == old(reporter.history) + RoundHistory(jobs, trace, r, i)
      invariant SoFar(before, jobs, trace, r, i, round)
    {
      OneMoreJob(before, jobs, trace, r, i, round);
      var found := trace(r, i);
      if found.Err? {
        return Err(found.error);
      }
      round := PollJob(reporter, jobs[i], found.value, round);
    }
    return Ok(round);
  }

  // The body of the loop over the jobs.
  method PollJob(reporter: JobReporter, jobId: string, found: (bool, Option<Deployment>), was: RoundResult)
    returns (now: RoundResult)
    requires reporter.Valid()
    modifies reporter
    ensures reporter.Valid()
    ensures reporter.history == old(reporter.history) + [Observation(jobId, found.0, found.1)]
    ensures now == RoundWith(was, jobId, found)
  {
    var (inProgress, deployment) := found;
    now := was;
    var failed := reporter.ReportJob(inProgress, jobId, deployment);
    if failed {
      now := now.(anyFailed := true);
    }
    if inProgress {
      now := now.(allFinished := false);
    }
    if deployment.Some? {
      now := now.(statuses := now.statuses[jobId := deployment.value]);
    }
  }

  function RoundWith(was: RoundResult, jobId: string, found: (bool, Option<Deployment>)): RoundResult {
    RoundResult(
      was.allFinished && !found.0,
      was.anyFailed || FailsAt(jobId, found),
      if found.1.Some? then was.statuses[jobId := found.1.value] else was.statuses)
  }

  // The flags and the map after the first n jobs of a round.
  ghost predicate SoFar(
    before: map<string, Deployment>, jobs: seq<string>, trace: Trace, r: nat, n: nat, result: RoundResult)
  {
    && n <= |jobs|
    && Fetched(trace, r, n)
    && (result.allFinished <==> !SomeInProgress(trace, r, n))
    && (result.anyFailed <==> SomeFailed(jobs, trace, r, n))
    && result.statuses == RoundStatuses(before, jobs, trace, r, n)
  }

  lemma NothingSoFar(before: map<string, Deployment>, jobs: seq<string>, trace: Trace, r: nat)
    ensures SoFar(before, jobs, trace, r, 0, RoundResult(true, false, before))
  {}

  lemma RoundIsComplete(
      before: map<string, Deployment>, jobs: seq<string>, trace: Trace, r: nat, result: RoundResult)
    requires SoFar(before, jobs, trace, r, |jobs|, result)
    ensures Fetched(trace, r, |jobs|)
    ensures result.allFinished <==> !SomeInProgress(trace, r, |jobs|)
    ensures result.anyFailed <==> SomeFailed(jobs, trace, r, |jobs|)
    ensures result.statuses == RoundStatuses(before, jobs, trace, r, |jobs|)
  {}

  lemma OneMoreJob(
      before: map<string, Deployment>, jobs: seq<string>, trace: Trace, r: nat, i: nat, was: RoundResult)
    requires SoFar(before, jobs, trace, r, i, was) && i < |jobs|
    ensures trace(r, i).Err? ==> !Fetched(trace, r, |jobs|)
    ensures trace(r, i).Ok? ==> SoFar(before, jobs, trace, r, i + 1, RoundWith(was, jobs[i], trace(r, i).value))
  {
    if trace(r, i).Ok? {
      FlagsOfOneMore(jobs, trace, r, i);
    }
  }

  lemma FlagsOfOneMore(jobs: seq<string>, trace: Trace, r: nat, i: nat)
    requires i < |jobs| && trace(r, i).Ok?
    ensures Fetched(trace, r, i) ==> Fetched(trace, r, i + 1)
    ensures SomeInProgress(trace, r, i + 1) <==> SomeInProgress(trace, r, i) || trace(r, i).value.0
    ensures SomeFailed(jobs, trace, r, i + 1) <==> SomeFailed(jobs, trace, r, i) || FailsAt(jobs[i], trace(r, i).value)
  {
    hide FailsAt;
  }

  // How polling may end in round r: a fetch failed, or no job is in progress any more.
  ghost predicate EndsAt(jobs: seq<string>, trace: Trace, r: nat, outcome: Result<map<string, Deployment>, string>) {
    && !(Fetched(trace, r, |jobs|) && SomeInProgress(trace, r, |jobs|))
    && (outcome.Ok? <==>
          Fetched(trace, r, |jobs|) && !SomeInProgress(trace, r, |jobs|) && !SomeFailed(jobs, trace, r, |jobs|))
    && (outcome.Ok? ==> outcome.value == RoundsStatuses(jobs, trace, r + 1))
    && (outcome.Err? && Fetched(trace, r, |jobs|) ==> outcome.error == SOME_FAILED)
  }

  // One round of the loop; None while some job is in progress.
  method PollOnce(reporter: JobReporter, jobs: seq<string>, trace: Trace, r: nat, before: map<string, Deployment>)
    returns (outcome: Option<Result<map<string, Deployment>, string>>, statuses: map<string, Deployment>)
    requires reporter.Valid() && before == RoundsStatuses(jobs, trace, r)
    modifies reporter
    ensures reporter.Valid()
    ensures Fetched(trace, r, |jobs|) ==>
      reporter.history == old(reporter.history) + RoundHistory(jobs, trace, r, |jobs|)
    ensures outcome.None? <==> Fetched(trace, r, |jobs|) && SomeInProgress(trace, r, |jobs|)
    ensures outcome.None? ==> statuses == RoundsStatuses(jobs, trace, r + 1)
    ensures outcome.Some? ==> EndsAt(jobs, trace, r, outcome.value)
  {
    hide Fetched, SomeInProgress, SomeFailed, RoundStatuses, RoundHistory;
    statuses := before;
    var result := PollRound(reporter, jobs, trace, r, statuses);
    if result.Err? {
      return Some(Err(result.error)), statuses;
    }
    RoundIsComplete(before, jobs, trace, r, result.value);
    statuses := result.value.statuses;
    if result.value.allFinished {
      if result.value.anyFailed {
        return Some(Err(SOME_FAILED)), statuses;
      }
      return Some(Ok(statuses)), statuses;
    }
    outcome := None;
  }

  // The outcome of watching up to `rounds` rounds of any trace; None while still polling. The
  // pause between rounds is the trace's.
  method PollUntilDone(reporter: JobReporter, jobs: seq<string>, trace: Trace, rounds: nat)
    returns (outcome: Option<Result<map<string, Deployment>, string>>, ghost last: nat)
    requires reporter.Valid() && reporter.history == []
    modifies reporter
    ensures reporter.Valid()
    ensures last <= rounds && StillPolling(jobs, trace, last)
    ensures outcome.None? ==> last == rounds && reporter.history == RoundsHistory(jobs, trace, rounds)
    ensures outcome.Some? ==> last < rounds && EndsAt(jobs, trace, last, outcome.value)
    ensures outcome.Some? && Fetched(trace, last, |jobs|) ==> reporter.history == RoundsHistory(jobs, trace, last + 1)
  {
    hide Fetched, SomeInProgress, StillPolling, EndsAt, RoundHistory, RoundStatuses;
    var statuses: map<string, Deployment> := map[];
    last := 0;
    NothingPolled(jobs, trace);
    for round := 0 to rounds
      invariant reporter.Valid()
      invariant last == round && StillPolling(jobs, trace, round)
      invariant reporter.history == RoundsHistory(jobs, trace, round)
      invariant statuses == RoundsStatuses(jobs, trace, round)
    {
      outcome, statuses := PollOnce(reporter, jobs, trace, round, statuses);
      if outcome.Some? {
        return;
      }
      PolledOnceMore(jobs, trace, round);
      last := round + 1;
    }
    outcome := None;
  }

  lemma NothingPolled(jobs: seq<string>, trace: Trace)
    ensures StillPolling(jobs, trace, 0)
  {}

  lemma PolledOnceMore(jobs: seq<string>, trace: Trace, r: nat)
    requires StillPolling(jobs, trace, r) && Fetched(trace, r, |jobs|) && SomeInProgress(trace, r, |jobs|)
    ensures StillPolling(jobs, trace, r + 1)
  {}

  // -- What a successful end means -----------------------------------------------------------------

  // In that round every job had stopped and had a record that was successful or non-final, and
  // the returned map has that record for every job listed once.
  lemma SuccessMeansAllRecorded(jobs: seq<string>, trace: Trace, r: nat, statuses: map<string, Deployment>)
    requires EndsAt(jobs, trace, r, Ok(statuses))
    ensures forall i: nat | i < |jobs| ::
      && trace(r, i).Ok? && !trace(r, i).value.0 && trace(r, i).value.1.Some?
      && (trace(r, i).value.1.value.status == Successful || !IsFinal(trace(r, i).value.1.value.status))
    ensures forall i: nat | i < |jobs| :: jobs[i] in statuses
    ensures forall i: nat | i < |jobs| && ListedLast(jobs, i) :: statuses[jobs[i]] == trace(r, i).value.1.value
  {
    forall i: nat | i < |jobs|
      ensures trace(r, i).Ok? && !trace(r, i).value.0 && trace(r, i).value.1.Some?
      ensures trace(r, i).value.1.value.status == Successful || !IsFinal(trace(r, i).value.1.value.status)
    {
      assert !FailsAt(jobs[i], trace(r, i).value);
    }
    forall i: nat | i < |jobs|
      ensures jobs[i] in statuses
      ensures ListedLast(jobs, i) ==> statuses[jobs[i]] == trace(r, i).value.1.value
    {
      var k := LastWithId(jobs, i);
      assert Finds(jobs, trace, r, k, jobs[i]);
      StatusesOfRound(RoundsStatuses(jobs, trace, r), jobs, trace, r, |jobs|, jobs[i]);
    }
  }

  // No later job has the id of job i.
  ghost predicate ListedLast(jobs: seq<string>, i: nat)
    requires i < |jobs|
  {
    forall k: nat | i < k < |jobs| :: jobs[k] != jobs[i]
  }

  lemma {:induction false} LastWithId(jobs: seq<string>, i: nat) returns (k: nat)
    requires i < |jobs|
    ensures i <= k < |jobs| && jobs[k] == jobs[i] && ListedLast(jobs, k)
    ensures ListedLast(jobs, i) ==> k == i
    decreases |jobs| - i
  {
    k := i;
    if m: nat :| i < m < |jobs| && jobs[m] == jobs[i] {
      k := LastWithId(jobs, m);
    }
  }

  // Every progress source reports a job that has a busy record as in progress.
  predicate Receivable(found: (bool, Option<Deployment>)) {
    !found.0 && found.1.Some? ==> IsFinal(found.1.value.status)
  }

  // From such sources a successful end means that every job was successful.
  lemma SuccessMeansAllSuccessful(jobs: seq<string>, trace: Trace, r: nat, statuses: map<string, Deployment>)
    requires EndsAt(jobs, trace, r, Ok(statuses))
    requires forall i: nat | i < |jobs| && trace(r, i).Ok? :: Receivable(trace(r, i).value)
    ensures forall i: nat | i < |jobs| :: jobs[i] in statuses && statuses[jobs[i]].status == Successful
  {
    SuccessMeansAllRecorded(jobs, trace, r, statuses);
    forall i: nat | i < |jobs| ensures jobs[i] in statuses && statuses[jobs[i]].status == Successful {
      var k := LastWithId(jobs, i);
      assert Receivable(trace(r, k).value);
    }
  }

  // -- Failures of earlier rounds --------------------------------------------------------------------

  // The verdict of the reporter's whole history, had it been asked for.
  ghost predicate NothingEverFailed(h: History) {
    forall o | o in h :: !o.Fails()
  }

  ghost predicate FailedBefore(jobs: seq<string>, trace: Trace, r: nat) {
    exists q: nat :: q < r && SomeFailed(jobs, trace, q, |jobs|)
  }

  // Polling that ended without a failed fetch says whether nothing ever failed exactly when some
  // job fails in the last round or none failed before it.
  lemma VerdictCoversAllRoundsIff(
      jobs: seq<string>, trace: Trace, r: nat, outcome: Result<map<string, Deployment>, string>)
    requires StillPolling(jobs, trace, r) && Fetched(trace, r, |jobs|) && EndsAt(jobs, trace, r, outcome)
    ensures (outcome.Ok? <==> NothingEverFailed(RoundsHistory(jobs, trace, r + 1))) <==>
      SomeFailed(jobs, trace, r, |jobs|) || !FailedBefore(jobs, trace, r)
  {
    hide SomeFailed, Fetched, NothingEverFailed, RoundsHistory;
    FailuresAreInHistory(jobs, trace, r + 1);
    if q: nat :| q < r + 1 && SomeFailed(jobs, trace, q, |jobs|) {
      assert q == r || FailedBefore(jobs, trace, r);
    }
  }

  // If a failing job keeps failing, the verdict covers all rounds.
  lemma LastingFailuresAreReported(
      jobs: seq<string>, trace: Trace, r: nat, outcome: Result<map<string, Deployment>, string>)
    requires StillPolling(jobs, trace, r) && Fetched(trace, r, |jobs|) && EndsAt(jobs, trace, r, outcome)
    requires forall q: nat, i: nat |
      && q < r && i < |jobs| && trace(q, i).Ok? && FailsAt(jobs[i], trace(q, i).value) ::
      FailsAt(jobs[i], trace(r, i).value)
    ensures outcome.Ok? <==> NothingEverFailed(RoundsHistory(jobs, trace, r + 1))
  {
    hide NothingEverFailed, RoundsHistory, FailsAt;
    VerdictCoversAllRoundsIff(jobs, trace, r, outcome);
    if q: nat :| q < r && SomeFailed(jobs, trace, q, |jobs|) {
      var i: nat :| i < |jobs| && trace(q, i).Ok? && FailsAt(jobs[i], trace(q, i).value);
      assert trace(r, i).Ok? && FailsAt(jobs[i], trace(r, i).value);
    }
  }

  // The reporter's history holds a failure exactly when some round had one.
  lemma {:induction false} FailuresAreInHistory(jobs: seq<string>, trace: Trace, rounds: nat)
    ensures NothingEverFailed(RoundsHistory(jobs, trace, rounds)) <==> !FailedBefore(jobs, trace, rounds)
  {
    hide SomeFailed, NothingEverFailed, RoundHistory;
    if rounds == 0 {
      NothingInEmpty();
    } else {
      FailuresAreInHistory(jobs, trace, rounds - 1);
      FailuresAreInRound(jobs, trace, rounds - 1, |jobs|);
      NothingFailedInBoth(RoundsHistory(jobs, trace, rounds - 1), RoundHistory(jobs, trace, rounds - 1, |jobs|));
      assert FailedBefore(jobs, trace, rounds) <==>
        FailedBefore(jobs, trace, rounds - 1) || SomeFailed(jobs, trace, rounds - 1, |jobs|) by {
        if q: nat :| q < rounds - 1 && SomeFailed(jobs, trace, q, |jobs|) {
          assert q < rounds;
        }
      }
    }
  }

  lemma NothingInEmpty()
    ensures NothingEverFailed([])
  {}

  lemma NothingFailedInBoth(a: History, b: History)
    ensures NothingEverFailed(a + b) <==> NothingEverFailed(a) && NothingEverFailed(b)
  {
    if NothingEverFailed(a + b) {
      assert forall o | o in a || o in b :: o in a + b;
    }
  }

  lemma {:induction false} FailuresAreInRound(jobs: seq<string>, trace: Trace, r: nat, n: nat)
    requires n <= |jobs|
    ensures NothingEverFailed(RoundHistory(jobs, trace, r, n)) <==> !SomeFailed(jobs, trace, r, n)
  {
    if n > 0 {
      FailuresAreInRound(jobs, trace, r, n - 1);
      if SomeFailed(jobs, trace, r, n - 1) {
        assert SomeFailed(jobs, trace, r, n);
      }
      if trace(r, n - 1).Ok? && FailsAt(jobs[n - 1], trace(r, n - 1).value) {
        var (inProgress, deployment) := trace(r, n - 1).value;
        assert Observation(jobs[n - 1], inProgress, deployment) in RoundHistory(jobs, trace, r, n);
      }
    }
  }

  const OLD_RECORD := Deployment(Failed, "boom", "")
  const NEW_RECORD := Deployment(Successful, "", "")

  // A job that starts while the record of its previous run, a failure, is still there.
  function Restart(): Trace {
    (r, i) => Ok(if r == 0 then (true, Some(OLD_RECORD)) else (false, Some(NEW_RECORD)))
  }

  lemma RestartEndsWell()
    ensures Receivable(Restart()(0, 0).value) && Receivable(Restart()(1, 0).value)
    ensures !StillPolling(["a"], Restart(), 2)
    ensures Fetched(Restart(), 0, 1) && SomeInProgress(Restart(), 0, 1)
    ensures Fetched(Restart(), 1, 1) && !SomeInProgress(Restart(), 1, 1) && !SomeFailed(["a"], Restart(), 1, 1)
    ensures RoundsStatuses(["a"], Restart(), 2) == map["a" := NEW_RECORD]
  {
    assert Restart()(0, 0).value.0;
    var first := RoundsStatuses(["a"], Restart(), 1);
    assert first == RoundStatuses(map[], ["a"], Restart(), 0, 1) == map["a" := OLD_RECORD];
    assert RoundsStatuses(["a"], Restart(), 2) == RoundStatuses(first, ["a"], Restart(), 1, 1);
    assert !SomeInProgress(Restart(), 1, |["a"]|);
  }

  lemma RestartHistory()
    ensures
      var h := RoundsHistory(["a"], Restart(), 2);
      && Recorded(h, "a") == Some(Failed) && Errors(h) == ["boom"] && Finished("a", true) in Printed(h)
  {
    var o, p := Observation("a", true, Some(OLD_RECORD)), Observation("a", false, Some(NEW_RECORD));
    TwoRounds();
    TwoObservations(o, p);
  }

  lemma TwoRounds()
    ensures RoundsHistory(["a"], Restart(), 2) ==
      [Observation("a", true, Some(OLD_RECORD))] + [Observation("a", false, Some(NEW_RECORD))]
  {
    assert RoundHistory(["a"], Restart(), 0, 1) == [Observation("a", true, Some(OLD_RECORD))];
    assert RoundHistory(["a"], Restart(), 1, 1) == [Observation("a", false, Some(NEW_RECORD))];
    assert RoundsHistory(["a"], Restart(), 1) == [Observation("a", true, Some(OLD_RECORD))];
  }

  lemma TwoObservations(o: Observation, p: Observation)
    requires o == Observation("a", true, Some(OLD_RECORD)) && p == Observation("a", false, Some(NEW_RECORD))
    ensures
      var h := [o] + [p];
      && Recorded(h, "a") == Some(Failed) && Errors(h) == ["boom"] && Finished("a", true) in Printed(h)
  {
    assert ([o] + [p])[..1] == [o] && [o][..0] == [];
    assert Recorded([o], "a") == Some(Failed) && Errors([o]) == ["boom"];
    assert Printed([o]) == [Finished("a", true)];
  }

  // The failure is printed and recorded for good, and polling ends well.
  method FailureIsForgotten() returns (reporter: JobReporter, outcome: Option<Result<map<string, Deployment>, string>>)
    ensures outcome == Some(Ok(map["a" := NEW_RECORD]))
    ensures Recorded(reporter.history, "a") == Some(Failed) && Errors(reporter.history) == ["boom"]
    ensures Finished("a", true) in Printed(reporter.history)
  {
    hide Restart, StillPolling, Fetched, SomeInProgress, SomeFailed, RoundsStatuses, RoundsHistory;
    hide Recorded, Errors, Printed, JobReporter.Valid;
    reporter := new JobReporter(false);
    ghost var last;
    outcome, last := PollUntilDone(reporter, ["a"], Restart(), 2);
    RestartEndsWell();
    RestartHistory();
  }

  // -- The reporter in terms of what is seen ---------------------------------------------------

  // What an observation counts as.
  lemma ObservationIs(o: Observation)
    ensures
      match o.deployment
      case Some(d) =>
        && o.Status() == d.status
        && (IsFinal(o.Status()) <==> d.status !in {Requested, Initiated})
        && (o.Fails() <==> d.status !in {Requested, Initiated, Successful})
        && forall e :: o.Reports(e) <==> d.status !in {Requested, Initiated, Successful} && e == d.errorText && e != ""
      case None =>
        && (IsFinal(o.Status()) <==> !o.inProgress)
        && (o.Fails() <==> !o.inProgress)
        && forall e :: !o.Reports(e)
  {}

  // Observation i is the first of its job of which the predicate holds.
  ghost predicate FirstSeen(h: History, jobId: string, i: nat) {
    i < |h| && h[i].jobId == jobId && forall k | 0 <= k < i :: h[k].jobId != jobId
  }

  ghost predicate FirstFinal(h: History, jobId: string, i: nat) {
    && i < |h| && h[i].jobId == jobId && IsFinal(h[i].Status())
    && forall k | 0 <= k < i && h[k].jobId == jobId :: !IsFinal(h[k].Status())
  }

  // A record is the first final status seen.
  lemma {:induction false} RecordIsFirstFinal(h: History, jobId: string, i: nat)
    requires FirstFinal(h, jobId, i)
    ensures Recorded(h, jobId) == Some(h[i].Status())
  {
    hide Recorded, Observation.Status;
    var n := |h| - 1;
    RecordGrows(h, jobId);
    if i < n {
      FirstsStay(h, jobId);
      RecordIsFirstFinal(h[..n], jobId, i);
    } else {
      NoFinalBefore(h, jobId);
    }
  }

  // As long as there is none, it is the first status seen.
  lemma {:induction false} RecordIsFirstSeen(h: History, jobId: string, i: nat)
    requires FirstSeen(h, jobId, i) && forall k | 0 <= k < |h| && h[k].jobId == jobId :: !IsFinal(h[k].Status())
    ensures Recorded(h, jobId) == Some(h[i].Status())
  {
    hide Recorded, Observation.Status;
    var n := |h| - 1;
    RecordGrows(h, jobId);
    if i < n {
      FirstsStay(h, jobId);
      RecordIsFirstSeen(h[..n], jobId, i);
    } else {
      NothingBefore(h, jobId);
    }
  }

  lemma FirstsStay(h: History, jobId: string)
    requires h != []
    ensures forall i: nat | i < |h| - 1 :: FirstFinal(h, jobId, i) <==> FirstFinal(h[..|h| - 1], jobId, i)
    ensures forall i: nat | i < |h| - 1 :: FirstSeen(h, jobId, i) <==> FirstSeen(h[..|h| - 1], jobId, i)
  {
    hide Observation.Status;
  }

  lemma RecordGrows(h: History, jobId: string)
    requires h != []
    ensures
      var was, o := Recorded(h[..|h| - 1], jobId), h[|h| - 1];
      Recorded(h, jobId) ==
        if o.jobId == jobId && (was.None? || (!IsFinal(was.value) && IsFinal(o.Status())))
        then Some(o.Status())
        else was
  {}

  lemma NoFinalBefore(h: History, jobId: string)
    requires h != [] && FirstFinal(h, jobId, |h| - 1)
    ensures !FinalRecorded(h[..|h| - 1], jobId)
  {
    var rest := h[..|h| - 1];
    RecordIsSeen(rest, jobId);
    forall o | o in rest && o.jobId == jobId ensures !IsFinal(o.Status()) {
      var k :| 0 <= k < |rest| && rest[k] == o;
      assert h[k] == o;
    }
  }

  lemma NothingBefore(h: History, jobId: string)
    requires h != [] && FirstSeen(h, jobId, |h| - 1)
    ensures Recorded(h[..|h| - 1], jobId) == None
  {
    var rest := h[..|h| - 1];
    RecordIsSeen(rest, jobId);
    forall o | o in rest ensures o.jobId != jobId {
      var k :| 0 <= k < |rest| && rest[k] == o;
      assert h[k] == o;
    }
  }

  // An outcome is printed as it is recorded, as a failure unless successful.
  lemma {:induction false} OutcomesArePrintedRight(h: History, jobId: string, failed: bool)
    ensures Finished(jobId, failed) in Printed(h) <==>
      FinalRecorded(h, jobId) && (failed <==> Recorded(h, jobId).value != Successful)
  {
    if h != [] {
      OutcomesArePrintedRight(h[..|h| - 1], jobId, failed);
    }
  }

  // A job is announced as running exactly when it is first seen before its end.
  lemma {:induction false} RunningIsAnnounced(h: History, jobId: string)
    ensures Running(jobId) in Printed(h) <==> exists i: nat :: FirstSeen(h, jobId, i) && !IsFinal(h[i].Status())
  {
    if h != [] {
      var n := |h| - 1;
      var rest := h[..n];
      hide Observation.Status, Recorded;
      RunningIsAnnounced(rest, jobId);
      FirstsStay(h, jobId);
      if FirstSeen(h, jobId, n) {
        NothingBefore(h, jobId);
      } else if h[n].jobId == jobId {
        RecordIsSeen(rest, jobId);
        var k: nat :| k < n && h[k].jobId == jobId;
        assert rest[k] in rest && Seen(rest, jobId, rest[k].Status());
      }
      if i: nat :| FirstSeen(rest, jobId, i) && !IsFinal(rest[i].Status()) {
        assert FirstSeen(h, jobId, i);
      }
    }
  }

  // Quiet runs show failures only, others everything, in order.
  lemma {:induction false} ShownIff(prints: seq<Print>, quiet: bool, p: Print)
    ensures p in Shown(prints, quiet) <==> p in prints && (!quiet || (p.Finished? && p.failed))
    ensures !quiet ==> Shown(prints, quiet) == prints
  {
    if prints != [] {
      ShownIff(prints[..|prints| - 1], quiet, p);
      assert prints == prints[..|prints| - 1] + [prints[|prints| - 1]];
    }
  }

  // Reasons keep the order in which they were first seen.
  lemma ReasonsAreInOrder(h: History, o: Observation)
    ensures Errors(h) <= Errors(h + [o]) && |Errors(h + [o])| <= |Errors(h)| + 1
  {
    assert (h + [o])[..|h|] == h;
  }
}
