/**
 * The generation progress page: it polls the job's status, asking again two
 * seconds after every `running` snapshot, stops at a terminal snapshot or at
 * the first failed request, and renders one of five views. The server and
 * the timer are the environment: a script of fetch outcomes, delivered one
 * per outstanding request, with every armed timer eventually firing.
 */
module Generation {
  import opened Wrappers
  import opened Strings

  datatype Status = Running | Completed | Failed

  datatype Report = Report(courseFolderId: Option<string>)

  /** A status snapshot as the server reports it. */
  datatype JobStatus = JobStatus(
    status: Status,
    progress: int,
    totalTopics: int,
    completedTopics: int,
    currentTopic: string,
    error: Option<string>,
    report: Option<Report>)

  /** What one status request delivers: a snapshot, or a thrown error with its body `error` field and message. */
  datatype FetchOutcome =
    | Snapshot(snapshot: JobStatus)
    | FetchError(bodyError: Option<string>, message: Option<string>)

  /** The message shown for a failed request: the body's `error`, else the error's message, else a fixed text. */
  function ErrorMessage(bodyError: Option<string>, message: Option<string>): (r: string)
    ensures r != []
    ensures Truthy(bodyError) ==> r == bodyError.value
    ensures !Truthy(bodyError) && Truthy(message) ==> r == message.value
    ensures !Truthy(bodyError) && !Truthy(message) ==> r == "Failed to get job status"
  {
    Or(bodyError, Or(message, "Failed to get job status"))
  }

  // ---------------------------------------------------------------------
  // The poller as a state machine
  // ---------------------------------------------------------------------

  /** Nothing outstanding, a status request in flight, or the two-second timer armed. */
  datatype Phase = Idle | Fetching | Waiting

  datatype PollState = PollState(job: Option<JobStatus>, error: Option<string>, phase: Phase, fetches: nat)

  /** The effect on mount: without a job id nothing happens; otherwise the first request goes out at once. */
  function Start(jobId: Option<string>): (st: PollState)
    ensures st.job.None? && st.error.None?
    ensures Truthy(jobId) <==> st.phase == Fetching
    ensures st.fetches == (if Truthy(jobId) then 1 else 0)
    ensures st.phase != Waiting
  {
    if Truthy(jobId) then PollState(None, None, Fetching, 1) else PollState(None, None, Idle, 0)
  }

  /** The outstanding request completes: a snapshot is stored and a `running` one arms the timer; an error stops. */
  function Deliver(st: PollState, outcome: FetchOutcome): (r: PollState)
    requires st.phase == Fetching
    ensures r.fetches == st.fetches && r.phase != Fetching
    ensures r.phase == Waiting <==> outcome.Snapshot? && outcome.snapshot.status == Running
    ensures outcome.Snapshot? ==> r.job == Some(outcome.snapshot) && r.error == st.error
    ensures outcome.FetchError? ==>
      r.job == st.job && r.error == Some(ErrorMessage(outcome.bodyError, outcome.message))
  {
    match outcome
    case Snapshot(j) => st.(job := Some(j), phase := if j.status == Running then Waiting else Idle)
    case FetchError(b, m) => st.(error := Some(ErrorMessage(b, m)), phase := Idle)
  }

  /** The armed timer fires and calls `pollStatus` again. */
  function TimerFires(st: PollState): PollState
    requires st.phase == Waiting
  {
    st.(phase := Fetching, fetches := st.fetches + 1)
  }

  /** Feeds the script to the poller: each outstanding request takes the next outcome, each armed timer fires. */
  function RunFrom(st: PollState, outcomes: seq<FetchOutcome>): PollState
    decreases |outcomes|, if st.phase == Waiting then 1 else 0
  {
    if st.phase == Waiting then RunFrom(TimerFires(st), outcomes)
    else if st.phase == Fetching && outcomes != [] then RunFrom(Deliver(st, outcomes[0]), outcomes[1..])
    else st
  }

  /** The requests made before a run do not influence it: the run only adds to their count. */
  lemma {:induction false} FetchOffset(st: PollState, d: nat, outcomes: seq<FetchOutcome>)
    ensures var r := RunFrom(st, outcomes);
      RunFrom(st.(fetches := st.fetches + d), outcomes) == r.(fetches := r.fetches + d)
    decreases |outcomes|, if st.phase == Waiting then 1 else 0
  {
    var shifted := st.(fetches := st.fetches + d);
    if st.phase == Waiting {
      assert TimerFires(shifted) == TimerFires(st).(fetches := TimerFires(st).fetches + d);
      FetchOffset(TimerFires(st), d, outcomes);
    } else if st.phase == Fetching && outcomes != [] {
      assert Deliver(shifted, outcomes[0]) == Deliver(st, outcomes[0]).(fetches := Deliver(st, outcomes[0]).fetches + d);
      FetchOffset(Deliver(st, outcomes[0]), d, outcomes[1..]);
    }
  }

  /**
   * An armed timer costs exactly one request and otherwise changes nothing:
   * the run goes on as if that request had already been outstanding.
   */
  lemma TimerAddsOneFetch(st: PollState, outcomes: seq<FetchOutcome>)
    requires st.phase == Waiting
    ensures var r := RunFrom(st.(phase := Fetching), outcomes);
      RunFrom(st, outcomes) == r.(fetches := r.fetches + 1)
  {
    FetchOffset(st.(phase := Fetching), 1, outcomes);
  }

  predicate IsRunningSnapshot(o: FetchOutcome) {
    o.Snapshot? && o.snapshot.status == Running
  }

  /** With no job id (or an empty one) the script is never consulted and no request is made. */
  lemma NoJobIdNoFetch(jobId: Option<string>, outcomes: seq<FetchOutcome>)
    requires !Truthy(jobId)
    ensures RunFrom(Start(jobId), outcomes) == PollState(None, None, Idle, 0)
  {
  }

  /**
   * From an outstanding request, k `running` snapshots followed by a terminal
   * snapshot cost exactly k + 1 requests counting the outstanding one; the
   * terminal snapshot is the stored job and whatever the script holds after
   * it is never used.
   */
  lemma {:induction false} RunningThenTerminal(st: PollState, k: nat, outcomes: seq<FetchOutcome>)
    requires st.phase == Fetching
    requires k < |outcomes| && outcomes[k].Snapshot? && outcomes[k].snapshot.status != Running
    requires forall i :: 0 <= i < k ==> IsRunningSnapshot(outcomes[i])
    ensures RunFrom(st, outcomes) == PollState(Some(outcomes[k].snapshot), st.error, Idle, st.fetches + k)
    decreases k
  {
    var d := Deliver(st, outcomes[0]);
    if k == 0 {
      assert RunFrom(d, outcomes[1..]) == d;
    } else {
      assert d.phase == Waiting;
      var t := TimerFires(d);
      RunningThenTerminal(t, k - 1, outcomes[1..]);
    }
  }

  /** The page's scenario: a job id, k `running` snapshots, then a terminal one. */
  lemma PollUntilTerminal(jobId: string, k: nat, outcomes: seq<FetchOutcome>)
    requires jobId != []
    requires k < |outcomes| && outcomes[k].Snapshot? && outcomes[k].snapshot.status != Running
    requires forall i :: 0 <= i < k ==> IsRunningSnapshot(outcomes[i])
    ensures RunFrom(Start(Some(jobId)), outcomes) == PollState(Some(outcomes[k].snapshot), None, Idle, k + 1)
  {
    RunningThenTerminal(Start(Some(jobId)), k, outcomes);
  }

  /**
   * A failed request after k `running` snapshots ends polling with k + 1
   * requests made; the error message follows the precedence and the job
   * shown before stays stored.
   */
  lemma {:induction false} RunningThenError(st: PollState, k: nat, outcomes: seq<FetchOutcome>)
    requires st.phase == Fetching
    requires k < |outcomes| && outcomes[k].FetchError?
    requires forall i :: 0 <= i < k ==> IsRunningSnapshot(outcomes[i])
    ensures var r := RunFrom(st, outcomes);
      && r.phase == Idle && r.fetches == st.fetches + k
      && r.error == Some(ErrorMessage(outcomes[k].bodyError, outcomes[k].message))
      && r.job == (if k == 0 then st.job else assert IsRunningSnapshot(outcomes[k - 1]); Some(outcomes[k - 1].snapshot))
    decreases k
  {
    var d := Deliver(st, outcomes[0]);
    if k == 0 {
      assert RunFrom(d, outcomes[1..]) == d;
    } else {
      assert d.phase == Waiting;
      var t := TimerFires(d);
      RunningThenError(t, k - 1, outcomes[1..]);
      if k - 1 > 0 {
        assert outcomes[1..][k - 2] == outcomes[k - 1];
      }
    }
  }

  /** While every outcome so far was a `running` snapshot, a request is still outstanding and one was made per outcome. */
  lemma {:induction false} StillPolling(st: PollState, outcomes: seq<FetchOutcome>)
    requires st.phase == Fetching
    requires forall i :: 0 <= i < |outcomes| ==> IsRunningSnapshot(outcomes[i])
    ensures var r := RunFrom(st, outcomes);
      && r.phase == Fetching && r.error == st.error && r.fetches == st.fetches + |outcomes|
      && r.job == (if outcomes == [] then st.job
                   else assert IsRunningSnapshot(outcomes[|outcomes| - 1]); Some(outcomes[|outcomes| - 1].snapshot))
    decreases |outcomes|
  {
    if outcomes != [] {
      var t := TimerFires(Deliver(st, outcomes[0]));
      StillPolling(t, outcomes[1..]);
      if |outcomes| > 1 {
        assert outcomes[1..][|outcomes| - 2] == outcomes[|outcomes| - 1];
      }
    }
  }

  // ---------------------------------------------------------------------
  // The page's state cells, updated in place
  // ---------------------------------------------------------------------

  class GenerationPage {
    const jobId: Option<string>
    var job: Option<JobStatus>
    var error: Option<string>
    var phase: Phase
    ghost var fetches: nat

    ghost function State(): PollState
      reads this
    {
      PollState(job, error, phase, fetches)
    }

    /** Mounting runs the effect once. */
    constructor (jobId: Option<string>)
      ensures this.jobId == jobId && State() == Start(jobId)
    {
      this.jobId := jobId;
      job := None;
      error := None;
      if Truthy(jobId) {
        phase := Fetching;
        fetches := 1;
      } else {
        phase := Idle;
        fetches := 0;
      }
    }

    /** The body of `pollStatus` after its request settles. */
    method OnFetchSettled(outcome: FetchOutcome)
      requires phase == Fetching
      modifies this
      ensures State() == Deliver(old(State()), outcome)
    {
      match outcome {
        case Snapshot(status) =>
          job := Some(status);
          if status.status == Running {
            phase := Waiting;
          } else {
            phase := Idle;
          }
        case FetchError(bodyError, message) =>
          error := Some(Or(bodyError, Or(message, "Failed to get job status")));
          phase := Idle;
      }
    }

    /** The timer set by a `running` snapshot calls `pollStatus` again. */
    method OnTimer()
      requires phase == Waiting
      modifies this
      ensures phase == Fetching && fetches == old(fetches) + 1
      ensures job == old(job) && error == old(error)
      ensures State() == TimerFires(old(State()))
    {
      phase := Fetching;
      fetches := fetches + 1;
    }

    /** Plays a script of outcomes against the page until it stops asking or the script is used up. */
    method Play(outcomes: seq<FetchOutcome>)
      modifies this
      ensures State() == RunFrom(old(State()), outcomes)
    {
      var i := 0;
      while i < |outcomes| && phase != Idle
        invariant 0 <= i <= |outcomes|
        invariant RunFrom(State(), outcomes[i..]) == RunFrom(old(State()), outcomes)
        decreases |outcomes| - i, if phase == Waiting then 1 else 0
      {
        if phase == Waiting {
          OnTimer();
        } else {
          assert outcomes[i..][1..] == outcomes[i + 1..];
          OnFetchSettled(outcomes[i]);
          i := i + 1;
        }
      }
      if phase == Waiting {
        OnTimer();
      }
    }
  }

  // ---------------------------------------------------------------------
  // Rendering
  // ---------------------------------------------------------------------

  const DriveFolderPrefix := "https://drive.google.com/drive/folders/"

  /** The branch the page renders, with the values it shows. */
  datatype View =
    | ErrorView(message: string)
    | Connecting
    | RunningView(progress: int, completedTopics: int, totalTopics: int, processing: Option<string>)
    | CompletedView(topics: int, documents: int, driveLink: Option<string>)
    | FailedView(reason: Option<string>)

  /** The Drive link of a completed report, present exactly when the folder id is non-empty. */
  function DriveLink(report: Option<Report>): (r: Option<string>)
    ensures r.Some? <==> report.Some? && Truthy(report.value.courseFolderId)
    ensures r.Some? ==> r.value == DriveFolderPrefix + report.value.courseFolderId.value
  {
    if report.Some? && Truthy(report.value.courseFolderId) then
      Some(DriveFolderPrefix + report.value.courseFolderId.value)
    else None
  }

  function ViewOf(job: Option<JobStatus>, error: Option<string>): (v: View)
    ensures Truthy(error) <==> v.ErrorView?
    ensures v.ErrorView? ==> v.message == error.value
    ensures v.Connecting? <==> !Truthy(error) && job.None?
    ensures !Truthy(error) && job.Some? ==> match job.value.status
      case Running => v.RunningView?
      case Completed => v.CompletedView?
      case Failed => v.FailedView?
    ensures v.RunningView? ==>
      && v.progress == job.value.progress && v.completedTopics == job.value.completedTopics
      && v.totalTopics == job.value.totalTopics
      && (v.processing.Some? <==> job.value.currentTopic != [])
      && (v.processing.Some? ==> v.processing.value == job.value.currentTopic)
    ensures v.FailedView? ==>
      && (v.reason.Some? <==> Truthy(job.value.error))
      && (v.reason.Some? ==> v.reason == job.value.error)
  {
    if Truthy(error) then ErrorView(error.value)
    else if job.None? then Connecting
    else
      var j := job.value;
      match j.status
      case Running =>
        RunningView(j.progress, j.completedTopics, j.totalTopics,
                    if j.currentTopic != [] then Some(j.currentTopic) else None)
      case Completed => CompletedView(j.totalTopics, j.totalTopics * 3, DriveLink(j.report))
      case Failed => FailedView(if Truthy(j.error) then j.error else None)
  }

  /**
   * The finished page: after k `running` snapshots and a `completed` one,
   * the completed view counts three documents per topic and links the Drive
   * folder exactly when the report names one.
   */
  lemma CompletedPage(jobId: string, k: nat, outcomes: seq<FetchOutcome>)
    requires jobId != []
    requires k < |outcomes| && outcomes[k].Snapshot? && outcomes[k].snapshot.status == Completed
    requires forall i :: 0 <= i < k ==> IsRunningSnapshot(outcomes[i])
    ensures var j := outcomes[k].snapshot;
      var st := RunFrom(Start(Some(jobId)), outcomes);
      && ViewOf(st.job, st.error) == CompletedView(j.totalTopics, 3 * j.totalTopics, DriveLink(j.report))
      && (ViewOf(st.job, st.error).driveLink.Some? <==> j.report.Some? && Truthy(j.report.value.courseFolderId))
  {
    PollUntilTerminal(jobId, k, outcomes);
  }

  /** A failed request after any number of `running` snapshots shows the error view with the chosen message. */
  lemma ErrorPage(jobId: string, k: nat, outcomes: seq<FetchOutcome>)
    requires jobId != []
    requires k < |outcomes| && outcomes[k].FetchError?
    requires forall i :: 0 <= i < k ==> IsRunningSnapshot(outcomes[i])
    ensures var st := RunFrom(Start(Some(jobId)), outcomes);
      ViewOf(st.job, st.error) == ErrorView(ErrorMessage(outcomes[k].bodyError, outcomes[k].message))
  {
    RunningThenError(Start(Some(jobId)), k, outcomes);
  }
}
