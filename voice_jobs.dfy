/** The overlay's bookkeeping of the background voice capture (`VoiceManager`):
    whether a job runs, whether its result is to be dropped because the user
    cancelled, and which pipeline it uses. Starting a job needs the recorder and
    the speech model and is not part of this model; a job is seen only through
    its stop flag and the outcome of one non-blocking receive on its channel,
    which every poll takes as a parameter. */
module VoiceJobs {
  import opened Wrappers
  import opened PendingQueue

  /** A running job, as far as the manager affects it: whether stop was requested. */
  datatype VoiceJob = VoiceJob(stopRequested: bool)

  /** What a job reports; the capture metrics it carries are not modelled. */
  datatype VoiceJobMessage =
    | Transcript(text: string, source: CaptureSource)
    | EmptyCapture(source: CaptureSource)
    | JobError(message: string)

  /** The outcome of `try_recv` on the job's channel. */
  datatype Receive = Received(message: VoiceJobMessage) | ChannelEmpty | ChannelDisconnected

  const DISCONNECTED_MESSAGE: string := "voice capture worker disconnected unexpectedly"

  datatype ManagerState = ManagerState(job: Option<VoiceJob>, cancelPending: bool, activeSource: Option<CaptureSource>)

  /** `VoiceManager::new`: no job, nothing pending, no source. */
  const NEW_MANAGER: ManagerState := ManagerState(None, false, None)

  /** A cancellation is only ever pending for a running job that was told to stop. */
  predicate Consistent(st: ManagerState) {
    st.cancelPending ==> st.job.Some? && st.job.value.stopRequested
  }

  /** `is_idle`. */
  predicate Idle(st: ManagerState) {
    st.job.None?
  }

  /** `request_early_stop`: tell a running job to stop and keep what it captured. */
  function EarlyStopSpec(st: ManagerState): ManagerState {
    match st.job
    case Some(_) => st.(job := Some(VoiceJob(true)))
    case None => st
  }

  /** `cancel_capture`: tell a running job to stop and drop what it reports. */
  function CancelSpec(st: ManagerState): ManagerState {
    match st.job
    case Some(_) => st.(job := Some(VoiceJob(true)), cancelPending := true)
    case None => st
  }

  datatype Poll = Poll(state: ManagerState, message: Option<VoiceJobMessage>)

  /** `poll_message` when the receive gives `outcome`: a message or a disconnect ends
      the job; the message is passed on, or a disconnect reported as an error,
      unless the capture was cancelled. */
  function PollSpec(st: ManagerState, outcome: Receive): Poll {
    if st.job.None? then Poll(st, None)
    else
      var finished := ManagerState(None, false, None);
      match outcome
      case ChannelEmpty => Poll(st, None)
      case Received(m) => Poll(finished, if st.cancelPending then None else Some(m))
      case ChannelDisconnected =>
        Poll(finished, if st.cancelPending then None else Some(JobError(DISCONNECTED_MESSAGE)))
  }

  class VoiceManager {
    var job: Option<VoiceJob>
    var cancelPending: bool
    var activeSource: Option<CaptureSource>

    function State(): ManagerState
      reads this
    {
      ManagerState(job, cancelPending, activeSource)
    }

    constructor ()
      ensures State() == NEW_MANAGER
    {
      job := None;
      cancelPending := false;
      activeSource := None;
    }

    /** `is_idle`. */
    function IsIdle(): (idle: bool)
      reads this
      ensures idle <==> Idle(State())
    {
      job.None?
    }

    /** `cancel_capture`: true when a capture was running. */
    method CancelCapture() returns (cancelled: bool)
      modifies this
      ensures cancelled <==> !Idle(old(State()))
      ensures State() == CancelSpec(old(State()))
    {
      if job.Some? {
        job := Some(job.value.(stopRequested := true));
        cancelPending := true;
        return true;
      }
      return false;
    }

    /** `request_early_stop`: true when a capture was running. */
    method RequestEarlyStop() returns (stopping: bool)
      modifies this
      ensures stopping <==> !Idle(old(State()))
      ensures State() == EarlyStopSpec(old(State()))
    {
      if job.Some? {
        job := Some(job.value.(stopRequested := true));
        return true;
      }
      return false;
    }

    /** `poll_message`; the channel is not consulted when no job runs. */
    method PollMessage(outcome: Receive) returns (message: Option<VoiceJobMessage>)
      modifies this
      ensures Poll(State(), message) == PollSpec(old(State()), outcome)
    {
      if job.None? {
        return None;
      }
      match outcome {
        case Received(m) =>
          job := None;
          activeSource := None;
          if cancelPending {
            cancelPending := false;
            return None;
          }
          return Some(m);
        case ChannelEmpty =>
          return None;
        case ChannelDisconnected =>
          job := None;
          activeSource := None;
          var wasCancelled := cancelPending;
          cancelPending := false;
          if wasCancelled {
            return None;
          }
          return Some(JobError(DISCONNECTED_MESSAGE));
      }
    }
  }

  // ---------------------------------------------------------------------------
  // Properties.

  /** Every operation keeps a pending cancellation tied to a stopping job. */
  lemma OperationsKeepConsistent(st: ManagerState, outcome: Receive)
    requires Consistent(st)
    ensures Consistent(CancelSpec(st)) && Consistent(EarlyStopSpec(st)) && Consistent(PollSpec(st, outcome).state)
  {
  }

  /** Both stop requests act exactly when a job runs, leave the job running and
      mark it as told to stop; only a cancellation marks its result for dropping. */
  lemma StopRequests(st: ManagerState)
    ensures Idle(st) ==> CancelSpec(st) == st && EarlyStopSpec(st) == st
    ensures !Idle(st) ==>
      && CancelSpec(st).job == Some(VoiceJob(true)) && CancelSpec(st).cancelPending
      && EarlyStopSpec(st).job == Some(VoiceJob(true)) && EarlyStopSpec(st).cancelPending == st.cancelPending
    ensures CancelSpec(st).activeSource == st.activeSource && EarlyStopSpec(st).activeSource == st.activeSource
    ensures CancelSpec(CancelSpec(st)) == CancelSpec(st)
  {
  }

  /** A message or a disconnect ends the job and leaves the manager idle with
      nothing pending; an empty channel changes nothing. */
  lemma PollEndsJob(st: ManagerState, outcome: Receive)
    ensures outcome.ChannelEmpty? || Idle(st) ==> PollSpec(st, outcome) == Poll(st, None)
    ensures !outcome.ChannelEmpty? && !Idle(st) ==>
      && Idle(PollSpec(st, outcome).state)
      && !PollSpec(st, outcome).state.cancelPending
      && PollSpec(st, outcome).state.activeSource.None?
  {
  }

  /** Without a cancellation the job's message is handed on unchanged, and a
      worker that vanished is reported as an error. */
  lemma PollDeliversUncancelled(st: ManagerState, outcome: Receive)
    requires !Idle(st) && !st.cancelPending
    ensures outcome.Received? ==> PollSpec(st, outcome).message == Some(outcome.message)
    ensures outcome.ChannelDisconnected? ==> PollSpec(st, outcome).message == Some(JobError(DISCONNECTED_MESSAGE))
  {
  }

  /** A manager from which no message can come: its capture was cancelled, or
      it runs none. */
  predicate Quiet(st: ManagerState) {
    st.cancelPending || Idle(st)
  }

  /** The state after polling with each outcome in turn. */
  function PollsAfter(st: ManagerState, outcomes: seq<Receive>): ManagerState
    decreases |outcomes|
  {
    if outcomes == [] then st else PollSpec(PollsAfter(st, outcomes[..|outcomes| - 1]), outcomes[|outcomes| - 1]).state
  }

  /** None of the polls with these outcomes, in turn, returns a message. */
  predicate NoMessages(st: ManagerState, outcomes: seq<Receive>) {
    forall k :: 0 <= k < |outcomes| ==> PollSpec(PollsAfter(st, outcomes[..k]), outcomes[k]).message.None?
  }

  /** A quiet manager stays quiet through any number of polls. */
  lemma {:induction false} QuietAfterPolls(st: ManagerState, outcomes: seq<Receive>)
    requires Quiet(st)
    ensures Quiet(PollsAfter(st, outcomes))
    decreases |outcomes|
  {
    if outcomes != [] {
      QuietAfterPolls(st, outcomes[..|outcomes| - 1]);
    }
  }

  /** After a cancellation, whatever the job does next is dropped: no message and
      no error ever reaches the overlay from it, however often it is polled. */
  lemma CancelSuppressesResult(st: ManagerState, outcomes: seq<Receive>)
    ensures NoMessages(CancelSpec(st), outcomes)
  {
    forall k | 0 <= k < |outcomes|
      ensures PollSpec(PollsAfter(CancelSpec(st), outcomes[..k]), outcomes[k]).message.None?
    {
      QuietAfterPolls(CancelSpec(st), outcomes[..k]);
    }
  }

  // ---------------------------------------------------------------------------
  // The manager's unit tests.

  lemma NewManagerIsIdle(source: CaptureSource)
    ensures Idle(NEW_MANAGER) && NEW_MANAGER.activeSource.None?
    ensures Idle(NEW_MANAGER.(activeSource := Some(source)))
    ensures !Idle(NEW_MANAGER.(job := Some(VoiceJob(false))))
  {
  }

  /** Early stop does nothing without a job and sets the job's stop flag with one. */
  lemma EarlyStopExample()
    ensures EarlyStopSpec(NEW_MANAGER) == NEW_MANAGER
    ensures EarlyStopSpec(NEW_MANAGER.(job := Some(VoiceJob(false)))).job == Some(VoiceJob(true))
  {
  }

  /** A cancelled native capture polled while the worker is still busy and then
      after it reported an empty capture ends idle with nothing pending and
      nothing delivered. */
  lemma CancelExample()
    ensures var running := ManagerState(Some(VoiceJob(false)), false, Some(Native));
      var cancelled := CancelSpec(running);
      var busy := PollSpec(cancelled, ChannelEmpty);
      var done := PollSpec(busy.state, Received(EmptyCapture(Native)));
      && cancelled.job == Some(VoiceJob(true))
      && busy.message.None? && done.message.None?
      && done.state.job.None? && !done.state.cancelPending
  {
  }
}
