/** Sending a transcript to the wrapped CLI (`send_transcript`), announcing it on
    the status line (`deliver_transcript`), and draining the pending queue once the
    CLI is ready for input (`try_flush_pending`). The CLI's PTY session is seen
    only through its two write operations, so it is modelled as a recorder of the
    writes it accepted, with a flag that makes every write fail. */
module TranscriptDelivery {
  import opened Wrappers
  import opened Text
  import opened PendingQueue
  import opened PromptTracking
  import opened StatusLine

  /** One accepted write: text typed without Enter, or text followed by Enter. */
  datatype SessionWrite = Typed(text: string) | Submitted(text: string)

  /** A session that records what it was sent; when `broken`, every write fails. */
  class RecordingSession {
    var writes: seq<SessionWrite>
    var broken: bool

    constructor (broken: bool)
      ensures writes == [] && this.broken == broken
    {
      writes := [];
      this.broken := broken;
    }

    /** `send_text`. */
    method SendText(text: string) returns (ok: bool)
      modifies this
      ensures ok == !broken && broken == old(broken)
      ensures writes == if ok then old(writes) + [Typed(text)] else old(writes)
    {
      if broken {
        return false;
      }
      writes := writes + [Typed(text)];
      return true;
    }

    /** `send_text_with_newline`. */
    method SendTextWithNewline(text: string) returns (ok: bool)
      modifies this
      ensures ok == !broken && broken == old(broken)
      ensures writes == if ok then old(writes) + [Submitted(text)] else old(writes)
    {
      if broken {
        return false;
      }
      writes := writes + [Submitted(text)];
      return true;
    }
  }

  // ---------------------------------------------------------------------------
  // send_transcript.

  /** The write `send_transcript` asks for: none for a blank text, else the trimmed
      text, with Enter in Auto mode. */
  function TranscriptWrite(text: string, mode: SendMode): Option<SessionWrite> {
    if IsBlank(text) then None
    else if mode == Auto then Some(Submitted(Trim(text)))
    else Some(Typed(Trim(text)))
  }

  /** The session's writes and the result after `send_transcript`: `Ok(true)` when
      Enter was sent, `Ok(false)` when nothing or only text was sent, `Err` when the
      session refused the write. */
  datatype SendOutcome = SendOutcome(writes: seq<SessionWrite>, result: Result<bool>)

  function SendTranscriptSpec(writes: seq<SessionWrite>, broken: bool, text: string, mode: SendMode): SendOutcome {
    match TranscriptWrite(text, mode)
    case None => SendOutcome(writes, Ok(false))
    case Some(w) =>
      if broken then SendOutcome(writes, Err) else SendOutcome(writes + [w], Ok(w.Submitted?))
  }

  /** `send_transcript`. */
  method SendTranscript(session: RecordingSession, text: string, mode: SendMode) returns (r: Result<bool>)
    modifies session
    ensures session.broken == old(session.broken)
    ensures SendOutcome(session.writes, r) == SendTranscriptSpec(old(session.writes), old(session.broken), text, mode)
  {
    var trimmed := Trim(text);
    BlankIffTrimEmpty(text);
    if trimmed == [] {
      return Ok(false);
    }
    match mode {
      case Auto =>
        var ok := session.SendTextWithNewline(trimmed);
        if !ok {
          return Err;
        }
        return Ok(true);
      case Insert =>
        var ok := session.SendText(trimmed);
        if !ok {
          return Err;
        }
        return Ok(false);
    }
  }

  /** A blank text sends nothing; otherwise exactly one write of the trimmed,
      non-empty text is made (unless the session fails), and the result is
      `Ok(true)` exactly when that write carried Enter, which is in Auto mode. */
  lemma SendTranscriptContract(writes: seq<SessionWrite>, broken: bool, text: string, mode: SendMode)
    ensures var out := SendTranscriptSpec(writes, broken, text, mode);
      && (IsBlank(text) ==> out == SendOutcome(writes, Ok(false)))
      && (!IsBlank(text) && broken ==> out == SendOutcome(writes, Err))
      && (!IsBlank(text) && !broken ==>
            && |out.writes| == |writes| + 1
            && out.writes[..|writes|] == writes
            && IsTrimmedNonEmpty(out.writes[|writes|].text)
            && out.writes[|writes|].text == Trim(text)
            && (out.writes[|writes|].Submitted? <==> mode == Auto))
      && (out.result == Ok(true) <==> !IsBlank(text) && !broken && mode == Auto)
  {
    if !IsBlank(text) {
      TrimNonBlank(text);
    }
  }

  lemma TrimPadded(word: string)
    requires IsTrimmedNonEmpty(word)
    ensures !IsBlank(" " + word + " ")
    ensures Trim(" " + word + " ") == word
  {
    var padded := " " + word + " ";
    assert padded[1] == word[0];
    assert TrimEnd(padded) == " " + word by {
      assert padded[..|padded| - 1] == " " + word;
      assert (" " + word)[|word|] == word[|word| - 1];
    }
    assert (" " + word)[1..] == word;
  }

  /** The unit test, first call: " hello " in Auto mode is submitted as "hello". */
  lemma SendTranscriptAutoExample()
    ensures SendTranscriptSpec([], false, " hello ", Auto) == SendOutcome([Submitted("hello")], Ok(true))
  {
    assert IsTrimmedNonEmpty("hello");
    assert " hello " == " " + "hello" + " ";
    TrimPadded("hello");
  }

  /** Second call: " hi " in Insert mode is typed as "hi" and reports no Enter. */
  lemma SendTranscriptInsertExample(before: seq<SessionWrite>)
    ensures SendTranscriptSpec(before, false, " hi ", Insert) == SendOutcome(before + [Typed("hi")], Ok(false))
  {
    assert IsTrimmedNonEmpty("hi");
    assert " hi " == " " + "hi" + " ";
    TrimPadded("hi");
  }

  /** Third call: "   " sends nothing. */
  lemma SendTranscriptBlankExample(before: seq<SessionWrite>)
    ensures SendTranscriptSpec(before, false, "   ", Insert) == SendOutcome(before, Ok(false))
  {
    assert IsBlank("   ");
  }

  // ---------------------------------------------------------------------------
  // deliver_transcript.

  /** The decimal text of a count, as `format!` writes it. */
  function CountText(n: nat): (r: string)
    ensures |r| > 0
  {
    AsciiString(Decimal(n))
  }

  /** How long the delivery statuses stay up: two seconds, in milliseconds. */
  const STATUS_TIMEOUT: nat := 2000

  const SEND_FAILED_STATUS: string := "Failed to send transcript (see log)"

  /** The label with the drop note after a comma, when there is one. */
  function NotedLabel(name: string, dropNote: Option<string>): string {
    match dropNote
    case Some(note) => name + ", " + note
    case None => name
  }

  /** The status announcing a delivery, with the number of transcripts still
      queued when there are any. The separator is U+2022 BULLET, whose UTF-8
      bytes a Windows-1252 reading of the source file shows as three characters. */
  function DeliveryStatus(name: string, remaining: nat, dropNote: Option<string>): string {
    var head := "Transcript ready (" + NotedLabel(name, dropNote) + ")";
    if remaining > 0 then head + " • queued " + CountText(remaining) else head
  }

  /** The session and status line together, as the overlay's `TranscriptIo` holds them. */
  datatype IoState = IoState(writes: seq<SessionWrite>, broken: bool, status: StatusState)

  datatype Delivery = Delivery(io: IoState, sentNewline: bool)

  /** `deliver_transcript` at instant `now`: announce, send, and on failure replace
      the announcement with the failure status. */
  function DeliverSpec(io: IoState, text: string, name: string, mode: SendMode, remaining: nat,
                       dropNote: Option<string>, now: nat): Delivery {
    var announced := SetStatusSpec(io.status, DeliveryStatus(name, remaining, dropNote), Some(STATUS_TIMEOUT), now);
    var sent := SendTranscriptSpec(io.writes, io.broken, text, mode);
    match sent.result
    case Ok(newline) => Delivery(IoState(sent.writes, io.broken, announced), newline)
    case Err => Delivery(IoState(sent.writes, io.broken, SetStatusSpec(announced, SEND_FAILED_STATUS, Some(STATUS_TIMEOUT), now)), false)
  }

  function IoOf(session: RecordingSession, board: StatusBoard): IoState
    reads session, board
  {
    IoState(session.writes, session.broken, board.State())
  }

  /** `deliver_transcript`; `now` stands for the `Instant::now()` of both status updates. */
  method DeliverTranscript(text: string, name: string, mode: SendMode, session: RecordingSession,
                           board: StatusBoard, remaining: nat, dropNote: Option<string>, now: nat)
    returns (sentNewline: bool)
    modifies session, board
    ensures Delivery(IoOf(session, board), sentNewline) ==
      DeliverSpec(old(IoOf(session, board)), text, name, mode, remaining, dropNote, now)
  {
    var full := name;
    if dropNote.Some? {
      full := full + ", " + dropNote.value;
    }
    var head := "Transcript ready (" + full + ")";
    var status := if remaining > 0 then head + " • queued " + CountText(remaining) else head;
    board.SetStatus(status, Some(STATUS_TIMEOUT), now);
    var r := SendTranscript(session, text, mode);
    match r {
      case Ok(newline) =>
        sentNewline := newline;
      case Err =>
        board.SetStatus(SEND_FAILED_STATUS, Some(STATUS_TIMEOUT), now);
        sentNewline := false;
    }
  }

  /** A delivery that reaches the session (or has nothing to send) leaves its
      announcement up, writes what `send_transcript` writes and reports Enter
      exactly when non-blank text was submitted in Auto mode. */
  lemma DeliverAnnounces(io: IoState, text: string, name: string, mode: SendMode, remaining: nat,
                         dropNote: Option<string>, now: nat)
    requires IsBlank(text) || !io.broken
    ensures var d := DeliverSpec(io, text, name, mode, remaining, dropNote, now);
      && d.io.broken == io.broken
      && d.io.status.current == Some(DeliveryStatus(name, remaining, dropNote))
      && d.io.writes == SendTranscriptSpec(io.writes, io.broken, text, mode).writes
      && (d.sentNewline <==> !IsBlank(text) && mode == Auto)
  {
    SendTranscriptContract(io.writes, io.broken, text, mode);
  }

  /** A delivery the session refuses writes nothing, reports no Enter and ends
      with the failure status shown. */
  lemma DeliverReportsFailure(io: IoState, text: string, name: string, mode: SendMode, remaining: nat,
                              dropNote: Option<string>, now: nat)
    requires !IsBlank(text) && io.broken
    ensures var d := DeliverSpec(io, text, name, mode, remaining, dropNote, now);
      && d.io.broken == io.broken
      && d.io.status.current == Some(SEND_FAILED_STATUS)
      && |d.io.status.sent| > 0 && d.io.status.sent[|d.io.status.sent| - 1] == SEND_FAILED_STATUS
      && d.io.writes == io.writes
      && !d.sentNewline
  {
    assert SendTranscriptSpec(io.writes, io.broken, text, mode) == SendOutcome(io.writes, Err);
    FailureIsNotAnnouncement(name, remaining, dropNote);
  }

  /** The failure status always differs from a delivery announcement. */
  lemma FailureIsNotAnnouncement(name: string, remaining: nat, dropNote: Option<string>)
    ensures DeliveryStatus(name, remaining, dropNote) != SEND_FAILED_STATUS
  {
    assert DeliveryStatus(name, remaining, dropNote)[0] == 'T';
  }

  /** The announcement names the pipeline (and the drop note), and mentions the
      queue only when transcripts remain. */
  lemma DeliveryStatusShape(name: string, remaining: nat, dropNote: Option<string>)
    ensures var head := "Transcript ready (" + NotedLabel(name, dropNote) + ")";
      var status := DeliveryStatus(name, remaining, dropNote);
      && StartsWith(status, head)
      && (remaining == 0 <==> status == head)
      && (remaining > 0 ==> status[|head|..] == " • queued " + CountText(remaining))
  {
    var head := "Transcript ready (" + NotedLabel(name, dropNote) + ")";
    var status := DeliveryStatus(name, remaining, dropNote);
    if remaining > 0 {
      var tail := " • queued " + CountText(remaining);
      assert status == head + tail;
      assert status[..|head|] == head;
      assert status[|head|..] == tail;
      assert |status| > |head|;
    } else {
      assert status[..|head|] == head;
    }
  }

  /** The count in the announcement reads back as the number of transcripts left. */
  lemma CountTextReadsBack(n: nat)
    ensures forall i :: 0 <= i < |CountText(n)| ==> '0' <= CountText(n)[i] <= '9'
    ensures AsciiBytes(CountText(n)) == Decimal(n)
    ensures ParseDecimal(AsciiBytes(CountText(n))) == n
  {
    DecimalRoundTrip(n);
    assert AsciiBytes(CountText(n)) == Decimal(n);
  }

  // ---------------------------------------------------------------------------
  // try_flush_pending.

  /** The words a batch's label is shown with; those of a single pipeline come
      from the capture source's own label. */
  function PipelineName(pipeline: BatchLabel, sourceName: CaptureSource -> string): string {
    match pipeline
    case SourceLabel(source) => sourceName(source)
    case MixedPipelines => "Mixed pipelines"
  }

  /** The queue, the session and status line, and the last Enter after a flush. */
  datatype FlushOutcome = FlushOutcome(queue: seq<PendingTranscript>, io: IoState, lastEnterAt: Option<nat>)

  /** `try_flush_pending`, with readiness judged at `now` and the delivery made at
      `sentAt` (the overlay's later `Instant::now()`). */
  function TryFlushSpec(q: seq<PendingTranscript>, tracker: TrackerState, lastEnterAt: Option<nat>, io: IoState,
                     now: nat, timeout: nat, sentAt: nat, sourceName: CaptureSource -> string): FlushOutcome {
    if q == [] || !TranscriptReady(tracker, lastEnterAt, now, timeout) then FlushOutcome(q, io, lastEnterAt)
    else
      var merged := MergeSpec(q);
      match merged.batch
      case None => FlushOutcome(merged.rest, io, lastEnterAt)
      case Some(batch) =>
        var d := DeliverSpec(io, batch.text, PipelineName(batch.pipeline, sourceName), batch.mode, |merged.rest|, None, sentAt);
        FlushOutcome(merged.rest, d.io, if d.sentNewline then Some(sentAt) else lastEnterAt)
  }

  /** `try_flush_pending`: returns the new value of `last_enter_at`. */
  method TryFlushPending(pending: PendingTranscripts, tracker: PromptTracker, lastEnterAt: Option<nat>,
                         session: RecordingSession, board: StatusBoard, now: nat, timeout: nat, sentAt: nat,
                         sourceName: CaptureSource -> string)
    returns (newLastEnterAt: Option<nat>)
    modifies pending, session, board
    ensures FlushOutcome(pending.items, IoOf(session, board), newLastEnterAt) ==
      TryFlushSpec(old(pending.items), tracker.State(), lastEnterAt, old(IoOf(session, board)), now, timeout, sentAt, sourceName)
  {
    newLastEnterAt := lastEnterAt;
    if pending.items == [] || !TranscriptReady(tracker.State(), lastEnterAt, now, timeout) {
      return;
    }
    var batch := pending.Merge();
    if batch.None? {
      return;
    }
    var remaining := |pending.items|;
    var name := PipelineName(batch.value.pipeline, sourceName);
    var sentNewline := DeliverTranscript(batch.value.text, name, batch.value.mode, session, board, remaining, None, sentAt);
    if sentNewline {
      newLastEnterAt := Some(sentAt);
    }
  }

  /** Nothing happens while the queue is empty or the CLI is not ready. */
  lemma FlushWaitsForReadiness(q: seq<PendingTranscript>, tracker: TrackerState, lastEnterAt: Option<nat>, io: IoState,
                               now: nat, timeout: nat, sentAt: nat, sourceName: CaptureSource -> string)
    requires q == [] || !TranscriptReady(tracker, lastEnterAt, now, timeout)
    ensures TryFlushSpec(q, tracker, lastEnterAt, io, now, timeout, sentAt, sourceName) == FlushOutcome(q, io, lastEnterAt)
  {
  }

  /** When the CLI is ready, a flush drains exactly the front same-mode run and
      makes at most one write: the merged, trimmed text, submitted with Enter in
      Auto mode (which stamps the Enter) and typed in Insert mode. */
  lemma FlushDeliversFrontRun(q: seq<PendingTranscript>, tracker: TrackerState, lastEnterAt: Option<nat>, io: IoState,
                              now: nat, timeout: nat, sentAt: nat, sourceName: CaptureSource -> string)
    requires q != [] && TranscriptReady(tracker, lastEnterAt, now, timeout) && !io.broken
    ensures var out := TryFlushSpec(q, tracker, lastEnterAt, io, now, timeout, sentAt, sourceName);
      var n := SameModeRun(q, q[0].mode);
      && out.queue == q[n..]
      && (out.queue == [] || out.queue[0].mode != q[0].mode)
      && (MergeSpec(q).batch.None? ==> out.io == io && out.lastEnterAt == lastEnterAt)
      && (MergeSpec(q).batch.Some? ==>
            var batch := MergeSpec(q).batch.value;
            && IsTrimmedNonEmpty(batch.text)
            && out.io.writes == io.writes + [if q[0].mode == Auto then Submitted(batch.text) else Typed(batch.text)]
            && out.io.status.current == Some(DeliveryStatus(PipelineName(batch.pipeline, sourceName), |q[n..]|, None))
            && out.lastEnterAt == if q[0].mode == Auto then Some(sentAt) else lastEnterAt)
  {
    MergeTakesSameModeRun(q);
    if MergeSpec(q).batch.Some? {
      var batch := MergeSpec(q).batch.value;
      MergedTextIsTrimmed(q);
      assert !IsBlank(batch.text) by { BlankIffTrimEmpty(batch.text); }
      SendTranscriptContract(io.writes, io.broken, batch.text, batch.mode);
      DeliverAnnounces(io, batch.text, PipelineName(batch.pipeline, sourceName), batch.mode, |MergeSpec(q).rest|, None, sentAt);
    }
  }

  /** An Enter sent by a flush, no earlier than the last prompt sighting, makes the
      prompt unready: the same prompt never releases a second batch. */
  lemma FlushConsumesPrompt(q: seq<PendingTranscript>, tracker: TrackerState, lastEnterAt: Option<nat>, io: IoState,
                            now: nat, timeout: nat, sentAt: nat, sourceName: CaptureSource -> string)
    requires tracker.lastPromptSeenAt.Some? && tracker.lastPromptSeenAt.value <= sentAt
    requires TryFlushSpec(q, tracker, lastEnterAt, io, now, timeout, sentAt, sourceName).lastEnterAt == Some(sentAt)
    ensures !TranscriptReady(tracker, TryFlushSpec(q, tracker, lastEnterAt, io, now, timeout, sentAt, sourceName).lastEnterAt, now, timeout)
  {
  }

  /** The unit test: "hello" and "world" queued in Auto mode, output idle for 51 ms
      against a 50 ms timeout and no prompt seen, are submitted as "hello world"
      and the queue is emptied. */
  lemma FlushHelloWorld(start: nat, activity: nat, sentAt: nat, status: StatusState, sourceName: CaptureSource -> string)
    ensures var q := [PendingTranscript("hello", Native, Auto), PendingTranscript("world", Native, Auto)];
      var tracker := Initial(start).(lastOutputAt := activity, hasSeenOutput := true);
      var out := TryFlushSpec(q, tracker, None, IoState([], false, status), activity + 50 + 1, 50, sentAt, sourceName);
      && out.queue == []
      && out.io.writes == [Submitted("hello world")]
      && out.lastEnterAt == Some(sentAt)
  {
    var q := [PendingTranscript("hello", Native, Auto), PendingTranscript("world", Native, Auto)];
    var tracker := Initial(start).(lastOutputAt := activity, hasSeenOutput := true);
    HelloWorldMerge(Native, Auto);
    assert TranscriptReady(tracker, None, activity + 50 + 1, 50);
    FlushDeliversFrontRun(q, tracker, None, IoState([], false, status), activity + 50 + 1, 50, sentAt, sourceName);
  }
}
