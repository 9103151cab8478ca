# codex-voice: a verified model of the overlay's core

codex-voice puts a voice front end in front of the Codex CLI. The Rust overlay
(`codex_overlay`) runs Codex in a pseudo-terminal and forwards the user's keys
to it. Hot keys start or stop a voice capture, and the transcripts that come
back are queued until Codex shows its prompt, then typed or submitted into the
session. A status line on the bottom row reports what happened. The Python
helper (`codex_voice.py`) calls Codex non-interactively. It falls back from
argument mode to standard input, and to a pseudo-terminal when Codex insists on
a terminal.

This project models the logic of those pieces and proves what they promise.

| module (file) | models |
|---|---|
| `Wrappers` (`wrappers.dfy`) | `Option` and `Result` |
| `Text` (`text.dfy`) | `u8` bytes, Rust's `trim`/`trim_end` over Unicode whitespace, ASCII classes, decimal digits, UTF-8 length, ASCII lowering, substring search |
| `KeyInput` (`key_input.dfy`) | `InputParser`: the byte-to-`InputEvent` decoder with its hot-key table, CR/LF folding and CSI filter |
| `PendingQueue` (`pending_queue.dfy`) | the bounded transcript queue (`push_pending_transcript`) and the merge of its front run (`merge_pending_transcripts`) |
| `PromptTracking` (`prompt_tracking.dfy`) | `PromptTracker`, `looks_like_prompt`, and the readiness rules `prompt_ready`, `transcript_ready` and `should_auto_trigger` |
| `StatusLine` (`status_line.dfy`) | `sanitize_status`, `truncate_status`, the byte frames of `write_status_line` and `clear_status_line`, and `set_status` |
| `TranscriptDelivery` (`transcript_delivery.dfy`) | `send_transcript`, `deliver_transcript` and `try_flush_pending`, over a recording session and the status state |
| `VoiceJobs` (`voice_jobs.dfy`) | `VoiceManager`: `is_idle`, `cancel_capture`, `request_early_stop` and `poll_message` |
| `CodexInvoke` (`codex_invoke.dfy`) | the pseudo-terminal read loop's cursor-query handling, input termination, `_is_tty_error`, and the attempt sequence of `call_codex_auto` |

Each stateful Rust object is a Dafny `class` with the fields that the modelled
logic reads; "## Left out" lists the fields it drops or splits. Its methods
are proved against a function on the state, and the properties are lemmas
about those functions. Pure helpers are Dafny functions.

Some things become parameters:

- Instants and durations are milliseconds (`nat`). `Instant::now()` is passed in as `now`.
- The prompt regex is an optional predicate on the line.
- A pipeline's `label()` is a function from capture source to name.
- Child processes are functions from an attempt to its result.
- The job channel's `try_recv` is the `Receive` outcome handed to each poll.

## Model

| member | source | states |
|---|---|---|
| KeyInput.InputParser.constructor | rust_tui/src/bin/codex_overlay.rs:702-708 | a new parser has no pending bytes, no open escape and no LF to skip |
| KeyInput.InputParser.ConsumeEscape | rust_tui/src/bin/codex_overlay.rs:764-805 | whether the escape path took the byte, and the new state, as `ConsumeEscapeSpec` gives them: ESC opens a buffer; ESC plus a non-`[` byte passes through; a CSI ends at a final byte and is dropped only if it is a numeric `u` report; a buffer longer than 32 bytes passes through |
| KeyInput.InputParser.FlushPending | rust_tui/src/bin/codex_overlay.rs:807-815 | an open escape buffer joins the pending bytes, which leave as one `Bytes` event when non-empty; afterwards nothing is pending or open |
| KeyInput.InputParser.Step | rust_tui/src/bin/codex_overlay.rs:711-761 | the effect of one byte on the state and the appended events, as `StepSpec` gives them |
| KeyInput.InputParser.ConsumeBytes | rust_tui/src/bin/codex_overlay.rs:710-762 | the new state and the appended events equal the byte-by-byte fold `ConsumeSpec` of the chunk |
| KeyInput.ParseEvents | rust_tui/src/bin/codex_overlay.rs:1795-1803 | feeding the chunks to a fresh parser and flushing after each gives the events `ParseChunks` defines |
| KeyInput.IsCsiFinal | rust_tui/src/bin/codex_overlay.rs:817-819 | a CSI final byte is one in 0x40..0x7E |
| KeyInput.IsCsiUNumeric | rust_tui/src/bin/codex_overlay.rs:821-831 | a numeric `u` report is `ESC [`, then only digits and `;`, then `u`, at least three bytes in all |
| KeyInput.HotKey | rust_tui/src/bin/codex_overlay.rs:723-758 | the hot-key table: Ctrl-Q, Ctrl-R, Ctrl-V, Ctrl-T, 0x1d, 0x1c, 0x1f, CR and LF and the command each one stands for |
| KeyInput.FlushSpec | rust_tui/src/bin/codex_overlay.rs:807-815 | after a flush the parser holds nothing and keeps only its skip-LF flag |
| KeyInput.ConsumeAppend | rust_tui/src/bin/codex_overlay.rs:710-762 | consuming `a + b` equals consuming `a` and then `b`: bytes may be split across reads at any point |
| KeyInput.ConsumeSnoc | rust_tui/src/bin/codex_overlay.rs:711-761 | consuming one more byte is one more step |
| KeyInput.ConsumeSingle | rust_tui/src/bin/codex_overlay.rs:711-761 | consuming a one-byte chunk is one step |
| KeyInput.ConsumePair | rust_tui/src/bin/codex_overlay.rs:711-761 | consuming a two-byte chunk is two steps |
| KeyInput.PlainBytesAccumulate | rust_tui/src/bin/codex_overlay.rs:711-761 | bytes that are neither ESC nor a hot key only accumulate as pending bytes and clear the skip-LF flag |
| KeyInput.StepHotKey | rust_tui/src/bin/codex_overlay.rs:715-758 | a hot-key byte flushes the pending bytes, then emits its command; only CR arms the skip of a following LF |
| KeyInput.HotKeyByte | rust_tui/src/bin/codex_overlay.rs:715-758 | the same for a one-byte chunk |
| KeyInput.StepSkippedLf | rust_tui/src/bin/codex_overlay.rs:715-719 | an LF right after CR emits nothing and disarms the skip |
| KeyInput.CrLfIsOneEnter | rust_tui/src/bin/codex_overlay.rs:715-758 | CR LF is one Enter key |
| KeyInput.CrArmsSkip | rust_tui/src/bin/codex_overlay.rs:752-758 | CR is Enter and arms the LF skip |
| KeyInput.ArmedLf | rust_tui/src/bin/codex_overlay.rs:715-719 | an armed parser swallows the LF |
| KeyInput.CrLfAcrossReads | rust_tui/src/bin/codex_overlay.rs:1972-1977 | CR and LF in separate reads, with the flush between them, still give a single Enter |
| KeyInput.CrKeepsNextByte | rust_tui/src/bin/codex_overlay.rs:1978-1986 | after CR, a byte other than LF or ESC is handled as it would be on a fresh line |
| KeyInput.EscapeNonBracket | rust_tui/src/bin/codex_overlay.rs:767-803 | ESC followed by anything but `[` passes through as two plain bytes |
| KeyInput.CsiIntroducer | rust_tui/src/bin/codex_overlay.rs:767-803 | `ESC [` opens a CSI buffer and emits nothing |
| KeyInput.CsiBuffers | rust_tui/src/bin/codex_overlay.rs:775-791 | non-final bytes after `ESC [` are buffered while the buffer stays within 32 bytes |
| KeyInput.CsiOpen | rust_tui/src/bin/codex_overlay.rs:767-803 | `ESC [` followed by non-final bytes is held in the escape buffer |
| KeyInput.CsiSequence | rust_tui/src/bin/codex_overlay.rs:775-784 | a complete CSI within 32 bytes is dropped if it is a numeric `u` report and otherwise passed through whole |
| KeyInput.StepOverflow | rust_tui/src/bin/codex_overlay.rs:785-789 | a non-final byte that takes a CSI buffer past 32 bytes releases the buffer as plain bytes |
| KeyInput.CsiOverflow | rust_tui/src/bin/codex_overlay.rs:785-789 | 33 bytes of unterminated CSI are passed through as plain bytes |
| KeyInput.OverflowAfterOpen | rust_tui/src/bin/codex_overlay.rs:785-789 | a full 32-byte CSI buffer followed by a non-final byte is passed through whole |
| KeyInput.UnfinishedCsiFlushed | rust_tui/src/bin/codex_overlay.rs:807-815 | a CSI cut off at the end of a read is emitted as bytes by the flush |
| KeyInput.LoneEscapeFlushed | rust_tui/src/bin/codex_overlay.rs:807-815 | a lone ESC at the end of a read is emitted as bytes by the flush |
| KeyInput.CrThenEscape | rust_tui/src/bin/codex_overlay.rs:711-758 | after CR, an escape pair passes through as pending bytes and the LF skip stays armed |
| KeyInput.SkipLfSurvivesEscape | rust_tui/src/bin/codex_overlay.rs:711-721 | CR, ESC x, LF: the LF is still swallowed, because the escape path leaves the skip armed |
| KeyInput.CsiUNumericEndsWithFinal | rust_tui/src/bin/codex_overlay.rs:817-831 | a numeric `u` report ends with a CSI final byte and contains none before it |
| KeyInput.OneChunk | rust_tui/src/bin/codex_overlay.rs:1795-1803 | parsing a single chunk means consuming it, then flushing |
| KeyInput.PlainThenHotKey | rust_tui/src/bin/codex_overlay.rs:1940-1952 | plain bytes followed by a hot key give `Bytes` then the command, and the parser is fresh again |
| KeyInput.BytesAroundHotKey | rust_tui/src/bin/codex_overlay.rs:1940-1952 | plain text, a hot key and more plain text give three events in order |
| KeyInput.BytesAroundControl | rust_tui/src/bin/codex_overlay.rs:1940-1952 | `hi`, Ctrl-R, `there` give `Bytes("hi")`, VoiceTrigger, `Bytes("there")` |
| KeyInput.ControlKeysAlone | rust_tui/src/bin/codex_overlay.rs:1953-1971 | a hot-key byte on its own gives exactly its command |
| KeyInput.CommandKeys | rust_tui/src/bin/codex_overlay.rs:1953-1971 | Ctrl-Q, Ctrl-R, Ctrl-V and Ctrl-T map to Exit, VoiceTrigger, ToggleAutoVoice and ToggleSendMode |
| KeyInput.SensitivityAndEnterKeys | rust_tui/src/bin/codex_overlay.rs:1953-1971 | 0x1d raises sensitivity; 0x1c and 0x1f lower it; LF is Enter |
| KeyInput.CrThenLfInSeparateReads | rust_tui/src/bin/codex_overlay.rs:1972-1977 | chunks `[CR]` and `[LF]` give one Enter |
| KeyInput.CsiUReportDropped | rust_tui/src/bin/codex_overlay.rs:1987-1992 | any `ESC [ digits;... u` report that fits in the buffer produces no events |
| KeyInput.ArrowKeyPreserved | rust_tui/src/bin/codex_overlay.rs:1993-1998 | `ESC [ A` reaches Codex unchanged |
| PendingQueue.PendingTranscripts.constructor | rust_tui/src/bin/codex_overlay.rs:169 | the queue starts empty |
| PendingQueue.PendingTranscripts.Push | rust_tui/src/bin/codex_overlay.rs:574-586 | the new queue is `Pushed` of the old one, and the result is true exactly when the queue was full |
| PendingQueue.Pushed | rust_tui/src/bin/codex_overlay.rs:574-586 | the pushed transcript is last; the length grows by one unless the queue was full |
| PendingQueue.PushAllKeepsLatest | rust_tui/src/bin/codex_overlay.rs:574-586 | any run of pushes keeps exactly the last five transcripts, in order |
| PendingQueue.PushBounded | rust_tui/src/bin/codex_overlay.rs:578-583 | the queue never grows past five, and is full after a push exactly when it held at least four |
| PendingQueue.SixthPushDropsOldest | rust_tui/src/bin/codex_overlay.rs:2381-2408 | a push onto five queued transcripts drops the oldest and keeps the other four in order, with the new one last |
| PendingQueue.PendingTranscripts.Merge | rust_tui/src/bin/codex_overlay.rs:612-642 | the batch returned and the queue left behind are those `MergeSpec` gives |
| PendingQueue.SameModeRun | rust_tui/src/bin/codex_overlay.rs:616-623 | the length of the longest prefix of the queue in the given mode |
| PendingQueue.Collected | rust_tui/src/bin/codex_overlay.rs:624-628 | one trimmed part and one source per non-blank entry, never more than there are entries |
| PendingQueue.LabelOf | rust_tui/src/bin/codex_overlay.rs:633-637 | a single source's label exactly when all sources agree; otherwise the mixed label |
| PendingQueue.MergeTakesSameModeRun | rust_tui/src/bin/codex_overlay.rs:612-623 | a merge of a non-empty queue consumes the whole front run of the first mode, at least one entry, and stops at the first entry of another mode |
| PendingQueue.MergeNoneIff | rust_tui/src/bin/codex_overlay.rs:630-632 | no batch exactly when the queue is empty or every entry of the front run is blank |
| PendingQueue.CollectedEmptyIff | rust_tui/src/bin/codex_overlay.rs:624-632 | nothing is collected exactly when every entry is blank |
| PendingQueue.CollectedPartsTrimmed | rust_tui/src/bin/codex_overlay.rs:624-628 | every collected part is trimmed and non-empty |
| PendingQueue.MergedTextIsTrimmed | rust_tui/src/bin/codex_overlay.rs:638-641 | the batch text is non-empty, trimming leaves it unchanged, and it carries the front run's mode |
| PendingQueue.MergeLabel | rust_tui/src/bin/codex_overlay.rs:633-637 | the batch is labelled by the common source of its parts, or as mixed when they differ |
| PendingQueue.MergeStopsAtModeChange | rust_tui/src/bin/codex_overlay.rs:616-623 | a mode change after the first entry leaves the rest queued and sends the first entry alone |
| PendingQueue.MergeTwoTrimmed | rust_tui/src/bin/codex_overlay.rs:638-641 | two same-mode, same-source transcripts are joined by one space |
| PendingQueue.HelloWorldMerge | rust_tui/src/bin/codex_overlay.rs:2409-2457 | `hello` and `world` from one pipeline in one mode merge to `hello world` and empty the queue |
| PromptTracking.PromptTracker.constructor | rust_tui/src/bin/codex_overlay.rs:1647-1658 | a new tracker has no prompt, no sighting, no output seen, an empty line and its last output set to the creation instant |
| PromptTracking.PromptTracker.FlushLine | rust_tui/src/bin/codex_overlay.rs:1714-1724 | the new state is `FlushLineSpec`: the line is cleared; a non-blank one becomes the last line and records a sighting when it matches the prompt |
| PromptTracking.PromptTracker.FeedOutput | rust_tui/src/bin/codex_overlay.rs:1660-1682 | the new state is `FeedSpec`: output is marked seen at `now`, and each byte is folded into the line buffer |
| PromptTracking.PromptTracker.OnIdle | rust_tui/src/bin/codex_overlay.rs:1684-1712 | the new state is `OnIdleSpec` of the old one |
| PromptTracking.PromptTracker.NoteActivity | rust_tui/src/bin/codex_overlay.rs:1754-1757 | only the last-output instant and the seen-output flag change |
| PromptTracking.MatchesPrompt | rust_tui/src/bin/codex_overlay.rs:1726-1734 | `matches_prompt`: the configured pattern decides; failing that, the learned prompt is compared without trailing whitespace; failing that, no match |
| PromptTracking.LooksLikePrompt | rust_tui/src/bin/codex_overlay.rs:1768-1777 | `looks_like_prompt`: without trailing whitespace the line is non-empty, at most 80 UTF-8 bytes, and ends in one of five prompt glyphs |
| PromptTracking.IdleReady | rust_tui/src/bin/codex_overlay.rs:1759-1761 | `idle_ready`: the time since the last output reaches the timeout |
| PromptTracking.DurationSince | rust_tui/src/bin/codex_overlay.rs:1759-1761 | `now - earlier` when that is non-negative, else zero |
| PromptTracking.LineString | rust_tui/src/bin/codex_overlay.rs:1742-1744 | the line as text has one character per byte |
| PromptTracking.Visible | rust_tui/src/bin/codex_overlay.rs:1665-1680 | what a run of bytes without line breaks adds to the line is printable, and no longer than the run |
| PromptTracking.PromptReady | rust_tui/src/bin/codex_overlay.rs:1256-1262 | `prompt_ready`: a prompt was seen, and later than the last Enter if there was one |
| PromptTracking.TranscriptReady | rust_tui/src/bin/codex_overlay.rs:1264-1277 | `transcript_ready`: the prompt is ready, or no prompt was ever seen and the output is idle |
| PromptTracking.ShouldAutoTrigger | rust_tui/src/bin/codex_overlay.rs:1279-1299 | `should_auto_trigger`: the three branches, with "newer than the last trigger" strict |
| PromptTracking.PromptReadyIff | rust_tui/src/bin/codex_overlay.rs:1256-1262 | ready exactly when a prompt was seen and no Enter was recorded at or after it |
| PromptTracking.TranscriptReadyCases | rust_tui/src/bin/codex_overlay.rs:1264-1277 | once a prompt was ever seen, readiness is prompt readiness; before that, it is idle readiness |
| PromptTracking.IdleReadyIff | rust_tui/src/bin/codex_overlay.rs:1759-1761 | idle exactly when the timeout is zero or at least `timeout` has passed since the last output |
| PromptTracking.TranscriptReadyMonotone | rust_tui/src/bin/codex_overlay.rs:1264-1277 | readiness is never lost just because time passes |
| PromptTracking.NoRetriggerWithoutNews | rust_tui/src/bin/codex_overlay.rs:1279-1299 | with no prompt sighting and no output after the last trigger, auto-voice does not fire again |
| PromptTracking.NewPromptTriggers | rust_tui/src/bin/codex_overlay.rs:1286-1290 | a prompt sighting later than the last trigger (or with none) always fires |
| PromptTracking.SilentSessionTriggersOnce | rust_tui/src/bin/codex_overlay.rs:1285-1287 | before any output, auto-voice fires exactly when it never fired and the session went idle |
| PromptTracking.FeedWithinLine | rust_tui/src/bin/codex_overlay.rs:1664-1681 | bytes without CR or LF only extend the current line by their visible part |
| PromptTracking.FeedCompleteLine | rust_tui/src/bin/codex_overlay.rs:1666-1669 | an LF-terminated line empties the buffer; it becomes the last line unless blank, and it records a sighting exactly when it matches the prompt |
| PromptTracking.FeedKeepsPrintable | rust_tui/src/bin/codex_overlay.rs:1664-1681 | the line buffer only ever holds bytes 0x20-0x7E |
| PromptTracking.FeedMarksOutput | rust_tui/src/bin/codex_overlay.rs:1660-1662 | feeding records output at `now` and never changes the learned prompt |
| PromptTracking.FeedPreserves | rust_tui/src/bin/codex_overlay.rs:1664-1681 | the byte loop leaves the output instant, the seen flag and the learned prompt alone |
| PromptTracking.FeedAppend | rust_tui/src/bin/codex_overlay.rs:1664-1681 | feeding `a + b` equals feeding `a` and then `b` |
| PromptTracking.VisibleAppend | rust_tui/src/bin/codex_overlay.rs:1665-1680 | the visible part of `a + b` is the visible part of `a` followed by that of `b` |
| PromptTracking.VisibleSnoc | rust_tui/src/bin/codex_overlay.rs:1672-1679 | a tab adds a space, a kept byte adds itself, anything else adds nothing |
| PromptTracking.VisibleSkipsDropped | rust_tui/src/bin/codex_overlay.rs:1679 | bytes outside the kept set add nothing to the line |
| PromptTracking.VisibleOfKept | rust_tui/src/bin/codex_overlay.rs:1676-1678 | printable bytes other than tab are kept unchanged |
| PromptTracking.LearnedPromptIgnoresTrailingBlank | rust_tui/src/bin/codex_overlay.rs:1730-1732 | a line that is the learned prompt plus trailing whitespace matches it |
| PromptTracking.LooksLikePromptIgnoresTrailingBlank | rust_tui/src/bin/codex_overlay.rs:1768-1777 | trailing whitespace never changes whether a line looks like a prompt |
| PromptTracking.OnIdleLearnsOnlyPrompts | rust_tui/src/bin/codex_overlay.rs:1684-1712 | the learned prompt changes only when none is known, there is no pattern, output was seen and went idle, and the candidate looks like a prompt; it then becomes that candidate and the sighting is now; an existing prompt is kept; the line buffers and the output instant never change |
| PromptTracking.IdleSightingMakesPromptReady | rust_tui/src/bin/codex_overlay.rs:1684-1712 | an idle sighting makes the prompt ready for any Enter pressed before it |
| PromptTracking.FeedFreshLine | rust_tui/src/bin/codex_overlay.rs:1666-1669 | a non-blank line fed from an empty buffer becomes the last line |
| PromptTracking.FeedCrClearsLine | rust_tui/src/bin/codex_overlay.rs:1670-1672 | text followed by CR leaves no trace in the state |
| PromptTracking.TabBecomesSpace | rust_tui/src/bin/codex_overlay.rs:1673-1675 | `de<TAB>f` becomes the line `de f` |
| PromptTracking.FeedHandlesControlBytes | rust_tui/src/bin/codex_overlay.rs:2096-2104 | `ab\rde\tf\n` leaves `de f` as the last line |
| PromptTracking.FeedDropsNonGraphicBytes | rust_tui/src/bin/codex_overlay.rs:2198-2205 | the two bytes of a UTF-8 no-break space are dropped, so the line is `hithere` |
| PromptTracking.CodexPromptLine | rust_tui/src/bin/codex_overlay.rs:1768-1777 | the bytes of `codex> ` are kept as they are, and the line looks like a prompt |
| PromptTracking.FeedCodexPrompt | rust_tui/src/bin/codex_overlay.rs:2141-2150 | after the unfinished line `codex> `, the tracker has seen output and the idle candidate is that line |
| PromptTracking.LearnsPromptOnIdle | rust_tui/src/bin/codex_overlay.rs:2141-2150 | once idle, the unfinished line `codex> ` is learned as the prompt and counts as a sighting now |
| PromptTracking.PatternBlocksLearning | rust_tui/src/bin/codex_overlay.rs:2216-2226 | with a pattern configured nothing is learned, and a sighting needs a matching candidate |
| PromptTracking.PatternMatchesCompletedLine | rust_tui/src/bin/codex_overlay.rs:2151-2159 | a completed line that matches the pattern records a sighting |
| PromptTracking.LearnedPromptMatching | rust_tui/src/bin/codex_overlay.rs:2227-2242 | a learned prompt matches itself and rejects a different line |
| PromptTracking.IdleThresholdInclusive | rust_tui/src/bin/codex_overlay.rs:2105-2113 | exactly `timeout` of silence already counts as idle, and a new tracker has seen no output |
| PromptTracking.AutoTriggerVectors | rust_tui/src/bin/codex_overlay.rs:2057-2095 | the auto-trigger cases: a fresh prompt fires; an already-answered one does not; idle with new output fires; output too recent does not |
| PromptTracking.AutoTriggerEqualTimes | rust_tui/src/bin/codex_overlay.rs:2251-2264 | a prompt and output at the same instant as the last trigger do not fire, even with a zero timeout |
| StatusLine.SanitizeStatus | rust_tui/src/bin/codex_overlay.rs:1029-1039 | same length; ASCII graphic characters and spaces are kept; every other character becomes a space |
| StatusLine.SanitizeIdempotent | rust_tui/src/bin/codex_overlay.rs:1029-1039 | sanitizing twice is sanitizing once |
| StatusLine.TruncateStatus | rust_tui/src/bin/codex_overlay.rs:1041-1046 | a prefix of the text with at most `max` characters, the whole text when it fits |
| StatusLine.StatusText | rust_tui/src/bin/codex_overlay.rs:1006-1007 | the drawn text fits the width and holds only printable ASCII |
| StatusLine.DigitRun | rust_tui/src/bin/codex_overlay.rs:1010 | the length of the leading run of decimal digits |
| StatusLine.WriteStatusLine | rust_tui/src/bin/codex_overlay.rs:1002-1015 | `write_status_line`: nothing for a zero size, else save the cursor, move to the bottom row, clear it, draw the sanitized and truncated text, restore the cursor |
| StatusLine.ClearStatusLine | rust_tui/src/bin/codex_overlay.rs:1017-1027 | `clear_status_line`: the same frame with no text |
| StatusLine.StatusFrameRoundTrip | rust_tui/src/bin/codex_overlay.rs:1008-1013 | a frame (save cursor, move to row, erase line, payload, restore cursor) reads back as its row and its payload |
| StatusLine.WriteStatusLineReadsBack | rust_tui/src/bin/codex_overlay.rs:1002-1015 | nothing is written with no rows or columns; otherwise the frame reads back as the bottom row and the sanitized, truncated text |
| StatusLine.ClearIsEmptyStatus | rust_tui/src/bin/codex_overlay.rs:1017-1027 | clearing is drawing an empty status on the same row |
| StatusLine.StatusPayloadPrintable | rust_tui/src/bin/codex_overlay.rs:1006-1012 | the payload never holds a control byte, so it cannot end the frame early |
| StatusLine.DigitRunOfDecimal | rust_tui/src/bin/codex_overlay.rs:1010 | a row number's digits are read back up to the `;` |
| StatusLine.DigitRunPrefix | rust_tui/src/bin/codex_overlay.rs:1010 | a run of digits is read back up to the first non-digit |
| StatusLine.ParsePayloadOf | rust_tui/src/bin/codex_overlay.rs:1010-1013 | the part after the row number reads back as the payload |
| StatusLine.ParseRowOf | rust_tui/src/bin/codex_overlay.rs:1010 | the row number is read back from its decimal digits |
| StatusLine.StatusBoard.constructor | rust_tui/src/bin/codex_overlay.rs:1322-1339 | no status, no clear deadline, nothing sent to the writer |
| StatusLine.StatusBoard.SetStatus | rust_tui/src/bin/codex_overlay.rs:1048-1063 | the new state is `SetStatusSpec` |
| StatusLine.SetStatusIdempotent | rust_tui/src/bin/codex_overlay.rs:1055-1057 | setting the current text again changes nothing, not even the deadline |
| StatusLine.SetStatusNewText | rust_tui/src/bin/codex_overlay.rs:1058-1062 | new text is sent to the writer once, becomes current, and sets the deadline to `now + clear_after`, or clears it |
| StatusLine.SanitizeExample | rust_tui/src/bin/codex_overlay.rs:1999-2006 | tab and newline become spaces |
| StatusLine.TruncateExamples | rust_tui/src/bin/codex_overlay.rs:1999-2006 | a zero width gives the empty string; width 2 keeps `he` |
| StatusLine.WriteStatusExample | rust_tui/src/bin/codex_overlay.rs:2007-2030 | the exact bytes written for `hi` on row 2 and for a clear, and nothing with a zero dimension |
| StatusLine.SetStatusDeadlineExample | rust_tui/src/bin/codex_overlay.rs:2031-2056 | a status with a timeout gets a deadline in the future; a status without one clears it |
| TranscriptDelivery.RecordingSession.constructor | rust_tui/src/bin/codex_overlay.rs:1805-1821 | a session that has received nothing and fails every write when `broken` |
| TranscriptDelivery.RecordingSession.SendText | rust_tui/src/bin/codex_overlay.rs:90-98 | a working session records the text as typed; a broken one records nothing and reports the error |
| TranscriptDelivery.RecordingSession.SendTextWithNewline | rust_tui/src/bin/codex_overlay.rs:90-103 | the same, with the text recorded as submitted with Enter |
| TranscriptDelivery.SendTranscript | rust_tui/src/bin/codex_overlay.rs:1203-1222 | the session's writes and the result are those `SendTranscriptSpec` gives |
| TranscriptDelivery.SendTranscriptContract | rust_tui/src/bin/codex_overlay.rs:1203-1222 | blank text sends nothing and gives `Ok(false)`; otherwise exactly the trimmed text is written, submitted in auto mode and typed in insert mode, or `Err` when the session fails; `Ok(true)` exactly for a non-blank auto send that succeeded |
| TranscriptDelivery.SendTranscriptAutoExample | rust_tui/src/bin/codex_overlay.rs:2365-2380 | ` hello ` in auto mode submits `hello` |
| TranscriptDelivery.SendTranscriptInsertExample | rust_tui/src/bin/codex_overlay.rs:2365-2380 | ` hi ` in insert mode types `hi` without Enter |
| TranscriptDelivery.SendTranscriptBlankExample | rust_tui/src/bin/codex_overlay.rs:1208-1210 | blank text sends nothing |
| TranscriptDelivery.CountText | rust_tui/src/bin/codex_overlay.rs:1238 | a count is rendered as a non-empty string |
| TranscriptDelivery.CountTextReadsBack | rust_tui/src/bin/codex_overlay.rs:1238 | the count is written in decimal digits that read back as the count |
| TranscriptDelivery.FailureIsNotAnnouncement | rust_tui/src/bin/codex_overlay.rs:1240-1251 | the failure status never equals an announcement, so a failed send always replaces it |
| TranscriptDelivery.DeliveryStatusShape | rust_tui/src/bin/codex_overlay.rs:1232-1239 | the status is `Transcript ready (label[, note])`, followed by ` • queued n` exactly when transcripts remain |
| TranscriptDelivery.DeliverTranscript | rust_tui/src/bin/codex_overlay.rs:1224-1254 | the session, the status state and the result are those `DeliverSpec` gives |
| TranscriptDelivery.DeliverAnnounces | rust_tui/src/bin/codex_overlay.rs:1240-1243 | when the send does not fail, the status announces the delivery, the session gets what `send_transcript` writes, and Enter is sent exactly for non-blank text in auto mode |
| TranscriptDelivery.DeliverReportsFailure | rust_tui/src/bin/codex_overlay.rs:1244-1251 | when the session fails, nothing is written, no Enter is reported, and the failure status is the current status and the last one sent |
| TranscriptDelivery.TryFlushPending | rust_tui/src/bin/codex_overlay.rs:588-610 | the queue, the session, the status state and the new last-Enter instant are those `TryFlushSpec` gives |
| TranscriptDelivery.FlushWaitsForReadiness | rust_tui/src/bin/codex_overlay.rs:596-600 | an empty queue, or one not yet ready, is left untouched and nothing is sent |
| TranscriptDelivery.FlushDeliversFrontRun | rust_tui/src/bin/codex_overlay.rs:588-610 | when ready, the front run of one mode is consumed and merged; its trimmed joined text is written once, submitted in auto mode; the status counts the transcripts left; an Enter updates the last-Enter instant |
| TranscriptDelivery.FlushConsumesPrompt | rust_tui/src/bin/codex_overlay.rs:606-609 | a flush that pressed Enter after the last prompt sighting makes the prompt not ready again |
| TranscriptDelivery.FlushHelloWorld | rust_tui/src/bin/codex_overlay.rs:2409-2457 | two queued auto transcripts on an idle session are submitted as `hello world` and the queue empties |
| VoiceJobs.VoiceManager.constructor | rust_tui/src/bin/codex_overlay.rs:1351-1360 | no job, no pending cancellation, no active source |
| VoiceJobs.VoiceManager.IsIdle | rust_tui/src/bin/codex_overlay.rs:1371-1373 | idle exactly when no job runs |
| VoiceJobs.VoiceManager.CancelCapture | rust_tui/src/bin/codex_overlay.rs:1379-1390 | true exactly when a job was running; the job is told to stop and its result marked for dropping |
| VoiceJobs.VoiceManager.RequestEarlyStop | rust_tui/src/bin/codex_overlay.rs:1392-1401 | true exactly when a job was running; the job is told to stop and its result is kept |
| VoiceJobs.VoiceManager.PollMessage | rust_tui/src/bin/codex_overlay.rs:1472-1508 | the message returned and the new state are those `PollSpec` gives |
| VoiceJobs.OperationsKeepConsistent | rust_tui/src/bin/codex_overlay.rs:1380-1508 | a pending cancellation always belongs to a running job that was told to stop, whatever operation runs |
| VoiceJobs.StopRequests | rust_tui/src/bin/codex_overlay.rs:1380-1401 | both stop requests act only on a running job and leave it running but stopping; only a cancellation marks the result for dropping; cancelling twice is cancelling once |
| VoiceJobs.PollEndsJob | rust_tui/src/bin/codex_overlay.rs:1472-1508 | an empty channel changes nothing; a message or a disconnect ends the job and leaves the manager idle with nothing pending |
| VoiceJobs.PollDeliversUncancelled | rust_tui/src/bin/codex_overlay.rs:1474-1505 | without a cancellation the message is handed on unchanged, and a vanished worker is reported as an error |
| VoiceJobs.QuietAfterPolls | rust_tui/src/bin/codex_overlay.rs:1472-1508 | a cancelled or idle manager stays so through any number of polls |
| VoiceJobs.CancelSuppressesResult | rust_tui/src/bin/codex_overlay.rs:2160-2197 | after a cancellation no poll ever returns a message or an error from that job |
| VoiceJobs.NewManagerIsIdle | rust_tui/src/bin/codex_overlay.rs:2132-2140 | a new manager is idle with no source; it stays idle with only a source set, and a job makes it busy |
| VoiceJobs.EarlyStopExample | rust_tui/src/bin/codex_overlay.rs:2287-2303 | early stop without a job does nothing; with one, it sets the stop flag |
| VoiceJobs.CancelExample | rust_tui/src/bin/codex_overlay.rs:2160-2197 | a cancelled capture polled while busy and then after its report delivers nothing and ends idle |
| CodexInvoke.TerminateInput | codex_voice.py:80-83 | the result ends in a newline and starts with the input, and is one byte longer only when the input did not end in one |
| CodexInvoke.TerminateInputIdempotent | codex_voice.py:80-83 | terminating twice is terminating once, and it changes the input exactly when no newline closed it |
| CodexInvoke.PtyCapture.constructor | codex_voice.py:80-86 | non-empty input is written once, newline-terminated; empty input writes nothing; no output yet |
| CodexInvoke.PtyCapture.TakeChunk | codex_voice.py:113-118 | the chunk minus its cursor queries is appended to the output, and one cursor report goes back when the chunk held a query |
| CodexInvoke.PtyCapture.TakeChunks | codex_voice.py:111-131 | the output gains `Kept` of the chunks and the child receives `Replies` |
| CodexInvoke.StripQueries | codex_voice.py:114-115 | removing the queries never lengthens a chunk |
| CodexInvoke.StripWithoutQuery | codex_voice.py:114-115 | a chunk without a query is unchanged |
| CodexInvoke.StripShortens | codex_voice.py:114-115 | a chunk with a query loses at least the query's four bytes |
| CodexInvoke.StripChangesIffQuery | codex_voice.py:114-115 | stripping changes a chunk exactly when it holds a query |
| CodexInvoke.StripKeepsPlainPrefix | codex_voice.py:114-115 | bytes before the first ESC pass through untouched |
| CodexInvoke.StripDropsLeadingQuery | codex_voice.py:114-115 | a query at the front is removed |
| CodexInvoke.StripDoesNotRescan | codex_voice.py:114-115 | removal is one left-to-right pass, so a query formed by joining the pieces around a removed one survives |
| CodexInvoke.Replies | codex_voice.py:114-117 | only cursor reports `ESC [1;1R` are sent back, at most one per chunk |
| CodexInvoke.RepliesPerQueryChunk | codex_voice.py:114-117 | exactly one reply per chunk that holds a query |
| CodexInvoke.QuietChunk | codex_voice.py:113-118 | a chunk without queries is kept whole and draws no reply |
| CodexInvoke.TwoQueriesOneReply | codex_voice.py:114-117 | two queries in one chunk are both removed but draw a single reply |
| CodexInvoke.SplitQueryUnanswered | codex_voice.py:112-118 | a query split across two reads is neither removed nor answered |
| CodexInvoke.ShortChunkHasNoQuery | codex_voice.py:114 | a chunk shorter than a query holds none |
| CodexInvoke.ContainsAt | codex_voice.py:142 | the substring test holds exactly when the needle occurs at some position |
| CodexInvoke.IsTtyError | codex_voice.py:139-142 | `_is_tty_error`: the lowered message contains "stdout is not a terminal", "isatty" or "not a tty" |
| CodexInvoke.IsTtyErrorIff | codex_voice.py:139-142 | a TTY error exactly when the lowered message contains one of the three phrases at some position |
| CodexInvoke.TtyErrorExample | codex_voice.py:139-142 | any message containing `not a TTY`, capitals as the CLI prints them, is a TTY error |
| CodexInvoke.ShortMessageIsNotTtyError | codex_voice.py:139-142 | a message shorter than every phrase is not a TTY error |
| CodexInvoke.CallCodexAuto | codex_voice.py:259-278 | the result of running the two attempts in order, returning, raising its own error or letting an exception escape, is `InvokeSpec` |
| CodexInvoke.ArgumentModeFirst | codex_voice.py:264-267 | when argument mode succeeds its output is returned and standard input is never tried |
| CodexInvoke.AllAttemptsFail | codex_voice.py:268-278 | when both attempts fail, the error is the prefix and every collected message, in order, joined by `---` lines |
| CodexInvoke.InvokeSucceedsIff | codex_voice.py:264-278 | the call returns output exactly when some attempt succeeds, directly or through its pseudo-terminal retry, and every attempt before it fails with a `RuntimeError` |
| CodexInvoke.InvokeReturnsFirstSuccess | codex_voice.py:259-278 | when an attempt succeeds after outright failures only, the call returns that attempt's output, or its pseudo-terminal retry's |
| CodexInvoke.InvokeRaisesIff | codex_voice.py:264-268 | an exception other than `RuntimeError` escapes exactly when `_run` raises one in some attempt and every attempt before it failed outright |
| CodexInvoke.InvokeFailsIff | codex_voice.py:264-278 | the call raises "Codex invocation failed" exactly when every attempt fails outright |
| CodexInvoke.ArgumentModeRaiseEscapes | codex_voice.py:264-268 | an exception other than `RuntimeError` in argument mode escapes at once; standard input is not tried |
| CodexInvoke.PtyOnlyForTtyErrors | codex_voice.py:270-275 | on Windows, or when no failure is a TTY error, the pseudo-terminal runner is never consulted |
| CodexInvoke.PtyRetryExample | codex_voice.py:259-278 | off Windows, an argument-mode failure that is a TTY error is retried under a pseudo-terminal, and that output is returned before standard input is tried |
| CodexInvoke.WindowsSkipsPty | codex_voice.py:270 | on Windows an argument-mode failure, whatever its message, falls through to standard-input mode |
| Text.TrimStart | rust_tui/src/bin/codex_overlay.rs:1208 | drops the leading whitespace and nothing more |
| Text.TrimEnd | rust_tui/src/bin/codex_overlay.rs:1769 | drops the trailing whitespace and nothing more |
| Text.BlankIffTrimEmpty | rust_tui/src/bin/codex_overlay.rs:1208-1209 | `s.trim().is_empty()` exactly when every character is whitespace |
| Text.TrimIdempotent | rust_tui/src/bin/codex_overlay.rs:1208 | trimming twice is trimming once |
| Text.TrimEndIgnoresTrailingBlank | rust_tui/src/bin/codex_overlay.rs:1731 | trailing whitespace does not change `trim_end` |
| Text.JoinOfTrimmedIsTrimmed | rust_tui/src/bin/codex_overlay.rs:638 | joining trimmed non-empty parts gives a trimmed non-empty string |
| Text.Utf8LenAscii | rust_tui/src/bin/codex_overlay.rs:1770 | for ASCII, the UTF-8 length is the character count |
| Text.DecimalRoundTrip | rust_tui/src/bin/codex_overlay.rs:1010 | a number's decimal digits read back as that number |
| Text.Lower | codex_voice.py:141 | the lowered text has the same length and no capital letter left; each capital becomes its small letter and every other character is unchanged |
| Text.LowerIdempotent | codex_voice.py:141 | lowering twice is lowering once |

## Left out

- Terminal and process plumbing is not part of this model:
  - the overlay's main loop, its input, writer and SIGWINCH threads, and its channels;
  - `maybe_redraw_status`;
  - the Codex pseudo-terminal session and its resizing;
  - the prompt log and its rotation, and `log_debug`.
- ANSI stripping (`strip_ansi_preserve_controls`, built on the vte crate) is not modelled. `FeedOutput` takes the bytes after stripping.
- The prompt regex is a predicate parameter. Regular-expression matching is not modelled.
- Voice capture is not modelled: `start_capture`, the recorder, the Whisper transcriber, `handle_voice_message` and `using_native_pipeline`. A job appears only through its stop flag and the receive outcome each poll is given, and the capture metrics in its messages are dropped.
- `adjust_sensitivity` is not modelled: it is floating-point clamping of a decibel threshold.
- `VoiceCaptureSource::label()` is not in the modelled sources. The batch label is the source, or the mixed marker, and `PipelineName` takes the naming function as a parameter.
- Clocks are parameters:
  - `DeliverTranscript` uses one instant `now` for both status updates, where the overlay calls `Instant::now()` for each;
  - `TryFlushPending` takes `sentAt` for the overlay's second clock read;
  - `FlushLine` takes the sighting instant as `now`.
- The session's error value is not modelled: `Err` carries no message, and the failure is only logged in the overlay.
- An `Instant` that `duration_since` would see in the future saturates to zero, as in Rust; no other clock behaviour is modelled.
- In codex_voice.py, the following are not modelled:
  - the interactive fast path (lines 226-257), which lets Codex write to the terminal; its error messages enter `CallCodexAuto` as the `prior` list;
  - `_require`, the environment and `TERM` setup;
  - `_run` and `_run_with_pty` themselves, which are the `run` and `runPty` parameters;
  - timeouts, `select` waits, and the `EIO` handling of the read loop;
  - the `errors="ignore"` UTF-8 decoding of the output, which stays bytes;
  - the argv text of error messages;
  - the rest of the module: recording, transcription and the CLI entry points.
- Text.Lower: Python's `str.lower()` is modelled as ASCII lowering. No non-ASCII character lowers to text that could complete one of the three ASCII phrases, so `_is_tty_error` gives the same answer.
- `write_status_line` and `clear_status_line` are modelled as the byte frames they write. The write's I/O error is not modelled.
- Fields dropped or split in the classes:
  - `VoiceManager` keeps `job`, `cancel_pending` and `active_source`; `config`, `recorder` and `transcriber` serve only capture, which is not modelled.
  - `PromptTracker` drops `prompt_logger`, whose output is only logged. Its `regex` becomes the constant `pattern`, an optional predicate on the line.
  - `TranscriptIo` is split into a `RecordingSession`, which stands for `session`, and a `StatusBoard`. The board holds `current_status` and `status_clear_deadline`, and its `sent` list of status texts stands for the messages put on `writer_tx`.
- The UTF-8 encoding `prompt.encode("utf-8")` of `call_codex_auto` is not modelled: `Attempts` takes the prompt's bytes as the separate parameter `promptBytes`.
- Exceptions other than `RuntimeError` from `_run` are modelled only as the `RunRaised` outcome, with their text. They escape `call_codex_auto` at once, which the model expresses as `Raised`. Which exceptions the subprocess layer raises is not modelled.
- The banner, the benchmark binary and the Python CLI are outside this model.
