/** The overlay's prompt tracker (`PromptTracker`) and the readiness rules built
    on it (`prompt_ready`, `transcript_ready`, `should_auto_trigger`).
    The tracker follows the wrapped CLI's output line by line (after ANSI
    escapes have been stripped), remembers the last non-blank line, and either
    matches lines against a configured prompt pattern or learns the prompt from
    the line on screen when output goes idle. Instants and durations are
    milliseconds as `nat`; `now.duration_since(t)` saturates at zero. */
module PromptTracking {
  import opened Wrappers
  import opened Text

  /** `Instant::duration_since`, which saturates at zero. */
  function DurationSince(now: nat, earlier: nat): (d: nat)
    ensures now >= earlier ==> now == earlier + d
    ensures now <= earlier ==> d == 0
  {
    if now >= earlier then now - earlier else 0
  }

  /** The tracker's fields, as a value; the prompt pattern is kept apart because
      it never changes. */
  datatype TrackerState = TrackerState(
    learnedPrompt: Option<string>,
    lastPromptSeenAt: Option<nat>,
    lastOutputAt: nat,
    hasSeenOutput: bool,
    currentLine: seq<byte>,
    lastLine: Option<string>)

  /** A tracker created at instant `now`. */
  function Initial(now: nat): TrackerState {
    TrackerState(None, None, now, false, [], None)
  }

  /** A byte the line buffer keeps: printable ASCII or space. */
  predicate IsKept(b: byte) {
    IsGraphicByte(b) || b == SPACE
  }

  predicate Printable(line: seq<byte>) {
    forall i :: 0 <= i < |line| ==> IsKept(line[i])
  }

  /** The line buffer as text. Only bytes 0x20-0x7E ever enter it (see
      FeedKeepsPrintable), and for those this is `String::from_utf8_lossy`. */
  function LineString(line: seq<byte>): (s: string)
    ensures |s| == |line|
  {
    seq(|line|, i requires 0 <= i < |line| => line[i] as char)
  }

  /** `matches_prompt`: the pattern decides when there is one, otherwise the
      learned prompt is compared ignoring trailing whitespace. */
  function MatchesPrompt(pattern: Option<string -> bool>, learned: Option<string>, line: string): bool {
    match pattern
    case Some(p) => p(line)
    case None =>
      match learned
      case Some(prompt) => TrimEnd(line) == TrimEnd(prompt)
      case None => false
  }

  /** `looks_like_prompt`: without trailing whitespace the line is non-empty, at
      most 80 bytes of UTF-8, and ends in one of `>` `›` `❯` `$` `#`. The two
      glyphs are U+203A and U+276F; a Windows-1252 reading of the source file shows
      each as the characters of its UTF-8 bytes. */
  predicate LooksLikePrompt(line: string) {
    var trimmed := TrimEnd(line);
    && trimmed != []
    && Utf8Len(trimmed) <= 80
    && trimmed[|trimmed| - 1] in {'>', '›', '❯', '$', '#'}
  }

  /** `flush_line`: the current line is emptied; a non-blank one becomes the last
      line and, when it matches the prompt, records a prompt sighting. */
  function FlushLineSpec(pattern: Option<string -> bool>, st: TrackerState, now: nat): TrackerState {
    var line := LineString(st.currentLine);
    var cleared := st.(currentLine := []);
    if IsBlank(line) then cleared
    else if MatchesPrompt(pattern, st.learnedPrompt, line) then
      cleared.(lastLine := Some(line), lastPromptSeenAt := Some(now))
    else cleared.(lastLine := Some(line))
  }

  /** One byte of cleaned output. */
  function FeedByteSpec(pattern: Option<string -> bool>, st: TrackerState, b: byte, now: nat): TrackerState {
    if b == LF then FlushLineSpec(pattern, st, now)
    else if b == CR then st.(currentLine := [])
    else if b == TAB then st.(currentLine := st.currentLine + [SPACE])
    else if IsKept(b) then st.(currentLine := st.currentLine + [b])
    else st
  }

  function FeedBytes(pattern: Option<string -> bool>, st: TrackerState, bytes: seq<byte>, now: nat): TrackerState
    decreases |bytes|
  {
    if bytes == [] then st
    else FeedByteSpec(pattern, FeedBytes(pattern, st, bytes[..|bytes| - 1], now), bytes[|bytes| - 1], now)
  }

  /** `feed_output` on output whose ANSI escapes are already stripped. */
  function FeedSpec(pattern: Option<string -> bool>, st: TrackerState, bytes: seq<byte>, now: nat): TrackerState {
    FeedBytes(pattern, st.(lastOutputAt := now, hasSeenOutput := true), bytes, now)
  }

  /** `idle_ready`: at least `timeout` has passed since the last output. */
  predicate IdleReady(st: TrackerState, now: nat, timeout: nat) {
    DurationSince(now, st.lastOutputAt) >= timeout
  }

  /** The line `on_idle` looks at: the unfinished line, else the last line. */
  function IdleCandidate(st: TrackerState): string {
    if st.currentLine != [] then LineString(st.currentLine)
    else match st.lastLine case Some(l) => l case None => ""
  }

  /** `on_idle`: once output has been quiet for `timeout`, a tracker with neither
      pattern nor learned prompt learns the candidate line if it looks like a
      prompt; otherwise a candidate that matches records a prompt sighting. */
  function OnIdleSpec(pattern: Option<string -> bool>, st: TrackerState, now: nat, timeout: nat): TrackerState {
    var candidate := IdleCandidate(st);
    if !st.hasSeenOutput || !IdleReady(st, now, timeout) || IsBlank(candidate) then st
    else if st.learnedPrompt.None? && pattern.None? then
      if LooksLikePrompt(candidate) then st.(learnedPrompt := Some(candidate), lastPromptSeenAt := Some(now))
      else st
    else if MatchesPrompt(pattern, st.learnedPrompt, candidate) then st.(lastPromptSeenAt := Some(now))
    else st
  }

  // ---------------------------------------------------------------------------
  // The tracker object.

  class PromptTracker {
    const pattern: Option<string -> bool>
    var learnedPrompt: Option<string>
    var lastPromptSeenAt: Option<nat>
    var lastOutputAt: nat
    var hasSeenOutput: bool
    var currentLine: seq<byte>
    var lastLine: Option<string>

    function State(): TrackerState
      reads this
    {
      TrackerState(learnedPrompt, lastPromptSeenAt, lastOutputAt, hasSeenOutput, currentLine, lastLine)
    }

    /** `PromptTracker::new`, at instant `now`. */
    constructor (pattern: Option<string -> bool>, now: nat)
      ensures this.pattern == pattern && State() == Initial(now)
    {
      this.pattern := pattern;
      learnedPrompt := None;
      lastPromptSeenAt := None;
      lastOutputAt := now;
      hasSeenOutput := false;
      currentLine := [];
      lastLine := None;
    }

    /** `flush_line`; `now` stands for the instant a prompt sighting is stamped with. */
    method FlushLine(now: nat)
      modifies this
      ensures State() == FlushLineSpec(pattern, old(State()), now)
    {
      var line := LineString(currentLine);
      currentLine := [];
      if IsBlank(line) {
        return;
      }
      lastLine := Some(line);
      if MatchesPrompt(pattern, learnedPrompt, line) {
        lastPromptSeenAt := Some(now);
      }
    }

    /** `feed_output`; `now` is the instant the output arrived. */
    method FeedOutput(bytes: seq<byte>, now: nat)
      modifies this
      ensures State() == FeedSpec(pattern, old(State()), bytes, now)
    {
      lastOutputAt := now;
      hasSeenOutput := true;
      ghost var start := State();
      for i := 0 to |bytes|
        invariant State() == FeedBytes(pattern, start, bytes[..i], now)
      {
        assert bytes[..i + 1][..i] == bytes[..i];
        var b := bytes[i];
        if b == LF {
          FlushLine(now);
        } else if b == CR {
          currentLine := [];
        } else if b == TAB {
          currentLine := currentLine + [SPACE];
        } else if IsGraphicByte(b) || b == SPACE {
          currentLine := currentLine + [b];
        }
      }
      assert bytes[..|bytes|] == bytes;
    }

    /** `on_idle`. */
    method OnIdle(now: nat, timeout: nat)
      modifies this
      ensures State() == OnIdleSpec(pattern, old(State()), now, timeout)
    {
      if !hasSeenOutput {
        return;
      }
      if DurationSince(now, lastOutputAt) < timeout {
        return;
      }
      var candidate := if currentLine != [] then LineString(currentLine)
        else match lastLine case Some(l) => l case None => "";
      if IsBlank(candidate) {
        return;
      }
      if learnedPrompt.None? && pattern.None? {
        if !LooksLikePrompt(candidate) {
          return;
        }
        learnedPrompt := Some(candidate);
        lastPromptSeenAt := Some(now);
        return;
      }
      if MatchesPrompt(pattern, learnedPrompt, candidate) {
        lastPromptSeenAt := Some(now);
      }
    }

    /** `note_activity`. */
    method NoteActivity(now: nat)
      modifies this
      ensures State() == old(State()).(lastOutputAt := now, hasSeenOutput := true)
    {
      lastOutputAt := now;
      hasSeenOutput := true;
    }
  }

  // ---------------------------------------------------------------------------
  // Readiness rules.

  /** `prompt_ready`: a prompt has been seen, and after the last Enter if there was one. */
  predicate PromptReady(st: TrackerState, lastEnterAt: Option<nat>) {
    match (st.lastPromptSeenAt, lastEnterAt)
    case (Some(promptAt), Some(enterAt)) => promptAt > enterAt
    case (Some(_), None) => true
    case _ => false
  }

  /** `transcript_ready`: the prompt is ready, or no prompt was ever seen and
      output has gone idle. */
  predicate TranscriptReady(st: TrackerState, lastEnterAt: Option<nat>, now: nat, timeout: nat) {
    if PromptReady(st, lastEnterAt) then true
    else if st.lastPromptSeenAt.None? then IdleReady(st, now, timeout)
    else false
  }

  /** `should_auto_trigger`. */
  predicate ShouldAutoTrigger(st: TrackerState, now: nat, idleTimeout: nat, lastTriggerAt: Option<nat>) {
    if !st.hasSeenOutput then lastTriggerAt.None? && IdleReady(st, now, idleTimeout)
    else if st.lastPromptSeenAt.Some? && (lastTriggerAt.None? || st.lastPromptSeenAt.value > lastTriggerAt.value) then true
    else IdleReady(st, now, idleTimeout) && (lastTriggerAt.None? || st.lastOutputAt > lastTriggerAt.value)
  }

  /** The prompt is ready exactly when a sighting is recorded and no Enter was
      pressed at or after it. */
  lemma PromptReadyIff(st: TrackerState, lastEnterAt: Option<nat>)
    ensures PromptReady(st, lastEnterAt) <==>
      st.lastPromptSeenAt.Some? && (lastEnterAt.None? || st.lastPromptSeenAt.value > lastEnterAt.value)
  {
  }

  /** A transcript waits for the prompt once one has ever been seen; before that
      it waits only for output to go idle. */
  lemma TranscriptReadyCases(st: TrackerState, lastEnterAt: Option<nat>, now: nat, timeout: nat)
    ensures st.lastPromptSeenAt.Some? ==>
      (TranscriptReady(st, lastEnterAt, now, timeout) <==> PromptReady(st, lastEnterAt))
    ensures st.lastPromptSeenAt.None? ==>
      (TranscriptReady(st, lastEnterAt, now, timeout) <==> IdleReady(st, now, timeout))
  {
  }

  /** Idle means the timeout is zero or has fully elapsed since the last output. */
  lemma IdleReadyIff(st: TrackerState, now: nat, timeout: nat)
    ensures IdleReady(st, now, timeout) <==> timeout == 0 || now >= st.lastOutputAt + timeout
  {
  }

  /** Waiting longer never makes a ready transcript unready. */
  lemma TranscriptReadyMonotone(st: TrackerState, lastEnterAt: Option<nat>, now: nat, later: nat, timeout: nat)
    requires now <= later
    requires TranscriptReady(st, lastEnterAt, now, timeout)
    ensures TranscriptReady(st, lastEnterAt, later, timeout)
  {
  }

  /** After an auto trigger at `last`, nothing triggers again until a prompt is
      seen or output arrives after `last`, however long the overlay waits. */
  lemma NoRetriggerWithoutNews(st: TrackerState, now: nat, idleTimeout: nat, last: nat)
    requires st.lastPromptSeenAt.None? || st.lastPromptSeenAt.value <= last
    requires st.lastOutputAt <= last
    ensures !ShouldAutoTrigger(st, now, idleTimeout, Some(last))
  {
  }

  /** A prompt seen after the last trigger always triggers, idle or not. */
  lemma NewPromptTriggers(st: TrackerState, now: nat, idleTimeout: nat, last: Option<nat>)
    requires st.hasSeenOutput && st.lastPromptSeenAt.Some?
    requires last.None? || st.lastPromptSeenAt.value > last.value
    ensures ShouldAutoTrigger(st, now, idleTimeout, last)
  {
  }

  /** Before any output, only the very first trigger can fire, and only on idle. */
  lemma SilentSessionTriggersOnce(st: TrackerState, now: nat, idleTimeout: nat, last: Option<nat>)
    requires !st.hasSeenOutput
    ensures ShouldAutoTrigger(st, now, idleTimeout, last) <==> last.None? && IdleReady(st, now, idleTimeout)
  {
  }

  // ---------------------------------------------------------------------------
  // The line buffer.

  /** What a run of bytes without CR or LF adds to the current line: a tab
      becomes a space, printable ASCII and space are kept, the rest is dropped. */
  function Visible(bytes: seq<byte>): (v: seq<byte>)
    ensures Printable(v)
    ensures |v| <= |bytes|
    decreases |bytes|
  {
    if bytes == [] then []
    else
      var b := bytes[|bytes| - 1];
      Visible(bytes[..|bytes| - 1]) + (if b == TAB then [SPACE] else if IsKept(b) then [b] else [])
  }

  predicate NoLineBreak(bytes: seq<byte>) {
    forall i :: 0 <= i < |bytes| ==> bytes[i] != LF && bytes[i] != CR
  }

  /** Bytes without CR or LF only extend the current line; nothing else changes. */
  lemma {:induction false} FeedWithinLine(pattern: Option<string -> bool>, st: TrackerState, bytes: seq<byte>, now: nat)
    requires NoLineBreak(bytes)
    ensures FeedBytes(pattern, st, bytes, now) == st.(currentLine := st.currentLine + Visible(bytes))
    decreases |bytes|
  {
    if bytes == [] {
      assert st.currentLine + [] == st.currentLine;
    } else {
      var init := bytes[..|bytes| - 1];
      assert NoLineBreak(init) by {
        assert forall i :: 0 <= i < |init| ==> init[i] == bytes[i];
      }
      FeedWithinLine(pattern, st, init, now);
      assert st.currentLine + Visible(init) + (if bytes[|bytes| - 1] == TAB then [SPACE]
        else if IsKept(bytes[|bytes| - 1]) then [bytes[|bytes| - 1]] else []) ==
        st.currentLine + Visible(bytes);
    }
  }

  /** A line ending in LF empties the current line; when the completed line is not
      blank it becomes the last line. */
  lemma FeedCompleteLine(pattern: Option<string -> bool>, st: TrackerState, bytes: seq<byte>, now: nat)
    requires NoLineBreak(bytes)
    ensures var line := LineString(st.currentLine + Visible(bytes));
      var after := FeedBytes(pattern, st, bytes + [LF], now);
      && after.currentLine == []
      && after.lastLine == (if IsBlank(line) then st.lastLine else Some(line))
      && after.learnedPrompt == st.learnedPrompt
      && after.lastPromptSeenAt ==
           (if !IsBlank(line) && MatchesPrompt(pattern, st.learnedPrompt, line) then Some(now) else st.lastPromptSeenAt)
  {
    assert (bytes + [LF])[..|bytes|] == bytes;
    FeedWithinLine(pattern, st, bytes, now);
  }

  /** Feeding output keeps the line buffer within printable ASCII. */
  lemma {:induction false} FeedKeepsPrintable(pattern: Option<string -> bool>, st: TrackerState, bytes: seq<byte>, now: nat)
    requires Printable(st.currentLine)
    ensures Printable(FeedBytes(pattern, st, bytes, now).currentLine)
    decreases |bytes|
  {
    if bytes != [] {
      FeedKeepsPrintable(pattern, st, bytes[..|bytes| - 1], now);
    }
  }

  /** Feeding output never forgets a learned prompt and marks output as seen. */
  lemma FeedMarksOutput(pattern: Option<string -> bool>, st: TrackerState, bytes: seq<byte>, now: nat)
    ensures FeedSpec(pattern, st, bytes, now).hasSeenOutput
    ensures FeedSpec(pattern, st, bytes, now).lastOutputAt == now
    ensures FeedSpec(pattern, st, bytes, now).learnedPrompt == st.learnedPrompt
  {
    FeedPreserves(pattern, st.(lastOutputAt := now, hasSeenOutput := true), bytes, now);
  }

  lemma {:induction false} FeedPreserves(pattern: Option<string -> bool>, st: TrackerState, bytes: seq<byte>, now: nat)
    ensures var after := FeedBytes(pattern, st, bytes, now);
      after.hasSeenOutput == st.hasSeenOutput && after.lastOutputAt == st.lastOutputAt
      && after.learnedPrompt == st.learnedPrompt
    decreases |bytes|
  {
    if bytes != [] {
      FeedPreserves(pattern, st, bytes[..|bytes| - 1], now);
    }
  }

  // ---------------------------------------------------------------------------
  // Prompt recognition.

  /** The learned prompt is recognised with any trailing whitespace added. */
  lemma LearnedPromptIgnoresTrailingBlank(prompt: string, ws: string)
    requires IsBlank(ws)
    ensures MatchesPrompt(None, Some(prompt), prompt + ws)
  {
    TrimEndIgnoresTrailingBlank(prompt, ws);
  }

  /** Trailing whitespace does not change whether a line looks like a prompt. */
  lemma LooksLikePromptIgnoresTrailingBlank(line: string, ws: string)
    requires IsBlank(ws)
    ensures LooksLikePrompt(line + ws) <==> LooksLikePrompt(line)
  {
    TrimEndIgnoresTrailingBlank(line, ws);
  }

  /** Learning happens only with neither pattern nor learned prompt, only after
      the idle timeout, and whatever is learned looks like a prompt; once learned
      it is kept. */
  lemma OnIdleLearnsOnlyPrompts(pattern: Option<string -> bool>, st: TrackerState, now: nat, timeout: nat)
    ensures var after := OnIdleSpec(pattern, st, now, timeout);
      && (after.learnedPrompt != st.learnedPrompt ==>
            && st.learnedPrompt.None? && pattern.None? && st.hasSeenOutput
            && IdleReady(st, now, timeout)
            && after.learnedPrompt == Some(IdleCandidate(st))
            && LooksLikePrompt(IdleCandidate(st))
            && after.lastPromptSeenAt == Some(now))
      && (st.learnedPrompt.Some? ==> after.learnedPrompt == st.learnedPrompt)
      && after.currentLine == st.currentLine && after.lastLine == st.lastLine
      && after.lastOutputAt == st.lastOutputAt
  {
  }

  /** A prompt sighting recorded when output goes idle makes the prompt ready
      for any Enter pressed before it. */
  lemma IdleSightingMakesPromptReady(pattern: Option<string -> bool>, st: TrackerState, now: nat, timeout: nat, enterAt: Option<nat>)
    requires OnIdleSpec(pattern, st, now, timeout).lastPromptSeenAt != st.lastPromptSeenAt
    requires enterAt.None? || enterAt.value < now
    ensures PromptReady(OnIdleSpec(pattern, st, now, timeout), enterAt)
  {
  }

  // ---------------------------------------------------------------------------
  // The tracker's unit tests.

  /** One more byte of a line. */
  lemma VisibleSnoc(bytes: seq<byte>, b: byte)
    ensures Visible(bytes + [b]) == Visible(bytes) + (if b == TAB then [SPACE] else if IsKept(b) then [b] else [])
  {
    assert (bytes + [b])[..|bytes|] == bytes;
  }

  /** A line of `text` (no CR or LF) fed to an empty line buffer and ended by LF
      becomes the last line when it is not blank. */
  lemma FeedFreshLine(pattern: Option<string -> bool>, st: TrackerState, text: seq<byte>, now: nat)
    requires st.currentLine == [] && NoLineBreak(text)
    requires !IsBlank(LineString(Visible(text)))
    ensures FeedBytes(pattern, st, text + [LF], now).lastLine == Some(LineString(Visible(text)))
  {
    assert st.currentLine + Visible(text) == Visible(text);
    FeedCompleteLine(pattern, st, text, now);
  }

  /** A CR empties the line buffer, whatever preceded it on the line. */
  lemma FeedCrClearsLine(pattern: Option<string -> bool>, st: TrackerState, text: seq<byte>, now: nat)
    requires st.currentLine == [] && NoLineBreak(text)
    ensures FeedBytes(pattern, st, text + [CR], now) == st
  {
    FeedWithinLine(pattern, st, text, now);
    assert (text + [CR])[..|text|] == text;
  }

  /** "de" TAB "f" shows as "de f". */
  lemma TabBecomesSpace()
    ensures var def: seq<byte> := [0x64, 0x65, TAB, 0x66];
      NoLineBreak(def) && LineString(Visible(def)) == "de f" && !IsBlank("de f")
  {
    VisibleDeTabF();
    DeSpaceFLine();
  }

  lemma VisibleDeTabF()
    ensures Visible([0x64, 0x65, TAB, 0x66]) == [0x64, 0x65, SPACE, 0x66]
  {
    var de: seq<byte> := [0x64, 0x65];
    assert Visible(de) == de by {
      VisibleOfKept(de);
    }
    assert Visible(de + [TAB]) == de + [SPACE] by {
      VisibleSnoc(de, TAB);
    }
    assert Visible(de + [TAB] + [0x66]) == de + [SPACE] + [0x66] by {
      VisibleSnoc(de + [TAB], 0x66);
    }
    assert de + [TAB] + [0x66] == [0x64, 0x65, TAB, 0x66];
    assert de + [SPACE] + [0x66] == [0x64, 0x65, SPACE, 0x66];
  }

  lemma DeSpaceFLine()
    ensures LineString([0x64, 0x65, SPACE, 0x66]) == "de f" && !IsBlank("de f")
  {
    assert !IsWhitespace("de f"[0]);
  }

  /** "ab" CR "de" TAB "f" LF leaves "de f" as the last line. */
  lemma FeedHandlesControlBytes(now: nat)
    ensures var after := FeedSpec(None, Initial(0), [0x61, 0x62, CR, 0x64, 0x65, TAB, 0x66, LF], now);
      after.lastLine == Some("de f") && after.hasSeenOutput
  {
    var st := Initial(0).(lastOutputAt := now, hasSeenOutput := true);
    var ab: seq<byte> := [0x61, 0x62];
    var def: seq<byte> := [0x64, 0x65, TAB, 0x66];
    var bytes: seq<byte> := [0x61, 0x62, CR, 0x64, 0x65, TAB, 0x66, LF];
    assert bytes == (ab + [CR]) + (def + [LF]);
    assert FeedBytes(None, st, def + [LF], now).lastLine == Some("de f") by {
      TabBecomesSpace();
      FeedFreshLine(None, st, def, now);
    }
    assert FeedBytes(None, st, bytes, now) == FeedBytes(None, st, def + [LF], now) by {
      FeedAppend(None, st, ab + [CR], def + [LF], now);
      FeedCrClearsLine(None, st, ab, now);
    }
    FeedMarksOutput(None, Initial(0), bytes, now);
  }

  /** Non-ASCII bytes (here the UTF-8 of U+00A0) are dropped from the line. */
  lemma FeedDropsNonGraphicBytes(now: nat)
    ensures FeedSpec(None, Initial(0), [0x68, 0x69, 0xc2, 0xa0, 0x74, 0x68, 0x65, 0x72, 0x65, LF], now).lastLine
      == Some("hithere")
  {
    var st := Initial(0).(lastOutputAt := now, hasSeenOutput := true);
    var text: seq<byte> := [0x68, 0x69, 0xc2, 0xa0, 0x74, 0x68, 0x65, 0x72, 0x65];
    VisibleDropsNbsp();
    HithereLine();
    assert NoLineBreak(text);
    FeedFreshLine(None, st, text, now);
    assert text + [LF] == [0x68, 0x69, 0xc2, 0xa0, 0x74, 0x68, 0x65, 0x72, 0x65, LF];
  }

  lemma VisibleDropsNbsp()
    ensures Visible([0x68, 0x69, 0xc2, 0xa0, 0x74, 0x68, 0x65, 0x72, 0x65]) == [0x68, 0x69, 0x74, 0x68, 0x65, 0x72, 0x65]
  {
    var hi: seq<byte> := [0x68, 0x69];
    var nbsp: seq<byte> := [0xc2, 0xa0];
    var there: seq<byte> := [0x74, 0x68, 0x65, 0x72, 0x65];
    assert Visible(hi + nbsp) == hi by {
      VisibleSkipsDropped(hi, nbsp);
      VisibleOfKept(hi);
    }
    assert Visible(there) == there by {
      VisibleOfKept(there);
    }
    assert hi + nbsp + there == [0x68, 0x69, 0xc2, 0xa0, 0x74, 0x68, 0x65, 0x72, 0x65];
    assert hi + there == [0x68, 0x69, 0x74, 0x68, 0x65, 0x72, 0x65];
    VisibleAppend(hi + nbsp, there);
  }

  /** Bytes that are neither kept nor a tab add nothing to the line. */
  lemma {:induction false} VisibleSkipsDropped(a: seq<byte>, junk: seq<byte>)
    requires forall i :: 0 <= i < |junk| ==> !IsKept(junk[i]) && junk[i] != TAB
    ensures Visible(a + junk) == Visible(a)
    decreases |junk|
  {
    if junk == [] {
      assert a + junk == a;
    } else {
      var init := junk[..|junk| - 1];
      var last := junk[|junk| - 1];
      VisibleSkipsDropped(a, init);
      assert a + junk == (a + init) + [last];
      VisibleSnoc(a + init, last);
    }
  }

  lemma HithereLine()
    ensures LineString([0x68, 0x69, 0x74, 0x68, 0x65, 0x72, 0x65]) == "hithere" && !IsBlank("hithere")
  {
    assert !IsWhitespace("hithere"[0]);
  }

  lemma {:induction false} VisibleAppend(a: seq<byte>, b: seq<byte>)
    ensures Visible(a + b) == Visible(a) + Visible(b)
    decreases |b|
  {
    if b == [] {
      assert a + b == a;
    } else {
      var init := b[..|b| - 1];
      assert (a + b)[..|a + b| - 1] == a + init;
      assert (a + b)[|a + b| - 1] == b[|b| - 1];
      VisibleAppend(a, init);
    }
  }

  lemma {:induction false} VisibleOfKept(bytes: seq<byte>)
    requires forall i :: 0 <= i < |bytes| ==> IsKept(bytes[i]) && bytes[i] != TAB
    ensures Visible(bytes) == bytes
    decreases |bytes|
  {
    if bytes != [] {
      var init := bytes[..|bytes| - 1];
      var last := bytes[|bytes| - 1];
      assert IsKept(last) && last != TAB;
      VisibleOfKept(init);
      assert bytes == init + [last];
    }
  }

  lemma {:induction false} FeedAppend(pattern: Option<string -> bool>, st: TrackerState, a: seq<byte>, b: seq<byte>, now: nat)
    ensures FeedBytes(pattern, st, a + b, now) == FeedBytes(pattern, FeedBytes(pattern, st, a, now), b, now)
    decreases |b|
  {
    if b == [] {
      assert a + b == a;
    } else {
      var init := b[..|b| - 1];
      assert (a + b)[..|a + b| - 1] == a + init;
      assert (a + b)[|a + b| - 1] == b[|b| - 1];
      FeedAppend(pattern, st, a, init, now);
    }
  }

  /** The bytes of "codex> ". */
  const CodexPrompt: seq<byte> := [0x63, 0x6f, 0x64, 0x65, 0x78, 0x3e, SPACE]

  lemma CodexPromptLine()
    ensures LineString(CodexPrompt) == "codex> "
    ensures Visible(CodexPrompt) == CodexPrompt && NoLineBreak(CodexPrompt)
    ensures !IsBlank("codex> ") && LooksLikePrompt("codex> ")
  {
    VisibleOfKept(CodexPrompt);
    assert !IsWhitespace("codex> "[0]);
    assert TrimEnd("codex> ") == "codex>" by {
      assert "codex> "[..6] == "codex>";
    }
    Utf8LenAscii("codex>");
  }

  /** After "codex> " is fed, the unfinished line is "codex> ". */
  lemma FeedCodexPrompt(pattern: Option<string -> bool>, start: nat)
    ensures var fed := FeedSpec(pattern, Initial(start), CodexPrompt, start);
      fed.currentLine == CodexPrompt && fed.hasSeenOutput && fed.lastOutputAt == start
      && fed.learnedPrompt == None && fed.lastPromptSeenAt == None && IdleCandidate(fed) == "codex> "
  {
    CodexPromptLine();
    FeedWithinLine(pattern, Initial(start).(lastOutputAt := start, hasSeenOutput := true), CodexPrompt, start);
  }

  /** "codex> " followed by a quiet second is learned as the prompt. */
  lemma LearnsPromptOnIdle(start: nat, now: nat)
    requires now >= start + 1000
    ensures var fed := FeedSpec(None, Initial(start), CodexPrompt, start);
      var after := OnIdleSpec(None, fed, now, 1000);
      after.lastPromptSeenAt == Some(now) && after.learnedPrompt == Some("codex> ")
  {
    FeedCodexPrompt(None, start);
    CodexPromptLine();
  }

  /** With a prompt pattern configured, idle output that does not match it
      records no sighting and learns nothing. */
  lemma PatternBlocksLearning(start: nat, now: nat, bytes: seq<byte>)
    requires NoLineBreak(bytes)
    ensures var pattern := Some((s: string) => s == "codex> ");
      var fed := FeedSpec(pattern, Initial(start), bytes, start);
      var after := OnIdleSpec(pattern, fed, now, 1000);
      && after.learnedPrompt == None
      && (after.lastPromptSeenAt.Some? ==> IdleCandidate(fed) == "codex> ")
  {
    var pattern := Some((s: string) => s == "codex> ");
    FeedWithinLine(pattern, Initial(start).(lastOutputAt := start, hasSeenOutput := true), bytes, start);
  }

  /** With the pattern `codex> `, the completed line "codex> " records a sighting. */
  lemma PatternMatchesCompletedLine(start: nat)
    ensures var pattern := Some((s: string) => s == "codex> ");
      FeedSpec(pattern, Initial(start), CodexPrompt + [LF], start).lastPromptSeenAt == Some(start)
  {
    var pattern := Some((s: string) => s == "codex> ");
    var st := Initial(start).(lastOutputAt := start, hasSeenOutput := true);
    CodexPromptLine();
    assert st.currentLine + CodexPrompt == CodexPrompt;
    assert MatchesPrompt(pattern, None, "codex> ");
    FeedCompleteLine(pattern, st, CodexPrompt, start);
  }

  /** A learned "codex> " matches "codex> " and not "nope> ". */
  lemma LearnedPromptMatching()
    ensures MatchesPrompt(None, Some("codex> "), "codex> ")
    ensures !MatchesPrompt(None, Some("codex> "), "nope> ")
  {
    assert TrimEnd("codex> ") == "codex>" by {
      assert "codex> "[..6] == "codex>";
    }
    assert TrimEnd("nope> ") == "nope>" by {
      assert "nope> "[..5] == "nope>";
    }
  }

  /** Output quiet for exactly the timeout counts as idle; a fresh tracker has
      seen no output. */
  lemma IdleThresholdInclusive(now: nat)
    requires now >= 1000
    ensures IdleReady(Initial(0).(lastOutputAt := now - 1000, hasSeenOutput := true), now, 1000)
    ensures !Initial(now).hasSeenOutput
  {
  }

  /** The auto-trigger test vectors: a prompt newer than the last trigger fires;
      one older does not while output is older too; idle output newer than the
      last trigger fires; and output that is not yet idle does not. */
  lemma AutoTriggerVectors(now: nat)
    requires now >= 2000
    ensures var st := TrackerState(None, Some(now - 1500), now - 2000, true, [], None);
      ShouldAutoTrigger(st, now, 1000, Some(now - 2000))
    ensures var st := TrackerState(None, Some(now - 1500), now - 2000, true, [], None);
      !ShouldAutoTrigger(st, now, 1000, Some(now - 1000))
    ensures var st := TrackerState(None, None, now - 1200, true, [], None);
      ShouldAutoTrigger(st, now, 1000, Some(now - 2000))
    ensures var st := TrackerState(None, None, now - 500, true, [], None);
      !ShouldAutoTrigger(st, now, 1000, Some(now - 2000))
  {
  }

  /** A prompt and output seen at the same instant as the last trigger do not
      count as newer, even with a zero timeout. */
  lemma AutoTriggerEqualTimes(now: nat)
    ensures var st := TrackerState(None, Some(now), now, true, [], None);
      !ShouldAutoTrigger(st, now, 0, Some(now))
  {
  }
}
