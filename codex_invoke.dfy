/** The fallback invocation of the Codex CLI in the Python pipeline
    (`call_codex_auto`, `_run_with_pty`, `_is_tty_error`). A run is tried in
    argument mode, then with the prompt on standard input; a run refused for want
    of a terminal is retried under a pseudo-terminal, whose output is scanned
    chunk by chunk for the cursor-position query ESC [ 6 n (DSR, section 8.3.35 of
    ECMA-48), answered once per chunk with the report ESC [ 1 ; 1 R (CPR, section
    8.3.14 of ECMA-48). Processes, file descriptors and timeouts are outside the
    model: each run's outcome is a parameter. */
module CodexInvoke {
  import opened Wrappers
  import opened Text

  /** Device status report 6: "where is the cursor?" */
  const DSR: seq<byte> := [ESC, 0x5b, 0x36, 0x6e]
  /** The canned answer: the cursor is at row 1, column 1. */
  const CPR: seq<byte> := [ESC, 0x5b, 0x31, 0x3b, 0x31, 0x52]

  // ---------------------------------------------------------------------------
  // The input written to the pseudo-terminal.

  predicate EndsWithNewline(data: seq<byte>) {
    data != [] && data[|data| - 1] == LF
  }

  /** The input with a newline added unless it already ends with one. */
  function TerminateInput(data: seq<byte>): (r: seq<byte>)
    ensures EndsWithNewline(r)
    ensures StartsWith(r, data)
    ensures |r| == if EndsWithNewline(data) then |data| else |data| + 1
  {
    if EndsWithNewline(data) then data else data + [LF]
  }

  /** What is written before any output is read: nothing for empty input, else the
      terminated input. */
  function InputWrites(input: seq<byte>): seq<seq<byte>> {
    if input == [] then [] else [TerminateInput(input)]
  }

  /** Terminated input is left alone by a second termination, and differs from the
      original exactly when a newline had to be added. */
  lemma TerminateInputIdempotent(data: seq<byte>)
    ensures TerminateInput(TerminateInput(data)) == TerminateInput(data)
    ensures TerminateInput(data) == data <==> EndsWithNewline(data)
  {
  }

  // ---------------------------------------------------------------------------
  // Stripping cursor queries from a chunk.

  /** `chunk.replace(b"\x1b[6n", b"")`: every query found scanning left to right,
      without overlaps, is removed. */
  function StripQueries(chunk: seq<byte>): (r: seq<byte>)
    ensures |r| <= |chunk|
    decreases |chunk|
  {
    if |chunk| < |DSR| then chunk
    else if chunk[..|DSR|] == DSR then StripQueries(chunk[|DSR|..])
    else [chunk[0]] + StripQueries(chunk[1..])
  }

  /** A chunk without a query passes through unchanged. */
  lemma {:induction false} StripWithoutQuery(chunk: seq<byte>)
    requires !Contains(chunk, DSR)
    ensures StripQueries(chunk) == chunk
    decreases |chunk|
  {
    if |chunk| >= |DSR| {
      StripWithoutQuery(chunk[1..]);
      assert [chunk[0]] + chunk[1..] == chunk;
    }
  }

  /** A chunk with a query loses at least the query's four bytes. */
  lemma {:induction false} StripShortens(chunk: seq<byte>)
    requires Contains(chunk, DSR)
    ensures |StripQueries(chunk)| <= |chunk| - |DSR|
    decreases |chunk|
  {
    if !StartsWith(chunk, DSR) {
      StripShortens(chunk[1..]);
    }
  }

  /** The chunk is changed exactly when it contains a query, which is the test
      that decides whether to answer. */
  lemma StripChangesIffQuery(chunk: seq<byte>)
    ensures StripQueries(chunk) == chunk <==> !Contains(chunk, DSR)
  {
    if Contains(chunk, DSR) {
      StripShortens(chunk);
    } else {
      StripWithoutQuery(chunk);
    }
  }

  /** Bytes before the first ESC are kept as they are, and a query at the front is
      dropped. */
  lemma {:induction false} StripKeepsPlainPrefix(plain: seq<byte>, rest: seq<byte>)
    requires forall i :: 0 <= i < |plain| ==> plain[i] != ESC
    ensures StripQueries(plain + rest) == plain + StripQueries(rest)
    decreases |plain|
  {
    if plain == [] {
      assert plain + rest == rest;
    } else if |plain + rest| < |DSR| {
      assert StripQueries(rest) == rest;
    } else {
      assert (plain + rest)[0] != DSR[0];
      assert (plain + rest)[1..] == plain[1..] + rest;
      StripKeepsPlainPrefix(plain[1..], rest);
      assert [plain[0]] + (plain[1..] + StripQueries(rest)) == plain + StripQueries(rest);
    }
  }

  lemma StripDropsLeadingQuery(rest: seq<byte>)
    ensures StripQueries(DSR + rest) == StripQueries(rest)
  {
    assert (DSR + rest)[..|DSR|] == DSR;
    assert (DSR + rest)[|DSR|..] == rest;
  }

  /** Removal does not rescan: a query split by another one is put together by the
      removal and survives it. */
  lemma StripDoesNotRescan()
    ensures StripQueries([ESC, 0x5b, ESC, 0x5b, 0x36, 0x6e, 0x36, 0x6e]) == DSR
  {
    var chunk: seq<byte> := [ESC, 0x5b, ESC, 0x5b, 0x36, 0x6e, 0x36, 0x6e];
    assert chunk[..4][2] != DSR[2];
    assert chunk[1..][..4][0] != DSR[0];
    assert chunk[1..][1..] == DSR + [0x36, 0x6e];
    assert [ESC, 0x5b] + [0x36, 0x6e] == DSR;
    calc {
      StripQueries(chunk);
      [ESC] + StripQueries(chunk[1..]);
      [ESC] + ([0x5b] + StripQueries(DSR + [0x36, 0x6e]));
      { StripDropsLeadingQuery([0x36, 0x6e]); }
      [ESC] + ([0x5b] + [0x36, 0x6e]);
    }
  }

  // ---------------------------------------------------------------------------
  // The read loop's handling of chunks.

  /** The bytes kept from a series of chunks, in order. */
  function Kept(chunks: seq<seq<byte>>): seq<byte>
    decreases |chunks|
  {
    if chunks == [] then [] else Kept(chunks[..|chunks| - 1]) + StripQueries(chunks[|chunks| - 1])
  }

  /** The replies written for a series of chunks: one per chunk with a query. */
  function Replies(chunks: seq<seq<byte>>): (r: seq<seq<byte>>)
    ensures |r| <= |chunks|
    ensures forall i :: 0 <= i < |r| ==> r[i] == CPR
    decreases |chunks|
  {
    if chunks == [] then []
    else Replies(chunks[..|chunks| - 1]) + (if Contains(chunks[|chunks| - 1], DSR) then [CPR] else [])
  }

  /** The pseudo-terminal side of one run: what was written to it and the output kept. */
  class PtyCapture {
    var written: seq<seq<byte>>
    var output: seq<byte>

    /** The run starts by writing the terminated input, if there is any. */
    constructor (input: seq<byte>)
      ensures written == InputWrites(input) && output == []
    {
      if input == [] {
        written := [];
      } else {
        var data := input;
        if !EndsWithNewline(data) {
          data := data + [LF];
        }
        written := [data];
      }
      output := [];
    }

    /** One chunk as read: queries removed and answered once, the rest kept. */
    method TakeChunk(chunk: seq<byte>)
      modifies this
      ensures output == old(output) + StripQueries(chunk)
      ensures written == old(written) + (if Contains(chunk, DSR) then [CPR] else [])
    {
      var data := chunk;
      if Contains(data, DSR) {
        data := StripQueries(data);
        written := written + [CPR];
      } else {
        StripWithoutQuery(data);
      }
      if data != [] {
        output := output + data;
      }
    }

    /** Chunks read one after another. */
    method TakeChunks(chunks: seq<seq<byte>>)
      modifies this
      ensures output == old(output) + Kept(chunks)
      ensures written == old(written) + Replies(chunks)
    {
      for i := 0 to |chunks|
        invariant output == old(output) + Kept(chunks[..i])
        invariant written == old(written) + Replies(chunks[..i])
      {
        assert chunks[..i + 1][..i] == chunks[..i];
        TakeChunk(chunks[i]);
      }
      assert chunks[..|chunks|] == chunks;
    }
  }

  /** A chunk without a query is kept whole and draws no reply. */
  lemma QuietChunk(chunks: seq<seq<byte>>, chunk: seq<byte>)
    requires !Contains(chunk, DSR)
    ensures Kept(chunks + [chunk]) == Kept(chunks) + chunk
    ensures Replies(chunks + [chunk]) == Replies(chunks)
  {
    StripWithoutQuery(chunk);
    assert (chunks + [chunk])[..|chunks|] == chunks;
  }

  /** Replies count the chunks that held a query, however many queries each held. */
  function QueryChunks(chunks: seq<seq<byte>>): nat
    decreases |chunks|
  {
    if chunks == [] then 0
    else QueryChunks(chunks[..|chunks| - 1]) + (if Contains(chunks[|chunks| - 1], DSR) then 1 else 0)
  }

  lemma {:induction false} RepliesPerQueryChunk(chunks: seq<seq<byte>>)
    ensures |Replies(chunks)| == QueryChunks(chunks)
    decreases |chunks|
  {
    if chunks != [] {
      RepliesPerQueryChunk(chunks[..|chunks| - 1]);
    }
  }

  /** A chunk holding two queries around text keeps the text and draws one reply. */
  lemma TwoQueriesOneReply()
    ensures var chunk: seq<byte> := [0x61] + DSR + [0x62] + DSR;
      Kept([chunk]) == [0x61, 0x62] && Replies([chunk]) == [CPR]
  {
    var chunk: seq<byte> := [0x61] + DSR + [0x62] + DSR;
    assert chunk == [0x61] + (DSR + ([0x62] + DSR));
    StripKeepsPlainPrefix([0x61], DSR + ([0x62] + DSR));
    StripDropsLeadingQuery([0x62] + DSR);
    StripKeepsPlainPrefix([0x62], DSR);
    StripDropsLeadingQuery([]);
    assert StartsWith(chunk, [0x61] + DSR) && chunk[..1] == [0x61];
    assert chunk[1..][..4] == DSR;
    assert Contains(chunk, DSR);
    assert [chunk][..0] == [];
  }

  /** A query split across two reads is not recognised: neither chunk holds it, so
      it is kept and never answered. */
  lemma SplitQueryUnanswered()
    ensures Kept([[ESC, 0x5b], [0x36, 0x6e]]) == DSR
    ensures Replies([[ESC, 0x5b], [0x36, 0x6e]]) == []
  {
    var chunks: seq<seq<byte>> := [[ESC, 0x5b], [0x36, 0x6e]];
    assert chunks[..1] == [[ESC, 0x5b]];
    assert chunks[..1][..0] == [];
    ShortChunkHasNoQuery([ESC, 0x5b]);
    ShortChunkHasNoQuery([0x36, 0x6e]);
    assert Kept(chunks[..1]) == [ESC, 0x5b];
    assert Kept(chunks) == [ESC, 0x5b] + [0x36, 0x6e];
    assert Replies(chunks[..1]) == [];
  }

  /** A chunk shorter than a query neither holds one nor loses anything. */
  lemma ShortChunkHasNoQuery(chunk: seq<byte>)
    requires |chunk| < |DSR|
    ensures !Contains(chunk, DSR) && StripQueries(chunk) == chunk
  {
    ContainsAt(chunk, DSR);
  }

  // ---------------------------------------------------------------------------
  // _is_tty_error.

  const TTY_PHRASES: seq<string> := ["stdout is not a terminal", "isatty", "not a tty"]

  /** `_is_tty_error`: the lowered message names a missing terminal. */
  predicate IsTtyError(message: string) {
    var lowered := Lower(message);
    Contains(lowered, "stdout is not a terminal") || Contains(lowered, "isatty") || Contains(lowered, "not a tty")
  }

  /** `needle` occurs in `haystack` at position `i`. */
  predicate OccursAt<T(==)>(haystack: seq<T>, needle: seq<T>, i: int) {
    0 <= i && i + |needle| <= |haystack| && haystack[i..i + |needle|] == needle
  }

  /** A slice of the tail is the slice of the whole one position later. */
  lemma SliceOfTail<T>(s: seq<T>, i: int, n: nat)
    requires 1 <= i && i + n <= |s|
    ensures s[1..][i - 1..i - 1 + n] == s[i..i + n]
  {
    var shifted := s[1..][i - 1..i - 1 + n];
    var direct := s[i..i + n];
    assert |shifted| == |direct| == n;
    forall k | 0 <= k < n
      ensures shifted[k] == direct[k]
    {
      assert shifted[k] == s[i + k];
    }
  }

  /** `Contains` finds exactly the positions where the needle occurs. */
  lemma {:induction false} ContainsAt<T>(haystack: seq<T>, needle: seq<T>)
    ensures Contains(haystack, needle) <==> exists i :: OccursAt(haystack, needle, i)
    decreases |haystack|
  {
    if haystack != [] {
      ContainsAt(haystack[1..], needle);
      if StartsWith(haystack, needle) {
        assert haystack[0..0 + |needle|] == haystack[..|needle|];
        assert OccursAt(haystack, needle, 0);
      }
      if Contains(haystack[1..], needle) {
        var i :| OccursAt(haystack[1..], needle, i);
        SliceOfTail(haystack, i + 1, |needle|);
        assert OccursAt(haystack, needle, i + 1);
      }
      if exists i :: OccursAt(haystack, needle, i) {
        var i :| OccursAt(haystack, needle, i);
        if i > 0 {
          SliceOfTail(haystack, i, |needle|);
          assert OccursAt(haystack[1..], needle, i - 1);
          assert Contains(haystack[1..], needle);
        } else {
          assert haystack[..|needle|] == haystack[0..0 + |needle|];
          assert StartsWith(haystack, needle);
        }
      }
    } else {
      if Contains(haystack, needle) {
        assert OccursAt(haystack, needle, 0);
      }
      if exists i :: OccursAt(haystack, needle, i) {
        var i :| OccursAt(haystack, needle, i);
        assert needle == [];
        assert StartsWith(haystack, needle);
      }
    }
  }

  /** The message is a terminal error exactly when one of the phrases occurs,
      in any letter case, somewhere in it. */
  lemma IsTtyErrorIff(message: string)
    ensures IsTtyError(message) <==>
      exists k, i :: 0 <= k < |TTY_PHRASES| && OccursAt(Lower(message), TTY_PHRASES[k], i)
  {
    var lowered := Lower(message);
    ContainsAt(lowered, TTY_PHRASES[0]);
    ContainsAt(lowered, TTY_PHRASES[1]);
    ContainsAt(lowered, TTY_PHRASES[2]);
    if exists k, i :: 0 <= k < |TTY_PHRASES| && OccursAt(lowered, TTY_PHRASES[k], i) {
      var k, i :| 0 <= k < |TTY_PHRASES| && OccursAt(lowered, TTY_PHRASES[k], i);
      assert k == 0 || k == 1 || k == 2;
    }
    if Contains(lowered, TTY_PHRASES[0]) {
      var i :| OccursAt(lowered, TTY_PHRASES[0], i);
    } else if Contains(lowered, TTY_PHRASES[1]) {
      var i :| OccursAt(lowered, TTY_PHRASES[1], i);
    } else if Contains(lowered, TTY_PHRASES[2]) {
      var i :| OccursAt(lowered, TTY_PHRASES[2], i);
    }
  }

  /** A message naming "not a TTY" anywhere, in the capitals the CLI prints, is
      recognised. */
  lemma TtyErrorExample(before: string, after: string)
    ensures IsTtyError(before + "not a TTY" + after)
  {
    var message := before + "not a TTY" + after;
    var lowered := Lower(message);
    var i := |before|;
    assert lowered[i..i + 9] == "not a tty" by {
      forall k | 0 <= k < 9
        ensures lowered[i..i + 9][k] == "not a tty"[k]
      {
        assert message[i + k] == "not a TTY"[k];
      }
    }
    assert OccursAt(lowered, "not a tty", i);
    ContainsAt(lowered, "not a tty");
  }

  /** A message shorter than every phrase is not a terminal error. */
  lemma ShortMessageIsNotTtyError()
    ensures !IsTtyError("boom")
  {
    var lowered := Lower("boom");
    ContainsAt(lowered, "stdout is not a terminal");
    ContainsAt(lowered, "isatty");
    ContainsAt(lowered, "not a tty");
  }

  // ---------------------------------------------------------------------------
  // call_codex_auto, after the interactive fast path.

  /** One way of running the CLI: its argument vector and the bytes for its
      standard input (none when empty). */
  datatype Attempt = Attempt(argv: seq<string>, input: seq<byte>)

  /** The outcome of `_run` or `_run_with_pty`: the output, a `RuntimeError`, or
      any other exception, each error with its text. */
  datatype RunResult = RunOk(output: seq<byte>) | RunFailed(message: string) | RunRaised(message: string)

  /** What `call_codex_auto` does: return the captured output, raise its own
      `RuntimeError` with the collected text, or let an exception from `_run` escape. */
  datatype Invocation = Output(output: seq<byte>) | InvocationFailed(message: string) | Raised(message: string)

  /** Argument mode first, then the prompt on standard input. The prompt's UTF-8
      encoding is passed in as `promptBytes`. */
  function Attempts(codexCmd: string, extraArgs: seq<string>, prompt: string, promptBytes: seq<byte>): seq<Attempt> {
    [Attempt([codexCmd] + extraArgs + [prompt], []), Attempt([codexCmd] + extraArgs, promptBytes)]
  }

  /** One attempt: its output if it (or its pseudo-terminal retry) succeeded, and
      the errors it collected; or the exception that escaped `_run`. */
  datatype AttemptOutcome = AttemptOutcome(output: Option<seq<byte>>, errors: seq<string>) | AttemptRaised(message: string)

  function RetriesUnderPty(message: string, onWindows: bool): bool {
    IsTtyError(message) && !onWindows
  }

  function AttemptSpec(a: Attempt, run: Attempt -> RunResult, runPty: Attempt -> RunResult, onWindows: bool): AttemptOutcome {
    match run(a)
    case RunOk(out) => AttemptOutcome(Some(out), [])
    case RunRaised(e) => AttemptRaised(e)
    case RunFailed(m) =>
      if !RetriesUnderPty(m, onWindows) then AttemptOutcome(None, [m])
      else
        // the retry catches every exception
        match runPty(a)
        case RunOk(out) => AttemptOutcome(Some(out), [m])
        case _ => AttemptOutcome(None, [m, "PTY fallback failed: " + runPty(a).message])
  }

  const FAILURE_PREFIX: string := "Codex invocation failed:\n"
  const ERROR_SEPARATOR: string := "\n---\n"

  /** The attempts in order: the first output wins and an escaping exception ends
      the call; when every attempt fails, the error lists every message collected,
      in order. */
  function InvokeSpec(attempts: seq<Attempt>, errors: seq<string>, run: Attempt -> RunResult,
                      runPty: Attempt -> RunResult, onWindows: bool): Invocation
    decreases |attempts|
  {
    if attempts == [] then InvocationFailed(FAILURE_PREFIX + Join(errors, ERROR_SEPARATOR))
    else
      match AttemptSpec(attempts[0], run, runPty, onWindows)
      case AttemptRaised(e) => Raised(e)
      case AttemptOutcome(out, errs) =>
        if out.Some? then Output(out.value)
        else InvokeSpec(attempts[1..], errors + errs, run, runPty, onWindows)
  }

  /** `call_codex_auto` from the list of attempts on; `prior` holds the errors of the
      interactive fast path, which is not part of this model. */
  method CallCodexAuto(codexCmd: string, extraArgs: seq<string>, prompt: string, promptBytes: seq<byte>,
                       prior: seq<string>, run: Attempt -> RunResult, runPty: Attempt -> RunResult, onWindows: bool)
    returns (r: Invocation)
    ensures r == InvokeSpec(Attempts(codexCmd, extraArgs, prompt, promptBytes), prior, run, runPty, onWindows)
  {
    var attempts := Attempts(codexCmd, extraArgs, prompt, promptBytes);
    var errorMessages := prior;
    for i := 0 to |attempts|
      invariant InvokeSpec(attempts, prior, run, runPty, onWindows) ==
        InvokeSpec(attempts[i..], errorMessages, run, runPty, onWindows)
    {
      var a := attempts[i];
      assert attempts[i..][1..] == attempts[i + 1..];
      ghost var before := errorMessages;
      ghost var o := AttemptSpec(a, run, runPty, onWindows);
      var result := run(a);
      match result {
        case RunOk(out) =>
          return Output(out);
        case RunRaised(e) =>
          return Raised(e);
        case RunFailed(m) =>
          errorMessages := errorMessages + [m];
          if IsTtyError(m) && !onWindows {
            var retry := runPty(a);
            match retry {
              case RunOk(out) =>
                return Output(out);
              case _ =>
                errorMessages := errorMessages + ["PTY fallback failed: " + retry.message];
                assert errorMessages == before + [m, "PTY fallback failed: " + retry.message];
            }
          }
          assert o.AttemptOutcome? && o.output.None? && errorMessages == before + o.errors;
      }
    }
    return InvocationFailed(FAILURE_PREFIX + Join(errorMessages, ERROR_SEPARATOR));
  }

  // ---------------------------------------------------------------------------
  // Properties of the attempt order.

  /** The errors one failed attempt contributes: its own, then the retry's if one was made. */
  function FailureErrors(a: Attempt, run: Attempt -> RunResult, runPty: Attempt -> RunResult, onWindows: bool): seq<string>
    requires run(a).RunFailed?
  {
    [run(a).message] +
      if RetriesUnderPty(run(a).message, onWindows) && !runPty(a).RunOk? then ["PTY fallback failed: " + runPty(a).message] else []
  }

  /** An attempt fails outright when `_run` raises `RuntimeError` and its retry, if any, fails too. */
  predicate Fails(a: Attempt, run: Attempt -> RunResult, runPty: Attempt -> RunResult, onWindows: bool) {
    run(a).RunFailed? && (RetriesUnderPty(run(a).message, onWindows) ==> !runPty(a).RunOk?)
  }

  /** An attempt succeeds when `_run` succeeds, or when it raises a terminal error
      and the pseudo-terminal retry succeeds. */
  predicate Succeeds(a: Attempt, run: Attempt -> RunResult, runPty: Attempt -> RunResult, onWindows: bool) {
    run(a).RunOk? || (run(a).RunFailed? && RetriesUnderPty(run(a).message, onWindows) && runPty(a).RunOk?)
  }

  /** Argument mode succeeding is returned at once and standard-input mode is not tried. */
  lemma ArgumentModeFirst(codexCmd: string, extraArgs: seq<string>, prompt: string, promptBytes: seq<byte>,
                          prior: seq<string>, run: Attempt -> RunResult, runPty: Attempt -> RunResult, onWindows: bool)
    requires run(Attempt([codexCmd] + extraArgs + [prompt], [])).RunOk?
    ensures InvokeSpec(Attempts(codexCmd, extraArgs, prompt, promptBytes), prior, run, runPty, onWindows) ==
      Output(run(Attempt([codexCmd] + extraArgs + [prompt], [])).output)
  {
  }

  /** When both attempts fail, the raised message joins, in order, the earlier
      errors, the argument-mode error and its retry's, then the standard-input
      error and its retry's. */
  lemma AllAttemptsFail(codexCmd: string, extraArgs: seq<string>, prompt: string, promptBytes: seq<byte>,
                        prior: seq<string>, run: Attempt -> RunResult, runPty: Attempt -> RunResult, onWindows: bool)
    requires var attempts := Attempts(codexCmd, extraArgs, prompt, promptBytes);
      Fails(attempts[0], run, runPty, onWindows) && Fails(attempts[1], run, runPty, onWindows)
    ensures var attempts := Attempts(codexCmd, extraArgs, prompt, promptBytes);
      InvokeSpec(attempts, prior, run, runPty, onWindows) ==
        InvocationFailed(FAILURE_PREFIX + Join(prior + FailureErrors(attempts[0], run, runPty, onWindows)
                                                      + FailureErrors(attempts[1], run, runPty, onWindows), ERROR_SEPARATOR))
  {
    var attempts := Attempts(codexCmd, extraArgs, prompt, promptBytes);
    var e0 := FailureErrors(attempts[0], run, runPty, onWindows);
    var e1 := FailureErrors(attempts[1], run, runPty, onWindows);
    assert AttemptSpec(attempts[0], run, runPty, onWindows) == AttemptOutcome(None, e0);
    assert AttemptSpec(attempts[1], run, runPty, onWindows) == AttemptOutcome(None, e1);
    var tail := attempts[1..];
    assert tail[0] == attempts[1] && tail[1..] == [];
    calc {
      InvokeSpec(attempts, prior, run, runPty, onWindows);
      InvokeSpec(tail, prior + e0, run, runPty, onWindows);
      InvokeSpec([], prior + e0 + e1, run, runPty, onWindows);
    }
  }

  /** Every attempt before the `k`-th fails outright. */
  predicate FailsBefore(attempts: seq<Attempt>, k: nat, run: Attempt -> RunResult, runPty: Attempt -> RunResult, onWindows: bool)
    requires k <= |attempts|
  {
    forall j :: 0 <= j < k ==> Fails(attempts[j], run, runPty, onWindows)
  }

  /** Failing before a later attempt is failing the first, then failing before it in the rest. */
  lemma FailsBeforeShift(attempts: seq<Attempt>, k: nat, run: Attempt -> RunResult, runPty: Attempt -> RunResult, onWindows: bool)
    requires 0 < k <= |attempts|
    ensures FailsBefore(attempts, k, run, runPty, onWindows) <==>
      Fails(attempts[0], run, runPty, onWindows) && FailsBefore(attempts[1..], k - 1, run, runPty, onWindows)
  {
    if Fails(attempts[0], run, runPty, onWindows) && FailsBefore(attempts[1..], k - 1, run, runPty, onWindows) {
      forall j | 0 < j < k ensures Fails(attempts[j], run, runPty, onWindows) {
        assert attempts[1..][j - 1] == attempts[j];
      }
    }
    if FailsBefore(attempts, k, run, runPty, onWindows) {
      forall j | 0 <= j < k - 1 ensures Fails(attempts[1..][j], run, runPty, onWindows) {
        assert attempts[1..][j] == attempts[j + 1];
      }
    }
  }

  /** The call returns output exactly when some attempt succeeds and every attempt
      before it fails outright, and then with the output of that attempt. */
  lemma {:induction false} InvokeSucceedsIff(attempts: seq<Attempt>, errors: seq<string>, run: Attempt -> RunResult,
                                             runPty: Attempt -> RunResult, onWindows: bool)
    ensures InvokeSpec(attempts, errors, run, runPty, onWindows).Output? <==>
      exists k :: 0 <= k < |attempts| && Succeeds(attempts[k], run, runPty, onWindows) && FailsBefore(attempts, k, run, runPty, onWindows)
    decreases |attempts|
  {
    if attempts != [] {
      var a := attempts[0];
      if Succeeds(a, run, runPty, onWindows) {
        assert FailsBefore(attempts, 0, run, runPty, onWindows);
      } else if Fails(a, run, runPty, onWindows) {
        var tail := attempts[1..];
        InvokeSucceedsIff(tail, errors + AttemptSpec(a, run, runPty, onWindows).errors, run, runPty, onWindows);
        if exists k :: 0 <= k < |attempts| && Succeeds(attempts[k], run, runPty, onWindows) && FailsBefore(attempts, k, run, runPty, onWindows) {
          var k :| 0 <= k < |attempts| && Succeeds(attempts[k], run, runPty, onWindows) && FailsBefore(attempts, k, run, runPty, onWindows);
          FailsBeforeShift(attempts, k, run, runPty, onWindows);
          assert tail[k - 1] == attempts[k];
        }
        if exists k :: 0 <= k < |tail| && Succeeds(tail[k], run, runPty, onWindows) && FailsBefore(tail, k, run, runPty, onWindows) {
          var k :| 0 <= k < |tail| && Succeeds(tail[k], run, runPty, onWindows) && FailsBefore(tail, k, run, runPty, onWindows);
          FailsBeforeShift(attempts, k + 1, run, runPty, onWindows);
          assert attempts[k + 1] == tail[k];
        }
      } else {
        forall k | 0 < k <= |attempts| ensures !FailsBefore(attempts, k, run, runPty, onWindows) {
          FailsBeforeShift(attempts, k, run, runPty, onWindows);
        }
      }
    }
  }

  /** The call lets an exception escape exactly when `_run` raises something other
      than `RuntimeError` in some attempt and every attempt before it fails outright. */
  lemma {:induction false} InvokeRaisesIff(attempts: seq<Attempt>, errors: seq<string>, run: Attempt -> RunResult,
                                           runPty: Attempt -> RunResult, onWindows: bool)
    ensures InvokeSpec(attempts, errors, run, runPty, onWindows).Raised? <==>
      exists k :: 0 <= k < |attempts| && run(attempts[k]).RunRaised? && FailsBefore(attempts, k, run, runPty, onWindows)
    decreases |attempts|
  {
    if attempts != [] {
      var a := attempts[0];
      if run(a).RunRaised? {
        assert FailsBefore(attempts, 0, run, runPty, onWindows);
      } else if Fails(a, run, runPty, onWindows) {
        var tail := attempts[1..];
        InvokeRaisesIff(tail, errors + AttemptSpec(a, run, runPty, onWindows).errors, run, runPty, onWindows);
        if exists k :: 0 <= k < |attempts| && run(attempts[k]).RunRaised? && FailsBefore(attempts, k, run, runPty, onWindows) {
          var k :| 0 <= k < |attempts| && run(attempts[k]).RunRaised? && FailsBefore(attempts, k, run, runPty, onWindows);
          FailsBeforeShift(attempts, k, run, runPty, onWindows);
          assert tail[k - 1] == attempts[k];
        }
        if exists k :: 0 <= k < |tail| && run(tail[k]).RunRaised? && FailsBefore(tail, k, run, runPty, onWindows) {
          var k :| 0 <= k < |tail| && run(tail[k]).RunRaised? && FailsBefore(tail, k, run, runPty, onWindows);
          FailsBeforeShift(attempts, k + 1, run, runPty, onWindows);
          assert attempts[k + 1] == tail[k];
        }
      } else {
        forall k | 0 < k <= |attempts| ensures !FailsBefore(attempts, k, run, runPty, onWindows) {
          FailsBeforeShift(attempts, k, run, runPty, onWindows);
        }
      }
    }
  }

  /** The call raises its own "Codex invocation failed" error exactly when every
      attempt fails outright. */
  lemma {:induction false} InvokeFailsIff(attempts: seq<Attempt>, errors: seq<string>, run: Attempt -> RunResult,
                                          runPty: Attempt -> RunResult, onWindows: bool)
    ensures InvokeSpec(attempts, errors, run, runPty, onWindows).InvocationFailed? <==>
      FailsBefore(attempts, |attempts|, run, runPty, onWindows)
    decreases |attempts|
  {
    if attempts != [] {
      var a := attempts[0];
      FailsBeforeShift(attempts, |attempts|, run, runPty, onWindows);
      if Fails(a, run, runPty, onWindows) {
        InvokeFailsIff(attempts[1..], errors + AttemptSpec(a, run, runPty, onWindows).errors, run, runPty, onWindows);
      }
    }
  }

  /** The output of a succeeding attempt: its own, or its pseudo-terminal retry's. */
  function SuccessOutput(a: Attempt, run: Attempt -> RunResult, runPty: Attempt -> RunResult): seq<byte>
    requires run(a).RunOk? || runPty(a).RunOk?
  {
    if run(a).RunOk? then run(a).output else runPty(a).output
  }

  /** When the `k`-th attempt succeeds after outright failures only, the call
      returns that attempt's output. */
  lemma {:induction false} InvokeReturnsFirstSuccess(attempts: seq<Attempt>, errors: seq<string>, run: Attempt -> RunResult,
                                                     runPty: Attempt -> RunResult, onWindows: bool, k: nat)
    requires k < |attempts| && Succeeds(attempts[k], run, runPty, onWindows) && FailsBefore(attempts, k, run, runPty, onWindows)
    ensures InvokeSpec(attempts, errors, run, runPty, onWindows) == Output(SuccessOutput(attempts[k], run, runPty))
    decreases k
  {
    if k > 0 {
      var a := attempts[0];
      FailsBeforeShift(attempts, k, run, runPty, onWindows);
      assert attempts[1..][k - 1] == attempts[k];
      InvokeReturnsFirstSuccess(attempts[1..], errors + AttemptSpec(a, run, runPty, onWindows).errors, run, runPty, onWindows, k - 1);
    }
  }

  /** An exception other than `RuntimeError` in argument mode escapes at once:
      standard-input mode is not tried and no failure text is built. */
  lemma ArgumentModeRaiseEscapes(codexCmd: string, extraArgs: seq<string>, prompt: string, promptBytes: seq<byte>,
                                 prior: seq<string>, run: Attempt -> RunResult, runPty: Attempt -> RunResult, onWindows: bool)
    requires run(Attempt([codexCmd] + extraArgs + [prompt], [])).RunRaised?
    ensures InvokeSpec(Attempts(codexCmd, extraArgs, prompt, promptBytes), prior, run, runPty, onWindows) ==
      Raised(run(Attempt([codexCmd] + extraArgs + [prompt], [])).message)
  {
  }

  /** The pseudo-terminal is never used on Windows, nor when no error mentions a
      missing terminal: the retry's outcome then makes no difference. */
  lemma {:induction false} PtyOnlyForTtyErrors(attempts: seq<Attempt>, errors: seq<string>, run: Attempt -> RunResult,
                                               runPty: Attempt -> RunResult, otherPty: Attempt -> RunResult, onWindows: bool)
    requires onWindows || forall k :: 0 <= k < |attempts| && run(attempts[k]).RunFailed? ==> !IsTtyError(run(attempts[k]).message)
    ensures InvokeSpec(attempts, errors, run, runPty, onWindows) == InvokeSpec(attempts, errors, run, otherPty, onWindows)
    decreases |attempts|
  {
    if attempts != [] {
      assert AttemptSpec(attempts[0], run, runPty, onWindows) == AttemptSpec(attempts[0], run, otherPty, onWindows);
      forall k | 0 <= k < |attempts[1..]| ensures attempts[1..][k] == attempts[k + 1] {
      }
      var o := AttemptSpec(attempts[0], run, runPty, onWindows);
      if o.AttemptOutcome? {
        PtyOnlyForTtyErrors(attempts[1..], errors + o.errors, run, runPty, otherPty, onWindows);
      }
    }
  }

  /** Argument mode refused for want of a terminal succeeds under the pseudo-terminal
      off Windows, before standard-input mode is tried. */
  lemma PtyRetryExample(message: string, out: seq<byte>, stdinOut: seq<byte>)
    requires IsTtyError(message)
    ensures var run := (a: Attempt) => if a.input == [] then RunFailed(message) else RunOk(stdinOut);
      InvokeSpec(Attempts("codex", [], "hi", [0x68, 0x69]), [], run, (a: Attempt) => RunOk(out), false) == Output(out)
  {
  }

  /** On Windows any refusal of argument mode fails over to standard-input mode. */
  lemma WindowsSkipsPty(message: string, out: seq<byte>, stdinOut: seq<byte>)
    ensures var run := (a: Attempt) => if a.input == [] then RunFailed(message) else RunOk(stdinOut);
      InvokeSpec(Attempts("codex", [], "hi", [0x68, 0x69]), [], run, (a: Attempt) => RunOk(out), true) == Output(stdinOut)
  {
    var attempts := Attempts("codex", [], "hi", [0x68, 0x69]);
    assert attempts[1..][0].input != [];
  }
}
