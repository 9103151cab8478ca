/** The overlay's keyboard byte parser (`InputParser` in the overlay binary).
    Raw stdin bytes are turned into `InputEvent`s: hot-key control bytes become
    commands, CR and LF become one Enter (a CR followed by LF counts once, even
    across reads), escape sequences pass through verbatim, and numeric
    "CSI ... u" key reports are dropped. CSI framing and the final-byte range
    0x40-0x7E follow section 5.4 of ECMA-48. */
module KeyInput {
  import opened Wrappers
  import opened Text

  datatype InputEvent =
    | Bytes(bytes: seq<byte>)
    | VoiceTrigger
    | ToggleAutoVoice
    | ToggleSendMode
    | IncreaseSensitivity
    | DecreaseSensitivity
    | EnterKey
    | Exit

  /** An escape buffer longer than this is given up and passed through. */
  const MAX_CSI_LEN: nat := 32

  const LEFT_BRACKET: byte := 0x5b
  const LOWER_U: byte := 0x75
  const SEMICOLON: byte := 0x3b

  /** A CSI final byte (section 5.4 of ECMA-48): 0x40 ..= 0x7E. */
  predicate IsCsiFinal(b: byte) {
    0x40 <= b <= 0x7e
  }

  /** `ESC [` followed by digits and ';' only, terminated by `u`: a numeric
      key report that the parser drops. */
  predicate IsCsiUNumeric(buffer: seq<byte>) {
    && |buffer| >= 3
    && buffer[0] == ESC
    && buffer[1] == LEFT_BRACKET
    && buffer[|buffer| - 1] == LOWER_U
    && forall i :: 2 <= i < |buffer| - 1 ==> IsAsciiDigit(buffer[i]) || buffer[i] == SEMICOLON
  }

  /** The hot-key table: the command a control byte stands for, if any. */
  function HotKey(b: byte): Option<InputEvent> {
    if b == 0x11 then Some(Exit)
    else if b == 0x12 then Some(VoiceTrigger)
    else if b == 0x16 then Some(ToggleAutoVoice)
    else if b == 0x14 then Some(ToggleSendMode)
    else if b == 0x1d then Some(IncreaseSensitivity)
    else if b == 0x1c || b == 0x1f then Some(DecreaseSensitivity)
    else if b == CR || b == LF then Some(EnterKey)
    else None
  }

  /** A byte that is neither ESC nor a hot key, so it is simply accumulated. */
  predicate IsPlain(b: byte) {
    b != ESC && HotKey(b).None?
  }

  /** The three fields of the parser, as a value. */
  datatype ParserState = ParserState(pending: seq<byte>, skipLf: bool, escBuffer: Option<seq<byte>>)

  const Fresh: ParserState := ParserState([], false, None)

  datatype EscapeStep = EscapeStep(handled: bool, state: ParserState)

  /** What a call produces: the new state and the events appended to `out`. */
  datatype Output = Output(state: ParserState, events: seq<InputEvent>)

  /** The events `flush_pending` emits for accumulated bytes `p`. */
  function FlushEvents(p: seq<byte>): seq<InputEvent> {
    if p == [] then [] else [Bytes(p)]
  }

  /** `consume_escape`: whether the escape path took the byte, and the new state. */
  function ConsumeEscapeSpec(st: ParserState, b: byte): EscapeStep {
    match st.escBuffer
    case Some(open) =>
      var buffer := open + [b];
      var passThrough := ParserState(st.pending + buffer, st.skipLf, None);
      if |buffer| == 2 && buffer[1] != LEFT_BRACKET then EscapeStep(true, passThrough)
      else if |buffer| >= 2 && buffer[1] == LEFT_BRACKET then
        if |buffer| >= 3 && IsCsiFinal(b) then
          if IsCsiUNumeric(buffer) then EscapeStep(true, st.(escBuffer := None))
          else EscapeStep(true, passThrough)
        else if |buffer| > MAX_CSI_LEN then EscapeStep(true, passThrough)
        else EscapeStep(true, st.(escBuffer := Some(buffer)))
      else if |buffer| > MAX_CSI_LEN then EscapeStep(true, passThrough)
      else EscapeStep(true, st.(escBuffer := Some(buffer)))
    case None =>
      if b == ESC then EscapeStep(true, st.(escBuffer := Some([ESC])))
      else EscapeStep(false, st)
  }

  /** `flush_pending`: an open escape buffer joins the pending bytes, which are
      emitted as one `Bytes` event when there are any. */
  function FlushSpec(st: ParserState): (r: Output)
    ensures r.state == ParserState([], st.skipLf, None)
  {
    var p := match st.escBuffer case Some(buffer) => st.pending + buffer case None => st.pending;
    Output(ParserState([], st.skipLf, None), FlushEvents(p))
  }

  /** One iteration of the loop in `consume_bytes`. */
  function StepSpec(st: ParserState, b: byte): Output {
    var e := ConsumeEscapeSpec(st, b);
    if e.handled then Output(e.state, [])
    else if st.skipLf && b == LF then Output(st.(skipLf := false), [])
    else
      var s := st.(skipLf := false);
      match HotKey(b)
      case Some(event) =>
        var f := FlushSpec(s);
        Output(f.state.(skipLf := b == CR), f.events + [event])
      case None => Output(s.(pending := s.pending + [b]), [])
  }

  /** `consume_bytes` over a whole chunk. */
  function ConsumeSpec(st: ParserState, bytes: seq<byte>): Output
    decreases |bytes|
  {
    if bytes == [] then Output(st, [])
    else
      var o := ConsumeSpec(st, bytes[..|bytes| - 1]);
      var s := StepSpec(o.state, bytes[|bytes| - 1]);
      Output(s.state, o.events + s.events)
  }

  /** Each chunk read from stdin is consumed and then flushed. */
  function ParseChunks(st: ParserState, chunks: seq<seq<byte>>): Output
    decreases |chunks|
  {
    if chunks == [] then Output(st, [])
    else
      var o := ParseChunks(st, chunks[..|chunks| - 1]);
      var c := ConsumeSpec(o.state, chunks[|chunks| - 1]);
      var f := FlushSpec(c.state);
      Output(f.state, o.events + c.events + f.events)
  }

  /** Continuing from the result of one call. */
  function Then(o: Output, bytes: seq<byte>): Output {
    var o2 := ConsumeSpec(o.state, bytes);
    Output(o2.state, o.events + o2.events)
  }

  // ---------------------------------------------------------------------------
  // The parser object.

  class InputParser {
    var pending: seq<byte>
    var skipLf: bool
    var escBuffer: Option<seq<byte>>

    function State(): ParserState
      reads this
    {
      ParserState(pending, skipLf, escBuffer)
    }

    constructor ()
      ensures State() == Fresh
    {
      pending := [];
      skipLf := false;
      escBuffer := None;
    }

    method ConsumeEscape(b: byte) returns (handled: bool)
      modifies this
      ensures EscapeStep(handled, State()) == ConsumeEscapeSpec(old(State()), b)
    {
      if escBuffer.Some? {
        var buffer := escBuffer.value + [b];
        if |buffer| == 2 && buffer[1] != LEFT_BRACKET {
          pending := pending + buffer;
          escBuffer := None;
          return true;
        }
        if |buffer| >= 2 && buffer[1] == LEFT_BRACKET {
          if |buffer| >= 3 && IsCsiFinal(b) {
            if IsCsiUNumeric(buffer) {
              escBuffer := None;
            } else {
              pending := pending + buffer;
              escBuffer := None;
            }
            return true;
          }
          if |buffer| > MAX_CSI_LEN {
            pending := pending + buffer;
            escBuffer := None;
            return true;
          }
          escBuffer := Some(buffer);
          return true;
        }
        if |buffer| > MAX_CSI_LEN {
          pending := pending + buffer;
          escBuffer := None;
        } else {
          escBuffer := Some(buffer);
        }
        return true;
      }
      if b == ESC {
        escBuffer := Some([b]);
        return true;
      }
      return false;
    }

    method FlushPending(out: seq<InputEvent>) returns (events: seq<InputEvent>)
      modifies this
      ensures State() == FlushSpec(old(State())).state
      ensures events == out + FlushSpec(old(State())).events
    {
      if escBuffer.Some? {
        pending := pending + escBuffer.value;
        escBuffer := None;
      }
      events := out;
      if pending != [] {
        events := events + [Bytes(pending)];
        pending := [];
      }
    }

    /** One pass of the loop body of `consume_bytes`. */
    method Step(b: byte, out: seq<InputEvent>) returns (events: seq<InputEvent>)
      modifies this
      ensures State() == StepSpec(old(State()), b).state
      ensures events == out + StepSpec(old(State()), b).events
    {
      events := out;
      var handled := ConsumeEscape(b);
      if !handled {
        if skipLf && b == LF {
          skipLf := false;
        } else {
          skipLf := false;
          match HotKey(b)
          case Some(event) =>
            events := FlushPending(events);
            events := events + [event];
            if b == CR {
              skipLf := true;
            }
          case None =>
            pending := pending + [b];
        }
      }
    }

    method ConsumeBytes(bytes: seq<byte>, out: seq<InputEvent>) returns (events: seq<InputEvent>)
      modifies this
      ensures State() == ConsumeSpec(old(State()), bytes).state
      ensures events == out + ConsumeSpec(old(State()), bytes).events
    {
      events := out;
      for i := 0 to |bytes|
        invariant State() == ConsumeSpec(old(State()), bytes[..i]).state
        invariant events == out + ConsumeSpec(old(State()), bytes[..i]).events
      {
        ConsumeSnoc(old(State()), bytes[..i], bytes[i]);
        assert bytes[..i + 1] == bytes[..i] + [bytes[i]];
        events := Step(bytes[i], events);
      }
      assert bytes[..|bytes|] == bytes;
    }
  }

  /** The input thread's loop body (and the tests' `parse_events`): each chunk is
      consumed and then flushed by one parser that lives across chunks. */
  method ParseEvents(chunks: seq<seq<byte>>) returns (events: seq<InputEvent>)
    ensures events == ParseChunks(Fresh, chunks).events
  {
    var parser := new InputParser();
    events := [];
    for i := 0 to |chunks|
      invariant parser.State() == ParseChunks(Fresh, chunks[..i]).state
      invariant events == ParseChunks(Fresh, chunks[..i]).events
    {
      assert chunks[..i + 1][..i] == chunks[..i];
      events := parser.ConsumeBytes(chunks[i], events);
      events := parser.FlushPending(events);
    }
    assert chunks[..|chunks|] == chunks;
  }

  // ---------------------------------------------------------------------------
  // Properties of the parser.

  /** Consuming one more byte is one more step. */
  lemma ConsumeSnoc(st: ParserState, a: seq<byte>, b: byte)
    ensures ConsumeSpec(st, a + [b]) ==
      var o := ConsumeSpec(st, a);
      var s := StepSpec(o.state, b);
      Output(s.state, o.events + s.events)
  {
    assert (a + [b])[..|a + [b]| - 1] == a;
  }

  lemma ConsumeSingle(st: ParserState, b: byte)
    ensures ConsumeSpec(st, [b]) == StepSpec(st, b)
  {
    ConsumeSnoc(st, [], b);
    assert [] + [b] == [b];
  }

  lemma ConsumePair(st: ParserState, b1: byte, b2: byte)
    ensures ConsumeSpec(st, [b1, b2]) ==
      var s1 := StepSpec(st, b1);
      var s2 := StepSpec(s1.state, b2);
      Output(s2.state, s1.events + s2.events)
  {
    ConsumeSingle(st, b1);
    ConsumeSnoc(st, [b1], b2);
    assert [b1] + [b2] == [b1, b2];
  }

  /** The state persists between calls: consuming `a + b` is consuming `a` and then `b`. */
  lemma {:induction false} ConsumeAppend(st: ParserState, a: seq<byte>, b: seq<byte>)
    ensures ConsumeSpec(st, a + b) == Then(ConsumeSpec(st, a), b)
    decreases |b|
  {
    if b == [] {
      assert a + b == a;
    } else {
      var init := b[..|b| - 1];
      var last := b[|b| - 1];
      var o := ConsumeSpec(st, a);
      var mid := ConsumeSpec(o.state, init);
      var step := StepSpec(mid.state, last);
      assert ConsumeSpec(st, a + b) == Output(step.state, (o.events + mid.events) + step.events) by {
        assert a + b == (a + init) + [last];
        ConsumeAppend(st, a, init);
        ConsumeSnoc(st, a + init, last);
      }
      assert ConsumeSpec(o.state, b) == Output(step.state, mid.events + step.events) by {
        assert b == init + [last];
        ConsumeSnoc(o.state, init, last);
      }
      assert (o.events + mid.events) + step.events == o.events + (mid.events + step.events);
    }
  }

  /** Plain bytes (no ESC, no hot key) are accumulated in order and produce no event. */
  lemma {:induction false} PlainBytesAccumulate(st: ParserState, bytes: seq<byte>)
    requires st.escBuffer.None?
    requires forall i :: 0 <= i < |bytes| ==> IsPlain(bytes[i])
    ensures ConsumeSpec(st, bytes) ==
      Output(ParserState(st.pending + bytes, st.skipLf && bytes == [], None), [])
    decreases |bytes|
  {
    if bytes != [] {
      var init := bytes[..|bytes| - 1];
      var last := bytes[|bytes| - 1];
      assert bytes == init + [last];
      assert IsPlain(last);
      assert st.pending + init + [last] == st.pending + bytes;
      PlainBytesAccumulate(st, init);
      ConsumeSnoc(st, init, last);
    }
  }

  /** A hot-key byte first emits the bytes accumulated before it as one `Bytes`
      event, then its own event; CR also arms the LF skip. */
  lemma StepHotKey(st: ParserState, b: byte)
    requires st.escBuffer.None?
    requires HotKey(b).Some?
    requires !(st.skipLf && b == LF)
    ensures StepSpec(st, b) ==
      Output(ParserState([], b == CR, None), FlushEvents(st.pending) + [HotKey(b).value])
  {
  }

  lemma HotKeyByte(st: ParserState, b: byte)
    requires st.escBuffer.None?
    requires HotKey(b).Some?
    requires !(st.skipLf && b == LF)
    ensures ConsumeSpec(st, [b]) ==
      Output(ParserState([], b == CR, None), FlushEvents(st.pending) + [HotKey(b).value])
  {
    ConsumeSingle(st, b);
    StepHotKey(st, b);
  }

  /** An LF right after a CR is swallowed. */
  lemma StepSkippedLf(st: ParserState)
    requires st.escBuffer.None? && st.skipLf
    ensures StepSpec(st, LF) == Output(st.(skipLf := false), [])
  {
  }

  /** CR then LF is one Enter when they come in one read. */
  lemma CrLfIsOneEnter(st: ParserState)
    requires st.escBuffer.None?
    ensures ConsumeSpec(st, [CR, LF]) ==
      Output(ParserState([], false, None), FlushEvents(st.pending) + [EnterKey])
  {
    var armed := ParserState([], true, None);
    assert HotKey(CR) == Some(EnterKey);
    assert StepSpec(st, CR) == Output(armed, FlushEvents(st.pending) + [EnterKey]) by {
      StepHotKey(st, CR);
    }
    assert StepSpec(armed, LF) == Output(ParserState([], false, None), []) by {
      StepSkippedLf(armed);
    }
    ConsumePair(st, CR, LF);
  }

  /** A CR flushes what was pending, emits Enter and arms the LF skip. */
  lemma CrArmsSkip(st: ParserState)
    requires st.escBuffer.None?
    ensures ConsumeSpec(st, [CR]) == Output(ParserState([], true, None), FlushEvents(st.pending) + [EnterKey])
  {
    assert HotKey(CR) == Some(EnterKey);
    HotKeyByte(st, CR);
  }

  lemma ArmedLf()
    ensures ConsumeSpec(ParserState([], true, None), [LF]) == Output(ParserState([], false, None), [])
  {
    var armed := ParserState([], true, None);
    StepSkippedLf(armed);
    ConsumeSingle(armed, LF);
  }

  /** CR then LF is one Enter also when the LF comes in the next read. */
  lemma CrLfAcrossReads(st: ParserState)
    requires st.escBuffer.None?
    ensures var first := ConsumeSpec(st, [CR]);
      var flushed := FlushSpec(first.state);
      var second := ConsumeSpec(flushed.state, [LF]);
      && first.events == FlushEvents(st.pending) + [EnterKey]
      && flushed.events == []
      && second == Output(ParserState([], false, None), [])
  {
    CrArmsSkip(st);
    assert FlushSpec(ParserState([], true, None)).events == [];
    ArmedLf();
  }

  /** A CR followed by any byte other than LF or ESC does not swallow that byte:
      it is handled exactly as by a parser that has just been flushed. */
  lemma CrKeepsNextByte(st: ParserState, x: byte)
    requires st.escBuffer.None?
    requires x != LF && x != ESC
    ensures var next := StepSpec(ParserState([], false, None), x);
      ConsumeSpec(st, [CR, x]) ==
        Output(next.state, FlushEvents(st.pending) + [EnterKey] + next.events)
  {
    var armed := ParserState([], true, None);
    HotKeyByte(st, CR);
    assert StepSpec(st, CR) == Output(armed, FlushEvents(st.pending) + [EnterKey]);
    assert StepSpec(armed, x) == StepSpec(ParserState([], false, None), x);
    ConsumePair(st, CR, x);
  }

  /** ESC followed by anything but '[' is passed through as those two bytes. */
  lemma EscapeNonBracket(st: ParserState, x: byte)
    requires st.escBuffer.None?
    requires x != LEFT_BRACKET
    ensures ConsumeSpec(st, [ESC, x]) ==
      Output(ParserState(st.pending + [ESC, x], st.skipLf, None), [])
  {
    var open := st.(escBuffer := Some([ESC]));
    assert StepSpec(st, ESC) == Output(open, []);
    assert [ESC] + [x] == [ESC, x];
    assert StepSpec(open, x) == Output(ParserState(st.pending + [ESC, x], st.skipLf, None), []);
    ConsumePair(st, ESC, x);
  }

  /** ESC '[' opens a CSI buffer. */
  lemma CsiIntroducer(st: ParserState)
    requires st.escBuffer.None?
    ensures ConsumeSpec(st, [ESC, LEFT_BRACKET]) ==
      Output(st.(escBuffer := Some([ESC, LEFT_BRACKET])), [])
  {
    var open := st.(escBuffer := Some([ESC]));
    assert StepSpec(st, ESC) == Output(open, []);
    assert [ESC] + [LEFT_BRACKET] == [ESC, LEFT_BRACKET];
    assert StepSpec(open, LEFT_BRACKET) == Output(st.(escBuffer := Some([ESC, LEFT_BRACKET])), []);
    ConsumePair(st, ESC, LEFT_BRACKET);
  }

  /** Inside a CSI, bytes that are not final bytes are buffered while the buffer
      stays within its limit. */
  lemma {:induction false} CsiBuffers(st: ParserState, params: seq<byte>)
    requires st.escBuffer.Some? && |st.escBuffer.value| >= 2 && st.escBuffer.value[1] == LEFT_BRACKET
    requires |st.escBuffer.value| + |params| <= MAX_CSI_LEN
    requires forall i :: 0 <= i < |params| ==> !IsCsiFinal(params[i])
    ensures ConsumeSpec(st, params) == Output(st.(escBuffer := Some(st.escBuffer.value + params)), [])
    decreases |params|
  {
    if params == [] {
      assert st.escBuffer.value + params == st.escBuffer.value;
    } else {
      var init := params[..|params| - 1];
      var last := params[|params| - 1];
      assert params == init + [last];
      CsiBuffers(st, init);
      var open := st.escBuffer.value + init;
      ConsumeSnoc(st, init, last);
      assert (open + [last])[1] == LEFT_BRACKET;
      assert !IsCsiFinal(last);
      assert StepSpec(st.(escBuffer := Some(open)), last) ==
        Output(st.(escBuffer := Some(open + [last])), []);
      assert open + [last] == st.escBuffer.value + params;
    }
  }

  /** A complete CSI sequence (parameters, then a final byte) is passed through
      verbatim, unless it is a numeric `ESC [ ... u` report, which is dropped. */
  lemma CsiSequence(st: ParserState, params: seq<byte>, final: byte)
    requires st.escBuffer.None?
    requires |params| + 2 <= MAX_CSI_LEN
    requires forall i :: 0 <= i < |params| ==> !IsCsiFinal(params[i])
    requires IsCsiFinal(final)
    ensures var csi := [ESC, LEFT_BRACKET] + params + [final];
      ConsumeSpec(st, csi) ==
        Output(ParserState(if IsCsiUNumeric(csi) then st.pending else st.pending + csi, st.skipLf, None), [])
  {
    var intro: seq<byte> := [ESC, LEFT_BRACKET];
    var open := st.(escBuffer := Some(intro + params));
    CsiOpen(st, params);
    assert StepSpec(open, final) ==
      Output(ParserState(if IsCsiUNumeric(intro + params + [final]) then st.pending else st.pending + (intro + params + [final]), st.skipLf, None), []) by {
      assert (intro + params + [final])[1] == LEFT_BRACKET;
    }
    ConsumeSnoc(st, intro + params, final);
  }

  /** The introducer and non-final parameter bytes leave an open CSI buffer. */
  lemma CsiOpen(st: ParserState, params: seq<byte>)
    requires st.escBuffer.None?
    requires |params| + 2 <= MAX_CSI_LEN
    requires forall i :: 0 <= i < |params| ==> !IsCsiFinal(params[i])
    ensures ConsumeSpec(st, [ESC, LEFT_BRACKET] + params) ==
      Output(st.(escBuffer := Some([ESC, LEFT_BRACKET] + params)), [])
  {
    var intro: seq<byte> := [ESC, LEFT_BRACKET];
    CsiIntroducer(st);
    CsiBuffers(st.(escBuffer := Some(intro)), params);
    ConsumeAppend(st, intro, params);
  }

  /** A CSI byte that is not a final byte and would make the buffer longer than
      its limit makes the parser give the sequence up and pass it through. */
  lemma StepOverflow(st: ParserState, b: byte)
    requires st.escBuffer.Some? && |st.escBuffer.value| == MAX_CSI_LEN
    requires st.escBuffer.value[1] == LEFT_BRACKET && !IsCsiFinal(b)
    ensures StepSpec(st, b) == Output(ParserState(st.pending + st.escBuffer.value + [b], st.skipLf, None), [])
  {
    assert (st.escBuffer.value + [b])[1] == LEFT_BRACKET;
  }

  /** A CSI that has no final byte within 32 bytes is given up and its bytes are
      passed through. */
  lemma CsiOverflow(st: ParserState, params: seq<byte>)
    requires st.escBuffer.None?
    requires |params| == MAX_CSI_LEN - 1
    requires forall i :: 0 <= i < |params| ==> !IsCsiFinal(params[i])
    ensures ConsumeSpec(st, [ESC, LEFT_BRACKET] + params) ==
      Output(ParserState(st.pending + [ESC, LEFT_BRACKET] + params, st.skipLf, None), [])
  {
    var intro: seq<byte> := [ESC, LEFT_BRACKET];
    var head := params[..|params| - 1];
    var last := params[|params| - 1];
    var buffered := intro + head;
    CsiOpen(st, head);
    OverflowAfterOpen(st, buffered, last);
    assert intro + params == buffered + [last];
    assert st.pending + [ESC, LEFT_BRACKET] + params == st.pending + buffered + [last];
  }

  /** A full CSI buffer followed by a non-final byte is passed through. */
  lemma OverflowAfterOpen(st: ParserState, buffered: seq<byte>, last: byte)
    requires st.escBuffer.None? && |buffered| == MAX_CSI_LEN && buffered[1] == LEFT_BRACKET
    requires !IsCsiFinal(last)
    requires ConsumeSpec(st, buffered) == Output(st.(escBuffer := Some(buffered)), [])
    ensures ConsumeSpec(st, buffered + [last]) == Output(ParserState(st.pending + buffered + [last], st.skipLf, None), [])
  {
    StepOverflow(st.(escBuffer := Some(buffered)), last);
    ConsumeSnoc(st, buffered, last);
  }

  /** An escape sequence still open when the chunk ends is flushed as plain bytes. */
  lemma UnfinishedCsiFlushed(st: ParserState, params: seq<byte>)
    requires st.escBuffer.None?
    requires |params| + 2 <= MAX_CSI_LEN
    requires forall i :: 0 <= i < |params| ==> !IsCsiFinal(params[i])
    ensures var c := ConsumeSpec(st, [ESC, LEFT_BRACKET] + params);
      c.events == [] && FlushSpec(c.state).events == [Bytes(st.pending + [ESC, LEFT_BRACKET] + params)]
  {
    var intro: seq<byte> := [ESC, LEFT_BRACKET];
    CsiOpen(st, params);
    assert st.pending + [ESC, LEFT_BRACKET] + params == st.pending + (intro + params);
  }

  /** A lone ESC at the end of a chunk is flushed as a byte of its own. */
  lemma LoneEscapeFlushed(st: ParserState)
    requires st.escBuffer.None?
    ensures var c := ConsumeSpec(st, [ESC]);
      c.events == [] && FlushSpec(c.state).events == [Bytes(st.pending + [ESC])]
  {
    assert [ESC][..0] == [];
  }

  lemma CrThenEscape(st: ParserState, x: byte)
    requires st.escBuffer.None?
    requires x != LEFT_BRACKET
    ensures ConsumeSpec(st, [CR, ESC, x]) == Output(ParserState([ESC, x], true, None), FlushEvents(st.pending) + [EnterKey])
  {
    var armed := ParserState([], true, None);
    CrArmsSkip(st);
    assert ConsumeSpec(armed, [ESC, x]) == Output(ParserState([ESC, x], true, None), []) by {
      EscapeNonBracket(armed, x);
      assert [] + [ESC, x] == [ESC, x];
    }
    assert [CR] + [ESC, x] == [CR, ESC, x];
    ConsumeAppend(st, [CR], [ESC, x]);
  }

  /** The LF skip armed by a CR is not disarmed by bytes the escape path takes:
      after CR, ESC, x (x not '['), a following LF is still swallowed. */
  lemma SkipLfSurvivesEscape(st: ParserState, x: byte)
    requires st.escBuffer.None?
    requires x != LEFT_BRACKET
    ensures ConsumeSpec(st, [CR, ESC, x, LF]) ==
      Output(ParserState([ESC, x], false, None), FlushEvents(st.pending) + [EnterKey])
  {
    var escaped := ParserState([ESC, x], true, None);
    CrThenEscape(st, x);
    assert StepSpec(escaped, LF) == Output(ParserState([ESC, x], false, None), []) by {
      StepSkippedLf(escaped);
    }
    assert [CR, ESC, x] + [LF] == [CR, ESC, x, LF];
    ConsumeSnoc(st, [CR, ESC, x], LF);
  }

  /** A numeric `ESC [ ... u` report always ends in a CSI final byte, so the
      parser reaches the drop branch exactly at its last byte. */
  lemma CsiUNumericEndsWithFinal(buffer: seq<byte>)
    requires IsCsiUNumeric(buffer)
    ensures IsCsiFinal(buffer[|buffer| - 1])
    ensures forall i :: 2 <= i < |buffer| - 1 ==> !IsCsiFinal(buffer[i])
  {
  }

  // ---------------------------------------------------------------------------
  // The parser's unit tests, as lemmas about ParseChunks.

  lemma OneChunk(st: ParserState, chunk: seq<byte>)
    ensures ParseChunks(st, [chunk]) ==
      var c := ConsumeSpec(st, chunk);
      var f := FlushSpec(c.state);
      Output(f.state, c.events + f.events)
  {
    assert [chunk][..0] == [];
  }

  /** Plain bytes followed by a hot key: one `Bytes` event, then the command. */
  lemma PlainThenHotKey(plain: seq<byte>, b: byte)
    requires forall i :: 0 <= i < |plain| ==> IsPlain(plain[i])
    requires plain != [] && HotKey(b).Some? && b != CR
    ensures ConsumeSpec(Fresh, plain + [b]) == Output(Fresh, [Bytes(plain), HotKey(b).value])
  {
    var held := ParserState(plain, false, None);
    var events := [Bytes(plain), HotKey(b).value];
    assert ConsumeSpec(Fresh, plain) == Output(held, []) by {
      PlainBytesAccumulate(Fresh, plain);
      assert [] + plain == plain;
    }
    assert StepSpec(held, b) == Output(Fresh, events) by {
      StepHotKey(held, b);
      assert FlushEvents(plain) == [Bytes(plain)];
    }
    assert [] + events == events;
    ConsumeSnoc(Fresh, plain, b);
  }

  /** Plain bytes, a hot key and more plain bytes in one read give the first
      bytes, the command and the last bytes, in that order. */
  lemma BytesAroundHotKey(a: seq<byte>, k: byte, c: seq<byte>)
    requires forall i :: 0 <= i < |a| ==> IsPlain(a[i])
    requires forall i :: 0 <= i < |c| ==> IsPlain(c[i])
    requires a != [] && c != [] && HotKey(k).Some? && k != CR
    ensures ParseChunks(Fresh, [a + [k] + c]).events == [Bytes(a), HotKey(k).value, Bytes(c)]
  {
    var chunk := a + [k] + c;
    var held := ParserState(c, false, None);
    assert ConsumeSpec(Fresh, a + [k]) == Output(Fresh, [Bytes(a), HotKey(k).value]) by {
      PlainThenHotKey(a, k);
    }
    assert ConsumeSpec(Fresh, c) == Output(held, []) by {
      PlainBytesAccumulate(Fresh, c);
    }
    assert ConsumeSpec(Fresh, chunk) == Output(held, [Bytes(a), HotKey(k).value]) by {
      ConsumeAppend(Fresh, a + [k], c);
    }
    assert FlushSpec(held).events == [Bytes(c)];
    OneChunk(Fresh, chunk);
  }

  /** "hi" Ctrl-R "there" gives Bytes("hi"), VoiceTrigger, Bytes("there"). */
  lemma BytesAroundControl()
    ensures ParseChunks(Fresh, [[0x68, 0x69, 0x12, 0x74, 0x68, 0x65, 0x72, 0x65]]).events ==
      [Bytes([0x68, 0x69]), VoiceTrigger, Bytes([0x74, 0x68, 0x65, 0x72, 0x65])]
  {
    var hi: seq<byte> := [0x68, 0x69];
    var there: seq<byte> := [0x74, 0x68, 0x65, 0x72, 0x65];
    assert hi + [0x12] + there == [0x68, 0x69, 0x12, 0x74, 0x68, 0x65, 0x72, 0x65];
    BytesAroundHotKey(hi, 0x12, there);
  }
  /** Each control key alone yields exactly its command. */
  lemma ControlKeysAlone(b: byte)
    requires HotKey(b).Some?
    ensures ParseChunks(Fresh, [[b]]).events == [HotKey(b).value]
  {
    HotKeyByte(Fresh, b);
    OneChunk(Fresh, [b]);
  }

  /** The command keys of the overlay's tests. */
  lemma CommandKeys()
    ensures ParseChunks(Fresh, [[0x11]]).events == [Exit]
    ensures ParseChunks(Fresh, [[0x12]]).events == [VoiceTrigger]
    ensures ParseChunks(Fresh, [[0x16]]).events == [ToggleAutoVoice]
    ensures ParseChunks(Fresh, [[0x14]]).events == [ToggleSendMode]
  {
    assert ParseChunks(Fresh, [[0x11]]).events == [Exit] by { ControlKeysAlone(0x11); }
    assert ParseChunks(Fresh, [[0x12]]).events == [VoiceTrigger] by { ControlKeysAlone(0x12); }
    assert ParseChunks(Fresh, [[0x16]]).events == [ToggleAutoVoice] by { ControlKeysAlone(0x16); }
    assert ParseChunks(Fresh, [[0x14]]).events == [ToggleSendMode] by { ControlKeysAlone(0x14); }
  }

  /** The sensitivity keys (both bytes for "down") and LF alone. */
  lemma SensitivityAndEnterKeys()
    ensures ParseChunks(Fresh, [[0x1d]]).events == [IncreaseSensitivity]
    ensures ParseChunks(Fresh, [[0x1c]]).events == [DecreaseSensitivity]
    ensures ParseChunks(Fresh, [[0x1f]]).events == [DecreaseSensitivity]
    ensures ParseChunks(Fresh, [[0x0a]]).events == [EnterKey]
  {
    assert ParseChunks(Fresh, [[0x1d]]).events == [IncreaseSensitivity] by { ControlKeysAlone(0x1d); }
    assert ParseChunks(Fresh, [[0x1c]]).events == [DecreaseSensitivity] by { ControlKeysAlone(0x1c); }
    assert ParseChunks(Fresh, [[0x1f]]).events == [DecreaseSensitivity] by { ControlKeysAlone(0x1f); }
    assert ParseChunks(Fresh, [[0x0a]]).events == [EnterKey] by { ControlKeysAlone(0x0a); }
  }
  /** CR in one read and LF in the next give a single Enter. */
  lemma CrThenLfInSeparateReads()
    ensures ParseChunks(Fresh, [[CR], [LF]]).events == [EnterKey]
  {
    CrLfAcrossReads(Fresh);
    assert [[CR], [LF]][..1] == [[CR]];
    OneChunk(Fresh, [CR]);
  }

  /** A numeric "CSI u" key report is dropped entirely. */
  lemma CsiUReportDropped(params: seq<byte>)
    requires |params| + 3 <= MAX_CSI_LEN
    requires forall i :: 0 <= i < |params| ==> IsAsciiDigit(params[i]) || params[i] == SEMICOLON
    ensures ParseChunks(Fresh, [[ESC, LEFT_BRACKET] + params + [LOWER_U]]).events == []
  {
    var csi: seq<byte> := [ESC, LEFT_BRACKET] + params + [LOWER_U];
    assert IsCsiUNumeric(csi) by {
      assert forall i :: 2 <= i < |csi| - 1 ==> csi[i] == params[i - 2];
    }
    assert ConsumeSpec(Fresh, csi) == Output(Fresh, []) by {
      assert forall i :: 0 <= i < |params| ==> !IsCsiFinal(params[i]) by {
        forall i | 0 <= i < |params| ensures !IsCsiFinal(params[i]) {
          assert IsAsciiDigit(params[i]) || params[i] == SEMICOLON;
        }
      }
      CsiSequence(Fresh, params, LOWER_U);
    }
    OneChunk(Fresh, csi);
  }
  /** The arrow key `ESC [ A` passes through as its three bytes. */
  lemma ArrowKeyPreserved()
    ensures ParseChunks(Fresh, [[ESC, LEFT_BRACKET, 0x41]]).events == [Bytes([ESC, LEFT_BRACKET, 0x41])]
  {
    var csi: seq<byte> := [ESC, LEFT_BRACKET, 0x41];
    CsiSequence(Fresh, [], 0x41);
    assert [ESC, LEFT_BRACKET] + [] + [0x41] == csi;
    assert !IsCsiUNumeric(csi);
    var c := ConsumeSpec(Fresh, csi);
    assert c == Output(ParserState(csi, false, None), []);
    assert FlushSpec(c.state).events == [Bytes(csi)];
    OneChunk(Fresh, csi);
  }
}
