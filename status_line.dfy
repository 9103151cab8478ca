/** The overlay's status line: the text helpers (`sanitize_status`,
    `truncate_status`), the bytes written to draw and erase the status row
    (`write_status_line`, `clear_status_line`), and the duplicate-suppressing
    `set_status`. The drawing sequence saves the cursor (ESC 7), moves to column 1
    of the bottom row with CUP (section 8.3.21 of ECMA-48), erases the row with
    EL mode 2 (section 8.3.41 of ECMA-48), writes the text and restores the
    cursor (ESC 8). */
module StatusLine {
  import opened Wrappers
  import opened Text

  /** Rust's `u16`, the type of the terminal's row and column counts. */
  newtype u16 = x: int | 0 <= x < 0x1_0000

  /** A character that may appear on the status line: printable ASCII or space. */
  predicate IsStatusChar(c: char) {
    IsGraphicChar(c) || c == ' '
  }

  /** `sanitize_status`: every other character becomes a space. */
  function SanitizeStatus(text: string): (r: string)
    ensures |r| == |text|
    ensures forall i :: 0 <= i < |r| ==> IsStatusChar(r[i])
    ensures forall i :: 0 <= i < |text| && IsStatusChar(text[i]) ==> r[i] == text[i]
    ensures forall i :: 0 <= i < |text| && !IsStatusChar(text[i]) ==> r[i] == ' '
  {
    seq(|text|, i requires 0 <= i < |text| => if IsStatusChar(text[i]) then text[i] else ' ')
  }

  /** Sanitizing twice is sanitizing once. */
  lemma SanitizeIdempotent(text: string)
    ensures SanitizeStatus(SanitizeStatus(text)) == SanitizeStatus(text)
  {
  }

  /** `truncate_status`: the first `max` characters (none when `max` is 0). */
  function TruncateStatus(text: string, max: nat): (r: string)
    ensures |r| == if |text| <= max then |text| else max
    ensures StartsWith(text, r)
  {
    if max == 0 then "" else if |text| <= max then text else text[..max]
  }

  /** What `write_status_line` puts on the row for a terminal `cols` wide. */
  function StatusText(text: string, cols: nat): (r: string)
    ensures |r| <= cols && |r| <= |text|
    ensures forall i :: 0 <= i < |r| ==> IsStatusChar(r[i]) && r[i] as int < 0x7f
  {
    TruncateStatus(SanitizeStatus(text), cols)
  }

  const SAVE_CURSOR: seq<byte> := [ESC, 0x37]
  const RESTORE_CURSOR: seq<byte> := [ESC, 0x38]
  /** EL with parameter 2: erase the whole line. */
  const ERASE_LINE: seq<byte> := [ESC, 0x5b, 0x32, 0x4b]
  const CSI_INTRO: seq<byte> := [ESC, 0x5b]
  /** `;1H`: the column parameter and the CUP final byte. */
  const CUP_TAIL: seq<byte> := [0x3b, 0x31, 0x48]

  /** CUP to column 1 of `row`. */
  function CursorToRow(row: nat): seq<byte> {
    CSI_INTRO + Decimal(row) + CUP_TAIL
  }

  /** Save the cursor, go to `row`, erase it, write `payload`, restore the cursor. */
  function StatusFrame(row: nat, payload: seq<byte>): seq<byte> {
    SAVE_CURSOR + CursorToRow(row) + ERASE_LINE + payload + RESTORE_CURSOR
  }

  /** `write_status_line`: nothing on a terminal with no rows or columns. */
  function WriteStatusLine(text: string, rows: u16, cols: u16): seq<byte> {
    if rows == 0 || cols == 0 then []
    else StatusFrame(rows as nat, AsciiBytes(StatusText(text, cols as nat)))
  }

  /** `clear_status_line`. */
  function ClearStatusLine(rows: u16, cols: u16): seq<byte> {
    if rows == 0 || cols == 0 then [] else StatusFrame(rows as nat, [])
  }

  // ---------------------------------------------------------------------------
  // Reading a frame back.

  datatype StatusDraw = StatusDraw(row: nat, payload: seq<byte>)

  /** The number of leading ASCII digits of `s`. */
  function DigitRun(s: seq<byte>): (n: nat)
    ensures n <= |s|
    ensures forall i :: 0 <= i < n ==> IsAsciiDigit(s[i])
    ensures n < |s| ==> !IsAsciiDigit(s[n])
  {
    if s == [] || !IsAsciiDigit(s[0]) then 0 else 1 + DigitRun(s[1..])
  }

  const FRAME_HEAD: seq<byte> := SAVE_CURSOR + CSI_INTRO
  const FRAME_MIDDLE: seq<byte> := CUP_TAIL + ERASE_LINE

  /** Reads a status frame: the row it addresses and the bytes written on it. */
  function ParseStatusFrame(out: seq<byte>): Option<StatusDraw> {
    if !StartsWith(out, FRAME_HEAD) then None else ParseRow(out[|FRAME_HEAD|..])
  }

  function ParseRow(rest: seq<byte>): Option<StatusDraw> {
    var n := DigitRun(rest);
    if n == 0 then None else ParsePayload(ParseDecimal(rest[..n]), rest[n..])
  }

  function ParsePayload(row: nat, after: seq<byte>): Option<StatusDraw> {
    if !StartsWith(after, FRAME_MIDDLE) then None
    else
      var body := after[|FRAME_MIDDLE|..];
      if |body| < 2 || body[|body| - 2..] != RESTORE_CURSOR then None
      else Some(StatusDraw(row, body[..|body| - 2]))
  }

  /** The digits of a number followed by a non-digit are read back as that number. */
  lemma DigitRunOfDecimal(n: nat, tail: seq<byte>)
    requires tail != [] && !IsAsciiDigit(tail[0])
    ensures DigitRun(Decimal(n) + tail) == |Decimal(n)|
    ensures (Decimal(n) + tail)[..|Decimal(n)|] == Decimal(n)
  {
    var d := Decimal(n);
    DigitRunPrefix(d, tail);
    assert (d + tail)[..|d|] == d;
  }

  lemma {:induction false} DigitRunPrefix(d: seq<byte>, tail: seq<byte>)
    requires forall i :: 0 <= i < |d| ==> IsAsciiDigit(d[i])
    requires tail != [] && !IsAsciiDigit(tail[0])
    ensures DigitRun(d + tail) == |d|
    decreases |d|
  {
    if d == [] {
      assert d + tail == tail;
    } else {
      assert (d + tail)[1..] == d[1..] + tail;
      DigitRunPrefix(d[1..], tail);
    }
  }

  lemma ParsePayloadOf(row: nat, payload: seq<byte>)
    ensures ParsePayload(row, FRAME_MIDDLE + payload + RESTORE_CURSOR) == Some(StatusDraw(row, payload))
  {
    var after := FRAME_MIDDLE + payload + RESTORE_CURSOR;
    assert after[..|FRAME_MIDDLE|] == FRAME_MIDDLE;
    var body := after[|FRAME_MIDDLE|..];
    assert body == payload + RESTORE_CURSOR;
    assert body[|body| - 2..] == RESTORE_CURSOR;
    assert body[..|body| - 2] == payload;
  }

  lemma ParseRowOf(row: nat, tail: seq<byte>)
    requires tail != [] && !IsAsciiDigit(tail[0])
    ensures ParseRow(Decimal(row) + tail) == ParsePayload(row, tail)
  {
    var d := Decimal(row);
    DigitRunOfDecimal(row, tail);
    assert (d + tail)[|d|..] == tail;
    DecimalRoundTrip(row);
  }

  /** A frame is read back as the row and payload it was built from. */
  lemma StatusFrameRoundTrip(row: nat, payload: seq<byte>)
    ensures ParseStatusFrame(StatusFrame(row, payload)) == Some(StatusDraw(row, payload))
  {
    var tail := FRAME_MIDDLE + payload + RESTORE_CURSOR;
    var rest := Decimal(row) + tail;
    assert StatusFrame(row, payload) == FRAME_HEAD + rest;
    assert (FRAME_HEAD + rest)[..|FRAME_HEAD|] == FRAME_HEAD;
    assert (FRAME_HEAD + rest)[|FRAME_HEAD|..] == rest;
    ParseRowOf(row, tail);
    ParsePayloadOf(row, payload);
  }

  /** Drawing addresses the terminal's last row and writes exactly the sanitized,
      truncated text; a terminal with no rows or columns gets nothing. */
  lemma WriteStatusLineReadsBack(text: string, rows: u16, cols: u16)
    ensures rows == 0 || cols == 0 ==> WriteStatusLine(text, rows, cols) == []
    ensures rows > 0 && cols > 0 ==>
      ParseStatusFrame(WriteStatusLine(text, rows, cols)) ==
        Some(StatusDraw(rows as nat, AsciiBytes(StatusText(text, cols as nat))))
  {
    if rows > 0 && cols > 0 {
      StatusFrameRoundTrip(rows as nat, AsciiBytes(StatusText(text, cols as nat)));
    }
  }

  /** Clearing is drawing an empty status. */
  lemma ClearIsEmptyStatus(rows: u16, cols: u16)
    ensures ClearStatusLine(rows, cols) == WriteStatusLine("", rows, cols)
    ensures rows > 0 && cols > 0 ==> ParseStatusFrame(ClearStatusLine(rows, cols)) == Some(StatusDraw(rows as nat, []))
  {
    if rows > 0 && cols > 0 {
      assert AsciiBytes(StatusText("", cols as nat)) == [];
      StatusFrameRoundTrip(rows as nat, []);
    }
  }

  /** The status text written never contains ESC or any other control byte, so it
      can not be taken for part of the surrounding sequences. */
  lemma StatusPayloadPrintable(text: string, cols: nat)
    ensures forall i :: 0 <= i < |AsciiBytes(StatusText(text, cols))| ==>
      0x20 <= AsciiBytes(StatusText(text, cols))[i] <= 0x7e
  {
  }

  // ---------------------------------------------------------------------------
  // set_status.

  /** The status the overlay shows, when it is to be cleared, and the texts sent
      to the writer thread so far. */
  datatype StatusState = StatusState(current: Option<string>, clearDeadline: Option<nat>, sent: seq<string>)

  /** `set_status` at instant `now`: a repeat of the current text changes nothing;
      any other text is sent, becomes current and sets (or removes) the deadline. */
  function SetStatusSpec(st: StatusState, text: string, clearAfter: Option<nat>, now: nat): StatusState {
    if st.current == Some(text) then st
    else
      var deadline := match clearAfter case Some(d) => Some(now + d) case None => None;
      StatusState(Some(text), deadline, st.sent + [text])
  }

  class StatusBoard {
    var current: Option<string>
    var clearDeadline: Option<nat>
    var sent: seq<string>

    function State(): StatusState
      reads this
    {
      StatusState(current, clearDeadline, sent)
    }

    constructor ()
      ensures State() == StatusState(None, None, [])
    {
      current := None;
      clearDeadline := None;
      sent := [];
    }

    /** `set_status`; `now` stands for `Instant::now()`. */
    method SetStatus(text: string, clearAfter: Option<nat>, now: nat)
      modifies this
      ensures State() == SetStatusSpec(old(State()), text, clearAfter, now)
    {
      if current == Some(text) {
        return;
      }
      sent := sent + [text];
      current := Some(text);
      clearDeadline := match clearAfter case Some(d) => Some(now + d) case None => None;
    }
  }

  /** Setting the same text again, whatever its timeout, sends and changes nothing. */
  lemma SetStatusIdempotent(st: StatusState, text: string, first: Option<nat>, second: Option<nat>, now: nat, later: nat)
    ensures var once := SetStatusSpec(st, text, first, now);
      SetStatusSpec(once, text, second, later) == once
  {
  }

  /** A new text is sent exactly once and becomes the current status; the deadline
      lies `d` after `now` for a timeout `d`, and there is none without one. */
  lemma SetStatusNewText(st: StatusState, text: string, clearAfter: Option<nat>, now: nat)
    requires st.current != Some(text)
    ensures var after := SetStatusSpec(st, text, clearAfter, now);
      && after.current == Some(text)
      && after.sent == st.sent + [text]
      && (clearAfter.None? <==> after.clearDeadline.None?)
      && (clearAfter.Some? ==> after.clearDeadline.value == now + clearAfter.value)
  {
  }

  // ---------------------------------------------------------------------------
  // The helpers' unit tests.

  lemma SanitizeExample()
    ensures SanitizeStatus("ok\tbad\n") == "ok bad "
  {
    var r := SanitizeStatus("ok\tbad\n");
    assert r[2] == ' ' && r[6] == ' ';
  }

  lemma TruncateExamples()
    ensures TruncateStatus("hello", 0) == ""
    ensures TruncateStatus("hello", 2) == "he"
  {
  }

  /** "hi" on a 2-row, 10-column terminal: ESC 7, `ESC [ 2 ; 1 H`, `ESC [ 2 K`, "hi", ESC 8. */
  lemma WriteStatusExample()
    ensures WriteStatusLine("hi", 2, 10) ==
      [ESC, 0x37, ESC, 0x5b, 0x32, 0x3b, 0x31, 0x48, ESC, 0x5b, 0x32, 0x4b, 0x68, 0x69, ESC, 0x38]
    ensures WriteStatusLine("hi", 0, 10) == [] && WriteStatusLine("hi", 2, 0) == []
    ensures ClearStatusLine(2, 10) == [ESC, 0x37, ESC, 0x5b, 0x32, 0x3b, 0x31, 0x48, ESC, 0x5b, 0x32, 0x4b, ESC, 0x38]
    ensures ClearStatusLine(2, 0) == []
  {
    assert StatusText("hi", 10) == "hi";
    assert AsciiBytes("hi") == [0x68, 0x69];
    assert Decimal(2) == [0x32];
  }

  /** A status with a timeout gets a deadline after `now`; one without gets none. */
  lemma SetStatusDeadlineExample(now: nat)
    ensures var first := SetStatusSpec(StatusState(None, None, []), "status", Some(50), now);
      && first.sent == ["status"]
      && first.clearDeadline.Some? && first.clearDeadline.value > now
      && SetStatusSpec(first, "steady", None, now).clearDeadline.None?
  {
  }
}
