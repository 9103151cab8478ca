/** The queue of transcripts that arrived while the wrapped CLI was busy
    (`push_pending_transcript` and `merge_pending_transcripts` in the overlay).
    The queue holds at most five entries and drops the oldest one when full;
    a merge drains the run of entries at the front that share the front's send
    mode, and joins their trimmed, non-blank texts with single spaces. */
module PendingQueue {
  import opened Wrappers
  import opened Text

  /** Whether a transcript is submitted (Enter sent after it) or only typed. */
  datatype SendMode = Auto | Insert

  /** Which pipeline produced a transcript. */
  datatype CaptureSource = Native | Python

  datatype PendingTranscript = PendingTranscript(text: string, source: CaptureSource, mode: SendMode)

  /** The label of a merged batch: the one pipeline all its parts came from, or
      "Mixed pipelines". The words of a pipeline's own label are not modelled. */
  datatype BatchLabel = SourceLabel(source: CaptureSource) | MixedPipelines

  datatype PendingBatch = PendingBatch(text: string, pipeline: BatchLabel, mode: SendMode)

  const MAX_PENDING_TRANSCRIPTS: nat := 5

  // ---------------------------------------------------------------------------
  // Specification of a push.

  /** The queue after pushing `t`: when full, the oldest entry is dropped first. */
  function Pushed(q: seq<PendingTranscript>, t: PendingTranscript): (r: seq<PendingTranscript>)
    ensures |r| == if |q| >= MAX_PENDING_TRANSCRIPTS then |q| else |q| + 1
    ensures r[|r| - 1] == t
  {
    if |q| >= MAX_PENDING_TRANSCRIPTS then q[1..] + [t] else q + [t]
  }

  /** The last `n` elements of `s` (all of them when there are fewer). */
  function LastN<T>(s: seq<T>, n: nat): (r: seq<T>)
    ensures |r| == if |s| <= n then |s| else n
  {
    if |s| <= n then s else s[|s| - n..]
  }

  /** Pushing several transcripts one after another. */
  function PushAll(q: seq<PendingTranscript>, ts: seq<PendingTranscript>): seq<PendingTranscript>
    decreases |ts|
  {
    if ts == [] then q else Pushed(PushAll(q, ts[..|ts| - 1]), ts[|ts| - 1])
  }

  /** A queue that starts within capacity always holds exactly the latest (at
      most five) transcripts, oldest first. */
  lemma {:induction false} PushAllKeepsLatest(q: seq<PendingTranscript>, ts: seq<PendingTranscript>)
    requires |q| <= MAX_PENDING_TRANSCRIPTS
    ensures PushAll(q, ts) == LastN(q + ts, MAX_PENDING_TRANSCRIPTS)
    decreases |ts|
  {
    if ts == [] {
      assert q + ts == q;
    } else {
      var init := ts[..|ts| - 1];
      var last := ts[|ts| - 1];
      PushAllKeepsLatest(q, init);
      var before := LastN(q + init, MAX_PENDING_TRANSCRIPTS);
      assert q + ts == (q + init) + [last];
      var whole := (q + init) + [last];
      if |q + init| < MAX_PENDING_TRANSCRIPTS {
        assert before == q + init;
      } else {
        assert before == (q + init)[|q + init| - MAX_PENDING_TRANSCRIPTS..];
        assert before[1..] + [last] == whole[|whole| - MAX_PENDING_TRANSCRIPTS..];
      }
    }
  }

  /** Pushing never takes a queue that is within capacity over it. */
  lemma PushBounded(q: seq<PendingTranscript>, t: PendingTranscript)
    requires |q| <= MAX_PENDING_TRANSCRIPTS
    ensures |Pushed(q, t)| <= MAX_PENDING_TRANSCRIPTS
    ensures |Pushed(q, t)| == MAX_PENDING_TRANSCRIPTS <==> |q| >= MAX_PENDING_TRANSCRIPTS - 1
  {
  }

  // ---------------------------------------------------------------------------
  // Specification of a merge.

  /** The length of the run at the front of `q` whose mode is `mode`. */
  function SameModeRun(q: seq<PendingTranscript>, mode: SendMode): (n: nat)
    ensures n <= |q|
    ensures forall i :: 0 <= i < n ==> q[i].mode == mode
    ensures n < |q| ==> q[n].mode != mode
  {
    if q == [] || q[0].mode != mode then 0 else 1 + SameModeRun(q[1..], mode)
  }

  /** What a merge collects from the entries it drains: the trimmed text and
      the source of every entry whose text is not blank, in order. */
  datatype Collection = Collection(parts: seq<string>, sources: seq<CaptureSource>)

  function Collected(items: seq<PendingTranscript>): (c: Collection)
    ensures |c.parts| == |c.sources| <= |items|
    decreases |items|
  {
    if items == [] then Collection([], [])
    else
      var c := Collected(items[..|items| - 1]);
      var last := items[|items| - 1];
      if IsBlank(last.text) then c
      else Collection(c.parts + [Trim(last.text)], c.sources + [last.source])
  }

  /** The shared source, or "Mixed pipelines" when the sources differ. */
  function LabelOf(sources: seq<CaptureSource>): (l: BatchLabel)
    requires sources != []
    ensures l.SourceLabel? <==> forall i :: 0 <= i < |sources| ==> sources[i] == sources[0]
    ensures l.SourceLabel? ==> l.source == sources[0]
  {
    if forall i :: 0 <= i < |sources| ==> sources[i] == sources[0] then SourceLabel(sources[0])
    else MixedPipelines
  }

  /** The batch a merge returns, and the queue it leaves behind. */
  datatype MergeOutcome = MergeOutcome(batch: Option<PendingBatch>, rest: seq<PendingTranscript>)

  function MergeSpec(q: seq<PendingTranscript>): MergeOutcome {
    if q == [] then MergeOutcome(None, [])
    else
      var mode := q[0].mode;
      var n := SameModeRun(q, mode);
      var c := Collected(q[..n]);
      if c.parts == [] then MergeOutcome(None, q[n..])
      else MergeOutcome(Some(PendingBatch(Join(c.parts, " "), LabelOf(c.sources), mode)), q[n..])
  }

  // ---------------------------------------------------------------------------
  // The queue object.

  class PendingTranscripts {
    var items: seq<PendingTranscript>

    constructor ()
      ensures items == []
    {
      items := [];
    }

    /** `push_pending_transcript`: the result says whether the oldest entry was dropped. */
    method Push(t: PendingTranscript) returns (dropped: bool)
      modifies this
      ensures items == Pushed(old(items), t)
      ensures dropped <==> |old(items)| >= MAX_PENDING_TRANSCRIPTS
    {
      if |items| >= MAX_PENDING_TRANSCRIPTS {
        items := items[1..];
        items := items + [t];
        return true;
      }
      items := items + [t];
      return false;
    }

    /** `merge_pending_transcripts`. */
    method Merge() returns (batch: Option<PendingBatch>)
      modifies this
      ensures MergeOutcome(batch, items) == MergeSpec(old(items))
    {
      if items == [] {
        return None;
      }
      ghost var q := items;
      var mode := items[0].mode;
      ghost var n := SameModeRun(q, mode);
      var parts: seq<string> := [];
      var sources: seq<CaptureSource> := [];
      ghost var k := 0;
      while items != [] && items[0].mode == mode
        invariant k <= n && items == q[k..]
        invariant Collection(parts, sources) == Collected(q[..k])
        decreases |items|
      {
        if k == n {
          assert false;
        }
        var next := items[0];
        items := items[1..];
        var trimmed := Trim(next.text);
        BlankIffTrimEmpty(next.text);
        assert q[..k + 1][..k] == q[..k];
        if trimmed != [] {
          parts := parts + [trimmed];
          sources := sources + [next.source];
        }
        k := k + 1;
      }
      assert k == n;
      assert MergeSpec(q) == if parts == [] then MergeOutcome(None, q[n..])
        else MergeOutcome(Some(PendingBatch(Join(parts, " "), LabelOf(sources), mode)), q[n..]);
      if parts == [] {
        return None;
      }
      var pipeline := LabelOf(sources);
      return Some(PendingBatch(Join(parts, " "), pipeline, mode));
    }
  }

  // ---------------------------------------------------------------------------
  // Properties of a merge.

  /** A merge drains exactly the same-mode run at the front and leaves every
      later entry untouched and in order. */
  lemma MergeTakesSameModeRun(q: seq<PendingTranscript>)
    requires q != []
    ensures var n := SameModeRun(q, q[0].mode);
      && 1 <= n
      && MergeSpec(q).rest == q[n..]
      && (MergeSpec(q).rest == [] || MergeSpec(q).rest[0].mode != q[0].mode)
  {
  }

  /** Every entry of `items` has a blank text. */
  predicate AllBlank(items: seq<PendingTranscript>) {
    forall i :: 0 <= i < |items| ==> IsBlank(items[i].text)
  }

  /** A merge returns nothing exactly when the queue is empty or every entry of
      the front run is blank; the blank entries are consumed all the same. */
  lemma MergeNoneIff(q: seq<PendingTranscript>)
    ensures MergeSpec(q).batch.None? <==> (q == [] || AllBlank(q[..SameModeRun(q, q[0].mode)]))
  {
    if q != [] {
      CollectedEmptyIff(q[..SameModeRun(q, q[0].mode)]);
    }
  }

  lemma {:induction false} CollectedEmptyIff(items: seq<PendingTranscript>)
    ensures Collected(items).parts == [] <==> AllBlank(items)
    decreases |items|
  {
    if items != [] {
      var init := items[..|items| - 1];
      CollectedEmptyIff(init);
      assert forall i :: 0 <= i < |init| ==> init[i] == items[i];
    }
  }

  predicate AllTrimmedNonEmpty(parts: seq<string>) {
    forall k :: 0 <= k < |parts| ==> IsTrimmedNonEmpty(parts[k])
  }

  lemma AppendTrimmed(parts: seq<string>, part: string)
    requires AllTrimmedNonEmpty(parts) && IsTrimmedNonEmpty(part)
    ensures AllTrimmedNonEmpty(parts + [part])
  {
    var all := parts + [part];
    forall k | 0 <= k < |all| ensures IsTrimmedNonEmpty(all[k]) {
      if k < |parts| {
        assert all[k] == parts[k];
      }
    }
  }

  /** Every collected part is a trimmed, non-empty string. */
  lemma {:induction false} CollectedPartsTrimmed(items: seq<PendingTranscript>)
    ensures AllTrimmedNonEmpty(Collected(items).parts)
    decreases |items|
  {
    if items != [] {
      var init := items[..|items| - 1];
      var last := items[|items| - 1];
      CollectedPartsTrimmed(init);
      if !IsBlank(last.text) {
        TrimNonBlank(last.text);
        AppendTrimmed(Collected(init).parts, Trim(last.text));
      }
    }
  }

  /** The merged text starts and ends with a non-whitespace character, so it is
      its own trim, and the batch carries the front entry's mode. */
  lemma MergedTextIsTrimmed(q: seq<PendingTranscript>)
    ensures MergeSpec(q).batch.Some? ==>
      && IsTrimmedNonEmpty(MergeSpec(q).batch.value.text)
      && Trim(MergeSpec(q).batch.value.text) == MergeSpec(q).batch.value.text
      && MergeSpec(q).batch.value.mode == q[0].mode
  {
    if q != [] {
      var c := Collected(q[..SameModeRun(q, q[0].mode)]);
      CollectedPartsTrimmed(q[..SameModeRun(q, q[0].mode)]);
      JoinOfTrimmedIsTrimmed(c.parts, " ");
    }
  }

  /** The trim of a non-blank string starts and ends with non-whitespace. */
  lemma TrimNonBlank(s: string)
    requires !IsBlank(s)
    ensures IsTrimmedNonEmpty(Trim(s))
  {
    BlankIffTrimEmpty(s);
    var e := TrimEnd(s);
    var t := Trim(s);
    assert t == e[|e| - |t|..];
    assert t[|t| - 1] == e[|e| - 1];
  }

  /** The label names the one pipeline when every merged part came from it. */
  lemma MergeLabel(q: seq<PendingTranscript>)
    ensures MergeSpec(q).batch.Some? ==>
      var c := Collected(q[..SameModeRun(q, q[0].mode)]);
      MergeSpec(q).batch.value.pipeline ==
        if forall i :: 0 <= i < |c.sources| ==> c.sources[i] == c.sources[0]
        then SourceLabel(c.sources[0]) else MixedPipelines
  {
  }

  /** Entries whose mode differs from the front's are never merged into the batch:
      a queue Auto, Insert, Auto yields a batch of the first entry alone. */
  lemma MergeStopsAtModeChange(a: PendingTranscript, b: PendingTranscript, c: PendingTranscript)
    requires a.mode != b.mode && !IsBlank(a.text)
    ensures MergeSpec([a, b, c]) ==
      MergeOutcome(Some(PendingBatch(Trim(a.text), SourceLabel(a.source), a.mode)), [b, c])
  {
    var q := [a, b, c];
    FrontRunOfOne(q);
    assert q[..1] == [a] && q[1..] == [b, c];
    CollectedOne(a);
    LabelOfOne(a.source);
    MergeOfCollected(q);
  }

  lemma MergeOfCollected(q: seq<PendingTranscript>)
    requires q != []
    ensures var n := SameModeRun(q, q[0].mode);
      var c := Collected(q[..n]);
      c.parts != [] ==>
        MergeSpec(q) == MergeOutcome(Some(PendingBatch(Join(c.parts, " "), LabelOf(c.sources), q[0].mode)), q[n..])
  {
  }

  lemma LabelOfOne(source: CaptureSource)
    ensures LabelOf([source]) == SourceLabel(source)
  {
  }

  lemma FrontRunOfOne(q: seq<PendingTranscript>)
    requires |q| >= 2 && q[1].mode != q[0].mode
    ensures SameModeRun(q, q[0].mode) == 1
  {
    assert q[1..][0] == q[1];
  }

  lemma CollectedOne(a: PendingTranscript)
    requires !IsBlank(a.text)
    ensures Collected([a]) == Collection([Trim(a.text)], [a.source])
  {
    assert [a][..0] == [];
  }

  // ---------------------------------------------------------------------------
  // The queue's unit tests.

  /** Five pushes fill the queue without dropping; a sixth drops the oldest, so
      the queue then runs from the second entry to the newest. */
  lemma SixthPushDropsOldest(t0: PendingTranscript, t1: PendingTranscript, t2: PendingTranscript,
                             t3: PendingTranscript, t4: PendingTranscript, last: PendingTranscript)
    ensures var full := PushAll([], [t0, t1, t2, t3, t4]);
      && full == [t0, t1, t2, t3, t4]
      && |full| >= MAX_PENDING_TRANSCRIPTS
      && Pushed(full, last) == [t1, t2, t3, t4, last]
  {
    PushAllKeepsLatest([], [t0, t1, t2, t3, t4]);
    assert [] + [t0, t1, t2, t3, t4] == [t0, t1, t2, t3, t4];
  }

  /** A trimmed non-empty text is not blank and is its own trim. */
  lemma TrimmedWord(s: string)
    requires IsTrimmedNonEmpty(s)
    ensures !IsBlank(s) && Trim(s) == s
  {
    TrimOfTrimmed(s);
  }

  /** Two trimmed entries of one mode and one pipeline merge into their texts
      joined by a space, and the queue is left empty. */
  lemma MergeTwoTrimmed(a: PendingTranscript, b: PendingTranscript)
    requires a.mode == b.mode && a.source == b.source
    requires IsTrimmedNonEmpty(a.text) && IsTrimmedNonEmpty(b.text)
    ensures MergeSpec([a, b]) == MergeOutcome(Some(PendingBatch(a.text + " " + b.text, SourceLabel(a.source), a.mode)), [])
  {
    TrimmedWord(a.text);
    TrimmedWord(b.text);
    var q := [a, b];
    assert SameModeRun(q, a.mode) == 2 by {
      assert q[1..] == [b];
      assert q[1..][1..] == [];
    }
    assert q[..2] == q && q[2..] == [];
    assert Collected([a]) == Collection([a.text], [a.source]) by {
      assert [a][..0] == [];
    }
    assert Collected(q) == Collection([a.text, b.text], [a.source, b.source]) by {
      assert q[..1] == [a];
    }
    assert Join([a.text, b.text], " ") == a.text + " " + b.text by {
      assert [a.text, b.text][1..] == [b.text];
    }
  }

  /** "hello" and "world" from one pipeline in one mode merge into "hello world"
      and leave the queue empty. */
  lemma HelloWorldMerge(source: CaptureSource, mode: SendMode)
    ensures MergeSpec([PendingTranscript("hello", source, mode), PendingTranscript("world", source, mode)]) ==
      MergeOutcome(Some(PendingBatch("hello world", SourceLabel(source), mode)), [])
  {
    assert "hello" + " " + "world" == "hello world";
    assert IsTrimmedNonEmpty("hello") && IsTrimmedNonEmpty("world");
    MergeTwoTrimmed(PendingTranscript("hello", source, mode), PendingTranscript("world", source, mode));
  }
}
