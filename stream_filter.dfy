/** The streamed-mode reasoning filter: the loop in `Handler.do_POST` that
    carries one flag, `in_think`, from one backend chunk to the next and
    writes whatever each chunk leaves over. It has no buffer for a marker
    split between chunks, and each chunk gets one start-marker search. */
module StreamFilter {
  import opened Text
  import opened Reasoning

  /** What one chunk produces: the text to write and the new `in_think`. */
  datatype StepResult = StepResult(out: string, inThink: bool)

  /** `out` is made of at most two slices of `chunk`, in order. */
  ghost predicate SlicesOf(chunk: string, out: string)
  {
    exists a, b, c :: 0 <= a <= b <= c <= |chunk| && out == chunk[a..b] + chunk[c..]
  }

  /** Lines 201-207: inside a span, drop everything through the first end
      marker, or the whole chunk when it holds none. */
  function CloseSpan(inThink: bool, chunk: string): (r: StepResult)
    ensures |r.out| <= |chunk| && r.out == chunk[|chunk| - |r.out|..]
    ensures !inThink ==> r == StepResult(chunk, false)
  {
    if !inThink then StepResult(chunk, false)
    else
      var e := Find(chunk, End, 0);
      if e != -1 then StepResult(chunk[e + |End|..], false)
      else StepResult("", true)
  }

  /** Lines 208-216: one search for a start marker; the span it opens is
      removed through the first end marker after it, or, when there is
      none, the rest of the text is withheld and the span stays open. */
  function OpenSpan(r: StepResult): (r': StepResult)
    ensures |r'.out| <= |r.out|
    ensures NoneFrom(r.out, Start, 0) ==> r' == r
  {
    var p := Find(r.out, Start, 0);
    if p == -1 then r
    else
      var q := Find(r.out, End, p);
      if q != -1 then StepResult(r.out[..p] + r.out[q + |End|..], false)
      else StepResult(r.out[..p], true)
  }

  /** One iteration of the loop body: with `hideReasoning` set, a pending
      span is closed at the first end marker, then the remainder is
      searched once for a start marker. */
  function Step(hideReasoning: bool, inThink: bool, chunk: string): (r: StepResult)
    ensures |r.out| <= |chunk|
    ensures !hideReasoning ==> r == StepResult(chunk, inThink)
    ensures hideReasoning && !inThink && NoneFrom(chunk, Start, 0) ==> r == StepResult(chunk, false)
    ensures hideReasoning && inThink && NoneFrom(chunk, End, 0) ==> r == StepResult("", true)
  {
    if !hideReasoning then StepResult(chunk, inThink)
    else
      OpenSpan(CloseSpan(inThink, chunk))
  }

  /** Every step writes at most two slices of its chunk, in their order:
      nothing is added, repeated or reordered. */
  lemma StepWritesSlices(hideReasoning: bool, inThink: bool, chunk: string)
    ensures SlicesOf(chunk, Step(hideReasoning, inThink, chunk).out)
  {
    if !hideReasoning {
      assert chunk == chunk[0..|chunk|] + chunk[|chunk|..];
    } else {
      var mid := CloseSpan(inThink, chunk);
      var c := |chunk| - |mid.out|;
      var a, b := OpenSpanCuts(mid);
      CutOfSuffix(chunk, c, a, b);
      assert Step(hideReasoning, inThink, chunk).out == chunk[c..c + a] + chunk[c + b..];
    }
  }

  /** Cutting a middle slice out of a suffix leaves two slices of the whole. */
  lemma CutOfSuffix(chunk: string, c: int, a: int, b: int)
    requires 0 <= c <= |chunk| && 0 <= a <= b <= |chunk| - c
    ensures chunk[c..][..a] + chunk[c..][b..] == chunk[c..c + a] + chunk[c + b..]
  {
    assert chunk[c..][..a] == chunk[c..c + a];
    assert chunk[c..][b..] == chunk[c + b..];
  }

  /** The start-marker search keeps a prefix and a suffix of its text. */
  lemma OpenSpanCuts(r: StepResult) returns (a: nat, b: nat)
    ensures a <= b <= |r.out| && OpenSpan(r).out == r.out[..a] + r.out[b..]
  {
    a, b := |r.out|, |r.out|;
    var p := Find(r.out, Start, 0);
    if p != -1 {
      var q := Find(r.out, End, p);
      a, b := p, if q != -1 then q + |End| else |r.out|;
    }
  }

  /** Outside a span, a chunk whose first start marker has no end marker
      after it yields the text before that marker and opens a span. */
  lemma StepOpensSpan(chunk: string, p: int)
    requires FirstFrom(chunk, Start, 0, p) && NoneFrom(chunk, End, p)
    ensures Step(true, false, chunk) == StepResult(chunk[..p], true)
  {
  }

  /** Outside a span, a chunk whose first start marker is followed by an end
      marker loses exactly that one span and stays outside. */
  lemma StepRemovesFirstSpan(chunk: string, p: int, q: int)
    requires FirstFrom(chunk, Start, 0, p) && FirstFrom(chunk, End, p, q)
    ensures p + |Start| <= q
    ensures Step(true, false, chunk) == StepResult(chunk[..p] + chunk[q + |End|..], false)
  {
    MarkersDisjoint(chunk, p, q);
  }

  /** Inside a span, everything through the first end marker is dropped and
      the rest of the chunk is treated as if it arrived outside a span. */
  lemma StepClosesSpan(chunk: string, q: int)
    requires FirstFrom(chunk, End, 0, q)
    ensures Step(true, true, chunk) == Step(true, false, chunk[q + |End|..])
  {
  }

  /** Only the first span of a chunk goes: whatever follows it, a second
      span included, is written out. */
  lemma OnlyFirstSpanRemoved(tail: string)
    ensures Step(true, false, Start + End + tail) == StepResult(tail, false)
  {
    var chunk := Start + End + tail;
    assert chunk[..|Start|] == Start;
    assert OccursAt(chunk, Start, 0);
    forall i | 0 <= i < |Start|
      ensures !OccursAt(chunk, End, i)
    {
      if i == 0 {
        MismatchAt(chunk, End, i, 1);
      } else {
        MismatchAt(chunk, End, i, 0);
      }
    }
    OccursAfterPrefix(Start, End, tail);
    assert chunk[|Start| + |End|..] == tail;
  }

  /** The result of the loop over a prefix of the chunks: the pieces written
      so far (only non-empty ones are written) and the final `in_think`. */
  datatype Outcome = Outcome(written: seq<string>, inThink: bool)

  /** The loop over `chunks` from `in_think = False`, one `Step` at a time. */
  function Run(hideReasoning: bool, chunks: seq<string>): (o: Outcome)
    ensures |o.written| <= |chunks|
    ensures forall k :: 0 <= k < |o.written| ==> o.written[k] != ""
    ensures !hideReasoning ==> !o.inThink
  {
    if chunks == [] then Outcome([], false)
    else
      var prev := Run(hideReasoning, chunks[..|chunks| - 1]);
      var r := Step(hideReasoning, prev.inThink, chunks[|chunks| - 1]);
      Outcome(prev.written + (if r.out == "" then [] else [r.out]), r.inThink)
  }

  /** The non-empty strings of `parts`, in order. */
  function NonEmpty(parts: seq<string>): seq<string>
  {
    if parts == [] then []
    else NonEmpty(parts[..|parts| - 1]) + (if parts[|parts| - 1] == "" then [] else [parts[|parts| - 1]])
  }

  /** With `hide_reasoning` false every non-empty chunk is written as it
      came, so the client receives exactly the backend's text. */
  lemma {:induction false} RunPassesThrough(chunks: seq<string>)
    ensures Run(false, chunks) == Outcome(NonEmpty(chunks), false)
    ensures Concat(Run(false, chunks).written) == Concat(chunks)
  {
    if chunks != [] {
      var init, last := chunks[..|chunks| - 1], chunks[|chunks| - 1];
      assert chunks == init + [last];
      RunPassesThrough(init);
      assert chunks[..|chunks| - 1] == init;
      ConcatSnoc(init, last);
      if last != "" {
        ConcatSnoc(NonEmpty(init), last);
      } else {
        assert NonEmpty(chunks) == NonEmpty(init);
        assert Concat(init) + "" == Concat(init);
      }
    }
  }

  /** Once a span is open, chunks without an end marker write nothing and
      leave it open: after an unterminated start marker the client sees
      nothing more, up to the end of the stream if need be. */
  lemma {:induction false} RunSilentInside(hideReasoning: bool, prefix: seq<string>, more: seq<string>)
    requires Run(hideReasoning, prefix).inThink
    requires forall k :: 0 <= k < |more| ==> NoneFrom(more[k], End, 0)
    ensures Run(hideReasoning, prefix + more) == Outcome(Run(hideReasoning, prefix).written, true)
  {
    if !hideReasoning {
      RunPassesThrough(prefix);
    }
    if more == [] {
      assert prefix + more == prefix;
    } else {
      var init := more[..|more| - 1];
      RunSilentInside(hideReasoning, prefix, init);
      assert (prefix + more)[..|prefix + more| - 1] == prefix + init;
    }
  }

  /** The client never receives more text than the backend sent. */
  lemma {:induction false} RunShrinks(hideReasoning: bool, chunks: seq<string>)
    ensures |Concat(Run(hideReasoning, chunks).written)| <= |Concat(chunks)|
  {
    if chunks != [] {
      var init, last := chunks[..|chunks| - 1], chunks[|chunks| - 1];
      assert chunks == init + [last];
      RunShrinks(hideReasoning, init);
      var prev := Run(hideReasoning, init);
      var r := Step(hideReasoning, prev.inThink, last);
      assert chunks[..|chunks| - 1] == init;
      ConcatSnoc(init, last);
      if r.out != "" {
        ConcatSnoc(prev.written, r.out);
      } else {
        assert Run(hideReasoning, chunks).written == prev.written;
      }
    }
  }

  /** A start marker split between two chunks is not recognised: the span
      it opens reaches the client, although the same text in one chunk
      would be cut at the marker. */
  lemma SplitMarkerLeaks()
    ensures Concat(Run(true, ["a<thi", "nk>b"]).written) == "a<think>b"
    ensures Run(true, ["a<think>b"]).written == ["a"]
  {
    SplitHalvesPass("a<thi", "nk>b");
    WholeChunkCut("a<think>b");
  }

  /** Neither half of the split marker is a marker, so both halves pass. */
  lemma SplitHalvesPass(first: string, second: string)
    requires first == "a<thi" && second == "nk>b"
    ensures Concat(Run(true, [first, second]).written) == first + second
  {
    var chunks := [first, second];
    assert chunks[..1] == [first];
    assert [first][..0] == [];
    NoFirstCharNoneFrom(second, Start, 0);
    assert NoneFrom(first, Start, 0) by {
      forall i | 0 <= i
        ensures !OccursAt(first, Start, i)
      {
        if i + |Start| <= |first| {
          assert false;
        }
      }
    }
    assert Run(true, [first]) == Outcome([first], false);
    assert Run(true, chunks).written == [first, second];
    assert Concat([second]) == second;
  }

  /** The same text in one chunk is cut at the marker. */
  lemma WholeChunkCut(chunk: string)
    requires chunk == "a<think>b"
    ensures Run(true, [chunk]).written == ["a"]
  {
    SplitStartOpens();
    assert [chunk][..0] == [];
  }

  /** In one chunk, `a<think>b` writes `a` and leaves the span open. */
  lemma SplitStartOpens()
    ensures Step(true, false, "a<think>b") == StepResult("a", true)
  {
    var chunk := "a<think>b";
    assert chunk == "a" + Start + "b";
    OccursAfterPrefix("a", Start, "b");
    MismatchAt(chunk, Start, 0, 1);
    forall i | 1 <= i
      ensures !OccursAt(chunk, End, i)
    {
      if i == 1 {
        MismatchAt(chunk, End, 1, 1);
      }
    }
    StepOpensSpan(chunk, 1);
  }

  /** Two spans in one chunk: only the first is removed, while the same
      text split after the first span loses both. */
  lemma SecondSpanSurvives(span: string)
    requires span == Start + End
    ensures Run(true, [span + span]).written == [span]
    ensures Run(true, [span, span]).written == []
  {
    TwoSpansOneChunk(span);
    TwoSpansTwoChunks(span);
  }

  /** One chunk holding two spans writes the second. */
  lemma TwoSpansOneChunk(span: string)
    requires span == Start + End
    ensures Run(true, [span + span]).written == [span]
  {
    OnlyFirstSpanRemoved(span);
    assert span + span == Start + End + span;
    assert [span + span][..0] == [];
  }

  /** Two chunks each holding one span write nothing. */
  lemma TwoSpansTwoChunks(span: string)
    requires span == Start + End
    ensures Run(true, [span, span]).written == []
  {
    OnlyFirstSpanRemoved("");
    assert span == Start + End + "";
    assert [span, span][..1] == [span];
    assert [span][..0] == [];
  }

  /** The streamed filter and `strip_reasoning` disagree on an unterminated
      span: streaming withholds everything after the start marker, while
      the materialised scrubber keeps the text intact. */
  lemma StreamAndStripDisagree()
    ensures Concat(Run(true, ["a<think>b"]).written) == "a"
    ensures StripReasoning("a<think>b") == "a<think>b"
  {
    SplitStartOpens();
    assert ["a<think>b"][..0] == [];
    UnterminatedSpanKept();
  }

  /** `strip_reasoning` leaves `a<think>b` as it is. */
  lemma UnterminatedSpanKept()
    ensures StripReasoning("a<think>b") == "a<think>b"
  {
    var t := "a<think>b";
    assert FirstFrom(t, Start, 0, 1) by {
      assert t == "a" + Start + "b";
      OccursAfterPrefix("a", Start, "b");
      MismatchAt(t, Start, 0, 1);
    }
    assert NoneFrom(t, End, 1 + |Start|);
    NoSpanAfterFirstStart(t, 1);
    assert RemoveSpans(t) == t;
    assert !IsSpace(t[0]);
    assert LeadingSpaces(t) == 0;
    assert !StartsWithThought(t);
    assert DropThoughtLine(t) == t;
    StripTrimmed(t);
  }

  /** Lines 193-217 of `do_POST`: the loop itself, writing each non-empty
      result. It returns the written pieces in order and the final flag. */
  method FilterChunks(hideReasoning: bool, chunks: seq<string>) returns (written: seq<string>, inThink: bool)
    ensures Outcome(written, inThink) == Run(hideReasoning, chunks)
  {
    written, inThink := [], false;
    for i := 0 to |chunks|
      invariant Outcome(written, inThink) == Run(hideReasoning, chunks[..i])
    {
      assert chunks[..i + 1][..i] == chunks[..i];
      var out := chunks[i];
      ghost var before := inThink;
      if hideReasoning {
        if inThink {
          var endIdx := Find(out, End, 0);
          if endIdx != -1 {
            out := out[endIdx + |End|..];
            inThink := false;
          } else {
            out := "";
          }
        }
        assert StepResult(out, inThink) == CloseSpan(before, chunks[i]);
        ghost var mid := StepResult(out, inThink);
        var startIdx := Find(out, Start, 0);
        if startIdx != -1 {
          var endIdx := Find(out, End, startIdx);
          if endIdx != -1 {
            out := out[..startIdx] + out[endIdx + |End|..];
            inThink := false;
          } else {
            out := out[..startIdx];
            inThink := true;
          }
        }
        assert StepResult(out, inThink) == OpenSpan(mid);
      }
      if out != "" {
        written := written + [out];
      }
    }
    assert chunks[..|chunks|] == chunks;
  }
}
