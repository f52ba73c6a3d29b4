/** The materialised-mode scrubber `strip_reasoning`: two regular-expression
    substitutions and a final `strip()`, written out as string functions. */
module Reasoning {
  import opened Text

  /** The markers that open and close a reasoning span. */
  const Start := "<think>"
  const End := "</think>"

  /** `s` holds a complete span: a start marker with an end marker after it. */
  ghost predicate HasSpan(s: string)
  {
    exists i, j :: OccursAt(s, Start, i) && i + |Start| <= j && OccursAt(s, End, j)
  }

  /** An end marker never begins inside a start marker: they can only
      overlap if `</think>` started within `<think>`, and it cannot. */
  lemma MarkersDisjoint(s: string, p: int, q: int)
    requires OccursAt(s, Start, p) && OccursAt(s, End, q)
    ensures q < p || p + |Start| <= q
  {
    if p <= q < p + |Start| {
      assert s[p..p + |Start|] == Start;
      if q == p {
        assert s[q + 1] == Start[1];
        MismatchAt(s, End, q, 1);
      } else {
        assert s[q] == Start[q - p];
        MismatchAt(s, End, q, 0);
      }
    }
  }

  /** The first substitution, `<think>[\s\S]*?</think>` replaced by "": the
      leftmost start marker that has an end marker after it is removed
      together with everything through the first such end marker, and the
      scan resumes after it. */
  function RemoveSpans(s: string): (r: string)
    ensures |r| <= |s|
    ensures !HasSpan(s) ==> r == s
    ensures HasSpan(s) ==> |r| < |s|
    decreases |s|
  {
    var p := Find(s, Start, 0);
    if p == -1 then s
    else
      var q := Find(s, End, p + |Start|);
      if q == -1 then
        assert !HasSpan(s) by { NoSpanAfterFirstStart(s, p); }
        s
      else
        assert HasSpan(s) by { assert OccursAt(s, Start, p) && OccursAt(s, End, q); }
        s[..p] + RemoveSpans(s[q + |End|..])
  }

  /** When the first start marker has no end marker after it, no start
      marker does. */
  lemma NoSpanAfterFirstStart(s: string, p: int)
    requires FirstFrom(s, Start, 0, p) && NoneFrom(s, End, p + |Start|)
    ensures !HasSpan(s)
  {
    forall i, j | OccursAt(s, Start, i) && i + |Start| <= j
      ensures !OccursAt(s, End, j)
    {
      assert p <= i;
    }
  }

  /** Where the text after a leading `思考:` marker begins. */
  function AfterThoughtMarker(t: string): nat
  {
    LeadingSpaces(t) + 3
  }

  /** Text after the leading whitespace starts with `思考:` or `思考：`. */
  predicate StartsWithThought(t: string)
  {
    var k := LeadingSpaces(t);
    k + 3 <= |t| && t[k] == '思' && t[k + 1] == '考' && (t[k + 2] == ':' || t[k + 2] == '：')
  }

  /** The second substitution, `^\s*思考[：:][\s\S]*?(\n|$)` replaced by "".
      Without the MULTILINE flag `^` anchors only at the start of the text,
      so at most one line goes: the leading whitespace, the marker and the
      rest of that line through its newline, or to the end of the text. */
  function DropThoughtLine(t: string): (r: string)
    ensures !StartsWithThought(t) ==> r == t
    ensures StartsWithThought(t) && NoneFrom(t, "\n", AfterThoughtMarker(t)) ==> r == ""
    ensures StartsWithThought(t) ==>
              forall n :: FirstFrom(t, "\n", AfterThoughtMarker(t), n) ==> r == t[n + 1..]
    ensures |r| <= |t|
  {
    if StartsWithThought(t) then
      var n := Find(t, "\n", AfterThoughtMarker(t));
      if n == -1 then "" else t[n + 1..]
    else t
  }

  /** `strip_reasoning`: both substitutions, then `strip()`. */
  function StripReasoning(text: string): (r: string)
    ensures r == [] || (!IsSpace(r[0]) && !IsSpace(r[|r| - 1]))
    ensures |r| <= |text|
    ensures !HasSpan(text) && !StartsWithThought(text) ==> r == Strip(text)
  {
    Strip(DropThoughtLine(RemoveSpans(text)))
  }
}

/** Properties of `strip_reasoning` on particular shapes of text. */
module ReasoningFacts {
  import opened Text
  import opened Reasoning

  /** Text with no `<` holds no marker and is not touched by the first
      substitution. */
  lemma {:induction false} NoMarkerKept(s: string)
    requires '<' !in s
    ensures RemoveSpans(s) == s
  {
    NoFirstCharNoneFrom(s, Start, 0);
  }

  /** One step of the first substitution, with the positions the two
      `find`s return named. */
  lemma {:induction false} RemoveSpansAt(s: string, p: nat, q: nat, rest: string)
    requires p == Find(s, Start, 0)
    requires q == Find(s, End, p + |Start|)
    requires rest == s[q + |End|..]
    ensures RemoveSpans(s) == s[..p] + RemoveSpans(rest)
  {
  }

  /** The leftmost start marker that has an end marker after it goes with
      everything through the first such end marker: the text before it is
      kept, and removal resumes after the end marker. */
  lemma {:induction false} SpanRemoved(s: string, p: int, q: int)
    requires FirstFrom(s, Start, 0, p) && FirstFrom(s, End, p + |Start|, q)
    ensures RemoveSpans(s) == s[..p] + RemoveSpans(s[q + |End|..])
  {
    FindIsFirst(s, Start, 0, p);
    FindIsFirst(s, End, p + |Start|, q);
    RemoveSpansAt(s, p, q, s[q + |End|..]);
  }

  /** `before<think>inner</think>after` with no `<` in `before` or `inner`
      loses the span and keeps `before`. */
  lemma {:induction false} SpanBetweenRemoved(before: string, inner: string, after: string)
    requires '<' !in before && '<' !in inner
    ensures RemoveSpans(before + Start + inner + End + after) == before + RemoveSpans(after)
  {
    var s := before + Start + inner + End + after;
    var p, q := |before|, |before| + |Start| + |inner|;
    FirstMarkerAfter(before, Start, inner + End + after);
    assert before + Start + (inner + End + after) == s;
    FirstMarkerAfter(inner, End, after);
    FirstFromShift(before + Start, inner + End + after, End, |inner|);
    SpanRemoved(s, p, q);
    assert s[..p] == before;
    assert s[q + |End|..] == after;
  }

  /** The text before the first start marker is never touched: the result
      starts with it. */
  lemma {:induction false} PrefixBeforeStartKept(s: string, p: int)
    requires FirstFrom(s, Start, 0, p)
    ensures StartsWith(RemoveSpans(s), s[..p])
  {
    if NoneFrom(s, End, p + |Start|) {
      NoSpanAfterFirstStart(s, p);
    } else {
      var i :| p + |Start| <= i && OccursAt(s, End, i);
      FirstFromExists(s, End, p + |Start|, i);
      var q :| FirstFrom(s, End, p + |Start|, q);
      PrefixKeptBeforeSpan(s, p, q);
    }
  }

  /** When the first span is removed, the text before it is kept in front. */
  lemma {:induction false} PrefixKeptBeforeSpan(s: string, p: int, q: int)
    requires FirstFrom(s, Start, 0, p) && FirstFrom(s, End, p + |Start|, q)
    ensures StartsWith(RemoveSpans(s), s[..p])
  {
    SpanRemoved(s, p, q);
    assert (s[..p] + RemoveSpans(s[q + |End|..]))[..p] == s[..p];
  }

  /** An end marker that begins before a start marker also ends before it:
      no character of `/think>` is a `<`. */
  lemma {:induction false} EndBeforeStart(s: string, q: int, p: int)
    requires OccursAt(s, End, q) && OccursAt(s, Start, p) && q < p
    ensures q + |End| <= p
  {
    assert s[p] == '<' by { assert s[p..p + |Start|][0] == s[p]; }
    assert forall k :: q < k < q + |End| ==> s[k] != '<' by {
      forall k | q < k < q + |End|
        ensures s[k] != '<'
      {
        assert s[q..q + |End|][k - q] == s[k];
      }
    }
  }

  /** A start marker with no end marker anywhere after it survives, with
      all the text that follows it: the result ends with that text. */
  lemma {:induction false} UnterminatedTailKept(s: string, p: int)
    requires OccursAt(s, Start, p) && NoneFrom(s, End, p)
    ensures EndsWith(RemoveSpans(s), s[p..])
    decreases |s|
  {
    FirstFromExists(s, Start, 0, p);
    var p0 :| FirstFrom(s, Start, 0, p0);
    if NoneFrom(s, End, p0 + |Start|) {
      UnterminatedFirstKept(s, p, p0);
    } else {
      var i :| p0 + |Start| <= i && OccursAt(s, End, i);
      FirstFromExists(s, End, p0 + |Start|, i);
      var q0 :| FirstFrom(s, End, p0 + |Start|, q0);
      UnterminatedPastSpan(s, p, p0, q0);
    }
  }

  /** The inductive step: when the first span ends before the unterminated
      start marker, removal resumes after the span with the marker still
      unterminated. */
  lemma {:induction false} UnterminatedPastSpan(s: string, p: int, p0: int, q0: int)
    requires OccursAt(s, Start, p) && NoneFrom(s, End, p)
    requires FirstFrom(s, Start, 0, p0) && FirstFrom(s, End, p0 + |Start|, q0)
    ensures EndsWith(RemoveSpans(s), s[p..])
    decreases |s|, 0
  {
    var k := q0 + |End|;
    UnterminatedAfterSpan(s, p, p0, q0);
    UnterminatedTailKept(s[k..], p - k);
    SuffixKeptAfterSpan(s, p0, q0, s[p..]);
  }

  /** When the first start marker is itself unterminated, nothing is
      removed. */
  lemma {:induction false} UnterminatedFirstKept(s: string, p: int, p0: int)
    requires FirstFrom(s, Start, 0, p0) && NoneFrom(s, End, p0 + |Start|)
    requires 0 <= p <= |s|
    ensures EndsWith(RemoveSpans(s), s[p..])
  {
    NoSpanAfterFirstStart(s, p0);
    EndsWithSuffix(s, p);
  }

  /** Whatever the text after the first span ends with, the result of the
      whole substitution ends with too. */
  lemma {:induction false} SuffixKeptAfterSpan(s: string, p: int, q: int, x: string)
    requires FirstFrom(s, Start, 0, p) && FirstFrom(s, End, p + |Start|, q)
    requires EndsWith(RemoveSpans(s[q + |End|..]), x)
    ensures EndsWith(RemoveSpans(s), x)
  {
    SpanRemoved(s, p, q);
    EndsWithAppend(s[..p], RemoveSpans(s[q + |End|..]), x);
  }

  /** After `strip_reasoning`, an unterminated start marker and all the
      text after it are still there, provided the first substitution leaves
      no leading `思考` line to swallow them and the text does not end in
      whitespace. */
  lemma {:induction false} StripKeepsUnterminatedTail(text: string, p: int)
    requires OccursAt(text, Start, p) && NoneFrom(text, End, p)
    requires !StartsWithThought(RemoveSpans(text)) && !IsSpace(text[|text| - 1])
    ensures EndsWith(StripReasoning(text), text[p..])
  {
    UnterminatedTailKept(text, p);
    MarkedTailSurvives(text, p);
  }

  /** A suffix from a start marker that the first substitution kept is kept
      by the rest of `strip_reasoning` too. */
  lemma {:induction false} MarkedTailSurvives(text: string, p: int)
    requires OccursAt(text, Start, p) && EndsWith(RemoveSpans(text), text[p..])
    requires !StartsWithThought(RemoveSpans(text)) && !IsSpace(text[|text| - 1])
    ensures EndsWith(StripReasoning(text), text[p..])
  {
    MarkedTailEnds(text, p);
    LaterStepsKeepTail(RemoveSpans(text), text[p..]);
  }

  /** The second substitution and `strip()` keep a suffix that is not
      whitespace at either end, when there is no leading `思考` line. */
  lemma {:induction false} LaterStepsKeepTail(r: string, tail: string)
    requires !StartsWithThought(r) && EndsWith(r, tail) && tail != []
    requires !IsSpace(tail[0]) && !IsSpace(tail[|tail| - 1])
    ensures EndsWith(Strip(DropThoughtLine(r)), tail)
  {
    StripKeepsTail(r, tail);
  }

  /** The text from a start marker on begins with `<` and ends where the
      whole text ends. */
  lemma {:induction false} MarkedTailEnds(text: string, p: int)
    requires OccursAt(text, Start, p)
    ensures text[p..] != [] && text[p..][0] == '<'
    ensures text[p..][|text[p..]| - 1] == text[|text| - 1]
  {
    assert text[p..][0] == text[p..p + |Start|][0];
  }

  /** A start marker with no end marker after it lies beyond the first
      span, and is still unterminated in the text after that span. */
  lemma {:induction false} UnterminatedAfterSpan(s: string, p: int, p0: int, q0: int)
    requires OccursAt(s, Start, p) && NoneFrom(s, End, p)
    requires FirstFrom(s, End, p0 + |Start|, q0)
    ensures q0 + |End| <= p
    ensures OccursAt(s[q0 + |End|..], Start, p - (q0 + |End|))
    ensures NoneFrom(s[q0 + |End|..], End, p - (q0 + |End|))
    ensures s[q0 + |End|..][p - (q0 + |End|)..] == s[p..]
  {
    assert q0 < p;
    EndBeforeStart(s, q0, p);
    var k := q0 + |End|;
    OccursAtDrop(s, Start, k, p);
    NoneFromDrop(s, End, k, p - k);
  }

  /** In `a + m + b` with no `<` in `a`, the first marker `m` (which starts
      with `<`) is the one right after `a`. */
  lemma {:induction false} FirstMarkerAfter(a: string, m: string, b: string)
    requires '<' !in a && m != [] && m[0] == '<'
    ensures FirstFrom(a + m + b, m, 0, |a|)
  {
    var s := a + m + b;
    OccursAfterPrefix(a, m, b);
    forall i | 0 <= i < |a|
      ensures !OccursAt(s, m, i)
    {
      assert s[i] == a[i];
      MismatchAt(s, m, i, 0);
    }
  }

  /** A first occurrence in `t` is a first occurrence in `h + t`, counted
      from `|h|`. */
  lemma {:induction false} FirstFromShift(h: string, t: string, pat: string, p: int)
    requires FirstFrom(t, pat, 0, p)
    ensures FirstFrom(h + t, pat, |h|, |h| + p)
  {
    var s := h + t;
    assert s[|h| + p..|h| + p + |pat|] == t[p..p + |pat|];
    forall i | |h| <= i < |h| + p
      ensures !OccursAt(s, pat, i)
    {
      assert !OccursAt(t, pat, i - |h|);
      if i + |pat| <= |s| {
        assert s[i..i + |pat|] == t[i - |h|..i - |h| + |pat|];
      }
    }
  }

  /** A span between two pieces of visible text is cut out and the pieces
      are joined, as in `before<think>secret</think>after` giving
      `beforeafter`. */
  lemma {:induction false} StripSpanBetween(before: string, secret: string, after: string)
    requires '<' !in before && '<' !in secret && '<' !in after
    requires before != [] && !IsSpace(before[0]) && before[0] != '思'
    requires after != [] && !IsSpace(after[|after| - 1])
    ensures StripReasoning(before + Start + secret + End + after) == before + after
  {
    SpanBetweenRemoved(before, secret, after);
    NoMarkerKept(after);
    var t := before + after;
    assert t[0] == before[0] && t[|t| - 1] == after[|after| - 1];
    assert LeadingSpaces(t) == 0;
    StripTrimmed(t);
  }

  /** A first line `思考: ...` (after any whitespace) goes through its
      newline, as in `思考: internal notes\nVisible line` giving
      `Visible line`; what follows is only stripped. */
  lemma {:induction false} StripLeadingThought(lead: string, colon: char, notes: string, rest: string)
    requires AllSpace(lead) && (colon == ':' || colon == '：') && '\n' !in notes
    requires '<' !in lead + "思考" + [colon] + notes + "\n" + rest
    ensures StripReasoning(lead + "思考" + [colon] + notes + "\n" + rest) == Strip(rest)
  {
    var t := lead + "思考" + [colon] + notes + "\n" + rest;
    NoMarkerKept(t);
    ThoughtLineDropped(lead, colon, notes, rest);
  }

  /** The line dropped by the second substitution ends at the first newline
      after the marker. */
  lemma {:induction false} ThoughtLineDropped(lead: string, colon: char, notes: string, rest: string)
    requires AllSpace(lead) && (colon == ':' || colon == '：') && '\n' !in notes
    ensures DropThoughtLine(lead + "思考" + [colon] + notes + "\n" + rest) == rest
  {
    var line := lead + "思考" + [colon] + notes;
    var t := line + "\n" + rest;
    assert t == lead + "思考" + [colon] + notes + "\n" + rest;
    ThoughtMarkerAfter(lead, colon, notes + "\n" + rest);
    assert lead + "思考" + [colon] + (notes + "\n" + rest) == t;
    assert FirstFrom(t, "\n", |lead| + 3, |line|) by {
      OccursAfterPrefix(line, "\n", rest);
      forall i | |lead| + 3 <= i < |line|
        ensures !OccursAt(t, "\n", i)
      {
        assert t[i] == notes[i - |lead| - 3];
        MismatchAt(t, "\n", i, 0);
      }
    }
    assert t[|line| + 1..] == rest;
  }

  /** Whitespace, then `思考` and a colon, is a thought marker whose text
      starts right after the colon. */
  lemma {:induction false} ThoughtMarkerAfter(lead: string, colon: char, more: string)
    requires AllSpace(lead) && (colon == ':' || colon == '：')
    ensures StartsWithThought(lead + "思考" + [colon] + more)
    ensures AfterThoughtMarker(lead + "思考" + [colon] + more) == |lead| + 3
  {
    var t := lead + "思考" + [colon] + more;
    assert t[..|lead|] == lead && t[|lead|] == '思';
    LeadingSpacesOf(t, |lead|);
    assert t[|lead| + 1] == '考' && t[|lead| + 2] == colon;
  }

  /** `LeadingSpaces` counts exactly the whitespace before the first
      character that is not whitespace. */
  lemma {:induction false} LeadingSpacesOf(t: string, k: nat)
    requires k < |t| && AllSpace(t[..k]) && !IsSpace(t[k])
    ensures LeadingSpaces(t) == k
  {
    if k > 0 {
      assert t[0] == t[..k][0];
      assert t[1..][..k - 1] == t[1..k];
      LeadingSpacesOf(t[1..], k - 1);
    }
  }

  /** A `思考:` marker after the first line is left alone. */
  lemma {:induction false} ThoughtOnlyAtStart(first: string, rest: string)
    requires '<' !in first + "\n思考:" + rest
    requires first != [] && !IsSpace(first[0]) && first[0] != '思'
    requires rest != [] && !IsSpace(rest[|rest| - 1])
    ensures StripReasoning(first + "\n思考:" + rest) == first + "\n思考:" + rest
  {
    var t := first + "\n思考:" + rest;
    NoMarkerKept(t);
    assert t[0] == first[0] && t[|t| - 1] == rest[|rest| - 1];
    assert LeadingSpaces(t) == 0;
    StripTrimmed(t);
  }

  /** A span right after a lone `<` is removed, leaving the `<`. */
  lemma {:induction false} SpanAfterAngle(after: string)
    ensures RemoveSpans("<" + Start + End + after) == "<" + RemoveSpans(after)
  {
    var s := "<" + Start + End + after;
    assert FirstFrom(s, Start, 0, 1) by {
      assert s == "<" + Start + (End + after);
      OccursAfterPrefix("<", Start, End + after);
      MismatchAt(s, Start, 0, 1);
    }
    assert FirstFrom(s, End, 1 + |Start|, 1 + |Start|) by {
      assert s == "<" + Start + End + after;
      OccursAfterPrefix("<" + Start, End, after);
    }
    assert s[..1] == "<";
    assert s[1 + |Start| + |End|..] == after;
  }

  /** `think></think>` holds no start marker. */
  lemma {:induction false} HalfMarkerHasNoStart(tail: string)
    requires tail == "think>" + End
    ensures NoneFrom(tail, Start, 0)
  {
    forall i | 0 <= i
      ensures !OccursAt(tail, Start, i)
    {
      if i == 6 {
        MismatchAt(tail, Start, i, 1);
      } else if i < |tail| {
        MismatchAt(tail, Start, i, 0);
      }
    }
  }

  /** Removing a span can join the text around it into a new span, so the
      first substitution is not idempotent: `<<think></think>think></think>`
      becomes `<think></think>`, which still holds a span. */
  lemma {:induction false} RemovalNotIdempotent(s: string, tail: string)
    requires tail == "think>" + End
    requires s == "<" + Start + End + tail
    ensures RemoveSpans(s) == "<" + tail
    ensures HasSpan("<" + tail)
  {
    SpanAfterAngle(tail);
    HalfMarkerHasNoStart(tail);
    assert RemoveSpans(tail) == tail;
    HalfMarkerCompletesSpan(tail);
  }

  /** `<` followed by `think></think>` is a complete span. */
  lemma {:induction false} HalfMarkerCompletesSpan(tail: string)
    requires tail == "think>" + End
    ensures HasSpan("<" + tail)
  {
    var r := "<" + tail;
    assert r == Start + End;
    assert OccursAt(r, Start, 0) && OccursAt(r, End, |Start|);
  }
}
