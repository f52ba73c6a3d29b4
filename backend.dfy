/** The two readers of the backend's newline-delimited JSON reply:
    `ollama_chat`, which reads the whole body and joins the contents, and
    the generator `ollama_stream`, which yields them one line at a time.
    Decoding is not modelled; each line arrives already classified. */
module Backend {
  import opened Wrappers
  import opened Text

  /** One line of the reply. `Malformed` is a line that is empty or that
      `json.loads` rejects, with the decoder's error text; a `Record` holds
      the object's `message.content`, its top-level `content` and whether
      its `done` field is truthy. A line that decodes to something other
      than an object, or whose truthy `message` is not an object, makes
      `.get` raise and ends the call; it has no constructor here, and the
      callers see it as the end of `lines` together with the call's
      failure. */
  datatype Line =
    | Malformed(reason: string)
    | Record(msgContent: Option<string>, topContent: Option<string>, done: bool)

  /** A field is truthy in Python exactly when present and non-empty. */
  predicate Truthy(field: Option<string>)
    ensures Truthy(field) <==> field != None && field != Some("")
  {
    field.Some? && field.value != ""
  }

  /** `msg.get("content") or obj.get("content") or ""`: the message content
      when it is non-empty, else the top-level content when that is, else
      the empty string. */
  function Content(msgContent: Option<string>, topContent: Option<string>): (c: string)
    ensures Truthy(msgContent) ==> c == msgContent.value
    ensures !Truthy(msgContent) && Truthy(topContent) ==> c == topContent.value
    ensures c == "" <==> !Truthy(msgContent) && !Truthy(topContent)
  {
    if Truthy(msgContent) then msgContent.value
    else if Truthy(topContent) then topContent.value
    else ""
  }

  /** A `done` line occurs among `lines`. */
  predicate HasDone(lines: seq<Line>)
  {
    exists k :: 0 <= k < |lines| && lines[k].Record? && lines[k].done
  }

  /** The contents taken from `lines`, in order: malformed lines and empty
      contents are skipped, and nothing after the first `done` line is
      read, though that line's own content is kept. */
  function Pieces(lines: seq<Line>): (ps: seq<string>)
    ensures forall k :: 0 <= k < |ps| ==> ps[k] != ""
  {
    if lines == [] then []
    else
      match lines[0]
      case Malformed(_) => Pieces(lines[1..])
      case Record(m, t, done) =>
        var c := Content(m, t);
        (if c == "" then [] else [c]) + (if done then [] else Pieces(lines[1..]))
  }

  /** Lines that come after a `done` line are never read. */
  lemma {:induction false} PiecesIgnoreAfterDone(lines: seq<Line>, more: seq<Line>)
    requires HasDone(lines)
    ensures Pieces(lines + more) == Pieces(lines)
  {
    assert (lines + more)[0] == lines[0];
    assert (lines + more)[1..] == lines[1..] + more;
    if !(lines[0].Record? && lines[0].done) {
      var k :| 0 <= k < |lines| && lines[k].Record? && lines[k].done;
      assert lines[1..][k - 1] == lines[k];
      PiecesIgnoreAfterDone(lines[1..], more);
    }
  }

  /** Before any `done` line the contents of consecutive stretches of lines
      are concatenated. */
  lemma {:induction false} PiecesAppend(lines: seq<Line>, more: seq<Line>)
    requires !HasDone(lines)
    ensures Pieces(lines + more) == Pieces(lines) + Pieces(more)
  {
    if lines == [] {
      assert lines + more == more;
    } else {
      assert (lines + more)[0] == lines[0];
      assert (lines + more)[1..] == lines[1..] + more;
      NoDoneInTail(lines);
      PiecesAppend(lines[1..], more);
    }
  }

  /** Without a `done` line, neither the first line nor the rest holds one. */
  lemma NoDoneInTail(lines: seq<Line>)
    requires lines != [] && !HasDone(lines)
    ensures !(lines[0].Record? && lines[0].done) && !HasDone(lines[1..])
  {
    forall k | 0 <= k < |lines[1..]|
      ensures !(lines[1..][k].Record? && lines[1..][k].done)
    {
      assert lines[1..][k] == lines[k + 1];
    }
  }

  /** `Pieces` read from line `i` onwards: that line's own content, then,
      unless it is a `done` line, what the following lines give. */
  lemma PiecesAt(lines: seq<Line>, i: int)
    requires 0 <= i < |lines|
    ensures lines[i].Malformed? ==> Pieces(lines[i..]) == Pieces(lines[i + 1..])
    ensures lines[i].Record? ==>
              var c := Content(lines[i].msgContent, lines[i].topContent);
              Pieces(lines[i..]) == (if c == "" then [] else [c]) + (if lines[i].done then [] else Pieces(lines[i + 1..]))
  {
    assert lines[i..][0] == lines[i];
    assert lines[i..][1..] == lines[i + 1..];
  }

  /** Lines 37-52 of `ollama_chat`: the loop over the lines of the whole
      reply, appending each non-empty content and stopping after the first
      `done` line; the result is their concatenation. */
  method ChatText(lines: seq<Line>) returns (text: string)
    ensures text == Concat(Pieces(lines))
  {
    var parts: seq<string> := [];
    var i := 0;
    while i < |lines|
      invariant 0 <= i <= |lines|
      invariant parts + Pieces(lines[i..]) == Pieces(lines)
    {
      PiecesAt(lines, i);
      if lines[i].Record? {
        var c := Content(lines[i].msgContent, lines[i].topContent);
        if c != "" {
          parts := parts + [c];
        }
        if lines[i].done {
          assert parts == Pieces(lines);
          text := Concat(parts);
          return;
        }
      }
      i := i + 1;
    }
    assert lines[i..] == [];
    assert parts == Pieces(lines);
    text := Concat(parts);
  }

  /** Lines 73-86 of `ollama_stream`: the generator's loop, here returning
      the sequence of values it yields, each a non-empty content. */
  method StreamChunks(lines: seq<Line>) returns (chunks: seq<string>)
    ensures chunks == Pieces(lines)
  {
    chunks := [];
    var i := 0;
    while i < |lines|
      invariant 0 <= i <= |lines|
      invariant chunks + Pieces(lines[i..]) == Pieces(lines)
    {
      PiecesAt(lines, i);
      if lines[i].Record? {
        var c := Content(lines[i].msgContent, lines[i].topContent);
        if c != "" {
          chunks := chunks + [c];
        }
        if lines[i].done {
          assert chunks == Pieces(lines);
          break;
        }
      }
      i := i + 1;
    }
    assert i == |lines| ==> lines[i..] == [];
  }

  /** Lines 53-56, the unstreamed branch of `ollama_chat` (which nothing in
      the server calls): the whole reply is one JSON object, and a reply
      that does not decode raises. */
  function SingleReply(reply: Line): (r: Result<string>)
    ensures reply.Malformed? <==> r.Err?
    ensures reply.Record? ==> r.value == Content(reply.msgContent, reply.topContent)
  {
    match reply
    case Malformed(reason) => Err(reason)
    case Record(m, t, _) => Ok(Content(m, t))
  }
}
