# Career-plan gateway: text logic in Dafny

This project models the text-handling core of a small HTTP gateway
(`server.py`). The gateway takes a career/learning-plan request and builds a
two-message chat conversation from it. It sends the conversation to a local
language-model backend and answers in one of two ways. The materialised mode
returns one JSON object. Its plan is scrubbed by `strip_reasoning` when
`hide_reasoning` is on. The streamed mode relays the backend's chunks as they
arrive. A one-boolean filter drops `<think>…</think>` reasoning spans from
them.

The modules follow the program's pieces:

- `Text` (`text.dfy`): the Python string operations the code relies on.
  These are `str.find`, `split("?")[0]`, `rstrip`/`lstrip` of one character,
  `strip()` with Python's whitespace set, and `"\n".join` with its
  split-back lemma.
- `Reasoning` and `ReasoningFacts` (`reasoning.dfy`): `strip_reasoning`.
  The two regular-expression substitutions are written as direct string
  functions:
  - removal of every shortest `<think>…</think>` span, left to right;
  - removal of one `思考:`/`思考：` line, only at the very start of the text.
  Then `strip()` follows. General laws give one removal step, the text
  before the first `<think>` and an unterminated `<think>` with its tail
  kept. Further lemmas work out concrete shapes of text.
- `StreamFilter` (`stream_filter.dfy`): the `in_think` loop of the streamed
  reply. `Step` is one iteration and `Run` is the fold over the chunks.
  `FilterChunks` is the loop itself, proved equal to `Run`. The lemmas give
  the step's exact behaviour. Counterexample lemmas show that the filter
  depends on where the chunks are cut.
- `Backend` (`backend.dfy`): the backend's newline-delimited JSON replies.
  Decoded lines are records or `Malformed`. The reply text takes each line's
  content in order and stops after the first `done` line. `ChatText` is the
  buffered loop of `ollama_chat`. `StreamChunks` is the generator loop of
  `ollama_stream`.
- `Handler` (`handler.dfy`): request fields and their defaults, and the
  conversation built from them. Also path normalisation, POST and GET
  routing, the content type of a static file, and the two reply modes.

Behaviour of the code that the model makes explicit:

- The streamed filter keeps no buffer for a marker split across chunks.
  `StreamFilter.SplitMarkerLeaks` shows a split `<think>` passing through.
- The streamed body depends on how the backend's text is cut into chunks.
  `SplitMarkerLeaks` and `SecondSpanSurvives` give inputs where two
  chunkings of the same text give different bodies.
- Only `strip_reasoning`, in materialised mode, removes a leading `思考:`
  line. The streamed filter never does.
- The two modes treat an unterminated `<think>` differently.
  `StreamAndStripDisagree` shows one that streaming suppresses and
  `strip_reasoning` keeps.

## Model

| member | source | states |
|---|---|---|
| Text.Find | server.py:202-210 | `str.find`: -1 exactly when the pattern occurs nowhere from the start position, otherwise the first such position |
| Text.BeforeFirst | server.py:99 | `split("?")[0]`: a prefix of the input without `?`, either all of it or ending just before the first `?` |
| Text.RStripChar | server.py:99 | `rstrip("/")`: a prefix not ending in `/`, and everything removed is `/` |
| Text.LStripChar | server.py:116 | `lstrip("/")`: a suffix not starting with `/`, and everything removed is `/` |
| Text.IsSpace | server.py:15-17 | `str.isspace`, which is also what `\s` matches: the Unicode whitespace code points (U+0009–U+000D, U+001C–U+0020, U+0085, U+00A0, U+1680, U+2000–U+200A, U+2028, U+2029, U+202F, U+205F, U+3000) |
| Text.SpaceClasses | server.py:15-17 | space, tab, newline, carriage return, vertical tab, form feed and the ideographic space are whitespace, and no printable ASCII character is |
| Text.Strip | server.py:17 | `strip()`: the result is a slice of the input with only whitespace cut from each side, and neither of its ends is whitespace |
| Text.StripTrimmed | server.py:17 | `strip()` leaves text that is already trimmed unchanged |
| Text.StripKeepsTail | server.py:17 | `strip()` keeps a suffix that has no whitespace at either end |
| Text.StartsWithMeans | server.py:115 | `startswith` holds exactly when the text is the prefix followed by the rest |
| Text.EndsWithMeans | server.py:120-126 | `endswith` holds exactly when the text is the rest followed by the suffix |
| Text.Concat | server.py:52 | `"".join`: the length of the result is the sum of the parts' lengths |
| Text.ConcatSnoc | server.py:48-52 | appending one more part appends its text to the join |
| Text.JoinWith | server.py:167-173 | `sep.join`: empty for no parts; otherwise the parts' lengths plus one separator between each pair |
| Text.JoinEnds | server.py:173 | a join starts with its first part and ends with its last |
| Text.SplitOn | server.py:173 | `split` on one character: at least one piece, and no piece holds the separator |
| Text.JoinSplit | server.py:173 | joining the pieces of a split with the separator gives the text back |
| Text.SplitJoin | server.py:173 | splitting a newline-join of newline-free parts on `\n` gives the parts back |
| Reasoning.RemoveSpans | server.py:15 | never lengthens the text; text without a complete `<think>…</think>` span is unchanged, and text with one gets strictly shorter |
| Reasoning.DropThoughtLine | server.py:16 | unchanged unless the text starts (after whitespace) with `思考` and `:` or `：`; otherwise everything through the first newline after the marker goes, or all of it when there is no newline |
| Reasoning.StripReasoning | server.py:14-17 | the result has no whitespace at either end and is never longer than the input; text with no span and no leading `思考` line is only stripped |
| ReasoningFacts.ThoughtLineDropped | server.py:16 | whitespace, `思考`, `:` or `：`, a line without newline, then a newline: all of it goes and exactly the rest is left |
| ReasoningFacts.NoMarkerKept | server.py:15 | text with no `<` passes the span removal unchanged |
| ReasoningFacts.SpanRemoved | server.py:15 | for any text, when `p` is the first `<think>` and `q` the first `</think>` after it, the result is the text before `p` followed by the removal applied to the text after that `</think>` |
| ReasoningFacts.SpanBetweenRemoved | server.py:15 | `before<think>inner</think>after` with no `<` in `before` or `inner` becomes `before` followed by the removal applied to `after` |
| ReasoningFacts.PrefixBeforeStartKept | server.py:15 | the text before the first `<think>` is never touched: the result starts with it |
| ReasoningFacts.UnterminatedTailKept | server.py:15 | a `<think>` with no `</think>` anywhere after it survives the removal, and so does all the text after it: the result ends with that text |
| ReasoningFacts.StripKeepsUnterminatedTail | server.py:14-17 | `strip_reasoning` as a whole keeps an unterminated `<think>` and the text after it, when no leading `思考` line is left to remove and the text does not end in whitespace |
| ReasoningFacts.StripSpanBetween | server.py:14-17 | `before<think>secret</think>after` scrubs to `before + after` |
| ReasoningFacts.StripLeadingThought | server.py:16-17 | a leading whitespace + `思考:`/`思考：` line is dropped through its newline, leaving the stripped rest |
| ReasoningFacts.ThoughtOnlyAtStart | server.py:16 | a `思考:` line after the first line is kept: the pattern anchors only at the start of the text |
| ReasoningFacts.RemovalNotIdempotent | server.py:15 | one pass can leave a complete span behind: `<<think></think>think></think>` becomes `<think></think>`, which still holds a span |
| StreamFilter.CloseSpan | server.py:201-207 | inside a span, the output is a suffix of the chunk; outside, the chunk and state are untouched |
| StreamFilter.OpenSpan | server.py:208-216 | never lengthens the text; text without `<think>` is untouched |
| StreamFilter.Step | server.py:200-216 | output never longer than the chunk; with hiding off the chunk and state pass unchanged; outside with no `<think>` the chunk passes; inside with no `</think>` the output is empty and the state stays inside |
| StreamFilter.StepWritesSlices | server.py:201-216 | every step's output is the chunk with a prefix and one middle slice removed (`chunk[a..b] + chunk[c..]`) |
| StreamFilter.StepOpensSpan | server.py:208-216 | outside, `<think>` with no `</think>` after it: the output is the text before the first `<think>` and the state becomes inside |
| StreamFilter.StepRemovesFirstSpan | server.py:209-213 | outside, a `<think>` followed by `</think>`: the output is the text before the first `<think>` plus the text after the first following `</think>`, and the state ends outside |
| StreamFilter.StepClosesSpan | server.py:201-208 | inside, finding `</think>` drops everything through it, and the rest is handled like a chunk seen from outside |
| StreamFilter.OnlyFirstSpanRemoved | server.py:208-213 | after an empty `<think></think>` at the very start of the chunk is removed, the rest is written as it is, whatever spans it holds |
| StreamFilter.Run | server.py:198-218 | the fold of the loop over the chunks: at most one written piece per chunk, no written piece empty, and with hiding off the filter never ends inside a span |
| StreamFilter.RunPassesThrough | server.py:198-218 | with hiding off, every non-empty chunk is written unchanged and in order |
| StreamFilter.RunSilentInside | server.py:201-207 | after an unterminated `<think>`, nothing is written until a chunk holds `</think>` |
| StreamFilter.RunShrinks | server.py:198-218 | the streamed body is never longer than the backend's text |
| StreamFilter.SplitMarkerLeaks | server.py:198-216 | `<think>` split over two chunks passes into the body, while the same text in one chunk is cut |
| StreamFilter.SplitStartOpens | server.py:208-216 | the chunk `a<think>b` writes `a` and enters the span |
| StreamFilter.SecondSpanSurvives | server.py:208-213 | two spans in one chunk leave the second in the body; in two chunks both go |
| StreamFilter.StreamAndStripDisagree | server.py:193-216 | the unterminated `a<think>b` streams as `a` but `strip_reasoning` keeps it whole |
| StreamFilter.UnterminatedSpanKept | server.py:15 | `strip_reasoning` keeps an unterminated `<think>` and its text |
| StreamFilter.FilterChunks | server.py:193-218 | the loop writes exactly the pieces `Run` describes and ends in the state `Run` gives |
| Backend.Truthy | server.py:47-48 | the truthiness behind `or` and `if c` for a string field: true exactly when the field is present and not `""` |
| Backend.Content | server.py:46-47 | a truthy message content wins, then a truthy top-level content; the result is empty exactly when neither is truthy |
| Backend.Pieces | server.py:38-51 | every collected piece is non-empty |
| Backend.PiecesIgnoreAfterDone | server.py:50-51 | lines after the first `done` line contribute nothing |
| Backend.PiecesAppend | server.py:39-51 | before any `done` line, collection distributes over concatenation of lines |
| Backend.ChatText | server.py:37-52 | the buffered reply is the concatenation of the collected pieces |
| Backend.StreamChunks | server.py:73-86 | the generator yields exactly the collected pieces, in order |
| Backend.SingleReply | server.py:53-56 | a non-streamed reply fails to decode exactly when it is malformed, and otherwise gives the chosen content |
| Handler.Digits | server.py:173 | `str` of a natural number: decimal digits that denote it, with no leading zero except in `0` |
| Handler.Format | server.py:173 | f-string rendering: a string is itself, `None` is `None`, booleans are `True`/`False`, and an integer is its decimal digits, with `-` in front when negative (`str(6) == "6"`) |
| Handler.ScalarTruthy | server.py:150-171 | Python truthiness behind `or` and `bool(...)`: false exactly for `None`, `False`, `0` and `""` |
| Handler.OrDefault | server.py:165-171 | `field or default`: the field's text when present and truthy, the default otherwise |
| Handler.JoinList | server.py:151-170 | a present list is joined with `", "`; a missing or empty one gives the empty string |
| Handler.HideReasoning | server.py:156 | on when the field is absent, otherwise the field's truthiness |
| Handler.Details | server.py:149-172 | seven values; a present truthy scalar field renders by `Format` and a present list by `", "`-joining, a missing or falsy name, background or target role gives `""`, missing skills or preferences give `""`, and a missing or falsy timeframe or level gives `未知` |
| Handler.LabelledLines | server.py:173 | line k is `label_k: value_k`, with labels in the fixed order |
| Handler.UserText | server.py:164-173 | the user message opens with the name line and closes with the level line |
| Handler.UserTextIsSevenLines | server.py:164-173 | for every request, whatever its values hold (newlines included), the user text is exactly the seven labelled lines in order with one newline between each two |
| Handler.UserTextLines | server.py:164-173 | when no value holds a newline, the user text splits back into exactly the seven labelled lines |
| Handler.Conversation | server.py:158-177 | exactly two messages: the fixed system instruction, then the user text |
| Handler.NormalisePath | server.py:99 | never empty and without `?`; `/` exactly when the part before the first `?` is only slashes; otherwise that part with its trailing slashes removed, and nothing else |
| Handler.NormaliseIdempotent | server.py:99 | normalising a normalised path changes nothing |
| Handler.NormaliseIgnoresQuery | server.py:138 | an appended query string does not change the normalised path |
| Handler.NormaliseIgnoresTrailingSlash | server.py:138 | an appended slash does not change the normalised path |
| Handler.RoutePost | server.py:138-139 | `/plan` and `/api/plan_stream` answer materialised, `/plan_stream` and `/plan-stream` streamed, anything else not found |
| Handler.RouteGet | server.py:99-135 | `/health`, `/`, and paths under `/static`, the last served from the raw path without its leading slashes |
| Handler.StaticUsesRawPath | server.py:115-118 | `/static` + anything is looked up as `static` + the same text, query string and `..` included |
| Handler.ExtensionsDistinct | server.py:121-126 | no file name has two of the recognised extensions |
| Handler.ContentTypeOf | server.py:120-126 | CSS, JavaScript or HTML exactly when the name ends in `.css`, `.js` or `.html`, octet-stream otherwise |
| Handler.HandlePost | server.py:137-177 | not found exactly for unknown paths, decided before the body is read; a bad body is a 400 with the decoder's message; a missing or non-positive `Content-Length` reads `{}` without looking at the body, while a positive length with an undecodable body (an empty one included) is a 400; a known path with a positive length and a body that decodes always gives a plan, whose conversation and hiding flag come from that body |
| Handler.Materialise | server.py:178-191 | a backend failure is a 502 with its message; otherwise the raw output is the collected text and the plan is it scrubbed exactly when hiding is on |
| Handler.StreamPlan | server.py:193-225 | the body is the filtered pieces, followed by `错误: ` and the failure's message only when the backend failed before a `done` line |
| Handler.StreamedEqualsRawWhenShown | server.py:178-218 | with hiding off, the streamed body adds up to exactly the materialised mode's raw output |

## Left out

- A missing `Content-Length` header is passed to `Handler.HandlePost` as 0, which is what `int(self.headers.get("Content-Length", "0"))` gives.
- Socket I/O is not modelled. This covers response status lines, headers, `_json`, `wfile.write`/`flush`, `run` and `ThreadingHTTPServer`. A write that fails when the client disconnects is left out too.
- The network side of the backend call is not modelled: `http.client` connections, `urlparse` host and port selection, and timeouts. The backend's reply is a parameter: the decoded lines, or the error that ended the call.
- JSON decoding and encoding are not modelled. Backend lines come already classified as records or `Malformed`. The request body arrives decoded, or as the decoder's error message.
- Handler.HandlePost: a body that decodes to something other than an object (`req.get` raising) is not modelled. Neither is a non-numeric `Content-Length` header (`int` raising). Both escape the handler as uncaught exceptions.
- Handler.Format: floats, lists and objects in scalar fields are not modelled. Neither are non-string items in `skills`/`preferences` (a `TypeError` in `join`).
- Handler.JoinList: `skills` and `preferences` are modelled as lists of strings only. A string value there is joined character by character (`", ".join("ab")` is `a, b`). A truthy number raises `TypeError` at server.py:167 and 170, while `0` or `False` falls through `or []` and gives `""`. Only the missing-or-list cases are modelled.
- Backend.Pieces: contents that are not strings (numbers, lists, objects) are not modelled. A falsy one (`0`, `[]`, `{}`) falls through `or` to the next alternative (server.py:47, 82). A truthy one makes `"".join` raise in `ollama_chat`. In the streamed path it is yielded and fails at `out.find` or `out.encode` (server.py:202-218), and the `except` at server.py:223 writes `错误: …`.
- Backend.Pieces: a line that is valid JSON but not an object, or whose truthy `message` is not an object, has no constructor. In the source `.get` raises outside the `try` (server.py:46-47, 54-55, 81-82), which ends the call. The model expresses that through the callers: the lines stop before it, and the failure is `Materialise`'s `Err` (a 502, server.py:181-183) or `StreamPlan`'s `failure` (`错误: …`, server.py:223-225).
- Static file reads, the 404 for a missing file, and environment configuration (`OLLAMA_HOST`, `OLLAMA_MODEL`) are not modelled. The model name is a parameter of `Materialise`.
- The regular-expression engine is not modelled. The two patterns are written out as direct string functions. Python's `\s` and `str.isspace` are the fixed whitespace set of `Text.IsSpace`.
- Reasoning.RemoveSpans: its own contract covers length and the span-free case. The one-step law (`SpanRemoved`) and the unterminated-marker law (`UnterminatedTailKept`) hold for all text. A closed form of the whole result, span by span, is not stated.
- Backend bytes are not modelled. `bytes.splitlines()` splits on `\r` and `\n`, and `readline()` only on `\n`. Both loops see already-decoded lines.
- Threads and concurrent requests are not modelled. Each request's filter state is local to it.
