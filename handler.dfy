/** The request handler: turning a plan request into the two-message
    conversation, normalising and routing paths, choosing a static file's
    content type, and the materialised and streamed responses. */
module Handler {
  import opened Wrappers
  import opened Text
  import opened Reasoning
  import opened Backend
  import opened StreamFilter

  /** A scalar JSON value as `json.loads` returns it. */
  datatype Scalar = Null | Bool(b: bool) | Int(i: int) | Str(s: string)

  /** Python truthiness: `None`, `False`, `0` and `""` are false. */
  predicate ScalarTruthy(v: Scalar)
    ensures ScalarTruthy(v) <==> v != Null && v != Bool(false) && v != Int(0) && v != Str("")
  {
    match v
    case Null => false
    case Bool(b) => b
    case Int(i) => i != 0
    case Str(s) => s != ""
  }

  /** The number a string of decimal digits denotes. */
  function DecimalValue(r: string): nat
    requires forall k :: 0 <= k < |r| ==> '0' <= r[k] <= '9'
  {
    if r == [] then 0 else 10 * DecimalValue(r[..|r| - 1]) + (r[|r| - 1] - '0') as nat
  }

  /** The decimal digits of `n`, as Python's `str` writes them: they denote
      `n`, and there is no leading zero except in `0` itself. */
  function Digits(n: nat): (r: string)
    ensures r != [] && forall k :: 0 <= k < |r| ==> '0' <= r[k] <= '9'
    ensures DecimalValue(r) == n
    ensures r[0] == '0' <==> n == 0
    ensures r[0] == '0' ==> r == "0"
  {
    var d := ['0' + (n % 10) as char];
    if n < 10 then d
    else
      var h := Digits(n / 10);
      assert (h + d)[..|h + d| - 1] == h;
      h + d
  }

  /** How an f-string renders a scalar. */
  function Format(v: Scalar): (r: string)
    ensures !v.Str? ==> '\n' !in r
    ensures v.Str? ==> r == v.s
    ensures v.Null? ==> r == "None"
    ensures v.Bool? ==> r == (if v.b then "True" else "False")
    ensures v.Int? && v.i >= 0 ==> r == Digits(v.i)
    ensures v.Int? && v.i < 0 ==> r == "-" + Digits(-v.i)
  {
    match v
    case Null => "None"
    case Bool(b) => if b then "True" else "False"
    case Int(i) => if i < 0 then "-" + Digits(-i) else Digits(i)
    case Str(s) => s
  }

  /** The request body's fields; `None` is a field the body leaves out.
      `skills` and `preferences` are lists of strings, and `None` there
      also covers an explicit `null`. */
  datatype PlanRequest = PlanRequest(
    name: Option<Scalar>,
    background: Option<Scalar>,
    skills: Option<seq<string>>,
    targetRole: Option<Scalar>,
    timeframeMonths: Option<Scalar>,
    preferences: Option<seq<string>>,
    level: Option<Scalar>,
    hideReasoning: Option<Scalar>)

  /** The body `{}` read when the declared `Content-Length` is missing or
      not positive. */
  const EmptyRequest := PlanRequest(None, None, None, None, None, None, None, None)

  /** `field or default`, rendered: the field's text when it is present and
      truthy, the default otherwise. */
  function OrDefault(field: Option<Scalar>, default: string): (r: string)
    ensures field.Some? && ScalarTruthy(field.value) ==> r == Format(field.value)
    ensures field.None? || !ScalarTruthy(field.value) ==> r == default
  {
    if field.Some? && ScalarTruthy(field.value) then Format(field.value) else default
  }

  /** `", ".join(field or [])`. */
  function JoinList(field: Option<seq<string>>): (r: string)
    ensures field.None? || field.value == [] ==> r == ""
    ensures field.Some? ==> r == JoinWith(", ", field.value)
  {
    if field.Some? then JoinWith(", ", field.value) else ""
  }

  /** `bool(req.get("hide_reasoning", True))`: on when absent, otherwise
      the field's truthiness, so an explicit `null` turns it off. */
  function HideReasoning(req: PlanRequest): (r: bool)
    ensures req.hideReasoning.None? ==> r
    ensures req.hideReasoning.Some? ==> r == ScalarTruthy(req.hideReasoning.value)
  {
    match req.hideReasoning
    case None => true
    case Some(v) => ScalarTruthy(v)
  }

  /** The labels of the user message's lines, in their fixed order. */
  const Labels: seq<string> := ["姓名", "背景", "技能", "目标岗位", "时间范围(月)", "偏好", "水平"]

  /** The placeholder for an unknown timeframe or level. */
  const Unknown := "未知"

  /** The values of the user message's lines, in the order of `Labels`. */
  function Details(req: PlanRequest): (d: seq<string>)
    ensures |d| == |Labels|
    ensures req.name.None? || !ScalarTruthy(req.name.value) ==> d[0] == ""
    ensures req.background.None? || !ScalarTruthy(req.background.value) ==> d[1] == ""
    ensures req.skills.None? ==> d[2] == ""
    ensures req.targetRole.None? || !ScalarTruthy(req.targetRole.value) ==> d[3] == ""
    ensures req.timeframeMonths.None? || !ScalarTruthy(req.timeframeMonths.value) ==> d[4] == Unknown
    ensures req.preferences.None? ==> d[5] == ""
    ensures req.level.None? || !ScalarTruthy(req.level.value) ==> d[6] == Unknown
    ensures req.name.Some? && ScalarTruthy(req.name.value) ==> d[0] == Format(req.name.value)
    ensures req.background.Some? && ScalarTruthy(req.background.value) ==>
              d[1] == Format(req.background.value)
    ensures req.skills.Some? ==> d[2] == JoinWith(", ", req.skills.value)
    ensures req.targetRole.Some? && ScalarTruthy(req.targetRole.value) ==>
              d[3] == Format(req.targetRole.value)
    ensures req.timeframeMonths.Some? && ScalarTruthy(req.timeframeMonths.value) ==>
              d[4] == Format(req.timeframeMonths.value)
    ensures req.preferences.Some? ==> d[5] == JoinWith(", ", req.preferences.value)
    ensures req.level.Some? && ScalarTruthy(req.level.value) ==> d[6] == Format(req.level.value)
  {
    [ OrDefault(req.name, ""),
      OrDefault(req.background, ""),
      JoinList(req.skills),
      OrDefault(req.targetRole, ""),
      OrDefault(req.timeframeMonths, Unknown),
      JoinList(req.preferences),
      OrDefault(req.level, Unknown) ]
  }

  /** The `"k: v"` lines of the user message. */
  function LabelledLines(req: PlanRequest): (ls: seq<string>)
    ensures |ls| == |Labels|
    ensures forall k :: 0 <= k < |ls| ==> ls[k] == Labels[k] + ": " + Details(req)[k]
  {
    var d := Details(req);
    seq(|Labels|, k requires 0 <= k < |Labels| => Labels[k] + ": " + d[k])
  }

  /** The user message: the labelled lines joined by newlines, so it opens
      with the name line and closes with the level line. */
  function UserText(req: PlanRequest): (u: string)
    ensures StartsWith(u, Labels[0] + ": " + Details(req)[0])
    ensures EndsWith(u, Labels[6] + ": " + Details(req)[6])
  {
    var ls := LabelledLines(req);
    JoinEnds("\n", ls);
    JoinWith("\n", ls)
  }

  /** Seven lines joined by newlines, written out. */
  lemma {:induction false} JoinSeven(ls: seq<string>)
    requires |ls| == 7
    ensures JoinWith("\n", ls)
            == ls[0] + "\n" + ls[1] + "\n" + ls[2] + "\n" + ls[3] + "\n" + ls[4] + "\n" + ls[5] + "\n" + ls[6]
  {
    assert JoinWith("\n", ls[6..]) == ls[6];
    assert JoinWith("\n", ls[5..]) == ls[5] + "\n" + JoinWith("\n", ls[6..]) by { assert ls[5..][1..] == ls[6..]; }
    assert JoinWith("\n", ls[4..]) == ls[4] + "\n" + JoinWith("\n", ls[5..]) by { assert ls[4..][1..] == ls[5..]; }
    assert JoinWith("\n", ls[3..]) == ls[3] + "\n" + JoinWith("\n", ls[4..]) by { assert ls[3..][1..] == ls[4..]; }
    assert JoinWith("\n", ls[2..]) == ls[2] + "\n" + JoinWith("\n", ls[3..]) by { assert ls[2..][1..] == ls[3..]; }
    assert JoinWith("\n", ls[1..]) == ls[1] + "\n" + JoinWith("\n", ls[2..]) by { assert ls[1..][1..] == ls[2..]; }
    assert JoinWith("\n", ls) == ls[0] + "\n" + JoinWith("\n", ls[1..]);
  }

  /** For every request, the user message is the seven labelled lines in
      order with a newline between each two, whatever the values hold. */
  lemma UserTextIsSevenLines(req: PlanRequest)
    ensures var ls := LabelledLines(req);
            UserText(req)
            == ls[0] + "\n" + ls[1] + "\n" + ls[2] + "\n" + ls[3] + "\n" + ls[4] + "\n" + ls[5] + "\n" + ls[6]
  {
    JoinSeven(LabelledLines(req));
  }

  /** When no value holds a newline, the user message splits back into
      exactly the seven labelled lines, in order. */
  lemma UserTextLines(req: PlanRequest)
    requires forall k :: 0 <= k < |Labels| ==> '\n' !in Details(req)[k]
    ensures SplitOn(UserText(req), '\n') == LabelledLines(req)
  {
    var ls := LabelledLines(req);
    forall k | 0 <= k < |ls|
      ensures '\n' !in ls[k]
    {
      assert '\n' !in Labels[k];
      assert '\n' !in ": ";
    }
    SplitJoin('\n', ls);
  }

  datatype Role = System | User | Assistant

  datatype ChatMessage = ChatMessage(role: Role, content: string)

  /** The system instruction: the adviser role, the output format, the
      language, and the instruction not to reveal reasoning. */
  const SystemPrompt :=
    "你是一名职业生涯与AI学习规划顾问。"
    + "请基于用户背景、技能、目标岗位与时间范围，输出结构化、可执行的学习与实践计划。"
    + "内容应包含阶段划分、里程碑、学习资源、每日/每周安排、项目实践与评估指标。"
    + "语言使用中文，避免输出任何内部推理或思考过程。"

  /** The conversation sent to the backend: the system instruction, then
      the user message, and nothing else. */
  function Conversation(req: PlanRequest): (msgs: seq<ChatMessage>)
    ensures |msgs| == 2
    ensures msgs[0] == ChatMessage(System, SystemPrompt)
    ensures msgs[1].role == User && msgs[1].content == UserText(req)
  {
    [ChatMessage(System, SystemPrompt), ChatMessage(User, UserText(req))]
  }

  /** `path.split("?")[0].rstrip("/") or "/"`: the path before the query
      without its trailing slashes, or `/` when nothing else is left. */
  function NormalisePath(path: string): (p: string)
    ensures p != "" && '?' !in p
    ensures p == "/" || (p[|p| - 1] != '/' && StartsWith(path, p))
    ensures var b := BeforeFirst(path, '?');
      p == "/" <==> forall i :: 0 <= i < |b| ==> b[i] == '/'
    ensures var b := BeforeFirst(path, '?');
      p != "/" ==> StartsWith(b, p) && forall i :: |p| <= i < |b| ==> b[i] == '/'
  {
    var b := BeforeFirst(path, '?');
    var p := RStripChar(b, '/');
    if p == "" then "/"
    else
      assert b[|p| - 1] == p[|p| - 1] by { assert b[..|p|] == p; }
      p
  }

  /** Normalising twice is normalising once. */
  lemma NormaliseIdempotent(path: string)
    ensures NormalisePath(NormalisePath(path)) == NormalisePath(path)
  {
    var p := NormalisePath(path);
    assert BeforeFirst(p, '?') == p;
    if p == "/" {
      assert RStripChar("/", '/') == RStripChar("", '/');
    }
  }

  /** An appended query string makes no difference. */
  lemma NormaliseIgnoresQuery(path: string, query: string)
    ensures NormalisePath(path + "?" + query) == NormalisePath(path)
  {
    if '?' in path {
      BeforeFirstExtend(path, '?', "?" + query);
      assert path + "?" + query == path + ("?" + query);
    } else {
      BeforeFirstStops(path, '?', query);
      assert path + "?" + query == path + ['?'] + query;
    }
  }

  /** An appended slash makes no difference. */
  lemma NormaliseIgnoresTrailingSlash(path: string)
    ensures NormalisePath(path + "/") == NormalisePath(path)
  {
    if '?' in path {
      BeforeFirstExtend(path, '?', "/");
    } else {
      assert '?' !in path + "/";
      assert (path + "/")[..|path + "/"| - 1] == path;
    }
  }

  /** Where a POST is sent. */
  datatype PostRoute = Materialised | Streamed | NoPostRoute

  /** Lines 138-139 and 178: four aliases, two of which answer with one
      JSON object and two with a text stream. */
  function RoutePost(path: string): (r: PostRoute)
    ensures r == Materialised <==> NormalisePath(path) in {"/plan", "/api/plan_stream"}
    ensures r == Streamed <==> NormalisePath(path) in {"/plan_stream", "/plan-stream"}
  {
    var p := NormalisePath(path);
    if p !in {"/plan", "/plan_stream", "/plan-stream", "/api/plan_stream"} then NoPostRoute
    else if p in {"/plan", "/api/plan_stream"} then Materialised
    else Streamed
  }

  /** Where a GET is sent; a static file is looked up by the raw path
      without its leading slashes. */
  datatype GetRoute = Health | Home | StaticFile(file: string) | NoGetRoute

  /** Lines 99-135 without the file reads. */
  function RouteGet(path: string): (r: GetRoute)
    ensures r == Health <==> NormalisePath(path) == "/health"
    ensures r == Home <==> NormalisePath(path) == "/"
    ensures r.StaticFile? <==> StartsWith(NormalisePath(path), "/static")
    ensures r.StaticFile? ==> r.file == LStripChar(path, '/')
  {
    var p := NormalisePath(path);
    if p == "/health" then Health
    else if p == "/" then Home
    else if StartsWith(p, "/static") then StaticFile(LStripChar(path, '/'))
    else NoGetRoute
  }

  /** Every path under `/static` is served from the raw path, query string
      and `..` segments included: nothing confines it to the directory. */
  lemma StaticUsesRawPath(rest: string)
    ensures RouteGet("/static" + rest) == StaticFile("static" + rest)
  {
    var path := "/static" + rest;
    assert path[..7] == "/static";
    var p := NormalisePath(path);
    var b := BeforeFirst(path, '?');
    assert '?' !in "/static";
    assert StartsWith(b, "/static") by {
      if '?' in path {
        assert path[IndexOf(path, '?')] == '?';
        assert |b| >= 7;
      }
    }
    var r := RStripChar(b, '/');
    assert b[6] != '/';
    assert |r| >= 7;
    assert r[..7] == b[..7];
    assert StartsWith(p, "/static");
    assert p != "/health" && p != "/";
    assert path[0] == '/' && path[1] != '/';
    assert LStripChar(path, '/') == LStripChar(path[1..], '/');
    assert path[1..] == "static" + rest by { assert path == "/" + ("static" + rest); }
  }

  datatype ContentType = Css | JavaScript | Html | OctetStream

  /** Lines 120-126: the type follows the file's extension. */
  function ContentTypeOf(file: string): (t: ContentType)
    ensures t == Css <==> EndsWith(file, ".css")
    ensures t == JavaScript <==> EndsWith(file, ".js")
    ensures t == Html <==> EndsWith(file, ".html")
  {
    ExtensionsDistinct(file);
    if EndsWith(file, ".css") then Css
    else if EndsWith(file, ".js") then JavaScript
    else if EndsWith(file, ".html") then Html
    else OctetStream
  }

  /** No file name ends in two of the recognised extensions. */
  lemma ExtensionsDistinct(file: string)
    ensures !(EndsWith(file, ".css") && EndsWith(file, ".js"))
    ensures !(EndsWith(file, ".css") && EndsWith(file, ".html"))
    ensures !(EndsWith(file, ".js") && EndsWith(file, ".html"))
  {
    var n := |file|;
    assert EndsWith(file, ".css") ==> file[n - 2] == 's' && file[n - 1] == 's';
    assert EndsWith(file, ".js") ==> file[n - 2] == 'j' && file[n - 1] == 's';
    assert EndsWith(file, ".html") ==> file[n - 1] == 'l';
  }

  /** What `do_POST` decides before it calls the backend. */
  datatype PostAction =
    | NotFound
    | BadRequest(error: string)
    | Plan(route: PostRoute, messages: seq<ChatMessage>, hideReasoning: bool)

  /** Lines 137-177: route first, then read the body (`{}` when the
      declared length is not positive), then build the conversation.
      `body` is what decoding the sent bytes gives. */
  function HandlePost(path: string, contentLength: int, body: Result<PlanRequest>): (a: PostAction)
    ensures RoutePost(path) == NoPostRoute <==> a == NotFound
    ensures RoutePost(path) != NoPostRoute && contentLength > 0 && body.Err? ==> a == BadRequest(body.error)
    ensures RoutePost(path) != NoPostRoute && contentLength <= 0 ==>
              a == Plan(RoutePost(path), Conversation(EmptyRequest), true)
    ensures a.Plan? ==> a.route == RoutePost(path)
    ensures a.Plan? && contentLength > 0 ==>
              (body.Ok? && a.messages == Conversation(body.value) && a.hideReasoning == HideReasoning(body.value))
    ensures RoutePost(path) != NoPostRoute && contentLength > 0 && body.Ok? ==>
              a == Plan(RoutePost(path), Conversation(body.value), HideReasoning(body.value))
  {
    var route := RoutePost(path);
    if route == NoPostRoute then NotFound
    else
      var decoded := if contentLength > 0 then body else Ok(EmptyRequest);
      match decoded
      case Err(e) => BadRequest(e)
      case Ok(req) => Plan(route, Conversation(req), HideReasoning(req))
  }

  /** The materialised reply. */
  datatype Reply =
    | ErrorReply(status: int, error: string)
    | PlanReply(plan: string, model: string, reasoningHidden: bool, rawOutput: string)

  /** Lines 178-191: read the whole backend reply, scrub it when asked, and
      answer with one JSON object, or with 502 when the backend call
      failed. `model` is the configured model name. */
  method Materialise(backend: Result<seq<Line>>, hideReasoning: bool, model: string) returns (reply: Reply)
    ensures backend.Err? ==> reply == ErrorReply(502, backend.error)
    ensures backend.Ok? ==>
              (reply.PlanReply? && reply.model == model
               && reply.reasoningHidden == hideReasoning
               && reply.rawOutput == Concat(Pieces(backend.value))
               && reply.plan == (if hideReasoning then StripReasoning(reply.rawOutput) else reply.rawOutput))
  {
    if backend.Err? {
      return ErrorReply(502, backend.error);
    }
    var rawOut := ChatText(backend.value);
    var text := if hideReasoning then StripReasoning(rawOut) else rawOut;
    reply := PlanReply(text, model, hideReasoning, rawOut);
  }

  /** The text written into the stream when the backend call fails. */
  const ErrorPrefix := "错误: "

  /** Lines 193-225: the streamed reply. `lines` are the lines read before
      the connection ended, and `failure` the description of the exception
      that ended it, if one did; it is raised only if no `done` line came
      first. Returns the pieces written to the body, in order. */
  method StreamPlan(hideReasoning: bool, lines: seq<Line>, failure: Option<string>) returns (body: seq<string>)
    ensures body == Run(hideReasoning, Pieces(lines)).written
                    + (if failure.Some? && !HasDone(lines) then [ErrorPrefix + failure.value] else [])
  {
    var chunks := StreamChunks(lines);
    var inThink;
    body, inThink := FilterChunks(hideReasoning, chunks);
    if failure.Some? && !HasDone(lines) {
      body := body + [ErrorPrefix + failure.value];
    }
  }

  /** With reasoning shown and no failure, the streamed body adds up to
      exactly the `raw_output` the materialised reply carries. */
  lemma StreamedEqualsRawWhenShown(lines: seq<Line>)
    ensures Concat(Run(false, Pieces(lines)).written) == Concat(Pieces(lines))
  {
    RunPassesThrough(Pieces(lines));
  }
}
