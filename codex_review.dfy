/**
 * The Codex review helper: builds the `codex exec` command line for a
 * review, shapes the process result into a response, parses the JSONL
 * event stream the CLI prints and picks the final agent message out of it,
 * and dispatches the command-line review types.
 *
 * The process itself is not modelled: its return code, standard output and
 * standard error arrive as a `Completed` value, and the JSON decoder is the
 * parameter `decode`, which answers `None` where `json.loads` raises.
 */
module CodexReview {
  import opened Wrappers
  import opened JsonValue
  import opened PyText

  /** A `CodexReviewer`: the model it asks for and whether it requests JSONL output. */
  datatype Reviewer = Reviewer(model: string, jsonOutput: bool)

  /** `CodexReviewer()` with its default arguments, as main creates it. */
  const DefaultReviewer := Reviewer("gpt-5-codex", true)

  const DefaultSandbox := "read-only"
  const DefaultEffort := "medium"
  const EffortKey := "reasoning_effort="

  // ---------------------------------------------------------------------
  // The command line
  // ---------------------------------------------------------------------

  /** The settings a `codex exec` command line carries. */
  datatype CommandLine = CommandLine(model: string, sandbox: string, effort: string, json: bool, prompt: string)

  /** Reads the settings back from a command line of the shape run_review builds. */
  function ReadCommand(cmd: seq<string>): Option<CommandLine> {
    if (|cmd| == 9 || (|cmd| == 10 && cmd[8] == "--json")) &&
       cmd[0] == "codex" && cmd[1] == "exec" && cmd[2] == "--model" &&
       cmd[4] == "--sandbox" && cmd[6] == "--config" &&
       |EffortKey| <= |cmd[7]| && cmd[7][..|EffortKey|] == EffortKey
    then Some(CommandLine(cmd[3], cmd[5], cmd[7][|EffortKey|..], |cmd| == 10, cmd[|cmd| - 1]))
    else None
  }

  /**
   * The argument vector of run_review: `codex exec --model M --sandbox S
   * --config reasoning_effort=E`, then `--json` when the reviewer asks for
   * JSONL, then the prompt.
   */
  method BuildCommand(reviewer: Reviewer, prompt: string, sandbox: string, effort: string)
    returns (cmd: seq<string>)
    ensures |cmd| == if reviewer.jsonOutput then 10 else 9
    ensures cmd[..8] == ["codex", "exec", "--model", reviewer.model, "--sandbox", sandbox,
                         "--config", EffortKey + effort]
    ensures cmd[8..|cmd| - 1] == if reviewer.jsonOutput then ["--json"] else []
    ensures cmd[|cmd| - 1] == prompt
    ensures ReadCommand(cmd) == Some(CommandLine(reviewer.model, sandbox, effort, reviewer.jsonOutput, prompt))
  {
    cmd := ["codex", "exec", "--model", reviewer.model, "--sandbox", sandbox, "--config", EffortKey + effort];
    if reviewer.jsonOutput {
      cmd := cmd + ["--json"];
    }
    cmd := cmd + [prompt];
    assert cmd[7][..|EffortKey|] == EffortKey && cmd[7][|EffortKey|..] == effort;
  }

  // ---------------------------------------------------------------------
  // _parse_jsonl
  // ---------------------------------------------------------------------

  /** The events of `lines`: each non-empty line that decodes, in order; the others are skipped. */
  function DecodeLines(lines: seq<string>, decode: string -> Option<Json>): seq<Json>
    decreases |lines|
  {
    if lines == [] then []
    else
      var events := DecodeLines(lines[..|lines| - 1], decode);
      var line := lines[|lines| - 1];
      if line != [] && decode(line).Some? then events + [decode(line).value] else events
  }

  function NonEmptyCount(lines: seq<string>): nat
    decreases |lines|
  {
    if lines == [] then 0
    else NonEmptyCount(lines[..|lines| - 1]) + if lines[|lines| - 1] != [] then 1 else 0
  }

  /** The events of a JSONL text: the stripped text split at newlines, then decoded line by line. */
  function Events(jsonlText: string, decode: string -> Option<Json>): seq<Json> {
    DecodeLines(Split(Strip(jsonlText), '\n'), decode)
  }

  /** There are at most as many events as non-empty lines. */
  lemma {:induction false} DecodeLinesBound(lines: seq<string>, decode: string -> Option<Json>)
    ensures |DecodeLines(lines, decode)| <= NonEmptyCount(lines) <= |lines|
    decreases |lines|
  {
    if lines != [] {
      DecodeLinesBound(lines[..|lines| - 1], decode);
    }
  }

  /** When every non-empty line decodes, there is one event per non-empty line. */
  lemma {:induction false} DecodeLinesAll(lines: seq<string>, decode: string -> Option<Json>)
    requires forall i :: 0 <= i < |lines| && lines[i] != [] ==> decode(lines[i]).Some?
    ensures |DecodeLines(lines, decode)| == NonEmptyCount(lines)
    decreases |lines|
  {
    if lines != [] {
      var init := lines[..|lines| - 1];
      assert forall i :: 0 <= i < |init| ==> init[i] == lines[i];
      DecodeLinesAll(init, decode);
    }
  }

  /** Decoding is line by line: the events of two blocks of lines are those of the first, then the second. */
  lemma {:induction false} DecodeLinesAppend(a: seq<string>, b: seq<string>, decode: string -> Option<Json>)
    ensures DecodeLines(a + b, decode) == DecodeLines(a, decode) + DecodeLines(b, decode)
    decreases |b|
  {
    if b == [] {
      assert a + b == a;
    } else {
      var init := b[..|b| - 1];
      assert (a + b)[..|a + b| - 1] == a + init;
      assert (a + b)[|a + b| - 1] == b[|b| - 1];
      DecodeLinesAppend(a, init, decode);
    }
  }

  /** A value is an event exactly when some non-empty line decodes to it. */
  lemma {:induction false} DecodeLinesMembers(lines: seq<string>, decode: string -> Option<Json>, e: Json)
    ensures e in DecodeLines(lines, decode) <==>
            exists i :: 0 <= i < |lines| && lines[i] != [] && decode(lines[i]) == Some(e)
    decreases |lines|
  {
    if lines != [] {
      var init := lines[..|lines| - 1];
      DecodeLinesMembers(init, decode, e);
      if e in DecodeLines(lines, decode) && e !in DecodeLines(init, decode) {
        assert decode(lines[|lines| - 1]) == Some(e);
      }
      if exists i :: 0 <= i < |lines| && lines[i] != [] && decode(lines[i]) == Some(e) {
        var i :| 0 <= i < |lines| && lines[i] != [] && decode(lines[i]) == Some(e);
        if i < |init| {
          assert init[i] == lines[i];
        }
      }
    }
  }

  /** A text of whitespace only gives no events, whatever the decoder. */
  lemma BlankTextNoEvents(jsonlText: string, decode: string -> Option<Json>)
    requires forall k :: 0 <= k < |jsonlText| ==> IsSpace(jsonlText[k])
    ensures Events(jsonlText, decode) == []
  {
    assert Strip(jsonlText) == [];
    assert Split([], '\n') == [[]];
  }

  /** _parse_jsonl: appends, line by line, every non-empty line that decodes. */
  method ParseJsonl(jsonlText: string, decode: string -> Option<Json>) returns (events: seq<Json>)
    ensures events == Events(jsonlText, decode)
  {
    events := [];
    var lines := Split(Strip(jsonlText), '\n');
    for i := 0 to |lines|
      invariant events == DecodeLines(lines[..i], decode)
    {
      var line := lines[i];
      assert lines[..i + 1][..i] == lines[..i];
      if line != [] {
        var decoded := decode(line);
        if decoded.Some? {
          events := events + [decoded.value];
        }
      }
    }
    assert lines[..|lines|] == lines;
  }

  // ---------------------------------------------------------------------
  // _extract_summary
  // ---------------------------------------------------------------------

  /** `d.get("type") == t`. */
  predicate HasType(d: map<string, Json>, t: string) {
    "type" in d && d["type"] == JStr(t)
  }

  /** `event.get("item", {})`. */
  function ItemOf(event: Json): Json
    requires event.JObj?
  {
    Get(event.fields, "item", EmptyObject)
  }

  /** A completed agent message: `type` is `item.completed` and the item's `type` is `agent_message`. */
  predicate IsAgentMessage(event: Json) {
    event.JObj? && HasType(event.fields, "item.completed") &&
    ItemOf(event).JObj? && HasType(ItemOf(event).fields, "agent_message")
  }

  /** `item.get("text")`: absent and JSON `null` both read as `None`. */
  function TextOf(item: Json): Option<Json>
    requires item.JObj?
  {
    if "text" in item.fields && item.fields["text"] != JNull then Some(item.fields["text"]) else None
  }

  /**
   * The backward scan does not raise: every event it looks at, from the
   * last back to the last agent message, is a dict, and so is the item of
   * every completed event among them.
   */
  predicate Scannable(events: seq<Json>)
    decreases |events|
  {
    events == [] ||
    var e := events[|events| - 1];
    e.JObj? && (HasType(e.fields, "item.completed") ==> ItemOf(e).JObj?) &&
    (IsAgentMessage(e) || Scannable(events[..|events| - 1]))
  }

  /** The summary the backward scan finds. */
  function SummaryOf(events: seq<Json>): Option<Json>
    requires Scannable(events)
    decreases |events|
  {
    if events == [] then None
    else
      var e := events[|events| - 1];
      if IsAgentMessage(e) then TextOf(ItemOf(e)) else SummaryOf(events[..|events| - 1])
  }

  /** Events that are all dicts, with dict items on completed events, can always be scanned. */
  lemma {:induction false} WellFormedScannable(events: seq<Json>)
    requires forall i :: 0 <= i < |events| ==> events[i].JObj?
    requires forall i :: 0 <= i < |events| && HasType(events[i].fields, "item.completed") ==> ItemOf(events[i]).JObj?
    ensures Scannable(events)
    decreases |events|
  {
    if events != [] {
      var init := events[..|events| - 1];
      assert forall i :: 0 <= i < |init| ==> init[i] == events[i];
      WellFormedScannable(init);
    }
  }

  /**
   * The summary is the text of the LAST agent message, and `None` when that
   * message has no text, even if an earlier agent message has one.
   */
  lemma {:induction false} SummaryIsLastMessage(events: seq<Json>, i: nat)
    requires Scannable(events)
    requires i < |events| && IsAgentMessage(events[i])
    requires forall j :: i < j < |events| ==> !IsAgentMessage(events[j])
    ensures SummaryOf(events) == TextOf(ItemOf(events[i]))
    decreases |events|
  {
    if i < |events| - 1 {
      var init := events[..|events| - 1];
      assert init[i] == events[i];
      assert forall j :: i < j < |init| ==> init[j] == events[j];
      SummaryIsLastMessage(init, i);
    }
  }

  /** Without any agent message the summary is `None`. */
  lemma {:induction false} SummaryWithoutMessage(events: seq<Json>)
    requires Scannable(events)
    requires forall j :: 0 <= j < |events| ==> !IsAgentMessage(events[j])
    ensures SummaryOf(events) == None
    decreases |events|
  {
    if events != [] {
      var init := events[..|events| - 1];
      assert forall j :: 0 <= j < |init| ==> init[j] == events[j];
      SummaryWithoutMessage(init);
    }
  }

  /** _extract_summary: walks the events from the last and returns at the first agent message. */
  method ExtractSummary(events: seq<Json>) returns (summary: Option<Json>)
    requires Scannable(events)
    ensures summary == SummaryOf(events)
  {
    var i := |events|;
    assert events[..i] == events;
    while i > 0
      invariant 0 <= i <= |events|
      invariant Scannable(events[..i])
      invariant SummaryOf(events[..i]) == SummaryOf(events)
      decreases i
    {
      var event := events[i - 1];
      assert events[..i][..i - 1] == events[..i - 1];
      if HasType(event.fields, "item.completed") {
        var item := Get(event.fields, "item", EmptyObject);
        if HasType(item.fields, "agent_message") {
          return TextOf(item);
        }
      }
      i := i - 1;
    }
    return None;
  }

  // ---------------------------------------------------------------------
  // run_review
  // ---------------------------------------------------------------------

  /** What the finished `codex` process reports. */
  datatype Completed = Completed(returncode: int, stdout: string, stderr: string)

  /** The `events` and `summary` entries, present only for JSONL output. */
  datatype Parsed = Parsed(events: seq<Json>, summary: Option<Json>)

  /** The response dict of run_review. */
  datatype Response = Response(success: bool, output: string, error: Option<string>, parsed: Option<Parsed>)

  /**
   * The response run_review returns for a completed process: `success` iff
   * the return code is 0, `error` the standard error exactly when it is not,
   * `output` the standard output, and, exactly when the reviewer asks for
   * JSONL, the parsed events and their summary.
   */
  predicate ResponseOf(response: Response, reviewer: Reviewer, run: Completed, decode: string -> Option<Json>)
    requires reviewer.jsonOutput ==> Scannable(Events(run.stdout, decode))
  {
    (response.success <==> run.returncode == 0) &&
    response.error == (if run.returncode != 0 then Some(run.stderr) else None) &&
    response.output == run.stdout &&
    (response.parsed.Some? <==> reviewer.jsonOutput) &&
    (response.parsed.Some? ==>
       response.parsed.value.events == Events(run.stdout, decode) &&
       response.parsed.value.summary == SummaryOf(Events(run.stdout, decode)))
  }

  /**
   * run_review for a process that ran to completion: builds the command,
   * and turns the process result into the response, with the parsed events
   * and the summary when the reviewer asks for JSONL.
   */
  method RunReview(reviewer: Reviewer, prompt: string, run: Completed, decode: string -> Option<Json>,
                   sandbox: string := DefaultSandbox, effort: string := DefaultEffort)
    returns (cmd: seq<string>, response: Response)
    requires reviewer.jsonOutput ==> Scannable(Events(run.stdout, decode))
    ensures ReadCommand(cmd) == Some(CommandLine(reviewer.model, sandbox, effort, reviewer.jsonOutput, prompt))
    ensures ResponseOf(response, reviewer, run, decode)
    ensures response.success <==> response.error.None?
  {
    cmd := BuildCommand(reviewer, prompt, sandbox, effort);
    var output := run.stdout;
    response := Response(run.returncode == 0, output,
                         if run.returncode != 0 then Some(run.stderr) else None, None);
    if reviewer.jsonOutput {
      var events := ParseJsonl(output, decode);
      var summary := ExtractSummary(events);
      response := response.(parsed := Some(Parsed(events, summary)));
    }
  }

  // ---------------------------------------------------------------------
  // The predefined reviews
  // ---------------------------------------------------------------------

  /** A predefined review and what its prompt is built from. */
  datatype Review =
    | Security(target: string)
    | Performance(target: string)
    | Architecture(target: string, context: string)
    | Quality(target: string)
    | Diff(base: string, head: string)
    | Focused(target: string, areas: seq<string>)

  /** The reasoning effort each predefined review asks for. */
  function Effort(review: Review): (effort: string)
    ensures effort == "high" || effort == "medium"
    ensures effort == "high" <==> review.Security? || review.Architecture? || review.Diff?
  {
    match review
    case Security(_) => "high"
    case Performance(_) => "medium"
    case Architecture(_, _) => "high"
    case Quality(_) => "medium"
    case Diff(_, _) => "high"
    case Focused(_, _) => "medium"
  }

  /**
   * A predefined review: run_review on the review's prompt, in the default
   * read-only sandbox, at the review's effort. The prompt wording is the
   * parameter `render`.
   */
  method RunPredefined(reviewer: Reviewer, review: Review, render: Review -> string,
                       run: Completed, decode: string -> Option<Json>)
    returns (cmd: seq<string>, response: Response)
    requires reviewer.jsonOutput ==> Scannable(Events(run.stdout, decode))
    ensures ReadCommand(cmd) ==
            Some(CommandLine(reviewer.model, "read-only", Effort(review), reviewer.jsonOutput, render(review)))
    ensures ResponseOf(response, reviewer, run, decode)
  {
    cmd, response := RunReview(reviewer, render(review), run, decode, effort := Effort(review));
  }

  /** The numbered lines of focused_review: line k is `"{k+1}. "` followed by area k. */
  function NumberedLines(areas: seq<string>): seq<string> {
    seq(|areas|, k requires 0 <= k < |areas| => DecimalString(k + 1) + ". " + areas[k])
  }

  /** The focus-area block of focused_review: the numbered lines joined by newlines. */
  function FocusAreaBlock(areas: seq<string>): string {
    Join(NumberedLines(areas), '\n')
  }

  /**
   * The block has one line per area, line k reading `"{k+1}. "` and then
   * area k, and is empty when there are no areas (areas themselves without
   * newlines).
   */
  lemma FocusAreaLines(areas: seq<string>)
    requires forall k :: 0 <= k < |areas| ==> '\n' !in areas[k]
    ensures areas == [] ==> FocusAreaBlock(areas) == []
    ensures areas != [] ==>
              var lines := Split(FocusAreaBlock(areas), '\n');
              |lines| == |areas| &&
              forall k :: 0 <= k < |areas| ==> lines[k] == DecimalString(k + 1) + ". " + areas[k]
  {
    var lines := NumberedLines(areas);
    forall k | 0 <= k < |lines| ensures '\n' !in lines[k] {
      var digits := DecimalString(k + 1);
      assert lines[k] == digits + ". " + areas[k];
      assert '\n' !in digits by {
        forall j | 0 <= j < |digits| ensures digits[j] != '\n' {
          assert IsDigit(digits[j]);
        }
      }
    }
    if areas != [] {
      SplitJoin(lines, '\n');
    }
  }

  // ---------------------------------------------------------------------
  // main
  // ---------------------------------------------------------------------

  const ReviewTypes := {"security", "performance", "architecture", "quality", "diff"}

  /**
   * main's dispatch on `sys.argv`: the review type and target, and the
   * optional third argument as the architecture context (default empty) or
   * the diff base (default `main`, the target being the head).
   */
  function Dispatch(argv: seq<string>): (r: Option<Review>)
    ensures r.None? <==> |argv| < 3 || argv[1] !in ReviewTypes
    ensures r.Some? ==> Effort(r.value) == if argv[1] in {"security", "architecture", "diff"} then "high" else "medium"
    ensures r.Some? && argv[1] == "security" ==> r.value == Security(argv[2])
    ensures r.Some? && argv[1] == "performance" ==> r.value == Performance(argv[2])
    ensures r.Some? && argv[1] == "quality" ==> r.value == Quality(argv[2])
    ensures r.Some? && argv[1] == "architecture" ==>
              r.value == Architecture(argv[2], if |argv| > 3 then argv[3] else "")
    ensures r.Some? && argv[1] == "diff" ==>
              r.value == Diff(if |argv| > 3 then argv[3] else "main", argv[2])
  {
    if |argv| < 3 then None
    else
      var reviewType, target := argv[1], argv[2];
      var extra := if |argv| > 3 then Some(argv[3]) else None;
      if reviewType == "security" then Some(Security(target))
      else if reviewType == "performance" then Some(Performance(target))
      else if reviewType == "architecture" then Some(Architecture(target, extra.GetOr("")))
      else if reviewType == "quality" then Some(Quality(target))
      else if reviewType == "diff" then Some(Diff(extra.GetOr("main"), target))
      else None
  }

  /**
   * main: 1 on a usage error or an unknown review type; otherwise runs the
   * review with the default reviewer and returns 0 exactly when it succeeded.
   */
  method MainExitCode(argv: seq<string>, render: Review -> string, run: Completed, decode: string -> Option<Json>)
    returns (code: int)
    requires Dispatch(argv).Some? ==> Scannable(Events(run.stdout, decode))
    ensures code == 0 || code == 1
    ensures code == 0 <==> Dispatch(argv).Some? && run.returncode == 0
  {
    var review := Dispatch(argv);
    if review.None? {
      return 1;
    }
    var _, result := RunPredefined(DefaultReviewer, review.value, render, run, decode);
    code := if result.success then 0 else 1;
  }
}
