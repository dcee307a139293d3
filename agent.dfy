/**
 * The deterministic parts of the return agent: the result dictionary `run`
 * builds from the executor's answer (or from the exception it raised), the
 * list of tools used, and the text `format_response` shows the customer.
 * The language model, the retriever and the executor are not modelled: the
 * executor's answer arrives as an `ExecOutcome`.
 */
module Agent {
  import opened PyValues

  /** `step[0]` of an intermediate step: a tool call, or anything else. */
  datatype Action = AgentAction(tool: string, toolInput: Json, log: string) | OtherAction

  /** One `(action, observation)` pair of `intermediate_steps`. */
  datatype Step = Step(action: Action, observation: Json)

  /** The dictionary `run` returns. */
  datatype RunResult = RunResult(success: bool, response: string, error: Option<string>,
                                 intermediateSteps: seq<Step>, usedTools: seq<string>)

  /** What `agent_executor.invoke` did: answered with a result dictionary
      (its `output`, absent or present, and its steps), or raised an
      exception whose `str` is `message`. */
  datatype ExecOutcome = Completed(output: Option<string>, steps: seq<Step>) | Failed(message: string)

  const ErrorPrefix: string := "Disculpa, encontré un error procesando tu solicitud: "

  // ---------------------------------------------------------------------
  // used_tools

  /** The tool names of the steps whose action is an `AgentAction`, in step
      order. */
  function UsedTools(steps: seq<Step>): (r: seq<string>)
    ensures |r| <= |steps|
  {
    if |steps| == 0 then []
    else
      (if steps[0].action.AgentAction? then [steps[0].action.tool] else [])
      + UsedTools(steps[1..])
  }

  /** Listing the tools of two runs of steps lists the first run's, then the
      second's: the list keeps step order. */
  lemma {:induction false} UsedToolsAppend(a: seq<Step>, b: seq<Step>)
    ensures UsedTools(a + b) == UsedTools(a) + UsedTools(b)
  {
    if |a| > 0 {
      assert (a + b)[1..] == a[1..] + b;
      UsedToolsAppend(a[1..], b);
    } else {
      assert a + b == b;
    }
  }

  /** A name is listed exactly when some step is a tool call with that name. */
  lemma {:induction false} UsedToolsMembers(steps: seq<Step>, name: string)
    ensures name in UsedTools(steps) <==>
              exists k :: 0 <= k < |steps| && steps[k].action.AgentAction? && steps[k].action.tool == name
  {
    if |steps| > 0 {
      UsedToolsMembers(steps[1..], name);
      if name in UsedTools(steps[1..]) {
        var k :| 0 <= k < |steps[1..]| && steps[1..][k].action.AgentAction? && steps[1..][k].action.tool == name;
        assert steps[k + 1] == steps[1..][k];
      }
      if exists k :: 0 <= k < |steps| && steps[k].action.AgentAction? && steps[k].action.tool == name {
        var k :| 0 <= k < |steps| && steps[k].action.AgentAction? && steps[k].action.tool == name;
        if k > 0 {
          assert steps[1..][k - 1] == steps[k];
        }
      }
    }
  }

  /** No tool is listed exactly when no step is a tool call. */
  lemma {:induction false} UsedToolsNone(steps: seq<Step>)
    ensures UsedTools(steps) == [] <==> forall k :: 0 <= k < |steps| ==> !steps[k].action.AgentAction?
  {
    if |steps| > 0 {
      UsedToolsNone(steps[1..]);
      if forall k :: 0 <= k < |steps[1..]| ==> !steps[1..][k].action.AgentAction? {
        forall k | 1 <= k < |steps|
          ensures !steps[k].action.AgentAction?
        {
          assert steps[k] == steps[1..][k - 1];
        }
      }
    }
  }

  // ---------------------------------------------------------------------
  // run

  /** The result of `run`: on an answer, success with the executor's output
      ("" when absent), its steps and the tools they used; on an exception,
      failure with an apology carrying the message, no steps and no tools. */
  function Run(exec: ExecOutcome): RunResult {
    match exec
    case Completed(output, steps) =>
      RunResult(true, if output.Some? then output.value else "", None, steps, UsedTools(steps))
    case Failed(message) =>
      RunResult(false, ErrorPrefix + message, Some(message), [], [])
  }

  /** `run` succeeds exactly when the executor answered; a failed run uses no
      tool, keeps no step, records the message as its error and tells the
      customer about it after the fixed apology. */
  lemma RunOutcomes(exec: ExecOutcome)
    ensures Run(exec).success <==> exec.Completed?
    ensures Run(exec).success ==> Run(exec).error.None? && Run(exec).intermediateSteps == exec.steps
    ensures Run(exec).success ==> (exec.output.Some? ==> Run(exec).response == exec.output.value)
                                  && (exec.output.None? ==> Run(exec).response == "")
    ensures forall name :: name in Run(exec).usedTools <==>
              exec.Completed? && exists k :: 0 <= k < |exec.steps| && exec.steps[k].action.AgentAction?
                                             && exec.steps[k].action.tool == name
    ensures !Run(exec).success ==>
              && Run(exec).usedTools == [] && Run(exec).intermediateSteps == []
              && Run(exec).error == Some(exec.message)
              && Run(exec).response[..|ErrorPrefix|] == ErrorPrefix
              && Run(exec).response[|ErrorPrefix|..] == exec.message
  {
    if exec.Completed? {
      forall name {
        UsedToolsMembers(exec.steps, name);
      }
    }
  }

  /** The keys of the result dictionary that `format_response` reads. The
      steps themselves are objects of the agent library, not values, and
      `format_response` never reads them. */
  function AsDict(r: RunResult): seq<(string, Json)> {
    [("success", JBool(r.success)), ("response", JStr(r.response))]
    + (if r.error.Some? then [("error", JStr(r.error.value))] else [])
    + [("used_tools", JList(JStrs(r.usedTools)))]
  }

  // ---------------------------------------------------------------------
  // format_response

  const ApologyHeader: string := "❌ **Disculpa, hubo un problema**\n\n"
  const SupportFooter: string := "\n\nPor favor, intenta de nuevo o contacta a nuestro equipo de soporte."
  const BadgePrefix: string := "\n\n---\n🔧 *Acciones realizadas: "
  const BadgeSuffix: string := "*"

  /** `", ".join(names)` */
  function Join(names: seq<string>): string {
    if |names| == 0 then ""
    else if |names| == 1 then names[0]
    else names[0] + ", " + Join(names[1..])
  }

  /** Joining two non-empty lists puts one separator between their joins. */
  lemma {:induction false} JoinAppend(xs: seq<string>, ys: seq<string>)
    requires |xs| > 0 && |ys| > 0
    ensures Join(xs + ys) == Join(xs) + ", " + Join(ys)
  {
    if |xs| == 1 {
      assert (xs + ys)[1..] == ys;
    } else {
      assert (xs + ys)[1..] == xs[1..] + ys;
      JoinAppend(xs[1..], ys);
    }
  }

  /** The join of the names appended one at a time: the last name follows
      the join of the others after one separator. */
  lemma JoinLast(xs: seq<string>, x: string)
    requires |xs| > 0
    ensures Join(xs + [x]) == Join(xs) + ", " + x
  {
    JoinAppend(xs, [x]);
  }

  /** The characters of a string as the elements `list += str` appends. */
  function Chars(s: string): (r: seq<Json>)
    ensures |r| == |s| && forall k :: 0 <= k < |s| ==> r[k] == JStr([s[k]])
  {
    seq(|s|, k requires 0 <= k < |s| => JStr([s[k]]))
  }

  /** The names of a list of strings, as Python lists of `str` hold them. */
  function JStrs(names: seq<string>): (r: seq<Json>)
    ensures |r| == |names| && forall k :: 0 <= k < |names| ==> r[k] == JStr(names[k])
  {
    seq(|names|, k requires 0 <= k < |names| => JStr(names[k]))
  }

  /** The badge for the tools: `"\n\n---\n🔧 *Acciones realizadas: "`, the
      `", ".join(used_tools)`, then `"*"`. Joining a value that is not
      iterable, or an element that is not a string, raises `TypeError`. */
  function Badge(used: Json): (r: Outcome<string>)
    ensures used.JList? && (forall k :: 0 <= k < |used.items| ==> used.items[k].JStr?) ==> r.Returned?
  {
    var items :- Iterate(used);
    if exists k :: 0 <= k < |items| && !items[k].JStr? then Raised(TypeError)
    else Returned(BadgePrefix + Join(seq(|items|, k requires 0 <= k < |items| => items[k].s)) + BadgeSuffix)
  }

  /** The badge of a list of tool names lists them in order. */
  lemma BadgeOfNames(names: seq<string>)
    ensures Badge(JList(JStrs(names))) == Returned(BadgePrefix + Join(names) + BadgeSuffix)
  {
    var items := JStrs(names);
    assert seq(|items|, k requires 0 <= k < |items| => items[k].s) == names;
  }

  /** `response += badge`: a string grows by the badge, a list by the
      badge's characters; anything else raises `TypeError`. */
  function AddBadge(response: Json, badge: string): (r: Outcome<Json>)
    ensures r.Returned? <==> response.JStr? || response.JList?
    ensures r.Returned? ==> (r.value.JStr? <==> response.JStr?) && (r.value.JList? <==> response.JList?)
    ensures response.JStr? ==> |r.value.s| == |response.s| + |badge| && r.value.s[..|response.s|] == response.s && r.value.s[|response.s|..] == badge
    ensures response.JList? ==>
              && |r.value.items| == |response.items| + |badge|
              && r.value.items[..|response.items|] == response.items
              && forall k :: 0 <= k < |badge| ==> r.value.items[|response.items| + k] == JStr([badge[k]])
  {
    match response
    case JStr(s) => Returned(JStr(s + badge))
    case JList(xs) => Returned(JList(xs + Chars(badge)))
    case _ => Raised(TypeError)
  }

  /** The text shown for a failed result: the apology header, then
      `str(response)`, then the support footer. */
  function Apology(response: Json): string {
    ApologyHeader + PyStr(response) + SupportFooter
  }

  /** `format_response(result)`, reading the dictionary's entries. A falsy
      or missing `success` gives the apology around `str(response)`;
      otherwise a truthy `used_tools` adds the badge listing them. */
  function FormatResponse(result: seq<(string, Json)>): Outcome<Json> {
    var response := GetOr(result, "response", JStr(""));
    if !Truthy(GetOr(result, "success", JBool(false))) then
      Returned(JStr(Apology(response)))
    else
      var used := GetOr(result, "used_tools", JList([]));
      if !Truthy(used) then Returned(response)
      else
        var badge :- Badge(used);
        AddBadge(response, badge)
  }

  /** A failed or unmarked result is shown as the fixed apology header, the
      response, and the fixed support footer, whatever else it holds. */
  lemma FailureApologises(result: seq<(string, Json)>)
    requires !Truthy(GetOr(result, "success", JBool(false)))
    ensures var r := FormatResponse(result);
            var text := PyStr(GetOr(result, "response", JStr("")));
            && r.Returned? && r.value.JStr?
            && |r.value.s| == |ApologyHeader| + |text| + |SupportFooter|
            && r.value.s[..|ApologyHeader|] == ApologyHeader
            && r.value.s[|ApologyHeader|..|ApologyHeader| + |text|] == text
            && r.value.s[|ApologyHeader| + |text|..] == SupportFooter
  {
    var text := PyStr(GetOr(result, "response", JStr("")));
    var s := Apology(GetOr(result, "response", JStr("")));
    assert s[..|ApologyHeader|] == ApologyHeader;
    assert s[|ApologyHeader|..|ApologyHeader| + |text|] == text;
    assert s[|ApologyHeader| + |text|..] == SupportFooter;
  }

  /** A result with no `success` key is a failure. */
  lemma MissingSuccessFails(result: seq<(string, Json)>)
    requires Find(result, "success").None?
    ensures FormatResponse(result).Returned?
    ensures FormatResponse(result).value.JStr?
    ensures FormatResponse(result).value.s[..|ApologyHeader|] == ApologyHeader
  {
    FailureApologises(result);
  }

  /** A success that used no tool shows the response unchanged. */
  lemma NoToolsUnchanged(result: seq<(string, Json)>)
    requires Truthy(GetOr(result, "success", JBool(false)))
    requires !Truthy(GetOr(result, "used_tools", JList([])))
    ensures FormatResponse(result) == Returned(GetOr(result, "response", JStr("")))
  {
  }

  /** A success that used tools shows the response followed by the badge,
      which names every tool in order between ", " separators. */
  lemma ToolsBadge(result: seq<(string, Json)>, s: string, names: seq<string>)
    requires Truthy(GetOr(result, "success", JBool(false)))
    requires GetOr(result, "response", JStr("")) == JStr(s)
    requires |names| > 0
    requires GetOr(result, "used_tools", JList([])) == JList(JStrs(names))
    ensures FormatResponse(result) == Returned(JStr(s + BadgePrefix + Join(names) + BadgeSuffix))
    ensures var out := FormatResponse(result).value.s;
            out[..|s|] == s && out[|out| - |BadgeSuffix|..] == BadgeSuffix
  {
    var used := JList(JStrs(names));
    BadgeOfNames(names);
    var badge := BadgePrefix + Join(names) + BadgeSuffix;
    assert Truthy(used);
    Regroup(s, BadgePrefix, Join(names), BadgeSuffix);
    assert FormatResponse(result) == AddBadge(JStr(s), badge);
    var out := s + badge;
    assert out[..|s|] == s;
  }

  lemma Regroup(a: string, b: string, c: string, d: string)
    ensures a + (b + c + d) == a + b + c + d
  {
  }

  /** The entries `format_response` reads from a result of `run`. */
  lemma AsDictReads(r: RunResult)
    ensures GetOr(AsDict(r), "success", JBool(false)) == JBool(r.success)
    ensures GetOr(AsDict(r), "response", JStr("")) == JStr(r.response)
    ensures GetOr(AsDict(r), "used_tools", JList([])) == JList(JStrs(r.usedTools))
  {
    var d := AsDict(r);
    var tools := ("used_tools", JList(JStrs(r.usedTools)));
    assert d[0].0 == "success" && d[1].0 == "response" && d[|d| - 1] == tools;
    assert Find(d, "response") == Find(d[1..], "response");
    assert Find(d, "used_tools") == Find(d[1..], "used_tools") == Find(d[2..], "used_tools");
    if r.error.Some? {
      assert d[2..] == [("error", JStr(r.error.value)), tools];
      assert Find(d[2..], "used_tools") == Find([tools], "used_tools");
    } else {
      assert d[2..] == [tools];
    }
  }

  // ---------------------------------------------------------------------
  // run, then format_response

  /** What the customer sees after `run`: after an exception, the apology
      around the error message; after an answer with no tool call, the
      answer itself; otherwise the answer and the badge of the tools the
      steps called, in step order. */
  lemma ShownAfterRun(exec: ExecOutcome)
    ensures exec.Failed? ==>
              FormatResponse(AsDict(Run(exec))) == Returned(JStr(ApologyHeader + ErrorPrefix + exec.message + SupportFooter))
    ensures exec.Completed? && UsedTools(exec.steps) == [] ==>
              FormatResponse(AsDict(Run(exec))) == Returned(JStr(Run(exec).response))
    ensures exec.Completed? && UsedTools(exec.steps) != [] ==>
              FormatResponse(AsDict(Run(exec))) ==
                Returned(JStr(Run(exec).response + BadgePrefix + Join(UsedTools(exec.steps)) + BadgeSuffix))
  {
    var d := AsDict(Run(exec));
    AsDictReads(Run(exec));
    if exec.Failed? {
      assert Apology(JStr(Run(exec).response)) == ApologyHeader + (ErrorPrefix + exec.message) + SupportFooter;
      assert ApologyHeader + (ErrorPrefix + exec.message) + SupportFooter
          == ApologyHeader + ErrorPrefix + exec.message + SupportFooter;
    }
    if exec.Completed? && UsedTools(exec.steps) != [] {
      ToolsBadge(d, Run(exec).response, UsedTools(exec.steps));
    }
  }
}
