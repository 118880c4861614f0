/** The agent loop: model turns, tool calls, certified findings, and the one result. */
module AgentLoop {
  import opened Wrappers
  import ToolCalls

  type Claim(==, !new)      // columns mapped to verification roles, at least one
  type Evidence(==, !new)   // an estimate with its label, checks and data hash
  type Row(==, !new)
  type Chart(==, !new)

  datatype Usage = Usage(promptTokens: nat, completionTokens: nat, cacheRead: nat, cacheWrite: nat, cost: real)

  const NO_USAGE := Usage(0, 0, 0, 0, 0.0)

  function Plus(a: Usage, b: Usage): Usage {
    Usage(a.promptTokens + b.promptTokens, a.completionTokens + b.completionTokens,
          a.cacheRead + b.cacheRead, a.cacheWrite + b.cacheWrite, a.cost + b.cost)
  }

  datatype Finding = Finding(
    name: string, claim: Claim, evidence: Evidence, rows: seq<Row>, assumptions: seq<string>)

  datatype Verdict = Sound | Inconclusive | Grounded | Unverified

  datatype AnswerResult = AnswerResult(
    verified: bool,
    verdict: Verdict,
    narrative: string,
    evidence: Option<Evidence>,
    rows: seq<Row>,
    assumptions: seq<string>,
    derivations: seq<string>,
    steps: nat,
    viz: Option<Chart>,
    findings: seq<Finding>,
    usage: Usage)

  function Plain(verdict: Verdict, narrative: string, steps: nat): AnswerResult {
    AnswerResult(false, verdict, narrative, None, [], [], [], steps, None, [], NO_USAGE)
  }

  datatype DeriveOutcome = DeriveOutcome(
    error: Option<string>, certified: bool, evidence: Evidence, rows: seq<Row>, rendered: string)

  /** No error, or an empty one. */
  predicate Clean(outcome: DeriveOutcome) {
    outcome.error == None || outcome.error == Some("")
  }

  /** A tool call, with what its tool came back with. */
  datatype Call =
    | Answer(summary: string, chart: Option<Chart>)
    | Conclude(reason: string)
    | Derive(name: string, source: string, claim: Option<Claim>, assumptions: seq<string>, background: bool,
             outcome: DeriveOutcome)
    | RunCode(output: string)
    | OtherTool(tool: string, reply: string)

  /** One turn of the model. */
  datatype Turn = Turn(deltas: seq<string>, text: string, calls: seq<Call>, usage: Option<Usage>)

  datatype Event =
    | Delta(text: string)
    | Reasoning(text: string)
    | Tool(call: Call)
    | ToolResult(output: string)
    | Result(result: AnswerResult)

  /** The capabilities of a run: whether it can derive, in the background too, whether its client
      streams, which charts its columns allow, and how messages are worded. */
  datatype Workspace = Workspace(
    derives: bool,
    submits: bool,
    streams: bool,
    chartOk: (Chart, seq<Row>) -> bool,
    block: seq<Finding> -> string,
    message: (Call, seq<Finding>) -> string)

  function ChartOk(ws: Workspace, chart: Chart, rows: seq<Row>): bool {
    ws.chartOk(chart, rows)
  }

  function Block(ws: Workspace, findings: seq<Finding>): string {
    ws.block(findings)
  }

  function Message(ws: Workspace, call: Call, findings: seq<Finding>): string {
    ws.message(call, findings)
  }

  // ---- Findings ---------------------------------------------------------------------------------------

  /** A re-derived name replaces its finding where it stands; a new one goes last. */
  function Record(findings: seq<Finding>, f: Finding): seq<Finding> {
    if findings == [] then [f]
    else if findings[0].name == f.name then [f] + findings[1..]
    else [findings[0]] + Record(findings[1..], f)
  }

  function AllAssumptions(findings: seq<Finding>): seq<string> {
    if findings == [] then [] else findings[0].assumptions + AllAssumptions(findings[1..])
  }

  /** The first of each, in order. */
  function Once(xs: seq<string>): seq<string> {
    if xs == [] then [] else
    var front, last := Once(xs[..|xs| - 1]), xs[|xs| - 1];
    if last in front then front else front + [last]
  }

  function Names(findings: seq<Finding>): seq<string> {
    if findings == [] then [] else [findings[0].name] + Names(findings[1..])
  }

  /** `_aggregate`. */
  function Aggregate(findings: seq<Finding>): AnswerResult
    requires findings != []
  {
    AnswerResult(true, Sound, "", Some(findings[0].evidence), findings[0].rows, Once(AllAssumptions(findings)),
                 Names(findings), 0, None, findings, NO_USAGE)
  }

  // ---- One call ----------------------------------------------------------------------------------------

  datatype RunView = RunView(executed: bool, verified: Option<AnswerResult>, findings: seq<Finding>, usage: Usage)

  function FindingOf(call: Call): Finding
    requires call.Derive? && call.claim.Some?
  {
    Finding(ToolCalls.Trim(call.name), call.claim.value, call.outcome.evidence, call.outcome.rows, call.assumptions)
  }

  /** The finding a derive certifies: it ran here, its conclusion was declared, and it passed. */
  function Certified(ws: Workspace, call: Call): Option<Finding> {
    if call.Derive? && ws.derives && ToolCalls.Trim(call.name) != "" && call.source != ""
       && !(call.background && ws.submits) && Clean(call.outcome) && call.outcome.certified && call.claim.Some?
    then Some(FindingOf(call))
    else None
  }

  function Found(v: RunView, f: Finding): RunView {
    var findings := Record(v.findings, f);
    if findings == [] then v else v.(findings := findings, verified := Some(Aggregate(findings)))
  }

  /** What `answer` builds on. */
  function Base(v: RunView): AnswerResult {
    if v.verified.Some? then v.verified.value
    else if v.findings != [] then Aggregate(v.findings)
    else Plain(if v.executed then Grounded else Unverified, "", 0)
  }

  function Narrative(ws: Workspace, v: RunView, summary: string): string {
    if v.findings == [] then summary
    else if ToolCalls.Trim(summary) == "" then Block(ws, v.findings)
    else ToolCalls.TrimRight(summary) + "\n\n" + Block(ws, v.findings)
  }

  /** A chart that does not fit the certified columns sends the answer back. */
  predicate ChartRefused(ws: Workspace, v: RunView, chart: Option<Chart>) {
    chart.Some? && Base(v).rows != [] && !ChartOk(ws, chart.value, Base(v).rows)
  }

  function Answered(ws: Workspace, v: RunView, summary: string, chart: Option<Chart>, step: nat): AnswerResult {
    Base(v).(narrative := Narrative(ws, v, summary), steps := step,
             viz := if chart.Some? && Base(v).rows != [] then chart else None)
  }

  /** The result a call ends the run with. */
  function Terminal(ws: Workspace, v: RunView, call: Call, step: nat): Option<AnswerResult> {
    match call
    case Answer(summary, chart) =>
      if ChartRefused(ws, v, chart) then None else Some(Answered(ws, v, summary, chart, step))
    case Conclude(reason) => Some(Plain(Inconclusive, reason, step))
    case _ => None
  }

  function Output(ws: Workspace, v: RunView, call: Call): string {
    match call
    case Answer(_, chart) => if ChartRefused(ws, v, chart) then Message(ws, call, v.findings) else ""
    case Conclude(_) => ""
    case Derive(_, _, _, _, _, _) => Message(ws, call, v.findings)
    case RunCode(output) => output
    case OtherTool(_, reply) => reply
  }

  function After(ws: Workspace, v: RunView, call: Call): RunView {
    match Certified(ws, call)
    case Some(f) => Found(v, f)
    case None => v
  }

  /** Run code grounds an answer unless its output reports an error. */
  predicate Grounds(call: Call) {
    call.RunCode? && !("error" <= call.output)
  }

  function Ground(v: RunView, call: Call): RunView {
    if Grounds(call) then v.(executed := true) else v
  }

  class RunState {
    var executed: bool
    var verified: Option<AnswerResult>
    var findings: seq<Finding>
    var usage: Usage

    function View(): RunView
      reads this
    {
      RunView(executed, verified, findings, usage)
    }

    constructor (seed: Option<AnswerResult>)
      ensures View() == RunView(false, seed, [], NO_USAGE)
    {
      executed, verified, findings, usage := false, seed, [], NO_USAGE;
    }

    method Spend(turn: Turn)
      modifies this`usage
      ensures View() == Spent(old(View()), turn)
    {
      if turn.usage.Some? {
        usage := Plus(usage, turn.usage.value);
      }
    }

    /** `_run_derive`. Only a certified conclusion touches the state. */
    method RunDerive(ws: Workspace, call: Call) returns (output: string)
      requires call.Derive?
      modifies this`findings, this`verified
      ensures View() == After(ws, old(View()), call) && output == Message(ws, call, old(findings))
    {
      output := Message(ws, call, findings);
      if !ws.derives || ToolCalls.Trim(call.name) == "" || call.source == "" || (call.background && ws.submits) {
        return;
      }
      if !Clean(call.outcome) || !call.outcome.certified || call.claim.None? {
        return;
      }
      findings := Record(findings, FindingOf(call));
      verified := Some(Aggregate(findings));
    }

    /** `_dispatch`. */
    method Dispatch(ws: Workspace, call: Call, step: nat) returns (output: string, terminal: Option<AnswerResult>)
      modifies this`findings, this`verified
      ensures output == Output(ws, old(View()), call) && terminal == Terminal(ws, old(View()), call, step)
      ensures View() == After(ws, old(View()), call)
    {
      terminal := None;
      match call
      case Answer(summary, chart) =>
        var base := if verified.Some? then verified.value
                    else if findings != [] then Aggregate(findings)
                    else Plain(if executed then Grounded else Unverified, "", 0);
        var viz: Option<Chart> := None;
        if chart.Some? && base.rows != [] {
          if !ChartOk(ws, chart.value, base.rows) {
            return Message(ws, call, findings), None;
          }
          viz := chart;
        }
        return "", Some(base.(narrative := Narrative(ws, View(), summary), steps := step, viz := viz));
      case Conclude(reason) => return "", Some(Plain(Inconclusive, reason, step));
      case Derive(_, _, _, _, _, _) => output := RunDerive(ws, call);
      case RunCode(text) => output := text;
      case OtherTool(_, reply) => output := reply;
    }
  }

  // ---- A whole run ---------------------------------------------------------------------------------------

  function Spent(v: RunView, turn: Turn): RunView {
    if turn.usage.Some? then v.(usage := Plus(v.usage, turn.usage.value)) else v
  }

  datatype Ran = Ran(events: seq<Event>, terminal: Option<AnswerResult>, view: RunView)

  /** The events of one call; the closing turn's are not followed by their outputs. */
  function CallEvents(ws: Workspace, v: RunView, call: Call, closing: bool): seq<Event> {
    [Tool(call)] + if closing || Output(ws, v, call) == "" then [] else [ToolResult(Output(ws, v, call))]
  }

  function AfterCall(ws: Workspace, v: RunView, call: Call, closing: bool): RunView {
    if closing then After(ws, v, call) else Ground(After(ws, v, call), call)
  }

  /** A turn's calls, up to one that ends the run. */
  function RunCalls(ws: Workspace, calls: seq<Call>, step: nat, v: RunView, closing: bool): Ran
    decreases |calls|
  {
    if calls == [] then Ran([], None, v) else
    var events, after := CallEvents(ws, v, calls[0], closing), AfterCall(ws, v, calls[0], closing);
    var terminal := Terminal(ws, v, calls[0], step);
    if terminal.Some? then Ran(events, terminal, after) else
    var rest := RunCalls(ws, calls[1..], step, after, closing);
    Ran(events + rest.events, rest.terminal, rest.view)
  }

  /** The model's words as they come. */
  function Deltas(deltas: seq<string>): seq<Event> {
    if deltas == [] then [] else [Delta(deltas[0])] + Deltas(deltas[1..])
  }

  function Words(ws: Workspace, turn: Turn): seq<Event> {
    if ws.streams then Deltas(turn.deltas)
    else if turn.text != "" && turn.calls != [] then [Reasoning(turn.text)] else []
  }

  /** `_finalize`. */
  function Finalize(v: RunView, text: string, step: nat): AnswerResult {
    if v.verified.Some? then v.verified.value.(narrative := text, steps := step) else Plain(Unverified, text, step)
  }

  function RunTurn(ws: Workspace, turn: Turn, step: nat, v: RunView): Ran {
    var spent := Spent(v, turn);
    if turn.calls == [] then Ran(Words(ws, turn), Some(Finalize(spent, turn.text, step)), spent) else
    var ran := RunCalls(ws, turn.calls, step, spent, false);
    Ran(Words(ws, turn) + ran.events, ran.terminal, ran.view)
  }

  /** The turns within the step budget. */
  function RunTurns(ws: Workspace, turns: seq<Turn>, step: nat, v: RunView): Ran
    decreases |turns|
  {
    if turns == [] then Ran([], None, v) else
    var first := RunTurn(ws, turns[0], step, v);
    if first.terminal.Some? then first else
    var rest := RunTurns(ws, turns[1..], step + 1, first.view);
    Ran(first.events + rest.events, rest.terminal, rest.view)
  }

  function GaveUp(v: RunView, closing: Turn, steps: nat): AnswerResult {
    Plain(if v.executed then Grounded else Unverified,
          if closing.text != "" then closing.text else "Reached the step budget without a verified answer.", steps)
  }

  /** The last turn, when the budget is spent with nothing verified. */
  function RunClosing(ws: Workspace, closing: Turn, steps: nat, v: RunView): Ran {
    var ran := RunCalls(ws, closing.calls, steps, Spent(v, closing), true);
    if ran.terminal.Some? then ran else ran.(terminal := Some(GaveUp(ran.view, closing, steps)))
  }

  /** A run of the loop against every way its model and tools can behave. */
  function Run(ws: Workspace, turns: seq<Turn>, closing: Turn, seed: Option<AnswerResult>): Ran {
    var main := RunTurns(ws, turns, 1, RunView(false, seed, [], NO_USAGE));
    if main.terminal.Some? then main
    else if main.view.verified.Some? then main.(terminal := main.view.verified)
    else
      var last := RunClosing(ws, closing, |turns|, main.view);
      Ran(main.events + last.events, last.terminal, last.view)
  }

  /** The events of a run: the result, with the usage of every turn, comes last. */
  function Events(ws: Workspace, turns: seq<Turn>, closing: Turn, seed: Option<AnswerResult>): seq<Event> {
    var ran := Run(ws, turns, closing, seed);
    if ran.terminal.Some? then ran.events + [Result(ran.terminal.value.(usage := ran.view.usage))] else ran.events
  }

  method DoCall(ws: Workspace, call: Call, step: nat, state: RunState, closing: bool)
    returns (events: seq<Event>, terminal: Option<AnswerResult>)
    modifies state
    ensures events == CallEvents(ws, old(state.View()), call, closing)
    ensures terminal == Terminal(ws, old(state.View()), call, step)
    ensures state.View() == AfterCall(ws, old(state.View()), call, closing)
  {
    events := [Tool(call)];
    var output;
    output, terminal := state.Dispatch(ws, call, step);
    if closing {
      return;
    }
    if call.RunCode? && !("error" <= output) {
      state.executed := true;
    }
    if output != "" {
      events := events + [ToolResult(output)];
    }
  }

  method DoCalls(ws: Workspace, calls: seq<Call>, step: nat, state: RunState, closing: bool)
    returns (events: seq<Event>, terminal: Option<AnswerResult>)
    modifies state
    ensures Ran(events, terminal, state.View()) == RunCalls(ws, calls, step, old(state.View()), closing)
  {
    events, terminal := [], None;
    ghost var whole := RunCalls(ws, calls, step, state.View(), closing);
    var todo := calls;
    while todo != []
      invariant terminal == None
      invariant var rest := RunCalls(ws, todo, step, state.View(), closing);
                whole == Ran(events + rest.events, rest.terminal, rest.view)
    {
      ghost var was := events;
      var more;
      more, terminal := DoCall(ws, todo[0], step, state, closing);
      events := events + more;
      if terminal.Some? {
        return;
      }
      todo := todo[1..];
      ghost var later := RunCalls(ws, todo, step, state.View(), closing);
      assert was + (more + later.events) == was + more + later.events;
    }
    assert events + [] == events;
  }

  /** One turn within the budget. */
  method DoTurn(ws: Workspace, turn: Turn, step: nat, state: RunState)
    returns (events: seq<Event>, terminal: Option<AnswerResult>)
    modifies state
    ensures Ran(events, terminal, state.View()) == RunTurn(ws, turn, step, old(state.View()))
  {
    state.Spend(turn);
    events := Words(ws, turn);
    if turn.calls == [] {
      terminal := Some(if state.verified.Some? then state.verified.value.(narrative := turn.text, steps := step)
                       else Plain(Unverified, turn.text, step));
      return;
    }
    var more;
    more, terminal := DoCalls(ws, turn.calls, step, state, false);
    events := events + more;
  }

  /** `stream`. */
  method Stream(ws: Workspace, turns: seq<Turn>, closing: Turn, seed: Option<AnswerResult>)
    returns (events: seq<Event>)
    ensures events == Events(ws, turns, closing, seed)
  {
    var state := new RunState(seed);
    var terminal;
    events, terminal := DoTurns(ws, turns, state);
    if terminal.Some? {
      return events + [Result(terminal.value.(usage := state.usage))];
    }
    if state.verified.Some? {
      return events + [Result(state.verified.value.(usage := state.usage))];
    }
    var more, final := DoClosing(ws, closing, |turns|, state);
    return events + more + [Result(final.(usage := state.usage))];
  }

  /** The turns within the budget, up to one that ends the run. */
  method DoTurns(ws: Workspace, turns: seq<Turn>, state: RunState)
    returns (events: seq<Event>, terminal: Option<AnswerResult>)
    modifies state
    ensures Ran(events, terminal, state.View()) == RunTurns(ws, turns, 1, old(state.View()))
  {
    events, terminal := [], None;
    var todo, step := turns, 1;
    ghost var main := RunTurns(ws, turns, 1, state.View());
    while todo != []
      invariant terminal == None && step == |turns| - |todo| + 1
      invariant var rest := RunTurns(ws, todo, step, state.View());
                main == Ran(events + rest.events, rest.terminal, rest.view)
    {
      ghost var was := events;
      var more;
      more, terminal := DoTurn(ws, todo[0], step, state);
      events := events + more;
      if terminal.Some? {
        return;
      }
      todo, step := todo[1..], step + 1;
      ghost var later := RunTurns(ws, todo, step, state.View());
      assert was + (more + later.events) == was + more + later.events;
    }
    assert events + [] == events;
  }

  method DoClosing(ws: Workspace, closing: Turn, steps: nat, state: RunState)
    returns (events: seq<Event>, final: AnswerResult)
    modifies state
    ensures Ran(events, Some(final), state.View()) == RunClosing(ws, closing, steps, old(state.View()))
  {
    state.Spend(closing);
    var terminal;
    events, terminal := DoCalls(ws, closing.calls, steps, state, true);
    final := if terminal.Some? then terminal.value else GaveUp(state.View(), closing, steps);
  }
}
