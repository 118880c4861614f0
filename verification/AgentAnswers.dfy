/** What a run says: its events one by one, and its result, from the turns and calls alone. */
module AgentAnswers {
  import opened Wrappers
  import opened AgentLoop
  import opened AgentRuns
  import ToolCalls

  // ---- What calls certify and run ---------------------------------------------------------------------

  /** A derivation run here, under a name and from a source, that passed with a claim. */
  predicate Passes(ws: Workspace, call: Call) {
    && call.Derive? && ws.derives && ToolCalls.Trim(call.name) != "" && call.source != ""
    && (call.background ==> !ws.submits)
    && (call.outcome.error == None || call.outcome.error == Some("")) && call.outcome.certified && call.claim.Some?
  }

  function FoundBy(call: Call): Finding
    requires call.Derive? && call.claim.Some?
  {
    Finding(ToolCalls.Trim(call.name), call.claim.value, call.outcome.evidence, call.outcome.rows, call.assumptions)
  }

  function Certifying(ws: Workspace, calls: seq<Call>): seq<Finding> {
    if calls == [] then []
    else (if Passes(ws, calls[0]) then [FoundBy(calls[0])] else []) + Certifying(ws, calls[1..])
  }

  /** Some code ran without reporting an error. */
  predicate Coded(calls: seq<Call>) {
    exists call :: call in calls && call.RunCode? && !("error" <= call.output)
  }

  lemma CertifiedIs(ws: Workspace, call: Call)
    ensures CertifiedBy(ws, Tool(call)) == Certifying(ws, [call])
    ensures Certified(ws, call) == if Passes(ws, call) then Some(FoundBy(call)) else None
  {
  }

  lemma {:induction false} CertifyingConcat(ws: Workspace, a: seq<Call>, b: seq<Call>)
    ensures Certifying(ws, a + b) == Certifying(ws, a) + Certifying(ws, b)
  {
    if a == [] {
      assert a + b == b;
    } else {
      assert (a + b)[1..] == a[1..] + b;
      CertifyingConcat(ws, a[1..], b);
    }
  }

  lemma CodedConcat(a: seq<Call>, b: seq<Call>)
    ensures Coded(a + b) <==> Coded(a) || Coded(b)
  {
  }

  // ---- What ends a run ----------------------------------------------------------------------------------

  /** The rows a chart is drawn over. */
  function ChartRows(seed: Option<AnswerResult>, certs: seq<Finding>): seq<Row> {
    if Latest(certs) != [] then Latest(certs)[0].rows else if seed.Some? then seed.value.rows else []
  }

  predicate Stops(ws: Workspace, seed: Option<AnswerResult>, certs: seq<Finding>, call: Call) {
    match call
    case Conclude(_) => true
    case Answer(_, chart) =>
      chart.None? || ChartRows(seed, certs) == [] || ChartOk(ws, chart.value, ChartRows(seed, certs))
    case _ => false
  }

  predicate Passing(ws: Workspace, seed: Option<AnswerResult>, certs: seq<Finding>, calls: seq<Call>)
    decreases |calls|
  {
    calls == [] || (!Stops(ws, seed, certs, calls[0])
                    && Passing(ws, seed, certs + Certifying(ws, [calls[0]]), calls[1..]))
  }

  /** Every turn calls tools, and no call ends the run. */
  predicate PassingTurns(ws: Workspace, seed: Option<AnswerResult>, certs: seq<Finding>, turns: seq<Turn>)
    decreases |turns|
  {
    turns == [] || (turns[0].calls != [] && Passing(ws, seed, certs, turns[0].calls)
                    && PassingTurns(ws, seed, certs + Certifying(ws, turns[0].calls), turns[1..]))
  }

  function CallsOf(turns: seq<Turn>): seq<Call> {
    if turns == [] then [] else turns[0].calls + CallsOf(turns[1..])
  }

  // ---- What is shown ------------------------------------------------------------------------------------

  /** What a tool answers; a derivation, or a refused answer, a message worded over the findings. */
  function Reply(ws: Workspace, certs: seq<Finding>, call: Call): string {
    match call
    case RunCode(output) => output
    case OtherTool(_, reply) => reply
    case Conclude(_) => ""
    case _ => ws.message(call, Latest(certs))
  }

  /** Each call, and after it what the tool answered, if anything. */
  function Shown(ws: Workspace, certs: seq<Finding>, calls: seq<Call>): seq<Event>
    decreases |calls|
  {
    if calls == [] then [] else
    var reply := Reply(ws, certs, calls[0]);
    [Tool(calls[0])] + (if reply == "" then [] else [ToolResult(reply)])
    + Shown(ws, certs + Certifying(ws, [calls[0]]), calls[1..])
  }

  function Said(ws: Workspace, turn: Turn): seq<Event> {
    if ws.streams then seq(|turn.deltas|, i requires 0 <= i < |turn.deltas| => Delta(turn.deltas[i]))
    else if turn.text == "" || turn.calls == [] then [] else [Reasoning(turn.text)]
  }

  function ShownTurns(ws: Workspace, certs: seq<Finding>, turns: seq<Turn>): seq<Event>
    decreases |turns|
  {
    if turns == [] then [] else
    Said(ws, turns[0]) + Shown(ws, certs, turns[0].calls)
    + ShownTurns(ws, certs + Certifying(ws, turns[0].calls), turns[1..])
  }

  // ---- What a result rests on -----------------------------------------------------------------------------

  /** All of `ys`, once each, in the order they first come in `xs`. */
  ghost predicate OnceEach(xs: seq<string>, ys: seq<string>) {
    && (forall x :: x in xs <==> x in ys)
    && (forall i, j | 0 <= i < j < |ys| :: ys[i] != ys[j])
    && (forall i, j | 0 <= i < j < |ys| :: ComesBefore(xs, ys[i], ys[j]))
  }

  /** The first comes somewhere before the second has come. */
  predicate ComesBefore(xs: seq<string>, a: string, b: string) {
    exists k :: 0 <= k < |xs| && xs[k] == a && b !in xs[..k]
  }

  lemma {:induction false} OnceIs(xs: seq<string>)
    ensures OnceEach(xs, Once(xs))
    decreases |xs|
  {
    if xs != [] {
      var front, last := xs[..|xs| - 1], xs[|xs| - 1];
      assert xs == front + [last];
      OnceIs(front);
      OnceMore(front, Once(front), last);
    }
  }

  lemma OnceMore(xs: seq<string>, ys: seq<string>, x: string)
    requires OnceEach(xs, ys)
    ensures OnceEach(xs + [x], if x in ys then ys else ys + [x])
  {
    var more, next := xs + [x], if x in ys then ys else ys + [x];
    assert forall z :: z in more <==> z in next;
    forall i, j | 0 <= i < j < |next| ensures next[i] != next[j] {
    }
    forall i, j | 0 <= i < j < |next| ensures ComesBefore(more, next[i], next[j]) {
      if j < |ys| {
        assert ComesBefore(xs, ys[i], ys[j]);
        var k :| 0 <= k < |xs| && xs[k] == ys[i] && ys[j] !in xs[..k];
        assert more[k] == ys[i] && more[..k] == xs[..k];
      } else {
        assert ys[i] in xs;
        var k :| 0 <= k < |xs| && xs[k] == ys[i];
        assert more[k] == ys[i] && more[..k] == xs[..k];
      }
    }
  }

  function Premises(findings: seq<Finding>): seq<string> {
    if findings == [] then [] else findings[0].assumptions + Premises(findings[1..])
  }

  lemma {:induction false} PremisesAre(findings: seq<Finding>)
    ensures AllAssumptions(findings) == Premises(findings)
    ensures |Names(findings)| == |findings|
    ensures forall i | 0 <= i < |findings| :: Names(findings)[i] == findings[i].name
  {
    if findings != [] {
      PremisesAre(findings[1..]);
    }
  }

  /** Verified, with the latest finding of each name: the first one's evidence and rows, and every
      one's name and premises. */
  ghost predicate RestsOnFindings(findings: seq<Finding>, r: AnswerResult) {
    && r.verified && r.verdict == Sound && findings != [] && r.findings == findings
    && r.evidence == Some(findings[0].evidence) && r.rows == findings[0].rows
    && OnceEach(Premises(findings), r.assumptions)
    && |r.derivations| == |findings| && forall i | 0 <= i < |findings| :: r.derivations[i] == findings[i].name
  }

  ghost predicate RestsOnNothing(r: AnswerResult) {
    !r.verified && r.evidence.None? && r.rows == [] && r.assumptions == [] && r.derivations == [] && r.findings == []
  }

  /** A result rests on what was certified; with nothing certified, on what the run was seeded with;
      without either it is grounded exactly when code ran. */
  ghost predicate Rests(seed: Option<AnswerResult>, certs: seq<Finding>, ran: bool, r: AnswerResult) {
    if certs != [] then RestsOnFindings(Latest(certs), r)
    else if seed.Some? then
      r == seed.value.(narrative := r.narrative, steps := r.steps, viz := r.viz, usage := r.usage)
    else RestsOnNothing(r) && r.verdict == if ran then Verdict.Grounded else Unverified
  }

  /** What an answer tells: with findings, their block, after the model's words if there are any. */
  function Told(ws: Workspace, certs: seq<Finding>, summary: string): string {
    if certs == [] then summary
    else if ToolCalls.Trim(summary) == "" then ws.block(Latest(certs))
    else ToolCalls.TrimRight(summary) + "\n\n" + ws.block(Latest(certs))
  }

  /** The result of the call that ends a run. */
  ghost predicate Settles(ws: Workspace, seed: Option<AnswerResult>, certs: seq<Finding>, ran: bool, call: Call,
                          step: nat, r: AnswerResult) {
    match call
    case Conclude(reason) =>
      RestsOnNothing(r) && r.verdict == Inconclusive && r.narrative == reason && r.steps == step && r.viz.None?
    case Answer(summary, chart) =>
      && Rests(seed, certs, ran, r) && r.narrative == Told(ws, certs, summary) && r.steps == step
      && r.viz == if ChartRows(seed, certs) == [] then None else chart
    case _ => false
  }

  lemma LatestIsEmpty(certs: seq<Finding>)
    ensures Latest(certs) == [] <==> certs == []
  {
    if certs != [] {
      RecordIsNotEmpty(Latest(certs[..|certs| - 1]), certs[|certs| - 1]);
    }
  }

  lemma AggregateRests(findings: seq<Finding>)
    requires findings != []
    ensures RestsOnFindings(findings, Aggregate(findings))
  {
    OnceIs(AllAssumptions(findings));
    PremisesAre(findings);
  }

  lemma BaseRests(seed: Option<AnswerResult>, certs: seq<Finding>, v: RunView)
    requires Tracks(seed, certs, v)
    ensures Rests(seed, certs, v.executed, Base(v)) && Base(v).rows == ChartRows(seed, certs)
  {
    LatestIsEmpty(certs);
    if certs != [] {
      AggregateRests(Latest(certs));
    }
  }

  /** A call ends a run exactly when it should, and with the result it should. */
  lemma StopsExactly(ws: Workspace, seed: Option<AnswerResult>, certs: seq<Finding>, v: RunView, call: Call, step: nat)
    requires Tracks(seed, certs, v)
    ensures Terminal(ws, v, call, step).Some? <==> Stops(ws, seed, certs, call)
    ensures Stops(ws, seed, certs, call)
            ==> Settles(ws, seed, certs, v.executed, call, step, Terminal(ws, v, call, step).value)
  {
    LatestIsEmpty(certs);
    BaseRests(seed, certs, v);
  }

  // ---- Calls and turns that pass ----------------------------------------------------------------------------

  lemma CallPasses(ws: Workspace, seed: Option<AnswerResult>, certs: seq<Finding>, v: RunView, call: Call,
                   closing: bool)
    requires Tracks(seed, certs, v) && !Stops(ws, seed, certs, call)
    ensures Tracks(seed, certs + Certifying(ws, [call]), AfterCall(ws, v, call, closing))
    ensures AfterCall(ws, v, call, closing).executed <==> v.executed || (!closing && Coded([call]))
    ensures !closing ==> CallEvents(ws, v, call, closing) == Shown(ws, certs, [call])
    ensures closing ==> CallEvents(ws, v, call, closing) == [Tool(call)]
  {
    CertifiedIs(ws, call);
    CallCerts(ws, v, call, closing);
    CallKeeps(ws, seed, certs, v, call, closing);
    CallGrounds(ws, v, call, closing);
    CallShows(ws, seed, certs, v, call);
  }

  lemma CallGrounds(ws: Workspace, v: RunView, call: Call, closing: bool)
    ensures AfterCall(ws, v, call, closing).executed <==> v.executed || (!closing && Coded([call]))
  {
    assert call in [call];
  }

  lemma CallShows(ws: Workspace, seed: Option<AnswerResult>, certs: seq<Finding>, v: RunView, call: Call)
    requires Tracks(seed, certs, v) && !Stops(ws, seed, certs, call)
    ensures CallEvents(ws, v, call, false) == Shown(ws, certs, [call])
  {
    StopsExactly(ws, seed, certs, v, call, 0);
    assert Output(ws, v, call) == Reply(ws, certs, call);
    assert Shown(ws, certs + Certifying(ws, [call]), [call][1..]) == [];
  }

  /** The events of the closing turn's calls: their answers are not shown. */
  function Tools(calls: seq<Call>): seq<Event> {
    if calls == [] then [] else [Tool(calls[0])] + Tools(calls[1..])
  }

  lemma ShownCons(ws: Workspace, certs: seq<Finding>, call: Call, calls: seq<Call>)
    ensures Shown(ws, certs, [call] + calls)
            == Shown(ws, certs, [call]) + Shown(ws, certs + Certifying(ws, [call]), calls)
  {
    assert ([call] + calls)[1..] == calls && [call][1..] == [];
  }

  lemma {:induction false} CallsPass(ws: Workspace, calls: seq<Call>, step: nat, v: RunView, closing: bool,
                                     seed: Option<AnswerResult>, certs: seq<Finding>, more: seq<Call>)
    requires Tracks(seed, certs, v) && Passing(ws, seed, certs, calls)
    ensures var end := RunCalls(ws, calls, step, v, closing);
            && end.terminal.None? && Tracks(seed, certs + Certifying(ws, calls), end.view)
            && (end.view.executed <==> v.executed || (!closing && Coded(calls)))
            && end.events == (if closing then Tools(calls) else Shown(ws, certs, calls))
            && var rest := RunCalls(ws, more, step, end.view, closing);
               RunCalls(ws, calls + more, step, v, closing) == Ran(end.events + rest.events, rest.terminal, rest.view)
    decreases |calls|
  {
    if calls == [] {
      assert certs + [] == certs && calls + more == more;
    } else {
      var call, rest := calls[0], calls[1..];
      assert calls == [call] + rest && (calls + more)[1..] == rest + more;
      StopsExactly(ws, seed, certs, v, call, step);
      CallPasses(ws, seed, certs, v, call, closing);
      CallsPass(ws, rest, step, AfterCall(ws, v, call, closing), closing, seed, certs + Certifying(ws, [call]), more);
      CertifyingConcat(ws, [call], rest);
      CertsRegroup(certs, Certifying(ws, [call]), Certifying(ws, rest));
      CodedConcat([call], rest);
      ShownCons(ws, certs, call, rest);
      EventsRegroup(CallEvents(ws, v, call, closing),
                    RunCalls(ws, rest, step, AfterCall(ws, v, call, closing), closing).events,
                    RunCalls(ws, more, step, RunCalls(ws, calls, step, v, closing).view, closing).events);
    }
  }

  lemma CertsRegroup(a: seq<Finding>, b: seq<Finding>, c: seq<Finding>)
    ensures a + b + c == a + (b + c)
  {
  }

  lemma EventsRegroup(a: seq<Event>, b: seq<Event>, c: seq<Event>)
    ensures a + b + c == a + (b + c)
  {
  }

  lemma {:induction false} DeltasAre(deltas: seq<string>)
    ensures |Deltas(deltas)| == |deltas| && forall i | 0 <= i < |deltas| :: Deltas(deltas)[i] == Delta(deltas[i])
  {
    if deltas != [] {
      DeltasAre(deltas[1..]);
    }
  }

  lemma WordsAre(ws: Workspace, turn: Turn)
    ensures Words(ws, turn) == Said(ws, turn)
  {
    DeltasAre(turn.deltas);
  }

  lemma TurnPasses(ws: Workspace, turn: Turn, step: nat, v: RunView, seed: Option<AnswerResult>, certs: seq<Finding>)
    requires Tracks(seed, certs, v) && turn.calls != [] && Passing(ws, seed, certs, turn.calls)
    ensures var end := RunTurn(ws, turn, step, v);
            && end.terminal.None? && Tracks(seed, certs + Certifying(ws, turn.calls), end.view)
            && (end.view.executed <==> v.executed || Coded(turn.calls))
            && end.events == Said(ws, turn) + Shown(ws, certs, turn.calls)
  {
    WordsAre(ws, turn);
    CallsPass(ws, turn.calls, step, Spent(v, turn), false, seed, certs, []);
  }

  /** What a stretch of turns that pass leaves. */
  ghost predicate Passed(ws: Workspace, seed: Option<AnswerResult>, certs: seq<Finding>, ranBefore: bool,
                         turns: seq<Turn>, end: Ran) {
    && end.terminal.None? && Tracks(seed, certs + Certifying(ws, CallsOf(turns)), end.view)
    && (end.view.executed <==> ranBefore || Coded(CallsOf(turns)))
    && end.events == ShownTurns(ws, certs, turns)
  }

  lemma {:induction false} TurnsPass(ws: Workspace, turns: seq<Turn>, step: nat, v: RunView,
                                     seed: Option<AnswerResult>, certs: seq<Finding>)
    requires Tracks(seed, certs, v) && PassingTurns(ws, seed, certs, turns)
    ensures Passed(ws, seed, certs, v.executed, turns, RunTurns(ws, turns, step, v))
    decreases |turns|
  {
    if turns == [] {
      assert certs + [] == certs;
    } else {
      var turn, rest := turns[0], turns[1..];
      TurnPasses(ws, turn, step, v, seed, certs);
      TurnsPass(ws, rest, step + 1, RunTurn(ws, turn, step, v).view, seed, certs + Certifying(ws, turn.calls));
      CertifyingConcat(ws, turn.calls, CallsOf(rest));
      CertsRegroup(certs, Certifying(ws, turn.calls), Certifying(ws, CallsOf(rest)));
      CodedConcat(turn.calls, CallsOf(rest));
    }
  }

  function Joined(end: Ran, rest: Ran): Ran {
    Ran(end.events + rest.events, rest.terminal, rest.view)
  }

  lemma JoinedTwice(a: Ran, b: Ran, c: Ran)
    ensures Joined(Joined(a, b), c) == Joined(a, Joined(b, c))
  {
    EventsRegroup(a.events, b.events, c.events);
  }

  lemma FirstTurn(ws: Workspace, turns: seq<Turn>, step: nat, v: RunView)
    requires turns != [] && RunTurn(ws, turns[0], step, v).terminal.None?
    ensures var first := RunTurn(ws, turns[0], step, v);
            RunTurns(ws, turns, step, v) == Joined(first, RunTurns(ws, turns[1..], step + 1, first.view))
  {
  }

  /** Turns that end nothing, and what comes after them. */
  lemma {:induction false} TurnsJoin(ws: Workspace, turns: seq<Turn>, more: seq<Turn>, step: nat, v: RunView)
    requires RunTurns(ws, turns, step, v).terminal.None?
    ensures var end := RunTurns(ws, turns, step, v);
            RunTurns(ws, turns + more, step, v) == Joined(end, RunTurns(ws, more, step + |turns|, end.view))
    decreases |turns|
  {
    if turns == [] {
      assert turns + more == more;
    } else {
      var first := RunTurn(ws, turns[0], step, v);
      assert (turns + more)[0] == turns[0] && (turns + more)[1..] == turns[1..] + more;
      FirstTurn(ws, turns, step, v);
      FirstTurn(ws, turns + more, step, v);
      TurnsJoin(ws, turns[1..], more, step + 1, first.view);
      var end := RunTurns(ws, turns[1..], step + 1, first.view);
      JoinedTwice(first, end, RunTurns(ws, more, step + |turns|, end.view));
    }
  }

  // ---- How a run ends -------------------------------------------------------------------------------------

  /** The events, and then the result. */
  predicate EndsWith(events: seq<Event>, before: seq<Event>) {
    |events| == |before| + 1 && events[..|before|] == before && events[|before|].Result?
  }

  function Last(events: seq<Event>): AnswerResult
    requires events != [] && events[|events| - 1].Result?
  {
    events[|events| - 1].result
  }

  /** The call at this place of this turn is the first that ends the run. */
  predicate EndsAt(ws: Workspace, seed: Option<AnswerResult>, turns: seq<Turn>, t: nat, i: nat) {
    && t < |turns| && i < |turns[t].calls| && PassingTurns(ws, seed, [], turns[..t])
    && var certs := Certifying(ws, CallsOf(turns[..t]));
       && Passing(ws, seed, certs, turns[t].calls[..i])
       && Stops(ws, seed, certs + Certifying(ws, turns[t].calls[..i]), turns[t].calls[i])
  }

  lemma AfterTurns(ws: Workspace, seed: Option<AnswerResult>, turns: seq<Turn>, a: seq<Turn>, b: seq<Turn>)
    requires turns == a + b && b != [] && PassingTurns(ws, seed, [], a)
    requires RunTurn(ws, b[0], |a| + 1, RunTurns(ws, a, 1, Start(seed)).view).terminal.Some?
    ensures var before := RunTurns(ws, a, 1, Start(seed));
            RunTurns(ws, turns, 1, Start(seed)) == Joined(before, RunTurn(ws, b[0], |a| + 1, before.view))
  {
    TurnsPass(ws, a, 1, Start(seed), seed, []);
    TurnsJoin(ws, a, b, 1, Start(seed));
    OneTurnEnds(ws, b, |a| + 1, RunTurns(ws, a, 1, Start(seed)).view);
  }

  lemma OneTurnEnds(ws: Workspace, turns: seq<Turn>, step: nat, v: RunView)
    requires turns != [] && RunTurn(ws, turns[0], step, v).terminal.Some?
    ensures RunTurns(ws, turns, step, v) == RunTurn(ws, turns[0], step, v)
  {
  }

  lemma EventsAre(ws: Workspace, turns: seq<Turn>, closing: Turn, seed: Option<AnswerResult>, before: seq<Event>)
    requires Run(ws, turns, closing, seed).terminal.Some? && Run(ws, turns, closing, seed).events == before
    ensures var ran := Run(ws, turns, closing, seed);
            EndsWith(Events(ws, turns, closing, seed), before)
            && Last(Events(ws, turns, closing, seed)) == ran.terminal.value.(usage := ran.view.usage)
  {
  }

  /** What the call does, after others of its turn that end nothing. */
  lemma LastCall(ws: Workspace, calls: seq<Call>, i: nat, step: nat, v: RunView, closing: bool,
                 seed: Option<AnswerResult>, certs: seq<Finding>)
    requires Tracks(seed, certs, v) && i < |calls| && Passing(ws, seed, certs, calls[..i])
    requires Stops(ws, seed, certs + Certifying(ws, calls[..i]), calls[i])
    ensures var ran := RunCalls(ws, calls, step, v, closing);
            && ran.terminal.Some?
            && Settles(ws, seed, certs + Certifying(ws, calls[..i]), v.executed || (!closing && Coded(calls[..i])),
                       calls[i], step, ran.terminal.value)
            && ran.events == (if closing then Tools(calls[..i]) else Shown(ws, certs, calls[..i])) + [Tool(calls[i])]
  {
    CallsPass(ws, calls[..i], step, v, closing, seed, certs, calls[i..]);
    assert calls[..i] + calls[i..] == calls && calls[i..][0] == calls[i];
    var at := RunCalls(ws, calls[..i], step, v, closing).view;
    StopsExactly(ws, seed, certs + Certifying(ws, calls[..i]), at, calls[i], step);
    assert CallEvents(ws, at, calls[i], closing) == [Tool(calls[i])];
  }

  /** A turn that ends the run, after turns that do not. */
  lemma TurnEndsRun(ws: Workspace, turns: seq<Turn>, closing: Turn, seed: Option<AnswerResult>,
                    a: seq<Turn>, b: seq<Turn>, ran: Ran)
    requires turns == a + b && b != [] && PassingTurns(ws, seed, [], a) && ran.terminal.Some?
    requires ran == RunTurn(ws, b[0], |a| + 1, RunTurns(ws, a, 1, Start(seed)).view)
    ensures var events := Events(ws, turns, closing, seed);
            && EndsWith(events, ShownTurns(ws, [], a) + ran.events)
            && Last(events) == ran.terminal.value.(usage := ran.view.usage)
  {
    TurnsPass(ws, a, 1, Start(seed), seed, []);
    AfterTurns(ws, seed, turns, a, b);
    EventsAre(ws, turns, closing, seed, ShownTurns(ws, [], a) + ran.events);
  }

  /** What is known when such turns are over. */
  lemma BeforeTurn(ws: Workspace, seed: Option<AnswerResult>, a: seq<Turn>)
    requires PassingTurns(ws, seed, [], a)
    ensures var v := RunTurns(ws, a, 1, Start(seed)).view;
            Tracks(seed, Certifying(ws, CallsOf(a)), v) && (v.executed <==> Coded(CallsOf(a)))
  {
    TurnsPass(ws, a, 1, Start(seed), seed, []);
    assert [] + Certifying(ws, CallsOf(a)) == Certifying(ws, CallsOf(a));
  }

  lemma TurnAnswers(ws: Workspace, seed: Option<AnswerResult>, certs: seq<Finding>, v: RunView, turn: Turn, i: nat,
                    step: nat)
    requires Tracks(seed, certs, v) && i < |turn.calls| && Passing(ws, seed, certs, turn.calls[..i])
    requires Stops(ws, seed, certs + Certifying(ws, turn.calls[..i]), turn.calls[i])
    ensures var ran := RunTurn(ws, turn, step, v);
            && ran.terminal.Some?
            && Settles(ws, seed, certs + Certifying(ws, turn.calls[..i]), v.executed || Coded(turn.calls[..i]),
                       turn.calls[i], step, ran.terminal.value)
            && ran.events == Said(ws, turn) + (Shown(ws, certs, turn.calls[..i]) + [Tool(turn.calls[i])])
  {
    WordsAre(ws, turn);
    LastCall(ws, turn.calls, i, step, Spent(v, turn), false, seed, certs);
  }

  lemma AnyUsage(ws: Workspace, seed: Option<AnswerResult>, certs: seq<Finding>, ran: bool, call: Call, step: nat,
                 r: AnswerResult, usage: Usage)
    requires Settles(ws, seed, certs, ran, call, step, r)
    ensures Settles(ws, seed, certs, ran, call, step, r.(usage := usage))
  {
  }

  /** A run that a call ends: the events up to it, and the result it settles, resting on what was
      certified, and whether code ran, before it. */
  lemma AnswerExactly(ws: Workspace, turns: seq<Turn>, closing: Turn, seed: Option<AnswerResult>, t: nat, i: nat)
    requires EndsAt(ws, seed, turns, t, i)
    ensures var events, calls := Events(ws, turns, closing, seed), turns[t].calls;
            var before := CallsOf(turns[..t]) + calls[..i];
            && EndsWith(events, ShownTurns(ws, [], turns[..t]) + Said(ws, turns[t])
                                + Shown(ws, Certifying(ws, CallsOf(turns[..t])), calls[..i]) + [Tool(calls[i])])
            && Settles(ws, seed, Certifying(ws, before), Coded(before), calls[i], t + 1, Last(events))
  {
    AnswerAfter(ws, turns, closing, seed, turns[..t], turns[t..], i);
  }

  lemma AnswerAfter(ws: Workspace, turns: seq<Turn>, closing: Turn, seed: Option<AnswerResult>,
                    a: seq<Turn>, b: seq<Turn>, i: nat)
    requires turns == a + b && b != [] && PassingTurns(ws, seed, [], a) && i < |b[0].calls|
    requires Passing(ws, seed, Certifying(ws, CallsOf(a)), b[0].calls[..i])
    requires Stops(ws, seed, Certifying(ws, CallsOf(a)) + Certifying(ws, b[0].calls[..i]), b[0].calls[i])
    ensures var events, calls, before := Events(ws, turns, closing, seed), b[0].calls, CallsOf(a) + b[0].calls[..i];
            && EndsWith(events, ShownTurns(ws, [], a) + Said(ws, b[0])
                                + Shown(ws, Certifying(ws, CallsOf(a)), calls[..i]) + [Tool(calls[i])])
            && Settles(ws, seed, Certifying(ws, before), Coded(before), calls[i], |a| + 1, Last(events))
  {
    var certs, calls, v := Certifying(ws, CallsOf(a)), b[0].calls, RunTurns(ws, a, 1, Start(seed)).view;
    BeforeTurn(ws, seed, a);
    TurnAnswers(ws, seed, certs, v, b[0], i, |a| + 1);
    var ran := RunTurn(ws, b[0], |a| + 1, v);
    TurnEndsRun(ws, turns, closing, seed, a, b, ran);
    CertifyingConcat(ws, CallsOf(a), calls[..i]);
    CodedConcat(CallsOf(a), calls[..i]);
    JoinEvents(ShownTurns(ws, [], a), Said(ws, b[0]), Shown(ws, certs, calls[..i]), [Tool(calls[i])]);
    AnyUsage(ws, seed, certs + Certifying(ws, calls[..i]), v.executed || Coded(calls[..i]), calls[i], |a| + 1,
             ran.terminal.value, ran.view.usage);
  }

  lemma JoinEvents(a: seq<Event>, b: seq<Event>, c: seq<Event>, d: seq<Event>)
    ensures a + (b + (c + d)) == a + b + c + d
  {
  }

  /** What a text rests on and tells. */
  ghost predicate TellsText(seed: Option<AnswerResult>, certs: seq<Finding>, text: string, step: nat, r: AnswerResult) {
    && Rests(seed, certs, false, r) && r.narrative == text && r.steps == step
    && r.viz == if certs == [] && seed.Some? then seed.value.viz else None
  }

  lemma TextSettles(seed: Option<AnswerResult>, certs: seq<Finding>, v: RunView, text: string, step: nat, usage: Usage)
    requires Tracks(seed, certs, v)
    ensures TellsText(seed, certs, text, step, Finalize(v, text, step).(usage := usage))
  {
    LatestIsEmpty(certs);
    if certs != [] {
      AggregateRests(Latest(certs));
    }
  }

  /** A run that a turn without calls ends: the result is what vouches for it with that text, and
      unverified without. */
  lemma TextExactly(ws: Workspace, turns: seq<Turn>, closing: Turn, seed: Option<AnswerResult>, t: nat)
    requires t < |turns| && turns[t].calls == [] && PassingTurns(ws, seed, [], turns[..t])
    ensures var events, certs := Events(ws, turns, closing, seed), Certifying(ws, CallsOf(turns[..t]));
            && EndsWith(events, ShownTurns(ws, [], turns[..t]) + Said(ws, turns[t]))
            && TellsText(seed, certs, turns[t].text, t + 1, Last(events))
  {
    TextAfter(ws, turns, closing, seed, turns[..t], turns[t..]);
  }

  lemma TextAfter(ws: Workspace, turns: seq<Turn>, closing: Turn, seed: Option<AnswerResult>,
                  a: seq<Turn>, b: seq<Turn>)
    requires turns == a + b && b != [] && b[0].calls == [] && PassingTurns(ws, seed, [], a)
    ensures var events := Events(ws, turns, closing, seed);
            && EndsWith(events, ShownTurns(ws, [], a) + Said(ws, b[0]))
            && TellsText(seed, Certifying(ws, CallsOf(a)), b[0].text, |a| + 1, Last(events))
  {
    var v := RunTurns(ws, a, 1, Start(seed)).view;
    BeforeTurn(ws, seed, a);
    WordsAre(ws, b[0]);
    var ran := RunTurn(ws, b[0], |a| + 1, v);
    TextSettles(seed, Certifying(ws, CallsOf(a)), Spent(v, b[0]), b[0].text, |a| + 1, ran.view.usage);
    TurnEndsRun(ws, turns, closing, seed, a, b, ran);
  }

  /** A budget spent with something that vouches: that is the result, with nothing told. */
  lemma BudgetExactly(ws: Workspace, turns: seq<Turn>, closing: Turn, seed: Option<AnswerResult>)
    requires PassingTurns(ws, seed, [], turns)
    requires Certifying(ws, CallsOf(turns)) != [] || seed.Some?
    ensures var events, certs := Events(ws, turns, closing, seed), Certifying(ws, CallsOf(turns));
            && EndsWith(events, ShownTurns(ws, [], turns))
            && var r := Last(events);
               && Rests(seed, certs, false, r)
               && (if certs != [] then r.narrative == "" && r.steps == 0 && r.viz.None?
                   else r == seed.value.(usage := r.usage))
  {
    var certs := Certifying(ws, CallsOf(turns));
    TurnsPass(ws, turns, 1, Start(seed), seed, []);
    assert [] + certs == certs;
    LatestIsEmpty(certs);
    if certs != [] {
      AggregateRests(Latest(certs));
    }
    EventsAre(ws, turns, closing, seed, ShownTurns(ws, [], turns));
  }

  /** A budget spent with nothing: the closing turn's first call that ends the run settles it. */
  lemma ClosingExactly(ws: Workspace, turns: seq<Turn>, closing: Turn, i: nat)
    requires PassingTurns(ws, None, [], turns) && Certifying(ws, CallsOf(turns)) == []
    requires i < |closing.calls| && Passing(ws, None, [], closing.calls[..i])
    requires Stops(ws, None, Certifying(ws, closing.calls[..i]), closing.calls[i])
    ensures var events := Events(ws, turns, closing, None);
            && EndsWith(events, ShownTurns(ws, [], turns) + (Tools(closing.calls[..i]) + [Tool(closing.calls[i])]))
            && Settles(ws, None, Certifying(ws, closing.calls[..i]), Coded(CallsOf(turns)), closing.calls[i], |turns|,
                       Last(events))
  {
    TurnsPass(ws, turns, 1, Start(None), None, []);
    assert [] + Certifying(ws, CallsOf(turns)) == [];
    var main := RunTurns(ws, turns, 1, Start(None));
    var certs := Certifying(ws, closing.calls[..i]);
    assert [] + certs == certs;
    LastCall(ws, closing.calls, i, |turns|, Spent(main.view, closing), true, None, []);
    EventsAre(ws, turns, closing, None,
              ShownTurns(ws, [], turns) + (Tools(closing.calls[..i]) + [Tool(closing.calls[i])]));
  }

  /** And with no such call, the result is grounded exactly when code ran within the budget, and says
      the closing turn's words, or that the budget was reached. */
  lemma SilenceExactly(ws: Workspace, turns: seq<Turn>, closing: Turn)
    requires PassingTurns(ws, None, [], turns) && Certifying(ws, CallsOf(turns)) == []
    requires Passing(ws, None, [], closing.calls)
    ensures var events := Events(ws, turns, closing, None);
            && EndsWith(events, ShownTurns(ws, [], turns) + Tools(closing.calls))
            && var r := Last(events);
               && Rests(None, [], Coded(CallsOf(turns)), r) && r.steps == |turns| && r.viz.None?
               && r.narrative == if closing.text == "" then "Reached the step budget without a verified answer."
                                 else closing.text
  {
    TurnsPass(ws, turns, 1, Start(None), None, []);
    assert [] + Certifying(ws, CallsOf(turns)) == [];
    var main := RunTurns(ws, turns, 1, Start(None));
    CallsPass(ws, closing.calls, |turns|, Spent(main.view, closing), true, None, [], []);
    EventsAre(ws, turns, closing, None, ShownTurns(ws, [], turns) + Tools(closing.calls));
  }

  /** Every run ends in one of these ways. */
  lemma EveryRunEnds(ws: Workspace, turns: seq<Turn>, closing: Turn, seed: Option<AnswerResult>)
    ensures || (exists t: nat, i: nat :: EndsAt(ws, seed, turns, t, i))
            || (exists t: nat :: t < |turns| && turns[t].calls == [] && PassingTurns(ws, seed, [], turns[..t]))
            || PassingTurns(ws, seed, [], turns)
  {
    if !PassingTurns(ws, seed, [], turns) {
      var t := FirstStop(ws, seed, [], turns);
      if turns[t].calls != [] {
        assert [] + Certifying(ws, CallsOf(turns[..t])) == Certifying(ws, CallsOf(turns[..t]));
        var i := FirstCall(ws, seed, Certifying(ws, CallsOf(turns[..t])), turns[t].calls);
        assert EndsAt(ws, seed, turns, t, i);
      }
    }
  }

  lemma {:induction false} FirstCall(ws: Workspace, seed: Option<AnswerResult>, certs: seq<Finding>, calls: seq<Call>)
    returns (i: nat)
    requires !Passing(ws, seed, certs, calls)
    ensures i < |calls| && Passing(ws, seed, certs, calls[..i])
    ensures Stops(ws, seed, certs + Certifying(ws, calls[..i]), calls[i])
    decreases |calls|
  {
    if Stops(ws, seed, certs, calls[0]) {
      i := 0;
      assert certs + [] == certs;
    } else {
      var one := Certifying(ws, [calls[0]]);
      i := FirstCall(ws, seed, certs + one, calls[1..]);
      assert calls[..i + 1][1..] == calls[1..][..i] && calls[..i + 1] == [calls[0]] + calls[1..][..i];
      CertifyingConcat(ws, [calls[0]], calls[1..][..i]);
      CertsRegroup(certs, one, Certifying(ws, calls[1..][..i]));
      i := i + 1;
    }
  }

  lemma {:induction false} FirstStop(ws: Workspace, seed: Option<AnswerResult>, certs: seq<Finding>, turns: seq<Turn>)
    returns (t: nat)
    requires !PassingTurns(ws, seed, certs, turns)
    ensures t < |turns| && PassingTurns(ws, seed, certs, turns[..t])
    ensures turns[t].calls == []
            || !Passing(ws, seed, certs + Certifying(ws, CallsOf(turns[..t])), turns[t].calls)
    decreases |turns|
  {
    if turns[0].calls == [] || !Passing(ws, seed, certs, turns[0].calls) {
      t := 0;
      assert certs + [] == certs;
    } else {
      var one := Certifying(ws, turns[0].calls);
      t := FirstStop(ws, seed, certs + one, turns[1..]);
      assert turns[..t + 1][1..] == turns[1..][..t];
      CertifyingConcat(ws, turns[0].calls, CallsOf(turns[1..][..t]));
      CertsRegroup(certs, one, Certifying(ws, CallsOf(turns[1..][..t])));
      t := t + 1;
    }
  }
}
