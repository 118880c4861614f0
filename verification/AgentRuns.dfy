/** What the agent loop's one result can claim. */
module AgentRuns {
  import opened Wrappers
  import opened AgentLoop

  // ---- What the events show -------------------------------------------------------------------------

  function CertifiedBy(ws: Workspace, e: Event): seq<Finding> {
    if e.Tool? && Certified(ws, e.call).Some? then [Certified(ws, e.call).value] else []
  }

  /** The findings certified in the course of these events, in order. */
  function Certs(ws: Workspace, events: seq<Event>): seq<Finding> {
    if events == [] then [] else CertifiedBy(ws, events[0]) + Certs(ws, events[1..])
  }

  /** The findings kept: each name's latest, in the order the names were first certified. */
  function Latest(certs: seq<Finding>): seq<Finding> {
    if certs == [] then [] else Record(Latest(certs[..|certs| - 1]), certs[|certs| - 1])
  }

  function LastTool(events: seq<Event>): Option<Call> {
    if events == [] then None
    else if events[|events| - 1].Tool? then Some(events[|events| - 1].call)
    else LastTool(events[..|events| - 1])
  }

  predicate Concluded(events: seq<Event>) {
    LastTool(events).Some? && LastTool(events).value.Conclude?
  }

  predicate RanCode(events: seq<Event>) {
    exists i :: 0 <= i < |events| && events[i].Tool? && Grounds(events[i].call)
  }

  predicate NoResult(events: seq<Event>) {
    forall e | e in events :: !e.Result?
  }

  lemma {:induction false} CertsConcat(ws: Workspace, a: seq<Event>, b: seq<Event>)
    ensures Certs(ws, a + b) == Certs(ws, a) + Certs(ws, b)
  {
    if a == [] {
      assert a + b == b;
    } else {
      assert (a + b)[1..] == a[1..] + b;
      CertsConcat(ws, a[1..], b);
      assert CertifiedBy(ws, a[0]) + (Certs(ws, a[1..]) + Certs(ws, b)) == Certs(ws, a) + Certs(ws, b);
    }
  }

  lemma {:induction false} LastToolConcat(a: seq<Event>, b: seq<Event>)
    ensures LastTool(a + b) == if LastTool(b).Some? then LastTool(b) else LastTool(a)
    decreases |b|
  {
    if b == [] {
      assert a + b == a;
    } else {
      assert (a + b)[|a + b| - 1] == b[|b| - 1] && (a + b)[..|a + b| - 1] == a + b[..|b| - 1];
      LastToolConcat(a, b[..|b| - 1]);
    }
  }

  lemma RanCodeConcat(a: seq<Event>, b: seq<Event>)
    ensures RanCode(a + b) <==> RanCode(a) || RanCode(b)
  {
    if RanCode(a) {
      var i :| 0 <= i < |a| && a[i].Tool? && Grounds(a[i].call);
      assert (a + b)[i] == a[i];
    }
    if RanCode(b) {
      var i :| 0 <= i < |b| && b[i].Tool? && Grounds(b[i].call);
      assert (a + b)[|a| + i] == b[i];
    }
  }

  // ---- Latest per name, in first-certified order -----------------------------------------------------

  predicate Unique(findings: seq<Finding>) {
    forall i, j | 0 <= i < j < |findings| :: findings[i].name != findings[j].name
  }

  /** Where a name was first certified, or the length. */
  function First(certs: seq<Finding>, name: string): (i: nat)
    ensures i <= |certs|
    ensures forall j | 0 <= j < i :: certs[j].name != name
    ensures i < |certs| ==> certs[i].name == name
  {
    if certs == [] then 0 else if certs[0].name == name then 0 else 1 + First(certs[1..], name)
  }

  predicate IsLast(certs: seq<Finding>, f: Finding) {
    exists i :: 0 <= i < |certs| && certs[i] == f && forall j | i < j < |certs| :: certs[j].name != f.name
  }

  /** In place where the name stands, or at the end. */
  lemma {:induction false} RecordIs(findings: seq<Finding>, f: Finding)
    ensures var r := Record(findings, f); var i := First(findings, f.name);
            r == if i < |findings| then findings[i := f] else findings + [f]
  {
    if findings != [] && findings[0].name != f.name {
      RecordIs(findings[1..], f);
    }
  }

  lemma {:induction false} FirstSnoc(certs: seq<Finding>, f: Finding, name: string)
    ensures First(certs + [f], name)
            == if First(certs, name) < |certs| then First(certs, name)
               else if f.name == name then |certs| else |certs| + 1
  {
    var all := certs + [f];
    var i, k := First(certs, name), First(all, name);
    assert forall j | 0 <= j < |certs| :: all[j] == certs[j];
    if i < |certs| {
      assert all[i].name == name;
    } else {
      assert all[|certs|] == f;
    }
  }

  /** One finding for each certified name, the last certified under it, in the order in which the
      names were first certified. */
  predicate KeepsLatest(certs: seq<Finding>, kept: seq<Finding>) {
    && Unique(kept)
    && (forall f | f in kept :: IsLast(certs, f))
    && (forall f | f in certs :: First(kept, f.name) < |kept|)
    && (forall i, j | 0 <= i < j < |kept| :: First(certs, kept[i].name) < First(certs, kept[j].name))
  }

  lemma {:induction false} LatestIsLatest(certs: seq<Finding>)
    ensures KeepsLatest(certs, Latest(certs))
    decreases |certs|
  {
    if certs != [] {
      var front, f := certs[..|certs| - 1], certs[|certs| - 1];
      assert certs == front + [f];
      LatestIsLatest(front);
      RecordKeepsLatest(front, Latest(front), f);
    }
  }

  lemma RecordKeepsLatest(certs: seq<Finding>, kept: seq<Finding>, f: Finding)
    requires KeepsLatest(certs, kept)
    ensures KeepsLatest(certs + [f], Record(kept, f))
  {
    RecordNames(kept, f);
    RecordOrder(certs, kept, f);
    RecordIsLast(certs, kept, f);
    RecordCovers(certs, kept, f);
  }

  lemma RecordIsLast(certs: seq<Finding>, kept: seq<Finding>, f: Finding)
    requires KeepsLatest(certs, kept)
    ensures forall g | g in Record(kept, f) :: IsLast(certs + [f], g)
  {
    var next := Record(kept, f);
    RecordNames(kept, f);
    RecordIs(kept, f);
    forall g | g in next ensures IsLast(certs + [f], g) {
      if g == f {
        assert (certs + [f])[|certs|] == f;
      } else {
        var i :| 0 <= i < |next| && next[i] == g;
        assert kept[i] == g && g in kept;
        LastStays(certs, g, f);
      }
    }
  }

  lemma RecordCovers(certs: seq<Finding>, kept: seq<Finding>, f: Finding)
    requires KeepsLatest(certs, kept)
    ensures forall g | g in certs + [f] :: First(Record(kept, f), g.name) < |Record(kept, f)|
  {
    var next := Record(kept, f);
    RecordNames(kept, f);
    RecordIs(kept, f);
    forall g | g in certs + [f] ensures First(next, g.name) < |next| {
      var k := if g in certs then First(kept, g.name) else First(kept, f.name);
      assert next[k].name == g.name;
    }
  }

  lemma LastStays(certs: seq<Finding>, g: Finding, f: Finding)
    requires IsLast(certs, g) && g.name != f.name
    ensures IsLast(certs + [f], g)
  {
    var i :| 0 <= i < |certs| && certs[i] == g && forall j | i < j < |certs| :: certs[j].name != g.name;
    assert (certs + [f])[i] == g;
  }

  /** A name kept was first certified where it was before. */
  lemma FirstKept(certs: seq<Finding>, kept: seq<Finding>, f: Finding, i: nat)
    requires KeepsLatest(certs, kept) && i < |kept|
    ensures First(certs + [f], kept[i].name) == First(certs, kept[i].name) < |certs|
  {
    assert kept[i] in kept && IsLast(certs, kept[i]);
    FirstSnoc(certs, f, kept[i].name);
  }

  /** A new name was certified nowhere before. */
  lemma FirstNew(certs: seq<Finding>, kept: seq<Finding>, f: Finding)
    requires KeepsLatest(certs, kept) && First(kept, f.name) == |kept|
    ensures First(certs + [f], f.name) == |certs|
  {
    FirstSnoc(certs, f, f.name);
    assert forall j | 0 <= j < |certs| :: certs[j] in certs;
  }

  /** A recorded name keeps its place. */
  lemma RecordNames(kept: seq<Finding>, f: Finding)
    requires Unique(kept)
    ensures var next := Record(kept, f);
            && Unique(next)
            && (|next| == |kept| || (|next| == |kept| + 1 && First(kept, f.name) == |kept| && next[|kept|] == f))
            && forall i | 0 <= i < |kept| ::
                 i < |next| && next[i].name == kept[i].name && (next[i] == kept[i] || next[i] == f)
  {
    RecordIs(kept, f);
  }

  lemma RecordOrder(certs: seq<Finding>, kept: seq<Finding>, f: Finding)
    requires KeepsLatest(certs, kept)
    ensures var all, next := certs + [f], Record(kept, f);
            forall i, j | 0 <= i < j < |next| :: First(all, next[i].name) < First(all, next[j].name)
  {
    var all, next := certs + [f], Record(kept, f);
    RecordNames(kept, f);
    if First(kept, f.name) == |kept| {
      FirstNew(certs, kept, f);
    }
    forall i, j | 0 <= i < j < |next| ensures First(all, next[i].name) < First(all, next[j].name) {
      FirstKept(certs, kept, f, i);
      if j < |kept| {
        FirstKept(certs, kept, f, j);
      }
    }
  }

  // ---- What the state keeps -----------------------------------------------------------------------------

  /** The state after these certified findings and, perhaps, some code. */
  ghost predicate Tracks(seed: Option<AnswerResult>, certs: seq<Finding>, v: RunView) {
    && v.findings == Latest(certs)
    && (certs == [] ==> v.verified == seed)
    && (certs != [] ==> v.findings != [] && v.verified == Some(Aggregate(v.findings)))
  }

  /** Something certified in the run, or a verified result it was seeded with. */
  predicate Vouched(seed: Option<AnswerResult>, certs: seq<Finding>) {
    certs != [] || (seed.Some? && seed.value.verified)
  }

  /** A verified result carries the latest certified findings; with none certified, what the seed
      carried. And it claims to be grounded only when code ran, or the seed said so. */
  ghost predicate Honest(seed: Option<AnswerResult>, certs: seq<Finding>, ran: bool, r: AnswerResult) {
    && (r.verified && certs != [] ==> r.verdict == Sound && r.findings == Latest(certs))
    && (r.verified && certs == [] ==>
          seed.Some? && seed.value.verified && r.verdict == seed.value.verdict && r.findings == seed.value.findings)
    && (r.verdict == Verdict.Grounded ==>
          ran || (certs == [] && seed.Some? && seed.value.verdict == Verdict.Grounded))
  }

  lemma RecordIsNotEmpty(findings: seq<Finding>, f: Finding)
    ensures Record(findings, f) != []
  {
  }

  lemma CallKeeps(ws: Workspace, seed: Option<AnswerResult>, certs: seq<Finding>, v: RunView, call: Call, closing: bool)
    requires Tracks(seed, certs, v)
    ensures Tracks(seed, certs + Certs(ws, CallEvents(ws, v, call, closing)), AfterCall(ws, v, call, closing))
  {
    var events := CallEvents(ws, v, call, closing);
    CallCerts(ws, v, call, closing);
    match Certified(ws, call)
    case Some(f) =>
      RecordIsNotEmpty(v.findings, f);
      assert (certs + [f])[..|certs|] == certs;
    case None =>
      assert certs + [] == certs;
  }

  lemma CallCerts(ws: Workspace, v: RunView, call: Call, closing: bool)
    ensures Certs(ws, CallEvents(ws, v, call, closing)) == CertifiedBy(ws, Tool(call))
    ensures LastTool(CallEvents(ws, v, call, closing)) == Some(call)
    ensures RanCode(CallEvents(ws, v, call, closing)) <==> Grounds(call)
    ensures NoResult(CallEvents(ws, v, call, closing))
  {
    var own, tail := [Tool(call)], CallEvents(ws, v, call, closing)[1..];
    assert CallEvents(ws, v, call, closing) == own + tail;
    assert tail == [] || tail == [ToolResult(Output(ws, v, call))];
    CertsConcat(ws, own, tail);
    LastToolConcat(own, tail);
    RanCodeConcat(own, tail);
    OneEvent(ws, Tool(call));
    OneEvent(ws, ToolResult(Output(ws, v, call)));
  }

  lemma OneEvent(ws: Workspace, e: Event)
    ensures Certs(ws, [e]) == CertifiedBy(ws, e) && LastTool([e]) == (if e.Tool? then Some(e.call) else None)
    ensures RanCode([e]) <==> e.Tool? && Grounds(e.call)
  {
  }

  /** A call that ends the run ends it honestly, and verified unless it concludes. */
  lemma TerminalIsHonest(ws: Workspace, seed: Option<AnswerResult>, certs: seq<Finding>, v: RunView, call: Call,
                         step: nat)
    requires Tracks(seed, certs, v) && Terminal(ws, v, call, step).Some?
    ensures var r := Terminal(ws, v, call, step).value;
            && Honest(seed, certs, v.executed, r) && Certified(ws, call).None?
            && (r.verified <==> Vouched(seed, certs) && !call.Conclude?)
  {
  }

  /** A stretch of the run: what it certified, whether code ran, and how it ended if it did. */
  ghost predicate SoundRun(ws: Workspace, seed: Option<AnswerResult>, certs: seq<Finding>, ranBefore: bool, ran: Ran) {
    var after := certs + Certs(ws, ran.events);
    && Tracks(seed, after, ran.view) && NoResult(ran.events)
    && (ran.view.executed ==> ranBefore || RanCode(ran.events))
    && (ran.terminal.Some? ==>
          && Honest(seed, after, ran.view.executed, ran.terminal.value)
          && (ran.terminal.value.verified <==> Vouched(seed, after) && !Concluded(ran.events)))
    && (ran.terminal.None? ==> !Concluded(ran.events))
  }

  lemma LastCallIsSound(ws: Workspace, v: RunView, call: Call, step: nat, closing: bool,
                        seed: Option<AnswerResult>, certs: seq<Finding>)
    requires Tracks(seed, certs, v) && Terminal(ws, v, call, step).Some?
    ensures SoundRun(ws, seed, certs, v.executed,
                     Ran(CallEvents(ws, v, call, closing), Terminal(ws, v, call, step),
                         AfterCall(ws, v, call, closing)))
  {
    CallCerts(ws, v, call, closing);
    CallKeeps(ws, seed, certs, v, call, closing);
    TerminalIsHonest(ws, seed, certs, v, call, step);
    assert certs + [] == certs;
  }

  lemma {:induction false} CallsAreSound(ws: Workspace, calls: seq<Call>, step: nat, v: RunView, closing: bool,
                                         seed: Option<AnswerResult>, certs: seq<Finding>)
    requires Tracks(seed, certs, v)
    ensures SoundRun(ws, seed, certs, v.executed, RunCalls(ws, calls, step, v, closing))
    decreases |calls|
  {
    if calls == [] {
      assert certs + [] == certs;
    } else {
      var own := CallEvents(ws, v, calls[0], closing);
      CallCerts(ws, v, calls[0], closing);
      CallKeeps(ws, seed, certs, v, calls[0], closing);
      if Terminal(ws, v, calls[0], step).Some? {
        LastCallIsSound(ws, v, calls[0], step, closing, seed, certs);
      } else {
        var after := AfterCall(ws, v, calls[0], closing);
        var rest := RunCalls(ws, calls[1..], step, after, closing);
        CallsAreSound(ws, calls[1..], step, after, closing, seed, certs + Certs(ws, own));
        SoundAppends(ws, seed, certs, v.executed, own, after.executed, rest);
      }
    }
  }

  lemma Regroup(a: seq<Finding>, b: seq<Finding>, c: seq<Finding>)
    ensures a + b + c == a + (b + c)
  {
  }

  /** A stretch before another that does not end the run. */
  lemma SoundAppends(ws: Workspace, seed: Option<AnswerResult>, certs: seq<Finding>, ranBefore: bool,
                     own: seq<Event>, ranSince: bool, rest: Ran)
    requires NoResult(own) && !Concluded(own) && (ranSince ==> ranBefore || RanCode(own))
    requires SoundRun(ws, seed, certs + Certs(ws, own), ranSince, rest)
    ensures SoundRun(ws, seed, certs, ranBefore, Ran(own + rest.events, rest.terminal, rest.view))
  {
    CertsConcat(ws, own, rest.events);
    LastToolConcat(own, rest.events);
    RanCodeConcat(own, rest.events);
    Regroup(certs, Certs(ws, own), Certs(ws, rest.events));
  }

  lemma {:induction false} DeltasAreQuiet(ws: Workspace, deltas: seq<string>)
    ensures Certs(ws, Deltas(deltas)) == [] && LastTool(Deltas(deltas)).None? && NoResult(Deltas(deltas))
    ensures !RanCode(Deltas(deltas))
  {
    if deltas != [] {
      DeltasAreQuiet(ws, deltas[1..]);
      var one := [Delta(deltas[0])];
      assert one[1..] == [] && one[..0] == [];
      LastToolConcat(one, Deltas(deltas[1..]));
      RanCodeConcat(one, Deltas(deltas[1..]));
    }
  }

  lemma WordsAreQuiet(ws: Workspace, turn: Turn)
    ensures var words := Words(ws, turn);
            Certs(ws, words) == [] && LastTool(words).None? && NoResult(words) && !RanCode(words)
  {
    DeltasAreQuiet(ws, turn.deltas);
  }

  lemma TurnIsSound(ws: Workspace, turn: Turn, step: nat, v: RunView, seed: Option<AnswerResult>, certs: seq<Finding>)
    requires Tracks(seed, certs, v)
    ensures SoundRun(ws, seed, certs, v.executed, RunTurn(ws, turn, step, v))
  {
    var spent, words := Spent(v, turn), Words(ws, turn);
    WordsAreQuiet(ws, turn);
    assert certs + [] == certs;
    if turn.calls != [] {
      CallsAreSound(ws, turn.calls, step, spent, false, seed, certs);
      SoundAppends(ws, seed, certs, v.executed, words, v.executed, RunCalls(ws, turn.calls, step, spent, false));
    }
  }

  lemma {:induction false} TurnsAreSound(ws: Workspace, turns: seq<Turn>, step: nat, v: RunView,
                                         seed: Option<AnswerResult>, certs: seq<Finding>)
    requires Tracks(seed, certs, v)
    ensures SoundRun(ws, seed, certs, v.executed, RunTurns(ws, turns, step, v))
    decreases |turns|
  {
    assert certs + [] == certs;
    if turns != [] {
      var first := RunTurn(ws, turns[0], step, v);
      TurnIsSound(ws, turns[0], step, v, seed, certs);
      if first.terminal.None? {
        var rest := RunTurns(ws, turns[1..], step + 1, first.view);
        TurnsAreSound(ws, turns[1..], step + 1, first.view, seed, certs + Certs(ws, first.events));
        SoundAppends(ws, seed, certs, v.executed, first.events, first.view.executed, rest);
      }
    }
  }

  // ---- Runs without an answer ---------------------------------------------------------------------------

  function Start(seed: Option<AnswerResult>): RunView {
    RunView(false, seed, [], NO_USAGE)
  }

  /** A call that neither ends a run nor certifies anything, while nothing is certified. */
  predicate Idle(ws: Workspace, call: Call) {
    !call.Answer? && !call.Conclude? && Certified(ws, call).None?
  }

  /** After these certificates the call ends the run: it concludes, or answers without a chart
      that the first finding's rows refuse. */
  predicate Ends(ws: Workspace, certs: seq<Finding>, call: Call) {
    call.Conclude? || (call.Answer? && !(call.chart.Some? && RefusesChart(ws, Latest(certs), call.chart.value)))
  }

  predicate RefusesChart(ws: Workspace, findings: seq<Finding>, chart: Chart) {
    findings != [] && findings[0].rows != [] && !ChartOk(ws, chart, findings[0].rows)
  }

  predicate NoneEnds(ws: Workspace, certs: seq<Finding>, calls: seq<Call>)
    decreases |calls|
  {
    calls == [] || (!Ends(ws, certs, calls[0]) && NoneEnds(ws, certs + CertifiedBy(ws, Tool(calls[0])), calls[1..]))
  }

  predicate AllIdle(ws: Workspace, calls: seq<Call>) {
    forall call | call in calls :: Idle(ws, call)
  }

  predicate IdleTurn(ws: Workspace, turn: Turn) {
    turn.calls != [] && AllIdle(ws, turn.calls)
  }

  /** Every turn of the budget calls tools that end and certify nothing, and no call of the closing
      turn ends the run. */
  predicate Silent(ws: Workspace, turns: seq<Turn>, closing: Turn, seed: Option<AnswerResult>) {
    && seed.None?
    && (forall turn | turn in turns :: IdleTurn(ws, turn))
    && NoneEnds(ws, [], closing.calls)
  }

  lemma EndsExactly(ws: Workspace, certs: seq<Finding>, v: RunView, call: Call, step: nat)
    requires Tracks(None, certs, v)
    ensures Terminal(ws, v, call, step).Some? <==> Ends(ws, certs, call)
  {
  }

  lemma {:induction false} NoneEndsExactly(ws: Workspace, calls: seq<Call>, step: nat, v: RunView, closing: bool,
                                           certs: seq<Finding>)
    requires Tracks(None, certs, v)
    ensures RunCalls(ws, calls, step, v, closing).terminal.None? <==> NoneEnds(ws, certs, calls)
    decreases |calls|
  {
    if calls != [] {
      EndsExactly(ws, certs, v, calls[0], step);
      CallCerts(ws, v, calls[0], closing);
      CallKeeps(ws, None, certs, v, calls[0], closing);
      NoneEndsExactly(ws, calls[1..], step, AfterCall(ws, v, calls[0], closing), closing,
                      certs + CertifiedBy(ws, Tool(calls[0])));
    }
  }

  /** Nothing is certified yet, and nothing ended the run. */
  predicate Open(ran: Ran) {
    ran.terminal.None? && ran.view.verified.None?
  }

  /** What is verified stays so. */
  lemma {:induction false} CallsKeepVerified(ws: Workspace, calls: seq<Call>, step: nat, v: RunView, closing: bool)
    requires v.verified.Some?
    ensures RunCalls(ws, calls, step, v, closing).view.verified.Some?
    decreases |calls|
  {
    if calls != [] && Terminal(ws, v, calls[0], step).None? {
      CallsKeepVerified(ws, calls[1..], step, AfterCall(ws, v, calls[0], closing), closing);
    }
  }

  lemma {:induction false} TurnsKeepVerified(ws: Workspace, turns: seq<Turn>, step: nat, v: RunView)
    requires v.verified.Some?
    ensures RunTurns(ws, turns, step, v).view.verified.Some?
    decreases |turns|
  {
    if turns != [] {
      CallsKeepVerified(ws, turns[0].calls, step, Spent(v, turns[0]), false);
      TurnsKeepVerified(ws, turns[1..], step + 1, RunTurn(ws, turns[0], step, v).view);
    }
  }

  lemma OneCallOpens(ws: Workspace, v: RunView, call: Call, step: nat)
    requires v.verified.None? && v.findings == []
    ensures Idle(ws, call) <==> Terminal(ws, v, call, step).None? && AfterCall(ws, v, call, false).verified.None?
    ensures Idle(ws, call) ==> AfterCall(ws, v, call, false).findings == []
  {
    if Certified(ws, call).Some? {
      RecordIsNotEmpty(v.findings, Certified(ws, call).value);
    }
  }

  lemma {:induction false} CallsOpen(ws: Workspace, calls: seq<Call>, step: nat, v: RunView)
    requires v.verified.None? && v.findings == []
    ensures var ran := RunCalls(ws, calls, step, v, false);
            (Open(ran) <==> AllIdle(ws, calls)) && (Open(ran) ==> ran.view.findings == [])
    decreases |calls|
  {
    if calls != [] {
      var after := AfterCall(ws, v, calls[0], false);
      OneCallOpens(ws, v, calls[0], step);
      assert AllIdle(ws, calls) <==> Idle(ws, calls[0]) && AllIdle(ws, calls[1..]);
      if after.verified.None? {
        CallsOpen(ws, calls[1..], step, after);
      } else if Terminal(ws, v, calls[0], step).None? {
        CallsKeepVerified(ws, calls[1..], step, after, false);
      }
    }
  }

  lemma {:induction false} TurnsOpen(ws: Workspace, turns: seq<Turn>, step: nat, v: RunView)
    requires v.verified.None? && v.findings == []
    ensures var ran := RunTurns(ws, turns, step, v);
            && (Open(ran) <==> forall turn | turn in turns :: IdleTurn(ws, turn))
            && (Open(ran) ==> ran.view.findings == [])
    decreases |turns|
  {
    if turns != [] {
      var first := RunTurn(ws, turns[0], step, v);
      CallsOpen(ws, turns[0].calls, step, Spent(v, turns[0]));
      assert Open(first) <==> IdleTurn(ws, turns[0]);
      if Open(first) {
        TurnsOpen(ws, turns[1..], step + 1, first.view);
      } else if first.terminal.None? {
        TurnsKeepVerified(ws, turns[1..], step + 1, first.view);
      }
      assert (forall turn | turn in turns :: IdleTurn(ws, turn))
          <==> IdleTurn(ws, turns[0]) && forall turn | turn in turns[1..] :: IdleTurn(ws, turn);
    }
  }

  /** The run asks for its closing turn, and that turn ends nothing, exactly then. */
  lemma SilentExactly(ws: Workspace, turns: seq<Turn>, closing: Turn, seed: Option<AnswerResult>)
    ensures var main := RunTurns(ws, turns, 1, Start(seed));
            Open(main) && RunCalls(ws, closing.calls, |turns|, Spent(main.view, closing), true).terminal.None?
            <==> Silent(ws, turns, closing, seed)
  {
    var main := RunTurns(ws, turns, 1, Start(seed));
    if seed.Some? {
      TurnsKeepVerified(ws, turns, 1, Start(seed));
    } else {
      TurnsOpen(ws, turns, 1, Start(seed));
      if Open(main) {
        NoneEndsExactly(ws, closing.calls, |turns|, Spent(main.view, closing), true, []);
      }
    }
  }

  // ---- Main results -----------------------------------------------------------------------------------------

  /** A result verified exactly when something vouches for it, the run did not conclude that the
      data are inconclusive, and it gave an answer at all. */
  ghost predicate VerifiedExactly(seed: Option<AnswerResult>, certs: seq<Finding>, events: seq<Event>, silent: bool,
                                  r: AnswerResult) {
    && (r.verified <==> Vouched(seed, certs) && !Concluded(events) && !silent)
    && Honest(seed, certs, RanCode(events), r)
  }

  lemma MainPart(ws: Workspace, turns: seq<Turn>, seed: Option<AnswerResult>)
    ensures SoundRun(ws, seed, [], false, RunTurns(ws, turns, 1, Start(seed)))
  {
    TurnsAreSound(ws, turns, 1, Start(seed), seed, []);
  }

  lemma ClosingPart(ws: Workspace, turns: seq<Turn>, closing: Turn, seed: Option<AnswerResult>)
    requires var main := RunTurns(ws, turns, 1, Start(seed)); main.terminal.None? && main.view.verified.None?
    ensures var main := RunTurns(ws, turns, 1, Start(seed));
            var last := RunCalls(ws, closing.calls, |turns|, Spent(main.view, closing), true);
            SoundRun(ws, seed, [], false, Ran(main.events + last.events, last.terminal, last.view))
  {
    var main := RunTurns(ws, turns, 1, Start(seed));
    var spent := Spent(main.view, closing);
    MainPart(ws, turns, seed);
    CallsAreSound(ws, closing.calls, |turns|, spent, true, seed, [] + Certs(ws, main.events));
    SoundAppends(ws, seed, [], false, main.events, spent.executed, RunCalls(ws, closing.calls, |turns|, spent, true));
  }

  lemma RunIsSound(ws: Workspace, turns: seq<Turn>, closing: Turn, seed: Option<AnswerResult>)
    ensures var ran := Run(ws, turns, closing, seed);
            && ran.terminal.Some? && NoResult(ran.events)
            && VerifiedExactly(seed, Certs(ws, ran.events), ran.events, Silent(ws, turns, closing, seed),
                               ran.terminal.value)
  {
    var main := RunTurns(ws, turns, 1, Start(seed));
    MainPart(ws, turns, seed);
    SilentExactly(ws, turns, closing, seed);
    assert [] + Certs(ws, main.events) == Certs(ws, main.events);
    if main.terminal.None? && main.view.verified.None? {
      ClosingPart(ws, turns, closing, seed);
      var last := RunCalls(ws, closing.calls, |turns|, Spent(main.view, closing), true);
      assert [] + Certs(ws, main.events + last.events) == Certs(ws, main.events + last.events);
    }
  }

  /** However the model and its tools behave, and whatever the run was seeded with: it ends with one
      result, its last event. That result is verified exactly when a derive certified a claim or
      the seed was verified, and the run neither concluded nor ended without an answer; it then
      carries the latest certified finding of each name. */
  lemma OneHonestResult(ws: Workspace, turns: seq<Turn>, closing: Turn, seed: Option<AnswerResult>)
    ensures var events := Events(ws, turns, closing, seed);
            var n := |events| - 1;
            && n >= 0 && events[n].Result? && NoResult(events[..n])
            && VerifiedExactly(seed, Certs(ws, events[..n]), events[..n], Silent(ws, turns, closing, seed),
                               events[n].result)
            && KeepsLatest(Certs(ws, events[..n]), Latest(Certs(ws, events[..n])))
  {
    var ran := Run(ws, turns, closing, seed);
    RunIsSound(ws, turns, closing, seed);
    LatestIsLatest(Certs(ws, ran.events));
    var events := Events(ws, turns, closing, seed);
    assert events[..|events| - 1] == ran.events;
  }

  /** In a run without an answer, whatever its closing turn certified is lost. */
  lemma LateCertificateIsLost(ws: Workspace, turns: seq<Turn>, closing: Turn, call: Call)
    requires Silent(ws, turns, closing, None) && call in closing.calls && Certified(ws, call).Some?
    ensures var events := Events(ws, turns, closing, None);
            var n := |events| - 1;
            && n >= 0 && Certs(ws, events[..n]) != [] && !Concluded(events[..n])
            && events[n].Result? && !events[n].result.verified && events[n].result.findings == []
  {
    var main := RunTurns(ws, turns, 1, Start(None));
    var spent := Spent(main.view, closing);
    SilentExactly(ws, turns, closing, None);
    ClosingPart(ws, turns, closing, None);
    CallsCertify(ws, closing.calls, |turns|, spent, call);
    var last := RunCalls(ws, closing.calls, |turns|, spent, true);
    CertsConcat(ws, main.events, last.events);
    var events := Events(ws, turns, closing, None);
    assert events[..|events| - 1] == main.events + last.events;
  }

  lemma {:induction false} CallsCertify(ws: Workspace, calls: seq<Call>, step: nat, v: RunView, call: Call)
    requires call in calls && Certified(ws, call).Some? && RunCalls(ws, calls, step, v, true).terminal.None?
    ensures Certs(ws, RunCalls(ws, calls, step, v, true).events) != []
    decreases |calls|
  {
    var own, after := CallEvents(ws, v, calls[0], true), AfterCall(ws, v, calls[0], true);
    var rest := RunCalls(ws, calls[1..], step, after, true);
    CallCerts(ws, v, calls[0], true);
    CertsConcat(ws, own, rest.events);
    if calls[0] != call {
      assert call in calls[1..];
      CallsCertify(ws, calls[1..], step, after, call);
    }
  }

  /** So it is when the closing turn's only call certifies a claim. */
  lemma LoneCertificate(ws: Workspace, call: Call, text: string)
    requires Certified(ws, call).Some?
    ensures var events := Events(ws, [], Turn([], text, [call], None), None);
            events != [] && events[|events| - 1].Result? && !events[|events| - 1].result.verified
  {
    var closing := Turn([], text, [call], None);
    assert [call][1..] == [];
    assert NoneEnds(ws, [] + CertifiedBy(ws, Tool(call)), []);
    assert call in closing.calls;
    LateCertificateIsLost(ws, [], closing, call);
  }

  // ---- Usage ---------------------------------------------------------------------------------------------------

  function UsageOf(turn: Turn): Usage {
    if turn.usage.Some? then turn.usage.value else NO_USAGE
  }

  function Total(turns: seq<Turn>): Usage {
    if turns == [] then NO_USAGE else Plus(UsageOf(turns[0]), Total(turns[1..]))
  }

  lemma PlusLaws(a: Usage, b: Usage, c: Usage)
    ensures Plus(Plus(a, b), c) == Plus(a, Plus(b, c)) && Plus(a, NO_USAGE) == a && Plus(NO_USAGE, a) == a
  {
  }

  lemma FromNothing(a: Usage)
    ensures Plus(NO_USAGE, a) == a
  {
  }

  /** The turns within the budget that the run took. */
  function Taken(ws: Workspace, turns: seq<Turn>, step: nat, v: RunView): seq<Turn>
    decreases |turns|
  {
    if turns == [] then [] else
    var first := RunTurn(ws, turns[0], step, v);
    [turns[0]] + if first.terminal.Some? then [] else Taken(ws, turns[1..], step + 1, first.view)
  }

  lemma {:induction false} CallsSpendNothing(ws: Workspace, calls: seq<Call>, step: nat, v: RunView, closing: bool)
    ensures RunCalls(ws, calls, step, v, closing).view.usage == v.usage
    decreases |calls|
  {
    if calls != [] && Terminal(ws, v, calls[0], step).None? {
      CallsSpendNothing(ws, calls[1..], step, AfterCall(ws, v, calls[0], closing), closing);
    }
  }

  lemma TurnSpends(ws: Workspace, turn: Turn, step: nat, v: RunView)
    ensures RunTurn(ws, turn, step, v).view.usage == Plus(v.usage, UsageOf(turn))
  {
    PlusLaws(v.usage, NO_USAGE, NO_USAGE);
    CallsSpendNothing(ws, turn.calls, step, Spent(v, turn), false);
  }

  lemma TotalCons(turn: Turn, turns: seq<Turn>)
    ensures Total([turn] + turns) == Plus(UsageOf(turn), Total(turns))
  {
  }

  lemma {:induction false} TurnsSpendTotal(ws: Workspace, turns: seq<Turn>, step: nat, v: RunView)
    ensures RunTurns(ws, turns, step, v).view.usage == Plus(v.usage, Total(Taken(ws, turns, step, v)))
    decreases |turns|
  {
    if turns == [] {
      PlusLaws(v.usage, NO_USAGE, NO_USAGE);
    } else {
      var first := RunTurn(ws, turns[0], step, v);
      var later := if first.terminal.Some? then [] else Taken(ws, turns[1..], step + 1, first.view);
      TurnSpends(ws, turns[0], step, v);
      TotalCons(turns[0], later);
      PlusLaws(v.usage, UsageOf(turns[0]), Total(later));
      if first.terminal.None? {
        TurnsSpendTotal(ws, turns[1..], step + 1, first.view);
      } else {
        PlusLaws(UsageOf(turns[0]), NO_USAGE, NO_USAGE);
      }
    }
  }

  lemma {:induction false} TakenIsPrefix(ws: Workspace, turns: seq<Turn>, step: nat, v: RunView)
    ensures Taken(ws, turns, step, v) <= turns
    ensures RunTurns(ws, turns, step, v).terminal.None? ==> Taken(ws, turns, step, v) == turns
    decreases |turns|
  {
    if turns != [] {
      TakenIsPrefix(ws, turns[1..], step + 1, RunTurn(ws, turns[0], step, v).view);
    }
  }

  /** The result's usage is the sum over every turn the model took, the closing one included. */
  lemma UsageIsTheSum(ws: Workspace, turns: seq<Turn>, closing: Turn, seed: Option<AnswerResult>)
    ensures var main := RunTurns(ws, turns, 1, Start(seed));
            var taken := Taken(ws, turns, 1, Start(seed));
            var closes := main.terminal.None? && main.view.verified.None?;
            var events := Events(ws, turns, closing, seed);
            && taken <= turns && (main.terminal.None? ==> taken == turns)
            && events != [] && events[|events| - 1].Result?
            && events[|events| - 1].result.usage == Total(taken + if closes then [closing] else [])
  {
    RunIsSound(ws, turns, closing, seed);
    TakenIsPrefix(ws, turns, 1, Start(seed));
    RunSpendsTotal(ws, turns, closing, seed);
  }

  lemma RunSpendsTotal(ws: Workspace, turns: seq<Turn>, closing: Turn, seed: Option<AnswerResult>)
    ensures var main := RunTurns(ws, turns, 1, Start(seed));
            var taken := Taken(ws, turns, 1, Start(seed));
            var closes := main.terminal.None? && main.view.verified.None?;
            Run(ws, turns, closing, seed).view.usage == Total(taken + if closes then [closing] else [])
  {
    TurnsSpendTotal(ws, turns, 1, Start(seed));
    RunEnds(ws, turns, closing, seed);
    var main := RunTurns(ws, turns, 1, Start(seed));
    FromNothing(Total(Taken(ws, turns, 1, Start(seed))));
    SumUp(Taken(ws, turns, 1, Start(seed)), closing, main.terminal.None? && main.view.verified.None?);
  }

  lemma SumUp(taken: seq<Turn>, closing: Turn, closes: bool)
    ensures Total(taken + if closes then [closing] else [])
            == if closes then Plus(Total(taken), UsageOf(closing)) else Total(taken)
  {
    if closes {
      TotalSnoc(taken, closing);
    } else {
      assert taken + [] == taken;
    }
  }

  lemma RunEnds(ws: Workspace, turns: seq<Turn>, closing: Turn, seed: Option<AnswerResult>)
    ensures var main := RunTurns(ws, turns, 1, Start(seed));
            Run(ws, turns, closing, seed).view.usage
            == if main.terminal.None? && main.view.verified.None? then Plus(main.view.usage, UsageOf(closing))
               else main.view.usage
  {
    ClosingSpends(ws, closing, |turns|, RunTurns(ws, turns, 1, Start(seed)).view);
  }

  lemma ClosingSpends(ws: Workspace, closing: Turn, steps: nat, v: RunView)
    ensures RunClosing(ws, closing, steps, v).view.usage == Plus(v.usage, UsageOf(closing))
  {
    PlusLaws(v.usage, NO_USAGE, NO_USAGE);
    CallsSpendNothing(ws, closing.calls, steps, Spent(v, closing), true);
  }

  lemma {:induction false} TotalSnoc(turns: seq<Turn>, turn: Turn)
    ensures Total(turns + [turn]) == Plus(Total(turns), UsageOf(turn))
  {
    if turns == [] {
      assert turns + [turn] == [turn] + [];
      TotalCons(turn, []);
      PlusLaws(UsageOf(turn), NO_USAGE, NO_USAGE);
    } else {
      assert turns + [turn] == [turns[0]] + (turns[1..] + [turn]);
      TotalCons(turns[0], turns[1..] + [turn]);
      TotalSnoc(turns[1..], turn);
      PlusLaws(UsageOf(turns[0]), Total(turns[1..]), UsageOf(turn));
    }
  }
}
