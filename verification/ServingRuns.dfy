/** What every interleaving of calls and refreshes keeps. */
module ServingRuns {
  import opened Wrappers
  import opened Serving

  ghost predicate Next(w: World, s: State, t: State) {
    exists step :: Enabled(w, s, step) && t == Do(w, s, step)
  }

  ghost predicate Trace(w: World, run: seq<State>) {
    && run != [] && run[0] == INIT
    && forall i | 0 < i < |run| :: Next(w, run[i - 1], run[i])
  }

  ghost predicate Reachable(w: World, s: State) {
    exists run :: Trace(w, run) && run[|run| - 1] == s
  }

  lemma ReachInit(w: World)
    ensures Reachable(w, INIT)
  {
    assert Trace(w, [INIT]);
  }

  lemma ReachNext(w: World, s: State, step: Step) returns (t: State)
    requires Reachable(w, s) && Enabled(w, s, step)
    ensures t == Do(w, s, step) && Reachable(w, t)
  {
    t := Do(w, s, step);
    var run :| Trace(w, run) && run[|run| - 1] == s;
    var longer := run + [t];
    forall i | 0 < i < |longer| ensures Next(w, longer[i - 1], longer[i]) {
      if i < |run| {
        assert Next(w, run[i - 1], run[i]);
      }
    }
    assert Trace(w, longer);
  }

  // ---- What is known of an artifact -----------------------------------------------------------------

  /** The artifact was made for the key by a run that began after this read. */
  predicate Made(s: State, key: string, a: nat, read: Option<nat>) {
    && a in s.births && s.births[a].key == key && s.births[a].read == read
    && s.births[a].from <= RevOf(s, key) && (read.Some? ==> read.value <= s.births[a].from)
  }

  predicate EntryOk(w: World, s: State, key: string, e: Served) {
    && e.at <= s.clock && e.artifact in s.births
    && s.births[e.artifact].read.Some? && e.version == w.versionAt(key, s.births[e.artifact].read.value)
    && Made(s, key, e.artifact, s.births[e.artifact].read)
  }

  /** A served answer: its artifact is the key's own; components carry the version its maker had
      read before the run that made it; and its status keeps its promise. */
  predicate AnswerOk(w: World, s: State, key: string, x: Answer)
    requires key in w.contracts
  {
    var k := w.contracts[key];
    && x.artifact in s.births && Made(s, key, x.artifact, s.births[x.artifact].read) && x.age >= 0.0
    && StampOk(w, k, key, s.births[x.artifact].read, x.stamp)
    && StatusOk(w, k.policy, key, s.births[x.artifact].read, x)
  }

  predicate StampOk(w: World, k: Contract, key: string, made: Option<nat>, stamp: Option<string>) {
    if k.components then made.Some? && stamp == Some(w.versionAt(key, made.value)) else stamp.None?
  }

  predicate StatusOk(w: World, p: Policy, key: string, made: Option<nat>, x: Answer) {
    match x.status
    case Hit =>
      && p.enabled && x.read.Some? && made.Some?
      && w.versionAt(key, x.read.value) == w.versionAt(key, made.value) && Below(x.age, p.ttl)
    case Stale => p.enabled && x.read.Some? && made.Some? && Below(x.age, p.expire)
    case Miss => p.enabled && x.read.Some? && made == x.read && x.age == 0.0
    case Uncached => !p.enabled && made == x.read && x.age == 0.0
  }

  predicate CallInv(w: World, s: State, call: Call) {
    && call.key in w.contracts
    && var k := w.contracts[call.key];
       match call.pc
       case Reading => !k.internal && (k.policy.enabled || k.components)
       case HasRead(rev) => !k.internal && (k.policy.enabled || k.components) && rev <= RevOf(s, call.key)
       case Computing(under) =>
         && !k.internal && (under.Some? <==> k.policy.enabled || k.components)
         && (under.Some? ==> under.value <= RevOf(s, call.key))
       case Computed(under, a) =>
         !k.internal && (under.Some? <==> k.policy.enabled || k.components) && Made(s, call.key, a, under)
       case Answered(x) => !k.internal && AnswerOk(w, s, call.key, x)
       case _ => true
  }

  predicate TaskInv(s: State, task: Task) {
    match task.pc
    case TaskRead(rev) => rev <= RevOf(s, task.key)
    case TaskComputing(rev) => rev <= RevOf(s, task.key)
    case TaskComputed(rev, a) => Made(s, task.key, a, Some(rev))
    case _ => true
  }

  ghost predicate Deduped(s: State) {
    && (forall t | t in s.tasks :: s.tasks[t].key in s.inflight)
    && (forall t, u | t in s.tasks && u in s.tasks && s.tasks[t].key == s.tasks[u].key :: t == u)
    && (forall key | key in s.inflight :: exists t :: t in s.tasks && s.tasks[t].key == key)
  }

  ghost predicate Inv(w: World, s: State) {
    && (forall key | key in s.last :: EntryOk(w, s, key, s.last[key]))
    && (forall c | c in s.calls :: CallInv(w, s, s.calls[c]))
    && (forall t | t in s.tasks :: TaskInv(s, s.tasks[t]))
    && Deduped(s)
  }

  // ---- Nothing known is taken back --------------------------------------------------------------------

  ghost predicate Grows(s: State, t: State) {
    && s.clock <= t.clock
    && (forall key :: RevOf(s, key) <= RevOf(t, key))
    && (forall a | a in s.births :: a in t.births && t.births[a] == s.births[a])
  }

  lemma StepGrows(w: World, s: State, step: Step)
    requires Enabled(w, s, step)
    ensures Grows(s, Do(w, s, step))
  {
  }

  lemma MadeStays(s: State, t: State, key: string, a: nat, read: Option<nat>)
    requires Grows(s, t) && Made(s, key, a, read)
    ensures Made(t, key, a, read)
  {
  }

  lemma EntryStays(w: World, s: State, t: State, key: string, e: Served)
    requires Grows(s, t) && EntryOk(w, s, key, e)
    ensures EntryOk(w, t, key, e)
  {
  }

  lemma CallStays(w: World, s: State, t: State, call: Call)
    requires Grows(s, t) && CallInv(w, s, call)
    ensures CallInv(w, t, call)
  {
  }

  lemma TaskStays(s: State, t: State, task: Task)
    requires Grows(s, t) && TaskInv(s, task)
    ensures TaskInv(t, task)
  {
  }

  // ---- Each step keeps the invariant -------------------------------------------------------------------

  lemma CallMoves(w: World, s: State, c: nat, e: CallEvent)
    requires Inv(w, s) && Enabled(w, s, CallStep(c, e))
    ensures var t := DoCall(w, s, c, e); CallInv(w, t, t.calls[c])
  {
    var call := s.calls[c];
    assert CallInv(w, s, call);
    StepGrows(w, s, CallStep(c, e));
    if e.Decide? {
      DecisionOk(w, s, c, e);
    } else if e.Finish? {
      MadeStays(s, DoCall(w, s, c, e), call.key, call.pc.artifact, call.pc.under);
    }
  }

  lemma DecisionOk(w: World, s: State, c: nat, e: CallEvent)
    requires Inv(w, s) && Enabled(w, s, CallStep(c, e)) && e.Decide?
    ensures var t := DoCall(w, s, c, e); CallInv(w, t, t.calls[c])
  {
    var t, call := DoCall(w, s, c, e), s.calls[c];
    assert CallInv(w, s, call);
    if t.calls[c].pc.Answered? {
      StepGrows(w, s, CallStep(c, e));
      assert EntryOk(w, s, call.key, s.last[call.key]);
      EntryStays(w, s, t, call.key, s.last[call.key]);
    }
  }

  lemma StepKeepsCalls(w: World, s: State, step: Step)
    requires Inv(w, s) && Enabled(w, s, step)
    ensures var t := Do(w, s, step); forall c | c in t.calls :: CallInv(w, t, t.calls[c])
  {
    var t := Do(w, s, step);
    StepGrows(w, s, step);
    forall c | c in t.calls ensures CallInv(w, t, t.calls[c]) {
      if step.CallStep? && step.call == c {
        CallMoves(w, s, c, step.event);
      } else if c in s.calls {
        CallStays(w, s, t, s.calls[c]);
      }
    }
  }

  /** The entry a step stores. */
  function Storing(w: World, s: State, step: Step): Option<Served>
    requires Enabled(w, s, step)
  {
    match step
    case CallStep(c, e) => Stored(w, s, s.calls[c], e)
    case TaskStep(t, e) => TaskStored(w, s, s.tasks[t], e)
    case _ => None
  }

  function KeyOf(s: State, step: Step): string {
    match step
    case CallStep(c, e) => if c in s.calls then s.calls[c].key else ""
    case TaskStep(t, e) => if t in s.tasks then s.tasks[t].key else ""
    case _ => ""
  }

  lemma OnlyStoringChanges(w: World, s: State, step: Step)
    requires Enabled(w, s, step)
    ensures Do(w, s, step).last == Keep(s.last, KeyOf(s, step), Storing(w, s, step))
  {
  }

  /** What is stored was computed for its key, under the version read before it ran. */
  lemma StoredIsOk(w: World, s: State, step: Step)
    requires Inv(w, s) && Enabled(w, s, step) && Storing(w, s, step).Some?
    ensures EntryOk(w, s, KeyOf(s, step), Storing(w, s, step).value) && Storing(w, s, step).value.at == s.clock
  {
    match step
    case CallStep(c, e) => assert CallInv(w, s, s.calls[c]);
    case TaskStep(t, e) => assert TaskInv(s, s.tasks[t]);
  }

  lemma StepKeepsEntries(w: World, s: State, step: Step)
    requires Inv(w, s) && Enabled(w, s, step)
    ensures var t := Do(w, s, step); forall key | key in t.last :: EntryOk(w, t, key, t.last[key])
  {
    var t := Do(w, s, step);
    StepGrows(w, s, step);
    OnlyStoringChanges(w, s, step);
    if Storing(w, s, step).Some? {
      StoredIsOk(w, s, step);
    }
    forall key | key in t.last ensures EntryOk(w, t, key, t.last[key]) {
      EntryStays(w, s, t, key, t.last[key]);
    }
  }

  lemma TaskMoves(w: World, s: State, t: nat, e: TaskEvent)
    requires Inv(w, s) && Enabled(w, s, TaskStep(t, e)) && TaskTo(s, s.tasks[t], e).Some?
    ensures TaskInv(DoTask(w, s, t, e), DoTask(w, s, t, e).tasks[t])
  {
    assert TaskInv(s, s.tasks[t]);
  }

  lemma StepKeepsTasks(w: World, s: State, step: Step)
    requires Inv(w, s) && Enabled(w, s, step)
    ensures var t := Do(w, s, step); forall u | u in t.tasks :: TaskInv(t, t.tasks[u])
  {
    var t := Do(w, s, step);
    StepGrows(w, s, step);
    forall u | u in t.tasks ensures TaskInv(t, t.tasks[u]) {
      if step.TaskStep? && step.task == u {
        TaskMoves(w, s, u, step.work);
      } else if u in s.tasks {
        TaskStays(s, t, s.tasks[u]);
      }
    }
  }

  lemma StartKeepsDeduped(s: State, t: State, u: nat, key: string)
    requires Deduped(s) && key !in s.inflight && u !in s.tasks
    requires t.tasks == s.tasks[u := Task(key, Spawned)] && t.inflight == s.inflight + {key}
    ensures Deduped(t)
  {
    forall k | k in t.inflight ensures exists v :: v in t.tasks && t.tasks[v].key == k {
      if k == key {
        assert t.tasks[u].key == k;
      } else {
        var v :| v in s.tasks && s.tasks[v].key == k;
        assert t.tasks[v].key == k;
      }
    }
  }

  lemma MoveKeepsDeduped(s: State, t: State, u: nat, pc: TaskPc)
    requires Deduped(s) && u in s.tasks && t.inflight == s.inflight
    requires t.tasks == s.tasks[u := Task(s.tasks[u].key, pc)]
    ensures Deduped(t)
  {
    forall k | k in t.inflight ensures exists v :: v in t.tasks && t.tasks[v].key == k {
      var v :| v in s.tasks && s.tasks[v].key == k;
      assert t.tasks[v].key == k;
    }
  }

  lemma EndKeepsDeduped(s: State, t: State, u: nat)
    requires Deduped(s) && u in s.tasks
    requires t.tasks == s.tasks - {u} && t.inflight == s.inflight - {s.tasks[u].key}
    ensures Deduped(t)
  {
    forall k | k in t.inflight ensures exists v :: v in t.tasks && t.tasks[v].key == k {
      var v :| v in s.tasks && s.tasks[v].key == k;
      assert t.tasks[v].key == k;
    }
  }

  lemma StepKeepsDeduped(w: World, s: State, step: Step)
    requires Deduped(s) && Enabled(w, s, step)
    ensures Deduped(Do(w, s, step))
  {
    var t := Do(w, s, step);
    match step
    case TaskStep(u, e) =>
      var to := TaskTo(s, s.tasks[u], e);
      if to.Some? {
        MoveKeepsDeduped(s, t, u, to.value);
      } else {
        EndKeepsDeduped(s, t, u);
      }
    case CallStep(c, e) =>
      if Starts(w, s, s.calls[c], e) {
        StartKeepsDeduped(s, t, e.task, s.calls[c].key);
      }
    case _ =>
  }

  lemma StepKeepsInv(w: World, s: State, step: Step)
    requires Inv(w, s) && Enabled(w, s, step)
    ensures Inv(w, Do(w, s, step))
  {
    StepKeepsCalls(w, s, step);
    StepKeepsEntries(w, s, step);
    StepKeepsTasks(w, s, step);
    StepKeepsDeduped(w, s, step);
  }

  // ---- One event per call --------------------------------------------------------------------------------

  function Count(events: seq<Event>, c: nat): nat {
    if events == [] then 0
    else Count(events[..|events| - 1], c) + if events[|events| - 1].call == c then 1 else 0
  }

  /** A call has recorded as much as it should have by now. */
  predicate Recorded(s: State, c: nat) {
    Count(s.events, c) == if c in s.calls && (s.calls[c].pc.Answered? || s.calls[c].pc.Refused?) then 1 else 0
  }

  /** What an event says of its call. */
  predicate EventOk(w: World, s: State, e: Event) {
    && e.call in s.calls && s.calls[e.call].key in w.contracts
    && Said(w, e.call, s.calls[e.call].key, s.calls[e.call].pc) == [e]
  }

  ghost predicate Audited(w: World, s: State) {
    && (forall c :: Recorded(s, c))
    && (forall i | 0 <= i < |s.events| :: EventOk(w, s, s.events[i]))
  }

  lemma StepRecords(w: World, s: State, step: Step, c: nat)
    requires Enabled(w, s, step) && Recorded(s, c)
    ensures Recorded(Do(w, s, step), c)
  {
    if step.CallStep? {
      var call := s.calls[step.call];
      CountSaid(w, s.events, step.call, call.key, CallTo(w, s, call, step.event), c);
    }
  }

  lemma CountSaid(w: World, events: seq<Event>, c: nat, key: string, to: CallPc, d: nat)
    requires key in w.contracts
    ensures Count(events + Said(w, c, key, to), d)
            == Count(events, d) + if d == c && (to.Answered? || to.Refused?) then 1 else 0
  {
    var said := Said(w, c, key, to);
    if said != [] {
      assert (events + said)[..|events|] == events;
    } else {
      assert events + said == events;
    }
  }

  lemma StepKeepsEvent(w: World, s: State, step: Step, i: nat)
    requires Audited(w, s) && Enabled(w, s, step) && i < |Do(w, s, step).events|
    ensures EventOk(w, Do(w, s, step), Do(w, s, step).events[i])
  {
  }

  lemma StepKeepsAudited(w: World, s: State, step: Step)
    requires Inv(w, s) && Audited(w, s) && Enabled(w, s, step)
    ensures Audited(w, Do(w, s, step))
  {
    var t := Do(w, s, step);
    forall c ensures Recorded(t, c) {
      StepRecords(w, s, step, c);
    }
    forall i | 0 <= i < |t.events| ensures EventOk(w, t, t.events[i]) {
      StepKeepsEvent(w, s, step, i);
    }
  }

  lemma {:induction false} TraceKeepsInv(w: World, run: seq<State>, i: nat)
    requires Trace(w, run) && i < |run|
    ensures Inv(w, run[i]) && Audited(w, run[i])
  {
    if i > 0 {
      TraceKeepsInv(w, run, i - 1);
      assert Next(w, run[i - 1], run[i]);
      var step :| Enabled(w, run[i - 1], step) && run[i] == Do(w, run[i - 1], step);
      StepKeepsInv(w, run[i - 1], step);
      StepKeepsAudited(w, run[i - 1], step);
    }
  }

  lemma ReachableIsSound(w: World, s: State)
    requires Reachable(w, s)
    ensures Inv(w, s) && Audited(w, s)
  {
    var run :| Trace(w, run) && run[|run| - 1] == s;
    TraceKeepsInv(w, run, |run| - 1);
  }

  // ---- Main results -----------------------------------------------------------------------------------------

  /** However calls and refreshes interleave, every answer keeps what its status promises. */
  lemma AnswersAreSound(w: World, s: State, c: nat)
    requires Reachable(w, s) && c in s.calls && s.calls[c].pc.Answered?
    ensures s.calls[c].key in w.contracts && !w.contracts[s.calls[c].key].internal
    ensures AnswerOk(w, s, s.calls[c].key, s.calls[c].pc.answer)
  {
    ReachableIsSound(w, s);
    assert CallInv(w, s, s.calls[c]);
  }

  /** A key has a refresh under way exactly when it is marked, and never two. */
  lemma OneRefreshPerKey(w: World, s: State, key: string)
    requires Reachable(w, s)
    ensures key in s.inflight <==> exists t :: t in s.tasks && s.tasks[t].key == key
    ensures forall t, u | t in s.tasks && u in s.tasks && s.tasks[t].key == s.tasks[u].key :: t == u
  {
    ReachableIsSound(w, s);
  }

  /** A call that has read a version never waits for a current entry young enough, nor for an older
      one within `expire`: the first is a hit, and the second is served stale with exactly one
      refresh of its key under way behind it. With neither, it computes, and nothing is served. */
  lemma DecisionIsExact(w: World, s: State, c: nat, task: nat)
    requires Reachable(w, s) && Enabled(w, s, CallStep(c, Decide(task))) && w.contracts[s.calls[c].key].policy.enabled
    ensures var key, p := s.calls[c].key, w.contracts[s.calls[c].key].policy;
            var t := Do(w, s, CallStep(c, Decide(task)));
            var pc := t.calls[c].pc;
            var current := key in s.last && s.last[key].version == w.versionAt(key, s.calls[c].pc.rev);
            var age := if key in s.last then s.clock - s.last[key].at else 0.0;
            && (current && Below(age, p.ttl)
                <==> pc.Answered? && pc.answer.status == Hit && t.tasks == s.tasks)
            && (key in s.last && !(current && Below(age, p.ttl)) && Below(age, p.expire)
                <==> pc.Answered? && pc.answer.status == Stale)
            && (pc.Answered? ==> pc.answer.age == age && AnswerOk(w, t, key, pc.answer))
            && (pc.Answered? && pc.answer.status == Stale
                ==> exists u :: u in t.tasks && t.tasks[u].key == key
                                && forall v | v in t.tasks && t.tasks[v].key == key :: v == u)
            && (!pc.Answered? <==> pc == Computing(Some(s.calls[c].pc.rev)))
  {
    var t := ReachNext(w, s, CallStep(c, Decide(task)));
    var key := s.calls[c].key;
    OneRefreshPerKey(w, t, key);
    if t.calls[c].pc.Answered? {
      AnswersAreSound(w, t, c);
    }
  }

  /** A call refused without an internal derivation, a version or a result: it raises, and from
      there it can only record its error, or be cancelled. */
  lemma FailureIsRaised(w: World, s: State, c: nat, e: CallEvent)
    requires Enabled(w, s, CallStep(c, e))
    ensures var call, to := s.calls[c], Do(w, s, CallStep(c, e)).calls[c].pc;
            && (to.Raised? <==>
                  || (e.Begin? && w.contracts[call.key].internal)
                  || e == ReadVersion(false) || (e.Compute? && !e.done))
            && (to.Refused? <==> call.pc.Raised? && !e.Cancel?)
            && (to.Cancelled? <==> e.Cancel?)
  {
  }

  /** The answers kept change only when a computation succeeds, and then only its own key's: a
      failed refresh, or a call that fails or is cancelled, leaves every one as it was. */
  lemma OnlySuccessReplaces(w: World, s: State, step: Step)
    requires Reachable(w, s) && Enabled(w, s, step)
    ensures var t := Do(w, s, step);
            if (step.CallStep? && step.event.Finish? && w.contracts[s.calls[step.call].key].policy.enabled)
               || (step.TaskStep? && step.work.TaskStores?)
            then exists e ::
              t.last == s.last[KeyOf(s, step) := e] && e.at == s.clock && EntryOk(w, s, KeyOf(s, step), e)
            else t.last == s.last
  {
    ReachableIsSound(w, s);
    OnlyStoringChanges(w, s, step);
    if Storing(w, s, step).Some? {
      StoredIsOk(w, s, step);
    } else if step.CallStep? {
      assert CallInv(w, s, s.calls[step.call]);
    }
  }

  /** A call that has returned or raised has recorded exactly one event, which says which; a call
      still running or cancelled has recorded none. */
  lemma OneEventPerCall(w: World, s: State, c: nat)
    requires Reachable(w, s) && c in s.calls
    ensures Count(s.events, c) == if s.calls[c].pc.Answered? || s.calls[c].pc.Refused? then 1 else 0
    ensures forall i | 0 <= i < |s.events| && s.events[i].call == c ::
              var e, pc := s.events[i], s.calls[c].pc;
              && s.calls[c].key in w.contracts
              && (e.ok <==> pc.Answered?)
              && (e.version.Some? <==>
                    pc.Answered? && w.contracts[s.calls[c].key].policy.enabled && pc.answer.read.Some?)
              && (e.version.Some? ==> e.version.value == w.versionAt(s.calls[c].key, pc.answer.read.value))
  {
    ReachableIsSound(w, s);
    assert Recorded(s, c);
  }

  /** A call cancelled while it waits leaves no event at all. */
  lemma CancelledCallIsSilent(w: World, key: string) returns (s: State)
    requires key in w.contracts && !w.contracts[key].internal && w.contracts[key].policy.enabled
    ensures Reachable(w, s) && 0 in s.calls && s.calls[0] == Call(key, Cancelled) && s.events == []
  {
    s := FirstCall(w, key);
    s := ReachNext(w, s, CallStep(0, Cancel));
  }

  // ---- How old an answer can be -------------------------------------------------------------------------------

  ghost predicate NeverExpired(w: World, key: string)
    requires key in w.contracts
  {
    forall s, c | Reachable(w, s) && c in s.calls && s.calls[c].key == key && s.calls[c].pc.Answered? ::
      Below(s.calls[c].pc.answer.age, w.contracts[key].policy.expire)
  }

  lemma FirstCall(w: World, key: string) returns (s: State)
    requires key in w.contracts && !w.contracts[key].internal && w.contracts[key].policy.enabled
    ensures Reachable(w, s) && s == INIT.(calls := map[0 := Call(key, Computing(Some(0)))])
  {
    ReachInit(w);
    s := ReachNext(w, INIT, Enter(0, key));
    s := ReachNext(w, s, CallStep(0, Begin));
    s := ReachNext(w, s, CallStep(0, ReadVersion(true)));
    s := ReachNext(w, s, CallStep(0, Decide(0)));
    assert s.calls == map[0 := Call(key, Computing(Some(0)))];
  }

  /** One call has been answered at the start, and a while has passed. */
  lemma Primed(w: World, key: string, wait: real) returns (s: State)
    requires key in w.contracts && !w.contracts[key].internal && w.contracts[key].policy.enabled && wait >= 0.0
    ensures Reachable(w, s) && s.clock == wait && s.last == map[key := Served(0, w.versionAt(key, 0), 0.0)]
    ensures s.revs == map[] && s.calls.Keys == {0} && s.tasks == map[] && s.inflight == {}
  {
    s := FirstCall(w, key);
    s := ReachNext(w, s, CallStep(0, Compute(true, 0)));
    s := ReachNext(w, s, CallStep(0, Finish));
    s := ReachNext(w, s, Tick(wait));
  }

  /** With no ttl, an answer whose data has not changed is served at any age. */
  lemma OldHit(w: World, key: string) returns (s: State)
    requires key in w.contracts
    requires var k := w.contracts[key]; !k.internal && k.policy.enabled && ValidPolicy(k.policy)
    requires w.contracts[key].policy.ttl.None? && w.contracts[key].policy.expire.Some?
    ensures Reachable(w, s) && 1 in s.calls && s.calls[1].key == key && s.calls[1].pc.Answered?
    ensures s.calls[1].pc.answer.status == Hit && s.calls[1].pc.answer.age == w.contracts[key].policy.expire.value
  {
    s := Primed(w, key, w.contracts[key].policy.expire.value);
    s := ReachNext(w, s, Enter(1, key));
    s := ReachNext(w, s, CallStep(1, Begin));
    s := ReachNext(w, s, CallStep(1, ReadVersion(true)));
    s := ReachNext(w, s, CallStep(1, Decide(0)));
  }

  /** No answer is ever as old as `expire`, exactly when a ttl is set beside it. */
  lemma NeverExpiredExactly(w: World, key: string)
    requires key in w.contracts
    requires var k := w.contracts[key]; !k.internal && k.policy.enabled && ValidPolicy(k.policy)
    ensures NeverExpired(w, key) <==> w.contracts[key].policy.expire.None? || w.contracts[key].policy.ttl.Some?
  {
    var p := w.contracts[key].policy;
    if p.expire.Some? && p.ttl.None? {
      var s := OldHit(w, key);
    } else {
      forall s, c | Reachable(w, s) && c in s.calls && s.calls[c].key == key && s.calls[c].pc.Answered?
        ensures Below(s.calls[c].pc.answer.age, p.expire)
      {
        AgeIsBelow(w, s, c);
      }
    }
  }

  lemma AgeIsBelow(w: World, s: State, c: nat)
    requires Reachable(w, s) && c in s.calls && s.calls[c].pc.Answered? && s.calls[c].key in w.contracts
    requires var p := w.contracts[s.calls[c].key].policy;
             ValidPolicy(p) && p.enabled && (p.expire.None? || p.ttl.Some?)
    ensures Below(s.calls[c].pc.answer.age, w.contracts[s.calls[c].key].policy.expire)
  {
    AnswersAreSound(w, s, c);
  }
}
