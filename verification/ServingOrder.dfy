/** When an entry can be replaced by one computed from older data. */
module ServingOrder {
  import opened Wrappers
  import opened Serving
  import opened ServingRuns

  /** A call that has read a version and may still store what it computes. */
  predicate CallHolds(w: World, call: Call, key: string) {
    call.key == key && key in w.contracts && w.contracts[key].policy.enabled
    && (call.pc.HasRead? || (call.pc.Computing? && call.pc.under.Some?) || (call.pc.Computed? && call.pc.under.Some?))
  }

  function CallRev(call: Call): nat {
    match call.pc
    case HasRead(rev) => rev
    case Computing(under) => if under.Some? then under.value else 0
    case Computed(under, _) => if under.Some? then under.value else 0
    case _ => 0
  }

  predicate TaskHolds(task: Task, key: string) {
    task.key == key && (task.pc.TaskRead? || task.pc.TaskComputing? || task.pc.TaskComputed?)
  }

  function TaskRev(task: Task): nat {
    match task.pc
    case TaskRead(rev) => rev
    case TaskComputing(rev) => rev
    case TaskComputed(rev, _) => rev
    case _ => 0
  }

  ghost predicate Held(w: World, s: State, key: string) {
    || (exists c :: c in s.calls && CallHolds(w, s.calls[c], key))
    || (exists t :: t in s.tasks && TaskHolds(s.tasks[t], key))
  }

  /** The key whose version the step reads. */
  function ReadsFor(s: State, step: Step): Option<string> {
    match step
    case CallStep(c, ReadVersion(ok)) => if ok && c in s.calls then Some(s.calls[c].key) else None
    case TaskStep(t, TaskReads(ok)) => if ok && t in s.tasks then Some(s.tasks[t].key) else None
    case _ => None
  }

  /** No version of a key is read while a computation of it, from an earlier read, is under way. */
  ghost predicate Orderly(w: World, s: State, step: Step) {
    ReadsFor(s, step).Some? ==> !Held(w, s, ReadsFor(s, step).value)
  }

  ghost predicate Goes(w: World, s: State, t: State) {
    exists step :: Enabled(w, s, step) && Orderly(w, s, step) && t == Do(w, s, step)
  }

  /** A run all of whose steps are orderly. */
  ghost predicate Course(w: World, run: seq<State>) {
    && run != [] && run[0] == INIT
    && forall i | 0 < i < |run| :: Goes(w, run[i - 1], run[i])
  }

  ghost predicate Comes(w: World, s: State) {
    exists run :: Course(w, run) && run[|run| - 1] == s
  }

  lemma CourseIsTrace(w: World, run: seq<State>)
    requires Course(w, run)
    ensures Trace(w, run)
  {
    forall i | 0 < i < |run| ensures Next(w, run[i - 1], run[i]) {
      assert Goes(w, run[i - 1], run[i]);
    }
  }

  // ---- The revision of an entry ----------------------------------------------------------------------

  /** The revision an entry was computed from. */
  function EntryRev(s: State, e: Served): nat {
    if e.artifact in s.births && s.births[e.artifact].read.Some? then s.births[e.artifact].read.value else 0
  }

  predicate GoesBack(w: World, s: State, step: Step, key: string)
    requires Enabled(w, s, step)
  {
    var t := Do(w, s, step);
    key in s.last && key in t.last && EntryRev(t, t.last[key]) < EntryRev(s, s.last[key])
  }

  /** One holder of a key at a time. */
  ghost predicate OneHolder(w: World, s: State) {
    && (forall c, d, key |
          c in s.calls && d in s.calls && CallHolds(w, s.calls[c], key) && CallHolds(w, s.calls[d], key) :: c == d)
    && (forall t, u, key |
          t in s.tasks && u in s.tasks && TaskHolds(s.tasks[t], key) && TaskHolds(s.tasks[u], key) :: t == u)
    && (forall c, t, key |
          c in s.calls && t in s.tasks && CallHolds(w, s.calls[c], key) :: !TaskHolds(s.tasks[t], key))
  }

  /** One holder of a key at a time, and none behind the entry it may replace. */
  ghost predicate InOrder(w: World, s: State) {
    && OneHolder(w, s)
    && (forall c, key | c in s.calls && CallHolds(w, s.calls[c], key) && key in s.last ::
          EntryRev(s, s.last[key]) <= CallRev(s.calls[c]))
    && (forall t, key | t in s.tasks && TaskHolds(s.tasks[t], key) && key in s.last ::
          EntryRev(s, s.last[key]) <= TaskRev(s.tasks[t]))
  }

  /** What a step stores was computed from the revision its call or refresh has read. */
  lemma StoresOwnRevision(w: World, s: State, step: Step)
    requires Inv(w, s) && Enabled(w, s, step) && Storing(w, s, step).Some?
    ensures match step
            case CallStep(c, _) =>
              c in s.calls && CallHolds(w, s.calls[c], KeyOf(s, step))
              && EntryRev(s, Storing(w, s, step).value) == CallRev(s.calls[c])
            case TaskStep(t, _) =>
              t in s.tasks && TaskHolds(s.tasks[t], KeyOf(s, step))
              && EntryRev(s, Storing(w, s, step).value) == TaskRev(s.tasks[t])
            case _ => false
  {
    match step
    case CallStep(c, _) => assert CallInv(w, s, s.calls[c]);
    case TaskStep(t, _) => assert TaskInv(s, s.tasks[t]);
  }

  /** What an entry was computed from does not change while it stands. */
  lemma RevStays(w: World, s: State, step: Step, e: Served)
    requires Enabled(w, s, step) && e.artifact in s.births
    ensures EntryRev(Do(w, s, step), e) == EntryRev(s, e)
  {
    StepGrows(w, s, step);
  }

  /** The entry after a step: the one before, or one no older. */
  lemma EntryMovesOn(w: World, s: State, step: Step, key: string)
    requires Inv(w, s) && InOrder(w, s) && Enabled(w, s, step) && key in Do(w, s, step).last
    ensures !GoesBack(w, s, step, key)
    ensures var t := Do(w, s, step);
            (key != KeyOf(s, step) || Storing(w, s, step).None?)
            ==> key in s.last && t.last[key] == s.last[key] && EntryRev(t, t.last[key]) == EntryRev(s, s.last[key])
  {
    var t := Do(w, s, step);
    OnlyStoringChanges(w, s, step);
    if Storing(w, s, step).Some? && KeyOf(s, step) == key {
      StoresOwnRevision(w, s, step);
      StoredIsOk(w, s, step);
      RevStays(w, s, step, Storing(w, s, step).value);
    } else {
      assert EntryOk(w, s, key, s.last[key]);
      RevStays(w, s, step, s.last[key]);
    }
  }

  // ---- Orderly runs ------------------------------------------------------------------------------------

  /** A call that holds a read after a step held it before, or has just read. */
  lemma CallHolderIs(w: World, s: State, step: Step, c: nat, key: string)
    requires Enabled(w, s, step) && c in Do(w, s, step).calls && CallHolds(w, Do(w, s, step).calls[c], key)
    ensures c in s.calls && (ReadsFor(s, step) != Some(key) || step.TaskStep? || step.call != c
                             ==> CallHolds(w, s.calls[c], key)
                                 && CallRev(Do(w, s, step).calls[c]) == CallRev(s.calls[c]))
    ensures ReadsFor(s, step) == Some(key) && step.CallStep? && step.call == c
            ==> CallRev(Do(w, s, step).calls[c]) == RevOf(s, key)
    ensures Storing(w, s, step).Some? && step.CallStep? ==> step.call != c
  {
  }

  lemma TaskHolderIs(w: World, s: State, step: Step, t: nat, key: string)
    requires Enabled(w, s, step) && t in Do(w, s, step).tasks && TaskHolds(Do(w, s, step).tasks[t], key)
    ensures t in s.tasks && (ReadsFor(s, step) != Some(key) || step.CallStep? || step.task != t
                             ==> TaskHolds(s.tasks[t], key) && TaskRev(Do(w, s, step).tasks[t]) == TaskRev(s.tasks[t]))
    ensures ReadsFor(s, step) == Some(key) && step.TaskStep? && step.task == t
            ==> TaskRev(Do(w, s, step).tasks[t]) == RevOf(s, key)
    ensures Storing(w, s, step).Some? && step.TaskStep? ==> step.task != t
  {
  }

  lemma HoldersStayOne(w: World, s: State, step: Step)
    requires InOrder(w, s) && Enabled(w, s, step) && Orderly(w, s, step)
    ensures OneHolder(w, Do(w, s, step))
  {
    var t := Do(w, s, step);
    forall c, d, key | c in t.calls && d in t.calls && CallHolds(w, t.calls[c], key) && CallHolds(w, t.calls[d], key)
      ensures c == d
    {
      CallHolderIs(w, s, step, c, key);
      CallHolderIs(w, s, step, d, key);
    }
    forall v, u, key | v in t.tasks && u in t.tasks && TaskHolds(t.tasks[v], key) && TaskHolds(t.tasks[u], key)
      ensures v == u
    {
      TaskHolderIs(w, s, step, v, key);
      TaskHolderIs(w, s, step, u, key);
    }
    forall c, v, key | c in t.calls && v in t.tasks && CallHolds(w, t.calls[c], key)
      ensures !TaskHolds(t.tasks[v], key)
    {
      CallHolderIs(w, s, step, c, key);
      if TaskHolds(t.tasks[v], key) {
        TaskHolderIs(w, s, step, v, key);
      }
    }
  }

  lemma EntryIsRead(w: World, s: State, key: string)
    requires Inv(w, s) && key in s.last
    ensures EntryRev(s, s.last[key]) <= RevOf(s, key)
  {
    assert EntryOk(w, s, key, s.last[key]);
  }

  lemma CallStaysAhead(w: World, s: State, step: Step, c: nat, key: string)
    requires Inv(w, s) && InOrder(w, s) && Enabled(w, s, step) && Orderly(w, s, step)
    requires c in Do(w, s, step).calls && CallHolds(w, Do(w, s, step).calls[c], key) && key in Do(w, s, step).last
    ensures var t := Do(w, s, step); EntryRev(t, t.last[key]) <= CallRev(t.calls[c])
  {
    CallHolderIs(w, s, step, c, key);
    EntryMovesOn(w, s, step, key);
    if Storing(w, s, step).Some? && KeyOf(s, step) == key {
      StoresOwnRevision(w, s, step);
    } else {
      EntryIsRead(w, s, key);
    }
  }

  lemma TaskStaysAhead(w: World, s: State, step: Step, u: nat, key: string)
    requires Inv(w, s) && InOrder(w, s) && Enabled(w, s, step) && Orderly(w, s, step)
    requires u in Do(w, s, step).tasks && TaskHolds(Do(w, s, step).tasks[u], key) && key in Do(w, s, step).last
    ensures var t := Do(w, s, step); EntryRev(t, t.last[key]) <= TaskRev(t.tasks[u])
  {
    TaskHolderIs(w, s, step, u, key);
    EntryMovesOn(w, s, step, key);
    if Storing(w, s, step).Some? && KeyOf(s, step) == key {
      StoresOwnRevision(w, s, step);
    } else {
      EntryIsRead(w, s, key);
    }
  }

  lemma StepKeepsOrder(w: World, s: State, step: Step)
    requires Inv(w, s) && InOrder(w, s) && Enabled(w, s, step) && Orderly(w, s, step)
    ensures InOrder(w, Do(w, s, step))
  {
    var t := Do(w, s, step);
    HoldersStayOne(w, s, step);
    forall c, key | c in t.calls && CallHolds(w, t.calls[c], key) && key in t.last
      ensures EntryRev(t, t.last[key]) <= CallRev(t.calls[c])
    {
      CallStaysAhead(w, s, step, c, key);
    }
    forall u, key | u in t.tasks && TaskHolds(t.tasks[u], key) && key in t.last
      ensures EntryRev(t, t.last[key]) <= TaskRev(t.tasks[u])
    {
      TaskStaysAhead(w, s, step, u, key);
    }
  }

  lemma {:induction false} CourseKeepsOrder(w: World, run: seq<State>, i: nat)
    requires Course(w, run) && i < |run|
    ensures Inv(w, run[i]) && InOrder(w, run[i])
  {
    CourseIsTrace(w, run);
    TraceKeepsInv(w, run, i);
    if i > 0 {
      CourseKeepsOrder(w, run, i - 1);
      assert Goes(w, run[i - 1], run[i]);
      var step :| Enabled(w, run[i - 1], step) && Orderly(w, run[i - 1], step) && run[i] == Do(w, run[i - 1], step);
      StepKeepsOrder(w, run[i - 1], step);
    }
  }

  /** As long as no version is read while a computation from an earlier read of its key is under way,
      no entry goes back. */
  lemma OrderlyNeverGoesBack(w: World, s: State, step: Step, key: string)
    requires Comes(w, s) && Enabled(w, s, step) && Orderly(w, s, step)
    ensures !GoesBack(w, s, step, key)
  {
    var run :| Course(w, run) && run[|run| - 1] == s;
    CourseKeepsOrder(w, run, |run| - 1);
    if key in Do(w, s, step).last {
      EntryMovesOn(w, s, step, key);
    }
  }

  // ---- Exactly when an entry goes back -------------------------------------------------------------------

  ghost predicate Executes(w: World, run: seq<State>, steps: seq<Step>) {
    && |run| == |steps| + 1 && run[0] == INIT
    && forall i | 0 <= i < |steps| :: Enabled(w, run[i], steps[i]) && run[i + 1] == Do(w, run[i], steps[i])
  }

  lemma {:induction false} ExecutesSoundly(w: World, run: seq<State>, steps: seq<Step>, i: nat)
    requires Executes(w, run, steps) && i < |run|
    ensures Inv(w, run[i])
  {
    forall k | 0 < k < |run| ensures Next(w, run[k - 1], run[k]) {
      assert Enabled(w, run[k - 1], steps[k - 1]);
    }
    TraceKeepsInv(w, run, i);
  }

  /** The revision read by the computation that a step stores under the key. */
  function StoredRev(w: World, s: State, step: Step, key: string): Option<nat>
    requires Enabled(w, s, step)
  {
    if Storing(w, s, step).None? || KeyOf(s, step) != key then None
    else match step
      case CallStep(c, _) => Some(CallRev(s.calls[c]))
      case TaskStep(t, _) => Some(TaskRev(s.tasks[t]))
      case _ => None
  }

  function RevAt(w: World, run: seq<State>, steps: seq<Step>, key: string, i: nat): Option<nat>
    requires Executes(w, run, steps) && i < |steps|
  {
    StoredRev(w, run[i], steps[i], key)
  }

  lemma StepSets(w: World, s: State, step: Step, key: string)
    requires Inv(w, s) && Enabled(w, s, step)
    ensures var t, rev := Do(w, s, step), StoredRev(w, s, step, key);
            if rev.Some? then key in t.last && EntryRev(t, t.last[key]) == rev.value
            else (key in t.last <==> key in s.last)
                 && (key in s.last ==> EntryRev(t, t.last[key]) == EntryRev(s, s.last[key]))
  {
    OnlyStoringChanges(w, s, step);
    if StoredRev(w, s, step, key).Some? {
      StoresOwnRevision(w, s, step);
      StoredIsOk(w, s, step);
      RevStays(w, s, step, Storing(w, s, step).value);
    } else if Storing(w, s, step).Some? && KeyOf(s, step) == key {
      StoresOwnRevision(w, s, step);
    } else if key in s.last {
      assert EntryOk(w, s, key, s.last[key]);
      RevStays(w, s, step, s.last[key]);
    }
  }

  /** The last step before this point that stored under the key. */
  ghost predicate LastStore(w: World, run: seq<State>, steps: seq<Step>, key: string, i: nat, j: nat)
    requires Executes(w, run, steps) && i <= |steps|
  {
    j < i && RevAt(w, run, steps, key, j).Some? && forall k | j < k < i :: RevAt(w, run, steps, key, k).None?
  }

  /** And it stored what the entry was computed from. */
  ghost predicate MadeBy(w: World, run: seq<State>, steps: seq<Step>, key: string, i: nat, j: nat)
    requires Executes(w, run, steps) && i <= |steps| && key in run[i].last
  {
    LastStore(w, run, steps, key, i, j) && RevAt(w, run, steps, key, j) == Some(EntryRev(run[i], run[i].last[key]))
  }

  /** An entry is what the last store made it. */
  lemma {:induction false} EntryIsLastStore(w: World, run: seq<State>, steps: seq<Step>, key: string, i: nat)
    requires Executes(w, run, steps) && i <= |steps|
    ensures if key in run[i].last then exists j :: MadeBy(w, run, steps, key, i, j)
            else forall k | 0 <= k < i :: RevAt(w, run, steps, key, k).None?
  {
    if i > 0 {
      EntryIsLastStore(w, run, steps, key, i - 1);
      StepAt(w, run, steps, key, i - 1);
      if RevAt(w, run, steps, key, i - 1).Some? {
        assert MadeBy(w, run, steps, key, i, i - 1);
      } else if key in run[i].last {
        var j :| MadeBy(w, run, steps, key, i - 1, j);
        assert MadeBy(w, run, steps, key, i, j);
      }
    }
  }

  lemma StepAt(w: World, run: seq<State>, steps: seq<Step>, key: string, i: nat)
    requires Executes(w, run, steps) && i < |steps|
    ensures var s, t, rev := run[i], run[i + 1], RevAt(w, run, steps, key, i);
            if rev.Some? then key in t.last && EntryRev(t, t.last[key]) == rev.value
            else (key in t.last <==> key in s.last)
                 && (key in s.last ==> EntryRev(t, t.last[key]) == EntryRev(s, s.last[key]))
  {
    ExecutesSoundly(w, run, steps, i);
    StepSets(w, run[i], steps[i], key);
  }

  /** A computation from an older revision stores after one from a newer revision has stored. */
  ghost predicate Overtaken(w: World, run: seq<State>, steps: seq<Step>, key: string, j: nat, i: nat)
    requires Executes(w, run, steps)
  {
    && j < i < |steps| && RevAt(w, run, steps, key, i).Some? && RevAt(w, run, steps, key, j).Some?
    && RevAt(w, run, steps, key, i).value < RevAt(w, run, steps, key, j).value
  }

  ghost predicate GoesBackAt(w: World, run: seq<State>, steps: seq<Step>, key: string, i: nat)
    requires Executes(w, run, steps) && i < |steps|
  {
    GoesBack(w, run[i], steps[i], key)
  }

  lemma BackIsOvertaken(w: World, run: seq<State>, steps: seq<Step>, key: string, i: nat) returns (j: nat)
    requires Executes(w, run, steps) && i < |steps| && GoesBackAt(w, run, steps, key, i)
    ensures Overtaken(w, run, steps, key, j, i)
  {
    EntryIsLastStore(w, run, steps, key, i);
    ExecutesSoundly(w, run, steps, i);
    StepSets(w, run[i], steps[i], key);
    j :| MadeBy(w, run, steps, key, i, j);
  }

  /** The store before one that follows another; going below it is going back. */
  lemma StoreBefore(w: World, run: seq<State>, steps: seq<Step>, key: string, j: nat, i: nat) returns (p: nat)
    requires Executes(w, run, steps) && j < i < |steps|
    requires RevAt(w, run, steps, key, i).Some? && RevAt(w, run, steps, key, j).Some?
    ensures j <= p < i && RevAt(w, run, steps, key, p).Some?
    ensures RevAt(w, run, steps, key, i).value < RevAt(w, run, steps, key, p).value
            ==> GoesBackAt(w, run, steps, key, i)
  {
    EntryIsLastStore(w, run, steps, key, i);
    ExecutesSoundly(w, run, steps, i);
    StepSets(w, run[i], steps[i], key);
    p :| MadeBy(w, run, steps, key, i, p);
  }

  lemma {:induction false} OvertakenGoesBack(w: World, run: seq<State>, steps: seq<Step>, key: string, j: nat, i: nat)
    returns (b: nat)
    requires Executes(w, run, steps) && Overtaken(w, run, steps, key, j, i)
    ensures b < |steps| && GoesBackAt(w, run, steps, key, b)
    decreases i
  {
    b := i;
    var p := StoreBefore(w, run, steps, key, j, i);
    if RevAt(w, run, steps, key, p).value <= RevAt(w, run, steps, key, i).value {
      b := OvertakenGoesBack(w, run, steps, key, j, p);
    }
  }

  /** In any run, some entry of the key is replaced by one computed from older data exactly when a
      computation that read an older revision stores after one that read a newer has stored. */
  lemma GoesBackExactly(w: World, run: seq<State>, steps: seq<Step>, key: string)
    requires Executes(w, run, steps)
    ensures (exists i: nat :: i < |steps| && GoesBackAt(w, run, steps, key, i))
            <==> exists j: nat, i: nat :: Overtaken(w, run, steps, key, j, i)
  {
    if i: nat :| i < |steps| && GoesBackAt(w, run, steps, key, i) {
      var j := BackIsOvertaken(w, run, steps, key, i);
    }
    if j: nat, i: nat :| Overtaken(w, run, steps, key, j, i) {
      var b := OvertakenGoesBack(w, run, steps, key, j, i);
    }
  }

  // ---- The run that goes back ----------------------------------------------------------------------------

  /** A call reads, the data change, a second call reads and computes, and then the first stores what
      it has computed under the older revision. */
  lemma OlderReplaces(w: World, key: string) returns (s: State)
    requires key in w.contracts && !w.contracts[key].internal && w.contracts[key].policy.enabled
    ensures Reachable(w, s) && Enabled(w, s, CallStep(0, Finish)) && GoesBack(w, s, CallStep(0, Finish), key)
  {
    s := SlowCall(w, key);
    s := NewerStored(w, key, s);
    s := ReachNext(w, s, CallStep(0, Compute(true, 0)));
  }

  /** The second call stores its newer answer while the first is still computing. */
  lemma NewerStored(w: World, key: string, from: State) returns (s: State)
    requires key in w.contracts && !w.contracts[key].internal && w.contracts[key].policy.enabled
    requires Reachable(w, from) && from == TwoComputing(key)
    ensures Reachable(w, s) && s.calls.Keys == {0, 1} && s.calls[0] == Call(key, Computing(Some(0)))
    ensures 1 in s.births && s.births.Keys == {1} && s.births[1] == Birth(key, Some(1), 1) && s.clock == 0.0
    ensures s.revs == map[key := 1] && key in s.last && s.last[key].artifact == 1
  {
    s := ReachNext(w, from, CallStep(1, Compute(true, 1)));
    s := ReachNext(w, s, CallStep(1, Finish));
  }

  /** Two calls compute, the first under the older revision. */
  function TwoComputing(key: string): State {
    INIT.(calls := map[0 := Call(key, Computing(Some(0))), 1 := Call(key, Computing(Some(1)))], revs := map[key := 1])
  }

  lemma SlowCall(w: World, key: string) returns (s: State)
    requires key in w.contracts && !w.contracts[key].internal && w.contracts[key].policy.enabled
    ensures Reachable(w, s) && s == TwoComputing(key)
  {
    s := FirstCall(w, key);
    s := ReachNext(w, s, Change(key));
    s := SecondCall(w, key, s);
  }

  lemma SecondCall(w: World, key: string, from: State) returns (s: State)
    requires key in w.contracts && !w.contracts[key].internal && w.contracts[key].policy.enabled
    requires Reachable(w, from)
    requires from == INIT.(calls := map[0 := Call(key, Computing(Some(0)))], revs := map[key := 1])
    ensures Reachable(w, s) && s == TwoComputing(key)
  {
    s := ReachNext(w, from, Enter(1, key));
    s := ReachNext(w, s, CallStep(1, Begin));
    s := ReachNext(w, s, CallStep(1, ReadVersion(true)));
    s := ReachNext(w, s, CallStep(1, Decide(0)));
    assert s.calls == map[0 := Call(key, Computing(Some(0))), 1 := Call(key, Computing(Some(1)))];
    assert s.revs == map[key := 1];
  }
}
