/** The job runner as a state machine over submitters, cancellers and workers.

    One step is one store call, one pass through a critical section, one look-up of a
    handle or one completion callback. `submit` takes two steps, because its store entry is
    visible to an unlocked reader before its cancel handle is. */
module JobRunner {
  import opened Wrappers
  import opened JobStore

  /** Where a job's worker stands. */
  datatype WorkerPc =
    | Unpublished               // stored, not yet handed to the pool
    | Waiting
    | Passed                    // saw no cancel; about to write `running`
    | Working
    | Returned                  // the work returned; about to look at the cancel event again
    | Finishing(to: JobState)   // about to enter `_finish`
    | Notifying
    | Exited

  /** A job with its worker, its cancel event and handle, and its history: how often it
      entered a terminal state, how often the `running` write replaced one, and how many
      completions were delivered. */
  datatype Cell = Cell(
    job: Job,
    pc: WorkerPc,
    event: bool,                // the cancel event is set
    handle: bool,               // the cancel handle is still listed
    entered: nat,
    overwritten: nat,
    completed: nat,
    late: bool,                 // cancelled between the worker's check and its write
    unheard: bool)              // already terminal when the worker's check passed

  datatype CancelPc =
    | Called
    | Looked(found: bool)       // holds the event, or found no handle
    | Signalled
    | CancelFinishing
    | CancelNotifying
    | CancelExited

  datatype Cancel = Cancel(job: nat, pc: CancelPc)

  datatype Runner = Runner(
    cells: map<nat, Cell>,
    order: seq<nat>,
    lock: Option<nat>,          // the job a submitter is still publishing
    cancels: map<nat, Cancel>,
    missed: set<nat>)           // looked up by a cancel before its handle was published

  const INIT := Runner(map[], [], None, map[], {})

  datatype Step =
    | Submit(key: string, id: nat)
    | Publish
    | Work(job: nat, event: WorkerStep)
    | CallCancel(cancel: nat, target: nat)
    | LookUp(cancel: nat)
    | Signal(cancel: nat)
    | ReadState(cancel: nat)
    | FinishCancel(cancel: nat)
    | NotifyCancel(cancel: nat)

  datatype WorkerStep = Check | Start | Return(ok: bool) | Recheck | Finish | Notify

  predicate IsDone(c: Cell) {
    Done(c.job.state)
  }

  function WithState(c: Cell, s: JobState): Cell {
    c.(job := c.job.(state := s))
  }

  /** `_finish`: the first to arrive writes the terminal state and drops the handle. */
  function Settle(c: Cell, to: JobState): Cell {
    if IsDone(c) then c else WithState(c, to).(handle := false, entered := c.entered + 1)
  }

  predicate WorkerEnabled(c: Cell, locked: bool, step: WorkerStep) {
    match step
    case Check => c.pc.Waiting?
    case Start => c.pc.Passed?
    case Return(_) => c.pc.Working?
    case Recheck => c.pc.Returned?
    case Finish => c.pc.Finishing? && !locked
    case Notify => c.pc.Notifying?
  }

  function WorkerDo(c: Cell, step: WorkerStep): Cell
    requires WorkerEnabled(c, false, step)
  {
    match step
    case Check =>
      if c.event then c.(pc := Finishing(Cancelled)) else c.(pc := Passed, unheard := IsDone(c))
    case Start =>
      WithState(c, Running).(pc := Working, overwritten := c.overwritten + if IsDone(c) then 1 else 0)
    case Return(ok) => c.(pc := if ok then Returned else Finishing(Failed))
    case Recheck => c.(pc := Finishing(if c.event then Cancelled else Succeeded))
    case Finish => Settle(c, c.pc.to).(pc := if IsDone(c) then Exited else Notifying)
    case Notify => c.(pc := Exited, completed := c.completed + 1)
  }

  function Jobs(r: Runner): map<nat, Job> {
    map id | id in r.cells :: r.cells[id].job
  }

  /** The job a submit returns instead of starting another. */
  function Existing(r: Runner, key: string): Option<nat> {
    match Latest(Jobs(r), r.order, key)
    case Some(id) => if id in r.cells && Live(r.cells[id].job.state) then Some(id) else None
    case None => None
  }

  predicate CancelAt(r: Runner, x: nat, pc: CancelPc) {
    x in r.cancels && r.cancels[x].pc == pc
  }

  predicate Enabled(r: Runner, step: Step) {
    match step
    case Submit(key, id) => r.lock.None? && id !in r.cells
    case Publish => r.lock.Some? && r.lock.value in r.cells
    case Work(j, event) => j in r.cells && WorkerEnabled(r.cells[j], r.lock.Some?, event)
    case CallCancel(x, _) => x !in r.cancels
    case LookUp(x) => CancelAt(r, x, Called)
    case Signal(x) => x in r.cancels && r.cancels[x].pc.Looked?
    case ReadState(x) => CancelAt(r, x, Signalled)
    case FinishCancel(x) => CancelAt(r, x, CancelFinishing) && r.cancels[x].job in r.cells && r.lock.None?
    case NotifyCancel(x) => CancelAt(r, x, CancelNotifying) && r.cancels[x].job in r.cells
  }

  function FreshCell(id: nat, key: string): Cell {
    Cell(Job(id, key, Queued), Unpublished, false, false, 0, 0, 0, false, false)
  }

  /** A cancel's `_finish`, noting whether it fell into the worker's gap. */
  function CancelSettle(c: Cell): Cell {
    Settle(c, Cancelled).(late := c.late || (!IsDone(c) && c.pc.Passed?))
  }

  /** The cancel that takes the step, or none. */
  function Mover(step: Step): Option<nat> {
    match step
    case Submit(_, _) => None
    case Publish => None
    case Work(_, _) => None
    case CallCancel(x, _) => Some(x)
    case LookUp(x) => Some(x)
    case Signal(x) => Some(x)
    case ReadState(x) => Some(x)
    case FinishCancel(x) => Some(x)
    case NotifyCancel(x) => Some(x)
  }

  function Put<V>(m: map<nat, V>, change: Option<(nat, V)>): map<nat, V> {
    if change.Some? then m[change.value.0 := change.value.1] else m
  }

  /** The submit that starts a job. */
  predicate Accepts(r: Runner, step: Step) {
    step.Submit? && Existing(r, step.key).None?
  }

  /** The one cell a step writes. */
  function CellChange(r: Runner, step: Step): Option<(nat, Cell)>
    requires Enabled(r, step)
  {
    match step
    case Submit(key, id) => if Accepts(r, step) then Some((id, FreshCell(id, key))) else None
    case Publish => Some((r.lock.value, r.cells[r.lock.value].(pc := Waiting, handle := true)))
    case Work(j, event) => Some((j, WorkerDo(r.cells[j], event)))
    case Signal(x) =>
      var Cancel(j, pc) := r.cancels[x];
      if pc.found && j in r.cells then Some((j, r.cells[j].(event := true))) else None
    case FinishCancel(x) => Some((r.cancels[x].job, CancelSettle(r.cells[r.cancels[x].job])))
    case NotifyCancel(x) =>
      var c := r.cells[r.cancels[x].job];
      Some((r.cancels[x].job, c.(completed := c.completed + 1)))
    case _ => None
  }

  function CancelTo(r: Runner, step: Step, x: nat): CancelPc
    requires Enabled(r, step) && x in r.cancels && Mover(step) == Some(x)
  {
    var j := r.cancels[x].job;
    match step
    case LookUp(_) => Looked(j in r.cells && r.cells[j].handle)
    case Signal(_) => Signalled
    case ReadState(_) => if j in r.cells && r.cells[j].job.state == Queued then CancelFinishing else CancelExited
    case FinishCancel(_) => if IsDone(r.cells[j]) then CancelExited else CancelNotifying
    case _ => CancelExited
  }

  /** The one cancel a step moves. */
  function CancelChange(r: Runner, step: Step): Option<(nat, Cancel)>
    requires Enabled(r, step)
  {
    match Mover(step)
    case None => None
    case Some(x) =>
      if step.CallCancel? then Some((x, Cancel(step.target, Called)))
      else Some((x, Cancel(r.cancels[x].job, CancelTo(r, step, x))))
  }

  /** A look-up made before the job's handle was published. */
  predicate Misses(r: Runner, step: Step)
    requires Enabled(r, step)
  {
    step.LookUp? && var j := r.cancels[step.cancel].job; j !in r.cells || r.cells[j].pc.Unpublished?
  }

  function Do(r: Runner, step: Step): Runner
    requires Enabled(r, step)
  {
    Runner(
      Put(r.cells, CellChange(r, step)),
      if Accepts(r, step) then r.order + [step.id] else r.order,
      if Accepts(r, step) then Some(step.id) else if step.Publish? then None else r.lock,
      Put(r.cancels, CancelChange(r, step)),
      if Misses(r, step) then r.missed + {r.cancels[step.cancel].job} else r.missed)
  }

  ghost predicate Legal(r: Runner, steps: seq<Step>)
    decreases |steps|
  {
    steps == [] || (Enabled(r, steps[0]) && Legal(Do(r, steps[0]), steps[1..]))
  }

  ghost function Run(r: Runner, steps: seq<Step>): Runner
    requires Legal(r, steps)
    decreases |steps|
  {
    if steps == [] then r else Run(Do(r, steps[0]), steps[1..])
  }

  // ---- The invariant ----------------------------------------------------------------------------

  function One(b: bool): nat {
    if b then 1 else 0
  }

  /** The `running` write has been made, or will never be. */
  predicate PastWrite(pc: WorkerPc) {
    !pc.Unpublished? && !pc.Waiting? && !pc.Passed?
  }

  predicate CellInv(c: Cell, missed: bool) {
    var s, slipped := c.job.state, c.late || c.unheard;
    && c.entered == c.overwritten + One(Done(s))
    && c.overwritten == One(slipped && PastWrite(c.pc))
    && (s.Queued? ==> c.entered == 0)
    && (c.pc.Unpublished? ==> s.Queued? && !slipped && !c.handle)
    && (c.pc.Waiting? ==> !slipped && (s.Queued? || (s.Cancelled? && (c.event || missed))))
    && (c.pc.Passed? ==> (s.Queued? || s.Cancelled?) && (s.Cancelled? <==> slipped))
    && (c.pc.Notifying? || c.pc.Exited? ==> Done(s))
    && (c.pc.Finishing? ==> Done(c.pc.to))
    && (c.handle || c.entered > 0 || c.pc.Unpublished?)
    && (c.unheard ==> missed)
  }

  /** A cancel that went on without signalling missed the handle or came after the end. */
  predicate Excused(r: Runner, j: nat) {
    j in r.missed || (j in r.cells && r.cells[j].entered > 0)
  }

  predicate CancelInv(r: Runner, x: nat)
    requires x in r.cancels
  {
    var Cancel(j, pc) := r.cancels[x];
    var heard := j in r.cells && r.cells[j].event;
    && (pc == Looked(false) ==> Excused(r, j))
    && (pc == Looked(true) ==> j in r.cells)
    && (pc == Signalled ==> heard || Excused(r, j))
    && (pc == CancelFinishing ==> j in r.cells && (heard || Excused(r, j)))
    && (pc == CancelNotifying ==> j in r.cells)
  }

  ghost predicate Inv(r: Runner) {
    && (forall j | j in r.cells :: CellInv(r.cells[j], j in r.missed))
    && (forall x | x in r.cancels :: CancelInv(r, x))
    && (forall j | j in r.cells :: r.cells[j].pc.Unpublished? <==> r.lock == Some(j))
    && (r.lock.Some? ==> r.lock.value in r.cells)
    && (forall id :: id in r.cells <==> id in r.order)
  }

  lemma WorkerKeepsCell(c: Cell, step: WorkerStep, missed: bool)
    requires CellInv(c, missed) && WorkerEnabled(c, false, step)
    ensures CellInv(WorkerDo(c, step), missed)
    ensures WorkerDo(c, step).entered >= c.entered && WorkerDo(c, step).event == c.event
  {
    if step.Finish? || step.Notify? {
      EndKeepsCell(c, step, missed);
    } else {
      WayKeepsCell(c, step, missed);
    }
  }

  lemma EndKeepsCell(c: Cell, step: WorkerStep, missed: bool)
    requires CellInv(c, missed) && WorkerEnabled(c, false, step) && (step.Finish? || step.Notify?)
    ensures CellInv(WorkerDo(c, step), missed)
  {
  }

  lemma WayKeepsCell(c: Cell, step: WorkerStep, missed: bool)
    requires CellInv(c, missed) && WorkerEnabled(c, false, step) && !step.Finish? && !step.Notify?
    ensures CellInv(WorkerDo(c, step), missed)
  {
  }

  lemma CancelKeepsCell(c: Cell, missed: bool)
    requires CellInv(c, missed) && !c.pc.Unpublished? && (c.event || missed || c.entered > 0)
    ensures CellInv(CancelSettle(c), missed)
  {
  }

  lemma MissedMore(c: Cell, missed: bool)
    requires CellInv(c, missed)
    ensures CellInv(c, true)
  {
  }

  lemma WorkKeepsCell(r: Runner, j: nat, event: WorkerStep)
    requires Inv(r) && Enabled(r, Work(j, event))
    ensures CellInv(WorkerDo(r.cells[j], event), j in r.missed)
  {
    WorkerKeepsCell(r.cells[j], event, j in r.missed);
  }

  lemma PublishKeepsCell(r: Runner)
    requires Inv(r) && Enabled(r, Publish)
    ensures CellInv(CellChange(r, Publish).value.1, r.lock.value in r.missed)
  {
    assert CellInv(r.cells[r.lock.value], r.lock.value in r.missed);
  }

  lemma SignalKeepsCell(r: Runner, x: nat)
    requires Inv(r) && Enabled(r, Signal(x)) && CellChange(r, Signal(x)).Some?
    ensures var j := r.cancels[x].job; CellInv(CellChange(r, Signal(x)).value.1, j in r.missed)
  {
    var j := r.cancels[x].job;
    assert CellInv(r.cells[j], j in r.missed);
  }

  lemma FinishKeepsCell(r: Runner, x: nat)
    requires Inv(r) && Enabled(r, FinishCancel(x))
    ensures var j := r.cancels[x].job; CellInv(CancelSettle(r.cells[j]), j in r.missed)
  {
    var j := r.cancels[x].job;
    assert CancelInv(r, x) && CellInv(r.cells[j], j in r.missed);
    assert r.cells[j].pc.Unpublished? <==> r.lock == Some(j);
    CancelKeepsCell(r.cells[j], j in r.missed);
  }

  lemma NotifyKeepsCell(r: Runner, x: nat)
    requires Inv(r) && Enabled(r, NotifyCancel(x))
    ensures var j := r.cancels[x].job; CellInv(CellChange(r, NotifyCancel(x)).value.1, j in r.missed)
  {
    var j := r.cancels[x].job;
    assert CellInv(r.cells[j], j in r.missed);
  }

  /** The cell a step writes keeps the invariant. */
  lemma ChangeKeepsCell(r: Runner, step: Step)
    requires Inv(r) && Enabled(r, step) && CellChange(r, step).Some?
    ensures var (j, c) := CellChange(r, step).value; CellInv(c, j in r.missed)
  {
    match step
    case Submit(_, _) =>
    case Publish => PublishKeepsCell(r);
    case Work(j, event) => WorkKeepsCell(r, j, event);
    case Signal(x) => SignalKeepsCell(r, x);
    case FinishCancel(x) => FinishKeepsCell(r, x);
    case NotifyCancel(x) => NotifyKeepsCell(r, x);
  }

  lemma StepKeepsCell(r: Runner, step: Step, j: nat)
    requires Inv(r) && Enabled(r, step) && j in Do(r, step).cells
    ensures var after := Do(r, step); CellInv(after.cells[j], j in after.missed)
  {
    var after := Do(r, step);
    var change := CellChange(r, step);
    if change.Some? && change.value.0 == j {
      ChangeKeepsCell(r, step);
    } else {
      assert after.cells[j] == r.cells[j] && CellInv(r.cells[j], j in r.missed);
    }
    if j in after.missed {
      MissedMore(after.cells[j], j in r.missed);
    }
  }

  /** Nothing a cancel relies on is ever taken back. */
  lemma ChangeGrows(r: Runner, step: Step)
    requires Enabled(r, step) && CellChange(r, step).Some? && CellChange(r, step).value.0 in r.cells
    ensures var (j, c) := CellChange(r, step).value;
            c.entered >= r.cells[j].entered && (r.cells[j].event ==> c.event) && c.job.key == r.cells[j].job.key
  {
    if step.Work? {
      WorkerGrows(r.cells[step.job], step.event);
    }
  }

  lemma WorkerGrows(c: Cell, step: WorkerStep)
    requires WorkerEnabled(c, false, step)
    ensures var after := WorkerDo(c, step);
            after.entered >= c.entered && after.event == c.event && after.job.key == c.job.key
  {
  }

  lemma StepGrows(r: Runner, step: Step, j: nat)
    requires Enabled(r, step)
    ensures var after := Do(r, step);
            && (j in r.missed ==> j in after.missed)
            && (j in r.cells ==>
                  && j in after.cells
                  && after.cells[j].entered >= r.cells[j].entered
                  && (r.cells[j].event ==> after.cells[j].event)
                  && after.cells[j].job.key == r.cells[j].job.key)
  {
    var change := CellChange(r, step);
    if change.Some? && change.value.0 == j && j in r.cells {
      ChangeGrows(r, step);
    }
  }

  lemma OthersStandStill(r: Runner, step: Step, x: nat)
    requires Enabled(r, step) && Mover(step) != Some(x)
    ensures var after := Do(r, step);
            && (x in after.cancels <==> x in r.cancels)
            && (x in r.cancels ==> after.cancels[x] == r.cancels[x])
  {
  }

  lemma LookUpKeepsCancel(r: Runner, x: nat)
    requires Inv(r) && Enabled(r, LookUp(x))
    ensures CancelInv(Do(r, LookUp(x)), x)
  {
    var j := r.cancels[x].job;
    if j in r.cells {
      assert CellInv(r.cells[j], j in r.missed);
    }
    assert Do(r, LookUp(x)).cells == r.cells;
  }

  lemma SignalKeepsCancel(r: Runner, x: nat)
    requires Inv(r) && Enabled(r, Signal(x))
    ensures CancelInv(Do(r, Signal(x)), x)
  {
    assert CancelInv(r, x);
    StepGrows(r, Signal(x), r.cancels[x].job);
  }

  lemma ReadKeepsCancel(r: Runner, x: nat)
    requires Inv(r) && Enabled(r, ReadState(x))
    ensures CancelInv(Do(r, ReadState(x)), x)
  {
    assert CancelInv(r, x);
    assert Do(r, ReadState(x)).cells == r.cells && Do(r, ReadState(x)).missed == r.missed;
  }

  lemma FinishKeepsCancel(r: Runner, x: nat)
    requires Inv(r) && Enabled(r, FinishCancel(x))
    ensures CancelInv(Do(r, FinishCancel(x)), x)
  {
    StepGrows(r, FinishCancel(x), r.cancels[x].job);
  }

  lemma MoverKeepsCancel(r: Runner, step: Step, x: nat)
    requires Inv(r) && Enabled(r, step) && Mover(step) == Some(x)
    ensures x in Do(r, step).cancels && CancelInv(Do(r, step), x)
  {
    match step
    case CallCancel(_, _) =>
    case LookUp(_) => LookUpKeepsCancel(r, x);
    case Signal(_) => SignalKeepsCancel(r, x);
    case ReadState(_) => ReadKeepsCancel(r, x);
    case FinishCancel(_) => FinishKeepsCancel(r, x);
    case NotifyCancel(_) =>
  }

  lemma StepKeepsCancel(r: Runner, step: Step, x: nat)
    requires Inv(r) && Enabled(r, step) && x in Do(r, step).cancels
    ensures CancelInv(Do(r, step), x)
  {
    if Mover(step) == Some(x) {
      MoverKeepsCancel(r, step, x);
    } else {
      OthersStandStill(r, step, x);
      assert CancelInv(r, x);
      StepGrows(r, step, r.cancels[x].job);
      FrameCancel(r, Do(r, step), x);
    }
  }

  lemma FrameCancel(r: Runner, after: Runner, x: nat)
    requires x in r.cancels && x in after.cancels && after.cancels[x] == r.cancels[x] && CancelInv(r, x)
    requires var j := r.cancels[x].job;
             && (j in r.missed ==> j in after.missed)
             && (j in r.cells ==>
                   && j in after.cells
                   && after.cells[j].entered >= r.cells[j].entered
                   && (r.cells[j].event ==> after.cells[j].event))
    ensures CancelInv(after, x)
  {
  }

  /** Only a submit makes a cell unpublished, and only its own publication ends that. */
  lemma ChangeKeepsLock(r: Runner, step: Step)
    requires Inv(r) && Enabled(r, step) && CellChange(r, step).Some?
    ensures var (j, c) := CellChange(r, step).value; c.pc.Unpublished? <==> Do(r, step).lock == Some(j)
  {
    var j := CellChange(r, step).value.0;
    if j in r.cells {
      assert r.cells[j].pc.Unpublished? <==> r.lock == Some(j);
    }
  }

  lemma StepKeepsLock(r: Runner, step: Step)
    requires Inv(r) && Enabled(r, step)
    ensures var after := Do(r, step);
            && (forall j | j in after.cells :: after.cells[j].pc.Unpublished? <==> after.lock == Some(j))
            && (after.lock.Some? ==> after.lock.value in after.cells)
  {
    var after, change := Do(r, step), CellChange(r, step);
    if change.Some? {
      ChangeKeepsLock(r, step);
    }
    forall j | j in after.cells ensures after.cells[j].pc.Unpublished? <==> after.lock == Some(j) {
      if !(change.Some? && change.value.0 == j) {
        LockElsewhere(r, step, j);
      }
    }
  }

  lemma LockElsewhere(r: Runner, step: Step, j: nat)
    requires Inv(r) && Enabled(r, step) && j in r.cells
    requires CellChange(r, step).None? || CellChange(r, step).value.0 != j
    ensures var after := Do(r, step);
            j in after.cells && (after.cells[j].pc.Unpublished? <==> after.lock == Some(j))
  {
    assert r.cells[j].pc.Unpublished? <==> r.lock == Some(j);
  }

  lemma StepKeepsOrder(r: Runner, step: Step)
    requires Inv(r) && Enabled(r, step)
    ensures var after := Do(r, step); forall id :: id in after.cells <==> id in after.order
  {
    var after := Do(r, step);
    if Accepts(r, step) {
      assert after.cells.Keys == r.cells.Keys + {step.id};
    } else {
      KnownCellsOnly(r, step);
    }
  }

  lemma KnownCellsOnly(r: Runner, step: Step)
    requires Enabled(r, step) && !Accepts(r, step)
    ensures Do(r, step).cells.Keys == r.cells.Keys
  {
    assert CellChange(r, step).Some? ==> CellChange(r, step).value.0 in r.cells;
  }

  lemma StepKeepsInv(r: Runner, step: Step)
    requires Inv(r) && Enabled(r, step)
    ensures Inv(Do(r, step))
  {
    var after := Do(r, step);
    forall j | j in after.cells ensures CellInv(after.cells[j], j in after.missed) {
      StepKeepsCell(r, step, j);
    }
    forall x | x in after.cancels ensures CancelInv(after, x) {
      StepKeepsCancel(r, step, x);
    }
    StepKeepsLock(r, step);
    StepKeepsOrder(r, step);
  }

  // ---- Completions owed --------------------------------------------------------------------------

  /** The cancels that settled a job and have still to announce it. */
  function Owing(cancels: map<nat, Cancel>, j: nat): set<nat> {
    set x | x in cancels && cancels[x] == Cancel(j, CancelNotifying)
  }

  predicate Account(r: Runner, j: nat)
    requires j in r.cells
  {
    var c := r.cells[j];
    c.entered == c.completed + One(c.pc.Notifying?) + |Owing(r.cancels, j)|
  }

  lemma OwingMoves(cancels: map<nat, Cancel>, x: nat, to: Cancel, j: nat)
    ensures var before, after := Owing(cancels, j), Owing(cancels[x := to], j);
            |after| == |before| - One(x in before) + One(to == Cancel(j, CancelNotifying))
  {
    OwingAfter(cancels, x, to, j);
    SwapCounts(Owing(cancels, j), x, to == Cancel(j, CancelNotifying));
  }

  lemma OwingAfter(cancels: map<nat, Cancel>, x: nat, to: Cancel, j: nat)
    ensures Owing(cancels[x := to], j)
            == (Owing(cancels, j) - {x}) + if to == Cancel(j, CancelNotifying) then {x} else {}
  {
  }

  lemma SwapCounts(before: set<nat>, x: nat, back: bool)
    ensures |(before - {x}) + if back then {x} else {}| == |before| - One(x in before) + One(back)
  {
    assert x !in before ==> before - {x} == before;
    assert (before - {x}) + {} == before - {x};
  }

  lemma StepKeepsAccount(r: Runner, step: Step, j: nat)
    requires Inv(r) && Enabled(r, step) && j in Do(r, step).cells
    requires j in r.cells ==> Account(r, j)
    ensures Account(Do(r, step), j)
  {
    match Mover(step)
    case Some(x) =>
      KnownCellsOnly(r, step);
      CancelKeepsAccount(r, step, x, j);
    case None =>
      CancelsStand(r, step);
      if j in r.cells {
        CellKeepsAccount(r, step, j);
      } else {
        OwingKnowsItsJob(r, j);
        NewCellOwesNothing(r, step, j);
      }
  }

  lemma CancelKeepsAccount(r: Runner, step: Step, x: nat, j: nat)
    requires Inv(r) && Enabled(r, step) && Mover(step) == Some(x) && j in r.cells && Account(r, j)
    ensures j in Do(r, step).cells && Account(Do(r, step), j)
  {
    MovedAccount(r, step, x, j);
    OwingMoves(r.cancels, x, Do(r, step).cancels[x], j);
  }

  lemma CancelsStand(r: Runner, step: Step)
    requires Enabled(r, step) && Mover(step).None?
    ensures Do(r, step).cancels == r.cancels
  {
  }

  /** What a cell owes does not depend on who else moves. */
  lemma CellKeepsAccount(r: Runner, step: Step, j: nat)
    requires Inv(r) && Enabled(r, step) && Mover(step).None? && j in r.cells
    ensures var was, now := r.cells[j], Do(r, step).cells[j];
            now.entered - now.completed - One(now.pc.Notifying?) == was.entered - was.completed - One(was.pc.Notifying?)
  {
    match step
    case Work(k, event) => if k == j { WorkerOwes(r.cells[j], event); }
    case Publish => assert r.cells[r.lock.value].pc.Unpublished?;
    case Submit(_, _) =>
  }

  lemma WorkerOwes(c: Cell, step: WorkerStep)
    requires WorkerEnabled(c, false, step)
    ensures var now := WorkerDo(c, step);
            now.entered - now.completed - One(now.pc.Notifying?) == c.entered - c.completed - One(c.pc.Notifying?)
  {
  }

  lemma NewCellOwesNothing(r: Runner, step: Step, j: nat)
    requires Enabled(r, step) && j in Do(r, step).cells && j !in r.cells && Mover(step).None?
    requires r.lock.Some? ==> r.lock.value in r.cells
    ensures var c := Do(r, step).cells[j]; c.entered == 0 && c.completed == 0 && !c.pc.Notifying?
  {
  }

  lemma OwingKnowsItsJob(r: Runner, j: nat)
    requires Inv(r)
    ensures Owing(r.cancels, j) != {} ==> j in r.cells
  {
  }

  lemma MovedAccount(r: Runner, step: Step, x: nat, j: nat)
    requires Inv(r) && Enabled(r, step) && Mover(step) == Some(x) && j in r.cells
    ensures var after := Do(r, step);
            && x in after.cancels && after.cancels == r.cancels[x := after.cancels[x]]
            && j in after.cells && after.cells[j].pc == r.cells[j].pc
            && after.cells[j].entered == r.cells[j].entered
                 + One(after.cancels[x] == Cancel(j, CancelNotifying))
            && after.cells[j].completed == r.cells[j].completed + One(x in Owing(r.cancels, j))
  {
  }

  // ---- One live job per key --------------------------------------------------------------------------

  predicate Retired(c: Cell) {
    c.job.state.Failed? || c.job.state.Cancelled? || c.overwritten > 0
  }

  /** An earlier job of a key has retired before a later one was accepted. */
  ghost predicate Deduped(r: Runner) {
    && (forall id | id in r.order :: id in r.cells)
    && forall i, k | 0 <= i < k < |r.order| && r.cells[r.order[i]].job.key == r.cells[r.order[k]].job.key ::
         Retired(r.cells[r.order[i]])
  }

  lemma WorkerRetires(c: Cell, step: WorkerStep)
    requires WorkerEnabled(c, false, step)
    ensures var after := WorkerDo(c, step);
            after.job.key == c.job.key && (Retired(c) ==> Retired(after))
  {
  }

  lemma StepRetires(r: Runner, step: Step, j: nat)
    requires Enabled(r, step) && j in r.cells
    ensures var after := Do(r, step);
            && j in after.cells && after.cells[j].job.key == r.cells[j].job.key
            && (Retired(r.cells[j]) ==> Retired(after.cells[j]))
  {
    if step.Work? && step.job == j {
      WorkerRetires(r.cells[j], step.event);
    } else {
      OnlyWorkersUnretire(r, step, j);
    }
  }

  lemma OnlyWorkersUnretire(r: Runner, step: Step, j: nat)
    requires Enabled(r, step) && j in r.cells && !(step.Work? && step.job == j)
    ensures var after := Do(r, step);
            && j in after.cells && after.cells[j].job.key == r.cells[j].job.key
            && after.cells[j].overwritten == r.cells[j].overwritten
            && (IsDone(r.cells[j]) ==> after.cells[j].job == r.cells[j].job)
  {
  }

  lemma StepKeepsDeduped(r: Runner, step: Step)
    requires Inv(r) && Deduped(r) && Enabled(r, step)
    ensures Deduped(Do(r, step))
  {
    var after := Do(r, step);
    forall j | j in r.cells
      ensures j in after.cells && after.cells[j].job.key == r.cells[j].job.key
      ensures Retired(r.cells[j]) ==> Retired(after.cells[j])
    {
      StepRetires(r, step, j);
    }
    if after.order != r.order {
      OrderUnchangedOrSubmit(r, step);
      AcceptedKeepsDeduped(r, step.key, step.id);
    } else {
      assert forall i | 0 <= i < |r.order| :: r.order[i] in r.cells;
    }
  }

  lemma OrderUnchangedOrSubmit(r: Runner, step: Step)
    requires Enabled(r, step) && Do(r, step).order != r.order
    ensures step.Submit? && Existing(r, step.key).None?
  {
  }

  lemma AcceptedKeepsDeduped(r: Runner, key: string, id: nat)
    requires Inv(r) && Deduped(r) && Enabled(r, Submit(key, id)) && Existing(r, key).None?
    ensures Deduped(Do(r, Submit(key, id)))
  {
    var after := Do(r, Submit(key, id));
    assert after.order == r.order + [id];
    LatestIsLast(Jobs(r), r.order, key);
    forall i, k | 0 <= i < k < |after.order|
                  && after.cells[after.order[i]].job.key == after.cells[after.order[k]].job.key
      ensures Retired(after.cells[after.order[i]])
    {
      assert after.order[i] == r.order[i] && r.order[i] in r.cells;
      if k < |r.order| {
        assert after.order[k] == r.order[k] && r.order[k] in r.cells;
      } else {
        EarlierJobRetired(r, key, i);
      }
    }
  }

  /** With nothing live to return, every earlier job of the key has retired. */
  lemma EarlierJobRetired(r: Runner, key: string, i: nat)
    requires Inv(r) && Deduped(r) && Existing(r, key).None?
    requires i < |r.order| && r.order[i] in r.cells && r.cells[r.order[i]].job.key == key
    ensures Retired(r.cells[r.order[i]])
  {
    LatestIsLast(Jobs(r), r.order, key);
    assert Jobs(r)[r.order[i]].key == key;
    var id := Latest(Jobs(r), r.order, key).value;
    var last :| 0 <= last < |r.order| && r.order[last] == id && Jobs(r)[id].key == key
      && forall j | last < j < |r.order| :: Jobs(r)[r.order[j]].key != key;
    assert i <= last;
  }

  // ---- Reachable states ---------------------------------------------------------------------------------

  ghost predicate Reachable(r: Runner) {
    exists steps :: Legal(INIT, steps) && Run(INIT, steps) == r
  }

  ghost predicate Sound(r: Runner) {
    Inv(r) && Deduped(r) && forall j | j in r.cells :: Account(r, j)
  }

  lemma {:induction false} RunIsSound(r: Runner, steps: seq<Step>)
    requires Sound(r) && Legal(r, steps)
    ensures Sound(Run(r, steps))
    decreases |steps|
  {
    if steps != [] {
      StepKeepsInv(r, steps[0]);
      StepKeepsDeduped(r, steps[0]);
      forall j | j in Do(r, steps[0]).cells ensures Account(Do(r, steps[0]), j) {
        StepKeepsAccount(r, steps[0], j);
      }
      RunIsSound(Do(r, steps[0]), steps[1..]);
    }
  }

  lemma ReachableIsSound(r: Runner)
    requires Reachable(r)
    ensures Sound(r)
  {
    var steps :| Legal(INIT, steps) && Run(INIT, steps) == r;
    RunIsSound(INIT, steps);
  }

  /** The worker and every cancel of the job have returned. */
  ghost predicate Quiet(r: Runner, j: nat) {
    && j in r.cells && r.cells[j].pc.Exited?
    && forall x | x in r.cancels && r.cancels[x].job == j :: r.cancels[x].pc.CancelExited?
  }

  /** How often `on_complete` fires for a job: once, and once more exactly when a cancel
      settled the job in the gap before the `running` write, or settled it without the worker
      ever hearing of it, which takes a look-up made before the handle was published. */
  lemma CompletionsCounted(r: Runner, j: nat)
    requires Reachable(r) && Quiet(r, j)
    ensures var c := r.cells[j];
            && IsDone(c)
            && c.completed == c.entered == 1 + c.overwritten <= 2
            && (c.completed == 2 <==> c.late || c.unheard)
            && (c.unheard ==> j in r.missed)
  {
    ReachableIsSound(r);
    assert CellInv(r.cells[j], j in r.missed) && Account(r, j);
    assert Owing(r.cancels, j) == {};
  }

  lemma LiveJobIsLatest(r: Runner, i: nat)
    requires Inv(r) && Deduped(r) && i < |r.order| && r.order[i] in r.cells
    requires !Retired(r.cells[r.order[i]])
    ensures var key := r.cells[r.order[i]].job.key;
            && Latest(Jobs(r), r.order, key) == Some(r.order[i])
            && forall k | i < k < |r.order| && r.order[k] in r.cells :: r.cells[r.order[k]].job.key != key
  {
    var key := r.cells[r.order[i]].job.key;
    LatestIsLast(Jobs(r), r.order, key);
    assert Jobs(r)[r.order[i]].key == key;
    var id := Latest(Jobs(r), r.order, key).value;
    var last :| 0 <= last < |r.order| && r.order[last] == id && Jobs(r)[id].key == key
      && forall j | last < j < |r.order| :: Jobs(r)[r.order[j]].key != key;
    assert i <= last;
  }

  /** A live job that was never overwritten is the one every further submit of its key
      returns, starting nothing; hence a key has at most one such job. */
  lemma LiveJobIsReturned(r: Runner, i: nat, id: nat)
    requires Reachable(r) && i < |r.order| && r.order[i] in r.cells
    requires var c := r.cells[r.order[i]]; Live(c.job.state) && c.overwritten == 0
    requires r.lock.None? && id !in r.cells
    ensures var key := r.cells[r.order[i]].job.key;
            && Existing(r, key) == Some(r.order[i])
            && Do(r, Submit(key, id)) == r
            && forall k | 0 <= k < |r.order| && k != i && r.order[k] in r.cells
                          && r.cells[r.order[k]].job.key == key :: Retired(r.cells[r.order[k]])
  {
    ReachableIsSound(r);
    LiveJobIsLatest(r, i);
  }

  /** The key has a latest job, and it is queued, running or succeeded. */
  predicate LatestIsLive(r: Runner, key: string) {
    var latest := Latest(Jobs(r), r.order, key);
    latest.Some? && latest.value in r.cells && Live(r.cells[latest.value].job.state)
  }

  /** A submit starts a fresh job exactly when the key's latest job, if any, has failed or been
      cancelled; otherwise it changes nothing. */
  lemma RetriedKeyStartsFresh(r: Runner, key: string, id: nat)
    requires Reachable(r) && Enabled(r, Submit(key, id))
    ensures var after := Do(r, Submit(key, id));
            if LatestIsLive(r, key) then after == r
            else id in after.cells && after.cells[id] == FreshCell(id, key)
                 && Latest(Jobs(after), after.order, key) == Some(id)
  {
    var after := Do(r, Submit(key, id));
    assert Accepts(r, Submit(key, id)) <==> !LatestIsLive(r, key);
    if !LatestIsLive(r, key) {
      assert after.order[|after.order| - 1] == id && Jobs(after)[id].key == key;
    }
  }

  // ---- The run the promise misses ------------------------------------------------------------------------

  lemma {:induction false} RunExtends(r: Runner, steps: seq<Step>, step: Step)
    requires Legal(r, steps) && Enabled(Run(r, steps), step)
    ensures Legal(r, steps + [step]) && Run(r, steps + [step]) == Do(Run(r, steps), step)
    decreases |steps|
  {
    if steps == [] {
      assert steps + [step] == [step];
      assert Legal(Do(r, step), []);
    } else {
      assert (steps + [step])[1..] == steps[1..] + [step];
      RunExtends(Do(r, steps[0]), steps[1..], step);
    }
  }

  lemma ReachNext(r: Runner, step: Step) returns (after: Runner)
    requires Reachable(r) && Enabled(r, step)
    ensures after == Do(r, step) && Reachable(after)
  {
    var steps :| Legal(INIT, steps) && Run(INIT, steps) == r;
    RunExtends(INIT, steps, step);
    after := Do(r, step);
  }

  /** A state with one job, and at most one cancel of it. */
  function Solo(j: nat, c: Cell, lock: Option<nat>, x: nat, k: Option<CancelPc>, missed: set<nat>): Runner {
    Runner(map[j := c], [j], lock, if k.Some? then map[x := Cancel(j, k.value)] else map[], missed)
  }

  lemma SoloStarts(j: nat, key: string, x: nat)
    ensures Reachable(Solo(j, FreshCell(j, key), Some(j), x, None, {}))
  {
    assert Legal(INIT, []) && Run(INIT, []) == INIT;
    var r := ReachNext(INIT, Submit(key, j));
    assert r == Solo(j, FreshCell(j, key), Some(j), x, None, {});
  }

  lemma SoloPublishes(j: nat, c: Cell, x: nat, k: Option<CancelPc>, missed: set<nat>)
    requires Reachable(Solo(j, c, Some(j), x, k, missed))
    ensures Reachable(Solo(j, c.(pc := Waiting, handle := true), None, x, k, missed))
  {
    var r := ReachNext(Solo(j, c, Some(j), x, k, missed), Publish);
    assert r == Solo(j, c.(pc := Waiting, handle := true), None, x, k, missed);
  }

  lemma SoloWorks(j: nat, c: Cell, x: nat, k: Option<CancelPc>, missed: set<nat>, e: WorkerStep)
    requires Reachable(Solo(j, c, None, x, k, missed)) && WorkerEnabled(c, false, e)
    ensures Reachable(Solo(j, WorkerDo(c, e), None, x, k, missed))
  {
    var r := ReachNext(Solo(j, c, None, x, k, missed), Work(j, e));
    assert r == Solo(j, WorkerDo(c, e), None, x, k, missed);
  }

  lemma SoloCalls(j: nat, c: Cell, lock: Option<nat>, x: nat)
    requires Reachable(Solo(j, c, lock, x, None, {}))
    ensures Reachable(Solo(j, c, lock, x, Some(Called), {}))
  {
    var r := ReachNext(Solo(j, c, lock, x, None, {}), CallCancel(x, j));
    assert r == Solo(j, c, lock, x, Some(Called), {});
  }

  lemma SoloLooksUp(j: nat, c: Cell, lock: Option<nat>, x: nat)
    requires Reachable(Solo(j, c, lock, x, Some(Called), {}))
    ensures Reachable(Solo(j, c, lock, x, Some(Looked(c.handle)), if c.pc.Unpublished? then {j} else {}))
  {
    var r := ReachNext(Solo(j, c, lock, x, Some(Called), {}), LookUp(x));
    assert r == Solo(j, c, lock, x, Some(Looked(c.handle)), if c.pc.Unpublished? then {j} else {});
  }

  lemma SoloHears(j: nat, c: Cell, lock: Option<nat>, x: nat)
    requires Reachable(Solo(j, c, lock, x, Some(Looked(true)), {}))
    ensures Reachable(Solo(j, c.(event := true), lock, x, Some(Signalled), {}))
  {
    var r := ReachNext(Solo(j, c, lock, x, Some(Looked(true)), {}), Signal(x));
    assert r == Solo(j, c.(event := true), lock, x, Some(Signalled), {});
  }

  lemma SoloMisses(j: nat, c: Cell, lock: Option<nat>, x: nat, missed: set<nat>)
    requires Reachable(Solo(j, c, lock, x, Some(Looked(false)), missed))
    ensures Reachable(Solo(j, c, lock, x, Some(Signalled), missed))
  {
    var r := ReachNext(Solo(j, c, lock, x, Some(Looked(false)), missed), Signal(x));
    assert r == Solo(j, c, lock, x, Some(Signalled), missed);
  }

  lemma SoloReads(j: nat, c: Cell, lock: Option<nat>, x: nat, missed: set<nat>)
    requires Reachable(Solo(j, c, lock, x, Some(Signalled), missed)) && c.job.state == Queued
    ensures Reachable(Solo(j, c, lock, x, Some(CancelFinishing), missed))
  {
    var r := ReachNext(Solo(j, c, lock, x, Some(Signalled), missed), ReadState(x));
    assert r == Solo(j, c, lock, x, Some(CancelFinishing), missed);
  }

  /** A cancel that finds the job's handle. */
  lemma SoloCancels(j: nat, c: Cell, x: nat)
    requires Reachable(Solo(j, c, None, x, None, {})) && c.job.state == Queued && c.handle && !c.pc.Unpublished?
    ensures Reachable(Solo(j, c.(event := true), None, x, Some(CancelFinishing), {}))
  {
    SoloCalls(j, c, None, x);
    SoloLooksUp(j, c, None, x);
    SoloHears(j, c, None, x);
    SoloReads(j, c.(event := true), None, x, {});
  }

  /** A cancel that comes before the handle is published. */
  lemma SoloCancelsEarly(j: nat, c: Cell, x: nat)
    requires Reachable(Solo(j, c, Some(j), x, None, {})) && c.job.state == Queued && !c.handle && c.pc.Unpublished?
    ensures Reachable(Solo(j, c, Some(j), x, Some(CancelFinishing), {j}))
  {
    SoloCalls(j, c, Some(j), x);
    SoloLooksUp(j, c, Some(j), x);
    SoloMisses(j, c, Some(j), x, {j});
    SoloReads(j, c, Some(j), x, {j});
  }

  lemma SoloFinishes(j: nat, c: Cell, x: nat, missed: set<nat>)
    requires Reachable(Solo(j, c, None, x, Some(CancelFinishing), missed)) && !IsDone(c)
    ensures Reachable(Solo(j, CancelSettle(c), None, x, Some(CancelNotifying), missed))
  {
    var r := ReachNext(Solo(j, c, None, x, Some(CancelFinishing), missed), FinishCancel(x));
    assert r == Solo(j, CancelSettle(c), None, x, Some(CancelNotifying), missed);
  }

  lemma SoloNotifies(j: nat, c: Cell, x: nat, missed: set<nat>)
    requires Reachable(Solo(j, c, None, x, Some(CancelNotifying), missed))
    ensures Reachable(Solo(j, c.(completed := c.completed + 1), None, x, Some(CancelExited), missed))
  {
    var r := ReachNext(Solo(j, c, None, x, Some(CancelNotifying), missed), NotifyCancel(x));
    assert r == Solo(j, c.(completed := c.completed + 1), None, x, Some(CancelExited), missed);
  }

  /** The cancel settles the job and announces it. */
  lemma SoloSettles(j: nat, c: Cell, x: nat, missed: set<nat>)
    requires Reachable(Solo(j, c, None, x, Some(CancelFinishing), missed)) && !IsDone(c)
    ensures var done := CancelSettle(c);
            Reachable(Solo(j, done.(completed := done.completed + 1), None, x, Some(CancelExited), missed))
  {
    SoloFinishes(j, c, x, missed);
    SoloNotifies(j, CancelSettle(c), x, missed);
  }

  /** A job whose worker has passed its check while a cancel is about to settle it. */
  lemma GapOpens(key: string, j: nat, x: nat) returns (r: Runner)
    ensures Reachable(r)
    ensures r == Solo(j, FreshCell(j, key).(pc := Passed, handle := true, event := true), None, x,
                      Some(CancelFinishing), {})
  {
    var c := FreshCell(j, key).(pc := Waiting, handle := true);
    SoloStarts(j, key, x);
    SoloPublishes(j, FreshCell(j, key), x, None, {});
    SoloWorks(j, c, x, None, {}, Check);
    SoloCancels(j, c.(pc := Passed), x);
    r := Solo(j, c.(pc := Passed, event := true), None, x, Some(CancelFinishing), {});
  }

  /** The cancel settles the job, its key is submitted again, and then the worker's write
      brings the first job back: two live jobs for one key. */
  lemma TwoLiveJobs(key: string, j: nat, other: nat, x: nat) returns (r: Runner)
    requires j != other
    ensures Reachable(r) && j in r.cells && other in r.cells && r.lock.Some?
    ensures r.cells[j].job == Job(j, key, Running) && r.cells[other].job == Job(other, key, Queued)
    ensures r.cells[j].pc == Working && r.cells[j].completed == 1 && r.cells[j].event
    ensures r.cancels == map[x := Cancel(j, CancelExited)] && r.lock.value == other
  {
    r := GapOpens(key, j, x);
    SoloSettles(j, r.cells[j], x, {});
    var done := CancelSettle(r.cells[j]);
    var b := Solo(j, done.(completed := 1), None, x, Some(CancelExited), {});
    NothingReturned(b, key, j);
    r := ReachNext(b, Submit(key, other));
    r := ReachNext(r, Work(j, Start));
  }

  lemma NothingReturned(r: Runner, key: string, j: nat)
    requires r.order == [j] && j in r.cells && !Live(r.cells[j].job.state)
    ensures Existing(r, key).None?
  {
    assert r.order[..0] == [] && Latest(Jobs(r), [], key) == None;
  }

  /** The same run carried to its end: the first job completes twice. */
  lemma TwoCompletions(key: string, j: nat, other: nat, x: nat) returns (r: Runner)
    requires j != other
    ensures Reachable(r) && Quiet(r, j) && r.cells[j].completed == 2
  {
    r := TwoLiveJobs(key, j, other, x);
    r := ReachNext(r, Publish);
    r := ReachNext(r, Work(j, Return(true)));
    r := ReachNext(r, Work(j, Recheck));
    r := ReachNext(r, Work(j, Finish));
    r := ReachNext(r, Work(j, Notify));
  }

  /** A cancel that looks the job up before its handle is published settles it without the worker
      hearing of it: the worker runs a job already cancelled, which completes twice, although
      nothing came between its check and its write. */
  lemma UnheardCancel(key: string, j: nat, x: nat) returns (r: Runner)
    ensures Reachable(r) && Quiet(r, j) && j in r.missed
    ensures var c := r.cells[j]; c.completed == 2 && c.unheard && !c.late && c.job.state == Succeeded
  {
    SoloStarts(j, key, x);
    SoloCancelsEarly(j, FreshCell(j, key), x);
    SoloPublishes(j, FreshCell(j, key), x, Some(CancelFinishing), {j});
    var c := FreshCell(j, key).(pc := Waiting, handle := true);
    SoloSettles(j, c, x, {j});
    c := CancelSettle(c).(completed := 1);
    c := SoloRuns(j, c, x, Some(CancelExited), {j});
    r := Solo(j, c, None, x, Some(CancelExited), {j});
  }

  /** A worker that sees no cancel runs its job to the end. */
  lemma SoloRuns(j: nat, c: Cell, x: nat, k: Option<CancelPc>, missed: set<nat>) returns (end: Cell)
    requires Reachable(Solo(j, c, None, x, k, missed)) && c.pc.Waiting? && !c.event
    ensures Reachable(Solo(j, end, None, x, k, missed)) && end.pc.Exited? && end.job.state == Succeeded
    ensures end.completed == c.completed + 1 && end.unheard == IsDone(c) && end.late == c.late
  {
    end := c;
    SoloWorks(j, end, x, k, missed, Check);
    end := WorkerDo(end, Check);
    SoloWorks(j, end, x, k, missed, Start);
    end := WorkerDo(end, Start);
    SoloWorks(j, end, x, k, missed, Return(true));
    end := WorkerDo(end, Return(true));
    SoloWorks(j, end, x, k, missed, Recheck);
    end := WorkerDo(end, Recheck);
    SoloWorks(j, end, x, k, missed, Finish);
    end := WorkerDo(end, Finish);
    SoloWorks(j, end, x, k, missed, Notify);
    end := WorkerDo(end, Notify);
  }
}
