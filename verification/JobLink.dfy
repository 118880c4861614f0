/** A method of the runner is a run of the machine's steps, taken with nothing in between. */
module JobLink {
  import opened Wrappers
  import opened JobStore
  import opened JobRunner
  import JobService

  /** A submit and, if it starts a job, the publication of its handle. */
  lemma SubmitIsItsSteps(r: Runner, key: string, id: nat) returns (s: Runner)
    requires Reachable(r) && Enabled(r, Submit(key, id))
    ensures Reachable(s)
    ensures if LatestIsLive(r, key) then s == r
            else Jobs(s) == Jobs(r)[id := Job(id, key, Queued)] && s.order == r.order + [id] && s.lock.None?
                 && id in s.cells && s.cells[id].handle && !s.cells[id].event
  {
    AcceptsExactly(r, key, id);
    if Accepts(r, Submit(key, id)) {
      s := Starts(r, key, id);
      JobsWith(r, s, id);
    } else {
      s := ReachNext(r, Submit(key, id));
    }
  }

  lemma AcceptsExactly(r: Runner, key: string, id: nat)
    requires Enabled(r, Submit(key, id))
    ensures Accepts(r, Submit(key, id)) <==> !LatestIsLive(r, key)
    ensures !Accepts(r, Submit(key, id)) ==> Do(r, Submit(key, id)) == r
  {
  }

  lemma JobsWith(r: Runner, s: Runner, id: nat)
    requires id in s.cells && s.cells == r.cells[id := s.cells[id]]
    ensures Jobs(s) == Jobs(r)[id := s.cells[id].job]
  {
  }

  lemma Starts(r: Runner, key: string, id: nat) returns (s: Runner)
    requires Reachable(r) && Enabled(r, Submit(key, id)) && Accepts(r, Submit(key, id))
    ensures Reachable(s) && s.cells == r.cells[id := FreshCell(id, key).(pc := Waiting, handle := true)]
    ensures s.order == r.order + [id] && s.lock.None?
  {
    var t := Accepted(r, key, id);
    s := Publishes(t, id);
  }

  lemma Accepted(r: Runner, key: string, id: nat) returns (s: Runner)
    requires Reachable(r) && Enabled(r, Submit(key, id)) && Accepts(r, Submit(key, id))
    ensures Reachable(s) && s.cells == r.cells[id := FreshCell(id, key)]
    ensures s.order == r.order + [id] && s.lock == Some(id)
  {
    s := ReachNext(r, Submit(key, id));
  }

  lemma Publishes(r: Runner, id: nat) returns (s: Runner)
    requires Reachable(r) && r.lock == Some(id) && id in r.cells
    ensures Reachable(s) && s.cells == r.cells[id := r.cells[id].(pc := Waiting, handle := true)]
    ensures s.order == r.order && s.lock.None?
  {
    s := ReachNext(r, Publish);
  }

  // ---- Cancelling -----------------------------------------------------------------------------------

  /** The job's cell with its event set, if its handle is still listed. */
  function Told(c: Cell): Cell {
    if c.handle then c.(event := true) else c
  }

  /** The jobs and the lock are as before, and the cancel has moved. */
  predicate Moved(r: Runner, s: Runner, x: nat, j: nat, pc: CancelPc) {
    s.cancels == r.cancels[x := Cancel(j, pc)] && s.order == r.order && s.lock == r.lock
  }

  lemma Calls(r: Runner, x: nat, j: nat) returns (s: Runner)
    requires Reachable(r) && x !in r.cancels
    ensures Reachable(s) && s.cells == r.cells && Moved(r, s, x, j, Called)
  {
    s := ReachNext(r, CallCancel(x, j));
  }

  lemma Looks(r: Runner, x: nat, j: nat) returns (s: Runner)
    requires Reachable(r) && x in r.cancels && r.cancels[x] == Cancel(j, Called) && j in r.cells
    ensures Reachable(s) && s.cells == r.cells && Moved(r, s, x, j, Looked(r.cells[j].handle))
  {
    s := ReachNext(r, LookUp(x));
  }

  lemma Tells(r: Runner, x: nat, j: nat) returns (s: Runner)
    requires Reachable(r) && x in r.cancels && j in r.cells && r.cancels[x] == Cancel(j, Looked(r.cells[j].handle))
    ensures Reachable(s) && s.cells == r.cells[j := Told(r.cells[j])] && Moved(r, s, x, j, Signalled)
  {
    s := ReachNext(r, Signal(x));
  }

  lemma Reads(r: Runner, x: nat, j: nat) returns (s: Runner)
    requires Reachable(r) && x in r.cancels && j in r.cells && r.cancels[x] == Cancel(j, Signalled)
    ensures Reachable(s) && s.cells == r.cells
    ensures Moved(r, s, x, j, AfterLook(r.cells[j]))
  {
    s := ReachNext(r, ReadState(x));
  }

  lemma Settles(r: Runner, x: nat, j: nat) returns (s: Runner)
    requires Reachable(r) && r.lock.None? && x in r.cancels && r.cancels[x] == Cancel(j, CancelFinishing)
    requires j in r.cells && !IsDone(r.cells[j])
    ensures Reachable(s) && s.cells == r.cells[j := CancelSettle(r.cells[j])] && Moved(r, s, x, j, CancelNotifying)
  {
    s := ReachNext(r, FinishCancel(x));
  }

  lemma Completes(r: Runner, x: nat, j: nat) returns (s: Runner)
    requires Reachable(r) && x in r.cancels && j in r.cells && r.cancels[x] == Cancel(j, CancelNotifying)
    ensures Reachable(s) && Moved(r, s, x, j, CancelExited)
    ensures s.cells == r.cells[j := r.cells[j].(completed := r.cells[j].completed + 1)]
  {
    s := ReachNext(r, NotifyCancel(x));
  }

  lemma Twice(m: map<nat, Cancel>, x: nat, a: Cancel, b: Cancel)
    ensures m[x := a][x := b] == m[x := b]
  {
  }

  lemma MovedOn(r: Runner, s: Runner, t: Runner, x: nat, j: nat, a: CancelPc, b: CancelPc)
    requires Moved(r, s, x, j, a) && Moved(s, t, x, j, b)
    ensures Moved(r, t, x, j, b)
  {
    Twice(r.cancels, x, Cancel(j, a), Cancel(j, b));
  }

  lemma LooksUp(r: Runner, x: nat, j: nat) returns (s: Runner)
    requires Reachable(r) && x !in r.cancels && j in r.cells
    ensures Reachable(s) && s.cells == r.cells && Moved(r, s, x, j, Looked(r.cells[j].handle))
  {
    var t := Calls(r, x, j);
    s := Looks(t, x, j);
    MovedOn(r, t, s, x, j, Called, Looked(r.cells[j].handle));
  }

  lemma TellsAndReads(r: Runner, x: nat, j: nat) returns (s: Runner)
    requires Reachable(r) && x in r.cancels && j in r.cells && r.cancels[x] == Cancel(j, Looked(r.cells[j].handle))
    ensures Reachable(s) && s.cells == r.cells[j := Told(r.cells[j])] && Moved(r, s, x, j, AfterLook(r.cells[j]))
  {
    var t := Tells(r, x, j);
    s := Reads(t, x, j);
    MovedOn(r, t, s, x, j, Signalled, AfterLook(r.cells[j]));
  }

  function AfterLook(c: Cell): CancelPc {
    if c.job.state == Queued then CancelFinishing else CancelExited
  }

  /** A cancel as far as its look at the job. */
  lemma Signals(r: Runner, x: nat, j: nat) returns (s: Runner)
    requires Reachable(r) && x !in r.cancels && j in r.cells
    ensures Reachable(s) && s.cells == r.cells[j := Told(r.cells[j])] && Moved(r, s, x, j, AfterLook(r.cells[j]))
  {
    var t := LooksUp(r, x, j);
    s := TellsAndReads(t, x, j);
    MovedOn(r, t, s, x, j, Looked(r.cells[j].handle), AfterLook(r.cells[j]));
  }

  /** Only that job has changed. */
  predicate OnlyAt(r: Runner, s: Runner, j: nat) {
    s.cells.Keys == r.cells.Keys && s.order == r.order && s.lock == r.lock
    && forall k | k in r.cells && k != j :: s.cells[k] == r.cells[k]
  }

  /** With nothing in between, a queued job is cancelled and announced, another is told. */
  lemma CancelIsItsSteps(r: Runner, x: nat, j: nat) returns (s: Runner)
    requires Reachable(r) && r.lock.None? && x !in r.cancels && j in r.cells
    ensures Reachable(s) && OnlyAt(r, s, j) && s.cancels == r.cancels[x := Cancel(j, CancelExited)]
    ensures var was, now := r.cells[j], s.cells[j];
            && now.job == was.job.(state := if was.job.state == Queued then Cancelled else was.job.state)
            && now.completed == was.completed + (if was.job.state == Queued then 1 else 0)
            && now.event == (was.event || was.handle)
            && now.handle == (was.handle && was.job.state != Queued)
  {
    s := Signals(r, x, j);
    if r.cells[j].job.state == Queued {
      var told := s;
      s := SettlesAlone(told, x, j);
      Twice(r.cancels, x, Cancel(j, CancelFinishing), Cancel(j, CancelExited));
    }
  }

  lemma SettlesAlone(r: Runner, x: nat, j: nat) returns (s: Runner)
    requires Reachable(r) && r.lock.None? && x in r.cancels && r.cancels[x] == Cancel(j, CancelFinishing)
    requires j in r.cells && !IsDone(r.cells[j])
    ensures Reachable(s) && OnlyAt(r, s, j) && s.cancels == r.cancels[x := Cancel(j, CancelExited)]
    ensures s.cells[j].job == r.cells[j].job.(state := Cancelled) && s.cells[j].event == r.cells[j].event
    ensures !s.cells[j].handle
    ensures s.cells[j].completed == r.cells[j].completed + 1
  {
    var t := Settles(r, x, j);
    s := Completes(t, x, j);
    MovedOn(r, t, s, x, j, CancelNotifying, CancelExited);
  }

  // ---- Working --------------------------------------------------------------------------------------

  lemma Steps(r: Runner, j: nat, e: WorkerStep) returns (s: Runner)
    requires Reachable(r) && r.lock.None? && Enabled(r, Work(j, e))
    ensures Reachable(s) && s.cells == r.cells[j := WorkerDo(r.cells[j], e)]
    ensures s.order == r.order && s.lock.None? && s.cancels == r.cancels
  {
    s := ReachNext(r, Work(j, e));
  }

  /** From `_finish` to the worker's end. */
  lemma Announces(r: Runner, j: nat) returns (s: Runner)
    requires Reachable(r) && r.lock.None? && j in r.cells && r.cells[j].pc.Finishing?
    ensures Reachable(s) && OnlyAt(r, s, j)
    ensures var was, now := r.cells[j], s.cells[j];
            && now.pc.Exited? && now.job == was.job.(state := if IsDone(was) then was.job.state else was.pc.to)
            && now.completed == (was.completed + if IsDone(was) then 0 else 1)
            && now.handle == (was.handle && IsDone(was))
  {
    s := Steps(r, j, Finish);
    if s.cells[j].pc.Notifying? {
      s := Steps(s, j, Notify);
    }
  }

  /** The worker's way to its work, and a cancel that reaches the job while it runs. */
  lemma Begins(r: Runner, x: nat, j: nat, later: bool) returns (s: Runner)
    requires Reachable(r) && r.lock.None? && j in r.cells && r.cells[j].pc.Waiting? && !r.cells[j].event
    requires later ==> r.cells[j].handle && x !in r.cancels
    ensures Reachable(s) && OnlyAt(r, s, j)
    ensures var was, now := r.cells[j], s.cells[j];
            && now.pc.Working? && now.job == was.job.(state := Running) && now.completed == was.completed
            && now.event == later
  {
    s := Steps(r, j, Check);
    s := Steps(s, j, Start);
    if later {
      s := Signals(s, x, j);
    }
  }

  /** The worker's way from the end of its work to `_finish`. */
  lemma Returns(r: Runner, j: nat, ok: bool) returns (s: Runner)
    requires Reachable(r) && r.lock.None? && j in r.cells && r.cells[j].pc.Working?
    ensures Reachable(s) && OnlyAt(r, s, j)
    ensures var was, now := r.cells[j], s.cells[j];
            && now.job == was.job && now.completed == was.completed
            && now.pc == Finishing(if !ok then Failed else if was.event then Cancelled else Succeeded)
  {
    s := Steps(r, j, Return(ok));
    if ok {
      s := Steps(s, j, Recheck);
    }
  }

  /** A worker from its check to its end, told by a cancel while it works or not, leaves the job
      and the completions that the method leaves. */
  lemma WorkIsItsSteps(r: Runner, x: nat, j: nat, ok: bool, later: bool) returns (s: Runner)
    requires Reachable(r) && r.lock.None? && j in r.cells && r.cells[j].pc.Waiting?
    requires later ==> r.cells[j].handle && x !in r.cancels
    ensures Reachable(s) && OnlyAt(r, s, j)
    ensures var was, now := r.cells[j], s.cells[j];
            && now.pc.Exited?
            && now.job == was.job.(state := JobService.Ran(was.job.state, was.event, ok, later))
            && now.completed == (was.completed + if was.event && Done(was.job.state) then 0 else 1)
            && (!(was.event && Done(was.job.state)) ==> !now.handle)
  {
    if r.cells[j].event {
      s := Steps(r, j, Check);
    } else {
      s := Begins(r, x, j, later);
      s := Returns(s, j, ok);
    }
    s := Announces(s, j);
  }
}
