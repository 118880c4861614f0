/** What provisioning keeps whatever docker does. */
module ProvisionMarks {
  import opened Provisioning
  import opened ProvisionRuns

  /** Between finding its name unready under the lock and having marked the volume. */
  predicate AtWork(pc: Pc) {
    Critical(pc) && !pc.Locked? && !pc.Remembering?
  }

  predicate InPlace(pc: Pc) {
    pc.Created? || pc.Installing? || pc.Marking?
  }

  /** A thread in its critical section holds the lock of its name; at work, its name is not ready. */
  predicate Stands(s: State, t: nat)
    requires t in s.threads
  {
    var a := s.threads[t];
    && (Critical(a.pc) ==> a.name in s.locks && s.locks[a.name] == t)
    && (AtWork(a.pc) ==> a.name !in s.ready)
    && (InPlace(a.pc) ==> a.name in s.volumes)
    && (a.pc.Remembering? ==> Marked(s.volumes, a.name))
  }

  ghost predicate Calm(s: State) {
    && (forall t | t in s.threads :: Stands(s, t))
    && (forall n | n in s.ready :: Marked(s.volumes, n))
    && (forall n | n in s.locks ::
          s.locks[n] in s.threads && s.threads[s.locks[n]].name == n && Critical(s.threads[s.locks[n]].pc))
  }

  lemma ActorStands(u: Rules, s: State, t: nat, e: Event)
    requires Calm(s) && Enabled(u, s, Act(t, e))
    ensures Stands(DoAct(u, s, t, e), t)
    ensures s.threads[t].name in DoAct(u, s, t, e).ready ==> Marked(DoAct(u, s, t, e).volumes, s.threads[t].name)
  {
    assert Stands(s, t);
  }

  lemma OthersStandBy(u: Rules, s: State, t: nat, e: Event, o: nat)
    requires Calm(s) && Enabled(u, s, Act(t, e)) && o in s.threads && o != t
    ensures Stands(DoAct(u, s, t, e), o)
  {
    assert Stands(s, o);
    if s.threads[t].name != s.threads[o].name {
      ActorLeaves(u, s, t, e, s.threads[o].name);
    } else {
      assert Stands(s, t);
      assert Critical(s.threads[o].pc) ==> !Critical(s.threads[t].pc);
    }
  }

  lemma ActKeepsOwners(u: Rules, s: State, t: nat, e: Event)
    requires Calm(s) && Enabled(u, s, Act(t, e))
    ensures var after := DoAct(u, s, t, e);
            forall n | n in after.locks ::
              && after.locks[n] in after.threads && after.threads[after.locks[n]].name == n
              && Critical(after.threads[after.locks[n]].pc)
  {
    assert Stands(s, t);
  }

  lemma ActKeepsCalm(u: Rules, s: State, t: nat, e: Event)
    requires Calm(s) && Enabled(u, s, Act(t, e))
    ensures Calm(DoAct(u, s, t, e))
  {
    var after := DoAct(u, s, t, e);
    ActorStands(u, s, t, e);
    ActKeepsOwners(u, s, t, e);
    forall o | o in after.threads ensures Stands(after, o) {
      if o != t {
        OthersStandBy(u, s, t, e, o);
      }
    }
    forall n | n in after.ready ensures Marked(after.volumes, n) {
      if n != s.threads[t].name {
        ActorLeaves(u, s, t, e, n);
      }
    }
  }

  lemma StepKeepsCalm(u: Rules, s: State, step: Step)
    requires Calm(s) && Enabled(u, s, step)
    ensures Calm(Do(u, s, step))
  {
    match step
    case Act(t, e) => ActKeepsCalm(u, s, t, e);
    case Call(t, _, _) =>
      forall o | o in Do(u, s, step).threads ensures Stands(Do(u, s, step), o) {
        assert o in s.threads ==> Stands(s, o);
      }
    case Orphan(n, _, _) =>
      forall o | o in s.threads ensures Stands(Do(u, s, step), o) {
        assert Stands(s, o);
      }
    case Crash =>
  }

  lemma {:induction false} TraceKeepsCalm(u: Rules, run: seq<State>, i: nat)
    requires Trace(u, run) && i < |run|
    ensures Calm(run[i]) && (u.stops ==> OwnWriters(run[i]))
  {
    if i > 0 {
      TraceKeepsCalm(u, run, i - 1);
      assert Next(u, run[i - 1], run[i]);
      var step :| Enabled(u, run[i - 1], step) && run[i] == Do(u, run[i - 1], step);
      StepKeepsCalm(u, run[i - 1], step);
      if u.stops {
        StepKeepsWriters(u, run[i - 1], step);
      }
    }
  }

  /** Whatever docker does, a volume this process has marked ready stays, and stays marked, until
      the process dies; and with a docker that stops and removes, it stays as it is, and whole. */
  lemma ReadyStays(u: Rules, s: State, step: Step, n: Name)
    requires Reachable(u, s) && Enabled(u, s, step) && !step.Crash? && n in s.ready
    ensures var after := Do(u, s, step);
            && n in after.ready && Marked(after.volumes, n) && Marked(s.volumes, n)
            && (Kind(u) ==> after.volumes[n] == s.volumes[n] && s.volumes[n].content == Complete(n.packages))
  {
    var run :| Trace(u, run) && run[|run| - 1] == s;
    TraceKeepsCalm(u, run, |run| - 1);
    StepKeepsCalm(u, s, step);
    if Kind(u) {
      ReadyIsUntouched(u, s, step, n);
    }
  }

  lemma ReadyIsUntouched(u: Rules, s: State, step: Step, n: Name)
    requires Kind(u) && Reachable(u, s) && Enabled(u, s, step) && !step.Crash? && n in s.ready
    ensures var after := Do(u, s, step);
            n in after.volumes && n in s.volumes && after.volumes[n] == s.volumes[n]
            && s.volumes[n].content == Complete(n.packages)
  {
    ReachableInv(u, s);
    assert Marked(s.volumes, n);
    match step
    case Act(t, e) =>
      assert ThreadInv(s, t);
      if s.threads[t].name != n {
        ActorLeaves(u, s, t, e, n);
      }
    case Orphan(m, id, _) => NoOrphans(s, m, id);
    case Call(_, _, _) =>
  }

  // ---- One install at a time --------------------------------------------------------------------------

  /** Whatever installs in a volume is what the holder of its lock waits for. */
  predicate OwnWriter(s: State, n: Name)
    requires n in s.volumes
  {
    var writers := s.volumes[n].writers;
    writers == {} || (n in s.locks && s.locks[n] in s.threads
                      && var pc := s.threads[s.locks[n]].pc; pc.Installing? && writers == {pc.id})
  }

  ghost predicate OwnWriters(s: State) {
    forall n | n in s.volumes :: OwnWriter(s, n)
  }

  lemma ActorKeepsWriter(u: Rules, s: State, t: nat, e: Event)
    requires u.stops && Calm(s) && OwnWriters(s) && Enabled(u, s, Act(t, e))
    ensures var after, n := DoAct(u, s, t, e), s.threads[t].name; n in after.volumes ==> OwnWriter(after, n)
  {
    assert Stands(s, t);
    var n := s.threads[t].name;
    assert n in s.volumes ==> OwnWriter(s, n);
  }

  lemma StepKeepsWriters(u: Rules, s: State, step: Step)
    requires u.stops && Calm(s) && OwnWriters(s) && Enabled(u, s, step)
    ensures OwnWriters(Do(u, s, step))
  {
    var after := Do(u, s, step);
    forall n | n in after.volumes ensures OwnWriter(after, n) {
      match step
      case Act(t, e) =>
        if n == s.threads[t].name {
          ActorKeepsWriter(u, s, t, e);
        } else {
          ActorLeaves(u, s, t, e, n);
          assert OwnWriter(s, n);
        }
      case Orphan(m, id, _) => NoOrphanWriter(s, m, id);
      case Call(_, _, _) => assert OwnWriter(s, n);
      case Crash =>
    }
  }

  lemma NoOrphanWriter(s: State, n: Name, id: nat)
    requires Calm(s) && OwnWriters(s) && n in s.volumes && id in s.volumes[n].writers
    ensures !Orphaned(s, n, id)
  {
    assert OwnWriter(s, n);
  }

  /** At most one install works in a volume, in every run, exactly when docker stops an install whose
      client is gone; whether it removes volumes does not matter. */
  lemma OneAtATimeExactly(u: Rules)
    ensures (forall s | Reachable(u, s) :: OneAtATime(s)) <==> u.stops
  {
    if u.stops {
      forall s | Reachable(u, s) ensures OneAtATime(s) {
        var run :| Trace(u, run) && run[|run| - 1] == s;
        TraceKeepsCalm(u, run, |run| - 1);
        assert forall n | n in s.volumes :: OwnWriter(s, n);
      }
    } else {
      var s := TwoInstalls(u, "image", []);
    }
  }
}
