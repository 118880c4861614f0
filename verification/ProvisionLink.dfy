/** A call to the provisioner is a run of the machine's steps by one thread. */
module ProvisionLink {
  import opened Provisioning
  import opened ProvisionRuns

  /** The machine after a whole call of thread `t`. */
  function After(s: State, t: nat, n: Name, o: Outcomes): State {
    var provided := n in s.ready || Marked(s.volumes, n) || Provides(o);
    State(VolumesAfter(s.volumes, s.ready, n, o), s.ready + if provided then {n} else {}, s.locks,
          s.threads[t := Thread(n, if provided then Returned else Failed)])
  }

  /** The steps of one call, with no other thread between them, leave the volumes, the names known
      ready and the outcome that the method leaves. */
  lemma CallIsItsSteps(u: Rules, s: State, t: nat, image: string, deps: seq<string>, o: Outcomes)
    requires Reachable(u, s) && t !in s.threads
    requires var n := NameOf(image, deps); n !in s.locks && VolumeOf(s, n).writers == {}
    ensures Reachable(u, After(s, t, NameOf(image, deps), o))
  {
    var n := NameOf(image, deps);
    Calls(u, s, t, image, deps);
    if n in s.ready {
      Acts(u, s, s.volumes, s.locks, t, n, Called, CheckFast, s.volumes, s.locks, Returned);
      assert s.ready + {n} == s.ready;
    } else if Marked(s.volumes, n) {
      FindsMark(u, s, t, n);
    } else {
      Arrives(u, s, t, n);
      Provision(u, s, t, n, o);
    }
  }

  lemma FindsMark(u: Rules, s: State, t: nat, n: Name)
    requires Reachable(u, With(s, s.volumes, s.locks, t, n, Called))
    requires n !in s.ready && n !in s.locks && Marked(s.volumes, n)
    ensures Reachable(u, State(s.volumes, s.ready + {n}, s.locks, s.threads[t := Thread(n, Returned)]))
  {
    var held := s.locks[n := t];
    TakesLock(u, s, t, n);
    assert held[n := t] == held && held - {n} == s.locks;
    Acts(u, s, s.volumes, held, t, n, Locked, Recheck, s.volumes, held, Probing);
    Lets(u, s, s.volumes, t, n, Probing, Probe, Returned);
  }

  /** The step with which a thread lets go of its lock. */
  lemma Lets(u: Rules, s: State, volumes: map<Name, Volume>, t: nat, n: Name, pc: Pc, e: Event, to: Pc)
    requires var b := With(s, volumes, s.locks[n := t], t, n, pc);
             && Reachable(u, b) && ActEnabled(u, b, Thread(n, pc), e) && PcTo(b, Thread(n, pc), e) == to
    requires n !in s.locks && Critical(pc) && !Critical(to)
    ensures var b, a := With(s, volumes, s.locks[n := t], t, n, pc), Thread(n, pc);
            Reachable(u, State(VolumesTo(u, b, a, e), ReadyTo(b, a, e), s.locks, s.threads[t := Thread(n, to)]))
  {
    var b := With(s, volumes, s.locks[n := t], t, n, pc);
    var r := ReachNext(u, b, Act(t, e));
    assert s.locks[n := t] - {n} == s.locks;
    assert s.threads[t := Thread(n, pc)][t := Thread(n, to)] == s.threads[t := Thread(n, to)];
  }

  lemma Provision(u: Rules, s: State, t: nat, n: Name, o: Outcomes)
    requires Reachable(u, With(s, s.volumes, s.locks[n := t], t, n, Discarding))
    requires n !in s.ready && n !in s.locks && !Marked(s.volumes, n) && VolumeOf(s, n).writers == {}
    ensures Reachable(u, After(s, t, n, o))
  {
    var held := s.locks[n := t];
    var rest := s.volumes - {n};
    assert held[n := t] == held;
    assert s.ready + {} == s.ready;
    if o.create {
      Installs(u, s.(locks := held), t, n, true);
      Completes(u, s, t, n, o);
    } else {
      Acts(u, s, s.volumes, held, t, n, Discarding, Remove(true), rest, held, Creating);
      Lets(u, s, rest, t, n, Creating, Create(false), Failed);
    }
  }

  /** The volume as a whole install, or a failed one, leaves it. */
  function Installed(n: Name, ok: bool): Volume {
    Volume(if ok then Complete(n.packages) else Partial, false, false, {})
  }

  lemma EndsInstall(u: Rules, s: State, t: nat, n: Name, ok: bool)
    requires Reachable(u, With(s, s.volumes[n := Begun(NEW, t)], s.locks[n := t], t, n, Installing(t)))
    ensures Reachable(u, With(s, s.volumes[n := Installed(n, ok)], s.locks[n := t], t, n,
                              if ok then Marking else Cleaning))
  {
    var held, busy := s.locks[n := t], s.volumes[n := Begun(NEW, t)];
    assert held[n := t] == held && {t} - {t} == {};
    assert Ended(Begun(NEW, t), t, ok, n.packages) == Installed(n, ok);
    assert busy[n := Installed(n, ok)] == s.volumes[n := Installed(n, ok)];
    Acts(u, s, busy, held, t, n, Installing(t), EndInstall(if ok then Succeeds else Fails),
         s.volumes[n := Installed(n, ok)], held, if ok then Marking else Cleaning);
  }

  lemma Touches(u: Rules, s: State, t: nat, n: Name, works: bool)
    requires Reachable(u, With(s, s.volumes[n := Installed(n, true)], s.locks[n := t], t, n, Marking))
    ensures Reachable(u, With(s, s.volumes[n := Installed(n, true).(sentinel := works)], s.locks[n := t], t, n,
                              if works then Remembering else Cleaning))
  {
    var held, whole := s.locks[n := t], s.volumes[n := Installed(n, true)];
    var after := s.volumes[n := Installed(n, true).(sentinel := works)];
    assert held[n := t] == held && whole[n := after[n]] == after;
    Acts(u, s, whole, held, t, n, Marking, Touch(works, works), after, held, if works then Remembering else Cleaning);
  }

  lemma Completes(u: Rules, s: State, t: nat, n: Name, o: Outcomes)
    requires Reachable(u, With(s, s.volumes[n := Begun(NEW, t)], s.locks[n := t], t, n, Installing(t)))
    requires n !in s.ready && n !in s.locks && !Marked(s.volumes, n) && o.create
    ensures Reachable(u, After(s, t, n, o))
  {
    assert s.ready + {} == s.ready;
    EndsInstall(u, s, t, n, o.install);
    if !o.install {
      CleansUp(u, s, Installed(n, false), t, n);
    } else {
      Touches(u, s, t, n, o.touch);
      if o.touch {
        var whole := Volume(Complete(n.packages), true, false, {});
        Lets(u, s, s.volumes[n := whole], t, n, Remembering, Remember, Returned);
      } else {
        CleansUp(u, s, Installed(n, true), t, n);
      }
    }
  }

  lemma CleansUp(u: Rules, s: State, v: Volume, t: nat, n: Name)
    requires Reachable(u, With(s, s.volumes[n := v], s.locks[n := t], t, n, Cleaning))
    requires n !in s.locks && v.writers == {}
    ensures Reachable(u, State(s.volumes - {n}, s.ready, s.locks, s.threads[t := Thread(n, Failed)]))
  {
    Lets(u, s, s.volumes[n := v], t, n, Cleaning, Remove(true), Failed);
    assert s.volumes[n := v] - {n} == s.volumes - {n};
  }
}
