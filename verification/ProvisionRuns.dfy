/** What every run of threads, failures and crashes keeps of the package volumes. */
module ProvisionRuns {
  import opened Provisioning

  /** Every returned name has a completed install of exactly its packages. */
  ghost predicate ReturnsWhole(s: State) {
    forall t | t in s.threads && s.threads[t].pc.Returned? ::
      var n := s.threads[t].name; n in s.volumes && s.volumes[n].content == Complete(n.packages)
  }

  /** At most one install works in a volume. */
  ghost predicate OneAtATime(s: State) {
    forall n, i, j | n in s.volumes && i in s.volumes[n].writers && j in s.volumes[n].writers :: i == j
  }

  /** The sentinel stands only on a completed install. */
  ghost predicate TrueSentinels(s: State) {
    forall n | n in s.volumes && s.volumes[n].sentinel :: s.volumes[n].content == Complete(n.packages)
  }

  /** A volume at rest: marked only when whole, and nothing at work in it. */
  predicate AtRest(n: Name, v: Volume) {
    (v.sentinel ==> v.content == Complete(n.packages)) && v.writers == {}
  }

  /** What a thread in its critical section knows of its volume. */
  predicate Knows(s: State, a: Thread) {
    var v := VolumeOf(s, a.name);
    match a.pc
    case Locked => AtRest(a.name, v)
    case Probing => a.name !in s.ready && AtRest(a.name, v)
    case Discarding => a.name !in s.ready && !v.sentinel && AtRest(a.name, v)
    case Creating => a.name !in s.ready && a.name !in s.volumes
    case Created => a.name !in s.ready && a.name in s.volumes && v == NEW
    case Installing(id) =>
      a.name !in s.ready && a.name in s.volumes && !v.sentinel && !v.torn && v.writers == {id}
    case Marking =>
      a.name !in s.ready && a.name in s.volumes && v.content == Complete(a.name.packages) && v.writers == {}
    case Remembering => a.name in s.volumes && v.sentinel && AtRest(a.name, v)
    case Cleaning => a.name !in s.ready && AtRest(a.name, v)
    case _ => true
  }

  predicate ThreadInv(s: State, t: nat)
    requires t in s.threads
  {
    var a := s.threads[t];
    && (Critical(a.pc) ==> a.name in s.locks && s.locks[a.name] == t && Knows(s, a))
    && (a.pc.Returned? ==> a.name in s.ready)
  }

  /** A volume whose lock is free, or whose holder is not writing, is at rest. */
  predicate VolumeInv(s: State, n: Name)
    requires n in s.volumes
  {
    n !in s.locks ==> AtRest(n, s.volumes[n])
  }

  ghost predicate Inv(s: State) {
    && (forall t | t in s.threads :: ThreadInv(s, t))
    && (forall n | n in s.volumes :: VolumeInv(s, n))
    && (forall n | n in s.ready :: Marked(s.volumes, n))
    && (forall n | n in s.locks ::
          s.locks[n] in s.threads && s.threads[s.locks[n]].name == n && Critical(s.threads[s.locks[n]].pc))
    && (forall n | n in s.volumes && s.volumes[n].sentinel :: AtRest(n, s.volumes[n]))
  }

  predicate Kind(u: Rules) {
    u.stops && u.removes
  }

  // ---- One thread's step --------------------------------------------------------------------------------

  /** The thread that moves still knows where it stands. */
  lemma ActorKnows(u: Rules, s: State, t: nat, e: Event)
    requires Kind(u) && Inv(s) && Enabled(u, s, Act(t, e))
    ensures ThreadInv(DoAct(u, s, t, e), t)
  {
    ActorHolds(u, s, t, e);
    if Critical(PcTo(s, s.threads[t], e)) {
      ActorLearns(u, s, t, e);
    }
  }

  lemma ActorHolds(u: Rules, s: State, t: nat, e: Event)
    requires Inv(s) && Enabled(u, s, Act(t, e))
    ensures var after, a := DoAct(u, s, t, e), DoAct(u, s, t, e).threads[t];
            && (Critical(a.pc) ==> a.name in after.locks && after.locks[a.name] == t)
            && (a.pc.Returned? ==> a.name in after.ready)
  {
    assert ThreadInv(s, t);
  }

  lemma ActorLearns(u: Rules, s: State, t: nat, e: Event)
    requires Kind(u) && Inv(s) && Enabled(u, s, Act(t, e)) && Critical(PcTo(s, s.threads[t], e))
    ensures Knows(DoAct(u, s, t, e), DoAct(u, s, t, e).threads[t])
  {
    assert ThreadInv(s, t);
    var n := s.threads[t].name;
    assert n in s.volumes ==> VolumeInv(s, n) && (s.volumes[n].sentinel ==> AtRest(n, s.volumes[n]));
  }

  /** And leaves its own volume in order. */
  lemma ActorKeeps(u: Rules, s: State, t: nat, e: Event)
    requires Kind(u) && Inv(s) && Enabled(u, s, Act(t, e))
    ensures var after, n := DoAct(u, s, t, e), s.threads[t].name;
            && (n in after.volumes ==> VolumeInv(after, n))
            && (Marked(after.volumes, n) ==> AtRest(n, after.volumes[n]))
            && (n in after.ready ==> Marked(after.volumes, n))
  {
    assert ThreadInv(s, t);
    var n := s.threads[t].name;
    if n in s.volumes {
      assert VolumeInv(s, n);
      assert s.volumes[n].sentinel ==> AtRest(n, s.volumes[n]);
    }
  }

  /** It touches nothing of any other name. */
  lemma ActorLeaves(u: Rules, s: State, t: nat, e: Event, n: Name)
    requires Enabled(u, s, Act(t, e)) && s.threads[t].name != n
    ensures var after := DoAct(u, s, t, e);
            && (n in after.volumes <==> n in s.volumes) && (n in s.volumes ==> after.volumes[n] == s.volumes[n])
            && (n in after.ready <==> n in s.ready)
            && (n in after.locks <==> n in s.locks) && (n in s.locks ==> after.locks[n] == s.locks[n])
  {
  }

  /** Nor anything a thread of the same name relies on. */
  lemma OthersStand(u: Rules, s: State, t: nat, e: Event, o: nat)
    requires Kind(u) && Inv(s) && Enabled(u, s, Act(t, e)) && o in s.threads && o != t
    ensures ThreadInv(DoAct(u, s, t, e), o)
  {
    assert ThreadInv(s, o);
    if s.threads[t].name != s.threads[o].name {
      ActorLeaves(u, s, t, e, s.threads[o].name);
    } else {
      SameNameStands(u, s, t, e, o);
    }
  }

  /** Only one thread of a name is in its critical section. */
  lemma SameNameStands(u: Rules, s: State, t: nat, e: Event, o: nat)
    requires Kind(u) && Inv(s) && Enabled(u, s, Act(t, e)) && o in s.threads && o != t
    requires s.threads[t].name == s.threads[o].name
    ensures ThreadInv(DoAct(u, s, t, e), o)
  {
    assert ThreadInv(s, o) && ThreadInv(s, t);
    assert Critical(s.threads[o].pc) ==> !Critical(s.threads[t].pc);
  }

  lemma ActKeepsLocks(u: Rules, s: State, t: nat, e: Event)
    requires Inv(s) && Enabled(u, s, Act(t, e))
    ensures var after := DoAct(u, s, t, e);
            forall n | n in after.locks ::
              && after.locks[n] in after.threads && after.threads[after.locks[n]].name == n
              && Critical(after.threads[after.locks[n]].pc)
  {
  }

  lemma ActKeepsInv(u: Rules, s: State, t: nat, e: Event)
    requires Kind(u) && Inv(s) && Enabled(u, s, Act(t, e))
    ensures Inv(DoAct(u, s, t, e))
  {
    var after := DoAct(u, s, t, e);
    var own := s.threads[t].name;
    ActorKnows(u, s, t, e);
    ActorKeeps(u, s, t, e);
    ActKeepsLocks(u, s, t, e);
    forall o | o in after.threads ensures ThreadInv(after, o) {
      if o != t {
        OthersStand(u, s, t, e, o);
      }
    }
    forall n | n in after.volumes
      ensures VolumeInv(after, n) && (after.volumes[n].sentinel ==> AtRest(n, after.volumes[n]))
    {
      if n != own {
        ActorLeaves(u, s, t, e, n);
        assert VolumeInv(s, n);
      }
    }
    forall n | n in after.ready ensures Marked(after.volumes, n) {
      if n != own {
        ActorLeaves(u, s, t, e, n);
      }
    }
  }

  /** While docker stops abandoned installs there are none. */
  lemma NoOrphans(s: State, n: Name, id: nat)
    requires Inv(s) && n in s.volumes && id in s.volumes[n].writers
    ensures !Orphaned(s, n, id)
  {
  }

  lemma StepKeepsInv(u: Rules, s: State, step: Step)
    requires Kind(u) && Inv(s) && Enabled(u, s, step)
    ensures Inv(Do(u, s, step))
  {
    match step
    case Call(t, _, _) =>
      forall o | o in Do(u, s, step).threads ensures ThreadInv(Do(u, s, step), o) {
        assert o in s.threads ==> ThreadInv(s, o);
      }
      assert forall n | n in s.volumes :: VolumeInv(s, n);
    case Act(t, e) => ActKeepsInv(u, s, t, e);
    case Orphan(n, id, _) => NoOrphans(s, n, id);
    case Crash => CrashKeepsInv(u, s);
  }

  lemma CrashKeepsInv(u: Rules, s: State)
    requires Kind(u) && Inv(s)
    ensures Inv(Do(u, s, Crash))
  {
  }

  lemma InvIsSafe(s: State)
    requires Inv(s)
    ensures ReturnsWhole(s) && TrueSentinels(s)
  {
    forall t | t in s.threads && s.threads[t].pc.Returned?
      ensures s.threads[t].name in s.volumes
      ensures s.volumes[s.threads[t].name].content == Complete(s.threads[t].name.packages)
    {
      assert ThreadInv(s, t);
    }
  }

  lemma {:induction false} TraceKeepsInv(u: Rules, run: seq<State>, i: nat)
    requires Kind(u) && Trace(u, run) && i < |run|
    ensures Inv(run[i])
  {
    if i > 0 {
      TraceKeepsInv(u, run, i - 1);
      assert Next(u, run[i - 1], run[i]);
      var step :| Enabled(u, run[i - 1], step) && run[i] == Do(u, run[i - 1], step);
      StepKeepsInv(u, run[i - 1], step);
    }
  }

  lemma ReachableInv(u: Rules, s: State)
    requires Kind(u) && Reachable(u, s)
    ensures Inv(s)
  {
    var run :| Trace(u, run) && run[|run| - 1] == s;
    TraceKeepsInv(u, run, |run| - 1);
  }

  // ---- What docker must do for it -------------------------------------------------------------------------

  /** A state but for one thread, the volumes and the locks. */
  function With(s: State, volumes: map<Name, Volume>, locks: map<Name, nat>, t: nat, n: Name, pc: Pc): State {
    State(volumes, s.ready, locks, s.threads[t := Thread(n, pc)])
  }

  lemma Acts(u: Rules, s: State, volumes: map<Name, Volume>, locks: map<Name, nat>, t: nat, n: Name, pc: Pc,
             e: Event, volumes': map<Name, Volume>, locks': map<Name, nat>, to: Pc)
    requires var b, a := With(s, volumes, locks, t, n, pc), Thread(n, pc);
             && Reachable(u, b) && ActEnabled(u, b, a, e) && ReadyTo(b, a, e) == s.ready && PcTo(b, a, e) == to
             && VolumesTo(u, b, a, e) == volumes' && LocksTo(b, t, a, to) == locks'
    ensures Reachable(u, With(s, volumes', locks', t, n, to))
  {
    var b := With(s, volumes, locks, t, n, pc);
    var r := ReachNext(u, b, Act(t, e));
    assert s.threads[t := Thread(n, pc)][t := Thread(n, to)] == s.threads[t := Thread(n, to)];
  }

  lemma TakesLock(u: Rules, s: State, t: nat, n: Name)
    requires Reachable(u, With(s, s.volumes, s.locks, t, n, Called)) && n !in s.ready && n !in s.locks
    ensures Reachable(u, With(s, s.volumes, s.locks[n := t], t, n, Locked))
  {
    Acts(u, s, s.volumes, s.locks, t, n, Called, CheckFast, s.volumes, s.locks, Waiting);
    Acts(u, s, s.volumes, s.locks, t, n, Waiting, Acquire, s.volumes, s.locks[n := t], Locked);
  }

  /** A call comes as far as the removal of what an earlier attempt left. */
  lemma Arrives(u: Rules, s: State, t: nat, n: Name)
    requires Reachable(u, With(s, s.volumes, s.locks, t, n, Called))
    requires n !in s.ready && n !in s.locks && !Marked(s.volumes, n)
    ensures Reachable(u, With(s, s.volumes, s.locks[n := t], t, n, Discarding))
  {
    var held := s.locks[n := t];
    assert held[n := t] == held;
    TakesLock(u, s, t, n);
    Acts(u, s, s.volumes, held, t, n, Locked, Recheck, s.volumes, held, Probing);
    Acts(u, s, s.volumes, held, t, n, Probing, Probe, s.volumes, held, Discarding);
  }

  lemma Calls(u: Rules, s: State, t: nat, image: string, deps: seq<string>)
    requires Reachable(u, s) && t !in s.threads
    ensures Reachable(u, With(s, s.volumes, s.locks, t, NameOf(image, deps), Called))
  {
    var r := ReachNext(u, s, Call(t, image, deps));
  }

  lemma Clears(u: Rules, s: State, t: nat, n: Name, works: bool)
    requires n in s.locks && s.locks[n] == t
    requires Reachable(u, With(s, s.volumes, s.locks, t, n, Discarding)) && CanRemove(u, s, n, works)
    ensures var v := if works then NEW else VolumeOf(s, n);
            Reachable(u, With(s, s.volumes[n := v], s.locks, t, n, Created))
  {
    var v := if works then NEW else VolumeOf(s, n);
    var left := if works then s.volumes - {n} else s.volumes;
    assert s.locks[n := t] == s.locks;
    Acts(u, s, s.volumes, s.locks, t, n, Discarding, Remove(works), left, s.locks, Creating);
    assert left[n := v] == s.volumes[n := v];
    Acts(u, s, left, s.locks, t, n, Creating, Create(true), s.volumes[n := v], s.locks, Created);
  }

  /** And goes on to install over whatever is there after the removal. */
  lemma Installs(u: Rules, s: State, t: nat, n: Name, works: bool)
    requires n in s.locks && s.locks[n] == t && t !in VolumeOf(s, n).writers
    requires Reachable(u, With(s, s.volumes, s.locks, t, n, Discarding)) && CanRemove(u, s, n, works)
    ensures var v := if works then NEW else VolumeOf(s, n);
            Reachable(u, With(s, s.volumes[n := Begun(v, t)], s.locks, t, n, Installing(t)))
  {
    var v := if works then NEW else VolumeOf(s, n);
    Clears(u, s, t, n, works);
    assert s.locks[n := t] == s.locks;
    assert s.volumes[n := v][n := Begun(v, t)] == s.volumes[n := Begun(v, t)];
    Acts(u, s, s.volumes[n := v], s.locks, t, n, Created, StartInstall(t),
         s.volumes[n := Begun(v, t)], s.locks, Installing(t));
  }

  lemma FirstInstall(u: Rules, image: string, deps: seq<string>)
    ensures var n := NameOf(image, deps);
            Reachable(u, With(INIT, map[n := Begun(NEW, 0)], map[n := 0], 0, n, Installing(0)))
  {
    var n := NameOf(image, deps);
    ReachInit(u);
    Calls(u, INIT, 0, image, deps);
    Arrives(u, INIT, 0, n);
    assert map[][n := 0] == map[n := 0] && map[][n := Begun(NEW, 0)] == map[n := Begun(NEW, 0)];
    Installs(u, INIT.(locks := map[n := 0]), 0, n, true);
  }

  /** A first install fails, and its volume cannot be removed. */
  lemma Leftover(u: Rules, image: string, deps: seq<string>) returns (s: State)
    requires !Kind(u)
    ensures var n := NameOf(image, deps);
            && Reachable(u, s) && s.ready == {} && n !in s.locks && s.threads.Keys == {0}
            && s.volumes == map[n := Volume(Partial, false, false, if u.stops then {} else {0})]
  {
    var n := NameOf(image, deps);
    var v := Volume(Partial, false, false, if u.stops then {} else {0});
    var held, busy := map[n := 0], map[n := Begun(NEW, 0)];
    FirstInstall(u, image, deps);
    assert {0} - {0} == {} && Begun(NEW, 0) == Volume(Partial, false, false, {0});
    Acts(u, INIT, busy, held, 0, n, Installing(0), EndInstall(if u.stops then Fails else Abandoned),
         map[n := v], held, Cleaning);
    assert held - {n} == map[];
    Acts(u, INIT, map[n := v], held, 0, n, Cleaning, Remove(false), map[n := v], map[], Failed);
    s := With(INIT, map[n := v], map[], 0, n, Failed);
  }

  /** The next call installs over it. */
  lemma SecondInstall(u: Rules, image: string, deps: seq<string>) returns (s: State)
    requires !Kind(u)
    ensures var n := NameOf(image, deps);
            && Reachable(u, s) && 1 in s.threads && s.threads[1] == Thread(n, Installing(1))
            && s.volumes == map[n := Volume(Partial, false, true, if u.stops then {1} else {0, 1})]
  {
    var n := NameOf(image, deps);
    var b := Leftover(u, image, deps);
    Calls(u, b, 1, image, deps);
    Arrives(u, b, 1, n);
    var v := b.volumes[n];
    Installs(u, b.(locks := b.locks[n := 1]), 1, n, false);
    assert b.volumes[n := Begun(v, 1)] == map[n := Begun(v, 1)];
    assert {} + {1} == {1} && {0} + {1} == {0, 1};
    s := With(b, map[n := Begun(v, 1)], b.locks[n := 1], 1, n, Installing(1));
  }

  /** The second install ends well over the remains of the first: the sentinel stands on a volume
      that is not whole, and its name is returned. */
  lemma UnkindIsUnsafe(u: Rules, image: string, deps: seq<string>) returns (s: State)
    requires !Kind(u)
    ensures Reachable(u, s) && !ReturnsWhole(s) && !TrueSentinels(s)
  {
    var n := NameOf(image, deps);
    s := SecondInstall(u, image, deps);
    s := ReachNext(u, s, Act(1, EndInstall(Succeeds)));
    s := ReachNext(u, s, Act(1, Touch(true, true)));
    assert n in s.volumes && s.volumes[n].sentinel && s.volumes[n].content == Partial;
    s := ReachNext(u, s, Act(1, Remember));
    assert s.threads[1] == Thread(n, Returned) && s.volumes[n].sentinel && s.volumes[n].content == Partial;
  }

  /** And where docker leaves an abandoned install running, two install at once. */
  lemma TwoInstalls(u: Rules, image: string, deps: seq<string>) returns (s: State)
    requires !u.stops
    ensures Reachable(u, s) && !OneAtATime(s)
  {
    var n := NameOf(image, deps);
    s := SecondInstall(u, image, deps);
    assert n in s.volumes && 0 in s.volumes[n].writers && 1 in s.volumes[n].writers;
  }

  /** Every returned name is whole, in every run, exactly when docker stops an install whose client
      is gone and removes a volume that nothing uses: the removals' own results are not looked at.
      The same goes for the sentinels. */
  lemma ProvisioningIsSafeExactly(u: Rules)
    ensures (forall s | Reachable(u, s) :: ReturnsWhole(s)) <==> u.stops && u.removes
    ensures (forall s | Reachable(u, s) :: TrueSentinels(s)) <==> u.stops && u.removes
  {
    if Kind(u) {
      forall s | Reachable(u, s) ensures ReturnsWhole(s) && TrueSentinels(s) {
        ReachableInv(u, s);
        InvIsSafe(s);
      }
    } else {
      var s := UnkindIsUnsafe(u, "image", []);
    }
  }
}
