/** Provisioning the volume that holds a derivation's packages. */
module Provisioning {
  import opened Wrappers

  /** A volume's name stands for the image and the exact packages, however they were listed. */
  datatype Name = Name(image: string, packages: multiset<string>)

  const CORE_DEPS := ["jsonschema", "pyyaml"]

  function NameOf(image: string, deps: seq<string>): Name {
    Name(image, multiset(CORE_DEPS + deps))
  }

  datatype Content = Empty | Partial | Complete(packages: multiset<string>)

  /** A volume: what it holds, whether it carries the sentinel, whether an install began in it
      beside or after another, and the installs at work in it. */
  datatype Volume = Volume(content: Content, sentinel: bool, torn: bool, writers: set<nat>)

  const NEW := Volume(Empty, false, false, {})

  /** An install begins. */
  function Begun(v: Volume, id: nat): Volume {
    v.(content := Partial, torn := v.torn || v.content != Empty || v.writers != {}, writers := v.writers + {id})
  }

  /** An install ends; what it leaves is whole only if it had the volume to itself from the start. */
  function Ended(v: Volume, id: nat, ok: bool, packages: multiset<string>): Volume {
    v.(content := if ok && !v.torn then Complete(packages) else Partial, writers := v.writers - {id})
  }

  predicate Marked(volumes: map<Name, Volume>, n: Name) {
    n in volumes && volumes[n].sentinel
  }

  /** The volumes after a call that nothing disturbs. */
  function VolumesAfter(volumes: map<Name, Volume>, ready: set<Name>, n: Name, o: Outcomes): map<Name, Volume> {
    if n in ready || Marked(volumes, n) then volumes
    else if Provides(o) then volumes[n := Volume(Complete(n.packages), true, false, {})]
    else volumes - {n}
  }

  predicate Provides(o: Outcomes) {
    o.create && o.install && o.touch
  }

  // ---- One call ---------------------------------------------------------------------------------------

  /** How the docker commands of one call come out. */
  datatype Outcomes = Outcomes(create: bool, install: bool, touch: bool)

  class Docker {
    var volumes: map<Name, Volume>

    constructor (volumes: map<Name, Volume>)
      ensures this.volumes == volumes
    {
      this.volumes := volumes;
    }

    method Remove(n: Name)
      modifies this
      ensures volumes == old(volumes) - {n}
    {
      volumes := volumes - {n};
    }

    method Create(n: Name)
      modifies this
      ensures volumes == old(volumes)[n := if n in old(volumes) then old(volumes)[n] else NEW]
    {
      if n !in volumes {
        volumes := volumes[n := NEW];
      }
    }

    method Install(n: Name, id: nat, ok: bool)
      requires n in volumes
      modifies this
      ensures volumes == old(volumes)[n := Ended(Begun(old(volumes)[n], id), id, ok, n.packages)]
    {
      var during := Begun(volumes[n], id);
      volumes := volumes[n := Ended(during, id, ok, n.packages)];
    }

    method Touch(n: Name)
      requires n in volumes
      modifies this
      ensures volumes == old(volumes)[n := old(volumes)[n].(sentinel := true)]
    {
      volumes := volumes[n := volumes[n].(sentinel := true)];
    }
  }

  class Provisioner {
    var ready: set<Name>

    constructor ()
      ensures ready == {}
    {
      ready := {};
    }

    /** Every name known ready has its packages. */
    ghost predicate Valid(docker: Docker)
      reads this, docker
    {
      && (forall n | n in docker.volumes && docker.volumes[n].sentinel ::
            docker.volumes[n].content == Complete(n.packages))
      && (forall n | n in ready :: Marked(docker.volumes, n))
    }

    /** With the lock of its name held throughout. A name is returned only with a completed
        install of its packages behind it; a failure leaves no volume of that name. */
    method EnsureDepsVolume(docker: Docker, image: string, deps: seq<string>, id: nat, outcomes: Outcomes)
      returns (r: Option<Name>)
      requires Valid(docker)
      modifies this, docker
      ensures Valid(docker)
      ensures var n := NameOf(image, deps);
              && (r.Some? ==> r.value == n && n in ready && n in docker.volumes
                              && docker.volumes[n].content == Complete(multiset(CORE_DEPS) + multiset(deps)))
              && (r.None? ==> n !in docker.volumes)
              && (r.Some? <==> n in old(ready) || (n in old(docker.volumes) && old(docker.volumes)[n].sentinel)
                               || (outcomes.create && outcomes.install && outcomes.touch))
              && (r.Some? ==> docker.volumes[n].sentinel)
              && docker.volumes == VolumesAfter(old(docker.volumes), old(ready), n, outcomes)
              && (forall m | m != n :: m in docker.volumes <==> m in old(docker.volumes))
              && (forall m | m != n && m in docker.volumes :: docker.volumes[m] == old(docker.volumes)[m])
              && ready == old(ready) + if r.Some? then {n} else {}
    {
      var n := NameOf(image, deps);
      assert n.packages == multiset(CORE_DEPS) + multiset(deps);
      if n in ready {
        return Some(n);
      }
      if Marked(docker.volumes, n) {
        ready := ready + {n};
        return Some(n);
      }
      docker.Remove(n);
      if !outcomes.create {
        return None;
      }
      docker.Create(n);
      docker.Install(n, id, outcomes.install);
      if outcomes.install {
        if outcomes.touch {
          docker.Touch(n);
          ready := ready + {n};
          return Some(n);
        }
      }
      docker.Remove(n);
      return None;
    }
  }

  // ---- Threads, failures and crashes as a state machine --------------------------------------------------

  datatype Pc =
    | Called
    | Waiting            // for the name's lock
    | Locked
    | Probing
    | Discarding
    | Creating
    | Created
    | Installing(id: nat)
    | Marking
    | Remembering
    | Cleaning
    | Returned
    | Failed

  datatype Thread = Thread(name: Name, pc: Pc)

  datatype State = State(
    volumes: map<Name, Volume>,
    ready: set<Name>,
    locks: map<Name, nat>,
    threads: map<nat, Thread>)

  const INIT := State(map[], {}, map[], map[])

  /** What docker is taken to do: stop an install whose client is gone, and remove a volume that
      nothing uses. */
  datatype Rules = Rules(stops: bool, removes: bool)

  datatype Outcome = Succeeds | Fails | Abandoned   // the client timed out or was killed

  datatype Event =
    | CheckFast
    | Acquire
    | Recheck
    | Probe
    | Remove(works: bool)
    | Create(ok: bool)
    | StartInstall(id: nat)
    | EndInstall(outcome: Outcome)
    | Touch(touched: bool, told: bool)
    | Remember

  datatype Step =
    | Call(thread: nat, image: string, deps: seq<string>)
    | Act(thread: nat, event: Event)
    | Orphan(name: Name, id: nat, ok: bool)     // an abandoned install ends by itself
    | Crash

  function VolumeOf(s: State, n: Name): Volume {
    if n in s.volumes then s.volumes[n] else NEW
  }

  /** The thread is between taking its name's lock and letting go of it. */
  predicate Critical(pc: Pc) {
    !pc.Called? && !pc.Waiting? && !pc.Returned? && !pc.Failed?
  }

  predicate CanRemove(u: Rules, s: State, n: Name, works: bool) {
    var idle := VolumeOf(s, n).writers == {};
    (works ==> idle) && (!works ==> !u.removes || !idle)
  }

  predicate ActEnabled(u: Rules, s: State, a: Thread, e: Event) {
    match e
    case CheckFast => a.pc.Called?
    case Acquire => a.pc.Waiting? && a.name !in s.locks
    case Recheck => a.pc.Locked?
    case Probe => a.pc.Probing?
    case Remove(works) => (a.pc.Discarding? || a.pc.Cleaning?) && CanRemove(u, s, a.name, works)
    case Create(_) => a.pc.Creating?
    case StartInstall(id) => a.pc.Created? && id !in VolumeOf(s, a.name).writers
    case EndInstall(_) => a.pc.Installing?
    case Touch(touched, told) => a.pc.Marking? && (told ==> touched)
    case Remember => a.pc.Remembering?
  }

  /** An install still at work that no thread waits for. */
  predicate Orphaned(s: State, n: Name, id: nat) {
    n in s.volumes && id in s.volumes[n].writers
    && forall t | t in s.threads :: s.threads[t] != Thread(n, Installing(id))
  }

  predicate Enabled(u: Rules, s: State, step: Step) {
    match step
    case Call(t, _, _) => t !in s.threads
    case Act(t, e) => t in s.threads && ActEnabled(u, s, s.threads[t], e)
    case Orphan(n, id, _) => Orphaned(s, n, id)
    case Crash => true
  }

  function PcTo(s: State, a: Thread, e: Event): Pc {
    match e
    case CheckFast => if a.name in s.ready then Returned else Waiting
    case Acquire => Locked
    case Recheck => if a.name in s.ready then Returned else Probing
    case Probe => if Marked(s.volumes, a.name) then Returned else Discarding
    case Remove(_) => if a.pc.Discarding? then Creating else Failed
    case Create(ok) => if ok then Created else Failed
    case StartInstall(id) => Installing(id)
    case EndInstall(outcome) => if outcome.Succeeds? then Marking else Cleaning
    case Touch(_, told) => if told then Remembering else Cleaning
    case Remember => Returned
  }

  function VolumeTo(u: Rules, v: Volume, a: Thread, e: Event): Volume {
    match e
    case StartInstall(id) => Begun(v, id)
    case EndInstall(outcome) =>
      if !a.pc.Installing? || (outcome.Abandoned? && !u.stops) then v
      else Ended(v, a.pc.id, outcome.Succeeds?, a.name.packages)
    case Touch(touched, _) => v.(sentinel := v.sentinel || touched)
    case _ => v
  }

  /** The event reaches into the volume. */
  predicate Works(e: Event) {
    e.StartInstall? || e.EndInstall? || e.Touch?
  }

  function VolumesTo(u: Rules, s: State, a: Thread, e: Event): map<Name, Volume> {
    match e
    case Remove(works) => if works then s.volumes - {a.name} else s.volumes
    case Create(ok) => if ok then s.volumes[a.name := VolumeOf(s, a.name)] else s.volumes
    case _ =>
      if a.name in s.volumes && Works(e) then s.volumes[a.name := VolumeTo(u, s.volumes[a.name], a, e)]
      else s.volumes
  }

  function ReadyTo(s: State, a: Thread, e: Event): set<Name> {
    if e.Remember? || (e.Probe? && Marked(s.volumes, a.name)) then s.ready + {a.name} else s.ready
  }

  function LocksTo(s: State, t: nat, a: Thread, to: Pc): map<Name, nat> {
    if Critical(to) then s.locks[a.name := t] else if Critical(a.pc) then s.locks - {a.name} else s.locks
  }

  function DoAct(u: Rules, s: State, t: nat, e: Event): State
    requires t in s.threads
  {
    var a := s.threads[t];
    var to := PcTo(s, a, e);
    State(VolumesTo(u, s, a, e), ReadyTo(s, a, e), LocksTo(s, t, a, to), s.threads[t := Thread(a.name, to)])
  }

  function Stopped(u: Rules, volumes: map<Name, Volume>): map<Name, Volume> {
    if u.stops then map n | n in volumes :: volumes[n].(writers := {}) else volumes
  }

  function Do(u: Rules, s: State, step: Step): State
    requires Enabled(u, s, step)
  {
    match step
    case Call(t, image, deps) => s.(threads := s.threads[t := Thread(NameOf(image, deps), Called)])
    case Act(t, e) => DoAct(u, s, t, e)
    case Orphan(n, id, ok) => s.(volumes := s.volumes[n := Ended(s.volumes[n], id, ok, n.packages)])
    case Crash => State(Stopped(u, s.volumes), {}, map[], map[])
  }

  ghost predicate Next(u: Rules, s: State, t: State) {
    exists step :: Enabled(u, s, step) && t == Do(u, s, step)
  }

  ghost predicate Trace(u: Rules, run: seq<State>) {
    && run != [] && run[0] == INIT
    && forall i | 0 < i < |run| :: Next(u, run[i - 1], run[i])
  }

  ghost predicate Reachable(u: Rules, s: State) {
    exists run :: Trace(u, run) && run[|run| - 1] == s
  }

  lemma ReachInit(u: Rules)
    ensures Reachable(u, INIT)
  {
    assert Trace(u, [INIT]);
  }

  lemma ReachNext(u: Rules, s: State, step: Step) returns (t: State)
    requires Reachable(u, s) && Enabled(u, s, step)
    ensures t == Do(u, s, step) && Reachable(u, t)
  {
    t := Do(u, s, step);
    var run :| Trace(u, run) && run[|run| - 1] == s;
    var longer := run + [t];
    forall i | 0 < i < |longer| ensures Next(u, longer[i - 1], longer[i]) {
      if i < |run| {
        assert Next(u, run[i - 1], run[i]);
      }
    }
    assert Trace(u, longer);
  }
}
