/** Stale-while-revalidate serving: the cache decision, and the calls and refreshes around it. */
module Serving {
  import opened Wrappers

  datatype Policy = Policy(enabled: bool, ttl: Option<real>, expire: Option<real>)

  /** What a policy is checked for when it is made. */
  predicate ValidPolicy(p: Policy) {
    && (p.ttl.Some? ==> p.ttl.value > 0.0)
    && (p.expire.Some? ==> p.expire.value > 0.0 && (p.ttl.Some? ==> p.expire.value >= p.ttl.value))
  }

  datatype Contract = Contract(internal: bool, components: bool, policy: Policy)

  datatype Served = Served(artifact: nat, version: string, at: real)

  datatype Status = Hit | Stale | Miss | Uncached

  /** What a call does with the last answer it finds. */
  datatype Verdict = ServeFresh | ServeStale | Recompute

  predicate Below(age: real, limit: Option<real>) {
    limit.Some? ==> age < limit.value
  }

  function Judge(p: Policy, last: Option<Served>, version: string, now: real): Verdict {
    if last.None? then Recompute
    else if last.value.version == version && Below(now - last.value.at, p.ttl) then ServeFresh
    else if Below(now - last.value.at, p.expire) then ServeStale
    else Recompute
  }

  function Lookup<V>(m: map<string, V>, key: string): Option<V> {
    if key in m then Some(m[key]) else None
  }

  /** The two shared fields, and the parts of `_serve` and of a refresh between awaits. */
  class SharedCache {
    var last: map<string, Served>
    var inflight: set<string>

    constructor ()
      ensures last == map[] && inflight == {}
    {
      last, inflight := map[], {};
    }

    /** After the version is read: what to serve, and whether to start a refresh. At most one
        refresh of a key is ever started before it ends. */
    method Decide(p: Policy, key: string, version: string, now: real)
      returns (verdict: Verdict, found: Option<Served>, start: bool)
      modifies this`inflight
      ensures verdict == Judge(p, Lookup(last, key), version, now)
      ensures verdict != Recompute ==> found == Lookup(last, key)
      ensures start <==> verdict == ServeStale && key !in old(inflight)
      ensures inflight == old(inflight) + if verdict == ServeStale then {key} else {}
    {
      verdict, found, start := Recompute, None, false;
      if key in last {
        var age := now - last[key].at;
        var current := last[key].version == version && Below(age, p.ttl);
        if current {
          return ServeFresh, Some(last[key]), false;
        }
        if Below(age, p.expire) {
          start := ScheduleRefresh(key);
          return ServeStale, Some(last[key]), start;
        }
      }
    }

    method ScheduleRefresh(key: string) returns (start: bool)
      modifies this`inflight
      ensures start <==> key !in old(inflight)
      ensures inflight == old(inflight) + {key}
    {
      if key in inflight {
        return false;
      }
      inflight := inflight + {key};
      return true;
    }

    method Store(key: string, artifact: nat, version: string, now: real)
      modifies this`last
      ensures last == old(last)[key := Served(artifact, version, now)]
    {
      last := last[key := Served(artifact, version, now)];
    }

    /** The end of a refresh. A failure keeps the last good answer. */
    method EndRefresh(key: string, computed: Option<(nat, string)>, now: real)
      modifies this
      ensures inflight == old(inflight) - {key}
      ensures last == if computed.None? then old(last)
                      else old(last)[key := Served(computed.value.0, computed.value.1, now)]
    {
      if computed.Some? {
        Store(key, computed.value.0, computed.value.1, now);
      }
      inflight := inflight - {key};
    }
  }

  // ---- Calls and refreshes as a state machine ------------------------------------------------------

  /** The contracts, and the version the data of a key has at each revision. */
  datatype World = World(contracts: map<string, Contract>, versionAt: (string, nat) -> string)

  /** An answer as it left: the artifact, the version its components are stamped with, the
      revision this call read, and how old the entry was. */
  datatype Answer = Answer(status: Status, artifact: nat, stamp: Option<string>, read: Option<nat>, age: real)

  datatype CallPc =
    | Entered
    | Reading
    | HasRead(rev: nat)
    | Computing(under: Option<nat>)
    | Computed(under: Option<nat>, artifact: nat)
    | Raised
    | Answered(answer: Answer)
    | Refused
    | Cancelled

  datatype Call = Call(key: string, pc: CallPc)

  datatype TaskPc =
    | Spawned
    | TaskReading
    | TaskRead(rev: nat)
    | TaskComputing(rev: nat)
    | TaskComputed(rev: nat, artifact: nat)
    | TaskRaised

  datatype Task = Task(key: string, pc: TaskPc)

  /** Where an artifact comes from: the revision its maker had read, and the one its run saw. */
  datatype Birth = Birth(key: string, read: Option<nat>, from: nat)

  datatype Event = Event(call: nat, ok: bool, version: Option<string>)

  datatype State = State(
    clock: real,
    revs: map<string, nat>,
    last: map<string, Served>,
    inflight: set<string>,
    calls: map<nat, Call>,
    tasks: map<nat, Task>,
    births: map<nat, Birth>,
    events: seq<Event>)

  const INIT := State(0.0, map[], map[], {}, map[], map[], map[], [])

  /** What a call can do next. */
  datatype CallEvent =
    | Begin
    | ReadVersion(ok: bool)
    | Decide(task: nat)
    | Compute(done: bool, artifact: nat)
    | Finish
    | Fail
    | Cancel

  /** What a refresh can do next. */
  datatype TaskEvent =
    | TaskBegins
    | TaskReads(ok: bool)
    | TaskGoes
    | TaskComputes(done: bool, artifact: nat)
    | TaskStores
    | TaskDrops

  datatype Step =
    | Tick(to: real)
    | Change(key: string)
    | Enter(call: nat, key: string)
    | CallStep(call: nat, event: CallEvent)
    | TaskStep(task: nat, work: TaskEvent)

  function RevOf(s: State, key: string): nat {
    if key in s.revs then s.revs[key] else 0
  }

  predicate CallEnabled(s: State, pc: CallPc, e: CallEvent) {
    match e
    case Begin => pc.Entered?
    case ReadVersion(_) => pc.Reading?
    case Decide(t) => pc.HasRead? && t !in s.tasks
    case Compute(_, a) => pc.Computing? && a !in s.births
    case Finish => pc.Computed?
    case Fail => pc.Raised?
    case Cancel => !pc.Answered? && !pc.Refused? && !pc.Cancelled?
  }

  predicate TaskEnabled(s: State, pc: TaskPc, e: TaskEvent) {
    match e
    case TaskBegins => pc.Spawned?
    case TaskReads(_) => pc.TaskReading?
    case TaskGoes => pc.TaskRead?
    case TaskComputes(_, a) => pc.TaskComputing? && a !in s.births
    case TaskStores => pc.TaskComputed?
    case TaskDrops => pc.TaskRaised?
  }

  predicate Enabled(w: World, s: State, step: Step) {
    match step
    case Tick(to) => to >= s.clock
    case Change(_) => true
    case Enter(c, key) => c !in s.calls && key in w.contracts
    case CallStep(c, e) => c in s.calls && s.calls[c].key in w.contracts && CallEnabled(s, s.calls[c].pc, e)
    case TaskStep(t, e) => t in s.tasks && TaskEnabled(s, s.tasks[t].pc, e)
  }

  /** Before anything is awaited: an internal derivation is refused, an uncached one reads a
      version only to stamp components. */
  function Opening(k: Contract): CallPc {
    if k.internal then Raised
    else if k.policy.enabled || k.components then Reading
    else Computing(None)
  }

  function Stamp(k: Contract, version: Option<string>): Option<string> {
    if k.components then version else None
  }

  /** What a call that has read a version does with the last answer. */
  function VerdictOf(w: World, s: State, k: Contract, key: string, rev: nat): Verdict {
    if k.policy.enabled then Judge(k.policy, Lookup(s.last, key), w.versionAt(key, rev), s.clock) else Recompute
  }

  function Decision(w: World, s: State, k: Contract, key: string, rev: nat): CallPc {
    var verdict := VerdictOf(w, s, k, key, rev);
    if verdict == Recompute || key !in s.last then Computing(Some(rev)) else
    var found := s.last[key];
    Answered(Answer(if verdict == ServeFresh then Hit else Stale, found.artifact, Stamp(k, Some(found.version)),
                    Some(rev), s.clock - found.at))
  }

  function Version(w: World, key: string, rev: Option<nat>): Option<string> {
    if rev.Some? then Some(w.versionAt(key, rev.value)) else None
  }

  function Computation(w: World, k: Contract, key: string, under: Option<nat>, artifact: nat): CallPc {
    Answered(Answer(if k.policy.enabled then Miss else Uncached, artifact, Stamp(k, Version(w, key, under)),
                    under, 0.0))
  }

  /** Where a call goes. */
  function CallTo(w: World, s: State, call: Call, e: CallEvent): CallPc
    requires call.key in w.contracts && CallEnabled(s, call.pc, e)
  {
    var k := w.contracts[call.key];
    match e
    case Begin => Opening(k)
    case ReadVersion(ok) => if ok then HasRead(RevOf(s, call.key)) else Raised
    case Decide(_) => Decision(w, s, k, call.key, call.pc.rev)
    case Compute(done, a) => if done then Computed(call.pc.under, a) else Raised
    case Finish => Computation(w, k, call.key, call.pc.under, call.pc.artifact)
    case Fail => Refused
    case Cancel => Cancelled
  }

  /** The call serves a stale answer and no refresh of its key is under way. */
  predicate Starts(w: World, s: State, call: Call, e: CallEvent)
    requires call.key in w.contracts && CallEnabled(s, call.pc, e)
  {
    e.Decide? && call.key !in s.inflight
    && VerdictOf(w, s, w.contracts[call.key], call.key, call.pc.rev) == ServeStale
  }

  /** What a call puts in the cache. */
  function Stored(w: World, s: State, call: Call, e: CallEvent): Option<Served>
    requires call.key in w.contracts && CallEnabled(s, call.pc, e)
  {
    if e.Finish? && w.contracts[call.key].policy.enabled && call.pc.under.Some?
    then Some(Served(call.pc.artifact, w.versionAt(call.key, call.pc.under.value), s.clock)) else None
  }

  /** The one event a call records, when it returns or raises. */
  function Said(w: World, c: nat, key: string, to: CallPc): seq<Event>
    requires key in w.contracts
  {
    match to
    case Answered(x) => [Event(c, true, if w.contracts[key].policy.enabled then Version(w, key, x.read) else None)]
    case Refused => [Event(c, false, None)]
    case _ => []
  }

  function Bear(births: map<nat, Birth>, born: bool, a: nat, birth: Birth): map<nat, Birth> {
    if born then births[a := birth] else births
  }

  function Keep(last: map<string, Served>, key: string, stored: Option<Served>): map<string, Served> {
    if stored.Some? then last[key := stored.value] else last
  }

  function DoCall(w: World, s: State, c: nat, e: CallEvent): State
    requires c in s.calls && s.calls[c].key in w.contracts && CallEnabled(s, s.calls[c].pc, e)
  {
    var call := s.calls[c];
    var to := CallTo(w, s, call, e);
    var starts := Starts(w, s, call, e);
    s.(calls := s.calls[c := Call(call.key, to)],
       last := Keep(s.last, call.key, Stored(w, s, call, e)),
       inflight := if starts then s.inflight + {call.key} else s.inflight,
       tasks := if starts then s.tasks[e.task := Task(call.key, Spawned)] else s.tasks,
       births := if e.Compute?
                 then Bear(s.births, e.done, e.artifact, Birth(call.key, call.pc.under, RevOf(s, call.key)))
                 else s.births,
       events := s.events + Said(w, c, call.key, to))
  }

  /** Where a refresh goes; nowhere, when it ends. */
  function TaskTo(s: State, task: Task, e: TaskEvent): Option<TaskPc>
    requires TaskEnabled(s, task.pc, e)
  {
    match e
    case TaskBegins => Some(TaskReading)
    case TaskReads(ok) => Some(if ok then TaskRead(RevOf(s, task.key)) else TaskRaised)
    case TaskGoes => Some(TaskComputing(task.pc.rev))
    case TaskComputes(done, a) => Some(if done then TaskComputed(task.pc.rev, a) else TaskRaised)
    case TaskStores => None
    case TaskDrops => None
  }

  function TaskStored(w: World, s: State, task: Task, e: TaskEvent): Option<Served>
    requires TaskEnabled(s, task.pc, e)
  {
    if e.TaskStores? then Some(Served(task.pc.artifact, w.versionAt(task.key, task.pc.rev), s.clock)) else None
  }

  function DoTask(w: World, s: State, t: nat, e: TaskEvent): State
    requires t in s.tasks && TaskEnabled(s, s.tasks[t].pc, e)
  {
    var task := s.tasks[t];
    var to := TaskTo(s, task, e);
    s.(tasks := if to.Some? then s.tasks[t := Task(task.key, to.value)] else s.tasks - {t},
       inflight := if to.Some? then s.inflight else s.inflight - {task.key},
       last := Keep(s.last, task.key, TaskStored(w, s, task, e)),
       births := if e.TaskComputes?
                 then Bear(s.births, e.done, e.artifact, Birth(task.key, Some(task.pc.rev), RevOf(s, task.key)))
                 else s.births)
  }

  function Do(w: World, s: State, step: Step): State
    requires Enabled(w, s, step)
  {
    match step
    case Tick(to) => s.(clock := to)
    case Change(key) => s.(revs := s.revs[key := RevOf(s, key) + 1])
    case Enter(c, key) => s.(calls := s.calls[c := Call(key, Entered)])
    case CallStep(c, e) => DoCall(w, s, c, e)
    case TaskStep(t, e) => DoTask(w, s, t, e)
  }
}
