/** A cache that stands where the machine stands goes where the machine goes. */
module ServingLink {
  import opened Wrappers
  import opened Serving

  predicate Stands(cache: SharedCache, s: State)
    reads cache
  {
    cache.last == s.last && cache.inflight == s.inflight
  }

  /** What a call makes of the method's answer. */
  function Resumes(k: Contract, rev: nat, now: real, verdict: Verdict, found: Option<Served>): CallPc {
    if verdict == Recompute || found.None? then Computing(Some(rev))
    else Answered(Answer(if verdict == ServeFresh then Hit else Stale, found.value.artifact,
                         Stamp(k, Some(found.value.version)), Some(rev), now - found.value.at))
  }

  method DecideStep(cache: SharedCache, w: World, s: State, c: nat, task: nat) returns (pc: CallPc, start: bool)
    requires Stands(cache, s) && Enabled(w, s, CallStep(c, Decide(task))) && w.contracts[s.calls[c].key].policy.enabled
    modifies cache
    ensures var t := Do(w, s, CallStep(c, Decide(task)));
            && Stands(cache, t) && t.calls[c].pc == pc
            && t.tasks == if start then s.tasks[task := Task(s.calls[c].key, Spawned)] else s.tasks
  {
    var key, rev := s.calls[c].key, s.calls[c].pc.rev;
    var k := w.contracts[key];
    var verdict, found;
    verdict, found, start := cache.Decide(k.policy, key, w.versionAt(key, rev), s.clock);
    pc := Resumes(k, rev, s.clock, verdict, found);
  }

  method FinishStep(cache: SharedCache, w: World, s: State, c: nat)
    requires Stands(cache, s) && Enabled(w, s, CallStep(c, Finish))
    requires w.contracts[s.calls[c].key].policy.enabled && s.calls[c].pc.under.Some?
    modifies cache
    ensures Stands(cache, Do(w, s, CallStep(c, Finish)))
  {
    var key := s.calls[c].key;
    cache.Store(key, s.calls[c].pc.artifact, w.versionAt(key, s.calls[c].pc.under.value), s.clock);
  }

  method EndStep(cache: SharedCache, w: World, s: State, t: nat, ok: bool)
    requires Stands(cache, s) && Enabled(w, s, TaskStep(t, if ok then TaskStores else TaskDrops))
    modifies cache
    ensures Stands(cache, Do(w, s, TaskStep(t, if ok then TaskStores else TaskDrops)))
  {
    var key := s.tasks[t].key;
    if ok {
      cache.EndRefresh(key, Some((s.tasks[t].pc.artifact, w.versionAt(key, s.tasks[t].pc.rev))), s.clock);
    } else {
      cache.EndRefresh(key, None, s.clock);
    }
  }
}
