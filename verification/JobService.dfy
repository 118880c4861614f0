/** The job runner's own methods, each with nothing else between its steps. What interleaving
    does to them is the subject of `JobRunner`. */
module JobService {
  import opened Wrappers
  import opened JobStore

  function Count(ids: seq<nat>, id: nat): nat {
    if ids == [] then 0 else Count(ids[..|ids| - 1], id) + if ids[|ids| - 1] == id then 1 else 0
  }

  lemma CountSnoc(ids: seq<nat>, x: nat, id: nat)
    ensures Count(ids + [x], id) == Count(ids, id) + if x == id then 1 else 0
  {
    assert (ids + [x])[..|ids|] == ids;
  }

  /** Each job that is done has been announced once, and no other at all. */
  ghost predicate Announced(jobs: map<nat, Job>, completed: seq<nat>) {
    forall id :: Count(completed, id) == if id in jobs && Done(jobs[id].state) then 1 else 0
  }

  lemma FinishAnnounces(jobs: map<nat, Job>, completed: seq<nat>, id: nat, to: JobState)
    requires Announced(jobs, completed) && id in jobs && !Done(jobs[id].state) && Done(to)
    ensures Announced(jobs[id := jobs[id].(state := to)], completed + [id])
  {
    forall d ensures Count(completed + [id], d) == Count(completed, d) + if id == d then 1 else 0 {
      CountSnoc(completed, id, d);
    }
  }

  lemma StartsQuietly(jobs: map<nat, Job>, completed: seq<nat>, id: nat)
    requires Announced(jobs, completed) && id in jobs && !Done(jobs[id].state)
    ensures Announced(jobs[id := jobs[id].(state := Running)], completed)
  {
  }

  /** The state a worker leaves its job in. One that starts without its event set does not look at
      the state it overwrites. */
  function Ran(was: JobState, cancelled: bool, ok: bool, cancelledLater: bool): JobState {
    if cancelled then (if Done(was) then was else Cancelled)
    else if !ok then Failed
    else if cancelledLater then Cancelled
    else Succeeded
  }

  class Runner {
    const store: InMemoryJobStore
    var events: map<nat, bool>       // the cancel handles, and which are set
    var completed: seq<nat>          // what `on_complete` was called with

    constructor (store: InMemoryJobStore)
      requires store.Valid() && store.jobs == map[]
      ensures this.store == store && Valid() && completed == []
    {
      this.store := store;
      events, completed := map[], [];
    }

    /** A handle for each job that is not done, and one announcement for each that is. */
    ghost predicate Valid()
      reads this, store
    {
      && store.Valid()
      && (forall id :: id in events <==> id in store.jobs && !Done(store.jobs[id].state))
      && Announced(store.jobs, completed)
    }

    /** A key whose latest job is live gets that job back; otherwise a fresh one is queued. */
    method Submit(key: string, id: nat) returns (job: Job)
      requires store.Valid() && id !in store.jobs
      modifies this`events, store
      ensures store.Valid() && (old(Valid()) ==> Valid())
      ensures var latest := Latest(old(store.jobs), old(store.order), key);
              if latest.Some? && latest.value in old(store.jobs) && Live(old(store.jobs)[latest.value].state)
              then job == old(store.jobs)[latest.value] && store.jobs == old(store.jobs)
                   && store.order == old(store.order) && events == old(events)
              else job == Job(id, key, Queued) && store.jobs == old(store.jobs)[id := job]
                   && store.order == old(store.order) + [id] && events == old(events)[id := false]
    {
      var existing := store.FindByKey(key);
      if existing.Some? && Live(existing.value.state) {
        return existing.value;
      }
      job := Job(id, key, Queued);
      store.Create(job);
      events := events[id := false];
    }

    /** `_finish`: the first terminal state wins, and is announced once. */
    method Finish(id: nat, to: JobState) returns (job: Job)
      requires store.Valid() && id in store.jobs && Done(to)
      modifies this, store`jobs
      ensures store.Valid() && (old(Valid()) ==> Valid())
      ensures if Done(old(store.jobs)[id].state)
              then store.jobs == old(store.jobs) && events == old(events) && completed == old(completed)
              else store.jobs == old(store.jobs)[id := old(store.jobs)[id].(state := to)]
                   && events == old(events) - {id} && completed == old(completed) + [id]
      ensures id in store.jobs && job == store.jobs[id]
    {
      var current := store.Get(id);
      if Done(current.value.state) {
        return current.value;
      }
      if Announced(store.jobs, completed) {
        FinishAnnounces(store.jobs, completed, id, to);
      }
      job := store.Update(id, to);
      events := events - {id};
      completed := completed + [id];
    }

    /** A queued job is cancelled at once; a running one is only told. */
    method Cancel(id: nat) returns (job: Option<Job>)
      requires store.Valid()
      modifies this, store`jobs
      ensures store.Valid() && (old(Valid()) ==> Valid())
      ensures job == if id in store.jobs then Some(store.jobs[id]) else None
      ensures if id in old(store.jobs) && old(store.jobs)[id].state == Queued
              then store.jobs == old(store.jobs)[id := old(store.jobs)[id].(state := Cancelled)]
                   && completed == old(completed) + [id] && events == old(events) - {id}
              else store.jobs == old(store.jobs) && completed == old(completed)
                   && events == old(events) + map k | k in old(events) && k == id :: true
    {
      if id in events {
        events := events[id := true];
      }
      job := store.Get(id);
      if job.Some? && job.value.state == Queued {
        var done := Finish(id, Cancelled);
        job := Some(done);
      }
    }

    /** The unlocked write that says the job is running. */
    method Start(id: nat)
      requires store.Valid() && id in store.jobs
      modifies store`jobs
      ensures store.Valid() && store.jobs == old(store.jobs)[id := old(store.jobs)[id].(state := Running)]
      ensures old(Valid()) && !Done(old(store.jobs)[id].state) ==> Valid()
    {
      if Announced(store.jobs, completed) && !Done(store.jobs[id].state) {
        StartsQuietly(store.jobs, completed, id);
      }
      var _ := store.Update(id, Running);
    }

    /** `_run`, for work that returns or raises: `cancelled` is the event as it starts,
        `cancelledLater` as the work returns. Announcing each job once is kept exactly when a job
        already settled has its event set as its worker starts. */
    method Work(id: nat, cancelled: bool, ok: bool, cancelledLater: bool)
      requires store.Valid() && id in store.jobs
      modifies this, store`jobs
      ensures store.Valid()
      ensures var was := old(store.jobs)[id];
              && store.jobs == old(store.jobs)[id := was.(state := Ran(was.state, cancelled, ok, cancelledLater))]
              && (store.jobs[id].state == Succeeded <==>
                    if cancelled then was.state == Succeeded else ok && !cancelledLater)
              && (store.jobs[id].state == Failed <==> if cancelled then was.state == Failed else !ok)
              && (store.jobs[id].state == Cancelled <==>
                    if cancelled then was.state !in {Succeeded, Failed} else ok && cancelledLater)
              && completed == old(completed) + if cancelled && Done(was.state) then [] else [id]
      ensures old(Valid()) ==> (Valid() <==> (Done(old(store.jobs)[id].state) ==> cancelled))
    {
      ghost var was, before, valid := store.jobs, completed, Valid();
      if cancelled {
        var _ := Finish(id, Cancelled);
        return;
      }
      Start(id);
      var to := if !ok then Failed else if cancelledLater then Cancelled else Succeeded;
      var _ := Finish(id, to);
      assert was[id := was[id].(state := Running)][id := was[id].(state := to)] == was[id := was[id].(state := to)];
      if valid && Done(was[id].state) {
        CountSnoc(before, id, id);
      }
    }
  }
}
