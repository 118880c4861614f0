/** The in-memory job store and the restart pass over it. */
module JobStore {
  import opened Wrappers

  datatype JobState = Queued | Running | Succeeded | Failed | Cancelled

  datatype Job = Job(id: nat, key: string, state: JobState)

  predicate Done(s: JobState) {
    s.Succeeded? || s.Failed? || s.Cancelled?
  }

  /** A key in one of these states is not run again. */
  predicate Live(s: JobState) {
    s.Queued? || s.Running? || s.Succeeded?
  }

  /** The most recent job submitted under a key. */
  function Latest(jobs: map<nat, Job>, order: seq<nat>, key: string): Option<nat> {
    if order == [] then None
    else
      var last := order[|order| - 1];
      if last in jobs && jobs[last].key == key then Some(last)
      else Latest(jobs, order[..|order| - 1], key)
  }

  /** The last place in the order that carries the key. */
  predicate LastAt(jobs: map<nat, Job>, order: seq<nat>, key: string, i: nat)
    requires forall id | id in order :: id in jobs
  {
    i < |order| && jobs[order[i]].key == key && forall j | i < j < |order| :: jobs[order[j]].key != key
  }

  /** `Latest` is the job at the last position of the order that carries the key. */
  lemma {:induction false} LatestIsLast(jobs: map<nat, Job>, order: seq<nat>, key: string)
    requires forall id | id in order :: id in jobs
    ensures match Latest(jobs, order, key)
            case None => forall i | 0 <= i < |order| :: jobs[order[i]].key != key
            case Some(id) => exists i: nat :: LastAt(jobs, order, key, i) && order[i] == id
    decreases |order|
  {
    if order != [] {
      var rest, last := order[..|order| - 1], |order| - 1;
      if jobs[order[last]].key == key {
        assert LastAt(jobs, order, key, last);
      } else {
        LatestIsLast(jobs, rest, key);
        LastOfMore(jobs, rest, order[last], key);
        assert order == rest + [order[last]];
      }
    }
  }

  lemma LastOfMore(jobs: map<nat, Job>, order: seq<nat>, last: nat, key: string)
    requires (forall id | id in order :: id in jobs) && last in jobs && jobs[last].key != key
    ensures forall i: nat | i < |order| && LastAt(jobs, order, key, i) ::
              LastAt(jobs, order + [last], key, i) && (order + [last])[i] == order[i]
  {
  }

  /** What the restart pass leaves of a job. */
  function Reconciled(job: Job): (r: Job)
    ensures Done(r.state)
  {
    if !Done(job.state) then job.(state := Failed) else job
  }

  ghost predicate Distinct(order: seq<nat>) {
    forall i, j | 0 <= i < j < |order| :: order[i] != order[j]
  }

  ghost predicate Consistent(jobs: map<nat, Job>, order: seq<nat>) {
    && (forall id :: id in jobs <==> id in order)
    && (forall id | id in jobs :: jobs[id].id == id)
    && Distinct(order)
  }

  lemma ReconciledConsistent(jobs: map<nat, Job>, order: seq<nat>)
    requires Consistent(jobs, order)
    ensures Consistent(HalfReconciled(jobs, []), order)
  {
  }

  /** The pass halfway: the jobs of `todo` are still as they were. */
  function HalfReconciled(jobs: map<nat, Job>, todo: seq<nat>): map<nat, Job> {
    map id | id in jobs :: if id in todo then jobs[id] else Reconciled(jobs[id])
  }

  lemma HalfStep(jobs: map<nat, Job>, todo: seq<nat>)
    requires todo != [] && Distinct(todo) && forall id | id in todo :: id in jobs
    ensures var id, rest := todo[|todo| - 1], todo[..|todo| - 1];
            && Distinct(rest) && (forall i | i in rest :: i in jobs)
            && HalfReconciled(jobs, todo)[id := Reconciled(jobs[id])] == HalfReconciled(jobs, rest)
            && HalfReconciled(jobs, todo)[id] == jobs[id]
            && (Done(jobs[id].state) ==> HalfReconciled(jobs, todo) == HalfReconciled(jobs, rest))
  {
  }

  lemma OrphansStep(jobs: map<nat, Job>, todo: seq<nat>, notified: seq<Job>)
    requires todo != [] && forall id | id in todo :: id in jobs
    ensures var id, rest := todo[|todo| - 1], todo[..|todo| - 1];
            notified + Orphans(jobs, todo)
            == notified + (if Done(jobs[id].state) then [] else [Reconciled(jobs[id])]) + Orphans(jobs, rest)
  {
    var id, rest := todo[|todo| - 1], todo[..|todo| - 1];
    var own := if Done(jobs[id].state) then [] else [Reconciled(jobs[id])];
    assert notified + (own + Orphans(jobs, rest)) == notified + own + Orphans(jobs, rest);
  }

  class InMemoryJobStore {
    var jobs: map<nat, Job>
    var order: seq<nat>

    constructor ()
      ensures Valid() && jobs == map[] && order == []
    {
      jobs, order := map[], [];
    }

    ghost predicate Valid()
      reads this
    {
      Consistent(jobs, order)
    }

    method Create(job: Job)
      requires Valid() && job.id !in jobs
      modifies this
      ensures Valid()
      ensures jobs == old(jobs)[job.id := job] && order == old(order) + [job.id]
    {
      jobs, order := jobs[job.id := job], order + [job.id];
    }

    method Get(id: nat) returns (job: Option<Job>)
      ensures job == if id in jobs then Some(jobs[id]) else None
    {
      job := if id in jobs then Some(jobs[id]) else None;
    }

    /** Scans the submission order backwards. */
    method FindByKey(key: string) returns (job: Option<Job>)
      requires Valid()
      ensures match Latest(jobs, order, key)
              case None => job == None
              case Some(id) => id in jobs && job == Some(jobs[id])
    {
      var todo := order;
      while todo != []
        invariant todo <= order
        invariant Latest(jobs, order, key) == Latest(jobs, todo, key)
      {
        var id := todo[|todo| - 1];
        assert id in order;
        if jobs[id].key == key {
          return Some(jobs[id]);
        }
        todo := todo[..|todo| - 1];
      }
      return None;
    }

    method Update(id: nat, state: JobState) returns (job: Job)
      requires id in jobs
      modifies this`jobs
      ensures job == old(jobs)[id].(state := state) && jobs == old(jobs)[id := job]
    {
      job := jobs[id].(state := state);
      jobs := jobs[id := job];
    }

    /** Every job left queued or running by a dead process fails, newest first, and its
        completion is delivered once; every other job is left alone. */
    method ReconcileOrphans() returns (notified: seq<Job>)
      requires Valid()
      modifies this`jobs
      ensures Valid()
      ensures jobs.Keys == old(jobs).Keys
      ensures forall id | id in jobs ::
                jobs[id] == old(jobs)[id].(state := if old(jobs)[id].state in {Queued, Running} then Failed
                                                    else old(jobs)[id].state)
      ensures notified == Orphans(old(jobs), order) && AreOrphans(old(jobs), order, notified)
    {
      OrphansExactly(jobs, order);
      ghost var was := jobs;
      notified := [];
      var todo := order;
      while todo != []
        invariant Distinct(todo) && forall id | id in todo :: id in was
        invariant jobs == HalfReconciled(was, todo)
        invariant notified + Orphans(was, todo) == Orphans(was, order)
      {
        HalfStep(was, todo);
        OrphansStep(was, todo, notified);
        var id, rest := todo[|todo| - 1], todo[..|todo| - 1];
        if !Done(jobs[id].state) {
          var failed := Update(id, Failed);
          notified := notified + [failed];
        } else {
          assert notified + [] == notified;
        }
        todo := rest;
      }
      ReconciledConsistent(was, order);
    }
  }

  /** The failed form of each job caught queued or running, once, the later submitted first. */
  ghost predicate AreOrphans(jobs: map<nat, Job>, order: seq<nat>, notified: seq<Job>) {
    && (forall job :: job in notified <==>
          exists id :: id in order && id in jobs && jobs[id].state in {Queued, Running}
                       && job == jobs[id].(state := Failed))
    && forall i, j | 0 <= i < j < |notified| :: Later(order, notified[i].id, notified[j].id)
  }

  predicate Later(order: seq<nat>, a: nat, b: nat) {
    exists i, j :: 0 <= j < i < |order| && order[i] == a && order[j] == b
  }

  lemma {:induction false} OrphansExactly(jobs: map<nat, Job>, order: seq<nat>)
    requires forall id | id in order :: id in jobs && jobs[id].id == id
    ensures AreOrphans(jobs, order, Orphans(jobs, order))
    decreases |order|
  {
    if order != [] {
      var rest, last := order[..|order| - 1], order[|order| - 1];
      OrphansExactly(jobs, rest);
      OrphansLonger(jobs, rest, last);
      assert order == rest + [last];
    }
  }

  lemma OrphansLonger(jobs: map<nat, Job>, order: seq<nat>, last: nat)
    requires forall id | id in order :: id in jobs && jobs[id].id == id
    requires last in jobs && jobs[last].id == last && AreOrphans(jobs, order, Orphans(jobs, order))
    ensures AreOrphans(jobs, order + [last], Orphans(jobs, order + [last]))
  {
    OrphansSnoc(jobs, order, last);
    OrphanMore(jobs, order, last, Orphans(jobs, order));
  }

  lemma OrphansSnoc(jobs: map<nat, Job>, order: seq<nat>, last: nat)
    requires last in jobs
    ensures Orphans(jobs, order + [last])
            == (if jobs[last].state in {Queued, Running} then [jobs[last].(state := Failed)] else [])
               + Orphans(jobs, order)
  {
    assert (order + [last])[..|order|] == order;
  }

  /** One job more, the last submitted. */
  lemma OrphanMore(jobs: map<nat, Job>, order: seq<nat>, last: nat, notified: seq<Job>)
    requires last in jobs && jobs[last].id == last && (forall id | id in order :: id in jobs && jobs[id].id == id)
    requires AreOrphans(jobs, order, notified)
    ensures var own := if jobs[last].state in {Queued, Running} then [jobs[last].(state := Failed)] else [];
            AreOrphans(jobs, order + [last], own + notified)
  {
    var all := order + [last];
    var own := if jobs[last].state in {Queued, Running} then [jobs[last].(state := Failed)] else [];
    var more := own + notified;
    assert forall id :: id in all <==> id in order || id == last;
    forall i, j | 0 <= i < j < |more| ensures Later(all, more[i].id, more[j].id) {
      var d := |own|;
      if i < d {
        assert more[j] == notified[j - d] && notified[j - d] in notified;
        OrphanIsListed(jobs, order, notified, notified[j - d], last);
      } else {
        assert Later(order, notified[i - d].id, notified[j - d].id);
        LaterStill(order, last, notified[i - d].id, notified[j - d].id);
      }
    }
  }

  lemma OrphanIsListed(jobs: map<nat, Job>, order: seq<nat>, notified: seq<Job>, job: Job, last: nat)
    requires AreOrphans(jobs, order, notified) && job in notified
    requires forall id | id in order :: id in jobs && jobs[id].id == id
    ensures Later(order + [last], last, job.id)
  {
    var id :| id in order && id in jobs && job == jobs[id].(state := Failed);
    var k :| 0 <= k < |order| && order[k] == id;
    assert (order + [last])[k] == id && (order + [last])[|order|] == last;
  }

  lemma LaterStill(order: seq<nat>, last: nat, a: nat, b: nat)
    requires Later(order, a, b)
    ensures Later(order + [last], a, b)
  {
    var i, j :| 0 <= j < i < |order| && order[i] == a && order[j] == b;
    assert (order + [last])[i] == a && (order + [last])[j] == b;
  }

  /** The failed form of every job caught queued or running, newest first. */
  function Orphans(jobs: map<nat, Job>, order: seq<nat>): seq<Job> {
    if order == [] then []
    else
      var last := order[|order| - 1];
      (if last in jobs && !Done(jobs[last].state) then [Reconciled(jobs[last])] else [])
      + Orphans(jobs, order[..|order| - 1])
  }
}
