/** The race between a two-step `put` and the collector's mark, its scan and its deletions.

    Any number of puts and collectors run at once. A put looks for its blob, writes it if it was
    absent, and then files its record, each in a step of its own. A collector lists the records, reads them one by one,
    reads the clock, and then for each unreferenced blob reads its age and deletes it. */
module CacheGc {

  type Digest = string

  /** The blob a put found or wrote: when the put looked, and the blob's mtime as it stood. */
  datatype Ticket = Ticket(key: string, blob: Digest, began: real, mtime: real)

  datatype Put =
    | Missing(key: string, blob: Digest, began: real)   // looked, and is about to write
    | Stored(ticket: Ticket)

  datatype Record = Record(put: Ticket, at: real)

  datatype Collector =
    | Marking(start: real, todo: set<string>, referenced: set<Digest>)
    | Scanning(start: real, now: real, referenced: set<Digest>)
    | Condemned(start: real, now: real, referenced: set<Digest>, blob: Digest, mtime: real)

  datatype State = State(
    clock: real,
    ac: map<string, Record>,
    cas: map<Digest, real>,           // blob mtimes
    puts: map<nat, Put>,
    collectors: map<nat, Collector>)

  const INIT := State(0.0, map[], map[], map[], map[])

  datatype Step =
    | Tick(to: real)
    | Drop(key: string)
    | PutLook(put: nat, key: string, blob: Digest)
    | PutWrite(put: nat)
    | PutRecord(put: nat)
    | List(gc: nat)
    | Read(gc: nat, key: string)
    | ReadClock(gc: nat)
    | Stat(gc: nat, blob: Digest)
    | Unlink(gc: nat)
    | Leave(gc: nat)

  /** What a run is held to: the grace, how long a mark may take, and whether a deletion finds the
      blob that was aged, or one collector runs at a time and a put writes the blob it missed
      within the grace. */
  datatype Rules = Rules(grace: real, span: real, steady: bool, solo: bool)

  predicate Enabled(u: Rules, s: State, step: Step) {
    match step
    case Tick(to) => to >= s.clock
    case Drop(key) => true
    case PutLook(p, _, _) => p !in s.puts
    case PutWrite(p) =>
      p in s.puts && s.puts[p].Missing? && (u.solo ==> Quick(u, s.puts[p], s.clock))
    case PutRecord(p) => p in s.puts && s.puts[p].Stored?
    case List(g) => g !in s.collectors && (u.solo ==> s.collectors == map[])
    case Read(g, key) => g in s.collectors && s.collectors[g].Marking? && key in s.collectors[g].todo
    case ReadClock(g) =>
      g in s.collectors && s.collectors[g].Marking? && s.collectors[g].todo == {}
      && s.clock - s.collectors[g].start <= u.span
    case Stat(g, d) =>
      g in s.collectors && s.collectors[g].Scanning? && d in s.cas && d !in s.collectors[g].referenced
      && s.collectors[g].now - s.cas[d] >= u.grace
    case Unlink(g) =>
      g in s.collectors && s.collectors[g].Condemned? && (u.steady ==> Steady(s.cas, s.collectors[g]))
    case Leave(g) => g in s.collectors && s.collectors[g].Scanning?
  }

  predicate Quick(u: Rules, p: Put, clock: real)
    requires p.Missing?
  {
    clock == p.began || clock - p.began < u.grace
  }

  /** The blob about to go, if still there, is the one whose age was read. */
  predicate Steady(cas: map<Digest, real>, c: Collector)
    requires c.Condemned?
  {
    c.blob in cas ==> cas[c.blob] == c.mtime
  }

  function ReadRecord(c: Collector, ac: map<string, Record>, key: string): Collector
    requires c.Marking?
  {
    c.(todo := c.todo - {key}, referenced := c.referenced + if key in ac then {ac[key].put.blob} else {})
  }

  function Do(u: Rules, s: State, step: Step): State
    requires Enabled(u, s, step)
  {
    match step
    case Tick(to) => s.(clock := to)
    case Drop(key) => s.(ac := s.ac - {key})
    case PutLook(p, key, d) =>
      s.(puts := s.puts[p := if d in s.cas then Stored(Ticket(key, d, s.clock, s.cas[d]))
                             else Missing(key, d, s.clock)])
    case PutWrite(p) =>
      var Missing(key, d, began) := s.puts[p];
      s.(cas := s.cas[d := s.clock], puts := s.puts[p := Stored(Ticket(key, d, began, s.clock))])
    case PutRecord(p) =>
      var t := s.puts[p].ticket;
      s.(ac := s.ac[t.key := Record(t, s.clock)], puts := s.puts - {p})
    case List(g) => s.(collectors := s.collectors[g := Marking(s.clock, s.ac.Keys, {})])
    case Read(g, key) => s.(collectors := s.collectors[g := ReadRecord(s.collectors[g], s.ac, key)])
    case ReadClock(g) =>
      var c := s.collectors[g];
      s.(collectors := s.collectors[g := Scanning(c.start, s.clock, c.referenced)])
    case Stat(g, d) =>
      var c := s.collectors[g];
      s.(collectors := s.collectors[g := Condemned(c.start, c.now, c.referenced, d, s.cas[d])])
    case Unlink(g) =>
      var c := s.collectors[g];
      s.(cas := s.cas - {c.blob}, collectors := s.collectors[g := Scanning(c.start, c.now, c.referenced)])
    case Leave(g) => s.(collectors := s.collectors - {g})
  }

  ghost predicate Next(u: Rules, s: State, t: State) {
    exists step :: Enabled(u, s, step) && t == Do(u, s, step)
  }

  ghost predicate Trace(u: Rules, run: seq<State>) {
    && run != [] && run[0] == INIT
    && forall i | 0 < i < |run| :: Next(u, run[i - 1], run[i])
  }

  ghost predicate Reachable(u: Rules, s: State) {
    exists run :: Trace(u, run) && run[|run| - 1] == s
  }

  lemma ReachInit(u: Rules)
    ensures Reachable(u, INIT)
  {
    assert Trace(u, [INIT]);
  }

  lemma ReachNext(u: Rules, s: State, step: Step) returns (t: State)
    requires Reachable(u, s) && Enabled(u, s, step)
    ensures t == Do(u, s, step) && Reachable(u, t)
  {
    t := Do(u, s, step);
    var run :| Trace(u, run) && run[|run| - 1] == s;
    var longer := run + [t];
    forall i | 0 < i < |longer| ensures Next(u, longer[i - 1], longer[i]) {
      if i < |run| {
        assert Next(u, run[i - 1], run[i]);
      }
    }
    assert Trace(u, longer);
  }

  // ---- What a run keeps ---------------------------------------------------------------------------

  /** The record landed within `lag` of the mtime its put saw. */
  predicate Prompt(r: Record, lag: real) {
    r.at - r.put.mtime <= lag
  }

  predicate Safe(s: State, lag: real) {
    forall k | k in s.ac && Prompt(s.ac[k], lag) :: s.ac[k].put.blob in s.cas
  }

  /** The blob a ticket saw is still there, or a younger copy. */
  predicate Holds(cas: map<Digest, real>, t: Ticket) {
    t.blob in cas && cas[t.blob] >= t.mtime
  }

  /** A blob that a put missed can only have come later; one it stored promptly is there. */
  predicate PutInv(s: State, p: Put, lag: real) {
    match p
    case Missing(_, d, began) => began <= s.clock && (d in s.cas ==> s.cas[d] >= began)
    case Stored(t) => s.clock - t.mtime <= lag ==> Holds(s.cas, t)
  }

  /** The collector knows the record, will still read it, or began before it landed. */
  predicate Sees(c: Collector, key: string, r: Record) {
    c.start <= r.at || r.put.blob in c.referenced || (c.Marking? && key in c.todo)
  }

  predicate CollectorInv(u: Rules, s: State, c: Collector) {
    && c.start <= s.clock
    && (!c.Marking? ==> c.start <= c.now <= s.clock && c.now - c.start <= u.span)
    && (c.Condemned? ==>
          && c.now - c.mtime >= u.grace && c.blob !in c.referenced
          && (u.solo ==> c.blob in s.cas && Steady(s.cas, c)))
  }

  ghost predicate Inv(u: Rules, lag: real, s: State) {
    && (forall d | d in s.cas :: s.cas[d] <= s.clock)
    && (forall p | p in s.puts :: PutInv(s, s.puts[p], lag))
    && (forall k | k in s.ac :: s.ac[k].put.key == k && s.ac[k].at <= s.clock)
    && (forall k | k in s.ac && Prompt(s.ac[k], lag) :: Holds(s.cas, s.ac[k].put))
    && (forall g | g in s.collectors :: CollectorInv(u, s, s.collectors[g]))
    && (forall g, k | g in s.collectors && k in s.ac :: Sees(s.collectors[g], k, s.ac[k]))
    && (u.solo ==> forall g, h | g in s.collectors && h in s.collectors :: g == h)
  }

  predicate Careful(u: Rules, lag: real) {
    lag >= 0.0 && lag + u.span < u.grace && u.span >= 0.0 && (u.steady || u.solo)
  }

  /** What a deletion takes is too old to be anything a prompt put relies on. */
  lemma UnlinkSpares(u: Rules, lag: real, s: State, g: nat)
    requires Careful(u, lag) && Inv(u, lag, s) && Enabled(u, s, Unlink(g))
    ensures var d := s.collectors[g].blob;
            && (forall k | k in s.ac && Prompt(s.ac[k], lag) :: s.ac[k].put.blob != d)
            && (forall p | p in s.puts && s.puts[p].Stored? && s.clock - s.puts[p].ticket.mtime <= lag ::
                  s.puts[p].ticket.blob != d)
  {
  }

  lemma StepKeepsBlobs(u: Rules, lag: real, s: State, step: Step)
    requires Careful(u, lag) && Inv(u, lag, s) && Enabled(u, s, step)
    ensures var t := Do(u, s, step);
            && (forall d | d in t.cas :: t.cas[d] <= t.clock)
            && (forall p | p in t.puts :: PutInv(t, t.puts[p], lag))
            && (forall k | k in t.ac :: t.ac[k].put.key == k && t.ac[k].at <= t.clock)
            && (forall k | k in t.ac && Prompt(t.ac[k], lag) :: Holds(t.cas, t.ac[k].put))
  {
    if step.Unlink? {
      UnlinkSpares(u, lag, s, step.gc);
    }
  }

  lemma StepKeepsCollector(u: Rules, lag: real, s: State, step: Step, g: nat)
    requires Careful(u, lag) && Inv(u, lag, s) && Enabled(u, s, step) && g in Do(u, s, step).collectors
    ensures var t := Do(u, s, step); CollectorInv(u, t, t.collectors[g])
  {
    if g in s.collectors {
      assert CollectorInv(u, s, s.collectors[g]);
    }
    if u.solo && step.Unlink? {
      assert step.gc in s.collectors;
    }
  }

  lemma StepKeepsSight(u: Rules, lag: real, s: State, step: Step, g: nat, k: string)
    requires Careful(u, lag) && Inv(u, lag, s) && Enabled(u, s, step)
    requires g in Do(u, s, step).collectors && k in Do(u, s, step).ac
    ensures var t := Do(u, s, step); Sees(t.collectors[g], k, t.ac[k])
  {
    if g in s.collectors {
      assert CollectorInv(u, s, s.collectors[g]);
      if k in s.ac {
        assert Sees(s.collectors[g], k, s.ac[k]);
      }
    }
  }

  lemma StepKeepsInv(u: Rules, lag: real, s: State, step: Step)
    requires Careful(u, lag) && Inv(u, lag, s) && Enabled(u, s, step)
    ensures Inv(u, lag, Do(u, s, step))
  {
    var t := Do(u, s, step);
    StepKeepsBlobs(u, lag, s, step);
    forall g | g in t.collectors ensures CollectorInv(u, t, t.collectors[g]) {
      StepKeepsCollector(u, lag, s, step, g);
    }
    forall g, k | g in t.collectors && k in t.ac ensures Sees(t.collectors[g], k, t.ac[k]) {
      StepKeepsSight(u, lag, s, step, g, k);
    }
  }

  lemma {:induction false} TraceKeepsInv(u: Rules, lag: real, run: seq<State>, i: nat)
    requires Careful(u, lag) && Trace(u, run) && i < |run|
    ensures Inv(u, lag, run[i])
  {
    if i > 0 {
      TraceKeepsInv(u, lag, run, i - 1);
      assert Next(u, run[i - 1], run[i]);
      var step :| Enabled(u, run[i - 1], step) && run[i] == Do(u, run[i - 1], step);
      StepKeepsInv(u, lag, run[i - 1], step);
    }
  }

  lemma CarefulIsSafe(u: Rules, lag: real, s: State)
    requires Careful(u, lag) && Reachable(u, s)
    ensures Safe(s, lag)
  {
    var run :| Trace(u, run) && run[|run| - 1] == s;
    TraceKeepsInv(u, lag, run, |run| - 1);
    assert forall k | k in s.ac && Prompt(s.ac[k], lag) :: Holds(s.cas, s.ac[k].put);
  }

  // ---- The runs that lose a blob -------------------------------------------------------------------

  predicate Dangling(s: State, key: string) {
    key in s.ac && s.ac[key].put.blob !in s.cas
  }

  /** A blob written at the start that has no record when `age` has passed. */
  lemma Orphan(u: Rules, key: string, d: Digest, age: real) returns (s: State)
    requires age >= 0.0
    ensures Reachable(u, s)
    ensures s == State(age, map[], map[d := 0.0], map[0 := Stored(Ticket(key, d, 0.0, 0.0))], map[])
  {
    ReachInit(u);
    s := ReachNext(u, INIT, PutLook(0, key, d));
    s := ReachNext(u, s, PutWrite(0));
    s := ReachNext(u, s, Tick(age));
  }

  /** A put writes its blob at the start and files its record `lag` later, just after a collector
      listed the records; that collector's clock is read `span` later still. */
  lemma MissedRecord(u: Rules, lag: real, key: string, d: Digest) returns (s: State)
    requires lag >= 0.0 && u.span >= 0.0 && lag + u.span >= u.grace
    ensures Reachable(u, s) && Dangling(s, key)
    ensures s.ac[key] == Record(Ticket(key, d, 0.0, 0.0), lag)
  {
    s := Orphan(u, key, d, lag);
    s := ReachNext(u, s, List(0));
    s := ReachNext(u, s, PutRecord(0));
    s := ReachNext(u, s, Tick(lag + u.span));
    s := ReachNext(u, s, ReadClock(0));
    s := ReachNext(u, s, Stat(0, d));
    s := ReachNext(u, s, Unlink(0));
  }

  /** A put that takes no time at all, and a mark that takes none, still lose the blob when the
      put found it lying there as an orphan older than the grace: its mtime is not refreshed. */
  lemma ReusedOrphan(u: Rules, key: string, d: Digest) returns (s: State)
    requires u.grace >= 0.0 && u.span >= 0.0
    ensures Reachable(u, s) && Dangling(s, key)
    ensures s.ac[key].at == s.ac[key].put.began == s.clock
  {
    s := Orphan(u, key, d, u.grace);
    s := ReachNext(u, s, List(0));
    s := ReachNext(u, s, PutLook(1, key, d));
    s := ReachNext(u, s, PutRecord(1));
    s := ReachNext(u, s, ReadClock(0));
    s := ReachNext(u, s, Stat(0, d));
    s := ReachNext(u, s, Unlink(0));
  }

  /** Two collectors condemn the same old orphan; one deletes it, a put writes it afresh, and the
      other deletes that. */
  lemma TornDeletion(u: Rules, key: string, d: Digest) returns (s: State)
    requires u.grace >= 0.0 && u.span >= 0.0 && !u.steady && !u.solo
    ensures Reachable(u, s) && Dangling(s, key)
    ensures s.ac[key] == Record(Ticket(key, d, u.grace, u.grace), u.grace)
  {
    s := Orphan(u, key, d, u.grace);
    s := ReachNext(u, s, List(0));
    s := ReachNext(u, s, ReadClock(0));
    s := ReachNext(u, s, Stat(0, d));
    s := ReachNext(u, s, List(1));
    s := ReachNext(u, s, ReadClock(1));
    s := ReachNext(u, s, Stat(1, d));
    s := ReachNext(u, s, Unlink(1));
    s := ReachNext(u, s, PutLook(1, key, d));
    s := ReachNext(u, s, PutWrite(1));
    s := ReachNext(u, s, PutRecord(1));
    s := ReachNext(u, s, Unlink(0));
  }

  /** When the grace protects every record that lands within `lag` of its blob's mtime: exactly
      when it outlasts that lag and the longest mark together, and no deletion can hit a blob
      written since it was aged. */
  lemma GraceProtectsExactly(u: Rules, lag: real)
    requires lag >= 0.0 && u.span >= 0.0 && u.grace >= 0.0
    ensures (forall s | Reachable(u, s) :: Safe(s, lag)) <==> lag + u.span < u.grace && (u.steady || u.solo)
  {
    if lag + u.span < u.grace && (u.steady || u.solo) {
      forall s | Reachable(u, s) ensures Safe(s, lag) {
        CarefulIsSafe(u, lag, s);
      }
    } else if lag + u.span >= u.grace {
      var s := MissedRecord(u, lag, "k", "d");
      assert !Safe(s, lag);
    } else {
      var s := TornDeletion(u, "k", "d");
      assert !Safe(s, lag);
    }
  }
}
